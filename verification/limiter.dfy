/** The sliding-window restart limiter of `ProcessWatchDog`: a deque of restart
    timestamps, oldest first, pruned from the front and checked against a maximum. */
module RestartLimiter {
  import opened Wrappers

  const DEFAULT_MAX_RESTARTS: int := 5
  const RESTART_TIMEFRAME: int := 3600

  datatype Limiter = Limiter(restarts: seq<int>, maxRestarts: int)

  /** `max_restarts or DEFAULT_MAX_RESTARTS`: a missing argument and a zero are
      both falsy in Python, so neither can make the limit zero. */
  function MaxRestartsFrom(arg: Option<int>): (m: int)
    ensures m != 0
    ensures (arg.None? || arg.value == 0) ==> m == DEFAULT_MAX_RESTARTS
    ensures arg.Some? && arg.value != 0 ==> m == arg.value
  {
    match arg
    case Some(v) => if v != 0 then v else DEFAULT_MAX_RESTARTS
    case None => DEFAULT_MAX_RESTARTS
  }

  function NewLimiter(arg: Option<int>): (l: Limiter)
    ensures l.restarts == []
    ensures l.maxRestarts != 0
  {
    Limiter([], MaxRestartsFrom(arg))
  }

  ghost predicate Sorted(s: seq<int>) {
    forall i, j :: 0 <= i <= j < |s| ==> s[i] <= s[j]
  }

  /** The `popleft` loop of `_can_restart`: drop timestamps from the front while
      the oldest one is before `now - RESTART_TIMEFRAME`.  The result is the
      suffix that starts at the first timestamp inside the window: every dropped
      element is outside it, and the remaining head is inside it. */
  function Prune(ts: seq<int>, now: int): (r: seq<int>)
    ensures |r| <= |ts| && r == ts[|ts| - |r|..]
    ensures forall i :: 0 <= i < |ts| - |r| ==> ts[i] < now - RESTART_TIMEFRAME
    ensures |r| > 0 ==> r[0] >= now - RESTART_TIMEFRAME
  {
    ts[FirstInWindow(ts, now, 0)..]
  }

  function FirstInWindow(ts: seq<int>, now: int, from: nat): (k: nat)
    requires from <= |ts|
    ensures from <= k <= |ts|
    ensures forall i :: from <= i < k ==> ts[i] < now - RESTART_TIMEFRAME
    ensures k < |ts| ==> ts[k] >= now - RESTART_TIMEFRAME
    decreases |ts| - from
  {
    if from < |ts| && ts[from] < now - RESTART_TIMEFRAME then FirstInWindow(ts, now, from + 1) else from
  }

  /** On a sorted deque (the clock never ran backwards) every kept timestamp is
      inside the window, and the kept ones stay in order. */
  lemma PruneSorted(ts: seq<int>, now: int)
    requires Sorted(ts)
    ensures Sorted(Prune(ts, now))
    ensures forall x :: x in Prune(ts, now) ==> x >= now - RESTART_TIMEFRAME
  {
    var r := Prune(ts, now);
    forall x | x in r
      ensures x >= now - RESTART_TIMEFRAME
    {
      var k :| 0 <= k < |r| && r[k] == x;
      assert r[0] == ts[|ts| - |r|] && r[k] == ts[|ts| - |r| + k];
    }
  }

  /** Outcome of `_can_restart`, together with the pruned limiter it leaves. */
  datatype Admission = Admission(limiter: Limiter, granted: bool, attempts: nat)

  /** `_can_restart` followed by the bookkeeping of `restart`: a granted restart
      appends `now`, a denied one leaves the pruned deque as it is.  `attempts`
      is the deque length reported in the denial message. */
  function Admit(l: Limiter, now: int): (a: Admission)
    ensures a.limiter.maxRestarts == l.maxRestarts
    ensures a.attempts == |Prune(l.restarts, now)|
    ensures a.granted <==> a.attempts < l.maxRestarts
    ensures a.granted ==> a.limiter.restarts == Prune(l.restarts, now) + [now]
    ensures a.granted ==> |a.limiter.restarts| <= l.maxRestarts
    ensures !a.granted ==> a.limiter.restarts == Prune(l.restarts, now)
  {
    var kept := Prune(l.restarts, now);
    if |kept| < l.maxRestarts then Admission(Limiter(kept + [now], l.maxRestarts), true, |kept|)
    else Admission(Limiter(kept, l.maxRestarts), false, |kept|)
  }

  /** Fewer than `max` earlier granted restarts lie within `RESTART_TIMEFRAME`
      before the restart at `h[j]`: the check `restart` made when granting it. */
  ghost predicate FewInWindowBefore(h: seq<int>, j: int, max: int)
    requires 0 <= j < |h|
  {
    forall i :: 0 <= i <= j && h[j] - h[i] <= RESTART_TIMEFRAME ==> j - i < max
  }

  /** Every granted restart in the history passed the window check. */
  ghost predicate Spaced(h: seq<int>, max: int)
    decreases |h|
  {
    |h| == 0 || (Spaced(h[..|h| - 1], max) && FewInWindowBefore(h, |h| - 1, max))
  }

  /** A spaced history never crowds a window: whenever two granted restarts
      `h[i]` and `h[j]` lie within `RESTART_TIMEFRAME` of each other, the
      `j - i + 1` restarts from `h[i]` to `h[j]` number at most `max`. */
  lemma {:induction false} SpacedAnyWindow(h: seq<int>, max: int)
    requires Spaced(h, max)
    ensures forall i, j :: 0 <= i <= j < |h| && h[j] - h[i] <= RESTART_TIMEFRAME ==> j - i + 1 <= max
    decreases |h|
  {
    if |h| > 0 {
      var init := h[..|h| - 1];
      SpacedAnyWindow(init, max);
      forall i, j | 0 <= i <= j < |h| && h[j] - h[i] <= RESTART_TIMEFRAME
        ensures j - i + 1 <= max
      {
        if j < |h| - 1 {
          assert h[i] == init[i] && h[j] == init[j];
        }
      }
    }
  }

  datatype Trace = Trace(limiter: Limiter, granted: seq<int>)

  /** Replays restart attempts at the given times, collecting the granted ones. */
  function AdmitAll(l: Limiter, times: seq<int>): (t: Trace)
    decreases |times|
  {
    if times == [] then Trace(l, [])
    else
      var prev := AdmitAll(l, times[..|times| - 1]);
      var now := times[|times| - 1];
      var a := Admit(prev.limiter, now);
      Trace(a.limiter, if a.granted then prev.granted + [now] else prev.granted)
  }

  /** What replaying attempts up to time `now` keeps true: the deque is the
      suffix of the granted history that the last prune kept, everything older
      is outside the window at `now`, and the history is sorted and spaced. */
  ghost predicate TraceInvariant(t: Trace, now: int, max: int) {
    var r := t.limiter.restarts;
    var h := t.granted;
    && t.limiter.maxRestarts == max
    && Sorted(h)
    && (|h| > 0 ==> h[|h| - 1] <= now)
    && |r| <= |h| && r == h[|h| - |r|..]
    && (forall i :: 0 <= i < |h| - |r| ==> h[i] < now - RESTART_TIMEFRAME)
    && Spaced(h, max)
  }

  /** After pruning at `now`, the deque is the suffix of the history that
      starts at the first granted restart still inside the window. */
  lemma PruneSplitsHistory(h: seq<int>, r: seq<int>, prevNow: int, now: int)
    requires Sorted(h)
    requires |r| <= |h| && r == h[|h| - |r|..]
    requires forall i :: 0 <= i < |h| - |r| ==> h[i] < prevNow - RESTART_TIMEFRAME
    requires prevNow <= now
    ensures
      var p := Prune(r, now);
      var k := |h| - |p|;
      && 0 <= k <= |h| && p == h[k..]
      && (forall i :: 0 <= i < k ==> h[i] < now - RESTART_TIMEFRAME)
      && (forall i :: k <= i < |h| ==> h[i] >= now - RESTART_TIMEFRAME)
  {
    var p := Prune(r, now);
    var k := |h| - |p|;
    var m := |h| - |r|;
    assert p == h[k..] by {
      assert p == r[|r| - |p|..];
      forall i | 0 <= i < |p|
        ensures p[i] == h[k + i]
      {
        assert p[i] == r[|r| - |p| + i];
        assert r[|r| - |p| + i] == h[m + |r| - |p| + i];
      }
    }
    forall i | 0 <= i < k
      ensures h[i] < now - RESTART_TIMEFRAME
    {
      if i >= m {
        assert h[i] == r[i - m];
      }
    }
    forall i | k <= i < |h|
      ensures h[i] >= now - RESTART_TIMEFRAME
    {
      assert h[k] == p[0];
    }
  }

  /** A granted attempt extends a spaced history and stays spaced: every
      granted restart inside the window at `now` is in the pruned deque, which
      was shorter than the maximum. */
  lemma GrantKeepsSpaced(h: seq<int>, k: int, now: int, max: int)
    requires Spaced(h, max)
    requires 0 <= k <= |h| && |h| - k < max
    requires forall i :: 0 <= i < k ==> h[i] < now - RESTART_TIMEFRAME
    ensures Spaced(h + [now], max)
  {
    var h' := h + [now];
    assert h'[..|h'| - 1] == h;
    forall i | 0 <= i <= |h| && h'[|h|] - h'[i] <= RESTART_TIMEFRAME
      ensures |h| - i < max
    {
      assert i == |h| || h'[i] == h[i];
    }
  }

  /** Appending `x` to a sorted `h` whose elements are all at most `x` yields
      a sorted history, all at most `x`, whose `k`-suffix is `h[k..] + [x]`. */
  lemma AppendFacts(h: seq<int>, k: int, x: int, cut: int)
    requires Sorted(h)
    requires forall i :: 0 <= i < |h| ==> h[i] <= x
    requires 0 <= k <= |h|
    requires forall i :: 0 <= i < k ==> h[i] < cut
    ensures Sorted(h + [x])
    ensures forall i :: 0 <= i < |h + [x]| ==> (h + [x])[i] <= x
    ensures (h + [x])[k..] == h[k..] + [x]
    ensures forall i :: 0 <= i < k ==> (h + [x])[i] < cut
  {
  }

  /** A denied attempt only prunes the deque. */
  lemma DeniedKeepsInvariant(t: Trace, prevNow: int, now: int, max: int)
    requires TraceInvariant(t, prevNow, max)
    requires prevNow <= now
    requires !Admit(t.limiter, now).granted
    ensures TraceInvariant(Trace(Admit(t.limiter, now).limiter, t.granted), now, max)
  {
    PruneSplitsHistory(t.granted, t.limiter.restarts, prevNow, now);
  }

  /** A granted attempt appends `now` to both the deque and the history. */
  lemma GrantedKeepsInvariant(t: Trace, prevNow: int, now: int, max: int)
    requires TraceInvariant(t, prevNow, max)
    requires prevNow <= now
    requires Admit(t.limiter, now).granted
    ensures TraceInvariant(Trace(Admit(t.limiter, now).limiter, t.granted + [now]), now, max)
  {
    var h := t.granted;
    var k := |h| - |Prune(t.limiter.restarts, now)|;
    assert Prune(t.limiter.restarts, now) == h[k..] && forall i :: 0 <= i < k ==> h[i] < now - RESTART_TIMEFRAME by {
      PruneSplitsHistory(h, t.limiter.restarts, prevNow, now);
    }
    GrantedStep(t.limiter, h, k, now, max);
  }

  /** The granted step on the pruned suffix `h[k..]` of a sorted, spaced
      history. */
  lemma GrantedStep(l: Limiter, h: seq<int>, k: int, now: int, max: int)
    requires l.maxRestarts == max
    requires Sorted(h) && Spaced(h, max)
    requires |h| > 0 ==> h[|h| - 1] <= now
    requires 0 <= k <= |h| && Prune(l.restarts, now) == h[k..]
    requires Admit(l, now).granted
    requires forall i :: 0 <= i < k ==> h[i] < now - RESTART_TIMEFRAME
    ensures TraceInvariant(Trace(Admit(l, now).limiter, h + [now]), now, max)
  {
    GrantKeepsSpaced(h, k, now, max);
    assert forall i :: 0 <= i < |h| ==> h[i] <= h[|h| - 1];
    AppendFacts(h, k, now, now - RESTART_TIMEFRAME);
  }

  /** One more attempt at a time no earlier than the last keeps the invariant. */
  lemma AdmitKeepsInvariant(t: Trace, prevNow: int, now: int, max: int)
    requires TraceInvariant(t, prevNow, max)
    requires prevNow <= now
    ensures
      var a := Admit(t.limiter, now);
      TraceInvariant(Trace(a.limiter, if a.granted then t.granted + [now] else t.granted), now, max)
  {
    if Admit(t.limiter, now).granted {
      GrantedKeepsInvariant(t, prevNow, now, max);
    } else {
      DeniedKeepsInvariant(t, prevNow, now, max);
    }
  }

  /** The rate limit holds over any history: starting from an empty deque and
      with a clock that never goes backwards, no window of `RESTART_TIMEFRAME`
      ever holds more than `maxRestarts` granted restarts. */
  lemma {:induction false} AdmitAllSpaced(l: Limiter, times: seq<int>)
    requires l.restarts == []
    requires Sorted(times)
    ensures Spaced(AdmitAll(l, times).granted, l.maxRestarts)
    ensures times != [] ==> TraceInvariant(AdmitAll(l, times), times[|times| - 1], l.maxRestarts)
  {
    if times == [] {
    } else if |times| == 1 {
      AdmitKeepsInvariant(Trace(l, []), times[0], times[0], l.maxRestarts);
    } else {
      var init := times[..|times| - 1];
      AdmitAllSpaced(l, init);
      AdmitKeepsInvariant(AdmitAll(l, init), init[|init| - 1], times[|times| - 1], l.maxRestarts);
    }
  }

  /** The rate limit the `max_restarts` parameter documents ("maximum number
      of restarts per `_RESTART_TIMEFRAME` timeframe"): over any history of restart
      attempts, with a clock that never goes backwards, any two granted
      restarts at most `RESTART_TIMEFRAME` apart enclose at most `maxRestarts`
      granted restarts, themselves included. */
  lemma RestartWindowBound(l: Limiter, times: seq<int>)
    requires l.restarts == []
    requires Sorted(times)
    ensures
      var h := AdmitAll(l, times).granted;
      forall i, j :: 0 <= i <= j < |h| && h[j] - h[i] <= RESTART_TIMEFRAME ==> j - i + 1 <= l.maxRestarts
  {
    AdmitAllSpaced(l, times);
    SpacedAnyWindow(AdmitAll(l, times).granted, l.maxRestarts);
  }

  /** The default limit in action: with five restarts already recorded in
      the last hour a sixth is denied, reporting five attempts; once the hour
      has passed the oldest one falls out and restarts resume. */
  lemma DefaultLimitScenario()
    ensures NewLimiter(None).maxRestarts == 5
    ensures !Admit(Limiter([0, 1, 2, 3, 4], 5), 5).granted
    ensures Admit(Limiter([0, 1, 2, 3, 4], 5), 5).attempts == 5
    ensures Admit(Limiter([0, 1, 2, 3, 4], 5), 3601).limiter.restarts == [1, 2, 3, 4, 3601]
  {
    assert FirstInWindow([0, 1, 2, 3, 4], 5, 0) == 0;
    assert FirstInWindow([0, 1, 2, 3, 4], 3601, 1) == 1;
    assert [0, 1, 2, 3, 4][1..] == [1, 2, 3, 4];
  }

  /** `AdmitAll` unfolded at its last attempt. */
  lemma AdmitAllSnoc(l: Limiter, times: seq<int>, now: int)
    ensures AdmitAll(l, times + [now]) ==
      var prev := AdmitAll(l, times);
      var a := Admit(prev.limiter, now);
      Trace(a.limiter, if a.granted then prev.granted + [now] else prev.granted)
  {
    assert (times + [now])[..|times|] == times;
  }

  /** While the oldest recorded restart is inside the window and the limit
      is not reached, a restart is granted and simply appended. */
  lemma AdmitFresh(l: Limiter, now: int)
    requires |l.restarts| < l.maxRestarts
    requires |l.restarts| > 0 ==> l.restarts[0] >= now - RESTART_TIMEFRAME
    ensures Admit(l, now) == Admission(Limiter(l.restarts + [now], l.maxRestarts), true, |l.restarts|)
  {
    assert FirstInWindow(l.restarts, now, 0) == 0;
  }

  lemma ThreeSnocs(t0: int, t1: int, t2: int)
    ensures ([] + [t0]) + [t1] + [t2] == [t0, t1, t2]
  {
  }

  /** A limit of three: three attempts within one window are all granted,
      the deque growing to three entries, and a fourth attempt still inside
      that window is denied with three attempts on record (as at times 0, 1,
      2 and 3). */
  lemma LimitOfThreeScenario(t0: int, t1: int, t2: int, t3: int)
    requires t0 <= t1 <= t2 <= t3 <= t0 + RESTART_TIMEFRAME
    ensures AdmitAll(Limiter([], 3), [t0, t1, t2]).granted == [t0, t1, t2]
    ensures AdmitAll(Limiter([], 3), [t0, t1, t2]).limiter.restarts == [t0, t1, t2]
    ensures !Admit(Limiter([t0, t1, t2], 3), t3).granted
    ensures Admit(Limiter([t0, t1, t2], 3), t3).attempts == 3
  {
    var l := Limiter([], 3);
    var h0: seq<int> := [];
    var h1 := h0 + [t0];
    var h2 := h1 + [t1];
    var h3 := h2 + [t2];
    AdmitAllSnoc(l, h0, t0);
    AdmitFresh(l, t0);
    AdmitAllSnoc(l, h1, t1);
    AdmitFresh(Limiter(h1, 3), t1);
    AdmitAllSnoc(l, h2, t2);
    AdmitFresh(Limiter(h2, 3), t2);
    ThreeSnocs(t0, t1, t2);
    assert FirstInWindow([t0, t1, t2], t3, 0) == 0;
  }
}
