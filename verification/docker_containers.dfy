/** The container side of the Docker check: the size-query cadence and the
    counting and exclusion of `_get_and_count_containers`, and the retry
    counter of `_report_cgroup_metrics`. */
module DockerContainers {
  import opened Wrappers
  import opened Text
  import opened DockerTags

  /** `SIZE_REFRESH_RATE`: container sizes are asked for every fifth run. */
  const SIZE_REFRESH_RATE: nat := 5

  datatype SizeQuery = SizeQuery(mustQuery: bool, next: nat)

  /** The first two statements of `_get_and_count_containers`.  Note that the
      setting read here defaults to off (`collect_container_size` is looked up
      with `False`), while `check` defaults the same setting to on. */
  function SizeQueryStep(latest: nat, collectSize: bool): (r: SizeQuery)
    ensures r.next < SIZE_REFRESH_RATE
    ensures latest < SIZE_REFRESH_RATE ==> r.next == if latest == SIZE_REFRESH_RATE - 1 then 0 else latest + 1
    ensures r.mustQuery <==> collectSize && latest == 0
  {
    SizeQuery(collectSize && latest == 0, (latest + 1) % SIZE_REFRESH_RATE)
  }

  datatype Schedule = Schedule(queries: seq<bool>, latest: nat)

  /** `n` consecutive runs from the counter `latest`: which runs ask Docker for
      container sizes, and the counter afterwards. */
  function SizeSchedule(latest: nat, collectSize: bool, n: nat): (r: Schedule)
    ensures |r.queries| == n
    decreases n
  {
    if n == 0 then Schedule([], latest)
    else
      var step := SizeQueryStep(latest, collectSize);
      var rest := SizeSchedule(step.next, collectSize, n - 1);
      Schedule([step.mustQuery] + rest.queries, rest.latest)
  }

  lemma ModSucc(a: nat, i: nat)
    ensures ((a + 1) % SIZE_REFRESH_RATE + i) % SIZE_REFRESH_RATE == (a + 1 + i) % SIZE_REFRESH_RATE
  {
    var m := SIZE_REFRESH_RATE;
    var q := (a + 1) / m;
    assert a + 1 + i == (a + 1) % m + i + q * m;
    ModMultiple((a + 1) % m + i, q);
  }

  lemma {:induction false} ModMultiple(x: nat, q: nat)
    ensures (x + q * SIZE_REFRESH_RATE) % SIZE_REFRESH_RATE == x % SIZE_REFRESH_RATE
    decreases q
  {
    if q > 0 {
      ModMultiple(x, q - 1);
      assert x + q * SIZE_REFRESH_RATE == (x + (q - 1) * SIZE_REFRESH_RATE) + SIZE_REFRESH_RATE;
    }
  }

  /** The cadence: starting from a counter below five, run `i` queries the
      size exactly when size collection is on and `latest + i` is a multiple
      of five, and the counter keeps counting runs modulo five.  From the
      initial counter 0 that is runs 0, 5, 10, … */
  lemma {:induction false} SizeScheduleCadence(latest: nat, collectSize: bool, n: nat)
    requires latest < SIZE_REFRESH_RATE
    ensures SizeSchedule(latest, collectSize, n).latest == (latest + n) % SIZE_REFRESH_RATE
    ensures forall i :: 0 <= i < n ==>
      (SizeSchedule(latest, collectSize, n).queries[i] <==> collectSize && (latest + i) % SIZE_REFRESH_RATE == 0)
    decreases n
  {
    if n > 0 {
      var next := (latest + 1) % SIZE_REFRESH_RATE;
      SizeScheduleCadence(next, collectSize, n - 1);
      var r := SizeSchedule(latest, collectSize, n);
      var rest := SizeSchedule(next, collectSize, n - 1);
      assert r.queries == [collectSize && latest == 0] + rest.queries;
      ModSucc(latest, n - 1);
      forall i | 0 < i < n
        ensures r.queries[i] <==> collectSize && (latest + i) % SIZE_REFRESH_RATE == 0
      {
        assert r.queries[i] == rest.queries[i - 1];
        ModSucc(latest, i - 1);
      }
    }
  }

  /** One entry of the container list: the API result, the tags the counters
      are keyed by (`_get_tags` plus the instance and ECS tags), and the
      `_is_filtered` mark `_filter_containers` left (false when absent). */
  datatype Listed = Listed(entity: Entity, tags: seq<string>, excluded: bool)

  /** A `Counter` keyed by `tuple(sorted(tags))` counts tag lists up to
      order, which is what a multiset of tag multisets does. */
  datatype Counts = Counts(
    running: multiset<multiset<string>>,
    stopped: multiset<multiset<string>>,
    byId: map<string, Listed>)

  /** What the loop body needs from a container before it can count it:
      `Names[0]` (read for the log line), `Status`, and `Id` when the
      container is kept. */
  predicate Countable(c: Listed) {
    && c.entity.names.Some? && |c.entity.names.value| > 0
    && c.entity.status.Some?
    && (!c.excluded ==> c.entity.id.Some?)
  }

  predicate AllCountable(cs: seq<Listed>) {
    forall i :: 0 <= i < |cs| ==> Countable(cs[i])
  }

  predicate IsRunning(c: Listed)
    requires c.entity.status.Some?
  {
    IsContainerRunning(c.entity) == Success(true)
  }

  /** The counter keys of every listed container, as an independent
      reference for the two counters together. */
  function AllKeys(cs: seq<Listed>): (m: multiset<multiset<string>>)
    ensures |m| == |cs|
    decreases |cs|
  {
    if cs == [] then multiset{} else AllKeys(cs[..|cs| - 1]) + multiset{multiset(cs[|cs| - 1].tags)}
  }

  /** The keys of the countable containers whose status says they run. */
  function RunningKeys(cs: seq<Listed>): (m: multiset<multiset<string>>)
    decreases |cs|
  {
    if cs == [] then multiset{}
    else
      var c := cs[|cs| - 1];
      RunningKeys(cs[..|cs| - 1]) + if Countable(c) && IsRunning(c) then multiset{multiset(c.tags)} else multiset{}
  }

  /** The keys of the countable containers whose status says they stopped. */
  function StoppedKeys(cs: seq<Listed>): (m: multiset<multiset<string>>)
    decreases |cs|
  {
    if cs == [] then multiset{}
    else
      var c := cs[|cs| - 1];
      StoppedKeys(cs[..|cs| - 1]) + if Countable(c) && !IsRunning(c) then multiset{multiset(c.tags)} else multiset{}
  }

  /** Every countable container is either running or stopped, so the two
      reference counters split the keys of the whole list between them. */
  lemma {:induction false} StatusSplitsKeys(cs: seq<Listed>)
    requires AllCountable(cs)
    ensures RunningKeys(cs) + StoppedKeys(cs) == AllKeys(cs)
    decreases |cs|
  {
    if cs != [] {
      AllCountableSplit(cs);
      StatusSplitsKeys(cs[..|cs| - 1]);
    }
  }

  /** The first failure of the loop body: `Names[0]` and `Status` are read for
      every container, `Id` only for a container that is kept. */
  function CountOne(prev: Counts, c: Listed): (r: Result<Counts, TagError>)
    ensures r.Success? <==> Countable(c)
    // the counter of the container's status gains its key, the other one
    // stays as it was
    ensures r.Success? && IsRunning(c) ==>
      r.value.running == prev.running + multiset{multiset(c.tags)} && r.value.stopped == prev.stopped
    ensures r.Success? && !IsRunning(c) ==>
      r.value.stopped == prev.stopped + multiset{multiset(c.tags)} && r.value.running == prev.running
    // only a kept container is indexed, under its id
    ensures r.Success? ==>
      r.value.byId == if c.excluded then prev.byId else prev.byId[c.entity.id.value := c]
  {
    if c.entity.names.None? then Failure(KeyError("Names"))
    else if |c.entity.names.value| == 0 then Failure(IndexError)
    else
      var running :- IsContainerRunning(c.entity);
      var key := multiset(c.tags);
      var counted := if running then prev.(running := prev.running + multiset{key})
                     else prev.(stopped := prev.stopped + multiset{key});
      if c.excluded then Success(counted)
      else if c.entity.id.None? then Failure(KeyError("Id"))
      else Success(counted.(byId := counted.byId[c.entity.id.value := c]))
  }

  /** What the counters and the index say about the containers counted so
      far: every container is counted once, excluded or not, as running or as
      stopped according to its status, and only containers that are not
      excluded are indexed by their id. */
  ghost predicate Accounts(cs: seq<Listed>, k: Counts) {
    && k.running + k.stopped == AllKeys(cs)
    && k.running == RunningKeys(cs)
    && k.stopped == StoppedKeys(cs)
    && IndexesKept(cs, k)
  }

  ghost predicate IndexesKept(cs: seq<Listed>, k: Counts) {
    && (forall id :: id in k.byId ==>
          && !k.byId[id].excluded
          && k.byId[id].entity.id == Some(id)
          && exists i :: 0 <= i < |cs| && cs[i] == k.byId[id])
    && (forall i :: 0 <= i < |cs| && !cs[i].excluded && cs[i].entity.id.Some? ==> cs[i].entity.id.value in k.byId)
  }

  /** The counting loop of `_get_and_count_containers` over the listed
      containers, returning both counters and `containers_by_id`. */
  function CountContainers(cs: seq<Listed>): (r: Result<Counts, TagError>)
    // the loop fails exactly when some container lacks a field it reads
    ensures r.Success? <==> AllCountable(cs)
    ensures r.Success? ==> Accounts(cs, r.value)
    ensures r.Success? ==> r.value.running == RunningKeys(cs) && r.value.stopped == StoppedKeys(cs)
    decreases |cs|
  {
    if cs == [] then Success(Counts(multiset{}, multiset{}, map[]))
    else
      var n := |cs| - 1;
      var prev := CountContainers(cs[..n]);
      AllCountableSplit(cs);
      if prev.Failure? then Failure(prev.error)
      else
        var r := CountOne(prev.value, cs[n]);
        if r.Success? then
          CountOneAccounts(cs, prev.value);
          r
        else r
  }

  lemma AllCountableSplit(cs: seq<Listed>)
    requires |cs| > 0
    ensures AllCountable(cs) <==> AllCountable(cs[..|cs| - 1]) && Countable(cs[|cs| - 1])
  {
    assert forall i :: 0 <= i < |cs| - 1 ==> cs[..|cs| - 1][i] == cs[i];
  }

  /** One more container keeps the account. */
  lemma CountOneAccounts(cs: seq<Listed>, prev: Counts)
    requires |cs| > 0 && Accounts(cs[..|cs| - 1], prev) && Countable(cs[|cs| - 1])
    ensures CountOne(prev, cs[|cs| - 1]).Success? && Accounts(cs, CountOne(prev, cs[|cs| - 1]).value)
  {
    CountOneCounts(cs, prev);
    CountOneKeys(cs, prev);
    CountOneIndex(cs, prev);
  }

  lemma CountOneCounts(cs: seq<Listed>, prev: Counts)
    requires |cs| > 0 && Countable(cs[|cs| - 1])
    requires prev.running + prev.stopped == AllKeys(cs[..|cs| - 1])
    ensures CountOne(prev, cs[|cs| - 1]).Success?
    ensures CountOne(prev, cs[|cs| - 1]).value.running + CountOne(prev, cs[|cs| - 1]).value.stopped == AllKeys(cs)
  {
  }

  lemma CountOneKeys(cs: seq<Listed>, prev: Counts)
    requires |cs| > 0 && Countable(cs[|cs| - 1])
    requires prev.running == RunningKeys(cs[..|cs| - 1]) && prev.stopped == StoppedKeys(cs[..|cs| - 1])
    ensures CountOne(prev, cs[|cs| - 1]).Success?
    ensures CountOne(prev, cs[|cs| - 1]).value.running == RunningKeys(cs)
    ensures CountOne(prev, cs[|cs| - 1]).value.stopped == StoppedKeys(cs)
  {
  }

  lemma CountOneIndex(cs: seq<Listed>, prev: Counts)
    requires |cs| > 0 && Countable(cs[|cs| - 1])
    requires IndexesKept(cs[..|cs| - 1], prev)
    ensures CountOne(prev, cs[|cs| - 1]).Success?
    ensures IndexesKept(cs, CountOne(prev, cs[|cs| - 1]).value)
  {
    var n := |cs| - 1;
    assert forall i :: 0 <= i < n ==> cs[..n][i] == cs[i];
  }

  /** Excluded containers never reach `containers_by_id`, so nothing that
      looks them up there can see their `_is_filtered` mark. */
  lemma IndexHoldsNoExcluded(cs: seq<Listed>, id: string)
    requires CountContainers(cs).Success? && id in CountContainers(cs).value.byId
    ensures !CountContainers(cs).value.byId[id].excluded
  {
  }

  /** The ids of the excluded containers. */
  function ExcludedIds(cs: seq<Listed>): set<string> {
    set i | 0 <= i < |cs| && cs[i].excluded && cs[i].entity.id.Some? :: cs[i].entity.id.value
  }

  /** `_report_cgroup_metrics`' retry counter after one call: success resets
      it, a missing cgroup mount counts one more failure, and once more than
      three failures are on record the `MountException` is raised again
      (leaving the counter as it was). */
  datatype Retry = Retry(retries: nat, raised: bool)

  function CgroupRetryStep(retries: nat, mounted: bool): (r: Retry)
    ensures mounted ==> r == Retry(0, false)
    ensures !mounted ==> (r.raised <==> retries > 3)
    ensures !mounted && !r.raised ==> r.retries == retries + 1
    ensures r.raised ==> r.retries == retries
  {
    if mounted then Retry(0, false)
    else if retries > 3 then Retry(retries, true)
    else Retry(retries + 1, false)
  }

  /** The number of failed calls at the end of `outcomes` (`true` is a call
      that found its cgroup files). */
  function TrailingFailures(outcomes: seq<bool>): (n: nat)
    ensures n <= |outcomes|
    ensures forall i :: |outcomes| - n <= i < |outcomes| ==> !outcomes[i]
    ensures n < |outcomes| ==> outcomes[|outcomes| - n - 1]
    decreases |outcomes|
  {
    if outcomes == [] || outcomes[|outcomes| - 1] then 0
    else TrailingFailures(outcomes[..|outcomes| - 1]) + 1
  }

  /** The counter after a sequence of calls from the initial 0. */
  function RetriesAfter(outcomes: seq<bool>): nat
    decreases |outcomes|
  {
    if outcomes == [] then 0
    else CgroupRetryStep(RetriesAfter(outcomes[..|outcomes| - 1]), outcomes[|outcomes| - 1]).retries
  }

  /** The counter is the length of the current run of failures, capped at
      four: the exception is raised on the fifth consecutive failure and on
      every further one until a call succeeds. */
  lemma {:induction false} RetriesCountTrailingFailures(outcomes: seq<bool>)
    ensures RetriesAfter(outcomes) == if TrailingFailures(outcomes) < 4 then TrailingFailures(outcomes) else 4
    ensures |outcomes| > 0 ==>
      (CgroupRetryStep(RetriesAfter(outcomes[..|outcomes| - 1]), outcomes[|outcomes| - 1]).raised <==>
         TrailingFailures(outcomes) >= 5)
    decreases |outcomes|
  {
    if outcomes != [] {
      var prefix := outcomes[..|outcomes| - 1];
      RetriesCountTrailingFailures(prefix);
    }
  }

  /** How the `try` block of `_report_cgroup_metrics` (lines 342-348) can end
      for one container, as written: every stat file is read, or skipped when
      `_parse_cgroup_file` swallows its `IOError`; or an exception escapes that
      `except MountException` does not catch (`KeyError` for a missing `Id`,
      `ValueError` from `int`).  No statement of the block raises
      `MountException`, so no outcome stands for it. */
  datatype TryOutcome = Completed | KeyErrorRaised | ValueErrorRaised

  /** One call as written: a completed block takes the `else` branch; any
      other exception passes both branches by, leaving the counter alone.
      The retry branch is never taken, so nothing is re-raised. */
  function ReportCgroupAsWritten(retries: nat, t: TryOutcome): (r: Retry)
    ensures !r.raised
    ensures t.Completed? ==> r == CgroupRetryStep(retries, true)
    ensures !t.Completed? ==> r.retries == retries
  {
    if t.Completed? then CgroupRetryStep(retries, true) else Retry(retries, false)
  }

  /** The counter after a sequence of calls as written, from the initial 0. */
  function RetriesAsWritten(ts: seq<TryOutcome>): nat
    decreases |ts|
  {
    if ts == [] then 0
    else ReportCgroupAsWritten(RetriesAsWritten(ts[..|ts| - 1]), ts[|ts| - 1]).retries
  }

  /** As written the retry counter is dead: over any sequence of calls,
      whatever each `try` block does, it stays 0, and no call counts a retry
      or re-raises. */
  lemma {:induction false} AsWrittenRetriesStayZero(ts: seq<TryOutcome>)
    ensures RetriesAsWritten(ts) == 0
    ensures |ts| > 0 ==>
      var r := ReportCgroupAsWritten(RetriesAsWritten(ts[..|ts| - 1]), ts[|ts| - 1]);
      !r.raised && r.retries == 0
    decreases |ts|
  {
    if ts != [] {
      AsWrittenRetriesStayZero(ts[..|ts| - 1]);
    }
  }
}
