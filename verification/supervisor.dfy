/** `AgentSupervisor`: the four watchdogs, the poll loop with its hang check
    on the collector, and shutdown with the uptime report. */
module Supervisor {
  import opened Wrappers
  import opened RestartLimiter
  import opened ManagedProcess
  import opened Watchdog
  import opened Heartbeat

  const FORWARDER: string := "forwarder"
  const COLLECTOR: string := "collector"
  const DOGSTATSD: string := "dogstatsd"
  const JMXFETCH: string := "jmxfetch"

  const EMBEDDED_PYTHON: string := "..\\embedded\\python"

  /** `sinkOpen` is the shared null sink every worker's output goes to. */
  datatype Supervisor = Supervisor(
    procs: map<string, Watchdog>,
    running: bool,
    startTs: Option<int>,
    failedHeartbeats: nat,
    maxFailedHeartbeats: nat,
    sinkOpen: bool)

  /** `AgentSupervisor.__init__`: the forwarder, the collector, dogstatsd
      (enabled by the `use_dogstatsd` setting) and JMXFetch.  JMXFetch's third
      argument `3` lands in `enable`, where it is truthy, so every watchdog
      keeps the default limit of five restarts an hour. */
  function NewSupervisor(useDogstatsd: bool, checkFreq: nat): (s: Supervisor)
    ensures s.procs.Keys == {FORWARDER, COLLECTOR, DOGSTATSD, JMXFETCH}
    ensures forall n :: n in s.procs ==>
      && s.procs[n].name == n
      && !IsAlive(s.procs[n].process)
      && s.procs[n].limiter == Limiter([], DEFAULT_MAX_RESTARTS)
      && (s.procs[n].process.enabled <==> n != DOGSTATSD || useDogstatsd)
      && (s.procs[n].process.hook == ExitFileHook <==> n == JMXFETCH)
    ensures s.maxFailedHeartbeats == MAX_FAILED_HEARTBEATS * checkFreq
    ensures s.failedHeartbeats == 0 && s.sinkOpen && !s.running && s.startTs.None?
  {
    var procs := map[
      FORWARDER := NewWatchdog(FORWARDER,
        NewProcess("Forwarder", [EMBEDDED_PYTHON, "ddagent.py"], true, NoHook), None),
      COLLECTOR := NewWatchdog(COLLECTOR,
        NewProcess("Collector", [EMBEDDED_PYTHON, "agent.py", "foreground", "--use-local-forwarder"],
                   true, NoHook), None),
      DOGSTATSD := NewWatchdog(DOGSTATSD,
        NewProcess("Dogstatsd server", [EMBEDDED_PYTHON, "dogstatsd.py", "--use-local-forwarder"],
                   useDogstatsd, NoHook), None),
      JMXFETCH := NewWatchdog(JMXFETCH,
        NewProcess("JMXFetch", [EMBEDDED_PYTHON, "jmxfetch.py"], true, ExitFileHook), None)];
    Supervisor(procs, false, None, 0, Threshold(checkFreq), true)
  }

  /** The part of `run` before the loop: record the start time and start every
      watchdog.  Enabled workers come up; disabled ones are left alone. */
  function Launch(s: Supervisor, now: int): (r: Supervisor)
    ensures r.running && r.startTs == Some(now)
    ensures r.procs.Keys == s.procs.Keys
    ensures forall n :: n in s.procs ==>
      && r.procs[n].name == s.procs[n].name
      && r.procs[n].limiter == s.procs[n].limiter
      && r.procs[n].process.enabled == s.procs[n].process.enabled
      && (s.procs[n].process.enabled ==> IsAlive(r.procs[n].process))
      && (!s.procs[n].process.enabled ==> r.procs[n].process == s.procs[n].process)
    ensures r.failedHeartbeats == s.failedHeartbeats && r.maxFailedHeartbeats == s.maxFailedHeartbeats
  {
    var started := map n | n in s.procs :: s.procs[n].(process := Start(s.procs[n].process));
    s.(procs := started, running := true, startTs := Some(now))
  }

  /** What no supervisor action may do to a watchdog: turn a disabled worker
      back on, spawn a disabled worker, or abandon a running process. */
  predicate Safe(w: Watchdog, w': Watchdog) {
    && w'.process.abandoned == w.process.abandoned
    && (!w.process.enabled ==> !w'.process.enabled && w'.process.spawns == w.process.spawns)
  }

  /** A restart, granted or denied, is safe. */
  lemma RestartIsSafe(w: Watchdog, now: int, exit: ExitBehaviour)
    ensures Safe(w, Restart(w, now, exit).watchdog)
  {
    RestartAbandonsNothing(w, now, exit);
    RestartNeverEnables(w, now, exit);
  }

  /** The loop body's liveness check for one watchdog: restart it only when it
      is dead and still enabled.  A dead process has nothing to stop, so the
      exit behaviour handed to `Restart` is never consulted. */
  function PollOne(w: Watchdog, now: int): (r: Watchdog)
    ensures IsAlive(w.process) || !w.process.enabled ==> r == w
    ensures !IsAlive(w.process) && w.process.enabled ==>
      || (IsAlive(r.process) && r.limiter.restarts == Prune(w.limiter.restarts, now) + [now])
      || (!r.process.enabled && r.limiter.restarts == Prune(w.limiter.restarts, now))
    // the limit alone decides between the two
    ensures !IsAlive(w.process) && w.process.enabled ==>
      (r.process.enabled <==> |Prune(w.limiter.restarts, now)| < w.limiter.maxRestarts)
    ensures Safe(w, r)
  {
    RestartIsSafe(w, now, ExitsAfter(0));
    if !IsAlive(w.process) && w.process.enabled then Restart(w, now, ExitsAfter(0)).watchdog else w
  }

  /** The `for name, proc in self.procs.iteritems()` loop: each watchdog is
      checked on its own, so the dictionary's order does not matter. */
  function PollAll(procs: map<string, Watchdog>, now: int): (r: map<string, Watchdog>)
    ensures r.Keys == procs.Keys
    ensures forall n :: n in procs ==> r[n] == PollOne(procs[n], now)
  {
    map n | n in procs :: PollOne(procs[n], now)
  }

  /** The source loop itself: the watchdogs polled one after the other in the
      enumeration order `keys`, each poll updating the dictionary. */
  function PollInOrder(procs: map<string, Watchdog>, keys: seq<string>, now: int): map<string, Watchdog>
    requires forall i :: 0 <= i < |keys| ==> keys[i] in procs
    decreases |keys|
  {
    if keys == [] then procs
    else PollInOrder(procs[keys[0] := PollOne(procs[keys[0]], now)], keys[1..], now)
  }

  /** Polling in order touches exactly the enumerated watchdogs, each once. */
  lemma {:induction false} PollInOrderPollsEach(procs: map<string, Watchdog>, keys: seq<string>, now: int)
    requires forall i :: 0 <= i < |keys| ==> keys[i] in procs
    requires forall i, j :: 0 <= i < j < |keys| ==> keys[i] != keys[j]
    ensures PollInOrder(procs, keys, now).Keys == procs.Keys
    ensures forall n :: n in procs ==>
      PollInOrder(procs, keys, now)[n] == if n in keys then PollOne(procs[n], now) else procs[n]
    decreases |keys|
  {
    if keys != [] {
      var k := keys[0];
      var next := procs[k := PollOne(procs[k], now)];
      PollInOrderPollsEach(next, keys[1..], now);
      assert k !in keys[1..] by {
        forall i | 0 <= i < |keys[1..]| ensures keys[1..][i] != k {
          assert keys[1..][i] == keys[i + 1];
        }
      }
      forall n | n in procs && n != k
        ensures n in keys <==> n in keys[1..]
      {
        if n in keys {
          var i :| 0 <= i < |keys| && keys[i] == n;
          assert keys[1..][i - 1] == n;
        }
      }
    }
  }

  /** Whatever order the dictionary enumerates its keys in, the sequential
      loop ends where `PollAll` does. */
  lemma PollOrderIrrelevant(procs: map<string, Watchdog>, keys: seq<string>, now: int)
    requires forall i :: 0 <= i < |keys| ==> keys[i] in procs
    requires forall i, j :: 0 <= i < j < |keys| ==> keys[i] != keys[j]
    requires forall n :: n in procs ==> n in keys
    ensures PollInOrder(procs, keys, now) == PollAll(procs, now)
  {
    PollInOrderPollsEach(procs, keys, now);
  }

  /** One iteration of the `while self.running` loop at time `now`, with
      `pending` heartbeats waiting in the collector's pipe; `collectorExit` is
      how the collector reacts if a forced restart has to stop it.  Once
      `running` is false the loop has exited and nothing changes. */
  function Tick(s: Supervisor, now: int, pending: nat, collectorExit: ExitBehaviour): (r: Supervisor)
    requires COLLECTOR in s.procs
    ensures !s.running ==> r == s
    ensures r.procs.Keys == s.procs.Keys
    ensures r.running == s.running && r.startTs == s.startTs && r.sinkOpen == s.sinkOpen
    ensures r.maxFailedHeartbeats == s.maxFailedHeartbeats
    // every worker but the collector gets the liveness check alone
    ensures s.running ==> forall n :: n in s.procs && n != COLLECTOR ==> r.procs[n] == PollOne(s.procs[n], now)
    // the collector gets the liveness check, then a forced restart when the
    // hang check finds it blocked
    ensures s.running ==>
      var c := CheckBlocked(s.failedHeartbeats, pending, s.maxFailedHeartbeats);
      var polled := PollOne(s.procs[COLLECTOR], now);
      && r.failedHeartbeats == c.failed
      && r.procs[COLLECTOR] == if c.blocked then Restart(polled, now, collectorExit).watchdog else polled
  {
    if !s.running then s
    else
      var polled := PollAll(s.procs, now);
      var c := CheckBlocked(s.failedHeartbeats, pending, s.maxFailedHeartbeats);
      if c.blocked then
        var forced := Restart(polled[COLLECTOR], now, collectorExit).watchdog;
        RestartIsSafe(polled[COLLECTOR], now, collectorExit);
        s.(procs := polled[COLLECTOR := forced], failedHeartbeats := c.failed)
      else
        s.(procs := polled, failedHeartbeats := c.failed)
  }

  /** The hang detector's counter across one iteration: a heartbeat resets
      it, silence counts one more miss, and it never passes the threshold. */
  lemma TickCountsHeartbeats(s: Supervisor, now: int, pending: nat, collectorExit: ExitBehaviour)
    requires COLLECTOR in s.procs && s.running
    ensures pending > 0 ==> Tick(s, now, pending, collectorExit).failedHeartbeats == 0
    ensures pending == 0 && s.failedHeartbeats < s.maxFailedHeartbeats ==>
              Tick(s, now, pending, collectorExit).failedHeartbeats == s.failedHeartbeats + 1
    ensures Tick(s, now, pending, collectorExit).failedHeartbeats <= s.maxFailedHeartbeats
  {
  }

  /** Workers that are alive, or disabled, are left alone by an iteration;
      the collector too, unless the iteration found it blocked. */
  lemma TickLeavesHealthyAlone(s: Supervisor, now: int, pending: nat, collectorExit: ExitBehaviour)
    requires COLLECTOR in s.procs
    ensures forall n :: (n in s.procs && n != COLLECTOR
      && (IsAlive(s.procs[n].process) || !s.procs[n].process.enabled)) ==>
              Tick(s, now, pending, collectorExit).procs[n] == s.procs[n]
    ensures ((IsAlive(s.procs[COLLECTOR].process) || !s.procs[COLLECTOR].process.enabled)
      && (pending > 0 || s.failedHeartbeats < s.maxFailedHeartbeats)) ==>
              Tick(s, now, pending, collectorExit).procs[COLLECTOR] == s.procs[COLLECTOR]
  {
  }

  /** No iteration enables or spawns a disabled worker, or abandons a live
      process. */
  lemma TickIsSafe(s: Supervisor, now: int, pending: nat, collectorExit: ExitBehaviour)
    requires COLLECTOR in s.procs
    ensures forall n :: n in s.procs ==> Safe(s.procs[n], Tick(s, now, pending, collectorExit).procs[n])
  {
  }

  /** `stop`'s uptime report: whole hours, then the minutes and seconds
      left over, computed with Python 2's flooring integer division. */
  datatype Uptime = Uptime(hours: int, minutes: int, seconds: int)

  function UptimeOf(secs: int): (u: Uptime)
    ensures u.hours * 3600 + u.minutes * 60 + u.seconds == secs
    ensures 0 <= u.minutes < 60 && 0 <= u.seconds < 60
  {
    var mins := secs / 60;
    var hours := secs / 3600;
    UptimeDecomposes(secs);
    Uptime(hours, mins % 60, secs % 60)
  }

  /** `secs / 3600` is the same as `(secs / 60) / 60` for flooring division. */
  lemma UptimeDecomposes(secs: int)
    ensures secs / 3600 == (secs / 60) / 60
    ensures (secs / 3600) * 3600 + ((secs / 60) % 60) * 60 + secs % 60 == secs
  {
    var m := secs / 60;
    var h := m / 60;
    assert secs == m * 60 + secs % 60;
    assert m == h * 60 + m % 60;
    assert secs == h * 3600 + (m % 60) * 60 + secs % 60;
    DivUnique(secs, 3600, h, (m % 60) * 60 + secs % 60);
  }

  datatype Shutdown = Shutdown(supervisor: Supervisor, outcomes: map<string, StopOutcome>, uptime: Uptime)

  /** The `for proc in self.procs.values(): proc.terminate()` loop of
      `stop`: every watchdog's worker is terminated, each on its own. */
  function TerminateAll(procs: map<string, Watchdog>, exits: map<string, ExitBehaviour>)
    : (r: (map<string, Watchdog>, map<string, StopOutcome>))
    ensures r.0.Keys == procs.Keys == r.1.Keys
    ensures forall n :: n in procs ==>
      && !IsAlive(r.0[n].process)
      && r.0[n].limiter == procs[n].limiter
      && r.0[n].process.enabled == procs[n].process.enabled
      && (r.1[n] == NotRunning <==> !IsAlive(procs[n].process))
      && (IsAlive(procs[n].process) ==>
            (r.1[n] == Killed <==> OutlivesGrace(ExitOf(exits, n))))
  {
    var stopped := map n | n in procs :: ManagedProcess.Stop(procs[n].process, ExitOf(exits, n));
    (map n | n in procs :: procs[n].(process := stopped[n].0), map n | n in procs :: stopped[n].1)
  }

  /** `AgentSupervisor.stop`: clear `running`, terminate every watchdog, close
      the null sink and report the uptime.  `now` is the clock read once the
      workers are terminated and the sink is closed (it becomes the start
      time if `run` never recorded one) and `later` the clock after the
      two-interval sleep that follows; `exits` says how each worker reacts to
      a terminate request. */
  function Stop(s: Supervisor, now: int, later: int, exits: map<string, ExitBehaviour>): (r: Shutdown)
    ensures !r.supervisor.running && !r.supervisor.sinkOpen
    ensures r.supervisor.procs.Keys == s.procs.Keys == r.outcomes.Keys
    ensures forall n :: n in s.procs ==>
      && !IsAlive(r.supervisor.procs[n].process)
      && r.supervisor.procs[n].limiter == s.procs[n].limiter
      && r.supervisor.procs[n].process.enabled == s.procs[n].process.enabled
      && (r.outcomes[n] == NotRunning <==> !IsAlive(s.procs[n].process))
      && (IsAlive(s.procs[n].process) ==>
            (r.outcomes[n] == Killed <==> OutlivesGrace(ExitOf(exits, n))))
    ensures r.supervisor.startTs.Some?
    ensures s.startTs.Some? ==> r.supervisor.startTs == s.startTs
    ensures s.startTs.None? ==> r.supervisor.startTs == Some(now)
    ensures r.uptime.hours * 3600 + r.uptime.minutes * 60 + r.uptime.seconds
            == later - r.supervisor.startTs.value
    // logged as whole hours, then minutes and seconds each below 60
    ensures r.uptime == UptimeOf(later - r.supervisor.startTs.value)
  {
    var (procs, outcomes) := TerminateAll(s.procs, exits);
    var start := if s.startTs.Some? then s.startTs.value else now;
    Shutdown(s.(procs := procs, running := false, sinkOpen := false, startTs := Some(start)), outcomes,
             UptimeOf(later - start))
  }

  /** `stop` may be called a second time (by a signal handler and by the
      service): every worker is already down, so nothing is terminated again,
      the watchdogs are left as they were and the start time is kept. */
  lemma StopTwiceIsHarmless(s: Supervisor, now: int, later: int, exits: map<string, ExitBehaviour>,
                            now2: int, later2: int, exits2: map<string, ExitBehaviour>)
    ensures
      var first := Stop(s, now, later, exits).supervisor;
      var second := Stop(first, now2, later2, exits2);
      && second.supervisor.procs == first.procs
      && second.supervisor.startTs == first.startTs
      && forall n :: n in second.outcomes ==> second.outcomes[n] == NotRunning
  {
  }

  /** A worker missing from `exits` is taken to exit at once. */
  function ExitOf(exits: map<string, ExitBehaviour>, n: string): ExitBehaviour {
    if n in exits then exits[n] else ExitsAfter(0)
  }

  /** What can happen between two supervisor actions: a poll of the loop, or
      a worker exiting on its own. */
  datatype Event =
    | Poll(now: int, pending: nat, collectorExit: ExitBehaviour)
    | Exit(name: string)

  function Step(s: Supervisor, e: Event): (r: Supervisor)
    requires COLLECTOR in s.procs
    ensures r.procs.Keys == s.procs.Keys
  {
    match e
    case Poll(now, pending, exit) => Tick(s, now, pending, exit)
    case Exit(name) =>
      if name in s.procs then
        s.(procs := s.procs[name := s.procs[name].(process := Crash(s.procs[name].process))])
      else s
  }

  function Replay(s: Supervisor, events: seq<Event>): (r: Supervisor)
    requires COLLECTOR in s.procs
    ensures r.procs.Keys == s.procs.Keys
    decreases |events|
  {
    if events == [] then s else Replay(Step(s, events[0]), events[1..])
  }

  /** A single poll or worker exit is safe for every watchdog. */
  lemma StepIsSafe(s: Supervisor, e: Event, name: string)
    requires COLLECTOR in s.procs && name in s.procs
    ensures Safe(s.procs[name], Step(s, e).procs[name])
  {
    if e.Poll? {
      TickIsSafe(s, e.now, e.pending, e.collectorExit);
    }
  }

  /** Disabling is absorbing: over any run of polls and worker exits, a
      disabled worker stays disabled and is never spawned again. */
  lemma {:induction false} DisabledIsAbsorbing(s: Supervisor, events: seq<Event>, name: string)
    requires COLLECTOR in s.procs
    requires name in s.procs && !s.procs[name].process.enabled
    ensures !Replay(s, events).procs[name].process.enabled
    ensures Replay(s, events).procs[name].process.spawns == s.procs[name].process.spawns
    decreases |events|
  {
    if events != [] {
      StepIsSafe(s, events[0], name);
      DisabledIsAbsorbing(Step(s, events[0]), events[1..], name);
    }
  }

  /** Over any run of polls and worker exits, the supervisor never starts a
      worker over a still-running process of its own. */
  lemma {:induction false} NeverAbandons(s: Supervisor, events: seq<Event>, name: string)
    requires COLLECTOR in s.procs
    requires name in s.procs
    ensures Replay(s, events).procs[name].process.abandoned == s.procs[name].process.abandoned
    decreases |events|
  {
    if events != [] {
      StepIsSafe(s, events[0], name);
      NeverAbandons(Step(s, events[0]), events[1..], name);
    }
  }

  /** With the hang detector's threshold at `t` and a collector that stays
      alive but silent, `t` polls after a reset leave it untouched, and the
      next poll force-restarts it. */
  lemma SilentCollectorRestartedOnPollAfterThreshold(s: Supervisor, now: int, exit: ExitBehaviour)
    requires COLLECTOR in s.procs && s.running
    requires s.failedHeartbeats == s.maxFailedHeartbeats
    requires s.procs[COLLECTOR].process.enabled && IsAlive(s.procs[COLLECTOR].process)
    ensures Tick(s, now, 0, exit).failedHeartbeats == 0
    ensures Tick(s, now, 0, exit).procs[COLLECTOR] == Restart(s.procs[COLLECTOR], now, exit).watchdog
  {
  }

  /** A collector that nothing feeds heartbeats polls silent every time, so
      every forced restart goes through the limiter.  One that comes while
      five restarts are on record disables the collector but leaves it
      running; the next one to be granted stops it, and, being disabled, it
      is not started again. */
  lemma UnfedPipeEndsCollector(s: Supervisor, now: int, exit: ExitBehaviour)
    requires COLLECTOR in s.procs && s.running
    requires s.failedHeartbeats == s.maxFailedHeartbeats
    requires IsAlive(s.procs[COLLECTOR].process)
    ensures
      var w := s.procs[COLLECTOR];
      var w' := Tick(s, now, 0, exit).procs[COLLECTOR];
      && (w.process.enabled && |Prune(w.limiter.restarts, now)| >= w.limiter.maxRestarts ==>
            !w'.process.enabled && IsAlive(w'.process))
      && (!w.process.enabled && |Prune(w.limiter.restarts, now)| < w.limiter.maxRestarts ==>
            !w'.process.enabled && !IsAlive(w'.process) && w'.process.spawns == w.process.spawns)
  {
  }

  /** With heartbeats arriving at every poll and no worker exiting, a live
      collector is never touched: neither the liveness check nor the hang
      check restarts it. */
  lemma {:induction false} FedCollectorNeverRestarted(s: Supervisor, events: seq<Event>)
    requires COLLECTOR in s.procs && IsAlive(s.procs[COLLECTOR].process)
    requires forall i :: 0 <= i < |events| ==> events[i].Poll? && events[i].pending > 0
    ensures Replay(s, events).procs[COLLECTOR] == s.procs[COLLECTOR]
    decreases |events|
  {
    if events != [] {
      var e := events[0];
      var s' := Step(s, e);
      assert s'.procs[COLLECTOR] == s.procs[COLLECTOR];
      assert forall i :: 0 <= i < |events[1..]| ==> events[1..][i] == events[i + 1];
      FedCollectorNeverRestarted(s', events[1..]);
    }
  }
}
