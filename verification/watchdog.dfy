/** `ProcessWatchDog`: one managed process together with its restart limiter. */
module Watchdog {
  import opened Wrappers
  import opened RestartLimiter
  import opened ManagedProcess

  datatype Watchdog = Watchdog(name: string, process: Process, limiter: Limiter)

  /** `ProcessWatchDog(name, process, max_restarts)`: an empty deque. */
  function NewWatchdog(name: string, process: Process, maxRestarts: Option<int>): (w: Watchdog)
    ensures w.limiter.restarts == [] && w.process == process
    ensures w.limiter.maxRestarts == MaxRestartsFrom(maxRestarts)
  {
    Watchdog(name, process, NewLimiter(maxRestarts))
  }

  /** A granted restart reports how the old process was stopped; a denied one
      reports the `RestartLimitExceeded` message's fields. */
  datatype RestartOutcome =
    | Restarted(stop: StopOutcome)
    | LimitReached(name: string, attempts: nat, window: int, max: int)

  datatype RestartResult = RestartResult(watchdog: Watchdog, outcome: RestartOutcome)

  /** `ProcessWatchDog.restart` at time `now`; `exit` is how the old process
      reacts if it is still alive and has to be stopped. */
  function Restart(w: Watchdog, now: int, exit: ExitBehaviour): (r: RestartResult)
    ensures r.watchdog.name == w.name
    ensures r.watchdog.limiter.maxRestarts == w.limiter.maxRestarts
    ensures r.outcome.LimitReached? <==> |Prune(w.limiter.restarts, now)| >= w.limiter.maxRestarts
    // denied: the process is disabled and otherwise untouched, nothing is recorded
    ensures r.outcome.LimitReached? ==>
      && r.watchdog.process == w.process.(enabled := false)
      && r.watchdog.limiter.restarts == Prune(w.limiter.restarts, now)
      && r.outcome == LimitReached(w.name, |Prune(w.limiter.restarts, now)|,
                                   RESTART_TIMEFRAME, w.limiter.maxRestarts)
    // granted: `now` is recorded and the process is started from a stopped handle
    ensures r.outcome.Restarted? ==>
      && r.watchdog.limiter.restarts == Prune(w.limiter.restarts, now) + [now]
      && r.watchdog.process.enabled == w.process.enabled
      && r.watchdog.process.abandoned == w.process.abandoned
      && (w.process.enabled ==> IsAlive(r.watchdog.process)
                                && r.watchdog.process.spawns == w.process.spawns + 1)
      // a disabled process is stopped and, since start refuses it, stays down
      && (!w.process.enabled ==> r.watchdog.process.spawns == w.process.spawns
                                 && !IsAlive(r.watchdog.process))
      && (r.outcome.stop == NotRunning <==> !IsAlive(w.process))
  {
    var a := Admit(w.limiter, now);
    if !a.granted then
      RestartResult(
        Watchdog(w.name, w.process.(enabled := false), a.limiter),
        LimitReached(w.name, a.attempts, RESTART_TIMEFRAME, w.limiter.maxRestarts))
    else
      var stopped := Stop(w.process, exit);
      RestartResult(Watchdog(w.name, Start(stopped.0), a.limiter), Restarted(stopped.1))
  }

  /** Nothing in a watchdog turns a disabled process back on, and a disabled
      process is never spawned by a restart. */
  lemma RestartNeverEnables(w: Watchdog, now: int, exit: ExitBehaviour)
    ensures !w.process.enabled ==> !Restart(w, now, exit).watchdog.process.enabled
    ensures !w.process.enabled ==> Restart(w, now, exit).watchdog.process.spawns == w.process.spawns
  {
  }

  /** Start is never called on a live handle: no restart, granted or denied,
      abandons a running process. */
  lemma RestartAbandonsNothing(w: Watchdog, now: int, exit: ExitBehaviour)
    ensures Restart(w, now, exit).watchdog.process.abandoned == w.process.abandoned
  {
  }

  /** The limit scenario with the default maximum: five restarts recorded in
      the last hour make the next restart fail, disabling the process and
      reporting five attempts. */
  lemma DeniedRestartDisables(p: Process, exit: ExitBehaviour)
    ensures
      var r := Restart(Watchdog("collector", p, Limiter([0, 1, 2, 3, 4], 5)), 5, exit);
      && r.outcome == LimitReached("collector", 5, 3600, 5)
      && !r.watchdog.process.enabled
      && r.watchdog.process.handle == p.handle
  {
    DefaultLimitScenario();
  }
}
