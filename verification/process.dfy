/** `DDProcess` and its `JMXFetchProcess` variant: one worker, its enabled flag
    and the OS handle it owns.  The OS process is abstracted to a handle whose
    `running` flag the OS may clear at any time (a crash). */
module ManagedProcess {
  import opened Wrappers

  /** `psutil.wait_procs([proc], timeout=3)` in `DDProcess.stop`. */
  const GRACE_PERIOD: nat := 3

  /** `JMXFetchProcess` clears the exit file before a start and writes it
      before a stop; a plain `DDProcess` has no hook. */
  datatype Hook = NoHook | ExitFileHook

  datatype Handle = Handle(running: bool)

  /** `spawns` counts `psutil.Popen` calls; `abandoned` counts spawns that
      overwrote a handle whose process was still running, leaving that process
      without an owner. */
  datatype Process = Process(
    name: string,
    command: seq<string>,
    enabled: bool,
    hook: Hook,
    handle: Option<Handle>,
    exitFileWritten: bool,
    spawns: nat,
    abandoned: nat)

  /** How the OS process reacts to a terminate request. */
  datatype ExitBehaviour = ExitsAfter(delay: nat) | IgnoresTerminate

  /** What `stop` had to do: nothing, a graceful terminate, or a kill. */
  datatype StopOutcome = NotRunning | Terminated | Killed

  /** `DDProcess.__init__`: no handle until the first start. */
  function NewProcess(name: string, command: seq<string>, enabled: bool, hook: Hook): (p: Process)
    ensures !IsAlive(p)
    ensures p.spawns == 0 && p.abandoned == 0
  {
    Process(name, command, enabled, hook, None, false, 0, 0)
  }

  /** `is_alive`: a handle exists and the OS reports it running. */
  predicate IsAlive(p: Process) {
    p.handle.Some? && p.handle.value.running
  }

  /** `DDProcess.start`: a disabled process never spawns; an enabled one gets
      a fresh running handle, whatever it held before. */
  function Spawn(p: Process): (r: Process)
    ensures !p.enabled ==> r == p
    ensures p.enabled ==> IsAlive(r) && r.spawns == p.spawns + 1
    ensures r.abandoned == if p.enabled && IsAlive(p) then p.abandoned + 1 else p.abandoned
    ensures r.name == p.name && r.command == p.command && r.enabled == p.enabled && r.hook == p.hook
    ensures r.exitFileWritten == p.exitFileWritten
  {
    if p.enabled then
      p.(handle := Some(Handle(true)), spawns := p.spawns + 1,
         abandoned := if IsAlive(p) then p.abandoned + 1 else p.abandoned)
    else p
  }

  /** `start`, with the `JMXFetchProcess` override: the exit file is cleared
      only when the process is enabled, right before spawning. */
  function Start(p: Process): (r: Process)
    ensures !p.enabled ==> r == p
    ensures p.enabled ==> IsAlive(r) && r.spawns == p.spawns + 1
    ensures p.enabled && p.hook == ExitFileHook ==> !r.exitFileWritten
    ensures p.hook == NoHook ==> r.exitFileWritten == p.exitFileWritten
    ensures !IsAlive(p) ==> r.abandoned == p.abandoned
    ensures r.name == p.name && r.command == p.command && r.enabled == p.enabled && r.hook == p.hook
  {
    match p.hook
    case NoHook => Spawn(p)
    case ExitFileHook => if p.enabled then Spawn(p.(exitFileWritten := false)) else p
  }

  /** Whether the process outlives the grace period after a terminate. */
  predicate OutlivesGrace(exit: ExitBehaviour) {
    exit.IgnoresTerminate? || exit.delay > GRACE_PERIOD
  }

  /** `stop` (and `terminate`, which calls it), with the `JMXFetchProcess`
      override writing the exit file first.  A running process is asked to
      terminate and killed if it is still running after the grace period;
      either way it is not alive afterwards.  A process that is not running
      is left exactly as it was. */
  function Stop(p: Process, exit: ExitBehaviour): (r: (Process, StopOutcome))
    ensures !IsAlive(p) ==> r == (p, NotRunning)
    ensures IsAlive(p) ==> !IsAlive(r.0) && r.0.handle.Some?
    ensures IsAlive(p) ==> (r.1 == Killed <==> OutlivesGrace(exit)) && r.1 != NotRunning
    ensures IsAlive(p) && p.hook == ExitFileHook ==> r.0.exitFileWritten
    ensures IsAlive(p) && p.hook == NoHook ==> r.0.exitFileWritten == p.exitFileWritten
    ensures r.0.enabled == p.enabled && r.0.spawns == p.spawns && r.0.abandoned == p.abandoned
    ensures r.0.name == p.name && r.0.command == p.command && r.0.hook == p.hook
  {
    if !IsAlive(p) then (p, NotRunning)
    else
      var marked := if p.hook == ExitFileHook then p.(exitFileWritten := true) else p;
      var outcome := if OutlivesGrace(exit) then Killed else Terminated;
      (marked.(handle := Some(Handle(false))), outcome)
  }

  /** The OS side: the worker exits on its own (crash or self-exit). */
  function Crash(p: Process): (r: Process)
    ensures !IsAlive(r)
    ensures r.enabled == p.enabled && r.spawns == p.spawns && r.abandoned == p.abandoned
    ensures r.name == p.name && r.command == p.command && r.hook == p.hook
    ensures r.exitFileWritten == p.exitFileWritten
    // a worker that was never started has nothing to exit
    ensures p.handle.None? ==> r == p
  {
    if p.handle.Some? then p.(handle := Some(Handle(false))) else p
  }

  /** Start after stop is the restart protocol: whatever state the handle was
      in, the enabled process ends up alive with no process abandoned, and a
      disabled one is merely stopped. */
  lemma StopThenStartAbandonsNothing(p: Process, exit: ExitBehaviour)
    ensures Start(Stop(p, exit).0).abandoned == p.abandoned
    ensures p.enabled ==> IsAlive(Start(Stop(p, exit).0))
    ensures !p.enabled ==> !IsAlive(Start(Stop(p, exit).0))
  {
  }

  /** The protocol matters: starting a live process without stopping it
      abandons the running one. */
  lemma StartOnLiveAbandons(p: Process)
    requires p.enabled && IsAlive(p)
    ensures Start(p).abandoned == p.abandoned + 1
  {
  }
}
