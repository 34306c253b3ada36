/**
 The process supervisor as transitions on values: one function for each routine of the
 daemon, over the daemon's fields and the operating system's view of its children.

 Inputs stand for what the environment decides: clock readings, what waitpid reports, what
 fork returns, which topics exist. An input the operating system cannot produce (waitpid
 reporting somebody else's child, fork reusing the pid of an unreaped child) has no effect
 or counts as a failed fork, so every input sequence is a possible run. Callbacks run one
 at a time in the node's single-threaded executor, so each of them is one transition.
 */
module SupervisorModel {

  datatype ProcState = PENDING | STARTING | RUNNING | RESTARTING | STOPPING | STOPPED

  datatype Proc = Proc(
    name: string,
    autoRestart: bool,
    shutdownTimeout: real,
    dependencies: seq<string>,
    topics: seq<string>,
    pid: int,
    state: ProcState,
    restartCount: nat,
    startTime: real,
    crashTime: real,
    backoff: real,
    stopRequestTime: real,
    stopping: bool,
    // history, which no decision depends on
    attempts: nat,       // automatic restarts since the backoff was last reset
    resetAt: real,       // when that was
    forks: nat,          // children ever started for this entry
    firstStart: int)     // timer tick of the first start, -1 before it

  datatype Config = Config(
    initialBackoff: real,
    maxBackoff: real,
    minUptimeReset: real,
    gracefulTimeout: real,
    healthTimeout: real,
    healthMaxFails: int,
    healthResetUptime: real)

  datatype Daemon = Daemon(
    cfg: Config,
    procs: seq<Proc>,
    shuttingDown: bool,
    armed: bool,             // an odometry message has come since the driver started
    failCount: int,
    lastMsg: real,
    runningSince: real,
    children: set<int>,      // unreaped children, running or dead
    killed: set<int>,        // those that were sent SIGKILL
    // history
    clock: real,             // last reading of the ROS clock
    monotone: bool,          // no reading was earlier than the one before
    tick: nat,               // timer callbacks so far
    gaveUp: bool)            // the health check has given up since the last manual intervention

  datatype Fork = Forked(pid: int) | Failed

  const ODIN: string := "odin1_driver"

  /** A routine that touches nothing but the entries, the children and the driver's arming. */
  predicate OnlyProcesses(d: Daemon, e: Daemon) {
    && |e.procs| == |d.procs| && e.cfg == d.cfg && e.shuttingDown == d.shuttingDown
    && e.failCount == d.failCount && e.lastMsg == d.lastMsg
    && e.clock == d.clock && e.monotone == d.monotone && e.tick == d.tick && e.gaveUp == d.gaveUp
  }

  // ---------------------------------------------------------------- helpers

  /** find_process: the first entry of that name, -1 if there is none. */
  function Find(procs: seq<Proc>, name: string): (i: int)
    ensures -1 <= i < |procs|
    ensures i >= 0 ==> procs[i].name == name && forall k | 0 <= k < i :: procs[k].name != name
    ensures i == -1 ==> forall k | 0 <= k < |procs| :: procs[k].name != name
  {
    if procs == [] then -1
    else if procs[0].name == name then 0
    else
      var i := Find(procs[1..], name);
      assert forall k | 1 <= k < |procs| :: procs[k] == procs[1..][k - 1];
      if i == -1 then -1 else i + 1
  }

  /** The entry that tracks a pid, -1 if there is none. */
  function Tracker(procs: seq<Proc>, pid: int): (i: int)
    ensures -1 <= i < |procs|
    ensures i >= 0 ==> procs[i].pid == pid && forall k | 0 <= k < i :: procs[k].pid != pid
    ensures i == -1 ==> forall k | 0 <= k < |procs| :: procs[k].pid != pid
  {
    if procs == [] then -1
    else if procs[0].pid == pid then 0
    else
      var i := Tracker(procs[1..], pid);
      assert forall k | 1 <= k < |procs| :: procs[k] == procs[1..][k - 1];
      if i == -1 then -1 else i + 1
  }

  function Put(d: Daemon, i: nat, p: Proc): (d': Daemon)
    requires i < |d.procs|
    ensures OnlyProcesses(d, d')
  {
    d.(procs := d.procs[i := p])
  }

  function Reading(d: Daemon, now: real): Daemon {
    d.(clock := now, monotone := d.monotone && now >= d.clock)
  }

  function ForkAt(forks: seq<Fork>, i: nat): Fork {
    if i < |forks| then forks[i] else Failed
  }

  predicate Fresh(d: Daemon, fork: Fork) {
    fork.Forked? && fork.pid > 0 && fork.pid !in d.children
  }

  predicate DependenciesRunning(procs: seq<Proc>, p: Proc) {
    forall dep <- p.dependencies :: Find(procs, dep) >= 0 && procs[Find(procs, dep)].state.RUNNING?
  }

  predicate TopicsReady(p: Proc, present: set<string>) {
    forall t <- p.topics :: t in present
  }

  // ---------------------------------------------------------------- starting and stopping one process

  /** start_process */
  function StartProcess(d: Daemon, i: nat, fork: Fork, now: real, steady: real): (d': Daemon)
    requires i < |d.procs|
    ensures OnlyProcesses(d, d')
  {
    var p := d.procs[i];
    if Fresh(d, fork) then
      var first := if p.firstStart < 0 then d.tick as int else p.firstStart;
      var e := Put(d, i, p.(pid := fork.pid, state := STARTING, startTime := now, forks := p.forks + 1, firstStart := first));
      var f := e.(children := e.children + {fork.pid});
      if p.name == ODIN then f.(armed := false, runningSince := steady) else f
    else
      Put(d, i, p.(state := RESTARTING, crashTime := now))
  }

  /** request_stop */
  function RequestStop(d: Daemon, i: nat, now: real): (d': Daemon)
    requires i < |d.procs|
    ensures OnlyProcesses(d, d')
  {
    var p := d.procs[i];
    if p.pid <= 0 then d
    else Put(d, i, p.(stopping := true, stopRequestTime := now, state := STOPPING))
  }

  /** force_kill */
  function ForceKill(d: Daemon, i: nat): (d': Daemon)
    requires i < |d.procs|
    ensures OnlyProcesses(d, d')
  {
    var p := d.procs[i];
    if p.pid <= 0 then d
    else Put(d, i, p.(stopping := false, pid := -1, state := STOPPED)).(killed := d.killed + {p.pid})
  }

  // ---------------------------------------------------------------- the timer's routines

  /** One child reported by waitpid. */
  function ReapOne(d: Daemon, w: int, now: real): (d': Daemon)
    ensures OnlyProcesses(d, d')
  {
    if w <= 0 || w !in d.children then d
    else
      var e := d.(children := d.children - {w}, killed := d.killed - {w});
      var i := Tracker(d.procs, w);
      if i < 0 then e
      else
        var p := d.procs[i];
        if p.stopping then Put(e, i, p.(pid := -1, stopping := false, state := STOPPED))
        else Put(e, i, p.(pid := -1, state := RESTARTING, crashTime := now))
  }

  /** reap_children */
  function Reap(d: Daemon, ws: seq<int>, now: real): (d': Daemon)
    ensures OnlyProcesses(d, d')
    decreases |ws|
  {
    if ws == [] then d else Reap(ReapOne(d, ws[0], now), ws[1..], now)
  }

  function StopTimeoutAt(d: Daemon, i: nat, now: real): (d': Daemon)
    requires i < |d.procs|
    ensures OnlyProcesses(d, d')
  {
    var p := d.procs[i];
    if p.stopping && p.pid > 0 && now - p.stopRequestTime > p.shutdownTimeout then ForceKill(d, i) else d
  }

  /** check_stop_timeouts, from entry i on */
  function CheckStopTimeouts(d: Daemon, i: nat, now: real): (d': Daemon)
    ensures OnlyProcesses(d, d')
    decreases |d.procs| - i
  {
    if i >= |d.procs| then d else CheckStopTimeouts(StopTimeoutAt(d, i, now), i + 1, now)
  }

  function StartedAt(d: Daemon, i: nat): (d': Daemon)
    requires i < |d.procs|
    ensures OnlyProcesses(d, d')
  {
    var p := d.procs[i];
    if p.state.STARTING? && p.pid > 0 && p.pid in d.children then Put(d, i, p.(state := RUNNING)) else d
  }

  function ConfirmStarted(d: Daemon, i: nat): (d': Daemon)
    ensures OnlyProcesses(d, d')
    decreases |d.procs| - i
  {
    if i >= |d.procs| then d else ConfirmStarted(StartedAt(d, i), i + 1)
  }

  function UptimeResetAt(d: Daemon, i: nat, now: real): (d': Daemon)
    requires i < |d.procs|
    ensures OnlyProcesses(d, d')
  {
    var p := d.procs[i];
    if p.state.RUNNING? && p.backoff > d.cfg.initialBackoff && now - p.startTime >= d.cfg.minUptimeReset then
      Put(d, i, p.(backoff := d.cfg.initialBackoff, attempts := 0, resetAt := now))
    else d
  }

  function ResetBackoffs(d: Daemon, i: nat, now: real): (d': Daemon)
    ensures OnlyProcesses(d, d')
    decreases |d.procs| - i
  {
    if i >= |d.procs| then d else ResetBackoffs(UptimeResetAt(d, i, now), i + 1, now)
  }

  /** check_started */
  function CheckStarted(d: Daemon, now: real): (d': Daemon)
    ensures OnlyProcesses(d, d')
  {
    ResetBackoffs(ConfirmStarted(d, 0), 0, now)
  }

  /** check_odin_health */
  function CheckOdinHealth(d: Daemon, steady: real): (d': Daemon)
    ensures |d'.procs| == |d.procs|
  {
    var i := Find(d.procs, ODIN);
    if i < 0 || !d.procs[i].state.RUNNING? || !d.armed || d.procs[i].pid <= 0 then d
    else if steady - d.lastMsg <= d.cfg.healthTimeout then
      if d.failCount > 0 && steady - d.runningSince >= d.cfg.healthResetUptime then d.(failCount := 0) else d
    else if d.failCount >= d.cfg.healthMaxFails then
      Put(d, i, d.procs[i].(autoRestart := false, stopping := true))
        .(killed := d.killed + {d.procs[i].pid}, armed := false, gaveUp := true)
    else
      d.(failCount := d.failCount + 1, killed := d.killed + {d.procs[i].pid}, armed := false)
  }

  function Min(a: real, b: real): real {
    if a < b then a else b
  }

  /** An entry after an automatic attempt: the next one has to wait twice as long. */
  function Retried(p: Proc, cfg: Config): Proc {
    p.(backoff := Min(p.backoff * 2.0, cfg.maxBackoff), attempts := p.attempts + 1)
  }

  function RestartAt(d: Daemon, i: nat, fork: Fork, now: real, steady: real): (d': Daemon)
    requires i < |d.procs|
    ensures OnlyProcesses(d, d')
  {
    var p := d.procs[i];
    if p.state.RESTARTING? && p.autoRestart && now - p.crashTime >= p.backoff then
      var e := StartProcess(Put(d, i, p.(restartCount := p.restartCount + 1)), i, fork, now, steady);
      Put(e, i, Retried(e.procs[i], d.cfg))
    else d
  }

  /** handle_restarts, from entry i on */
  function HandleRestarts(d: Daemon, i: nat, forks: seq<Fork>, now: real, steady: real): (d': Daemon)
    ensures OnlyProcesses(d, d')
    decreases |d.procs| - i
  {
    if i >= |d.procs| then d else HandleRestarts(RestartAt(d, i, ForkAt(forks, i), now, steady), i + 1, forks, now, steady)
  }

  function PendingAt(d: Daemon, i: nat, fork: Fork, present: set<string>, now: real, steady: real): (d': Daemon)
    requires i < |d.procs|
    ensures OnlyProcesses(d, d')
  {
    var p := d.procs[i];
    if p.state.PENDING? && DependenciesRunning(d.procs, p) && TopicsReady(p, present) then StartProcess(d, i, fork, now, steady)
    else d
  }

  /** handle_pending, from entry i on */
  function HandlePending(d: Daemon, i: nat, forks: seq<Fork>, present: set<string>, now: real, steady: real): (d': Daemon)
    ensures OnlyProcesses(d, d')
    decreases |d.procs| - i
  {
    if i >= |d.procs| then d
    else HandlePending(PendingAt(d, i, ForkAt(forks, i), present, now, steady), i + 1, forks, present, now, steady)
  }

  /** What the environment contributes to one timer callback. */
  datatype TickInput = TickInput(
    reaped: seq<int>, restartForks: seq<Fork>, pendingForks: seq<Fork>, topics: set<string>,
    reapTime: real, stopTime: real, startedTime: real, restartTime: real, pendingTime: real, steady: real)

  /** The first half of on_timer, up to the health check. */
  function BeforeHealth(d: Daemon, t: TickInput): (d': Daemon)
    ensures OnlyProcesses(d.(tick := d.tick + 1), d'.(clock := d.clock, monotone := d.monotone))
  {
    var d1 := Reap(Reading(d.(tick := d.tick + 1), t.reapTime), t.reaped, t.reapTime);
    var d2 := CheckStopTimeouts(Reading(d1, t.stopTime), 0, t.stopTime);
    CheckStarted(Reading(d2, t.startedTime), t.startedTime)
  }

  /** on_timer without a pending signal */
  function Tick(d: Daemon, t: TickInput): (d': Daemon)
    ensures |d'.procs| == |d.procs|
  {
    var d4 := CheckOdinHealth(BeforeHealth(d, t), t.steady);
    var d5 := HandleRestarts(Reading(d4, t.restartTime), 0, t.restartForks, t.restartTime, t.steady);
    HandlePending(Reading(d5, t.pendingTime), 0, t.pendingForks, t.topics, t.pendingTime, t.steady)
  }

  // ---------------------------------------------------------------- shutting everything down

  /** One turn of a polling loop. */
  datatype Poll = Poll(now: real, reaped: seq<int>)

  function PollOnce(d: Daemon, p: Poll): (d': Daemon)
    ensures |d'.procs| == |d.procs|
  {
    CheckStopTimeouts(Reap(Reading(d, p.now), p.reaped, p.now), 0, p.now)
  }

  function StopRequestAt(d: Daemon, i: nat, now: real): (d': Daemon)
    requires i < |d.procs|
    ensures OnlyProcesses(d, d')
  {
    var s := d.procs[i].state;
    if s.STARTING? || s.RUNNING? || s.RESTARTING? then RequestStop(d, i, now) else d
  }

  /** The first loop of shutdown_all, over the first n entries in reverse. */
  function RequestStops(d: Daemon, n: nat, now: real): (d': Daemon)
    requires n <= |d.procs|
    ensures OnlyProcesses(d, d')
    decreases n
  {
    if n == 0 then d else RequestStops(StopRequestAt(d, n - 1, now), n - 1, now)
  }

  predicate Quiet(p: Proc) {
    p.state.STOPPED? || p.state.PENDING?
  }

  predicate AllQuiet(procs: seq<Proc>) {
    forall i | 0 <= i < |procs| :: Quiet(procs[i])
  }

  /** The waiting loop of shutdown_all; `polls` are its turns until the clock passes the deadline. */
  function AwaitQuiet(d: Daemon, polls: seq<Poll>, deadline: real): (d': Daemon)
    ensures |d'.procs| == |d.procs|
    decreases |polls|
  {
    if polls == [] || polls[0].now >= deadline then d
    else
      var e := PollOnce(d, polls[0]);
      if AllQuiet(e.procs) then e else AwaitQuiet(e, polls[1..], deadline)
  }

  function KillLeftoverAt(d: Daemon, i: nat): (d': Daemon)
    requires i < |d.procs|
    ensures OnlyProcesses(d, d')
  {
    if Quiet(d.procs[i]) then d else ForceKill(d, i)
  }

  function KillLeftovers(d: Daemon, i: nat): (d': Daemon)
    ensures OnlyProcesses(d, d')
    decreases |d.procs| - i
  {
    if i >= |d.procs| then d else KillLeftovers(KillLeftoverAt(d, i), i + 1)
  }

  /** shutdown_all */
  function ShutdownAll(d: Daemon, now: real, polls: seq<Poll>): (d': Daemon)
    ensures |d'.procs| == |d.procs|
  {
    if d.shuttingDown then d
    else
      var d1 := RequestStops(Reading(d.(shuttingDown := true), now), |d.procs|, now);
      KillLeftovers(AwaitQuiet(d1, polls, now + d.cfg.gracefulTimeout), 0)
  }

  // ---------------------------------------------------------------- services

  /** The failure counter, the give-up flag and auto-restart of the driver after a manual intervention. */
  function ClearHealth(d: Daemon, i: nat): (d': Daemon)
    requires i < |d.procs|
    ensures |d'.procs| == |d.procs|
  {
    if d.procs[i].name == ODIN then Put(d, i, d.procs[i].(autoRestart := true)).(failCount := 0, gaveUp := false)
    else d
  }

  function ToPending(d: Daemon, i: nat, now: real): (d': Daemon)
    requires i < |d.procs|
    ensures OnlyProcesses(d, d')
  {
    Put(d, i, d.procs[i].(state := PENDING, backoff := d.cfg.initialBackoff, attempts := 0, resetAt := now))
  }

  /** A start by hand, with a fresh backoff and failure counter. */
  function StartAfresh(d: Daemon, i: nat, fork: Fork, now: real, steady: real): (d': Daemon)
    requires i < |d.procs|
    ensures |d'.procs| == |d.procs|
  {
    StartProcess(ClearHealth(ToPending(Reading(d, now), i, now), i), i, fork, now, steady)
  }

  /** Everything back to waiting for its first start, after everything was stopped. */
  function AllAfresh(d: Daemon, now: real): (d': Daemon)
    ensures |d'.procs| == |d.procs|
  {
    var f := AllToPending(Reading(d, now), |d.procs|, now).(failCount := 0, gaveUp := false);
    var o := Find(f.procs, ODIN);
    if o < 0 then f else Put(f, o, f.procs[o].(autoRestart := true))
  }

  /** handle_start; unchanged if the name is unknown or the process is starting or running. */
  function HandleStart(d: Daemon, name: string, fork: Fork, now: real, steady: real): (d': Daemon)
    ensures |d'.procs| == |d.procs|
  {
    var i := Find(d.procs, name);
    if name == "" || i < 0 || d.procs[i].state.RUNNING? || d.procs[i].state.STARTING? then d
    else StartAfresh(d, i, fork, now, steady)
  }

  /** handle_stop; an empty name stops everything and leaves the daemon running. */
  function HandleStop(d: Daemon, name: string, now: real, polls: seq<Poll>): (d': Daemon)
    ensures |d'.procs| == |d.procs|
  {
    if name == "" then ShutdownAll(d, now, polls).(shuttingDown := false)
    else
      var i := Find(d.procs, name);
      if i < 0 || !(d.procs[i].state.RUNNING? || d.procs[i].state.STARTING?) then d
      else RequestStop(Reading(d, now), i, now)
  }

  /** Waiting for one process to leave STOPPING. */
  function AwaitStopped(d: Daemon, i: nat, polls: seq<Poll>): (d': Daemon)
    requires i < |d.procs|
    ensures |d'.procs| == |d.procs|
    decreases |polls|
  {
    if !d.procs[i].state.STOPPING? || polls == [] then d else AwaitStopped(PollOnce(d, polls[0]), i, polls[1..])
  }

  function AllToPending(d: Daemon, n: nat, now: real): (d': Daemon)
    requires n <= |d.procs|
    ensures OnlyProcesses(d, d')
  {
    if n == 0 then d else ToPending(AllToPending(d, n - 1, now), n - 1, now)
  }

  function RestartOne(d: Daemon, i: nat, fork: Fork, now: real, polls: seq<Poll>, later: real, steady: real): (d': Daemon)
    requires i < |d.procs|
    ensures |d'.procs| == |d.procs|
  {
    var s := d.procs[i].state;
    var e := AwaitStopped(if s.RUNNING? || s.STARTING? then RequestStop(Reading(d, now), i, now) else d, i, polls);
    if e.procs[i].state.STOPPING? then e else StartAfresh(e, i, fork, later, steady)
  }

  /** handle_restart; an empty name restarts everything. The clock reads `now` when the call begins and `later` after
      the waiting. Should the polls end with the process still STOPPING, the call has not returned yet and the state
      is the one inside its waiting loop. */
  function HandleRestart(d: Daemon, name: string, fork: Fork, now: real, polls: seq<Poll>, later: real, steady: real): (d': Daemon)
    ensures |d'.procs| == |d.procs|
  {
    if name == "" then
      AllAfresh(ShutdownAll(d, now, polls).(shuttingDown := false), later)
    else
      var i := Find(d.procs, name);
      if i < 0 then d else RestartOne(d, i, fork, now, polls, later, steady)
  }

  // ---------------------------------------------------------------- runs

  datatype Event =
    | TimerTick(input: TickInput)
    | SignalTick(now: real, polls: seq<Poll>)
    | OdinMessage(steady: real)
    | Start(name: string, fork: Fork, now: real, steady: real)
    | Stop(name: string, now: real, polls: seq<Poll>)
    | Restart(name: string, fork: Fork, now: real, polls: seq<Poll>, later: real, steady: real)

  function Step(d: Daemon, e: Event): (d': Daemon)
    ensures |d'.procs| == |d.procs|
  {
    match e
    case TimerTick(t) => Tick(d, t)
    case SignalTick(now, polls) => ShutdownAll(d, now, polls)
    case OdinMessage(steady) => d.(lastMsg := steady, armed := true)
    case Start(name, fork, now, steady) => HandleStart(d, name, fork, now, steady)
    case Stop(name, now, polls) => HandleStop(d, name, now, polls)
    case Restart(name, fork, now, polls, later, steady) => HandleRestart(d, name, fork, now, polls, later, steady)
  }

  function Run(d: Daemon, es: seq<Event>): Daemon {
    if es == [] then d else Step(Run(d, es[..|es| - 1]), es[|es| - 1])
  }

  /** A daemon just configured. */
  ghost predicate Configured(d: Daemon) {
    && (forall i | 0 <= i < |d.procs| ::
          var p := d.procs[i];
          p.pid == -1 && p.state.PENDING? && !p.stopping && p.backoff == d.cfg.initialBackoff
          && p.restartCount == 0 && p.attempts == 0 && p.resetAt == d.clock && p.forks == 0 && p.firstStart == -1)
    && !d.shuttingDown && !d.armed && d.failCount == 0 && d.children == {} && d.killed == {}
    && d.monotone && d.tick == 0 && !d.gaveUp
  }
}
