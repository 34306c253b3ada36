/**
 What each routine of the supervisor can do to one entry. Every routine treats each entry
 at most once, so properties of single entries need to be checked against these effects only.
 */
module SupervisorEffects {
  import opened SupervisorModel
  import opened SupervisorChildren

  // ---------------------------------------------------------------- effects

  ghost predicate Reaped(p: Proc, q: Proc, now: real) {
    p.pid > 0 &&
    if p.stopping then q == p.(pid := -1, stopping := false, state := STOPPED)
    else q == p.(pid := -1, state := RESTARTING, crashTime := now)
  }

  ghost predicate TimedOut(p: Proc, q: Proc) {
    p.stopping && p.pid > 0 && q == p.(stopping := false, pid := -1, state := STOPPED)
  }

  ghost predicate Confirmed(p: Proc, q: Proc) {
    p.state.STARTING? && q == p.(state := RUNNING)
  }

  ghost predicate UptimeReset(p: Proc, q: Proc, cfg: Config, now: real) {
    p.state.RUNNING? && q == p.(backoff := cfg.initialBackoff, attempts := 0, resetAt := now)
  }

  /** Running long enough for its backoff to be reset. */
  ghost predicate LongUp(p: Proc, cfg: Config, now: real) {
    p.state.RUNNING? && p.backoff > cfg.initialBackoff && now - p.startTime >= cfg.minUptimeReset
  }

  ghost predicate GivenUp(p: Proc, q: Proc) {
    p.name == ODIN && p.state.RUNNING? && p.pid > 0 && q == p.(autoRestart := false, stopping := true)
  }

  /** Pending, with everything it waits for. */
  ghost predicate Startable(procs: seq<Proc>, p: Proc, present: set<string>) {
    p.state.PENDING? && DependenciesRunning(procs, p) && TopicsReady(p, present)
  }

  /** start_process: a child, or a failed fork counted as a crash. */
  ghost predicate Launched(p: Proc, q: Proc, now: real, tick: nat) {
    || (q.pid > 0 &&
        q == p.(pid := q.pid, state := STARTING, startTime := now, forks := p.forks + 1,
                firstStart := if p.firstStart < 0 then tick as int else p.firstStart))
    || q == p.(state := RESTARTING, crashTime := now)
  }

  /** Crashed, and its backoff has passed. */
  ghost predicate Due(p: Proc, now: real) {
    p.state.RESTARTING? && p.autoRestart && now - p.crashTime >= p.backoff
  }

  ghost predicate Attempted(p: Proc, q: Proc, cfg: Config, now: real, tick: nat) {
    Due(p, now) && exists m :: Launched(p.(restartCount := p.restartCount + 1), m, now, tick) && q == Retried(m, cfg)
  }

  ghost predicate StopRequested(p: Proc, q: Proc, now: real) {
    p.pid > 0 && q == p.(stopping := true, stopRequestTime := now, state := STOPPING)
  }

  ghost predicate Killed(p: Proc, q: Proc) {
    p.pid > 0 && q == p.(stopping := false, pid := -1, state := STOPPED)
  }

  // ---------------------------------------------------------------- routines

  lemma {:induction false} ReapEffect(d: Daemon, ws: seq<int>, now: real, i: nat)
    requires i < |d.procs|
    ensures var p, q := d.procs[i], Reap(d, ws, now).procs[i];
            q == p || Reaped(p, q, now)
    decreases |ws|
  {
    if ws != [] {
      ReapOneEffect(d, ws[0], now, i);
      hide ReapOne;
      ReapEffect(ReapOne(d, ws[0], now), ws[1..], now, i);
    }
  }

  lemma ReapOneEffect(d: Daemon, w: int, now: real, i: nat)
    requires i < |d.procs|
    ensures var p, q := d.procs[i], ReapOne(d, w, now).procs[i];
            q == p || Reaped(p, q, now)
  {}

  lemma TimeoutEffect(d: Daemon, now: real, i: nat)
    requires i < |d.procs|
    ensures var p, q := d.procs[i], CheckStopTimeouts(d, 0, now).procs[i];
            q == p || TimedOut(p, q)
  {
    TimeoutPerEntry(d, 0, now, i);
    hide CheckStopTimeouts;
  }

  lemma {:induction false} ConfirmEffect(d: Daemon, j: nat, i: nat)
    requires i < |d.procs|
    ensures var p, q := d.procs[i], ConfirmStarted(d, j).procs[i];
            (q == p || Confirmed(p, q)) && (i < j ==> q == p)
    ensures ConfirmStarted(d, j).children == d.children
    ensures j <= i ==> ConfirmStarted(d, j).procs[i] == StartedAt(d, i).procs[i]
    decreases |d.procs| - j
  {
    if j < |d.procs| {
      ConfirmEffect(StartedAt(d, j), j + 1, i);
    }
  }

  lemma {:induction false} UptimeEffect(d: Daemon, j: nat, now: real, i: nat)
    requires i < |d.procs|
    ensures var p, q := d.procs[i], ResetBackoffs(d, j, now).procs[i];
            if j <= i && LongUp(p, d.cfg, now) then UptimeReset(p, q, d.cfg, now) else q == p
    decreases |d.procs| - j
  {
    if j < |d.procs| {
      UptimeEffect(UptimeResetAt(d, j, now), j + 1, now, i);
    }
  }

  lemma HealthEffect(d: Daemon, steady: real, i: nat)
    requires i < |d.procs|
    ensures var p, q := d.procs[i], CheckOdinHealth(d, steady).procs[i];
            q == p || GivenUp(p, q)
  {}

  lemma StartEffect(d: Daemon, j: nat, fork: Fork, now: real, steady: real, i: nat)
    requires i < |d.procs| && j < |d.procs|
    ensures var p, q := d.procs[i], StartProcess(d, j, fork, now, steady).procs[i];
            if i == j then Launched(p, q, now, d.tick) else q == p
  {}

  lemma RestartAtEffect(d: Daemon, j: nat, fork: Fork, now: real, steady: real, i: nat)
    requires i < |d.procs| && j < |d.procs|
    ensures var p, q := d.procs[i], RestartAt(d, j, fork, now, steady).procs[i];
            if i == j && Due(p, now) then Attempted(p, q, d.cfg, now, d.tick) else q == p
  {
    hide StartProcess, Launched, Retried;
    var p := d.procs[j];
    if Due(p, now) {
      var d1 := Put(d, j, p.(restartCount := p.restartCount + 1));
      StartEffect(d1, j, fork, now, steady, i);
    } else {
      assert RestartAt(d, j, fork, now, steady) == d;
    }
  }

  lemma {:induction false} RestartsEffect(d: Daemon, j: nat, forks: seq<Fork>, now: real, steady: real, i: nat)
    requires i < |d.procs|
    ensures var p, q := d.procs[i], HandleRestarts(d, j, forks, now, steady).procs[i];
            if j <= i && Due(p, now) then Attempted(p, q, d.cfg, now, d.tick) else q == p
    decreases |d.procs| - j
  {
    if j < |d.procs| {
      RestartAtEffect(d, j, ForkAt(forks, j), now, steady, i);
      hide RestartAt, Attempted, Due;
      RestartsEffect(RestartAt(d, j, ForkAt(forks, j), now, steady), j + 1, forks, now, steady, i);
    }
  }

  lemma PendingAtEffect(d: Daemon, j: nat, fork: Fork, present: set<string>, now: real, steady: real, i: nat)
    requires i < |d.procs| && j < |d.procs|
    ensures var p, q := d.procs[i], PendingAt(d, j, fork, present, now, steady).procs[i];
            if i == j && Startable(d.procs, p, present) then Launched(p, q, now, d.tick) else q == p
  {
    StartEffect(d, j, fork, now, steady, i);
  }

  /** Starting a pending process changes neither names nor who is running. */
  lemma PendingKeepsRunning(d: Daemon, j: nat, fork: Fork, present: set<string>, now: real, steady: real, p: Proc)
    requires j < |d.procs|
    ensures DependenciesRunning(PendingAt(d, j, fork, present, now, steady).procs, p) <==> DependenciesRunning(d.procs, p)
  {
    var e := PendingAt(d, j, fork, present, now, steady);
    forall i | 0 <= i < |d.procs|
      ensures e.procs[i].name == d.procs[i].name && (e.procs[i].state.RUNNING? <==> d.procs[i].state.RUNNING?)
    {
      PendingAtEffect(d, j, fork, present, now, steady, i);
    }
    hide PendingAt;
    forall dep | dep in p.dependencies
      ensures Find(e.procs, dep) == Find(d.procs, dep)
    {
      FindByNames(d.procs, e.procs, dep);
    }
  }

  lemma FindByNames(a: seq<Proc>, b: seq<Proc>, name: string)
    requires |a| == |b| && forall i | 0 <= i < |a| :: a[i].name == b[i].name
    ensures Find(a, name) == Find(b, name)
  {
    var i, j := Find(a, name), Find(b, name);
    hide Find;
    if i >= 0 { assert b[i].name == name; }
    if j >= 0 { assert a[j].name == name; }
  }

  lemma {:induction false} PendingEffect(d: Daemon, j: nat, forks: seq<Fork>, present: set<string>, now: real, steady: real, i: nat)
    requires i < |d.procs|
    ensures var p, q := d.procs[i], HandlePending(d, j, forks, present, now, steady).procs[i];
            if j <= i && Startable(d.procs, p, present) then Launched(p, q, now, d.tick) else q == p
    decreases |d.procs| - j
  {
    if j < |d.procs| {
      var e := PendingAt(d, j, ForkAt(forks, j), present, now, steady);
      PendingAtEffect(d, j, ForkAt(forks, j), present, now, steady, i);
      PendingKeepsRunning(d, j, ForkAt(forks, j), present, now, steady, d.procs[i]);
      hide PendingAt, Launched, DependenciesRunning, TopicsReady;
      PendingEffect(e, j + 1, forks, present, now, steady, i);
    }
  }

  lemma {:induction false} RequestStopsEffect(d: Daemon, n: nat, now: real, i: nat)
    requires i < |d.procs| && n <= |d.procs|
    ensures var p, q := d.procs[i], RequestStops(d, n, now).procs[i];
            (q == p || StopRequested(p, q, now)) && (i >= n ==> q == p)
    decreases n
  {
    if n > 0 {
      RequestStopsEffect(StopRequestAt(d, n - 1, now), n - 1, now, i);
    }
  }

  lemma {:induction false} LeftoversEffect(d: Daemon, j: nat, i: nat)
    requires i < |d.procs|
    ensures var p, q := d.procs[i], KillLeftovers(d, j).procs[i];
            (q == p || Killed(p, q)) && (i < j ==> q == p)
    decreases |d.procs| - j
  {
    if j < |d.procs| {
      LeftoversEffect(KillLeftoverAt(d, j), j + 1, i);
    }
  }

  ghost predicate AtRest(p: Proc) {
    p.state.STOPPED? && p.pid <= 0 && !p.stopping
  }

  /** Reaped in time or killed: an overdue stop ends. */
  lemma OverdueStopIsOver(d: Daemon, ws: seq<int>, reapTime: real, now: real, i: nat)
    requires i < |d.procs| && d.procs[i].stopping && d.procs[i].pid > 0
    requires now - d.procs[i].stopRequestTime > d.procs[i].shutdownTimeout
    ensures AtRest(CheckStopTimeouts(Reading(Reap(d, ws, reapTime), now), 0, now).procs[i])
  {
    hide Reap, CheckStopTimeouts;
    ReapEffect(d, ws, reapTime, i);
    TimeoutPerEntry(Reading(Reap(d, ws, reapTime), now), 0, now, i);
  }

  /** The rest of a tick leaves a process at rest alone. */
  lemma RestIsLeftAlone(d: Daemon, t: TickInput, i: nat)
    requires i < |d.procs| && AtRest(d.procs[i])
    ensures var r := Reading(CheckOdinHealth(CheckStarted(d, t.startedTime), t.steady), t.restartTime);
            var s := Reading(HandleRestarts(r, 0, t.restartForks, t.restartTime, t.steady), t.pendingTime);
            HandlePending(s, 0, t.pendingForks, t.topics, t.pendingTime, t.steady).procs[i] == d.procs[i]
  {
    hide ConfirmStarted, ResetBackoffs, CheckOdinHealth, HandleRestarts, HandlePending, DependenciesRunning, TopicsReady,
         UptimeReset, Attempted, Launched;
    ConfirmEffect(d, 0, i);
    UptimeEffect(ConfirmStarted(d, 0), 0, t.startedTime, i);
    HealthEffect(CheckStarted(d, t.startedTime), t.steady, i);
    var r := Reading(CheckOdinHealth(CheckStarted(d, t.startedTime), t.steady), t.restartTime);
    RestartsEffect(r, 0, t.restartForks, t.restartTime, t.steady, i);
    var s := Reading(HandleRestarts(r, 0, t.restartForks, t.restartTime, t.steady), t.pendingTime);
    PendingEffect(s, 0, t.pendingForks, t.topics, t.pendingTime, t.steady, i);
  }

  /** A tick after the stop timeout ends every stop: the process is stopped and has no child. */
  lemma OverdueStopsEnd(d: Daemon, t: TickInput, i: nat)
    requires i < |d.procs| && d.procs[i].stopping && d.procs[i].pid > 0
    requires t.stopTime - d.procs[i].stopRequestTime > d.procs[i].shutdownTimeout
    ensures AtRest(Tick(d, t).procs[i])
  {
    hide Reap, CheckStopTimeouts, CheckStarted, CheckOdinHealth, HandleRestarts, HandlePending, AtRest;
    var r0 := Reading(d.(tick := d.tick + 1), t.reapTime);
    OverdueStopIsOver(r0, t.reaped, t.reapTime, t.stopTime, i);
    var d2 := CheckStopTimeouts(Reading(Reap(r0, t.reaped, t.reapTime), t.stopTime), 0, t.stopTime);
    RestIsLeftAlone(Reading(d2, t.startedTime), t, i);
  }
}
