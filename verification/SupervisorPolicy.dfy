/**
 Restart policy of the supervisor over whole runs.

 Backoff: after k automatic attempts since the last reset the delay is min(initial * 2^k, max),
 so n attempts take at least the sum of the first n delays.

 Health check: the restart-kills since the failure counter was last lowered stay within the
 counter, and the counter within its limit; and once the check has given up, nothing but a
 manual start or restart starts the driver again.
 */
module SupervisorPolicy {
  import opened SupervisorModel
  import opened SupervisorChildren
  import opened SupervisorEffects

  // ---------------------------------------------------------------- backoff

  /** The delay after k attempts, as the daemon computes it. */
  ghost function Delay(cfg: Config, k: nat): real {
    if k == 0 then cfg.initialBackoff else Min(Delay(cfg, k - 1) * 2.0, cfg.maxBackoff)
  }

  /** x * 2^k */
  ghost function Doubled(x: real, k: nat): real {
    if k == 0 then x else 2.0 * Doubled(x, k - 1)
  }

  /** The delays before the first n attempts together. */
  ghost function TotalDelay(cfg: Config, n: nat): real {
    if n == 0 then 0.0 else TotalDelay(cfg, n - 1) + Delay(cfg, n - 1)
  }

  /** The delay doubles from the initial value until it is capped. */
  lemma {:induction false} DelayIsCappedDoubling(cfg: Config, k: nat)
    requires cfg.initialBackoff <= cfg.maxBackoff
    ensures Delay(cfg, k) == Min(Doubled(cfg.initialBackoff, k), cfg.maxBackoff)
    ensures cfg.initialBackoff <= 0.0 ==> Doubled(cfg.initialBackoff, k) <= cfg.initialBackoff
  {
    if k > 0 { DelayIsCappedDoubling(cfg, k - 1); }
  }

  /** The entry's delay belongs to its number of attempts and, on a monotone clock, that many attempts have taken their time. */
  ghost predicate OnSchedule(cfg: Config, p: Proc, now: real, monotone: bool) {
    && p.backoff == Delay(cfg, p.attempts)
    && (monotone ==>
          p.resetAt + TotalDelay(cfg, p.attempts) <= if p.state.RESTARTING? && p.crashTime < now then p.crashTime else now)
  }

  ghost predicate AllOnSchedule(d: Daemon) {
    forall i | 0 <= i < |d.procs| :: OnSchedule(d.cfg, d.procs[i], d.clock, d.monotone)
  }

  /** Everything that can happen to an entry between two clock readings. */
  ghost predicate Effect(p: Proc, q: Proc, cfg: Config, now: real, tick: nat) {
    || q == p || Reaped(p, q, now) || TimedOut(p, q) || Confirmed(p, q) || UptimeReset(p, q, cfg, now)
    || GivenUp(p, q) || Attempted(p, q, cfg, now, tick) || (p.state.PENDING? && Launched(p, q, now, tick))
    || StopRequested(p, q, now) || Killed(p, q)
  }

  lemma EffectKeepsSchedule(p: Proc, q: Proc, cfg: Config, now: real, monotone: bool, tick: nat)
    requires OnSchedule(cfg, p, now, monotone) && Effect(p, q, cfg, now, tick)
    ensures OnSchedule(cfg, q, now, monotone)
  {
    assert TotalDelay(cfg, p.attempts + 1) == TotalDelay(cfg, p.attempts) + Delay(cfg, p.attempts);
    assert Delay(cfg, p.attempts + 1) == Min(Delay(cfg, p.attempts) * 2.0, cfg.maxBackoff);
  }

  // ---------------------------------------------------------------- health check

  /** The driver after the health check has given up: stopped, or on its way there, and not to be restarted. */
  ghost predicate Settled(p: Proc) {
    !p.autoRestart && ((p.state.RUNNING? && p.stopping) || p.state.STOPPING? || p.state.STOPPED?)
  }

  lemma EffectKeepsSettled(p: Proc, q: Proc, cfg: Config, now: real, tick: nat, children: set<int>)
    requires Effect(p, q, cfg, now, tick) && Slot(p, children)
    ensures q.name == p.name && (Settled(p) ==> Settled(q) && q.forks == p.forks)
  {}

  /** The failure counter stays within its limit. */
  ghost predicate Counting(d: Daemon) {
    0 <= d.failCount && (d.failCount <= d.cfg.healthMaxFails || d.failCount == 0)
  }

  // ---------------------------------------------------------------- what every routine keeps

  /** o is where the driver's entry is. */
  ghost predicate Policy(d: Daemon, o: int) {
    && Find(d.procs, ODIN) == o
    && NoLostChildren(d) && AllOnSchedule(d) && Counting(d)
    && (d.gaveUp && o >= 0 ==> Settled(d.procs[o]))
  }

  /** Policy is kept and, once the health check has given up, so are that fact and the driver's number of children. */
  ghost predicate Keeps(d: Daemon, e: Daemon, o: int) {
    Policy(d, o) ==>
      && Policy(e, o) && e.cfg == d.cfg
      && (d.gaveUp ==> e.gaveUp && (o >= 0 ==> e.procs[o].forks == d.procs[o].forks))
  }

  lemma KeepsTransitive(a: Daemon, b: Daemon, c: Daemon, o: int)
    ensures Keeps(a, b, o) && Keeps(b, c, o) ==> Keeps(a, c, o)
  {
    hide NoLostChildren, AllOnSchedule, Counting, Settled;
  }

  /** A routine that does at most one thing to each entry. */
  ghost predicate Routine(d: Daemon, e: Daemon) {
    OnlyProcesses(d, e) && forall i | 0 <= i < |d.procs| :: Effect(d.procs[i], e.procs[i], d.cfg, d.clock, d.tick)
  }

  lemma RoutineKeeps(d: Daemon, e: Daemon, o: int)
    requires Routine(d, e) && (NoLostChildren(d) ==> NoLostChildren(e))
    ensures Keeps(d, e, o)
  {
    hide Effect, OnSchedule, Settled, Slot, DistinctPids, Accounted;
    if Policy(d, o) {
      forall i | 0 <= i < |d.procs|
        ensures e.procs[i].name == d.procs[i].name
        ensures Settled(d.procs[i]) ==> Settled(e.procs[i]) && e.procs[i].forks == d.procs[i].forks
        ensures OnSchedule(d.cfg, e.procs[i], d.clock, d.monotone)
      {
        EffectKeepsSettled(d.procs[i], e.procs[i], d.cfg, d.clock, d.tick, d.children);
        EffectKeepsSchedule(d.procs[i], e.procs[i], d.cfg, d.clock, d.monotone, d.tick);
      }
      FindByNames(d.procs, e.procs, ODIN);
    }
  }

  lemma ReadingPolicy(d: Daemon, now: real, o: int)
    ensures Keeps(d, Reading(d, now), o)
  {
    hide TotalDelay, Delay, Settled, Find;
  }

  lemma TickCountPolicy(d: Daemon, o: int)
    ensures Keeps(d, d.(tick := d.tick + 1), o)
  {
    hide Find, OnSchedule, Settled;
  }

  lemma FlagPolicy(d: Daemon, shuttingDown: bool, o: int)
    ensures Keeps(d, d.(shuttingDown := shuttingDown), o)
  {
    hide Find, OnSchedule, Settled;
  }

  lemma MessagePolicy(d: Daemon, steady: real, o: int)
    ensures Keeps(d, d.(lastMsg := steady, armed := true), o)
  {
    hide Find, OnSchedule, Settled;
  }

  // ---------------------------------------------------------------- the timer's routines

  lemma ReapPolicy(d: Daemon, ws: seq<int>, o: int)
    ensures Keeps(d, Reap(d, ws, d.clock), o)
  {
    var e := Reap(d, ws, d.clock);
    hide NoLostChildren;
    if NoLostChildren(d) { ReapKeeps(d, ws, d.clock); }
    forall i | 0 <= i < |d.procs|
      ensures Effect(d.procs[i], e.procs[i], d.cfg, d.clock, d.tick)
    {
      hide Reap, Reaped;
      ReapEffect(d, ws, d.clock, i);
    }
    hide Reap, Effect;
    RoutineKeeps(d, e, o);
  }

  lemma TimeoutsPolicy(d: Daemon, o: int)
    ensures Keeps(d, CheckStopTimeouts(d, 0, d.clock), o)
  {
    var e := CheckStopTimeouts(d, 0, d.clock);
    hide NoLostChildren;
    if NoLostChildren(d) { StopTimeoutsKeep(d, 0, d.clock); }
    forall i | 0 <= i < |d.procs|
      ensures Effect(d.procs[i], e.procs[i], d.cfg, d.clock, d.tick)
    {
      hide CheckStopTimeouts, TimedOut;
      TimeoutEffect(d, d.clock, i);
    }
    hide CheckStopTimeouts, Effect;
    RoutineKeeps(d, e, o);
  }

  lemma ConfirmPolicy(d: Daemon, o: int)
    ensures Keeps(d, ConfirmStarted(d, 0), o)
  {
    var e := ConfirmStarted(d, 0);
    hide NoLostChildren;
    if NoLostChildren(d) { ConfirmKeeps(d, 0); }
    forall i | 0 <= i < |d.procs|
      ensures Effect(d.procs[i], e.procs[i], d.cfg, d.clock, d.tick)
    {
      hide ConfirmStarted, Confirmed;
      ConfirmEffect(d, 0, i);
    }
    hide ConfirmStarted, Effect;
    RoutineKeeps(d, e, o);
  }

  lemma UptimePolicy(d: Daemon, o: int)
    ensures Keeps(d, ResetBackoffs(d, 0, d.clock), o)
  {
    var e := ResetBackoffs(d, 0, d.clock);
    hide NoLostChildren;
    if NoLostChildren(d) { ResetKeeps(d, 0, d.clock); }
    forall i | 0 <= i < |d.procs|
      ensures Effect(d.procs[i], e.procs[i], d.cfg, d.clock, d.tick)
    {
      hide ResetBackoffs, UptimeReset;
      UptimeEffect(d, 0, d.clock, i);
    }
    hide ResetBackoffs, Effect;
    RoutineKeeps(d, e, o);
  }

  lemma RestartsPolicy(d: Daemon, forks: seq<Fork>, steady: real, o: int)
    ensures Keeps(d, HandleRestarts(d, 0, forks, d.clock, steady), o)
  {
    var e := HandleRestarts(d, 0, forks, d.clock, steady);
    hide NoLostChildren;
    if NoLostChildren(d) { RestartsKeep(d, 0, forks, d.clock, steady); }
    forall i | 0 <= i < |d.procs|
      ensures Effect(d.procs[i], e.procs[i], d.cfg, d.clock, d.tick)
    {
      hide HandleRestarts, Attempted;
      RestartsEffect(d, 0, forks, d.clock, steady, i);
    }
    hide HandleRestarts, Effect;
    RoutineKeeps(d, e, o);
  }

  lemma PendingPolicy(d: Daemon, forks: seq<Fork>, present: set<string>, steady: real, o: int)
    ensures Keeps(d, HandlePending(d, 0, forks, present, d.clock, steady), o)
  {
    var e := HandlePending(d, 0, forks, present, d.clock, steady);
    hide NoLostChildren;
    if NoLostChildren(d) { PendingKeeps(d, 0, forks, present, d.clock, steady); }
    forall i | 0 <= i < |d.procs|
      ensures Effect(d.procs[i], e.procs[i], d.cfg, d.clock, d.tick)
    {
      hide HandlePending, Launched, DependenciesRunning;
      PendingEffect(d, 0, forks, present, d.clock, steady, i);
    }
    hide HandlePending, Effect;
    RoutineKeeps(d, e, o);
  }

  /** The health check keeps its counter within the limit, and gives up there. */
  lemma HealthPolicy(d: Daemon, steady: real, o: int)
    ensures Keeps(d, CheckOdinHealth(d, steady), o)
  {
    hide NoLostChildren, OnSchedule, AllOnSchedule;
    if Policy(d, o) {
      HealthKeeps(d, steady);
      HealthKeepsSchedule(d, steady, o);
      HealthKeepsGivingUp(d, steady, o);
      hide CheckOdinHealth, Find;
    }
  }

  lemma HealthKeepsSchedule(d: Daemon, steady: real, o: int)
    requires AllOnSchedule(d) && Find(d.procs, ODIN) == o
    ensures var e := CheckOdinHealth(d, steady);
            AllOnSchedule(e) && Find(e.procs, ODIN) == o && e.cfg == d.cfg
  {
    hide OnSchedule, AllOnSchedule, CheckOdinHealth, Find;
    HealthTouches(d, steady, o);
    if o >= 0 {
      ScheduleOf(d, o);
      GivenUpOnSchedule(d, o);
      var e := CheckOdinHealth(d, steady);
      if e.procs != d.procs { ReplacedEntry(d, e, o); }
    }
    SameSchedule(d, CheckOdinHealth(d, steady));
  }

  /** The health check changes at most the driver's entry, and there only the two flags that giving up sets. */
  lemma HealthTouches(d: Daemon, steady: real, o: int)
    requires Find(d.procs, ODIN) == o
    ensures var e := CheckOdinHealth(d, steady);
            && e.cfg == d.cfg && e.clock == d.clock && e.monotone == d.monotone
            && (e.procs == d.procs ||
                (o >= 0 && e.procs == d.procs[o := d.procs[o].(autoRestart := false, stopping := true)]))
  {}

  lemma ScheduleOf(d: Daemon, i: nat)
    requires AllOnSchedule(d) && i < |d.procs|
    ensures OnSchedule(d.cfg, d.procs[i], d.clock, d.monotone)
  {}

  lemma SameSchedule(d: Daemon, e: Daemon)
    requires AllOnSchedule(d) && e.cfg == d.cfg && e.clock == d.clock && e.monotone == d.monotone
    ensures e.procs == d.procs ==> AllOnSchedule(e)
  {}

  /** The counter's limit, and giving up. */
  lemma HealthKeepsGivingUp(d: Daemon, steady: real, o: int)
    requires Policy(d, o)
    ensures var e := CheckOdinHealth(d, steady);
            && Counting(e) && (e.gaveUp && o >= 0 ==> Settled(e.procs[o]))
            && (d.gaveUp ==> e.gaveUp && (o >= 0 ==> e.procs[o].forks == d.procs[o].forks))
  {
    hide NoLostChildren, AllOnSchedule, Find;
  }

  lemma GivenUpOnSchedule(d: Daemon, o: nat)
    requires o < |d.procs| && OnSchedule(d.cfg, d.procs[o], d.clock, d.monotone)
    ensures OnSchedule(d.cfg, d.procs[o].(autoRestart := false, stopping := true), d.clock, d.monotone)
  {}

  lemma TickPolicy(d: Daemon, t: TickInput, o: int)
    ensures Keeps(d, Tick(d, t), o)
  {
    hide Keeps, Reading, Reap, CheckStopTimeouts, CheckStarted, CheckOdinHealth, HandleRestarts, HandlePending;
    var d0 := d.(tick := d.tick + 1);
    var d1 := Reap(Reading(d0, t.reapTime), t.reaped, t.reapTime);
    var d2 := CheckStopTimeouts(Reading(d1, t.stopTime), 0, t.stopTime);
    var d3 := CheckStarted(Reading(d2, t.startedTime), t.startedTime);
    var d4 := CheckOdinHealth(d3, t.steady);
    var d5 := HandleRestarts(Reading(d4, t.restartTime), 0, t.restartForks, t.restartTime, t.steady);
    var d6 := HandlePending(Reading(d5, t.pendingTime), 0, t.pendingForks, t.topics, t.pendingTime, t.steady);
    TickCountPolicy(d, o);
    ReapRoutine(d0, t.reaped, t.reapTime, o);
    TimeoutsRoutine(d1, t.stopTime, o);
    StartedRoutine(d2, t.startedTime, o);
    HealthPolicy(d3, t.steady, o);
    RestartsRoutine(d4, t.restartForks, t.restartTime, t.steady, o);
    PendingRoutine(d5, t.pendingForks, t.topics, t.pendingTime, t.steady, o);
    KeepsTransitive(d, d0, d1, o);
    KeepsTransitive(d, d1, d2, o);
    KeepsTransitive(d, d2, d3, o);
    KeepsTransitive(d, d3, d4, o);
    KeepsTransitive(d, d4, d5, o);
    KeepsTransitive(d, d5, d6, o);
  }

  lemma ReapRoutine(d: Daemon, ws: seq<int>, now: real, o: int)
    ensures Keeps(d, Reap(Reading(d, now), ws, now), o)
  {
    ReadingPolicy(d, now, o);
    ReapPolicy(Reading(d, now), ws, o);
    hide Keeps, Reap;
    KeepsTransitive(d, Reading(d, now), Reap(Reading(d, now), ws, now), o);
  }

  lemma TimeoutsRoutine(d: Daemon, now: real, o: int)
    ensures Keeps(d, CheckStopTimeouts(Reading(d, now), 0, now), o)
  {
    ReadingPolicy(d, now, o);
    TimeoutsPolicy(Reading(d, now), o);
    hide Keeps, CheckStopTimeouts;
    KeepsTransitive(d, Reading(d, now), CheckStopTimeouts(Reading(d, now), 0, now), o);
  }

  lemma StartedRoutine(d: Daemon, now: real, o: int)
    ensures Keeps(d, CheckStarted(Reading(d, now), now), o)
  {
    hide Keeps, ConfirmStarted, ResetBackoffs;
    var r := Reading(d, now);
    var c := ConfirmStarted(r, 0);
    ReadingPolicy(d, now, o);
    ConfirmPolicy(r, o);
    UptimePolicy(c, o);
    KeepsTransitive(d, r, c, o);
    KeepsTransitive(d, c, ResetBackoffs(c, 0, now), o);
  }

  lemma RestartsRoutine(d: Daemon, forks: seq<Fork>, now: real, steady: real, o: int)
    ensures Keeps(d, HandleRestarts(Reading(d, now), 0, forks, now, steady), o)
  {
    ReadingPolicy(d, now, o);
    RestartsPolicy(Reading(d, now), forks, steady, o);
    hide Keeps, HandleRestarts;
    KeepsTransitive(d, Reading(d, now), HandleRestarts(Reading(d, now), 0, forks, now, steady), o);
  }

  lemma PendingRoutine(d: Daemon, forks: seq<Fork>, present: set<string>, now: real, steady: real, o: int)
    ensures Keeps(d, HandlePending(Reading(d, now), 0, forks, present, now, steady), o)
  {
    ReadingPolicy(d, now, o);
    PendingPolicy(Reading(d, now), forks, present, steady, o);
    hide Keeps, HandlePending;
    KeepsTransitive(d, Reading(d, now), HandlePending(Reading(d, now), 0, forks, present, now, steady), o);
  }

  // ---------------------------------------------------------------- stopping

  lemma RequestStopPolicy(d: Daemon, i: nat, o: int)
    requires i < |d.procs|
    ensures Keeps(d, RequestStop(d, i, d.clock), o)
  {
    var e := RequestStop(d, i, d.clock);
    hide NoLostChildren;
    if NoLostChildren(d) { RequestStopKeeps(d, i, d.clock); }
    assert Routine(d, e) by { hide Attempted, Launched, Reaped; }
    hide RequestStop, Routine;
    RoutineKeeps(d, e, o);
  }

  lemma RequestStopsPolicy(d: Daemon, o: int)
    ensures Keeps(d, RequestStops(d, |d.procs|, d.clock), o)
  {
    var e := RequestStops(d, |d.procs|, d.clock);
    hide NoLostChildren;
    if NoLostChildren(d) { RequestStopsKeep(d, |d.procs|, d.clock); }
    forall i | 0 <= i < |d.procs|
      ensures Effect(d.procs[i], e.procs[i], d.cfg, d.clock, d.tick)
    {
      hide RequestStops, StopRequested;
      RequestStopsEffect(d, |d.procs|, d.clock, i);
    }
    hide RequestStops, Effect;
    RoutineKeeps(d, e, o);
  }

  lemma LeftoversPolicy(d: Daemon, o: int)
    ensures Keeps(d, KillLeftovers(d, 0), o)
  {
    var e := KillLeftovers(d, 0);
    hide NoLostChildren;
    if NoLostChildren(d) { KillLeftoversKeeps(d, 0); }
    forall i | 0 <= i < |d.procs|
      ensures Effect(d.procs[i], e.procs[i], d.cfg, d.clock, d.tick)
    {
      hide KillLeftovers, Killed;
      LeftoversEffect(d, 0, i);
    }
    hide KillLeftovers, Effect;
    RoutineKeeps(d, e, o);
  }

  lemma PollPolicy(d: Daemon, p: Poll, o: int)
    ensures Keeps(d, PollOnce(d, p), o)
  {
    hide Keeps, Reap, CheckStopTimeouts;
    var e := Reap(Reading(d, p.now), p.reaped, p.now);
    ReapRoutine(d, p.reaped, p.now, o);
    TimeoutsPolicy(e, o);
    KeepsTransitive(d, e, CheckStopTimeouts(e, 0, p.now), o);
  }

  lemma KeepsItself(d: Daemon, o: int)
    ensures Keeps(d, d, o)
  {}

  lemma {:induction false} AwaitQuietPolicy(d: Daemon, polls: seq<Poll>, deadline: real, o: int)
    ensures Keeps(d, AwaitQuiet(d, polls, deadline), o)
    decreases |polls|
  {
    hide Keeps, PollOnce;
    KeepsItself(d, o);
    if polls != [] && polls[0].now < deadline {
      var e := PollOnce(d, polls[0]);
      PollPolicy(d, polls[0], o);
      AwaitQuietPolicy(e, polls[1..], deadline, o);
      KeepsTransitive(d, e, AwaitQuiet(e, polls[1..], deadline), o);
    }
  }

  lemma {:induction false} AwaitStoppedPolicy(d: Daemon, i: nat, polls: seq<Poll>, o: int)
    requires i < |d.procs|
    ensures Keeps(d, AwaitStopped(d, i, polls), o)
    decreases |polls|
  {
    hide Keeps, PollOnce;
    KeepsItself(d, o);
    if polls != [] {
      var e := PollOnce(d, polls[0]);
      PollPolicy(d, polls[0], o);
      AwaitStoppedPolicy(e, i, polls[1..], o);
      KeepsTransitive(d, e, AwaitStopped(e, i, polls[1..]), o);
    }
  }

  lemma ShutdownPolicy(d: Daemon, now: real, polls: seq<Poll>, o: int)
    ensures Keeps(d, ShutdownAll(d, now, polls), o)
  {
    hide Keeps, RequestStops, AwaitQuiet, KillLeftovers;
    KeepsItself(d, o);
    var f := d.(shuttingDown := true);
    var d0 := Reading(f, now);
    var d1 := RequestStops(d0, |d.procs|, now);
    var d2 := AwaitQuiet(d1, polls, now + d.cfg.gracefulTimeout);
    FlagPolicy(d, true, o);
    ReadingPolicy(f, now, o);
    RequestStopsPolicy(d0, o);
    AwaitQuietPolicy(d1, polls, now + d.cfg.gracefulTimeout, o);
    LeftoversPolicy(d2, o);
    KeepsTransitive(d, f, d0, o);
    KeepsTransitive(d, d0, d1, o);
    KeepsTransitive(d, d1, d2, o);
    KeepsTransitive(d, d2, KillLeftovers(d2, 0), o);
  }

  // ---------------------------------------------------------------- manual intervention

  /** Policy is kept; after giving up on the driver, an intervention on another process does not start it. */
  ghost predicate Intervenes(d: Daemon, e: Daemon, o: int, onDriver: bool) {
    if onDriver then Policy(d, o) ==> Policy(e, o) && e.cfg == d.cfg else Keeps(d, e, o)
  }

  lemma BackToPending(d: Daemon, i: nat, o: int)
    requires Policy(d, o) && i < |d.procs| && d.procs[i].pid <= 0 && i == Find(d.procs, d.procs[i].name)
    ensures var e := ClearHealth(ToPending(d, i, d.clock), i);
            && Policy(e, o) && e.cfg == d.cfg && e.procs[i].pid <= 0 && e.procs[i].state.PENDING? && e.procs[i].name == d.procs[i].name
            && e.clock == d.clock && (d.procs[i].name == ODIN ==> !e.gaveUp)
            && (d.procs[i].name != ODIN ==> Keeps(d, e, o))
  {
    var e := ClearHealth(ToPending(d, i, d.clock), i);
    ToPendingKeeps(d, i, d.clock);
    PendingOnSchedule(d, i);
    hide NoLostChildren, OnSchedule, Settled, AllOnSchedule;
    ReplacedEntry(d, e, i);
    hide Find;
  }

  lemma ReplacedEntry(d: Daemon, e: Daemon, i: nat)
    requires AllOnSchedule(d) && i < |d.procs| && |e.procs| == |d.procs|
    requires e.procs == d.procs[i := e.procs[i]] && e.procs[i].name == d.procs[i].name
    requires e.cfg == d.cfg && e.clock == d.clock && e.monotone == d.monotone
    requires OnSchedule(e.cfg, e.procs[i], e.clock, e.monotone)
    ensures AllOnSchedule(e) && Find(e.procs, ODIN) == Find(d.procs, ODIN)
  {
    hide OnSchedule;
    assert forall k | 0 <= k < |d.procs| && k != i :: e.procs[k] == d.procs[k];
    FindByNames(d.procs, e.procs, ODIN);
  }

  lemma PendingOnSchedule(d: Daemon, i: nat)
    requires i < |d.procs|
    ensures OnSchedule(d.cfg, ClearHealth(ToPending(d, i, d.clock), i).procs[i], d.clock, d.monotone)
  {}

  lemma PendingStarts(d: Daemon, i: nat, fork: Fork, steady: real, o: int)
    requires i < |d.procs| && d.procs[i].pid <= 0 && d.procs[i].state.PENDING?
    ensures Keeps(d, StartProcess(d, i, fork, d.clock, steady), o)
  {
    var e := StartProcess(d, i, fork, d.clock, steady);
    hide NoLostChildren;
    if NoLostChildren(d) { StartKeeps(d, i, fork, d.clock, steady); }
    forall k | 0 <= k < |d.procs|
      ensures Effect(d.procs[k], e.procs[k], d.cfg, d.clock, d.tick)
    {
      hide StartProcess, Launched;
      StartEffect(d, i, fork, d.clock, steady, k);
    }
    hide StartProcess, Effect;
    RoutineKeeps(d, e, o);
  }

  lemma StartedByHand(d: Daemon, i: nat, fork: Fork, now: real, steady: real, o: int)
    requires i < |d.procs| && d.procs[i].pid <= 0 && i == Find(d.procs, d.procs[i].name)
    ensures Intervenes(d, StartProcess(ClearHealth(ToPending(Reading(d, now), i, now), i), i, fork, now, steady), o,
                       d.procs[i].name == ODIN)
  {
    hide Policy, StartProcess, ToPending, ClearHealth;
    if Policy(d, o) {
      var r := Reading(d, now);
      ReadingPolicy(d, now, o);
      BackToPending(r, i, o);
      var e := ClearHealth(ToPending(r, i, now), i);
      PendingStarts(e, i, fork, steady, o);
      KeepsTransitive(d, r, e, o);
      KeepsTransitive(d, e, StartProcess(e, i, fork, now, steady), o);
    }
  }

  lemma {:induction false} AllToPendingPolicy(d: Daemon, n: nat, i: nat)
    requires n <= |d.procs| && i < |d.procs| && AllOnSchedule(d)
    ensures var q := AllToPending(d, n, d.clock).procs[i];
            OnSchedule(d.cfg, q, d.clock, d.monotone) && q.name == d.procs[i].name
  {
    if n > 0 { AllToPendingPolicy(d, n - 1, i); }
  }

  lemma RestartAllPolicy(d: Daemon, fork: Fork, now: real, polls: seq<Poll>, later: real, steady: real, o: int)
    requires Policy(d, o) && !d.shuttingDown
    ensures var e := HandleRestart(d, "", fork, now, polls, later, steady);
            Policy(e, o) && e.cfg == d.cfg
  {
    hide ShutdownAll, NoLostChildren, OnSchedule, Settled;
    var s := ShutdownAll(d, now, polls);
    ShutdownPolicy(d, now, polls, o);
    ShutdownLeavesNoPid(d, now, polls);
    FlagPolicy(s, false, o);
    var e := Reading(s.(shuttingDown := false), later);
    ReadingPolicy(s.(shuttingDown := false), later, o);
    AllToPendingKeeps(e, |e.procs|, later);
    var f := AllToPending(e, |e.procs|, later).(failCount := 0, gaveUp := false);
    forall i | 0 <= i < |e.procs|
      ensures OnSchedule(e.cfg, f.procs[i], e.clock, e.monotone) && f.procs[i].name == e.procs[i].name
    {
      AllToPendingPolicy(e, |e.procs|, i);
    }
    RestartKeeps(d, "", fork, now, polls, later, steady);
    FindByNames(e.procs, f.procs, ODIN);
    RestartAllEnds(e, f, o);
  }

  lemma RestartAllEnds(e: Daemon, f: Daemon, o: int)
    requires Policy(e, o) && |f.procs| == |e.procs| && f.cfg == e.cfg && f.clock == e.clock && f.monotone == e.monotone
    requires AllOnSchedule(f) && f.failCount == 0 && !f.gaveUp && Find(f.procs, ODIN) == o
    ensures var g := if o < 0 then f else Put(f, o, f.procs[o].(autoRestart := true));
            NoLostChildren(g) ==> Policy(g, o)
  {
    hide NoLostChildren, Settled;
    if o >= 0 {
      var g := Put(f, o, f.procs[o].(autoRestart := true));
      FindByNames(f.procs, g.procs, ODIN);
    }
  }

  lemma StartPolicy(d: Daemon, name: string, fork: Fork, now: real, steady: real, o: int)
    requires Policy(d, o) && Allowed(d, Start(name, fork, now, steady))
    ensures Intervenes(d, HandleStart(d, name, fork, now, steady), o, name == ODIN)
  {
    var i := Find(d.procs, name);
    KeepsItself(d, o);
    if i >= 0 {
      SlotOf(d, i);
      hide Policy, StartProcess, ToPending, ClearHealth, Keeps;
      if d.procs[i].pid <= 0 { StartedByHand(d, i, fork, now, steady, o); }
    }
  }

  lemma RestartPolicy(d: Daemon, name: string, fork: Fork, now: real, polls: seq<Poll>, later: real, steady: real, o: int)
    requires Policy(d, o) && !d.shuttingDown
    ensures Intervenes(d, HandleRestart(d, name, fork, now, polls, later, steady), o, name == ODIN || name == "")
  {
    if name == "" {
      RestartAllPolicy(d, fork, now, polls, later, steady, o);
    } else {
      var i := Find(d.procs, name);
      KeepsItself(d, o);
      if i >= 0 { RestartOnePolicy(d, name, fork, now, polls, later, steady, o, i); }
    }
  }

  lemma RestartOnePolicy(d: Daemon, name: string, fork: Fork, now: real, polls: seq<Poll>, later: real, steady: real, o: int, i: nat)
    requires Policy(d, o) && !d.shuttingDown && name != "" && i == Find(d.procs, name)
    ensures Intervenes(d, HandleRestart(d, name, fork, now, polls, later, steady), o, name == ODIN)
  {
    hide NoLostChildren, Policy, RequestStop, AwaitStopped, StartProcess, ToPending, ClearHealth, Keeps;
    var s := d.procs[i].state;
    var d1 := if s.RUNNING? || s.STARTING? then RequestStop(Reading(d, now), i, now) else d;
    var e := AwaitStopped(d1, i, polls);
    StoppedFirst(d, i, now, polls, o);
    FindAgain(d.procs, e.procs, name, i);
    if !e.procs[i].state.STOPPING? {
      StartedByHand(e, i, fork, later, steady, o);
      KeepsThenIntervenes(d, e, StartProcess(ClearHealth(ToPending(Reading(e, later), i, later), i), i, fork, later, steady), o,
                          name == ODIN);
    } else {
      KeepsItself(e, o);
      KeepsThenIntervenes(d, e, e, o, name == ODIN);
    }
  }

  lemma KeepsThenIntervenes(a: Daemon, b: Daemon, c: Daemon, o: int, onDriver: bool)
    ensures Keeps(a, b, o) && (Intervenes(b, c, o, onDriver) || Keeps(b, c, o)) ==> Intervenes(a, c, o, onDriver)
  {
    KeepsTransitive(a, b, c, o);
    hide Policy;
  }

  lemma FindAgain(a: seq<Proc>, b: seq<Proc>, name: string, i: nat)
    requires i == Find(a, name) && |a| == |b| && forall k | 0 <= k < |a| :: a[k].name == b[k].name
    ensures i == Find(b, b[i].name) && b[i].name == name
  {
    FindByNames(a, b, name);
  }

  /** Stopping the process and waiting for it, as a manual restart does. */
  lemma StoppedFirst(d: Daemon, i: nat, now: real, polls: seq<Poll>, o: int)
    requires Policy(d, o) && i < |d.procs|
    ensures var s := d.procs[i].state;
            var d1 := if s.RUNNING? || s.STARTING? then RequestStop(Reading(d, now), i, now) else d;
            var e := AwaitStopped(d1, i, polls);
            && Keeps(d, e, o) && (!e.procs[i].state.STOPPING? ==> e.procs[i].pid <= 0)
            && forall k | 0 <= k < |d.procs| :: d.procs[k].name == e.procs[k].name
  {
    var r := Reading(d, now);
    var s := d.procs[i].state;
    SlotOf(d, i);
    hide NoLostChildren, AwaitStopped, Keeps, Find, AllOnSchedule, Settled;
    KeepsItself(d, o);
    ReadingPolicy(d, now, o);
    RequestStopPolicy(r, i, o);
    KeepsTransitive(d, r, RequestStop(r, i, now), o);
    var d1 := if s.RUNNING? || s.STARTING? then RequestStop(r, i, now) else d;
    KeepsMeans(d, d1, o);
    AwaitStoppedPolicy(d1, i, polls, o);
    KeepsTransitive(d, d1, AwaitStopped(d1, i, polls), o);
    AwaitStoppedKeeps(d1, i, polls);
    AwaitedNames(d1, i, polls);
  }

  lemma KeepsMeans(d: Daemon, e: Daemon, o: int)
    ensures Keeps(d, e, o) && Policy(d, o) ==> NoLostChildren(e)
  {}

  /** Polling changes no name. */
  lemma {:induction false} AwaitedNames(d: Daemon, i: nat, polls: seq<Poll>)
    requires i < |d.procs|
    ensures forall k | 0 <= k < |d.procs| :: AwaitStopped(d, i, polls).procs[k].name == d.procs[k].name
    decreases |polls|
  {
    hide PollOnce;
    if polls != [] {
      var e := PollOnce(d, polls[0]);
      forall k | 0 <= k < |d.procs|
        ensures e.procs[k].name == d.procs[k].name
      {
        PollTakesPids(d, polls[0], k);
      }
      AwaitedNames(e, i, polls[1..]);
    }
  }

  // ---------------------------------------------------------------- runs

  /** A person starts or restarts the driver, or restarts everything. */
  predicate Manual(e: Event) {
    (e.Start? && e.name == ODIN) || (e.Restart? && (e.name == ODIN || e.name == ""))
  }

  lemma StepPolicy(d: Daemon, e: Event, o: int)
    requires Policy(d, o) && Allowed(d, e)
    ensures Intervenes(d, Step(d, e), o, Manual(e))
  {
    hide Policy, Keeps, Tick, ShutdownAll, HandleStart, HandleRestart, RequestStop;
    match e
    case TimerTick(t) => TickPolicy(d, t, o);
    case SignalTick(now, polls) => ShutdownPolicy(d, now, polls, o);
    case OdinMessage(steady) => MessagePolicy(d, steady, o);
    case Start(name, fork, now, steady) => StartPolicy(d, name, fork, now, steady, o);
    case Stop(name, now, polls) => StopPolicy(d, name, now, polls, o);
    case Restart(name, fork, now, polls, later, steady) => RestartPolicy(d, name, fork, now, polls, later, steady, o);
  }

  lemma StopPolicy(d: Daemon, name: string, now: real, polls: seq<Poll>, o: int)
    ensures Keeps(d, HandleStop(d, name, now, polls), o)
  {
    hide Keeps, ShutdownAll, RequestStop;
    KeepsItself(d, o);
    if name == "" {
      var e := ShutdownAll(d, now, polls);
      ShutdownPolicy(d, now, polls, o);
      FlagPolicy(e, false, o);
      KeepsTransitive(d, e, e.(shuttingDown := false), o);
    } else {
      var i := Find(d.procs, name);
      if i >= 0 {
        ReadingPolicy(d, now, o);
        RequestStopPolicy(Reading(d, now), i, o);
        KeepsTransitive(d, Reading(d, now), RequestStop(Reading(d, now), i, now), o);
      }
    }
  }

  lemma {:induction false} RunPolicy(d: Daemon, es: seq<Event>, o: int)
    requires Policy(d, o) && AllowedRun(d, es)
    ensures Policy(Run(d, es), o) && Run(d, es).cfg == d.cfg
    ensures (forall k | 0 <= k < |es| :: !Manual(es[k])) ==> Keeps(d, Run(d, es), o)
    decreases |es|
  {
    hide Policy, Step, Manual;
    KeepsItself(d, o);
    if es != [] {
      var n := |es| - 1;
      assert forall k | 0 <= k < n :: es[..n][..k] == es[..k] && es[..n][k] == es[k];
      RunPolicy(d, es[..n], o);
      StepPolicy(Run(d, es[..n]), es[n], o);
      KeepsTransitive(d, Run(d, es[..n]), Run(d, es), o);
    }
  }

  lemma ConfiguredPolicy(d: Daemon)
    requires Configured(d)
    ensures Policy(d, Find(d.procs, ODIN))
  {
    hide Find;
    ConfiguredHasNoChildren(d);
  }

  /** In every run, the delay after k automatic attempts is min(initial * 2^k, max) and, as long as the clock has not
      gone back, the attempts since the last reset have taken at least the sum of their delays. */
  lemma BackoffLaw(d: Daemon, es: seq<Event>, i: nat)
    requires Configured(d) && AllowedRun(d, es) && i < |Run(d, es).procs|
    requires d.cfg.initialBackoff <= d.cfg.maxBackoff
    ensures var e := Run(d, es);
            var p := e.procs[i];
            && p.backoff == Min(Doubled(d.cfg.initialBackoff, p.attempts), d.cfg.maxBackoff)
            && (e.monotone ==> e.clock - p.resetAt >= TotalDelay(d.cfg, p.attempts))
  {
    ConfiguredPolicy(d);
    RunPolicy(d, es, Find(d.procs, ODIN));
    hide Run, Configured, Find, NoLostChildren;
    var e := Run(d, es);
    assert OnSchedule(e.cfg, e.procs[i], e.clock, e.monotone);
    DelayIsCappedDoubling(e.cfg, e.procs[i].attempts);
  }

  /** The health check has sent the driver SIGKILL and left it to be restarted. */
  ghost predicate RestartKill(d: Daemon, e: Daemon) {
    var o := Find(d.procs, ODIN);
    o >= 0 && d.procs[o].pid in e.killed && d.armed && !e.armed && o < |e.procs| && !e.procs[o].stopping
  }

  /** Timer callbacks with such a kill since the failure counter was last lowered. */
  ghost function KillsSince(d: Daemon, es: seq<Event>): nat {
    if es == [] then 0
    else
      var n := |es| - 1;
      var s := Run(d, es[..n]);
      if Step(s, es[n]).failCount < s.failCount then 0
      else KillsSince(d, es[..n]) + (if KillsInStep(s, es[n]) then 1 else 0)
  }

  ghost predicate KillsInStep(d: Daemon, e: Event) {
    e.TimerTick? && var b := BeforeHealth(d, e.input); RestartKill(b, CheckOdinHealth(b, e.input.steady))
  }

  /** A kill counts, and nothing but the health check of a timer callback counts. */
  lemma KillIsCounted(d: Daemon, e: Event)
    requires KillsInStep(d, e)
    ensures Step(d, e).failCount == d.failCount + 1
  {
    hide BeforeHealth, HandleRestarts, HandlePending, Find;
  }

  /** In every run, the health check has killed the driver for a restart at most as often as its failure counter says
      since that was last lowered, and the counter stays within its limit. */
  lemma {:induction false} HealthRestartsAreBounded(d: Daemon, es: seq<Event>)
    requires Configured(d) && AllowedRun(d, es)
    ensures KillsSince(d, es) <= Run(d, es).failCount
    ensures Run(d, es).failCount <= if d.cfg.healthMaxFails >= 0 then d.cfg.healthMaxFails else 0
  {
    CounterIsBounded(d, es);
    hide Configured, Step, KillsInStep;
    if es != [] {
      var n := |es| - 1;
      AllowedBefore(d, es, n);
      HealthRestartsAreBounded(d, es[..n]);
      if KillsInStep(Run(d, es[..n]), es[n]) { KillIsCounted(Run(d, es[..n]), es[n]); }
    } else {
      assert Run(d, es) == d;
    }
  }

  lemma AllowedBefore(d: Daemon, es: seq<Event>, n: nat)
    requires AllowedRun(d, es) && n <= |es|
    ensures AllowedRun(d, es[..n])
  {
    hide Allowed, Run;
    assert forall k | 0 <= k < n :: es[..n][..k] == es[..k] && es[..n][k] == es[k];
  }

  lemma CounterIsBounded(d: Daemon, es: seq<Event>)
    requires Configured(d) && AllowedRun(d, es)
    ensures 0 <= Run(d, es).failCount <= if d.cfg.healthMaxFails >= 0 then d.cfg.healthMaxFails else 0
  {
    ConfiguredPolicy(d);
    RunPolicy(d, es, Find(d.procs, ODIN));
    hide Run, Configured, Find, NoLostChildren, AllOnSchedule;
  }

  /** Once the health check has given up, no run without manual intervention starts the driver again. */
  lemma GivingUpLasts(d: Daemon, before: seq<Event>, after: seq<Event>)
    requires Configured(d) && AllowedRun(d, before) && Run(d, before).gaveUp
    requires AllowedRun(Run(d, before), after) && forall k | 0 <= k < |after| :: !Manual(after[k])
    ensures var m, e := Run(d, before), Run(Run(d, before), after);
            var o := Find(m.procs, ODIN);
            e.gaveUp && (o >= 0 ==> o < |e.procs| && e.procs[o].forks == m.procs[o].forks)
  {
    var o := Find(d.procs, ODIN);
    ConfiguredPolicy(d);
    RunPolicy(d, before, o);
    RunPolicy(Run(d, before), after, o);
    hide Run, Configured, Find, NoLostChildren, AllOnSchedule;
  }
}
