/**
 What the health check of the odometry driver does in a timer callback, exactly: a driver that has gone silent is killed,
 counted and, at the limit, given up; one that keeps talking is not.
 */
module SupervisorHealth {
  import opened SupervisorModel
  import opened SupervisorChildren
  import opened SupervisorEffects

  // ---------------------------------------------------------------- the last message of a run

  /** When the last odometry message of a run came. */
  ghost function LastHeard(d: Daemon, es: seq<Event>): real {
    if es == [] then d.lastMsg
    else if es[|es| - 1].OdinMessage? then es[|es| - 1].steady
    else LastHeard(d, es[..|es| - 1])
  }

  lemma {:induction false} PollsKeepMessage(d: Daemon, polls: seq<Poll>, deadline: real, i: nat)
    ensures AwaitQuiet(d, polls, deadline).lastMsg == d.lastMsg
    ensures i < |d.procs| ==> AwaitStopped(d, i, polls).lastMsg == d.lastMsg
    decreases |polls|
  {
    hide Reap, CheckStopTimeouts, AllQuiet;
    if polls != [] {
      assert PollOnce(d, polls[0]).lastMsg == d.lastMsg;
      PollsKeepMessage(PollOnce(d, polls[0]), polls[1..], deadline, i);
    }
  }

  lemma ShutdownKeepsMessage(d: Daemon, now: real, polls: seq<Poll>)
    ensures ShutdownAll(d, now, polls).lastMsg == d.lastMsg
  {
    hide RequestStops, AwaitQuiet, KillLeftovers;
    var d1 := RequestStops(Reading(d.(shuttingDown := true), now), |d.procs|, now);
    PollsKeepMessage(d1, polls, now + d.cfg.gracefulTimeout, 0);
  }

  lemma StartKeepsMessage(d: Daemon, i: nat, fork: Fork, now: real, steady: real)
    requires i < |d.procs|
    ensures StartAfresh(d, i, fork, now, steady).lastMsg == d.lastMsg
  {
    hide StartProcess;
  }

  lemma RestartKeepsMessage(d: Daemon, i: nat, fork: Fork, now: real, polls: seq<Poll>, later: real, steady: real)
    requires i < |d.procs|
    ensures RestartOne(d, i, fork, now, polls, later, steady).lastMsg == d.lastMsg
  {
    var s := d.procs[i].state;
    hide AwaitStopped, RequestStop, StartAfresh;
    var c := if s.RUNNING? || s.STARTING? then RequestStop(Reading(d, now), i, now) else d;
    PollsKeepMessage(c, polls, 0.0, i);
    StartKeepsMessage(AwaitStopped(c, i, polls), i, fork, later, steady);
  }

  lemma AfreshKeepsMessage(d: Daemon, now: real)
    ensures AllAfresh(d, now).lastMsg == d.lastMsg
  {
    hide AllToPending, Find;
  }

  lemma TickKeepsMessage(d: Daemon, t: TickInput)
    ensures Tick(d, t).lastMsg == d.lastMsg
  {
    hide BeforeHealth, Find, HandleRestarts, HandlePending;
  }

  /** No callback but the driver's own message changes when it was last heard. */
  lemma StepKeepsMessage(d: Daemon, e: Event)
    ensures Step(d, e).lastMsg == if e.OdinMessage? then e.steady else d.lastMsg
  {
    hide Tick, Find, ShutdownAll, StartAfresh, RestartOne, AllAfresh, RequestStop;
    match e
    case TimerTick(t) => TickKeepsMessage(d, t);
    case SignalTick(now, polls) => ShutdownKeepsMessage(d, now, polls);
    case OdinMessage(steady) =>
    case Start(name, fork, now, steady) =>
      if Find(d.procs, name) >= 0 { StartKeepsMessage(d, Find(d.procs, name), fork, now, steady); }
    case Stop(name, now, polls) => ShutdownKeepsMessage(d, now, polls);
    case Restart(name, fork, now, polls, later, steady) =>
      ShutdownKeepsMessage(d, now, polls);
      AfreshKeepsMessage(ShutdownAll(d, now, polls).(shuttingDown := false), later);
      if Find(d.procs, name) >= 0 { RestartKeepsMessage(d, Find(d.procs, name), fork, now, polls, later, steady); }
  }

  lemma {:induction false} LastMessage(d: Daemon, es: seq<Event>)
    ensures Run(d, es).lastMsg == LastHeard(d, es)
    decreases |es|
  {
    hide Step;
    if es != [] {
      var n := |es| - 1;
      LastMessage(d, es[..n]);
      StepKeepsMessage(Run(d, es[..n]), es[n]);
    }
  }

  // ---------------------------------------------------------------- since the driver was started

  /** The only entry of a name. */
  ghost predicate Only(procs: seq<Proc>, o: int, name: string) {
    0 <= o < |procs| && procs[o].name == name && forall i | 0 <= i < |procs| && i != o :: procs[i].name != name
  }

  /** If the driver's entry o got a new child, at that time of the steady clock, the driver is disarmed; otherwise it is not
      armed and runs since the same time as before. */
  ghost predicate Traced(d: Daemon, e: Daemon, o: int, steady: real) {
    Only(d.procs, o, ODIN) ==>
      && Only(e.procs, o, ODIN) && d.procs[o].forks <= e.procs[o].forks
      && if e.procs[o].forks == d.procs[o].forks then e.runningSince == d.runningSince && (e.armed ==> d.armed)
         else e.runningSince == steady && !e.armed
  }

  lemma TracedTransitive(a: Daemon, b: Daemon, c: Daemon, o: int, steady: real)
    requires Traced(a, b, o, steady) && Traced(b, c, o, steady)
    ensures Traced(a, c, o, steady)
  {}

  /** Nothing about the driver's start and its arming changes. */
  ghost predicate NothingStarted(d: Daemon, e: Daemon) {
    && |e.procs| == |d.procs| && e.armed == d.armed && e.runningSince == d.runningSince
    && forall i | 0 <= i < |d.procs| :: e.procs[i].name == d.procs[i].name && e.procs[i].forks == d.procs[i].forks
  }

  lemma NothingIsTraced(d: Daemon, e: Daemon, o: int, steady: real)
    requires NothingStarted(d, e)
    ensures Traced(d, e, o, steady)
  {}

  lemma NothingTransitive(a: Daemon, b: Daemon, c: Daemon)
    requires NothingStarted(a, b) && NothingStarted(b, c)
    ensures NothingStarted(a, c)
  {}

  lemma ReapOneStartsNothing(d: Daemon, w: int, now: real)
    ensures NothingStarted(d, ReapOne(d, w, now))
  {
    hide Tracker;
  }

  lemma {:induction false} ReapStartsNothing(d: Daemon, ws: seq<int>, now: real)
    ensures NothingStarted(d, Reap(d, ws, now))
    decreases |ws|
  {
    if ws == [] {
      assert Reap(d, ws, now) == d;
    } else {
      var e := ReapOne(d, ws[0], now);
      ReapOneStartsNothing(d, ws[0], now);
      hide ReapOne, NothingStarted;
      ReapStartsNothing(e, ws[1..], now);
      NothingTransitive(d, e, Reap(e, ws[1..], now));
    }
  }

  lemma {:induction false} TimeoutsStartNothing(d: Daemon, j: nat, now: real)
    ensures NothingStarted(d, CheckStopTimeouts(d, j, now))
    decreases |d.procs| - j
  {
    if j < |d.procs| { TimeoutsStartNothing(StopTimeoutAt(d, j, now), j + 1, now); }
  }

  lemma {:induction false} ConfirmStartsNothing(d: Daemon, j: nat)
    ensures NothingStarted(d, ConfirmStarted(d, j))
    decreases |d.procs| - j
  {
    if j < |d.procs| { ConfirmStartsNothing(StartedAt(d, j), j + 1); }
  }

  lemma {:induction false} ResetStartsNothing(d: Daemon, j: nat, now: real)
    ensures NothingStarted(d, ResetBackoffs(d, j, now))
    decreases |d.procs| - j
  {
    if j < |d.procs| { ResetStartsNothing(UptimeResetAt(d, j, now), j + 1, now); }
  }

  lemma BeforeHealthStartsNothing(d: Daemon, t: TickInput)
    ensures NothingStarted(d, BeforeHealth(d, t))
  {
    hide Reap, CheckStopTimeouts, ConfirmStarted, ResetBackoffs;
    var d1 := Reading(d.(tick := d.tick + 1), t.reapTime);
    ReapStartsNothing(d1, t.reaped, t.reapTime);
    var d2 := Reading(Reap(d1, t.reaped, t.reapTime), t.stopTime);
    TimeoutsStartNothing(d2, 0, t.stopTime);
    var d3 := Reading(CheckStopTimeouts(d2, 0, t.stopTime), t.startedTime);
    ConfirmStartsNothing(d3, 0);
    ResetStartsNothing(ConfirmStarted(d3, 0), 0, t.startedTime);
  }

  lemma HealthIsTraced(d: Daemon, t: real, o: int, steady: real)
    ensures Traced(d, CheckOdinHealth(d, t), o, steady)
  {
    hide Find;
  }

  /** Entry j, and nothing else, may have got a new child; the driver is then disarmed. */
  ghost predicate OneStarted(d: Daemon, e: Daemon, j: nat, steady: real) {
    && j < |d.procs| == |e.procs| && e.procs == d.procs[j := e.procs[j]] && e.procs[j].name == d.procs[j].name
    && d.procs[j].forks <= e.procs[j].forks
    && if e.procs[j].forks == d.procs[j].forks || d.procs[j].name != ODIN
       then e.armed == d.armed && e.runningSince == d.runningSince
       else !e.armed && e.runningSince == steady
  }

  lemma OnlyStays(procs: seq<Proc>, j: nat, q: Proc, o: int, name: string)
    requires Only(procs, o, name) && j < |procs| && q.name == procs[j].name
    ensures Only(procs[j := q], o, name)
  {}

  lemma OneStartedIsTraced(d: Daemon, e: Daemon, j: nat, steady: real, o: int)
    requires OneStarted(d, e, j, steady)
    ensures Traced(d, e, o, steady)
  {
    if Only(d.procs, o, ODIN) {
      OnlyStays(d.procs, j, e.procs[j], o, ODIN);
      if j != o { assert e.procs[o] == d.procs[o] && d.procs[j].name != ODIN; }
      hide Only;
    }
  }

  lemma StartStartsOne(d: Daemon, i: nat, fork: Fork, now: real, steady: real)
    requires i < |d.procs|
    ensures OneStarted(d, StartProcess(d, i, fork, now, steady), i, steady)
  {}

  lemma StartIsTraced(d: Daemon, i: nat, fork: Fork, now: real, steady: real, o: int)
    requires i < |d.procs|
    ensures Traced(d, StartProcess(d, i, fork, now, steady), o, steady)
  {
    hide *;
    StartStartsOne(d, i, fork, now, steady);
    OneStartedIsTraced(d, StartProcess(d, i, fork, now, steady), i, steady, o);
  }

  lemma RestartStartsOne(d: Daemon, j: nat, fork: Fork, now: real, steady: real)
    requires j < |d.procs|
    ensures OneStarted(d, RestartAt(d, j, fork, now, steady), j, steady)
  {
    hide StartProcess, Retried, OneStarted;
    var p := d.procs[j];
    var q := p.(restartCount := p.restartCount + 1);
    var c := Put(d, j, q);
    var e := StartProcess(c, j, fork, now, steady);
    StartStartsOne(c, j, fork, now, steady);
    RetriedStartsNothing(e.procs[j], d.cfg);
    OneStartedAround(d, q, e, Retried(e.procs[j], d.cfg), j, steady);
    NothingStartsOne(d, j, steady);
  }

  lemma RetriedStartsNothing(p: Proc, cfg: Config)
    ensures Retried(p, cfg).name == p.name && Retried(p, cfg).forks == p.forks
  {}

  lemma NothingStartsOne(d: Daemon, j: nat, steady: real)
    requires j < |d.procs|
    ensures OneStarted(d, d, j, steady)
  {}

  /** Counting before and after a start changes nothing about it. */
  lemma OneStartedAround(d: Daemon, q: Proc, e: Daemon, r: Proc, j: nat, steady: real)
    requires j < |d.procs| && q.name == d.procs[j].name && q.forks == d.procs[j].forks
    requires OneStarted(Put(d, j, q), e, j, steady) && r.name == e.procs[j].name && r.forks == e.procs[j].forks
    ensures OneStarted(d, Put(e, j, r), j, steady)
  {
    assert e.procs == d.procs[j := q][j := e.procs[j]];
  }

  lemma RestartIsTraced(d: Daemon, j: nat, fork: Fork, now: real, steady: real, o: int)
    requires j < |d.procs|
    ensures Traced(d, RestartAt(d, j, fork, now, steady), o, steady)
  {
    hide *;
    RestartStartsOne(d, j, fork, now, steady);
    OneStartedIsTraced(d, RestartAt(d, j, fork, now, steady), j, steady, o);
  }

  lemma PendingStartsOne(d: Daemon, j: nat, fork: Fork, present: set<string>, now: real, steady: real)
    requires j < |d.procs|
    ensures OneStarted(d, PendingAt(d, j, fork, present, now, steady), j, steady)
  {
    hide DependenciesRunning, TopicsReady, StartProcess;
    StartStartsOne(d, j, fork, now, steady);
  }

  lemma TracedToItself(d: Daemon, o: int, steady: real)
    ensures Traced(d, d, o, steady)
  {}

  lemma {:induction false} RestartsAreTraced(d: Daemon, j: nat, forks: seq<Fork>, now: real, steady: real, o: int)
    ensures Traced(d, HandleRestarts(d, j, forks, now, steady), o, steady)
    decreases |d.procs| - j
  {
    hide Traced, RestartAt, ForkAt;
    if j < |d.procs| {
      var e := RestartAt(d, j, ForkAt(forks, j), now, steady);
      RestartsAreTraced(e, j + 1, forks, now, steady, o);
      RestartIsTraced(d, j, ForkAt(forks, j), now, steady, o);
      TracedTransitive(d, e, HandleRestarts(e, j + 1, forks, now, steady), o, steady);
    } else {
      TracedToItself(d, o, steady);
    }
  }

  lemma PendingOneIsTraced(d: Daemon, j: nat, fork: Fork, present: set<string>, now: real, steady: real, o: int)
    requires j < |d.procs|
    ensures Traced(d, PendingAt(d, j, fork, present, now, steady), o, steady)
  {
    hide *;
    PendingStartsOne(d, j, fork, present, now, steady);
    OneStartedIsTraced(d, PendingAt(d, j, fork, present, now, steady), j, steady, o);
  }

  lemma {:induction false} PendingIsTraced(d: Daemon, j: nat, forks: seq<Fork>, present: set<string>, now: real, steady: real, o: int)
    ensures Traced(d, HandlePending(d, j, forks, present, now, steady), o, steady)
    decreases |d.procs| - j
  {
    hide Traced, PendingAt, ForkAt;
    if j < |d.procs| {
      var e := PendingAt(d, j, ForkAt(forks, j), present, now, steady);
      PendingIsTraced(e, j + 1, forks, present, now, steady, o);
      PendingOneIsTraced(d, j, ForkAt(forks, j), present, now, steady, o);
      TracedTransitive(d, e, HandlePending(e, j + 1, forks, present, now, steady), o, steady);
    } else {
      TracedToItself(d, o, steady);
    }
  }

  lemma ReadingIsTraced(d: Daemon, now: real, o: int, steady: real)
    ensures Traced(d, Reading(d, now), o, steady)
  {}

  lemma TickIsTraced(d: Daemon, t: TickInput, o: int)
    ensures Traced(d, Tick(d, t), o, t.steady)
  {
    hide BeforeHealth, CheckOdinHealth, HandleRestarts, HandlePending, Traced, NothingStarted, Reading;
    var b := BeforeHealth(d, t);
    var c := CheckOdinHealth(b, t.steady);
    var c1 := Reading(c, t.restartTime);
    var r := HandleRestarts(c1, 0, t.restartForks, t.restartTime, t.steady);
    var r1 := Reading(r, t.pendingTime);
    BeforeHealthStartsNothing(d, t);
    NothingIsTraced(d, b, o, t.steady);
    HealthIsTraced(b, t.steady, o, t.steady);
    ReadingIsTraced(c, t.restartTime, o, t.steady);
    RestartsAreTraced(c1, 0, t.restartForks, t.restartTime, t.steady, o);
    ReadingIsTraced(r, t.pendingTime, o, t.steady);
    PendingIsTraced(r1, 0, t.pendingForks, t.topics, t.pendingTime, t.steady, o);
    TracedTransitive(d, b, c, o, t.steady);
    TracedTransitive(d, c, c1, o, t.steady);
    TracedTransitive(d, c1, r, o, t.steady);
    TracedTransitive(d, r, r1, o, t.steady);
    TracedTransitive(d, r1, Tick(d, t), o, t.steady);
  }

  lemma PollStartsNothing(d: Daemon, p: Poll)
    ensures NothingStarted(d, PollOnce(d, p))
  {
    hide Reap, CheckStopTimeouts;
    ReapStartsNothing(Reading(d, p.now), p.reaped, p.now);
    TimeoutsStartNothing(Reap(Reading(d, p.now), p.reaped, p.now), 0, p.now);
  }

  lemma {:induction false} PollsStartNothing(d: Daemon, polls: seq<Poll>, deadline: real, i: nat)
    ensures NothingStarted(d, AwaitQuiet(d, polls, deadline))
    ensures i < |d.procs| ==> NothingStarted(d, AwaitStopped(d, i, polls))
    decreases |polls|
  {
    hide PollOnce, AllQuiet;
    if polls != [] {
      PollStartsNothing(d, polls[0]);
      PollsStartNothing(PollOnce(d, polls[0]), polls[1..], deadline, i);
    }
  }

  lemma {:induction false} RequestsStartNothing(d: Daemon, n: nat, now: real)
    requires n <= |d.procs|
    ensures NothingStarted(d, RequestStops(d, n, now))
    decreases n
  {
    if n > 0 { RequestsStartNothing(StopRequestAt(d, n - 1, now), n - 1, now); }
  }

  lemma {:induction false} LeftoversStartNothing(d: Daemon, j: nat)
    ensures NothingStarted(d, KillLeftovers(d, j))
    decreases |d.procs| - j
  {
    if j < |d.procs| { LeftoversStartNothing(KillLeftoverAt(d, j), j + 1); }
  }

  lemma ShutdownStartsNothing(d: Daemon, now: real, polls: seq<Poll>)
    ensures NothingStarted(d, ShutdownAll(d, now, polls))
  {
    hide RequestStops, AwaitQuiet, KillLeftovers;
    var d0 := Reading(d.(shuttingDown := true), now);
    var d1 := RequestStops(d0, |d.procs|, now);
    var d2 := AwaitQuiet(d1, polls, now + d.cfg.gracefulTimeout);
    RequestsStartNothing(d0, |d.procs|, now);
    PollsStartNothing(d1, polls, now + d.cfg.gracefulTimeout, 0);
    LeftoversStartNothing(d2, 0);
  }

  lemma {:induction false} PendingAgainStartsNothing(d: Daemon, n: nat, now: real)
    requires n <= |d.procs|
    ensures NothingStarted(d, AllToPending(d, n, now))
  {
    if n > 0 { PendingAgainStartsNothing(d, n - 1, now); }
  }

  lemma AfreshStartsNothing(d: Daemon, now: real)
    ensures NothingStarted(d, AllAfresh(d, now))
  {
    hide AllToPending, Find;
    PendingAgainStartsNothing(Reading(d, now), |d.procs|, now);
  }

  lemma StartAfreshIsTraced(d: Daemon, i: nat, fork: Fork, now: real, steady: real, o: int)
    requires i < |d.procs|
    ensures Traced(d, StartAfresh(d, i, fork, now, steady), o, steady)
  {
    hide StartProcess;
    var c := ClearHealth(ToPending(Reading(d, now), i, now), i);
    assert NothingStarted(d, c);
    NothingIsTraced(d, c, o, steady);
    StartIsTraced(c, i, fork, now, steady, o);
    hide ClearHealth, ToPending, Reading, Traced, NothingStarted;
    TracedTransitive(d, c, StartProcess(c, i, fork, now, steady), o, steady);
  }

  lemma RequestStartsNothing(d: Daemon, i: nat, now: real)
    requires i < |d.procs|
    ensures NothingStarted(d, d) && NothingStarted(d, RequestStop(Reading(d, now), i, now))
  {}

  lemma RestartOneIsTraced(d: Daemon, i: nat, fork: Fork, now: real, polls: seq<Poll>, later: real, steady: real, o: int)
    requires i < |d.procs|
    ensures Traced(d, RestartOne(d, i, fork, now, polls, later, steady), o, steady)
  {
    hide AwaitStopped, StartAfresh, Traced, RequestStop, NothingStarted;
    var s := d.procs[i].state;
    var c := if s.RUNNING? || s.STARTING? then RequestStop(Reading(d, now), i, now) else d;
    var w := AwaitStopped(c, i, polls);
    RequestStartsNothing(d, i, now);
    PollsStartNothing(c, polls, 0.0, i);
    NothingTransitive(d, c, w);
    NothingIsTraced(d, w, o, steady);
    if !w.procs[i].state.STOPPING? {
      StartAfreshIsTraced(w, i, fork, later, steady, o);
      TracedTransitive(d, w, StartAfresh(w, i, fork, later, steady), o, steady);
    }
  }

  /** The reading of the steady clock in a callback. */
  ghost function SteadyOf(e: Event): real {
    match e
    case TimerTick(t) => t.steady
    case Start(_, _, _, steady) => steady
    case Restart(_, _, _, _, _, steady) => steady
    case _ => 0.0
  }

  lemma HandleStartIsTraced(d: Daemon, name: string, fork: Fork, now: real, steady: real, o: int)
    ensures Traced(d, HandleStart(d, name, fork, now, steady), o, steady)
  {
    hide Find, StartAfresh, Traced;
    TracedToItself(d, o, steady);
    if Find(d.procs, name) >= 0 { StartAfreshIsTraced(d, Find(d.procs, name), fork, now, steady, o); }
  }

  lemma SwitchedStartsNothing(d: Daemon, e: Daemon, flag: bool)
    requires NothingStarted(d, e)
    ensures NothingStarted(d, e.(shuttingDown := flag))
  {}

  lemma HandleStopIsTraced(d: Daemon, name: string, now: real, polls: seq<Poll>, o: int)
    ensures Traced(d, HandleStop(d, name, now, polls), o, 0.0)
  {
    hide Find, ShutdownAll, RequestStop, Reading, Traced, NothingStarted;
    ShutdownStartsNothing(d, now, polls);
    SwitchedStartsNothing(d, ShutdownAll(d, now, polls), false);
    NothingIsTraced(d, ShutdownAll(d, now, polls).(shuttingDown := false), o, 0.0);
    TracedToItself(d, o, 0.0);
    var i := Find(d.procs, name);
    if i >= 0 {
      RequestStartsNothing(d, i, now);
      NothingIsTraced(d, RequestStop(Reading(d, now), i, now), o, 0.0);
    }
  }

  lemma HandleRestartIsTraced(d: Daemon, name: string, fork: Fork, now: real, polls: seq<Poll>, later: real, steady: real, o: int)
    ensures Traced(d, HandleRestart(d, name, fork, now, polls, later, steady), o, steady)
  {
    hide Find, ShutdownAll, AllAfresh, RestartOne, Traced, NothingStarted;
    var down := ShutdownAll(d, now, polls).(shuttingDown := false);
    ShutdownStartsNothing(d, now, polls);
    SwitchedStartsNothing(d, ShutdownAll(d, now, polls), false);
    AfreshStartsNothing(down, later);
    NothingTransitive(d, down, AllAfresh(down, later));
    NothingIsTraced(d, AllAfresh(down, later), o, steady);
    TracedToItself(d, o, steady);
    if Find(d.procs, name) >= 0 { RestartOneIsTraced(d, Find(d.procs, name), fork, now, polls, later, steady, o); }
  }

  lemma StepIsTraced(d: Daemon, e: Event, o: int)
    requires !e.OdinMessage?
    ensures Traced(d, Step(d, e), o, SteadyOf(e))
  {
    hide Tick, Find, HandleStart, HandleStop, HandleRestart, ShutdownAll, Traced, NothingStarted;
    match e
    case TimerTick(t) => TickIsTraced(d, t, o);
    case SignalTick(now, polls) =>
      ShutdownStartsNothing(d, now, polls);
      NothingIsTraced(d, ShutdownAll(d, now, polls), o, 0.0);
    case Start(name, fork, now, steady) => HandleStartIsTraced(d, name, fork, now, steady, o);
    case Stop(name, now, polls) => HandleStopIsTraced(d, name, now, polls, o);
    case Restart(name, fork, now, polls, later, steady) => HandleRestartIsTraced(d, name, fork, now, polls, later, steady, o);
  }

  /** When, by the steady clock, the driver got its child; from the start, if it never got one. */
  ghost function UpSince(d: Daemon, es: seq<Event>, o: nat): real
    requires o < |d.procs|
  {
    if es == [] then d.runningSince
    else
      var n := |es| - 1;
      if Forks(d, es, o) == Forks(d, es[..n], o) then UpSince(d, es[..n], o) else SteadyOf(es[n])
  }

  ghost function Forks(d: Daemon, es: seq<Event>, o: nat): nat
    requires o < |d.procs|
  {
    KeepsNumber(d, es);
    Run(d, es).procs[o].forks
  }

  lemma {:induction false} KeepsNumber(d: Daemon, es: seq<Event>)
    ensures |Run(d, es).procs| == |d.procs|
    decreases |es|
  {
    if es != [] { KeepsNumber(d, es[..|es| - 1]); }
  }

  /** Over every run: the driver is armed only if its present child has been heard, and its uptime counts from when it got
      that child. */
  lemma {:induction false} ArmedIsHeard(d: Daemon, es: seq<Event>, o: nat)
    requires Only(d.procs, o, ODIN) && !d.armed
    ensures Only(Run(d, es).procs, o, ODIN)
    ensures Run(d, es).runningSince == UpSince(d, es, o)
    ensures Run(d, es).armed ==> Heard(d, es, o)
    decreases |es|
  {
    if es != [] {
      var n := |es| - 1;
      ArmedIsHeard(d, es[..n], o);
      OneMoreHeard(d, es, o);
      var s := Run(d, es[..n]);
      if !es[n].OdinMessage? { StepIsTraced(s, es[n], o); }
      hide Run, Only, Heard;
    }
  }

  /** A message has come since the driver got its present child. */
  ghost predicate Heard(d: Daemon, es: seq<Event>, o: nat)
    requires o < |d.procs|
  {
    exists k :: 0 <= k < |es| && es[k].OdinMessage? && Forks(d, es[..k + 1], o) == Forks(d, es, o)
  }

  lemma OneMoreHeard(d: Daemon, es: seq<Event>, o: nat)
    requires o < |d.procs| && es != []
    ensures es[|es| - 1].OdinMessage? ==> Heard(d, es, o)
    ensures Heard(d, es[..|es| - 1], o) && Forks(d, es[..|es| - 1], o) == Forks(d, es, o) ==> Heard(d, es, o)
  {
    hide Forks;
    var n := |es| - 1;
    assert es[..n + 1] == es;
    if Heard(d, es[..n], o) && Forks(d, es[..n], o) == Forks(d, es, o) {
      var k :| 0 <= k < n && es[..n][k].OdinMessage? && Forks(d, es[..n][..k + 1], o) == Forks(d, es[..n], o);
      assert es[..n][..k + 1] == es[..k + 1];
    }
  }

  // ---------------------------------------------------------------- the rest of the callback

  lemma RestartKillsNobody(d: Daemon, j: nat, fork: Fork, now: real, steady: real)
    requires j < |d.procs|
    ensures RestartAt(d, j, fork, now, steady).killed == d.killed
  {}

  lemma {:induction false} RestartsKillNobody(d: Daemon, j: nat, forks: seq<Fork>, now: real, steady: real)
    ensures HandleRestarts(d, j, forks, now, steady).killed == d.killed
    decreases |d.procs| - j
  {
    if j < |d.procs| {
      RestartKillsNobody(d, j, ForkAt(forks, j), now, steady);
      hide RestartAt, ForkAt;
      RestartsKillNobody(RestartAt(d, j, ForkAt(forks, j), now, steady), j + 1, forks, now, steady);
    }
  }

  lemma {:induction false} PendingKillsNobody(d: Daemon, j: nat, forks: seq<Fork>, present: set<string>, now: real, steady: real)
    ensures HandlePending(d, j, forks, present, now, steady).killed == d.killed
    decreases |d.procs| - j
  {
    hide DependenciesRunning, TopicsReady;
    if j < |d.procs| {
      PendingKillsNobody(PendingAt(d, j, ForkAt(forks, j), present, now, steady), j + 1, forks, present, now, steady);
    }
  }

  /** Whatever is started, a running driver that is left alone stays as armed as it is. */
  lemma OneStartedKeepsArmed(d: Daemon, e: Daemon, j: nat, steady: real, o: int)
    requires OneStarted(d, e, j, steady) && Only(d.procs, o, ODIN) && e.procs[o] == d.procs[o]
    ensures e.armed == d.armed && Only(e.procs, o, ODIN)
  {
    OnlyStays(d.procs, j, e.procs[j], o, ODIN);
  }

  /** Attempting restarts leaves arming alone while the driver is running. */
  lemma {:induction false} RestartsKeepArmed(d: Daemon, j: nat, forks: seq<Fork>, now: real, steady: real, o: int)
    requires Only(d.procs, o, ODIN) && d.procs[o].state.RUNNING?
    ensures HandleRestarts(d, j, forks, now, steady).armed == d.armed
    decreases |d.procs| - j
  {
    hide RestartAt, Only, ForkAt, OneStarted, Attempted;
    assert 0 <= o < |d.procs| by { OnlyIsInside(d.procs, o); }
    if j < |d.procs| {
      var e := RestartAt(d, j, ForkAt(forks, j), now, steady);
      RestartAtEffect(d, j, ForkAt(forks, j), now, steady, o);
      RestartStartsOne(d, j, ForkAt(forks, j), now, steady);
      OneStartedKeepsArmed(d, e, j, steady, o);
      RestartsKeepArmed(e, j + 1, forks, now, steady, o);
    }
  }

  lemma OnlyIsInside(procs: seq<Proc>, o: int)
    requires Only(procs, o, ODIN)
    ensures 0 <= o < |procs|
  {}

  lemma {:induction false} PendingKeepsArmed(d: Daemon, j: nat, forks: seq<Fork>, present: set<string>, now: real, steady: real, o: int)
    requires Only(d.procs, o, ODIN) && d.procs[o].state.RUNNING?
    ensures HandlePending(d, j, forks, present, now, steady).armed == d.armed
    decreases |d.procs| - j
  {
    hide PendingAt, Only, ForkAt, OneStarted, Launched, DependenciesRunning, TopicsReady;
    assert 0 <= o < |d.procs| by { OnlyIsInside(d.procs, o); }
    if j < |d.procs| {
      var e := PendingAt(d, j, ForkAt(forks, j), present, now, steady);
      PendingAtEffect(d, j, ForkAt(forks, j), present, now, steady, o);
      PendingStartsOne(d, j, ForkAt(forks, j), present, now, steady);
      OneStartedKeepsArmed(d, e, j, steady, o);
      PendingKeepsArmed(e, j + 1, forks, present, now, steady, o);
    }
  }

  /** What follows the health check in a callback kills nobody, counts nothing and leaves a running driver alone. */
  lemma RestOfTick(d: Daemon, t: TickInput, o: int)
    requires 0 <= o < |d.procs|
    ensures var r := HandleRestarts(Reading(d, t.restartTime), 0, t.restartForks, t.restartTime, t.steady);
            var e := HandlePending(Reading(r, t.pendingTime), 0, t.pendingForks, t.topics, t.pendingTime, t.steady);
            && e.killed == d.killed && e.failCount == d.failCount && e.gaveUp == d.gaveUp
            && (d.procs[o].state.RUNNING? ==> e.procs[o] == d.procs[o])
            && (d.procs[o].state.RUNNING? && Only(d.procs, o, ODIN) ==> e.armed == d.armed)
  {
    hide HandleRestarts, HandlePending, DependenciesRunning, TopicsReady, Attempted, Launched, Only;
    var d1 := Reading(d, t.restartTime);
    var r := HandleRestarts(d1, 0, t.restartForks, t.restartTime, t.steady);
    var d2 := Reading(r, t.pendingTime);
    RestartsKillNobody(d1, 0, t.restartForks, t.restartTime, t.steady);
    PendingKillsNobody(d2, 0, t.pendingForks, t.topics, t.pendingTime, t.steady);
    RestartsEffect(d1, 0, t.restartForks, t.restartTime, t.steady, o);
    PendingEffect(d2, 0, t.pendingForks, t.topics, t.pendingTime, t.steady, o);
    if d.procs[o].state.RUNNING? && Only(d.procs, o, ODIN) {
      RestartsKeepArmed(d1, 0, t.restartForks, t.restartTime, t.steady, o);
      OnlyAfterRestarts(d1, t.restartForks, t.restartTime, t.steady, o);
      PendingKeepsArmed(d2, 0, t.pendingForks, t.topics, t.pendingTime, t.steady, o);
    }
  }

  lemma OnlyAfterRestarts(d: Daemon, forks: seq<Fork>, now: real, steady: real, o: int)
    requires Only(d.procs, o, ODIN)
    ensures Only(HandleRestarts(d, 0, forks, now, steady).procs, o, ODIN)
  {
    var e := HandleRestarts(d, 0, forks, now, steady);
    hide HandleRestarts;
    forall i | 0 <= i < |d.procs|
      ensures e.procs[i].name == d.procs[i].name
    {
      RestartsEffect(d, 0, forks, now, steady, i);
    }
  }

  // ---------------------------------------------------------------- the check

  /** The health check looks at the driver: it is running, has a child, and has sent odometry since it was started. */
  ghost predicate Checked(d: Daemon, o: int) {
    0 <= o < |d.procs| && d.procs[o].state.RUNNING? && d.procs[o].pid > 0 && d.armed
  }

  /** A timer callback kills the driver exactly if it looks at it and has not heard of it, in this run, for longer than the
      timeout. Below its limit the failure counter then goes up by one; at the limit the driver is not to be restarted any
      more. Otherwise the counter changes, to zero, exactly if the driver is looked at and has been up for long enough. */
  lemma SilentDriverIsKilled(d: Daemon, es: seq<Event>, t: TickInput, o: int)
    requires o == Find(Run(d, es).procs, "odin1_driver")
    ensures var s := Run(d, es);
            var b, e := BeforeHealth(s, t), Tick(s, t);
            var silent := Checked(b, o) && t.steady - LastHeard(d, es) > s.cfg.healthTimeout;
            var sound := Checked(b, o) && t.steady - LastHeard(d, es) <= s.cfg.healthTimeout;
            && e.killed == b.killed + (if silent then {b.procs[o].pid} else {})
            && e.failCount == (if silent && s.failCount < s.cfg.healthMaxFails then s.failCount + 1
                               else if sound && s.failCount > 0 && t.steady - s.runningSince >= s.cfg.healthResetUptime then 0
                               else s.failCount)
            && (silent ==>
                  if s.failCount < s.cfg.healthMaxFails then e.procs[o] == b.procs[o] && e.gaveUp == s.gaveUp
                  else e.procs[o] == b.procs[o].(autoRestart := false, stopping := true) && e.gaveUp)
            && (sound ==> e.procs[o] == b.procs[o])
            && (!silent ==> e.gaveUp == s.gaveUp)
            && (Checked(b, o) && Only(b.procs, o, "odin1_driver") ==> (e.armed <==> sound))
  {
    var s := Run(d, es);
    var b := BeforeHealth(s, t);
    LastMessage(d, es);
    DriverStays(s, t);
    BeforeHealthStartsNothing(s, t);
    CheckDecides(b, t.steady, o);
    hide Run, BeforeHealth, CheckOdinHealth, HandleRestarts, HandlePending, Find, LastHeard;
    if o >= 0 { RestOfTick(CheckOdinHealth(b, t.steady), t, o); } else { NobodyIsKilled(CheckOdinHealth(b, t.steady), t); }
  }

  lemma NobodyIsKilled(d: Daemon, t: TickInput)
    ensures var r := HandleRestarts(Reading(d, t.restartTime), 0, t.restartForks, t.restartTime, t.steady);
            var e := HandlePending(Reading(r, t.pendingTime), 0, t.pendingForks, t.topics, t.pendingTime, t.steady);
            e.killed == d.killed && e.failCount == d.failCount && e.gaveUp == d.gaveUp
  {
    hide HandleRestarts, HandlePending;
    var d1 := Reading(d, t.restartTime);
    var r := HandleRestarts(d1, 0, t.restartForks, t.restartTime, t.steady);
    RestartsKillNobody(d1, 0, t.restartForks, t.restartTime, t.steady);
    PendingKillsNobody(Reading(r, t.pendingTime), 0, t.pendingForks, t.topics, t.pendingTime, t.steady);
  }

  /** What comes before the check keeps the driver's place and all the check goes by. */
  lemma DriverStays(d: Daemon, t: TickInput)
    ensures var b := BeforeHealth(d, t);
            && Find(b.procs, ODIN) == Find(d.procs, ODIN) && b.cfg == d.cfg
            && b.lastMsg == d.lastMsg && b.failCount == d.failCount && b.gaveUp == d.gaveUp
  {
    var b := BeforeHealth(d, t);
    forall i | 0 <= i < |d.procs|
      ensures b.procs[i].name == d.procs[i].name
    {
      NameStays(d, t, i);
    }
    hide BeforeHealth;
    FindByNames(d.procs, b.procs, ODIN);
  }

  lemma NameStays(d: Daemon, t: TickInput, i: nat)
    requires i < |d.procs|
    ensures BeforeHealth(d, t).procs[i].name == d.procs[i].name
  {
    hide Reap, CheckStopTimeouts, ConfirmStarted, ResetBackoffs;
    var d1 := Reading(d.(tick := d.tick + 1), t.reapTime);
    ReapEffect(d1, t.reaped, t.reapTime, i);
    var d2 := Reading(Reap(d1, t.reaped, t.reapTime), t.stopTime);
    TimeoutEffect(d2, t.stopTime, i);
    var d3 := Reading(CheckStopTimeouts(d2, 0, t.stopTime), t.startedTime);
    ConfirmEffect(d3, 0, i);
    UptimeEffect(ConfirmStarted(d3, 0), 0, t.startedTime, i);
  }

  lemma CheckDecides(b: Daemon, steady: real, o: int)
    requires o == Find(b.procs, ODIN)
    ensures var c := CheckOdinHealth(b, steady);
            var silent := Checked(b, o) && steady - b.lastMsg > b.cfg.healthTimeout;
            var sound := Checked(b, o) && steady - b.lastMsg <= b.cfg.healthTimeout;
            && c.killed == b.killed + (if silent then {b.procs[o].pid} else {})
            && c.failCount == (if silent && b.failCount < b.cfg.healthMaxFails then b.failCount + 1
                               else if sound && b.failCount > 0 && steady - b.runningSince >= b.cfg.healthResetUptime then 0
                               else b.failCount)
            && (silent && b.failCount >= b.cfg.healthMaxFails ==>
                  c.gaveUp && c.procs == b.procs[o := b.procs[o].(autoRestart := false, stopping := true)])
            && (!(silent && b.failCount >= b.cfg.healthMaxFails) ==> c.gaveUp == b.gaveUp && c.procs == b.procs)
            && (Checked(b, o) ==> (c.armed <==> sound))
  {
    hide Find;
  }
}
