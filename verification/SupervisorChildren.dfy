/**
 No child is lost: in every run, an entry has a pid exactly while it is starting, running or
 stopping, live pids are distinct, and every unreaped child belongs to one entry or has been
 sent SIGKILL. The one step that breaks this is starting a process that is still stopping.
 Shutting down leaves no pid behind.
 */
module SupervisorChildren {
  import opened SupervisorModel

  predicate HasPid(s: ProcState) {
    s.STARTING? || s.RUNNING? || s.STOPPING?
  }

  /** One entry against the children the operating system knows. */
  ghost predicate Slot(p: Proc, children: set<int>) {
    && (p.pid > 0 <==> HasPid(p.state))
    && (p.stopping ==> p.pid > 0)
    && (p.state.STOPPING? ==> p.stopping)
    && (p.pid > 0 ==> p.pid in children)
  }

  ghost predicate Slots(procs: seq<Proc>, children: set<int>) {
    forall i | 0 <= i < |procs| :: Slot(procs[i], children)
  }

  ghost predicate DistinctPids(procs: seq<Proc>) {
    forall i, j | 0 <= i < |procs| && 0 <= j < |procs| && procs[i].pid > 0 && procs[i].pid == procs[j].pid :: i == j
  }

  /** Every child is some entry's or has been killed. */
  ghost predicate Accounted(procs: seq<Proc>, children: set<int>, killed: set<int>) {
    forall c <- children :: c > 0 && (c in killed || exists i :: 0 <= i < |procs| && procs[i].pid == c)
  }

  ghost predicate NoLostChildren(d: Daemon) {
    && Slots(d.procs, d.children)
    && DistinctPids(d.procs)
    && Accounted(d.procs, d.children, d.killed)
    && d.killed <= d.children
  }

  lemma ConfiguredHasNoChildren(d: Daemon)
    requires Configured(d)
    ensures NoLostChildren(d)
  {}

  // ---------------------------------------------------------------- changes to one entry

  /** An entry keeps its pid and stays consistent with it. */
  lemma KeepPid(d: Daemon, i: nat, p: Proc)
    requires NoLostChildren(d) && i < |d.procs|
    requires p.pid == d.procs[i].pid && Slot(p, d.children)
    ensures NoLostChildren(Put(d, i, p))
  {
    var procs := d.procs[i := p];
    forall c <- d.children
      ensures c in d.killed || exists k :: 0 <= k < |procs| && procs[k].pid == c
    {
      if c !in d.killed {
        var k :| 0 <= k < |d.procs| && d.procs[k].pid == c;
        assert procs[k].pid == c;
      }
    }
  }

  /** An entry without a child gets a fresh one. */
  lemma TakePid(d: Daemon, i: nat, p: Proc)
    requires NoLostChildren(d) && i < |d.procs| && d.procs[i].pid <= 0
    requires p.pid > 0 && p.pid !in d.children && HasPid(p.state) && (p.state.STOPPING? ==> p.stopping)
    ensures NoLostChildren(Put(d, i, p).(children := d.children + {p.pid}))
  {
    var procs := d.procs[i := p];
    forall c <- d.children + {p.pid}
      ensures c > 0 && (c in d.killed || exists k :: 0 <= k < |procs| && procs[k].pid == c)
    {
      if c == p.pid {
        assert procs[i].pid == c;
      } else if c !in d.killed {
        var k :| 0 <= k < |d.procs| && d.procs[k].pid == c;
        assert procs[k].pid == c;
      }
    }
  }

  /** An entry lets go of a child that has been killed. */
  lemma DropKilled(d: Daemon, i: nat, p: Proc)
    requires NoLostChildren(d) && i < |d.procs| && d.procs[i].pid > 0
    requires p.pid <= 0 && !HasPid(p.state) && !p.stopping
    ensures NoLostChildren(Put(d, i, p).(killed := d.killed + {d.procs[i].pid}))
  {
    var procs := d.procs[i := p];
    forall c <- d.children
      ensures c in d.killed + {d.procs[i].pid} || exists k :: 0 <= k < |procs| && procs[k].pid == c
    {
      if c !in d.killed && c != d.procs[i].pid {
        var k :| 0 <= k < |d.procs| && d.procs[k].pid == c;
        assert procs[k].pid == c;
      }
    }
  }

  /** A child is reaped and its entry, if it has one, lets go of it. */
  lemma DropReaped(d: Daemon, w: int, i: int, procs: seq<Proc>)
    requires NoLostChildren(d) && w in d.children && |procs| == |d.procs|
    requires i == Tracker(d.procs, w)
    requires if i < 0 then procs == d.procs
             else procs == d.procs[i := procs[i]] && procs[i].pid <= 0 && !HasPid(procs[i].state) && !procs[i].stopping
    ensures NoLostChildren(d.(procs := procs, children := d.children - {w}, killed := d.killed - {w}))
  {
    var children, killed := d.children - {w}, d.killed - {w};
    forall k | 0 <= k < |procs|
      ensures Slot(procs[k], children)
    {
      assert Slot(d.procs[k], d.children);
      if k != i && i >= 0 && d.procs[k].pid > 0 { assert d.procs[k].pid != d.procs[i].pid; }
    }
    forall c <- children
      ensures c > 0 && (c in killed || exists k :: 0 <= k < |procs| && procs[k].pid == c)
    {
      if c !in killed {
        var k :| 0 <= k < |d.procs| && d.procs[k].pid == c;
        assert procs[k].pid == c;
      }
    }
  }

  // ---------------------------------------------------------------- the routines

  lemma StartKeeps(d: Daemon, i: nat, fork: Fork, now: real, steady: real)
    requires NoLostChildren(d) && i < |d.procs| && d.procs[i].pid <= 0
    ensures NoLostChildren(StartProcess(d, i, fork, now, steady))
  {
    hide NoLostChildren;
    SlotOf(d, i);
    var p, e := d.procs[i], StartProcess(d, i, fork, now, steady);
    if Fresh(d, fork) {
      TakePid(d, i, e.procs[i]);
      SameChildren(Put(d, i, e.procs[i]).(children := d.children + {fork.pid}), e);
    } else {
      KeepPid(d, i, e.procs[i]);
    }
  }

  lemma SameChildren(d: Daemon, e: Daemon)
    requires e.procs == d.procs && e.children == d.children && e.killed == d.killed
    ensures NoLostChildren(e) == NoLostChildren(d)
  {}

  lemma RequestStopKeeps(d: Daemon, i: nat, now: real)
    requires NoLostChildren(d) && i < |d.procs|
    ensures NoLostChildren(RequestStop(d, i, now))
  {
    assert Slot(d.procs[i], d.children);
    var p := d.procs[i];
    if p.pid > 0 { KeepPid(d, i, p.(stopping := true, stopRequestTime := now, state := STOPPING)); }
  }

  lemma ForceKillKeeps(d: Daemon, i: nat)
    requires NoLostChildren(d) && i < |d.procs|
    ensures NoLostChildren(ForceKill(d, i)) && ForceKill(d, i).procs[i].pid <= 0
  {
    assert Slot(d.procs[i], d.children);
    var p := d.procs[i];
    if p.pid > 0 { DropKilled(d, i, p.(stopping := false, pid := -1, state := STOPPED)); }
  }

  lemma ReapOneKeeps(d: Daemon, w: int, now: real)
    requires NoLostChildren(d)
    ensures NoLostChildren(ReapOne(d, w, now))
  {
    hide NoLostChildren, Tracker;
    if w > 0 && w in d.children {
      var i, e := Tracker(d.procs, w), ReapOne(d, w, now);
      DropReaped(d, w, i, e.procs);
    }
  }

  lemma {:induction false} ReapKeeps(d: Daemon, ws: seq<int>, now: real)
    requires NoLostChildren(d)
    ensures NoLostChildren(Reap(d, ws, now))
    decreases |ws|
  {
    hide NoLostChildren, ReapOne;
    if ws != [] {
      ReapOneKeeps(d, ws[0], now);
      ReapKeeps(ReapOne(d, ws[0], now), ws[1..], now);
    }
  }

  lemma {:induction false} StopTimeoutsKeep(d: Daemon, i: nat, now: real)
    requires NoLostChildren(d)
    ensures NoLostChildren(CheckStopTimeouts(d, i, now))
    decreases |d.procs| - i
  {
    hide NoLostChildren, ForceKill;
    if i < |d.procs| {
      ForceKillKeeps(d, i);
      StopTimeoutsKeep(StopTimeoutAt(d, i, now), i + 1, now);
    }
  }

  lemma {:induction false} ConfirmKeeps(d: Daemon, i: nat)
    requires NoLostChildren(d)
    ensures NoLostChildren(ConfirmStarted(d, i))
    decreases |d.procs| - i
  {
    if i < |d.procs| {
      var p := d.procs[i];
      assert Slot(p, d.children);
      if p.state.STARTING? && p.pid > 0 && p.pid in d.children { KeepPid(d, i, p.(state := RUNNING)); }
      hide NoLostChildren;
      ConfirmKeeps(StartedAt(d, i), i + 1);
    }
  }

  lemma {:induction false} ResetKeeps(d: Daemon, i: nat, now: real)
    requires NoLostChildren(d)
    ensures NoLostChildren(ResetBackoffs(d, i, now))
    decreases |d.procs| - i
  {
    if i < |d.procs| {
      var p := d.procs[i];
      assert Slot(p, d.children);
      KeepPid(d, i, p.(backoff := d.cfg.initialBackoff, attempts := 0, resetAt := now));
      hide NoLostChildren;
      ResetKeeps(UptimeResetAt(d, i, now), i + 1, now);
    }
  }

  lemma MoreKilled(d: Daemon, pid: int)
    requires NoLostChildren(d) && pid in d.children
    ensures forall armed, failCount, gaveUp ::
              NoLostChildren(d.(killed := d.killed + {pid}, armed := armed, failCount := failCount, gaveUp := gaveUp))
  {}

  lemma HealthKeeps(d: Daemon, steady: real)
    requires NoLostChildren(d)
    ensures NoLostChildren(CheckOdinHealth(d, steady))
  {
    var i := Find(d.procs, ODIN);
    if i >= 0 && d.procs[i].state.RUNNING? && d.procs[i].pid > 0 {
      var p := d.procs[i];
      SlotOf(d, i);
      KeepPid(d, i, p.(autoRestart := false, stopping := true));
      MoreKilled(d, p.pid);
      MoreKilled(Put(d, i, p.(autoRestart := false, stopping := true)), p.pid);
      hide NoLostChildren, Find;
    }
  }

  lemma RestartAtKeeps(d: Daemon, i: nat, fork: Fork, now: real, steady: real)
    requires NoLostChildren(d) && i < |d.procs|
    ensures NoLostChildren(RestartAt(d, i, fork, now, steady))
  {
    hide NoLostChildren, StartProcess;
    var p := d.procs[i];
    SlotOf(d, i);
    if p.state.RESTARTING? && p.autoRestart && now - p.crashTime >= p.backoff {
      var d1 := Put(d, i, p.(restartCount := p.restartCount + 1));
      KeepPid(d, i, p.(restartCount := p.restartCount + 1));
      StartKeeps(d1, i, fork, now, steady);
      var e := StartProcess(d1, i, fork, now, steady);
      SlotOf(e, i);
      KeepPid(e, i, Retried(e.procs[i], d.cfg));
    }
  }

  lemma {:induction false} RestartsKeep(d: Daemon, i: nat, forks: seq<Fork>, now: real, steady: real)
    requires NoLostChildren(d)
    ensures NoLostChildren(HandleRestarts(d, i, forks, now, steady))
    decreases |d.procs| - i
  {
    hide NoLostChildren, RestartAt;
    if i < |d.procs| {
      RestartAtKeeps(d, i, ForkAt(forks, i), now, steady);
      RestartsKeep(RestartAt(d, i, ForkAt(forks, i), now, steady), i + 1, forks, now, steady);
    }
  }

  lemma {:induction false} PendingKeeps(d: Daemon, i: nat, forks: seq<Fork>, present: set<string>, now: real, steady: real)
    requires NoLostChildren(d)
    ensures NoLostChildren(HandlePending(d, i, forks, present, now, steady))
    decreases |d.procs| - i
  {
    if i < |d.procs| {
      assert Slot(d.procs[i], d.children);
      if d.procs[i].state.PENDING? { StartKeeps(d, i, ForkAt(forks, i), now, steady); }
      hide NoLostChildren, StartProcess;
      PendingKeeps(PendingAt(d, i, ForkAt(forks, i), present, now, steady), i + 1, forks, present, now, steady);
    }
  }

  lemma ReadingKeeps(d: Daemon, now: real)
    requires NoLostChildren(d)
    ensures NoLostChildren(Reading(d, now))
  {}

  lemma TickCountKeeps(d: Daemon)
    requires NoLostChildren(d)
    ensures NoLostChildren(d.(tick := d.tick + 1))
  {}

  lemma BeforeHealthKeeps(d: Daemon, t: TickInput)
    requires NoLostChildren(d)
    ensures NoLostChildren(BeforeHealth(d, t))
  {
    var d0 := d.(tick := d.tick + 1);
    TickCountKeeps(d);
    hide NoLostChildren, Reap, CheckStopTimeouts, ConfirmStarted, ResetBackoffs, Reading;
    ReadingKeeps(d0, t.reapTime);
    ReapKeeps(Reading(d0, t.reapTime), t.reaped, t.reapTime);
    var d1 := Reap(Reading(d0, t.reapTime), t.reaped, t.reapTime);
    ReadingKeeps(d1, t.stopTime);
    StopTimeoutsKeep(Reading(d1, t.stopTime), 0, t.stopTime);
    var d2 := CheckStopTimeouts(Reading(d1, t.stopTime), 0, t.stopTime);
    ReadingKeeps(d2, t.startedTime);
    ConfirmKeeps(Reading(d2, t.startedTime), 0);
    ResetKeeps(ConfirmStarted(Reading(d2, t.startedTime), 0), 0, t.startedTime);
  }

  lemma TickKeeps(d: Daemon, t: TickInput)
    requires NoLostChildren(d)
    ensures NoLostChildren(Tick(d, t))
  {
    hide NoLostChildren, BeforeHealth, CheckOdinHealth, HandleRestarts, HandlePending, Reading;
    BeforeHealthKeeps(d, t);
    var d3 := BeforeHealth(d, t);
    HealthKeeps(d3, t.steady);
    var d4 := CheckOdinHealth(d3, t.steady);
    ReadingKeeps(d4, t.restartTime);
    RestartsKeep(Reading(d4, t.restartTime), 0, t.restartForks, t.restartTime, t.steady);
    var d5 := HandleRestarts(Reading(d4, t.restartTime), 0, t.restartForks, t.restartTime, t.steady);
    ReadingKeeps(d5, t.pendingTime);
    PendingKeeps(Reading(d5, t.pendingTime), 0, t.pendingForks, t.topics, t.pendingTime, t.steady);
  }

  // ---------------------------------------------------------------- polling

  lemma PollKeeps(d: Daemon, p: Poll)
    requires NoLostChildren(d)
    ensures NoLostChildren(PollOnce(d, p))
  {
    hide NoLostChildren, Reap, CheckStopTimeouts, Reading;
    ReadingKeeps(d, p.now);
    ReapKeeps(Reading(d, p.now), p.reaped, p.now);
    StopTimeoutsKeep(Reap(Reading(d, p.now), p.reaped, p.now), 0, p.now);
  }

  /** What reaping can do to one entry: nothing, or take its pid. */
  ghost predicate SameOrGone(p: Proc, q: Proc) {
    q == p || (q.pid <= 0 && !HasPid(q.state) && q.name == p.name)
  }

  lemma {:induction false} ReapTakesPids(d: Daemon, ws: seq<int>, now: real, i: nat)
    requires i < |d.procs|
    ensures SameOrGone(d.procs[i], Reap(d, ws, now).procs[i])
    decreases |ws|
  {
    if ws != [] {
      ReapOneTakesPids(d, ws[0], now, i);
      hide ReapOne;
      ReapTakesPids(ReapOne(d, ws[0], now), ws[1..], now, i);
    }
  }

  lemma ReapOneTakesPids(d: Daemon, w: int, now: real, i: nat)
    requires i < |d.procs|
    ensures SameOrGone(d.procs[i], ReapOne(d, w, now).procs[i])
  {}

  /** check_stop_timeouts decides about each entry on its own. */
  lemma {:induction false} TimeoutPerEntry(d: Daemon, j: nat, now: real, i: nat)
    requires i < |d.procs|
    ensures CheckStopTimeouts(d, j, now).procs[i] == if j <= i then StopTimeoutAt(d, i, now).procs[i] else d.procs[i]
    decreases |d.procs| - j
  {
    if j < |d.procs| {
      assert i != j ==> StopTimeoutAt(d, j, now).procs[i] == d.procs[i];
      assert StopTimeoutAt(StopTimeoutAt(d, j, now), i, now).procs[i] == StopTimeoutAt(d, i, now).procs[i] || i == j;
      hide StopTimeoutAt;
      TimeoutPerEntry(StopTimeoutAt(d, j, now), j + 1, now, i);
    }
  }

  lemma PollTakesPids(d: Daemon, p: Poll, i: nat)
    requires i < |d.procs|
    ensures SameOrGone(d.procs[i], PollOnce(d, p).procs[i])
    ensures var q := d.procs[i];
            q.stopping && q.pid > 0 && p.now - q.stopRequestTime > q.shutdownTimeout ==>
              PollOnce(d, p).procs[i].pid <= 0 && !HasPid(PollOnce(d, p).procs[i].state)
  {
    var d1 := Reap(Reading(d, p.now), p.reaped, p.now);
    ReapTakesPids(Reading(d, p.now), p.reaped, p.now, i);
    hide Reap, CheckStopTimeouts;
    TimeoutPerEntry(d1, 0, p.now, i);
  }

  // ---------------------------------------------------------------- shutting down

  lemma {:induction false} RequestStopsKeep(d: Daemon, n: nat, now: real)
    requires NoLostChildren(d) && n <= |d.procs|
    ensures NoLostChildren(RequestStops(d, n, now))
    decreases n
  {
    hide NoLostChildren, RequestStop;
    if n > 0 {
      RequestStopKeeps(d, n - 1, now);
      RequestStopsKeep(StopRequestAt(d, n - 1, now), n - 1, now);
    }
  }

  lemma {:induction false} AwaitQuietKeeps(d: Daemon, polls: seq<Poll>, deadline: real)
    requires NoLostChildren(d)
    ensures NoLostChildren(AwaitQuiet(d, polls, deadline))
    decreases |polls|
  {
    hide NoLostChildren, PollOnce;
    if polls != [] {
      PollKeeps(d, polls[0]);
      if polls[0].now < deadline { AwaitQuietKeeps(PollOnce(d, polls[0]), polls[1..], deadline); }
    }
  }

  ghost predicate NoPids(procs: seq<Proc>, n: nat)
    requires n <= |procs|
  {
    forall i | 0 <= i < n :: procs[i].pid <= 0
  }

  lemma {:induction false} KillLeftoversKeeps(d: Daemon, i: nat)
    requires NoLostChildren(d) && i <= |d.procs| && NoPids(d.procs, i)
    ensures NoLostChildren(KillLeftovers(d, i)) && NoPids(KillLeftovers(d, i).procs, |d.procs|)
    decreases |d.procs| - i
  {
    if i < |d.procs| {
      assert Slot(d.procs[i], d.children);
      ForceKillKeeps(d, i);
      hide NoLostChildren;
      KillLeftoversKeeps(KillLeftoverAt(d, i), i + 1);
    }
  }

  /** After shutdown_all, however long children take and whatever is reaped meanwhile, no entry has a pid,
      and every child that is still unreaped has been sent SIGKILL. */
  lemma ShutdownLeavesNoPid(d: Daemon, now: real, polls: seq<Poll>)
    requires NoLostChildren(d)
    ensures NoLostChildren(ShutdownAll(d, now, polls))
    ensures !d.shuttingDown ==> var e := ShutdownAll(d, now, polls);
                                NoPids(e.procs, |e.procs|) && e.children <= e.killed
  {
    var d0 := Reading(d.(shuttingDown := true), now);
    assert NoLostChildren(d0);
    RequestStopsKeep(d0, |d.procs|, now);
    var d1 := RequestStops(d0, |d.procs|, now);
    AwaitQuietKeeps(d1, polls, now + d.cfg.gracefulTimeout);
    var d2 := AwaitQuiet(d1, polls, now + d.cfg.gracefulTimeout);
    KillLeftoversKeeps(d2, 0);
    var e := KillLeftovers(d2, 0);
    hide RequestStops, AwaitQuiet, KillLeftovers;
    assert forall c <- e.children :: c in e.killed;
  }

  // ---------------------------------------------------------------- services

  lemma ToPendingKeeps(d: Daemon, i: nat, now: real)
    requires NoLostChildren(d) && i < |d.procs| && d.procs[i].pid <= 0
    ensures NoLostChildren(ToPending(d, i, now)) && NoLostChildren(ClearHealth(ToPending(d, i, now), i))
    ensures ClearHealth(ToPending(d, i, now), i).procs[i].pid <= 0
  {
    assert Slot(d.procs[i], d.children);
    var e := ToPending(d, i, now);
    KeepPid(d, i, e.procs[i]);
    assert Slot(e.procs[i], e.children);
    KeepPid(e, i, e.procs[i].(autoRestart := true));
  }

  lemma RestartFromPending(d: Daemon, i: nat, fork: Fork, now: real, steady: real)
    requires NoLostChildren(d) && i < |d.procs| && d.procs[i].pid <= 0
    ensures NoLostChildren(StartProcess(ClearHealth(ToPending(Reading(d, now), i, now), i), i, fork, now, steady))
  {
    ReadingKeeps(d, now);
    ToPendingKeeps(Reading(d, now), i, now);
    hide NoLostChildren, StartProcess;
    StartKeeps(ClearHealth(ToPending(Reading(d, now), i, now), i), i, fork, now, steady);
  }

  /** A manual start keeps children accounted for exactly when the process is not still stopping, or when it is
      but its old child has already been killed and the fork succeeds. */
  lemma StartKeepsUnlessStopping(d: Daemon, name: string, fork: Fork, now: real, steady: real)
    requires NoLostChildren(d)
    ensures var i := Find(d.procs, name);
            NoLostChildren(HandleStart(d, name, fork, now, steady)) <==>
              name == "" || i < 0 || !d.procs[i].state.STOPPING? || (Fresh(d, fork) && d.procs[i].pid in d.killed)
  {
    var i := Find(d.procs, name);
    if name != "" && i >= 0 {
      assert Slot(d.procs[i], d.children);
      if d.procs[i].state.STOPPING? {
        StartWhileStopping(d, i, fork, now, steady);
      } else if !HasPid(d.procs[i].state) {
        RestartFromPending(d, i, fork, now, steady);
      }
    }
  }

  lemma StartWhileStopping(d: Daemon, i: nat, fork: Fork, now: real, steady: real)
    requires NoLostChildren(d) && i < |d.procs| && d.procs[i].state.STOPPING?
    ensures var e := StartProcess(ClearHealth(ToPending(Reading(d, now), i, now), i), i, fork, now, steady);
            NoLostChildren(e) <==> Fresh(d, fork) && d.procs[i].pid in d.killed
  {
    hide NoLostChildren, Slot;
    var c := ClearHealth(ToPending(Reading(d, now), i, now), i);
    assert c.procs == d.procs[i := c.procs[i]] && c.children == d.children && c.killed == d.killed;
    assert c.procs[i].pid == d.procs[i].pid;
    StartOverChild(d, c, i, fork, now, steady);
  }

  lemma StartOverChild(d: Daemon, c: Daemon, i: nat, fork: Fork, now: real, steady: real)
    requires NoLostChildren(d) && i < |d.procs| && d.procs[i].state.STOPPING?
    requires |c.procs| == |d.procs| && c.procs == d.procs[i := c.procs[i]] && c.children == d.children && c.killed == d.killed
    requires c.procs[i].pid == d.procs[i].pid
    ensures NoLostChildren(StartProcess(c, i, fork, now, steady)) <==> Fresh(d, fork) && d.procs[i].pid in d.killed
  {
    hide NoLostChildren;
    var e := StartProcess(c, i, fork, now, steady);
    SlotOf(d, i);
    if Fresh(d, fork) {
      var p := e.procs[i];
      assert e.procs == d.procs[i := p] && e.children == d.children + {p.pid} && e.killed == d.killed;
      assert p.pid > 0 && p.pid !in d.children && p.state.STARTING?;
      hide StartProcess;
      OverwritePid(d, i, p, e);
    } else {
      SlotOf(e, i);
    }
  }

  lemma SlotOf(d: Daemon, i: nat)
    requires i < |d.procs|
    ensures NoLostChildren(d) ==> Slot(d.procs[i], d.children)
  {}

  /** An entry that has a child takes a fresh one: the old child is lost unless it has been killed. */
  lemma OverwritePid(d: Daemon, i: nat, p: Proc, e: Daemon)
    requires NoLostChildren(d) && i < |d.procs| && d.procs[i].pid > 0
    requires p.pid > 0 && p.pid !in d.children && HasPid(p.state) && !p.state.STOPPING?
    requires e.procs == d.procs[i := p] && e.children == d.children + {p.pid} && e.killed == d.killed
    ensures NoLostChildren(e) <==> d.procs[i].pid in d.killed
  {
    var prior := d.procs[i].pid;
    assert Slot(d.procs[i], d.children);
    assert forall k | 0 <= k < |d.procs| && k != i :: e.procs[k] == d.procs[k];
    if prior in d.killed {
      forall c <- e.children
        ensures c > 0 && (c in e.killed || exists k :: 0 <= k < |e.procs| && e.procs[k].pid == c)
      {
        if c == p.pid {
          assert e.procs[i].pid == c;
        } else if c !in d.killed {
          var k :| 0 <= k < |d.procs| && d.procs[k].pid == c;
          assert e.procs[k].pid == c;
        }
      }
    } else {
      assert forall k | 0 <= k < |e.procs| :: e.procs[k].pid != prior;
    }
  }

  lemma {:induction false} AwaitStoppedKeeps(d: Daemon, i: nat, polls: seq<Poll>)
    requires NoLostChildren(d) && i < |d.procs| && !d.procs[i].state.RUNNING? && !d.procs[i].state.STARTING?
    ensures var e := AwaitStopped(d, i, polls);
            && NoLostChildren(e)
            && !e.procs[i].state.RUNNING? && !e.procs[i].state.STARTING?
            && (!e.procs[i].state.STOPPING? ==> e.procs[i].pid <= 0)
    decreases |polls|
  {
    assert Slot(d.procs[i], d.children);
    if d.procs[i].state.STOPPING? && polls != [] {
      PollKeeps(d, polls[0]);
      PollTakesPids(d, polls[0], i);
      hide NoLostChildren, PollOnce;
      AwaitStoppedKeeps(PollOnce(d, polls[0]), i, polls[1..]);
    }
  }

  /** The blocking restart returns: once the clock has passed the stop timeout the process is no longer stopping. */
  lemma {:induction false} RestartReturns(d: Daemon, i: nat, polls: seq<Poll>, k: nat)
    requires i < |d.procs| && k < |polls|
    requires var p := d.procs[i];
             p.state.STOPPING? ==> p.stopping && p.pid > 0 && polls[k].now - p.stopRequestTime > p.shutdownTimeout
    ensures !AwaitStopped(d, i, polls).procs[i].state.STOPPING?
    decreases k
  {
    if d.procs[i].state.STOPPING? {
      PollTakesPids(d, polls[0], i);
      hide PollOnce;
      var e := PollOnce(d, polls[0]);
      if k > 0 {
        RestartReturns(e, i, polls[1..], k - 1);
      } else {
        assert AwaitStopped(e, i, polls[1..]) == e;
      }
    }
  }

  lemma NoPidsPending(d: Daemon, i: nat, now: real)
    requires i < |d.procs| && NoPids(d.procs, |d.procs|)
    ensures NoPids(ToPending(d, i, now).procs, |d.procs|)
  {}

  lemma {:induction false} AllToPendingKeeps(d: Daemon, n: nat, now: real)
    requires NoLostChildren(d) && n <= |d.procs| && NoPids(d.procs, |d.procs|)
    ensures NoLostChildren(AllToPending(d, n, now)) && NoPids(AllToPending(d, n, now).procs, |d.procs|)
  {
    hide NoLostChildren;
    if n > 0 {
      AllToPendingKeeps(d, n - 1, now);
      var e := AllToPending(d, n - 1, now);
      ToPendingKeeps(e, n - 1, now);
      NoPidsPending(e, n - 1, now);
      hide NoPids, ToPending;
    }
  }

  lemma RestartKeeps(d: Daemon, name: string, fork: Fork, now: real, polls: seq<Poll>, later: real, steady: real)
    requires NoLostChildren(d) && !d.shuttingDown
    ensures NoLostChildren(HandleRestart(d, name, fork, now, polls, later, steady))
  {
    if name == "" {
      RestartAllKeeps(d, fork, now, polls, later, steady);
    } else {
      var i := Find(d.procs, name);
      if i >= 0 {
        assert Slot(d.procs[i], d.children);
        ReadingKeeps(d, now);
        RequestStopKeeps(Reading(d, now), i, now);
        var s := d.procs[i].state;
        var d1 := if s.RUNNING? || s.STARTING? then RequestStop(Reading(d, now), i, now) else d;
        AwaitStoppedKeeps(d1, i, polls);
        var e := AwaitStopped(d1, i, polls);
        hide NoLostChildren, AwaitStopped, StartProcess, ClearHealth, ToPending;
        if !e.procs[i].state.STOPPING? { RestartFromPending(e, i, fork, later, steady); }
      }
    }
  }

  lemma RestartAllKeeps(d: Daemon, fork: Fork, now: real, polls: seq<Poll>, later: real, steady: real)
    requires NoLostChildren(d) && !d.shuttingDown
    ensures NoLostChildren(HandleRestart(d, "", fork, now, polls, later, steady))
  {
    ShutdownLeavesNoPid(d, now, polls);
    var e := ShutdownAll(d, now, polls).(shuttingDown := false);
    hide ShutdownAll;
    AllToPendingKeeps(Reading(e, later), |e.procs|, later);
    var f := AllToPending(Reading(e, later), |e.procs|, later).(failCount := 0, gaveUp := false);
    hide AllToPending;
    assert NoLostChildren(f);
    var o := Find(f.procs, ODIN);
    if o >= 0 {
      assert Slot(f.procs[o], f.children);
      KeepPid(f, o, f.procs[o].(autoRestart := true));
    }
  }

  // ---------------------------------------------------------------- runs

  /** Any callback of a daemon that has not been told to end, but a manual start of a process that is still stopping. */
  predicate Allowed(d: Daemon, e: Event) {
    !d.shuttingDown &&
    (e.Start? ==> var i := Find(d.procs, e.name); i >= 0 ==> !d.procs[i].state.STOPPING?)
  }

  lemma StepKeeps(d: Daemon, e: Event)
    requires NoLostChildren(d) && Allowed(d, e)
    ensures NoLostChildren(Step(d, e))
  {
    match e
    case TimerTick(t) => TickKeeps(d, t);
    case SignalTick(now, polls) => ShutdownLeavesNoPid(d, now, polls);
    case OdinMessage(steady) =>
    case Start(name, fork, now, steady) => StartKeepsUnlessStopping(d, name, fork, now, steady);
    case Stop(name, now, polls) =>
      ShutdownLeavesNoPid(d, now, polls);
      ReadingKeeps(d, now);
      var i := Find(d.procs, name);
      if i >= 0 { RequestStopKeeps(Reading(d, now), i, now); }
    case Restart(name, fork, now, polls, later, steady) => RestartKeeps(d, name, fork, now, polls, later, steady);
  }

  ghost predicate AllowedRun(d: Daemon, es: seq<Event>) {
    forall k | 0 <= k < |es| :: Allowed(Run(d, es[..k]), es[k])
  }

  /** In every run of allowed callbacks, whatever the children, the clock and the operating system do, no child is lost. */
  lemma {:induction false} NoRunLosesChildren(d: Daemon, es: seq<Event>)
    requires NoLostChildren(d) && AllowedRun(d, es)
    ensures NoLostChildren(Run(d, es))
    decreases |es|
  {
    hide NoLostChildren, Step;
    if es != [] {
      var n := |es| - 1;
      assert forall k | 0 <= k < n :: es[..n][..k] == es[..k] && es[..n][k] == es[k];
      NoRunLosesChildren(d, es[..n]);
      StepKeeps(Run(d, es[..n]), es[n]);
    }
  }

  // ---------------------------------------------------------------- a start that loses a child

  const CONFIG: Config := Config(1.0, 60.0, 60.0, 10.0, 10.0, 3, 60.0)

  const ENTRY: Proc := Proc("p", true, 10.0, [], [], -1, PENDING, 0, 0.0, 0.0, 1.0, 0.0, false, 0, 0.0, 0, -1)

  const IDLE: Daemon := Daemon(CONFIG, [ENTRY], false, false, 0, 0.0, 0.0, {}, {}, 0.0, true, 0, false)

  /** The process is started as child 5, told to stop, and started again as child 6 while still stopping. */
  const HASTY: seq<Event> := [Start("p", Forked(5), 1.0, 1.0), Stop("p", 2.0, []), Start("p", Forked(6), 3.0, 3.0)]

  lemma HastyStates()
    ensures Configured(IDLE)
    ensures var d1, d2 := Step(IDLE, HASTY[0]), Step(Step(IDLE, HASTY[0]), HASTY[1]);
            && |d1.procs| == 1 && d1.procs[0].state.STARTING? && !d1.shuttingDown
            && |d2.procs| == 1 && d2.procs[0].name == "p" && d2.procs[0].state.STOPPING? && d2.procs[0].pid == 5
            && d2.killed == {} && !d2.shuttingDown
  {}

  lemma HastyRuns()
    ensures Run(IDLE, []) == IDLE && Run(IDLE, HASTY[..1]) == Step(IDLE, HASTY[0])
    ensures Run(IDLE, HASTY[..2]) == Step(Step(IDLE, HASTY[0]), HASTY[1])
    ensures Run(IDLE, HASTY) == Step(Run(IDLE, HASTY[..2]), HASTY[2])
  {
    hide Step;
    assert HASTY[..1] == [HASTY[0]] && HASTY[..2] == [HASTY[0], HASTY[1]] && HASTY == HASTY[..2] + [HASTY[2]];
    assert [HASTY[0]][..0] == [] && [HASTY[0], HASTY[1]][..1] == [HASTY[0]];
  }

  /** In this run child 5 is lost: the entry has become child 6, and nobody has killed child 5. */
  lemma HastyStartLosesChild()
    ensures Configured(IDLE) && AllowedRun(IDLE, HASTY[..2])
    ensures !Allowed(Run(IDLE, HASTY[..2]), HASTY[2]) && !NoLostChildren(Run(IDLE, HASTY))
  {
    hide Run, NoLostChildren, Configured;
    HastyStates();
    HastyRuns();
    var d2 := Run(IDLE, HASTY[..2]);
    assert HASTY[..0] == [] && HASTY[..2][..0] == [] && HASTY[..2][..1] == HASTY[..1];
    ConfiguredHasNoChildren(IDLE);
    NoRunLosesChildren(IDLE, HASTY[..2]);
    assert Step(d2, HASTY[2]) == HandleStart(d2, "p", Forked(6), 3.0, 3.0);
    hide Step, HandleStart;
    StartKeepsUnlessStopping(d2, "p", Forked(6), 3.0, 3.0);
  }
}
