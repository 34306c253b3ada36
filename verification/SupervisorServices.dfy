/**
 What one callback or service call does to one entry and to the children, exactly: who is reaped, who is killed and when,
 and what starting, stopping and restarting by hand leave behind.
 */
module SupervisorServices {
  import opened SupervisorModel
  import opened SupervisorChildren
  import opened SupervisorEffects

  // ---------------------------------------------------------------- reaping

  ghost function Members(ws: seq<int>): set<int> {
    set w | w in ws
  }

  /** Who is affected by a report about w: a child, and the entry with that pid. */
  lemma ReportedIsTracked(d: Daemon, w: int, i: nat)
    requires NoLostChildren(d) && i < |d.procs|
    ensures w in d.children ==> w > 0
    ensures d.procs[i].pid > 0 ==> d.procs[i].pid in d.children
    ensures w > 0 ==> (Tracker(d.procs, w) == i <==> d.procs[i].pid == w)
    ensures w !in d.children ==> d.children - {w} == d.children && d.killed - {w} == d.killed
  {
    assert Slot(d.procs[i], d.children);
    hide Tracker, Slot;
  }

  lemma ReapedChild(d: Daemon, w: int, now: real)
    requires w !in d.children ==> d.children - {w} == d.children && d.killed - {w} == d.killed
    requires w in d.children ==> w > 0
    ensures var e := ReapOne(d, w, now); e.children == d.children - {w} && e.killed == d.killed - {w}
  {
    hide Tracker;
  }

  lemma ReapedOne(d: Daemon, w: int, now: real, i: nat)
    requires NoLostChildren(d) && i < |d.procs|
    ensures var p, e := d.procs[i], ReapOne(d, w, now);
            && (if p.pid > 0 && p.pid == w then Reaped(p, e.procs[i], now) else e.procs[i] == p)
            && e.children == d.children - {w} && e.killed == d.killed - {w}
  {
    ReportedIsTracked(d, w, i);
    ReapedChild(d, w, now);
    hide Tracker, NoLostChildren;
    if w > 0 && w in d.children && Tracker(d.procs, w) == i {
      assert Reaped(d.procs[i], ReapOne(d, w, now).procs[i], now);
    } else {
      assert ReapOne(d, w, now).procs[i] == d.procs[i];
    }
    hide ReapOne;
  }

  /** reap_children takes exactly the reported children from the entries that track them: as a stop that was asked for, or
      as a crash at that time. */
  lemma {:induction false} ReapedExactly(d: Daemon, ws: seq<int>, now: real, i: nat)
    requires NoLostChildren(d) && i < |d.procs|
    ensures var p, e := d.procs[i], Reap(d, ws, now);
            && (if p.pid > 0 && p.pid in ws then Reaped(p, e.procs[i], now) else e.procs[i] == p)
            && e.children == d.children - Members(ws) && e.killed == d.killed - Members(ws)
    decreases |ws|
  {
    if ws != [] {
      ReapedOne(d, ws[0], now, i);
      ReapOneKeeps(d, ws[0], now);
      hide NoLostChildren, ReapOne;
      ReapedExactly(ReapOne(d, ws[0], now), ws[1..], now, i);
      assert ws == [ws[0]] + ws[1..];
      assert Members(ws) == {ws[0]} + Members(ws[1..]);
    }
  }

  // ---------------------------------------------------------------- stop timeouts

  /** Asked to stop longer ago than its timeout. */
  ghost predicate Overdue(p: Proc, now: real) {
    p.stopping && p.pid > 0 && now - p.stopRequestTime > p.shutdownTimeout
  }

  ghost function OverduePids(procs: seq<Proc>, j: nat, now: real): set<int> {
    set i | j <= i < |procs| && Overdue(procs[i], now) :: procs[i].pid
  }

  lemma OverdueFirst(procs: seq<Proc>, q: Proc, j: nat, now: real)
    requires j < |procs|
    ensures OverduePids(procs, j, now) ==
            (if Overdue(procs[j], now) then {procs[j].pid} else {}) + OverduePids(procs[j := q], j + 1, now)
  {
    hide Overdue;
    var more := procs[j := q];
    assert forall i | j + 1 <= i < |procs| :: more[i] == procs[i];
    forall x | x in OverduePids(procs, j, now)
      ensures x in (if Overdue(procs[j], now) then {procs[j].pid} else {}) + OverduePids(more, j + 1, now)
    {
      var i :| j <= i < |procs| && Overdue(procs[i], now) && procs[i].pid == x;
      if i > j { assert more[i].pid == x; }
    }
    forall x | x in OverduePids(more, j + 1, now)
      ensures x in OverduePids(procs, j, now)
    {
      var i :| j + 1 <= i < |more| && Overdue(more[i], now) && more[i].pid == x;
      assert procs[i].pid == x;
    }
  }

  lemma TimeoutAtKills(d: Daemon, j: nat, now: real)
    requires j < |d.procs|
    ensures var p, e := d.procs[j], StopTimeoutAt(d, j, now);
            && e.procs == d.procs[j := e.procs[j]] && e.children == d.children
            && e.killed == d.killed + (if Overdue(p, now) then {p.pid} else {})
            && (if Overdue(p, now) then TimedOut(p, e.procs[j]) else e.procs[j] == p)
  {}

  lemma {:induction false} TimeoutsKill(d: Daemon, j: nat, now: real)
    ensures CheckStopTimeouts(d, j, now).killed == d.killed + OverduePids(d.procs, j, now)
    decreases |d.procs| - j
  {
    hide Overdue, StopTimeoutAt;
    if j < |d.procs| {
      var e := StopTimeoutAt(d, j, now);
      TimeoutAtKills(d, j, now);
      TimeoutsKill(e, j + 1, now);
      OverdueFirst(d.procs, e.procs[j], j, now);
    }
  }

  /** check_stop_timeouts kills exactly the processes that were asked to stop longer ago than their timeout; these are
      stopped at once. */
  lemma TimeoutsExactly(d: Daemon, now: real, i: nat)
    requires i < |d.procs|
    ensures var p, e := d.procs[i], CheckStopTimeouts(d, 0, now);
            && (if Overdue(p, now) then TimedOut(p, e.procs[i]) else e.procs[i] == p)
            && e.killed == d.killed + OverduePids(d.procs, 0, now)
  {
    TimeoutsKill(d, 0, now);
    TimeoutPerEntry(d, 0, now, i);
    hide CheckStopTimeouts, OverduePids;
    TimeoutAtKills(d, i, now);
  }

  // ---------------------------------------------------------------- shutting down

  /** shutdown_all's first loop asks exactly the processes that are starting, running or about to be restarted. */
  lemma {:induction false} RequestsExactly(d: Daemon, n: nat, now: real, i: nat)
    requires i < |d.procs| && n <= |d.procs|
    ensures var p, q := d.procs[i], RequestStops(d, n, now).procs[i];
            if i < n && p.pid > 0 && (p.state.STARTING? || p.state.RUNNING? || p.state.RESTARTING?)
            then StopRequested(p, q, now) else q == p
    ensures RequestStops(d, n, now).killed == d.killed && |RequestStops(d, n, now).procs| == |d.procs|
    decreases n
  {
    if n > 0 {
      var e := StopRequestAt(d, n - 1, now);
      assert i != n - 1 ==> e.procs[i] == d.procs[i];
      RequestsExactly(e, n - 1, now, i);
    }
  }

  ghost function PollAll(d: Daemon, polls: seq<Poll>): Daemon {
    if polls == [] then d else PollOnce(PollAll(d, polls[..|polls| - 1]), polls[|polls| - 1])
  }

  /** Nobody's stop is overdue at a poll. */
  ghost predicate InTime(procs: seq<Proc>, now: real) {
    forall i | 0 <= i < |procs| :: procs[i].stopping && procs[i].pid > 0 ==> now - procs[i].stopRequestTime <= procs[i].shutdownTimeout
  }

  lemma PollInTime(d: Daemon, p: Poll)
    requires NoLostChildren(d) && InTime(d.procs, p.now)
    ensures PollOnce(d, p).killed <= d.killed && NoLostChildren(PollOnce(d, p))
    ensures forall now :: InTime(d.procs, now) ==> InTime(PollOnce(d, p).procs, now)
  {
    PollKeeps(d, p);
    var r := Reading(d, p.now);
    ReadingKeeps(d, p.now);
    var e := Reap(r, p.reaped, p.now);
    hide NoLostChildren, Reap, CheckStopTimeouts;
    if d.procs != [] { ReapedExactly(r, p.reaped, p.now, 0); } else { ReapKillsNobody(r, p.reaped, p.now); }
    forall i | 0 <= i < |d.procs|
      ensures e.procs[i].stopping ==> d.procs[i].stopping && e.procs[i] == d.procs[i]
    {
      ReapedExactly(r, p.reaped, p.now, i);
    }
    NobodyOverdue(e.procs, p.now);
    TimeoutsKill(e, 0, p.now);
    forall i | 0 <= i < |d.procs|
      ensures CheckStopTimeouts(e, 0, p.now).procs[i] == e.procs[i]
    {
      TimeoutsExactly(e, p.now, i);
    }
  }

  lemma {:induction false} ReapKillsNobody(d: Daemon, ws: seq<int>, now: real)
    ensures Reap(d, ws, now).killed <= d.killed
    decreases |ws|
  {
    if ws != [] { ReapKillsNobody(ReapOne(d, ws[0], now), ws[1..], now); }
  }

  lemma NobodyOverdue(procs: seq<Proc>, now: real)
    requires forall i | 0 <= i < |procs| :: !Overdue(procs[i], now)
    ensures OverduePids(procs, 0, now) == {}
  {}

  /** If everything is quiet after some poll before the deadline, and no stop was overdue until then, shutdown_all sends
      nobody SIGKILL while it waits, and finds everything quiet. */
  lemma {:induction false} WaitsInTime(d: Daemon, polls: seq<Poll>, deadline: real, k: nat)
    requires NoLostChildren(d) && k < |polls| && forall m | 0 <= m <= k :: polls[m].now < deadline && InTime(d.procs, polls[m].now)
    requires AllQuiet(PollAll(d, polls[..k + 1]).procs)
    ensures var e := AwaitQuiet(d, polls, deadline);
            e.killed <= d.killed && AllQuiet(e.procs)
    decreases k
  {
    PollInTime(d, polls[0]);
    hide PollOnce, NoLostChildren, InTime, AllQuiet;
    var e := PollOnce(d, polls[0]);
    if k > 0 {
      if !AllQuiet(e.procs) {
        FirstPoll(d, polls[..k + 1]);
        assert polls[..k + 1][1..] == polls[1..][..k];
        assert polls[..k + 1][0] == polls[0];
        forall m | 0 <= m <= k - 1
          ensures polls[1..][m].now < deadline && InTime(e.procs, polls[1..][m].now)
        {
          assert polls[1..][m] == polls[m + 1];
        }
        WaitsInTime(e, polls[1..], deadline, k - 1);
      }
    } else {
      assert polls[..1] == [polls[0]] && [polls[0]][..0] == [];
      assert PollAll(d, []) == d;
    }
  }

  lemma {:induction false} FirstPoll(d: Daemon, polls: seq<Poll>)
    requires polls != []
    ensures PollAll(d, polls) == PollAll(PollOnce(d, polls[0]), polls[1..])
    decreases |polls|
  {
    hide PollOnce;
    var n := |polls| - 1;
    if n == 0 {
      assert polls[..0] == [] && polls[1..] == [];
    } else {
      FirstPoll(d, polls[..n]);
      assert polls[..n][1..] == polls[1..][..n - 1] && polls[1..][n - 1] == polls[n];
    }
  }

  lemma {:induction false} QuietAreLeft(d: Daemon, j: nat)
    requires AllQuiet(d.procs)
    ensures KillLeftovers(d, j) == d
    decreases |d.procs| - j
  {
    if j < |d.procs| {
      assert Quiet(d.procs[j]);
      QuietAreLeft(d, j + 1);
    }
  }

  /** Shutting down is graceful: if all children have gone by some poll before the deadline, none of them later than its own
      timeout, nobody is sent SIGKILL. */
  lemma ShutdownIsGraceful(d: Daemon, now: real, polls: seq<Poll>, k: nat)
    requires NoLostChildren(d) && !d.shuttingDown && k < |polls|
    requires var d1 := RequestStops(Reading(d.(shuttingDown := true), now), |d.procs|, now);
             && AllQuiet(PollAll(d1, polls[..k + 1]).procs)
             && forall m | 0 <= m <= k :: polls[m].now < now + d.cfg.gracefulTimeout && InTime(d1.procs, polls[m].now)
    ensures ShutdownAll(d, now, polls).killed <= d.killed
  {
    var d0 := Reading(d.(shuttingDown := true), now);
    var d1 := RequestStops(d0, |d.procs|, now);
    assert NoLostChildren(d0);
    RequestStopsKeep(d0, |d.procs|, now);
    if d.procs != [] { RequestsExactly(d0, |d.procs|, now, 0); } else { assert d1 == d0; }
    hide RequestStops, NoLostChildren, AwaitQuiet, KillLeftovers, AllQuiet, PollAll, InTime;
    WaitsInTime(d1, polls, now + d.cfg.gracefulTimeout, k);
    QuietAreLeft(AwaitQuiet(d1, polls, now + d.cfg.gracefulTimeout), 0);
  }

  // ---------------------------------------------------------------- services

  /** An entry after a start by hand: a new child, or a failed fork counted as a crash, and in either case the first delay
      before automatic restarts; the driver is to be restarted automatically again. */
  ghost predicate StartedByHand(p: Proc, q: Proc, fork: Fork, forked: bool, now: real, cfg: Config) {
    && q.name == p.name && q.backoff == cfg.initialBackoff && q.attempts == 0
    && q.autoRestart == (p.autoRestart || p.name == "odin1_driver")
    && q.restartCount == p.restartCount && q.stopping == p.stopping
    && if forked then fork.Forked? && q.pid == fork.pid && q.state.STARTING? && q.startTime == now && q.forks == p.forks + 1
       else q.pid == p.pid && q.state.RESTARTING? && q.crashTime == now && q.forks == p.forks
  }

  ghost predicate OnlyEntry(d: Daemon, e: Daemon, i: int) {
    |e.procs| == |d.procs| && forall k | 0 <= k < |d.procs| && k != i :: e.procs[k] == d.procs[k]
  }

  lemma AfreshExactly(d: Daemon, i: nat, fork: Fork, now: real, steady: real)
    requires i < |d.procs|
    ensures var e := StartAfresh(d, i, fork, now, steady);
            var forked := fork.Forked? && fork.pid > 0 && fork.pid !in d.children;
            && StartedByHand(d.procs[i], e.procs[i], fork, forked, now, d.cfg) && OnlyEntry(d, e, i)
            && e.failCount == (if d.procs[i].name == "odin1_driver" then 0 else d.failCount)
            && e.children == d.children + (if forked then {fork.pid} else {}) && e.killed == d.killed
  {
    hide ToPending, ClearHealth, StartProcess;
    var c := ClearHealth(ToPending(Reading(d, now), i, now), i);
    PreparedExactly(d, i, now);
    LaunchedExactly(c, i, fork, now, steady);
  }

  lemma PreparedExactly(d: Daemon, i: nat, now: real)
    requires i < |d.procs|
    ensures var p, c := d.procs[i], ClearHealth(ToPending(Reading(d, now), i, now), i);
            && OnlyEntry(d, c, i) && c.children == d.children && c.killed == d.killed
            && c.failCount == (if p.name == "odin1_driver" then 0 else d.failCount)
            && c.procs[i] == p.(state := PENDING, backoff := d.cfg.initialBackoff, attempts := 0, resetAt := now,
                                autoRestart := p.autoRestart || p.name == "odin1_driver")
  {}

  lemma LaunchedExactly(c: Daemon, i: nat, fork: Fork, now: real, steady: real)
    requires i < |c.procs|
    ensures var p, e := c.procs[i], StartProcess(c, i, fork, now, steady);
            var forked := fork.Forked? && fork.pid > 0 && fork.pid !in c.children;
            && OnlyEntry(c, e, i) && Launched(p, e.procs[i], now, c.tick)
            && e.failCount == c.failCount && e.killed == c.killed
            && e.children == c.children + (if forked then {fork.pid} else {})
            && if forked then e.procs[i].pid == fork.pid && e.procs[i].state.STARTING?
               else e.procs[i].pid == p.pid && e.procs[i].state.RESTARTING?
  {
    var e := StartProcess(c, i, fork, now, steady);
    StartEffect(c, i, fork, now, steady, i);
    assert e.procs == c.procs[i := e.procs[i]];
    hide Launched;
  }

  /** handle_start refuses an unknown name and a process that is starting or running, and otherwise starts it by hand. */
  lemma StartExactly(d: Daemon, name: string, fork: Fork, now: real, steady: real)
    ensures var e, i := HandleStart(d, name, fork, now, steady), Find(d.procs, name);
            var forked := fork.Forked? && fork.pid > 0 && fork.pid !in d.children;
            if name == "" || i < 0 || d.procs[i].state.RUNNING? || d.procs[i].state.STARTING? then e == d
            else StartedByHand(d.procs[i], e.procs[i], fork, forked, now, d.cfg) && OnlyEntry(d, e, i)
                 && e.failCount == (if name == "odin1_driver" then 0 else d.failCount)
                 && e.children == d.children + (if forked then {fork.pid} else {}) && e.killed == d.killed
  {
    var i := Find(d.procs, name);
    hide StartAfresh, Find;
    if i >= 0 { AfreshExactly(d, i, fork, now, steady); }
  }

  /** handle_stop with a name asks a process that is starting or running to stop, and does nothing else. */
  lemma StopExactly(d: Daemon, name: string, now: real, polls: seq<Poll>)
    requires name != "" && NoLostChildren(d)
    ensures var e, i := HandleStop(d, name, now, polls), Find(d.procs, name);
            if i >= 0 && (d.procs[i].state.RUNNING? || d.procs[i].state.STARTING?)
            then StopRequested(d.procs[i], e.procs[i], now) && OnlyEntry(d, e, i) && e.killed == d.killed
            else e == d
  {
    var i := Find(d.procs, name);
    hide Find;
    if i >= 0 { assert Slot(d.procs[i], d.children); }
  }

  lemma {:induction false} AllArePending(d: Daemon, n: nat, now: real, i: nat)
    requires n <= |d.procs| && i < |d.procs|
    ensures var p, q := d.procs[i], AllToPending(d, n, now).procs[i];
            q == if i < n then p.(state := PENDING, backoff := d.cfg.initialBackoff, attempts := 0, resetAt := now) else p
    decreases n
  {
    if n > 0 { AllArePending(d, n - 1, now, i); }
  }

  /** Restarting everything leaves every entry waiting for its first start, without a child and with the first delay, and the
      daemon running with its failure counter cleared; the driver is to be restarted automatically again. */
  lemma RestartAllExactly(d: Daemon, fork: Fork, now: real, polls: seq<Poll>, later: real, steady: real, i: nat)
    requires NoLostChildren(d) && !d.shuttingDown && i < |d.procs|
    ensures var e := HandleRestart(d, "", fork, now, polls, later, steady);
            var q := e.procs[i];
            && q.state.PENDING? && q.pid <= 0 && q.backoff == d.cfg.initialBackoff && q.attempts == 0
            && e.failCount == 0 && !e.shuttingDown && e.children <= e.killed
            && (i == Find(e.procs, "odin1_driver") ==> q.autoRestart)
  {
    var down := ShutdownAll(d, now, polls).(shuttingDown := false);
    ShutdownLeavesNoPid(d, now, polls);
    SameConfig(d, now, polls);
    hide NoLostChildren, ShutdownAll;
    var r := Reading(down, later);
    AllArePending(r, |r.procs|, later, i);
    AllPendingKeeps(r, |r.procs|, later);
    var f := AllToPending(r, |r.procs|, later).(failCount := 0, gaveUp := false);
    hide AllToPending;
    var o := Find(f.procs, ODIN);
    SameFind(f, o);
    hide Find;
  }

  lemma SameFind(f: Daemon, o: int)
    requires o == Find(f.procs, ODIN)
    ensures o >= 0 ==> Find(f.procs[o := f.procs[o].(autoRestart := true)], ODIN) == o
  {
    if o >= 0 { FindByNames(f.procs, f.procs[o := f.procs[o].(autoRestart := true)], ODIN); }
  }

  lemma {:induction false} AllPendingKeeps(d: Daemon, n: nat, now: real)
    requires n <= |d.procs|
    ensures var e := AllToPending(d, n, now);
            e.children == d.children && e.killed == d.killed && e.shuttingDown == d.shuttingDown
  {
    if n > 0 { AllPendingKeeps(d, n - 1, now); }
  }

  lemma {:induction false} PollsKeepConfig(d: Daemon, polls: seq<Poll>, deadline: real)
    ensures AwaitQuiet(d, polls, deadline).cfg == d.cfg
    decreases |polls|
  {
    hide Reap, CheckStopTimeouts, AllQuiet;
    if polls != [] {
      assert PollOnce(d, polls[0]).cfg == d.cfg;
      PollsKeepConfig(PollOnce(d, polls[0]), polls[1..], deadline);
    }
  }

  lemma SameConfig(d: Daemon, now: real, polls: seq<Poll>)
    ensures ShutdownAll(d, now, polls).cfg == d.cfg
  {
    hide RequestStops, AwaitQuiet, KillLeftovers;
    PollsKeepConfig(RequestStops(Reading(d.(shuttingDown := true), now), |d.procs|, now), polls, now + d.cfg.gracefulTimeout);
  }
}
