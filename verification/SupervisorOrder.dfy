/**
 Start order of the supervisor when nobody intervenes: runs of timer callbacks and odometry messages.

 Safety: a process first starts in a later timer tick than everything it depends on. Therefore a process
 with an unknown dependency, or on a dependency cycle, or depending on such a process, never starts.

 Progress: if dependencies are acyclic, topics are present and nothing crashes, a process of depth k is
 running by tick k + 2.
 */
module SupervisorOrder {
  import opened SupervisorModel
  import opened SupervisorChildren
  import opened SupervisorEffects

  predicate Automatic(e: Event) {
    e.TimerTick? || e.OdinMessage?
  }

  // ---------------------------------------------------------------- order of first starts

  /** The first start of an entry against its state. */
  ghost predicate Stamped(p: Proc, tick: nat) {
    && (p.firstStart < 0 <==> p.forks == 0)
    && (p.state.PENDING? ==> p.firstStart < 0 && p.pid <= 0)
    && (p.state.STARTING? || p.state.RUNNING? ==> p.firstStart >= 0)
    && (p.state.RUNNING? ==> p.firstStart < tick)
    && p.firstStart <= tick
  }

  /** What an entry that has left PENDING depends on has started before it. */
  ghost predicate AfterDependencies(p: Proc, procs: seq<Proc>, tick: nat) {
    !p.state.PENDING? ==>
      forall dep <- p.dependencies ::
        var j := Find(procs, dep);
        j >= 0 && 0 <= procs[j].firstStart < if p.firstStart >= 0 then p.firstStart else tick
  }

  /** Entries as configured: routines change neither names nor dependencies. */
  ghost predicate SameGraph(g: seq<Proc>, procs: seq<Proc>) {
    |g| == |procs| && forall i | 0 <= i < |g| ::
      procs[i].name == g[i].name && procs[i].dependencies == g[i].dependencies && procs[i].topics == g[i].topics
  }

  ghost predicate Ordered(d: Daemon, g: seq<Proc>) {
    SameGraph(g, d.procs) &&
    forall i | 0 <= i < |d.procs| :: Stamped(d.procs[i], d.tick) && AfterDependencies(d.procs[i], d.procs, d.tick)
  }

  /** No entry has started for the first time in the current tick. */
  ghost predicate BeforeStarts(d: Daemon) {
    forall i | 0 <= i < |d.procs| :: d.procs[i].firstStart < d.tick
  }

  /** What the timer's routines may do to an entry; only the first part of a tick confirms. */
  ghost predicate OrderEffect(p: Proc, q: Proc, d: Daemon, now: real, early: bool) {
    || q == p || Reaped(p, q, now) || TimedOut(p, q) || (early && Confirmed(p, q)) || UptimeReset(p, q, d.cfg, now)
    || GivenUp(p, q)
    || (!early && Attempted(p, q, d.cfg, now, d.tick))
    || (!early && p.state.PENDING? && DependenciesRunning(d.procs, p) && Launched(p, q, now, d.tick))
  }

  /** The consequence of an effect for order. */
  ghost predicate InOrder(p: Proc, q: Proc, d: Daemon, early: bool) {
    && q.name == p.name && q.dependencies == p.dependencies && q.topics == p.topics
    && (q.firstStart == p.firstStart || (!early && p.firstStart < 0 && q.firstStart == d.tick))
    && (p.state.PENDING? && !q.state.PENDING? ==> DependenciesRunning(d.procs, p))
    && (q.state.PENDING? ==> p.state.PENDING?)
    && Stamped(q, d.tick)
  }

  lemma EffectInOrder(p: Proc, q: Proc, d: Daemon, now: real, early: bool)
    requires Stamped(p, d.tick) && OrderEffect(p, q, d, now, early) && (early ==> p.firstStart < d.tick)
    ensures InOrder(p, q, d, early)
  {
    hide DependenciesRunning;
  }

  lemma RoutineInOrder(g: seq<Proc>, d: Daemon, e: Daemon, now: real, early: bool)
    requires Ordered(d, g) && |e.procs| == |d.procs| && e.tick == d.tick && (early ==> BeforeStarts(d))
    requires forall i | 0 <= i < |d.procs| :: OrderEffect(d.procs[i], e.procs[i], d, now, early)
    ensures Ordered(e, g) && (early ==> BeforeStarts(e))
  {
    hide OrderEffect;
    forall i | 0 <= i < |d.procs|
      ensures InOrder(d.procs[i], e.procs[i], d, early)
    {
      EffectInOrder(d.procs[i], e.procs[i], d, now, early);
    }
    forall i | 0 <= i < |d.procs|
      ensures AfterDependencies(e.procs[i], e.procs, d.tick)
    {
      EntryInOrder(g, d, e, i, early);
    }
    hide AfterDependencies;
  }

  lemma EntryInOrder(g: seq<Proc>, d: Daemon, e: Daemon, i: nat, early: bool)
    requires Ordered(d, g) && |e.procs| == |d.procs| && i < |d.procs|
    requires forall k | 0 <= k < |d.procs| :: InOrder(d.procs[k], e.procs[k], d, early)
    ensures AfterDependencies(e.procs[i], e.procs, d.tick)
  {
    var p, q := d.procs[i], e.procs[i];
    if !q.state.PENDING? {
      forall dep <- q.dependencies
        ensures var j := Find(e.procs, dep);
                j >= 0 && 0 <= e.procs[j].firstStart < if q.firstStart >= 0 then q.firstStart else d.tick
      {
        FindByNames(d.procs, e.procs, dep);
        hide Find;
        var j := Find(d.procs, dep);
        assert InOrder(p, q, d, early);
        assert j >= 0 && InOrder(d.procs[j], e.procs[j], d, early);
        assert Stamped(d.procs[j], d.tick);
      }
    }
  }

  lemma TickCountInOrder(g: seq<Proc>, d: Daemon)
    requires Ordered(d, g)
    ensures Ordered(d.(tick := d.tick + 1), g) && BeforeStarts(d.(tick := d.tick + 1))
  {}

  lemma ReadingInOrder(g: seq<Proc>, d: Daemon, now: real)
    ensures Ordered(d, g) ==> Ordered(Reading(d, now), g)
    ensures BeforeStarts(d) ==> BeforeStarts(Reading(d, now))
  {}

  lemma EarlyHalf(g: seq<Proc>, d: Daemon, t: TickInput)
    requires Ordered(d, g) && BeforeStarts(d)
    ensures var d1 := Reap(Reading(d, t.reapTime), t.reaped, t.reapTime);
            var d2 := CheckStopTimeouts(Reading(d1, t.stopTime), 0, t.stopTime);
            Ordered(d2, g) && BeforeStarts(d2)
  {
    hide Ordered, BeforeStarts, Reap, CheckStopTimeouts;
    var r0 := Reading(d, t.reapTime);
    ReadingInOrder(g, d, t.reapTime);
    var d1 := Reap(r0, t.reaped, t.reapTime);
    forall i | 0 <= i < |d.procs|
      ensures OrderEffect(r0.procs[i], d1.procs[i], r0, t.reapTime, true)
    {
      hide Reaped;
      ReapEffect(r0, t.reaped, t.reapTime, i);
    }
    RoutineInOrder(g, r0, d1, t.reapTime, true);
    var r1 := Reading(d1, t.stopTime);
    ReadingInOrder(g, d1, t.stopTime);
    var d2 := CheckStopTimeouts(r1, 0, t.stopTime);
    forall i | 0 <= i < |d.procs|
      ensures OrderEffect(r1.procs[i], d2.procs[i], r1, t.stopTime, true)
    {
      hide TimedOut;
      TimeoutEffect(r1, t.stopTime, i);
    }
    RoutineInOrder(g, r1, d2, t.stopTime, true);
  }

  lemma StartedInOrder(g: seq<Proc>, d: Daemon, now: real)
    requires Ordered(d, g) && BeforeStarts(d)
    ensures Ordered(CheckStarted(d, now), g) && BeforeStarts(CheckStarted(d, now))
  {
    hide Ordered, BeforeStarts, ConfirmStarted, ResetBackoffs;
    var c := ConfirmStarted(d, 0);
    forall i | 0 <= i < |d.procs|
      ensures OrderEffect(d.procs[i], c.procs[i], d, now, true)
    {
      hide Confirmed;
      ConfirmEffect(d, 0, i);
    }
    RoutineInOrder(g, d, c, now, true);
    var e := ResetBackoffs(c, 0, now);
    forall i | 0 <= i < |d.procs|
      ensures OrderEffect(c.procs[i], e.procs[i], c, now, true)
    {
      hide UptimeReset;
      UptimeEffect(c, 0, now, i);
    }
    RoutineInOrder(g, c, e, now, true);
  }

  lemma HealthInOrder(g: seq<Proc>, d: Daemon, steady: real)
    requires Ordered(d, g)
    ensures Ordered(CheckOdinHealth(d, steady), g)
  {
    var e := CheckOdinHealth(d, steady);
    assert e.tick == d.tick;
    forall i | 0 <= i < |d.procs|
      ensures OrderEffect(d.procs[i], e.procs[i], d, 0.0, false)
    {
      hide CheckOdinHealth, GivenUp;
      HealthEffect(d, steady, i);
    }
    hide Ordered, CheckOdinHealth;
    RoutineInOrder(g, d, e, 0.0, false);
  }

  lemma RestartsInOrder(g: seq<Proc>, d: Daemon, forks: seq<Fork>, now: real, steady: real)
    requires Ordered(d, g)
    ensures Ordered(HandleRestarts(d, 0, forks, now, steady), g)
  {
    var e := HandleRestarts(d, 0, forks, now, steady);
    hide Ordered, HandleRestarts;
    forall i | 0 <= i < |d.procs|
      ensures OrderEffect(d.procs[i], e.procs[i], d, now, false)
    {
      hide Attempted;
      RestartsEffect(d, 0, forks, now, steady, i);
    }
    RoutineInOrder(g, d, e, now, false);
  }

  lemma PendingInOrder(g: seq<Proc>, d: Daemon, forks: seq<Fork>, present: set<string>, now: real, steady: real)
    requires Ordered(d, g)
    ensures Ordered(HandlePending(d, 0, forks, present, now, steady), g)
  {
    var e := HandlePending(d, 0, forks, present, now, steady);
    hide Ordered, HandlePending;
    forall i | 0 <= i < |d.procs|
      ensures OrderEffect(d.procs[i], e.procs[i], d, now, false)
    {
      hide Launched, DependenciesRunning;
      PendingEffect(d, 0, forks, present, now, steady, i);
    }
    RoutineInOrder(g, d, e, now, false);
  }

  lemma TickInOrder(g: seq<Proc>, d: Daemon, t: TickInput)
    requires Ordered(d, g)
    ensures Ordered(Tick(d, t), g)
  {
    hide Ordered, BeforeStarts, Reading, Reap, CheckStopTimeouts, CheckStarted, CheckOdinHealth, HandleRestarts, HandlePending;
    var d0 := d.(tick := d.tick + 1);
    TickCountInOrder(g, d);
    EarlyHalf(g, d0, t);
    var d1 := Reap(Reading(d0, t.reapTime), t.reaped, t.reapTime);
    var d2 := CheckStopTimeouts(Reading(d1, t.stopTime), 0, t.stopTime);
    ReadingInOrder(g, d2, t.startedTime);
    StartedInOrder(g, Reading(d2, t.startedTime), t.startedTime);
    var d3 := CheckStarted(Reading(d2, t.startedTime), t.startedTime);
    HealthInOrder(g, d3, t.steady);
    var d4 := CheckOdinHealth(d3, t.steady);
    ReadingInOrder(g, d4, t.restartTime);
    RestartsInOrder(g, Reading(d4, t.restartTime), t.restartForks, t.restartTime, t.steady);
    var d5 := HandleRestarts(Reading(d4, t.restartTime), 0, t.restartForks, t.restartTime, t.steady);
    ReadingInOrder(g, d5, t.pendingTime);
    PendingInOrder(g, Reading(d5, t.pendingTime), t.pendingForks, t.topics, t.pendingTime, t.steady);
  }

  lemma {:induction false} RunInOrder(g: seq<Proc>, d: Daemon, es: seq<Event>)
    requires Ordered(d, g) && forall k | 0 <= k < |es| :: Automatic(es[k])
    ensures Ordered(Run(d, es), g)
    decreases |es|
  {
    hide Tick;
    if es != [] {
      var n := |es| - 1;
      RunInOrder(g, d, es[..n]);
      if es[n].TimerTick? {
        hide Ordered;
        TickInOrder(g, Run(d, es[..n]), es[n].input);
      }
    }
  }

  lemma ConfiguredInOrder(d: Daemon)
    requires Configured(d)
    ensures Ordered(d, d.procs)
  {}

  /** In runs without intervention, whatever crashes, fails to fork or is killed, a process that has ever started has
      started in a later tick than each of its dependencies. */
  lemma DependenciesStartFirst(d: Daemon, es: seq<Event>, i: nat)
    requires Configured(d) && forall k | 0 <= k < |es| :: Automatic(es[k])
    requires i < |Run(d, es).procs| && Run(d, es).procs[i].forks > 0
    ensures var e := Run(d, es);
            0 <= e.procs[i].firstStart <= e.tick
            && forall dep <- e.procs[i].dependencies ::
                 var j := Find(e.procs, dep);
                 j >= 0 && e.procs[j].forks > 0 && 0 <= e.procs[j].firstStart < e.procs[i].firstStart
  {
    ConfiguredInOrder(d);
    RunInOrder(d.procs, d, es);
    hide Run, Find;
    var e := Run(d, es);
    assert Stamped(e.procs[i], e.tick) && AfterDependencies(e.procs[i], e.procs, e.tick);
    forall dep <- e.procs[i].dependencies
      ensures var j := Find(e.procs, dep);
              j >= 0 && e.procs[j].forks > 0 && 0 <= e.procs[j].firstStart < e.procs[i].firstStart
    {
      assert Stamped(e.procs[Find(e.procs, dep)], e.tick);
    }
  }

  // ---------------------------------------------------------------- what never starts

  /** Every member waits for something unknown or for another member: a dependency cycle, or all that hangs on one. */
  ghost predicate Deadlocked(procs: seq<Proc>, members: set<int>) {
    forall i <- members ::
      0 <= i < |procs| && exists dep <- procs[i].dependencies :: Find(procs, dep) < 0 || Find(procs, dep) in members
  }

  /** By descent along first starts. */
  lemma {:induction false} NoMemberStarts(g: seq<Proc>, d: Daemon, members: set<int>, i: int)
    requires Ordered(d, g) && Deadlocked(d.procs, members) && i in members
    ensures d.procs[i].state.PENDING? && d.procs[i].forks == 0
    decreases if d.procs[i].firstStart >= 0 then d.procs[i].firstStart else d.tick
  {
    hide Find;
    assert Stamped(d.procs[i], d.tick) && AfterDependencies(d.procs[i], d.procs, d.tick);
    if !d.procs[i].state.PENDING? {
      var dep :| dep in d.procs[i].dependencies && (Find(d.procs, dep) < 0 || Find(d.procs, dep) in members);
      var j := Find(d.procs, dep);
      assert Stamped(d.procs[j], d.tick);
      NoMemberStarts(g, d, members, j);
    }
  }

  lemma CyclesNeverStart(d: Daemon, es: seq<Event>, members: set<int>, i: int)
    requires Configured(d) && forall k | 0 <= k < |es| :: Automatic(es[k])
    requires Deadlocked(d.procs, members) && i in members
    ensures i < |Run(d, es).procs| && Run(d, es).procs[i].state.PENDING? && Run(d, es).procs[i].forks == 0
  {
    ConfiguredInOrder(d);
    RunInOrder(d.procs, d, es);
    var e := Run(d, es);
    hide Run, Configured, Stamped, AfterDependencies;
    StillDeadlocked(d.procs, e.procs, members);
    NoMemberStarts(d.procs, e, members, i);
  }

  lemma StillDeadlocked(g: seq<Proc>, procs: seq<Proc>, members: set<int>)
    requires SameGraph(g, procs) && Deadlocked(g, members)
    ensures Deadlocked(procs, members)
  {
    forall m <- members
      ensures 0 <= m < |procs| && exists dep <- procs[m].dependencies :: Find(procs, dep) < 0 || Find(procs, dep) in members
    {
      var dep :| dep in g[m].dependencies && (Find(g, dep) < 0 || Find(g, dep) in members);
      FindByNames(g, procs, dep);
      assert dep in procs[m].dependencies;
    }
  }

  // ---------------------------------------------------------------- progress

  /** A timer tick in which nothing goes wrong: no child ends, every topic is there, forks succeed with fresh
      distinct pids and the driver's odometry is up to date. */
  ghost predicate Smooth(d: Daemon, t: TickInput) {
    && t.reaped == []
    && (forall i | 0 <= i < |d.procs| :: TopicsReady(d.procs[i], t.topics))
    && FreshFrom(d, t.pendingForks, 0)
    && (d.armed ==> t.steady - d.lastMsg <= d.cfg.healthTimeout)
  }

  ghost predicate FreshFrom(d: Daemon, forks: seq<Fork>, j: nat) {
    && |forks| >= |d.procs|
    && (forall i | j <= i < |forks| :: Fresh(d, forks[i]))
    && (forall i, k | j <= i < k < |forks| :: forks[i] != forks[k])
  }

  /** depth is a height of the dependency graph. */
  ghost predicate IsDepth(procs: seq<Proc>, depth: seq<nat>) {
    |depth| == |procs| &&
    forall i, dep | 0 <= i < |procs| && dep in procs[i].dependencies ::
      Find(procs, dep) >= 0 && depth[Find(procs, dep)] < depth[i]
  }

  ghost predicate OnTheWay(p: Proc) {
    !p.stopping && (p.state.PENDING? || p.state.STARTING? || p.state.RUNNING?)
  }

  ghost predicate InTime(p: Proc, depth: nat, tick: nat) {
    && OnTheWay(p)
    && (tick >= depth + 1 ==> !p.state.PENDING?)
    && (tick >= depth + 2 ==> p.state.RUNNING?)
  }

  ghost predicate AllInTime(d: Daemon, depth: seq<nat>) {
    |depth| == |d.procs| && forall i | 0 <= i < |d.procs| :: InTime(d.procs[i], depth[i], d.tick)
  }

  ghost predicate AllOnTheWay(d: Daemon) {
    forall i | 0 <= i < |d.procs| :: OnTheWay(d.procs[i])
  }

  lemma {:induction false} NoTimeouts(d: Daemon, j: nat, now: real)
    requires AllOnTheWay(d)
    ensures CheckStopTimeouts(d, j, now) == d
    decreases |d.procs| - j
  {
    if j < |d.procs| {
      assert OnTheWay(d.procs[j]);
      NoTimeouts(d, j + 1, now);
    }
  }

  lemma {:induction false} NoRestarts(d: Daemon, j: nat, forks: seq<Fork>, now: real, steady: real)
    requires AllOnTheWay(d)
    ensures HandleRestarts(d, j, forks, now, steady) == d
    decreases |d.procs| - j
  {
    if j < |d.procs| {
      assert OnTheWay(d.procs[j]);
      NoRestarts(d, j + 1, forks, now, steady);
    }
  }

  lemma {:induction false} ResetsKeepChildren(d: Daemon, j: nat, now: real)
    ensures ResetBackoffs(d, j, now).children == d.children && ResetBackoffs(d, j, now).armed == d.armed
    decreases |d.procs| - j
  {
    if j < |d.procs| { ResetsKeepChildren(UptimeResetAt(d, j, now), j + 1, now); }
  }

  lemma {:induction false} ConfirmsKeepArming(d: Daemon, j: nat)
    ensures ConfirmStarted(d, j).armed == d.armed && ConfirmStarted(d, j).children == d.children
    decreases |d.procs| - j
  {
    if j < |d.procs| { ConfirmsKeepArming(StartedAt(d, j), j + 1); }
  }

  /** check_started leaves every entry that has left PENDING running. */
  lemma AllConfirmed(d: Daemon, now: real, i: nat)
    requires NoLostChildren(d) && AllOnTheWay(d) && i < |d.procs|
    ensures var p, q := d.procs[i], CheckStarted(d, now).procs[i];
            && OnTheWay(q) && (if p.state.PENDING? then q == p else q.state.RUNNING?)
            && q.name == p.name && q.dependencies == p.dependencies && q.topics == p.topics
  {
    SlotOf(d, i);
    assert OnTheWay(d.procs[i]);
    hide NoLostChildren, ConfirmStarted, ResetBackoffs;
    ConfirmEffect(d, 0, i);
    UptimeEffect(ConfirmStarted(d, 0), 0, now, i);
  }

  /** handle_pending starts an entry whose dependencies are running. */
  lemma ReadyStartsNow(d: Daemon, i: nat, forks: seq<Fork>, present: set<string>, now: real, steady: real)
    requires i < |d.procs| && FreshFrom(d, forks, i)
    requires d.procs[i].state.PENDING? && DependenciesRunning(d.procs, d.procs[i]) && TopicsReady(d.procs[i], present)
    ensures var q := PendingAt(d, i, ForkAt(forks, i), present, now, steady).procs[i];
            q.state.STARTING? && q.stopping == d.procs[i].stopping
  {
    hide TopicsReady, DependenciesRunning;
  }

  lemma FreshLater(d: Daemon, j: nat, forks: seq<Fork>, present: set<string>, now: real, steady: real)
    requires j < |d.procs| && FreshFrom(d, forks, j)
    ensures FreshFrom(PendingAt(d, j, ForkAt(forks, j), present, now, steady), forks, j + 1)
  {
    hide TopicsReady, DependenciesRunning;
  }

  lemma {:induction false} ReadyStarts(d: Daemon, j: nat, forks: seq<Fork>, present: set<string>, now: real, steady: real, i: nat)
    requires j <= i < |d.procs| && FreshFrom(d, forks, j)
    requires d.procs[i].state.PENDING? && DependenciesRunning(d.procs, d.procs[i]) && TopicsReady(d.procs[i], present)
    ensures var q := HandlePending(d, j, forks, present, now, steady).procs[i];
            q.state.STARTING? && q.stopping == d.procs[i].stopping
    decreases |d.procs| - j
  {
    hide TopicsReady, PendingAt, DependenciesRunning, FreshFrom, Launched, Startable;
    var e := PendingAt(d, j, ForkAt(forks, j), present, now, steady);
    if i == j {
      ReadyStartsNow(d, i, forks, present, now, steady);
      PendingEffect(e, j + 1, forks, present, now, steady, i);
    } else {
      PendingAtEffect(d, j, ForkAt(forks, j), present, now, steady, i);
      PendingKeepsRunning(d, j, ForkAt(forks, j), present, now, steady, d.procs[i]);
      FreshLater(d, j, forks, present, now, steady);
      ReadyStarts(e, j + 1, forks, present, now, steady, i);
    }
  }

  /** The daemon in the middle of a timer tick, before handle_pending. */
  ghost function BeforePending(d: Daemon, t: TickInput): (m: Daemon)
    ensures |m.procs| == |d.procs|
  {
    var d1 := Reap(Reading(d.(tick := d.tick + 1), t.reapTime), t.reaped, t.reapTime);
    var d2 := CheckStopTimeouts(Reading(d1, t.stopTime), 0, t.stopTime);
    var d3 := CheckStarted(Reading(d2, t.startedTime), t.startedTime);
    var d4 := CheckOdinHealth(d3, t.steady);
    Reading(HandleRestarts(Reading(d4, t.restartTime), 0, t.restartForks, t.restartTime, t.steady), t.pendingTime)
  }

  lemma TickEndsWithPending(d: Daemon, t: TickInput)
    ensures Tick(d, t) == HandlePending(BeforePending(d, t), 0, t.pendingForks, t.topics, t.pendingTime, t.steady)
  {
    hide Reap, CheckStopTimeouts, CheckStarted, CheckOdinHealth, HandleRestarts, HandlePending, Reading;
  }

  /** In a smooth tick, by the time handle_pending runs everything that has left PENDING is running. */
  lemma SmoothUntilPending(d: Daemon, t: TickInput)
    requires NoLostChildren(d) && AllOnTheWay(d) && Smooth(d, t)
    ensures var m := BeforePending(d, t);
            && m.children == d.children && m.tick == d.tick + 1 && SameGraph(d.procs, m.procs) && AllOnTheWay(m)
            && forall i | 0 <= i < |d.procs| ::
                 if d.procs[i].state.PENDING? then m.procs[i].state.PENDING? else m.procs[i].state.RUNNING?
  {
    hide NoLostChildren, OnTheWay, CheckStopTimeouts, CheckStarted, HandleRestarts, Find, FreshFrom, TopicsReady;
    var r1 := Reading(Reading(d.(tick := d.tick + 1), t.reapTime), t.stopTime);
    NoTimeouts(r1, 0, t.stopTime);
    var r2 := Reading(r1, t.startedTime);
    ReadingsLoseNothing(d, r2);
    var d3 := CheckStarted(r2, t.startedTime);
    CheckStartedKeeps(r2, t.startedTime);
    forall i | 0 <= i < |d.procs|
      ensures OnTheWay(d3.procs[i]) && d3.procs[i].name == d.procs[i].name && d3.procs[i].topics == d.procs[i].topics
      ensures d3.procs[i].dependencies == d.procs[i].dependencies
      ensures if d.procs[i].state.PENDING? then d3.procs[i] == d.procs[i] else d3.procs[i].state.RUNNING?
    {
      AllConfirmed(r2, t.startedTime, i);
    }
    var d4 := CheckOdinHealth(d3, t.steady);
    assert d4.procs == d3.procs;
    NoRestarts(Reading(d4, t.restartTime), 0, t.restartForks, t.restartTime, t.steady);
  }

  lemma ReadingsLoseNothing(d: Daemon, r: Daemon)
    requires NoLostChildren(d) && r.procs == d.procs && r.children == d.children && r.killed == d.killed
    ensures NoLostChildren(r)
  {}

  lemma CheckStartedKeeps(d: Daemon, now: real)
    ensures CheckStarted(d, now).children == d.children && CheckStarted(d, now).armed == d.armed
  {
    ConfirmsKeepArming(d, 0);
    hide ConfirmStarted, ResetBackoffs;
    ResetsKeepChildren(ConfirmStarted(d, 0), 0, now);
  }

  lemma PendingInTime(d: Daemon, m: Daemon, t: TickInput, depth: seq<nat>, i: nat)
    requires AllInTime(d, depth) && IsDepth(d.procs, depth) && i < |d.procs|
    requires SameGraph(d.procs, m.procs) && m.tick == d.tick + 1 && OnTheWay(m.procs[i])
    requires forall k | 0 <= k < |d.procs| ::
               if d.procs[k].state.PENDING? then m.procs[k].state.PENDING? else m.procs[k].state.RUNNING?
    requires FreshFrom(m, t.pendingForks, 0) && TopicsReady(m.procs[i], t.topics)
    ensures InTime(HandlePending(m, 0, t.pendingForks, t.topics, t.pendingTime, t.steady).procs[i], depth[i], m.tick)
  {
    hide HandlePending, FreshFrom, TopicsReady;
    var p := m.procs[i];
    assert InTime(d.procs[i], depth[i], d.tick);
    PendingEffect(m, 0, t.pendingForks, t.topics, t.pendingTime, t.steady, i);
    if p.state.PENDING? {
      if m.tick >= depth[i] + 1 {
        forall dep <- p.dependencies
          ensures Find(m.procs, dep) >= 0 && m.procs[Find(m.procs, dep)].state.RUNNING?
        {
          FindByNames(d.procs, m.procs, dep);
          hide Find;
          assert InTime(d.procs[Find(d.procs, dep)], depth[Find(d.procs, dep)], d.tick);
        }
      }
      hide Find;
      if DependenciesRunning(m.procs, p) {
        ReadyStarts(m, 0, t.pendingForks, t.topics, t.pendingTime, t.steady, i);
      }
    }
  }

  lemma SmoothTickInTime(d: Daemon, t: TickInput, depth: seq<nat>)
    requires NoLostChildren(d) && AllInTime(d, depth) && IsDepth(d.procs, depth) && Smooth(d, t)
    ensures AllInTime(Tick(d, t), depth) && SameGraph(d.procs, Tick(d, t).procs)
  {
    var m := BeforePending(d, t);
    var e := HandlePending(m, 0, t.pendingForks, t.topics, t.pendingTime, t.steady);
    SmoothUntilPending(d, t);
    TickEndsWithPending(d, t);
    hide NoLostChildren, BeforePending, Tick, HandlePending, IsDepth, DependenciesRunning, Fresh;
    forall i | 0 <= i < |d.procs|
      ensures InTime(e.procs[i], depth[i], m.tick)
      ensures e.procs[i].name == d.procs[i].name && e.procs[i].dependencies == d.procs[i].dependencies
      ensures e.procs[i].topics == d.procs[i].topics
    {
      PendingInTime(d, m, t, depth, i);
      PendingEffect(m, 0, t.pendingForks, t.topics, t.pendingTime, t.steady, i);
      hide Smooth, Startable;
    }
  }

  /** Timer ticks in which nothing goes wrong, with odometry messages in between. */
  ghost predicate SmoothRun(d: Daemon, es: seq<Event>) {
    forall k | 0 <= k < |es| :: es[k].OdinMessage? || (es[k].TimerTick? && Smooth(Run(d, es[..k]), es[k].input))
  }

  ghost predicate OnCourse(d: Daemon, g: seq<Proc>, depth: seq<nat>) {
    NoLostChildren(d) && AllInTime(d, depth) && SameGraph(g, d.procs)
  }

  lemma SmoothBefore(d: Daemon, es: seq<Event>, n: nat)
    requires SmoothRun(d, es) && n + 1 == |es|
    ensures SmoothRun(d, es[..n])
    ensures if es[n].TimerTick? then Smooth(Run(d, es[..n]), es[n].input) else es[n].OdinMessage?
  {
    hide Smooth, Run;
    assert forall k | 0 <= k < n :: es[..n][..k] == es[..k] && es[..n][k] == es[k];
  }

  lemma StepByStep(d: Daemon, e: Event)
    requires e.TimerTick? || e.OdinMessage?
    ensures Step(d, e) == if e.TimerTick? then Tick(d, e.input) else d.(lastMsg := e.steady, armed := true)
  {}

  lemma {:induction false} RunOnCourse(d: Daemon, es: seq<Event>, depth: seq<nat>)
    requires OnCourse(d, d.procs, depth) && IsDepth(d.procs, depth) && SmoothRun(d, es)
    ensures OnCourse(Run(d, es), d.procs, depth)
    decreases |es|
  {
    hide OnCourse, Smooth, IsDepth, Step, SmoothRun;
    if es != [] {
      var n := |es| - 1;
      var e := Run(d, es[..n]);
      SmoothBefore(d, es, n);
      RunOnCourse(d, es[..n], depth);
      StepByStep(e, es[n]);
      if es[n].TimerTick? {
        StillDepth(d.procs, e, depth);
        OneMoreTick(d.procs, e, es[n].input, depth);
      } else {
        OneMoreMessage(d.procs, e, es[n].steady, depth);
      }
    }
  }

  lemma OneMoreTick(g: seq<Proc>, d: Daemon, t: TickInput, depth: seq<nat>)
    requires OnCourse(d, g, depth) && IsDepth(d.procs, depth) && Smooth(d, t)
    ensures OnCourse(Tick(d, t), g, depth)
  {
    hide NoLostChildren, AllInTime, Tick, Smooth, IsDepth;
    TickKeeps(d, t);
    SmoothTickInTime(d, t, depth);
  }

  lemma OneMoreMessage(g: seq<Proc>, d: Daemon, steady: real, depth: seq<nat>)
    requires OnCourse(d, g, depth)
    ensures OnCourse(d.(lastMsg := steady, armed := true), g, depth)
  {}

  lemma StillDepth(g: seq<Proc>, d: Daemon, depth: seq<nat>)
    requires IsDepth(g, depth)
    ensures OnCourse(d, g, depth) ==> IsDepth(d.procs, depth)
  {
    if OnCourse(d, g, depth) {
      forall i, dep | 0 <= i < |d.procs| && dep in d.procs[i].dependencies
        ensures Find(d.procs, dep) >= 0 && depth[Find(d.procs, dep)] < depth[i]
      {
        FindByNames(g, d.procs, dep);
      }
    }
  }

  lemma BeginsOnCourse(d: Daemon, depth: seq<nat>)
    requires Configured(d) && IsDepth(d.procs, depth)
    ensures OnCourse(d, d.procs, depth)
  {
    ConfiguredHasNoChildren(d);
    hide NoLostChildren;
  }

  lemma OnCourseInTime(d: Daemon, g: seq<Proc>, depth: seq<nat>, i: nat)
    requires OnCourse(d, g, depth) && i < |g|
    ensures i < |d.procs| == |depth| && InTime(d.procs[i], depth[i], d.tick)
  {
    hide NoLostChildren, InTime;
  }

  /** With acyclic dependencies, topics present and nothing crashing, a process of depth k is running by tick k + 2. */
  lemma EveryoneRunsInTime(d: Daemon, es: seq<Event>, depth: seq<nat>, i: nat)
    requires Configured(d) && IsDepth(d.procs, depth) && SmoothRun(d, es)
    requires i < |d.procs| && Run(d, es).tick >= depth[i] + 2
    ensures i < |Run(d, es).procs| && Run(d, es).procs[i].state.RUNNING?
  {
    hide Run, NoLostChildren, IsDepth, SmoothRun, Configured, OnCourse, SameGraph;
    BeginsOnCourse(d, depth);
    RunOnCourse(d, es, depth);
    OnCourseInTime(Run(d, es), d.procs, depth, i);
  }
}
