/**
 The supervisor node as an object: its fields, and each of its routines as the loop it is,
 proved to take the state exactly where the corresponding transition takes it. The callbacks
 also keep what is proved of the transitions: no child is lost, the restart delays are on
 schedule and the failure counter within its limit.
 */
module Supervisor {
  import opened M = SupervisorModel
  import opened SupervisorChildren
  import opened SupervisorPolicy

  /** What every callback keeps: children accounted for, delays on schedule, the counter within its limit. */
  ghost predicate IsSound(d: Daemon) {
    Policy(d, M.Find(d.procs, ODIN))
  }

  /** Giving up lasts: the driver is not started again. */
  ghost predicate StillGivenUp(d: Daemon, e: Daemon) {
    var o := M.Find(d.procs, ODIN);
    d.gaveUp ==> e.gaveUp && (o >= 0 ==> o < |e.procs| && e.procs[o].forks == d.procs[o].forks)
  }

  /** A callback that keeps the policy keeps the object sound. */
  lemma SoundIfKept(d: Daemon, e: Daemon)
    requires Keeps(d, e, M.Find(d.procs, ODIN))
    ensures IsSound(d) ==> IsSound(e) && StillGivenUp(d, e)
  {
    hide NoLostChildren, AllOnSchedule, M.Find;
  }

  /** A manual start or restart, as opposed to what happens by itself or stops processes. */
  predicate Starts(e: Event) {
    e.Start? || e.Restart?
  }

  lemma StepIsSound(d: Daemon, e: Event)
    ensures IsSound(d) && Starts(e) && Allowed(d, e) ==> IsSound(Step(d, e))
    ensures IsSound(d) && !Starts(e) ==> IsSound(Step(d, e)) && StillGivenUp(d, Step(d, e))
  {
    hide NoLostChildren, AllOnSchedule, Allowed, M.Find, Tick, ShutdownAll, HandleStop, Keeps;
    var o := M.Find(d.procs, ODIN);
    match e
    case TimerTick(t) => TickPolicy(d, t, o); SoundIfKept(d, Tick(d, t));
    case SignalTick(now, polls) => ShutdownPolicy(d, now, polls, o); SoundIfKept(d, ShutdownAll(d, now, polls));
    case OdinMessage(steady) => MessagePolicy(d, steady, o); SoundIfKept(d, Step(d, e));
    case Stop(name, now, polls) => StopPolicy(d, name, now, polls, o); SoundIfKept(d, HandleStop(d, name, now, polls));
    case _ => ManualIsSound(d, e);
  }

  lemma ManualIsSound(d: Daemon, e: Event)
    ensures IsSound(d) && Allowed(d, e) ==> IsSound(Step(d, e))
  {
    hide NoLostChildren, AllOnSchedule, Step, Manual, Allowed, M.Find;
    if IsSound(d) && Allowed(d, e) { StepPolicy(d, e, M.Find(d.procs, ODIN)); }
  }

  lemma UntouchedChildren(d: Daemon, i: nat, now: real)
    requires i < |d.procs|
    ensures M.ClearHealth(M.ToPending(M.Reading(d, now), i, now), i).children == d.children
  {}

  class AcflyDaemon {
    const cfg: Config
    var processes: seq<Proc>
    var shuttingDown: bool
    var odinArmed: bool
    var failCount: int
    var lastMsg: real
    var runningSince: real
    // the operating system's children of this process: unreaped, and sent SIGKILL
    var children: set<int>
    var killed: set<int>
    // history
    ghost var clock: real
    ghost var monotone: bool
    var tick: nat
    ghost var gaveUp: bool

    ghost function State(): Daemon
      reads this
    {
      Daemon(cfg, processes, shuttingDown, odinArmed, failCount, lastMsg, runningSince, children, killed,
             clock, monotone, tick, gaveUp)
    }

    ghost predicate Sound()
      reads this
    {
      IsSound(State())
    }

    constructor (cfg: Config, configured: seq<Proc>, ghost now: real)
      requires forall p <- configured :: p.pid == -1 && p.state.PENDING? && !p.stopping && p.backoff == cfg.initialBackoff
                                         && p.restartCount == 0 && p.attempts == 0 && p.resetAt == now && p.forks == 0
                                         && p.firstStart == -1
      ensures Configured(State()) && processes == configured && this.cfg == cfg
      ensures Sound()
    {
      this.cfg := cfg;
      processes := configured;
      shuttingDown, odinArmed, failCount, lastMsg, runningSince := false, false, 0, 0.0, 0.0;
      children, killed := {}, {};
      clock, monotone, tick, gaveUp := now, true, 0, false;
      new;
      ConfiguredPolicy(State());
    }

    // ---------------------------------------------------------------- helpers

    method FindProcess(name: string) returns (i: int)
      ensures i == M.Find(processes, name)
    {
      i := 0;
      while i < |processes|
        invariant 0 <= i <= |processes|
        invariant forall k | 0 <= k < i :: processes[k].name != name
      {
        if processes[i].name == name { return; }
        i := i + 1;
      }
      i := -1;
    }

    method DependenciesRunning(p: Proc) returns (ok: bool)
      ensures ok == M.DependenciesRunning(processes, p)
    {
      for k := 0 to |p.dependencies|
        invariant forall l | 0 <= l < k ::
                    M.Find(processes, p.dependencies[l]) >= 0
                    && processes[M.Find(processes, p.dependencies[l])].state.RUNNING?
      {
        var i := FindProcess(p.dependencies[k]);
        if i < 0 || !processes[i].state.RUNNING? {
          assert p.dependencies[k] in p.dependencies;
          return false;
        }
      }
      return true;
    }

    ghost method ReadClock(now: real)
      modifies `clock, `monotone
      ensures State() == M.Reading(old(State()), now)
    {
      monotone := monotone && now >= clock;
      clock := now;
    }

    // ---------------------------------------------------------------- starting and stopping one process

    /** start_process, and whether a child has been started. */
    method StartProcess(i: nat, fork: Fork, now: real, steady: real) returns (started: bool)
      requires i < |processes|
      modifies this
      ensures State() == M.StartProcess(old(State()), i, fork, now, steady)
      ensures started <==> M.Fresh(old(State()), fork)
    {
      var p := processes[i];
      started := fork.Forked? && fork.pid > 0 && fork.pid !in children;
      if started {
        processes := processes[i := p.(pid := fork.pid, state := STARTING, startTime := now, forks := p.forks + 1,
                                       firstStart := if p.firstStart < 0 then tick as int else p.firstStart)];
        children := children + {fork.pid};
        if p.name == ODIN {
          odinArmed := false;
          runningSince := steady;
        }
      } else {
        processes := processes[i := p.(state := RESTARTING, crashTime := now)];
      }
    }

    method RequestStop(i: nat, now: real)
      requires i < |processes|
      modifies this
      ensures State() == M.RequestStop(old(State()), i, now)
    {
      if processes[i].pid <= 0 { return; }
      processes := processes[i := processes[i].(stopping := true, stopRequestTime := now, state := STOPPING)];
    }

    method ForceKill(i: nat)
      requires i < |processes|
      modifies this
      ensures State() == M.ForceKill(old(State()), i)
    {
      if processes[i].pid <= 0 { return; }
      killed := killed + {processes[i].pid};
      processes := processes[i := processes[i].(stopping := false, pid := -1, state := STOPPED)];
    }

    // ---------------------------------------------------------------- the timer's routines

    method ReapOne(w: int, now: real)
      modifies this
      ensures State() == M.ReapOne(old(State()), w, now)
    {
      if w <= 0 || w !in children { return; }
      children, killed := children - {w}, killed - {w};
      var i := 0;
      while i < |processes|
        invariant 0 <= i <= |processes|
        invariant forall k | 0 <= k < i :: processes[k].pid != w
        invariant State() == old(State()).(children := old(children) - {w}, killed := old(killed) - {w})
      {
        if processes[i].pid == w {
          assert i == M.Tracker(processes, w);
          if processes[i].stopping {
            processes := processes[i := processes[i].(pid := -1, stopping := false, state := STOPPED)];
          } else {
            processes := processes[i := processes[i].(pid := -1, state := RESTARTING, crashTime := now)];
          }
          return;
        }
        i := i + 1;
      }
    }

    method ReapChildren(ws: seq<int>, now: real)
      modifies this
      ensures State() == M.Reap(M.Reading(old(State()), now), ws, now)
    {
      hide M.ReapOne;
      ReadClock(now);
      for k := 0 to |ws|
        invariant M.Reap(M.Reading(old(State()), now), ws, now) == M.Reap(State(), ws[k..], now)
      {
        ReapOne(ws[k], now);
        assert ws[k..][1..] == ws[k + 1..];
      }
    }

    method CheckStopTimeouts(now: real)
      modifies this
      ensures State() == M.CheckStopTimeouts(M.Reading(old(State()), now), 0, now)
    {
      hide M.ForceKill;
      ReadClock(now);
      ghost var goal := M.CheckStopTimeouts(State(), 0, now);
      for i := 0 to |processes|
        invariant |processes| == |old(processes)|
        invariant goal == M.CheckStopTimeouts(State(), i, now)
      {
        if processes[i].stopping && processes[i].pid > 0 && now - processes[i].stopRequestTime > processes[i].shutdownTimeout {
          ForceKill(i);
        }
      }
    }

    method CheckStarted(now: real)
      modifies this
      ensures State() == M.CheckStarted(M.Reading(old(State()), now), now)
    {
      hide M.ConfirmStarted, M.ResetBackoffs;
      ReadClock(now);
      ConfirmStarted();
      ResetBackoffs(now);
    }

    method ConfirmStarted()
      modifies `processes
      ensures State() == M.ConfirmStarted(old(State()), 0)
    {
      for i := 0 to |processes|
        invariant |processes| == |old(processes)|
        invariant M.ConfirmStarted(old(State()), 0) == M.ConfirmStarted(State(), i)
      {
        if processes[i].state.STARTING? && processes[i].pid > 0 && processes[i].pid in children {
          processes := processes[i := processes[i].(state := RUNNING)];
        }
      }
    }

    method ResetBackoffs(now: real)
      modifies `processes
      ensures State() == M.ResetBackoffs(old(State()), 0, now)
    {
      for i := 0 to |processes|
        invariant |processes| == |old(processes)|
        invariant M.ResetBackoffs(old(State()), 0, now) == M.ResetBackoffs(State(), i, now)
      {
        var p := processes[i];
        if p.state.RUNNING? && p.backoff > cfg.initialBackoff && now - p.startTime >= cfg.minUptimeReset {
          processes := processes[i := p.(backoff := cfg.initialBackoff, attempts := 0, resetAt := now)];
        }
      }
    }

    method OdinHealthCb(steady: real)
      modifies this
      ensures State() == M.Step(old(State()), OdinMessage(steady))
      ensures old(Sound()) ==> Sound() && StillGivenUp(old(State()), State())
    {
      hide IsSound, StillGivenUp;
      StepIsSound(State(), OdinMessage(steady));
      lastMsg := steady;
      odinArmed := true;
    }

    method CheckOdinHealth(steady: real)
      modifies this
      ensures State() == M.CheckOdinHealth(old(State()), steady)
    {
      var i := FindProcess(ODIN);
      if i < 0 { return; }
      if !processes[i].state.RUNNING? { return; }
      if !odinArmed { return; }
      if processes[i].pid <= 0 { return; }
      if steady - lastMsg <= cfg.healthTimeout {
        if failCount > 0 {
          if steady - runningSince >= cfg.healthResetUptime {
            failCount := 0;
          }
        }
        return;
      }
      killed := killed + {processes[i].pid};
      odinArmed := false;
      if failCount >= cfg.healthMaxFails {
        processes := processes[i := processes[i].(autoRestart := false, stopping := true)];
        gaveUp := true;
        return;
      }
      failCount := failCount + 1;
    }

    method RestartAt(i: nat, fork: Fork, now: real, steady: real)
      requires i < |processes|
      modifies this
      ensures State() == M.RestartAt(old(State()), i, fork, now, steady)
    {
      hide M.StartProcess;
      var p := processes[i];
      if !p.state.RESTARTING? { return; }
      if !p.autoRestart { return; }
      if now - p.crashTime >= p.backoff {
        processes := processes[i := p.(restartCount := p.restartCount + 1)];
        var _ := StartProcess(i, fork, now, steady);
        processes := processes[i := M.Retried(processes[i], cfg)];
      }
    }

    method HandleRestarts(forks: seq<Fork>, now: real, steady: real)
      modifies this
      ensures State() == M.HandleRestarts(M.Reading(old(State()), now), 0, forks, now, steady)
    {
      hide M.RestartAt;
      ReadClock(now);
      ghost var goal := M.HandleRestarts(State(), 0, forks, now, steady);
      for i := 0 to |processes|
        invariant |processes| == |old(processes)|
        invariant goal == M.HandleRestarts(State(), i, forks, now, steady)
      {
        RestartAt(i, M.ForkAt(forks, i), now, steady);
      }
    }

    method HandlePending(forks: seq<Fork>, present: set<string>, now: real, steady: real)
      modifies this
      ensures State() == M.HandlePending(M.Reading(old(State()), now), 0, forks, present, now, steady)
    {
      hide M.StartProcess, M.DependenciesRunning;
      ReadClock(now);
      ghost var goal := M.HandlePending(State(), 0, forks, present, now, steady);
      for i := 0 to |processes|
        invariant |processes| == |old(processes)|
        invariant goal == M.HandlePending(State(), i, forks, present, now, steady)
      {
        var p := processes[i];
        if p.state.PENDING? {
          var ready := DependenciesRunning(p);
          if ready && M.TopicsReady(p, present) { var _ := StartProcess(i, M.ForkAt(forks, i), now, steady); }
        }
      }
    }

    method OnTimer(t: TickInput)
      modifies this
      ensures State() == M.Step(old(State()), TimerTick(t))
      ensures old(Sound()) ==> Sound() && StillGivenUp(old(State()), State())
    {
      hide IsSound, StillGivenUp;
      StepIsSound(State(), TimerTick(t));
      hide M.Reap, M.CheckStopTimeouts, M.CheckStarted, M.CheckOdinHealth, M.HandleRestarts, M.HandlePending, M.Reading;
      tick := tick + 1;
      ReapChildren(t.reaped, t.reapTime);
      CheckStopTimeouts(t.stopTime);
      CheckStarted(t.startedTime);
      CheckOdinHealth(t.steady);
      HandleRestarts(t.restartForks, t.restartTime, t.steady);
      HandlePending(t.pendingForks, t.topics, t.pendingTime, t.steady);
    }

    // ---------------------------------------------------------------- shutting everything down

    method PollOnce(p: Poll)
      modifies this
      ensures State() == M.PollOnce(old(State()), p)
    {
      hide M.Reap, M.CheckStopTimeouts;
      ReapChildren(p.reaped, p.now);
      CheckStopTimeouts(p.now);
    }

    method AllQuiet() returns (quiet: bool)
      ensures quiet == M.AllQuiet(processes)
    {
      for i := 0 to |processes|
        invariant forall k | 0 <= k < i :: M.Quiet(processes[k])
      {
        if !processes[i].state.STOPPED? && !processes[i].state.PENDING? { return false; }
      }
      return true;
    }

    method ShutdownAll(now: real, polls: seq<Poll>)
      modifies this
      ensures State() == M.ShutdownAll(old(State()), now, polls)
      ensures old(Sound()) ==> Sound() && StillGivenUp(old(State()), State())
    {
      hide IsSound, StillGivenUp;
      StepIsSound(State(), SignalTick(now, polls));
      if shuttingDown { return; }
      shuttingDown := true;
      ReadClock(now);
      RequestStops(now);
      AwaitQuiet(polls, now + cfg.gracefulTimeout);
      KillLeftovers();
    }

    method RequestStops(now: real)
      modifies this
      ensures State() == M.RequestStops(old(State()), |old(processes)|, now)
    {
      hide M.RequestStop;
      var i := |processes|;
      while i > 0
        invariant 0 <= i <= |processes| == |old(processes)|
        invariant M.RequestStops(old(State()), |old(processes)|, now) == M.RequestStops(State(), i, now)
      {
        i := i - 1;
        var s := processes[i].state;
        if s.STARTING? || s.RUNNING? || s.RESTARTING? { RequestStop(i, now); }
      }
    }

    method AwaitQuiet(polls: seq<Poll>, deadline: real)
      modifies this
      ensures State() == M.AwaitQuiet(old(State()), polls, deadline)
    {
      hide M.PollOnce, M.AllQuiet;
      var k := 0;
      while k < |polls| && polls[k].now < deadline
        invariant 0 <= k <= |polls|
        invariant M.AwaitQuiet(old(State()), polls, deadline) == M.AwaitQuiet(State(), polls[k..], deadline)
      {
        PollOnce(polls[k]);
        var quiet := AllQuiet();
        assert polls[k..][1..] == polls[k + 1..];
        if quiet { return; }
        k := k + 1;
      }
    }

    method KillLeftovers()
      modifies this
      ensures State() == M.KillLeftovers(old(State()), 0)
    {
      hide M.ForceKill;
      for i := 0 to |processes|
        invariant |processes| == |old(processes)|
        invariant M.KillLeftovers(old(State()), 0) == M.KillLeftovers(State(), i)
      {
        if !processes[i].state.STOPPED? && !processes[i].state.PENDING? { ForceKill(i); }
      }
    }

    // ---------------------------------------------------------------- services

    method ToPending(i: nat, now: real)
      requires i < |processes|
      modifies `processes
      ensures State() == M.ToPending(old(State()), i, now)
    {
      processes := processes[i := processes[i].(state := PENDING, backoff := cfg.initialBackoff, attempts := 0, resetAt := now)];
    }

    method ClearHealth(i: nat)
      requires i < |processes|
      modifies `processes, `failCount, `gaveUp
      ensures State() == M.ClearHealth(old(State()), i)
    {
      if processes[i].name == ODIN {
        failCount := 0;
        processes := processes[i := processes[i].(autoRestart := true)];
        gaveUp := false;
      }
    }

    method StartAfresh(i: nat, fork: Fork, now: real, steady: real) returns (started: bool)
      requires i < |processes|
      modifies this
      ensures State() == M.StartAfresh(old(State()), i, fork, now, steady)
      ensures started <==> M.Fresh(old(State()), fork)
    {
      hide M.StartProcess, M.ToPending, M.ClearHealth;
      ReadClock(now);
      ToPending(i, now);
      ClearHealth(i);
      assert State().children == old(children) by { UntouchedChildren(old(State()), i, now); }
      started := StartProcess(i, fork, now, steady);
    }

    /** The reply says success exactly when a child has been started. */
    method HandleStart(name: string, fork: Fork, now: real, steady: real) returns (success: bool)
      modifies this
      ensures State() == M.Step(old(State()), Start(name, fork, now, steady))
      ensures var i := M.Find(old(processes), name);
              success <==> name != "" && i >= 0 && !old(processes)[i].state.RUNNING? && !old(processes)[i].state.STARTING?
                           && M.Fresh(old(State()), fork)
      ensures old(Sound()) && Allowed(old(State()), Start(name, fork, now, steady)) ==> Sound()
    {
      hide IsSound, Allowed;
      StepIsSound(State(), Start(name, fork, now, steady));
      hide M.StartAfresh, M.Find;
      if name == "" { return false; }
      var i := FindProcess(name);
      if i < 0 { return false; }
      if processes[i].state.RUNNING? || processes[i].state.STARTING? { return false; }
      success := StartAfresh(i, fork, now, steady);
    }

    /** The reply says success for everything, or for a process that was starting or running. */
    method HandleStop(name: string, now: real, polls: seq<Poll>) returns (success: bool)
      modifies this
      ensures State() == M.Step(old(State()), Stop(name, now, polls))
      ensures var i := M.Find(old(processes), name);
              success <==> name == "" || (i >= 0 && (old(processes)[i].state.RUNNING? || old(processes)[i].state.STARTING?))
      ensures old(Sound()) ==> Sound() && StillGivenUp(old(State()), State())
    {
      hide IsSound, StillGivenUp;
      StepIsSound(State(), Stop(name, now, polls));
      hide M.ShutdownAll, M.RequestStop;
      if name == "" {
        ShutdownAll(now, polls);
        shuttingDown := false;
        return true;
      }
      var i := FindProcess(name);
      if i < 0 { return false; }
      if !processes[i].state.RUNNING? && !processes[i].state.STARTING? { return false; }
      ReadClock(now);
      RequestStop(i, now);
      success := true;
    }

    method AwaitStopped(i: nat, polls: seq<Poll>)
      requires i < |processes|
      modifies this
      ensures State() == M.AwaitStopped(old(State()), i, polls)
    {
      hide M.PollOnce;
      var k := 0;
      while k < |polls| && processes[i].state.STOPPING?
        invariant 0 <= k <= |polls| && |processes| == |old(processes)|
        invariant M.AwaitStopped(old(State()), i, polls) == M.AwaitStopped(State(), i, polls[k..])
      {
        PollOnce(polls[k]);
        assert polls[k..][1..] == polls[k + 1..];
        k := k + 1;
      }
    }

    method AllToPending(now: real)
      modifies this
      ensures State() == M.AllToPending(old(State()), |old(processes)|, now)
    {
      hide M.ToPending;
      for i := 0 to |processes|
        invariant |processes| == |old(processes)| && State() == M.AllToPending(old(State()), i, now)
      {
        ToPending(i, now);
      }
    }

    method AllAfresh(now: real)
      modifies this
      ensures State() == M.AllAfresh(old(State()), now)
    {
      hide M.AllToPending, M.Find;
      ReadClock(now);
      AllToPending(now);
      failCount := 0;
      gaveUp := false;
      var o := FindProcess(ODIN);
      if o >= 0 { processes := processes[o := processes[o].(autoRestart := true)]; }
    }

    method RestartAll(now: real, polls: seq<Poll>, later: real, ghost fork: Fork, ghost steady: real)
      modifies this
      ensures State() == M.HandleRestart(old(State()), "", fork, now, polls, later, steady)
    {
      hide M.ShutdownAll, M.AllAfresh, Sound, StillGivenUp;
      ShutdownAll(now, polls);
      shuttingDown := false;
      AllAfresh(later);
    }

    method RestartOne(i: nat, fork: Fork, now: real, polls: seq<Poll>, later: real, steady: real) returns (waiting: bool)
      requires i < |processes|
      modifies this
      ensures State() == M.RestartOne(old(State()), i, fork, now, polls, later, steady)
    {
      hide M.AwaitStopped, M.RequestStop, M.StartAfresh;
      waiting := false;
      if processes[i].state.RUNNING? || processes[i].state.STARTING? {
        ReadClock(now);
        RequestStop(i, now);
      }
      AwaitStopped(i, polls);
      if processes[i].state.STOPPING? { return true; }
      var _ := StartAfresh(i, fork, later, steady);
    }

    /** Returns with `waiting` set while the process is still stopping when the polls end. */
    method HandleRestart(name: string, fork: Fork, now: real, polls: seq<Poll>, later: real, steady: real) returns (waiting: bool)
      modifies this
      ensures State() == M.Step(old(State()), Restart(name, fork, now, polls, later, steady))
      ensures old(Sound() && !shuttingDown) ==> Sound()
    {
      hide IsSound;
      StepIsSound(State(), Restart(name, fork, now, polls, later, steady));
      hide StillGivenUp, M.ShutdownAll, M.AllAfresh, M.RestartOne;
      waiting := false;
      if name == "" {
        RestartAll(now, polls, later, fork, steady);
        return;
      }
      var i := FindProcess(name);
      if i < 0 { return; }
      waiting := RestartOne(i, fork, now, polls, later, steady);
    }
  }
}
