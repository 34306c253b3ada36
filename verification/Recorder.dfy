/**
 The flight recorder node as an object: its fields and callbacks, each proved to take the state
 exactly where the corresponding transition takes it, and to keep it consistent.
 */
module FlightRecorder {
  import opened Sorting
  import opened SliceNames
  import opened M = RecorderModel

  class BagRecorderNode {
    const cfg: Config
    var armed: bool
    var recording: bool
    var writerOpen: bool
    var current: string
    var rotationTimer: bool
    var retryTimer: bool
    // the storage directory
    var slices: set<string>
    const others: set<string>

    ghost function State(): Recorder
      reads this
    {
      Recorder(cfg, armed, recording, writerOpen, current, rotationTimer, retryTimer, slices, others)
    }

    /** Recording, writer, name and timers fit together. */
    ghost predicate Consistent()
      reads this
    {
      M.Consistent(State())
    }

    /** What a callback keeps, as a fact about the state before it. */
    static lemma Keeps(r: Recorder, e: Event)
      ensures M.Consistent(r) && M.Named(e) ==> M.Consistent(M.Step(r, e))
    {
      hide M.Consistent, M.Named, M.Step;
      if M.Consistent(r) && M.Named(e) { M.StepKeepsConsistent(r, e); }
    }

    constructor (cfg: Config, slices: set<string>, others: set<string>, o: Opening, readable: bool)
      ensures State() == M.Start(cfg, slices, others, o, readable)
      ensures o.base != "" ==> Consistent()
    {
      if o.base != "" { M.StartIsConsistent(cfg, slices, others, o, readable); }
      this.cfg, this.slices, this.others := cfg, slices, others;
      armed, recording, writerOpen, current, rotationTimer, retryTimer := false, false, false, "", false, false;
      new;
      hide M.Open;
      if !cfg.armRecord {
        CleanupOldBags(readable);
        OpenNewBag(o);
        if o.works { StartRotationTimer(); } else { ScheduleRetry(); }
      }
    }

    /** open_new_bag, with what its callers do when it throws. */
    method OpenNewBag(o: Opening)
      modifies this
      ensures State() == M.Open(old(State()), o)
    {
      var name, k := FreshName(o.base, slices + others);
      FirstFreeIsNew(State(), o.base, k);
      hide M.NewName;
      current := name;
      writerOpen := true;
      if o.works || o.leavesDirectory { slices := slices + {name}; }
      if !o.works {
        writerOpen := false;
        current := "";
      }
      recording := o.works;
    }

    static lemma FirstFreeIsNew(r: Recorder, base: string, k: nat)
      requires M.IsCandidate(r, base, k)
      ensures M.NewName(r, base) == Candidate(base, k)
    {
      var i: nat :| M.IsCandidate(r, base, i) && M.NewName(r, base) == Candidate(base, i);
      M.CandidateIsUnique(r, base, i, k);
    }

    method CloseWriter()
      modifies this
      ensures State() == M.Close(old(State()))
    {
      if !writerOpen { return; }
      writerOpen := false;
      current := "";
    }

    method StartRotationTimer()
      modifies this
      ensures State() == M.StartRotation(old(State()))
    {
      if cfg.rotationInterval <= 0 { return; }
      if rotationTimer { return; }
      rotationTimer := true;
    }

    method ScheduleRetry()
      modifies `retryTimer
      ensures retryTimer
    {
      if retryTimer { return; }
      retryTimer := true;
    }

    /** Deleting one of the entries still to be seen, unless it is to stay. */
    static lemma OneDeleted<T>(all: set<T>, stay: set<T>, rest: set<T>, x: T)
      requires x in rest && rest <= all
      ensures all * stay + (rest - {x}) == if x in stay then all * stay + rest else all * stay + rest - {x}
    {}

    method CleanupOldBags(readable: bool)
      modifies `slices
      ensures State() == M.Cleanup(old(State()), readable)
    {
      if !cfg.autoCleanup { return; }
      if !readable { return; }
      var rest := slices;
      while rest != {}
        invariant rest <= old(slices) && slices == (old(slices) * {current}) + rest
        decreases |rest|
      {
        var name :| name in rest;
        OneDeleted(old(slices), {current}, rest, name);
        rest := rest - {name};
        if name != current { slices := slices - {name}; }
      }
    }

    method RotateBag(o: Opening)
      modifies this
      ensures State() == M.Rotate(old(State()), o)
      ensures old(Consistent() && rotationTimer) && o.base != "" ==> Consistent()
    {
      hide M.Consistent;
      Keeps(State(), RotationTimer(o));
      hide M.Open;
      if !recording { return; }
      if !writerOpen || current == "" { return; }
      CloseWriter();
      if cfg.armRecord && !armed { return; }
      OpenNewBag(o);
      if !o.works { ScheduleRetry(); }
    }

    method RetryOpenBag(free: int, o: Opening)
      modifies this
      ensures State() == M.Retry(old(State()), free, o)
      ensures old(Consistent() && retryTimer) && o.base != "" ==> Consistent()
    {
      hide M.Consistent;
      Keeps(State(), RetryTimer(free, o));
      hide M.Open;
      if recording {
        retryTimer := false;
        return;
      }
      if cfg.armRecord && !armed {
        retryTimer := false;
        return;
      }
      if free >= 0 && free < cfg.minFree { return; }
      OpenNewBag(o);
      if o.works {
        StartRotationTimer();
        retryTimer := false;
      }
    }

    method Arm(o: Opening, readable: bool)
      requires !armed
      modifies this
      ensures State() == M.ArmState(old(State()), true, o, readable)
    {
      hide M.Open, M.Cleanup, M.StartRotation;
      armed := true;
      CloseWriter();
      CleanupOldBags(readable);
      if !armed { return; }
      OpenNewBag(o);
      if o.works {
        StartRotationTimer();
      } else {
        armed := false;
        ScheduleRetry();
      }
    }

    method ArmStateCb(messageArmed: bool, o: Opening, readable: bool)
      modifies this
      ensures State() == M.ArmState(old(State()), messageArmed, o, readable)
      ensures old(Consistent()) && cfg.armRecord && o.base != "" ==> Consistent()
    {
      hide M.Consistent;
      Keeps(State(), StateMessage(messageArmed, o, readable));
      if messageArmed {
        if armed { return; }
        Arm(o, readable);
      } else {
        if !armed { return; }
        armed := false;
        recording := false;
        if cfg.armRecord { rotationTimer := false; }
        CloseWriter();
      }
    }

    /** The subdirectories but the active slice, sorted by name, from a listing in any order. */
    method OldSlices(listing: seq<string>) returns (names: seq<string>)
      requires M.Lists(listing, slices)
      ensures names == M.Inactive(State())
    {
      var dirs: seq<string> := [];
      for i := 0 to |listing|
        invariant forall x <- dirs :: x != current && x in listing[..i]
        invariant forall x <- listing[..i] :: x != current ==> x in dirs
        invariant forall k, l | 0 <= k < l < |dirs| :: dirs[k] != dirs[l]
      {
        assert listing[..i + 1] == listing[..i] + [listing[i]] && listing[i] !in listing[..i];
        if listing[i] != current { dirs := dirs + [listing[i]]; }
      }
      assert listing[..|listing|] == listing;
      M.AnyListing(State(), dirs);
      names := SortBy(dirs, LexLeq);
    }

    method DiskCheckCb(frees: seq<int>, readable: bool, listing: seq<string>)
      requires M.Lists(listing, slices)
      modifies this
      ensures State() == M.DiskCheck(old(State()), frees, readable)
      ensures old(Consistent()) ==> Consistent()
    {
      hide M.Consistent;
      Keeps(State(), DiskTimer(frees, readable));
      hide M.Inactive;
      if !recording { return; }
      var free := M.FreeAt(frees, 0);
      if free < 0 || free >= cfg.minFree { return; }
      var names := [];
      if readable { names := OldSlices(listing); }
      var k := DeleteOldest(names, frees);
      hide M.Deleted, M.FirstOf, M.StopIfLow;
      StopIfLow(M.FreeAt(frees, if k < |names| then k + 2 else k + 1));
    }

    method StopIfLow(free: int)
      modifies this
      ensures State() == M.StopIfLow(old(State()), free)
    {
      if free >= 0 && free < cfg.minFree {
        recording := false;
        rotationTimer := false;
        CloseWriter();
        ScheduleRetry();
      }
    }

    /** The deleting loop; returns how many slices are gone. */
    method DeleteOldest(names: seq<string>, frees: seq<int>) returns (k: nat)
      modifies `slices
      ensures k == M.Deleted(old(State()), names, frees, 0)
      ensures slices == old(slices) - M.FirstOf(names, k)
    {
      k := 0;
      while k < |names|
        invariant 0 <= k <= |names|
        invariant M.Deleted(old(State()), names, frees, k) == M.Deleted(old(State()), names, frees, 0)
        invariant slices == old(slices) - M.FirstOf(names, k)
      {
        var free := M.FreeAt(frees, k + 1);
        if free < 0 || free >= cfg.minFree { return; }
        slices := slices - {names[k]};
        k := k + 1;
      }
    }
  }
}
