/**
 The flight recorder as transitions on values. Callbacks run one at a time in the node's
 single-threaded executor, so each of them is one transition.

 Readings of the disk and whether opening a bag succeeds are inputs, so every input sequence
 is a possible run. Removing a slice is atomic.
 */
module RecorderModel {
  import opened Sorting
  import opened SliceNames

  datatype Config = Config(armRecord: bool, autoCleanup: bool, rotationInterval: int, minFree: int)

  datatype Recorder = Recorder(
    cfg: Config,
    armed: bool,
    recording: bool,
    writerOpen: bool,
    current: string,          // name of the active slice, empty when there is none
    rotationTimer: bool,
    retryTimer: bool,
    slices: set<string>,      // directories in the storage directory
    others: set<string>)      // names of other entries there

  /** What happens when a bag is opened: the name its start time gives, and whether the writer's open throws. */
  datatype Opening = Opening(base: string, works: bool, leavesDirectory: bool)

  predicate IsCandidate(r: Recorder, base: string, i: nat) {
    Candidate(base, i) !in r.slices + r.others && forall j | 0 <= j < i :: Candidate(base, j) in r.slices + r.others
  }

  /** The first free name, by the collision loop. */
  ghost function NewName(r: Recorder, base: string): (name: string)
    ensures name !in r.slices && name !in r.others
    ensures exists i :: IsCandidate(r, base, i) && name == Candidate(base, i)
  {
    SomeCandidate(r, base);
    var i: nat :| IsCandidate(r, base, i);
    Candidate(base, i)
  }

  lemma SomeCandidate(r: Recorder, base: string)
    ensures exists i: nat :: IsCandidate(r, base, i)
  {
    NoEndlessCollision(r, base, r.slices + r.others, 0, {});
  }

  /** The candidates tried so far are taken. */
  ghost predicate Tried(base: string, tried: set<string>, i: nat) {
    forall x <- tried :: exists j | 0 <= j < i :: Candidate(base, j) == x
  }

  /** Only finitely many names are taken. */
  lemma {:induction false} NoEndlessCollision(r: Recorder, base: string, taken: set<string>, i: nat, tried: set<string>)
    requires taken == r.slices + r.others && tried <= taken && Tried(base, tried, i)
    requires forall j | 0 <= j < i :: Candidate(base, j) in taken
    ensures exists k: nat :: IsCandidate(r, base, k)
    decreases |taken - tried|
  {
    hide Candidate, Tried;
    if Candidate(base, i) in taken {
      NotTriedYet(base, tried, i);
      FewerLeft(taken, tried, Candidate(base, i));
      NoEndlessCollision(r, base, taken, i + 1, tried + {Candidate(base, i)});
    } else {
      assert IsCandidate(r, base, i);
    }
  }

  lemma NotTriedYet(base: string, tried: set<string>, i: nat)
    requires Tried(base, tried, i)
    ensures Candidate(base, i) !in tried && Tried(base, tried + {Candidate(base, i)}, i + 1)
  {
    hide Candidate;
    if Candidate(base, i) in tried {
      var j :| 0 <= j < i && Candidate(base, j) == Candidate(base, i);
      CandidatesDiffer(base, j, i);
    }
  }

  lemma FewerLeft<T>(taken: set<T>, tried: set<T>, x: T)
    requires x in taken && x !in tried
    ensures |taken - (tried + {x})| < |taken - tried|
  {
    assert taken - (tried + {x}) == (taken - tried) - {x};
  }

  lemma CandidateIsUnique(r: Recorder, base: string, i: nat, j: nat)
    requires IsCandidate(r, base, i) && IsCandidate(r, base, j)
    ensures i == j
  {}

  // ---------------------------------------------------------------- opening and closing

  /** open_new_bag; when it throws, its callers drop the writer and the name. */
  ghost function Open(r: Recorder, o: Opening): Recorder {
    var name := NewName(r, o.base);
    if o.works then r.(writerOpen := true, current := name, slices := r.slices + {name}, recording := true)
    else
      r.(writerOpen := false, current := "", recording := false,
         slices := if o.leavesDirectory then r.slices + {name} else r.slices)
  }

  function Close(r: Recorder): Recorder {
    if r.writerOpen then r.(writerOpen := false, current := "") else r
  }

  function StartRotation(r: Recorder): Recorder {
    if r.cfg.rotationInterval <= 0 then r else r.(rotationTimer := true)
  }

  /** cleanup_old_bags, unless the storage directory cannot be read */
  function Cleanup(r: Recorder, readable: bool): Recorder {
    if r.cfg.autoCleanup && readable then r.(slices := r.slices * {r.current}) else r
  }

  // ---------------------------------------------------------------- callbacks

  /** The constructor. */
  ghost function Start(cfg: Config, slices: set<string>, others: set<string>, o: Opening, readable: bool): Recorder {
    var r := Recorder(cfg, false, false, false, "", false, false, slices, others);
    if cfg.armRecord then r
    else
      var e := Open(Cleanup(r, readable), o);
      if o.works then StartRotation(e) else e.(retryTimer := true)
  }

  /** rotate_bag */
  ghost function Rotate(r: Recorder, o: Opening): Recorder {
    if !r.recording || !r.writerOpen || r.current == "" then r
    else if r.cfg.armRecord && !r.armed then Close(r)
    else
      var e := Open(Close(r), o);
      if o.works then e else e.(retryTimer := true)
  }

  /** retry_open_bag; free is the space it reads, negative if that fails */
  ghost function Retry(r: Recorder, free: int, o: Opening): Recorder {
    if r.recording || (r.cfg.armRecord && !r.armed) then r.(retryTimer := false)
    else if 0 <= free < r.cfg.minFree then r
    else
      var e := Open(r, o);
      if o.works then StartRotation(e).(retryTimer := false) else e
  }

  /** arm_state_cb */
  ghost function ArmState(r: Recorder, armed: bool, o: Opening, readable: bool): Recorder {
    if r.armed == armed then r
    else if armed then
      var e := Open(Cleanup(Close(r.(armed := true)), readable), o);
      if o.works then StartRotation(e) else e.(armed := false, retryTimer := true)
    else
      var e := r.(armed := false, recording := false);
      Close(if r.cfg.armRecord then e.(rotationTimer := false) else e)
  }

  // ---------------------------------------------------------------- disk space

  predicate Low(r: Recorder, free: int) {
    0 <= free < r.cfg.minFree
  }

  /** The i-th reading of free megabytes in a callback. */
  function FreeAt(frees: seq<int>, i: nat): int {
    if i < |frees| then frees[i] else -1
  }

  /** A listing of a directory, in whatever order. */
  ghost predicate Lists(r: seq<string>, s: set<string>) {
    (forall x :: x in r <==> x in s) && forall i, j | 0 <= i < j < |r| :: r[i] != r[j]
  }

  ghost function Listing(s: set<string>): (r: seq<string>)
    ensures Lists(r, s)
  {
    if s == {} then []
    else
      var x :| x in s;
      [x] + Listing(s - {x})
  }

  /** Inactive slices, oldest name first. */
  ghost function Inactive(r: Recorder): seq<string> {
    SortBy(Listing(r.slices - {r.current}), LexLeq)
  }

  /** The reading before the i-th slice is deleted, if it is. */
  predicate LowBefore(r: Recorder, frees: seq<int>, i: nat) {
    Low(r, FreeAt(frees, i + 1))
  }

  /** How many of the slices from the j-th on are gone after the deleting loop. */
  function Deleted(r: Recorder, names: seq<string>, frees: seq<int>, j: nat): (k: nat)
    requires j <= |names|
    ensures j <= k <= |names|
    decreases |names| - j
  {
    if j == |names| || !LowBefore(r, frees, j) then j else Deleted(r, names, frees, j + 1)
  }

  /** The end of a disk check: recording stops if there is still too little space. */
  function StopIfLow(r: Recorder, free: int): Recorder {
    if Low(r, free) then Close(r.(recording := false, rotationTimer := false)).(retryTimer := true) else r
  }

  function FirstOf(names: seq<string>, k: nat): set<string>
    requires k <= |names|
  {
    set i | 0 <= i < k :: names[i]
  }

  /** disk_check_cb; the storage directory is listed unless it cannot be read */
  ghost function DiskCheck(r: Recorder, frees: seq<int>, readable: bool): Recorder {
    if !r.recording || !Low(r, FreeAt(frees, 0)) then r
    else
      var names := if readable then Inactive(r) else [];
      var k := Deleted(r, names, frees, 0);
      var e := r.(slices := r.slices - FirstOf(names, k));
      StopIfLow(e, FreeAt(frees, if k < |names| then k + 2 else k + 1))
  }

  // ---------------------------------------------------------------- runs

  datatype Event =
    | StateMessage(armed: bool, opening: Opening, readable: bool)
    | RotationTimer(opening: Opening)
    | RetryTimer(free: int, opening: Opening)
    | DiskTimer(frees: seq<int>, readable: bool)

  /** Timers that are not pending do not fire, and without arm mode nobody listens to state messages. */
  ghost function Step(r: Recorder, e: Event): Recorder {
    match e
    case StateMessage(armed, o, readable) => if r.cfg.armRecord then ArmState(r, armed, o, readable) else r
    case RotationTimer(o) => if r.rotationTimer then Rotate(r, o) else r
    case RetryTimer(free, o) => if r.retryTimer then Retry(r, free, o) else r
    case DiskTimer(frees, readable) => DiskCheck(r, frees, readable)
  }

  ghost function Run(r: Recorder, es: seq<Event>): Recorder {
    if es == [] then r else Step(Run(r, es[..|es| - 1]), es[|es| - 1])
  }

  // ---------------------------------------------------------------- consistency

  /** Recording is wanted while armed, and always without arm mode. */
  predicate Wanted(r: Recorder) {
    r.armed || !r.cfg.armRecord
  }

  ghost predicate Consistent(r: Recorder) {
    && (r.recording <==> r.writerOpen)
    && (r.writerOpen <==> r.current != "")
    && (r.current != "" ==> r.current in r.slices)
    && (r.recording ==> Wanted(r))
    && (r.armed ==> r.cfg.armRecord)
    && (Wanted(r) && !r.recording ==> r.retryTimer)
    && (r.recording && r.cfg.rotationInterval > 0 ==> r.rotationTimer)
    && (r.rotationTimer ==> r.cfg.rotationInterval > 0)
  }

  /** A start time gives a name. */
  predicate Named(e: Event) {
    (e.StateMessage? || e.RotationTimer? || e.RetryTimer?) ==> e.opening.base != ""
  }

  lemma NewNameIsNotEmpty(r: Recorder, base: string)
    requires base != ""
    ensures NewName(r, base) != ""
  {}

  lemma StartIsConsistent(cfg: Config, slices: set<string>, others: set<string>, o: Opening, readable: bool)
    requires o.base != ""
    ensures Consistent(Start(cfg, slices, others, o, readable))
  {
    hide NewName;
    var r := Recorder(cfg, false, false, false, "", false, false, slices, others);
    NewNameIsNotEmpty(Cleanup(r, readable), o.base);
  }

  lemma StepKeepsConsistent(r: Recorder, e: Event)
    requires Consistent(r) && Named(e)
    ensures Consistent(Step(r, e))
  {
    hide NewName, Inactive, Deleted, IsCandidate;
    match e
    case StateMessage(armed, o, readable) => NewNameIsNotEmpty(Cleanup(Close(r.(armed := true)), readable), o.base);
    case RotationTimer(o) => NewNameIsNotEmpty(Close(r), o.base);
    case RetryTimer(free, o) => NewNameIsNotEmpty(r, o.base);
    case DiskTimer(frees, readable) => DiskCheckKeepsActive(r, frees, readable);
  }

  /** The listing of inactive slices has exactly those, oldest first. */
  lemma InactiveSlices(r: Recorder)
    ensures forall x :: x in Inactive(r) <==> x in r.slices && x != r.current
    ensures Ascending(Inactive(r), LexLeq)
    ensures forall i, j | 0 <= i < j < |Inactive(r)| :: Inactive(r)[i] != Inactive(r)[j]
  {
    var listed := Listing(r.slices - {r.current});
    LexIsAnOrder();
    SortAscends(listed, LexLeq);
    SortPermutes(listed, LexLeq);
    SameMembers(listed, Inactive(r));
  }

  lemma SameMembers(a: seq<string>, b: seq<string>)
    requires multiset(a) == multiset(b) && forall i, j | 0 <= i < j < |a| :: a[i] != a[j]
    ensures forall x :: x in a <==> x in b
    ensures forall i, j | 0 <= i < j < |b| :: b[i] != b[j]
  {
    forall x
      ensures x in a <==> x in b
    {
      assert x in a <==> x in multiset(a);
      assert x in b <==> x in multiset(b);
    }
    forall i, j | 0 <= i < j < |b|
      ensures b[i] != b[j]
    {
      if b[i] == b[j] {
        Twice(b, i, j);
        OnceAtMost(a, b[i]);
      }
    }
  }

  lemma Twice(b: seq<string>, i: nat, j: nat)
    requires i < j < |b| && b[i] == b[j]
    ensures multiset(b)[b[i]] >= 2
  {
    assert b == b[..j] + [b[j]] + b[j + 1..];
    assert b[..j][i] == b[i];
  }

  lemma {:induction false} OnceAtMost(a: seq<string>, x: string)
    requires forall i, j | 0 <= i < j < |a| :: a[i] != a[j]
    ensures multiset(a)[x] <= 1
  {
    if a != [] {
      var n := |a| - 1;
      OnceAtMost(a[..n], x);
      assert a == a[..n] + [a[n]];
      if a[n] == x { assert x !in a[..n]; }
    }
  }

  /** Sorting makes the order in which the directory is read irrelevant. */
  lemma AnyListing(r: Recorder, listing: seq<string>)
    requires Lists(listing, r.slices - {r.current})
    ensures SortBy(listing, LexLeq) == Inactive(r)
  {
    var listed := Listing(r.slices - {r.current});
    SameMultiset(listing, listed, r.slices - {r.current});
    LexIsAnOrder();
    SortAscends(listed, LexLeq);
    SortPermutes(listed, LexLeq);
    SortAscends(listing, LexLeq);
    SortPermutes(listing, LexLeq);
    hide *;
    AscendingIsUnique(SortBy(listing, LexLeq), Inactive(r), LexLeq);
  }

  lemma SameMultiset(a: seq<string>, b: seq<string>, s: set<string>)
    requires Lists(a, s) && Lists(b, s)
    ensures multiset(a) == multiset(b)
  {
    forall x
      ensures multiset(a)[x] == multiset(b)[x]
    {
      OnceAtMost(a, x);
      OnceAtMost(b, x);
      assert x in a <==> x in multiset(a);
      assert x in b <==> x in multiset(b);
    }
  }

  lemma DiskCheckKeepsActive(r: Recorder, frees: seq<int>, readable: bool)
    ensures r.current in r.slices ==> r.current in DiskCheck(r, frees, readable).slices
  {
    InactiveSlices(r);
  }

  /** In every run, recording means exactly that a writer is open on a named slice, only happens while it is wanted,
      and whenever it is wanted but not happening a retry is pending. */
  lemma {:induction false} RunIsConsistent(r: Recorder, es: seq<Event>)
    requires Consistent(r) && forall k | 0 <= k < |es| :: Named(es[k])
    ensures Consistent(Run(r, es))
    decreases |es|
  {
    hide Step;
    if es != [] {
      RunIsConsistent(r, es[..|es| - 1]);
      StepKeepsConsistent(Run(r, es[..|es| - 1]), es[|es| - 1]);
    }
  }

  lemma RetryResumes(r: Recorder, free: int, o: Opening)
    requires Consistent(r) && Wanted(r) && !r.recording && o.base != ""
    ensures var e := Step(r, RetryTimer(free, o));
            && (0 <= free < r.cfg.minFree ==> e == r)
            && (e.recording <==> o.works && !(0 <= free < r.cfg.minFree))
            && (e.recording ==> e.writerOpen && !e.retryTimer && e.current !in r.slices + r.others)
  {
    NewNameIsNotEmpty(r, o.base);
  }

  /** Whatever has happened in a run, if recording is wanted and not happening, the next retry brings it back exactly if its
      bag opens and it does not find too little space; under a name that was not taken. Finding too little, it changes
      nothing. */
  lemma RetryRecovers(r: Recorder, es: seq<Event>, free: int, o: Opening)
    requires Consistent(r) && (forall k | 0 <= k < |es| :: Named(es[k])) && o.base != ""
    requires Wanted(Run(r, es)) && !Run(r, es).recording
    ensures var s, e := Run(r, es), Run(r, es + [RetryTimer(free, o)]);
            && (0 <= free < s.cfg.minFree ==> e == s)
            && (e.recording <==> o.works && !(0 <= free < s.cfg.minFree))
            && (e.recording ==> e.writerOpen && !e.retryTimer && e.current !in s.slices + s.others)
  {
    RunIsConsistent(r, es);
    RetryResumes(Run(r, es), free, o);
    assert (es + [RetryTimer(free, o)])[..|es|] == es;
  }

  /** In arm mode nothing happens before the first message; without it recording is on from the start, or a retry pending. */
  lemma StartIsIdle(cfg: Config, slices: set<string>, others: set<string>, o: Opening, readable: bool)
    ensures var e := Start(cfg, slices, others, o, readable);
            && !e.armed && (cfg.armRecord ==> !e.recording && !e.writerOpen && !e.rotationTimer && !e.retryTimer && e.slices == slices)
            && (!cfg.armRecord ==> e.recording == o.works && e.retryTimer == !o.works
                                   && e.rotationTimer == (o.works && cfg.rotationInterval > 0))
  {
    hide IsCandidate;
  }

  /** An attempt to open a bag that fails leaves at most a directory under a new name. */
  ghost predicate OnlyDirectory(before: set<string>, after: set<string>, leaves: bool) {
    before <= after && if leaves then |after - before| == 1 else after == before
  }

  lemma OneMoreDirectory(before: set<string>, name: string)
    requires name !in before
    ensures OnlyDirectory(before, before + {name}, true) && OnlyDirectory(before, before, false)
  {
    assert before + {name} - before == {name};
  }

  /** A retry that has nothing to do only stops its timer; one that fails changes nothing but for a directory left behind. */
  lemma RetryFails(r: Recorder, free: int, o: Opening)
    requires Consistent(r) && r.retryTimer
    ensures var e := Step(r, RetryTimer(free, o));
            && (r.recording || !Wanted(r) ==> e == r.(retryTimer := false))
            && (!r.recording && Wanted(r) && !(0 <= free < r.cfg.minFree) && !o.works ==>
                  e == r.(slices := e.slices) && OnlyDirectory(r.slices, e.slices, o.leavesDirectory))
  {
    OneMoreDirectory(r.slices, NewName(r, o.base));
    hide NewName, OnlyDirectory;
  }

  /** Arming whose bag does not open is rolled back, with a retry pending; disarming ends recording and rotation and keeps
      all slices. */
  lemma ArmingFails(r: Recorder, o: Opening, readable: bool)
    requires Consistent(r) && r.cfg.armRecord && (!o.works || r.armed)
    ensures var e := Step(r, StateMessage(!r.armed, o, readable));
            !e.armed && !e.recording && !e.writerOpen && e.current == ""
    ensures var e := Step(r, StateMessage(!r.armed, o, readable));
            if r.armed then !e.rotationTimer && e.retryTimer == r.retryTimer && e.slices == r.slices
            else e.retryTimer && e.rotationTimer == r.rotationTimer
                 && (!(r.cfg.autoCleanup && readable) ==> OnlyDirectory(r.slices, e.slices, o.leavesDirectory))
  {
    if !(r.cfg.autoCleanup && readable) {
      OneMoreDirectory(r.slices, NewName(Cleanup(Close(r.(armed := true)), readable), o.base));
    }
    hide NewName, OnlyDirectory;
  }

  // ---------------------------------------------------------------- names along a run

  /** A callback that may delete: a disk check that can list the directory, or arming with cleanup. */
  predicate Deletes(cfg: Config, e: Event) {
    (e.DiskTimer? && e.readable) || (e.StateMessage? && cfg.autoCleanup && e.readable)
  }

  /** The names of the slices opened in a run, in order. */
  ghost function Opened(r: Recorder, es: seq<Event>): seq<string> {
    if es == [] then []
    else
      var n := |es| - 1;
      var s, e := Run(r, es[..n]), Run(r, es);
      Opened(r, es[..n]) + (if e.current != "" && e.current != s.current then [e.current] else [])
  }

  lemma StepKeepsSlices(r: Recorder, e: Event)
    requires Consistent(r) && Named(e) && !Deletes(r.cfg, e)
    ensures Step(r, e).cfg == r.cfg && r.slices <= Step(r, e).slices
    ensures Step(r, e).current != "" && Step(r, e).current != r.current ==>
              Step(r, e).current !in r.slices && Step(r, e).current in Step(r, e).slices
  {
    hide NewName, Inactive, Deleted, IsCandidate;
    match e
    case StateMessage(armed, o, readable) => OpenKeepsSlices(Cleanup(Close(r.(armed := true)), readable), o);
    case RotationTimer(o) => OpenKeepsSlices(Close(r), o);
    case RetryTimer(free, o) => OpenKeepsSlices(r, o);
    case DiskTimer(frees, readable) => assert !readable;
  }

  lemma OpenKeepsSlices(r: Recorder, o: Opening)
    ensures var e := Open(r, o);
            && e.cfg == r.cfg && r.slices <= e.slices
            && (e.current != "" ==> e.current !in r.slices && e.current in e.slices)
  {
    hide IsCandidate;
  }

  /** As long as nothing is deleted, slices only come to be added, and no slice is ever opened under a name that a slice
      of this run or an earlier one has. */
  lemma {:induction false} NoSliceIsReopened(r: Recorder, es: seq<Event>)
    requires Consistent(r) && forall k | 0 <= k < |es| :: Named(es[k]) && !Deletes(r.cfg, es[k])
    ensures Run(r, es).cfg == r.cfg && r.slices <= Run(r, es).slices
    ensures forall x <- Opened(r, es) :: x in Run(r, es).slices && x !in r.slices
    ensures forall i, j | 0 <= i < j < |Opened(r, es)| :: Opened(r, es)[i] != Opened(r, es)[j]
    decreases |es|
  {
    hide Step, Consistent, Named, Deletes;
    if es != [] {
      var n := |es| - 1;
      NoSliceIsReopened(r, es[..n]);
      RunIsConsistent(r, es[..n]);
      StepKeepsSlices(Run(r, es[..n]), es[n]);
    }
  }

  lemma RotationResumes(r: Recorder, o: Opening)
    requires Consistent(r) && r.recording && r.cfg.rotationInterval > 0 && o.works && o.base != ""
    ensures var e := Step(r, RotationTimer(o));
            e.recording && e.current !in r.slices && e.slices == r.slices + {e.current}
  {
    NewNameIsNotEmpty(Close(r), o.base);
  }

  /** Whatever has happened in a run, while it is recording and rotation is configured, the timer is running and a rotation
      that works leaves the finished slice, with all others, in place and goes on in a new one. */
  lemma RotationKeepsSlices(r: Recorder, es: seq<Event>, o: Opening)
    requires Consistent(r) && (forall k | 0 <= k < |es| :: Named(es[k])) && o.base != ""
    requires Run(r, es).recording && Run(r, es).cfg.rotationInterval > 0 && o.works
    ensures var s, e := Run(r, es), Run(r, es + [RotationTimer(o)]);
            e.recording && e.current != s.current && e.current !in s.slices && e.slices == s.slices + {e.current}
  {
    RunIsConsistent(r, es);
    RotationResumes(Run(r, es), o);
    assert (es + [RotationTimer(o)])[..|es|] == es;
    hide Step;
  }

  // ---------------------------------------------------------------- reclaiming disk space

  lemma {:induction false} DeletedWhileLow(r: Recorder, names: seq<string>, frees: seq<int>, j: nat)
    requires j <= |names|
    ensures var k := Deleted(r, names, frees, j);
            && (forall i | j <= i < k :: LowBefore(r, frees, i))
            && (k < |names| ==> !LowBefore(r, frees, k))
    decreases |names| - j
  {
    if j < |names| && LowBefore(r, frees, j) { DeletedWhileLow(r, names, frees, j + 1); }
  }

  /** The i-th inactive slice and all before it are deleted: the first reading of the disk was too low, and so was the one
      before each of them. */
  ghost predicate Reclaimed(r: Recorder, frees: seq<int>, readable: bool, i: nat) {
    r.recording && readable && i + 1 < |frees| && forall j | 0 <= j <= i + 1 :: 0 <= frees[j] < r.cfg.minFree
  }

  /** A disk check while recording deletes inactive slices, oldest first, as long as every reading so far was too low, and
      stops recording if the last one still is; readings that fail stop it. Otherwise it changes nothing. */
  lemma ReclaimsOldestFirst(r: Recorder, frees: seq<int>, readable: bool) returns (k: nat)
    ensures var e, names := DiskCheck(r, frees, readable), Inactive(r);
            && (forall i | 0 <= i < |names| :: names[i] !in e.slices <==> Reclaimed(r, frees, readable, i))
            && (forall i | 0 <= i < |names| :: names[i] !in e.slices <==> i < k)
            && k <= |names| && e.slices <= r.slices && (r.current in r.slices ==> r.current in e.slices)
            && var last := if readable && k < |names| then k + 2 else k + 1;
               if r.recording && frees != [] && 0 <= frees[0] < r.cfg.minFree
               then if last < |frees| && 0 <= frees[last] < r.cfg.minFree
                    then !e.recording && !e.writerOpen && !e.rotationTimer && e.retryTimer
                    else e == r.(slices := e.slices)
               else e == r && k == 0
  {
    if !r.recording || !Low(r, FreeAt(frees, 0)) {
      k := 0;
      EnoughSpaceIsLeft(r, frees, readable);
      hide Inactive, DiskCheck;
    } else {
      k := Deleted(r, if readable then Inactive(r) else [], frees, 0);
      LowDiskCheck(r, frees, readable);
      assert frees != [] && 0 <= frees[0] < r.cfg.minFree;
      hide Inactive, DiskCheck, Deleted, FreeAt, Reclaimed;
      forall i | 0 <= i < |Inactive(r)|
        ensures i < k <==> Reclaimed(r, frees, readable, i)
      {
        DeletedAreReclaimed(r, frees, readable, i);
      }
    }
  }

  /** A disk check when not recording, or that finds enough space or no reading. */
  lemma EnoughSpaceIsLeft(r: Recorder, frees: seq<int>, readable: bool)
    requires !r.recording || !Low(r, FreeAt(frees, 0))
    ensures DiskCheck(r, frees, readable) == r
    ensures forall i | 0 <= i < |Inactive(r)| :: Inactive(r)[i] in r.slices && !Reclaimed(r, frees, readable, i)
    ensures !(r.recording && frees != [] && 0 <= frees[0] < r.cfg.minFree)
  {
    InactiveSlices(r);
    hide Inactive;
  }

  /** A disk check that finds too little space. */
  lemma LowDiskCheck(r: Recorder, frees: seq<int>, readable: bool)
    requires r.recording && Low(r, FreeAt(frees, 0))
    ensures var e, names := DiskCheck(r, frees, readable), Inactive(r);
            var k := Deleted(r, if readable then names else [], frees, 0);
            && (forall i | 0 <= i < |names| :: names[i] !in e.slices <==> i < k)
            && k <= |names| && e.slices <= r.slices && (r.current in r.slices ==> r.current in e.slices)
            && var last := if readable && k < |names| then k + 2 else k + 1;
               if last < |frees| && 0 <= frees[last] < r.cfg.minFree
               then !e.recording && !e.writerOpen && !e.rotationTimer && e.retryTimer
               else e == r.(slices := e.slices)
  {
    InactiveSlices(r);
    hide Inactive, Deleted;
  }

  lemma DeletedAreReclaimed(r: Recorder, frees: seq<int>, readable: bool, i: nat)
    requires r.recording && Low(r, FreeAt(frees, 0)) && i < |Inactive(r)|
    ensures i < Deleted(r, if readable then Inactive(r) else [], frees, 0) <==> Reclaimed(r, frees, readable, i)
  {
    var names := if readable then Inactive(r) else [];
    hide Inactive;
    var k := Deleted(r, names, frees, 0);
    DeletedWhileLow(r, names, frees, 0);
    hide Deleted;
    if i < k {
      ReadingsWereLow(r, frees, i);
    }
  }

  lemma ReadingsWereLow(r: Recorder, frees: seq<int>, i: nat)
    requires Low(r, FreeAt(frees, 0)) && forall j | 0 <= j <= i :: LowBefore(r, frees, j)
    ensures i + 1 < |frees| && forall j | 0 <= j <= i + 1 :: 0 <= frees[j] < r.cfg.minFree
  {
    assert LowBefore(r, frees, i);
    forall j | 0 <= j <= i + 1
      ensures 0 <= frees[j] < r.cfg.minFree
    {
      if j > 0 { assert LowBefore(r, frees, j - 1); }
    }
  }

  function Total(bytes: map<string, nat>, names: seq<string>): nat {
    if names == [] then 0
    else
      var n := |names| - 1;
      Total(bytes, names[..n]) + if names[n] in bytes then bytes[names[n]] else 0
  }

  /** The megabytes disk_free_mb computes. */
  function Megabytes(bytes: nat): nat {
    bytes / 1048576
  }

  /** Free megabytes after deleting the first i of some slices. */
  function Room(free: nat, bytes: map<string, nat>, names: seq<string>, i: nat): nat
    requires i <= |names|
  {
    Megabytes(free + Total(bytes, names[..i]))
  }

  /** k slices are the fewest whose deletion leaves enough room, or all if that does not. */
  ghost predicate Fewest(names: seq<string>, free: nat, bytes: map<string, nat>, enough: int, k: nat) {
    && k <= |names| && (forall i | 0 <= i < k :: Room(free, bytes, names, i) < enough)
    && (k < |names| ==> Room(free, bytes, names, k) >= enough)
  }

  /** All readings after the first succeed, and only the deletions, of at most k slices, change the free space. */
  ghost predicate Accounted(names: seq<string>, frees: seq<int>, free: nat, bytes: map<string, nat>, k: nat)
    requires k <= |names|
  {
    |frees| >= k + 3 && forall j | 1 <= j <= k + 2 :: frees[j] == Room(free, bytes, names, if j - 1 < k then j - 1 else k)
  }

  /** On such a disk, whatever the first reading, a disk check deletes exactly the fewest of the oldest inactive slices that
      leave enough room, provided that it is recording and the first reading was too low, and recording goes on unless even
      all of them are not enough. */
  lemma DeletesShortestPrefix(r: Recorder, frees: seq<int>, free: nat, bytes: map<string, nat>, k: nat)
    requires Fewest(Inactive(r), free, bytes, r.cfg.minFree, k) && Accounted(Inactive(r), frees, free, bytes, k)
    ensures var e, names := DiskCheck(r, frees, true), Inactive(r);
            var low := r.recording && 0 <= frees[0] < r.cfg.minFree;
            && (forall i | 0 <= i < |names| :: names[i] !in e.slices <==> low && i < k)
            && (e.recording <==> r.recording && (low ==> Room(free, bytes, names, k) >= r.cfg.minFree))
  {
    var names := Inactive(r);
    var n := ReclaimsOldestFirst(r, frees, true);
    hide Inactive, Room, DiskCheck;
    if r.recording && 0 <= frees[0] < r.cfg.minFree {
      forall i | 0 <= i < |names|
        ensures Reclaimed(r, frees, true, i) <==> i < k
      {
        if i < k {
          forall j | 0 <= j <= i + 1
            ensures 0 <= frees[j] < r.cfg.minFree
          {
            if j > 0 { assert frees[j] == Room(free, bytes, names, j - 1); }
          }
        } else {
          assert frees[k + 1] == Room(free, bytes, names, k) >= r.cfg.minFree;
        }
      }
      SameCut(names, DiskCheck(r, frees, true).slices, n, k);
      assert frees[k + 1] == frees[k + 2] == Room(free, bytes, names, k);
    }
  }

  lemma SameCut(names: seq<string>, kept: set<string>, a: nat, b: nat)
    requires a <= |names| && b <= |names|
    requires forall i | 0 <= i < |names| :: names[i] !in kept <==> i < a
    requires forall i | 0 <= i < |names| :: names[i] !in kept <==> i < b
    ensures a == b
  {
    assert a < |names| ==> names[a] in kept;
    assert b < |names| ==> names[b] in kept;
  }

  /** A slice that disappears in a run does so in a disk check that was recording and whose first reading was too low, or
      when the vehicle is armed with cleanup. */
  ghost predicate Reclaims(s: Recorder, e: Event, x: string) {
    || (e.DiskTimer? && e.readable && s.recording && x != s.current && e.frees != [] && 0 <= e.frees[0] < s.cfg.minFree)
    || (e.StateMessage? && e.armed && !s.armed && s.cfg.armRecord && s.cfg.autoCleanup && e.readable)
  }

  lemma StepReclaims(s: Recorder, e: Event, x: string)
    requires x in s.slices && x !in Step(s, e).slices
    ensures Reclaims(s, e, x)
  {
    hide NewName, Inactive, Deleted, IsCandidate;
    if e.DiskTimer? { DiskCheckKeepsActive(s, e.frees, e.readable); }
  }

  lemma {:induction false} SlicesDisappear(r: Recorder, es: seq<Event>, x: string) returns (n: nat)
    requires x in r.slices && x !in Run(r, es).slices
    ensures n < |es| && x in Run(r, es[..n]).slices && Reclaims(Run(r, es[..n]), es[n], x)
    decreases |es|
  {
    hide Step, Reclaims;
    n := |es| - 1;
    if x in Run(r, es[..n]).slices {
      StepReclaims(Run(r, es[..n]), es[n], x);
    } else {
      var m := SlicesDisappear(r, es[..n], x);
      assert es[..n][..m] == es[..m];
      n := m;
    }
  }

  /** Arming with cleanup leaves the new slice alone; without, it adds it to the others. */
  lemma ArmingCleans(r: Recorder, o: Opening, readable: bool)
    requires Consistent(r) && r.cfg.armRecord && !r.armed && o.works && "" !in r.slices
    ensures var e := Step(r, StateMessage(true, o, readable));
            && e.recording && e.armed
            && e.slices == (if r.cfg.autoCleanup && readable then {} else r.slices) + {e.current}
            && (!(r.cfg.autoCleanup && readable) ==> e.current !in r.slices)
  {
    hide IsCandidate;
  }

  /** What is deleted is never newer than what stays. */
  lemma DeletedAreOlder(r: Recorder, i: nat, j: nat, s: Stamp, t: Stamp, m: nat, n: nat)
    requires i < j < |Inactive(r)| && InRange(s) && InRange(t)
    requires Inactive(r)[i] == Candidate(FormatTimestamp(s), m) && Inactive(r)[j] == Candidate(FormatTimestamp(t), n)
    ensures !Before(t, s)
  {
    InactiveSlices(r);
    hide Inactive;
    if Before(t, s) {
      var a, b := FormatTimestamp(t), FormatTimestamp(s);
      var x, y := if n == 0 then "" else "_" + Padded(n, 1), if m == 0 then "" else "_" + Padded(m, 1);
      assert Candidate(a, n) == a + x && Candidate(b, m) == b + y;
      EarlierIsSmaller(t, s, x, y);
    }
  }
}
