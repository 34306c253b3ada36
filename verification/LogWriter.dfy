/**
 The driver's recorder appends frames to a file through a batching writer: producers
 append to `pending` under a mutex, full batches move to `writeQueue`, and one worker
 thread takes batches off the queue and writes them.

 The threads are modelled as a state machine whose steps are the critical sections and
 the unlocked actions between them, so that a run is any interleaving of producers,
 worker, condition-variable notifications and shutdown. The theorem is that every run
 refines "append each frame to the file in lock order", that a first `shutdown` returns
 only once everything enqueued before it is in the file, and that no wake-up is lost.
 */
module LogWriter {

  type byte = bv8
  type Frame = seq<byte>
  type Batch = seq<Frame>

  // ---------------------------------------------------------------- byte streams

  ghost function Bytes(fs: seq<Frame>): seq<byte> {
    if fs == [] then [] else fs[0] + Bytes(fs[1..])
  }

  ghost function Frames(q: seq<Batch>): seq<Frame> {
    if q == [] then [] else q[0] + Frames(q[1..])
  }

  lemma {:induction false} BytesOfConcat(a: seq<Frame>, b: seq<Frame>)
    ensures Bytes(a + b) == Bytes(a) + Bytes(b)
  {
    if a == [] {
      assert a + b == b;
    } else {
      assert (a + b)[0] == a[0] && (a + b)[1..] == a[1..] + b;
      BytesOfConcat(a[1..], b);
    }
  }

  lemma {:induction false} FramesOfAppend(q: seq<Batch>, b: Batch)
    ensures Frames(q + [b]) == Frames(q) + b
  {
    if q == [] {
      assert q + [b] == [b];
    } else {
      assert (q + [b])[0] == q[0] && (q + [b])[1..] == q[1..] + [b];
      FramesOfAppend(q[1..], b);
    }
  }

  // ---------------------------------------------------------------- the machine

  /** The worker thread: opening the file, about to take the lock and test the wait predicate,
      asleep on the condition variable, writing frame `next` of a batch, or returned. */
  datatype Worker = Starting | Ready | Asleep | Writing(batch: Batch, next: nat) | Exited

  /** The one `shutdown` call that found `stop` unset. */
  datatype Closer = NoCloser | Notifying | Joining | Returned

  datatype State = State(
    batchSize: nat,
    pending: Batch,
    queue: seq<Batch>,
    stop: bool,
    worker: Worker,
    isOpen: bool,
    file: seq<byte>,
    owed: nat,           // enqueue calls past the critical section that have not notified yet
    closer: Closer,
    base: seq<byte>,     // what the file held before it was opened for appending
    log: seq<Frame>,     // every frame enqueued, in lock order
    done: seq<Frame>,    // every frame written, in order
    mark: nat)           // how many of them when the first shutdown took the lock

  datatype Step =
    | Enqueue(frame: Frame)
    | NotifyAfterEnqueue
    | ShutdownLocked
    | ShutdownNotify
    | ShutdownReturn
    | OpenFile(ok: bool)
    | SpuriousWake
    | TakeBatch
    | WriteFrame
    | Flush

  function Initial(batchSize: nat, base: seq<byte>): State {
    State(batchSize, [], [], false, Starting, false, base, 0, NoCloser, base, [], [], 0)
  }

  /** swap_pending_unlocked */
  function Swapped(s: State): State {
    if s.pending != [] then s.(queue := s.queue + [s.pending], pending := []) else s
  }

  function Woken(w: Worker): Worker {
    if w.Asleep? then Ready else w
  }

  predicate Enabled(s: State, step: Step) {
    match step
    case Enqueue(_) => true
    case NotifyAfterEnqueue => s.owed > 0
    case ShutdownLocked => true
    case ShutdownNotify => s.closer.Notifying?
    case ShutdownReturn => s.closer.Joining? && s.worker.Exited?
    case OpenFile(_) => s.worker.Starting?
    case SpuriousWake => s.worker.Asleep?
    case TakeBatch => s.worker.Ready?
    case WriteFrame => s.worker.Writing? && s.worker.next < |s.worker.batch|
    case Flush => s.worker.Writing? && s.worker.next >= |s.worker.batch|
  }

  function Apply(s: State, step: Step): State
    requires Enabled(s, step)
  {
    match step
    case Enqueue(frame) =>
      var t := s.(pending := s.pending + [frame], owed := s.owed + 1, log := s.log + [frame]);
      if |t.pending| >= s.batchSize then Swapped(t) else t
    case NotifyAfterEnqueue => s.(owed := s.owed - 1, worker := Woken(s.worker))
    case ShutdownLocked =>
      if s.stop then s else Swapped(s).(stop := true, closer := Notifying, mark := |s.log|)
    case ShutdownNotify => s.(closer := Joining, worker := Woken(s.worker))
    case ShutdownReturn => s.(closer := Returned)
    case OpenFile(ok) => s.(isOpen := ok, worker := if ok then Ready else Exited)
    case SpuriousWake => s.(worker := Ready)
    case TakeBatch =>
      if s.queue != [] then s.(queue := s.queue[1..], worker := Writing(s.queue[0], 0))
      else if s.stop then s.(worker := Exited)
      else s.(worker := Asleep)
    case WriteFrame =>
      var frame := s.worker.batch[s.worker.next];
      s.(file := s.file + frame, done := s.done + [frame], worker := s.worker.(next := s.worker.next + 1))
    case Flush => s.(worker := Ready)
  }

  // ---------------------------------------------------------------- what every run keeps

  /** The part of the batch in the worker's hands that is not written yet. */
  ghost function InFlight(s: State): seq<Frame> {
    if s.worker.Writing? && s.worker.next <= |s.worker.batch| then s.worker.batch[s.worker.next..] else []
  }

  ghost function Unwritten(s: State): seq<Frame> {
    InFlight(s) + Frames(s.queue) + s.pending
  }

  /** The file is exactly the frames written so far and the rest of the log is exactly what is still in memory. */
  ghost predicate Refines(s: State) {
    && (s.worker.Writing? ==> s.worker.next <= |s.worker.batch|)
    && s.log == s.done + Unwritten(s)
    && s.file == s.base + Bytes(s.done)
  }

  /** A sleeping worker with something to do is about to be notified. */
  ghost predicate NoLostWakeUp(s: State) {
    s.worker.Asleep? && (s.stop || s.queue != []) ==> s.owed > 0 || s.closer.Notifying?
  }

  ghost predicate Orderly(s: State) {
    && (s.stop <==> !s.closer.NoCloser?)
    && (s.worker.Starting? ==> !s.isOpen)
    && (!s.isOpen ==> s.worker.Starting? || s.worker.Exited?)
    && (s.pending == [] || |s.pending| < s.batchSize)
    && (forall k | 0 <= k < |s.queue| :: s.queue[k] != [])
    && (s.stop ==> s.mark <= |s.log| - |s.pending|)
    && (s.isOpen && s.worker.Exited? ==> s.stop && s.mark <= |s.done|)
    && (s.closer.Returned? ==> s.worker.Exited?)
    && (!s.isOpen ==> s.done == [])
  }

  ghost predicate Inv(s: State) {
    Refines(s) && NoLostWakeUp(s) && Orderly(s)
  }

  lemma InitialInv(batchSize: nat, base: seq<byte>)
    ensures Inv(Initial(batchSize, base))
  {}

  /** Moving `pending` to the queue changes no byte of what is to be written. */
  lemma SwapKeepsUnwritten(s: State)
    ensures Unwritten(Swapped(s)) == Unwritten(s)
  {
    FramesOfAppend(s.queue, s.pending);
  }

  lemma SameUnwrittenKeepsRefines(s: State, t: State)
    requires Refines(s) && Unwritten(t) == Unwritten(s)
    requires t.file == s.file && t.base == s.base && t.log == s.log && t.done == s.done
    requires t.worker.Writing? ==> t.worker.next <= |t.worker.batch|
    ensures Refines(t)
  {}

  lemma OneMorePending(s: State, t: State, frame: Frame)
    requires t.queue == s.queue && t.worker == s.worker && t.pending == s.pending + [frame]
    ensures Unwritten(t) == Unwritten(s) + [frame]
  {
    hide Frames;
    assert InFlight(t) == InFlight(s);
  }

  lemma EnqueueKeepsRefines(s: State, frame: Frame)
    requires Refines(s)
    ensures Refines(Apply(s, Enqueue(frame)))
  {
    var t := s.(pending := s.pending + [frame], owed := s.owed + 1, log := s.log + [frame]);
    OneMorePending(s, t, frame);
    SwapKeepsUnwritten(t);
    hide Frames, InFlight, Bytes, Unwritten;
    assert (s.done + Unwritten(s)) + [frame] == s.done + (Unwritten(s) + [frame]);
  }

  lemma OneMoreFrameKeepsRefines(s: State, t: State, frame: Frame)
    requires Refines(s) && Unwritten(s) == [frame] + Unwritten(t)
    requires t.file == s.file + frame && t.done == s.done + [frame]
    requires t.base == s.base && t.log == s.log
    requires t.worker.Writing? ==> t.worker.next <= |t.worker.batch|
    ensures Refines(t)
  {
    hide Unwritten;
    assert s.done + ([frame] + Unwritten(t)) == (s.done + [frame]) + Unwritten(t);
    BytesOfConcat(s.done, [frame]);
    assert Bytes([frame]) == frame + Bytes([]);
    assert s.base + (Bytes(s.done) + frame) == (s.base + Bytes(s.done)) + frame;
  }

  lemma WriteKeepsRefines(s: State)
    requires Refines(s) && Enabled(s, WriteFrame)
    ensures Refines(Apply(s, WriteFrame))
  {
    var t, frame := Apply(s, WriteFrame), s.worker.batch[s.worker.next];
    assert InFlight(s) == [frame] + InFlight(t);
    OneMoreFrameKeepsRefines(s, t, frame);
  }

  lemma StepKeepsRefines(s: State, step: Step)
    requires Enabled(s, step) && Refines(s)
    ensures Refines(Apply(s, step))
  {
    match step
    case Enqueue(frame) => EnqueueKeepsRefines(s, frame);
    case WriteFrame => WriteKeepsRefines(s);
    case _ =>
      OthersKeepUnwritten(s, step);
      hide Unwritten, Bytes;
      SameUnwrittenKeepsRefines(s, Apply(s, step));
  }

  lemma OthersKeepUnwritten(s: State, step: Step)
    requires Enabled(s, step) && Refines(s) && !step.Enqueue? && !step.WriteFrame?
    ensures Unwritten(Apply(s, step)) == Unwritten(s)
  {
    hide Bytes, Frames, Unwritten, Refines;
    if step.ShutdownLocked? {
      SwapKeepsUnwritten(s);
      if !s.stop { SameMemory(Swapped(s), Apply(s, step)); }
    } else if step.TakeBatch? {
      TakeKeepsUnwritten(s);
    } else {
      SameMemory(s, Apply(s, step));
    }
  }

  lemma SameMemory(s: State, t: State)
    requires s.queue == t.queue && s.pending == t.pending && InFlight(s) == InFlight(t)
    ensures Unwritten(s) == Unwritten(t)
  {}

  lemma TakeKeepsUnwritten(s: State)
    requires Enabled(s, TakeBatch)
    ensures Unwritten(Apply(s, TakeBatch)) == Unwritten(s)
  {
    if s.queue != [] {
      assert InFlight(s) == [] && InFlight(Apply(s, TakeBatch)) == s.queue[0];
      assert [] + Frames(s.queue) == s.queue[0] + Frames(s.queue[1..]);
    }
  }

  lemma StepKeepsOrderly(s: State, step: Step)
    requires Enabled(s, step) && Orderly(s)
    requires |s.log| == |s.done| + |Unwritten(s)|
    ensures Orderly(Apply(s, step))
  {
    match step
    case Enqueue(_) =>
    case ShutdownLocked =>
    case TakeBatch =>
    case WriteFrame => hide Unwritten;
    case _ => hide Unwritten;
  }

  lemma StepKeepsInv(s: State, step: Step)
    requires Enabled(s, step) && Inv(s)
    ensures Inv(Apply(s, step))
  {
    StepKeepsRefines(s, step);
    StepKeepsOrderly(s, step);
    hide Refines, Orderly, Unwritten, Bytes, Frames;
    StepKeepsWakeUp(s, step);
    hide NoLostWakeUp;
  }

  lemma StepKeepsWakeUp(s: State, step: Step)
    requires Enabled(s, step) && NoLostWakeUp(s)
    ensures NoLostWakeUp(Apply(s, step))
  {}

  // ---------------------------------------------------------------- runs

  /** Any interleaving: the states a sequence of enabled steps goes through. */
  ghost predicate IsRun(ss: seq<State>, steps: seq<Step>) {
    && |ss| == |steps| + 1
    && forall k | 0 <= k < |steps| :: Enabled(ss[k], steps[k]) && ss[k + 1] == Apply(ss[k], steps[k])
  }

  lemma {:induction false} RunKeepsInv(ss: seq<State>, steps: seq<Step>, k: nat)
    requires IsRun(ss, steps) && Inv(ss[0]) && k < |ss|
    ensures Inv(ss[k])
  {
    if k > 0 {
      RunKeepsInv(ss, steps, k - 1);
      StepKeepsInv(ss[k - 1], steps[k - 1]);
    }
  }

  /** Before shutdown, batches leave producers exactly when they are full, and no fuller. */
  ghost predicate FullBatches(s: State) {
    var full := if s.batchSize > 0 then s.batchSize else 1;
    !s.stop ==>
      && |s.pending| < full
      && (forall k | 0 <= k < |s.queue| :: |s.queue[k]| == full)
      && (s.worker.Writing? ==> |s.worker.batch| == full)
  }

  lemma StepKeepsFull(s: State, step: Step)
    requires Enabled(s, step) && FullBatches(s)
    ensures FullBatches(Apply(s, step))
  {}

  lemma {:induction false} BatchesAreFull(ss: seq<State>, steps: seq<Step>, batchSize: nat, base: seq<byte>, k: nat)
    requires IsRun(ss, steps) && ss[0] == Initial(batchSize, base) && k < |ss|
    ensures FullBatches(ss[k])
  {
    hide FullBatches, Apply;
    if k > 0 {
      BatchesAreFull(ss, steps, batchSize, base, k - 1);
      StepKeepsFull(ss[k - 1], steps[k - 1]);
    } else {
      NothingYet(batchSize, base);
    }
  }

  lemma NothingYet(batchSize: nat, base: seq<byte>)
    ensures FullBatches(Initial(batchSize, base))
  {}

  /** Calls of enqueue among the first k steps that have left the critical section and not notified yet. */
  ghost function Unnotified(steps: seq<Step>, k: nat): int
    requires k <= |steps|
  {
    if k == 0 then 0
    else Unnotified(steps, k - 1) + if steps[k - 1].Enqueue? then 1 else if steps[k - 1].NotifyAfterEnqueue? then -1 else 0
  }

  /** Each call of enqueue notifies once. */
  lemma {:induction false} OwedNotifications(ss: seq<State>, steps: seq<Step>, batchSize: nat, base: seq<byte>, k: nat)
    requires IsRun(ss, steps) && ss[0] == Initial(batchSize, base) && k < |ss|
    ensures ss[k].owed == Unnotified(steps, k)
  {
    if k > 0 { OwedNotifications(ss, steps, batchSize, base, k - 1); }
  }

  lemma {:induction false} RunKeepsHistory(ss: seq<State>, steps: seq<Step>, m: nat, k: nat)
    requires IsRun(ss, steps) && m <= k < |ss|
    ensures ss[m].log <= ss[k].log && ss[m].base == ss[k].base
    ensures ss[m].stop ==> ss[k].stop && ss[k].mark == ss[m].mark
  {
    if m < k {
      RunKeepsHistory(ss, steps, m, k - 1);
    }
  }

  lemma BytesOfPrefix(a: seq<Frame>, b: seq<Frame>)
    requires a <= b
    ensures Bytes(a) <= Bytes(b)
  {
    BytesOfConcat(a, b[|a|..]);
    assert a + b[|a|..] == b;
  }

  lemma RefinesInBytes(s: State)
    requires Refines(s)
    ensures s.file + Bytes(InFlight(s)) + Bytes(Frames(s.queue)) + Bytes(s.pending) == s.base + Bytes(s.log)
  {
    var b, f, q, p := Bytes(s.done), Bytes(InFlight(s)), Bytes(Frames(s.queue)), Bytes(s.pending);
    BytesOfConcat(s.done, Unwritten(s));
    BytesOfConcat(InFlight(s) + Frames(s.queue), s.pending);
    BytesOfConcat(InFlight(s), Frames(s.queue));
    assert Bytes(s.log) == b + ((f + q) + p) && s.file == s.base + b;
    Regroup(s.base, b, f, q, p);
  }

  lemma Regroup(a: seq<byte>, b: seq<byte>, f: seq<byte>, q: seq<byte>, p: seq<byte>)
    ensures a + (b + ((f + q) + p)) == a + b + f + q + p
  {}

  /** In every interleaving the bytes in the file followed by the bytes still in memory (the batch being
      written, the queued batches, the pending frames) are the old file followed by all frames in lock order. */
  lemma EveryRunRefinesAppend(batchSize: nat, base: seq<byte>, ss: seq<State>, steps: seq<Step>, k: nat)
    requires IsRun(ss, steps) && ss[0] == Initial(batchSize, base) && k < |ss|
    ensures ss[k].file + Bytes(InFlight(ss[k])) + Bytes(Frames(ss[k].queue)) + Bytes(ss[k].pending) == base + Bytes(ss[k].log)
    ensures ss[k].pending == [] || |ss[k].pending| < batchSize
  {
    InitialInv(batchSize, base);
    RunKeepsInv(ss, steps, k);
    RunKeepsHistory(ss, steps, 0, k);
    RunKeepsBatchSize(ss, steps, k);
    RefinesInBytes(ss[k]);
    hide Bytes;
    hide Frames;
  }

  lemma {:induction false} RunKeepsBatchSize(ss: seq<State>, steps: seq<Step>, k: nat)
    requires IsRun(ss, steps) && k < |ss|
    ensures ss[k].batchSize == ss[0].batchSize
  {
    if k > 0 { RunKeepsBatchSize(ss, steps, k - 1); }
  }

  /** When the shutdown that took the lock at step `m` has returned, the file holds every frame enqueued
      before it took the lock: always if the file could be opened, and otherwise only if there was nothing to write. */
  lemma ShutdownFlushes(batchSize: nat, base: seq<byte>, ss: seq<State>, steps: seq<Step>, m: nat, k: nat)
    requires IsRun(ss, steps) && ss[0] == Initial(batchSize, base) && m < k < |ss|
    requires steps[m] == ShutdownLocked && !ss[m].stop
    requires ss[k].closer.Returned?
    ensures base + Bytes(ss[m].log) <= ss[k].file <==> ss[k].isOpen || Bytes(ss[m].log) == []
  {
    RunKeepsInv(ss, steps, k);
    RunKeepsHistory(ss, steps, 0, k);
    RunKeepsHistory(ss, steps, m, k);
    RunKeepsHistory(ss, steps, m + 1, k);
    var s := ss[k];
    assert s.mark == |ss[m].log|;
    if s.isOpen {
      assert ss[m].log <= s.done;
      BytesOfPrefix(ss[m].log, s.done);
    } else {
      assert Bytes(s.done) == [];
    }
  }

  // ---------------------------------------------------------------- draining

  /** Every step but a further enqueue or a further call of shutdown. */
  predicate Internal(step: Step) {
    !step.Enqueue? && !step.ShutdownLocked?
  }

  ghost function QueueWork(q: seq<Batch>): nat {
    if q == [] then 0 else |q[0]| + 3 + QueueWork(q[1..])
  }

  ghost function WorkerWork(w: Worker): nat {
    match w
    case Starting => 2
    case Ready => 1
    case Asleep => 2
    case Writing(b, k) => (if k < |b| then |b| - k else 0) + 2
    case Exited => 0
  }

  ghost function CloserWork(c: Closer): nat {
    match c case NoCloser => 3 case Notifying => 2 case Joining => 1 case Returned => 0
  }

  ghost function Work(s: State): nat {
    s.owed + CloserWork(s.closer) + QueueWork(s.queue) + WorkerWork(s.worker)
  }

  lemma InternalStepsDrain(s: State, step: Step)
    requires Enabled(s, step) && s.stop && Internal(step)
    ensures Work(Apply(s, step)) < Work(s) && Apply(s, step).stop
  {}

  /** Once shutdown has begun, somebody can always move without relying on spurious wake-ups, until all are done. */
  lemma NobodyIsStuck(s: State)
    requires Inv(s) && s.stop
    requires forall step | Enabled(s, step) && Internal(step) :: step.SpuriousWake?
    ensures s.worker.Exited? && s.closer.Returned? && s.owed == 0
  {
    assert !Enabled(s, NotifyAfterEnqueue);
    assert !Enabled(s, ShutdownNotify) && !Enabled(s, ShutdownReturn);
    assert !Enabled(s, OpenFile(true)) && !Enabled(s, TakeBatch);
    assert !Enabled(s, WriteFrame) && !Enabled(s, Flush);
  }

  lemma {:induction false} RunDrains(ss: seq<State>, steps: seq<Step>, k: nat)
    requires IsRun(ss, steps) && ss[0].stop && k < |ss|
    requires forall i | 0 <= i < |steps| :: Internal(steps[i])
    ensures k + Work(ss[k]) <= Work(ss[0]) && ss[k].stop
  {
    if k > 0 {
      RunDrains(ss, steps, k - 1);
      InternalStepsDrain(ss[k - 1], steps[k - 1]);
    }
  }

  /** After shutdown has taken the lock the threads take at most `Work` further steps, and when they can take no
      more the worker has exited, shutdown has returned and the file holds all that was enqueued before. */
  lemma ShutdownTerminates(ss: seq<State>, steps: seq<Step>)
    requires IsRun(ss, steps) && Inv(ss[0]) && ss[0].stop
    requires forall k | 0 <= k < |steps| :: Internal(steps[k])
    ensures |steps| <= Work(ss[0])
    ensures var s := ss[|steps|];
            (forall step | Enabled(s, step) && Internal(step) :: step.SpuriousWake?) ==>
              && s.worker.Exited? && s.closer.Returned? && s.owed == 0
              && (s.isOpen ==> s.mark <= |s.log| && s.base + Bytes(s.log[..s.mark]) <= s.file)
  {
    RunKeepsInv(ss, steps, |steps|);
    RunDrains(ss, steps, |steps|);
    var s := ss[|steps|];
    if forall step | Enabled(s, step) && Internal(step) :: step.SpuriousWake? {
      NobodyIsStuck(s);
      if s.isOpen {
        assert s.log[..s.mark] <= s.done;
        BytesOfPrefix(s.log[..s.mark], s.done);
      }
    }
  }

  /** Only the first shutdown waits. A second one finds `stop` set and returns at once, possibly
      with everything still in memory. */
  lemma SecondShutdownDoesNotWait(base: seq<byte>, frame: Frame) returns (ss: seq<State>, steps: seq<Step>)
    requires frame != []
    ensures IsRun(ss, steps) && ss[0] == Initial(20, base)
    ensures |steps| == 4 && steps[2] == ShutdownLocked && steps[3] == ShutdownLocked
    ensures ss[4] == ss[3] && ss[4].isOpen
    ensures ss[4].log == [frame] && ss[4].file == base
  {
    steps := [OpenFile(true), Enqueue(frame), ShutdownLocked, ShutdownLocked];
    var s0 := Initial(20, base);
    var s1 := Apply(s0, steps[0]);
    var s2 := Apply(s1, steps[1]);
    var s3 := Apply(s2, steps[2]);
    ss := [s0, s1, s2, s3, Apply(s3, steps[3])];
  }

  lemma ReachableInv(batchSize: nat, base: seq<byte>, ss: seq<State>, steps: seq<Step>, k: nat)
    requires IsRun(ss, steps) && ss[0] == Initial(batchSize, base) && k < |ss|
    ensures Inv(ss[k]) && ss[k].base == base
  {
    InitialInv(batchSize, base);
    RunKeepsInv(ss, steps, k);
    RunKeepsHistory(ss, steps, 0, k);
  }

  /** In every run, a shutdown that finds `stop` set changes nothing and returns at once; the file then holds every frame
      enqueued so far exactly if what is still in memory has no bytes. */
  lemma LateShutdownFlushes(batchSize: nat, base: seq<byte>, ss: seq<State>, steps: seq<Step>, m: nat)
    requires IsRun(ss, steps) && ss[0] == Initial(batchSize, base) && m < |steps|
    requires steps[m] == ShutdownLocked && ss[m].stop
    ensures ss[m + 1] == ss[m]
    ensures base + Bytes(ss[m].log) <= ss[m + 1].file <==> Bytes(Unwritten(ss[m])) == []
  {
    ReachableInv(batchSize, base, ss, steps, m);
    SecondShutdownChangesNothing(ss, steps, m);
    hide IsRun, Inv, NoLostWakeUp, Orderly, Unwritten, Bytes;
    FileHoldsLog(ss[m]);
  }

  lemma SecondShutdownChangesNothing(ss: seq<State>, steps: seq<Step>, m: nat)
    requires IsRun(ss, steps) && m < |steps| && steps[m] == ShutdownLocked && ss[m].stop
    ensures ss[m + 1] == ss[m]
  {
    assert ss[m + 1] == Apply(ss[m], steps[m]);
  }

  /** The file holds the whole log exactly if nothing is left to write but empty frames. */
  lemma FileHoldsLog(s: State)
    requires Refines(s)
    ensures s.base + Bytes(s.log) <= s.file <==> Bytes(Unwritten(s)) == []
  {
    BytesOfConcat(s.done, Unwritten(s));
    hide Bytes, Unwritten;
    PrefixOfItself(s.base + Bytes(s.done), Bytes(Unwritten(s)));
    assert s.base + (Bytes(s.done) + Bytes(Unwritten(s))) == s.file + Bytes(Unwritten(s));
  }

  lemma PrefixOfItself<T>(a: seq<T>, b: seq<T>)
    ensures a + b <= a <==> b == []
  {
    if b == [] { assert a + b == a; }
  }

  /** Between two steps without an enqueue no frame is added. */
  lemma {:induction false} QuietRunKeepsLog(ss: seq<State>, steps: seq<Step>, j: nat, m: nat)
    requires IsRun(ss, steps) && j <= m < |ss|
    requires forall k | j <= k < m :: !steps[k].Enqueue?
    ensures ss[m].log == ss[j].log
  {
    if j < m { QuietRunKeepsLog(ss, steps, j, m - 1); }
  }

  /** An early return is safe if the file could be opened, the first shutdown has returned, and nothing was enqueued after
      that one took the lock. */
  lemma LateShutdownIsSafe(batchSize: nat, base: seq<byte>, ss: seq<State>, steps: seq<Step>, j: nat, m: nat)
    requires IsRun(ss, steps) && ss[0] == Initial(batchSize, base) && j < m < |steps|
    requires steps[j] == ShutdownLocked && !ss[j].stop && steps[m] == ShutdownLocked
    requires ss[m].isOpen && ss[m].closer.Returned?
    requires forall k | j < k < m :: !steps[k].Enqueue?
    ensures base + Bytes(ss[m].log) <= ss[m + 1].file
  {
    ReachableInv(batchSize, base, ss, steps, m);
    RunKeepsHistory(ss, steps, j + 1, m);
    QuietRunKeepsLog(ss, steps, j + 1, m);
    LateShutdownFlushes(batchSize, base, ss, steps, m);
    assert |ss[m].log| == ss[m].mark <= |ss[m].done|;
  }

  // ---------------------------------------------------------------- the code

  /** The writer object. `at` is the machine state the fields are part of; each method is one
      critical section, or one stretch of worker code that runs without the lock. */
  class Writer {
    const batchSize: nat
    var pending: Batch
    var writeQueue: seq<Batch>
    var stop: bool
    var out: seq<byte>
    ghost var at: State

    ghost predicate Valid()
      reads this
    {
      && at.batchSize == batchSize && at.pending == pending && at.queue == writeQueue
      && at.stop == stop && at.file == out
      && Inv(at)
    }

    constructor (batchSize: nat, existing: seq<byte>)
      ensures Valid() && at == Initial(batchSize, existing)
    {
      this.batchSize := batchSize;
      pending, writeQueue, stop, out := [], [], false, existing;
      at := Initial(batchSize, existing);
    }

    /** Callers hold the lock. */
    method SwapPendingUnlocked()
      modifies this`pending, this`writeQueue
      ensures writeQueue == old(writeQueue) + (if old(pending) == [] then [] else [old(pending)])
      ensures pending == []
    {
      if pending != [] {
        writeQueue := writeQueue + [pending];
        pending := [];
      }
    }

    /** The locked part of enqueue; the notification follows after the lock is released. */
    method EnqueueLocked(frame: Frame)
      requires Valid()
      modifies this
      ensures Valid() && at == Apply(old(at), Enqueue(frame))
    {
      StepKeepsInv(at, Enqueue(frame));
      hide Inv;
      pending := pending + [frame];
      if |pending| >= batchSize {
        SwapPendingUnlocked();
      }
      at := Apply(at, Enqueue(frame));
    }

    /** The locked part of shutdown; `early` says that it returns without waiting. */
    method ShutdownLocked() returns (early: bool)
      requires Valid()
      modifies this
      ensures Valid() && at == Apply(old(at), Step.ShutdownLocked) && stop
      ensures early == old(stop)
    {
      StepKeepsInv(at, Step.ShutdownLocked);
      hide Inv;
      early := stop;
      at := Apply(at, Step.ShutdownLocked);
      if stop { return; }
      if pending != [] {
        SwapPendingUnlocked();
      }
      stop := true;
    }

    /** The locked block of the worker loop: `leave` breaks out of the loop, and with neither
        `leave` nor a batch the thread stays in the wait. */
    method TakeBatch() returns (batch: Batch, leave: bool)
      requires Valid() && at.worker.Ready?
      modifies this
      ensures Valid() && at == Apply(old(at), Step.TakeBatch)
      ensures leave == at.worker.Exited?
      ensures at.worker.Writing? ==> at.worker == Writing(batch, 0)
    {
      StepKeepsInv(at, Step.TakeBatch);
      hide Inv;
      batch, leave := [], false;
      at := Apply(at, Step.TakeBatch);
      if writeQueue != [] {
        batch := writeQueue[0];
        writeQueue := writeQueue[1..];
      } else if stop {
        leave := true;
      }
    }

    /** Writing a batch frame by frame and flushing it: the file grows by exactly the batch. */
    method WriteBatch(batch: Batch)
      requires Valid() && at.worker == Writing(batch, 0)
      modifies this`out, this`at
      ensures Valid() && out == old(out) + Bytes(batch)
      ensures at == old(at).(file := out, done := old(at).done + batch, worker := Ready)
    {
      hide Inv;
      ghost var s := at;
      assert s.done + batch[..0] == s.done;
      for k := 0 to |batch|
        invariant Valid() && out == s.file + Bytes(batch[..k])
        invariant at == s.(file := out, done := s.done + batch[..k], worker := Writing(batch, k))
      {
        StepKeepsInv(at, WriteFrame);
        OneMoreFrame(s.file, s.done, batch, k);
        at := Apply(at, WriteFrame);
        if batch[k] != [] {
          out := out + batch[k];
        }
      }
      assert batch[..|batch|] == batch;
      StepKeepsInv(at, Flush);
      at := Apply(at, Flush);
    }
  }

  lemma OneMoreFrame(file: seq<byte>, done: seq<Frame>, batch: Batch, k: nat)
    requires k < |batch|
    ensures (file + Bytes(batch[..k])) + batch[k] == file + Bytes(batch[..k + 1])
    ensures (done + batch[..k]) + [batch[k]] == done + batch[..k + 1]
  {
    assert batch[..k + 1] == batch[..k] + [batch[k]];
    BytesOfConcat(batch[..k], [batch[k]]);
    assert Bytes([batch[k]]) == batch[k] + Bytes([]);
  }
}
