/**
 The colouring stage of the lidar driver keeps one queue of camera frames and one
 queue of point clouds and pairs their heads greedily: two heads at most 50 ms
 apart are handed on together, otherwise the older head is thrown away.

 `Run` is the reference form of one call. The lemmas show that on time-ordered
 queues the greedy rule is an optimal matching algorithm, and that calling it
 again and again while frames arrive gives the same pairs as one call at the end.
 */
module Pairing {

  const MAX_TIME_DIFF: int := 50_000_000
  const QUEUE_LIMIT: nat := 10
  const TWO_31: int := 0x8000_0000
  const TWO_32: int := 0x1_0000_0000
  const TWO_63: int := 0x8000_0000_0000_0000
  const TWO_64: int := 0x1_0000_0000_0000_0000

  type int32 = x: int | -TWO_31 <= x < TWO_31
  type uint32 = x: int | 0 <= x < TWO_32

  /** A stamped message; `payload` stands for the image or the cloud. */
  datatype Frame = Frame(sec: int32, nanosec: uint32, payload: int)

  // ---------------------------------------------------------------- time stamps

  /** The instant a stamp denotes. */
  function Time(f: Frame): int {
    f.sec * 1_000_000_000 + f.nanosec
  }

  /** The driver's own conversion, with the wrap-around of 64-bit unsigned arithmetic. */
  function RosTimeToNs(f: Frame): int {
    ((f.sec % TWO_64) * 1_000_000_000 + f.nanosec) % TWO_64
  }

  /** static_cast<int64_t> of a 64-bit unsigned value, or of an overflowing difference. */
  function ToInt64(u: int): int {
    var w := u % TWO_64;
    if w < TWO_63 then w else w - TWO_64
  }

  lemma ModIs(x: int, m: int, q: int)
    requires m > 0 && 0 <= x - q * m < m
    ensures x % m == x - q * m
  {
    var d := x / m - q;
    assert x % m == x - q * m - d * m;
    assert d == 0;
  }

  lemma ToInt64Is(u: int, v: int, q: int)
    requires u == v + q * TWO_64 && -TWO_63 <= v < TWO_63
    ensures ToInt64(u) == v
  {
    if v < 0 { ModIs(u, TWO_64, q - 1); } else { ModIs(u, TWO_64, q); }
  }

  lemma StampIsExact(f: Frame)
    ensures ToInt64(RosTimeToNs(f)) == Time(f)
  {
    var wrapped := (f.sec % TWO_64) * 1_000_000_000 + f.nanosec;
    var k := if f.sec < 0 then 1_000_000_000 else 0;
    assert wrapped == Time(f) + k * TWO_64 by {
      ModIs(f.sec, TWO_64, if f.sec < 0 then -1 else 0);
    }
    if Time(f) < 0 {
      ModIs(wrapped, TWO_64, k - 1);
      ToInt64Is(RosTimeToNs(f), Time(f), 1);
    } else {
      ModIs(wrapped, TWO_64, k);
      ToInt64Is(RosTimeToNs(f), Time(f), 0);
    }
  }

  /** The signed difference the loop branches on: the detour through unsigned 64-bit values is
      exact for every stamp a message can carry, negative seconds included. */
  method TimeDiff(r: Frame, p: Frame) returns (timeDiff: int)
    ensures timeDiff == Time(r) - Time(p)
  {
    StampIsExact(r);
    StampIsExact(p);
    var rgbStamp, pcdStamp := RosTimeToNs(r), RosTimeToNs(p);
    timeDiff := ToInt64(ToInt64(rgbStamp) - ToInt64(pcdStamp));
    ToInt64Is(Time(r) - Time(p), Time(r) - Time(p), 0);
  }

  // ---------------------------------------------------------------- the greedy rule

  /** At most 50 ms apart. */
  predicate Close(r: Frame, p: Frame) {
    -MAX_TIME_DIFF <= Time(r) - Time(p) <= MAX_TIME_DIFF
  }

  /** How far one stamp is behind another, in nanoseconds. */
  function Apart(r: Frame, p: Frame): int {
    (r.sec - p.sec) * 1_000_000_000 + (r.nanosec - p.nanosec)
  }

  lemma CloseInTime(r: Frame, p: Frame)
    ensures Close(r, p) <==> -50_000_000 <= Apart(r, p) <= 50_000_000
  {}

  ghost predicate Sorted(s: seq<Frame>) {
    forall x, y :: 0 <= x < y < |s| ==> Time(s[x]) <= Time(s[y])
  }

  /** Positions in the two streams. */
  datatype Pair = Pair(r: int, p: int)

  /** Positions paired by a call, and how many elements of each queue it consumed. */
  datatype Outcome = Outcome(pairs: seq<Pair>, i: nat, j: nat)

  /** The greedy rule on `rgb[i..]` and `pcd[j..]`, with positions in the whole sequences. */
  function Run(rgb: seq<Frame>, pcd: seq<Frame>, i: nat, j: nat): (o: Outcome)
    requires i <= |rgb| && j <= |pcd|
    ensures i <= o.i <= |rgb| && j <= o.j <= |pcd|
    ensures o.i == |rgb| || o.j == |pcd|
    decreases |rgb| - i + |pcd| - j
  {
    if i == |rgb| || j == |pcd| then Outcome([], i, j)
    else if Close(rgb[i], pcd[j]) then
      var o := Run(rgb, pcd, i + 1, j + 1);
      o.(pairs := [Pair(i, j)] + o.pairs)
    else if Time(rgb[i]) > Time(pcd[j]) then Run(rgb, pcd, i, j + 1)
    else Run(rgb, pcd, i + 1, j)
  }

  /** The run from (i, j) first makes the pairs `done` and then continues like the run from (i', j'). */
  ghost predicate SplitAt(rgb: seq<Frame>, pcd: seq<Frame>, i: nat, j: nat, i': nat, j': nat, done: seq<Pair>)
    requires i <= |rgb| && j <= |pcd| && i' <= |rgb| && j' <= |pcd|
  {
    var rest := Run(rgb, pcd, i', j');
    Run(rgb, pcd, i, j) == Outcome(done + rest.pairs, rest.i, rest.j)
  }

  // ---------------------------------------------------------------- matchings

  /** Any way of giving each frame at most one partner within the window, from camera to cloud positions. */
  ghost predicate IsMatching(m: map<int, int>, rgb: seq<Frame>, pcd: seq<Frame>, i: nat, j: nat) {
    && (forall x <- m :: i <= x < |rgb| && j <= m[x] < |pcd| && Close(rgb[x], pcd[m[x]]))
    && (forall x, y | x in m && y in m && m[x] == m[y] :: x == y)
  }

  /** In order in both queues at once, and within the window. */
  ghost predicate InOrder(ps: seq<Pair>, rgb: seq<Frame>, pcd: seq<Frame>, i: nat, j: nat) {
    && (forall x | 0 <= x < |ps| :: i <= ps[x].r < |rgb| && j <= ps[x].p < |pcd| && Close(rgb[ps[x].r], pcd[ps[x].p]))
    && (forall x, y | 0 <= x < y < |ps| :: ps[x].r < ps[y].r && ps[x].p < ps[y].p)
  }

  ghost predicate Within(ps: seq<Pair>, i: nat, j: nat) {
    forall x | 0 <= x < |ps| :: 0 <= ps[x].r < i && 0 <= ps[x].p < j
  }

  /** The partner of each camera frame in a sequence of pairs. */
  ghost function Partners(ps: seq<Pair>): map<int, int> {
    if ps == [] then map[] else Partners(ps[..|ps| - 1])[ps[|ps| - 1].r := ps[|ps| - 1].p]
  }

  /** Whatever the queues hold, a call emits an order-preserving matching of what it consumed. */
  lemma {:induction false} RunIsInOrder(rgb: seq<Frame>, pcd: seq<Frame>, i: nat, j: nat)
    requires i <= |rgb| && j <= |pcd|
    ensures var o := Run(rgb, pcd, i, j);
            InOrder(o.pairs, rgb, pcd, i, j) && Within(o.pairs, o.i, o.j)
    decreases |rgb| - i + |pcd| - j
  {
    hide Close, Time;
    if i < |rgb| && j < |pcd| {
      if Close(rgb[i], pcd[j]) {
        RunIsInOrder(rgb, pcd, i + 1, j + 1);
      } else if Time(rgb[i]) > Time(pcd[j]) {
        RunIsInOrder(rgb, pcd, i, j + 1);
      } else {
        RunIsInOrder(rgb, pcd, i + 1, j);
      }
    }
  }

  /** Such a sequence is a matching, of as many pairs. */
  lemma FrontInOrder(ps: seq<Pair>, rgb: seq<Frame>, pcd: seq<Frame>, i: nat, j: nat)
    requires InOrder(ps, rgb, pcd, i, j) && ps != []
    ensures InOrder(ps[..|ps| - 1], rgb, pcd, i, j)
  {
    hide Close;
  }

  ghost predicate ArePartners(ps: seq<Pair>, m: map<int, int>) {
    |m| == |ps| && forall x <- m :: exists k :: 0 <= k < |ps| && ps[k] == Pair(x, m[x])
  }

  /** The last pair shares no frame with those before it. */
  lemma LastIsNew(ps: seq<Pair>, m: map<int, int>, rgb: seq<Frame>, pcd: seq<Frame>, i: nat, j: nat, x: int)
    requires InOrder(ps, rgb, pcd, i, j) && ps != [] && ArePartners(ps[..|ps| - 1], m) && x in m
    ensures x != ps[|ps| - 1].r && m[x] != ps[|ps| - 1].p
    ensures exists k :: 0 <= k < |ps| && ps[k] == Pair(x, m[x])
  {
    hide Close;
    var n := |ps| - 1;
    var k :| 0 <= k < n && ps[..n][k] == Pair(x, m[x]);
    assert ps[k] == Pair(x, m[x]);
  }

  lemma OneMorePartner(ps: seq<Pair>, m: map<int, int>, rgb: seq<Frame>, pcd: seq<Frame>, i: nat, j: nat)
    requires InOrder(ps, rgb, pcd, i, j) && ps != []
    requires IsMatching(m, rgb, pcd, i, j) && ArePartners(ps[..|ps| - 1], m)
    ensures var n := |ps| - 1;
            IsMatching(m[ps[n].r := ps[n].p], rgb, pcd, i, j) && ArePartners(ps, m[ps[n].r := ps[n].p])
  {
    var n := |ps| - 1;
    assert |m| == n;
    forall x <- m
      ensures x != ps[n].r && m[x] != ps[n].p && exists k :: 0 <= k < |ps| && ps[k] == Pair(x, m[x])
    {
      LastIsNew(ps, m, rgb, pcd, i, j, x);
    }
    var q := ps[n];
    assert i <= q.r < |rgb| && j <= q.p < |pcd| && Close(rgb[q.r], pcd[q.p]);
    hide InOrder, Close;
    OneMoreMatched(m, rgb, pcd, i, j, q);
    PartnersGrow(ps, m, q);
  }

  lemma OneMoreMatched(m: map<int, int>, rgb: seq<Frame>, pcd: seq<Frame>, i: nat, j: nat, q: Pair)
    requires IsMatching(m, rgb, pcd, i, j) && i <= q.r < |rgb| && j <= q.p < |pcd| && Close(rgb[q.r], pcd[q.p])
    requires forall x <- m :: x != q.r && m[x] != q.p
    ensures IsMatching(m[q.r := q.p], rgb, pcd, i, j)
  {
    hide Close;
  }

  lemma PartnersGrow(ps: seq<Pair>, m: map<int, int>, q: Pair)
    requires ps != [] && q == ps[|ps| - 1] && |m| == |ps| - 1
    requires forall x <- m :: x != q.r && exists k :: 0 <= k < |ps| && ps[k] == Pair(x, m[x])
    ensures ArePartners(ps, m[q.r := q.p])
  {
    var more := m[q.r := q.p];
    assert more.Keys == m.Keys + {q.r} && q.r !in m.Keys;
    assert |more| == |more.Keys| && |m| == |m.Keys|;
    forall x <- more
      ensures exists k :: 0 <= k < |ps| && ps[k] == Pair(x, more[x])
    {
      if x == q.r { assert ps[|ps| - 1] == Pair(x, more[x]); }
    }
  }

  lemma {:induction false} InOrderIsMatching(ps: seq<Pair>, rgb: seq<Frame>, pcd: seq<Frame>, i: nat, j: nat)
    requires InOrder(ps, rgb, pcd, i, j)
    ensures IsMatching(Partners(ps), rgb, pcd, i, j) && |Partners(ps)| == |ps|
    ensures forall x <- Partners(ps) :: exists k :: 0 <= k < |ps| && ps[k] == Pair(x, Partners(ps)[x])
  {
    if |ps| > 0 {
      var last := |ps| - 1;
      FrontInOrder(ps, rgb, pcd, i, j);
      InOrderIsMatching(ps[..last], rgb, pcd, i, j);
      OneMorePartner(ps, Partners(ps[..last]), rgb, pcd, i, j);
    }
  }

  /** Taking the two heads out of a matching costs at most one pair, because partners they leave behind are themselves close. */
  lemma ExchangeHeads(m: map<int, int>, rgb: seq<Frame>, pcd: seq<Frame>, i: nat, j: nat) returns (n: map<int, int>)
    requires i < |rgb| && j < |pcd| && Sorted(rgb) && Sorted(pcd)
    requires IsMatching(m, rgb, pcd, i, j) && Close(rgb[i], pcd[j])
    ensures IsMatching(n, rgb, pcd, i + 1, j + 1) && |m| <= |n| + 1
  {
    if x :| x in m && m[x] == j {
      if i in m && x != i {
        assert Time(rgb[i]) <= Time(rgb[x]) && Time(pcd[j]) <= Time(pcd[m[i]]);
        n := (m - {i})[x := m[i]];
        assert n.Keys == m.Keys - {i};
      } else {
        n := m - {x};
        assert n.Keys == m.Keys - {x};
      }
    } else {
      n := m - {i};
      assert n.Keys == m.Keys - {i};
    }
  }

  lemma NothingToMatch(m: map<int, int>, rgb: seq<Frame>, pcd: seq<Frame>, i: nat, j: nat)
    requires i == |rgb| || j == |pcd|
    requires IsMatching(m, rgb, pcd, i, j)
    ensures |m| == 0
  {
    assert forall x :: x !in m;
  }

  /** Greedy pairing is optimal: no matching of the two queues, in any order, has more pairs. */
  lemma {:induction false} RunIsOptimal(m: map<int, int>, rgb: seq<Frame>, pcd: seq<Frame>, i: nat, j: nat)
    requires i <= |rgb| && j <= |pcd| && Sorted(rgb) && Sorted(pcd)
    requires IsMatching(m, rgb, pcd, i, j)
    ensures |m| <= |Run(rgb, pcd, i, j).pairs|
    decreases |rgb| - i + |pcd| - j
  {
    if i == |rgb| || j == |pcd| {
      NothingToMatch(m, rgb, pcd, i, j);
    } else if Close(rgb[i], pcd[j]) {
      var n := ExchangeHeads(m, rgb, pcd, i, j);
      RunIsOptimal(n, rgb, pcd, i + 1, j + 1);
    } else if Time(rgb[i]) > Time(pcd[j]) {
      RunIsOptimal(m, rgb, pcd, i, j + 1);
    } else {
      RunIsOptimal(m, rgb, pcd, i + 1, j);
    }
  }

  ghost predicate IsLargest(n: nat, rgb: seq<Frame>, pcd: seq<Frame>, i: nat, j: nat) {
    forall m: map<int, int> | IsMatching(m, rgb, pcd, i, j) :: |m| <= n
  }

  lemma RunIsLargest(rgb: seq<Frame>, pcd: seq<Frame>, i: nat, j: nat)
    requires i <= |rgb| && j <= |pcd| && Sorted(rgb) && Sorted(pcd)
    ensures IsLargest(|Run(rgb, pcd, i, j).pairs|, rgb, pcd, i, j)
  {
    forall m: map<int, int> | IsMatching(m, rgb, pcd, i, j)
      ensures |m| <= |Run(rgb, pcd, i, j).pairs|
    {
      RunIsOptimal(m, rgb, pcd, i, j);
    }
  }

  /** On ordered queues every frame thrown away is further than 50 ms from every frame of the
      other queue that was not used in a pair: nothing that could still be paired is lost. */
  lemma {:induction false} RunDropsOnlyUnpairable(rgb: seq<Frame>, pcd: seq<Frame>, i: nat, j: nat, x: nat, y: nat)
    requires i <= |rgb| && j <= |pcd| && Sorted(rgb) && Sorted(pcd)
    requires i <= x < |rgb| && j <= y < |pcd|
    requires forall e <- Run(rgb, pcd, i, j).pairs :: e.r != x && e.p != y
    ensures !Close(rgb[x], pcd[y]) && (Apart(rgb[x], pcd[y]) < -50_000_000 || Apart(rgb[x], pcd[y]) > 50_000_000)
    decreases |rgb| - i + |pcd| - j
  {
    var o := Run(rgb, pcd, i, j);
    if Close(rgb[i], pcd[j]) {
      assert Pair(i, j) in o.pairs;
      assert forall e <- Run(rgb, pcd, i + 1, j + 1).pairs :: e in o.pairs;
      RunDropsOnlyUnpairable(rgb, pcd, i + 1, j + 1, x, y);
    } else if Time(rgb[i]) > Time(pcd[j]) {
      if y > j { RunDropsOnlyUnpairable(rgb, pcd, i, j + 1, x, y); }
    } else {
      if x > i { RunDropsOnlyUnpairable(rgb, pcd, i + 1, j, x, y); }
    }
  }

  /** Stopping because a queue ran dry and resuming after more frames arrived makes no difference. */
  lemma {:induction false} RunResumes(rgb: seq<Frame>, pcd: seq<Frame>, rgb': seq<Frame>, pcd': seq<Frame>, i: nat, j: nat)
    requires i <= |rgb| && j <= |pcd| && rgb <= rgb' && pcd <= pcd'
    ensures var o := Run(rgb, pcd, i, j);
            var rest := Run(rgb', pcd', o.i, o.j);
            Run(rgb', pcd', i, j) == Outcome(o.pairs + rest.pairs, rest.i, rest.j)
    decreases |rgb| - i + |pcd| - j
  {
    if i < |rgb| && j < |pcd| {
      if Close(rgb[i], pcd[j]) {
        RunResumes(rgb, pcd, rgb', pcd', i + 1, j + 1);
        var o := Run(rgb, pcd, i + 1, j + 1);
        var rest := Run(rgb', pcd', o.i, o.j);
        assert [Pair(i, j)] + (o.pairs + rest.pairs) == ([Pair(i, j)] + o.pairs) + rest.pairs;
      } else if Time(rgb[i]) > Time(pcd[j]) {
        RunResumes(rgb, pcd, rgb', pcd', i, j + 1);
      } else {
        RunResumes(rgb, pcd, rgb', pcd', i + 1, j);
      }
    }
  }

  // ---------------------------------------------------------------- the two queues

  /** `emitted` are the frames at the positions `ps`, in that order. */
  ghost predicate AreFramesAt(emitted: seq<(Frame, Frame)>, ps: seq<Pair>, rgb: seq<Frame>, pcd: seq<Frame>) {
    && |emitted| == |ps|
    && Within(ps, |rgb|, |pcd|)
    && forall k | 0 <= k < |ps| :: emitted[k] == (rgb[ps[k].r], pcd[ps[k].p])
  }

  /** Frames arriving at the back of either stream do not change what the split of the
      greedy run into "already paired" and "still to come" says. */
  lemma ArrivalsKeepTheSplit(rgb: seq<Frame>, pcd: seq<Frame>, rgb': seq<Frame>, pcd': seq<Frame>,
                             i: nat, j: nat, paired: seq<Pair>)
    requires i <= |rgb| && j <= |pcd| && rgb <= rgb' && pcd <= pcd'
    requires SplitAt(rgb, pcd, 0, 0, i, j, paired)
    ensures SplitAt(rgb', pcd', 0, 0, i, j, paired)
  {
    RunResumes(rgb, pcd, rgb', pcd', 0, 0);
    RunResumes(rgb, pcd, rgb', pcd', i, j);
    var rest := Run(rgb, pcd, i, j);
    var more := Run(rgb', pcd', rest.i, rest.j);
    assert (paired + rest.pairs) + more.pairs == paired + (rest.pairs + more.pairs);
  }

  /** One turn of the loop moves the split by one comparison. */
  lemma TurnMovesTheSplit(rgb: seq<Frame>, pcd: seq<Frame>, i: nat, j: nat, x: nat, y: nat, done: seq<Pair>)
    requires i <= |rgb| && j <= |pcd| && x < |rgb| && y < |pcd|
    requires SplitAt(rgb, pcd, i, j, x, y, done)
    ensures if Close(rgb[x], pcd[y]) then SplitAt(rgb, pcd, i, j, x + 1, y + 1, done + [Pair(x, y)])
            else if Time(rgb[x]) > Time(pcd[y]) then SplitAt(rgb, pcd, i, j, x, y + 1, done)
            else SplitAt(rgb, pcd, i, j, x + 1, y, done)
  {
    if Close(rgb[x], pcd[y]) {
      var rest := Run(rgb, pcd, x + 1, y + 1).pairs;
      assert done + ([Pair(x, y)] + rest) == (done + [Pair(x, y)]) + rest;
    }
  }

  // ---------------------------------------------------------------- sessions

  /** What has happened so far: the two streams, how much of each has left its queue,
      the pairs handed on, and whether a full queue ever threw away its oldest frame. */
  datatype History = History(rgb: seq<Frame>, pcd: seq<Frame>, i: nat, j: nat, paired: seq<Pair>, evicted: bool) {

    ghost predicate Valid() {
      && i <= |rgb| && j <= |pcd|
      && InOrder(paired, rgb, pcd, 0, 0) && Within(paired, i, j)
      && (!evicted ==> SplitAt(rgb, pcd, 0, 0, i, j, paired))
    }

    ghost function PushRgb(f: Frame, full: bool): History
      requires full ==> i < |rgb|
    {
      this.(rgb := rgb + [f], i := if full then i + 1 else i, evicted := evicted || full)
    }

    ghost function PushPcd(f: Frame, full: bool): History
      requires full ==> j < |pcd|
    {
      this.(pcd := pcd + [f], j := if full then j + 1 else j, evicted := evicted || full)
    }

    /** One comparison of the two heads. */
    ghost function Turn(): History
      requires i < |rgb| && j < |pcd|
    {
      if Close(rgb[i], pcd[j]) then this.(i := i + 1, j := j + 1, paired := paired + [Pair(i, j)])
      else if Time(rgb[i]) > Time(pcd[j]) then this.(j := j + 1)
      else this.(i := i + 1)
    }
  }

  lemma PushKeepsValid(h: History, f: Frame, full: bool)
    requires h.Valid()
    ensures (full ==> h.i < |h.rgb|) ==> h.PushRgb(f, full).Valid()
    ensures (full ==> h.j < |h.pcd|) ==> h.PushPcd(f, full).Valid()
  {
    assert h.rgb <= h.rgb + [f] && h.pcd <= h.pcd + [f];
    if !h.evicted {
      ArrivalsKeepTheSplit(h.rgb, h.pcd, h.rgb + [f], h.pcd, h.i, h.j, h.paired);
      ArrivalsKeepTheSplit(h.rgb, h.pcd, h.rgb, h.pcd + [f], h.i, h.j, h.paired);
    }
  }

  lemma OneMorePair(ps: seq<Pair>, rgb: seq<Frame>, pcd: seq<Frame>, i: nat, j: nat)
    requires InOrder(ps, rgb, pcd, 0, 0) && Within(ps, i, j) && i < |rgb| && j < |pcd| && Close(rgb[i], pcd[j])
    ensures InOrder(ps + [Pair(i, j)], rgb, pcd, 0, 0) && Within(ps + [Pair(i, j)], i + 1, j + 1)
  {
    hide Close;
  }

  lemma WithinMore(ps: seq<Pair>, i: nat, j: nat)
    requires Within(ps, i, j)
    ensures Within(ps, i + 1, j) && Within(ps, i, j + 1)
  {}

  lemma TurnKeepsValid(h: History)
    requires h.Valid() && h.i < |h.rgb| && h.j < |h.pcd|
    ensures h.Turn().Valid()
  {
    hide Close, Time, SplitAt, InOrder, Within;
    if Close(h.rgb[h.i], h.pcd[h.j]) {
      OneMorePair(h.paired, h.rgb, h.pcd, h.i, h.j);
    } else {
      WithinMore(h.paired, h.i, h.j);
    }
    if !h.evicted { TurnMovesTheSplit(h.rgb, h.pcd, 0, 0, h.i, h.j, h.paired); }
  }

  lemma SplitAtTheStart(rgb: seq<Frame>, pcd: seq<Frame>, i: nat, j: nat)
    requires i <= |rgb| && j <= |pcd|
    ensures SplitAt(rgb, pcd, i, j, i, j, [])
  {
    assert [] + Run(rgb, pcd, i, j).pairs == Run(rgb, pcd, i, j).pairs;
  }

  /** When one stream is used up the pairs made so far are all of them. */
  lemma SplitAtTheEnd(rgb: seq<Frame>, pcd: seq<Frame>, i: nat, j: nat, x: nat, y: nat, done: seq<Pair>)
    requires i <= |rgb| && j <= |pcd| && x <= |rgb| && y <= |pcd| && (x == |rgb| || y == |pcd|)
    requires SplitAt(rgb, pcd, i, j, x, y, done)
    ensures Run(rgb, pcd, i, j) == Outcome(done, x, y)
  {
    assert done + [] == done;
  }

  /** What a call does depends only on what is left in the queues. */
  lemma {:induction false} RunOnRests(rgb: seq<Frame>, pcd: seq<Frame>, i: nat, j: nat, x: nat, y: nat)
    requires i + x <= |rgb| && j + y <= |pcd|
    ensures |Run(rgb[i..], pcd[j..], x, y).pairs| == |Run(rgb, pcd, i + x, j + y).pairs|
    decreases |rgb| - i - x + |pcd| - j - y
  {
    if i + x < |rgb| && j + y < |pcd| {
      if Close(rgb[i + x], pcd[j + y]) {
        RunOnRests(rgb, pcd, i, j, x + 1, y + 1);
      } else if Time(rgb[i + x]) > Time(pcd[j + y]) {
        RunOnRests(rgb, pcd, i, j, x, y + 1);
      } else {
        RunOnRests(rgb, pcd, i, j, x + 1, y);
      }
    }
  }

  /** On ordered queues a call makes as many pairs as they allow, whatever went before; on ordered streams all calls
      together make as many as the streams allow. */
  lemma SessionIsLargest(h: History)
    requires h.i <= |h.rgb| && h.j <= |h.pcd|
    ensures Sorted(h.rgb[h.i..]) && Sorted(h.pcd[h.j..]) ==>
              IsLargest(|Run(h.rgb, h.pcd, h.i, h.j).pairs|, h.rgb[h.i..], h.pcd[h.j..], 0, 0)
    ensures Sorted(h.rgb) && Sorted(h.pcd) ==> IsLargest(|Run(h.rgb, h.pcd, 0, 0).pairs|, h.rgb, h.pcd, 0, 0)
  {
    hide IsLargest;
    var rgb, pcd := h.rgb[h.i..], h.pcd[h.j..];
    RunOnRests(h.rgb, h.pcd, h.i, h.j, 0, 0);
    if Sorted(rgb) && Sorted(pcd) { RunIsLargest(rgb, pcd, 0, 0); }
    if Sorted(h.rgb) && Sorted(h.pcd) { RunIsLargest(h.rgb, h.pcd, 0, 0); }
  }

  /** The heads are handed on if they are at most 50 ms apart; otherwise the older one alone is dropped. */
  ghost predicate HeadsTreated(rgb: seq<Frame>, pcd: seq<Frame>, rgb': seq<Frame>, pcd': seq<Frame>, emitted: seq<(Frame, Frame)>) {
    && rgb != [] && pcd != []
    && var d := Apart(rgb[0], pcd[0]);
       && emitted == (if -50_000_000 <= d <= 50_000_000 then [(rgb[0], pcd[0])] else [])
       && rgb' == (if d > 50_000_000 then rgb else rgb[1..])
       && pcd' == (if d < -50_000_000 then pcd else pcd[1..])
  }

  ghost predicate AllClose(emitted: seq<(Frame, Frame)>) {
    forall k | 0 <= k < |emitted| :: -50_000_000 <= Apart(emitted[k].0, emitted[k].1) <= 50_000_000
  }

  lemma EmittedAreClose(h: History, emitted: seq<(Frame, Frame)>)
    requires h.i <= |h.rgb| && h.j <= |h.pcd|
    requires AreFramesAt(emitted, Run(h.rgb, h.pcd, h.i, h.j).pairs, h.rgb, h.pcd)
    ensures AllClose(emitted)
  {
    var ps := Run(h.rgb, h.pcd, h.i, h.j).pairs;
    RunIsInOrder(h.rgb, h.pcd, h.i, h.j);
    hide Run, Close, Apart;
    forall k | 0 <= k < |emitted|
      ensures -50_000_000 <= Apart(emitted[k].0, emitted[k].1) <= 50_000_000
    {
      CloseInTime(h.rgb[ps[k].r], h.pcd[ps[k].p]);
    }
  }

  class MultiSensorPublisher {
    var rgbImageQueue: seq<Frame>
    var pcdQueue: seq<Frame>
    ghost var history: History

    ghost predicate Valid()
      reads this
    {
      && history.Valid()
      && rgbImageQueue == history.rgb[history.i..] && |rgbImageQueue| <= QUEUE_LIMIT
      && pcdQueue == history.pcd[history.j..] && |pcdQueue| <= QUEUE_LIMIT
    }

    constructor ()
      ensures Valid() && rgbImageQueue == [] && pcdQueue == []
      ensures history == History([], [], 0, 0, [], false)
    {
      rgbImageQueue, pcdQueue := [], [];
      history := History([], [], 0, 0, [], false);
    }

    /** publishRgb: a full queue first loses its oldest frame. */
    method PushRgb(f: Frame)
      requires Valid()
      modifies this
      ensures Valid() && pcdQueue == old(pcdQueue)
      ensures |rgbImageQueue| <= 10
      ensures var full := |old(rgbImageQueue)| == 10;
              && rgbImageQueue == (if full then old(rgbImageQueue)[1..] else old(rgbImageQueue)) + [f]
              && history == old(history).PushRgb(f, full)
    {
      ghost var full := |rgbImageQueue| == QUEUE_LIMIT;
      PushKeepsValid(history, f, full);
      if |rgbImageQueue| >= QUEUE_LIMIT {
        rgbImageQueue := rgbImageQueue[1..];
      }
      rgbImageQueue := rgbImageQueue + [f];
      history := history.PushRgb(f, full);
    }

    /** publishIntensityCloud: the same for clouds. */
    method PushPcd(f: Frame)
      requires Valid()
      modifies this
      ensures Valid() && rgbImageQueue == old(rgbImageQueue)
      ensures |pcdQueue| <= 10
      ensures var full := |old(pcdQueue)| == 10;
              && pcdQueue == (if full then old(pcdQueue)[1..] else old(pcdQueue)) + [f]
              && history == old(history).PushPcd(f, full)
    {
      ghost var full := |pcdQueue| == QUEUE_LIMIT;
      PushKeepsValid(history, f, full);
      if |pcdQueue| >= QUEUE_LIMIT {
        pcdQueue := pcdQueue[1..];
      }
      pcdQueue := pcdQueue + [f];
      history := history.PushPcd(f, full);
    }

    /** The body of the pairing loop: compare the two heads. */
    method PairHeads() returns (emitted: seq<(Frame, Frame)>)
      requires Valid() && rgbImageQueue != [] && pcdQueue != []
      modifies this
      ensures Valid() && history == old(history).Turn()
      ensures var r, p := old(rgbImageQueue)[0], old(pcdQueue)[0];
              emitted == if Close(r, p) then [(r, p)] else []
      ensures HeadsTreated(old(rgbImageQueue), old(pcdQueue), rgbImageQueue, pcdQueue, emitted)
    {
      hide InOrder;
      hide SplitAt;
      emitted := [];
      var rgbMsg, pcdMsg := rgbImageQueue[0], pcdQueue[0];
      CloseInTime(rgbMsg, pcdMsg);
      var timeDiff := TimeDiff(rgbMsg, pcdMsg);
      var absTimeDiff := if timeDiff < 0 then -timeDiff else timeDiff;
      TurnKeepsValid(history);
      if absTimeDiff > MAX_TIME_DIFF {
        if timeDiff > 0 {
          pcdQueue := pcdQueue[1..];
        } else {
          rgbImageQueue := rgbImageQueue[1..];
        }
      } else {
        rgbImageQueue, pcdQueue := rgbImageQueue[1..], pcdQueue[1..];
        emitted := [(rgbMsg, pcdMsg)];
      }
      history := history.Turn();
    }

    /** One call of the pairing loop; `emitted` are the pairs handed on, in order. Whatever was evicted
        before, they are as many as the queued frames allow; without evictions the pairs of all calls
        together are as many as the two whole streams allow. */
    method TryProcessPair() returns (emitted: seq<(Frame, Frame)>)
      requires Valid()
      modifies this
      ensures Valid() && (rgbImageQueue == [] || pcdQueue == [])
      ensures var h := old(history);
              var o := Run(h.rgb, h.pcd, h.i, h.j);
              && AreFramesAt(emitted, o.pairs, h.rgb, h.pcd)
              && history == h.(i := o.i, j := o.j, paired := h.paired + o.pairs)
      ensures AllClose(emitted)
      ensures !history.evicted ==> history.paired == Run(history.rgb, history.pcd, 0, 0).pairs
      ensures Sorted(old(rgbImageQueue)) && Sorted(old(pcdQueue)) ==>
                IsLargest(|emitted|, old(rgbImageQueue), old(pcdQueue), 0, 0)
      ensures Sorted(history.rgb) && Sorted(history.pcd) && !history.evicted ==>
                IsLargest(|history.paired|, history.rgb, history.pcd, 0, 0)
    {
      hide InOrder, SplitAt, HeadsTreated, AllClose, IsLargest, Run;
      emitted := [];
      ghost var h := history;
      ghost var now: seq<Pair> := [];
      SplitAtTheStart(h.rgb, h.pcd, h.i, h.j);
      while rgbImageQueue != [] && pcdQueue != []
        invariant Valid()
        invariant history == h.(i := history.i, j := history.j, paired := h.paired + now)
        invariant AreFramesAt(emitted, now, h.rgb, h.pcd)
        invariant SplitAt(h.rgb, h.pcd, h.i, h.j, history.i, history.j, now)
        decreases |rgbImageQueue| + |pcdQueue|
      {
        TurnMovesTheSplit(h.rgb, h.pcd, h.i, h.j, history.i, history.j, now);
        ghost var e := Pair(history.i, history.j);
        var handedOn := PairHeads();
        if handedOn != [] {
          emitted, now := emitted + handedOn, now + [e];
        }
      }
      SessionIsLargest(h);
      SplitAtTheEnd(h.rgb, h.pcd, h.i, h.j, history.i, history.j, now);
      if !history.evicted { SplitAtTheEnd(h.rgb, h.pcd, 0, 0, history.i, history.j, history.paired); }
      EmittedAreClose(h, emitted);
    }
  }
}
