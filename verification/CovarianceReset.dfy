/**
 Degradation counter, reset cooldown and publication of the gravity-aligned odometry. Readings
 of the clock are inputs; frames carry their stamp and covariance diagonals.
 */
module CovarianceReset {
  import opened Wrappers

  datatype Params = Params(
    enabled: bool, posThreshold: real, attThresholdDeg2: real, rad2ToDeg2: real, degradeBound: int, cooldown: real)

  /** A frame of odometry: its stamp and the diagonals of the position and attitude covariance. */
  datatype Frame = Frame(stamp: real, pos: (real, real, real), att: (real, real, real))

  /** One timer callback: the latest frame, the readings of the clock before and after the reset
      command, and whether the command file can be opened. */
  datatype Tick = Tick(frame: Option<Frame>, now: real, later: real, fileOpens: bool)

  function Max3(t: (real, real, real)): (m: real)
    ensures m >= t.0 && m >= t.1 && m >= t.2 && (m == t.0 || m == t.1 || m == t.2)
  {
    var m := if t.0 < t.1 then t.1 else t.0;
    if m < t.2 then t.2 else m
  }

  predicate Degraded(p: Params, f: Frame) {
    Max3(f.pos) > p.posThreshold || Max3(f.att) * p.rad2ToDeg2 > p.attThresholdDeg2
  }

  /** The node's fields, and what it has done so far. */
  datatype State = State(
    count: int,
    lastReset: real,
    lastPublished: real,
    resets: seq<real>,       // when resets were triggered
    published: seq<real>,    // stamps published
    degradedTicks: nat)      // degraded frames counted

  const INITIAL: State := State(0, 0.0, 0.0, [], [], 0)

  /** The counter after one diagnosed frame. */
  function Count(count: int, degraded: bool): int {
    if degraded then count + 1 else if count > 0 then count - 1 else count
  }

  /** timer_cb */
  function Step(p: Params, s: State, t: Tick): State {
    if t.frame.None? || t.frame.value.stamp <= s.lastPublished then s
    else
      var f := t.frame.value;
      var d := if p.enabled && Degraded(p, f) then 1 else 0;
      var c := if p.enabled then Count(s.count, Degraded(p, f)) else s.count;
      var s1 := s.(count := c, degradedTicks := s.degradedTicks + d);
      var s2 := if p.enabled && c > p.degradeBound && t.now - s.lastReset > p.cooldown && t.fileOpens
                then s1.(count := 0, lastReset := t.now, resets := s.resets + [t.now]) else s1;
      if t.later - s2.lastReset <= 1.0 then s2
      else s2.(lastPublished := f.stamp, published := s2.published + [f.stamp])
  }

  function Run(p: Params, ts: seq<Tick>): State {
    if ts == [] then INITIAL else Step(p, Run(p, ts[..|ts| - 1]), ts[|ts| - 1])
  }

  // ---------------------------------------------------------------- the node

  class OdomGravityAlignNode {
    const params: Params
    var count: int
    var lastReset: real
    var lastPublished: real
    ghost var resets: seq<real>
    ghost var published: seq<real>
    ghost var degradedTicks: nat

    ghost function Value(): State
      reads this
    {
      State(count, lastReset, lastPublished, resets, published, degradedTicks)
    }

    constructor (p: Params)
      ensures params == p && Value() == INITIAL
    {
      params := p;
      count, lastReset, lastPublished, resets, published, degradedTicks := 0, 0.0, 0.0, [], [], 0;
    }

    /** Returns the stamp published, if any. */
    method TimerCb(t: Tick) returns (out: Option<real>)
      modifies this
      ensures Value() == Step(params, old(Value()), t)
      ensures published == old(published) + match out case None => [] case Some(stamp) => [stamp]
    {
      out := None;
      if t.frame.None? { return; }
      var f := t.frame.value;
      if f.stamp <= lastPublished { return; }
      if params.enabled {
        if Degraded(params, f) {
          count := count + 1;
          degradedTicks := degradedTicks + 1;
        } else if count > 0 {
          count := count - 1;
        }
        if count > params.degradeBound && t.now - lastReset > params.cooldown {
          if t.fileOpens {
            count := 0;
            lastReset := t.now;
            resets := resets + [t.now];
          }
        }
      }
      if t.later - lastReset <= 1.0 { return; }
      lastPublished := f.stamp;
      published := published + [f.stamp];
      out := Some(f.stamp);
    }
  }

  // ---------------------------------------------------------------- what runs keep

  /** Every reset has used up one more than the bound of degraded frames. */
  ghost predicate Paid(p: Params, s: State) {
    0 <= s.count && |s.resets| * (p.degradeBound + 1) + s.count <= s.degradedTicks
  }

  function Previous(s: seq<real>, i: nat): real
    requires i <= |s|
  {
    if i == 0 then 0.0 else s[i - 1]
  }

  /** From zero on, each entry is more than a gap above the one before. */
  ghost predicate Apart(s: seq<real>, gap: real) {
    forall i | 0 <= i < |s| :: s[i] - Previous(s, i) > gap
  }

  lemma OneMoreApart(s: seq<real>, gap: real, x: real)
    requires Apart(s, gap) && x - Previous(s, |s|) > gap
    ensures Apart(s + [x], gap)
  {
    forall i | 0 <= i <= |s|
      ensures (s + [x])[i] - Previous(s + [x], i) > gap
    {
      assert Previous(s + [x], i) == Previous(s, i);
    }
  }

  ghost predicate Spaced(p: Params, s: State) {
    Apart(s.resets, p.cooldown) && s.lastReset == Previous(s.resets, |s.resets|)
  }

  ghost predicate Increasing(s: State) {
    Apart(s.published, 0.0) && s.lastPublished == Previous(s.published, |s.published|)
  }

  lemma OneMoreReset(n: nat, b: int, c: int, d: int)
    requires n * (b + 1) + c <= d && c > b
    ensures (n + 1) * (b + 1) <= d
  {
    assert (n + 1) * (b + 1) == n * (b + 1) + (b + 1);
  }

  lemma StepIsPaid(p: Params, s: State, t: Tick)
    requires Paid(p, s)
    ensures Paid(p, Step(p, s, t))
  {
    if t.frame.Some? && p.enabled {
      var degraded := Degraded(p, t.frame.value);
      hide Degraded;
      var c := Count(s.count, degraded);
      var d := s.degradedTicks + if degraded then 1 else 0;
      assert |s.resets| * (p.degradeBound + 1) + c <= d;
      if c > p.degradeBound { OneMoreReset(|s.resets|, p.degradeBound, c, d); }
    }
  }

  lemma StepIsSpaced(p: Params, s: State, t: Tick)
    requires Spaced(p, s)
    ensures Spaced(p, Step(p, s, t))
  {
    hide Degraded, Count, Apart;
    if t.now - s.lastReset > p.cooldown { OneMoreApart(s.resets, p.cooldown, t.now); }
  }

  lemma StepIsIncreasing(p: Params, s: State, t: Tick)
    requires Increasing(s)
    ensures Increasing(Step(p, s, t))
  {
    hide Degraded, Count, Apart;
    if t.frame.Some? && t.frame.value.stamp > s.lastPublished { OneMoreApart(s.published, 0.0, t.frame.value.stamp); }
  }

  lemma OneDegradedAtMost(p: Params, s: State, t: Tick)
    ensures Step(p, s, t).degradedTicks <= s.degradedTicks + 1
  {}

  lemma {:induction false} RunKeeps(p: Params, ts: seq<Tick>)
    ensures Paid(p, Run(p, ts)) && Spaced(p, Run(p, ts)) && Increasing(Run(p, ts)) && Run(p, ts).degradedTicks <= |ts|
    decreases |ts|
  {
    if ts != [] {
      hide Step, Paid, Spaced, Increasing;
      var n := |ts| - 1;
      var s := Run(p, ts[..n]);
      RunKeeps(p, ts[..n]);
      StepIsPaid(p, s, ts[n]);
      StepIsSpaced(p, s, ts[n]);
      StepIsIncreasing(p, s, ts[n]);
      OneDegradedAtMost(p, s, ts[n]);
    }
  }

  /** Over any run, whatever the frames, clock readings and file errors: resets are paid for by degraded frames and
      further apart than the cooldown, and the stamps published increase strictly. */
  lemma ResetsAreAmortised(p: Params, ts: seq<Tick>)
    ensures var s := Run(p, ts);
            && 0 <= s.count && |s.resets| * (p.degradeBound + 1) + s.count <= s.degradedTicks <= |ts|
            && (forall i | 1 <= i < |s.resets| :: s.resets[i] - s.resets[i - 1] > p.cooldown)
            && (forall i | 1 <= i < |s.published| :: s.published[i] > s.published[i - 1])
  {
    RunKeeps(p, ts);
    hide Run;
    var s := Run(p, ts);
    forall i | 1 <= i < |s.resets|
      ensures s.resets[i] - s.resets[i - 1] > p.cooldown
    {
      assert s.resets[i - 1] == Previous(s.resets, i);
    }
    forall i | 1 <= i < |s.published|
      ensures s.published[i] > s.published[i - 1]
    {
      assert s.published[i - 1] == Previous(s.published, i);
    }
  }

  // ---------------------------------------------------------------- suppression

  /** The clock read before reset commands never goes back. */
  ghost predicate NeverBack(ts: seq<Tick>) {
    forall i, j | 0 <= i < j < |ts| :: ts[i].now <= ts[j].now
  }

  /** No reset is later than the last one, which was triggered by one of the callbacks. */
  ghost predicate LastIsLatest(ts: seq<Tick>, s: State) {
    && (forall i | 0 <= i < |s.resets| :: s.resets[i] <= s.lastReset)
    && (s.resets != [] ==> s.resets[|s.resets| - 1] == s.lastReset && exists i :: 0 <= i < |ts| && ts[i].now == s.lastReset)
  }

  lemma {:induction false} ResetsAscend(p: Params, ts: seq<Tick>)
    requires p.cooldown >= 0.0 || NeverBack(ts)
    ensures LastIsLatest(ts, Run(p, ts))
    decreases |ts|
  {
    if ts != [] {
      var n := |ts| - 1;
      var s, e := Run(p, ts[..n]), Run(p, ts);
      ResetsAscend(p, ts[..n]);
      StepResets(p, s, ts[n]);
      assert forall i | 0 <= i < n :: ts[..n][i] == ts[i];
      hide Run, Step;
      if e.resets != s.resets {
        assert ts[n].now == e.lastReset;
        if s.resets != [] {
          var i :| 0 <= i < n && ts[..n][i].now == s.lastReset;
          assert ts[i].now <= ts[n].now || p.cooldown >= 0.0;
        }
      }
    }
  }

  lemma StepResets(p: Params, s: State, t: Tick)
    ensures var e := Step(p, s, t);
            || (e.resets == s.resets && e.lastReset == s.lastReset)
            || (e.resets == s.resets + [t.now] && e.lastReset == t.now && t.now - s.lastReset > p.cooldown)
  {
    hide Degraded, Count;
  }

  /** A callback publishes its frame exactly if the frame is newer than what was published and more than a second has
      passed since every reset so far, its own included; before the first reset, since the clock's zero. */
  lemma PublishesUnlessSuppressed(p: Params, ts: seq<Tick>, j: nat)
    requires j < |ts| && (p.cooldown >= 0.0 || NeverBack(ts))
    ensures var s, e, t := Run(p, ts[..j]), Run(p, ts[..j + 1]), ts[j];
            e.published != s.published <==>
              && t.frame.Some? && t.frame.value.stamp > s.lastPublished
              && (forall i | 0 <= i < |e.resets| :: t.later - e.resets[i] > 1.0)
              && (e.resets == [] ==> t.later > 1.0)
  {
    var more := ts[..j + 1];
    assert more[..j] == ts[..j] && more[j] == ts[j];
    ResetsAscend(p, more);
    RunKeeps(p, more);
    StepPublishes(p, Run(p, ts[..j]), ts[j]);
    hide Step, Paid, Increasing;
  }

  lemma StepPublishes(p: Params, s: State, t: Tick)
    ensures var e := Step(p, s, t);
            e.published != s.published <==>
              t.frame.Some? && t.frame.value.stamp > s.lastPublished && t.later - e.lastReset > 1.0
  {
    hide Degraded, Count;
  }

  // ---------------------------------------------------------------- when resets happen

  /** Some position or attitude covariance is above its threshold. */
  ghost predicate Bad(p: Params, f: Frame) {
    || f.pos.0 > p.posThreshold || f.pos.1 > p.posThreshold || f.pos.2 > p.posThreshold
    || f.att.0 * p.rad2ToDeg2 > p.attThresholdDeg2 || f.att.1 * p.rad2ToDeg2 > p.attThresholdDeg2
    || f.att.2 * p.rad2ToDeg2 > p.attThresholdDeg2
  }

  /** What a callback adds to the balance of bad and good frames: nothing for a frame not looked at. */
  ghost function Weight(p: Params, s: State, t: Tick): int {
    if !p.enabled || t.frame.None? || t.frame.value.stamp <= s.lastPublished then 0
    else if Bad(p, t.frame.value) then 1 else -1
  }

  /** The balance of the callbacks from i up to j. */
  ghost function Balance(p: Params, ts: seq<Tick>, i: nat, j: nat): int
    requires i <= j <= |ts|
  {
    if i == j then 0 else Balance(p, ts, i, j - 1) + Weight(p, Run(p, ts[..j - 1]), ts[j - 1])
  }

  /** Where the frames since the last reset in the first n callbacks begin. */
  ghost function Since(p: Params, ts: seq<Tick>, n: nat): (i: nat)
    requires n <= |ts|
    ensures i <= n
  {
    if n == 0 then 0
    else if Run(p, ts[..n]).resets != Run(p, ts[..n - 1]).resets then n
    else Since(p, ts, n - 1)
  }

  /** No stretch of callbacks up to n, begun since the last reset, has a higher balance than c, and one has just that. */
  ghost predicate IsHighest(p: Params, ts: seq<Tick>, from: nat, n: nat, c: int)
    requires from <= n <= |ts|
  {
    && (forall i | from <= i <= n :: Balance(p, ts, i, n) <= c)
    && exists i :: from <= i <= n && Balance(p, ts, i, n) == c
  }

  /** Some stretch up to n, begun since `from`, has a balance above the bound. */
  ghost predicate Exceeds(p: Params, ts: seq<Tick>, from: nat, n: nat)
    requires from <= n <= |ts|
  {
    exists i :: from <= i <= n && Balance(p, ts, i, n) > p.degradeBound
  }

  lemma HighestExceeds(p: Params, ts: seq<Tick>, from: nat, n: nat, c: int)
    requires from <= n <= |ts| && IsHighest(p, ts, from, n, c)
    ensures Exceeds(p, ts, from, n) <==> c > p.degradeBound
  {
    hide Balance;
  }

  function Times(x: real, y: real): real {
    x * y
  }

  lemma Scale(x: real, y: real, c: real)
    requires x <= y && c >= 0.0
    ensures Times(x, c) <= Times(y, c)
  {
    assert Times(y - x, c) >= 0.0;
  }

  lemma LargestIsAbove(t: (real, real, real), c: real, threshold: real)
    requires c >= 0.0
    ensures Times(Max3(t), c) > threshold <==> Times(t.0, c) > threshold || Times(t.1, c) > threshold || Times(t.2, c) > threshold
  {
    Scale(t.0, Max3(t), c);
    Scale(t.1, Max3(t), c);
    Scale(t.2, Max3(t), c);
    hide Times;
  }

  lemma DegradedIsBad(p: Params, f: Frame)
    requires p.rad2ToDeg2 >= 0.0
    ensures Degraded(p, f) <==> Bad(p, f)
  {
    LargestIsAbove(f.att, p.rad2ToDeg2, p.attThresholdDeg2);
    hide Max3;
  }

  lemma RunStep(p: Params, ts: seq<Tick>, n: nat)
    requires n < |ts|
    ensures Run(p, ts[..n + 1]) == Step(p, Run(p, ts[..n]), ts[n])
  {
    assert ts[..n + 1][..n] == ts[..n];
  }

  /** One callback, in terms of its weight: the counter follows it but does not fall below zero. */
  lemma StepCounts(p: Params, s: State, t: Tick)
    requires p.rad2ToDeg2 >= 0.0 && s.count >= 0
    ensures var e, w := Step(p, s, t), Weight(p, s, t);
            var c := if s.count + w < 0 then 0 else s.count + w;
            && e.degradedTicks == s.degradedTicks + (if w > 0 then 1 else 0)
            && (e.resets != s.resets <==>
                  w != 0 && c > p.degradeBound && t.now - s.lastReset > p.cooldown && t.fileOpens)
            && e.count == if e.resets != s.resets then 0 else c
  {
    if t.frame.Some? { DegradedIsBad(p, t.frame.value); }
    hide Degraded, Bad;
    assert |s.resets + [t.now]| == |s.resets| + 1;
  }

  lemma HighestSoFar(p: Params, ts: seq<Tick>, from: nat, n: nat, c: int)
    requires from <= n < |ts| && IsHighest(p, ts, from, n, c) && c >= 0
    ensures var w := Weight(p, Run(p, ts[..n]), ts[n]);
            IsHighest(p, ts, from, n + 1, if c + w < 0 then 0 else c + w)
  {
    hide Weight, Run;
    var w := Weight(p, Run(p, ts[..n]), ts[n]);
    var i :| from <= i <= n && Balance(p, ts, i, n) == c;
    var m := n + 1;
    assert Balance(p, ts, i, m) == c + w && Balance(p, ts, m, m) == 0;
    forall k | from <= k <= m
      ensures Balance(p, ts, k, m) <= if c + w < 0 then 0 else c + w
    {
      if k <= n { assert Balance(p, ts, k, m) == Balance(p, ts, k, n) + w; }
    }
  }

  /** The counter is the highest balance of any stretch of callbacks up to now that begins after the last reset. */
  lemma {:induction false} CountIsHighestBalance(p: Params, ts: seq<Tick>, n: nat)
    requires p.rad2ToDeg2 >= 0.0 && n <= |ts|
    ensures Run(p, ts[..n]).count >= 0
    ensures IsHighest(p, ts, Since(p, ts, n), n, Run(p, ts[..n]).count)
    decreases n
  {
    if n == 0 {
      assert Balance(p, ts, 0, 0) == 0;
    } else {
      CountIsHighestBalance(p, ts, n - 1);
      RunStep(p, ts, n - 1);
      StepCounts(p, Run(p, ts[..n - 1]), ts[n - 1]);
      HighestSoFar(p, ts, Since(p, ts, n - 1), n - 1, Run(p, ts[..n - 1]).count);
      hide Run, Step, Weight;
      if Run(p, ts[..n]).resets != Run(p, ts[..n - 1]).resets { assert Balance(p, ts, n, n) == 0; }
    }
  }

  /** A callback triggers a reset exactly if it looks at its frame, some stretch of frames since the last reset, up to this
      one, has more than the bound more bad frames than good ones, the cooldown has passed and the file can be opened. */
  lemma ResetsExactly(p: Params, ts: seq<Tick>, j: nat)
    requires p.rad2ToDeg2 >= 0.0 && j < |ts|
    ensures var s, e, t := Run(p, ts[..j]), Run(p, ts[..j + 1]), ts[j];
            e.resets != s.resets <==>
              && Weight(p, s, t) != 0 && t.now - s.lastReset > p.cooldown && t.fileOpens
              && Exceeds(p, ts, Since(p, ts, j), j + 1)
  {
    var s, t := Run(p, ts[..j]), ts[j];
    CountIsHighestBalance(p, ts, j);
    RunStep(p, ts, j);
    StepCounts(p, s, t);
    HighestSoFar(p, ts, Since(p, ts, j), j, s.count);
    hide Run, Step, Weight, Since, Balance;
    hide IsHighest, Exceeds;
    HighestExceeds(p, ts, Since(p, ts, j), j + 1, if s.count + Weight(p, s, t) < 0 then 0 else s.count + Weight(p, s, t));
  }
}
