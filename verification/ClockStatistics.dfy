/**
 The sliding window of clock offsets and its two robust estimates: a mean without the outer
 tenths, and the median. Offsets are nanoseconds; sums are exact and means are real numbers.
 */
module ClockStatistics {
  import opened Sorting

  predicate AtMost(a: int, b: int) {
    a <= b
  }

  function Sorted(w: seq<int>): seq<int> {
    SortBy(w, AtMost)
  }

  function Sum(s: seq<int>): int {
    if s == [] then 0 else Sum(s[..|s| - 1]) + s[|s| - 1]
  }

  /** Mean in milliseconds. */
  function Mean(s: seq<int>): real
    requires s != []
  {
    Sum(s) as real / |s| as real / 1000000.0
  }

  /** What is left of a sorted window after dropping a tenth at each end. */
  function Inner(w: seq<int>): (r: seq<int>)
    requires |w| >= 10
    ensures |r| == |w| - 2 * (|w| / 10) && |r| > 0
  {
    SortPermutes(w, AtMost);
    Sorted(w)[|w| / 10..|w| - |w| / 10]
  }

  /** get_smoothed_offset_ms */
  function Smoothed(w: seq<int>): real {
    if w == [] then 0.0 else if |w| < 10 then Mean(w) else Mean(Inner(w))
  }

  /** get_median_offset_ns */
  function Median(w: seq<int>): int {
    SortPermutes(w, AtMost);
    if w == [] then 0 else Sorted(w)[|w| / 2]
  }

  /** The newest samples, as many as the window holds. */
  function Newest(samples: seq<int>, windowSize: int): (r: seq<int>)
    ensures |r| <= |samples| && (windowSize >= 0 ==> |r| <= windowSize)
  {
    if windowSize <= 0 then [] else if |samples| <= windowSize then samples else samples[|samples| - windowSize..]
  }

  lemma NewestMoves(samples: seq<int>, windowSize: int, x: int)
    ensures var w := Newest(samples, windowSize) + [x];
            Newest(samples + [x], windowSize) == if |w| > windowSize then w[1..] else w
  {}

  lemma NewestIsLast(samples: seq<int>, windowSize: int)
    ensures var w := Newest(samples, windowSize);
            && (windowSize > 0 ==> |w| == windowSize || w == samples)
            && exists older :: samples == older + w
  {
    var w := Newest(samples, windowSize);
    assert samples == samples[..|samples| - |w|] + w;
  }

  class TimeSyncNode {
    const windowSize: int
    const rttMax: int
    var offsetWindow: seq<int>
    ghost var samples: seq<int>      // since the window was last cleared

    ghost predicate Valid()
      reads this
    {
      offsetWindow == Newest(samples, windowSize)
    }

    constructor (windowSize: int, rttMax: int)
      ensures Valid() && samples == [] && this.windowSize == windowSize && this.rttMax == rttMax
    {
      this.windowSize, this.rttMax, offsetWindow, samples := windowSize, rttMax, [], [];
    }

    /** The window update of time_ref_cb: always the newest samples, never more than a positive window size. */
    method TimeRefCb(gps: int, host: int, rtt: int)
      requires Valid()
      modifies this
      ensures Valid() && |samples| == |old(samples)| + 1 && samples[..|old(samples)|] == old(samples)
      ensures samples[|old(samples)|] == if 0 < rtt < rttMax then gps - host + rtt / 2 else gps - host
      ensures windowSize > 0 ==> |offsetWindow| <= windowSize
      ensures windowSize > 0 ==> |offsetWindow| == windowSize || offsetWindow == samples
      ensures exists older :: samples == older + offsetWindow
    {
      var offset := gps - host;
      if rtt > 0 && rtt < rttMax { offset := offset + rtt / 2; }
      NewestMoves(samples, windowSize, offset);
      NewestIsLast(samples + [offset], windowSize);
      hide Newest;
      offsetWindow := offsetWindow + [offset];
      samples := samples + [offset];
      if |offsetWindow| > windowSize { offsetWindow := offsetWindow[1..]; }
    }

    /** After the clock has been stepped. */
    method ClearWindow()
      modifies this
      ensures Valid() && samples == []
    {
      offsetWindow, samples := [], [];
    }

    method GetSmoothedOffsetMs() returns (ms: real)
      ensures ms == Smoothed(offsetWindow)
      ensures var w, n := offsetWindow, |offsetWindow|;
              && (n == 0 ==> ms == 0.0)
              && (0 < n < 10 ==> Shares(ms, n, Sum(w)))
              && (n >= 10 ==> exists r :: Arranges(r, w) && Shares(ms, n - 2 * (n / 10), Sum(r[n / 10..n - n / 10])))
    {
      hide Sum, SortBy, Shares, Arranges;
      ghost var r := SmoothedIsMean(offsetWindow);
      if offsetWindow == [] { return 0.0; }
      if |offsetWindow| < 10 {
        assert offsetWindow[0..|offsetWindow|] == offsetWindow;
        ms := MeanBetween(offsetWindow, 0, |offsetWindow|);
        return;
      }
      SortPermutes(offsetWindow, AtMost);
      var sorted := SortBy(offsetWindow, AtMost);
      var trim := |sorted| / 10;
      ms := MeanBetween(sorted, trim, |sorted| - trim);
    }

    method GetMedianOffsetNs() returns (ns: int)
      ensures ns == Median(offsetWindow)
      ensures offsetWindow != [] ==> exists r :: Arranges(r, offsetWindow) && ns == r[|offsetWindow| / 2]
    {
      ghost var r := MedianIsMiddle(offsetWindow);
      if offsetWindow == [] { return 0; }
      SortPermutes(offsetWindow, AtMost);
      var sorted := SortBy(offsetWindow, AtMost);
      ns := sorted[|sorted| / 2];
    }
  }

  /** The summing loops: the mean of the samples from a up to b. */
  method MeanBetween(s: seq<int>, a: nat, b: nat) returns (ms: real)
    requires a < b <= |s|
    ensures ms == Mean(s[a..b])
  {
    var sum := 0;
    for i := a to b
      invariant sum == Sum(s[a..i])
    {
      assert s[a..i + 1][..i - a] == s[a..i];
      sum := sum + s[i];
    }
    ms := sum as real / (b - a) as real / 1000000.0;
  }

  // ---------------------------------------------------------------- what is computed

  /** The samples from the smallest to the largest. */
  ghost predicate Arranges(r: seq<int>, w: seq<int>) {
    multiset(r) == multiset(w) && |r| == |w| && forall i, j | 0 <= i < j < |r| :: r[i] <= r[j]
  }

  lemma SortedArranges(w: seq<int>)
    ensures Arranges(Sorted(w), w)
  {
    SortPermutes(w, AtMost);
    SortAscends(w, AtMost);
    hide SortBy;
    var r := Sorted(w);
    assert forall i, j | 0 <= i < j < |r| :: AtMost(r[i], r[j]);
  }

  /** Sum adds samples up. */
  lemma {:induction false} SumAddsUp(a: seq<int>, x: int, b: seq<int>)
    ensures Sum([]) == 0 && Sum([x]) == x && Sum(a + b) == Sum(a) + Sum(b)
  {
    assert [x][..0] == [];
    if b == [] {
      assert a + b == a;
    } else {
      var n := |b| - 1;
      assert (a + b)[..|a| + n] == a + b[..n];
      SumAddsUp(a, x, b[..n]);
    }
  }

  /** ms milliseconds, n times over, are so many nanoseconds. */
  ghost predicate Shares(ms: real, n: int, nanoseconds: int) {
    ms * n as real * 1000000.0 == nanoseconds as real
  }

  lemma MeanShares(s: seq<int>)
    requires s != []
    ensures Shares(Mean(s), |s|, Sum(s))
  {
    var x, n := Sum(s) as real, |s| as real;
    hide Sum;
    Cancel(x, n);
    Cancel(x / n, 1000000.0);
    Reorder(Mean(s), n);
  }

  lemma Cancel(x: real, y: real)
    requires y > 0.0
    ensures x / y * y == x
  {}

  lemma Reorder(x: real, y: real)
    ensures x * y * 1000000.0 == x * 1000000.0 * y
  {}

  /** What the smoothed offset is: nothing without samples, the mean of fewer than ten, and otherwise the mean of what
      remains of the arranged samples after dropping a tenth, rounded down, at each end. */
  lemma SmoothedIsMean(w: seq<int>) returns (r: seq<int>)
    ensures Arranges(r, w)
    ensures var n := |w|;
            && (n == 0 ==> Smoothed(w) == 0.0)
            && (0 < n < 10 ==> Shares(Smoothed(w), n, Sum(w)))
            && (n >= 10 ==> Shares(Smoothed(w), n - 2 * (n / 10), Sum(r[n / 10..n - n / 10])))
  {
    r := Sorted(w);
    SortedArranges(w);
    if 0 < |w| < 10 { MeanShares(w); }
    if |w| >= 10 { MeanShares(Inner(w)); }
  }

  /** The median has at least half of the samples on either side; of two middle ones it is the larger. */
  lemma MedianIsMiddle(w: seq<int>) returns (r: seq<int>)
    ensures Arranges(r, w)
    ensures w == [] ==> Median(w) == 0
    ensures w != [] ==> Median(w) == r[|w| / 2]
  {
    r := Sorted(w);
    SortedArranges(w);
  }

  // ---------------------------------------------------------------- outliers

  /** How many samples are below a value. */
  function Below(s: seq<int>, lo: int): nat {
    if s == [] then 0 else Below(s[..|s| - 1], lo) + if s[|s| - 1] < lo then 1 else 0
  }

  function Above(s: seq<int>, hi: int): nat {
    if s == [] then 0 else Above(s[..|s| - 1], hi) + if s[|s| - 1] > hi then 1 else 0
  }

  /** How many samples lie outside a range. */
  function Outliers(s: seq<int>, lo: int, hi: int): nat
    requires lo <= hi
  {
    Below(s, lo) + Above(s, hi)
  }

  lemma {:induction false} CountConcat(a: seq<int>, b: seq<int>, v: int)
    ensures Below(a + b, v) == Below(a, v) + Below(b, v) && Above(a + b, v) == Above(a, v) + Above(b, v)
  {
    if b == [] {
      assert a + b == a;
    } else {
      var n := |b| - 1;
      assert (a + b)[..|a| + n] == a + b[..n];
      CountConcat(a, b[..n], v);
    }
  }

  lemma PartsCount(a: seq<int>, x: int, b: seq<int>, v: int)
    ensures Below(a + [x] + b, v) == Below([x] + (a + b), v) && Above(a + [x] + b, v) == Above([x] + (a + b), v)
  {
    hide Below, Above;
    CountConcat(a + [x], b, v);
    CountConcat(a, [x], v);
    CountConcat(a, b, v);
    CountConcat([x], a + b, v);
  }

  lemma InsertCounts(x: int, r: seq<int>, v: int)
    ensures Below(Insert(x, r, AtMost), v) == Below([x] + r, v) && Above(Insert(x, r, AtMost), v) == Above([x] + r, v)
  {
    hide Below, Above, Place;
    var k := Place(x, r, AtMost);
    PartsCount(r[..k], x, r[k..], v);
    assert r == r[..k] + r[k..];
  }

  lemma {:induction false} SortKeepsCounts(s: seq<int>, v: int)
    ensures Below(Sorted(s), v) == Below(s, v) && Above(Sorted(s), v) == Above(s, v)
  {
    if s != [] {
      var r := Sorted(s[1..]);
      SortKeepsCounts(s[1..], v);
      InsertCounts(s[0], r, v);
      hide Below, Above, Insert;
      CountConcat([s[0]], s[1..], v);
      CountConcat([s[0]], r, v);
      assert s == [s[0]] + s[1..];
    }
  }

  lemma {:induction false} AllBelow(s: seq<int>, v: int)
    requires forall i | 0 <= i < |s| :: s[i] < v
    ensures Below(s, v) == |s|
  {
    if s != [] { AllBelow(s[..|s| - 1], v); }
  }

  lemma {:induction false} AllAbove(s: seq<int>, v: int)
    requires forall i | 0 <= i < |s| :: s[i] > v
    ensures Above(s, v) == |s|
  {
    if s != [] { AllAbove(s[..|s| - 1], v); }
  }

  lemma LowPrefix(r: seq<int>, k: nat, lo: int)
    requires Ascending(r, AtMost) && k < |r| && r[k] < lo
    ensures Below(r, lo) > k
  {
    assert forall i | 0 <= i < k :: AtMost(r[i], r[k]);
    AllBelow(r[..k + 1], lo);
    CountConcat(r[..k + 1], r[k + 1..], lo);
    assert r == r[..k + 1] + r[k + 1..];
  }

  lemma HighSuffix(r: seq<int>, m: nat, hi: int)
    requires Ascending(r, AtMost) && m < |r| && r[m] > hi
    ensures Above(r, hi) >= |r| - m
  {
    assert forall i | m < i < |r| :: AtMost(r[m], r[i]);
    AllAbove(r[m..], hi);
    CountConcat(r[..m], r[m..], hi);
    assert r == r[..m] + r[m..];
  }

  /** With at most k samples below lo, the element at position k of the sorted samples is not below it. */
  lemma AtLeastFrom(s: seq<int>, lo: int, k: nat)
    requires k < |s| && Below(s, lo) <= k
    ensures |Sorted(s)| == |s| && Sorted(s)[k] >= lo
  {
    SortPermutes(s, AtMost);
    SortAscends(s, AtMost);
    SortKeepsCounts(s, lo);
    hide SortBy, Below;
    if Sorted(s)[k] < lo { LowPrefix(Sorted(s), k, lo); }
  }

  /** With at most k samples above hi, the element k places before the last is not above it. */
  lemma AtMostUpTo(s: seq<int>, hi: int, k: nat)
    requires k < |s| && Above(s, hi) <= k
    ensures |Sorted(s)| == |s| && Sorted(s)[|s| - 1 - k] <= hi
  {
    SortPermutes(s, AtMost);
    SortAscends(s, AtMost);
    SortKeepsCounts(s, hi);
    hide SortBy, Above;
    if Sorted(s)[|s| - 1 - k] > hi { HighSuffix(Sorted(s), |s| - 1 - k, hi); }
  }

  // ---------------------------------------------------------------- robustness

  lemma {:induction false} SumIsBetween(s: seq<int>, lo: int, hi: int)
    requires forall i | 0 <= i < |s| :: lo <= s[i] <= hi
    ensures lo * |s| <= Sum(s) <= hi * |s|
  {
    if s != [] {
      SumIsBetween(s[..|s| - 1], lo, hi);
      assert lo * |s| == lo * (|s| - 1) + lo && hi * |s| == hi * (|s| - 1) + hi;
    }
  }

  lemma MeanIsBetween(s: seq<int>, lo: int, hi: int)
    requires s != [] && forall i | 0 <= i < |s| :: lo <= s[i] <= hi
    ensures lo as real / 1000000.0 <= Mean(s) <= hi as real / 1000000.0
  {
    SumIsBetween(s, lo, hi);
    Quotient(Sum(s), |s|, lo, hi);
  }

  lemma Quotient(sum: int, n: nat, lo: int, hi: int)
    requires n > 0 && lo * n <= sum <= hi * n
    ensures lo as real <= sum as real / n as real <= hi as real
  {
    RealQuotient((sum - lo * n) as real, n as real);
    RealQuotient((hi * n - sum) as real, n as real);
    Exact(lo, n);
    Exact(hi, n);
    Difference(sum as real, (lo * n) as real, n as real);
    Difference((hi * n) as real, sum as real, n as real);
  }

  lemma RealQuotient(x: real, y: real)
    requires x >= 0.0 && y > 0.0
    ensures x / y >= 0.0
  {}

  lemma Exact(a: int, n: nat)
    requires n > 0
    ensures (a * n) as real / n as real == a as real
  {
    assert (a * n) as real == a as real * n as real;
  }

  lemma Difference(x: real, z: real, y: real)
    requires y > 0.0
    ensures (x - z) / y == x / y - z / y
  {}

  /** The trimmed mean of ten or more samples stays within the range of the good ones while at most a tenth are
      outside it, whatever those are. */
  lemma SmoothedIsRobust(w: seq<int>, lo: int, hi: int)
    requires |w| >= 10 && lo <= hi && Outliers(w, lo, hi) <= |w| / 10
    ensures lo as real / 1000000.0 <= Smoothed(w) <= hi as real / 1000000.0
  {
    var t := |w| / 10;
    AtLeastFrom(w, lo, t);
    AtMostUpTo(w, hi, t);
    SortAscends(w, AtMost);
    var r := Sorted(w);
    var s := Inner(w);
    forall i | 0 <= i < |s|
      ensures lo <= s[i] <= hi
    {
      assert s[i] == r[t + i];
      assert i > 0 ==> AtMost(r[t], r[t + i]);
      assert t + i < |w| - 1 - t ==> AtMost(r[t + i], r[|w| - 1 - t]);
    }
    MeanIsBetween(s, lo, hi);
  }

  /** The median stays within the range of the good samples while fewer than half, rounded up, are outside it. */
  lemma MedianIsRobust(w: seq<int>, lo: int, hi: int)
    requires w != [] && lo <= hi && Outliers(w, lo, hi) < (|w| + 1) / 2
    ensures lo <= Median(w) <= hi
  {
    AtLeastFrom(w, lo, |w| / 2);
    AtMostUpTo(w, hi, |w| - 1 - |w| / 2);
  }

  // ---------------------------------------------------------------- and no better than that

  lemma {:induction false} SortedStays(s: seq<int>)
    requires Ascending(s, AtMost)
    ensures Sorted(s) == s
  {
    SortAscends(s, AtMost);
    SortPermutes(s, AtMost);
    hide *;
    TotalOrder();
    AscendingIsUnique(Sorted(s), s, AtMost);
  }

  lemma TotalOrder()
    ensures TotalPreorder(AtMost) && forall x, y :: AtMost(x, y) && AtMost(y, x) ==> x == y
  {}

  /** Good samples that all read hi, and k wrong ones. */
  function Contaminated(n: nat, k: nat, hi: int, wrong: int): (w: seq<int>)
    requires k <= n
    ensures |w| == n && forall i | 0 <= i < n :: w[i] == if i < n - k then hi else wrong
  {
    seq(n, i => if i < n - k then hi else wrong)
  }

  lemma {:induction false} CountContaminated(n: nat, k: nat, lo: int, hi: int, wrong: int)
    requires k <= n && lo <= hi < wrong
    ensures Outliers(Contaminated(n, k, hi, wrong), lo, hi) == k
  {
    var w := Contaminated(n, k, hi, wrong);
    AllAbove(w[n - k..], hi);
    NoneOutside(w[..n - k], lo, hi);
    NoneBelow(w[n - k..], lo);
    CountConcat(w[..n - k], w[n - k..], lo);
    CountConcat(w[..n - k], w[n - k..], hi);
    assert w == w[..n - k] + w[n - k..];
  }

  lemma {:induction false} NoneOutside(s: seq<int>, lo: int, hi: int)
    requires forall i | 0 <= i < |s| :: lo <= s[i] <= hi
    ensures Below(s, lo) == 0 && Above(s, hi) == 0
  {
    if s != [] { NoneOutside(s[..|s| - 1], lo, hi); }
  }

  lemma {:induction false} NoneBelow(s: seq<int>, lo: int)
    requires forall i | 0 <= i < |s| :: lo <= s[i]
    ensures Below(s, lo) == 0
  {
    if s != [] { NoneBelow(s[..|s| - 1], lo); }
  }

  /** With one outlier more than the median tolerates, it can be any value. */
  lemma MedianBreaks(n: nat, k: nat, lo: int, hi: int, wrong: int)
    requires (n + 1) / 2 <= k <= n && n > 0 && lo <= hi < wrong
    ensures var w := Contaminated(n, k, hi, wrong);
            Outliers(w, lo, hi) == k && Median(w) == wrong
  {
    var w := Contaminated(n, k, hi, wrong);
    CountContaminated(n, k, lo, hi, wrong);
    assert Ascending(w, AtMost);
    SortedStays(w);
  }

  lemma MeanExceeds(s: seq<int>, hi: int)
    requires s != [] && Sum(s) > hi * |s|
    ensures Mean(s) > hi as real / 1000000.0
  {
    hide Sum;
    Exact(hi, |s|);
    Difference(Sum(s) as real, (hi * |s|) as real, |s| as real);
    StrictQuotient((Sum(s) - hi * |s|) as real, |s| as real);
  }

  lemma {:induction false} SumExceeds(s: seq<int>, hi: int)
    requires s != [] && (forall i | 0 <= i < |s| :: s[i] >= hi) && s[|s| - 1] > hi
    ensures Sum(s) > hi * |s|
  {
    var n := |s| - 1;
    SumAtLeast(s[..n], hi);
    assert hi * |s| == hi * n + hi;
  }

  lemma {:induction false} SumAtLeast(s: seq<int>, lo: int)
    requires forall i | 0 <= i < |s| :: s[i] >= lo
    ensures Sum(s) >= lo * |s|
  {
    if s != [] {
      SumAtLeast(s[..|s| - 1], lo);
      assert lo * |s| == lo * (|s| - 1) + lo;
    }
  }

  /** With one outlier more than a tenth, the trimmed mean can leave the range of the good samples. */
  lemma SmoothedBreaks(n: nat, k: nat, lo: int, hi: int, wrong: int)
    requires n >= 10 && n / 10 < k <= n && lo <= hi < wrong
    ensures var w := Contaminated(n, k, hi, wrong);
            Outliers(w, lo, hi) == k && Smoothed(w) > hi as real / 1000000.0
  {
    var w := Contaminated(n, k, hi, wrong);
    CountContaminated(n, k, lo, hi, wrong);
    assert Ascending(w, AtMost);
    SortedStays(w);
    var s := Inner(w);
    assert forall i | 0 <= i < |s| :: s[i] == w[n / 10 + i];
    hide Outliers, Ascending, Contaminated;
    SumExceeds(s, hi);
    MeanExceeds(s, hi);
    hide Inner, Mean;
  }

  lemma StrictQuotient(x: real, y: real)
    requires x > 0.0 && y > 0.0
    ensures x / y > 0.0
  {}
}
