/**
 Names of bag slices: the start time as a string of digits, with a counter behind it when the
 name is taken. Lexicographic order, by which old slices are deleted first, is time order.
 */
module SliceNames {
  import opened Sorting

  // ---------------------------------------------------------------- lexicographic order

  /** The order of std::string. */
  predicate LexLeq(a: string, b: string) {
    a == "" || (b != "" && (a[0] < b[0] || (a[0] == b[0] && LexLeq(a[1..], b[1..]))))
  }

  predicate LexLess(a: string, b: string) {
    !LexLeq(b, a)
  }

  lemma {:induction false} LexTotal(a: string, b: string)
    ensures LexLeq(a, b) || LexLeq(b, a)
    ensures LexLeq(a, b) && LexLeq(b, a) ==> a == b
  {
    if a != "" && b != "" {
      LexTotal(a[1..], b[1..]);
      assert a == [a[0]] + a[1..] && b == [b[0]] + b[1..];
    }
  }

  lemma {:induction false} LexTransitive(a: string, b: string, c: string)
    requires LexLeq(a, b) && LexLeq(b, c)
    ensures LexLeq(a, c)
  {
    if a != "" && b[0] == a[0] && c[0] == a[0] { LexTransitive(a[1..], b[1..], c[1..]); }
  }

  lemma LexIsAnOrder()
    ensures TotalPreorder(LexLeq) && forall a, b :: LexLeq(a, b) && LexLeq(b, a) ==> a == b
  {
    forall a, b
      ensures LexLeq(a, b) || LexLeq(b, a)
      ensures LexLeq(a, b) && LexLeq(b, a) ==> a == b
    {
      LexTotal(a, b);
    }
    forall a, b, c | LexLeq(a, b) && LexLeq(b, c)
      ensures LexLeq(a, c)
    {
      LexTransitive(a, b, c);
    }
  }

  /** A common front does not matter. */
  lemma {:induction false} LexSameFront(front: string, a: string, b: string)
    ensures LexLeq(front + a, front + b) == LexLeq(a, b)
  {
    if front == "" {
      assert front + a == a && front + b == b;
    } else {
      assert (front + a)[1..] == front[1..] + a && (front + b)[1..] == front[1..] + b;
      LexSameFront(front[1..], a, b);
    }
  }

  /** Of equally long fronts, the smaller decides. */
  lemma {:induction false} LexFrontDecides(a: string, b: string, x: string, y: string)
    requires |a| == |b| && LexLess(a, b)
    ensures LexLess(a + x, b + y)
  {
    assert (a + x)[1..] == a[1..] + x && (b + y)[1..] == b[1..] + y;
    if a[0] == b[0] { LexFrontDecides(a[1..], b[1..], x, y); }
  }

  // ---------------------------------------------------------------- numbers

  function DigitChar(d: nat): char
    requires d < 10
  {
    "0123456789"[d]
  }

  /** printf's "%0wd" for a non-negative number, and "%d" for w = 1. */
  function Padded(n: nat, w: nat): (r: string)
    ensures |r| > 0 && |r| >= w
    decreases n + w
  {
    if n < 10 && w <= 1 then [DigitChar(n)]
    else Padded(n / 10, if w > 0 then w - 1 else 0) + [DigitChar(n % 10)]
  }

  function PowerOfTen(w: nat): (r: nat)
    ensures r >= 1
  {
    if w == 0 then 1 else 10 * PowerOfTen(w - 1)
  }

  lemma {:induction false} PaddedLength(n: nat, w: nat)
    requires w >= 1 && n < PowerOfTen(w)
    ensures |Padded(n, w)| == w
    decreases w
  {
    if w > 1 { PaddedLength(n / 10, w - 1); }
  }

  lemma DigitOrder(c: nat, d: nat)
    requires c < 10 && d < 10
    ensures DigitChar(c) < DigitChar(d) <==> c < d
    ensures DigitChar(c) == DigitChar(d) <==> c == d
  {}

  lemma PaddedSplit(n: nat, w: nat) returns (q: nat, d: nat)
    requires w > 1 && n < PowerOfTen(w)
    ensures n == 10 * q + d && d < 10 && q < PowerOfTen(w - 1)
    ensures Padded(n, w) == Padded(q, w - 1) + [DigitChar(d)] && |Padded(q, w - 1)| == w - 1
  {
    q, d := n / 10, n % 10;
    PaddedLength(q, w - 1);
  }

  lemma LastDigitDecides(a: string, c: nat, d: nat)
    requires c < d < 10
    ensures LexLess(a + [DigitChar(c)], a + [DigitChar(d)])
  {
    DigitOrder(c, d);
    LexSameFront(a, [DigitChar(d)], [DigitChar(c)]);
  }

  lemma OneDigitOrder(m: nat, n: nat)
    requires m < n < PowerOfTen(1)
    ensures LexLess(Padded(m, 1), Padded(n, 1))
  {
    hide LexLess;
    LastDigitDecides("", m, n);
    assert Padded(m, 1) == "" + [DigitChar(m)] && Padded(n, 1) == "" + [DigitChar(n)];
  }

  /** Numbers of the same width are ordered as their digits. */
  lemma {:induction false} PaddedOrder(m: nat, n: nat, w: nat)
    requires w >= 1 && m < n < PowerOfTen(w)
    ensures LexLess(Padded(m, w), Padded(n, w))
    decreases w
  {
    hide *;
    if w == 1 {
      OneDigitOrder(m, n);
    } else {
      var p, c := PaddedSplit(m, w);
      var q, d := PaddedSplit(n, w);
      if p < q {
        PaddedOrder(p, q, w - 1);
        LexFrontDecides(Padded(p, w - 1), Padded(q, w - 1), [DigitChar(c)], [DigitChar(d)]);
      } else {
        LastDigitDecides(Padded(p, w - 1), c, d);
      }
    }
  }

  /** Different numbers are written differently. */
  lemma {:induction false} DecimalIsInjective(m: nat, n: nat)
    requires Padded(m, 1) == Padded(n, 1)
    ensures m == n
    decreases m
  {
    DigitOrder(m % 10, n % 10);
    assert Padded(m, 1)[|Padded(m, 1)| - 1] == DigitChar(m % 10) && Padded(n, 1)[|Padded(n, 1)| - 1] == DigitChar(n % 10);
    if m >= 10 && n >= 10 {
      NoPadding(m / 10);
      NoPadding(n / 10);
      assert Padded(m, 1)[..|Padded(m, 1)| - 1] == Padded(m / 10, 0);
      assert Padded(n, 1)[..|Padded(n, 1)| - 1] == Padded(n / 10, 0);
      DecimalIsInjective(m / 10, n / 10);
    }
  }

  lemma {:induction false} NoPadding(n: nat)
    ensures Padded(n, 0) == Padded(n, 1)
  {}

  // ---------------------------------------------------------------- timestamps

  datatype Stamp = Stamp(year: nat, month: nat, day: nat, hour: nat, minute: nat, second: nat)

  /** What localtime_r gives before the year 10000. */
  predicate InRange(s: Stamp) {
    s.year < 10000 && s.month < 100 && s.day < 100 && s.hour < 100 && s.minute < 100 && s.second < 100
  }

  predicate Before(s: Stamp, t: Stamp) {
    s.year < t.year || (s.year == t.year &&
    (s.month < t.month || (s.month == t.month &&
    (s.day < t.day || (s.day == t.day &&
    (s.hour < t.hour || (s.hour == t.hour &&
    (s.minute < t.minute || (s.minute == t.minute && s.second < t.second)))))))))
  }

  function FormatTimestamp(s: Stamp): string {
    Padded(s.year, 4) + (Padded(s.month, 2) + (Padded(s.day, 2) + (Padded(s.hour, 2) + (Padded(s.minute, 2) + Padded(s.second, 2)))))
  }

  /** Comparing two numbers of the same width and what follows them. */
  lemma FieldDecides(m: nat, n: nat, w: nat, x: string, y: string)
    requires w >= 1 && m < PowerOfTen(w) && n < PowerOfTen(w)
    ensures m < n ==> LexLess(Padded(m, w) + x, Padded(n, w) + y)
    ensures m == n ==> LexLess(Padded(m, w) + x, Padded(n, w) + y) == LexLess(x, y)
  {
    PaddedLength(m, w);
    PaddedLength(n, w);
    if m < n {
      PaddedOrder(m, n, w);
      LexFrontDecides(Padded(m, w), Padded(n, w), x, y);
    } else if m == n {
      LexSameFront(Padded(m, w), y, x);
    }
  }

  /** Earlier times have smaller names, whatever stands behind the times. */
  lemma EarlierIsSmaller(s: Stamp, t: Stamp, x: string, y: string)
    requires InRange(s) && InRange(t) && Before(s, t)
    ensures LexLess(FormatTimestamp(s) + x, FormatTimestamp(t) + y)
  {
    assert PowerOfTen(2) == 100 && PowerOfTen(4) == 10000;
    hide Padded, LexLeq, LexLess, PowerOfTen;
    var s6, t6 := Padded(s.second, 2) + x, Padded(t.second, 2) + y;
    var s5, t5 := Padded(s.minute, 2) + s6, Padded(t.minute, 2) + t6;
    var s4, t4 := Padded(s.hour, 2) + s5, Padded(t.hour, 2) + t5;
    var s3, t3 := Padded(s.day, 2) + s4, Padded(t.day, 2) + t4;
    var s2, t2 := Padded(s.month, 2) + s3, Padded(t.month, 2) + t3;
    FieldDecides(s.year, t.year, 4, s2, t2);
    FieldDecides(s.month, t.month, 2, s3, t3);
    FieldDecides(s.day, t.day, 2, s4, t4);
    FieldDecides(s.hour, t.hour, 2, s5, t5);
    FieldDecides(s.minute, t.minute, 2, s6, t6);
    FieldDecides(s.second, t.second, 2, x, y);
    BehindTheTime(s, x);
    BehindTheTime(t, y);
  }

  lemma BehindTheTime(s: Stamp, x: string)
    ensures FormatTimestamp(s) + x ==
            Padded(s.year, 4) + (Padded(s.month, 2) + (Padded(s.day, 2) + (Padded(s.hour, 2)
            + (Padded(s.minute, 2) + (Padded(s.second, 2) + x)))))
  {
    hide Padded;
  }

  /** Names without a counter are ordered exactly as their times. */
  lemma NameOrderIsTimeOrder(s: Stamp, t: Stamp)
    requires InRange(s) && InRange(t)
    ensures LexLess(FormatTimestamp(s), FormatTimestamp(t)) <==> Before(s, t)
    ensures FormatTimestamp(s) == FormatTimestamp(t) <==> s == t
  {
    var a, b := FormatTimestamp(s), FormatTimestamp(t);
    assert a + "" == a && b + "" == b;
    hide FormatTimestamp;
    if Before(s, t) { EarlierIsSmaller(s, t, "", ""); }
    if Before(t, s) { EarlierIsSmaller(t, s, "", ""); }
    LexTotal(a, b);
  }

  // ---------------------------------------------------------------- taken names

  /** The names tried in turn. */
  function Candidate(base: string, i: nat): string {
    if i == 0 then base else base + "_" + Padded(i, 1)
  }

  lemma CandidatesDiffer(base: string, i: nat, j: nat)
    requires Candidate(base, i) == Candidate(base, j)
    ensures i == j
  {
    if i > 0 && j > 0 {
      assert Candidate(base, i)[|base| + 1..] == Padded(i, 1) && Candidate(base, j)[|base| + 1..] == Padded(j, 1);
      DecimalIsInjective(i, j);
    }
  }

  /** A name with a counter comes after the bare one and before every name of a later time. */
  lemma CounterStaysWithinSecond(s: Stamp, t: Stamp, i: nat, j: nat)
    requires InRange(s) && InRange(t) && Before(s, t) && i > 0
    ensures LexLess(FormatTimestamp(s), Candidate(FormatTimestamp(s), i))
    ensures LexLess(Candidate(FormatTimestamp(s), i), Candidate(FormatTimestamp(t), j))
  {
    var a, b := FormatTimestamp(s), FormatTimestamp(t);
    var x := "_" + Padded(i, 1);
    var y := if j == 0 then "" else "_" + Padded(j, 1);
    assert Candidate(a, i) == a + x && Candidate(b, j) == b + y;
    EarlierIsSmaller(s, t, x, y);
    assert a == a + "";
    LexSameFront(a, x, "");
  }

  /** The collision loop ends, with the first name that is not taken. */
  method FreshName(base: string, taken: set<string>) returns (name: string, ghost k: nat)
    ensures name == Candidate(base, k) && name !in taken
    ensures forall j | 0 <= j < k :: Candidate(base, j) in taken
  {
    name := base;
    k := 0;
    var i := 1;
    ghost var untried := taken;
    while name in taken
      invariant i == k + 1 && name == Candidate(base, k)
      invariant forall j | 0 <= j < k :: Candidate(base, j) in taken
      invariant untried <= taken && forall x | x in taken && x !in untried :: exists j | 0 <= j < k :: Candidate(base, j) == x
      decreases |untried|
    {
      if name !in untried {
        var j :| 0 <= j < k && Candidate(base, j) == name;
        CandidatesDiffer(base, j, k);
      }
      untried := untried - {name};
      name := base + "_" + Padded(i, 1);
      i := i + 1;
      k := k + 1;
    }
  }
}
