/**
 Sorting as the programs' library calls promise it: a permutation of the input, ascending,
 that keeps the order of elements that compare equal.
 */
module Sorting {

  ghost predicate TotalPreorder<T(!new)>(le: (T, T) -> bool) {
    (forall x, y :: le(x, y) || le(y, x)) && (forall x, y, z :: le(x, y) && le(y, z) ==> le(x, z))
  }

  ghost predicate Ascending<T>(s: seq<T>, le: (T, T) -> bool) {
    forall i, j | 0 <= i < j < |s| :: le(s[i], s[j])
  }

  /** The number of leading elements that go before x. */
  function Place<T>(x: T, s: seq<T>, le: (T, T) -> bool): (k: nat)
    ensures k <= |s| && (forall i | 0 <= i < k :: !le(x, s[i])) && (k < |s| ==> le(x, s[k]))
  {
    if s == [] || le(x, s[0]) then 0
    else
      var k := Place(x, s[1..], le);
      assert forall i | 1 <= i <= k :: s[i] == s[1..][i - 1];
      k + 1
  }

  function Insert<T>(x: T, s: seq<T>, le: (T, T) -> bool): (r: seq<T>) {
    var k := Place(x, s, le);
    s[..k] + [x] + s[k..]
  }

  function SortBy<T>(s: seq<T>, le: (T, T) -> bool): (r: seq<T>) {
    if s == [] then [] else Insert(s[0], SortBy(s[1..], le), le)
  }

  lemma InsertAscends<T(!new)>(x: T, s: seq<T>, le: (T, T) -> bool)
    requires TotalPreorder(le) && Ascending(s, le)
    ensures Ascending(Insert(x, s, le), le)
  {
    var k := Place(x, s, le);
    var r := Insert(x, s, le);
    forall i, j | 0 <= i < j < |r|
      ensures le(r[i], r[j])
    {
      assert r[i] == if i < k then s[i] else if i == k then x else s[i - 1];
      assert r[j] == if j < k then s[j] else if j == k then x else s[j - 1];
      if i == k && k < j - 1 { assert le(x, s[k]) && le(s[k], s[j - 1]); }
    }
  }

  lemma {:induction false} SortAscends<T(!new)>(s: seq<T>, le: (T, T) -> bool)
    requires TotalPreorder(le)
    ensures Ascending(SortBy(s, le), le)
  {
    if s != [] {
      SortAscends(s[1..], le);
      InsertAscends(s[0], SortBy(s[1..], le), le);
    }
  }

  lemma InsertAdds<T>(x: T, s: seq<T>, le: (T, T) -> bool)
    ensures multiset(Insert(x, s, le)) == multiset{x} + multiset(s)
  {
    var k := Place(x, s, le);
    hide Place;
    assert s == s[..k] + s[k..];
  }

  lemma {:induction false} SortPermutes<T>(s: seq<T>, le: (T, T) -> bool)
    ensures multiset(SortBy(s, le)) == multiset(s) && |SortBy(s, le)| == |s|
  {
    if s != [] {
      SortPermutes(s[1..], le);
      InsertAdds(s[0], SortBy(s[1..], le), le);
      hide Insert;
      assert s == [s[0]] + s[1..];
      assert |multiset(SortBy(s, le))| == |SortBy(s, le)|;
    }
  }

  /** The elements of s that compare equal to x, in order. */
  function Alike<T>(s: seq<T>, x: T, le: (T, T) -> bool): seq<T> {
    if s == [] then [] else (if le(s[0], x) && le(x, s[0]) then [s[0]] else []) + Alike(s[1..], x, le)
  }

  lemma {:induction false} AlikeOfConcat<T>(a: seq<T>, b: seq<T>, x: T, le: (T, T) -> bool)
    ensures Alike(a + b, x, le) == Alike(a, x, le) + Alike(b, x, le)
  {
    if a == [] {
      assert a + b == b;
    } else {
      assert (a + b)[1..] == a[1..] + b;
      AlikeOfConcat(a[1..], b, x, le);
    }
  }

  lemma {:induction false} NoneAlike<T(!new)>(s: seq<T>, x: T, le: (T, T) -> bool)
    requires forall i | 0 <= i < |s| :: !(le(s[i], x) && le(x, s[i]))
    ensures Alike(s, x, le) == []
  {
    if s != [] {
      assert forall i | 0 <= i < |s| - 1 :: s[1..][i] == s[i + 1];
      NoneAlike(s[1..], x, le);
    }
  }

  lemma PassOver<T>(a: seq<T>, y: seq<T>, b: seq<T>)
    requires a == [] || y == []
    ensures a + y + b == y + (a + b)
  {}

  /** An element inserted in front of its equals becomes the first of them. */
  lemma InsertAlike<T(!new)>(y: T, r: seq<T>, x: T, le: (T, T) -> bool)
    requires TotalPreorder(le)
    ensures Alike(Insert(y, r, le), x, le) == Alike([y] + r, x, le)
  {
    var k := Place(y, r, le);
    if le(y, x) && le(x, y) {
      NoneAlike(r[..k], x, le);
    } else {
      assert Alike([y], x, le) == [];
    }
    hide Alike, TotalPreorder, Place;
    PartsAlike(r[..k], y, r[k..], x, le);
    assert r[..k] + r[k..] == r;
  }

  lemma PartsAlike<T(!new)>(a: seq<T>, y: T, b: seq<T>, x: T, le: (T, T) -> bool)
    requires Alike(a, x, le) == [] || Alike([y], x, le) == []
    ensures Alike(a + [y] + b, x, le) == Alike([y] + (a + b), x, le)
  {
    AlikeOfConcat(a + [y], b, x, le);
    AlikeOfConcat(a, [y], x, le);
    AlikeOfConcat(a, b, x, le);
    AlikeOfConcat([y], a + b, x, le);
    hide Alike;
    PassOver(Alike(a, x, le), Alike([y], x, le), Alike(b, x, le));
  }

  /** Elements that compare equal keep their order. */
  lemma {:induction false} SortIsStable<T(!new)>(s: seq<T>, x: T, le: (T, T) -> bool)
    requires TotalPreorder(le)
    ensures Alike(SortBy(s, le), x, le) == Alike(s, x, le)
  {
    if s != [] {
      SortIsStable(s[1..], x, le);
      InsertAlike(s[0], SortBy(s[1..], le), x, le);
      hide Insert, TotalPreorder;
      AlikeOfConcat([s[0]], s[1..], x, le);
      AlikeOfConcat([s[0]], SortBy(s[1..], le), x, le);
      assert s == [s[0]] + s[1..];
    }
  }

  /** In an order without ties, the ascending arrangement of given elements is unique. */
  lemma {:induction false} AscendingIsUnique<T(!new)>(a: seq<T>, b: seq<T>, le: (T, T) -> bool)
    requires TotalPreorder(le) && (forall x, y :: le(x, y) && le(y, x) ==> x == y)
    requires Ascending(a, le) && Ascending(b, le) && multiset(a) == multiset(b)
    ensures a == b
  {
    assert |a| == |multiset(a)| == |multiset(b)| == |b|;
    if a != [] {
      LeastFirst(a, b, le);
      LeastFirst(b, a, le);
      SameTails(a, b);
      AscendingIsUnique(a[1..], b[1..], le);
      assert a == [a[0]] + a[1..] && b == [b[0]] + b[1..];
    }
  }

  lemma SameTails<T>(a: seq<T>, b: seq<T>)
    requires a != [] && b != [] && a[0] == b[0] && multiset(a) == multiset(b)
    ensures multiset(a[1..]) == multiset(b[1..])
  {
    assert a == [a[0]] + a[1..] && b == [b[0]] + b[1..];
    assert multiset(a[1..]) == multiset(a) - multiset{a[0]};
    assert multiset(b[1..]) == multiset(b) - multiset{b[0]};
  }

  lemma LeastFirst<T(!new)>(a: seq<T>, b: seq<T>, le: (T, T) -> bool)
    requires TotalPreorder(le) && Ascending(b, le) && a != [] && b != [] && multiset(a) == multiset(b)
    ensures le(b[0], a[0])
  {
    assert a[0] in multiset(b);
    var i :| 0 <= i < |b| && b[i] == a[0];
    assert le(b[0], b[0]);
  }
}
