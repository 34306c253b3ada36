/**
 The documentation generator's loading of dialects: following includes to a bounded depth, then
 merging included dialects bottom up in passes. Both loops together compute recursive lookup.
 */
module XmlFiles {
  import opened Wrappers
  import opened Dialects
  import opened Sorting

  /** A dialect with another one's tables merged in. */
  function Joined(dialect: Dialect, other: Dialect): Dialect {
    Dialect(dialect.includes, Merge(dialect.messages, other.messages), Merge(dialect.commands, other.commands))
  }

  /** The tables of some loaded dialects. */
  function TablesOf(view: View, names: seq<Name>, kind: Kind): (tables: seq<seq<Entry>>)
    requires forall n <- names :: n in view
    ensures |tables| == |names|
  {
    seq(|names|, i requires 0 <= i < |names| => view[names[i]].Table(kind))
  }

  /** A dialect with the tables of others merged in, in order. */
  ghost predicate JoinsAll(view: View, own: Dialect, names: seq<Name>, d: Dialect) {
    && (forall n <- names :: n in view)
    && forall kind :: d.Table(kind) == MergeMany(own.Table(kind), TablesOf(view, names, kind))
  }

  lemma JoinsNone(view: View, own: Dialect)
    ensures JoinsAll(view, own, [], own)
  {}

  lemma JoinsOneMore(view: View, own: Dialect, names: seq<Name>, j: nat, d: Dialect)
    requires j < |names| && JoinsAll(view, own, names[..j], d) && names[j] in view
    ensures JoinsAll(view, own, names[..j + 1], Joined(d, view[names[j]]))
  {
    assert names[..j + 1] == names[..j] + [names[j]];
    hide Merge, MergeMany, TablesOf;
    forall kind: Kind
      ensures Joined(d, view[names[j]]).Table(kind) == MergeMany(own.Table(kind), TablesOf(view, names[..j + 1], kind))
    {
      OneMoreTable(view, names[..j], names[j], own.Table(kind), kind);
    }
  }

  lemma OneMoreTable(view: View, names: seq<Name>, last: Name, table: seq<Entry>, kind: Kind)
    requires last in view && forall n <- names :: n in view
    ensures forall n <- names + [last] :: n in view
    ensures MergeMany(table, TablesOf(view, names + [last], kind)) ==
            Merge(MergeMany(table, TablesOf(view, names, kind)), view[last].Table(kind))
  {
    var tables := TablesOf(view, names + [last], kind);
    assert tables[..|names|] == TablesOf(view, names, kind);
    hide Merge;
  }

  /** One loaded definition file. */
  class MAVXML {
    const basename: Name
    const includes: seq<Name>
    var messages: seq<Entry>
    var commands: seq<Entry>

    function Value(): Dialect
      reads this
    {
      Dialect(includes, messages, commands)
    }

    constructor (name: Name, file: File)
      ensures basename == name && includes == Names(file.includes) && Value() == Parse(file)
      ensures AscendingKeys(messages) && AscendingKeys(commands)
    {
      basename := name;
      includes := Names(file.includes);
      var table := Tabulate(file.messages);
      messages := table;
      table := Tabulate(file.commands);
      commands := table;
    }

    /** Definitions entered one by one into a dictionary, which is then sorted. */
    static method Tabulate(definitions: seq<Entry>) returns (table: seq<Entry>)
      ensures table == Sorted(Collect(definitions)) && AscendingKeys(table)
    {
      table := [];
      for i := 0 to |definitions|
        invariant table == Collect(definitions[..i])
      {
        assert definitions[..i + 1][..i] == definitions[..i];
        table := Put(table, definitions[i]);
      }
      assert definitions[..|definitions|] == definitions;
      SortedAscends(table);
      table := Sorted(table);
    }

    static method Join(table: seq<Entry>, more: seq<Entry>) returns (r: seq<Entry>)
      ensures r == Merge(table, more) && AscendingKeys(r)
    {
      r := table;
      for i := 0 to |more|
        invariant r == AddMissing(table, more[..i])
      {
        assert more[..i + 1][..i] == more[..i];
        if Get(r, more[i].name).None? { r := r + [more[i]]; }
      }
      assert more[..|more|] == more;
      SortedAscends(r);
      r := Sorted(r);
    }

    method MergeIn(other: MAVXML)
      modifies this
      ensures Value() == Joined(old(Value()), old(other.Value()))
      ensures AscendingKeys(messages) && AscendingKeys(commands)
    {
      var joined := Join(commands, other.commands);
      messages := Join(messages, other.messages);
      commands := joined;
    }
  }

  ghost function SetOf(s: seq<Name>): set<Name> {
    set x | x in s
  }

  ghost predicate NoRepeats(s: seq<Name>) {
    forall i, j | 0 <= i < j < |s| :: s[i] != s[j]
  }

  lemma {:induction false} CountDistinct(s: seq<Name>)
    requires NoRepeats(s)
    ensures |SetOf(s)| == |s|
  {
    if s != [] {
      var n := |s| - 1;
      CountDistinct(s[..n]);
      assert SetOf(s) == SetOf(s[..n]) + {s[n]};
    }
  }

  ghost predicate Lists(s: seq<Name>, keys: set<Name>) {
    NoRepeats(s) && SetOf(s) == keys
  }

  lemma ListsOneMore(s: seq<Name>, keys: set<Name>, x: Name)
    requires Lists(s, keys)
    ensures if x in keys then keys + {x} == keys else Lists(s + [x], keys + {x})
  {}

  lemma IncludedByOneMore(fs: Files, names: seq<Name>, i: nat)
    requires i < |names|
    ensures Included(fs, SetOf(names[..i + 1])) == Included(fs, SetOf(names[..i])) + SetOf(IncludesOf(fs, names[i]))
  {
    hide IncludesOf;
    assert SetOf(names[..i + 1]) == SetOf(names[..i]) + {names[i]};
  }

  /** Of some names, all but those still to add have been added to the keys. */
  ghost predicate Adding<T>(before: set<T>, names: set<T>, toAdd: set<T>, keys: set<T>, files: set<T>) {
    toAdd <= names && keys == before + (names - toAdd) && names - toAdd <= files
  }

  lemma AddingStarts<T>(before: set<T>, names: set<T>, files: set<T>)
    ensures Adding(before, names, names, before, files)
  {}

  lemma AddingOne<T>(before: set<T>, names: set<T>, toAdd: set<T>, keys: set<T>, files: set<T>, name: T)
    requires Adding(before, names, toAdd, keys, files) && name in toAdd
    ensures if name in files then Adding(before, names, toAdd - {name}, keys + {name}, files) else !(names <= files)
  {}

  lemma AddingEnds<T>(before: set<T>, names: set<T>, keys: set<T>, files: set<T>)
    ensures Adding(before, names, {}, keys, files) ==> keys == before + names && names <= files
  {}

  lemma Subset<T>(a: set<T>, b: set<T>)
    requires a <= b
    ensures |a| <= |b| && (|a| == |b| <==> b <= a)
  {
    assert b == a + (b - a);
  }

  // ---------------------------------------------------------------- progress of merging

  /** A dialect has its own tables and those of its includes merged in, one after the other. */
  ghost predicate MergedInOrder(fs: Files, view: View, n: Name) {
    n in fs && n in view && JoinsAll(view, Parse(fs[n]), IncludesOf(fs, n), view[n])
  }

  /** The completed dialects are flattened and the others are as loaded. */
  ghost predicate Progress(fs: Files, view: View, done: seq<Name>) {
    && NoRepeats(done) && IncludesFirst(fs, done)
    && (forall n <- done :: Flattened(fs, view, n) && MergedInOrder(fs, view, n))
    && (forall n <- view :: n in fs && (n !in done ==> view[n] == Parse(fs[n])))
  }

  /** A dialect after merging its first j includes. */
  ghost predicate MergedUpTo(fs: Files, view: View, name: Name, dialect: Dialect, j: nat)
    requires ReadyToMerge(fs, view, name) && j <= |IncludesOf(fs, name)|
  {
    && dialect.includes == IncludesOf(fs, name) && WellFormed(dialect)
    && forall kind, key ::
         Get(dialect.Table(kind), key) ==
         var own := LastOf(Own(fs[name], kind), key);
         if own.Some? then own else FirstIn(view, IncludesOf(fs, name)[..j], kind, key)
  }

  lemma NothingMerged(fs: Files, view: View, name: Name)
    requires ReadyToMerge(fs, view, name)
    ensures MergedUpTo(fs, view, name, Parse(fs[name]), 0)
  {
    hide Sorted, Collect, AscendingKeys;
    var d := Parse(fs[name]);
    forall kind
      ensures Unique(d.Table(kind)) && AscendingKeys(d.Table(kind))
    {
      ParseGet(fs[name], kind, "");
    }
    forall kind, key
      ensures Get(d.Table(kind), key) == LastOf(Own(fs[name], kind), key)
    {
      ParseGet(fs[name], kind, key);
    }
  }

  /** What a name means after merging. */
  lemma JoinedGet(d: Dialect, m: Dialect, kind: Kind, key: string)
    requires WellFormed(d) && WellFormed(m)
    ensures WellFormed(Joined(d, m))
    ensures var own := Get(d.Table(kind), key);
            Get(Joined(d, m).Table(kind), key) == if own.Some? then own else Get(m.Table(kind), key)
  {
    hide Merge, AscendingKeys, Unique, Get;
    assert forall k :: Unique(d.Table(k)) && Unique(m.Table(k));
    forall k: Kind
      ensures Unique(Joined(d, m).Table(k)) && AscendingKeys(Joined(d, m).Table(k))
    {
      MergeGet(d.Table(k), m.Table(k), "");
    }
    MergeGet(d.Table(kind), m.Table(kind), key);
  }

  /** Merging in another include. */
  lemma OneMoreMerged(fs: Files, view: View, name: Name, d: Dialect, j: nat)
    requires ReadyToMerge(fs, view, name) && j < |IncludesOf(fs, name)| && MergedUpTo(fs, view, name, d, j)
    ensures MergedUpTo(fs, view, name, Joined(d, view[IncludesOf(fs, name)[j]]), j + 1)
  {
    var incs := IncludesOf(fs, name);
    var m := view[incs[j]];
    var e := Joined(d, m);
    assert incs[..j + 1][..j] == incs[..j];
    assert e.includes == d.includes;
    JoinedGet(d, m, Message, "");
    hide IncludesOf, Get, WellFormed, Joined, LastOf, Own;
    forall kind, key
      ensures Get(e.Table(kind), key) ==
              var own := LastOf(Own(fs[name], kind), key);
              if own.Some? then own else FirstIn(view, incs[..j + 1], kind, key)
    {
      JoinedGet(d, m, kind, key);
    }
  }

  lemma {:induction false} FirstInUnchanged(view: View, view': View, includes: seq<Name>, kind: Kind, key: string)
    requires forall inc <- includes :: inc in view && inc in view' && view'[inc] == view[inc]
    ensures FirstIn(view', includes, kind, key) == FirstIn(view, includes, kind, key)
  {
    if includes != [] { FirstInUnchanged(view, view', includes[..|includes| - 1], kind, key); }
  }

  lemma FlattenedUnchanged(fs: Files, view: View, view': View, n: Name)
    requires Flattened(fs, view, n) && n in view' && view'[n] == view[n]
    requires forall inc <- IncludesOf(fs, n) :: inc in view' && view'[inc] == view[inc]
    ensures Flattened(fs, view', n)
  {
    forall kind, key
      ensures FirstIn(view', IncludesOf(fs, n), kind, key) == FirstIn(view, IncludesOf(fs, n), kind, key)
    {
      FirstInUnchanged(view, view', IncludesOf(fs, n), kind, key);
    }
    hide FirstIn, IncludesOf;
  }

  lemma OrderUnchanged(fs: Files, view: View, view': View, n: Name)
    requires MergedInOrder(fs, view, n) && n in view' && view'[n] == view[n]
    requires forall inc <- IncludesOf(fs, n) :: inc in view' && view'[inc] == view[inc]
    ensures MergedInOrder(fs, view', n)
  {
    hide MergeMany, Parse, IncludesOf;
    assert forall kind :: TablesOf(view', IncludesOf(fs, n), kind) == TablesOf(view, IncludesOf(fs, n), kind);
  }

  lemma IncludesFirstOneMore(fs: Files, done: seq<Name>, name: Name)
    requires IncludesFirst(fs, done) && forall inc <- IncludesOf(fs, name) :: inc in done
    ensures IncludesFirst(fs, done + [name])
  {
    var more := done + [name];
    hide IncludesOf;
    assert forall i | 0 <= i < |done| :: more[i] == done[i] && more[..i] == done[..i];
    assert more[..|done|] == done;
  }

  /** A dialect that has merged all its includes is one more completed dialect. */
  lemma OneMoreDone(fs: Files, view: View, done: seq<Name>, name: Name, d: Dialect)
    requires Progress(fs, view, done) && name in view && name !in done
    requires ReadyToMerge(fs, view, name) && (forall inc <- IncludesOf(fs, name) :: inc in done)
    requires MergedUpTo(fs, view, name, d, |IncludesOf(fs, name)|)
    requires JoinsAll(view, Parse(fs[name]), IncludesOf(fs, name), d)
    ensures Progress(fs, view[name := d], done + [name])
  {
    hide Flattened, MergedInOrder, IncludesOf, MergedUpTo, IncludesFirst, JoinsAll, Parse;
    IncludesFirstOneMore(fs, done, name);
    JustFlattened(fs, view, name, d);
    JustInOrder(fs, view, name, d);
    AllStillFlattened(fs, view, done, name, d);
    hide ReadyToMerge;
  }

  lemma AllStillFlattened(fs: Files, view: View, done: seq<Name>, name: Name, d: Dialect)
    requires Progress(fs, view, done) && name !in done
    ensures forall n <- done :: Flattened(fs, view[name := d], n) && MergedInOrder(fs, view[name := d], n)
  {
    hide *;
    forall n <- done
      ensures Flattened(fs, view[name := d], n) && MergedInOrder(fs, view[name := d], n)
    {
      StillFlattened(fs, view, done, name, d, n);
    }
  }

  lemma StillFlattened(fs: Files, view: View, done: seq<Name>, name: Name, d: Dialect, n: Name)
    requires Progress(fs, view, done) && name !in done && n in done
    ensures Flattened(fs, view[name := d], n) && MergedInOrder(fs, view[name := d], n)
  {
    hide Flattened, MergedInOrder, IncludesOf;
    var i :| 0 <= i < |done| && done[i] == n;
    assert forall inc <- IncludesOf(fs, n) :: inc in done;
    IncludesAreLoaded(fs, view, n);
    FlattenedUnchanged(fs, view, view[name := d], n);
    OrderUnchanged(fs, view, view[name := d], n);
  }

  lemma JustFlattened(fs: Files, view: View, name: Name, d: Dialect)
    requires name in fs && name in view
    requires ReadyToMerge(fs, view, name)
    requires MergedUpTo(fs, view, name, d, |IncludesOf(fs, name)|)
    ensures Flattened(fs, view[name := d], name)
  {
    var incs := IncludesOf(fs, name);
    assert incs[..|incs|] == incs;
    forall kind, key
      ensures FirstIn(view[name := d], incs, kind, key) == FirstIn(view, incs, kind, key)
    {
      FirstInUnchanged(view, view[name := d], incs, kind, key);
    }
    hide FirstIn, IncludesOf;
  }

  lemma JustInOrder(fs: Files, view: View, name: Name, d: Dialect)
    requires ReadyToMerge(fs, view, name) && JoinsAll(view, Parse(fs[name]), IncludesOf(fs, name), d)
    ensures MergedInOrder(fs, view[name := d], name)
  {
    hide Parse, MergeMany, IncludesOf, WellFormed;
    assert forall kind :: TablesOf(view[name := d], IncludesOf(fs, name), kind) == TablesOf(view, IncludesOf(fs, name), kind);
  }

  /** What a dialect waits for has been loaded and is well formed once it is done. */
  lemma LoadedFirst(fs: Files, view: View, done: seq<Name>, name: Name)
    requires Progress(fs, view, done) && name in view && name !in done
    requires forall inc <- IncludesOf(fs, name) :: inc in done
    ensures name in fs && view[name] == Parse(fs[name]) && ReadyToMerge(fs, view, name)
  {}

  /** The includes of a dialect are loaded and well formed. */
  ghost predicate ReadyToMerge(fs: Files, view: View, name: Name) {
    name in fs && forall inc <- IncludesOf(fs, name) :: inc in view && WellFormed(view[inc]) && inc != name
  }

  ghost predicate OnlyChanged(view: View, now: View, name: Name, d: Dialect) {
    now == view[name := d]
  }

  lemma UnchangedYet(view: View, name: Name)
    requires name in view
    ensures OnlyChanged(view, view, name, view[name])
  {}

  lemma NextToMerge(fs: Files, view: View, name: Name, j: nat)
    requires ReadyToMerge(fs, view, name) && j < |IncludesOf(fs, name)|
    ensures var inc := IncludesOf(fs, name)[j]; inc in view && WellFormed(view[inc]) && inc != name
  {}

  lemma IncludesAreLoaded(fs: Files, view: View, n: Name)
    ensures Flattened(fs, view, n) ==> n in view && forall inc <- IncludesOf(fs, n) :: inc in view
  {}

  /** A dialect that cannot be completed yet. */
  ghost predicate Waiting(fs: Files, done: seq<Name>, n: Name) {
    exists inc <- IncludesOf(fs, n) :: inc !in done
  }

  /** Where all includes are loaded, a dialect of depth at most k does not wait forever: something it includes,
      directly or not, is neither done nor waiting. */
  lemma {:induction false} NotAllWait(fs: Files, names: set<Name>, done: seq<Name>, n: Name, k: nat)
    requires Closed(fs, names) && n in names && n !in done && DepthAtMost(fs, n, k)
    ensures exists m <- names :: m !in done && !Waiting(fs, done, m)
    decreases k
  {
    if Waiting(fs, done, n) {
      var inc :| inc in IncludesOf(fs, n) && inc !in done;
      assert inc in Included(fs, names);
      NotAllWait(fs, names, done, inc, k - 1);
    }
  }

  lemma InOrderIsLoaded(order: seq<Name>, keys: set<Name>, i: nat)
    requires Lists(order, keys) && i < |order|
    ensures order[i] in keys && order[i] !in order[..i]
  {
    assert order[i] in SetOf(order);
  }

  lemma LoadedIsInOrder(order: seq<Name>, keys: set<Name>)
    requires Lists(order, keys)
    ensures forall n <- keys :: exists k :: 0 <= k < |order| && order[k] == n
  {}

  /** Of the first i dialects in order, all that were ready before a pass are done. */
  ghost predicate PassedUpTo(fs: Files, before: seq<Name>, order: seq<Name>, i: nat, done: seq<Name>) {
    i <= |order| && forall k | 0 <= k < i :: !Waiting(fs, before, order[k]) ==> order[k] in done
  }

  lemma PassBegins(fs: Files, before: seq<Name>, order: seq<Name>)
    ensures PassedUpTo(fs, before, order, 0, before)
  {}

  lemma PassedOneMore(fs: Files, before: seq<Name>, order: seq<Name>, i: nat, done: seq<Name>, more: seq<Name>)
    requires PassedUpTo(fs, before, order, i, done) && i < |order| && done <= more
    requires order[i] in more || Waiting(fs, before, order[i])
    ensures PassedUpTo(fs, before, order, i + 1, more)
  {
    hide Waiting;
    assert forall n <- done :: n in more;
  }

  lemma PassEnds(fs: Files, before: seq<Name>, order: seq<Name>, keys: set<Name>, done: seq<Name>)
    requires PassedUpTo(fs, before, order, |order|, done) && Lists(order, keys)
    ensures OnlyWaiting(fs, keys, before, done)
  {
    hide Waiting;
    LoadedIsInOrder(order, keys);
  }

  lemma StillWaiting(fs: Files, before: seq<Name>, done: seq<Name>, name: Name)
    requires before <= done && Waiting(fs, done, name)
    ensures Waiting(fs, before, name)
  {
    var inc :| inc in IncludesOf(fs, name) && inc !in done;
  }

  /** The dialects without includes among the first i in order. */
  ghost predicate BasesUpTo(fs: Files, order: seq<Name>, keys: set<Name>, i: nat, done: seq<Name>) {
    && i <= |order| && NoRepeats(done)
    && (forall n <- done :: n in order[..i] && n in keys && IncludesOf(fs, n) == [])
    && (forall k | 0 <= k < i :: IncludesOf(fs, order[k]) == [] ==> order[k] in done)
  }

  lemma OneMoreBase(fs: Files, order: seq<Name>, keys: set<Name>, i: nat, done: seq<Name>)
    requires BasesUpTo(fs, order, keys, i, done) && i < |order| && order[i] in keys && order[i] !in order[..i]
    ensures BasesUpTo(fs, order, keys, i + 1, if |IncludesOf(fs, order[i])| == 0 then done + [order[i]] else done)
  {
    hide IncludesOf;
    LongerPrefix(order, i);
    assert NoRepeats(if |IncludesOf(fs, order[i])| == 0 then done + [order[i]] else done);
    hide NoRepeats;
  }

  lemma LongerPrefix<T>(s: seq<T>, i: nat)
    requires i < |s|
    ensures forall x :: x in s[..i + 1] <==> x in s[..i] || x == s[i]
  {
    assert s[..i + 1] == s[..i] + [s[i]];
  }

  /** At the start, dialects without includes are flattened as they are. */
  lemma BasesAreDone(fs: Files, view: View, done: seq<Name>)
    requires NoRepeats(done) && forall n <- view :: n in fs && view[n] == Parse(fs[n])
    requires forall n <- done :: n in view && IncludesOf(fs, n) == []
    ensures Progress(fs, view, done)
  {
    forall n <- done
      ensures Flattened(fs, view, n) && MergedInOrder(fs, view, n)
    {
      NothingMerged(fs, view, n);
      hide Parse;
      JoinsNone(view, Parse(fs[n]));
    }
  }

  ghost predicate AllIn(names: set<Name>, done: seq<Name>) {
    forall n <- names :: n in done
  }

  /** The number of completed dialects tells whether all are. */
  lemma CountDone(fs: Files, view: View, done: seq<Name>)
    requires Progress(fs, view, done)
    ensures |done| == |view.Keys| <==> AllIn(view.Keys, done)
  {
    CountDistinct(done);
    DoneAreLoaded(fs, view, done);
    AllInIsSubset(view.Keys, done);
    hide *;
    Subset(SetOf(done), view.Keys);
  }

  lemma AllInIsSubset(names: set<Name>, done: seq<Name>)
    ensures AllIn(names, done) <==> names <= SetOf(done)
  {}

  lemma SameLength<T>(before: seq<T>, after: seq<T>)
    requires before <= after && |before| == |after|
    ensures before == after
  {}

  lemma DoneAreLoaded(fs: Files, view: View, done: seq<Name>)
    requires Progress(fs, view, done)
    ensures SetOf(done) <= view.Keys
  {
    forall n <- done
      ensures n in view
    {
      assert Flattened(fs, view, n);
    }
  }

  /** All includes of some dialects are among them, and none of their include chains is longer than k. */
  ghost predicate Shallow(fs: Files, names: set<Name>, k: nat) {
    Closed(fs, names) && forall n <- names :: DepthAtMost(fs, n, k)
  }

  ghost predicate DoneTo(fs: Files, names: set<Name>, done: seq<Name>, k: nat) {
    Closed(fs, names) ==> forall n <- names :: DepthAtMost(fs, n, k) ==> n in done
  }

  ghost predicate OnlyWaiting(fs: Files, names: set<Name>, before: seq<Name>, done: seq<Name>) {
    forall n <- names :: !Waiting(fs, before, n) ==> n in done
  }

  /** One pass reaches one level further. */
  lemma OnePassDeeper(fs: Files, names: set<Name>, before: seq<Name>, done: seq<Name>, k: nat)
    requires DoneTo(fs, names, before, k) && OnlyWaiting(fs, names, before, done)
    ensures DoneTo(fs, names, done, k + 1)
  {
    if Closed(fs, names) {
      forall n <- names | DepthAtMost(fs, n, k + 1)
        ensures !Waiting(fs, before, n)
      {
        forall inc <- IncludesOf(fs, n)
          ensures inc in before
        {
          assert inc in Included(fs, names) && DepthAtMost(fs, inc, k);
        }
      }
    }
  }

  lemma BasesHaveDepthZero(fs: Files, names: set<Name>, done: seq<Name>)
    requires forall n <- names :: IncludesOf(fs, n) == [] ==> n in done
    ensures DoneTo(fs, names, done, 0)
    ensures done == [] ==> OnlyWaiting(fs, names, done, done)
  {
    forall n <- names | IncludesOf(fs, n) != []
      ensures done == [] ==> Waiting(fs, done, n)
    {
      assert IncludesOf(fs, n)[0] in IncludesOf(fs, n);
    }
  }

  /** If only waiting dialects are left and chains are bounded, none is left. */
  lemma NotStuck(fs: Files, names: set<Name>, done: seq<Name>, k: nat)
    ensures Shallow(fs, names, k) && OnlyWaiting(fs, names, done, done) ==> AllIn(names, done)
  {
    if Shallow(fs, names, k) && OnlyWaiting(fs, names, done, done) {
      forall n <- names
        ensures n in done
      {
        if n !in done { NotAllWait(fs, names, done, n, k); }
      }
    }
  }

  lemma FiveLevels(fs: Files, names: set<Name>, done: seq<Name>)
    ensures Shallow(fs, names, 5) && DoneTo(fs, names, done, 5) ==> AllIn(names, done)
  {}

  lemma IncludedEarlier(fs: Files, done: seq<Name>, i: nat, inc: Name) returns (j: nat)
    requires IncludesFirst(fs, done) && i < |done| && inc in IncludesOf(fs, done[i])
    ensures j < i && done[j] == inc
  {
    hide IncludesOf;
    j :| 0 <= j < i && done[j] == inc;
  }

  lemma OneDeeper(fs: Files, n: Name, k: nat)
    requires n in fs && forall inc <- IncludesOf(fs, n) :: k > 0 && DepthAtMost(fs, inc, k - 1)
    ensures DepthAtMost(fs, n, k)
  {
    if IncludesOf(fs, n) != [] { assert IncludesOf(fs, n)[0] in IncludesOf(fs, n); }
  }

  /** Where each comes after its includes, chains of includes end. */
  lemma {:induction false} DoneHasDepth(fs: Files, done: seq<Name>, i: nat)
    requires IncludesFirst(fs, done) && i < |done| && forall n <- done :: n in fs
    ensures DepthAtMost(fs, done[i], i)
  {
    hide IncludesFirst, IncludesOf, DepthAtMost;
    forall inc <- IncludesOf(fs, done[i])
      ensures i > 0 && DepthAtMost(fs, inc, i - 1)
    {
      var j := IncludedEarlier(fs, done, i, inc);
      DoneHasDepth(fs, done, j);
      DeeperIsFine(fs, inc, j, i - 1);
    }
    OneDeeper(fs, done[i], i);
  }

  /** Merging can only succeed where all that is included has been loaded and no chain of includes is a cycle. */
  lemma AllDoneIsShallow(fs: Files, view: View, done: seq<Name>)
    requires Progress(fs, view, done) && AllIn(view.Keys, done)
    ensures Shallow(fs, view.Keys, |view.Keys|)
  {
    CountDone(fs, view, done);
    DoneAreLoaded(fs, view, done);
    assert forall n <- done :: n in SetOf(done);
    hide Flattened, MergedInOrder, IncludesOf, IncludesFirst, DepthAtMost;
    forall n <- view
      ensures DepthAtMost(fs, n, |view.Keys|)
    {
      var i :| 0 <= i < |done| && done[i] == n;
      DoneHasDepth(fs, done, i);
      DeeperIsFine(fs, n, i, |view.Keys|);
    }
    forall n, inc | n in view.Keys && inc in IncludesOf(fs, n)
      ensures inc in view.Keys
    {
      IncludesAreLoaded(fs, view, n);
    }
  }

  /** Every loaded dialect is sorted and has, under each name, what recursive lookup finds. */
  ghost predicate IsLookup(fs: Files, view: View, k: nat) {
    forall n <- view ::
      && DepthAtMost(fs, n, k) && WellFormed(view[n])
      && forall kind, key :: Get(view[n].Table(kind), key) == Lookup(fs, n, kind, key, k)
  }

  lemma FlattenedAreLookup(fs: Files, view: View, done: seq<Name>, k: nat)
    requires Progress(fs, view, done) && AllIn(view.Keys, done) && Shallow(fs, view.Keys, k)
    ensures IsLookup(fs, view, k)
  {
    assert forall n <- view :: Flattened(fs, view, n);
    hide DepthAtMost, Progress;
    forall n <- view
      ensures DepthAtMost(fs, n, k)
      ensures WellFormed(view[n]) && forall kind, key :: Get(view[n].Table(kind), key) == Lookup(fs, n, kind, key, k)
    {
      forall kind, key
        ensures Get(view[n].Table(kind), key) == Lookup(fs, n, kind, key, k)
      {
        FlattenedIsLookup(fs, view, n, kind, key, k);
      }
      assert Flattened(fs, view, n);
    }
  }

  /** Among a dialect's entries of one key, its own come first, as its file has them, then those of each include in
      turn, in the order they have there. */
  ghost predicate OrdersEqualKeys(fs: Files, view: View, n: Name)
    requires n in view
  {
    && n in fs && (forall inc <- IncludesOf(fs, n) :: inc in view)
    && forall kind, key ::
         SameKey(view[n].Table(kind), key) ==
         SameKey(FirstDefined([Collect(Own(fs[n], kind))] + TablesOf(view, IncludesOf(fs, n), kind)), key)
  }

  ghost predicate EqualKeysInOrder(fs: Files, view: View) {
    forall n <- view :: OrdersEqualKeys(fs, view, n)
  }

  lemma MergedHasOrder(fs: Files, view: View, n: Name)
    requires MergedInOrder(fs, view, n) && forall inc <- IncludesOf(fs, n) :: WellFormed(view[inc])
    ensures OrdersEqualKeys(fs, view, n)
  {
    forall kind, key
      ensures SameKey(view[n].Table(kind), key) ==
              SameKey(FirstDefined([Collect(Own(fs[n], kind))] + TablesOf(view, IncludesOf(fs, n), kind)), key)
    {
      ParseGet(fs[n], kind, "");
      CollectGet(Own(fs[n], kind), "");
      var tables := TablesOf(view, IncludesOf(fs, n), kind);
      hide SameKey, FirstDefined, Collect, SortBy, MergeMany, Unique, IncludesOf;
      MergeOrder(Parse(fs[n]).Table(kind), tables, key);
      SortedOwn(Collect(Own(fs[n], kind)), tables, key);
    }
  }

  lemma AllHaveOrder(fs: Files, view: View, done: seq<Name>)
    requires Progress(fs, view, done) && AllIn(view.Keys, done)
    ensures EqualKeysInOrder(fs, view)
  {
    hide MergedInOrder, OrdersEqualKeys, WellFormed;
    forall n <- view
      ensures OrdersEqualKeys(fs, view, n)
    {
      assert Flattened(fs, view, n);
      assert forall inc <- IncludesOf(fs, n) :: Flattened(fs, view, inc);
      MergedHasOrder(fs, view, n);
    }
  }

  lemma DepthsSuffice(fs: Files, roots: set<Name>)
    ensures roots <= Within(fs, roots, 5)
    ensures (forall r <- roots :: DepthAtMost(fs, r, 5)) ==>
              var near := Within(fs, roots, 5);
              near <= fs.Keys && Shallow(fs, near, 5) && Closed(fs, near)
  {
    WithinGrows(fs, roots, 0, 5);
    if forall r <- roots :: DepthAtMost(fs, r, 5) {
      DepthBoundsDistance(fs, roots, 5);
      forall n <- Within(fs, roots, 5)
        ensures n in fs && DepthAtMost(fs, n, 5)
      {
        hide Within;
        ReachedHasDepth(fs, roots, 5, 5, n);
      }
    }
  }

  lemma NotEmpty(fs: Files, roots: seq<Name>, dialects: map<Name, MAVXML>)
    requires roots != [] && dialects.Keys == Within(fs, SetOf(roots), 5)
    ensures dialects != map[]
  {
    WithinGrows(fs, SetOf(roots), 0, 5);
    hide Within;
    assert roots[0] in SetOf(roots);
  }

  lemma SetOfOneMore(s: seq<Name>, i: nat)
    requires i < |s|
    ensures SetOf(s[..i + 1]) == SetOf(s[..i]) + {s[i]} && s[i] in SetOf(s)
  {}

  datatype Outcome =
    | Raised        // a definition file does not exist, or no dialect was asked for
    | NoBase        // the program has ended with an error because merging made no progress
    | Incomplete    // the passes ended before every dialect was merged
    | AllMerged

  // ---------------------------------------------------------------- the loops

  class XMLFiles {
    const fs: Files                      // the definition files in the source directory
    var dialects: map<Name, MAVXML>
    var order: seq<Name>               // the dictionary's insertion order
    ghost var loaded: set<MAVXML>

    ghost predicate Valid()
      reads this
    {
      && Lists(order, dialects.Keys)
      && forall n <- dialects ::
           n in fs && dialects[n] in loaded && dialects[n].basename == n && dialects[n].includes == IncludesOf(fs, n)
    }

    ghost function Contents(): View
      requires Valid()
      reads this, loaded
    {
      map n | n in dialects :: dialects[n].Value()
    }

    /** A valid state in which every dialect is as its file defines it. */
    ghost predicate AsParsed()
      reads this, loaded
    {
      Valid() && forall n <- dialects :: dialects[n].Value() == Parse(fs[n])
    }

    constructor (files: Files)
      ensures fs == files && AsParsed() && dialects == map[] && loaded == {}
    {
      fs := files;
      dialects := map[];
      order := [];
      loaded := {};
    }

    /** Loads one file, which may replace a dialect of that name by the same again. */
    method AddDialect(name: Name) returns (ok: bool)
      requires AsParsed()
      modifies this
      ensures ok <==> name in fs
      ensures AsParsed() && (ok ==> dialects.Keys == old(dialects.Keys) + {name})
      ensures fresh(loaded - old(loaded))
    {
      hide Parse, Names, Lists;
      if name !in fs { return false; }
      var parsed := new MAVXML(name, fs[name]);
      Enter(parsed);
      ok := true;
    }

    /** Enters a loaded file into the dictionary. */
    method Enter(parsed: MAVXML)
      requires AsParsed()
      requires parsed.basename in fs && parsed.includes == IncludesOf(fs, parsed.basename)
      requires parsed.Value() == Parse(fs[parsed.basename])
      modifies this
      ensures AsParsed() && dialects.Keys == old(dialects.Keys) + {parsed.basename} && loaded == old(loaded) + {parsed}
    {
      hide Parse, IncludesOf, Lists, MAVXML.Value;
      var name := parsed.basename;
      ListsOneMore(order, dialects.Keys, name);
      if name !in dialects { order := order + [name]; }
      var more := dialects[name := parsed];
      assert more.Keys == dialects.Keys + {name};
      dialects, loaded := more, loaded + {parsed};
    }

    /** One step of following includes. */
    method ExpandOneIteration() returns (ok: bool, added: bool)
      requires AsParsed()
      modifies this
      ensures ok <==> Included(fs, old(dialects.Keys)) <= fs.Keys
      ensures AsParsed()
      ensures ok ==> dialects.Keys == old(dialects.Keys) + Included(fs, old(dialects.Keys))
      ensures added <==> !(Included(fs, old(dialects.Keys)) <= old(dialects.Keys))
      ensures fresh(loaded - old(loaded))
    {
      hide *;
      ParsedIsValid();
      var toAdd := NewIncludes();
      added := toAdd != {};
      ok := AddAll(toAdd);
    }

    /** Loads some files, in any order. */
    method AddAll(names: set<Name>) returns (ok: bool)
      requires AsParsed()
      modifies this
      ensures ok <==> names <= fs.Keys
      ensures AsParsed() && (ok ==> dialects.Keys == old(dialects.Keys) + names)
      ensures fresh(loaded - old(loaded))
    {
      hide *;
      ghost var before := dialects.Keys;
      var toAdd := names;
      ok := true;
      AddingStarts(before, names, fs.Keys);
      while ok && toAdd != {}
        invariant AsParsed() && fresh(loaded - old(loaded))
        invariant if ok then Adding(before, names, toAdd, dialects.Keys, fs.Keys) else !(names <= fs.Keys)
        decreases |toAdd|
      {
        var name :| name in toAdd;
        AddingOne(before, names, toAdd, dialects.Keys, fs.Keys, name);
        toAdd := toAdd - {name};
        ok := AddDialect(name);
      }
      AddingEnds(before, names, dialects.Keys, fs.Keys);
    }

    /** The includes of loaded dialects that are not loaded. */
    method NewIncludes() returns (toAdd: set<Name>)
      requires Valid()
      ensures toAdd == Included(fs, dialects.Keys) - dialects.Keys
    {
      toAdd := {};
      hide IncludesOf;
      assert order[..|order|] == order;
      for i := 0 to |order|
        invariant toAdd == Included(fs, SetOf(order[..i])) - dialects.Keys
      {
        IncludedByOneMore(fs, order, i);
        hide Included;
        assert order[i] in SetOf(order);
        var includes := dialects[order[i]].includes;
        ghost var sofar := toAdd;
        assert includes[..|includes|] == includes;
        for j := 0 to |includes|
          invariant toAdd == sofar + (SetOf(includes[..j]) - dialects.Keys)
        {
          assert SetOf(includes[..j + 1]) == SetOf(includes[..j]) + {includes[j]};
          if includes[j] !in dialects { toAdd := toAdd + {includes[j]}; }
        }
      }
    }

    /** Loads what is at most five includes away. */
    method ExpandIncludes() returns (ok: bool)
      requires AsParsed() && dialects.Keys <= fs.Keys
      modifies this
      ensures ok <==> Within(fs, old(dialects.Keys), 5) <= fs.Keys
      ensures AsParsed() && (ok ==> dialects.Keys == Within(fs, old(dialects.Keys), 5))
      ensures fresh(loaded - old(loaded))
    {
      hide Valid, AsParsed, Included;
      ghost var roots := dialects.Keys;
      for i := 0 to 5
        invariant AsParsed() && dialects.Keys == Within(fs, roots, i) && dialects.Keys <= fs.Keys
        invariant fresh(loaded - old(loaded))
      {
        WithinGrows(fs, roots, i + 1, 5);
        var added;
        ok, added := ExpandOneIteration();
        if !ok { return; }
        if !added {
          WithinStays(fs, roots, i, 5);
          return;
        }
      }
      ok := true;
    }

    /** Merges the includes of a dialect into it, in order. */
    method Complete(name: Name, ghost done: seq<Name>)
      requires Valid() && Progress(fs, Contents(), done)
      requires name in dialects && name !in done && forall inc <- dialects[name].includes :: inc in done
      modifies dialects[name]
      ensures Valid() && Contents().Keys == dialects.Keys && Progress(fs, Contents(), done + [name])
    {
      ghost var view := Contents();
      var dialect := dialects[name];
      LoadedFirst(fs, view, done, name);
      NothingMerged(fs, view, name);
      assert dialect.includes == IncludesOf(fs, name);
      ghost var merged := MergeAll(name, view);
      OneMoreDone(fs, view, done, name, merged);
    }

    method MergeAll(name: Name, ghost view: View) returns (ghost merged: Dialect)
      requires Valid() && name in dialects && Contents() == view
      requires ReadyToMerge(fs, view, name) && MergedUpTo(fs, view, name, view[name], 0)
      modifies dialects[name]
      ensures Valid() && OnlyChanged(view, Contents(), name, merged)
      ensures MergedUpTo(fs, view, name, merged, |IncludesOf(fs, name)|)
      ensures JoinsAll(view, view[name], IncludesOf(fs, name), merged)
    {
      hide *;
      KeysStay();
      UnchangedYet(view, name);
      var incs := dialects[name].includes;
      IncludesStay(name);
      merged := view[name];
      JoinsNone(view, view[name]);
      assert incs[..0] == [] && incs[..|incs|] == incs;
      for j := 0 to |incs|
        invariant Valid() && OnlyChanged(view, Contents(), name, merged)
        invariant MergedUpTo(fs, view, name, merged, j) && JoinsAll(view, view[name], incs[..j], merged)
      {
        NextToMerge(fs, view, name, j);
        JoinsOneMore(view, view[name], incs, j, merged);
        MergeOne(name, incs[j], view, merged);
        OneMoreMerged(fs, view, name, merged, j);
        merged := Joined(merged, view[incs[j]]);
      }
    }

    method MergeOne(name: Name, inc: Name, ghost view: View, ghost d: Dialect)
      requires Valid() && name in dialects && inc in dialects && inc in view && inc != name
      requires OnlyChanged(view, Contents(), name, d)
      modifies dialects[name]
      ensures Valid() && OnlyChanged(view, Contents(), name, Joined(d, view[inc]))
    {
      hide Joined, IncludesOf, Lists;
      assert dialects[name].Value() == Contents()[name] && dialects[inc].Value() == Contents()[inc];
      dialects[name].MergeIn(dialects[inc]);
    }

    /** A valid state in which the given dialects have been merged. */
    ghost predicate MergedSoFar(done: seq<Name>)
      reads this, loaded
    {
      Valid() && Progress(fs, Contents(), done)
    }

    method AllDone(includes: seq<Name>, done: seq<Name>) returns (all: bool)
      ensures all <==> forall inc <- includes :: inc in done
    {
      for j := 0 to |includes|
        invariant forall k | 0 <= k < j :: includes[k] in done
      {
        if includes[j] !in done { return false; }
      }
      all := true;
    }

    /** One pass over the dialects: those whose includes are done are merged, in dictionary order. */
    method UpdateOneIteration(before: seq<Name>) returns (done: seq<Name>)
      requires MergedSoFar(before)
      modifies loaded
      ensures MergedSoFar(done) && before <= done
      ensures OnlyWaiting(fs, dialects.Keys, before, done)
    {
      hide Progress, PassedUpTo, Waiting, OnlyWaiting, Lists;
      done := before;
      PassBegins(fs, before, order);
      for i := 0 to |order|
        invariant MergedSoFar(done) && before <= done
        invariant PassedUpTo(fs, before, order, i, done)
      {
        var name := order[i];
        ghost var sofar := done;
        InOrderIsLoaded(order, dialects.Keys, i);
        if name !in done {
          var ready := AllDone(dialects[name].includes, done);
          if ready {
            Complete(name, done);
            done := done + [name];
          } else {
            StillWaiting(fs, before, done, name);
          }
        }
        PassedOneMore(fs, before, order, i, sofar, done);
      }
      PassEnds(fs, before, order, dialects.Keys, done);
    }

    /** The dialects without includes. */
    method Bases() returns (done: seq<Name>)
      requires AsParsed()
      ensures MergedSoFar(done)
      ensures forall n <- dialects :: IncludesOf(fs, n) == [] ==> n in done
    {
      done := [];
      for i := 0 to |order|
        invariant BasesUpTo(fs, order, dialects.Keys, i, done)
      {
        InOrderIsLoaded(order, dialects.Keys, i);
        OneMoreBase(fs, order, dialects.Keys, i, done);
        hide BasesUpTo, IncludesOf;
        if |dialects[order[i]].includes| == 0 { done := done + [order[i]]; }
      }
      LoadedIsInOrder(order, dialects.Keys);
      BasesAreDone(fs, Contents(), done);
    }

    /** One of the passes, and whether it is the last: because all dialects are merged, or nothing was. */
    method OnePass(before: seq<Name>, ghost pass: nat) returns (ended: bool, outcome: Outcome, done: seq<Name>)
      requires MergedSoFar(before) && DoneTo(fs, dialects.Keys, before, pass)
      modifies loaded
      ensures MergedSoFar(done) && !outcome.Raised?
      ensures !ended ==> !AllIn(dialects.Keys, done) && DoneTo(fs, dialects.Keys, done, pass + 1)
      ensures ended ==> (outcome.AllMerged? <==> AllIn(dialects.Keys, done))
                        && (Shallow(fs, dialects.Keys, 5) ==> outcome.AllMerged?)
    {
      hide *;
      done := UpdateOneIteration(before);
      CountMerged(done);
      OnePassDeeper(fs, dialects.Keys, before, done, pass);
      ended, outcome := true, AllMerged;
      if |done| == |dialects| { return; }
      if |done| == |before| {
        SameLength(before, done);
        NotStuck(fs, dialects.Keys, done, 5);
        outcome := NoBase;
        return;
      }
      ended := false;
    }

    /** Merges in at most five passes. It can only succeed if all includes are loaded and there are no cycles; chains of
        at most five it always merges. */
    method UpdateIncludes() returns (outcome: Outcome, done: seq<Name>)
      requires AsParsed() && dialects != map[]
      modifies loaded
      ensures MergedSoFar(done) && !outcome.Raised?
      ensures outcome.AllMerged? <==> AllIn(dialects.Keys, done)
      ensures Shallow(fs, dialects.Keys, 5) ==> outcome.AllMerged?
      ensures outcome.AllMerged? ==> Shallow(fs, dialects.Keys, |dialects|)
    {
      hide *;
      done := Bases();
      NotAllInNothing(dialects.Keys, done);
      BasesHaveDepthZero(fs, dialects.Keys, done);
      NotStuck(fs, dialects.Keys, done, 5);
      if |done| == 0 { return NoBase, done; }
      for pass := 0 to 5
        invariant MergedSoFar(done)
        invariant pass > 0 ==> !AllIn(dialects.Keys, done)
        invariant DoneTo(fs, dialects.Keys, done, pass)
      {
        var ended;
        ended, outcome, done := OnePass(done, pass);
        if ended {
          MergedIsShallow(done);
          return;
        }
      }
      FiveLevels(fs, dialects.Keys, done);
      outcome := Incomplete;
    }

    /** Loads some dialects and everything at most five includes away, and merges. If something included is further away,
        or a chain of includes is a cycle, not everything is merged. */
    method Build(roots: seq<Name>) returns (outcome: Outcome, done: seq<Name>)
      requires AsParsed() && dialects == map[] && loaded == {}
      modifies this
      ensures outcome.Raised? <==> roots == [] || !(Within(fs, SetOf(roots), 5) <= fs.Keys)
      ensures !outcome.Raised? ==> MergedSoFar(done) && dialects.Keys == Within(fs, SetOf(roots), 5)
      ensures outcome.AllMerged? ==>
                && AllIn(dialects.Keys, done) && Shallow(fs, dialects.Keys, |dialects|)
                && IsLookup(fs, Contents(), |dialects|) && EqualKeysInOrder(fs, Contents())
      ensures roots != [] && (forall r <- SetOf(roots) :: DepthAtMost(fs, r, 5)) ==>
                outcome.AllMerged? && IsLookup(fs, Contents(), 5)
    {
      hide *;
      done := [];
      if roots == [] { return Raised, done; }
      DepthsSuffice(fs, SetOf(roots));
      var ok := LoadRoots(roots);
      if !ok { return Raised, done; }
      ok := ExpandIncludes();
      if !ok { return Raised, done; }
      NotEmpty(fs, roots, dialects);
      outcome, done := UpdateIncludes();
      if outcome.AllMerged? { MergedIsLookup(done); }
    }

    method LoadRoots(roots: seq<Name>) returns (ok: bool)
      requires AsParsed() && dialects == map[] && loaded == {}
      modifies this
      ensures AsParsed() && fresh(loaded)
      ensures ok <==> SetOf(roots) <= fs.Keys
      ensures ok ==> dialects.Keys == SetOf(roots)
    {
      hide Valid, AsParsed;
      ok := true;
      for i := 0 to |roots|
        invariant AsParsed() && fresh(loaded) && dialects.Keys == SetOf(roots[..i]) && dialects.Keys <= fs.Keys
      {
        SetOfOneMore(roots, i);
        ok := AddDialect(roots[i]);
        if !ok { return; }
      }
      assert roots[..|roots|] == roots;
    }

    lemma MergedIsShallow(done: seq<Name>)
      requires MergedSoFar(done)
      ensures AllIn(dialects.Keys, done) ==> Shallow(fs, dialects.Keys, |dialects|)
    {
      hide Progress, Shallow;
      KeysStay();
      if AllIn(dialects.Keys, done) { AllDoneIsShallow(fs, Contents(), done); }
    }

    lemma MergedIsLookup(done: seq<Name>)
      requires MergedSoFar(done) && AllIn(dialects.Keys, done)
      ensures forall k: nat :: Shallow(fs, dialects.Keys, k) ==> IsLookup(fs, Contents(), k)
      ensures EqualKeysInOrder(fs, Contents())
    {
      hide Progress, Shallow, IsLookup, EqualKeysInOrder;
      KeysStay();
      forall k: nat | Shallow(fs, dialects.Keys, k)
        ensures IsLookup(fs, Contents(), k)
      {
        FlattenedAreLookup(fs, Contents(), done, k);
      }
      AllHaveOrder(fs, Contents(), done);
    }

    lemma CountMerged(done: seq<Name>)
      requires MergedSoFar(done)
      ensures |done| == |dialects| <==> AllIn(dialects.Keys, done)
    {
      KeysStay();
      CountDone(fs, Contents(), done);
    }

    lemma ParsedIsValid()
      requires AsParsed()
      ensures Valid() && dialects.Keys <= fs.Keys
    {}

    lemma IncludesStay(name: Name)
      requires Valid() && name in dialects
      ensures dialects[name].includes == IncludesOf(fs, name)
    {}

    lemma KeysStay()
      requires Valid()
      ensures Contents().Keys == dialects.Keys && |dialects| == |dialects.Keys|
    {}
  }

  lemma NotAllInNothing(names: set<Name>, done: seq<Name>)
    ensures names != {} && |done| == 0 ==> !AllIn(names, done)
  {}
}
