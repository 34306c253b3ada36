/**
 MAVLink dialect files as values: the tables of messages and commands a file defines, merging
 the tables of an included file, and what a dialect means once its includes are followed.
 */
module Dialects {
  import opened Wrappers
  import opened Sorting

  /** A message or command; key is the message's id or the command's value, by which tables are sorted. */
  datatype Entry = Entry(name: string, key: int, origin: string, body: string)

  /** The parsed content of a definition file, in textual order. */
  datatype File = File(includes: seq<string>, messages: seq<Entry>, commands: seq<Entry>)

  /** The name of a dialect, which is that of its file without extension. */
  datatype Name = Name(text: string)

  /** A loaded dialect; tables are dictionaries in insertion order. */
  datatype Dialect = Dialect(includes: seq<Name>, messages: seq<Entry>, commands: seq<Entry>) {
    function Table(kind: Kind): seq<Entry> {
      if kind.Message? then messages else commands
    }
  }

  datatype Kind = Message | Command

  // ---------------------------------------------------------------- dictionaries in insertion order

  ghost predicate Unique(table: seq<Entry>) {
    forall i, j | 0 <= i < j < |table| :: table[i].name != table[j].name
  }

  /** Where a name's entry is; the length of the table if there is none. */
  function Position(table: seq<Entry>, name: string): (p: nat)
    ensures p <= |table| && (forall i | 0 <= i < p :: table[i].name != name)
    ensures p < |table| ==> table[p].name == name
  {
    if table == [] || table[0].name == name then 0
    else
      var p := Position(table[1..], name);
      assert forall i | 1 <= i <= p :: table[i] == table[1..][i - 1];
      p + 1
  }

  function Get(table: seq<Entry>, name: string): Option<Entry> {
    var p := Position(table, name);
    if p < |table| then Some(table[p]) else None
  }

  /** Assignment to a key: in place if the key is there, at the end otherwise. */
  function Put(table: seq<Entry>, e: Entry): seq<Entry> {
    var p := Position(table, e.name);
    if p < |table| then table[p := e] else table + [e]
  }

  lemma PutGet(table: seq<Entry>, e: Entry, name: string)
    ensures Get(Put(table, e), name) == if name == e.name then Some(e) else Get(table, name)
    ensures Unique(table) ==> Unique(Put(table, e))
  {
    var r := Put(table, e);
    var p, q := Position(table, name), Position(r, name);
    var o := Position(table, e.name);
    hide Position;
    assert r[o] == e && forall i | 0 <= i < |table| && i != o :: r[i] == table[i];
    if name != e.name {
      if q < |table| && q != o { assert r[q] == table[q]; }
      if p < |table| { assert r[p] == table[p]; }
    }
  }

  /** The dictionary built from a list of definitions, one assignment each. */
  function Collect(definitions: seq<Entry>): seq<Entry> {
    if definitions == [] then []
    else Put(Collect(definitions[..|definitions| - 1]), definitions[|definitions| - 1])
  }

  /** The last definition of a name. */
  function LastOf(definitions: seq<Entry>, name: string): Option<Entry> {
    if definitions == [] then None
    else
      var n := |definitions| - 1;
      if definitions[n].name == name then Some(definitions[n]) else LastOf(definitions[..n], name)
  }

  lemma {:induction false} CollectGet(definitions: seq<Entry>, name: string)
    ensures Get(Collect(definitions), name) == LastOf(definitions, name)
    ensures Unique(Collect(definitions))
  {
    if definitions != [] {
      var n := |definitions| - 1;
      CollectGet(definitions[..n], name);
      PutGet(Collect(definitions[..n]), definitions[n], name);
    }
  }

  /** The entries of one dictionary and then those of another whose names are not there yet. */
  function AddMissing(table: seq<Entry>, more: seq<Entry>): seq<Entry> {
    if more == [] then table
    else
      var n := |more| - 1;
      var r := AddMissing(table, more[..n]);
      if Position(r, more[n].name) < |r| then r else r + [more[n]]
  }

  lemma AppendGet(table: seq<Entry>, e: Entry, name: string)
    ensures Get(table + [e], name) == match Get(table, name) case Some(x) => Some(x) case None => if e.name == name then Some(e) else None
    ensures Unique(table) && Get(table, e.name).None? ==> Unique(table + [e])
  {
    var r := table + [e];
    var p, q := Position(table, name), Position(r, name);
    hide Position;
    assert r[|table|] == e;
    if q < |table| { assert r[q] == table[q]; }
    if p < |table| { assert r[p] == table[p]; }
  }

  lemma InOrOut(table: seq<Entry>, name: string)
    ensures Get(table, name).Some? <==> Position(table, name) < |table|
  {}

  /** Entries that are there already win. */
  lemma {:induction false} AddMissingGet(table: seq<Entry>, more: seq<Entry>, name: string)
    requires Unique(table) && Unique(more)
    ensures Get(AddMissing(table, more), name) == if Get(table, name).Some? then Get(table, name) else Get(more, name)
    ensures Unique(AddMissing(table, more))
  {
    if more != [] {
      var n := |more| - 1;
      assert Unique(more[..n]);
      InOrOut(AddMissing(table, more[..n]), more[n].name);
      NotBefore(more, n);
      hide Get, Unique, Position;
      AddMissingGet(table, more[..n], name);
      AddMissingGet(table, more[..n], more[n].name);
      AppendGet(AddMissing(table, more[..n]), more[n], name);
      AppendGet(more[..n], more[n], name);
      assert more == more[..n] + [more[n]];
      AppendGet(more[..n], more[n], more[n].name);
    }
  }

  lemma NotBefore(table: seq<Entry>, n: nat)
    requires Unique(table) && n < |table|
    ensures Get(table[..n], table[n].name) == None
  {}

  // ---------------------------------------------------------------- sorting a dictionary

  predicate ByKey(a: Entry, b: Entry) {
    a.key <= b.key
  }

  function Sorted(table: seq<Entry>): seq<Entry> {
    SortBy(table, ByKey)
  }

  /** Smaller keys come first. */
  ghost predicate AscendingKeys(table: seq<Entry>) {
    forall i, j | 0 <= i < j < |table| :: table[i].key <= table[j].key
  }

  /** The entries of one key, in order. */
  function SameKey(table: seq<Entry>, key: int): seq<Entry> {
    if table == [] then [] else (if table[0].key == key then [table[0]] else []) + SameKey(table[1..], key)
  }

  lemma SortedAscends(table: seq<Entry>)
    ensures AscendingKeys(Sorted(table))
  {
    SortAscends(table, ByKey);
    hide SortBy;
    var r := Sorted(table);
    assert forall i, j | 0 <= i < j < |r| :: ByKey(r[i], r[j]);
  }

  lemma {:induction false} SameKeyIsAlike(table: seq<Entry>, x: Entry)
    ensures SameKey(table, x.key) == Alike(table, x, ByKey)
  {
    if table != [] { SameKeyIsAlike(table[1..], x); }
  }

  lemma InsertShifts(e: Entry, table: seq<Entry>)
    ensures var k, r := Place(e, table, ByKey), Insert(e, table, ByKey);
            && |r| == |table| + 1 && r[k] == e
            && (forall i | 0 <= i < k :: r[i] == table[i])
            && (forall i | k <= i < |table| :: r[i + 1] == table[i])
            && (forall i | k < i < |r| :: r[i] == table[i - 1])
  {
    var k, r := Place(e, table, ByKey), Insert(e, table, ByKey);
    hide Place;
    assert r == table[..k] + [e] + table[k..];
    hide Insert, ByKey;
  }

  lemma InsertGet(e: Entry, table: seq<Entry>, name: string)
    requires Unique(table) && Get(table, e.name).None?
    ensures Get(Insert(e, table, ByKey), name) == if name == e.name then Some(e) else Get(table, name)
    ensures Unique(Insert(e, table, ByKey))
  {
    var k := Place(e, table, ByKey);
    var r := Insert(e, table, ByKey);
    var p, q := Position(table, name), Position(r, name);
    var o := Position(table, e.name);
    InsertShifts(e, table);
    hide Position, Place, Insert;
    if name != e.name {
      if q < |r| && q != k { assert r[q] == table[if q < k then q else q - 1]; }
      if p < |table| { assert r[if p < k then p else p + 1] == table[p]; }
    }
  }

  /** Sorting a dictionary by key changes what no name stands for. */
  lemma {:induction false} SortedGet(table: seq<Entry>, name: string)
    requires Unique(table)
    ensures Get(Sorted(table), name) == Get(table, name)
    ensures Unique(Sorted(table)) && AscendingKeys(Sorted(table))
  {
    if table != [] {
      SortedGet(table[1..], name);
      SortedGet(table[1..], table[0].name);
      assert forall i | 1 <= i < |table| :: table[i] == table[1..][i - 1];
      InsertGet(table[0], Sorted(table[1..]), name);
    }
    SortedAscends(table);
  }

  // ---------------------------------------------------------------- files

  /** An include names a file; the last four characters, its extension, are dropped. */
  function DropExtension(text: string): Name {
    Name(if |text| < 4 then "" else text[..|text| - 4])
  }

  function Names(includes: seq<string>): (r: seq<Name>)
    ensures |r| == |includes|
  {
    seq(|includes|, i requires 0 <= i < |includes| => DropExtension(includes[i]))
  }

  /** A dialect as it is loaded, before anything is merged into it. */
  function Parse(file: File): Dialect {
    Dialect(Names(file.includes), Sorted(Collect(file.messages)), Sorted(Collect(file.commands)))
  }

  function Own(file: File, kind: Kind): seq<Entry> {
    if kind.Message? then file.messages else file.commands
  }

  /** A loaded dialect has the last definition of each name in its file, sorted. */
  lemma ParseGet(file: File, kind: Kind, name: string)
    ensures var table := Parse(file).Table(kind);
            Get(table, name) == LastOf(Own(file, kind), name) && Unique(table) && AscendingKeys(table)
  {
    CollectGet(Own(file, kind), name);
    SortedGet(Collect(Own(file, kind)), name);
  }

  function Merge(table: seq<Entry>, more: seq<Entry>): seq<Entry> {
    Sorted(AddMissing(table, more))
  }

  lemma MergeGet(table: seq<Entry>, more: seq<Entry>, name: string)
    requires Unique(table) && Unique(more)
    ensures Get(Merge(table, more), name) == if Get(table, name).Some? then Get(table, name) else Get(more, name)
    ensures Unique(Merge(table, more)) && AscendingKeys(Merge(table, more))
  {
    AddMissingGet(table, more, name);
    SortedGet(AddMissing(table, more), name);
  }

  // ---------------------------------------------------------------- the order of equal keys

  /** Tables merged into one, one after the other. */
  function MergeMany(table: seq<Entry>, mores: seq<seq<Entry>>): seq<Entry> {
    if mores == [] then table
    else
      var n := |mores| - 1;
      Merge(MergeMany(table, mores[..n]), mores[n])
  }

  predicate Unknown(tables: seq<seq<Entry>>, name: string) {
    forall i | 0 <= i < |tables| :: Get(tables[i], name).None?
  }

  /** The entries of a table whose names are in none of some tables. */
  function Newly(tables: seq<seq<Entry>>, more: seq<Entry>): seq<Entry> {
    if more == [] then []
    else
      var n := |more| - 1;
      Newly(tables, more[..n]) + (if Unknown(tables, more[n].name) then [more[n]] else [])
  }

  /** The entries of some tables, table by table, each name where it comes first. */
  function FirstDefined(tables: seq<seq<Entry>>): seq<Entry> {
    if tables == [] then []
    else
      var n := |tables| - 1;
      FirstDefined(tables[..n]) + Newly(tables[..n], tables[n])
  }

  /** Merging puts the new entries behind. */
  lemma {:induction false} AddMissingAppends(table: seq<Entry>, tables: seq<seq<Entry>>, more: seq<Entry>)
    requires Unique(table) && Unique(more)
    requires forall i | 0 <= i < |more| :: Get(table, more[i].name).None? <==> Unknown(tables, more[i].name)
    ensures AddMissing(table, more) == table + Newly(tables, more)
  {
    hide Get, Unknown;
    if more != [] {
      var n := |more| - 1;
      AddMissingAppends(table, tables, more[..n]);
      AddMissingGet(table, more[..n], more[n].name);
      NotBefore(more, n);
      InOrOut(AddMissing(table, more[..n]), more[n].name);
    }
  }

  /** A name is known after merging exactly if one of the tables knows it. */
  lemma {:induction false} MergeManyGet(table: seq<Entry>, mores: seq<seq<Entry>>, name: string)
    requires Unique(table) && forall i | 0 <= i < |mores| :: Unique(mores[i])
    ensures Unique(MergeMany(table, mores))
    ensures Get(MergeMany(table, mores), name).None? <==> Get(table, name).None? && Unknown(mores, name)
  {
    hide Get, Unique, Merge;
    if mores != [] {
      var n := |mores| - 1;
      MergeManyGet(table, mores[..n], name);
      MergeGet(MergeMany(table, mores[..n]), mores[n], name);
      OneMoreUnknown(mores, name);
    }
  }

  lemma OneMoreUnknown(tables: seq<seq<Entry>>, name: string)
    requires tables != []
    ensures var n := |tables| - 1;
            Unknown(tables, name) <==> Unknown(tables[..n], name) && Get(tables[n], name).None?
  {
    hide Get;
    var n := |tables| - 1;
    assert forall i | 0 <= i < n :: tables[..n][i] == tables[i];
  }

  lemma OwnAndMore(table: seq<Entry>, mores: seq<seq<Entry>>, name: string)
    ensures Unknown([table] + mores, name) <==> Get(table, name).None? && Unknown(mores, name)
  {
    hide Get;
    var all := [table] + mores;
    assert all[0] == table && forall i | 0 <= i < |mores| :: all[i + 1] == mores[i];
  }

  lemma {:induction false} NewlyOfNone(more: seq<Entry>)
    ensures Newly([], more) == more
  {
    if more != [] {
      NewlyOfNone(more[..|more| - 1]);
    }
  }

  lemma FirstDefinedOfLast(tables: seq<seq<Entry>>, more: seq<Entry>)
    ensures FirstDefined(tables + [more]) == FirstDefined(tables) + Newly(tables, more)
  {
    assert (tables + [more])[..|tables|] == tables;
  }

  /** Among entries of one key, own entries come first, then those of each merged table in turn, in their order there. */
  lemma MergeOrder(table: seq<Entry>, mores: seq<seq<Entry>>, key: int)
    requires Unique(table) && forall i | 0 <= i < |mores| :: Unique(mores[i])
    ensures SameKey(MergeMany(table, mores), key) == SameKey(FirstDefined([table] + mores), key)
  {
    var x := Entry("", key, "", "");
    MergedAlike(table, mores, x);
    SameKeyIsAlike(MergeMany(table, mores), x);
    SameKeyIsAlike(FirstDefined([table] + mores), x);
  }

  lemma {:induction false} MergedAlike(table: seq<Entry>, mores: seq<seq<Entry>>, x: Entry)
    requires Unique(table) && forall i | 0 <= i < |mores| :: Unique(mores[i])
    ensures Alike(MergeMany(table, mores), x, ByKey) == Alike(FirstDefined([table] + mores), x, ByKey)
    decreases |mores|
  {
    hide Get, Unique, Alike, Unknown, Newly, ByKey, AddMissing, SortBy;
    if mores == [] {
      NewlyOfNone(table);
      FirstDefinedOfLast([], table);
      assert [table] + mores == [] + [table];
      assert FirstDefined([] + [table]) == table;
    } else {
      var n := |mores| - 1;
      var merged, all := MergeMany(table, mores[..n]), [table] + mores[..n];
      var newly := Newly(all, mores[n]);
      MergedAlike(table, mores[..n], x);
      MergeStep(table, mores, x);
      hide MergeMany;
      AlikeOfConcat(merged, newly, x, ByKey);
      AlikeOfConcat(FirstDefined(all), newly, x, ByKey);
      FirstDefinedOfLast(all, mores[n]);
      assert [table] + mores == all + [mores[n]];
    }
  }

  lemma MergeStep(table: seq<Entry>, mores: seq<seq<Entry>>, x: Entry)
    requires mores != [] && Unique(table) && forall i | 0 <= i < |mores| :: Unique(mores[i])
    ensures var n := |mores| - 1;
            Alike(MergeMany(table, mores), x, ByKey) ==
            Alike(MergeMany(table, mores[..n]) + Newly([table] + mores[..n], mores[n]), x, ByKey)
  {
    hide Get, Unique, Alike, Unknown, Newly, AddMissing, SortBy;
    var n := |mores| - 1;
    var merged, all := MergeMany(table, mores[..n]), [table] + mores[..n];
    MergeManyGet(table, mores[..n], "");
    forall i | 0 <= i < |mores[n]|
      ensures Get(merged, mores[n][i].name).None? <==> Unknown(all, mores[n][i].name)
    {
      MergeManyGet(table, mores[..n], mores[n][i].name);
      OwnAndMore(table, mores[..n], mores[n][i].name);
    }
    AddMissingAppends(merged, all, mores[n]);
    SortIsStable(merged + Newly(all, mores[n]), x, ByKey);
  }

  lemma SameUnknown(a: seq<Entry>, b: seq<Entry>, mores: seq<seq<Entry>>, more: seq<Entry>)
    requires forall name :: Get(a, name).None? <==> Get(b, name).None?
    ensures Newly([a] + mores, more) == Newly([b] + mores, more)
  {
    hide Get, Unknown;
    if more != [] {
      var n := |more| - 1;
      SameUnknown(a, b, mores, more[..n]);
      OwnAndMore(a, mores, more[n].name);
      OwnAndMore(b, mores, more[n].name);
    }
  }

  lemma OnlyOwn(own: seq<Entry>)
    ensures FirstDefined([own] + []) == own
  {
    NewlyOfNone(own);
    FirstDefinedOfLast([], own);
    assert [own] + [] == [] + [own];
    assert FirstDefined([]) == [];
  }

  lemma OwnAndOneMore(own: seq<Entry>, mores: seq<seq<Entry>>, more: seq<Entry>)
    ensures FirstDefined([own] + (mores + [more])) == FirstDefined([own] + mores) + Newly([own] + mores, more)
  {
    hide FirstDefined, Newly;
    FirstDefinedOfLast([own] + mores, more);
    assert [own] + (mores + [more]) == ([own] + mores) + [more];
  }

  /** The first table comes first whatever its order, and only its names matter to the rest. */
  lemma {:induction false} OwnComesFirst(a: seq<Entry>, b: seq<Entry>, mores: seq<seq<Entry>>) returns (rest: seq<Entry>)
    requires forall name :: Get(a, name).None? <==> Get(b, name).None?
    ensures FirstDefined([a] + mores) == a + rest && FirstDefined([b] + mores) == b + rest
  {
    hide *;
    if mores == [] {
      rest := [];
      OnlyOwn(a);
      OnlyOwn(b);
      assert a + rest == a && b + rest == b;
    } else {
      var n := |mores| - 1;
      var earlier := OwnComesFirst(a, b, mores[..n]);
      assert mores == mores[..n] + [mores[n]];
      OwnAndOneMore(a, mores[..n], mores[n]);
      OwnAndOneMore(b, mores[..n], mores[n]);
      SameUnknown(a, b, mores[..n], mores[n]);
      var newly := Newly([a] + mores[..n], mores[n]);
      rest := earlier + newly;
      assert (a + earlier) + newly == a + rest && (b + earlier) + newly == b + rest;
    }
  }

  /** Sorting a table beforehand does not change the order of equal keys. */
  lemma SortedOwn(table: seq<Entry>, mores: seq<seq<Entry>>, key: int)
    requires Unique(table)
    ensures SameKey(FirstDefined([Sorted(table)] + mores), key) == SameKey(FirstDefined([table] + mores), key)
  {
    var x := Entry("", key, "", "");
    SameKeyIsAlike(FirstDefined([Sorted(table)] + mores), x);
    SameKeyIsAlike(FirstDefined([table] + mores), x);
    forall name
      ensures Get(Sorted(table), name) == Get(table, name)
    {
      SortedGet(table, name);
    }
    SortIsStable(table, x, ByKey);
    hide Get, Alike, SortBy, FirstDefined, ByKey, SameKey;
    var rest := OwnComesFirst(Sorted(table), table, mores);
    AlikeOfConcat(Sorted(table), rest, x, ByKey);
    AlikeOfConcat(table, rest, x, ByKey);
  }

  // ---------------------------------------------------------------- the include graph

  type Files = map<Name, File>

  function IncludesOf(fs: Files, name: Name): seq<Name> {
    if name in fs then Names(fs[name].includes) else []
  }

  /** Each include, in order, is the dialect whose name it gives with four more characters, ".xml" in practice; one shorter
      than that has the empty name. */
  lemma IncludesAreNamed(fs: Files, name: Name, k: nat, base: string, extension: string)
    requires name in fs
    ensures |IncludesOf(fs, name)| == |fs[name].includes|
    ensures k < |fs[name].includes| && fs[name].includes[k] == base + extension && |extension| == 4 ==>
              IncludesOf(fs, name)[k].text == base
    ensures k < |fs[name].includes| && |fs[name].includes[k]| < 4 ==> IncludesOf(fs, name)[k].text == ""
  {
    assert (base + extension)[..|base|] == base;
  }

  /** Every chain of includes from here has at most k steps and ends in a file without includes; all files exist. */
  ghost predicate DepthAtMost(fs: Files, name: Name, k: nat)
    decreases k
  {
    name in fs &&
    (IncludesOf(fs, name) == [] || (k > 0 && forall inc <- IncludesOf(fs, name) :: DepthAtMost(fs, inc, k - 1)))
  }

  lemma {:induction false} DeeperIsFine(fs: Files, name: Name, k: nat, m: nat)
    requires DepthAtMost(fs, name, k) && k <= m
    ensures DepthAtMost(fs, name, m)
    decreases k
  {
    if k > 0 {
      forall inc <- IncludesOf(fs, name)
        ensures m > 0 && DepthAtMost(fs, inc, m - 1)
      {
        DeeperIsFine(fs, inc, k - 1, m - 1);
      }
    }
  }

  /** What a name means in a dialect: its own definition, otherwise what it means in the first include that knows it. */
  ghost function Lookup(fs: Files, dialect: Name, kind: Kind, name: string, k: nat): Option<Entry>
    requires DepthAtMost(fs, dialect, k)
    decreases k, 1, 0
  {
    var own := LastOf(Own(fs[dialect], kind), name);
    if own.Some? || IncludesOf(fs, dialect) == [] then own
    else LookupFirst(fs, IncludesOf(fs, dialect), kind, name, k - 1)
  }

  ghost function LookupFirst(fs: Files, includes: seq<Name>, kind: Kind, name: string, k: nat): Option<Entry>
    requires forall inc <- includes :: DepthAtMost(fs, inc, k)
    decreases k, 2, |includes|
  {
    if includes == [] then None
    else
      var n := |includes| - 1;
      var earlier := LookupFirst(fs, includes[..n], kind, name, k);
      if earlier.Some? then earlier else Lookup(fs, includes[n], kind, name, k)
  }

  /** How deep one is prepared to look does not matter. */
  lemma {:induction false} LookupAnyDepth(fs: Files, dialect: Name, kind: Kind, name: string, k: nat, m: nat)
    requires DepthAtMost(fs, dialect, k) && DepthAtMost(fs, dialect, m)
    ensures Lookup(fs, dialect, kind, name, k) == Lookup(fs, dialect, kind, name, m)
    decreases k, 0, 0
  {
    if IncludesOf(fs, dialect) != [] {
      LookupFirstAnyDepth(fs, IncludesOf(fs, dialect), kind, name, k - 1, m - 1);
    }
  }

  lemma {:induction false} LookupFirstAnyDepth(fs: Files, includes: seq<Name>, kind: Kind, name: string, k: nat, m: nat)
    requires forall inc <- includes :: DepthAtMost(fs, inc, k) && DepthAtMost(fs, inc, m)
    ensures LookupFirst(fs, includes, kind, name, k) == LookupFirst(fs, includes, kind, name, m)
    decreases k, 1, |includes|
  {
    if includes != [] {
      LookupFirstAnyDepth(fs, includes[..|includes| - 1], kind, name, k, m);
      LookupAnyDepth(fs, includes[|includes| - 1], kind, name, k, m);
    }
  }

  // ---------------------------------------------------------------- what merging has to achieve

  type View = map<Name, Dialect>

  /** The first of some loaded dialects that has the name. */
  function FirstIn(view: View, includes: seq<Name>, kind: Kind, name: string): Option<Entry>
    requires forall inc <- includes :: inc in view
  {
    if includes == [] then None
    else
      var n := |includes| - 1;
      var earlier := FirstIn(view, includes[..n], kind, name);
      if earlier.Some? then earlier else Get(view[includes[n]].Table(kind), name)
  }

  ghost predicate WellFormed(dialect: Dialect) {
    forall kind :: Unique(dialect.Table(kind)) && AscendingKeys(dialect.Table(kind))
  }

  /** The tables of a dialect are its own definitions and, behind them, those of its includes in order. */
  ghost predicate Flattened(fs: Files, view: View, dialect: Name) {
    && dialect in fs && dialect in view
    && (forall inc <- IncludesOf(fs, dialect) :: inc in view)
    && WellFormed(view[dialect])
    && forall kind, name ::
         Get(view[dialect].Table(kind), name) ==
         var own := LastOf(Own(fs[dialect], kind), name);
         if own.Some? then own else FirstIn(view, IncludesOf(fs, dialect), kind, name)
  }

  /** Dialects that satisfy the equations all the way down have what recursive lookup finds. */
  lemma {:induction false} FlattenedIsLookup(fs: Files, view: View, dialect: Name, kind: Kind, name: string, k: nat)
    requires DepthAtMost(fs, dialect, k) && dialect in view
    requires forall n <- view :: Flattened(fs, view, n)
    ensures Get(view[dialect].Table(kind), name) == Lookup(fs, dialect, kind, name, k)
    decreases k, 0, 0
  {
    assert Flattened(fs, view, dialect);
    if IncludesOf(fs, dialect) != [] {
      FirstIsLookup(fs, view, IncludesOf(fs, dialect), kind, name, k - 1);
    }
  }

  lemma {:induction false} FirstIsLookup(fs: Files, view: View, includes: seq<Name>, kind: Kind, name: string, k: nat)
    requires forall inc <- includes :: DepthAtMost(fs, inc, k) && inc in view
    requires forall n <- view :: Flattened(fs, view, n)
    ensures FirstIn(view, includes, kind, name) == LookupFirst(fs, includes, kind, name, k)
    decreases k, 1, |includes|
  {
    if includes != [] {
      var n := |includes| - 1;
      FirstIsLookup(fs, view, includes[..n], kind, name, k);
      FlattenedIsLookup(fs, view, includes[n], kind, name, k);
    }
  }

  // ---------------------------------------------------------------- what expanding has to achieve

  /** The files that some files include. */
  ghost function Included(fs: Files, names: set<Name>): set<Name> {
    set n, inc | n in names && inc in IncludesOf(fs, n) :: inc
  }

  /** The files at most k includes away from the given ones. */
  ghost function Within(fs: Files, roots: set<Name>, k: nat): (r: set<Name>) {
    if k == 0 then roots else Within(fs, roots, k - 1) + Included(fs, Within(fs, roots, k - 1))
  }

  lemma {:induction false} WithinGrows(fs: Files, roots: set<Name>, k: nat, m: nat)
    requires k <= m
    ensures Within(fs, roots, k) <= Within(fs, roots, m)
    decreases m - k
  {
    if k < m { WithinGrows(fs, roots, k + 1, m); }
  }

  /** Once a step adds nothing, no further one does. */
  lemma {:induction false} WithinStays(fs: Files, roots: set<Name>, k: nat, m: nat)
    requires k <= m && Included(fs, Within(fs, roots, k)) <= Within(fs, roots, k)
    ensures Within(fs, roots, m) == Within(fs, roots, k)
    decreases m
  {
    if k < m { WithinStays(fs, roots, k, m - 1); }
  }

  ghost predicate Closed(fs: Files, names: set<Name>) {
    Included(fs, names) <= names
  }

  /** Everything within any distance is in every closed set around the roots. */
  lemma {:induction false} WithinIsReachable(fs: Files, roots: set<Name>, k: nat, names: set<Name>)
    requires roots <= names && Closed(fs, names)
    ensures Within(fs, roots, k) <= names
  {
    if k > 0 {
      WithinIsReachable(fs, roots, k - 1, names);
      assert forall inc <- Included(fs, Within(fs, roots, k - 1)) :: inc in Included(fs, names);
    }
  }

  /** What is first reached in step k is included by something first reached in step k - 1. */
  lemma ReachedFrom(fs: Files, roots: set<Name>, k: nat, name: Name) returns (n: Name)
    requires k > 0 && name in Within(fs, roots, k) && name !in Within(fs, roots, k - 1)
    ensures n in Within(fs, roots, k - 1) && name in IncludesOf(fs, n)
    ensures k > 1 ==> n !in Within(fs, roots, k - 2)
  {
    var near := Within(fs, roots, k - 1);
    n :| n in near && name in IncludesOf(fs, n);
    if k > 1 {
      var nearer := Within(fs, roots, k - 2);
      hide IncludesOf;
      assert near == nearer + Included(fs, nearer);
      hide Within;
      assert n in nearer ==> name in Included(fs, nearer);
    }
  }

  /** What is first reached in step k from roots of depth m has depth m - k. */
  lemma {:induction false} WithinHasDepth(fs: Files, roots: set<Name>, m: nat, k: nat, name: Name)
    requires forall r <- roots :: DepthAtMost(fs, r, m)
    requires name in Within(fs, roots, k) && (k > 0 ==> name !in Within(fs, roots, k - 1))
    ensures k <= m && DepthAtMost(fs, name, m - k)
    decreases k
  {
    hide DepthAtMost, Included, IncludesOf;
    if k > 0 {
      var n := ReachedFrom(fs, roots, k, name);
      WithinHasDepth(fs, roots, m, k - 1, n);
      IncludeIsShallower(fs, n, name, m - k + 1);
    }
  }

  lemma IncludeIsShallower(fs: Files, name: Name, inc: Name, k: nat)
    requires DepthAtMost(fs, name, k) && inc in IncludesOf(fs, name)
    ensures k > 0 && DepthAtMost(fs, inc, k - 1)
  {}

  lemma {:induction false} ReachedHasDepth(fs: Files, roots: set<Name>, m: nat, k: nat, name: Name)
    requires forall r <- roots :: DepthAtMost(fs, r, m)
    requires name in Within(fs, roots, k)
    ensures DepthAtMost(fs, name, m)
    decreases k
  {
    hide DepthAtMost, Included, IncludesOf;
    if k > 0 && name in Within(fs, roots, k - 1) {
      ReachedHasDepth(fs, roots, m, k - 1, name);
    } else {
      WithinHasDepth(fs, roots, m, k, name);
      DeeperIsFine(fs, name, m - k, m);
    }
  }

  lemma OneStepFurther(fs: Files, roots: set<Name>, m: nat)
    ensures Within(fs, roots, m + 1) == Within(fs, roots, m) + Included(fs, Within(fs, roots, m))
  {}

  /** The reachable files of roots of depth at most m are those within m steps. */
  lemma DepthBoundsDistance(fs: Files, roots: set<Name>, m: nat)
    requires forall r <- roots :: DepthAtMost(fs, r, m)
    ensures Closed(fs, Within(fs, roots, m))
  {
    hide Included, DepthAtMost, Within;
    var near := Within(fs, roots, m);
    OneStepFurther(fs, roots, m);
    forall inc <- Included(fs, near)
      ensures inc in near
    {
      if inc !in near { WithinHasDepth(fs, roots, m, m + 1, inc); }
    }
  }

  // ---------------------------------------------------------------- order of completion

  /** Each dialect comes after everything it includes. */
  ghost predicate IncludesFirst(fs: Files, done: seq<Name>) {
    forall i | 0 <= i < |done| :: forall inc <- IncludesOf(fs, done[i]) :: inc in done[..i]
  }

  /** A dialect on an include cycle, or that includes such a dialect or one that is not loaded, is never completed. */
  lemma {:induction false} CyclesAreNeverDone(fs: Files, done: seq<Name>, members: set<Name>, i: nat)
    requires IncludesFirst(fs, done) && i < |done|
    requires forall n <- members :: exists inc <- IncludesOf(fs, n) :: inc in members || inc !in done
    ensures done[i] !in members
    decreases i
  {
    if done[i] in members {
      var inc :| inc in IncludesOf(fs, done[i]) && (inc in members || inc !in done);
      var j :| 0 <= j < i && done[j] == inc;
      CyclesAreNeverDone(fs, done, members, j);
    }
  }
}
