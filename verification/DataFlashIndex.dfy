/**
 The ground truth about a well-formed log that the reader's index is measured against:
 the offsets of the records of each type, the names the log announces, and which entries
 a caller asking for a set of message names must get.
 */
module DataFlashIndex {
  import opened Wrappers
  import opened DataFlashFormat
  import opened DataFlashUnits
  import opened DataFlashLog

  // ---------------------------------------------------------------- offsets by type

  /** Where the records of type t among the first n entries begin. */
  ghost function OffsetsOf(log: Log, n: nat, t: int): seq<nat>
    requires n <= |log.entries|
  {
    if n == 0 then []
    else OffsetsOf(log, n - 1, t) + (if log.entries[n - 1].typ == t then [At(log, n - 1)] else [])
  }

  lemma {:induction false} StartsGrow(log: Log, m: nat, n: nat)
    requires m <= n <= |log.entries|
    ensures Start(log, m) <= Start(log, n)
  {
    hide RecordBytes, Env;
    if m < n { StartsGrow(log, m, n - 1); }
  }

  /** A record lies between the start of its entry and the start of the next one. */
  lemma RecordWithinEntry(log: Log, n: nat)
    requires WellFormed(log) && n < |log.entries|
    ensures Start(log, n) <= At(log, n) < Start(log, n + 1)
  {
    EntryFits(log, n);
    hide WellFormed, Env, GoodEntry, SoundEnv, Pack, Items, RecordBytes, FormatOf;
  }

  lemma {:induction false} OffsetsAreBelow(log: Log, n: nat, t: int)
    requires WellFormed(log) && n <= |log.entries|
    ensures forall i | 0 <= i < |OffsetsOf(log, n, t)| :: OffsetsOf(log, n, t)[i] < Start(log, n)
  {
    hide WellFormed, At, Start;
    if n > 0 {
      OffsetsAreBelow(log, n - 1, t);
      RecordWithinEntry(log, n - 1);
    }
  }

  /** Each list is strictly increasing. */
  lemma {:induction false} OffsetsAreOrdered(log: Log, n: nat, t: int)
    requires WellFormed(log) && n <= |log.entries|
    ensures forall i, j | 0 <= i < j < |OffsetsOf(log, n, t)| :: OffsetsOf(log, n, t)[i] < OffsetsOf(log, n, t)[j]
  {
    hide WellFormed, At, Start;
    if n > 0 {
      OffsetsAreOrdered(log, n - 1, t);
      OffsetsAreBelow(log, n - 1, t);
      RecordWithinEntry(log, n - 1);
    }
  }

  /** Record k is in the list of its own type and in no other: together the lists are a partition of the records. */
  lemma {:induction false} OffsetsPartition(log: Log, n: nat, t: int, k: nat)
    requires WellFormed(log) && k < n <= |log.entries|
    ensures At(log, k) in OffsetsOf(log, n, t) <==> log.entries[k].typ == t
    decreases n
  {
    hide WellFormed, At, Start;
    RecordWithinEntry(log, k);
    OffsetsAreBelow(log, n - 1, t);
    RecordWithinEntry(log, n - 1);
    if k < n - 1 {
      OffsetsPartition(log, n - 1, t, k);
      StartsGrow(log, k + 1, n - 1);
    } else {
      var earlier := OffsetsOf(log, n - 1, t);
      assert forall i | 0 <= i < |earlier| :: earlier[i] != At(log, k);
    }
  }

  // ---------------------------------------------------------------- the next record of some types

  /** The first entry at or after c whose type is one of ids. */
  ghost function NextOf(log: Log, c: nat, ids: set<int>): (k: nat)
    ensures c <= |log.entries| ==> c <= k <= |log.entries|
    ensures k < |log.entries| ==> log.entries[k].typ as int in ids
    decreases |log.entries| - c
  {
    if c >= |log.entries| then |log.entries|
    else if log.entries[c].typ as int in ids then c
    else NextOf(log, c + 1, ids)
  }

  /** The offset list of t, continued after the records before c, begins with the next record of type t. */
  lemma {:induction false} NextInList(log: Log, c: nat, t: int)
    requires c <= |log.entries|
    ensures var all, seen, k := OffsetsOf(log, |log.entries|, t), |OffsetsOf(log, c, t)|, NextOf(log, c, {t});
            && seen <= |all|
            && (seen < |all| <==> k < |log.entries|)
            && (k < |log.entries| ==> all[seen] == At(log, k))
    decreases |log.entries| - c
  {
    hide At;
    if c < |log.entries| {
      NextInList(log, c + 1, t);
      if log.entries[c].typ == t {
        ListsGrow(log, c + 1, |log.entries|, t);
      }
    }
  }

  lemma {:induction false} ListsGrow(log: Log, m: nat, n: nat, t: int)
    requires m <= n <= |log.entries|
    ensures OffsetsOf(log, m, t) <= OffsetsOf(log, n, t)
  {
    if m < n { ListsGrow(log, m, n - 1, t); }
  }

  /** The next record of any of the types is the earliest of the next records of each. */
  lemma {:induction false} NextIsEarliest(log: Log, c: nat, ids: set<int>)
    requires c <= |log.entries|
    ensures forall t <- ids :: NextOf(log, c, ids) <= NextOf(log, c, {t})
    ensures var k := NextOf(log, c, ids);
            k < |log.entries| ==> NextOf(log, c, {log.entries[k].typ as int}) == k
    decreases |log.entries| - c
  {
    if c < |log.entries| { NextIsEarliest(log, c + 1, ids); }
  }

  /** No record of the types lies between c and the next one. */
  lemma {:induction false} NothingBetween(log: Log, c: nat, ids: set<int>, t: int)
    requires c <= |log.entries| && t in ids
    ensures var k := NextOf(log, c, ids);
            && OffsetsOf(log, k, t) == OffsetsOf(log, c, t)
            && (k < |log.entries| ==> |OffsetsOf(log, k + 1, t)| == |OffsetsOf(log, c, t)| + (if log.entries[k].typ == t then 1 else 0))
    decreases |log.entries| - c
  {
    if c < |log.entries| && log.entries[c].typ as int !in ids {
      NothingBetween(log, c + 1, ids, t);
    }
  }

  // ---------------------------------------------------------------- names

  /** name_to_id after the first n entries. */
  ghost function NamesOf(log: Log, n: nat): map<string, int>
    requires n <= |log.entries|
  {
    if n == 0 then map[]
    else
      var names := NamesOf(log, n - 1);
      match Announced(log, n - 1)
      case Some(f) => names[f.name := f.typ]
      case None => names
  }

  /** Announced names lead to the format of that name, and every type but FMT has its name announced. */
  lemma {:induction false} NamesAgree(log: Log, n: nat)
    requires WellFormed(log) && n <= |log.entries|
    ensures Agree(NamesOf(log, n), Env(log, n))
  {
    hide WellFormed, GoodEntry, EnvAfter, Sound, FormatOfElements, MessageAt, SoundEnv;
    if n > 0 {
      NamesAgree(log, n - 1);
      Announcement(log, n - 1);
      var f := Announced(log, n - 1);
      if f.Some? { LearnName(NamesOf(log, n - 1), Env(log, n - 1), f.value); }
    }
  }

  ghost predicate Agree(names: map<string, int>, env: map<int, Format>) {
    && (forall s <- names :: names[s] in env && env[names[s]].name == s)
    && (forall t <- env :: env[t].name in names || t == FMT_TYPE as int)
  }

  lemma LearnName(names: map<string, int>, env: map<int, Format>, f: Format)
    requires Agree(names, env) && GoodFormat(f, env)
    ensures Agree(names[f.name := f.typ], env[f.typ := f])
  {
    hide Sound;
  }

  lemma EnvIsSoundHere(log: Log, n: nat)
    requires WellFormed(log) && n <= |log.entries|
    ensures SoundEnv(Env(log, n))
  {
    hide GoodEntry;
    EnvIsSound(log, n);
  }

  /** The ids of those names that the log announces. */
  ghost function IdsOf(names: map<string, int>, wanted: set<string>): set<int> {
    set s | s in wanted && s in names :: names[s]
  }

  // ---------------------------------------------------------------- units and instance columns

  ghost function TypeName(log: Log, k: nat): string
    requires k < |log.entries|
  {
    FormatOf(log, k).name
  }

  /** The elements of entry n as struct gives them. */
  ghost function RawElements(log: Log, n: nat): seq<Value>
    requires n < |log.entries|
  {
    var items, values := Items(FormatOf(log, n).format), log.entries[n].values;
    if |values| == |items| then Received(Raw(items), values) else []
  }

  /** What the index pass notes of entry n: an instance column found again in a format announced anew, then what a UNIT,
      MULT or FMTU record says; None if that raises. */
  ghost function NotedOf(log: Log, n: nat, notes: Notes): Option<Notes>
    requires n < |log.entries|
  {
    match Kept(log, n, notes)
    case None => None
    case Some(kept) => Note(TypeName(log, n), FormatOf(log, n), RawElements(log, n), Env(log, n), kept)
  }

  /** What it has noted of the first n entries. */
  ghost function NotesAt(log: Log, n: nat): Notes
    requires n <= |log.entries|
  {
    if n == 0 then NO_NOTES
    else
      match NotedOf(log, n - 1, NotesAt(log, n - 1))
      case Some(notes) => notes
      case None => NotesAt(log, n - 1)
  }

  /** The text the last UNIT record among the first n entries that could be used gives to a letter. */
  ghost function LastUnit(log: Log, n: nat, letter: int): Option<string>
    requires n <= |log.entries|
  {
    if n == 0 then None
    else
      var e := RawElements(log, n - 1);
      if TypeName(log, n - 1) == "UNIT" && NoteUnit(e, NotesAt(log, n - 1)).Some? && e[1].i == letter then Some(TextOf(e[2].bytes))
      else LastUnit(log, n - 1, letter)
  }

  /** A letter stands for a unit exactly if its last UNIT record gave it a text that is not empty. */
  lemma {:induction false} LastUnitCounts(log: Log, n: nat, letter: int)
    requires WellFormed(log) && n <= |log.entries|
    ensures letter in NotesAt(log, n).lookup <==> LastUnit(log, n, letter).Some? && LastUnit(log, n, letter).value != ""
  {
    hide WellFormed, RawElements, FormatOf, TypeName, Note, NoteUnit;
    if n > 0 {
      LastUnitCounts(log, n - 1, letter);
      OneMoreNote(log, n - 1, letter);
    }
  }

  /** Entry n changes what a letter stands for only if it is a UNIT record for it. */
  lemma OneMoreNote(log: Log, n: nat, letter: int)
    requires WellFormed(log) && n < |log.entries|
    ensures var e, unit := RawElements(log, n), NoteUnit(RawElements(log, n), NotesAt(log, n));
            letter in NotesAt(log, n + 1).lookup <==>
            if TypeName(log, n) == "UNIT" && unit.Some? && e[1].i == letter then TextOf(e[2].bytes) != ""
            else letter in NotesAt(log, n).lookup
  {
    hide WellFormed, RawElements, FormatOf, Note;
    NameOfFmt(log, n);
    hide TypeName;
    if Kept(log, n, NotesAt(log, n)).Some? {
      assert Kept(log, n, NotesAt(log, n)).value.lookup == NotesAt(log, n).lookup;
      LookupAfter(TypeName(log, n), FormatOf(log, n), RawElements(log, n), Env(log, n), Kept(log, n, NotesAt(log, n)).value, letter);
    }
  }

  lemma LookupAfter(name: string, f: Format, e: seq<Value>, formats: map<int, Format>, notes: Notes, letter: int)
    ensures var after, unit := Note(name, f, e, formats, notes), NoteUnit(e, notes);
            if name == "UNIT" then after == unit
                && (unit.Some? ==> (letter in unit.value.lookup <==>
                                    if e[1].i == letter then TextOf(e[2].bytes) != "" else letter in notes.lookup))
            else after.Some? ==> after.value.lookup == notes.lookup
  {
    hide TextOf, IntOf, MultIdsFit, InstanceAt, ColumnIndex;
    assert |"FMTU"| == |"UNIT"| && "FMTU"[0] != "UNIT"[0];
  }

  /** Only FMT records announce formats. */
  lemma NameOfFmt(log: Log, n: nat)
    requires WellFormed(log) && n < |log.entries|
    ensures Announced(log, n).Some? ==> TypeName(log, n) == "FMT"
  {
    hide WellFormed, Env, GoodEntry;
    FormatLater(log, n, n);
  }

  /** The bytes that tell which instance a record at ofs belongs to. */
  function InstanceValue(data: seq<byte>, ofs: nat, i: Instance): seq<byte> {
    Slice(data, ofs + 3 + i.ofs, ofs + 3 + i.ofs + i.len)
  }

  datatype Sighting = Sighting(typ: int, value: seq<byte>)

  /** Entry n is the first of its type. */
  ghost predicate IsFirst(log: Log, n: nat)
    requires n < |log.entries|
  {
    OffsetsOf(log, n, log.entries[n].typ) == []
  }

  ghost function SightingOf(data: seq<byte>, log: Log, n: nat): Option<Sighting>
    requires n < |log.entries|
  {
    var t, instances := log.entries[n].typ as int, NotesAt(log, n).instances;
    if t in instances then Some(Sighting(t, InstanceValue(data, At(log, n), instances[t]))) else None
  }

  /** The instances the pass has met before entry n, first records of a type not counted. */
  ghost function SeenAt(data: seq<byte>, log: Log, n: nat): set<Sighting>
    requires n <= |log.entries|
  {
    if n == 0 then {}
    else
      var seen, s := SeenAt(data, log, n - 1), SightingOf(data, log, n - 1);
      if !IsFirst(log, n - 1) && s.Some? then seen + {s.value} else seen
  }

  /** The pass parses entry n: the first of its type, or one of a new instance. */
  ghost predicate ParsedByPass(data: seq<byte>, log: Log, n: nat)
    requires n < |log.entries|
  {
    var s := SightingOf(data, log, n);
    IsFirst(log, n) || (s.Some? && s.value !in SeenAt(data, log, n))
  }

  /** Entry n makes the index pass raise a Python exception: it is a FMT record announcing a format that cannot be built
      over the old one, a FMTU, UNIT or MULT record whose elements the pass cannot use, or a FMTU record that is parsed
      besides and raises there. */
  ghost predicate RaisesAt(data: seq<byte>, log: Log, n: nat)
    requires n < |log.entries|
  {
    || (ParsedByPass(data, log, n) && ReadingRaises(log, n, Env(log, n)))
    || NotedOf(log, n, NotesAt(log, n)).None?
  }

  ghost predicate PassRaises(data: seq<byte>, log: Log) {
    exists n | 0 <= n < |log.entries| :: RaisesAt(data, log, n)
  }

  // ---------------------------------------------------------------- formats announced more than once

  /** Whenever the pass parses a FMT record, the format it announces can be built. */
  ghost predicate Steady(data: seq<byte>, log: Log) {
    forall n | 0 <= n < |log.entries| && log.entries[n].typ == FMT_TYPE && ParsedByPass(data, log, n) ::
      Kept(log, n, NotesAt(log, n)).Some?
  }

  /** With what the whole log has noted, as reading after the pass does, the format that entry n announces, if any, can
      be built. */
  ghost predicate Rereadable(log: Log, n: nat)
    requires n < |log.entries|
  {
    Kept(log, n, NotesAt(log, |log.entries|)).Some?
  }

  /** The same of all entries before n. */
  ghost predicate RereadableTo(log: Log, n: nat) {
    forall k | 0 <= k < n && k < |log.entries| :: Rereadable(log, k)
  }

  lemma KeptByMarks(log: Log, n: nat, a: Notes, b: Notes)
    requires n < |log.entries| && SameMarks(a, b)
    ensures Kept(log, n, a).Some? <==> Kept(log, n, b).Some?
    ensures Kept(log, n, a).Some? ==> SameMarks(Kept(log, n, a).value, b)
  {
    hide KeepInstance, SameMarks, Announced;
    if Announced(log, n).Some? { KeepByMarks(Announced(log, n).value, a, b); }
  }

  /** A record that raises when read announces nothing. */
  lemma RaisingIsRereadable(log: Log, n: nat, formats: map<int, Format>)
    requires WellFormed(log) && n < |log.entries| && ReadingRaises(log, n, formats)
    ensures Rereadable(log, n)
  {
    hide WellFormed, FmtuRaises, NotesAt;
    NameOfFmt(log, n);
    assert |"FMTU"| != |"FMT"|;
  }

  /** The pass parses only the first FMT record, unless a FMTU record marks a column of FMT itself. */
  lemma UnmarkedFmtIsSteady(data: seq<byte>, log: Log)
    requires WellFormed(log) && forall n | 0 <= n < |log.entries| :: FMT_TYPE as int !in NotesAt(log, n).instances
    ensures Steady(data, log)
  {
    forall n | 0 <= n < |log.entries| && log.entries[n].typ == FMT_TYPE && ParsedByPass(data, log, n)
      ensures Kept(log, n, NotesAt(log, n)).Some?
    {
      FirstFmtIsFirst(log, n);
    }
  }

  /** A log begins with a FMT record. */
  lemma FirstFmtIsFirst(log: Log, n: nat)
    requires WellFormed(log) && n < |log.entries| && log.entries[n].typ == FMT_TYPE
    ensures IsFirst(log, n) ==> n == 0
  {
    assert GoodEntry(log.entries[0], Env(log, 0));
    hide GoodEntry, At;
    if n > 0 { ListsGrow(log, 1, n, FMT_TYPE as int); }
  }

  /** Where no type names two of its columns alike, every format can be built over an old one, by the pass and when the
      log is read again. */
  lemma DistinctColumnsAreKept(log: Log, n: nat, m: nat)
    requires WellFormed(log) && forall t <- Env(log, |log.entries|) :: DistinctColumns(Env(log, |log.entries|)[t])
    requires n <= m <= |log.entries| && n < |log.entries|
    ensures Kept(log, n, NotesAt(log, m)) == Some(NotesAt(log, m))
  {
    SettledUpTo(log, m);
    AnnouncedIsKept(log, n, m, NotesAt(log, m));
  }

  lemma DistinctColumnsAreRereadable(data: seq<byte>, log: Log)
    requires WellFormed(log) && forall t <- Env(log, |log.entries|) :: DistinctColumns(Env(log, |log.entries|)[t])
    ensures Steady(data, log) && RereadableTo(log, |log.entries|)
  {
    hide WellFormed, Env, DistinctColumns, Kept, NotesAt, ParsedByPass;
    forall n | 0 <= n < |log.entries|
      ensures Kept(log, n, NotesAt(log, n)).Some? && Kept(log, n, NotesAt(log, |log.entries|)).Some?
    {
      DistinctColumnsAreKept(log, n, n);
      DistinctColumnsAreKept(log, n, |log.entries|);
    }
  }

  /** A format announced again has its instance column where it was. */
  lemma AnnouncedIsKept(log: Log, n: nat, m: nat, notes: Notes)
    requires WellFormed(log) && n < |log.entries| && n <= m <= |log.entries| && Settled(Env(log, m), notes)
    ensures Kept(log, n, notes) == Some(notes)
  {
    hide GoodEntry, Env, Found, FormatOfElements, Sound;
    if Announced(log, n).Some? {
      var f := Announced(log, n).value;
      Announcement(log, n);
      if f.typ in notes.instances {
        if n < m { EnvGrows(log, n + 1, m, f.typ); }
      }
      FoundIsKept(f, notes);
    }
  }

  lemma {:induction false} SettledUpTo(log: Log, n: nat)
    requires WellFormed(log) && n <= |log.entries|
    requires forall t <- Env(log, |log.entries|) :: DistinctColumns(Env(log, |log.entries|)[t])
    ensures Settled(Env(log, n), NotesAt(log, n))
  {
    hide GoodEntry, Env, Settled, WellFormed, Note, FormatOf, RawElements, Kept;
    if n > 0 {
      SettledUpTo(log, n - 1);
      DistinctBefore(log, n - 1);
      AnnouncedIsKept(log, n - 1, n - 1, NotesAt(log, n - 1));
      if NotedOf(log, n - 1, NotesAt(log, n - 1)).Some? {
        NoteKeepsSettled(TypeName(log, n - 1), FormatOf(log, n - 1), RawElements(log, n - 1), Env(log, n - 1), NotesAt(log, n - 1));
      }
      SettledLater(log, n - 1, n, NotesAt(log, n));
    } else {
      NothingIsSettled(Env(log, 0));
    }
  }

  lemma SettledLater(log: Log, m: nat, k: nat, notes: Notes)
    requires WellFormed(log) && m <= k <= |log.entries| && Settled(Env(log, m), notes)
    ensures Settled(Env(log, k), notes)
  {
    hide Env, GoodEntry, Settled;
    forall t <- Env(log, m)
      ensures t in Env(log, k) && Env(log, k)[t] == Env(log, m)[t]
    {
      EnvGrows(log, m, k, t);
    }
    SettledGrows(Env(log, m), Env(log, k), notes);
  }

  lemma NothingIsSettled(env: map<int, Format>)
    ensures Settled(env, NO_NOTES)
  {}

  lemma DistinctBefore(log: Log, n: nat)
    requires WellFormed(log) && n <= |log.entries|
    requires forall t <- Env(log, |log.entries|) :: DistinctColumns(Env(log, |log.entries|)[t])
    ensures AllDistinct(Env(log, n))
  {
    hide GoodEntry, Env, DistinctColumns, Sound;
    EnvIsSoundHere(log, n);
    forall t <- Env(log, n)
      ensures DistinctColumns(Env(log, n)[t])
    {
      EnvGrows(log, n, |log.entries|, t);
    }
  }

  // ---------------------------------------------------------------- reading until an exception

  /** The first entry from c on whose reading raises, all formats known; the end if there is none. */
  ghost function FirstRaising(log: Log, c: nat): (k: nat)
    ensures c <= |log.entries| ==> c <= k <= |log.entries|
    ensures k < |log.entries| ==> ReadingRaises(log, k, Env(log, |log.entries|))
    ensures forall j | c <= j < k && j < |log.entries| :: !ReadingRaises(log, j, Env(log, |log.entries|))
    decreases |log.entries| - c
  {
    if c >= |log.entries| then |log.entries|
    else if ReadingRaises(log, c, Env(log, |log.entries|)) then c
    else FirstRaising(log, c + 1)
  }

  /** Where reading the wanted types ends: only FMTU records raise. */
  ghost function Stop(log: Log, c: nat, wanted: set<string>): nat {
    if "FMTU" in wanted then FirstRaising(log, c) else |log.entries|
  }

  // ---------------------------------------------------------------- what a caller must get

  /** Entry k is of a wanted type that the log announces. */
  ghost predicate Matches(log: Log, k: nat, wanted: set<string>)
    requires k < |log.entries|
  {
    TypeName(log, k) in wanted && TypeName(log, k) in NamesOf(log, |log.entries|)
  }

  /** The wanted messages from entry c on. */
  ghost function Selected(log: Log, c: nat, wanted: set<string>): seq<Message>
    decreases |log.entries| - c
  {
    if c >= |log.entries| then []
    else (if Matches(log, c, wanted) then [MessageAt(log, c)] else []) + Selected(log, c + 1, wanted)
  }

  /** All messages from entry c on. */
  ghost function Messages(log: Log, c: nat): seq<Message>
    decreases |log.entries| - c
  {
    if c >= |log.entries| then [] else [MessageAt(log, c)] + Messages(log, c + 1)
  }

  /** Those whose type name is wanted. */
  ghost function Filter(ms: seq<Message>, wanted: set<string>): seq<Message> {
    if ms == [] then []
    else (if ms[0].fmt.name in wanted then [ms[0]] else []) + Filter(ms[1..], wanted)
  }

  /** Entry k has an announced name exactly if its id is among the announced ids of any set with that name. */
  lemma MatchesById(log: Log, k: nat, wanted: set<string>, more: set<string>)
    requires WellFormed(log) && k < |log.entries| && wanted <= more
    ensures Matches(log, k, wanted) <==>
              log.entries[k].typ as int in IdsOf(NamesOf(log, |log.entries|), more) && TypeName(log, k) in wanted
  {
    hide WellFormed, Env, Announced, GoodEntry, Sound, NamesOf, FormatOf;
    var n := |log.entries|;
    NamesAgree(log, n);
    EnvIsSoundHere(log, n);
    FormatLater(log, k, n);
    var names, t, name := NamesOf(log, n), log.entries[k].typ as int, TypeName(log, k);
    if t in IdsOf(names, more) {
      var s :| s in more && s in names && names[s] == t;
      assert s == name;
    }
    if name in names {
      assert names[name] == t;
    }
  }

  /** The log has unannounced FMT records from entry c on, and FMT is wanted. */
  ghost predicate MissesFmt(log: Log, c: nat, wanted: set<string>) {
    && "FMT" in wanted && "FMT" !in NamesOf(log, |log.entries|)
    && exists k :: c <= k < |log.entries| && log.entries[k].typ == FMT_TYPE
  }

  /** The log has FMT records but none that announces FMT itself, and FMT is wanted. */
  ghost predicate WantsUnannouncedFmt(log: Log, wanted: set<string>) {
    MissesFmt(log, 0, wanted)
  }

  lemma MatchesUnlessFmt(log: Log, k: nat, wanted: set<string>)
    requires WellFormed(log) && k < |log.entries|
    ensures log.entries[k].typ != FMT_TYPE || "FMT" in NamesOf(log, |log.entries|)
            ==> (Matches(log, k, wanted) <==> TypeName(log, k) in wanted)
    ensures log.entries[k].typ == FMT_TYPE ==> TypeName(log, k) == "FMT"
  {
    hide WellFormed, Env, Announced, GoodEntry, Sound, NamesOf, FormatOf;
    NamesAgree(log, |log.entries|);
    FormatLater(log, k, |log.entries|);
  }

  lemma FilterFirst(m: Message, ms: seq<Message>, wanted: set<string>)
    ensures Filter([m] + ms, wanted) == (if m.fmt.name in wanted then [m] else []) + Filter(ms, wanted)
  {
    assert ([m] + ms)[1..] == ms;
  }

  lemma SelectedStep(log: Log, c: nat, wanted: set<string>)
    requires WellFormed(log) && c < |log.entries|
    ensures Matches(log, c, wanted) ==> MessageAt(log, c).fmt.name in wanted
    ensures !MissesFmt(log, c, wanted) && MessageAt(log, c).fmt.name in wanted ==> Matches(log, c, wanted)
    ensures MissesFmt(log, c + 1, wanted) ==> MissesFmt(log, c, wanted)
    ensures MissesFmt(log, c, wanted) && !MissesFmt(log, c + 1, wanted) ==>
              !Matches(log, c, wanted) && MessageAt(log, c).fmt.name in wanted
  {
    hide WellFormed, NamesOf, FormatOf;
    MatchesUnlessFmt(log, c, wanted);
  }

  lemma {:induction false} SelectedIsFiltered(log: Log, c: nat, wanted: set<string>)
    requires WellFormed(log) && c <= |log.entries|
    ensures |Selected(log, c, wanted)| <= |Filter(Messages(log, c), wanted)|
    ensures !MissesFmt(log, c, wanted) ==> Selected(log, c, wanted) == Filter(Messages(log, c), wanted)
    ensures MissesFmt(log, c, wanted) ==> |Selected(log, c, wanted)| < |Filter(Messages(log, c), wanted)|
    decreases |log.entries| - c
  {
    hide WellFormed, Matches, MissesFmt, MessageAt;
    if c < |log.entries| {
      SelectedIsFiltered(log, c + 1, wanted);
      SelectedStep(log, c, wanted);
      FilterFirst(MessageAt(log, c), Messages(log, c + 1), wanted);
      hide Filter;
    } else {
      assert !MissesFmt(log, c, wanted) by { NothingMissed(log, wanted); }
    }
  }

  lemma NothingMissed(log: Log, wanted: set<string>)
    ensures !MissesFmt(log, |log.entries|, wanted)
  {}

  /** Reading by index gives what filtering a linear scan gives, except that FMT records themselves
      are not found when no FMT record announces the name FMT. */
  lemma IndexAgreesWithScan(log: Log, wanted: set<string>)
    requires WellFormed(log)
    ensures Selected(log, 0, wanted) == Filter(Messages(log, 0), wanted) <==> !WantsUnannouncedFmt(log, wanted)
  {
    SelectedIsFiltered(log, 0, wanted);
  }
}
