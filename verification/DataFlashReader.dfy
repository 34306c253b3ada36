/**
 The DataFlash reader object: the resynchronising scanner `ParseNext`, the pass that builds
 the per-type offset index, and `RecvMatch`, which merges the offset lists of the wanted
 types to jump from one wanted record to the next.

 `ParseNext` is `Parse` on every input. On the bytes of a well-formed log the index pass ends
 normally exactly if no UNIT, MULT or FMTU record raises. Then the index is the partition of the
 records by type, and reading by index returns exactly the wanted messages of the log, in order,
 each once, up to the first FMTU record that raises when read.
 */
module DataFlashReader {
  import opened Wrappers
  import opened DataFlashFormat
  import opened DataFlashUnits
  import opened DataFlashLog
  import opened DataFlashCodes
  import opened DataFlashIndex

  /** Types read along with the wanted ones unless reading is strict. */
  const KEY_TYPES: set<string> := {"MODE", "MSG", "PARM", "STAT", "ORGN", "VER"}

  /** How building the index ends: normally (possibly cutting off a bad end), with a Python exception,
      or never, on a record of length zero. */
  datatype Outcome = Indexed | Raised | Diverged

  datatype Noted = Learned | Short | Bad

  /** The tables after the first n entries of a log. */
  ghost predicate IndexAt(log: Log, n: nat, offsets: seq<seq<nat>>, counts: seq<nat>)
    requires n <= |log.entries|
  {
    && |offsets| == |counts| == 256
    && forall t | 0 <= t < 256 :: offsets[t] == OffsetsOf(log, n, t) && counts[t] == |OffsetsOf(log, n, t)|
  }

  /** The lengths of the types met so far. */
  ghost predicate LengthsAt(log: Log, n: nat, lengths: seq<int>)
    requires n <= |log.entries|
  {
    && |lengths| == 256
    && (forall t | 0 <= t < 256 :: lengths[t] == -1 <==> OffsetsOf(log, n, t) == [])
    && (forall t | 0 <= t < 256 && lengths[t] != -1 :: t in Env(log, n) && lengths[t] == Env(log, n)[t].len)
  }

  // ---------------------------------------------------------------- steps through a log

  /** Position ofs lies before record n, or behind the last record. */
  ghost predicate Before(log: Log, n: nat, ofs: nat) {
    && n <= |log.entries| && Start(log, n) <= ofs
    && (n < |log.entries| ==> ofs <= At(log, n))
  }

  /** A header pair found there is that of record n. */
  lemma HeaderIsRecord(data: seq<byte>, log: Log, n: nat, ofs: nat)
    requires IsLog(data, log) && Before(log, n, ofs) && ofs + 3 <= |data|
    ensures data[ofs] == HEAD1 && data[ofs + 1] == HEAD2 <==> n < |log.entries| && ofs == At(log, n)
  {
    if n < |log.entries| {
      Layout(data, log, n);
      assert GoodEntry(log.entries[n], Env(log, n));
      InNoise(data, Start(log, n), At(log, n), ofs);
    } else {
      var start := Start(log, n);
      assert data[start..] == log.tail;
      InNoise(data, start, |data|, ofs);
    }
  }

  lemma InNoise(data: seq<byte>, lo: nat, hi: nat, ofs: nat)
    requires lo <= ofs <= hi <= |data| && Noise(data[lo..hi]) && ofs + 3 <= |data|
    requires hi < |data| ==> data[hi] == HEAD1
    ensures ofs < hi ==> !(data[ofs] == HEAD1 && data[ofs + 1] == HEAD2)
  {
    var b := data[lo..hi];
    if ofs < hi {
      assert data[ofs] == b[ofs - lo] && (ofs + 1 < hi ==> data[ofs + 1] == b[ofs + 1 - lo]);
    }
  }

  /** While the index loop runs on, there is a record left exactly if there is one in the log. */
  lemma RecordFits(data: seq<byte>, log: Log, n: nat)
    requires IsLog(data, log) && n < |log.entries|
    ensures At(log, n) + 3 < |data| && data[At(log, n) + 2] == log.entries[n].typ
    ensures Start(log, n) <= At(log, n) && Start(log, n + 1) == At(log, n) + FormatOf(log, n).len && FormatOf(log, n).len > 3
    ensures n + 1 < |log.entries| ==> Start(log, n + 1) <= At(log, n + 1)
  {
    Layout(data, log, n);
  }

  lemma IndexGrows(log: Log, n: nat, offsets: seq<seq<nat>>, counts: seq<nat>)
    requires n < |log.entries| && IndexAt(log, n, offsets, counts)
    ensures var t := log.entries[n].typ;
            IndexAt(log, n + 1, offsets[t := offsets[t] + [At(log, n)]], counts[t := counts[t] + 1])
  {
    hide At;
  }

  lemma LengthsStay(log: Log, n: nat, lengths: seq<int>)
    requires WellFormed(log) && n < |log.entries| && LengthsAt(log, n, lengths)
    ensures var t := log.entries[n].typ;
            && LengthsAt(log, n + 1, lengths[t := FormatOf(log, n).len])
            && (lengths[t] != -1 ==> lengths[t] == FormatOf(log, n).len)
            && (lengths[t] == -1 <==> IsFirst(log, n))
            && FormatOf(log, n).len > 3
  {
    hide Env, GoodEntry, At;
    EntryFits(log, n);
    FormatLater(log, n, n);
    FormatLater(log, n, n + 1);
    forall t | 0 <= t < 256 && lengths[t] != -1
      ensures t in Env(log, n + 1) && Env(log, n + 1)[t] == Env(log, n)[t]
    {
      EnvGrows(log, n, n + 1, t);
    }
  }

  // ---------------------------------------------------------------- one header of the index pass

  /** The body of a record in the index pass. */
  datatype Body = Cut | Unreadable | Unpacked(elements: seq<Value>)

  function ReadBody(data: seq<byte>, ofs: nat, mlen: nat, f: Format): Body {
    var body := Slice(data, ofs + 3, ofs + mlen);
    if |body| + 3 < mlen then Cut
    else
      match Unpack(Raw(Items(f.format)), body)
      case None => Unreadable
      case Some(elements) => Unpacked(elements)
  }

  /** The body is cut off exactly if the record does not end within the data; otherwise the fields are read from behind the
      header up to the record's end, if they fit. */
  lemma BodyIsRead(data: seq<byte>, ofs: nat, mlen: nat, f: Format)
    requires mlen > 3 && ofs + 3 <= |data|
    ensures ReadBody(data, ofs, mlen, f) == Cut <==> ofs + mlen > |data|
    ensures ofs + mlen <= |data| && ReadBody(data, ofs, mlen, f).Unpacked? ==>
              && mlen - 3 == Size(Items(f.format))
              && ReadBody(data, ofs, mlen, f).elements == UnpackAll(Raw(Items(f.format)), data[ofs + 3..ofs + mlen])
  {
    hide Items, Size, UnpackAll, Raw;
    RawSize(Items(f.format));
  }

  /** The FMT branch of the index loop: outcome, tables and names after it. */
  function NotingFormat(data: seq<byte>, ofs: nat, mlen: nat, known: Known, names: map<string, int>)
    : (r: (Noted, Known, map<string, int>))
    requires FMT_TYPE as int in known.formats
    ensures known.formats.Keys <= r.1.formats.Keys
    ensures NamesFit(names, known.formats) ==> NamesFit(r.2, r.1.formats)
    ensures Keyed(known.formats) ==> Keyed(r.1.formats)
  {
    match ReadBody(data, ofs, mlen, known.formats[FMT_TYPE as int])
    case Cut => (Short, known, names)
    case Unreadable => (Bad, known, names)
    case Unpacked(elements) =>
      match FormatOfElements(elements)
      case None => (Bad, known, names)
      case Some(f) =>
        match KeepInstance(f, known.notes)
        case None => (Bad, known, names)
        case Some(notes) =>
          if 0 <= f.typ < 256 then
            (Learned, known.(formats := known.formats[f.typ := f], notes := notes), names[f.name := f.typ])
          else (Bad, known, names)
  }

  /** Names lead to types that have a format. */
  ghost predicate NamesFit(names: map<string, int>, formats: map<int, Format>) {
    forall s <- names :: 0 <= names[s] < 256 && names[s] in formats
  }

  ghost predicate Keyed(formats: map<int, Format>) {
    forall t <- formats :: formats[t].typ == t
  }

  /** The branch for records of the type called `name`. */
  function NotingNamed(data: seq<byte>, ofs: nat, mlen: nat, t: int, name: string, formats: map<int, Format>,
                       names: map<string, int>, notes: Notes): (Noted, Notes)
    requires NamesFit(names, formats)
  {
    if name !in names || names[name] != t then (Learned, notes)
    else
      match ReadBody(data, ofs, mlen, formats[t])
      case Cut => (Short, notes)
      case Unreadable => (Bad, notes)
      case Unpacked(elements) =>
        match Note(name, formats[t], elements, formats, notes)
        case None => (Bad, notes)
        case Some(notes') => (Learned, notes')
  }

  /** The FMTU, UNIT and MULT branches, one after the other. */
  function NotingUnits(data: seq<byte>, ofs: nat, mlen: nat, t: int, formats: map<int, Format>, names: map<string, int>,
                       notes: Notes): (Noted, Notes)
    requires NamesFit(names, formats)
  {
    var (r, a) := NotingNamed(data, ofs, mlen, t, "FMTU", formats, names, notes);
    if r != Learned then (r, a)
    else
      var (r, b) := NotingNamed(data, ofs, mlen, t, "UNIT", formats, names, a);
      if r != Learned then (r, b)
      else NotingNamed(data, ofs, mlen, t, "MULT", formats, names, b)
  }

  function LenIn(formats: map<int, Format>, t: int): int {
    if t in formats then formats[t].len else -1
  }

  /** What the loop does first at a header: a record of a new type is parsed and its length taken from its format, -1 if
      there is none; a record of a known type is parsed if it is of a new instance. */
  datatype Measure = Measure(raised: bool, mlen: int, known: Known, seen: set<Sighting>)

  function Measured(data: seq<byte>, ofs: nat, t: int, known: Known, length: int, seen: set<Sighting>, depth: nat): (m: Measure)
    ensures known.formats.Keys <= m.known.formats.Keys
    ensures Keyed(known.formats) ==> Keyed(m.known.formats)
    ensures !m.raised && length >= -1 ==> m.mlen >= -1
  {
    ParseKeepsTypes(data, ofs, known, depth);
    var p := Parse(data, ofs, known, depth);
    if length == -1 then
      if t !in known.formats then Measure(false, -1, known, seen)
      else Measure(p.raised, LenIn(p.known.formats, t), p.known, seen)
    else if t in known.notes.instances then
      var s := Sighting(t, InstanceValue(data, ofs, known.notes.instances[t]));
      if s in seen then Measure(false, length, known, seen) else Measure(p.raised, length, p.known, seen + {s})
    else Measure(false, length, known, seen)
  }

  /** A parse never forgets a type. */
  lemma {:induction false} ParseKeepsTypes(data: seq<byte>, o: nat, known: Known, depth: nat)
    ensures known.formats.Keys <= Parse(data, o, known, depth).known.formats.Keys
    ensures Keyed(known.formats) ==> Keyed(Parse(data, o, known, depth).known.formats)
    decreases |data| - o
  {
    hide ParseRecord, Keyed, FindHeader;
    var h := FindHeader(data, o, known.formats);
    if |data| - h >= 3 {
      RecordKeepsTypes(data, h, known);
      match ParseRecord(data, h, known)
      case Done(_) =>
      case Again(known') => if depth > 0 { ParseKeepsTypes(data, h + 3, known', depth - 1); }
    }
  }

  lemma RecordKeepsTypes(data: seq<byte>, h: nat, known: Known)
    requires |data| - h >= 3 && data[h + 2] as int in known.formats
    ensures var r := ParseRecord(data, h, known);
            var known' := if r.Done? then r.parsed.known else r.known;
            known.formats.Keys <= known'.formats.Keys && (Keyed(known.formats) ==> Keyed(known'.formats))
  {
    hide Unpack, FormatOfElements, Items, Slice, Transformed, KeepInstance, FmtuRaises, Raw;
  }

  /** The tables of the index pass: what is known so far, names, instances seen, offset lists, counts and record lengths. */
  datatype Pass = Pass(known: Known, names: map<string, int>, seen: set<Sighting>, offsets: seq<seq<nat>>, counts: seq<nat>,
                       lengths: seq<int>)

  /** The tables have their shape, whatever the data. */
  ghost predicate Shaped(p: Pass) {
    && |p.lengths| == 256 && (forall t | 0 <= t < 256 :: p.lengths[t] >= -1)
    && FMT_TYPE as int in p.known.formats && NamesFit(p.names, p.known.formats) && Keyed(p.known.formats)
    && Usable(p.offsets, p.counts, p.names)
  }

  /** What reading by index relies on. */
  ghost predicate Usable(offsets: seq<seq<nat>>, counts: seq<nat>, names: map<string, int>) {
    && |offsets| == |counts| == 256
    && (forall t | 0 <= t < 256 :: counts[t] <= |offsets[t]|)
    && (forall s <- names :: 0 <= names[s] < 256)
  }

  lemma ShapedIsUsable(p: Pass)
    requires Shaped(p)
    ensures Usable(p.offsets, p.counts, p.names)
  {}

  /** The branches behind the length: outcome, tables and names. */
  function Noting(data: seq<byte>, ofs: nat, mlen: nat, t: int, known: Known, names: map<string, int>)
    : (r: (Noted, Known, map<string, int>))
    requires FMT_TYPE as int in known.formats && NamesFit(names, known.formats)
    ensures known.formats.Keys <= r.1.formats.Keys && NamesFit(r.2, r.1.formats)
    ensures Keyed(known.formats) ==> Keyed(r.1.formats)
  {
    var (r, known', names') :=
      if t == FMT_TYPE as int then NotingFormat(data, ofs, mlen, known, names) else (Learned, known, names);
    if r != Learned then (r, known', names')
    else
      var (r, notes) := NotingUnits(data, ofs, mlen, t, known'.formats, names', known'.notes);
      (r, known'.(notes := notes), names')
  }

  /** One turn of the loop at a header: outcome, tables, and the length of the record. */
  function IndexStep(data: seq<byte>, ofs: nat, p: Pass, depth: nat): (r: (Noted, Pass, int))
    requires Shaped(p) && ofs + 3 < |data|
    ensures Shaped(r.1) && (r.0 == Learned ==> r.2 >= 0)
  {
    var t := data[ofs + 2];
    var m := Measured(data, ofs, t, p.known, p.lengths[t], p.seen, depth);
    var p1 := p.(known := m.known, seen := m.seen, offsets := p.offsets[t := p.offsets[t] + [ofs]]);
    if m.raised then (Bad, p1, m.mlen)
    else if m.mlen == -1 then (Short, p1, -1)
    else
      var (r, known, names) := Noting(data, ofs, m.mlen, t, m.known, p.names);
      (r, p1.(known := known, names := names, counts := p.counts[t := p.counts[t] + 1], lengths := p.lengths[t := m.mlen]), m.mlen)
  }

  // ---------------------------------------------------------------- the index pass on a log

  /** On a log the body of record n unpacks to its elements. */
  lemma BodyOnLog(data: seq<byte>, log: Log, n: nat, f: Format)
    requires IsLog(data, log) && n < |log.entries| && f == FormatOf(log, n)
    ensures ReadBody(data, At(log, n), f.len, f) == Unpacked(RawElements(log, n))
  {
    hide Pack, Items, Size, Received, FormatOfElements, Unpack, UnpackAll, Header, RecordBytes, BytesUpTo, Env, GoodEntry, Raw, WellFormed;
    Layout(data, log, n);
    var items, values := Items(f.format), log.entries[n].values;
    RawPack(items, values);
    PackUnpack(Raw(items), values);
    assert Slice(data, At(log, n) + 3, At(log, n) + f.len) == data[At(log, n) + 3..At(log, n) + f.len];
  }

  /** FMT has no 'a' field. */
  lemma FmtElementsAreRaw(log: Log, n: nat)
    requires WellFormed(log) && n < |log.entries| && log.entries[n].typ == FMT_TYPE
    ensures RawElements(log, n) == MessageAt(log, n).elements
  {
    hide GoodEntry, WellFormed, Env, Received, Items, Pack;
    FmtKeepsItsFormat(log, n);
    ItemsOfFmt();
    assert Raw(FMT_ITEMS) == FMT_ITEMS;
  }

  /** The FMT branch at record n, with the formats of either side of it. */
  lemma FormatNotedOnLog(data: seq<byte>, log: Log, n: nat, m: nat, known: Known)
    requires IsLog(data, log) && n < |log.entries| && n <= m <= n + 1 && log.entries[n].typ == FMT_TYPE && TablesAt(log, m, known)
    ensures FMT_TYPE as int in known.formats
    ensures NotingFormat(data, At(log, n), FormatOf(log, n).len, known, NamesOf(log, n)) ==
            match Kept(log, n, known.notes)
            case None => (Bad, known, NamesOf(log, n))
            case Some(kept) => (Learned, known.(formats := Env(log, n + 1), notes := kept), NamesOf(log, n + 1))
  {
    hide WellFormedUpTo, Env, GoodEntry, At, FormatOf, ReadBody, MessageAt, RawElements, FormatOfElements, KeepInstance, Cached, FindHeader;
    BodyOnLog(data, log, n, FormatOf(log, n));
    FmtElementsAreRaw(log, n);
    FormatLater(log, n, m);
    Announcement(log, n);
    Learning(log, n, m);
  }

  /** At record n, the name of a type leads to its branch exactly if the record is of that name. */
  lemma BranchOfName(log: Log, n: nat, name: string)
    requires WellFormed(log) && n < |log.entries| && name != "FMT"
    ensures var names, t := NamesOf(log, n + 1), log.entries[n].typ as int;
            name in names && names[name] == t <==> TypeName(log, n) == name
  {
    hide WellFormed, Env, Announced, GoodEntry, Sound, NamesOf, FormatOf;
    NamesAgree(log, n + 1);
    EnvIsSoundHere(log, n + 1);
    FormatLater(log, n, n + 1);
  }

  lemma LogNamesFit(log: Log, n: nat)
    requires WellFormed(log) && n <= |log.entries|
    ensures NamesFit(NamesOf(log, n), Env(log, n))
  {
    hide WellFormed, Env, NamesOf;
    NamesAgree(log, n);
    EnvIsSoundHere(log, n);
  }

  lemma NamedOnLog(data: seq<byte>, log: Log, n: nat, name: string, notes: Notes)
    requires IsLog(data, log) && n < |log.entries| && name != "FMT"
    requires NamesFit(NamesOf(log, n + 1), Env(log, n + 1))
    ensures NotingNamed(data, At(log, n), FormatOf(log, n).len, log.entries[n].typ, name, Env(log, n + 1), NamesOf(log, n + 1), notes) ==
            if TypeName(log, n) != name then (Learned, notes)
            else
              match Note(name, FormatOf(log, n), RawElements(log, n), Env(log, n + 1), notes)
              case None => (Bad, notes)
              case Some(notes') => (Learned, notes')
  {
    hide WellFormedUpTo, Env, GoodEntry, At, FormatOf, ReadBody, RawElements, Note, NamesOf, TypeName;
    BranchOfName(log, n, name);
    BodyOnLog(data, log, n, FormatOf(log, n));
    FormatLater(log, n, n + 1);
  }

  /** On a log the three branches together note what entry n is about, or raise. */
  lemma UnitsOnLog(data: seq<byte>, log: Log, n: nat, notes: Notes)
    requires IsLog(data, log) && n < |log.entries|
    requires NamesFit(NamesOf(log, n + 1), Env(log, n + 1))
    ensures NotingUnits(data, At(log, n), FormatOf(log, n).len, log.entries[n].typ, Env(log, n + 1), NamesOf(log, n + 1), notes) ==
            match Note(TypeName(log, n), FormatOf(log, n), RawElements(log, n), Env(log, n), notes)
            case None => (Bad, notes)
            case Some(notes') => (Learned, notes')
  {
    hide WellFormedUpTo, Env, GoodEntry, At, FormatOf, RawElements, NamesOf, TypeName, NotingNamed, NoteFmtu, NoteUnit, NoteMult, Announced;
    var f, e, name := FormatOf(log, n), RawElements(log, n), TypeName(log, n);
    SameFormatsForNote(log, n);
    NamedOnLog(data, log, n, "FMTU", notes);
    NamedOnLog(data, log, n, "UNIT", notes);
    NamedOnLog(data, log, n, "MULT", notes);
    assert "FMTU"[0] != "UNIT"[0] && "UNIT"[0] != "MULT"[0] && "MULT"[0] != "FMTU"[0];
    var noted := Note(name, f, e, Env(log, n), notes);
    if noted.Some? {
      NamedOnLog(data, log, n, "UNIT", noted.value);
      NamedOnLog(data, log, n, "MULT", noted.value);
    }
  }

  lemma SameFormatsForNote(log: Log, n: nat)
    requires WellFormed(log) && n < |log.entries|
    ensures TypeName(log, n) == "FMTU" ==> Env(log, n + 1) == Env(log, n)
  {
    hide GoodEntry, WellFormed, FormatOf;
    FormatLater(log, n, n);
  }

  /** The tables after record n has been measured: those before it or, if it was parsed, those that know what it
      announces. */
  ghost predicate MeasuredAt(log: Log, n: nat, known: Known)
    requires n < |log.entries|
  {
    || (TablesAt(log, n, known) && known.notes == NotesAt(log, n))
    || (TablesAt(log, n + 1, known) && Kept(log, n, NotesAt(log, n)) == Some(known.notes))
  }

  /** Building an announced format a second time changes nothing. */
  lemma KeptTwice(log: Log, n: nat, known: Known)
    requires n < |log.entries| && MeasuredAt(log, n, known)
    ensures Kept(log, n, known.notes) == Kept(log, n, NotesAt(log, n))
    ensures TablesAt(log, n, known) || TablesAt(log, n + 1, known)
  {
    hide KeepInstance, NotesAt, Announced, TablesAt;
    if Announced(log, n).Some? && known.notes != NotesAt(log, n) {
      KeepTwice(Announced(log, n).value, NotesAt(log, n));
    }
  }

  /** What the branches do at record n. */
  lemma NotingOnLog(data: seq<byte>, log: Log, n: nat, known: Known)
    requires IsLog(data, log) && n < |log.entries| && MeasuredAt(log, n, known)
    ensures FMT_TYPE as int in known.formats && NamesFit(NamesOf(log, n), known.formats)
    ensures var noted := Noting(data, At(log, n), FormatOf(log, n).len, log.entries[n].typ, known, NamesOf(log, n));
            if NotedOf(log, n, NotesAt(log, n)).None? then noted.0 == Bad
            else noted == (Learned, Known(Env(log, n + 1), known.unpackers, NotesAt(log, n + 1)), NamesOf(log, n + 1))
  {
    hide Env, GoodEntry, At, FormatOf, NamesOf, TypeName, Announced, NotingFormat, NotingUnits, NamesFit, Note, WellFormedUpTo;
    KeptTwice(log, n, known);
    var m := if TablesAt(log, n, known) then n else n + 1;
    FmtKeepsItsFormat(log, m);
    NamesFitLater(log, n, m);
    LogNamesFit(log, n + 1);
    if Kept(log, n, known.notes).Some? { UnitsOnLog(data, log, n, Kept(log, n, known.notes).value); }
    if log.entries[n].typ == FMT_TYPE {
      FormatNotedOnLog(data, log, n, m, known);
    } else {
      NothingAnnounced(log, n, known.notes);
    }
    hide MeasuredAt, Kept, Cached;
  }

  lemma NothingAnnounced(log: Log, n: nat, notes: Notes)
    requires n < |log.entries| && log.entries[n].typ != FMT_TYPE
    ensures NamesOf(log, n + 1) == NamesOf(log, n) && Env(log, n + 1) == Env(log, n) && Kept(log, n, notes) == Some(notes)
  {}

  lemma NamesFitLater(log: Log, n: nat, m: nat)
    requires WellFormed(log) && n <= m <= |log.entries|
    ensures NamesFit(NamesOf(log, n), Env(log, m))
  {
    hide GoodEntry, Env, NamesOf;
    LogNamesFit(log, n);
    forall s <- NamesOf(log, n)
      ensures NamesOf(log, n)[s] in Env(log, m)
    {
      EnvGrows(log, n, m, NamesOf(log, n)[s]);
    }
  }

  /** How record n is measured: it is parsed if it is the first of its type or of a new instance. */
  lemma MeasuredOnLog(data: seq<byte>, log: Log, n: nat, known: Known, lengths: seq<int>, depth: nat)
    requires IsLog(data, log) && n < |log.entries| && TablesAt(log, n, known) && known.notes == NotesAt(log, n)
    requires ParsedByPass(data, log, n) ==> Kept(log, n, known.notes).Some?
    requires LengthsAt(log, n, lengths)
    ensures var t := log.entries[n].typ;
            var m := Measured(data, At(log, n), t, known, lengths[t], SeenAt(data, log, n), depth);
            && (m.raised <==> ParsedByPass(data, log, n) && ReadingRaises(log, n, Env(log, n)))
            && m.mlen == FormatOf(log, n).len
            && m.seen == SeenAt(data, log, n + 1)
            && MeasuredAt(log, n, m.known)
  {
    hide Env, FormatOf, At, Start, MessageAt, Cached, Parse, LengthsAt, WellFormedUpTo, IsFirst, InstanceValue, NotesAt, WellFormed, Kept;
    RecordFits(data, log, n);
    ParseEntry(data, log, n, At(log, n), known, n, depth);
    FormatLater(log, n, n);
    FormatLater(log, n, n + 1);
    LengthsStay(log, n, lengths);
  }

  /** The pass has indexed the first n entries and stands at ofs. */
  ghost predicate Progress(data: seq<byte>, log: Log, n: nat, ofs: nat, p: Pass) {
    && Before(log, n, ofs)
    && TablesAt(log, n, p.known) && p.known.notes == NotesAt(log, n)
    && p.names == NamesOf(log, n) && p.seen == SeenAt(data, log, n)
    && IndexAt(log, n, p.offsets, p.counts) && LengthsAt(log, n, p.lengths)
  }

  /** At a header on a log: it is record n's; the turn raises exactly if record n does, and otherwise indexes it. */
  lemma StepOnLog(data: seq<byte>, log: Log, n: nat, ofs: nat, p: Pass, depth: nat)
    requires IsLog(data, log) && Steady(data, log) && Progress(data, log, n, ofs, p) && Shaped(p)
    requires ofs + 3 < |data| && data[ofs] == HEAD1 && data[ofs + 1] == HEAD2
    ensures n < |log.entries|
    ensures var (r, p', mlen) := IndexStep(data, ofs, p, depth);
            if RaisesAt(data, log, n) then r == Bad
            else r == Learned && mlen > 0 && Progress(data, log, n + 1, ofs + mlen, p')
  {
    hide Env, FormatOf, At, Start, IndexAt, LengthsAt, Cached, NamesOf, NotesAt, SeenAt, Measured, Noting, NotedOf, ParsedByPass, ReadingRaises;
    hide MeasuredAt, Kept, WellFormedUpTo, BytesUpTo;
    HeaderIsRecord(data, log, n, ofs);
    RecordFits(data, log, n);
    IndexGrows(log, n, p.offsets, p.counts);
    LengthsStay(log, n, p.lengths);
    NothingOrKept(data, log, n);
    MeasuredOnLog(data, log, n, p.known, p.lengths, depth);
    var t := data[ofs + 2];
    var m := Measured(data, ofs, t, p.known, p.lengths[t], p.seen, depth);
    NotingOnLog(data, log, n, m.known);
    TablesAfter(log, n, m.known);
  }

  /** On a steady log a record that is parsed announces a format that can be built, or none. */
  lemma NothingOrKept(data: seq<byte>, log: Log, n: nat)
    requires Steady(data, log) && n < |log.entries|
    ensures ParsedByPass(data, log, n) ==> Kept(log, n, NotesAt(log, n)).Some?
  {
    hide ParsedByPass, NotesAt;
    if log.entries[n].typ != FMT_TYPE { NothingAnnounced(log, n, NotesAt(log, n)); }
  }

  lemma TablesAfter(log: Log, n: nat, known: Known)
    requires WellFormed(log) && n < |log.entries| && MeasuredAt(log, n, known)
    ensures TablesAt(log, n + 1, Known(Env(log, n + 1), known.unpackers, NotesAt(log, n + 1)))
  {
    hide Env, NotesAt, GoodEntry, Kept;
    var m := if TablesAt(log, n, known) then n else n + 1;
    forall t <- known.unpackers
      ensures t in Env(log, n + 1) && Env(log, n + 1)[t] == Env(log, m)[t]
    {
      EnvGrows(log, m, n + 1, t);
    }
  }

  /** The pass is at ofs, on a log with n entries indexed and none of them raising. */
  ghost predicate OnCourse(data: seq<byte>, log: Log, n: nat, ofs: nat, p: Pass) {
    && Shaped(p)
    && (IsLog(data, log) && Steady(data, log) ==>
          Progress(data, log, n, ofs, p) && forall k | 0 <= k < n :: !RaisesAt(data, log, k))
  }

  /** The pass has ended normally with these tables. */
  ghost predicate Ended(data: seq<byte>, log: Log, p: Pass) {
    && Usable(p.offsets, p.counts, p.names)
    && (IsLog(data, log) && Steady(data, log) ==>
          !PassRaises(data, log) && Indexes(log, data, p.known, p.names, p.offsets, p.counts))
  }

  lemma PassBegins(data: seq<byte>, log: Log, p: Pass)
    requires p == Pass(Known(map[FMT_TYPE as int := FMT], map[], NO_NOTES), map[], {}, PerType([]), PerType(0), PerType(-1))
    ensures OnCourse(data, log, 0, 0, p)
  {}

  lemma NoiseIsSkipped(data: seq<byte>, log: Log, n: nat, ofs: nat, p: Pass)
    requires ofs + 3 < |data| && !(data[ofs] == HEAD1 && data[ofs + 1] == HEAD2)
    requires OnCourse(data, log, n, ofs, p)
    ensures OnCourse(data, log, n, ofs + 1, p)
  {
    hide Shaped, IndexAt, LengthsAt, TablesAt, NamesOf, NotesAt, SeenAt, RaisesAt, Steady;
    if IsLog(data, log) && Steady(data, log) {
      HeaderIsRecord(data, log, n, ofs);
    }
  }

  lemma TurnOnCourse(data: seq<byte>, log: Log, n: nat, ofs: nat, p: Pass, depth: nat)
    requires OnCourse(data, log, n, ofs, p) && ofs + 3 < |data| && data[ofs] == HEAD1 && data[ofs + 1] == HEAD2
    ensures Shaped(p)
    ensures var (r, p', mlen) := IndexStep(data, ofs, p, depth);
            && (r.Learned? ==> mlen >= 0 && OnCourse(data, log, n + 1, ofs + mlen, p'))
            && (r.Learned? && mlen == 0 ==> !(IsLog(data, log) && Steady(data, log)))
            && (r.Bad? && IsLog(data, log) && Steady(data, log) ==> PassRaises(data, log))
            && (r.Short? ==> Ended(data, log, p'))
  {
    hide IsLog, Steady, Progress, IndexStep, RaisesAt;
    if IsLog(data, log) && Steady(data, log) {
      StepOnLog(data, log, n, ofs, p, depth);
    }
    ShapedIsUsable(IndexStep(data, ofs, p, depth).1);
  }

  lemma PassEnds(data: seq<byte>, log: Log, n: nat, ofs: nat, p: Pass)
    requires OnCourse(data, log, n, ofs, p) && ofs + 3 >= |data|
    ensures Ended(data, log, p)
  {
    hide IndexAt, LengthsAt, TablesAt, NamesOf, NotesAt, SeenAt, RaisesAt, Steady, IsLog, Start, At;
    ShapedIsUsable(p);
    hide Shaped, Usable;
    if IsLog(data, log) && Steady(data, log) && n < |log.entries| { RecordFits(data, log, n); }
  }

  /** The same entry for each of the 256 types. */
  function PerType<T>(x: T): (s: seq<T>)
    ensures |s| == 256 && forall t | 0 <= t < 256 :: s[t] == x
  {
    seq(256, _ => x)
  }

  // ---------------------------------------------------------------- merging offset lists

  /** Reading stands before entry c: of each selected type, exactly the records before c are used up. */
  ghost predicate Cursor(log: Log, c: nat, nums: seq<int>, indexes: seq<nat>) {
    && c <= |log.entries| && |indexes| == |nums|
    && Distinct(nums)
    && (forall i | 0 <= i < |nums| :: 0 <= nums[i] < 256 && indexes[i] == |OffsetsOf(log, c, nums[i])|)
  }

  ghost function Elements(s: seq<int>): set<int> {
    set x | x in s
  }

  /** The tables of a reader that has indexed this log. */
  ghost predicate Indexes(log: Log, data: seq<byte>, known: Known, names: map<string, int>, offsets: seq<seq<nat>>, counts: seq<nat>) {
    && IsLog(data, log)
    && TablesAt(log, |log.entries|, known) && names == NamesOf(log, |log.entries|)
    && IndexAt(log, |log.entries|, offsets, counts)
    && SameMarks(known.notes, NotesAt(log, |log.entries|))
  }

  /** Reading these types from entry c on, FMT records are read only if their formats can be built. */
  ghost predicate CanRead(log: Log, c: nat, types: set<string>) {
    "FMT" in types ==> RereadableTo(log, Stop(log, c, types))
  }

  /** The types read along, given what is asked for. */
  function Wanted(types: set<string>, strict: bool): set<string> {
    if strict then types else types + KEY_TYPES
  }

  /** A type with this number was asked for by name, or is one of the six read along unless asked for strictly. */
  ghost predicate Chosen(names: map<string, int>, types: set<string>, strict: bool, t: int) {
    exists s :: s in names && names[s] == t
                && (s in types || (!strict && (s == "MODE" || s == "MSG" || s == "PARM" || s == "STAT" || s == "ORGN" || s == "VER")))
  }

  lemma WantedAreChosen(names: map<string, int>, types: set<string>, strict: bool, nums: seq<int>)
    requires Elements(nums) == IdsOf(names, Wanted(types, strict))
    ensures forall t :: t in nums <==> Chosen(names, types, strict, t)
  {
    forall t
      ensures t in nums <==> Chosen(names, types, strict, t)
    {
      assert t in nums <==> t in Elements(nums);
    }
  }

  ghost predicate OneToOne(names: map<string, int>) {
    forall s, t | s in names && t in names && names[s] == names[t] :: s == t
  }

  ghost predicate Distinct(nums: seq<int>) {
    forall i, j | 0 <= i < j < |nums| :: nums[i] != nums[j]
  }

  lemma NoNames(names: map<string, int>, none: set<string>)
    requires forall s :: s !in none
    ensures Elements([]) == IdsOf(names, none) && Distinct([])
  {}

  /** Looking up one more name. */
  lemma OneMoreName(names: map<string, int>, seen: set<string>, t: string, nums: seq<int>)
    requires t !in seen && Elements(nums) == IdsOf(names, seen)
    ensures var nums' := if t in names then nums + [names[t]] else nums;
            && Elements(nums') == IdsOf(names, seen + {t})
            && (OneToOne(names) && Distinct(nums) ==> Distinct(nums'))
  {
    if t in names {
      assert Elements(nums + [names[t]]) == Elements(nums) + {names[t]};
      assert IdsOf(names, seen + {t}) == IdsOf(names, seen) + {names[t]};
      if OneToOne(names) {
        assert names[t] !in IdsOf(names, seen);
        assert forall i | 0 <= i < |nums| :: nums[i] in Elements(nums);
      }
    } else {
      assert IdsOf(names, seen + {t}) == IdsOf(names, seen);
    }
  }

  /** The selected positions are inside the index. */
  ghost predicate InIndex(nums: seq<int>, indexes: seq<nat>, counts: seq<nat>) {
    && |indexes| == |nums| && |counts| == 256
    && forall i | 0 <= i < |nums| :: 0 <= nums[i] < 256 && indexes[i] <= counts[nums[i]]
  }

  /** How many records of the selected types are still to be read. */
  ghost function Left(nums: seq<int>, indexes: seq<nat>, counts: seq<nat>): nat
    requires InIndex(nums, indexes, counts)
    decreases |nums|
  {
    if nums == [] then 0
    else
      var n := |nums| - 1;
      counts[nums[n]] - indexes[n] + Left(nums[..n], indexes[..n], counts)
  }

  lemma {:induction false} LeftDrops(nums: seq<int>, indexes: seq<nat>, counts: seq<nat>, i: nat)
    requires InIndex(nums, indexes, counts) && i < |nums| && indexes[i] < counts[nums[i]]
    ensures InIndex(nums, indexes[i := indexes[i] + 1], counts)
    ensures Left(nums, indexes[i := indexes[i] + 1], counts) == Left(nums, indexes, counts) - 1
    decreases |nums|
  {
    var n := |nums| - 1;
    var next := indexes[i := indexes[i] + 1];
    if i < n {
      LeftDrops(nums[..n], indexes[..n], counts, i);
      assert next[..n] == indexes[..n][i := indexes[i] + 1];
    } else {
      assert next[..n] == indexes[..n];
    }
  }

  /** The head of the offset list of a selected type is its next record. */
  lemma HeadIsNext(log: Log, c: nat, nums: seq<int>, indexes: seq<nat>, offsets: seq<seq<nat>>, counts: seq<nat>, i: nat)
    requires Cursor(log, c, nums, indexes) && IndexAt(log, |log.entries|, offsets, counts) && i < |nums|
    ensures var k := NextOf(log, c, {nums[i]});
            && indexes[i] <= counts[nums[i]] == |offsets[nums[i]]|
            && (indexes[i] < counts[nums[i]] <==> k < |log.entries|)
            && (k < |log.entries| ==> offsets[nums[i]][indexes[i]] == At(log, k))
  {
    NextInList(log, c, nums[i]);
  }

  lemma {:induction false} RecordOrder(log: Log, j: nat, k: nat)
    requires WellFormed(log) && j <= k < |log.entries|
    ensures At(log, j) <= At(log, k) && (At(log, j) == At(log, k) ==> j == k)
  {
    hide WellFormed, At, Start;
    RecordWithinEntry(log, j);
    RecordWithinEntry(log, k);
    if j < k { StartsGrow(log, j + 1, k); }
  }

  /** Taking the next record of any selected type moves the cursor behind it. */
  lemma CursorMoves(log: Log, c: nat, nums: seq<int>, indexes: seq<nat>, s: nat)
    requires Cursor(log, c, nums, indexes) && s < |nums|
    requires var k := NextOf(log, c, Elements(nums));
             k < |log.entries| && nums[s] == log.entries[k].typ
    ensures Cursor(log, NextOf(log, c, Elements(nums)) + 1, nums, indexes[s := indexes[s] + 1])
  {
    hide OffsetsOf;
    forall i | 0 <= i < |nums| {
      NothingBetween(log, c, Elements(nums), nums[i]);
    }
  }

  /** No unread offset of a selected type lies before their next record, and only that record lies there. */
  lemma HeadNotBefore(log: Log, c: nat, nums: seq<int>, indexes: seq<nat>, offsets: seq<seq<nat>>, counts: seq<nat>, i: nat)
    requires WellFormed(log) && Cursor(log, c, nums, indexes) && IndexAt(log, |log.entries|, offsets, counts)
    requires i < |nums| && 0 <= nums[i] < |offsets| == |counts| && indexes[i] < counts[nums[i]] <= |offsets[nums[i]]|
    ensures var k := NextOf(log, c, Elements(nums));
            && k < |log.entries| && At(log, k) <= offsets[nums[i]][indexes[i]]
            && (At(log, k) == offsets[nums[i]][indexes[i]] ==> nums[i] == log.entries[k].typ)
  {
    var ids := Elements(nums);
    assert nums[i] in ids;
    NextIsEarliest(log, c, ids);
    HeadIsNext(log, c, nums, indexes, offsets, counts, i);
    hide OffsetsOf, At, WellFormed, IndexAt, NextOf, Elements;
    assert c <= |log.entries|;
    hide Cursor;
    RecordOrder(log, NextOf(log, c, ids), NextOf(log, c, {nums[i]}));
  }

  /** Their next record is the head of one of the lists. */
  lemma NextIsHead(log: Log, c: nat, nums: seq<int>, indexes: seq<nat>, offsets: seq<seq<nat>>, counts: seq<nat>) returns (i: nat)
    requires WellFormed(log) && Cursor(log, c, nums, indexes) && IndexAt(log, |log.entries|, offsets, counts)
    requires NextOf(log, c, Elements(nums)) < |log.entries|
    ensures i < |nums| == |indexes| && 0 <= nums[i] < |offsets| == |counts| && indexes[i] < counts[nums[i]] == |offsets[nums[i]]|
    ensures offsets[nums[i]][indexes[i]] == At(log, NextOf(log, c, Elements(nums)))
  {
    var k := NextOf(log, c, Elements(nums));
    NextIsEarliest(log, c, Elements(nums));
    hide OffsetsOf, At, WellFormed, NextOf;
    i :| 0 <= i < |nums| && nums[i] == log.entries[k].typ;
    HeadIsNext(log, c, nums, indexes, offsets, counts, i);
  }

  /** The smallest unread offset of the selected types is that of their next record in the log. */
  lemma EarliestIsNext(data: seq<byte>, log: Log, c: nat, nums: seq<int>, indexes: seq<nat>, offsets: seq<seq<nat>>,
                       counts: seq<nat>, s: int)
    requires IsLog(data, log) && Cursor(log, c, nums, indexes) && IndexAt(log, |log.entries|, offsets, counts)
    requires IsEarliest(nums, indexes, offsets, counts, |data|, s)
    ensures -1 <= s < |nums| && c <= NextOf(log, c, Elements(nums)) <= |log.entries|
    ensures var k := NextOf(log, c, Elements(nums));
            && (s == -1 <==> k == |log.entries|)
            && (s != -1 ==> nums[s] == log.entries[k].typ && offsets[nums[s]][indexes[s]] == At(log, k))
  {
    var k := NextOf(log, c, Elements(nums));
    assert c <= |log.entries|;
    assert WellFormed(log);
    hide At, WellFormed, IndexAt, NextOf, Elements, Cursor, BytesUpTo;
    if k < |log.entries| {
      var i := NextIsHead(log, c, nums, indexes, offsets, counts);
      RecordFits(data, log, k);
    }
    hide IsLog;
    if s != -1 {
      HeadNotBefore(log, c, nums, indexes, offsets, counts, s);
    }
  }

  /** Position s holds the smallest unread offset below `end`; -1 if there is none. */
  ghost predicate IsEarliest(nums: seq<int>, indexes: seq<nat>, offsets: seq<seq<nat>>, counts: seq<nat>, end: nat, s: int)
  {
    && InIndex(nums, indexes, counts) && |offsets| == 256 && (forall t | 0 <= t < 256 :: counts[t] <= |offsets[t]|)
    && -1 <= s < |nums|
    && (s != -1 ==> indexes[s] < counts[nums[s]] && offsets[nums[s]][indexes[s]] < end)
    && forall i | 0 <= i < |nums| && indexes[i] < counts[nums[i]] ::
         offsets[nums[i]][indexes[i]] >= if s == -1 then end else offsets[nums[s]][indexes[s]]
  }

  lemma CursorEnds(log: Log, c: nat, nums: seq<int>, indexes: seq<nat>)
    requires Cursor(log, c, nums, indexes) && NextOf(log, c, Elements(nums)) == |log.entries|
    ensures Cursor(log, |log.entries|, nums, indexes)
  {
    hide OffsetsOf;
    forall i | 0 <= i < |nums| {
      NothingBetween(log, c, Elements(nums), nums[i]);
    }
  }

  /** Nothing wanted lies between the cursor and the next record of the ids read along. */
  lemma {:induction false} NothingSkipped(log: Log, c: nat, wanted: set<string>, more: set<string>)
    requires WellFormed(log) && c <= |log.entries| && wanted <= more
    ensures Selected(log, c, wanted) == Selected(log, NextOf(log, c, IdsOf(NamesOf(log, |log.entries|), more)), wanted)
    decreases |log.entries| - c
  {
    hide WellFormed, NamesOf, IdsOf, Matches;
    var ids := IdsOf(NamesOf(log, |log.entries|), more);
    if c < |log.entries| && log.entries[c].typ as int !in ids {
      MatchesById(log, c, wanted, more);
      NothingSkipped(log, c + 1, wanted, more);
    }
  }

  class DFReaderBinary {
    const data: seq<byte>
    var offset: nat
    var formats: map<int, Format>
    var unpackers: map<int, string>
    var notes: Notes
    var nameToId: map<string, int>
    var offsets: seq<seq<nat>>
    var counts: seq<nat>
    var typeNums: Option<seq<int>>
    var indexes: seq<nat>

    constructor (data: seq<byte>)
      ensures this.data == data && offset == 0
      ensures formats == map[FMT_TYPE as int := FMT] && unpackers == map[] && notes == NO_NOTES
      ensures typeNums == None && nameToId == map[]
    {
      this.data := data;
      offset := 0;
      formats := map[FMT_TYPE as int := FMT];
      unpackers := map[];
      notes := NO_NOTES;
      nameToId := map[];
      offsets, counts := [], [];
      typeNums, indexes := None, [];
    }

    function Tables(): Known
      reads this
    {
      Known(formats, unpackers, notes)
    }

    // -------------------------------------------------------------- scanning

    /** _parse_next, on a stack that lets it call itself `depth` times more. */
    method ParseNext(depth: nat) returns (m: Option<Message>, raised: bool)
      modifies this`offset, this`formats, this`unpackers, this`notes
      ensures Parse(data, old(offset), old(Tables()), depth) == Parsed(m, offset, Tables(), raised)
      ensures old(Cached(Tables())) ==> MessageHolds(data, old(offset), old(formats), m, offset)
      decreases |data| - offset
    {
      hide ParseRecord, MessageHolds, Cached;
      if Cached(Tables()) { MessageMeans(data, offset, Tables(), depth); }
      ghost var start := offset;
      while true
        invariant offset >= start && Tables() == old(Tables())
        invariant FindHeader(data, start, formats) == FindHeader(data, offset, formats)
        decreases |data| - offset
      {
        if |data| - offset < 3 {
          assert FindHeader(data, offset, formats) == offset;
          return None, false;
        }
        if data[offset] == HEAD1 && data[offset + 1] == HEAD2 {
          if data[offset + 2] as int in formats {
            break;
          }
        }
        offset := offset + 1;
      }
      var again: bool;
      m, raised, again := ParseRecordHere();
      if again {
        if depth == 0 {
          return None, true;
        }
        m, raised := ParseNext(depth - 1);
      }
    }

    /** The part of _parse_next behind a recognised header; `again` asks for a fresh start behind that header. */
    method ParseRecordHere() returns (m: Option<Message>, raised: bool, again: bool)
      requires |data| - offset >= 3 && data[offset + 2] as int in formats
      modifies this`offset, this`formats, this`unpackers, this`notes
      ensures ParseRecord(data, old(offset), old(Tables())) ==
              if again then Again(Tables()) else Done(Parsed(m, offset, Tables(), raised))
      ensures again ==> offset == old(offset) + 3
    {
      hide Unpack, FormatOfElements, Items, Raw, Transformed, KeepInstance, FmtuRaises;
      var msgType := data[offset + 2] as int;
      offset := offset + 3;
      var remaining := |data| - offset;
      var fmt := formats[msgType];
      if remaining < fmt.len - 3 {
        return None, false, false;
      }
      var body := Slice(data, offset, offset + fmt.len - 3);
      if msgType !in unpackers {
        unpackers := unpackers[msgType := fmt.format];
      }
      var unpacked := Unpack(Raw(Items(unpackers[msgType])), body);
      if unpacked.None? {
        return None, false, remaining >= 528;
      }
      var elements := Transformed(Items(fmt.format), unpacked.value);
      if fmt.name == "FMT" {
        var mfmt := FormatOfElements(elements);
        if mfmt.None? {
          return None, false, true;
        }
        var kept := KeepInstance(mfmt.value, notes);
        if kept.None? {
          return None, false, true;
        }
        formats := formats[mfmt.value.typ := mfmt.value];
        notes := kept.value;
      }
      offset := offset + fmt.len - 3;
      if fmt.name == "FMTU" && FmtuRaises(elements, formats) {
        return None, true, false;
      }
      return Some(Message(fmt, elements)), false, false;
    }

    // -------------------------------------------------------------- indexing

    /** The reader is set up for this log. */
    ghost predicate Ready(log: Log)
      reads this
    {
      Indexes(log, data, Tables(), nameToId, offsets, counts)
    }

    /** The FMT branch of the index loop. */
    method NoteFormat(ofs: nat, mlen: nat) returns (r: Noted)
      requires FMT_TYPE as int in formats
      modifies this`formats, this`notes, this`nameToId
      ensures (r, Tables(), nameToId) == NotingFormat(data, ofs, mlen, old(Tables()), old(nameToId))
    {
      hide Unpack, Items, Raw, FormatOfElements, Slice, KeepInstance;
      var body := Slice(data, ofs + 3, ofs + mlen);
      if |body| + 3 < mlen {
        return Short;
      }
      var fmt := formats[FMT_TYPE as int];
      var elements := Unpack(Raw(Items(fmt.format)), body);
      if elements.None? {
        return Bad;
      }
      var mfmt := FormatOfElements(elements.value);
      if mfmt.None? {
        return Bad;
      }
      var kept := KeepInstance(mfmt.value, notes);
      if kept.None? || !(0 <= mfmt.value.typ < 256) {
        return Bad;
      }
      formats := formats[mfmt.value.typ := mfmt.value];
      notes := kept.value;
      nameToId := nameToId[mfmt.value.name := mfmt.value.typ];
      return Learned;
    }

    /** set_unit_ids of the format of type t; not ok where it raises. */
    method SetUnitIds(t: int, ids: string) returns (ok: bool)
      requires t in formats && formats[t].typ == t
      modifies this`notes
      ensures ok <==> DataFlashUnits.SetUnitIds(formats[t], ids, old(notes)).Some?
      ensures notes == if ok then DataFlashUnits.SetUnitIds(formats[t], ids, old(notes)).value else old(notes)
    {
      hide InstanceAt;
      var fmt := formats[t];
      var instance := HashAt(ids);
      var instances := notes.instances;
      if instance.Some? {
        var column := InstanceAt(fmt, instance.value);
        if column.None? {
          return false;
        }
        instances := instances[t := column.value];
      }
      var units: seq<bool> := seq(|fmt.columns|, _ => false);
      for i := 0 to |fmt.columns|
        invariant |units| == |fmt.columns|
        invariant forall j | 0 <= j < i :: units[j] <==> j < |ids| && ids[j] as int in notes.lookup
        invariant forall j | i <= j < |units| :: !units[j]
      {
        if i < |ids| {
          if ids[i] as int in notes.lookup {
            units := units[i := true];
          }
        }
      }
      assert units == Marks(|fmt.columns|, ids, notes.lookup);
      notes := notes.(instances := instances, units := notes.units[t := units]);
      return true;
    }

    /** set_mult_ids of the format of type t, which raises unless ok. */
    method SetMultIds(t: int, mults: string) returns (ok: bool)
      requires t in formats && formats[t].typ == t
      ensures ok <==> MultIdsFit(formats[t], mults, notes)
    {
      var fmt := formats[t];
      if t !in notes.units {
        return false;
      }
      var units := notes.units[t];
      for i := 0 to |units|
        invariant forall j | 0 <= j < i :: MultFits(fmt, mults, units, j)
      {
        assert MultFits(fmt, mults, units, i) || !MultFits(fmt, mults, units, i);
        if i >= |fmt.format| {
          return false;
        }
        if Multiplied(fmt.format[i]) || !units[i] {
          continue;
        }
        if i >= |mults| {
          return false;
        }
      }
      return true;
    }

    /** What the index pass does with the elements of a FMTU record; not ok where it raises. */
    method NoteFmtu(fmt: Format, elements: seq<Value>) returns (ok: bool)
      requires Keyed(formats)
      modifies this`notes
      ensures ok <==> DataFlashUnits.NoteFmtu(fmt, elements, formats, old(notes)).Some?
      ensures ok ==> notes == DataFlashUnits.NoteFmtu(fmt, elements, formats, old(notes)).value
    {
      hide IntOf, TextOf, DataFlashUnits.SetUnitIds, MultIdsFit;
      if |elements| < 2 || IntOf(elements[1]).None? {
        return false;
      }
      var ftype := IntOf(elements[1]).value;
      if ftype !in formats {
        return true;
      }
      var units := ColumnIndex(fmt.columns, "UnitIds");
      if units.Some? {
        var ids := ColumnText(elements, units.value);
        if ids.None? {
          return false;
        }
        ok := SetUnitIds(ftype, ids.value);
        if !ok {
          return false;
        }
      }
      var mults := ColumnIndex(fmt.columns, "MultIds");
      if mults.Some? {
        var ids := ColumnText(elements, mults.value);
        if ids.None? {
          return false;
        }
        ok := SetMultIds(ftype, ids.value);
        return ok;
      }
      return true;
    }

    /** The branch of the index loop for records of the type called `name`. */
    method NoteNamed(name: string, ofs: nat, mlen: nat, mtype: byte) returns (r: Noted)
      requires NamesFit(nameToId, formats) && Keyed(formats)
      modifies this`notes
      ensures var (q, noted) := NotingNamed(data, ofs, mlen, mtype, name, formats, nameToId, old(notes));
              r == q && (r != Bad ==> notes == noted)
    {
      hide Unpack, Items, Raw, Slice, DataFlashUnits.NoteFmtu, NoteUnit, NoteMult, Keyed;
      if name !in nameToId || nameToId[name] != mtype as int {
        return Learned;
      }
      var fmt := formats[mtype as int];
      var body := Slice(data, ofs + 3, ofs + mlen);
      if |body| + 3 < mlen {
        return Short;
      }
      var elements := Unpack(Raw(Items(fmt.format)), body);
      if elements.None? {
        return Bad;
      }
      if name == "FMTU" {
        var ok := NoteFmtu(fmt, elements.value);
        return if ok then Learned else Bad;
      }
      var noted := Note(name, fmt, elements.value, formats, notes);
      if noted.None? {
        return Bad;
      }
      notes := noted.value;
      return Learned;
    }

    /** What the index loop does first at a header. */
    method RecordLength(ofs: nat, mtype: byte, length: int, seen0: set<Sighting>, depth: nat)
      returns (raised: bool, mlen: int, seen: set<Sighting>)
      modifies this`offset, this`formats, this`unpackers, this`notes
      ensures Measure(raised, mlen, Tables(), seen) == Measured(data, ofs, mtype, old(Tables()), length, seen0, depth)
    {
      hide Parse;
      seen := seen0;
      ghost var known := Tables();
      ParseKeepsTypes(data, ofs, known, depth);
      if length == -1 {
        if mtype as int !in formats {
          return false, -1, seen;
        }
        offset := ofs;
        var m;
        m, raised := ParseNext(depth);
        assert mtype as int in known.formats.Keys;
        mlen := formats[mtype as int].len;
      } else {
        mlen, raised := length, false;
        if mtype as int in notes.instances {
          var idata := InstanceValue(data, ofs, notes.instances[mtype as int]);
          if Sighting(mtype, idata) !in seen {
            seen := seen + {Sighting(mtype, idata)};
            offset := ofs;
            var m;
            m, raised := ParseNext(depth);
          }
        }
      }
    }

    /** One header of the index loop, with the loop's tables passed in and out. */
    method IndexRecord(ofs: nat, offs0: seq<seq<nat>>, cnts0: seq<nat>, lengths0: seq<int>, seen0: set<Sighting>, depth: nat)
      returns (r: Noted, offs: seq<seq<nat>>, cnts: seq<nat>, lengths: seq<int>, seen: set<Sighting>, mlen: int)
      requires Shaped(Pass(Tables(), nameToId, seen0, offs0, cnts0, lengths0)) && ofs + 3 < |data|
      modifies this`offset, this`formats, this`unpackers, this`notes, this`nameToId
      ensures var p := old(Pass(Tables(), nameToId, seen0, offs0, cnts0, lengths0));
              var (q, p', mlen') := IndexStep(data, ofs, p, depth);
              r == q && (r != Bad ==> mlen == mlen' && Pass(Tables(), nameToId, seen, offs, cnts, lengths) == p')
    {
      hide Measured, NotingFormat, NotingNamed, Keyed;
      offs, cnts, lengths, seen := offs0, cnts0, lengths0, seen0;
      var mtype := data[ofs + 2];
      offs := offs[mtype := offs[mtype] + [ofs]];
      var raised;
      raised, mlen, seen := RecordLength(ofs, mtype, lengths[mtype], seen, depth);
      if raised {
        return Bad, offs, cnts, lengths, seen, mlen;
      }
      if mlen == -1 {
        return Short, offs, cnts, lengths, seen, -1;
      }
      cnts := cnts[mtype := cnts[mtype] + 1];
      lengths := lengths[mtype := mlen];
      r := Learned;
      if mtype == FMT_TYPE {
        r := NoteFormat(ofs, mlen);
      }
      if r.Learned? {
        r := NoteNamed("FMTU", ofs, mlen, mtype);
      }
      if r.Learned? {
        r := NoteNamed("UNIT", ofs, mlen, mtype);
      }
      if r.Learned? {
        r := NoteNamed("MULT", ofs, mlen, mtype);
      }
    }

    /** init_arrays. On a log it ends normally, with the reader set up, exactly if no record raises. */
    method InitArrays(depth: nat, ghost log: Log) returns (outcome: Outcome)
      requires formats == map[FMT_TYPE as int := FMT] && unpackers == map[] && notes == NO_NOTES
      modifies this`offset, this`formats, this`unpackers, this`notes, this`nameToId, this`offsets, this`counts
      ensures outcome.Indexed? ==> Usable(offsets, counts, nameToId) && offset == 0
      ensures IsLog(data, log) && Steady(data, log) ==>
                if PassRaises(data, log) then outcome.Raised? else outcome.Indexed? && Ready(log)
    {
      hide PerType, IsLog, Steady, OnCourse, Ended, Shaped, IndexStep, Ready, Usable, PassRaises;
      var offs: seq<seq<nat>>, cnts: seq<nat>, lengths: seq<int> := PerType([]), PerType(0), PerType(-1);
      var seen: set<Sighting> := {};
      nameToId := map[];
      var ofs := 0;
      ghost var n := 0;
      ghost var p := InPass(seen, offs, cnts, lengths);
      PassBegins(data, log, p);
      while ofs + 3 < |data|
        invariant p == InPass(seen, offs, cnts, lengths)
        invariant OnCourse(data, log, n, ofs, p)
        decreases |data| - ofs
      {
        if data[ofs] != HEAD1 || data[ofs + 1] != HEAD2 {
          NoiseIsSkipped(data, log, n, ofs, p);
          ofs := ofs + 1;
          continue;
        }
        TurnOnCourse(data, log, n, ofs, p, depth);
        var r, mlen;
        r, offs, cnts, lengths, seen, mlen := IndexRecord(ofs, offs, cnts, lengths, seen, depth);
        p := InPass(seen, offs, cnts, lengths);
        if r.Short? {
          break;
        }
        if r.Bad? {
          return Raised;
        }
        if mlen == 0 {
          return Diverged;
        }
        ofs := ofs + mlen;
        n := n + 1;
      }
      if ofs + 3 >= |data| { PassEnds(data, log, n, ofs, p); }
      offsets, counts := offs, cnts;
      offset := 0;
      outcome := Indexed;
      EndedIsReady(log, p);
    }

    lemma EndedIsReady(log: Log, p: Pass)
      requires Ended(data, log, p)
      requires p.known == Tables() && p.names == nameToId && p.offsets == offsets && p.counts == counts
      ensures Usable(offsets, counts, nameToId)
      ensures IsLog(data, log) && Steady(data, log) ==> !PassRaises(data, log) && Ready(log)
    {}

    /** The tables of the pass, some of which are this object's. */
    function InPass(seen: set<Sighting>, offs: seq<seq<nat>>, cnts: seq<nat>, lengths: seq<int>): Pass
      reads this
    {
      Pass(Tables(), nameToId, seen, offs, cnts, lengths)
    }

    // -------------------------------------------------------------- reading

    /** rewind */
    method Rewind()
      modifies this`offset, this`typeNums
      ensures offset == 0 && typeNums == None
      ensures old(Selecting()) ==> Selecting()
      ensures forall log :: old(Ready(log)) ==> Ready(log)
      ensures forall log, wanted :: Seeking(log, 0, wanted)
    {
      offset := 0;
      typeNums := None;
    }

    /** The selection made since the last rewind, if any, fits the index. */
    ghost predicate Selecting()
      reads this
    {
      Usable(offsets, counts, nameToId) && (typeNums.Some? ==> InIndex(typeNums.value, indexes, counts))
    }

    /** Since the last rewind the types of `wanted` are being read, and reading stands before entry c. */
    ghost predicate Seeking(log: Log, c: nat, wanted: set<string>)
      reads this
    {
      match typeNums
      case None => c == 0
      case Some(nums) => Cursor(log, c, nums, indexes) && Elements(nums) == IdsOf(nameToId, wanted)
    }

    /** The first part of skip_to_type: look up the wanted types once after a rewind. */
    method SelectTypes(wanted: set<string>) returns (nums: seq<int>)
      requires forall s <- nameToId :: 0 <= nameToId[s] < 256
      ensures Elements(nums) == IdsOf(nameToId, wanted)
      ensures forall i | 0 <= i < |nums| :: 0 <= nums[i] < 256
      ensures OneToOne(nameToId) ==> Distinct(nums)
    {
      nums := [];
      hide IdsOf, OneToOne, Distinct, Elements;
      var rest := wanted;
      assert Elements([]) == IdsOf(nameToId, wanted - rest) && Distinct([]) by {
        NoNames(nameToId, wanted - rest);
      }
      while |rest| > 0
        invariant rest <= wanted
        invariant Elements(nums) == IdsOf(nameToId, wanted - rest)
        invariant forall i | 0 <= i < |nums| :: 0 <= nums[i] < 256
        invariant OneToOne(nameToId) ==> Distinct(nums)
        decreases |rest|
      {
        var t :| t in rest;
        OneMoreName(nameToId, wanted - rest, t, nums);
        assert wanted - (rest - {t}) == (wanted - rest) + {t};
        rest := rest - {t};
        if t in nameToId {
          nums := nums + [nameToId[t]];
        }
      }
      assert wanted - rest == wanted;
    }

    /** The merging loop of skip_to_type. */
    method Earliest(nums: seq<int>) returns (smallestIndex: int, smallestOffset: nat)
      requires Usable(offsets, counts, nameToId) && InIndex(nums, indexes, counts)
      ensures IsEarliest(nums, indexes, offsets, counts, |data|, smallestIndex)
      ensures smallestOffset == if smallestIndex == -1 then |data| else offsets[nums[smallestIndex]][indexes[smallestIndex]]
    {
      smallestIndex, smallestOffset := -1, |data|;
      for i := 0 to |nums|
        invariant -1 <= smallestIndex < i
        invariant smallestIndex != -1 ==> indexes[smallestIndex] < counts[nums[smallestIndex]]
        invariant smallestOffset == if smallestIndex == -1 then |data| else offsets[nums[smallestIndex]][indexes[smallestIndex]]
        invariant smallestIndex != -1 ==> smallestOffset < |data|
        invariant forall j | 0 <= j < i && indexes[j] < counts[nums[j]] :: offsets[nums[j]][indexes[j]] >= smallestOffset
      {
        var mtype := nums[i];
        if indexes[i] >= counts[mtype] {
          continue;
        }
        var ofs := offsets[mtype][indexes[i]];
        if ofs < smallestOffset {
          smallestOffset, smallestIndex := ofs, i;
        }
      }
    }

    /** The first part of skip_to_type: after a rewind, start at the first record of each wanted type. */
    method SelectOnce(wanted: set<string>, ghost log: Log, ghost c: nat)
      requires Selecting()
      modifies this`typeNums, this`indexes
      ensures Selecting() && typeNums.Some?
      ensures old(typeNums.Some?) ==> typeNums == old(typeNums) && indexes == old(indexes)
      ensures old(typeNums.None?) ==>
                Elements(typeNums.value) == IdsOf(nameToId, wanted) && forall i | 0 <= i < |indexes| :: indexes[i] == 0
      ensures Ready(log) && old(Seeking(log, c, wanted)) ==> Seeking(log, c, wanted)
    {
      if typeNums == None {
        var nums := SelectTypes(wanted);
        typeNums := Some(nums);
        indexes := seq(|nums|, _ => 0);
        if Ready(log) {
          NamesAreOneToOne(log);
        }
      }
    }

    /** skip_to_type: stand at the smallest unread offset of the selected types and use it up. `before` are the
        list positions it chose from and `s` which list it took, -1 if all were used up. */
    method SkipToType(types: set<string>, strict: bool, ghost log: Log, ghost c: nat)
      returns (ghost s: int, ghost before: seq<nat>)
      requires Selecting()
      modifies this`offset, this`typeNums, this`indexes
      ensures Selecting() && typeNums.Some?
      ensures old(typeNums.Some?) ==> typeNums == old(typeNums) && before == old(indexes)
      ensures old(typeNums.None?) ==> forall t :: t in typeNums.value <==> Chosen(nameToId, types, strict, t)
      ensures old(typeNums.None?) ==> forall i | 0 <= i < |before| :: before[i] == 0
      ensures IsEarliest(typeNums.value, before, offsets, counts, |data|, s)
      ensures if s == -1 then offset == |data| && indexes == before
              else offset == offsets[typeNums.value[s]][before[s]] && indexes == before[s := before[s] + 1]
      ensures var wanted := Wanted(types, strict);
              Ready(log) && old(Seeking(log, c, wanted)) ==>
                Cursor(log, c, typeNums.value, before) && Elements(typeNums.value) == IdsOf(nameToId, wanted)
    {
      hide IsEarliest, Indexes, NextOf, IdsOf, Elements, At, Cursor;
      SelectOnce(Wanted(types, strict), log, c);
      var nums := typeNums.value;
      if old(typeNums.None?) { WantedAreChosen(nameToId, types, strict, nums); }
      hide Chosen;
      before := indexes;
      var smallestIndex, smallestOffset := Earliest(nums);
      s := smallestIndex;
      EarliestIsInside(nums, indexes, smallestIndex);
      if smallestIndex >= 0 {
        indexes := indexes[smallestIndex := indexes[smallestIndex] + 1];
        offset := smallestOffset;
      }
      if smallestIndex == -1 {
        offset := |data|;
      }
    }

    /** How many positions of the index are left for the selected types. */
    ghost function ToRead(): nat
      reads this
      requires Selecting()
    {
      if typeNums.Some? then Left(typeNums.value, indexes, counts) else 0
    }

    /** One turn of recv_match's loop, answering a call made before entry `start`. */
    method ReceiveNext(types: set<string>, strict: bool, depth: nat, ghost log: Log, ghost start: nat, ghost c: nat)
      returns (m: Option<Message>, raised: bool, ghost next: nat)
      requires Selecting()
      modifies this`offset, this`typeNums, this`indexes, this`formats, this`unpackers, this`notes
      ensures Selecting() && typeNums.Some?
      ensures old(typeNums.Some?) ==> typeNums == old(typeNums)
      ensures old(typeNums.Some?) ==> ToRead() <= old(ToRead()) && (m.Some? ==> ToRead() < old(ToRead()))
      ensures old(Ready(log) && Seeking(log, c, Wanted(types, strict))) && SameRest(log, start, c, types)
              && CanRead(log, start, types) ==>
                && Ready(log) && Seeking(log, next, Wanted(types, strict))
                && IsTurn(log, start, types, m, raised, next)
    {
      hide IsEarliest, Indexes, NextOf, IdsOf, Elements, At, Cursor, Parse, SameRest, IsTurn, Usable, Left, Wanted, CanRead;
      ghost var good := Ready(log) && Seeking(log, c, Wanted(types, strict)) && SameRest(log, start, c, types)
                        && CanRead(log, start, types);
      ghost var s, before := SkipToType(types, strict, log, c);
      ghost var known, nums := Tables(), typeNums.value;
      if good {
        Turn(log, data, known, nameToId, offsets, counts, start, c, types, strict, nums, before, s, offset, depth);
      }
      EarliestIsInside(nums, before, s);
      next := AfterTurn(log, c, nums, s);
      if s == -1 {
        NothingAtTheEnd(data, known, depth);
      } else {
        LeftDrops(nums, before, counts, s);
      }
      m, raised := ParseNext(depth);
    }

    /** recv_match for a set of type names, without a condition. On an indexed log, reading before entry c, it
        returns the first wanted message from there on and leaves the rest to later calls, unless a record that
        raises comes first. Each message returned uses up part of the index, whatever the data. */
    method RecvMatch(types: set<string>, strict: bool, depth: nat, ghost log: Log, ghost c: nat)
      returns (m: Option<Message>, raised: bool, ghost next: nat)
      requires Selecting()
      modifies this`offset, this`typeNums, this`indexes, this`formats, this`unpackers, this`notes
      ensures Selecting()
      ensures m.Some? ==> typeNums.Some? && (old(typeNums.Some?) ==> ToRead() < old(ToRead()))
      ensures old(Ready(log) && Seeking(log, c, Wanted(types, strict))) && CanRead(log, c, types) ==>
                && Ready(log) && Seeking(log, next, Wanted(types, strict))
                && IsAnswer(log, c, types, m, raised, next)
    {
      ghost var good := Ready(log) && Seeking(log, c, Wanted(types, strict)) && CanRead(log, c, types);
      next := c;
      assert SameRest(log, c, c, types);
      hide Ready, Seeking, IsAnswer, SameRest, Usable, Left, Wanted, CanRead;
      while true
        invariant Selecting()
        invariant old(typeNums.Some?) ==> typeNums.Some? && ToRead() <= old(ToRead())
        invariant good ==> Ready(log) && Seeking(log, next, Wanted(types, strict)) && SameRest(log, c, next, types)
        decreases if typeNums.None? then 1 else 0, ToRead()
      {
        m, raised, next := ReceiveNext(types, strict, depth, log, c, next);
        if raised || m.None? {
          return;
        }
        if m.value.fmt.name !in types {
          continue;
        }
        return;
      }
    }

    /** Receiving until nothing comes, as flightmode_list does: every wanted message before the first record that
        raises, in order. Without one, and whatever types are read along, the result is what filtering the linear
        scan gives, unless FMT is wanted of a log that never announces it. */
    method ReadMatching(types: set<string>, strict: bool, depth: nat, ghost log: Log) returns (ms: seq<Message>, raised: bool)
      requires Selecting()
      modifies this`offset, this`typeNums, this`indexes, this`formats, this`unpackers, this`notes
      ensures Selecting()
      ensures old(Ready(log)) && CanRead(log, 0, types) ==>
                && Ready(log)
                && ms + Selected(log, Stop(log, 0, types), types) == Selected(log, 0, types)
                && (raised <==> Stop(log, 0, types) < |log.entries|)
                && (!raised ==> ms == Selected(log, 0, types)
                                && (ms == Filter(Messages(log, 0), types) <==> !WantsUnannouncedFmt(log, types)))
    {
      hide *;
      ghost var good := Ready(log) && CanRead(log, 0, types);
      Rewind();
      ms := [];
      ghost var c := 0;
      AnswerBegins(log, types);
      while true
        invariant Selecting()
        invariant good ==> Ready(log) && Seeking(log, c, Wanted(types, strict)) && ReadSoFar(log, c, types, ms)
        invariant good ==> CanRead(log, c, types)
        decreases if typeNums.None? then 1 else 0, ToRead()
      {
        var m;
        ghost var before := c;
        m, raised, c := RecvMatch(types, strict, depth, log, c);
        if good { AnswerExtends(log, before, types, m, raised, c, ms); }
        if raised || m.None? {
          break;
        }
        ms := ms + [m.value];
      }
      if good { ReadyAgrees(log, types); }
    }

    lemma ReadyAgrees(log: Log, types: set<string>)
      requires Ready(log)
      ensures Selected(log, 0, types) == Filter(Messages(log, 0), types) <==> !WantsUnannouncedFmt(log, types)
    {
      IndexAgreesWithScan(log, types);
    }

    /** One turn of the linear scan, ms being read so far. */
    method ScanNext(depth: nat, ghost log: Log, ghost k: nat, ghost ms: seq<Message>) returns (m: Option<Message>, raised: bool)
      requires Ready(log) && RereadableTo(log, FirstRaising(log, 0)) && Scanned(log, k, ms) && offset == StartOf(log, k)
      modifies this`offset, this`formats, this`unpackers, this`notes
      ensures Ready(log)
      ensures if raised || m.None? then
                && ms + Messages(log, FirstRaising(log, 0)) == Messages(log, 0)
                && (raised <==> FirstRaising(log, 0) < |log.entries|)
                && (!raised ==> ms == Messages(log, 0))
              else k < |log.entries| && offset == StartOf(log, k + 1) && Scanned(log, k + 1, ms + [m.value])
    {
      hide Indexes, Parse, StartOf, Scanned, Messages, FirstRaising, RereadableTo;
      Scanning(log, data, Tables(), nameToId, offsets, counts, k, ms, depth);
      m, raised := ParseNext(depth);
    }

    /** The linear scan: receiving messages one after the other from the start, up to the first record that raises. The
        FMT records before it must announce formats that can be built; one that does not is lost. */
    method ReadAll(depth: nat, ghost log: Log) returns (ms: seq<Message>, raised: bool)
      requires Ready(log) && RereadableTo(log, FirstRaising(log, 0))
      modifies this`offset, this`typeNums, this`formats, this`unpackers, this`notes
      ensures Ready(log)
      ensures ms + Messages(log, FirstRaising(log, 0)) == Messages(log, 0)
      ensures raised <==> FirstRaising(log, 0) < |log.entries|
      ensures !raised ==> ms == Messages(log, 0)
    {
      hide *;
      Rewind();
      ms, raised := [], false;
      ghost var k := 0;
      ScanBegins(log);
      while true
        invariant offset == StartOf(log, k) && Ready(log) && Scanned(log, k, ms)
        decreases |log.entries| - k
      {
        var m;
        m, raised := ScanNext(depth, log, k, ms);
        if raised || m.None? {
          break;
        }
        ms := ms + [m.value];
        k := k + 1;
      }
    }

    lemma ScanBegins(log: Log)
      ensures StartOf(log, 0) == 0 && Scanned(log, 0, [])
    {}

    lemma EarliestIsInside(nums: seq<int>, before: seq<nat>, s: int)
      requires IsEarliest(nums, before, offsets, counts, |data|, s)
      ensures -1 <= s < |nums| == |before|
      ensures s != -1 ==> 0 <= nums[s] < 256 == |offsets| && before[s] < |offsets[nums[s]]|
      ensures s != -1 ==> InIndex(nums, before[s := before[s] + 1], counts)
    {}
  }

  /** At the end of the data a parse finds nothing. */
  lemma NothingAtTheEnd(data: seq<byte>, known: Known, depth: nat)
    ensures Parse(data, |data|, known, depth) == Parsed(None, |data|, known, false)
  {}

  /** Entry `next` leaves as much to read, and as far to go, as entry c. */
  ghost predicate SameRest(log: Log, c: nat, next: nat, types: set<string>) {
    Selected(log, c, types) == Selected(log, next, types) && Stop(log, c, types) == Stop(log, next, types)
  }

  /** What a call of recv_match before entry c gives: an exception, if the first record that raises comes before any
      wanted message; otherwise the first wanted message, or nothing if there is none. */
  ghost predicate IsAnswer(log: Log, c: nat, types: set<string>, m: Option<Message>, raised: bool, next: nat) {
    if raised then
      m.None? && Stop(log, c, types) < |log.entries| && Selected(log, c, types) == Selected(log, Stop(log, c, types), types)
    else
      && Stop(log, c, types) == Stop(log, next, types)
      && Selected(log, c, types) == (if m.Some? then [m.value] + Selected(log, next, types) else [])
      && (m.None? ==> Stop(log, c, types) == |log.entries|)
  }

  /** What a turn on such a call gives: an answer, or a message that is not wanted, which changes nothing. */
  ghost predicate IsTurn(log: Log, c: nat, types: set<string>, m: Option<Message>, raised: bool, next: nat) {
    if raised || m.None? || m.value.fmt.name in types then IsAnswer(log, c, types, m, raised, next)
    else SameRest(log, c, next, types)
  }

  /** Where reading stands after a turn that took list s, or none. */
  ghost function AfterTurn(log: Log, c: nat, nums: seq<int>, s: int): nat {
    if s == -1 then |log.entries| else NextOf(log, c, Elements(nums)) + 1
  }

  /** Nothing that raises lies between the cursor and the next record of the ids read along. */
  lemma {:induction false} NothingRaisesBetween(log: Log, c: nat, types: set<string>, more: set<string>)
    requires WellFormed(log) && c <= |log.entries| && types <= more
    ensures Stop(log, c, types) == Stop(log, NextOf(log, c, IdsOf(NamesOf(log, |log.entries|), more)), types)
    decreases |log.entries| - c
  {
    hide WellFormed, NamesOf, IdsOf, Matches, FmtuRaises, MessageAt, FormatOf;
    var ids := IdsOf(NamesOf(log, |log.entries|), more);
    if c < |log.entries| && log.entries[c].typ as int !in ids {
      MatchesById(log, c, types, more);
      MatchesUnlessFmt(log, c, types);
      NothingRaisesBetween(log, c + 1, types, more);
    }
  }

  /** No record of the types read along is left. */
  lemma ReadingEnds(log: Log, start: nat, c: nat, names: map<string, int>, types: set<string>, wanted: set<string>)
    requires WellFormed(log) && names == NamesOf(log, |log.entries|) && c <= |log.entries| && types <= wanted
    requires NextOf(log, c, IdsOf(names, wanted)) == |log.entries| && SameRest(log, start, c, types)
    ensures IsTurn(log, start, types, None, false, |log.entries|) && SameRest(log, start, |log.entries|, types)
  {
    NothingSkipped(log, c, types, wanted);
    NothingRaisesBetween(log, c, types, wanted);
    hide WellFormed, NamesOf;
  }

  /** The next record of the types read along is parsed. It raises, or it is the next wanted message if its name is wanted. */
  lemma ReadingGoesOn(log: Log, data: seq<byte>, known: Known, names: map<string, int>, offsets: seq<seq<nat>>, counts: seq<nat>,
                      start: nat, c: nat, k: nat, types: set<string>, wanted: set<string>, depth: nat)
    requires Indexes(log, data, known, names, offsets, counts) && c <= |log.entries|
    requires types <= wanted && ("FMTU" in wanted ==> "FMTU" in types) && ("FMT" in wanted ==> "FMT" in types)
    requires SameRest(log, start, c, types) && CanRead(log, start, types)
    requires k == NextOf(log, c, IdsOf(names, wanted)) < |log.entries|
    ensures var p := Parse(data, At(log, k), known, depth);
            Indexes(log, data, p.known, names, offsets, counts) && IsTurn(log, start, types, p.msg, p.raised, k + 1)
  {
    hide At, Start, Parse, IndexAt, Env, NamesOf, TablesAt, FormatOf, WellFormed, SameRest, IsAnswer, ReadingRaises, MessageAt;
    hide NextOf, IdsOf, BytesUpTo, Wanted, CanRead, SameMarks, NotesAt, Rereadable;
    NextIsRereadable(log, start, c, types, wanted);
    ParseAt(log, data, known, k, depth);
    AnswerAt(log, start, c, types, wanted);
  }

  /** The next record read along announces nothing, or a format that can be built. */
  lemma NextIsRereadable(log: Log, start: nat, c: nat, types: set<string>, wanted: set<string>)
    requires WellFormed(log) && c <= |log.entries| && types <= wanted
    requires ("FMTU" in wanted ==> "FMTU" in types) && ("FMT" in wanted ==> "FMT" in types)
    requires SameRest(log, start, c, types) && CanRead(log, start, types)
    requires NextOf(log, c, IdsOf(NamesOf(log, |log.entries|), wanted)) < |log.entries|
    ensures Rereadable(log, NextOf(log, c, IdsOf(NamesOf(log, |log.entries|), wanted)))
  {
    hide Env, NamesOf, WellFormed, Matches, MessageAt, ReadingRaises, Selected, Stop, NextOf, IdsOf, NotesAt, FormatOf, Announced, TypeName;
    var k, formats := NextOf(log, c, IdsOf(NamesOf(log, |log.entries|), wanted)), Env(log, |log.entries|);
    NothingRaisesBetween(log, c, types, wanted);
    RestOf(log, k, types, wanted);
    ReadAlong(log, k, wanted);
    NameOfFmt(log, k);
    if ReadingRaises(log, k, formats) {
      RaisingIsRereadable(log, k, formats);
    } else if Announced(log, k).Some? {
      StopIsAhead(log, k + 1, types);
      assert Stop(log, start, types) == Stop(log, k + 1, types) > k;
    }
  }

  lemma StopIsAhead(log: Log, c: nat, types: set<string>)
    requires c <= |log.entries|
    ensures c <= Stop(log, c, types) <= |log.entries|
  {}

  lemma AnswerAt(log: Log, start: nat, c: nat, types: set<string>, wanted: set<string>)
    requires WellFormed(log) && c <= |log.entries|
    requires types <= wanted && ("FMTU" in wanted ==> "FMTU" in types) && SameRest(log, start, c, types)
    requires NextOf(log, c, IdsOf(NamesOf(log, |log.entries|), wanted)) < |log.entries|
    ensures var k := NextOf(log, c, IdsOf(NamesOf(log, |log.entries|), wanted));
            var raised := ReadingRaises(log, k, Env(log, |log.entries|));
            if raised then IsAnswer(log, start, types, None, true, k + 1)
            else if MessageAt(log, k).fmt.name in types then IsAnswer(log, start, types, Some(MessageAt(log, k)), false, k + 1)
            else SameRest(log, start, k + 1, types)
  {
    hide Env, NamesOf, WellFormed, Matches, MessageAt, ReadingRaises, Selected, Stop, NextOf, IdsOf;
    var k := NextOf(log, c, IdsOf(NamesOf(log, |log.entries|), wanted));
    NothingSkipped(log, c, types, wanted);
    NothingRaisesBetween(log, c, types, wanted);
    RestOf(log, k, types, wanted);
  }

  /** One turn of recv_match on an indexed log, on an answer to a call that began before entry `start`. */
  lemma Turn(log: Log, data: seq<byte>, known: Known, names: map<string, int>, offsets: seq<seq<nat>>, counts: seq<nat>,
             start: nat, c: nat, types: set<string>, strict: bool, nums: seq<int>, before: seq<nat>, s: int, offset: nat, depth: nat)
    requires Indexes(log, data, known, names, offsets, counts) && SameRest(log, start, c, types) && CanRead(log, start, types)
    requires Cursor(log, c, nums, before) && Elements(nums) == IdsOf(names, Wanted(types, strict))
    requires IsEarliest(nums, before, offsets, counts, |data|, s)
    requires offset == if s == -1 then |data| else offsets[nums[s]][before[s]]
    ensures var p, next := Parse(data, offset, known, depth), AfterTurn(log, c, nums, s);
            && Indexes(log, data, p.known, names, offsets, counts)
            && Cursor(log, next, nums, if s == -1 then before else before[s := before[s] + 1])
            && IsTurn(log, start, types, p.msg, p.raised, next)
  {
    hide SameRest, At, Start, NextOf, IdsOf, Elements, Parse, Cursor, NamesOf, WellFormed, BytesUpTo, TablesAt, IndexAt, IsTurn, CanRead, SameMarks;
    var wanted, k := Wanted(types, strict), NextOf(log, c, Elements(nums));
    hide Wanted;
    OnlyKeysAdded(types, strict);
    CursorTurns(data, log, c, nums, before, offsets, counts, s);
    hide IsEarliest;
    if s == -1 {
      NothingAtTheEnd(data, known, depth);
      ReadingEnds(log, start, c, names, types, wanted);
    } else {
      hide IsLog;
      ReadingGoesOn(log, data, known, names, offsets, counts, start, c, k, types, wanted, depth);
    }
  }

  /** Where a turn stands, and where its cursor moves to. */
  lemma CursorTurns(data: seq<byte>, log: Log, c: nat, nums: seq<int>, before: seq<nat>, offsets: seq<seq<nat>>, counts: seq<nat>, s: int)
    requires IsLog(data, log) && Cursor(log, c, nums, before) && IndexAt(log, |log.entries|, offsets, counts)
    requires IsEarliest(nums, before, offsets, counts, |data|, s)
    ensures Cursor(log, AfterTurn(log, c, nums, s), nums, if s == -1 then before else before[s := before[s] + 1])
    ensures var k := NextOf(log, c, Elements(nums));
            && c <= |log.entries| && (s == -1 <==> k == |log.entries|)
            && (s != -1 ==> k < |log.entries| && offsets[nums[s]][before[s]] == At(log, k))
  {
    hide IsLog, IndexAt, At, NextOf, Elements, Cursor;
    assert -1 <= s < |nums| == |before|;
    EarliestIsNext(data, log, c, nums, before, offsets, counts, s);
    hide IsEarliest;
    if s == -1 {
      CursorEnds(log, c, nums, before);
    } else {
      CursorMoves(log, c, nums, before, s);
    }
  }

  lemma FmtIsNoKey()
    ensures "FMTU" !in KEY_TYPES && "FMT" !in KEY_TYPES
  {
    assert forall k <- KEY_TYPES :: k[0] != 'F';
  }

  lemma OnlyKeysAdded(types: set<string>, strict: bool)
    ensures var wanted := Wanted(types, strict);
            types <= wanted && ("FMTU" in wanted ==> "FMTU" in types) && ("FMT" in wanted ==> "FMT" in types)
  {
    FmtIsNoKey();
  }

  /** What record k, read along, means for the rest. */
  lemma RestOf(log: Log, k: nat, types: set<string>, wanted: set<string>)
    requires WellFormed(log) && k < |log.entries|
    requires types <= wanted && ("FMTU" in wanted ==> "FMTU" in types)
    requires log.entries[k].typ as int in IdsOf(NamesOf(log, |log.entries|), wanted)
    ensures if ReadingRaises(log, k, Env(log, |log.entries|)) then Stop(log, k, types) == k
            else Stop(log, k, types) == Stop(log, k + 1, types)
    ensures Selected(log, k, types) ==
            (if MessageAt(log, k).fmt.name in types then [MessageAt(log, k)] else []) + Selected(log, k + 1, types)
  {
    hide Env, NamesOf, FormatOf, WellFormed, FmtuRaises;
    MatchesById(log, k, types, wanted);
    MatchesById(log, k, wanted, wanted);
    MatchesUnlessFmt(log, k, wanted);
    ReadAlong(log, k, wanted);
    assert TypeName(log, k) == FormatOf(log, k).name;
  }

  /** A record read along has one of the names read along. */
  lemma ReadAlong(log: Log, k: nat, wanted: set<string>)
    requires WellFormed(log) && k < |log.entries|
    requires log.entries[k].typ as int in IdsOf(NamesOf(log, |log.entries|), wanted)
    ensures TypeName(log, k) in wanted
  {
    hide WellFormed, Env, NamesOf, FormatOf;
    NamesAgree(log, |log.entries|);
    FormatLater(log, k, |log.entries|);
  }

  lemma ParseAt(log: Log, data: seq<byte>, known: Known, k: nat, depth: nat)
    requires IsLog(data, log) && TablesAt(log, |log.entries|, known) && SameMarks(known.notes, NotesAt(log, |log.entries|))
    requires k < |log.entries| && Rereadable(log, k)
    ensures var p := Parse(data, At(log, k), known, depth);
            && (p.raised <==> ReadingRaises(log, k, Env(log, |log.entries|)))
            && p.msg == (if p.raised then None else Some(MessageAt(log, k)))
            && p.offset == Start(log, k + 1) && TablesAt(log, |log.entries|, p.known)
            && SameMarks(p.known.notes, NotesAt(log, |log.entries|))
  {
    hide At, Start, Parse, Env, WellFormed, MessageAt, Cached, Kept, NotesAt, SameMarks;
    KeptByMarks(log, k, known.notes, NotesAt(log, |log.entries|));
    RecordFits(data, log, k);
    ParseEntry(data, log, k, At(log, k), known, |log.entries|, depth);
  }

  /** The messages read before entry c. */
  ghost predicate ReadSoFar(log: Log, c: nat, types: set<string>, ms: seq<Message>) {
    Selected(log, 0, types) == ms + Selected(log, c, types) && Stop(log, 0, types) == Stop(log, c, types)
  }

  lemma AnswerBegins(log: Log, types: set<string>)
    ensures ReadSoFar(log, 0, types, [])
  {}

  lemma AnswerExtends(log: Log, c: nat, types: set<string>, m: Option<Message>, raised: bool, next: nat, ms: seq<Message>)
    requires ReadSoFar(log, c, types, ms) && IsAnswer(log, c, types, m, raised, next)
    ensures if raised || m.None? then
              && ms + Selected(log, Stop(log, 0, types), types) == Selected(log, 0, types)
              && (raised <==> Stop(log, 0, types) < |log.entries|)
              && (!raised ==> ms == Selected(log, 0, types))
            else ReadSoFar(log, next, types, ms + [m.value]) && (CanRead(log, c, types) ==> CanRead(log, next, types))
  {
    hide Stop, Matches, MessageAt;
    if !raised && m.Some? { MoveOver(ms, m.value, Selected(log, next, types)); }
  }

  lemma MoveOver<T>(a: seq<T>, x: T, b: seq<T>)
    ensures a + ([x] + b) == (a + [x]) + b
  {}

  ghost function StartOf(log: Log, k: nat): nat {
    if k <= |log.entries| then Start(log, k) else 0
  }

  /** The messages before entry k have been read, and none of them raised. */
  ghost predicate Scanned(log: Log, k: nat, ms: seq<Message>) {
    && k <= |log.entries|
    && Messages(log, 0) == ms + Messages(log, k) && FirstRaising(log, 0) == FirstRaising(log, k)
  }

  /** One step of the linear scan. */
  lemma Scanning(log: Log, data: seq<byte>, known: Known, names: map<string, int>, offsets: seq<seq<nat>>, counts: seq<nat>,
                 k: nat, ms: seq<Message>, depth: nat)
    requires Indexes(log, data, known, names, offsets, counts) && Scanned(log, k, ms) && RereadableTo(log, FirstRaising(log, 0))
    ensures var p := Parse(data, StartOf(log, k), known, depth);
            && Indexes(log, data, p.known, names, offsets, counts)
            && (if p.raised || p.msg.None? then
                  && ms + Messages(log, FirstRaising(log, 0)) == Messages(log, 0)
                  && (p.raised <==> FirstRaising(log, 0) < |log.entries|)
                  && (!p.raised ==> ms == Messages(log, 0))
                else k < |log.entries| && p.offset == StartOf(log, k + 1) && Scanned(log, k + 1, ms + [p.msg.value]))
  {
    hide IndexAt, NamesOf, ReadingRaises, MessageAt, WellFormed, NotesAt, SameMarks, Rereadable, BytesUpTo, Env;
    if k < |log.entries| && ReadingRaises(log, k, Env(log, |log.entries|)) {
      RaisingIsRereadable(log, k, Env(log, |log.entries|));
    }
    ScanOf(log, data, known, k, depth);
    hide IsLog, TablesAt, Parse, Start;
    if k < |log.entries| { MoveOver(ms, MessageAt(log, k), Messages(log, k + 1)); }
  }

  lemma ScanOf(log: Log, data: seq<byte>, known: Known, k: nat, depth: nat)
    requires IsLog(data, log) && TablesAt(log, |log.entries|, known) && SameMarks(known.notes, NotesAt(log, |log.entries|))
    requires k <= |log.entries| && (k < |log.entries| ==> Rereadable(log, k))
    ensures var p := Parse(data, Start(log, k), known, depth);
            && TablesAt(log, |log.entries|, p.known) && SameMarks(p.known.notes, NotesAt(log, |log.entries|))
            && if k < |log.entries| then
                 && (p.raised <==> ReadingRaises(log, k, Env(log, |log.entries|)))
                 && p.msg == (if p.raised then None else Some(MessageAt(log, k)))
                 && p.offset == Start(log, k + 1)
               else p.msg == None && !p.raised
  {
    hide Parse, Env, WellFormed, WellFormedUpTo, MessageAt, Cached, ReadingRaises, Kept, NotesAt, SameMarks;
    if k < |log.entries| {
      RecordFits(data, log, k);
      KeptByMarks(log, k, known.notes, NotesAt(log, |log.entries|));
      ParseEntry(data, log, k, Start(log, k), known, |log.entries|, depth);
    } else {
      ParseTail(data, log, Start(log, k), known, depth);
    }
  }

  /** A FMT record whose format cannot be built is not found again, by a scan or by type. */
  lemma LostWhenRead(log: Log, data: seq<byte>, known: Known, names: map<string, int>, offsets: seq<seq<nat>>, counts: seq<nat>,
                     k: nat, o: nat, depth: nat)
    requires Indexes(log, data, known, names, offsets, counts) && k < |log.entries| && !Rereadable(log, k)
    requires Start(log, k) <= o <= At(log, k)
    ensures Parse(data, o, known, depth).msg != Some(MessageAt(log, k))
  {
    hide At, Start, Parse, Env, WellFormed, MessageAt, Cached, Kept, NotesAt, SameMarks, IndexAt, NamesOf;
    KeptByMarks(log, k, known.notes, NotesAt(log, |log.entries|));
    ParseEntry(data, log, k, o, known, |log.entries|, depth);
  }

  /** Names of a log are one to one with its types. */
  lemma NamesAreOneToOne(log: Log)
    requires WellFormed(log)
    ensures OneToOne(NamesOf(log, |log.entries|))
  {
    hide WellFormed, NamesOf, Env;
    NamesAgree(log, |log.entries|);
  }
}
