/**
 Small well-formed logs on which reading goes wrong: inputs that show the conditions of the
 theorems about the reader to be needed.
 */
module DataFlashExamples {
  import opened Wrappers
  import opened DataFlashFormat
  import opened DataFlashUnits
  import opened DataFlashLog
  import opened DataFlashIndex

  /** The FMT record that announces f. */
  function Announce(f: Format): Entry
    requires Ascii(f.name) && Ascii(f.format) && Ascii(Join(f.columns))
  {
    Entry([], FMT_TYPE, FmtValues(f))
  }

  const INITIAL: map<int, Format> := map[FMT_TYPE as int := FMT]

  /** A format that fits the FMT record can be announced where it is the only one of its name and type. */
  lemma AnnouncementIsGood(f: Format, env: map<int, Format>)
    requires Supported(f.format) && MakeFormatMsgbuf(f).Some? && FitsFmt(f) && WithStructLength(f) == f
    requires FMT_TYPE as int in env && env[FMT_TYPE as int] == FMT && GoodFormat(f, env)
    ensures GoodEntry(Announce(f), env) && EnvAfter(Announce(f), env) == env[f.typ := f]
    ensures FormatOfElements(ElementsOf(FMT, FmtValues(f))) == Some(f)
  {
    ItemsOfFmt();
    hide Items, Size, Pack, Received, Fit, Encode, Join, FormatOfElements, FitsFmt, ReadFormat, ReadField, GoodFormat;
    var v := FmtValues(f);
    PackFmt(v);
    FormatIsWritable(f);
    FormatOfWritten(f, Received(FMT_ITEMS, v));
    ReadOfWritten(f);
    FormatRoundTrip(f);
    assert FMT.format == FMT_CODES;
  }

  /** A log that announces f and holds records of it only. */
  function Records(f: Format, vss: seq<seq<Value>>): (log: Log)
    requires Ascii(f.name) && Ascii(f.format) && Ascii(Join(f.columns)) && 0 <= f.typ < 256
    ensures |log.entries| == |vss| + 1 && log.entries[0] == Announce(f) && log.tail == []
    ensures forall k | 0 < k <= |vss| :: log.entries[k] == Entry([], f.typ, vss[k - 1])
  {
    Log([Announce(f)] + seq(|vss|, i requires 0 <= i < |vss| => Entry([], f.typ, vss[i])), [])
  }

  /** A format with which such a log can be made. */
  ghost predicate Announceable(f: Format) {
    && Supported(f.format) && MakeFormatMsgbuf(f).Some? && FitsFmt(f) && WithStructLength(f) == f
    && f.name != "FMT" && 0 <= f.typ < 128 && Sound(f)
  }

  /** A log that announces f and then holds records of it only. */
  ghost predicate HoldsOnly(f: Format, log: Log) {
    && Announceable(f) && |log.entries| > 0 && log.entries[0] == Announce(f)
    && forall k | 0 < k < |log.entries| ::
         log.entries[k] == Entry([], f.typ, log.entries[k].values) && Pack(Items(f.format), log.entries[k].values).Some?
  }

  lemma RecordsHoldOnly(f: Format, vss: seq<seq<Value>>)
    requires Announceable(f) && forall vs <- vss :: Pack(Items(f.format), vs).Some?
    ensures HoldsOnly(f, Records(f, vss))
  {
    var log := Records(f, vss);
    hide Records, Pack, Announce;
    forall k | 0 < k < |log.entries|
      ensures log.entries[k] == Entry([], f.typ, log.entries[k].values) && Pack(Items(f.format), log.entries[k].values).Some?
    {
      assert vss[k - 1] in vss;
    }
  }

  lemma {:induction false} FormatsOfLog(f: Format, log: Log, n: nat)
    requires HoldsOnly(f, log) && 1 <= n <= |log.entries|
    ensures WellFormedUpTo(log, n) && Env(log, 0) == INITIAL && Env(log, n) == INITIAL[f.typ := f]
    ensures NamesOf(log, n) == map[f.name := f.typ]
  {
    hide Env, NamesOf, WellFormedUpTo, Announceable, Pack, Announce;
    if n == 1 {
      FirstOfRecords(f, log);
    } else {
      FormatsOfLog(f, log, n - 1);
      SmallType(f);
      NextOfRecords(f, log, n, log.entries[n - 1].values);
    }
  }

  lemma SmallType(f: Format)
    requires Announceable(f)
    ensures 0 <= f.typ < 128
  {}

  lemma FormatsOfRecords(f: Format, vss: seq<seq<Value>>, n: nat)
    requires Announceable(f) && 1 <= n <= |vss| + 1
    requires forall vs <- vss :: Pack(Items(f.format), vs).Some?
    ensures var log := Records(f, vss);
            && WellFormedUpTo(log, n) && Env(log, 0) == INITIAL && Env(log, n) == INITIAL[f.typ := f]
            && NamesOf(log, n) == map[f.name := f.typ]
  {
    RecordsHoldOnly(f, vss);
    hide HoldsOnly, Records, Env, NamesOf, WellFormedUpTo, Pack;
    FormatsOfLog(f, Records(f, vss), n);
  }

  lemma NextOfRecords(f: Format, log: Log, n: nat, vs: seq<Value>)
    requires 1 < n <= |log.entries| && WellFormedUpTo(log, n - 1) && Env(log, n - 1) == INITIAL[f.typ := f]
    requires 0 <= f.typ < 128 && log.entries[n - 1] == Entry([], f.typ, vs) && Pack(Items(f.format), vs).Some?
    ensures WellFormedUpTo(log, n) && Env(log, n) == Env(log, n - 1) && NamesOf(log, n) == NamesOf(log, n - 1)
  {
    RecordIsGood(f, vs, Env(log, n - 1));
    hide GoodEntry, EnvAfter, Pack, Items, MessageAt;
  }

  lemma RecordIsGood(f: Format, vs: seq<Value>, env: map<int, Format>)
    requires 0 <= f.typ < 128 && f.typ in env && env[f.typ] == f && Pack(Items(f.format), vs).Some?
    ensures GoodEntry(Entry([], f.typ, vs), env) && EnvAfter(Entry([], f.typ, vs), env) == env
  {}

  lemma FirstOfRecords(f: Format, log: Log)
    requires Announceable(f) && |log.entries| > 0 && log.entries[0] == Announce(f)
    ensures WellFormedUpTo(log, 1) && Env(log, 0) == INITIAL && Env(log, 1) == INITIAL[f.typ := f]
    ensures NamesOf(log, 1) == map[f.name := f.typ]
  {
    AnnouncementIsGood(f, INITIAL);
    hide Items, Size, Pack, Received, FormatOfElements, FitsFmt, Join, MakeFormatMsgbuf, Sound, GoodEntry, ElementsOf, FmtValues, Supported, Ascii;
    assert Env(log, 0) == INITIAL && Env(log, 1) == EnvAfter(log.entries[0], INITIAL);
    hide EnvAfter;
    assert MessageAt(log, 0) == Message(FMT, ElementsOf(FMT, FmtValues(f)));
    assert NamesOf(log, 0) == map[];
  }

  /** Every FMT record that the pass parses announces a format that can be built. */
  ghost predicate SteadyLog(log: Log) {
    forall data :: Steady(data, log)
  }

  lemma RecordsAreLog(f: Format, vss: seq<seq<Value>>)
    requires Announceable(f) && DistinctColumns(f) && forall vs <- vss :: Pack(Items(f.format), vs).Some?
    ensures WellFormed(Records(f, vss)) && SteadyLog(Records(f, vss))
  {
    hide Records, Steady, DistinctColumns, WellFormedUpTo, Pack, Sound, FitsFmt, Join;
    FormatsOfRecords(f, vss, |vss| + 1);
    FmtColumnsAreDistinct();
    forall data: seq<byte>
      ensures Steady(data, Records(f, vss))
    {
      DistinctColumnsAreRereadable(data, Records(f, vss));
    }
  }

  lemma FmtColumnsAreDistinct()
    ensures DistinctColumns(FMT)
  {
    var c := FMT.columns;
    assert c[0][0] == 'T' && c[1][0] == 'L' && c[2][0] == 'N' && c[3][0] == 'F' && c[4][0] == 'C';
  }

  /** Record k of such a log. */
  lemma RecordOf(f: Format, vss: seq<seq<Value>>, k: nat)
    requires Announceable(f) && 1 <= k <= |vss| && forall vs <- vss :: Pack(Items(f.format), vs).Some?
    ensures var log := Records(f, vss);
            && FormatOf(log, k) == f && TypeName(log, k) == f.name
            && |vss[k - 1]| == |Items(f.format)|
            && MessageAt(log, k).elements == Received(Items(f.format), vss[k - 1])
            && RawElements(log, k) == Received(Raw(Items(f.format)), vss[k - 1])
            && Env(log, k) == INITIAL[f.typ := f]
  {
    hide Announceable, Records, Pack, Received;
    FormatsOfRecords(f, vss, k);
    assert vss[k - 1] in vss;
    assert |vss[k - 1]| == |Items(f.format)| by { PackLength(Items(f.format), vss[k - 1]); }
  }

  lemma PackLength(items: seq<Item>, vs: seq<Value>)
    requires Pack(items, vs).Some?
    ensures |vs| == |items|
  {}

  // ---------------------------------------------------------------- an index pass that raises

  const UNIT: Format := Format(1, "UNIT", 4, "B", ["a"])

  lemma UnitItems()
    ensures Items(UNIT.format) == [Integer(1, false)] && Size([Integer(1, false)]) == 1
  {
    ItemsOfCode('B', "");
    assert "B" == ['B'] + "";
    assert [Integer(1, false)][1..] == [];
  }

  lemma UnitFits()
    ensures FitsFmt(UNIT) && DistinctColumns(UNIT) && Supported(UNIT.format)
    ensures Ascii(UNIT.name) && Ascii(UNIT.format) && Ascii(Join(UNIT.columns))
  {
    assert Join(UNIT.columns) == "a";
    hide Join;
  }

  lemma UnitIsAnnounceable()
    ensures Announceable(UNIT) && DistinctColumns(UNIT)
  {
    hide Items, Size, FitsFmt, Ascii, Supported, MakeFormatMsgbuf, DistinctColumns;
    UnitItems();
    UnitFits();
    FormatIsWritable(UNIT);
    assert |UNIT.name| == 4;
  }

  /** A UNIT record of one field: the pass takes its third. */
  lemma ShortUnitRaises()
    ensures Announceable(UNIT)
    ensures var log := Records(UNIT, [[Int(5)]]);
            WellFormed(log) && SteadyLog(log) && forall data :: PassRaises(data, log)
  {
    hide Items, Size, Announceable, Records, WellFormed, SteadyLog, DistinctColumns, NotesAt, FormatOf;
    UnitIsAnnounceable();
    UnitItems();
    OneByte(Int(5));
    var vss := [[Int(5)]];
    PackSucceeds([Integer(1, false)], [Int(5)]);
    hide Pack, PackItem;
    RecordsAreLog(UNIT, vss);
    RecordOf(UNIT, vss, 1);
    RecordRaises(Records(UNIT, vss), 1);
  }

  /** An entry with too few fields for a UNIT record. */
  lemma RecordRaises(log: Log, k: nat)
    requires k < |log.entries| && TypeName(log, k) == "UNIT" && |RawElements(log, k)| < 3
    ensures forall data :: PassRaises(data, log)
  {
    assert "UNIT"[0] != "FMTU"[0];
    hide TypeName, RawElements;
    forall data: seq<byte>
      ensures PassRaises(data, log)
    {
      assert NotedOf(log, k, NotesAt(log, k)).None?;
      assert RaisesAt(data, log, k);
    }
  }

  // ---------------------------------------------------------------- FMTU records that raise when parsed

  const FMTU: Format := Format(2, "FMTU", 44, "QBNN", ["TimeUS", "FmtType", "UnitIds", "MultIds"])

  const FMTU_ITEMS: seq<Item> := [Integer(8, false), Integer(1, false), Text(16), Text(16)]

  lemma FmtuItems()
    ensures Items(FMTU.format) == FMTU_ITEMS && Size(FMTU_ITEMS) == 41
  {
    FmtuCodes();
    hide Items;
    assert Size(FMTU_ITEMS[3..]) == 16;
    assert Size(FMTU_ITEMS[2..]) == 32;
    assert Size(FMTU_ITEMS[1..]) == 33;
  }

  lemma FmtuCodes()
    ensures Items("QBNN") == FMTU_ITEMS
  {
    ItemsOfCode('Q', "BNN");
    ItemsOfCode('B', "NN");
    ItemsOfCode('N', "N");
    ItemsOfCode('N', "");
    hide Items;
    assert "QBNN" == ['Q'] + "BNN" && "BNN" == ['B'] + "NN" && "NN" == ['N'] + "N" && "N" == ['N'] + "";
  }

  predicate Plain(s: string) {
    Ascii(s) && '\0' !in s
  }

  lemma JoinFirst(p: string, rest: seq<string>)
    requires rest != [] && Plain(p) && Plain(Join(rest))
    ensures |Join([p] + rest)| == |p| + 1 + |Join(rest)| && Plain(Join([p] + rest))
  {
    assert ([p] + rest)[1..] == rest;
  }

  lemma FmtuColumns()
    ensures |Join(FMTU.columns)| == 30 && Plain(Join(FMTU.columns))
  {
    var a, b, c, d := "TimeUS", "FmtType", "UnitIds", "MultIds";
    assert Join([d]) == d;
    hide Join;
    JoinFirst(c, [d]);
    JoinFirst(b, [c, d]);
    JoinFirst(a, [b, c, d]);
    hide Plain;
    assert FMTU.columns == [a, b, c, d];
  }

  lemma FmtuNames()
    ensures NoComma(FMTU.columns) && DistinctColumns(FMTU)
  {
    var c := FMTU.columns;
    assert c[0][0] == 'T' && c[1][0] == 'F' && c[2][0] == 'U' && c[3][0] == 'M';
    assert ',' !in c[0] && ',' !in c[1];
    assert ',' !in c[2] && ',' !in c[3];
  }

  lemma FmtuFits()
    ensures FitsFmt(FMTU) && DistinctColumns(FMTU) && Supported(FMTU.format)
    ensures Ascii(FMTU.name) && Ascii(FMTU.format) && Ascii(Join(FMTU.columns))
  {
    FmtuColumns();
    FmtuNames();
    hide Join, DistinctColumns, NoComma;
    assert |FMTU.columns| == 4;
  }

  lemma FmtuIsAnnounceable()
    ensures Announceable(FMTU) && DistinctColumns(FMTU)
  {
    hide Items, Size, FitsFmt, Ascii, Supported, MakeFormatMsgbuf, DistinctColumns, Join;
    FmtuItems();
    FmtuFits();
    FormatIsWritable(FMTU);
    assert |FMTU.name| == 4;
  }

  /** A FMTU record about its own type, at this time, without units or multipliers. */
  function FmtuRecord(time: int): seq<Value> {
    [Int(time), Int(2), Str([]), Str([])]
  }

  lemma FmtuPacks(time: int)
    requires 0 <= time < 256
    ensures Pack(FMTU_ITEMS, FmtuRecord(time)).Some?
  {
    var v := FmtuRecord(time);
    assert Pow256(1) == 256 * Pow256(0);
    Pow256Grows(1, 8);
    PackSucceeds(FMTU_ITEMS, v);
    hide Pack, LittleEndian, Pow256;
    assert PackItem(FMTU_ITEMS[0], v[0]).Some? && PackItem(FMTU_ITEMS[1], v[1]).Some?;
    assert PackItem(FMTU_ITEMS[2], v[2]).Some? && PackItem(FMTU_ITEMS[3], v[3]).Some?;
  }

  lemma {:induction false} Pow256Grows(m: nat, n: nat)
    requires m <= n
    ensures Pow256(m) <= Pow256(n)
  {
    if m < n { Pow256Grows(m, n - 1); }
  }

  /** The elements of such a record. */
  lemma FmtuElements(time: int)
    ensures Raw(FMTU_ITEMS) == FMTU_ITEMS
    ensures var e := Received(FMTU_ITEMS, FmtuRecord(time));
            && e[0] == Int(time) && e[1] == Int(2)
            && e[2].Str? && e[3].Str? && TextOf(e[2].bytes) == "" == TextOf(e[3].bytes)
  {
    var v := FmtuRecord(time);
    assert Raw(FMTU_ITEMS) == FMTU_ITEMS;
    ReceivedAt(FMTU_ITEMS, v, 0);
    ReceivedAt(FMTU_ITEMS, v, 1);
    ReceivedAt(FMTU_ITEMS, v, 2);
    ReceivedAt(FMTU_ITEMS, v, 3);
    hide Received;
    assert Decode(Fit([], 16))[0] == '\0';
  }

  /** The pass notes such a record without raising. */
  lemma FmtuIsNoted(e: seq<Value>, formats: map<int, Format>, notes: Notes)
    requires |e| == 4 && e[1] == Int(2) && 2 in formats && formats[2] == FMTU
    requires e[2].Str? && e[3].Str? && TextOf(e[2].bytes) == "" == TextOf(e[3].bytes)
    ensures NoteFmtu(FMTU, e, formats, notes).Some? && NoteFmtu(FMTU, e, formats, notes).value.instances == notes.instances
  {
    var c := FMTU.columns;
    assert c[0][0] == 'T' && c[1][0] == 'F' && c[2] == "UnitIds" && c[3] == "MultIds";
    assert "UnitIds"[0] == 'U' && "MultIds"[0] == 'M';
    hide TextOf, ColumnIndex;
    assert ColumnIndex(c, "UnitIds") == Some(2) && ColumnIndex(c, "MultIds") == Some(3);
    var noted := SetUnitIds(FMTU, "", notes).value;
    assert NoteUnitIds(FMTU, e, FMTU, notes) == Some(noted);
    assert MultIdsFit(FMTU, "", noted);
  }

  /** A log of two such records. */
  function TwoFmtus(): (log: Log)
    requires Ascii(FMTU.name) && Ascii(FMTU.format) && Ascii(Join(FMTU.columns))
    ensures |log.entries| == 3 && log.entries[0].typ == FMT_TYPE
  {
    Records(FMTU, [FmtuRecord(3), FmtuRecord(2)])
  }

  lemma TwoFmtusAreLog()
    ensures Announceable(FMTU) && WellFormed(TwoFmtus()) && SteadyLog(TwoFmtus())
    ensures Env(TwoFmtus(), 3) == INITIAL[2 := FMTU]
  {
    hide Announceable, Records, SteadyLog, DistinctColumns, Pack, Env, WellFormed, Items, Ascii, FitsFmt, Join;
    FmtuIsAnnounceable();
    FmtuFits();
    FmtuItems();
    FmtuPacks(3);
    FmtuPacks(2);
    var vss := [FmtuRecord(3), FmtuRecord(2)];
    RecordsAreLog(FMTU, vss);
    FormatsOfRecords(FMTU, vss, 3);
  }

  lemma FmtuRaisesByTime(e: seq<Value>, time: int)
    requires |e| == 4 && e[0] == Int(time)
    ensures FmtuRaises(e, INITIAL[2 := FMTU]) <==> time == 2 || time == 128
  {}

  /** Record 1 or 2 of it. */
  lemma FmtuAt(k: nat)
    requires 1 <= k <= 2
    ensures Announceable(FMTU)
    ensures IsFmtu(TwoFmtus(), k, INITIAL[2 := FMTU])
  {
    hide Announceable, Records, Pack, Env, Items, NoteFmtu, Received, TextOf, NotesAt, FormatOf, FmtuRaises, Ascii, Join, FitsFmt, DistinctColumns;
    FmtuIsAnnounceable();
    FmtuFits();
    FmtuItems();
    FmtuPacks(3);
    FmtuPacks(2);
    var vss := [FmtuRecord(3), FmtuRecord(2)];
    var log, time := TwoFmtus(), if k == 1 then 3 else 2;
    assert vss[k - 1] == FmtuRecord(time);
    RecordOf(FMTU, vss, k);
    FmtuElements(time);
    FmtuRaisesByTime(MessageAt(log, k).elements, time);
    FmtuIsNoted(RawElements(log, k), INITIAL[2 := FMTU], NotesAt(log, k));
    assert log.entries[k].typ == 2;
    hide Raw, FmtuRecord;
    assert NotedOf(log, k, NotesAt(log, k)) == NoteFmtu(FMTU, RawElements(log, k), INITIAL[2 := FMTU], NotesAt(log, k));
  }

  /** The FMT record in front of them raises nowhere. */
  lemma FmtRaisesNowhere(data: seq<byte>, log: Log, formats: map<int, Format>)
    requires |log.entries| > 0 && TypeName(log, 0) == "FMT"
    ensures !RaisesAt(data, log, 0) && !ReadingRaises(log, 0, formats) && NotesAt(log, 1) == NO_NOTES
  {
    assert |TypeName(log, 0)| == 3;
    assert NotesAt(log, 0) == NO_NOTES;
    hide NoteFmtu, NoteUnit, NoteMult, RawElements, FormatOf;
    assert NotedOf(log, 0, NO_NOTES) == Some(NO_NOTES);
  }

  /** The second FMTU record is not parsed by the pass: it is not the first, and nothing tells instances apart. */
  lemma SecondIsNotParsed(data: seq<byte>, log: Log)
    requires |log.entries| > 2 && log.entries[1].typ == log.entries[2].typ == 2 && NotesAt(log, 1) == NO_NOTES
    requires NotedOf(log, 1, NO_NOTES).Some? && NotedOf(log, 1, NO_NOTES).value.instances == map[]
    ensures !ParsedByPass(data, log, 2)
  {
    hide NotedOf, At;
    assert |OffsetsOf(log, 2, 2)| > 0;
  }

  /** Entry k, of type 2, is noted without marking a column, and raises with the second's formats only if it is entry 2. */
  ghost predicate IsFmtu(log: Log, k: nat, formats: map<int, Format>)
    requires k < |log.entries|
  {
    && log.entries[k].typ == 2 && Env(log, k) == formats
    && (ReadingRaises(log, k, formats) <==> k == 2)
    && NotedOf(log, k, NotesAt(log, k)).Some?
    && NotedOf(log, k, NotesAt(log, k)).value.instances == NotesAt(log, k).instances
  }

  lemma OnlyReadingRaises(log: Log, formats: map<int, Format>)
    requires |log.entries| == 3 && log.entries[0].typ == FMT_TYPE && Env(log, 3) == formats
    requires IsFmtu(log, 1, formats) && IsFmtu(log, 2, formats)
    ensures forall data :: !PassRaises(data, log)
    ensures FirstRaising(log, 0) == 2
  {
    hide NotedOf, ReadingRaises, Env, TypeName, NotesAt;
    FirstIsFmt(log);
    forall data: seq<byte>
      ensures !PassRaises(data, log)
    {
      FmtRaisesNowhere(data, log, formats);
      SecondIsNotParsed(data, log);
      hide ParsedByPass;
      assert !RaisesAt(data, log, 1) && !RaisesAt(data, log, 2);
    }
    FmtRaisesNowhere([], log, formats);
    assert FirstRaising(log, 2) == 2;
    assert FirstRaising(log, 1) == 2;
  }

  /** The pass parses the first FMTU record only. The second one's time is the number of a known type: the pass ends
      normally, but reading the log raises at that record. */
  lemma LateFmtuRaises()
    ensures Announceable(FMTU)
    ensures WellFormed(TwoFmtus()) && SteadyLog(TwoFmtus())
    ensures forall data :: !PassRaises(data, TwoFmtus())
    ensures FirstRaising(TwoFmtus(), 0) == 2
  {
    hide Announceable, PassRaises, IsFmtu, WellFormed, SteadyLog, Env, TwoFmtus, FirstRaising, Ascii, Join;
    FmtuFits();
    TwoFmtusAreLog();
    FmtuAt(1);
    FmtuAt(2);
    OnlyReadingRaises(TwoFmtus(), INITIAL[2 := FMTU]);
  }

  lemma FirstIsFmt(log: Log)
    requires |log.entries| > 0 && log.entries[0].typ == FMT_TYPE
    ensures TypeName(log, 0) == "FMT"
  {}

  // ---------------------------------------------------------------- FMT records that reading by type misses

  /** A log that announces one type and not FMT itself: its only message, a FMT record, is not found by type. */
  lemma UnannouncedFmtIsMissed()
    ensures Announceable(UNIT)
    ensures var log := Records(UNIT, []);
            WellFormed(log) && Selected(log, 0, {"FMT"}) != Filter(Messages(log, 0), {"FMT"})
  {
    hide Announceable, Records, DistinctColumns, WellFormed, Selected, Filter, Messages, Ascii, Join, Pack, SteadyLog, NamesOf;
    UnitIsAnnounceable();
    UnitFits();
    RecordsAreLog(UNIT, []);
    FormatsOfRecords(UNIT, [], 1);
    var log := Records(UNIT, []);
    assert "FMT" !in NamesOf(log, 1) by { assert |"FMT"| != |UNIT.name|; }
    assert log.entries[0].typ == FMT_TYPE;
    IndexAgreesWithScan(log, {"FMT"});
  }

  // ---------------------------------------------------------------- a marked column whose name is repeated

  const TWICE: Format := Format(1, "T", 69, "BBZ", ["a", "b", "a"])

  const TWICE_ITEMS: seq<Item> := [Integer(1, false), Integer(1, false), Text(64)]

  lemma TwiceItems()
    ensures Items(TWICE.format) == TWICE_ITEMS && Size(TWICE_ITEMS) == 66
  {
    TwiceCodes();
    hide Items;
    assert Size(TWICE_ITEMS[2..]) == 64;
    assert Size(TWICE_ITEMS[1..]) == 65;
  }

  lemma TwiceCodes()
    ensures Items("BBZ") == TWICE_ITEMS
  {
    ItemsOfCode('B', "BZ");
    ItemsOfCode('B', "Z");
    ItemsOfCode('Z', "");
    hide Items;
    assert "BBZ" == ['B'] + "BZ" && "BZ" == ['B'] + "Z" && "Z" == ['Z'] + "";
  }

  lemma TwiceFits()
    ensures FitsFmt(TWICE) && Supported(TWICE.format)
    ensures Ascii(TWICE.name) && Ascii(TWICE.format) && Ascii(Join(TWICE.columns))
  {
    assert Join(["a"]) == "a" && Plain("a") && Plain("b");
    hide Join;
    JoinFirst("b", ["a"]);
    JoinFirst("a", ["b", "a"]);
    assert TWICE.columns == ["a"] + ["b", "a"] && ["b"] + ["a"] == ["b", "a"];
  }

  lemma TwiceIsAnnounceable()
    ensures Announceable(TWICE)
  {
    hide Items, Size, FitsFmt, Ascii, Supported, MakeFormatMsgbuf, Join;
    TwiceItems();
    TwiceFits();
    FormatIsWritable(TWICE);
    assert |TWICE.name| == 1;
  }

  /** A FMTU record that marks the first column of type 1. */
  const MARKING: seq<Value> := [Int(9), Int(1), Str([35]), Str([])]

  /** The column can be marked, but once it is, the format cannot be built over itself: the last column of that name
      is a text, which cannot be an instance column. */
  lemma MarkIsNotFound(notes: Notes)
    ensures InstanceAt(TWICE, 0) == Some(Instance("a", 0, 1))
    ensures 1 in notes.instances && notes.instances[1].column == "a" ==> KeepInstance(TWICE, notes) == None
  {
    assert TWICE.format[..0] == "";
    ColumnIndexIsLast(TWICE.columns, "a", 2);
    hide ColumnIndex;
    assert NativeSize('Z') == None;
  }

  const MARK: Instance := Instance("a", 0, 1)

  const BOTH: map<int, Format> := INITIAL[1 := TWICE][2 := FMTU]

  lemma MarkingPacks()
    ensures Pack(FMTU_ITEMS, MARKING).Some?
  {
    var v := MARKING;
    assert Pow256(1) == 256 * Pow256(0);
    Pow256Grows(1, 8);
    PackSucceeds(FMTU_ITEMS, v);
    hide Pack, LittleEndian, Pow256;
    assert PackItem(FMTU_ITEMS[0], v[0]).Some? && PackItem(FMTU_ITEMS[1], v[1]).Some?;
    assert PackItem(FMTU_ITEMS[2], v[2]).Some? && PackItem(FMTU_ITEMS[3], v[3]).Some?;
  }

  lemma MarkingElements()
    ensures var e := Received(FMTU_ITEMS, MARKING);
            && e[0] == Int(9) && e[1] == Int(1)
            && e[2].Str? && e[3].Str? && TextOf(e[2].bytes) == "#" && TextOf(e[3].bytes) == ""
  {
    ReceivedAt(FMTU_ITEMS, MARKING, 0);
    ReceivedAt(FMTU_ITEMS, MARKING, 1);
    ReceivedAt(FMTU_ITEMS, MARKING, 2);
    ReceivedAt(FMTU_ITEMS, MARKING, 3);
    hide Received;
    assert Ascii("#") && Encode("#") == [35];
    FieldRoundTrip("#", 16);
    assert Decode(Fit([], 16))[0] == '\0';
  }

  /** The FMTU record does not raise when parsed, and the pass notes the mark. */
  lemma MarkIsNoted(e: seq<Value>)
    requires |e| == 4 && e[0] == Int(9) && e[1] == Int(1)
    requires e[2].Str? && e[3].Str? && TextOf(e[2].bytes) == "#" && TextOf(e[3].bytes) == ""
    ensures !FmtuRaises(e, BOTH)
    ensures var noted := NoteFmtu(FMTU, e, BOTH, NO_NOTES);
            noted.Some? && noted.value.instances == map[1 := MARK]
  {
    var c := FMTU.columns;
    assert c[0][0] == 'T' && c[1][0] == 'F' && c[2] == "UnitIds" && c[3] == "MultIds";
    assert "UnitIds"[0] == 'U' && "MultIds"[0] == 'M';
    MarkIsNotFound(NO_NOTES);
    hide TextOf, ColumnIndex, InstanceAt;
    assert ColumnIndex(c, "UnitIds") == Some(2) && ColumnIndex(c, "MultIds") == Some(3);
    assert HashAt("#") == Some(0);
    var noted := SetUnitIds(TWICE, "#", NO_NOTES).value;
    assert NoteUnitIds(FMTU, e, TWICE, NO_NOTES) == Some(noted);
    assert MultIdsFit(TWICE, "", noted);
  }

  /** A log that announces the two types and holds that record; `again` if it then announces the first type again. */
  ghost predicate IsMarking(log: Log, again: bool) {
    && Announceable(TWICE) && Announceable(FMTU)
    && |log.entries| == (if again then 4 else 3) && log.tail == []
    && log.entries[0] == Announce(TWICE) && log.entries[1] == Announce(FMTU) && log.entries[2] == Entry([], 2, MARKING)
    && (again ==> log.entries[3] == Announce(TWICE))
  }

  lemma MarkingFormats(log: Log, again: bool)
    requires IsMarking(log, again)
    ensures WellFormed(log) && |log.entries| == (if again then 4 else 3)
    ensures Env(log, 1) == INITIAL[1 := TWICE] && Env(log, 2) == BOTH == Env(log, 3) && Env(log, |log.entries|) == BOTH
  {
    hide Pack, Items, MakeFormatMsgbuf, FitsFmt, Announce, ElementsOf, FormatOfElements, Sound, Supported;
    FmtuItems();
    MarkingPacks();
    assert Env(log, 0) == INITIAL;
    assert |TWICE.name| == 1 && |FMTU.name| == 4 && |FMT.name| == 3;
    AnnouncementIsGood(TWICE, INITIAL);
    AnnouncementIsGood(FMTU, INITIAL[1 := TWICE]);
    RecordIsGood(FMTU, MARKING, BOTH);
    if again { AnnouncementIsGood(TWICE, BOTH); }
    hide GoodEntry, EnvAfter, GoodFormat;
    assert Env(log, 1) == INITIAL[1 := TWICE];
    assert Env(log, 2) == BOTH;
    assert Env(log, 3) == BOTH;
    assert BOTH[1 := TWICE] == BOTH;
    assert again ==> Env(log, 4) == BOTH;
  }

  /** What the FMT records of such a log announce. */
  lemma MarkingAnnounces(log: Log, again: bool, k: nat)
    requires IsMarking(log, again) && k < |log.entries| && k != 2
    ensures TypeName(log, k) == "FMT" && Announced(log, k) == Some(if k == 1 then FMTU else TWICE)
  {
    hide Pack, Items, MakeFormatMsgbuf, FitsFmt, ElementsOf, FormatOfElements, Supported, Env, GoodEntry, WellFormed;
    MarkingFormats(log, again);
    FmtKeepsItsFormat(log, k);
    AnnouncementIsGood(TWICE, INITIAL);
    AnnouncementIsGood(FMTU, INITIAL[1 := TWICE]);
    hide Sound;
  }

  /** Its FMTU record. */
  lemma MarkingRecord(log: Log, again: bool)
    requires IsMarking(log, again)
    ensures TypeName(log, 2) == "FMTU" && FormatOf(log, 2) == FMTU && Announced(log, 2) == None
    ensures NotedOf(log, 2, NO_NOTES) == NoteFmtu(FMTU, RawElements(log, 2), BOTH, NO_NOTES)
    ensures NotedOf(log, 2, NO_NOTES).Some? && NotedOf(log, 2, NO_NOTES).value.instances == map[1 := MARK]
    ensures !ReadingRaises(log, 2, BOTH)
  {
    hide Pack, Items, Received, MakeFormatMsgbuf, FitsFmt, FormatOfElements, Supported, Sound, Announce, NoteFmtu, TextOf, FmtuRaises;
    MarkingFormats(log, again);
    FmtuItems();
    MarkingPacks();
    PackLength(FMTU_ITEMS, MARKING);
    MarkingElements();
    assert Raw(FMTU_ITEMS) == FMTU_ITEMS;
    assert FormatOf(log, 2) == FMTU;
    hide Env, WellFormed;
    MarkIsNoted(Received(FMTU_ITEMS, MARKING));
  }

  lemma MarkingNotes(log: Log, again: bool)
    requires IsMarking(log, again)
    ensures NotesAt(log, 0) == NotesAt(log, 1) == NotesAt(log, 2) == NO_NOTES && NotesAt(log, 3).instances == map[1 := MARK]
    ensures NotedOf(log, 0, NO_NOTES) == NotedOf(log, 1, NO_NOTES) == Some(NO_NOTES)
  {
    MarkingAnnounces(log, again, 0);
    MarkingAnnounces(log, again, 1);
    MarkingRecord(log, again);
    hide IsMarking, TypeName, RawElements, FormatOf, NoteFmtu, NoteUnit, NoteMult, Announced;
    assert |"FMT"| == 3;
    assert NotedOf(log, 0, NO_NOTES) == Some(NO_NOTES);
    assert NotedOf(log, 1, NO_NOTES) == Some(NO_NOTES);
    hide NotedOf;
    assert NotesAt(log, 1) == NO_NOTES;
  }

  /** Such a log is well-formed, and since FMT itself is not marked, the pass parses only its first FMT record. */
  lemma MarkingIsSteady(log: Log, again: bool)
    requires IsMarking(log, again)
    ensures WellFormed(log) && SteadyLog(log)
  {
    hide IsMarking, WellFormed, NotesAt, Steady;
    MarkingFormats(log, again);
    MarkingNotes(log, again);
    forall data: seq<byte>
      ensures Steady(data, log)
    {
      UnmarkedFmtIsSteady(data, log);
    }
  }

  /** The second announcement of the marked type raises in the index pass, for all that every record is in order. */
  lemma RepeatedColumnRaises(log: Log)
    requires IsMarking(log, true)
    ensures WellFormed(log) && SteadyLog(log) && forall data :: PassRaises(data, log)
  {
    MarkingIsSteady(log, true);
    MarkingNotes(log, true);
    MarkingAnnounces(log, true, 3);
    MarkIsNotFound(NotesAt(log, 3));
    hide WellFormed, Steady, NotesAt, Announced, KeepInstance;
    forall data: seq<byte>
      ensures PassRaises(data, log)
    {
      assert RaisesAt(data, log, 3);
    }
  }

  /** Without it the log is indexed normally, but reading it loses its first record. */
  lemma MarkedFormatIsLost(log: Log)
    requires IsMarking(log, false)
    ensures WellFormed(log) && SteadyLog(log) && (forall data :: !PassRaises(data, log)) && !Rereadable(log, 0)
  {
    hide WellFormed, SteadyLog, PassRaises, NotesAt, Announced, KeepInstance, TypeName, FormatOf, RawElements, NoteFmtu, ReadingRaises;
    MarkingIsSteady(log, false);
    MarkingNotes(log, false);
    MarkingAnnounces(log, false, 0);
    MarkIsNotFound(NotesAt(log, 3));
    forall data: seq<byte>
      ensures !PassRaises(data, log)
    {
      MarkingPasses(data, log);
    }
  }

  lemma MarkingPasses(data: seq<byte>, log: Log)
    requires IsMarking(log, false)
    ensures !PassRaises(data, log)
  {
    hide *;
    MarkingFormats(log, false);
    forall k | 0 <= k < |log.entries|
      ensures !RaisesAt(data, log, k)
    {
      MarkingQuiet(data, log, k);
    }
    QuietPasses(data, log);
  }

  lemma QuietPasses(data: seq<byte>, log: Log)
    requires forall k | 0 <= k < |log.entries| :: !RaisesAt(data, log, k)
    ensures !PassRaises(data, log)
  {
    hide RaisesAt;
  }

  lemma MarkingQuiet(data: seq<byte>, log: Log, k: nat)
    requires IsMarking(log, false) && k < 3
    ensures k < |log.entries| && !RaisesAt(data, log, k)
  {
    hide WellFormed, NotesAt, NotedOf, ParsedByPass, ReadingRaises, Env, IsMarking, Announced, TypeName, FormatOf;
    MarkingFormats(log, false);
    MarkingNotes(log, false);
    if k == 2 {
      MarkingRecord(log, false);
    } else {
      MarkingAnnounces(log, false, k);
      NamedFmt(log, k);
    }
  }

  lemma NamedFmt(log: Log, k: nat)
    requires k < |log.entries| && TypeName(log, k) == "FMT"
    ensures forall formats :: !ReadingRaises(log, k, formats)
  {
    assert |TypeName(log, k)| == 3;
  }

  /** There are such logs. */
  lemma MarkingExists(again: bool) returns (log: Log)
    ensures IsMarking(log, again)
  {
    TwiceIsAnnounceable();
    FmtuIsAnnounceable();
    TwiceFits();
    FmtuFits();
    hide Announceable, Ascii, Join;
    log := Log([Announce(TWICE), Announce(FMTU), Entry([], 2, MARKING)] + if again then [Announce(TWICE)] else [], []);
  }
}
