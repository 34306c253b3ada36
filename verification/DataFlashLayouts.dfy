/**
 Logs whose UNIT, MULT and FMTU records have the layouts flight controllers give them. On these the fields of a record
 tell whether the index pass raises there.
 */
module DataFlashLayouts {
  import opened Wrappers
  import opened DataFlashFormat
  import opened DataFlashUnits
  import opened DataFlashLog
  import opened DataFlashCodes
  import opened DataFlashIndex

  const FMTU_COLUMNS: seq<string> := ["TimeUS", "FmtType", "UnitIds", "MultIds"]

  ghost predicate UsualLayout(f: Format) {
    && (f.name == "UNIT" ==> f.format == "QbZ")
    && (f.name == "MULT" ==> f.format == "Qbd")
    && (f.name == "FMTU" ==> f.format == "QBNN" && f.columns == FMTU_COLUMNS)
  }

  ghost predicate UsualLayouts(log: Log) {
    forall n | 0 <= n < |log.entries| :: UsualLayout(FormatOf(log, n))
  }

  // ---------------------------------------------------------------- fields

  const LETTER_AND_TEXT: seq<Item> := [Integer(8, false), Integer(1, true), Text(64)]
  const LETTER_AND_NUMBER: seq<Item> := [Integer(8, false), Integer(1, true), Floating(8)]
  const TYPE_AND_LETTERS: seq<Item> := [Integer(8, false), Integer(1, false), Text(16), Text(16)]

  lemma UnitFields()
    ensures Items("QbZ") == LETTER_AND_TEXT && Raw(LETTER_AND_TEXT) == LETTER_AND_TEXT
  {
    ItemsOfCode('Q', "bZ");
    ItemsOfCode('b', "Z");
    ItemsOfCode('Z', "");
    hide Items;
    assert "QbZ" == ['Q'] + "bZ" && "bZ" == ['b'] + "Z" && "Z" == ['Z'] + "";
  }

  lemma MultFields()
    ensures Items("Qbd") == LETTER_AND_NUMBER && Raw(LETTER_AND_NUMBER) == LETTER_AND_NUMBER
  {
    ItemsOfCode('Q', "bd");
    ItemsOfCode('b', "d");
    ItemsOfCode('d', "");
    hide Items;
    assert "Qbd" == ['Q'] + "bd" && "bd" == ['b'] + "d" && "d" == ['d'] + "";
  }

  lemma FmtuFields()
    ensures Items("QBNN") == TYPE_AND_LETTERS && Raw(TYPE_AND_LETTERS) == TYPE_AND_LETTERS
  {
    ItemsOfCode('Q', "BNN");
    ItemsOfCode('B', "NN");
    ItemsOfCode('N', "N");
    ItemsOfCode('N', "");
    hide Items;
    assert "QBNN" == ['Q'] + "BNN" && "BNN" == ['B'] + "NN" && "NN" == ['N'] + "N" && "N" == ['N'] + "";
  }

  /** An integer field holds what was written, a text field its front, a float field a float. */
  lemma FieldReceived(items: seq<Item>, values: seq<Value>, k: nat)
    requires Pack(items, values).Some? && k < |items|
    ensures |values| == |items|
    ensures items[k].Integer? ==> values[k].Int? && Received(items, values)[k] == values[k]
                                  && InRange(values[k].i, items[k].width, items[k].signed)
    ensures items[k].Text? ==> values[k].Str? && Received(items, values)[k] == Str(Fit(values[k].bytes, items[k].width))
    ensures items[k].Floating? ==> Received(items, values)[k].Float?
  {
    PackSucceeds(items, values);
    hide Pack, Received, Fit, LittleEndian, InRange;
    assert PackItem(items[k], values[k]).Some?;
    ReceivedAt(items, values, k);
  }

  lemma SmallRange(i: int)
    requires InRange(i, 1, true) || InRange(i, 1, false)
    ensures -128 <= i < 256
  {
    assert Pow256(1) == 256 * Pow256(0);
  }

  // ---------------------------------------------------------------- when a record raises

  /** Codes whose values are scaled by a factor of their own. */
  predicate IsScaled(c: char) {
    c == 'c' || c == 'C' || c == 'e' || c == 'E' || c == 'L'
  }

  /** Column p can be the instance column of a format: it has a name, and a code that struct knows. */
  predicate CanMark(f: Format, p: nat) {
    p < |f.columns| && p < |f.format| && !IsForeign(f.format[p])
  }

  /** The letter of a UNIT or MULT record is no character. */
  predicate BadLetter(v: seq<Value>) {
    |v| > 1 && v[1].Int? && v[1].i < 0
  }

  /** The text a 16-byte field keeps of a value. */
  function FieldText(v: Value): string {
    if v.Str? then TextOf(Fit(v.bytes, 16)) else ""
  }

  /** A letter's last UNIT record gave it a text. */
  ghost predicate HasUnit(log: Log, n: nat, letter: char)
    requires n <= |log.entries|
  {
    var unit := LastUnit(log, n, letter as int);
    unit.Some? && unit.value != ""
  }

  /** The letters of a FMTU record fit the format it is about: a # stands at a column that can be an instance column,
      every column has a code, and every column with a unit but without a multiplier of its own has a multiplier
      letter. */
  ghost predicate LettersFit(log: Log, n: nat, f: Format, ids: string, mults: string)
    requires n <= |log.entries|
  {
    && (HashAt(ids).Some? ==> CanMark(f, HashAt(ids).value))
    && |f.columns| <= |f.format|
    && forall i | 0 <= i < |f.columns| ::
         i < |ids| && HasUnit(log, n, ids[i]) ==> IsScaled(f.format[i]) || i < |mults|
  }

  /** A FMTU record is about a type its letters do not fit. */
  ghost predicate BadLetters(log: Log, n: nat)
    requires n < |log.entries|
  {
    var v, formats := log.entries[n].values, Env(log, n);
    && |v| > 3 && v[1].Int? && v[1].i in formats
    && !LettersFit(log, n, formats[v[1].i], FieldText(v[2]), FieldText(v[3]))
  }

  /** Its time is the number of a known type. */
  ghost predicate TimeIsType(log: Log, n: nat)
    requires n < |log.entries|
  {
    var v := log.entries[n].values;
    |v| > 0 && v[0].Int? && v[0].i in Env(log, n)
  }

  /** The column of type t that the last FMTU record about it, among the first n entries, marked with a #. */
  ghost function MarkedColumn(log: Log, n: nat, t: int): Option<string>
    requires n <= |log.entries|
  {
    if n == 0 then None
    else
      var v, formats := log.entries[n - 1].values, Env(log, n - 1);
      if TypeName(log, n - 1) == "FMTU" && !BadLetters(log, n - 1) && |v| > 3 && v[1].Int? && v[1].i == t && t in formats
         && HashAt(FieldText(v[2])).Some? && HashAt(FieldText(v[2])).value < |formats[t].columns|
      then Some(formats[t].columns[HashAt(FieldText(v[2])).value])
      else MarkedColumn(log, n - 1, t)
  }

  /** The last column of that name cannot be the instance column of the format. */
  predicate CannotMark(f: Format, column: string) {
    match ColumnIndex(f.columns, column)
    case None => true
    case Some(p) => !CanMark(f, p)
  }

  /** A FMT record announces a format that cannot have the column marked in its type. */
  ghost predicate BadMark(log: Log, n: nat)
    requires n < |log.entries|
  {
    var f := Announced(log, n);
    f.Some? && MarkedColumn(log, n, f.value.typ).Some? && CannotMark(f.value, MarkedColumn(log, n, f.value.typ).value)
  }

  // ---------------------------------------------------------------- UNIT and MULT

  lemma LetterRaises(values: seq<Value>, notes: Notes)
    ensures Pack(LETTER_AND_TEXT, values).Some? ==>
              |values| == 3 && (NoteUnit(Received(LETTER_AND_TEXT, values), notes).None? <==> BadLetter(values))
    ensures Pack(LETTER_AND_NUMBER, values).Some? ==>
              |values| == 3 && (NoteMult(Received(LETTER_AND_NUMBER, values), notes).None? <==> BadLetter(values))
  {
    hide TextOf, Received, Pack, InRange;
    if Pack(LETTER_AND_TEXT, values).Some? {
      FieldReceived(LETTER_AND_TEXT, values, 1);
      FieldReceived(LETTER_AND_TEXT, values, 2);
      SmallRange(values[1].i);
    }
    if Pack(LETTER_AND_NUMBER, values).Some? {
      FieldReceived(LETTER_AND_NUMBER, values, 1);
      FieldReceived(LETTER_AND_NUMBER, values, 2);
      SmallRange(values[1].i);
    }
  }

  /** The record was packed, and what reading it gives. */
  lemma Packed(log: Log, n: nat, items: seq<Item>)
    requires WellFormed(log) && n < |log.entries| && Items(FormatOf(log, n).format) == items && Raw(items) == items
    ensures var v := log.entries[n].values;
            && Pack(items, v).Some? && |v| == |items|
            && RawElements(log, n) == Received(items, v) == MessageAt(log, n).elements
  {
    EntryFits(log, n);
    hide WellFormed, GoodEntry, SoundEnv, RecordBytes, Items, Received;
  }

  lemma UnitRaises(log: Log, n: nat, notes: Notes)
    requires WellFormed(log) && n < |log.entries| && FormatOf(log, n).format == "QbZ"
    ensures NoteUnit(RawElements(log, n), notes).None? <==> BadLetter(log.entries[n].values)
  {
    hide WellFormed, Items, FormatOf, RawElements, NoteUnit, BadLetter;
    UnitFields();
    Packed(log, n, LETTER_AND_TEXT);
    LetterRaises(log.entries[n].values, notes);
  }

  lemma MultRaises(log: Log, n: nat, notes: Notes)
    requires WellFormed(log) && n < |log.entries| && FormatOf(log, n).format == "Qbd"
    ensures NoteMult(RawElements(log, n), notes).None? <==> BadLetter(log.entries[n].values)
  {
    hide WellFormed, Items, FormatOf, RawElements, NoteMult, BadLetter;
    MultFields();
    Packed(log, n, LETTER_AND_NUMBER);
    LetterRaises(log.entries[n].values, notes);
  }

  // ---------------------------------------------------------------- any layout

  predicate IsInteger(c: char) {
    IsSigned(c) || IsUnsigned(c)
  }

  /** What struct's own element for a code is. */
  lemma RawKind(c: char, v: Value)
    requires IsCode(c) && ItemOf(c).Some? && PackItem(ItemOf(c).value, v).Some?
    ensures var e := ReceivedItem(RawItem(ItemOf(c).value), v);
            && (e.Int? <==> IsInteger(c)) && (e.Int? ==> e == v) && (e.Float? <==> IsFloat(c))
            && (e.Str? <==> IsText(c) || c == 'a')
  {
    hide LittleEndian, Fit, InRange;
  }

  lemma RawElementKind(log: Log, n: nat, k: nat)
    requires WellFormed(log) && n < |log.entries| && OnlyCodes(FormatOf(log, n).format) && k < |FormatOf(log, n).format|
    ensures |RawElements(log, n)| == |log.entries[n].values| == |FormatOf(log, n).format|
    ensures var e, v, c := RawElements(log, n)[k], log.entries[n].values[k], FormatOf(log, n).format[k];
            && (e.Int? <==> IsInteger(c)) && (e.Int? ==> e == v) && (e.Float? <==> IsFloat(c))
            && (e.Str? <==> IsText(c) || c == 'a')
  {
    var format, values := FormatOf(log, n).format, log.entries[n].values;
    EntryFits(log, n);
    ItemsHaveWidths(format);
    ItemAt(format, k);
    CodeAt(format, k);
    PackSucceeds(Items(format), values);
    hide WellFormed, GoodEntry, SoundEnv, RecordBytes, Items, Received, FormatOf, OnlyCodes, Pack, PackItem, ItemOf, IsCode;
    assert PackItem(Items(format)[k], values[k]).Some?;
    RawKind(format[k], values[k]);
    ReceivedAt(Raw(Items(format)), values, k);
    hide ReceivedItem, RawItem, IsInteger, IsFloat, IsText;
  }

  lemma {:induction false} ItemAt(format: string, k: nat)
    requires OnlyCodes(format) && k < |format|
    ensures k < |Items(format)| && ItemOf(format[k]).Some? && Items(format)[k] == ItemOf(format[k]).value
    decreases k
  {
    ItemsHaveWidths(format);
    RestIsCodes(format);
    CodeAt(format, 0);
    CodeHasWidth(format[0]);
    hide ItemOf, OnlyCodes, IsCode;
    ItemsOfCode(format[0], format[1..]);
    assert [format[0]] + format[1..] == format;
    if k > 0 { ItemAt(format[1..], k - 1); }
  }

  /** Whatever its layout, a UNIT record can be used exactly if its second field is an integer that is the number of a
      character and its third is bytes, and a MULT record exactly if the third is a number instead. */
  lemma LetterRecords(log: Log, n: nat, notes: Notes)
    requires WellFormed(log) && n < |log.entries| && OnlyCodes(FormatOf(log, n).format)
    ensures var e, v, format := RawElements(log, n), log.entries[n].values, FormatOf(log, n).format;
            var lettered := |format| >= 3 && IsInteger(format[1]) && |v| >= 3 && v[1].Int? && 0 <= v[1].i < 0x110000;
            && (NoteUnit(e, notes).Some? <==> lettered && (IsText(format[2]) || format[2] == 'a'))
            && (NoteMult(e, notes).Some? <==> lettered && (IsInteger(format[2]) || IsFloat(format[2])))
  {
    var format := FormatOf(log, n).format;
    ElementsOfFormat(log, n);
    if |format| >= 3 {
      RawElementKind(log, n, 1);
      RawElementKind(log, n, 2);
    }
    hide RawElements, FormatOf, WellFormed, TextOf, OnlyCodes, IsInteger, IsText, IsFloat;
  }

  /** Whatever its layout, a FMTU record raises in the pass if it has fewer than two fields or its second is no integer, and
      one about an unknown type changes nothing. */
  lemma FmtuRecords(log: Log, n: nat, notes: Notes)
    requires WellFormed(log) && n < |log.entries| && OnlyCodes(FormatOf(log, n).format)
    ensures var e, f := RawElements(log, n), FormatOf(log, n);
            && |e| == |f.format|
            && (|e| < 2 || IntOf(e[1]).None? ==> NoteFmtu(f, e, Env(log, n), notes) == None)
            && (|e| >= 2 && IntOf(e[1]).Some? && IntOf(e[1]).value !in Env(log, n) ==>
                  NoteFmtu(f, e, Env(log, n), notes) == Some(notes))
  {
    ElementsOfFormat(log, n);
    hide WellFormed, RawElements, FormatOf, Env, IntOf, OnlyCodes, NoteUnitIds, NoteMultIds;
  }

  lemma ElementsOfFormat(log: Log, n: nat)
    requires WellFormed(log) && n < |log.entries| && OnlyCodes(FormatOf(log, n).format)
    ensures |RawElements(log, n)| == |FormatOf(log, n).format|
  {
    EntryFits(log, n);
    ItemsHaveWidths(FormatOf(log, n).format);
    hide WellFormed, GoodEntry, SoundEnv, RecordBytes, Items, Received, FormatOf, OnlyCodes;
  }

  // ---------------------------------------------------------------- instances

  /** The bytes that tell the instances of a type apart are those of the marked field, if its code means the same to struct
      in native mode and the fields before it are aligned. */
  lemma InstanceBytes(data: seq<byte>, h: nat, f: Format, p: nat)
    requires OnlyCodes(f.format) && InstanceAt(f, p).Some? && p < |f.format|
    requires h + 3 + Offset(f.format, p) + Width(f.format[p]) <= |data|
    ensures IsNative(f.format[p]) && IsPacked(f.format, p) ==>
              var o := h + 3 + Offset(f.format, p);
              InstanceValue(data, h, InstanceAt(f, p).value) == data[o..o + Width(f.format[p])]
  {
    hide InstanceAt, IsPacked, IsNative, Offset, OnlyCodes, Width, IsCode, ItemOf;
    InstanceIsField(f, p);
    CodeAt(f.format, p);
    CodeHasWidth(f.format[p]);
  }

  // ---------------------------------------------------------------- FMTU

  /** A FMTU record's fields. */
  lemma FmtuReceived(log: Log, n: nat)
    requires WellFormed(log) && n < |log.entries| && FormatOf(log, n).format == "QBNN"
    ensures var v, e := log.entries[n].values, RawElements(log, n);
            && |v| == 4 == |e| && v[0].Int? && v[1].Int?
            && e[0] == v[0] && e[1] == v[1] && e[2].Str? && e[3].Str?
            && TextOf(e[2].bytes) == FieldText(v[2]) && TextOf(e[3].bytes) == FieldText(v[3])
            && e == MessageAt(log, n).elements
  {
    hide WellFormed, Items, FormatOf, RawElements, MessageAt, TextOf, InRange, Pack, Received, Fit;
    FmtuFields();
    Packed(log, n, TYPE_AND_LETTERS);
    var v := log.entries[n].values;
    FieldReceived(TYPE_AND_LETTERS, v, 0);
    FieldReceived(TYPE_AND_LETTERS, v, 1);
    FieldReceived(TYPE_AND_LETTERS, v, 2);
    FieldReceived(TYPE_AND_LETTERS, v, 3);
  }

  lemma FmtuColumns()
    ensures ColumnIndex(FMTU_COLUMNS, "UnitIds") == Some(2) && ColumnIndex(FMTU_COLUMNS, "MultIds") == Some(3)
  {
    var c := FMTU_COLUMNS;
    assert c[0][0] == 'T' && c[1][0] == 'F' && c[2] == "UnitIds" && c[3] == "MultIds";
    assert "UnitIds"[0] == 'U' && "MultIds"[0] == 'M';
  }

  lemma MarkedOrNot(f: Format, p: nat)
    requires OnlyCodes(f.format)
    ensures InstanceAt(f, p).Some? <==> CanMark(f, p)
  {
    InstanceIsField(f, p);
    hide InstanceAt, IsForeign;
  }

  /** All formats of a log, and all that it announces, are made of codes. */
  lemma AnnouncedHasCodes(log: Log, n: nat)
    requires n < |log.entries|
    ensures Announced(log, n).Some? ==> OnlyCodes(Announced(log, n).value.format)
  {
    if Announced(log, n).Some? {
      CodesAreSupported(Announced(log, n).value.format);
      hide OnlyCodes, MessageAt;
    }
  }

  lemma {:induction false} EnvHasCodes(log: Log, n: nat, t: int)
    requires WellFormed(log) && n <= |log.entries| && t in Env(log, n)
    ensures OnlyCodes(Env(log, n)[t].format)
  {
    hide *;
    if n == 0 {
      FirstHasCodes(log, t);
    } else {
      OneMoreHasCodes(log, n, t);
      if t in Env(log, n - 1) { EnvHasCodes(log, n - 1, t); }
    }
  }

  lemma FirstHasCodes(log: Log, t: int)
    requires t in Env(log, 0)
    ensures OnlyCodes(Env(log, 0)[t].format)
  {
    FmtOffsets();
    hide OnlyCodes;
  }

  lemma OneMoreHasCodes(log: Log, n: nat, t: int)
    requires WellFormed(log) && 0 < n <= |log.entries| && t in Env(log, n)
    ensures OnlyCodes(Env(log, n)[t].format) || (t in Env(log, n - 1) && Env(log, n)[t] == Env(log, n - 1)[t])
  {
    hide Announced, OnlyCodes, WellFormed, Env, GoodFormat;
    Announcement(log, n - 1);
    AnnouncedHasCodes(log, n - 1);
  }

  /** When set_unit_ids and set_mult_ids end normally. */
  lemma MarksFit(f: Format, ids: string, mults: string, notes: Notes)
    ensures var noted := SetUnitIds(f, ids, notes);
            (noted.Some? && MultIdsFit(f, mults, noted.value)) <==>
            && (HashAt(ids).Some? ==> InstanceAt(f, HashAt(ids).value).Some?)
            && |f.columns| <= |f.format|
            && forall i | 0 <= i < |f.columns| ::
                 i < |ids| && ids[i] as int in notes.lookup ==> Multiplied(f.format[i]) || i < |mults|
  {
    hide InstanceAt, Multiplied, HashAt;
    var marks := Marks(|f.columns|, ids, notes.lookup);
    if SetUnitIds(f, ids, notes).Some? {
      if |f.columns| > |f.format| { assert !MultFits(f, mults, marks, |f.format|); }
      assert forall i | 0 <= i < |f.columns| && i < |f.format| ::
          MultFits(f, mults, marks, i) <==>
          (i < |ids| && ids[i] as int in notes.lookup ==> Multiplied(f.format[i]) || i < |mults|);
      assert MultIdsFit(f, mults, SetUnitIds(f, ids, notes).value) <==>
             forall i | 0 <= i < |marks| :: MultFits(f, mults, marks, i);
    }
  }

  /** What is noted for the format a FMTU record is about. */
  lemma LettersNoted(log: Log, n: nat, f: Format, ids: string, mults: string)
    requires WellFormed(log) && n <= |log.entries| && OnlyCodes(f.format)
    ensures var noted := SetUnitIds(f, ids, NotesAt(log, n));
            (noted.Some? && MultIdsFit(f, mults, noted.value)) <==> LettersFit(log, n, f, ids, mults)
  {
    if HashAt(ids).Some? { MarkedOrNot(f, HashAt(ids).value); }
    assert forall c :: Multiplied(c) <==> IsScaled(c);
    hide WellFormed, NotesAt, LastUnit, InstanceAt, Multiplied, IsScaled, HashAt, SetUnitIds, MultIdsFit, CanMark, OnlyCodes;
    MarksFit(f, ids, mults, NotesAt(log, n));
    forall i | 0 <= i < |ids|
      ensures HasUnit(log, n, ids[i]) <==> ids[i] as int in NotesAt(log, n).lookup
    {
      LastUnitCounts(log, n, ids[i] as int);
    }
    hide HasUnit;
  }

  /** The FMTU branch, given the fields. */
  lemma FmtuNoted(f: Format, e: seq<Value>, t: int, ids: string, mults: string, formats: map<int, Format>, notes: Notes)
    requires f.columns == FMTU_COLUMNS && |e| == 4 && e[1] == Int(t) && e[2].Str? && e[3].Str?
    requires TextOf(e[2].bytes) == ids && TextOf(e[3].bytes) == mults
    ensures var after := NoteFmtu(f, e, formats, notes);
            if t !in formats then after == Some(notes)
            else
              var noted := SetUnitIds(formats[t], ids, notes);
              if noted.Some? && MultIdsFit(formats[t], mults, noted.value) then after == noted else after == None
  {
    FmtuColumns();
    hide TextOf, SetUnitIds, MultIdsFit, ColumnIndex;
  }

  /** A FMTU record's letters decide whether it is noted. */
  lemma FmtuNote(log: Log, n: nat)
    requires WellFormed(log) && n < |log.entries| && FormatOf(log, n).format == "QBNN"
    requires FormatOf(log, n).columns == FMTU_COLUMNS
    ensures var v, f := log.entries[n].values, FormatOf(log, n);
            var after := NoteFmtu(f, RawElements(log, n), Env(log, n), NotesAt(log, n));
            && |v| == 4 && v[1].Int? && (after.None? <==> BadLetters(log, n))
            && (after.Some? ==>
                  if v[1].i !in Env(log, n) then after == Some(NotesAt(log, n))
                  else after == SetUnitIds(Env(log, n)[v[1].i], FieldText(v[2]), NotesAt(log, n)))
  {
    hide WellFormed, RawElements, MessageAt, NotesAt, Env, FormatOf, NoteFmtu;
    hide LettersFit, FieldText, SetUnitIds, MultIdsFit, TextOf, OnlyCodes;
    FmtuReceived(log, n);
    var v, e, notes, formats := log.entries[n].values, RawElements(log, n), NotesAt(log, n), Env(log, n);
    FmtuNoted(FormatOf(log, n), e, v[1].i, FieldText(v[2]), FieldText(v[3]), formats, notes);
    if v[1].i in formats {
      EnvHasCodes(log, n, v[1].i);
      LettersNoted(log, n, formats[v[1].i], FieldText(v[2]), FieldText(v[3]));
    }
  }

  lemma FmtuReading(log: Log, n: nat)
    requires WellFormed(log) && n < |log.entries| && TypeName(log, n) == "FMTU" && FormatOf(log, n).format == "QBNN"
    ensures ReadingRaises(log, n, Env(log, n)) <==> TimeIsType(log, n)
  {
    hide WellFormed, RawElements, MessageAt, Env, FormatOf, TextOf, FieldText;
    FmtuReceived(log, n);
  }

  // ---------------------------------------------------------------- FMT

  /** The notes have the marked columns. */
  ghost predicate SameMark(instances: map<int, Instance>, t: int, marked: Option<string>) {
    if t in instances then marked == Some(instances[t].column) else marked == None
  }

  lemma {:induction false} MarkedColumnCounts(log: Log, n: nat, t: int)
    requires WellFormed(log) && UsualLayouts(log) && n <= |log.entries|
    ensures SameMark(NotesAt(log, n).instances, t, MarkedColumn(log, n, t))
  {
    hide *;
    if n == 0 {
      NothingMarked(log, t);
    } else {
      MarkedColumnCounts(log, n - 1, t);
      MarkedOneMore(log, n - 1, t);
    }
  }

  lemma NothingMarked(log: Log, t: int)
    ensures SameMark(NotesAt(log, 0).instances, t, MarkedColumn(log, 0, t))
  {}

  lemma MarkedOneMore(log: Log, n: nat, t: int)
    requires WellFormed(log) && UsualLayouts(log) && n < |log.entries|
    requires SameMark(NotesAt(log, n).instances, t, MarkedColumn(log, n, t))
    ensures SameMark(NotesAt(log, n + 1).instances, t, MarkedColumn(log, n + 1, t))
  {
    hide *;
    if TypeName(log, n) == "FMTU" {
      MarkedByFmtu(log, n, t);
    } else {
      MarkedByOther(log, n, t);
    }
  }

  lemma MarkedByFmtu(log: Log, n: nat, t: int)
    requires WellFormed(log) && UsualLayouts(log) && n < |log.entries| && TypeName(log, n) == "FMTU"
    requires SameMark(NotesAt(log, n).instances, t, MarkedColumn(log, n, t))
    ensures SameMark(NotesAt(log, n + 1).instances, t, MarkedColumn(log, n + 1, t))
  {
    var v, formats, notes := log.entries[n].values, Env(log, n), NotesAt(log, n);
    assert UsualLayout(FormatOf(log, n));
    hide WellFormed, RawElements, Env, FormatOf, FieldText, BadLetters, SetUnitIds, SameMark, Announced, NoteFmtu, HashAt;
    FmtuNote(log, n);
    NameOfFmt(log, n);
    assert |"FMTU"| != |"FMT"|;
    EnvIsSoundHere(log, n);
    assert NotedOf(log, n, notes) == NoteFmtu(FormatOf(log, n), RawElements(log, n), formats, notes);
    hide NotedOf;
    if !BadLetters(log, n) && v[1].i in formats {
      SetMark(formats[v[1].i], FieldText(v[2]), notes, t, MarkedColumn(log, n, t));
    }
  }

  lemma MarkedByOther(log: Log, n: nat, t: int)
    requires WellFormed(log) && n < |log.entries| && TypeName(log, n) != "FMTU"
    requires SameMark(NotesAt(log, n).instances, t, MarkedColumn(log, n, t))
    ensures SameMark(NotesAt(log, n + 1).instances, t, MarkedColumn(log, n + 1, t))
  {
    hide WellFormed, RawElements, Env, FormatOf, FieldText, BadLetters, SameMark, Note, KeepInstance, OnlyCodes;
    var notes, marked := NotesAt(log, n), MarkedColumn(log, n, t);
    assert MarkedColumn(log, n + 1, t) == marked;
    hide MarkedColumn;
    AnnouncedHasCodes(log, n);
    if Announced(log, n).Some? { KeepsMark(Announced(log, n).value, notes, t, marked); }
    if Kept(log, n, notes).Some? {
      InstancesAfter(TypeName(log, n), FormatOf(log, n), RawElements(log, n), Env(log, n), Kept(log, n, notes).value);
    }
    assert NotedOf(log, n, notes).Some? ==> SameMark(NotedOf(log, n, notes).value.instances, t, marked);
  }

  /** Only FMTU records mark columns. */
  lemma InstancesAfter(name: string, f: Format, e: seq<Value>, formats: map<int, Format>, notes: Notes)
    ensures name != "FMTU" && Note(name, f, e, formats, notes).Some? ==>
              Note(name, f, e, formats, notes).value.instances == notes.instances
  {
    hide NoteFmtu, TextOf;
  }

  lemma KeepsMark(f: Format, notes: Notes, t: int, marked: Option<string>)
    requires SameMark(notes.instances, t, marked) && OnlyCodes(f.format)
    ensures KeepInstance(f, notes).Some? ==> SameMark(KeepInstance(f, notes).value.instances, t, marked)
    ensures t == f.typ ==> (KeepInstance(f, notes).None? <==> marked.Some? && CannotMark(f, marked.value))
  {
    hide ColumnIndex, InstanceAt, CanMark, OnlyCodes;
    if f.typ in notes.instances && ColumnIndex(f.columns, notes.instances[f.typ].column).Some? {
      var p := ColumnIndex(f.columns, notes.instances[f.typ].column).value;
      NameOfInstance(f, p);
      MarkedOrNot(f, p);
    }
  }

  lemma NameOfInstance(f: Format, p: nat)
    ensures InstanceAt(f, p).Some? ==> p < |f.columns| && InstanceAt(f, p).value.column == f.columns[p]
  {
    hide NativeEnd, NativeSize, Items;
  }

  lemma SetMark(f: Format, ids: string, notes: Notes, t: int, marked: Option<string>)
    requires SameMark(notes.instances, t, marked) && SetUnitIds(f, ids, notes).Some?
    ensures var p := HashAt(ids);
            SameMark(SetUnitIds(f, ids, notes).value.instances, t,
                     if f.typ == t && p.Some? && p.value < |f.columns| then Some(f.columns[p.value]) else marked)
  {
    hide InstanceAt, HashAt;
    if HashAt(ids).Some? { NameOfInstance(f, HashAt(ids).value); }
  }

  // ---------------------------------------------------------------- the index pass

  /** By what its fields say, entry n makes the index pass raise. */
  ghost predicate Unusable(data: seq<byte>, log: Log, n: nat)
    requires n < |log.entries|
  {
    var name := TypeName(log, n);
    if name == "UNIT" || name == "MULT" then BadLetter(log.entries[n].values)
    else if name == "FMTU" then BadLetters(log, n) || (ParsedByPass(data, log, n) && TimeIsType(log, n))
    else BadMark(log, n)
  }

  /** The index pass raises exactly at a UNIT or MULT record whose letter is negative, at a FMTU record whose letters do
      not fit the type it is about or that is parsed and whose time is the number of a known type, and at a FMT record
      that announces a type anew in which the marked column cannot be found. */
  lemma UsualRaises(data: seq<byte>, log: Log, n: nat)
    requires WellFormed(log) && UsualLayouts(log) && n < |log.entries|
    ensures RaisesAt(data, log, n) <==> Unusable(data, log, n)
  {
    hide WellFormed, ParsedByPass, NotesAt, Env, Announced, FmtuRaises, MessageAt, RawElements;
    hide BadLetter, BadLetters, TimeIsType, BadMark;
    assert UsualLayout(FormatOf(log, n));
    hide FormatOf;
    var name := TypeName(log, n);
    FmtRaises(log, n);
    NameOfFmt(log, n);
    DifferentNames();
    if name == "UNIT" {
      UnitRaises(log, n, NotesAt(log, n));
    } else if name == "MULT" {
      MultRaises(log, n, NotesAt(log, n));
    } else if name == "FMTU" {
      FmtuNote(log, n);
      FmtuReading(log, n);
    }
  }

  /** So the fields of the records tell whether a log can be indexed. */
  lemma UsualPassRaises(data: seq<byte>, log: Log)
    requires WellFormed(log) && UsualLayouts(log)
    ensures PassRaises(data, log) <==> exists n | 0 <= n < |log.entries| :: Unusable(data, log, n)
  {
    hide WellFormed, UsualLayouts, RaisesAt, Unusable;
    forall n | 0 <= n < |log.entries|
      ensures RaisesAt(data, log, n) <==> Unusable(data, log, n)
    {
      UsualRaises(data, log, n);
    }
  }

  lemma DifferentNames()
    ensures "UNIT" != "FMTU" && "MULT" != "FMTU" && "UNIT" != "MULT"
    ensures "FMT" != "UNIT" && "FMT" != "MULT" && "FMT" != "FMTU"
  {
    assert "UNIT"[0] != "FMTU"[0] && "MULT"[0] != "FMTU"[0] && "UNIT"[0] != "MULT"[0];
    assert |"FMT"| == 3 && |"UNIT"| == |"MULT"| == |"FMTU"| == 4;
  }

  lemma FmtRaises(log: Log, n: nat)
    requires WellFormed(log) && UsualLayouts(log) && n < |log.entries|
    ensures Kept(log, n, NotesAt(log, n)).None? <==> BadMark(log, n)
    ensures Announced(log, n).None? ==> Kept(log, n, NotesAt(log, n)) == Some(NotesAt(log, n))
  {
    hide WellFormed, NotesAt, Env, Announced, MarkedColumn, KeepInstance, CannotMark, SameMark, OnlyCodes;
    AnnouncedHasCodes(log, n);
    if Announced(log, n).Some? {
      var f := Announced(log, n).value;
      MarkedColumnCounts(log, n, f.typ);
      KeepsMark(f, NotesAt(log, n), f.typ, MarkedColumn(log, n, f.typ));
    }
  }
}
