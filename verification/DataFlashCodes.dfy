/**
 What each code of a format string means, byte by byte: the width of its field and the value as a function of
 its bytes, for every message the parser returns.
 */
module DataFlashCodes {
  import opened Wrappers
  import opened DataFlashFormat
  import opened DataFlashUnits
  import opened DataFlashLog

  /** The bytes of a field. */
  function Width(c: char): nat {
    match c
    case 'b' | 'B' | 'M' => 1
    case 'h' | 'H' | 'c' | 'C' | 'g' => 2
    case 'i' | 'I' | 'e' | 'E' | 'L' | 'f' | 'n' => 4
    case 'q' | 'Q' | 'd' => 8
    case 'N' => 16
    case 'Z' | 'a' => 64
    case _ => 0
  }

  predicate IsSigned(c: char) {
    c == 'b' || c == 'h' || c == 'i' || c == 'q' || c == 'c' || c == 'e' || c == 'L' || c == 'M'
  }

  predicate IsUnsigned(c: char) {
    c == 'B' || c == 'H' || c == 'I' || c == 'Q' || c == 'C' || c == 'E'
  }

  predicate IsFloat(c: char) {
    c == 'g' || c == 'f' || c == 'd'
  }

  predicate IsText(c: char) {
    c == 'n' || c == 'N' || c == 'Z'
  }

  /** The codes there are. */
  predicate IsCode(c: char) {
    IsSigned(c) || IsUnsigned(c) || IsFloat(c) || IsText(c) || c == 'a'
  }

  /** The number of values of an integer of w bytes. */
  function Range(w: nat): int {
    match w
    case 1 => 0x100
    case 2 => 0x10000
    case 4 => 0x1_0000_0000
    case 8 => 0x1_0000_0000_0000_0000
    case _ => 0
  }

  function Nth(b: seq<byte>, k: nat): int
    requires k < |b|
  {
    b[k]
  }

  /** The positional sum, lowest byte first. */
  function Positional(b: seq<byte>): int {
    match |b|
    case 1 => Nth(b, 0)
    case 2 => Nth(b, 0) + 0x100 * Nth(b, 1)
    case 4 => Nth(b, 0) + 0x100 * Nth(b, 1) + 0x10000 * Nth(b, 2) + 0x100_0000 * Nth(b, 3)
    case 8 => Nth(b, 0) + 0x100 * Nth(b, 1) + 0x10000 * Nth(b, 2) + 0x100_0000 * Nth(b, 3)
              + 0x1_0000_0000 * Nth(b, 4) + 0x100_0000_0000 * Nth(b, 5)
              + 0x1_0000_0000_0000 * Nth(b, 6) + 0x100_0000_0000_0000 * Nth(b, 7)
    case _ => 0
  }

  /** Reading b as two's complement. */
  function TwosComplement(b: seq<byte>): int
    requires b != []
  {
    Positional(b) - if b[|b| - 1] >= 128 then Range(|b|) else 0
  }

  /** The value v is what the bytes of a field of this code stand for. */
  ghost predicate Holds(c: char, b: seq<byte>, v: Value)
    requires |b| == Width(c)
  {
    && (IsSigned(c) ==> v == Int(TwosComplement(b)))
    && (IsUnsigned(c) ==> v == Int(Positional(b)))
    && (IsFloat(c) ==> v == Float(b))
    && (IsText(c) ==> v == Str(b))
    && (c == 'a' ==> v.Shorts? && |v.shorts| == 32 && forall k | 0 <= k < 32 :: v.shorts[k] == TwosComplement(b[2 * k..2 * k + 2]))
  }

  // ---------------------------------------------------------------- one field

  lemma Powers()
    ensures Pow256(0) == 1 && Pow256(1) == 0x100 && Pow256(2) == 0x10000
    ensures Pow256(4) == 0x1_0000_0000 && Pow256(8) == 0x1_0000_0000_0000_0000
  {
    assert Pow256(3) == 0x100_0000;
    assert Pow256(5) == 0x100_0000_0000 && Pow256(6) == 0x1_0000_0000_0000 && Pow256(7) == 0x100_0000_0000_0000;
  }

  lemma FirstByte(b: seq<byte>)
    requires b != []
    ensures FromLittleEndian(b) == b[0] + 256 * FromLittleEndian(b[1..])
    ensures FromLittleEndian([]) == 0
  {}

  lemma FourBytes(b: seq<byte>)
    requires |b| >= 4
    ensures FromLittleEndian(b) == Nth(b, 0) + 0x100 * Nth(b, 1) + 0x10000 * Nth(b, 2) + 0x100_0000 * Nth(b, 3)
                                   + 0x1_0000_0000 * FromLittleEndian(b[4..])
  {
    FirstByte(b);
    FirstByte(b[1..]);
    FirstByte(b[1..][1..]);
    FirstByte(b[1..][1..][1..]);
    hide FromLittleEndian;
    assert b[1..][1..] == b[2..] && b[2..][1..] == b[3..] && b[3..][1..] == b[4..];
  }

  /** Little-endian numbers are positional sums. */
  lemma LittleEndianIsPositional(b: seq<byte>)
    requires |b| == 1 || |b| == 2 || |b| == 4 || |b| == 8
    ensures FromLittleEndian(b) == Positional(b)
  {
    Powers();
    FirstByte(b);
    if |b| == 1 {
      assert b[1..] == [];
    } else if |b| == 2 {
      FirstByte(b[1..]);
      assert b[1..][1..] == [];
    } else {
      FourBytes(b);
      hide FromLittleEndian;
      if |b| == 4 {
        assert b[4..] == [];
      } else {
        FourBytes(b[4..]);
        assert b[4..][4..] == [];
        assert forall k | 0 <= k < 4 :: Nth(b[4..], k) == Nth(b, k + 4);
      }
    }
  }

  /** The top bit decides the sign. */
  lemma TopBit(b: seq<byte>)
    requires |b| == 1 || |b| == 2 || |b| == 4 || |b| == 8
    ensures 2 * Positional(b) >= Range(|b|) <==> b[|b| - 1] >= 128
  {}

  lemma SignedIsTwosComplement(b: seq<byte>)
    requires |b| == 1 || |b| == 2 || |b| == 4 || |b| == 8
    ensures Signed(FromLittleEndian(b), |b|) == TwosComplement(b)
  {
    Powers();
    LittleEndianIsPositional(b);
    TopBit(b);
    hide Pow256, FromLittleEndian, Positional;
  }

  lemma {:induction false} ShortsMean(b: seq<byte>, k: nat)
    requires 2 * k + 2 <= |b|
    ensures |ToShorts(b)| == |b| / 2 && ToShorts(b)[k] == TwosComplement(b[2 * k..2 * k + 2])
  {
    SignedIsTwosComplement(b[..2]);
    hide Signed, FromLittleEndian, TwosComplement;
    if |b| >= 4 {
      var j := if k > 0 then k - 1 else 0;
      ShortsMean(b[2..], j);
      assert ToShorts(b) == [Signed(FromLittleEndian(b[..2]), 2)] + ToShorts(b[2..]);
      hide ToShorts;
      assert b[2..][2 * j..2 * j + 2] == b[2 + 2 * j..4 + 2 * j];
    } else {
      assert ToShorts(b[2..]) == [];
    }
  }

  /** A code's field has its width; there are no other codes. */
  lemma CodeHasWidth(c: char)
    ensures ItemOf(c).Some? <==> IsCode(c)
    ensures IsCode(c) ==> ItemOf(c).value.Size() == Width(c) > 0
  {}

  lemma NumberMeans(c: char, b: seq<byte>)
    requires |b| == Width(c) && (IsSigned(c) || IsUnsigned(c))
    ensures ItemOf(c).Some? && ItemOf(c).value.Size() == Width(c)
    ensures UnpackItem(ItemOf(c).value, b) == Int(if IsSigned(c) then TwosComplement(b) else Positional(b))
  {
    hide Signed, FromLittleEndian, TwosComplement, Positional;
    if IsSigned(c) { SignedIsTwosComplement(b); } else { LittleEndianIsPositional(b); }
  }

  lemma ArrayMeans(b: seq<byte>)
    requires |b| == 64
    ensures |ToShorts(b)| == 32 && forall k | 0 <= k < 32 :: ToShorts(b)[k] == TwosComplement(b[2 * k..2 * k + 2])
  {
    hide ToShorts, TwosComplement;
    ShortsMean(b, 0);
    forall k | 0 <= k < 32
      ensures ToShorts(b)[k] == TwosComplement(b[2 * k..2 * k + 2])
    {
      ShortsMean(b, k);
    }
  }

  /** A field's bytes are unpacked to what they stand for. */
  lemma CodeMeans(c: char, b: seq<byte>)
    requires IsCode(c) && |b| == Width(c)
    ensures ItemOf(c).Some? && ItemOf(c).value.Size() == Width(c)
    ensures Holds(c, b, UnpackItem(ItemOf(c).value, b))
  {
    hide Signed, FromLittleEndian, TwosComplement, Positional, ToShorts;
    if IsSigned(c) || IsUnsigned(c) { NumberMeans(c, b); }
    if c == 'a' { ArrayMeans(b); }
  }

  /** What struct packs: integers in the range of their field, floats of its width, texts of any length. */
  lemma PackAccepts(c: char, v: Value)
    requires IsCode(c)
    ensures ItemOf(c).Some?
    ensures PackItem(ItemOf(c).value, v).Some? <==>
              || (IsSigned(c) && v.Int? && -Range(Width(c)) <= 2 * v.i < Range(Width(c)))
              || (IsUnsigned(c) && v.Int? && 0 <= v.i < Range(Width(c)))
              || (IsFloat(c) && v.Float? && |v.bits| == Width(c))
              || ((IsText(c) || c == 'a') && v.Str?)
  {
    Powers();
    hide Pow256, LittleEndian, Fit;
  }

  // ---------------------------------------------------------------- a record

  /** Where the k-th field of a body begins. */
  function Offset(format: string, k: nat): nat
    requires k <= |format|
  {
    if k == 0 then 0 else Offset(format, k - 1) + Width(format[k - 1])
  }

  predicate OnlyCodes(format: string) {
    forall k | 0 <= k < |format| :: IsCode(format[k])
  }

  /** The k-th value is what the k-th field of the body stands for. */
  ghost predicate FieldHolds(format: string, body: seq<byte>, e: seq<Value>, k: nat)
    requires k < |format| == |e| && |body| == Offset(format, |format|)
  {
    var o := Offset(format, k);
    o + Width(format[k]) <= |body| && Holds(format[k], body[o..o + Width(format[k])], e[k])
  }

  ghost predicate FieldsHold(format: string, body: seq<byte>, e: seq<Value>)
    requires |format| == |e| && |body| == Offset(format, |format|)
  {
    forall k | 0 <= k < |format| :: FieldHolds(format, body, e, k)
  }

  lemma {:induction false} OffsetOfRest(format: string, k: nat)
    requires 0 < k <= |format|
    ensures Offset(format, k) == Width(format[0]) + Offset(format[1..], k - 1)
  {
    hide Width;
    if k > 1 { OffsetOfRest(format, k - 1); }
  }

  lemma {:induction false} ItemsHaveWidths(format: string)
    requires OnlyCodes(format)
    ensures |Items(format)| == |format| && Size(Items(format)) == Offset(format, |format|)
  {
    if format != "" {
      CodeHasWidth(format[0]);
      RestIsCodes(format);
      hide ItemOf, Width, OnlyCodes, IsCode;
      ItemsHaveWidths(format[1..]);
      OffsetOfRest(format, |format|);
      ItemsOfCode(format[0], format[1..]);
      assert [format[0]] + format[1..] == format;
    }
  }

  /** Shifting a field to the front of what is left of the body. */
  lemma NextField(format: string, body: seq<byte>, e: seq<Value>, k: nat)
    requires 0 < k < |format| == |e| && |body| == Offset(format, |format|)
    requires var w := Width(format[0]);
             w <= |body| && |body[w..]| == Offset(format[1..], |format| - 1) && FieldHolds(format[1..], body[w..], e[1..], k - 1)
    ensures FieldHolds(format, body, e, k)
  {
    OffsetOfRest(format, k);
    hide Holds, Width;
    var w, o, v := Width(format[0]), Offset(format[1..], k - 1), Width(format[k]);
    assert body[w..][o..o + v] == body[w + o..w + o + v];
  }

  lemma FirstField(format: string, body: seq<byte>)
    requires OnlyCodes(format) && format != "" && |body| == Size(Items(format))
    ensures var w := Width(format[0]);
            && w <= |body| && |body[w..]| == Size(Items(format[1..])) && |Items(format)| == 1 + |Items(format[1..])|
            && UnpackAll(Items(format), body)[1..] == UnpackAll(Items(format[1..]), body[w..])
            && Holds(format[0], body[..w], UnpackAll(Items(format), body)[0])
  {
    hide ItemOf, Width, Holds, UnpackItem, IsCode;
    CodeHasWidth(format[0]);
    assert [format[0]] + format[1..] == format;
    ItemsOfCode(format[0], format[1..]);
    UnpackFirst(Items(format), body);
    hide Items, UnpackAll, Size;
    CodeMeans(format[0], body[..Width(format[0])]);
  }

  lemma {:induction false} FieldsMean(format: string, body: seq<byte>, k: nat)
    requires OnlyCodes(format) && |body| == Size(Items(format)) && k < |format|
    ensures |Items(format)| == |format| && |body| == Offset(format, |format|)
    ensures FieldHolds(format, body, UnpackAll(Items(format), body), k)
    decreases k
  {
    ItemsHaveWidths(format);
    FirstField(format, body);
    RestIsCodes(format);
    hide Items, UnpackAll, Size, Width, Holds, OnlyCodes;
    if k == 0 {
      assert body[0..Width(format[0])] == body[..Width(format[0])];
    } else {
      FieldsMean(format[1..], body[Width(format[0])..], k - 1);
      hide FieldHolds, Offset;
      NextField(format, body, UnpackAll(Items(format), body), k);
    }
  }

  lemma RestIsCodes(format: string)
    requires OnlyCodes(format) && format != ""
    ensures OnlyCodes(format[1..])
  {
    assert forall k | 0 <= k < |format| - 1 :: format[1..][k] == format[k + 1];
  }

  /** A record of format f begins at h, and these are the values of its fields. */
  ghost predicate RecordHolds(data: seq<byte>, h: int, f: Format, e: seq<Value>) {
    && 0 <= h && h + 3 <= |data| && h + f.len <= |data| && data[h] == 0xA3 && data[h + 1] == 0x95
    && (OnlyCodes(f.format) ==>
          && |e| == |f.format| && Offset(f.format, |f.format|) == (if f.len > 3 then f.len - 3 else 0)
          && FieldsHold(f.format, if f.len > 3 then data[h + 3..h + f.len] else [], e))
  }

  lemma RecordMeans(data: seq<byte>, h: nat, known: Known)
    requires HeaderAt(data, h) && data[h + 2] as int in known.formats && Cached(known)
    ensures var r, f := ParseRecord(data, h, known), known.formats[data[h + 2] as int];
            if r.Again? then r.known.formats == known.formats && Cached(r.known)
            else r.parsed.msg.Some? ==>
                   && r.parsed.msg.value.fmt == f && r.parsed.offset == h + f.len
                   && RecordHolds(data, h, f, r.parsed.msg.value.elements)
  {
    hide RecordHolds;
    MessageOfRecord(data, h, known);
    var f := known.formats[data[h + 2] as int];
    var raw := Unpack(Raw(Items(f.format)), Slice(data, h + 3, h + f.len));
    hide Items, Unpack, Transformed, Raw, Slice, ParseRecord;
    if raw.Some? && h + f.len <= |data| { RecordInData(data, h, f, Slice(data, h + 3, h + f.len), raw.value); }
  }

  /** How a message comes about. */
  lemma MessageOfRecord(data: seq<byte>, h: nat, known: Known)
    requires |data| - h >= 3 && data[h + 2] as int in known.formats && Cached(known)
    ensures var r, f := ParseRecord(data, h, known), known.formats[data[h + 2] as int];
            var raw := Unpack(Raw(Items(f.format)), Slice(data, h + 3, h + f.len));
            if r.Again? then r.known.formats == known.formats && Cached(r.known)
            else r.parsed.msg.Some? ==>
                   && raw.Some? && h + f.len <= |data| && r.parsed.offset == h + f.len
                   && r.parsed.msg == Some(Message(f, Transformed(Items(f.format), raw.value)))
  {
    hide Items, Unpack, Transformed, FormatOfElements, KeepInstance, FmtuRaises, Raw, Slice;
  }

  lemma AllFieldsMean(format: string, body: seq<byte>)
    requires OnlyCodes(format) && |body| == Size(Items(format))
    ensures |Items(format)| == |format| && |body| == Offset(format, |format|)
    ensures FieldsHold(format, body, UnpackAll(Items(format), body))
  {
    ItemsHaveWidths(format);
    hide *;
    FieldsHoldEach(format, body, UnpackAll(Items(format), body));
  }

  lemma FieldsHoldEach(format: string, body: seq<byte>, e: seq<Value>)
    requires OnlyCodes(format) && |body| == Size(Items(format)) == Offset(format, |format|)
    requires |format| == |Items(format)| && e == UnpackAll(Items(format), body)
    ensures FieldsHold(format, body, e)
  {
    hide UnpackAll, Items, Size, FieldHolds, OnlyCodes, Offset;
    forall k | 0 <= k < |format|
      ensures FieldHolds(format, body, e, k)
    {
      FieldsMean(format, body, k);
    }
  }

  lemma RecordInData(data: seq<byte>, h: nat, f: Format, body: seq<byte>, raw: seq<Value>)
    requires HeaderAt(data, h) && h + f.len <= |data| && body == Slice(data, h + 3, h + f.len)
    requires Unpack(Raw(Items(f.format)), body) == Some(raw)
    ensures RecordHolds(data, h, f, Transformed(Items(f.format), raw))
  {
    hide Items, Unpack, Transformed, Raw, FieldsHold, Offset, OnlyCodes, Slice;
    SliceInside(data, h + 3, h + f.len);
    if OnlyCodes(f.format) { BodyMeans(f.format, body, raw); }
  }

  lemma SliceInside(data: seq<byte>, lo: nat, hi: nat)
    requires hi <= |data|
    ensures Slice(data, lo, hi) == if hi > lo then data[lo..hi] else []
  {}

  lemma BodyMeans(format: string, body: seq<byte>, raw: seq<Value>)
    requires Unpack(Raw(Items(format)), body) == Some(raw) && OnlyCodes(format)
    ensures var e := Transformed(Items(format), raw);
            |e| == |format| && |body| == Offset(format, |format|) && FieldsHold(format, body, e)
  {
    hide Size, UnpackAll, Items, Raw, Transformed, FieldsHold, Offset, OnlyCodes;
    RawSize(Items(format));
    UnpackTransforms(Items(format), body);
    AllFieldsMean(format, body);
  }

  /** A message, if there is one, is that of a record in the data: of a known type, in front of the place where the parser
      stops, and each of its values is what the bytes of its field stand for. */
  ghost predicate MessageHolds(data: seq<byte>, o: nat, formats: map<int, Format>, msg: Option<Message>, offset: nat) {
    msg.Some? ==>
      var f := msg.value.fmt;
      var h := offset - f.len;
      && o <= h && RecordHolds(data, h, f, msg.value.elements)
      && data[h + 2] as int in formats && f == formats[data[h + 2]]
  }

  /** So is every message the parser returns, from whatever bytes. */
  lemma {:induction false} MessageMeans(data: seq<byte>, o: nat, known: Known, depth: nat)
    requires Cached(known)
    ensures var p := Parse(data, o, known, depth); MessageHolds(data, o, known.formats, p.msg, p.offset)
    decreases |data| - o
  {
    hide ParseRecord, RecordHolds, Cached;
    var h := FindHeader(data, o, known.formats);
    hide FindHeader;
    if |data| - h >= 3 {
      RecordMeans(data, h, known);
      var r := ParseRecord(data, h, known);
      if r.Again? && depth > 0 { MessageMeans(data, h + 3, r.known, depth - 1); }
    }
  }

  // ---------------------------------------------------------------- FMT records

  lemma FmtOffsets()
    ensures OnlyCodes(FMT_CODES) && Size(Items(FMT_CODES)) == 86
    ensures Offset(FMT_CODES, 1) == 1 && Offset(FMT_CODES, 2) == 2 && Offset(FMT_CODES, 3) == 6 && Offset(FMT_CODES, 4) == 22
  {
    var f := FMT_CODES;
    ItemsOfFmt();
    hide Items, Size;
    assert |f| == 5 && f[0] == 'B' && f[1] == 'B' && f[2] == 'n' && f[3] == 'N' && f[4] == 'Z';
    assert Offset(f, 0) == 0;
    assert Offset(f, 1) == 1;
    assert Offset(f, 2) == 2;
    assert Offset(f, 3) == 6;
  }

  /** The fields of a FMT record: type, length, and three texts. */
  lemma FmtFields(body: seq<byte>)
    requires |body| == 86
    ensures Size(Items(FMT_CODES)) == 86
    ensures UnpackAll(Items(FMT_CODES), body) ==
            [Int(body[0]), Int(body[1]), Str(body[2..6]), Str(body[6..22]), Str(body[22..86])]
  {
    FmtOffsets();
    hide Items, Size, UnpackAll, OnlyCodes, Offset;
    FieldsMean(FMT_CODES, body, 0);
    FieldsMean(FMT_CODES, body, 1);
    FieldsMean(FMT_CODES, body, 2);
    FieldsMean(FMT_CODES, body, 3);
    FieldsMean(FMT_CODES, body, 4);
    OffsetOfNone(FMT_CODES);
  }

  lemma OffsetOfNone(format: string)
    ensures Offset(format, 0) == 0
  {}

  lemma NullTermTwice(s: string)
    ensures NullTerm(NullTerm(s)) == NullTerm(s)
  {
    NullTermHasNoNul(s);
    NullTermIs(NullTerm(s), "");
    assert NullTerm(s) + "" == NullTerm(s);
  }

  lemma CodesAreSupported(format: string)
    ensures Supported(format) <==> OnlyCodes(format)
  {
    hide ItemOf, IsCode;
    forall c | c in format
      ensures ItemOf(c).Some? <==> IsCode(c)
    {
      CodeHasWidth(c);
    }
    assert OnlyCodes(format) <==> forall c <- format :: IsCode(c);
  }

  /** The format these fields announce. */
  lemma FormatOfFields(t: byte, l: byte, name: seq<byte>, format: seq<byte>, columns: seq<byte>)
    ensures OnlyCodes(TextOf(format)) ==>
              FormatOfElements([Int(t), Int(l), Str(name), Str(format), Str(columns)]) ==
              Some(Format(t, TextOf(name), l, TextOf(format), ColumnsOf(TextOf(columns))))
  {
    NullTermTwice(Decode(name));
    CodesAreSupported(TextOf(format));
    hide NullTerm, Supported, ColumnsOf, OnlyCodes;
  }

  /** A whole FMT record in the data. */
  lemma FmtParsed(data: seq<byte>, h: nat, known: Known, body: seq<byte>)
    requires h + 89 <= |data| && data[h + 2] == 0x80 && Slice(data, h + 3, h + 89) == body
    requires |body| == Size(Items(FMT_CODES))
    requires 0x80 in known.formats && known.formats[0x80] == FMT && Cached(known)
    ensures ParseRecord(data, h, known) ==
            Conclude(FMT, UnpackAll(Items(FMT_CODES), body), h, known.(unpackers := known.unpackers[0x80 := FMT_CODES]))
  {
    FmtOffsets();
    hide UnpackAll, Items, Slice, Conclude, Transformed, Raw, Size;
    RawSize(Items(FMT_CODES));
    UnpackTransforms(Items(FMT_CODES), body);
    if 0x80 in known.unpackers { assert known.unpackers[0x80 := FMT_CODES] == known.unpackers; }
  }

  /** Bytes 0xA3 0x95 0x80 and 86 more, read with tables that know FMT, define the type numbered by the next byte, with the
      length in the one after that, and with name, format and columns from fields of 4, 16 and 64 bytes; provided that
      each letter of the format is a code and that no column of that type is marked. */
  lemma FmtRecordMeans(data: seq<byte>, h: nat, known: Known, depth: nat)
    requires h + 89 <= |data| && data[h] == 0xA3 && data[h + 1] == 0x95 && data[h + 2] == 0x80
    requires 0x80 in known.formats && known.formats[0x80] == FMT && Cached(known)
    requires data[h + 3] as int !in known.notes.instances
    ensures var p, format := Parse(data, h, known, depth), TextOf(data[h + 9..h + 25]);
            OnlyCodes(format) ==>
              && p.msg.Some? && p.offset == h + 89
              && p.known.formats == known.formats[data[h + 3] as int :=
                   Format(data[h + 3], TextOf(data[h + 5..h + 9]), data[h + 4], format, ColumnsOf(TextOf(data[h + 25..h + 89])))]
  {
    hide Items, UnpackAll, OnlyCodes, TextOf, ColumnsOf, FmtuRaises, Cached, Slice, ParseRecord, FormatOfElements, Size, KeepInstance;
    var body := FmtBody(data, h);
    FmtFields(body);
    FmtParsed(data, h, known, body);
    FormatOfFields(body[0], body[1], body[2..6], body[6..22], body[22..86]);
    if OnlyCodes(TextOf(body[6..22])) {
      var e := UnpackAll(Items(FMT_CODES), body);
      FmtConcludes(e, FormatOfElements(e).value, h, known.(unpackers := known.unpackers[0x80 := FMT_CODES]));
      HeaderFound(data, h, known.formats);
      hide Conclude, FindHeader;
    }
  }

  lemma SliceOfSlice<T>(s: seq<T>, a: nat, b: nat, i: nat, j: nat)
    requires a + j <= b <= |s| && i <= j
    ensures s[a..b][i..j] == s[a + i..a + j]
  {
    var t := s[a..b];
    assert forall k | 0 <= k < j - i :: t[i..j][k] == t[i + k] == s[a + (i + k)];
  }

  lemma FmtBody(data: seq<byte>, h: nat) returns (body: seq<byte>)
    requires h + 89 <= |data|
    ensures |body| == 86 && Slice(data, h + 3, h + 89) == body && body[0] == data[h + 3] && body[1] == data[h + 4]
    ensures body[2..6] == data[h + 5..h + 9]
    ensures body[6..22] == data[h + 9..h + 25] && body[22..86] == data[h + 25..h + 89]
  {
    body := data[h + 3..h + 89];
    SliceOfSlice(data, h + 3, h + 89, 2, 6);
    SliceOfSlice(data, h + 3, h + 89, 6, 22);
    SliceOfSlice(data, h + 3, h + 89, 22, 86);
  }

  lemma HeaderFound(data: seq<byte>, h: nat, formats: map<int, Format>)
    requires h + 3 <= |data| && data[h] == 0xA3 && data[h + 1] == 0x95 && data[h + 2] as int in formats
    ensures FindHeader(data, h, formats) == h
  {}

  lemma FmtConcludes(e: seq<Value>, f: Format, h: nat, known: Known)
    requires FormatOfElements(e) == Some(f) && f.typ !in known.notes.instances
    ensures Conclude(FMT, e, h, known) ==
            Done(Parsed(Some(Message(FMT, e)), h + 89, known.(formats := known.formats[f.typ := f]), false))
  {
    hide FormatOfElements, FmtuRaises;
    assert |"FMT"| == 3 && |"FMTU"| == 4;
  }

  // ---------------------------------------------------------------- structs that do not fit

  /** A record that the end of the data cuts off ends reading. A record whose length does not go with its format ends it if
      fewer than 528 bytes follow its header; otherwise the parser starts over behind the header. */
  lemma MisfitIsSkipped(data: seq<byte>, h: nat, known: Known)
    requires |data| - h >= 3 && data[h + 2] as int in known.formats && Cached(known)
    ensures var f, r := known.formats[data[h + 2] as int], ParseRecord(data, h, known);
            |data| - h < f.len ==> r == Done(Parsed(None, h + 3, known, false))
    ensures var f, r := known.formats[data[h + 2] as int], ParseRecord(data, h, known);
            OnlyCodes(f.format) && 3 < f.len <= |data| - h && Offset(f.format, |f.format|) != f.len - 3 ==>
              if |data| - h < 531 then r.Done? && r.parsed.msg == None && r.parsed.offset == h + 3 && !r.parsed.raised
              else r.Again?
  {
    var f := known.formats[data[h + 2] as int];
    hide Items, Size, Slice, Raw, Conclude;
    if OnlyCodes(f.format) && 3 < f.len <= |data| - h {
      ItemsHaveWidths(f.format);
      RawSize(Items(f.format));
      SliceInside(data, h + 3, h + f.len);
    }
  }

  // ---------------------------------------------------------------- instance columns

  /** Codes that mean the same to struct in native mode. */
  predicate IsNative(c: char) {
    || c == 'b' || c == 'B' || c == 'h' || c == 'H' || c == 'i' || c == 'I'
    || c == 'q' || c == 'Q' || c == 'f' || c == 'd'
  }

  /** Codes that struct does not know. */
  predicate IsForeign(c: char) {
    c == 'a' || c == 'g' || c == 'C' || c == 'E' || c == 'Z' || c == 'M'
  }

  /** What native mode aligns a field of this code to: numbers to their size, text to nothing. */
  function Alignment(c: char): nat {
    if IsSigned(c) || IsUnsigned(c) || IsFloat(c) then Width(c) else 1
  }

  /** Each of the first p fields begins where native mode puts it. */
  ghost predicate IsPacked(format: string, p: nat)
    requires p <= |format|
  {
    forall k | 0 <= k < p :: Alignment(format[k]) > 0 && Offset(format, k) % Alignment(format[k]) == 0
  }

  lemma FrontIsCodes(format: string, p: nat)
    requires OnlyCodes(format) && p <= |format|
    ensures OnlyCodes(format[..p])
  {
    hide IsCode;
  }

  lemma NextItem(format: string, p: nat)
    requires OnlyCodes(format) && p < |format|
    ensures ItemOf(format[p]).Some? && Items(format[..p + 1]) == Items(format[..p]) + [ItemOf(format[p]).value]
  {
    CodeHasWidth(format[p]);
    assert format[..p + 1] == format[..p] + [format[p]];
    FrontIsCodes(format, p);
    hide OnlyCodes, IsCode, ItemOf;
    ItemsOfMore(format[..p], format[p]);
  }

  lemma {:induction false} ItemsOfMore(format: string, c: char)
    requires OnlyCodes(format) && ItemOf(c).Some?
    ensures Items(format + [c]) == Items(format) + [ItemOf(c).value]
  {
    hide ItemOf, Items, IsCode;
    ItemsOfCode(c, "");
    if format == "" {
      assert "" + [c] == [c] && [c] + "" == [c];
    } else {
      RestIsCodes(format);
      CodeHasWidth(format[0]);
      ItemsOfMore(format[1..], c);
      ItemsOfCode(format[0], format[1..]);
      ItemsOfCode(format[0], format[1..] + [c]);
      assert [format[0]] + format[1..] == format;
      assert [format[0]] + (format[1..] + [c]) == format + [c];
    }
  }

  /** The next multiple of a. */
  function NextMultiple(n: nat, a: nat): nat
    requires a > 0
  {
    (n + a - 1) / a * a
  }

  lemma SmallMultiple(k: int, a: int)
    requires -a < k * a < a
    ensures k == 0
  {
    MultipleGrows(k, a);
    MultipleGrows(-k, a);
  }

  lemma MultipleGrows(k: int, a: int)
    ensures k >= 1 && a >= 0 ==> k * a >= a
    ensures -k * a == -(k * a)
  {
    assert k * a == (k - 1) * a + a;
  }

  lemma Divided(x: nat, a: nat, m: nat, r: nat)
    requires r < a && x == m * a + r
    ensures x / a == m && x % a == r
  {
    var d := x / a - m;
    assert d * a == x / a * a - m * a;
    assert x == x / a * a + x % a;
    SmallMultiple(d, a);
  }

  lemma RoundUp(n: nat, a: nat)
    requires a > 0
    ensures NextMultiple(n, a) >= n && (NextMultiple(n, a) == n <==> n % a == 0)
  {
    var x := n + a - 1;
    var q := x / a;
    assert x == q * a + x % a;
    if n % a == 0 {
      var m := n / a;
      assert n == m * a;
      Divided(x, a, m, a - 1);
    } else if q * a == n {
      Divided(n, a, q, 0);
    }
  }

  lemma ItemAlignment(c: char)
    requires IsCode(c)
    ensures ItemOf(c).Some? && DataFlashUnits.Alignment(ItemOf(c).value) == Alignment(c) > 0
    ensures ItemOf(c).value.Size() == Width(c)
  {}

  /** Native mode puts a field where it is, or behind that; where it is exactly if all fields before it and itself are
      aligned. */
  lemma NativeEndOfMore(items: seq<Item>, item: Item)
    ensures NativeEnd(items + [item]) == NextMultiple(NativeEnd(items), DataFlashUnits.Alignment(item)) + item.Size()
  {
    hide DataFlashUnits.Alignment;
    assert (items + [item])[..|items|] == items;
  }

  lemma {:induction false} NativeOffset(format: string, p: nat)
    requires OnlyCodes(format) && p <= |format|
    ensures NativeEnd(Items(format[..p])) >= Offset(format, p)
    ensures NativeEnd(Items(format[..p])) == Offset(format, p) <==> IsPacked(format, p)
  {
    hide Items, Alignment, DataFlashUnits.Alignment, ItemOf, Width, OnlyCodes, NextMultiple, IsCode;
    if p == 0 {
      assert format[..0] == "";
      NothingIsPacked(format);
    } else {
      NativeOffset(format, p - 1);
      NextItem(format, p - 1);
      CodeAt(format, p - 1);
      ItemAlignment(format[p - 1]);
      var items := Items(format[..p - 1]);
      NativeEndOfMore(items, ItemOf(format[p - 1]).value);
      RoundUp(NativeEnd(items), Alignment(format[p - 1]));
      OneMorePacked(format, p);
      RoundsUp(NativeEnd(items), Offset(format, p - 1), Alignment(format[p - 1]));
      hide NativeEnd, IsPacked;
    }
  }

  lemma NothingIsPacked(format: string)
    ensures NativeEnd(Items("")) == 0 && Offset(format, 0) == 0 && IsPacked(format, 0)
  {}

  lemma CodeAt(format: string, k: nat)
    requires OnlyCodes(format) && k < |format|
    ensures IsCode(format[k])
  {}

  lemma OneMorePacked(format: string, p: nat)
    requires 0 < p <= |format|
    ensures var a := Alignment(format[p - 1]);
            IsPacked(format, p) <==> IsPacked(format, p - 1) && a > 0 && Offset(format, p - 1) % a == 0
  {
    hide Alignment, Offset;
  }

  /** Something behind stays behind. */
  lemma RoundsUp(n: nat, m: nat, a: nat)
    requires a > 0 && n >= m
    ensures NextMultiple(n, a) >= m && (NextMultiple(n, a) == m ==> n == m)
  {
    RoundUp(n, a);
    hide NextMultiple;
  }

  /** set_instance_field raises exactly for a place without a column or code and for codes that struct does not know; the
      bytes it takes are those of the field exactly if the code means the same in native mode and no field before it is
      unaligned; for c, e, n, N and L it takes the wrong number of bytes. */
  lemma InstanceIsField(f: Format, p: nat)
    requires OnlyCodes(f.format)
    ensures InstanceAt(f, p).None? <==> p >= |f.columns| || p >= |f.format| || IsForeign(f.format[p])
    ensures InstanceAt(f, p).Some? ==>
              var i, c := InstanceAt(f, p).value, f.format[p];
              && i.column == f.columns[p]
              && i.len == (if IsNative(c) then Width(c) else if c == 'c' then 1 else if c == 'e' then 2 else 8)
              && i.ofs >= Offset(f.format, p) && (i.ofs == Offset(f.format, p) <==> IsPacked(f.format, p))
              && (i.len == Width(c) <==> IsNative(c))
  {
    if p < |f.format| {
      CodeAt(f.format, p);
      NativeOffset(f.format, p);
      NativeSizes(f.format[p]);
      hide NativeEnd, Items, IsPacked, Offset, NativeSize, Width, IsCode, IsForeign, IsNative, OnlyCodes;
    }
  }

  lemma NativeSizes(c: char)
    requires IsCode(c)
    ensures NativeSize(c).None? <==> IsForeign(c)
    ensures NativeSize(c).Some? ==>
              && NativeSize(c).value == (if IsNative(c) then Width(c) else if c == 'c' then 1 else if c == 'e' then 2 else 8)
              && (NativeSize(c).value == Width(c) <==> IsNative(c))
  {}

  // ---------------------------------------------------------------- FMTU records

  /** Reading a FMTU record raises exactly if its format has fewer than three codes, or its first field is no integer or the
      number of a known type. */
  lemma FmtuRecordRaises(log: Log, n: nat, formats: map<int, Format>)
    requires WellFormed(log) && n < |log.entries| && FormatOf(log, n).name == "FMTU" && OnlyCodes(FormatOf(log, n).format)
    ensures |MessageAt(log, n).elements| == |FormatOf(log, n).format|
    ensures ReadingRaises(log, n, formats) <==>
              || |FormatOf(log, n).format| < 3
              || IntOf(MessageAt(log, n).elements[0]).None?
              || IntOf(MessageAt(log, n).elements[0]).value in formats
  {
    EntryFits(log, n);
    ItemsHaveWidths(FormatOf(log, n).format);
    hide WellFormed, GoodEntry, SoundEnv, RecordBytes, Items, Received, FormatOf, OnlyCodes, IntOf;
  }
}
