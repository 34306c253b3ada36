/**
 Record formats of DataFlash logs: the struct codes a format string is made of, packing
 and unpacking of record bodies, and the FMT records by which a log describes its own
 record types.

 The two round trips: unpacking what was packed gives the values back (strings padded to
 their field), and reading an FMT record written for a format rebuilds that format
 exactly when its strings fit their fields and its columns can be told apart.
 */
module DataFlashFormat {
  import opened Wrappers

  type byte = x: int | 0 <= x < 256

  const HEAD1: byte := 0xA3
  const HEAD2: byte := 0x95
  const FMT_TYPE: byte := 0x80

  // ---------------------------------------------------------------- integers

  function Pow256(w: nat): (p: int)
    ensures p > 0
  {
    if w == 0 then 1 else 256 * Pow256(w - 1)
  }

  function LittleEndian(v: nat, w: nat): (b: seq<byte>)
    ensures |b| == w
  {
    if w == 0 then [] else [v % 256] + LittleEndian(v / 256, w - 1)
  }

  function FromLittleEndian(b: seq<byte>): (v: nat)
    ensures v < Pow256(|b|)
  {
    if b == [] then 0 else b[0] + 256 * FromLittleEndian(b[1..])
  }

  lemma {:induction false} IntegerRoundTrip(v: nat, w: nat)
    requires v < Pow256(w)
    ensures FromLittleEndian(LittleEndian(v, w)) == v
  {
    if w > 0 {
      IntegerRoundTrip(v / 256, w - 1);
      assert LittleEndian(v, w)[1..] == LittleEndian(v / 256, w - 1);
    }
  }

  lemma {:induction false} BytesRoundTrip(b: seq<byte>)
    ensures LittleEndian(FromLittleEndian(b), |b|) == b
  {
    if b != [] {
      BytesRoundTrip(b[1..]);
      var v := FromLittleEndian(b);
      assert v % 256 == b[0] && v / 256 == FromLittleEndian(b[1..]);
    }
  }

  // ---------------------------------------------------------------- fields

  /** One code of a format string, as struct sees it. Floating-point fields are kept as their bytes;
      the 64-byte field of code 'a' is turned into 32 signed 16-bit numbers after unpacking. */
  datatype Item =
    | Integer(width: nat, signed: bool)
    | Floating(width: nat)
    | Text(width: nat)
    | ShortArray
  {
    function Size(): nat {
      match this
      case Integer(w, _) => w
      case Floating(w) => w
      case Text(w) => w
      case ShortArray => 64
    }
  }

  datatype Value =
    | Int(i: int)
    | Float(bits: seq<byte>)
    | Str(bytes: seq<byte>)
    | Shorts(shorts: seq<int>)

  /** FORMAT_TO_STRUCT */
  function ItemOf(code: char): Option<Item> {
    match code
    case 'a' => Some(ShortArray)
    case 'b' => Some(Integer(1, true))
    case 'B' => Some(Integer(1, false))
    case 'g' => Some(Floating(2))
    case 'h' => Some(Integer(2, true))
    case 'H' => Some(Integer(2, false))
    case 'i' => Some(Integer(4, true))
    case 'I' => Some(Integer(4, false))
    case 'f' => Some(Floating(4))
    case 'n' => Some(Text(4))
    case 'N' => Some(Text(16))
    case 'Z' => Some(Text(64))
    case 'c' => Some(Integer(2, true))
    case 'C' => Some(Integer(2, false))
    case 'e' => Some(Integer(4, true))
    case 'E' => Some(Integer(4, false))
    case 'L' => Some(Integer(4, true))
    case 'd' => Some(Floating(8))
    case 'M' => Some(Integer(1, true))
    case 'q' => Some(Integer(8, true))
    case 'Q' => Some(Integer(8, false))
    case _ => None
  }

  /** struct's rule for fixed strings: cut, or padded with NUL. */
  function Fit(b: seq<byte>, w: nat): (f: seq<byte>)
    ensures |f| == w
  {
    if |b| >= w then b[..w] else b + seq(w - |b|, _ => 0)
  }

  predicate InRange(i: int, w: nat, signed: bool) {
    if signed then -Pow256(w) <= 2 * i < Pow256(w) else 0 <= i < Pow256(w)
  }

  function PackItem(item: Item, v: Value): (r: Option<seq<byte>>)
    ensures r.Some? ==> |r.value| == item.Size()
  {
    match (item, v)
    case (Integer(w, signed), Int(i)) =>
      if InRange(i, w, signed) then Some(LittleEndian(if i < 0 then i + Pow256(w) else i, w)) else None
    case (Floating(w), Float(bits)) => if |bits| == w then Some(bits) else None
    case (Text(w), Str(b)) => Some(Fit(b, w))
    case (ShortArray, Str(b)) => Some(Fit(b, 64))
    case _ => None
  }

  function Signed(v: nat, w: nat): int {
    if 2 * v < Pow256(w) then v else v - Pow256(w)
  }

  function ToShorts(b: seq<byte>): seq<int> {
    if |b| < 2 then [] else [Signed(FromLittleEndian(b[..2]), 2)] + ToShorts(b[2..])
  }

  function UnpackItem(item: Item, b: seq<byte>): Value
    requires |b| == item.Size()
  {
    match item
    case Integer(w, signed) => Int(if signed then Signed(FromLittleEndian(b), w) else FromLittleEndian(b))
    case Floating(_) => Float(b)
    case Text(_) => Str(b)
    case ShortArray => Shorts(ToShorts(b))
  }

  /** What struct itself makes of a field: an 'a' array is 64 bytes until it is transformed. */
  function RawItem(item: Item): Item {
    if item.ShortArray? then Text(64) else item
  }

  /** What a field holds after writing and reading it back. */
  function ReceivedItem(item: Item, v: Value): Value {
    match (item, v)
    case (Text(w), Str(b)) => Str(Fit(b, w))
    case (ShortArray, Str(b)) => Shorts(ToShorts(Fit(b, 64)))
    case _ => v
  }

  lemma ItemRoundTrip(item: Item, v: Value)
    requires PackItem(item, v).Some?
    ensures UnpackItem(item, PackItem(item, v).value) == ReceivedItem(item, v)
  {
    if item.Integer? {
      var w, i := item.width, v.i;
      IntegerRoundTrip(if i < 0 then i + Pow256(w) else i, w);
    }
  }

  /** Reading and writing back restores the bytes of every field but an 'a' array, which struct cannot pack. */
  lemma ItemBytesRoundTrip(item: Item, b: seq<byte>)
    requires |b| == item.Size()
    ensures PackItem(item, UnpackItem(item, b)) == if item.ShortArray? then None else Some(b)
  {
    if item.Integer? {
      BytesRoundTrip(b);
    }
    assert b[..|b|] == b;
  }

  // ---------------------------------------------------------------- bodies

  function Size(items: seq<Item>): nat {
    if items == [] then 0 else items[0].Size() + Size(items[1..])
  }

  /** struct.pack; None where it raises. */
  function Pack(items: seq<Item>, vs: seq<Value>): (r: Option<seq<byte>>)
    ensures r.Some? ==> |vs| == |items| && |r.value| == Size(items)
  {
    if items == [] then if vs == [] then Some([]) else None
    else if vs == [] then None
    else
      match (PackItem(items[0], vs[0]), Pack(items[1..], vs[1..]))
      case (Some(a), Some(b)) => Some(a + b)
      case _ => None
  }

  function UnpackAll(items: seq<Item>, body: seq<byte>): (vs: seq<Value>)
    requires |body| == Size(items)
    ensures |vs| == |items|
  {
    if items == [] then []
    else
      var n := items[0].Size();
      [UnpackItem(items[0], body[..n])] + UnpackAll(items[1..], body[n..])
  }

  /** struct.unpack followed by the array transformation; None where unpack raises. */
  function Unpack(items: seq<Item>, body: seq<byte>): Option<seq<Value>> {
    if |body| == Size(items) then Some(UnpackAll(items, body)) else None
  }

  function Received(items: seq<Item>, vs: seq<Value>): (r: seq<Value>)
    requires |vs| == |items|
    ensures |r| == |items|
  {
    if items == [] then [] else [ReceivedItem(items[0], vs[0])] + Received(items[1..], vs[1..])
  }

  /** Printer then parser: the values come back. */
  lemma {:induction false} PackUnpack(items: seq<Item>, vs: seq<Value>)
    requires Pack(items, vs).Some?
    ensures Unpack(items, Pack(items, vs).value) == Some(Received(items, vs))
  {
    if items != [] {
      var a, b := PackItem(items[0], vs[0]).value, Pack(items[1..], vs[1..]).value;
      assert (a + b)[..|a|] == a && (a + b)[|a|..] == b;
      ItemRoundTrip(items[0], vs[0]);
      PackUnpack(items[1..], vs[1..]);
    }
  }

  // ---------------------------------------------------------------- fields that come back

  lemma {:induction false} ReceivedAt(items: seq<Item>, vs: seq<Value>, k: nat)
    requires |items| == |vs| && k < |items|
    ensures Received(items, vs)[k] == ReceivedItem(items[k], vs[k])
  {
    hide ReceivedItem;
    if k > 0 { ReceivedAt(items[1..], vs[1..], k - 1); }
  }

  predicate AreShorts(s: seq<int>) {
    forall k | 0 <= k < |s| :: -32768 <= s[k] < 32768
  }

  /** tobytes of an array of 16-bit numbers. */
  function PackShorts(s: seq<int>): (b: seq<byte>)
    requires AreShorts(s)
    ensures |b| == 2 * |s|
  {
    if s == [] then [] else LittleEndian(if s[0] < 0 then s[0] + 65536 else s[0], 2) + PackShorts(s[1..])
  }

  /** The transformation of an 'a' field undoes tobytes. */
  lemma {:induction false} ShortsRoundTrip(s: seq<int>)
    requires AreShorts(s)
    ensures ToShorts(PackShorts(s)) == s
  {
    if s != [] {
      var v := if s[0] < 0 then s[0] + 65536 else s[0];
      assert Pow256(2) == 256 * Pow256(1) == 65536 by { assert Pow256(1) == 256 * Pow256(0); }
      IntegerRoundTrip(v, 2);
      ShortsRoundTrip(s[1..]);
      hide LittleEndian, FromLittleEndian, Pow256;
      var a, b := LittleEndian(v, 2), PackShorts(s[1..]);
      assert (a + b)[..2] == a && (a + b)[2..] == b;
    }
  }

  /** Numbers come back from a packed record as they were given. */
  lemma NumbersComeBack(items: seq<Item>, vs: seq<Value>, k: nat)
    requires Pack(items, vs).Some? && k < |items| && (items[k].Integer? || items[k].Floating?)
    ensures Unpack(items, Pack(items, vs).value).value[k] == vs[k]
  {
    PackUnpack(items, vs);
    ReceivedAt(items, vs, k);
  }

  /** A text comes back, as null_term reads the field, exactly when it fits and has no NUL. */
  lemma TextComesBack(items: seq<Item>, vs: seq<Value>, k: nat, s: string)
    requires Pack(items, vs).Some? && k < |items| && items[k].Text? && Ascii(s) && vs[k] == Str(Encode(s))
    ensures var read := Unpack(items, Pack(items, vs).value).value[k];
            read.Str? && (NullTerm(Decode(read.bytes)) == s <==> |s| <= items[k].width && '\0' !in s)
  {
    PackUnpack(items, vs);
    ReceivedAt(items, vs, k);
    FieldRoundTrip(s, items[k].width);
  }

  /** 32 numbers in range come back from an 'a' field. */
  lemma ShortsComeBack(items: seq<Item>, vs: seq<Value>, k: nat, s: seq<int>)
    requires Pack(items, vs).Some? && k < |items| && items[k].ShortArray?
    requires |s| == 32 && AreShorts(s) && vs[k] == Str(PackShorts(s))
    ensures Unpack(items, Pack(items, vs).value).value[k] == Shorts(s)
  {
    PackUnpack(items, vs);
    ReceivedAt(items, vs, k);
    ShortsRoundTrip(s);
    assert Fit(PackShorts(s), 64) == PackShorts(s);
  }

  // ---------------------------------------------------------------- struct's own view of a record

  function Raw(items: seq<Item>): (r: seq<Item>)
    ensures |r| == |items| && forall k | 0 <= k < |items| :: r[k] == RawItem(items[k])
  {
    seq(|items|, k requires 0 <= k < |items| => RawItem(items[k]))
  }

  /** _parse_next's transformation of unpacked elements: 64 bytes at an 'a' of the format become an array; any
      other element that cannot be made one stays. */
  function Transformed(items: seq<Item>, vs: seq<Value>): (r: seq<Value>)
    ensures |r| == |vs|
  {
    seq(|vs|, k requires 0 <= k < |vs| =>
      if k < |items| && items[k].ShortArray? && vs[k].Str? && |vs[k].bytes| % 2 == 0
      then Shorts(ToShorts(vs[k].bytes)) else vs[k])
  }

  lemma RawOfRest(items: seq<Item>)
    requires items != []
    ensures Raw(items)[0] == RawItem(items[0]) && Raw(items)[1..] == Raw(items[1..])
  {}

  lemma {:induction false} RawSize(items: seq<Item>)
    ensures Size(Raw(items)) == Size(items)
  {
    if items != [] {
      RawOfRest(items);
      RawSize(items[1..]);
    }
  }

  /** Packing is the same either way. */
  lemma {:induction false} RawPack(items: seq<Item>, vs: seq<Value>)
    ensures Pack(Raw(items), vs) == Pack(items, vs)
  {
    if items != [] {
      RawOfRest(items);
      if vs != [] {
        RawPack(items[1..], vs[1..]);
        assert PackItem(RawItem(items[0]), vs[0]) == PackItem(items[0], vs[0]);
        hide PackItem;
      }
    }
  }

  /** struct's unpacking followed by the transformation is Unpack. */
  lemma {:induction false} UnpackTransforms(items: seq<Item>, body: seq<byte>)
    requires |body| == Size(items)
    ensures Size(Raw(items)) == Size(items)
    ensures Transformed(items, UnpackAll(Raw(items), body)) == UnpackAll(items, body)
    decreases |items|
  {
    if items != [] {
      hide *;
      RawSize(items);
      RawOfRest(items);
      OneTransforms(items[0]);
      UnpackFirst(items, body);
      UnpackFirst(Raw(items), body);
      var n := items[0].Size();
      var v, vs := UnpackItem(RawItem(items[0]), body[..n]), UnpackAll(Raw(items[1..]), body[n..]);
      UnpackTransforms(items[1..], body[n..]);
      TransformedOfCons(items, v, vs);
    }
  }

  /** One field, unpacked by struct and then transformed. */
  lemma OneTransforms(item: Item)
    ensures RawItem(item).Size() == item.Size()
    ensures forall b: seq<byte> | |b| == item.Size() ::
              Transformed([item], [UnpackItem(RawItem(item), b)]) == [UnpackItem(item, b)]
  {
    hide ToShorts;
  }

  lemma TransformedOfCons(items: seq<Item>, v: Value, vs: seq<Value>)
    requires items != []
    ensures Transformed(items, [v] + vs) == Transformed([items[0]], [v]) + Transformed(items[1..], vs)
  {
    hide ToShorts;
  }

  /** Parser then printer: the bytes come back, unless the format has an 'a' field. */
  lemma {:induction false} UnpackPack(items: seq<Item>, body: seq<byte>)
    requires |body| == Size(items)
    ensures Pack(items, UnpackAll(items, body)) == if ShortArray in items then None else Some(body)
    decreases |items|
  {
    if items == [] {
      assert body == [];
    } else {
      hide *;
      UnpackFirst(items, body);
      var n := items[0].Size();
      UnpackPack(items[1..], body[n..]);
      UnpackPackFirst(items, body[..n], body[n..]);
      SplitAndJoin(body, n);
    }
  }

  lemma UnpackFirst(items: seq<Item>, body: seq<byte>)
    requires |body| == Size(items) && items != []
    ensures var n := items[0].Size();
            && n <= |body| && |body[n..]| == Size(items[1..])
            && UnpackAll(items, body) == [UnpackItem(items[0], body[..n])] + UnpackAll(items[1..], body[n..])
  {}

  lemma FirstOrRest<T>(x: T, s: seq<T>)
    requires s != []
    ensures x in s <==> s[0] == x || x in s[1..]
  {
    assert s == [s[0]] + s[1..];
  }

  lemma UnpackPackFirst(items: seq<Item>, a: seq<byte>, b: seq<byte>)
    requires items != [] && |a| == items[0].Size() && |b| == Size(items[1..])
    requires Pack(items[1..], UnpackAll(items[1..], b)) == if ShortArray in items[1..] then None else Some(b)
    ensures Pack(items, [UnpackItem(items[0], a)] + UnpackAll(items[1..], b)) ==
            if ShortArray in items then None else Some(a + b)
  {
    hide *;
    ItemBytesRoundTrip(items[0], a);
    PackBoth(items, UnpackItem(items[0], a), UnpackAll(items[1..], b), a, b);
  }

  lemma SplitAndJoin<T>(s: seq<T>, n: nat)
    requires n <= |s|
    ensures s[..n] + s[n..] == s
  {}

  lemma PackBoth(items: seq<Item>, v: Value, vs: seq<Value>, a: seq<byte>, b: seq<byte>)
    requires items != []
    requires PackItem(items[0], v) == if items[0].ShortArray? then None else Some(a)
    requires Pack(items[1..], vs) == if ShortArray in items[1..] then None else Some(b)
    ensures Pack(items, [v] + vs) == if ShortArray in items then None else Some(a + b)
  {
    assert ([v] + vs)[1..] == vs;
    FirstOrRest(ShortArray, items);
    hide PackItem;
  }

  // ---------------------------------------------------------------- strings

  /** Bytes as text. */
  function Decode(b: seq<byte>): (s: string)
    ensures |s| == |b|
  {
    seq(|b|, k requires 0 <= k < |b| => b[k] as char)
  }

  predicate Ascii(s: string) {
    forall c <- s :: c < 128 as char
  }

  function ByteOf(c: char): byte
    requires c < 128 as char
  {
    c as int
  }

  /** encode('ascii') */
  function Encode(s: string): (b: seq<byte>)
    requires Ascii(s)
    ensures |b| == |s|
  {
    seq(|s|, k requires 0 <= k < |s| => assert s[k] in s; ByteOf(s[k]))
  }

  /** null_term: the text before the first NUL. */
  function NullTerm(s: string): string {
    if s == "" || s[0] == '\0' then "" else [s[0]] + NullTerm(s[1..])
  }

  lemma {:induction false} NullTermIs(s: string, t: string)
    requires '\0' !in s && (t == "" || t[0] == '\0')
    ensures NullTerm(s + t) == s
  {
    if s == "" {
      assert s + t == t;
    } else {
      assert (s + t)[1..] == s[1..] + t;
      NullTermIs(s[1..], t);
    }
  }

  lemma {:induction false} NullTermHasNoNul(s: string)
    ensures '\0' !in NullTerm(s) && |NullTerm(s)| <= |s|
  {
    if s != "" && s[0] != '\0' { NullTermHasNoNul(s[1..]); }
  }

  /** A fixed string field of width w gives a text back exactly when it fits and has no NUL. */
  lemma FieldRoundTrip(s: string, w: nat)
    requires Ascii(s)
    ensures NullTerm(Decode(Fit(Encode(s), w))) == s <==> |s| <= w && '\0' !in s
  {
    var read := Decode(Fit(Encode(s), w));
    NullTermHasNoNul(read);
    if |s| <= w && '\0' !in s {
      assert read == s + read[|s|..];
      NullTermIs(s, read[|s|..]);
    }
  }

  /** s.split(',') */
  function Split(s: string): (parts: seq<string>)
    ensures |parts| > 0
  {
    if s == "" then [""]
    else
      var rest := Split(s[1..]);
      if s[0] == ',' then [""] + rest else [[s[0]] + rest[0]] + rest[1..]
  }

  /** ','.join(parts) */
  function Join(parts: seq<string>): string {
    if parts == [] then "" else if |parts| == 1 then parts[0] else parts[0] + "," + Join(parts[1..])
  }

  ghost predicate NoComma(parts: seq<string>) {
    forall p <- parts :: ',' !in p
  }

  lemma {:induction false} SplitHasNoComma(s: string)
    ensures NoComma(Split(s))
  {
    if s != "" { SplitHasNoComma(s[1..]); }
  }

  lemma {:induction false} JoinSplit(s: string)
    ensures Join(Split(s)) == s
  {
    if s != "" {
      var rest := Split(s[1..]);
      JoinSplit(s[1..]);
      if s[0] == ',' {
        assert ([""] + rest)[1..] == rest;
      } else {
        var parts := [[s[0]] + rest[0]] + rest[1..];
        assert parts[1..] == rest[1..];
      }
      assert s == [s[0]] + s[1..];
    }
  }

  lemma {:induction false} SplitOfPart(p: string, s: string)
    requires ',' !in p
    ensures Split(p + s) == [p + Split(s)[0]] + Split(s)[1..]
  {
    if p == "" {
      assert p + s == s;
      assert "" + Split(s)[0] == Split(s)[0];
      assert Split(s) == [Split(s)[0]] + Split(s)[1..];
    } else {
      assert (p + s)[1..] == p[1..] + s;
      SplitOfPart(p[1..], s);
      assert [p[0]] + (p[1..] + Split(s)[0]) == p + Split(s)[0];
    }
  }

  lemma {:induction false} SplitJoin(parts: seq<string>)
    requires parts != [] && NoComma(parts)
    ensures Split(Join(parts)) == parts
  {
    if |parts| == 1 {
      SplitOfPart(parts[0], "");
      assert parts[0] + "" == parts[0];
    } else {
      var rest := Join(parts[1..]);
      SplitJoin(parts[1..]);
      SplitOfPart(parts[0], "," + rest);
      assert ("," + rest)[1..] == rest;
      assert Split("," + rest) == [""] + parts[1..];
      assert parts[0] + "" == parts[0];
      assert parts[0] + "," + rest == parts[0] + ("," + rest);
    }
  }

  /** Column names as DFFormat keeps them: an empty list for an empty string. */
  function ColumnsOf(s: string): seq<string> {
    if Split(s) == [""] then [] else Split(s)
  }

  /** A column list survives joining and splitting exactly when no name has a comma and it is not one empty name. */
  lemma ColumnsRoundTrip(columns: seq<string>, s: string)
    ensures ColumnsOf(s) == columns <==> s == Join(columns) && NoComma(columns) && columns != [""]
  {
    SplitHasNoComma(s);
    JoinSplit(s);
    if NoComma(columns) && columns != [] { SplitJoin(columns); }
  }

  // ---------------------------------------------------------------- formats

  /** DFFormat, without units and instance information. */
  datatype Format = Format(typ: int, name: string, len: nat, format: string, columns: seq<string>)

  function Items(format: string): (items: seq<Item>)
    ensures |items| <= |format|
  {
    if format == "" then []
    else (match ItemOf(format[0]) case Some(i) => [i] case None => []) + Items(format[1..])
  }

  predicate Supported(format: string) {
    forall c <- format :: ItemOf(c).Some?
  }

  /** The constructor; None where it raises. */
  function MakeFormat(typ: int, name: string, len: int, format: string, columns: string): Option<Format> {
    if Supported(format) && len >= 0 then Some(Format(typ, NullTerm(name), len, format, ColumnsOf(columns)))
    else None
  }

  const FMT_CODES: string := "BBnNZ"
  const FMT: Format := Format(FMT_TYPE, "FMT", 89, FMT_CODES, ["Type", "Length", "Name", "Format", "Columns"])

  /** The format an FMT record announces; None where building it raises. */
  function FormatOfElements(e: seq<Value>): Option<Format> {
    if |e| >= 5 && e[0].Int? && e[1].Int? && e[2].Str? && e[3].Str? && e[4].Str? then
      MakeFormat(e[0].i, NullTerm(Decode(e[2].bytes)), e[1].i, NullTerm(Decode(e[3].bytes)), NullTerm(Decode(e[4].bytes)))
    else None
  }

  function Header(typ: byte): seq<byte> {
    [HEAD1, HEAD2, typ]
  }

  /** make_msgbuf; None where struct.pack raises. */
  function MakeMsgbuf(fmt: Format, values: seq<Value>): Option<seq<byte>> {
    match Pack(Items(fmt.format), values)
    case Some(body) => if 0 <= fmt.typ < 256 then Some(Header(fmt.typ) + body) else None
    case None => None
  }

  function FmtValues(fmt: Format): seq<Value>
    requires Ascii(fmt.name) && Ascii(fmt.format) && Ascii(Join(fmt.columns))
  {
    [Int(fmt.typ), Int(Size(Items(fmt.format)) + 3),
     Str(Encode(fmt.name)), Str(Encode(fmt.format)), Str(Encode(Join(fmt.columns)))]
  }

  /** make_format_msgbuf; None where encode or pack raises. */
  function MakeFormatMsgbuf(fmt: Format): Option<seq<byte>> {
    if Ascii(fmt.name) && Ascii(fmt.format) && Ascii(Join(fmt.columns)) then MakeMsgbuf(FMT, FmtValues(fmt)) else None
  }

  /** What the reader does with the body of an FMT record. */
  function ReadFormat(body: seq<byte>): Option<Format> {
    match Unpack(Items(FMT_CODES), body)
    case Some(e) => FormatOfElements(e)
    case None => None
  }

  const FMT_ITEMS: seq<Item> := [Integer(1, false), Integer(1, false), Text(4), Text(16), Text(64)]

  lemma ItemsOfFmt()
    ensures Items(FMT_CODES) == FMT_ITEMS && Size(FMT_ITEMS) == 86
  {
    ItemsOfCodes();
    hide Items;
    assert Size(FMT_ITEMS[4..]) == 64;
    assert Size(FMT_ITEMS[3..]) == 80;
    assert Size(FMT_ITEMS[2..]) == 84;
    assert Size(FMT_ITEMS[1..]) == 85;
  }

  lemma ItemsOfCodes()
    ensures Items(FMT_CODES) == FMT_ITEMS
  {
    ItemsOfCode('B', "BnNZ");
    ItemsOfCode('B', "nNZ");
    ItemsOfCode('n', "NZ");
    ItemsOfCode('N', "Z");
    ItemsOfCode('Z', "");
    hide Items;
  }

  lemma ItemsOfCode(c: char, codes: string)
    requires ItemOf(c).Some?
    ensures Items([c] + codes) == [ItemOf(c).value] + Items(codes)
    ensures Items("") == []
  {
    hide ItemOf;
    assert ([c] + codes)[1..] == codes;
  }

  /** Packing succeeds field by field. */
  lemma {:induction false} PackSucceeds(items: seq<Item>, vs: seq<Value>)
    requires |items| == |vs|
    ensures Pack(items, vs).Some? <==> forall k | 0 <= k < |items| :: PackItem(items[k], vs[k]).Some?
  {
    hide PackItem;
    if items != [] {
      PackSucceeds(items[1..], vs[1..]);
      assert (forall k | 0 <= k < |items| :: PackItem(items[k], vs[k]).Some?) ==>
             (forall k | 0 <= k < |items[1..]| :: PackItem(items[1..][k], vs[1..][k]) == PackItem(items[k + 1], vs[k + 1]));
      if Pack(items, vs).Some? {
        forall k | 0 <= k < |items|
          ensures PackItem(items[k], vs[k]).Some?
        {
          if k > 0 { assert PackItem(items[1..][k - 1], vs[1..][k - 1]).Some?; }
        }
      }
    }
  }

  lemma PackFmt(v: seq<Value>)
    requires |v| == 5 && v[0].Int? && v[1].Int? && v[2].Str? && v[3].Str? && v[4].Str?
    ensures Pack(FMT_ITEMS, v).Some? <==> 0 <= v[0].i < 256 && 0 <= v[1].i < 256
    ensures var r := Received(FMT_ITEMS, v);
            && r[0] == v[0] && r[1] == v[1] && r[2] == Str(Fit(v[2].bytes, 4))
            && r[3] == Str(Fit(v[3].bytes, 16)) && r[4] == Str(Fit(v[4].bytes, 64))
  {
    hide Pack, Received, Fit, LittleEndian;
    OneByte(v[0]);
    OneByte(v[1]);
    PackSucceeds(FMT_ITEMS, v);
    ReceivedAt(FMT_ITEMS, v, 0);
    ReceivedAt(FMT_ITEMS, v, 1);
    ReceivedAt(FMT_ITEMS, v, 2);
    ReceivedAt(FMT_ITEMS, v, 3);
    ReceivedAt(FMT_ITEMS, v, 4);
    assert PackItem(FMT_ITEMS[0], v[0]).Some? <==> 0 <= v[0].i < 256;
    assert PackItem(FMT_ITEMS[1], v[1]).Some? <==> 0 <= v[1].i < 256;
  }

  lemma OneByte(v: Value)
    requires v.Int?
    ensures PackItem(Integer(1, false), v).Some? <==> 0 <= v.i < 256
    ensures ReceivedItem(Integer(1, false), v) == v
  {
    assert Pow256(1) == 256 * Pow256(0);
  }

  /** make_format_msgbuf succeeds exactly for ASCII strings, a one-byte type and a record of at most 255 bytes. */
  lemma FormatIsWritable(fmt: Format)
    ensures MakeFormatMsgbuf(fmt).Some? <==>
              && Ascii(fmt.name) && Ascii(fmt.format) && Ascii(Join(fmt.columns))
              && 0 <= fmt.typ < 256 && Size(Items(fmt.format)) + 3 < 256
  {
    ItemsOfFmt();
    hide Items, Pack, Received, Fit, Join, Encode, Ascii;
    if Ascii(fmt.name) && Ascii(fmt.format) && Ascii(Join(fmt.columns)) {
      PackFmt(FmtValues(fmt));
    }
  }

  /** A string field as the reader sees it. */
  function ReadField(s: string, w: nat): string
    requires Ascii(s)
  {
    NullTerm(Decode(Fit(Encode(s), w)))
  }

  lemma ReadFieldKeepsSupported(s: string, w: nat)
    requires Ascii(s)
    ensures Supported(s) ==> Supported(ReadField(s, w))
    ensures NullTerm(ReadField(s, w)) == ReadField(s, w)
  {
    var read := Decode(Fit(Encode(s), w));
    NullTermIsPrefix(read);
    NullTermHasNoNul(read);
    assert NullTerm(read) + "" == NullTerm(read);
    NullTermIs(NullTerm(read), "");
    assert forall k | 0 <= k < |NullTerm(read)| && k < |s| :: NullTerm(read)[k] == s[k];
    assert forall k | |s| <= k < |read| :: read[k] == '\0';
    forall c | c in NullTerm(read)
      ensures c in s
    {
      var k :| 0 <= k < |NullTerm(read)| && NullTerm(read)[k] == c;
      assert k < |s|;
    }
  }

  lemma {:induction false} NullTermIsPrefix(s: string)
    ensures NullTerm(s) <= s
  {
    if s != "" && s[0] != '\0' {
      NullTermIsPrefix(s[1..]);
      assert s == [s[0]] + s[1..];
    }
  }

  /** The format a FMT record written for `fmt` announces. */
  function WrittenFormat(fmt: Format): Format
    requires Ascii(fmt.name) && Ascii(fmt.format) && Ascii(Join(fmt.columns))
  {
    Format(fmt.typ, ReadField(fmt.name, 4), Size(Items(fmt.format)) + 3, ReadField(fmt.format, 16),
           ColumnsOf(ReadField(Join(fmt.columns), 64)))
  }

  lemma ReadOfWritten(fmt: Format)
    requires Supported(fmt.format) && MakeFormatMsgbuf(fmt).Some?
    ensures ReadFormat(MakeFormatMsgbuf(fmt).value[3..]) ==
            Some(WrittenFormat(fmt))
  {
    var v := FmtValues(fmt);
    ItemsOfFmt();
    PackFmt(v);
    PackUnpack(FMT_ITEMS, v);
    assert MakeFormatMsgbuf(fmt).value[3..] == Pack(FMT_ITEMS, v).value;
    hide Pack, Received, Fit, Items;
    FormatOfWritten(fmt, Received(FMT_ITEMS, v));
  }

  lemma FormatOfWritten(fmt: Format, e: seq<Value>)
    requires Supported(fmt.format) && Ascii(fmt.name) && Ascii(fmt.format) && Ascii(Join(fmt.columns))
    requires var v := FmtValues(fmt);
             && |e| == 5 && e[0] == v[0] && e[1] == v[1] && e[2] == Str(Fit(v[2].bytes, 4))
             && e[3] == Str(Fit(v[3].bytes, 16)) && e[4] == Str(Fit(v[4].bytes, 64))
    ensures FormatOfElements(e) ==
            Some(WrittenFormat(fmt))
  {
    ReadFieldKeepsSupported(fmt.name, 4);
    ReadFieldKeepsSupported(fmt.format, 16);
    hide Items, Size, Join, Supported, Fit, Encode, Decode, NullTerm, ColumnsOf;
  }

  /** What reading a FMT record must rebuild: everything but the length, which is the one struct computes. */
  function WithStructLength(fmt: Format): Format {
    fmt.(len := Size(Items(fmt.format)) + 3)
  }

  /** Each string fits its field without NULs and the column names survive the comma list. */
  ghost predicate FitsFmt(fmt: Format) {
    && |fmt.name| <= 4 && '\0' !in fmt.name
    && |fmt.format| <= 16 && '\0' !in fmt.format
    && |Join(fmt.columns)| <= 64 && '\0' !in Join(fmt.columns)
    && NoComma(fmt.columns) && fmt.columns != [""]
  }

  /** Reading a written FMT record rebuilds type, name, format and columns exactly when they fit. */
  lemma FormatRoundTrip(fmt: Format)
    requires Supported(fmt.format) && MakeFormatMsgbuf(fmt).Some?
    ensures ReadFormat(MakeFormatMsgbuf(fmt).value[3..]) == Some(WithStructLength(fmt)) <==> FitsFmt(fmt)
  {
    hide Items, Size, Pack, NullTerm, Decode, Fit, Encode, Join, Split, Supported, ReadFormat;
    ReadOfWritten(fmt);
    FieldRoundTrip(fmt.name, 4);
    FieldRoundTrip(fmt.format, 16);
    FieldRoundTrip(Join(fmt.columns), 64);
    ColumnsRoundTrip(fmt.columns, ReadField(Join(fmt.columns), 64));
  }

  /** A format that does not come back: its only column has a comma in its name, and two columns are read. */
  lemma CommaColumnIsLost()
    ensures var fmt := Format(1, "A", 4, "B", ["a,b"]);
            && Supported(fmt.format) && MakeFormatMsgbuf(fmt).Some? && !FitsFmt(fmt)
            && ReadFormat(MakeFormatMsgbuf(fmt).value[3..]) != Some(WithStructLength(fmt))
  {
    var fmt := Format(1, "A", 4, "B", ["a,b"]);
    assert ',' in fmt.columns[0];
    assert Items("B") == [Integer(1, false)] + Items("");
    FormatIsWritable(fmt);
    FormatRoundTrip(fmt);
  }
}
