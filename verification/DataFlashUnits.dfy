/**
 What UNIT, MULT and FMTU records teach the reader besides formats: which columns have a
 unit, and which column of a type tells its instances apart. None stands for a Python
 exception, which none of these places catches.
 */
module DataFlashUnits {
  import opened Wrappers
  import opened DataFlashFormat

  // ---------------------------------------------------------------- int()

  function Pow2(n: nat): (p: int)
    ensures p > 0
  {
    if n == 0 then 1 else 2 * Pow2(n - 1)
  }

  /** int() of an IEEE 754 number, which cuts towards zero; None for infinities and NaN. */
  function Truncate(bits: nat, exponentBits: nat, fractionBits: nat): Option<int>
    requires exponentBits > 0
  {
    var significand := Pow2(fractionBits) + bits % Pow2(fractionBits);
    var exponent := bits / Pow2(fractionBits) % Pow2(exponentBits);
    var shift := exponent - (Pow2(exponentBits - 1) - 1) - fractionBits;
    if exponent == Pow2(exponentBits) - 1 then None
    else if exponent == 0 then Some(0)
    else
      var size := if shift >= 0 then significand * Pow2(shift) else significand / Pow2(-shift);
      Some(if bits / Pow2(fractionBits) / Pow2(exponentBits) % 2 == 1 then -size else size)
  }

  function FloatAsInt(bits: seq<byte>): Option<int> {
    match |bits|
    case 2 => Truncate(FromLittleEndian(bits), 5, 10)
    case 4 => Truncate(FromLittleEndian(bits), 8, 23)
    case 8 => Truncate(FromLittleEndian(bits), 11, 52)
    case _ => None
  }

  predicate Blank(c: char) {
    c == ' ' || '\t' <= c <= '\r'
  }

  function StripLeft(s: string): (t: string)
    ensures |t| <= |s|
  {
    if s != "" && Blank(s[0]) then StripLeft(s[1..]) else s
  }

  function StripRight(s: string): (t: string)
    ensures |t| <= |s|
  {
    if s != "" && Blank(s[|s| - 1]) then StripRight(s[..|s| - 1]) else s
  }

  /** Decimal digits, single underscores allowed between them. */
  function Digits(s: string): Option<int> {
    if s == "" || !('0' <= s[|s| - 1] <= '9') then None
    else
      var rest, digit := s[..|s| - 1], s[|s| - 1] as int - '0' as int;
      if rest == "" then Some(digit)
      else
        match Digits(if rest[|rest| - 1] == '_' then rest[..|rest| - 1] else rest)
        case Some(i) => Some(10 * i + digit)
        case None => None
  }

  function TextAsInt(s: string): Option<int> {
    var t := StripRight(StripLeft(s));
    if t != "" && t[0] == '-' then
      match Digits(t[1..])
      case Some(i) => Some(-i)
      case None => None
    else Digits(if t != "" && t[0] == '+' then t[1..] else t)
  }

  /** int() of an element; None where it raises. */
  function IntOf(v: Value): Option<int> {
    match v
    case Int(i) => Some(i)
    case Float(bits) => FloatAsInt(bits)
    case Str(bytes) => TextAsInt(Decode(bytes))
    case Shorts(_) => None
  }

  /** A number in decimal. */
  function Written(n: nat): (s: string)
    ensures s != "" && '0' <= s[|s| - 1] <= '9'
  {
    var digit := [('0' as int + n % 10) as char];
    if n < 10 then digit else Written(n / 10) + digit
  }

  lemma {:induction false} WrittenIsRead(n: nat)
    ensures Digits(Written(n)) == Some(n) && '0' <= Written(n)[0] <= '9'
  {
    var s := Written(n);
    if n < 10 {
      assert s[..|s| - 1] == "";
    } else {
      WrittenIsRead(n / 10);
      assert s[..|s| - 1] == Written(n / 10);
    }
  }

  /** A space, tab, line feed, vertical tab, form feed or carriage return. */
  predicate IsSpace(c: char) {
    c as int == 32 || c as int == 9 || c as int == 10 || c as int == 11 || c as int == 12 || c as int == 13
  }

  predicate AllBlank(s: string) {
    forall k | 0 <= k < |s| :: IsSpace(s[k])
  }

  lemma {:induction false} LeftStripped(blanks: string, s: string)
    requires AllBlank(blanks) && (s == "" || !Blank(s[0]))
    ensures StripLeft(blanks + s) == s
  {
    if blanks == "" {
      assert blanks + s == s;
    } else {
      LeftStripped(blanks[1..], s);
      assert (blanks + s)[1..] == blanks[1..] + s;
    }
  }

  lemma {:induction false} RightStripped(s: string, blanks: string)
    requires AllBlank(blanks) && (s == "" || !Blank(s[|s| - 1]))
    ensures StripRight(s + blanks) == s
  {
    if blanks == "" {
      assert s + blanks == s;
    } else {
      var n := |blanks| - 1;
      RightStripped(s, blanks[..n]);
      assert (s + blanks)[..|s| + n] == s + blanks[..n];
    }
  }

  /** A number in decimal, with a sign or none and blanks around it, is read as that number. */
  lemma IntegerTextIsRead(before: string, sign: string, n: nat, after: string)
    requires AllBlank(before) && AllBlank(after) && (sign == "" || sign == "+" || sign == "-")
    ensures var i: int := n;
            TextAsInt(before + ((sign + Written(n)) + after)) == Some(if sign == "-" then -i else i)
  {
    hide *;
    var t := sign + Written(n);
    WrittenIsRead(n);
    SignedText(sign, Written(n));
    Stripped(before, t, after);
    ReadStripped(before + (t + after), t, sign, Written(n));
  }

  lemma ReadStripped(s: string, t: string, sign: string, w: string)
    requires StripRight(StripLeft(s)) == t != ""
    requires (t[0] == '-' <==> sign == "-") && (t[0] == '+' <==> sign == "+") && (if sign == "" then t == w else t[1..] == w)
    requires sign == "" || sign == "+" || sign == "-"
    requires Digits(w).Some?
    ensures TextAsInt(s) == Some(if sign == "-" then -Digits(w).value else Digits(w).value)
  {
    hide Digits, StripLeft, StripRight;
  }

  lemma SignedText(sign: string, w: string)
    requires (sign == "" || sign == "+" || sign == "-") && w != "" && '0' <= w[0] <= '9' && '0' <= w[|w| - 1] <= '9'
    ensures var t := sign + w;
            && t != "" && !Blank(t[0]) && !Blank(t[|t| - 1])
            && (t[0] == '-' <==> sign == "-") && (t[0] == '+' <==> sign == "+")
            && (if sign == "" then t == w else t[1..] == w)
  {
    assert "" + w == w;
  }

  lemma Stripped(before: string, t: string, after: string)
    requires AllBlank(before) && AllBlank(after) && t != "" && !Blank(t[0]) && !Blank(t[|t| - 1])
    ensures StripRight(StripLeft(before + (t + after))) == t
  {
    assert (t + after)[0] == t[0];
    LeftStripped(before, t + after);
    RightStripped(t, after);
  }

  /** Nothing but digits and underscores is read as a number without a sign. */
  lemma {:induction false} OnlyDigitsAreRead(s: string, k: nat)
    requires Digits(s).Some? && k < |s|
    ensures '0' <= s[k] <= '9' || s[k] == '_'
  {
    var rest := s[..|s| - 1];
    if k < |rest| {
      if rest[|rest| - 1] == '_' {
        if k < |rest| - 1 { OnlyDigitsAreRead(rest[..|rest| - 1], k); }
      } else {
        OnlyDigitsAreRead(rest, k);
      }
    }
  }

  lemma {:induction false} LeftOf(s: string, k: nat)
    requires k < |s|
    ensures IsSpace(s[k]) || s[k] in StripLeft(s)
  {
    if s != "" && Blank(s[0]) && k > 0 { LeftOf(s[1..], k - 1); }
  }

  lemma {:induction false} RightOf(s: string, k: nat)
    requires k < |s|
    ensures IsSpace(s[k]) || s[k] in StripRight(s)
  {
    if s != "" && Blank(s[|s| - 1]) && k < |s| - 1 { RightOf(s[..|s| - 1], k); }
  }

  /** A text that is read as a number holds nothing but digits, underscores, signs and blanks. */
  lemma OnlyNumbersAreRead(s: string, k: nat)
    requires TextAsInt(s).Some? && k < |s|
    ensures '0' <= s[k] <= '9' || s[k] == '_' || s[k] == '+' || s[k] == '-' || IsSpace(s[k])
  {
    var u := StripLeft(s);
    var t := StripRight(u);
    LeftOf(s, k);
    hide StripLeft, StripRight, Digits;
    if !IsSpace(s[k]) {
      var j :| 0 <= j < |u| && u[j] == s[k];
      RightOf(u, j);
      var i :| 0 <= i < |t| && t[i] == s[k];
      var signed := t[0] == '-' || t[0] == '+';
      if signed && i > 0 {
        assert t[1..][i - 1] == s[k];
        OnlyDigitsAreRead(t[1..], i - 1);
      } else if !signed {
        OnlyDigitsAreRead(t, i);
      }
    }
  }

  /** The bits of the exponent and of the fraction in the three floating-point formats. */
  function ExponentBits(bytes: nat): nat {
    if bytes == 2 then 5 else if bytes == 4 then 8 else 11
  }

  function FractionBits(bytes: nat): nat {
    if bytes == 2 then 10 else if bytes == 4 then 23 else 52
  }

  lemma {:induction false} PowersAddUp(a: nat, b: nat)
    ensures Pow2(1) == 2 && Pow2(a + b) == Pow2(a) * Pow2(b)
  {
    if a > 0 {
      PowersAddUp(a - 1, b);
      var p, q := Pow2(a - 1), Pow2(b);
      assert 2 * (p * q) == (2 * p) * q;
    }
  }

  /** The ranges of exponent and fraction of the three formats. */
  lemma PowersOfTwo()
    ensures Pow2(4) == 16 && Pow2(7) == 128 && Pow2(10) == 1024
    ensures Pow2(5) == 32 && Pow2(8) == 256 && Pow2(11) == 2048
    ensures Pow2(23) == 0x80_0000 && Pow2(52) == 0x10_0000_0000_0000
  {
    PowersAddUp(13, 13);
    PowersAddUp(26, 26);
  }

  /** What a floating-point number stands for: infinity and NaN have no integer; otherwise the size of the integer is that
      of (2^f + fraction) * 2^shift without what is behind the point, with the sign of the top bit. */
  lemma TruncatesTowardsZero(b: seq<byte>)
    requires |b| == 2 || |b| == 4 || |b| == 8
    ensures var bits, e, f := FromLittleEndian(b), ExponentBits(|b|), FractionBits(|b|);
            var fraction, exponent := bits % Pow2(f), bits / Pow2(f) % Pow2(e);
            var shift := exponent - (Pow2(e - 1) - 1) - f;
            var i := IntOf(Float(b));
            && (i.None? <==> exponent == Pow2(e) - 1)
            && (i.Some? && exponent == 0 ==> i.value == 0)
            && (i.Some? && exponent > 0 ==> Truncates(i.value, Pow2(f) + fraction, shift, bits / Pow2(f) / Pow2(e) % 2 == 1))
  {
    hide Pow2, FromLittleEndian, Truncate, Truncates;
    TruncateIs(FromLittleEndian(b), ExponentBits(|b|), FractionBits(|b|));
  }

  /** i is significand * 2^shift without what is behind the point, and negative if so. */
  ghost predicate Truncates(i: int, significand: nat, shift: int, negative: bool) {
    var size := if i < 0 then -i else i;
    && (if shift >= 0 then size == significand * Pow2(shift)
        else size * Pow2(-shift) <= significand < (size + 1) * Pow2(-shift))
    && (if negative then i <= 0 else i >= 0)
  }

  lemma TruncateIs(bits: nat, e: nat, f: nat)
    requires e > 0
    ensures var fraction, exponent := bits % Pow2(f), bits / Pow2(f) % Pow2(e);
            var i := Truncate(bits, e, f);
            && (i.None? <==> exponent == Pow2(e) - 1)
            && (i.Some? && exponent == 0 ==> i.value == 0)
            && (i.Some? && exponent > 0 ==>
                  Truncates(i.value, Pow2(f) + fraction, exponent - (Pow2(e - 1) - 1) - f, bits / Pow2(f) / Pow2(e) % 2 == 1))
  {
    var significand := Pow2(f) + bits % Pow2(f);
    var exponent := bits / Pow2(f) % Pow2(e);
    var shift := exponent - (Pow2(e - 1) - 1) - f;
    if shift < 0 {
      Division(significand, Pow2(-shift));
    } else {
      Product(significand, Pow2(shift));
    }
    hide Pow2;
  }

  lemma Division(x: nat, y: int)
    requires y > 0
    ensures x / y >= 0 && x / y * y <= x < (x / y + 1) * y
  {
    assert x == x / y * y + x % y;
  }

  lemma Product(x: nat, y: nat)
    ensures x * y >= 0
  {}

  // ---------------------------------------------------------------- instance columns

  /** The column of a type that tells its instances apart, and where its value lies in the body, as set_instance_field
      computes it: without '<', so with native sizes and alignment. */
  datatype Instance = Instance(column: string, ofs: nat, len: nat)

  /** struct.calcsize of one code of a format string taken as struct's own; None where struct does not know it. */
  function NativeSize(code: char): Option<nat> {
    match code
    case 'b' => Some(1)
    case 'B' => Some(1)
    case 'c' => Some(1)
    case 'h' => Some(2)
    case 'H' => Some(2)
    case 'e' => Some(2)
    case 'i' => Some(4)
    case 'I' => Some(4)
    case 'f' => Some(4)
    case 'n' => Some(8)
    case 'N' => Some(8)
    case 'L' => Some(8)
    case 'd' => Some(8)
    case 'q' => Some(8)
    case 'Q' => Some(8)
    case _ => None
  }

  /** Text has no alignment; numbers are aligned to their size. */
  function Alignment(item: Item): (a: nat)
    ensures a > 0
  {
    match item
    case Integer(w, _) => if w > 0 then w else 1
    case Floating(w) => if w > 0 then w else 1
    case _ => 1
  }

  /** struct.calcsize of translated codes. */
  function NativeEnd(items: seq<Item>): nat {
    if items == [] then 0
    else
      var n := |items| - 1;
      var a := Alignment(items[n]);
      (NativeEnd(items[..n]) + a - 1) / a * a + items[n].Size()
  }

  /** colhash: where a column name stands last. */
  function ColumnIndex(columns: seq<string>, name: string): (i: Option<nat>)
    ensures i.Some? ==> i.value < |columns| && columns[i.value] == name
    ensures i.None? <==> name !in columns
  {
    if columns == [] then None
    else
      var n := |columns| - 1;
      if columns[n] == name then Some(n) else ColumnIndex(columns[..n], name)
  }

  /** A name leads to its last column. */
  lemma {:induction false} ColumnIndexIsLast(columns: seq<string>, name: string, k: nat)
    requires k < |columns| && columns[k] == name
    ensures ColumnIndex(columns, name).Some? && k <= ColumnIndex(columns, name).value
  {
    var n := |columns| - 1;
    if k < n { ColumnIndexIsLast(columns[..n], name, k); }
  }

  /** set_instance_field */
  function InstanceAt(f: Format, p: nat): Option<Instance> {
    if p < |f.columns| && p < |f.format| then
      match NativeSize(f.format[p])
      case Some(len) => Some(Instance(f.columns[p], NativeEnd(Items(f.format[..p])), len))
      case None => None
    else None
  }

  /** The instance columns and, column by column, whether there is a unit, for each type; and the unit letters that
      stand for a non-empty text. */
  datatype Notes = Notes(instances: map<int, Instance>, units: map<int, seq<bool>>, lookup: set<int>)

  const NO_NOTES: Notes := Notes(map[], map[], {})

  /** Building a format anew over an old one of its type: units stay, the instance column is looked up again. */
  function KeepInstance(f: Format, notes: Notes): Option<Notes> {
    if f.typ !in notes.instances then Some(notes)
    else
      match ColumnIndex(f.columns, notes.instances[f.typ].column)
      case None => None
      case Some(p) =>
        match InstanceAt(f, p)
        case None => None
        case Some(i) => Some(notes.(instances := notes.instances[f.typ := i]))
  }

  // ---------------------------------------------------------------- the three records

  predicate IsLetter(v: Value) {
    v.Int? && 0 <= v.i <= 0x10FFFF
  }

  function TextOf(bytes: seq<byte>): string {
    NullTerm(Decode(bytes))
  }

  /** A UNIT record in the index pass. */
  function NoteUnit(e: seq<Value>, notes: Notes): Option<Notes> {
    if |e| >= 3 && IsLetter(e[1]) && e[2].Str? then
      Some(notes.(lookup := if TextOf(e[2].bytes) == "" then notes.lookup - {e[1].i} else notes.lookup + {e[1].i}))
    else None
  }

  /** A MULT record in the index pass; which multiplier it gives plays no part here. */
  function NoteMult(e: seq<Value>, notes: Notes): Option<Notes> {
    if |e| >= 3 && IsLetter(e[1]) && (e[2].Int? || e[2].Float?) then Some(notes) else None
  }

  /** s.find('#') */
  function HashAt(s: string): (p: Option<nat>)
    ensures p.Some? <==> '#' in s
    ensures p.Some? ==> p.value < |s| && s[p.value] == '#' && forall k | 0 <= k < p.value :: s[k] != '#'
  {
    if s == "" then None
    else if s[0] == '#' then Some(0)
    else
      match HashAt(s[1..])
      case Some(p) => Some(p + 1)
      case None => None
  }

  /** Which of n columns have a unit. */
  function Marks(n: nat, ids: string, lookup: set<int>): (marks: seq<bool>)
    ensures |marks| == n && forall i | 0 <= i < n :: marks[i] <==> i < |ids| && ids[i] as int in lookup
  {
    seq(n, i requires 0 <= i < n => i < |ids| && ids[i] as int in lookup)
  }

  /** set_unit_ids */
  function SetUnitIds(f: Format, ids: string, notes: Notes): Option<Notes> {
    var units := Marks(|f.columns|, ids, notes.lookup);
    match HashAt(ids)
    case None => Some(notes.(units := notes.units[f.typ := units]))
    case Some(p) =>
      match InstanceAt(f, p)
      case None => None
      case Some(i) => Some(notes.(instances := notes.instances[f.typ := i], units := notes.units[f.typ := units]))
  }

  /** Codes with a multiplier of their own. */
  predicate Multiplied(code: char) {
    code in "cCeEL"
  }

  /** set_mult_ids does not raise at column i. */
  predicate MultFits(f: Format, mults: string, units: seq<bool>, i: nat)
    requires i < |units|
  {
    i < |f.format| && (Multiplied(f.format[i]) || !units[i] || i < |mults|)
  }

  /** set_mult_ids ends normally. */
  predicate MultIdsFit(f: Format, mults: string, notes: Notes) {
    f.typ in notes.units && forall i | 0 <= i < |notes.units[f.typ]| :: MultFits(f, mults, notes.units[f.typ], i)
  }

  /** An element given to null_term in the index pass. */
  function ColumnText(e: seq<Value>, i: nat): Option<string> {
    if i < |e| && e[i].Str? then Some(TextOf(e[i].bytes)) else None
  }

  function NoteUnitIds(f: Format, e: seq<Value>, f2: Format, notes: Notes): Option<Notes> {
    match ColumnIndex(f.columns, "UnitIds")
    case None => Some(notes)
    case Some(i) =>
      match ColumnText(e, i)
      case None => None
      case Some(ids) => SetUnitIds(f2, ids, notes)
  }

  function NoteMultIds(f: Format, e: seq<Value>, f2: Format, notes: Notes): Option<Notes> {
    match ColumnIndex(f.columns, "MultIds")
    case None => Some(notes)
    case Some(i) =>
      match ColumnText(e, i)
      case None => None
      case Some(mults) => if MultIdsFit(f2, mults, notes) then Some(notes) else None
  }

  /** A FMTU record in the index pass, which takes the type it is about from its second field. */
  function NoteFmtu(f: Format, e: seq<Value>, formats: map<int, Format>, notes: Notes): Option<Notes> {
    if |e| < 2 then None
    else
      match IntOf(e[1])
      case None => None
      case Some(t) =>
        if t !in formats then Some(notes)
        else
          match NoteUnitIds(f, e, formats[t], notes)
          case None => None
          case Some(notes') => NoteMultIds(f, e, formats[t], notes')
  }

  /** What the index pass notes of a record whose type goes by this name. */
  function Note(name: string, f: Format, e: seq<Value>, formats: map<int, Format>, notes: Notes): Option<Notes> {
    if name == "FMTU" then NoteFmtu(f, e, formats, notes)
    else if name == "UNIT" then NoteUnit(e, notes)
    else if name == "MULT" then NoteMult(e, notes)
    else Some(notes)
  }

  /** A FMTU record in _parse_next, which takes the type it is about from its first field. If that is a known type,
      the search for '#' in the second field raises, since that field is bytes or no string at all. */
  predicate FmtuRaises(e: seq<Value>, formats: map<int, Format>) {
    |e| < 3 || IntOf(e[0]).None? || IntOf(e[0]).value in formats
  }

  // ---------------------------------------------------------------- formats that may be announced again

  /** The same types have the same column marked. */
  ghost predicate SameMarks(a: Notes, b: Notes) {
    a.instances.Keys == b.instances.Keys && forall t <- a.instances :: a.instances[t].column == b.instances[t].column
  }

  /** Whether a format can be built over an old one depends on the marks only, and building it leaves the marks. */
  lemma KeepByMarks(f: Format, a: Notes, b: Notes)
    requires SameMarks(a, b)
    ensures KeepInstance(f, a).Some? <==> KeepInstance(f, b).Some?
    ensures KeepInstance(f, a).Some? ==> SameMarks(KeepInstance(f, a).value, b)
  {}

  /** Announcing a format twice in a row is announcing it once. */
  lemma KeepTwice(f: Format, notes: Notes)
    requires KeepInstance(f, notes).Some?
    ensures var kept := KeepInstance(f, notes).value;
            KeepInstance(f, kept) == Some(kept)
  {
    if f.typ in notes.instances {
      var i := KeepInstance(f, notes).value.instances;
      assert i[f.typ := i[f.typ]] == i;
    }
  }

  /** An instance column is the last of its name, where building the format anew looks for it. */
  predicate Found(f: Format, i: Instance) {
    match ColumnIndex(f.columns, i.column)
    case None => false
    case Some(p) => InstanceAt(f, p) == Some(i)
  }

  /** Announcing a known format once more gives its instance column back. */
  ghost predicate Settled(formats: map<int, Format>, notes: Notes) {
    forall t <- notes.instances :: t in formats && formats[t].typ == t && Found(formats[t], notes.instances[t])
  }

  lemma FoundIsKept(f: Format, notes: Notes)
    requires f.typ in notes.instances ==> Found(f, notes.instances[f.typ])
    ensures KeepInstance(f, notes) == Some(notes)
  {
    if f.typ in notes.instances {
      assert notes.instances[f.typ := notes.instances[f.typ]] == notes.instances;
    }
  }

  ghost predicate DistinctColumns(f: Format) {
    forall i, j | 0 <= i < j < |f.columns| :: f.columns[i] != f.columns[j]
  }

  /** Every format has its type as key and names no two columns alike. */
  ghost predicate AllDistinct(formats: map<int, Format>) {
    forall t <- formats :: formats[t].typ == t && DistinctColumns(formats[t])
  }

  lemma MarkIsFound(f: Format, p: nat)
    requires DistinctColumns(f) && InstanceAt(f, p).Some?
    ensures Found(f, InstanceAt(f, p).value)
  {}

  lemma UnitIdsKeepSettled(f: Format, ids: string, formats: map<int, Format>, notes: Notes)
    requires Settled(formats, notes) && AllDistinct(formats) && f.typ in formats && formats[f.typ] == f
    requires SetUnitIds(f, ids, notes).Some?
    ensures Settled(formats, SetUnitIds(f, ids, notes).value)
  {
    hide Found, InstanceAt, DistinctColumns;
    if HashAt(ids).Some? { MarkIsFound(f, HashAt(ids).value); }
  }

  /** If no type names two of its columns alike, what records note stays settled. */
  lemma NoteKeepsSettled(name: string, f: Format, e: seq<Value>, formats: map<int, Format>, notes: Notes)
    requires Settled(formats, notes) && AllDistinct(formats)
    requires Note(name, f, e, formats, notes).Some?
    ensures Settled(formats, Note(name, f, e, formats, notes).value)
  {
    hide Settled, DistinctColumns, IntOf, TextOf, SetUnitIds;
    if name == "FMTU" && IntOf(e[1]).value in formats {
      var f2, i := formats[IntOf(e[1]).value], ColumnIndex(f.columns, "UnitIds");
      if i.Some? { UnitIdsKeepSettled(f2, ColumnText(e, i.value).value, formats, notes); }
    } else {
      SettledByInstances(formats, notes, Note(name, f, e, formats, notes).value);
    }
  }

  lemma SettledByInstances(formats: map<int, Format>, a: Notes, b: Notes)
    requires a.instances == b.instances
    ensures Settled(formats, a) == Settled(formats, b)
  {}

  /** More formats do not unsettle anything. */
  lemma SettledGrows(formats: map<int, Format>, more: map<int, Format>, notes: Notes)
    requires Settled(formats, notes) && forall t <- formats :: t in more && more[t] == formats[t]
    ensures Settled(more, notes)
  {
    hide Found;
  }
}
