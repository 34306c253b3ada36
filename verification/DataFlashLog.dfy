/**
 What reading one message from a DataFlash log does (`Parse`), and what a well-formed log
 is: complete records, each announced by an FMT record before its first use, separated by
 noise that contains no header pair.

 The lemmas say where `Parse` stops and what it returns anywhere in a well-formed log.
 */
module DataFlashLog {
  import opened Wrappers
  import opened DataFlashFormat
  import opened DataFlashUnits

  datatype Message = Message(fmt: Format, elements: seq<Value>)

  // ---------------------------------------------------------------- reading one message

  /** The tables a parse uses: formats by type, the struct each type was first unpacked with, and what the formats
      carry besides. */
  datatype Known = Known(formats: map<int, Format>, unpackers: map<int, string>, notes: Notes)

  /** How a call ends; `raised` if with a Python exception. */
  datatype Parsed = Parsed(msg: Option<Message>, offset: nat, known: Known, raised: bool)

  predicate HeaderAt(data: seq<byte>, o: nat) {
    |data| - o >= 3 && data[o] == HEAD1 && data[o + 1] == HEAD2
  }

  /** The first header of a recognised type at or after `o`, or the place where fewer than three bytes are left. */
  function FindHeader(data: seq<byte>, o: nat, formats: map<int, Format>): (h: nat)
    ensures h >= o
    ensures |data| - h >= 3 ==> HeaderAt(data, h) && data[h + 2] as int in formats
    decreases |data| - o
  {
    if |data| - o < 3 then o
    else if HeaderAt(data, o) && data[o + 2] as int in formats then o
    else FindHeader(data, o + 1, formats)
  }

  /** No header of a recognised type lies before the one found, and none at all if it stops for want of bytes. */
  lemma {:induction false} FindHeaderIsFirst(data: seq<byte>, o: nat, formats: map<int, Format>, k: nat)
    requires o <= k < FindHeader(data, o, formats) && HeaderAt(data, k)
    ensures data[k + 2] as int !in formats
    decreases |data| - o
  {
    if o < k { FindHeaderIsFirst(data, o + 1, formats, k); }
  }

  /** Python's data[lo:hi]. */
  function Slice(data: seq<byte>, lo: nat, hi: int): seq<byte> {
    if lo >= |data| || hi <= lo then [] else if hi > |data| then data[lo..] else data[lo..hi]
  }

  /** A recognised header either ends the call or makes it start over behind the header. */
  datatype Attempt = Done(parsed: Parsed) | Again(known: Known)

  /** What a record teaches; None if the format it announces cannot be built. */
  function Teach(fmt: Format, elements: seq<Value>, known: Known): Option<Known> {
    if fmt.name != "FMT" then Some(known)
    else
      match FormatOfElements(elements)
      case None => None
      case Some(f) =>
        match KeepInstance(f, known.notes)
        case None => None
        case Some(notes) => Some(known.(formats := known.formats[f.typ := f], notes := notes))
  }

  /** The end of a call, once the record at h is unpacked. */
  function Conclude(fmt: Format, elements: seq<Value>, h: nat, known: Known): Attempt {
    match Teach(fmt, elements, known)
    case None => Again(known)
    case Some(taught) =>
      if fmt.name == "FMTU" && FmtuRaises(elements, taught.formats) then Done(Parsed(None, h + fmt.len, taught, true))
      else Done(Parsed(Some(Message(fmt, elements)), h + fmt.len, taught, false))
  }

  /** What happens at a header of a recognised type. */
  function ParseRecord(data: seq<byte>, h: nat, known: Known): Attempt
    requires |data| - h >= 3 && data[h + 2] as int in known.formats
  {
    var typ := data[h + 2] as int;
    var fmt := known.formats[typ];
    if |data| - (h + 3) < fmt.len - 3 then Done(Parsed(None, h + 3, known, false))
    else
      var known' := if typ in known.unpackers then known else known.(unpackers := known.unpackers[typ := fmt.format]);
      match Unpack(Raw(Items(known'.unpackers[typ])), Slice(data, h + 3, h + fmt.len))
      case None => if |data| - (h + 3) < 528 then Done(Parsed(None, h + 3, known', false)) else Again(known')
      case Some(elements) => Conclude(fmt, Transformed(Items(fmt.format), elements), h, known')
  }

  /** One call of _parse_next from offset `o`, on a stack that lets it call itself `depth` times more. */
  function Parse(data: seq<byte>, o: nat, known: Known, depth: nat): (p: Parsed)
    decreases |data| - o
  {
    var h := FindHeader(data, o, known.formats);
    if |data| - h < 3 then Parsed(None, h, known, false)
    else
      match ParseRecord(data, h, known)
      case Done(p) => p
      case Again(known') =>
        if depth == 0 then Parsed(None, h + 3, known', true) else Parse(data, h + 3, known', depth - 1)
  }

  // ---------------------------------------------------------------- well-formed logs

  datatype Entry = Entry(gap: seq<byte>, typ: byte, values: seq<Value>)

  datatype Log = Log(entries: seq<Entry>, tail: seq<byte>)

  /** No A3 95 pair: nothing here looks like a header. */
  ghost predicate Noise(b: seq<byte>) {
    forall k | 0 <= k < |b| - 1 :: !(b[k] == HEAD1 && b[k + 1] == HEAD2)
  }

  /** A format whose length field agrees with its struct, with a non-empty body. */
  predicate Sound(f: Format) {
    f.len == 3 + Size(Items(f.format)) && Size(Items(f.format)) > 0
  }

  /** What reading an entry of this format returns. */
  function ElementsOf(f: Format, values: seq<Value>): seq<Value> {
    if |values| == |Items(f.format)| then Received(Items(f.format), values) else []
  }

  /** The entry is a complete record of a known type; an FMT record announces a sound format
      under its own name and type, the same one if that type or name was announced before. */
  ghost predicate GoodEntry(e: Entry, env: map<int, Format>) {
    && Noise(e.gap)
    && e.typ as int in env
    && Pack(Items(env[e.typ].format), e.values).Some?
    && (e.typ == FMT_TYPE ==>
          var f := FormatOfElements(ElementsOf(env[e.typ], e.values));
          f.Some? && GoodFormat(f.value, env))
  }

  ghost predicate GoodFormat(f: Format, env: map<int, Format>) {
    && 0 <= f.typ < 256 && Sound(f)
    && (f.typ in env ==> env[f.typ] == f)
    && (forall t | t in env && env[t].name == f.name :: t == f.typ)
  }

  /** The formats known after an entry. */
  ghost function EnvAfter(e: Entry, env: map<int, Format>): map<int, Format> {
    if GoodEntry(e, env) && e.typ == FMT_TYPE then
      var f := FormatOfElements(ElementsOf(env[e.typ], e.values)).value;
      env[f.typ := f]
    else env
  }

  /** The formats known before entry n. */
  ghost function Env(log: Log, n: nat): map<int, Format>
    requires n <= |log.entries|
  {
    if n == 0 then map[FMT_TYPE as int := FMT] else EnvAfter(log.entries[n - 1], Env(log, n - 1))
  }

  ghost predicate WellFormedUpTo(log: Log, n: nat)
    requires n <= |log.entries|
  {
    forall k | 0 <= k < n :: GoodEntry(log.entries[k], Env(log, k))
  }

  ghost predicate WellFormed(log: Log) {
    WellFormedUpTo(log, |log.entries|) && Noise(log.tail)
  }

  ghost function RecordBytes(e: Entry, env: map<int, Format>): seq<byte> {
    if e.typ as int in env && Pack(Items(env[e.typ].format), e.values).Some?
    then Header(e.typ) + Pack(Items(env[e.typ].format), e.values).value
    else []
  }

  /** The bytes of the first n entries. */
  ghost function BytesUpTo(log: Log, n: nat): seq<byte>
    requires n <= |log.entries|
  {
    if n == 0 then []
    else BytesUpTo(log, n - 1) + log.entries[n - 1].gap + RecordBytes(log.entries[n - 1], Env(log, n - 1))
  }

  ghost function Start(log: Log, n: nat): nat
    requires n <= |log.entries|
  {
    |BytesUpTo(log, n)|
  }

  /** Where record n begins. */
  ghost function At(log: Log, n: nat): nat
    requires n < |log.entries|
  {
    Start(log, n) + |log.entries[n].gap|
  }

  ghost predicate IsLog(data: seq<byte>, log: Log) {
    WellFormed(log) && data == BytesUpTo(log, |log.entries|) + log.tail
  }

  /** The format entry n was written with. */
  ghost function FormatOf(log: Log, n: nat): Format
    requires n < |log.entries|
  {
    var t := log.entries[n].typ as int;
    if t in Env(log, n) then Env(log, n)[t] else FMT
  }

  /** The message entry n stands for. */
  ghost function MessageAt(log: Log, n: nat): Message
    requires n < |log.entries|
  {
    Message(FormatOf(log, n), ElementsOf(FormatOf(log, n), log.entries[n].values))
  }

  // ---------------------------------------------------------------- formats of a log

  ghost predicate SoundEnv(env: map<int, Format>) {
    && FMT_TYPE as int in env && env[FMT_TYPE as int].name == "FMT"
    && (forall t <- env :: 0 <= t < 256 && env[t].typ == t && Sound(env[t]))
    && (forall t, u | t in env && u in env && env[t].name == env[u].name :: t == u)
  }

  lemma EntryKeepsSoundEnv(e: Entry, env: map<int, Format>)
    requires SoundEnv(env) && GoodEntry(e, env)
    ensures SoundEnv(EnvAfter(e, env))
    ensures forall t <- env :: t in EnvAfter(e, env) && EnvAfter(e, env)[t] == env[t]
  {
    hide Pack, Items, Size, FormatOfElements, ElementsOf, Noise;
  }

  lemma {:induction false} EnvIsSound(log: Log, n: nat)
    requires n <= |log.entries| && WellFormedUpTo(log, n)
    ensures SoundEnv(Env(log, n))
  {
    hide GoodEntry, EnvAfter;
    if n == 0 {
      ItemsOfFmt();
    } else {
      EnvIsSound(log, n - 1);
      EntryKeepsSoundEnv(log.entries[n - 1], Env(log, n - 1));
    }
  }

  /** Formats are only ever added. */
  lemma {:induction false} EnvGrows(log: Log, m: nat, n: nat, t: int)
    requires m <= n <= |log.entries| && WellFormedUpTo(log, n) && t in Env(log, m)
    ensures t in Env(log, n) && Env(log, n)[t] == Env(log, m)[t]
  {
    hide GoodEntry, EnvAfter, SoundEnv;
    if m < n {
      EnvGrows(log, m, n - 1, t);
      EnvIsSound(log, n - 1);
      EntryKeepsSoundEnv(log.entries[n - 1], Env(log, n - 1));
    }
  }

  /** FMT itself stays as it is. */
  lemma FmtKeepsItsFormat(log: Log, n: nat)
    requires WellFormed(log) && n <= |log.entries|
    ensures FMT_TYPE as int in Env(log, n) && Env(log, n)[FMT_TYPE as int] == FMT
  {
    hide GoodEntry;
    assert Env(log, 0) == map[FMT_TYPE as int := FMT];
    EnvGrows(log, 0, n, FMT_TYPE as int);
  }

  // ---------------------------------------------------------------- layout

  lemma {:induction false} PrefixOfBytes(log: Log, m: nat, n: nat)
    requires m <= n <= |log.entries|
    ensures BytesUpTo(log, m) <= BytesUpTo(log, n)
  {
    hide RecordBytes, Env;
    if m < n { PrefixOfBytes(log, m, n - 1); }
  }

  /** A header and a body in the middle of the data. */
  lemma RecordInPlace(data: seq<byte>, before: seq<byte>, typ: byte, body: seq<byte>)
    requires before + (Header(typ) + body) <= data
    ensures var a := |before|;
            && data[a] == HEAD1 && data[a + 1] == HEAD2 && data[a + 2] == typ
            && data[a + 3..a + 3 + |body|] == body
  {
    var a, r := |before|, Header(typ) + body;
    var b := before + r;
    assert forall k | 0 <= k < |r| :: data[a + k] == b[a + k] == r[k];
    assert data[a + 0] == r[0] && data[a + 1] == r[1] && data[a + 2] == r[2];
    assert forall k | 0 <= k < |body| :: data[a + 3 + k] == data[a + (3 + k)] == r[3 + k] == body[k];
  }

  /** Entry n has a sound format and a body of the announced length. */
  lemma EntryFits(log: Log, n: nat)
    requires WellFormed(log) && n < |log.entries|
    ensures var e, f := log.entries[n], FormatOf(log, n);
            && GoodEntry(e, Env(log, n)) && SoundEnv(Env(log, n))
            && f.len > 3 && f.typ == e.typ
            && Pack(Items(f.format), e.values).Some? && |Pack(Items(f.format), e.values).value| == f.len - 3
            && RecordBytes(e, Env(log, n)) == Header(e.typ) + Pack(Items(f.format), e.values).value
  {
    EnvIsSound(log, n);
    hide Items, Size, FormatOfElements, ElementsOf, Noise, Header;
    assert GoodEntry(log.entries[n], Env(log, n));
  }

  /** Gap and record of entry n, in place. */
  lemma Layout(data: seq<byte>, log: Log, n: nat)
    requires IsLog(data, log) && n < |log.entries|
    ensures var a, f := At(log, n), FormatOf(log, n);
            && Start(log, n) <= a && Start(log, n + 1) == a + f.len <= |data| && f.len > 3
            && data[Start(log, n)..a] == log.entries[n].gap
            && data[a] == HEAD1 && data[a + 1] == HEAD2 && data[a + 2] == log.entries[n].typ
            && Pack(Items(f.format), log.entries[n].values).Some?
            && data[a + 3..a + f.len] == Pack(Items(f.format), log.entries[n].values).value
  {
    hide WellFormed, GoodEntry, SoundEnv, EnvAfter, RecordBytes, Items, Pack, Header;
    EntryFits(log, n);
    PrefixOfBytes(log, n + 1, |log.entries|);
    var e, f := log.entries[n], FormatOf(log, n);
    var body := Pack(Items(f.format), e.values).value;
    var start := BytesUpTo(log, n);
    InPlace(data, start, e.gap, e.typ, body);
  }

  lemma InPlace(data: seq<byte>, start: seq<byte>, gap: seq<byte>, typ: byte, body: seq<byte>)
    requires start + gap + (Header(typ) + body) <= data
    ensures var a := |start| + |gap|;
            && |start + gap + (Header(typ) + body)| == a + 3 + |body| <= |data|
            && data[|start|..a] == gap
            && data[a] == HEAD1 && data[a + 1] == HEAD2 && data[a + 2] == typ
            && data[a + 3..a + 3 + |body|] == body
  {
    RecordInPlace(data, start + gap, typ, body);
    assert start + gap <= data;
    assert data[|start|..|start + gap|] == (start + gap)[|start|..];
  }

  // ---------------------------------------------------------------- parsing a log

  /** The scanner walks over noise, and over the last noise byte before a header. */
  lemma {:induction false} SkipNoise(data: seq<byte>, lo: nat, hi: nat, o: nat, formats: map<int, Format>)
    requires lo <= o <= hi <= |data| && Noise(data[lo..hi])
    requires hi < |data| ==> hi + 3 <= |data| && data[hi] == HEAD1
    ensures hi < |data| ==> FindHeader(data, o, formats) == FindHeader(data, hi, formats)
    ensures hi == |data| ==> |data| - FindHeader(data, o, formats) < 3
    decreases hi - o
  {
    if o < hi && |data| - o >= 3 {
      var b := data[lo..hi];
      assert data[o] == b[o - lo] && (o + 1 < hi ==> data[o + 1] == b[o + 1 - lo]);
      assert !HeaderAt(data, o);
      SkipNoise(data, lo, hi, o + 1, formats);
    }
  }

  /** From anywhere in the gap before entry n the scanner finds the record of entry n. */
  lemma HeaderOfEntry(data: seq<byte>, log: Log, n: nat, o: nat, formats: map<int, Format>)
    requires IsLog(data, log) && n < |log.entries| && Start(log, n) <= o <= At(log, n)
    requires log.entries[n].typ as int in formats
    ensures FindHeader(data, o, formats) == At(log, n)
  {
    hide Start, At, Pack, Items, FormatOf, RecordBytes;
    Layout(data, log, n);
    assert GoodEntry(log.entries[n], Env(log, n));
    SkipNoise(data, Start(log, n), At(log, n), o, formats);
  }

  /** After the last record it finds nothing. */
  lemma NoHeaderInTail(data: seq<byte>, log: Log, o: nat, formats: map<int, Format>)
    requires IsLog(data, log) && Start(log, |log.entries|) <= o
    ensures |data| - FindHeader(data, o, formats) < 3
  {
    hide WellFormedUpTo;
    assert data[Start(log, |log.entries|)..] == log.tail;
    assert data[Start(log, |log.entries|)..|data|] == log.tail;
    if o <= |data| { SkipNoise(data, Start(log, |log.entries|), |data|, o, formats); }
  }

  /** Every struct in use is the one of the current format. */
  ghost predicate Cached(known: Known) {
    forall t <- known.unpackers :: t in known.formats && known.unpackers[t] == known.formats[t].format
  }

  ghost function Max(m: nat, n: nat): nat {
    if m < n then n else m
  }

  /** Reading entry n with these formats raises a Python exception. */
  ghost predicate ReadingRaises(log: Log, n: nat, formats: map<int, Format>)
    requires n < |log.entries|
  {
    FormatOf(log, n).name == "FMTU" && FmtuRaises(MessageAt(log, n).elements, formats)
  }

  /** Tables that know the formats of the first m entries. */
  ghost predicate TablesAt(log: Log, m: nat, known: Known) {
    m <= |log.entries| && known.formats == Env(log, m) && Cached(known)
  }

  /** The notes after building what entry n announces; None if its instance column cannot be found or placed, which can
      only happen where a later column has the name of the one marked. */
  ghost function Kept(log: Log, n: nat, notes: Notes): Option<Notes>
    requires n < |log.entries|
  {
    match Announced(log, n)
    case None => Some(notes)
    case Some(f) => KeepInstance(f, notes)
  }

  /** Knowing the formats of at least the entries before n, a parse from the gap before entry n, or from the
      record itself, returns entry n, stops behind it and learns what it announces; or it raises, which the fields of a
      FMTU record decide. A FMT record whose format cannot be built is not returned, whatever the parse finds instead. */
  lemma ParseEntry(data: seq<byte>, log: Log, n: nat, o: nat, known: Known, m: nat, depth: nat)
    requires IsLog(data, log) && n < |log.entries| && Start(log, n) <= o <= At(log, n)
    requires n <= m && TablesAt(log, m, known)
    ensures var p := Parse(data, o, known, depth);
            if Kept(log, n, known.notes).Some? then
              && (p.raised <==> ReadingRaises(log, n, Env(log, m)))
              && p.msg == (if p.raised then None else Some(MessageAt(log, n)))
              && p.offset == Start(log, n + 1)
              && TablesAt(log, Max(m, n + 1), p.known) && Kept(log, n, known.notes) == Some(p.known.notes)
            else p.msg != Some(MessageAt(log, n))
  {
    hide Pack, Items, Size, Received, FormatOfElements, Header, RecordBytes, ParseRecord, BytesUpTo, Kept;
    hide GoodEntry, EnvAfter, Noise, FindHeader, Env, At, Start, Conclude, FmtuRaises;
    FormatLater(log, n, m);
    HeaderOfEntry(data, log, n, o, known.formats);
    Layout(data, log, n);
    hide WellFormed, WellFormedUpTo, GoodFormat;
    ParseFittingRecord(data, known, At(log, n), log.entries[n], FormatOf(log, n));
    ConcludeEntry(log, n, m, known);
    if Kept(log, n, known.notes).None? {
      LostEntry(data, log, n, known.(unpackers := known.unpackers[log.entries[n].typ as int := FormatOf(log, n).format]), depth);
    }
  }

  /** The end of a call that has unpacked entry n. */
  lemma ConcludeEntry(log: Log, n: nat, m: nat, known: Known)
    requires WellFormed(log) && n < |log.entries| && n <= m && TablesAt(log, m, known)
    ensures var f := FormatOf(log, n);
            var known' := known.(unpackers := known.unpackers[log.entries[n].typ as int := f.format]);
            var c := Conclude(f, MessageAt(log, n).elements, At(log, n), known');
            if Kept(log, n, known.notes).Some? then
              && c.Done?
              && (c.parsed.raised <==> ReadingRaises(log, n, Env(log, m)))
              && c.parsed.msg == (if c.parsed.raised then None else Some(MessageAt(log, n)))
              && c.parsed.offset == At(log, n) + f.len
              && TablesAt(log, Max(m, n + 1), c.parsed.known) && Kept(log, n, known.notes) == Some(c.parsed.known.notes)
            else c == Again(known')
  {
    hide Pack, Items, Size, Received, ElementsOf, FormatOfElements, GoodEntry, EnvAfter, Noise, Env, At, FmtuRaises, KeepInstance;
    FormatLater(log, n, m);
    Announcement(log, n);
    Learning(log, n, m);
    CacheStays(log, n, m, known);
    hide WellFormed, GoodFormat, Cached;
  }

  /** Starting over behind a FMT record whose format cannot be built does not bring that record back. */
  lemma LostEntry(data: seq<byte>, log: Log, n: nat, known: Known, depth: nat)
    requires WellFormed(log) && n < |log.entries| && Kept(log, n, known.notes).None?
    ensures depth > 0 ==> Parse(data, At(log, n) + 3, known, depth - 1).msg != Some(MessageAt(log, n))
  {
    hide KeepInstance, Announced, MessageAt, At, WellFormed, Parse;
    AnnouncedByFmt(log, n);
    if depth > 0 { NotReturned(data, At(log, n) + 3, known, depth - 1, MessageAt(log, n), Announced(log, n).value); }
  }

  lemma AnnouncedByFmt(log: Log, n: nat)
    requires WellFormed(log) && n < |log.entries| && Announced(log, n).Some?
    ensures MessageAt(log, n).fmt.name == "FMT" && FormatOfElements(MessageAt(log, n).elements) == Announced(log, n)
  {
    hide GoodEntry, Env, FormatOfElements, ElementsOf;
    FormatLater(log, n, n);
  }

  lemma {:induction false} NotReturned(data: seq<byte>, o: nat, known: Known, depth: nat, m: Message, f: Format)
    requires m.fmt.name == "FMT" && FormatOfElements(m.elements) == Some(f) && KeepInstance(f, known.notes).None?
    ensures Parse(data, o, known, depth).msg != Some(m)
    decreases |data| - o
  {
    hide FormatOfElements, KeepInstance, FindHeader, ParseRecord;
    var h := FindHeader(data, o, known.formats);
    if |data| - h >= 3 {
      RecordNotReturned(data, h, known, m, f);
      var r := ParseRecord(data, h, known);
      if r.Again? && depth > 0 { NotReturned(data, h + 3, r.known, depth - 1, m, f); }
    }
  }

  lemma RecordNotReturned(data: seq<byte>, h: nat, known: Known, m: Message, f: Format)
    requires |data| - h >= 3 && data[h + 2] as int in known.formats
    requires m.fmt.name == "FMT" && FormatOfElements(m.elements) == Some(f) && KeepInstance(f, known.notes).None?
    ensures var r := ParseRecord(data, h, known);
            if r.Done? then r.parsed.msg != Some(m) else r.known.notes == known.notes
  {
    hide FormatOfElements, KeepInstance, Unpack, Transformed, Raw, Items, Slice, FmtuRaises;
  }

  lemma CacheStays(log: Log, n: nat, m: nat, known: Known)
    requires WellFormed(log) && n < |log.entries| && n <= m <= |log.entries|
    requires known.formats == Env(log, m) && Cached(known)
    ensures var t := log.entries[n].typ as int;
            Cached(Known(Env(log, Max(m, n + 1)), known.unpackers[t := FormatOf(log, n).format], known.notes))
  {
    hide Env, GoodEntry;
    var t := log.entries[n].typ as int;
    FormatLater(log, n, Max(m, n + 1));
    forall u <- known.unpackers
      ensures u in Env(log, Max(m, n + 1)) && Env(log, Max(m, n + 1))[u] == Env(log, m)[u]
    {
      EnvGrows(log, m, Max(m, n + 1), u);
    }
  }

  /** A record whose struct fits its body. */
  lemma ParseFittingRecord(data: seq<byte>, known: Known, a: nat, e: Entry, f: Format)
    requires a + f.len <= |data| && f.len > 3
    requires data[a + 2] == e.typ && e.typ as int in known.formats && known.formats[e.typ] == f && Cached(known)
    requires Pack(Items(f.format), e.values).Some?
    requires data[a + 3..a + f.len] == Pack(Items(f.format), e.values).value
    ensures ParseRecord(data, a, known) ==
            Conclude(f, ElementsOf(f, e.values), a, known.(unpackers := known.unpackers[e.typ as int := f.format]))
  {
    hide Pack, Items, Size, Received, Unpack, UnpackAll, UnpackItem, Conclude, Transformed, Raw;
    UnpackFitting(Items(f.format), e.values);
    var body := Slice(data, a + 3, a + f.len);
    assert body == data[a + 3..a + f.len];
    hide Slice;
    if e.typ as int in known.unpackers {
      assert known.unpackers[e.typ as int := f.format] == known.unpackers;
    }
  }

  lemma UnpackFitting(items: seq<Item>, values: seq<Value>)
    requires Pack(items, values).Some?
    ensures var raw := Unpack(Raw(items), Pack(items, values).value);
            raw.Some? && Transformed(items, raw.value) == Received(items, values)
  {
    hide Pack, Received, Transformed, Raw, UnpackAll;
    PackUnpack(items, values);
    UnpackTransforms(items, Pack(items, values).value);
  }

  /** The type of entry n keeps its format, and only FMT records are named FMT. */
  lemma FormatLater(log: Log, n: nat, m: nat)
    requires WellFormed(log) && n < |log.entries| && n <= m <= |log.entries|
    ensures var t := log.entries[n].typ as int;
            && t in Env(log, m) && Env(log, m)[t] == FormatOf(log, n)
            && (FormatOf(log, n).name == "FMT" <==> t == FMT_TYPE as int)
  {
    hide Pack, Items, Size, FormatOfElements, RecordBytes, Noise, Sound;
    EntryFits(log, n);
    EnvGrows(log, n, m, log.entries[n].typ);
  }

  /** What entry n announces. */
  ghost function Announced(log: Log, n: nat): Option<Format>
    requires n < |log.entries|
  {
    if log.entries[n].typ == FMT_TYPE then FormatOfElements(MessageAt(log, n).elements) else None
  }

  ghost function Learn(env: map<int, Format>, f: Option<Format>): map<int, Format> {
    if f.Some? then env[f.value.typ := f.value] else env
  }

  lemma Announcement(log: Log, n: nat)
    requires WellFormed(log) && n < |log.entries|
    ensures Env(log, n + 1) == Learn(Env(log, n), Announced(log, n))
    ensures log.entries[n].typ == FMT_TYPE ==> Announced(log, n).Some? && GoodFormat(Announced(log, n).value, Env(log, n))
  {
    hide Pack, Items, Size, Received, ElementsOf, FormatOfElements, Noise, GoodFormat;
    assert GoodEntry(log.entries[n], Env(log, n));
  }

  /** What an FMT entry announces is already in any later table, and completes the table before it. */
  lemma Learning(log: Log, n: nat, m: nat)
    requires WellFormed(log) && n < |log.entries| && n <= m <= |log.entries|
    ensures Learn(Env(log, m), Announced(log, n)) == Env(log, Max(m, n + 1))
  {
    hide Announced, Env, GoodEntry, GoodFormat, WellFormed;
    Announcement(log, n);
    var f := Announced(log, n);
    if m > n && f.Some? {
      AnnouncedStays(log, n, m, f.value);
    }
  }

  lemma AnnouncedStays(log: Log, n: nat, m: nat, f: Format)
    requires n < m <= |log.entries| && WellFormed(log)
    requires Env(log, n + 1) == Learn(Env(log, n), Some(f))
    ensures Env(log, m)[f.typ := f] == Env(log, m)
  {
    hide Env, GoodEntry;
    EnvGrows(log, n + 1, m, f.typ);
  }

  /** After the last record a parse returns nothing and learns nothing. */
  lemma ParseTail(data: seq<byte>, log: Log, o: nat, known: Known, depth: nat)
    requires IsLog(data, log) && Start(log, |log.entries|) <= o
    ensures var p := Parse(data, o, known, depth);
            p.msg == None && p.known == known && !p.raised
  {
    NoHeaderInTail(data, log, o, known.formats);
  }

  // ---------------------------------------------------------------- written messages

  /** make_msgbuf writes exactly the record bytes a log is made of. */
  lemma WriterWritesRecords(e: Entry, env: map<int, Format>)
    requires SoundEnv(env) && GoodEntry(e, env)
    ensures MakeMsgbuf(env[e.typ], e.values) == Some(RecordBytes(e, env))
  {
    hide Pack, Items, Noise, FormatOfElements;
  }

  /** Parsing the bytes make_msgbuf wrote for a sound format returns that format and the values received, and consumes
      all bytes; unless it is a FMT record whose format cannot be built, or a FMTU record that raises. */
  lemma ParseWritten(f: Format, values: seq<Value>, known: Known, depth: nat)
    requires MakeMsgbuf(f, values).Some? && Sound(f)
    requires f.typ in known.formats && known.formats[f.typ] == f && Cached(known)
    ensures var buf, e := MakeMsgbuf(f, values).value, ElementsOf(f, values);
            var known' := known.(unpackers := known.unpackers[f.typ := f.format]);
            Parse(buf, 0, known, depth) ==
            match Teach(f, e, known')
            case Some(taught) =>
              var raised := f.name == "FMTU" && FmtuRaises(e, taught.formats);
              Parsed(if raised then None else Some(Message(f, e)), |buf|, taught, raised)
            case None =>
              if depth == 0 then Parsed(None, 3, known', true) else Parse(buf, 3, known', depth - 1)
  {
    hide Pack, Items, FormatOfElements, ParseRecord, Teach, FmtuRaises, ElementsOf, FindHeader, MakeMsgbuf, Cached;
    var buf := MakeMsgbuf(f, values).value;
    WrittenInPlace(f, values, known.formats);
    ParseFittingRecord(buf, known, 0, Entry([], f.typ, values), f);
  }

  /** Where a written record's header and body lie. */
  lemma WrittenInPlace(f: Format, values: seq<Value>, formats: map<int, Format>)
    requires MakeMsgbuf(f, values).Some? && Sound(f) && f.typ in formats
    ensures var buf := MakeMsgbuf(f, values).value;
            && 0 <= f.typ < 256 && Pack(Items(f.format), values).Some? && |buf| == f.len > 3
            && buf[2] == f.typ && buf[3..f.len] == Pack(Items(f.format), values).value
            && FindHeader(buf, 0, formats) == 0
  {
    hide Pack, Items;
    var buf, body := MakeMsgbuf(f, values).value, Pack(Items(f.format), values).value;
    assert buf == Header(f.typ) + body;
    RecordInPlace(buf, [], f.typ, body);
  }

  /** A message lies within the data. */
  lemma {:induction false} MessageFits(data: seq<byte>, o: nat, known: Known, depth: nat)
    ensures var p := Parse(data, o, known, depth);
            p.msg.Some? ==> o + p.msg.value.fmt.len <= |data|
    decreases |data| - o
  {
    hide Unpack, Transformed, Teach, Slice, Items, FmtuRaises;
    var h := FindHeader(data, o, known.formats);
    if |data| - h >= 3 && ParseRecord(data, h, known).Again? && depth > 0 {
      MessageFits(data, h + 3, ParseRecord(data, h, known).known, depth - 1);
    }
  }

  /** Parsing what make_format_msgbuf wrote for a format consumes the record and leaves that format in the table exactly
      when it fits the record and the column that told instances of an older format of this type apart, if one did, can
      be marked again. */
  lemma ParseFormatWritten(fmt: Format, known: Known, depth: nat)
    requires Supported(fmt.format) && MakeFormatMsgbuf(fmt).Some?
    requires FMT_TYPE as int in known.formats && known.formats[FMT_TYPE as int] == FMT && Cached(known)
    ensures var buf, p := MakeFormatMsgbuf(fmt).value, Parse(MakeFormatMsgbuf(fmt).value, 0, known, depth);
            && p.msg.Some? && p.msg.value.fmt == FMT && p.offset == |buf|
            && fmt.typ in p.known.formats && p.known.formats[fmt.typ] == WithStructLength(fmt)
            <==> FitsFmt(fmt) && KeepInstance(WithStructLength(fmt), known.notes).Some?
  {
    ItemsOfFmt();
    hide Items, Size, Pack, Received, Fit, Encode, Join, KeepInstance, FormatOfElements, FitsFmt, ReadFormat, Parse, ReadField;
    var v := FmtValues(fmt);
    PackFmt(v);
    FormatOfWritten(fmt, Received(FMT_ITEMS, v));
    ReadOfWritten(fmt);
    FormatRoundTrip(fmt);
    ParseWritten(FMT, v, known, depth);
    var known' := known.(unpackers := known.unpackers[FMT_TYPE as int := FMT_CODES]);
    if depth > 0 { MessageFits(MakeFormatMsgbuf(fmt).value, 3, known', depth - 1); }
    assert |FMT.name| == 3 && |MakeFormatMsgbuf(fmt).value| == 89;
  }
}
