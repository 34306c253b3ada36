/**
 The recorder's storage path: what is accepted as the root under which whole directories are
 deleted, and the normal form it is brought into.
 */
module StoragePath {

  datatype Reason = Empty | NotAbsolute | ParentComponent | IsRoot | TooShallow | SystemDirectory

  datatype Result = Accepted(path: string) | Refused(reason: Reason)

  // ---------------------------------------------------------------- splitting and joining

  /** The stretches of a path between its slashes, empty ones included. */
  function Segments(path: string): (r: seq<string>)
    ensures |r| > 0
  {
    if path == "" then [""] else ReadOn(Segments(path[..|path| - 1]), path[|path| - 1])
  }

  /** The segments after one more character. */
  function ReadOn(segments: seq<string>, c: char): (r: seq<string>)
    requires |segments| > 0
    ensures |r| > 0
  {
    var n := |segments| - 1;
    if c == '/' then segments + [""] else segments[..n] + [segments[n] + [c]]
  }

  predicate IsComponent(segment: string) {
    segment != "" && segment != "."
  }

  function Keep(segments: seq<string>): (r: seq<string>) {
    if segments == [] then []
    else
      var n := |segments| - 1;
      Keep(segments[..n]) + if IsComponent(segments[n]) then [segments[n]] else []
  }

  /** The components a path names. */
  function Components(path: string): seq<string> {
    Keep(Segments(path))
  }

  function Join(parts: seq<string>): string {
    if parts == [] then "" else Join(parts[..|parts| - 1]) + "/" + parts[|parts| - 1]
  }

  const DENYLIST: seq<string> := [
    "/", "/data", "/home", "/etc", "/usr", "/var", "/tmp", "/boot",
    "/root", "/opt", "/bin", "/sbin", "/lib", "/lib64", "/proc",
    "/sys", "/dev", "/run", "/media", "/mnt", "/srv"]

  // ---------------------------------------------------------------- validate_storage_path

  /** What the program promises about an accepted path. */
  ghost predicate IsNormal(path: string, parts: seq<string>) {
    && path == Join(parts) && |parts| >= 2
    && forall i | 0 <= i < |parts| :: IsComponent(parts[i]) && parts[i] != ".." && '/' !in parts[i]
  }

  /** The outcome for every path. */
  ghost function Validated(path: string): Result {
    if path == "" then Refused(Empty)
    else if path[0] != '/' then Refused(NotAbsolute)
    else if ".." in Segments(path) then Refused(ParentComponent)
    else if Components(path) == [] then Refused(IsRoot)
    else if |Components(path)| < 2 then Refused(TooShallow)
    else if Join(Components(path)) in DENYLIST then Refused(SystemDirectory)
    else Accepted(Join(Components(path)))
  }

  method ValidateStoragePath(path: string) returns (r: Result)
    ensures r == Validated(path)
  {
    hide Segments, Keep, Join;
    if path == "" { return Refused(Empty); }
    if path[0] != '/' { return Refused(NotAbsolute); }
    var climbs, parts := SplitPath(path);
    if climbs { return Refused(ParentComponent); }
    if parts == [] { return Refused(IsRoot); }
    if |parts| < 2 { return Refused(TooShallow); }
    var normalized := JoinParts(parts);
    for i := 0 to |DENYLIST|
      invariant normalized !in DENYLIST[..i]
    {
      if normalized == DENYLIST[i] { return Refused(SystemDirectory); }
    }
    r := Accepted(normalized);
  }

  /** The first loop: cut at each slash and at the end, keep components, stop at "..". */
  method SplitPath(path: string) returns (climbs: bool, parts: seq<string>)
    ensures climbs <==> ".." in Segments(path)
    ensures !climbs ==> parts == Components(path)
  {
    hide Segments, Keep;
    var seg := "";
    ghost var raw: seq<string> := [];
    climbs, parts := false, [];
    Nothing(path);
    for i := 0 to |path| + 1
      invariant Scanned(path, i, raw, seg) && parts == Keep(raw) && ".." !in raw
    {
      if i == |path| || path[i] == '/' {
        CutAt(path, i, raw, seg);
        ReadSegment(path, i, raw, seg);
        KeepOneMore(raw, seg);
        if seg != "" && seg != "." {
          if seg == ".." { return true, parts; }
          parts := parts + [seg];
        }
        raw := raw + [seg];
        seg := "";
      } else {
        ReadAt(path, i, raw, seg);
        seg := seg + [path[i]];
      }
    }
  }

  method JoinParts(parts: seq<string>) returns (normalized: string)
    ensures normalized == Join(parts)
  {
    normalized := "";
    for i := 0 to |parts|
      invariant normalized == Join(parts[..i])
    {
      assert parts[..i + 1][..i] == parts[..i];
      normalized := normalized + "/" + parts[i];
    }
    assert parts[..|parts|] == parts;
  }

  /** Before position i: finished segments and the one being read; behind the end, all are finished. */
  ghost predicate Scanned(path: string, i: nat, raw: seq<string>, seg: string) {
    if i <= |path| then Segments(path[..i]) == raw + [seg] else Segments(path) == raw
  }

  lemma Nothing(path: string)
    ensures Scanned(path, 0, [], "") && Keep([]) == []
  {}

  lemma KeepOneMore(raw: seq<string>, seg: string)
    ensures Keep(raw + [seg]) == Keep(raw) + if IsComponent(seg) then [seg] else []
  {
    assert (raw + [seg])[..|raw|] == raw;
  }

  lemma CutAt(path: string, i: nat, raw: seq<string>, seg: string)
    requires i <= |path| && (i == |path| || path[i] == '/') && Scanned(path, i, raw, seg)
    ensures Scanned(path, i + 1, raw + [seg], "")
  {
    hide Segments;
    if i < |path| {
      SegmentsReadOn(path[..i], '/');
      assert path[..i + 1] == path[..i] + ['/'];
    } else {
      assert path[..i] == path;
    }
  }

  /** A stretch that has been read to its end is one of the path's segments. */
  lemma ReadSegment(path: string, i: nat, raw: seq<string>, seg: string)
    requires i <= |path| && (i == |path| || path[i] == '/') && Scanned(path, i, raw, seg)
    ensures seg in Segments(path)
  {
    hide Segments;
    FirstSegments(path, i);
    assert seg in raw + [seg];
  }

  lemma ReadAt(path: string, i: nat, raw: seq<string>, seg: string)
    requires i < |path| && path[i] != '/' && Scanned(path, i, raw, seg)
    ensures Scanned(path, i + 1, raw, seg + [path[i]])
  {
    hide Segments;
    SegmentsReadOn(path[..i], path[i]);
    assert path[..i + 1] == path[..i] + [path[i]];
  }

  // ---------------------------------------------------------------- splitting and joining undo each other

  lemma ReadOnBehind(a: seq<string>, b: seq<string>, c: char)
    requires |b| > 0
    ensures ReadOn(a + b, c) == a + ReadOn(b, c)
  {
    assert (a + b)[..|a| + |b| - 1] == a + b[..|b| - 1];
  }

  lemma SegmentsReadOn(path: string, c: char)
    ensures Segments(path + [c]) == ReadOn(Segments(path), c)
  {
    assert (path + [c])[..|path|] == path;
  }

  lemma LastOff<T>(a: seq<T>, b: seq<T>)
    requires b != []
    ensures var n := |b| - 1;
            b == b[..n] + [b[n]] && a + b == (a + b[..n]) + [b[n]]
  {}

  lemma NothingBehind(a: string)
    ensures Segments(a + "/" + "") == Segments(a) + Segments("")
  {
    SegmentsReadOn(a, '/');
    assert a + "/" + "" == a + ['/'];
  }

  /** A slash separates the segments on its two sides. */
  lemma {:induction false} SegmentsSplit(a: string, b: string)
    ensures Segments(a + "/" + b) == Segments(a) + Segments(b)
  {
    if b == "" {
      NothingBehind(a);
    } else {
      hide *;
      var n := |b| - 1;
      LastOff(a + "/", b);
      SegmentsSplit(a, b[..n]);
      SegmentsReadOn(b[..n], b[n]);
      SegmentsReadOn(a + "/" + b[..n], b[n]);
      ReadOnBehind(Segments(a), Segments(b[..n]), b[n]);
    }
  }

  /** What has been read up to a slash or the end is a prefix of the segments. */
  lemma FirstSegments(path: string, i: nat)
    requires i <= |path| && (i == |path| || path[i] == '/')
    ensures forall s <- Segments(path[..i]) :: s in Segments(path)
  {
    if i < |path| {
      SegmentsSplit(path[..i], path[i + 1..]);
      assert path == path[..i] + "/" + path[i + 1..];
    } else {
      assert path[..i] == path;
    }
  }

  lemma {:induction false} SegmentOfPlain(s: string)
    requires '/' !in s
    ensures Segments(s) == [s]
  {
    if s != "" {
      var n := |s| - 1;
      assert s == s[..n] + [s[n]];
      SegmentOfPlain(s[..n]);
    }
  }

  lemma {:induction false} SegmentsHaveNoSlash(path: string, s: string)
    requires s in Segments(path)
    ensures '/' !in s
  {
    if path != "" {
      var n := |path| - 1;
      var r := Segments(path[..n]);
      if s in r {
        SegmentsHaveNoSlash(path[..n], s);
      } else if path[n] != '/' {
        SegmentsHaveNoSlash(path[..n], r[|r| - 1]);
        assert s == r[|r| - 1] + [path[n]];
      }
    }
  }

  lemma {:induction false} KeepConcat(a: seq<string>, b: seq<string>)
    ensures Keep(a + b) == Keep(a) + Keep(b)
  {
    if b == [] {
      assert a + b == a;
    } else {
      var n := |b| - 1;
      assert (a + b)[..|a| + n] == a + b[..n];
      KeepConcat(a, b[..n]);
    }
  }

  lemma {:induction false} KeepMembers(segments: seq<string>, s: string)
    ensures s in Keep(segments) <==> s in segments && IsComponent(s)
  {
    if segments != [] {
      var n := |segments| - 1;
      KeepMembers(segments[..n], s);
      assert segments == segments[..n] + [segments[n]];
    }
  }

  lemma {:induction false} KeepAll(segments: seq<string>)
    requires forall i | 0 <= i < |segments| :: IsComponent(segments[i])
    ensures Keep(segments) == segments
  {
    if segments != [] {
      KeepAll(segments[..|segments| - 1]);
      assert segments == segments[..|segments| - 1] + [segments[|segments| - 1]];
    }
  }

  /** Splitting a joined path gives back its parts. */
  lemma {:induction false} SegmentsOfJoin(parts: seq<string>)
    requires forall i | 0 <= i < |parts| :: '/' !in parts[i]
    ensures Segments(Join(parts)) == [""] + parts
  {
    if parts != [] {
      var n := |parts| - 1;
      SegmentsOfJoin(parts[..n]);
      SegmentsSplit(Join(parts[..n]), parts[n]);
      SegmentOfPlain(parts[n]);
      assert parts == parts[..n] + [parts[n]];
    }
  }

  lemma ComponentsOfJoin(parts: seq<string>)
    requires forall i | 0 <= i < |parts| :: '/' !in parts[i] && IsComponent(parts[i])
    ensures Components(Join(parts)) == parts
  {
    SegmentsOfJoin(parts);
    KeepConcat([""], parts);
    KeepAll(parts);
  }

  lemma ComponentsAreClean(path: string)
    ensures forall i | 0 <= i < |Components(path)| ::
              IsComponent(Components(path)[i]) && '/' !in Components(path)[i] && Components(path)[i] in Segments(path)
  {
    forall i | 0 <= i < |Components(path)|
      ensures IsComponent(Components(path)[i]) && '/' !in Components(path)[i] && Components(path)[i] in Segments(path)
    {
      var s := Components(path)[i];
      KeepMembers(Segments(path), s);
      SegmentsHaveNoSlash(path, s);
    }
  }

  // ---------------------------------------------------------------- what validation promises

  /** A path of two or more components is none of the listed directories, which all have fewer. */
  lemma DenylistNeverMatches(parts: seq<string>)
    requires |parts| >= 2
    ensures Join(parts) !in DENYLIST
  {
    AnotherSlash(parts);
    hide Join, OneSlash;
    forall i | 0 <= i < |DENYLIST|
      ensures Join(parts) != DENYLIST[i]
    {
      ListedHasOneSlash(i);
    }
  }

  predicate OneSlash(path: string) {
    forall k | 1 <= k < |path| :: path[k] != '/'
  }

  lemma ListedHasOneSlash(i: nat)
    requires i < |DENYLIST|
    ensures OneSlash(DENYLIST[i])
  {}

  lemma AnotherSlash(parts: seq<string>)
    requires |parts| >= 2
    ensures !OneSlash(Join(parts))
  {
    var front := Join(parts[..|parts| - 1]);
    assert Join(parts)[|front|] == '/' && |front| >= 1;
  }

  /** A path is accepted exactly if it is absolute, climbs nowhere and has two components; what is stored is the
      normal form of its components, which splits into the same components again. */
  lemma AcceptedPaths(path: string)
    ensures Validated(path).Accepted? <==>
              path != "" && path[0] == '/' && ".." !in Segments(path) && |Components(path)| >= 2
    ensures Validated(path).Accepted? ==>
              var out := Validated(path).path;
              IsNormal(out, Components(path)) && Components(out) == Components(path)
    ensures Validated(path) != Refused(SystemDirectory)
  {
    var parts := Components(path);
    ComponentsAreClean(path);
    if |parts| >= 2 { DenylistNeverMatches(parts); }
    ComponentsOfJoin(parts);
  }

  /** Validating twice changes nothing more. */
  lemma ValidationIsIdempotent(path: string)
    requires Validated(path).Accepted?
    ensures Validated(Validated(path).path) == Validated(path)
  {
    var parts := Components(path);
    var out := Validated(path).path;
    AcceptedPaths(path);
    SegmentsOfJoin(parts);
    JoinStartsWithSlash(parts);
    assert forall s <- Segments(out) :: s == "" || s in parts;
    AcceptedPaths(out);
  }

  lemma {:induction false} JoinStartsWithSlash(parts: seq<string>)
    requires parts != []
    ensures Join(parts) != "" && Join(parts)[0] == '/'
  {
    if |parts| > 1 { JoinStartsWithSlash(parts[..|parts| - 1]); }
  }

  /** Two absolute paths that name the same components have the same outcome: both are stored as the same path, or
      both are refused for the same reason. */
  lemma SameComponentsSamePath(a: string, b: string)
    requires a != "" && a[0] == '/' && b != "" && b[0] == '/' && Components(a) == Components(b)
    ensures Validated(a) == Validated(b)
  {
    KeepMembers(Segments(a), "..");
    KeepMembers(Segments(b), "..");
  }

  /** What is kept on both sides of a slash. */
  lemma ComponentsSplit(a: string, b: string)
    ensures Components(a + "/" + b) == Components(a) + Components(b)
  {
    SegmentsSplit(a, b);
    hide Segments;
    KeepConcat(Segments(a), Segments(b));
  }

  lemma NoComponents()
    ensures Components("") == [] && Components(".") == []
  {
    SegmentOfPlain("");
    SegmentOfPlain(".");
  }

  lemma ExtraSlash(a: string, b: string)
    ensures Components(a + "//" + b) == Components(a + "/" + b)
  {
    NoComponents();
    hide *;
    ComponentsSplit(a, b);
    ComponentsSplit("", b);
    ComponentsSplit(a, "" + "/" + b);
    assert a + "//" + b == a + "/" + ("" + "/" + b);
  }

  lemma ExtraDot(a: string, b: string)
    ensures Components(a + "/./" + b) == Components(a + "/" + b)
  {
    NoComponents();
    hide *;
    ComponentsSplit(a, b);
    ComponentsSplit(".", b);
    ComponentsSplit(a, "." + "/" + b);
    assert a + "/./" + b == a + "/" + ("." + "/" + b);
  }

  lemma TrailingSlash(a: string)
    ensures Components(a + "/") == Components(a)
  {
    NoComponents();
    hide *;
    ComponentsSplit(a, "");
    assert a + "/" == a + "/" + "";
  }

  /** Extra slashes and "." components never change the outcome: the stored path or the reason for refusal is the same. */
  lemma NoiseIsIgnored(a: string, b: string)
    ensures Validated(a + "//" + b) == Validated(a + "/" + b)
    ensures Validated(a + "/./" + b) == Validated(a + "/" + b)
    ensures a != "" ==> Validated(a + "/") == Validated(a)
  {
    ExtraSlash(a, b);
    ExtraDot(a, b);
    TrailingSlash(a);
    hide Components;
    if a == "" || a[0] == '/' {
      hide Validated;
      SameComponentsSamePath(a + "//" + b, a + "/" + b);
      SameComponentsSamePath(a + "/./" + b, a + "/" + b);
      if a != "" { SameComponentsSamePath(a + "/", a); }
    }
  }
}
