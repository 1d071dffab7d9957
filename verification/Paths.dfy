/**
 Path validation and resolution (tree.go). A path arrives as one byte string;
 the disk is addressed by its list of segments.
 */
module Paths {
  import opened Common

  const MAX_TREE_ENTRIES := 500
  const MAX_FILE_BYTES := 10 * 1024 * 1024
  const MAX_TREE_BYTES := 50 * 1024 * 1024
  const MAX_PATH_BYTES := 1024
  const MAX_PATH_SEGMENTS := 16
  const MAX_SEGMENT_BYTES := 255
  const MAX_CURSOR_BYTES := 128

  const SLASH: byte := 47
  const BACKSLASH: byte := 92
  const DOT: byte := 46

  type Segments = seq<Bytes>

  // ---------------------------------------------------------------- UTF-8

  predicate InRange(b: byte, lo: byte, hi: byte) {
    lo <= b <= hi
  }

  predicate Tail(b: byte) {
    InRange(b, 0x80, 0xBF)
  }

  /** Number of bytes of the well-formed sequence that starts s, or 0 (section 4 of RFC 3629). */
  function Utf8Width(s: Bytes): (n: nat)
    requires s != []
    ensures n <= |s| && n <= 4
  {
    var a := s[0];
    if a < 0x80 then 1
    else if InRange(a, 0xC2, 0xDF) && |s| >= 2 && Tail(s[1]) then 2
    else if |s| >= 3 && Tail(s[2])
            && (|| (a == 0xE0 && InRange(s[1], 0xA0, 0xBF))
                || (a == 0xED && InRange(s[1], 0x80, 0x9F))
                || (InRange(a, 0xE1, 0xEF) && a != 0xED && Tail(s[1]))) then 3
    else if |s| >= 4 && Tail(s[2]) && Tail(s[3])
            && (|| (a == 0xF0 && InRange(s[1], 0x90, 0xBF))
                || (InRange(a, 0xF1, 0xF3) && Tail(s[1]))
                || (a == 0xF4 && InRange(s[1], 0x80, 0x8F))) then 4
    else 0
  }

  predicate ValidUtf8(s: Bytes)
    decreases |s|
  {
    s == [] || (Utf8Width(s) > 0 && ValidUtf8(s[Utf8Width(s)..]))
  }

  predicate Ascii(s: Bytes) {
    forall i :: 0 <= i < |s| ==> s[i] < 0x80
  }

  lemma {:induction false} AsciiIsUtf8(s: Bytes)
    requires Ascii(s)
    ensures ValidUtf8(s)
    decreases |s|
  {
    if s != [] {
      assert Utf8Width(s) == 1;
      AsciiIsUtf8(s[1..]);
    }
  }

  /** A Unicode scalar value. */
  predicate IsScalar(c: nat) {
    c <= 0x10FFFF && !(0xD800 <= c <= 0xDFFF)
  }

  /** Its encoding, of one to four bytes (section 3 of RFC 3629). */
  function Encoded(c: nat): (s: Bytes)
    requires IsScalar(c)
    ensures s != []
  {
    if c < 0x80 then [c]
    else if c < 0x800 then [0xC0 + c / 64, 0x80 + c % 64]
    else if c < 0x10000 then [0xE0 + c / 4096, 0x80 + c / 64 % 64, 0x80 + c % 64]
    else [0xF0 + c / 262144, 0x80 + c / 4096 % 64, 0x80 + c / 64 % 64, 0x80 + c % 64]
  }

  predicate AllScalar(text: seq<nat>) {
    forall i :: 0 <= i < |text| ==> IsScalar(text[i])
  }

  function EncodedText(text: seq<nat>): Bytes
    requires AllScalar(text)
  {
    if text == [] then [] else Encoded(text[0]) + EncodedText(text[1..])
  }

  lemma EncodedWidth(c: nat, rest: Bytes)
    requires IsScalar(c)
    ensures Utf8Width(Encoded(c) + rest) == |Encoded(c)|
  {
  }

  lemma Digits64(h: nat, x: nat, y: nat, z: nat)
    requires x < 64 && y < 64 && z < 64
    ensures var c := 64 * h + x; c / 64 == h && c % 64 == x
    ensures var c := 4096 * h + 64 * x + y; c / 4096 == h && c / 64 % 64 == x && c % 64 == y
    ensures var c := 262144 * h + 4096 * x + 64 * y + z;
            c / 262144 == h && c / 4096 % 64 == x && c / 64 % 64 == y && c % 64 == z
  {
    assert (4096 * h + 64 * x + y) / 64 == 64 * h + x;
    assert (262144 * h + 4096 * x + 64 * y + z) / 64 == 4096 * h + 64 * x + y;
    assert (262144 * h + 4096 * x + 64 * y + z) / 4096 == 64 * h + x;
  }

  /** The scalar value whose encoding the first well-formed sequence is. */
  lemma FirstScalar(s: Bytes) returns (c: nat)
    requires s != [] && Utf8Width(s) > 0
    ensures IsScalar(c) && s[..Utf8Width(s)] == Encoded(c)
  {
    var n, a: int := Utf8Width(s), s[0];
    match n {
      case 1 => c := a;
      case 2 => c := TwoBytes(a, s[1]);
      case 3 => c := ThreeBytes(a, s[1], s[2]);
      case _ => c := FourBytes(a, s[1], s[2], s[3]);
    }
    hide Encoded;
    assert s[..n] == if n == 1 then [s[0]] else if n == 2 then [s[0], s[1]]
                     else if n == 3 then [s[0], s[1], s[2]] else [s[0], s[1], s[2], s[3]];
  }

  lemma TwoBytes(a: byte, b: byte) returns (c: nat)
    requires Utf8Width([a, b]) == 2
    ensures IsScalar(c) && Encoded(c) == [a, b]
  {
    var h: int, x: int := a - 0xC0, b - 0x80;
    c := 64 * h + x;
    Digits64(h, x, 0, 0);
  }

  lemma ThreeBytes(a: byte, b: byte, d: byte) returns (c: nat)
    requires Utf8Width([a, b, d]) == 3
    ensures IsScalar(c) && Encoded(c) == [a, b, d]
  {
    var h: int, x: int, y: int := a - 0xE0, b - 0x80, d - 0x80;
    c := 4096 * h + 64 * x + y;
    Digits64(h, x, y, 0);
  }

  lemma FourBytes(a: byte, b: byte, d: byte, e: byte) returns (c: nat)
    requires Utf8Width([a, b, d, e]) == 4
    ensures IsScalar(c) && Encoded(c) == [a, b, d, e]
  {
    var h: int, x: int, y: int, z: int := a - 0xF0, b - 0x80, d - 0x80, e - 0x80;
    c := 262144 * h + 4096 * x + 64 * y + z;
    Digits64(h, x, y, z);
  }

  lemma {:induction false} EncodedIsValid(text: seq<nat>)
    requires AllScalar(text)
    ensures ValidUtf8(EncodedText(text))
  {
    hide Utf8Width, Encoded;
    if text != [] {
      EncodedIsValid(text[1..]);
      EncodedWidth(text[0], EncodedText(text[1..]));
      var s := EncodedText(text);
      assert s[|Encoded(text[0])|..] == EncodedText(text[1..]);
    }
  }

  lemma {:induction false} ValidIsEncoded(s: Bytes) returns (text: seq<nat>)
    requires ValidUtf8(s)
    ensures AllScalar(text) && s == EncodedText(text)
    decreases |s|
  {
    hide Utf8Width, Encoded, IsScalar;
    text := [];
    if s != [] {
      var n := Utf8Width(s);
      var c := FirstScalar(s);
      var rest := ValidIsEncoded(s[n..]);
      text := [c] + rest;
      assert text[1..] == rest && s == s[..n] + s[n..];
    }
  }

  /** Valid UTF-8 is exactly the encodings of scalar values, one after the other. */
  lemma Utf8Iff(s: Bytes)
    ensures ValidUtf8(s) <==> exists text :: AllScalar(text) && s == EncodedText(text)
  {
    if ValidUtf8(s) {
      var text := ValidIsEncoded(s);
    }
    if text :| AllScalar(text) && s == EncodedText(text) {
      EncodedIsValid(text);
    }
  }

  // ---------------------------------------------------- Splitting and joining

  function Split(s: Bytes): (parts: Segments)
    ensures |parts| > 0
  {
    if s == [] then [[]]
    else
      var rest := Split(s[1..]);
      if s[0] == SLASH then [[]] + rest else [[s[0]] + rest[0]] + rest[1..]
  }

  function Join(parts: Segments): Bytes
    requires |parts| > 0
  {
    if |parts| == 1 then parts[0] else parts[0] + [SLASH] + Join(parts[1..])
  }

  lemma {:induction false} JoinAfterSplit(s: Bytes)
    ensures Join(Split(s)) == s
  {
    if s != [] {
      JoinAfterSplit(s[1..]);
      var rest := Split(s[1..]);
      if s[0] == SLASH {
        assert ([[]] + rest)[1..] == rest;
        assert s == [SLASH] + s[1..];
      } else {
        var head: Bytes := [s[0]] + rest[0];
        assert s == [s[0]] + s[1..];
        if |rest| > 1 {
          assert ([head] + rest[1..])[1..] == rest[1..];
          assert Join(rest) == rest[0] + [SLASH] + Join(rest[1..]);
          assert head + [SLASH] + Join(rest[1..]) == [s[0]] + (rest[0] + [SLASH] + Join(rest[1..]));
        }
      }
    }
  }

  lemma {:induction false} SplitOfOne(part: Bytes)
    requires SLASH !in part
    ensures Split(part) == [part]
  {
    if part != [] {
      SplitOfOne(part[1..]);
      assert part == [part[0]] + part[1..];
    }
  }

  lemma {:induction false} SplitAtSlash(part: Bytes, rest: Bytes)
    requires SLASH !in part
    ensures Split(part + [SLASH] + rest) == [part] + Split(rest)
  {
    var s := part + [SLASH] + rest;
    if part == [] {
      assert s[1..] == rest;
    } else {
      SplitAtSlash(part[1..], rest);
      assert s[1..] == part[1..] + [SLASH] + rest;
      assert part == [part[0]] + part[1..];
    }
  }

  /** Split and Join are inverse on segments that hold no separator. */
  lemma {:induction false} SplitAfterJoin(parts: Segments)
    requires |parts| > 0
    requires forall i :: 0 <= i < |parts| ==> SLASH !in parts[i]
    ensures Split(Join(parts)) == parts
  {
    if |parts| == 1 {
      SplitOfOne(parts[0]);
    } else {
      SplitAfterJoin(parts[1..]);
      SplitAtSlash(parts[0], Join(parts[1..]));
      assert parts == [parts[0]] + parts[1..];
    }
  }

  lemma SplitInjective(s: Bytes, t: Bytes)
    requires Split(s) == Split(t)
    ensures s == t
  {
    JoinAfterSplit(s);
    JoinAfterSplit(t);
  }

  // ------------------------------------------------------------- Validation

  predicate NoControl(part: Bytes) {
    part == [] || (part[0] >= 0x20 && NoControl(part[1..]))
  }

  predicate ValidSegments(parts: Segments) {
    parts == []
    || (&& parts[0] != [] && parts[0] != [DOT] && parts[0] != [DOT, DOT]
        && |parts[0]| <= MAX_SEGMENT_BYTES
        && NoControl(parts[0])
        && ValidSegments(parts[1..]))
  }

  /** The checks of ValidatePath, in its order. */
  predicate ValidPath(path: Bytes) {
    && path != [] && ValidUtf8(path) && |path| <= MAX_PATH_BYTES
    && path[0] != SLASH && BACKSLASH !in path && 0 !in path
    && path[|path| - 1] != SLASH
    && |Split(path)| <= MAX_PATH_SEGMENTS
    && ValidSegments(Split(path))
  }

  lemma {:induction false} SegmentsIff(parts: Segments)
    ensures ValidSegments(parts) <==> forall i :: 0 <= i < |parts| ==> SegmentOk(parts[i]) && NoControl(parts[i])
  {
    hide NoControl;
    if parts != [] {
      SegmentsIff(parts[1..]);
      assert forall i :: 0 < i < |parts| ==> parts[i] == parts[1..][i - 1];
    }
  }

  predicate SegmentOk(part: Bytes) {
    1 <= |part| <= 255 && part != [46] && part != [46, 46]
  }

  lemma {:induction false} NoControlIff(part: Bytes)
    ensures NoControl(part) <==> forall b :: b in part ==> b >= 0x20
  {
    if part != [] {
      var rest := part[1..];
      NoControlIff(rest);
      assert part[0] in part && forall b :: b in rest ==> b in part;
      if NoControl(part) {
        forall b | b in part
          ensures b >= 0x20
        {
          assert b == part[0] || b in rest;
        }
      }
    }
  }

  /** What the segments hold, and what stands at the ends. */
  lemma {:induction false} SplitHolds(s: Bytes)
    ensures forall b :: b != SLASH ==> (b in s <==> exists i :: 0 <= i < |Split(s)| && b in Split(s)[i])
    ensures s != [] ==> (Split(s)[0] == [] <==> s[0] == SLASH)
    ensures s != [] ==> (Split(s)[|Split(s)| - 1] == [] <==> s[|s| - 1] == SLASH)
  {
    if s != [] {
      SplitHolds(s[1..]);
      assert s == [s[0]] + s[1..];
      var rest, parts := Split(s[1..]), Split(s);
      forall b | b != SLASH
        ensures b in s <==> exists i :: 0 <= i < |parts| && b in parts[i]
      {
        if i :| 0 <= i < |rest| && b in rest[i] {
          assert b in parts[if s[0] == SLASH then i + 1 else i];
        }
        if b == s[0] {
          assert b in parts[0];
        }
        if i :| 0 <= i < |parts| && b in parts[i] {
          if s[0] == SLASH {
            assert i > 0 ==> b in rest[i - 1];
          } else {
            assert i > 0 ==> b in rest[i];
            assert i == 0 && b != s[0] ==> b in rest[0];
          }
        }
      }
    }
  }

  /**
   The same read off the whole path: UTF-8 of 1 to 1024 bytes without backslash or control byte, in 1
   to 16 segments of 1 to 255 bytes each, none of them "." or "..".
   */
  lemma ValidPathIff(path: Bytes)
    ensures ValidPath(path) <==>
            && ValidUtf8(path) && 1 <= |path| <= 1024
            && (forall b :: b in path ==> b >= 0x20 && b != BACKSLASH)
            && |Split(path)| <= 16
            && forall i :: 0 <= i < |Split(path)| ==> SegmentOk(Split(path)[i])
  {
    hide ValidUtf8, Split, ValidSegments, NoControl;
    var parts := Split(path);
    SplitHolds(path);
    SegmentsIff(parts);
    forall i | 0 <= i < |parts|
      ensures NoControl(parts[i]) <==> forall b :: b in parts[i] ==> b >= 0x20
    {
      NoControlIff(parts[i]);
    }
    SplitHasNoSlash(path);
    if forall i :: 0 <= i < |parts| ==> NoControl(parts[i]) {
      forall b | b in path
        ensures b >= 0x20
      {
        if b != SLASH {
          var i :| 0 <= i < |parts| && b in parts[i];
        }
      }
    }
    if forall b :: b in path ==> b >= 0x20 {
      forall i, b | 0 <= i < |parts| && b in parts[i]
        ensures b >= 0x20
      {
        assert b != SLASH && b in path;
      }
    }
  }

  lemma {:induction false} SplitHasNoSlash(s: Bytes)
    ensures forall i :: 0 <= i < |Split(s)| ==> SLASH !in Split(s)[i]
  {
    if s != [] {
      SplitHasNoSlash(s[1..]);
    }
  }

  /** A segment list that ValidPath could have produced: what every disk target looks like. */
  predicate Normal(parts: Segments) {
    forall i :: 0 <= i < |parts| ==> parts[i] != [] && parts[i] != [DOT] && parts[i] != [DOT, DOT]
  }

  // ------------------------------------------------------------- Resolution

  /** filepath.Clean on an absolute path: drops empty and "." parts, ".." pops. */
  function Clean(done: Segments, parts: Segments): Segments
    decreases |parts|
  {
    if parts == [] then done
    else if parts[0] == [] || parts[0] == [DOT] then Clean(done, parts[1..])
    else if parts[0] == [DOT, DOT] then Clean(if done == [] then [] else done[..|done| - 1], parts[1..])
    else Clean(done + [parts[0]], parts[1..])
  }

  /** ResolvePath: join, clean, and refuse a result outside root. */
  function Resolve(root: Segments, path: Bytes): (full: Result<Segments, Error>) {
    if !ValidPath(path) then Failure(Invalid)
    else
      var joined := Clean([], root + Split(path));
      if root <= joined then Success(joined) else Failure(Invalid)
  }

  lemma {:induction false} ValidIsNormal(parts: Segments)
    requires ValidSegments(parts)
    ensures Normal(parts)
  {
    if parts != [] {
      ValidIsNormal(parts[1..]);
      assert parts == [parts[0]] + parts[1..];
    }
  }

  lemma {:induction false} CleanOfNormal(done: Segments, parts: Segments)
    requires Normal(parts)
    ensures Clean(done, parts) == done + parts
    decreases |parts|
  {
    if parts != [] {
      CleanOfNormal(done + [parts[0]], parts[1..]);
      assert done + [parts[0]] + parts[1..] == done + parts;
    }
  }

  /**
   Under a cleaned root, resolution succeeds exactly on valid paths, the result is strictly inside
   root, and it is the root followed by the path's own segments: the escape check never fires.
   */
  lemma ResolveStaysInside(root: Segments, path: Bytes)
    requires Normal(root)
    ensures Resolve(root, path).Success? <==> ValidPath(path)
    ensures ValidPath(path) ==>
              && Resolve(root, path) == Success(root + Split(path))
              && root < Resolve(root, path).value
              && Normal(Resolve(root, path).value)
              && |Resolve(root, path).value| <= |root| + MAX_PATH_SEGMENTS
  {
    if ValidPath(path) {
      ValidIsNormal(Split(path));
      assert Normal(root + Split(path));
      CleanOfNormal([], root + Split(path));
      assert [] + (root + Split(path)) == root + Split(path);
    }
  }

  /** Two valid paths name the same place only when they are the same path. */
  lemma ResolveInjective(root: Segments, p: Bytes, q: Bytes)
    requires Normal(root) && ValidPath(p) && ValidPath(q)
    requires Resolve(root, p) == Resolve(root, q)
    ensures p == q
  {
    ResolveStaysInside(root, p);
    ResolveStaysInside(root, q);
    assert (root + Split(p))[|root|..] == Split(p);
    assert (root + Split(q))[|root|..] == Split(q);
    SplitInjective(p, q);
  }
}
