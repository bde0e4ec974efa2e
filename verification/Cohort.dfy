/** The cohort-name grammar, as the collector checks it and as the SDK checks it. */
module Cohort {
  import opened Wrappers
  import opened Bytes

  const SLASH: Byte := 47
  const MAX_NAME_BYTES: nat := 255
  const MAX_SEGMENTS: nat := 8
  const MAX_SEGMENT_BYTES: nat := 63

  /** ASCII text as bytes; characters outside ASCII do not occur in the literals used here. */
  function Text(s: string): (r: seq<Byte>)
    ensures |r| == |s|
    ensures forall i :: 0 <= i < |s| && s[i] < 128 as char ==> r[i] == s[i] as int
  {
    seq(|s|, i requires 0 <= i < |s| => if s[i] < 128 as char then s[i] as int else 63)
  }

  predicate StartsWith(s: seq<int>, prefix: seq<int>) {
    prefix <= s
  }

  function Split(s: seq<int>): (r: seq<seq<int>>)
    ensures r != []
  {
    if s == [] then [[]]
    else
      var rest := Split(s[1..]);
      if s[0] == SLASH then [[]] + rest else [[s[0]] + rest[0]] + rest[1..]
  }

  predicate AllowedByte(b: int) {
    || 65 <= b <= 90 || 97 <= b <= 122 || 48 <= b <= 57
    || b == 46 || b == 95 || b == 45 || b == 61
  }

  predicate AllAllowed(s: seq<int>) {
    forall i :: 0 <= i < |s| ==> AllowedByte(s[i])
  }

  // ----- the collector's validator -----

  datatype NameError =
    | Empty | NameTooLong | NonAscii | TooManySegments | EmptySegment
    | SegmentTooLong | DotSegment | ReservedWindowSegment | InvalidSegment

  const WINDOW_MARKER: seq<Byte> := [119, 105, 110, 100, 111, 119, 61]

  function ValidateSegment(segment: seq<int>): Result<(), NameError> {
    if segment == [] then Err(EmptySegment)
    else if |segment| > MAX_SEGMENT_BYTES then Err(SegmentTooLong)
    else if segment == [46] || segment == [46, 46] then Err(DotSegment)
    else if StartsWith(segment, WINDOW_MARKER) then Err(ReservedWindowSegment)
    else if AllAllowed(segment) then Ok(())
    else Err(InvalidSegment)
  }

  function ValidateSegments(segments: seq<seq<int>>): Result<(), NameError> {
    if segments == [] then Ok(())
    else
      var _ :- ValidateSegment(segments[0]);
      ValidateSegments(segments[1..])
  }

  function ValidateName(name: seq<Byte>): Result<(), NameError> {
    if name == [] then Err(Empty)
    else if |name| > MAX_NAME_BYTES then Err(NameTooLong)
    else if !IsAscii(name) then Err(NonAscii)
    else if |Split(name)| > MAX_SEGMENTS then Err(TooManySegments)
    else ValidateSegments(Split(name))
  }

  predicate ValidName(name: seq<Byte>) { ValidateName(name).Ok? }

  lemma {:induction false} SegmentsAllValid(segments: seq<seq<int>>)
    ensures ValidateSegments(segments).Ok?
         <==> forall i :: 0 <= i < |segments| ==> ValidateSegment(segments[i]).Ok?
  {
    if segments != [] {
      SegmentsAllValid(segments[1..]);
      assert forall i :: 0 < i < |segments| ==> segments[i] == segments[1..][i - 1];
    }
  }

  // ----- the SDK's pattern: a sequence of lookaheads and a greedy run, over code points -----

  /** The position `n` is where a pattern segment may end: at a slash or at the end of the name. */
  predicate AtBoundary(s: seq<int>, n: nat) {
    n == |s| || (n < |s| && s[n] == SLASH)
  }

  predicate AllDots(s: seq<int>) {
    forall i :: 0 <= i < |s| ==> s[i] == 46
  }

  predicate SegmentPattern(s: seq<int>, j: nat)
    requires j <= |s|
  {
    && (exists n: nat :: 1 <= n <= 63 && n <= |s| && AllAllowed(s[..n]) && AtBoundary(s, n))
    && !(exists n: nat :: 1 <= n <= 2 && n <= |s| && AllDots(s[..n]) && AtBoundary(s, n))
    && !StartsWith(s, WINDOW_MARKER)
    && j > 0 && AllAllowed(s[..j])
  }

  /** Some way of matching one segment and then at most `more` slash-led segments uses up `s`. */
  predicate PatternMatches(s: seq<int>, more: nat)
    decreases more
  {
    exists j: nat ::
      && j <= |s| && SegmentPattern(s, j)
      && (j == |s| || (s[j] == SLASH && more > 0 && PatternMatches(s[j + 1..], more - 1)))
  }

  predicate SdkAccepts(name: seq<int>) {
    |name| <= MAX_NAME_BYTES && PatternMatches(name, 7)
  }

  // ----- the two agree -----

  /** Splitting off everything before the first slash. */
  lemma {:induction false} SplitAtFirstSlash(s: seq<int>, n: nat)
    requires n <= |s| && AtBoundary(s, n) && (forall i :: 0 <= i < n ==> s[i] != SLASH)
    ensures Split(s) == if n == |s| then [s] else [s[..n]] + Split(s[n + 1..])
  {
    if n > 0 {
      SplitAtFirstSlash(s[1..], n - 1);
      if n == |s| {
        assert [s[0]] + s[1..] == s;
      } else {
        assert s[1..][..n - 1] == s[1..n] && [s[0]] + s[1..n] == s[..n];
        assert s[1..][n..] == s[n + 1..];
      }
    }
  }

  function FirstBoundary(s: seq<int>): (n: nat)
    ensures n <= |s| && AtBoundary(s, n)
    ensures forall i :: 0 <= i < n ==> s[i] != SLASH
  {
    if s == [] || s[0] == SLASH then 0 else 1 + FirstBoundary(s[1..])
  }

  /** A segment pattern followed by a boundary is exactly one valid path segment. */
  lemma SegmentPatternIsSegment(s: seq<int>, j: nat)
    requires j <= |s| && AtBoundary(s, j)
    ensures SegmentPattern(s, j) <==> j == FirstBoundary(s) && ValidateSegment(s[..j]).Ok?
  {
    if SegmentPattern(s, j) { PatternGivesSegment(s, j); }
    if j == FirstBoundary(s) && ValidateSegment(s[..j]).Ok? { SegmentGivesPattern(s, j); }
  }

  lemma PatternGivesSegment(s: seq<int>, j: nat)
    requires j <= |s| && AtBoundary(s, j) && SegmentPattern(s, j)
    ensures j == FirstBoundary(s) && ValidateSegment(s[..j]).Ok?
  {
    var n := FirstBoundary(s);
    assert forall i :: 0 <= i < j ==> s[..j][i] == s[i];
    assert j == n;
    var w: nat :| 1 <= w <= 63 && w <= |s| && AllAllowed(s[..w]) && AtBoundary(s, w);
    assert forall i :: 0 <= i < w ==> s[..w][i] == s[i];
    assert w == n;
    assert AllDots(s[..j]) ==> j > 2;
    assert StartsWith(s[..j], WINDOW_MARKER) ==> StartsWith(s, WINDOW_MARKER);
  }

  lemma SegmentGivesPattern(s: seq<int>, j: nat)
    requires j <= |s| && AtBoundary(s, j) && j == FirstBoundary(s) && ValidateSegment(s[..j]).Ok?
    ensures SegmentPattern(s, j)
  {
    forall w: nat | 1 <= w <= 2 && w <= |s| && AllDots(s[..w])
      ensures !AtBoundary(s, w)
    {
      DotsToBoundary(s, w);
    }
    if StartsWith(s, WINDOW_MARKER) { MarkerBeforeBoundary(s); }
  }

  lemma DotsToBoundary(s: seq<int>, w: nat)
    requires 1 <= w <= 2 && w <= |s| && AllDots(s[..w])
    ensures AtBoundary(s, w) ==> s[..FirstBoundary(s)] == if w == 1 then [46] else [46, 46]
  {
    assert forall i :: 0 <= i < w ==> s[..w][i] == s[i];
  }

  lemma MarkerBeforeBoundary(s: seq<int>)
    requires StartsWith(s, WINDOW_MARKER)
    ensures StartsWith(s[..FirstBoundary(s)], WINDOW_MARKER)
  {
    assert forall i :: 0 <= i < 7 ==> s[i] == WINDOW_MARKER[i];
  }

  lemma {:induction false} PatternIsSplit(s: seq<int>, more: nat)
    ensures PatternMatches(s, more)
         <==> |Split(s)| <= more + 1 && ValidateSegments(Split(s)).Ok?
    decreases more
  {
    hide SegmentPattern, ValidateSegment;
    var n := FirstBoundary(s);
    SplitAtFirstSlash(s, n);
    SegmentPatternIsSegment(s, n);
    if n < |s| {
      assert ([s[..n]] + Split(s[n + 1..]))[1..] == Split(s[n + 1..]);
      if more > 0 { PatternIsSplit(s[n + 1..], more - 1); }
    }
    assert Split(s)[0] == s[..n];
    if PatternMatches(s, more) {
      var j: nat :| j <= |s| && SegmentPattern(s, j)
        && (j == |s| || (s[j] == SLASH && more > 0 && PatternMatches(s[j + 1..], more - 1)));
      SegmentPatternIsSegment(s, j);
      assert j == n;
    }
  }

  type CodePoint = c: int | 0 <= c < 0x110000

  /** UTF-8 encoding of one code point (RFC 3629, section 3). */
  function EncodeCodePoint(c: CodePoint): seq<Byte> {
    if c < 0x80 then [c]
    else if c < 0x800 then [0xC0 + c / 64, 0x80 + c % 64]
    else if c < 0x10000 then [0xE0 + c / 4096, 0x80 + c / 64 % 64, 0x80 + c % 64]
    else [0xF0 + c / 262144, 0x80 + c / 4096 % 64, 0x80 + c / 64 % 64, 0x80 + c % 64]
  }

  function EncodeUtf8(name: seq<CodePoint>): seq<Byte> {
    if name == [] then [] else EncodeCodePoint(name[0]) + EncodeUtf8(name[1..])
  }

  lemma {:induction false} EncodeAscii(name: seq<CodePoint>)
    requires forall i :: 0 <= i < |name| ==> name[i] < 128
    ensures EncodeUtf8(name) == name && IsAscii(EncodeUtf8(name))
  {
    if name != [] {
      EncodeAscii(name[1..]);
      assert name == [name[0]] + name[1..];
    }
  }

  lemma {:induction false} EncodeNonAscii(name: seq<CodePoint>, i: nat)
    requires i < |name| && name[i] >= 128
    ensures !IsAscii(EncodeUtf8(name))
  {
    var head, tail := EncodeCodePoint(name[0]), EncodeUtf8(name[1..]);
    if i == 0 {
      assert EncodeUtf8(name)[0] == head[0] >= 128;
    } else {
      EncodeNonAscii(name[1..], i - 1);
      var k :| 0 <= k < |tail| && tail[k] >= 128;
      assert (head + tail)[|head| + k] == tail[k];
    }
  }

  /** If every segment is made of allowed bytes, so is the whole name, slashes aside. */
  lemma {:induction false} AllowedThroughout(s: seq<int>)
    requires forall k :: 0 <= k < |Split(s)| ==> AllAllowed(Split(s)[k])
    ensures forall i :: 0 <= i < |s| ==> s[i] == SLASH || AllowedByte(s[i])
  {
    if s != [] {
      var all, rest := Split(s), Split(s[1..]);
      if s[0] == SLASH {
        assert forall k :: 0 <= k < |rest| ==> rest[k] == all[k + 1];
      } else {
        assert forall k :: 0 < k < |rest| ==> rest[k] == all[k];
        assert all[0] == [s[0]] + rest[0];
        assert forall p :: 0 <= p < |rest[0]| ==> rest[0][p] == all[0][p + 1];
        assert AllAllowed(all[0]) && all[0][0] == s[0];
      }
      AllowedThroughout(s[1..]);
      assert forall i :: 0 < i < |s| ==> s[i] == s[1..][i - 1];
    }
  }

  /** A name of valid segments holds nothing but slashes and allowed characters, all ASCII. */
  lemma AcceptedIsAscii(name: seq<int>)
    requires ValidateSegments(Split(name)).Ok?
    ensures forall i :: 0 <= i < |name| ==> name[i] == SLASH || AllowedByte(name[i])
  {
    ValidSegmentsAllowed(Split(name));
    AllowedThroughout(name);
  }

  lemma {:induction false} ValidSegmentsAllowed(segments: seq<seq<int>>)
    requires ValidateSegments(segments).Ok?
    ensures forall k :: 0 <= k < |segments| ==> AllAllowed(segments[k])
  {
    if segments != [] {
      assert ValidateSegment(segments[0]).Ok?;
      ValidSegmentsAllowed(segments[1..]);
      assert forall k :: 0 < k < |segments| ==> segments[k] == segments[1..][k - 1];
    }
  }

  /** The SDK accepts a name exactly when the collector accepts its UTF-8 bytes. */
  lemma ValidatorsAgree(name: seq<CodePoint>)
    ensures SdkAccepts(name) <==> ValidName(EncodeUtf8(name))
  {
    PatternIsSplit(name, 7);
    if forall i :: 0 <= i < |name| ==> name[i] < 128 {
      EncodeAscii(name);
      if name == [] { assert ValidateSegment([]).Err?; }
    } else {
      var i :| 0 <= i < |name| && name[i] >= 128;
      EncodeNonAscii(name, i);
      if SdkAccepts(name) { AcceptedIsAscii(name); }
    }
  }
}
