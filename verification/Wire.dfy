/** The formats as bytes: where each field of a frame and of a segment stands, and which frames the SDK
    makes. */
module Wire {
  import opened Wrappers
  import opened Bytes
  import opened Cohort
  import opened Frame
  import Measure
  import Segment
  import Timestamp

  /** `n` stands at `offset` in `width` bytes, the least significant first. */
  predicate NumberAt(buffer: seq<Byte>, offset: nat, width: nat, n: nat) {
    && offset + width <= |buffer|
    && forall k :: 0 <= k < width ==> buffer[offset + k] == n / Radix(k) % 256
  }

  predicate BytesAt(buffer: seq<Byte>, offset: nat, bytes: seq<Byte>) {
    offset + |bytes| <= |buffer| && buffer[offset..offset + |bytes|] == bytes
  }

  lemma DivideTwice(n: nat, radix: nat)
    requires radix > 0
    ensures n / 256 / radix == n / (256 * radix)
  {
    var q, r := n / (256 * radix), n % (256 * radix);
    assert n == 256 * radix * q + r;
    var whole := radix * q;
    assert n == 256 * (whole + r / 256) + r % 256;
    Timestamp.RemainderOfMultiple(256, whole + r / 256, r % 256);
    assert r / 256 < radix;
    Timestamp.RemainderOfMultiple(radix, q, r / 256);
  }

  lemma {:induction false} EncodedDigits(n: nat, width: nat)
    ensures forall k :: 0 <= k < width ==> EncodeLe(n, width)[k] == n / Radix(k) % 256
  {
    if width > 0 {
      EncodedDigits(n / 256, width - 1);
      forall k | 0 < k < width ensures EncodeLe(n, width)[k] == n / Radix(k) % 256 {
        HigherDigit(n, k);
        assert EncodeLe(n, width)[k] == EncodeLe(n / 256, width - 1)[k - 1];
      }
      hide Radix;
    }
  }

  lemma HigherDigit(n: nat, k: nat)
    requires k > 0
    ensures n / Radix(k) == n / 256 / Radix(k - 1)
  {
    DivideTwice(n, Radix(k - 1));
  }

  lemma EncodedAt(buffer: seq<Byte>, offset: nat, width: nat, n: nat)
    requires BytesAt(buffer, offset, EncodeLe(n, width))
    ensures NumberAt(buffer, offset, width, n)
  {
    EncodedDigits(n, width);
    hide EncodeLe, Radix;
    forall k | 0 <= k < width ensures buffer[offset + k] == n / Radix(k) % 256 {
      assert buffer[offset + k] == buffer[offset..offset + width][k];
    }
  }

  /** The bytes of a frame, field by field. */
  predicate FrameBytes(f: seq<Byte>, dtype: U32, dimension: U32, name: seq<Byte>, vector: seq<Byte>) {
    && |f| == 28 + |name| + |vector|
    && NumberAt(f, 0, 4, 24 + |name| + |vector|)
    && BytesAt(f, 4, Text("VQS1"))
    && NumberAt(f, 8, 4, 1)
    && NumberAt(f, 12, 4, dtype)
    && NumberAt(f, 16, 4, |name|)
    && NumberAt(f, 20, 4, dimension)
    && NumberAt(f, 24, 4, |vector|)
    && BytesAt(f, 28, name) && BytesAt(f, 28 + |name|, vector)
  }

  lemma FrameLayout(dtype: U32, dimension: U32, name: seq<Byte>, vector: seq<Byte>)
    requires 24 + |name| + |vector| < U32_LIMIT
    ensures FrameBytes(Layout(dtype, dimension, name, vector), dtype, dimension, name, vector)
  {
    hide EncodeLe, NumberAt;
    var f := Layout(dtype, dimension, name, vector);
    LayoutSlices(f, EncodeLe(24 + |name| + |vector|, 4), EncodeLe(FRAME_VERSION, 4), EncodeLe(dtype, 4),
                 EncodeLe(|name|, 4), EncodeLe(dimension, 4), EncodeLe(|vector|, 4), name, vector);
    hide Layout;
    EncodedAt(f, 0, 4, 24 + |name| + |vector|);
    EncodedAt(f, 8, 4, 1);
    EncodedAt(f, 12, 4, dtype);
    EncodedAt(f, 16, 4, |name|);
    EncodedAt(f, 20, 4, dimension);
    EncodedAt(f, 24, 4, |vector|);
    assert FRAME_MAGIC == Text("VQS1");
  }

  /** A frame that the parser accepts has its fields where the format puts them. */
  lemma ParsedFrameBytes(f: seq<Byte>)
    requires ParseFrame(f).Ok?
    ensures var h := ParseFrame(f).value; FrameBytes(f, h.dtype, h.dimension, h.name, PayloadOf(f))
  {
    hide ParseFrame, PayloadOf, Layout, FrameBytes;
    ParseThenLayout(f);
    var h := ParseFrame(f).value;
    FrameLength(f);
    FrameLayout(h.dtype, h.dimension, h.name, PayloadOf(f));
  }

  lemma FrameLength(f: seq<Byte>)
    requires ParseFrame(f).Ok?
    ensures 24 + |ParseFrame(f).value.name| + |PayloadOf(f)| < U32_LIMIT
  {
    hide ValidUtf8, ReadU32;
  }

  /** The bytes of a segment up to its records. */
  predicate SegmentHeaderBytes(s: seq<Byte>, h: Segment.Header) {
    && BytesAt(s, 0, Text("VSG1")) && NumberAt(s, 4, 4, 46 + |h.cohort|)
    && NumberAt(s, 8, 8, h.windowStart) && NumberAt(s, 16, 4, h.windowSeconds)
    && NumberAt(s, 20, 8, h.firstReceive) && NumberAt(s, 28, 8, h.lastReceive)
    && NumberAt(s, 36, 8, h.receivedFrameCount) && NumberAt(s, 44, 8, h.recordCount)
    && NumberAt(s, 52, 2, |h.cohort|) && BytesAt(s, 54, h.cohort)
  }

  /** The records follow one another, each an eight-byte time and its frame. */
  predicate RecordsAt(s: seq<Byte>, offset: nat, rs: seq<Segment.Record>)
    decreases |rs|
  {
    if rs == [] then offset == |s|
    else
      && NumberAt(s, offset, 8, rs[0].receiveTime) && BytesAt(s, offset + 8, rs[0].frame)
      && RecordsAt(s, offset + 8 + |rs[0].frame|, rs[1..])
  }

  lemma {:induction false} RecordsBytesAt(prefix: seq<Byte>, rs: seq<Segment.Record>)
    ensures RecordsAt(prefix + Segment.RecordsBytes(rs), |prefix|, rs)
    decreases |rs|
  {
    hide EncodeLe, NumberAt;
    if rs != [] {
      var time, frame, rest := EncodeLe(rs[0].receiveTime, 8), rs[0].frame, Segment.RecordsBytes(rs[1..]);
      var s := prefix + Segment.RecordsBytes(rs);
      RecordsBytesAt(prefix + time + frame, rs[1..]);
      assert s == prefix + time + frame + rest;
      EncodedAt(s, |prefix|, 8, rs[0].receiveTime);
    }
  }

  lemma HeaderBytesAt(s: seq<Byte>, h: Segment.Header, rest: seq<Byte>)
    requires |h.cohort| < U16_LIMIT
    requires s == Segment.SEGMENT_MAGIC + EncodeLe(46 + |h.cohort|, 4) + Segment.HeaderFields(h) + h.cohort + rest
    ensures SegmentHeaderBytes(s, h)
  {
    hide EncodeLe, NumberAt;
    var l, a, b, c, d, e, f, g := EncodeLe(46 + |h.cohort|, 4), EncodeLe(h.windowStart, 8),
      EncodeLe(h.windowSeconds, 4), EncodeLe(h.firstReceive, 8), EncodeLe(h.lastReceive, 8),
      EncodeLe(h.receivedFrameCount, 8), EncodeLe(h.recordCount, 8), EncodeLe(|h.cohort|, 2);
    HeaderSlices(s, l, a, b, c, d, e, f, g, h.cohort, rest);
    assert Segment.SEGMENT_MAGIC == Text("VSG1");
    EncodedAt(s, 4, 4, 46 + |h.cohort|);
    EncodedAt(s, 8, 8, h.windowStart);
    EncodedAt(s, 16, 4, h.windowSeconds);
    EncodedAt(s, 20, 8, h.firstReceive);
    EncodedAt(s, 28, 8, h.lastReceive);
    EncodedAt(s, 36, 8, h.receivedFrameCount);
    EncodedAt(s, 44, 8, h.recordCount);
    EncodedAt(s, 52, 2, |h.cohort|);
  }

  lemma HeaderSlices(s: seq<Byte>, l: seq<Byte>, a: seq<Byte>, b: seq<Byte>, c: seq<Byte>, d: seq<Byte>, e: seq<Byte>,
                     f: seq<Byte>, g: seq<Byte>, cohort: seq<Byte>, rest: seq<Byte>)
    requires |l| == |b| == 4 && |a| == |c| == |d| == |e| == |f| == 8 && |g| == 2
    requires s == Segment.SEGMENT_MAGIC + l + (a + b + c + d + e + f + g) + cohort + rest
    ensures s[0..4] == Segment.SEGMENT_MAGIC && s[4..8] == l && s[8..16] == a && s[16..20] == b && s[20..28] == c
    ensures s[28..36] == d && s[36..44] == e && s[44..52] == f && s[52..54] == g && s[54..54 + |cohort|] == cohort
  {
  }

  /** What the writer writes has its fields where the format puts them. */
  lemma WrittenSegmentBytes(h: Segment.Header, rs: seq<Segment.Record>)
    requires Segment.Written(h, rs).Ok?
    ensures SegmentHeaderBytes(Segment.Written(h, rs).value, h)
    ensures RecordsAt(Segment.Written(h, rs).value, 54 + |h.cohort|, rs)
  {
    hide EncodeLe, SegmentHeaderBytes, RecordsAt;
    var prefix := Segment.SEGMENT_MAGIC + EncodeLe(46 + |h.cohort|, 4) + Segment.HeaderFields(h) + h.cohort;
    assert Segment.Written(h, rs).value == prefix + Segment.RecordsBytes(rs);
    HeaderBytesAt(prefix + Segment.RecordsBytes(rs), h, Segment.RecordsBytes(rs));
    RecordsBytesAt(prefix, rs);
  }

  // ----- the SDK's frames -----

  /** The size of one component. */
  function ComponentSize(dtype: DType): nat {
    match dtype case F32 => 4 case F64 => 8 case F16 => 2 case BF16 => 2 case I8 => 1 case U8 => 1
  }

  /** The SDK makes a frame exactly of a named, non-empty vector that has as many bytes as it says and
      whose length the format can express. */
  lemma EncodesExactly(name: seq<CodePoint>, dtype: DType, dimension: int, vector: seq<Byte>)
    ensures EncodeFrame(name, dtype, dimension, vector).Ok? <==>
      && SdkAccepts(name) && 0 < dimension && |vector| == dimension * ComponentSize(dtype)
      && 24 + |EncodeUtf8(name)| + |vector| < 0x1_0000_0000
  {
    hide SdkAccepts, EncodeUtf8, Layout;
    assert dtype.ByteSize() == ComponentSize(dtype) >= 1;
    if 0 < dimension && |vector| == dimension * ComponentSize(dtype) {
      assert |vector| >= dimension by { assert dimension * (ComponentSize(dtype) - 1) >= 0; }
    }
  }

  /** A frame of floats that the SDK makes is one the tuner can ask the database about, with the very
      vector that was captured. */
  lemma FloatFramesAreMeasurable(name: seq<CodePoint>, dimension: int, vector: seq<Byte>)
    requires EncodeFrame(name, F32, dimension, vector).Ok?
    ensures var f := EncodeFrame(name, F32, dimension, vector).value;
            ParseFrame(f).Ok? && PayloadOf(f) == vector
            && Measure.CheckedVector(ParseFrame(f).value, PayloadOf(f), EncodeUtf8(name)) == Ok(vector)
  {
    EncodedFramesParse(name, F32, dimension, vector);
    EncodesExactly(name, F32, dimension, vector);
    hide EncodeFrame, ParseFrame, PayloadOf, EncodeUtf8;
  }
}
