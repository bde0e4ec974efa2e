/** Protocol v1 frames: the SDK's encoder and the parser of collector and tuner. */
module Frame {
  import opened Wrappers
  import opened Bytes
  import opened Cohort

  const FRAME_MAGIC: seq<Byte> := [86, 81, 83, 49]
  const FRAME_VERSION: U32 := 1
  const FIXED_HEADER_LEN: nat := 28
  const LEN_FIELD: nat := 4

  datatype FrameError =
    | FrameTruncated(needed: nat, actual: nat)
    | BadMagic
    | BadVersion(version: U32)
    | NameLenExceedsFrame
    | FrameLenMismatch(declaredTotal: nat, actualTotal: nat)
    | InvalidNameUtf8

  datatype FrameHeader = FrameHeader(
    frameLen: U32, dtype: U32, nameLen: U32, dimension: U32, vectorLen: U32, name: seq<Byte>)

  /** The fixed header as it stands in the buffer, before any of it is checked. */
  datatype FixedHeader = FixedHeader(
    frameLen: U32, magic: seq<Byte>, version: U32, dtype: U32, nameLen: U32, dimension: U32, vectorLen: U32)

  function ReadFixedHeader(buffer: seq<Byte>): FixedHeader
    requires |buffer| >= FIXED_HEADER_LEN
  {
    FixedHeader(ReadU32(buffer, 0).value, buffer[4..8], ReadU32(buffer, 8).value, ReadU32(buffer, 12).value,
                ReadU32(buffer, 16).value, ReadU32(buffer, 20).value, ReadU32(buffer, 24).value)
  }

  function CheckHeader(buffer: seq<Byte>, h: FixedHeader): Result<FrameHeader, FrameError>
    requires |buffer| >= FIXED_HEADER_LEN
  {
    var declared := h.frameLen + LEN_FIELD;
    var vectorStart := FIXED_HEADER_LEN + h.nameLen;
    if declared != |buffer| then Err(FrameLenMismatch(declared, |buffer|))
    else if h.magic != FRAME_MAGIC then Err(BadMagic)
    else if h.version != FRAME_VERSION then Err(BadVersion(h.version))
    else if vectorStart > declared then Err(NameLenExceedsFrame)
    else if vectorStart + h.vectorLen != declared then Err(FrameLenMismatch(declared, vectorStart + h.vectorLen))
    else if !ValidUtf8(buffer[FIXED_HEADER_LEN..vectorStart]) then Err(InvalidNameUtf8)
    else Ok(FrameHeader(h.frameLen, h.dtype, h.nameLen, h.dimension, h.vectorLen,
                        buffer[FIXED_HEADER_LEN..vectorStart]))
  }

  /** Parses a buffer that must hold exactly one frame. Lengths are natural numbers: on the 64-bit
      targets the collector runs on, none of its length sums can overflow. */
  function ParseFrame(buffer: seq<Byte>): Result<FrameHeader, FrameError> {
    if |buffer| < FIXED_HEADER_LEN then Err(FrameTruncated(FIXED_HEADER_LEN, |buffer|))
    else CheckHeader(buffer, ReadFixedHeader(buffer))
  }

  function TotalFrameLen(buffer: seq<Byte>): Result<nat, FrameError> {
    if |buffer| < LEN_FIELD then Err(FrameTruncated(LEN_FIELD, |buffer|))
    else Ok(ReadU32(buffer, 0).value + LEN_FIELD)
  }

  /** The byte layout of a frame. */
  function Layout(dtype: U32, dimension: U32, name: seq<Byte>, vector: seq<Byte>): (f: seq<Byte>)
    ensures |f| == FIXED_HEADER_LEN + |name| + |vector|
  {
    EncodeLe(24 + |name| + |vector|, 4) + FRAME_MAGIC + EncodeLe(FRAME_VERSION, 4) + EncodeLe(dtype, 4)
    + EncodeLe(|name|, 4) + EncodeLe(dimension, 4) + EncodeLe(|vector|, 4) + name + vector
  }

  function PayloadOf(frame: seq<Byte>): seq<Byte>
    requires ParseFrame(frame).Ok?
  {
    frame[FIXED_HEADER_LEN + ParseFrame(frame).value.nameLen..]
  }

  /** Parsing a laid-out frame gives back every field and the payload. */
  lemma LayoutThenParse(dtype: U32, dimension: U32, name: seq<Byte>, vector: seq<Byte>)
    requires 24 + |name| + |vector| < U32_LIMIT && ValidUtf8(name)
    ensures var f := Layout(dtype, dimension, name, vector);
            && ParseFrame(f) == Ok(FrameHeader(24 + |name| + |vector|, dtype, |name|, dimension, |vector|, name))
            && PayloadOf(f) == vector
  {
    hide Layout, EncodeLe, ReadFixedHeader, ValidUtf8;
    LayoutReads(dtype, dimension, name, vector);
    var f, n := Layout(dtype, dimension, name, vector), 24 + |name| + |vector|;
    HeaderAccepted(f, FixedHeader(n, FRAME_MAGIC, FRAME_VERSION, dtype, |name|, dimension, |vector|), name);
    hide CheckHeader;
    assert ParseFrame(f).value.nameLen == |name|;
  }

  lemma HeaderAccepted(f: seq<Byte>, h: FixedHeader, name: seq<Byte>)
    requires |f| >= FIXED_HEADER_LEN && h.frameLen + LEN_FIELD == |f| && h.nameLen == |name|
    requires h.magic == FRAME_MAGIC && h.version == FRAME_VERSION && FIXED_HEADER_LEN + |name| + h.vectorLen == |f|
    requires f[FIXED_HEADER_LEN..FIXED_HEADER_LEN + |name|] == name && ValidUtf8(name)
    ensures CheckHeader(f, h) == Ok(FrameHeader(h.frameLen, h.dtype, |name|, h.dimension, h.vectorLen, name))
  {
    hide ValidUtf8;
  }

  lemma LayoutReads(dtype: U32, dimension: U32, name: seq<Byte>, vector: seq<Byte>)
    requires 24 + |name| + |vector| < U32_LIMIT
    ensures var f := Layout(dtype, dimension, name, vector);
            && ReadFixedHeader(f) == FixedHeader(24 + |name| + |vector|, FRAME_MAGIC, FRAME_VERSION, dtype,
                                                 |name|, dimension, |vector|)
            && f[28..28 + |name|] == name && f[28 + |name|..] == vector
  {
    hide EncodeLe, DecodeLe, ReadU32;
    var f := Layout(dtype, dimension, name, vector);
    LayoutSlices(f, EncodeLe(24 + |name| + |vector|, 4), EncodeLe(FRAME_VERSION, 4), EncodeLe(dtype, 4),
                 EncodeLe(|name|, 4), EncodeLe(dimension, 4), EncodeLe(|vector|, 4), name, vector);
    ReadBack32(f, 0, 24 + |name| + |vector|);
    ReadBack32(f, 8, FRAME_VERSION);
    ReadBack32(f, 12, dtype);
    ReadBack32(f, 16, |name|);
    ReadBack32(f, 20, dimension);
    ReadBack32(f, 24, |vector|);
  }

  lemma LayoutSlices(f: seq<Byte>, a: seq<Byte>, b: seq<Byte>, c: seq<Byte>, d: seq<Byte>, e: seq<Byte>,
                     g: seq<Byte>, name: seq<Byte>, vector: seq<Byte>)
    requires |a| == |b| == |c| == |d| == |e| == |g| == 4
    requires f == a + FRAME_MAGIC + b + c + d + e + g + name + vector
    ensures f[0..4] == a && f[4..8] == FRAME_MAGIC && f[8..12] == b && f[12..16] == c
    ensures f[16..20] == d && f[20..24] == e && f[24..28] == g
    ensures f[28..28 + |name|] == name && f[28 + |name|..] == vector
  {
  }

  /** A frame the parser accepts is the layout of what it parsed: no byte of it is unaccounted for. */
  lemma ParseThenLayout(frame: seq<Byte>)
    requires ParseFrame(frame).Ok?
    ensures var h := ParseFrame(frame).value;
            && frame == Layout(h.dtype, h.dimension, h.name, PayloadOf(frame))
            && |h.name| == h.nameLen && |PayloadOf(frame)| == h.vectorLen
  {
    hide Layout, ReadFixedHeader, ValidUtf8;
    var h := ReadFixedHeader(frame);
    HeaderBytes(frame);
    assert frame == frame[..28] + frame[28..28 + h.nameLen] + frame[28 + h.nameLen..];
    LayoutPrefix(h, frame[28..28 + h.nameLen], frame[28 + h.nameLen..]);
  }

  lemma LayoutPrefix(h: FixedHeader, name: seq<Byte>, vector: seq<Byte>)
    requires h.frameLen == 24 + |name| + |vector| && h.magic == FRAME_MAGIC && h.version == FRAME_VERSION
    requires h.nameLen == |name| && h.vectorLen == |vector|
    ensures Layout(h.dtype, h.dimension, name, vector) == FixedBytes(h) + name + vector
  {
    hide EncodeLe;
  }

  function FixedBytes(h: FixedHeader): seq<Byte> {
    EncodeLe(h.frameLen, 4) + h.magic + EncodeLe(h.version, 4) + EncodeLe(h.dtype, 4)
    + EncodeLe(h.nameLen, 4) + EncodeLe(h.dimension, 4) + EncodeLe(h.vectorLen, 4)
  }

  lemma HeaderBytes(frame: seq<Byte>)
    requires |frame| >= FIXED_HEADER_LEN
    ensures frame[..28] == FixedBytes(ReadFixedHeader(frame))
  {
    hide EncodeLe, ReadU32;
    FieldBytes32(frame, 0);
    FieldBytes32(frame, 8);
    FieldBytes32(frame, 12);
    FieldBytes32(frame, 16);
    FieldBytes32(frame, 20);
    FieldBytes32(frame, 24);
    assert frame[..28] == frame[0..4] + frame[4..8] + frame[8..12] + frame[12..16] + frame[16..20]
                          + frame[20..24] + frame[24..28];
  }

  /** A frame announces its own length, whatever bytes follow it on a stream or in a file. */
  lemma SelfDelimiting(frame: seq<Byte>, rest: seq<Byte>)
    requires ParseFrame(frame).Ok?
    ensures TotalFrameLen(frame + rest) == Ok(|frame|)
  {
    FieldBytes32(frame, 0);
    assert (frame + rest)[0..4] == frame[0..4];
    ReadBack32(frame + rest, 0, ReadU32(frame, 0).value);
  }

  // ----- the SDK's encoder -----

  datatype DType = F32 | F64 | F16 | BF16 | I8 | U8 {
    function Code(): U32 {
      match this case F32 => 1 case F64 => 2 case F16 => 3 case BF16 => 4 case I8 => 5 case U8 => 6
    }
    function ByteSize(): nat {
      match this case F32 => 4 case F64 => 8 case F16 => 2 case BF16 => 2 case I8 => 1 case U8 => 1
    }
  }

  datatype EncodeError = NameGrammar | EmptyVector | NotU32(field: string) | VectorLenMismatch

  function EncodeFrame(name: seq<CodePoint>, dtype: DType, dimension: int, vector: seq<Byte>)
    : Result<seq<Byte>, EncodeError>
  {
    if !SdkAccepts(name) then Err(NameGrammar)
    else if dimension == 0 then Err(EmptyVector)
    else if !(0 <= dimension < U32_LIMIT) then Err(NotU32("dimension"))
    else if |vector| != dimension * dtype.ByteSize() then Err(VectorLenMismatch)
    else if |vector| >= U32_LIMIT then Err(NotU32("vector_len"))
    else
      var nameBytes := EncodeUtf8(name);
      if 24 + |nameBytes| + |vector| >= U32_LIMIT then Err(NotU32("frame_len"))
      else Ok(Layout(dtype.Code(), dimension, nameBytes, vector))
  }

  lemma ValidNamesAreText(name: seq<Byte>)
    requires ValidName(name)
    ensures ValidUtf8(name) && 0 < |name| <= MAX_NAME_BYTES
  {
    AsciiIsUtf8(name);
  }

  /** Whatever the SDK encodes, the collector parses back field for field, under a name it accepts. */
  lemma EncodedFramesParse(name: seq<CodePoint>, dtype: DType, dimension: int, vector: seq<Byte>)
    requires EncodeFrame(name, dtype, dimension, vector).Ok?
    ensures var f := EncodeFrame(name, dtype, dimension, vector).value;
            && ParseFrame(f).Ok?
            && ParseFrame(f).value.name == EncodeUtf8(name) && ValidName(EncodeUtf8(name))
            && ParseFrame(f).value.dtype == dtype.Code()
            && ParseFrame(f).value.dimension == dimension
            && PayloadOf(f) == vector
  {
    ValidatorsAgree(name);
    ValidNamesAreText(EncodeUtf8(name));
    LayoutThenParse(dtype.Code(), dimension, EncodeUtf8(name), vector);
  }
}
