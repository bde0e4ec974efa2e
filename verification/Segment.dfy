/** `.vseam` segments: the collector's writer and the tuner's reader. */
module Segment {
  import opened Wrappers
  import opened Bytes
  import opened Cohort
  import opened Frame

  const SEGMENT_MAGIC: seq<Byte> := [86, 83, 71, 49]
  const BASE_HEADER_LEN: nat := 46
  const FIXED_PREFIX_LEN: nat := 8
  const RECORD_TIME_LEN: nat := 8
  const MAX_SEGMENT_OVERHEAD_BYTES: nat := FIXED_PREFIX_LEN + BASE_HEADER_LEN + MAX_NAME_BYTES

  datatype Header = Header(
    windowStart: U64, windowSeconds: U32, firstReceive: U64, lastReceive: U64,
    receivedFrameCount: U64, recordCount: U64, cohort: seq<Byte>)

  datatype Record = Record(receiveTime: U64, frame: seq<Byte>)

  datatype Segment = Segment(header: Header, records: seq<Record>)

  datatype SegmentError =
    | BadSegmentMagic
    | SegmentTruncated(needed: nat, actual: nat)
    | HeaderTooShort
    | CohortTooLong
    | InvalidCohortUtf8
    | InvalidCohort(name: NameError)
    | InvalidFrame(frame: FrameError)

  // ----- layout -----

  function HeaderFields(h: Header): (s: seq<Byte>)
    ensures |s| == BASE_HEADER_LEN
  {
    EncodeLe(h.windowStart, 8) + EncodeLe(h.windowSeconds, 4) + EncodeLe(h.firstReceive, 8)
    + EncodeLe(h.lastReceive, 8) + EncodeLe(h.receivedFrameCount, 8) + EncodeLe(h.recordCount, 8)
    + EncodeLe(|h.cohort|, 2)
  }

  function RecordBytes(r: Record): (s: seq<Byte>)
    ensures |s| == RECORD_TIME_LEN + |r.frame|
  {
    EncodeLe(r.receiveTime, 8) + r.frame
  }

  function RecordsBytes(rs: seq<Record>): seq<Byte> {
    if rs == [] then [] else RecordBytes(rs[0]) + RecordsBytes(rs[1..])
  }

  function SegmentBytes(h: Header, rs: seq<Record>): seq<Byte> {
    SEGMENT_MAGIC + EncodeLe(BASE_HEADER_LEN + |h.cohort|, 4) + HeaderFields(h) + h.cohort + RecordsBytes(rs)
  }

  // ----- writing -----

  function CheckFrames(rs: seq<Record>): Result<(), SegmentError> {
    if rs == [] then Ok(())
    else match ParseFrame(rs[0].frame)
      case Err(e) => Err(InvalidFrame(e))
      case Ok(_) => CheckFrames(rs[1..])
  }

  /** The specification of `WriteSegment`. */
  function Written(h: Header, rs: seq<Record>): Result<seq<Byte>, SegmentError> {
    if |h.cohort| >= U16_LIMIT then Err(CohortTooLong)
    else
      var _ :- CheckFrames(rs);
      Ok(SegmentBytes(h, rs))
  }

  method WriteSegment(header: Header, records: seq<Record>) returns (r: Result<seq<Byte>, SegmentError>)
    ensures r == Written(header, records)
  {
    if |header.cohort| >= U16_LIMIT {
      return Err(CohortTooLong);
    }
    for i := 0 to |records|
      invariant CheckFrames(records) == CheckFrames(records[i..])
    {
      var parsed := ParseFrame(records[i].frame);
      if parsed.Err? {
        return Err(InvalidFrame(parsed.error));
      }
    }
    var out: seq<Byte> := SEGMENT_MAGIC;
    out := out + EncodeLe(BASE_HEADER_LEN + |header.cohort|, 4);
    out := out + HeaderFields(header) + header.cohort;
    ghost var prefix := out;
    for i := 0 to |records|
      invariant out + RecordsBytes(records[i..]) == prefix + RecordsBytes(records)
    {
      out := out + EncodeLe(records[i].receiveTime, 8);
      out := out + records[i].frame;
    }
    assert out == prefix + RecordsBytes(records);
    return Ok(out);
  }

  // ----- reading -----

  /** Parses the first record of `s`, the part of a file that starts at offset `base`, and
      returns how many bytes it takes. */
  function NextRecord(s: seq<Byte>, base: nat): (r: Result<(Record, nat), SegmentError>)
    ensures r.Ok? ==> 0 < r.value.1 <= |s|
  {
    if |s| < RECORD_TIME_LEN then Err(SegmentTruncated(base + RECORD_TIME_LEN, base + |s|))
    else match TotalFrameLen(s[RECORD_TIME_LEN..])
      case Err(e) => Err(InvalidFrame(e))
      case Ok(len) =>
        var end := RECORD_TIME_LEN + len;
        if end > |s| then Err(SegmentTruncated(base + end, base + |s|))
        else match ParseFrame(s[RECORD_TIME_LEN..end])
          case Err(e) => Err(InvalidFrame(e))
          case Ok(_) => Ok((Record(ReadU64(s, 0).value, s[RECORD_TIME_LEN..end]), end))
  }

  function ParseRecords(s: seq<Byte>, base: nat): Result<seq<Record>, SegmentError>
    decreases |s|
  {
    if s == [] then Ok([])
    else
      var (record, size) :- NextRecord(s, base);
      var rest :- ParseRecords(s[size..], base + size);
      Ok([record] + rest)
  }

  function HeaderEnd(buffer: seq<Byte>): nat
    requires |buffer| >= FIXED_PREFIX_LEN
  {
    FIXED_PREFIX_LEN + ReadU32(buffer, 4).value
  }

  /** The known header fields as they stand in the buffer, before any of them is checked. */
  datatype RawHeader = RawHeader(
    windowStart: U64, windowSeconds: U32, firstReceive: U64, lastReceive: U64,
    receivedFrameCount: U64, recordCount: U64, cohortLen: U16)

  function ReadRawHeader(buffer: seq<Byte>): RawHeader
    requires |buffer| >= 54
  {
    RawHeader(ReadU64(buffer, 8).value, ReadU32(buffer, 16).value, ReadU64(buffer, 20).value,
              ReadU64(buffer, 28).value, ReadU64(buffer, 36).value, ReadU64(buffer, 44).value,
              ReadU16(buffer, 52).value)
  }

  function CheckCohort(buffer: seq<Byte>, raw: RawHeader, headerEnd: nat): Result<Header, SegmentError>
    requires 54 <= headerEnd <= |buffer|
  {
    var cohortEnd := 54 + raw.cohortLen;
    if cohortEnd > headerEnd then Err(HeaderTooShort)
    else if !ValidUtf8(buffer[54..cohortEnd]) then Err(InvalidCohortUtf8)
    else match ValidateName(buffer[54..cohortEnd])
      case Err(e) => Err(InvalidCohort(e))
      case Ok(_) => Ok(Header(raw.windowStart, raw.windowSeconds, raw.firstReceive, raw.lastReceive,
                              raw.receivedFrameCount, raw.recordCount, buffer[54..cohortEnd]))
  }

  function ParseHeader(buffer: seq<Byte>): (r: Result<Header, SegmentError>)
    ensures r.Ok? ==> |buffer| >= FIXED_PREFIX_LEN && HeaderEnd(buffer) <= |buffer|
  {
    if |buffer| < FIXED_PREFIX_LEN then Err(SegmentTruncated(FIXED_PREFIX_LEN, |buffer|))
    else if buffer[0..4] != SEGMENT_MAGIC then Err(BadSegmentMagic)
    else if HeaderEnd(buffer) < FIXED_PREFIX_LEN + BASE_HEADER_LEN then Err(HeaderTooShort)
    else if |buffer| < HeaderEnd(buffer) then Err(SegmentTruncated(HeaderEnd(buffer), |buffer|))
    else CheckCohort(buffer, ReadRawHeader(buffer), HeaderEnd(buffer))
  }

  /** The specification of `ReadSegment`. */
  function Parsed(buffer: seq<Byte>): Result<Segment, SegmentError> {
    var header :- ParseHeader(buffer);
    var end := HeaderEnd(buffer);
    var records :- ParseRecords(buffer[end..], end);
    Ok(Segment(header, records))
  }

  method ReadSegment(buffer: seq<Byte>) returns (r: Result<Segment, SegmentError>)
    ensures r == Parsed(buffer)
  {
    hide NextRecord, ParseHeader, ReadU32;
    var parsedHeader := ParseHeader(buffer);
    if parsedHeader.Err? {
      return Err(parsedHeader.error);
    }
    var headerEnd := HeaderEnd(buffer);
    var records: seq<Record> := [];
    var offset := headerEnd;
    ghost var all := ParseRecords(buffer[headerEnd..], headerEnd);
    assert all.Ok? ==> [] + all.value == all.value;
    while offset < |buffer|
      invariant headerEnd <= offset <= |buffer|
      invariant var rest := ParseRecords(buffer[offset..], offset);
                all == if rest.Ok? then Ok(records + rest.value) else rest
    {
      var next := NextRecord(buffer[offset..], offset);
      if next.Err? {
        return Err(next.error);
      }
      var (record, size) := next.value;
      assert buffer[offset..][size..] == buffer[offset + size..];
      ghost var rest := ParseRecords(buffer[offset + size..], offset + size);
      assert rest.Ok? ==> records + ([record] + rest.value) == (records + [record]) + rest.value;
      records := records + [record];
      offset := offset + size;
    }
    assert buffer[offset..] == [] && records + [] == records;
    return Ok(Segment(parsedHeader.value, records));
  }

  // ----- the two are inverse -----

  lemma {:induction false} FramesParse(rs: seq<Record>)
    ensures CheckFrames(rs).Ok? <==> forall i :: 0 <= i < |rs| ==> ParseFrame(rs[i].frame).Ok?
  {
    if rs != [] {
      FramesParse(rs[1..]);
      assert forall i :: 0 < i < |rs| ==> rs[i] == rs[1..][i - 1];
    }
  }

  lemma {:induction false} RecordsWriteThenRead(rs: seq<Record>, base: nat)
    requires CheckFrames(rs).Ok?
    ensures ParseRecords(RecordsBytes(rs), base) == Ok(rs)
  {
    hide EncodeLe, DecodeLe, ParseFrame;
    if rs != [] {
      var r, tail := rs[0], RecordsBytes(rs[1..]);
      var s := RecordsBytes(rs);
      assert s[0..8] == EncodeLe(r.receiveTime, 8);
      ReadBack64(s, 0, r.receiveTime);
      assert s[8..] == r.frame + tail;
      SelfDelimiting(r.frame, tail);
      assert s[8..8 + |r.frame|] == r.frame;
      assert s[8 + |r.frame|..] == tail;
      RecordsWriteThenRead(rs[1..], base + 8 + |r.frame|);
      assert rs == [r] + rs[1..];
    }
  }

  lemma NextRecordBytes(s: seq<Byte>, base: nat)
    requires NextRecord(s, base).Ok?
    ensures var (record, size) := NextRecord(s, base).value;
            RecordBytes(record) == s[..size] && ParseFrame(record.frame).Ok?
  {
    hide EncodeLe, DecodeLe, ParseFrame, ReadU64;
    var size := NextRecord(s, base).value.1;
    FieldBytes64(s, 0);
    assert s[..size] == s[0..8] + s[8..size];
  }

  lemma {:induction false} RecordsReadThenWrite(s: seq<Byte>, base: nat)
    requires ParseRecords(s, base).Ok?
    ensures var rs := ParseRecords(s, base).value; CheckFrames(rs).Ok? && RecordsBytes(rs) == s
    decreases |s|
  {
    hide EncodeLe, DecodeLe, ParseFrame;
    if s != [] {
      var (record, end) := NextRecord(s, base).value;
      RecordsReadThenWrite(s[end..], base + end);
      var rs := ParseRecords(s, base).value;
      assert rs[1..] == ParseRecords(s[end..], base + end).value;
      NextRecordBytes(s, base);
      assert s == s[..end] + s[end..];
    }
  }

  /** Where the records start in the file changes the error positions only. */
  lemma {:induction false} RecordsAnywhere(s: seq<Byte>, base: nat, base': nat)
    requires ParseRecords(s, base).Ok?
    ensures ParseRecords(s, base') == ParseRecords(s, base)
    decreases |s|
  {
    hide ParseFrame, ReadU64, ReadU32;
    if s != [] {
      var size := NextRecord(s, base).value.1;
      RecordsAnywhere(s[size..], base + size, base' + size);
    }
  }

  lemma HeaderSlices(b: seq<Byte>, l: seq<Byte>, f1: seq<Byte>, f2: seq<Byte>, f3: seq<Byte>, f4: seq<Byte>,
                     f5: seq<Byte>, f6: seq<Byte>, f7: seq<Byte>, cohort: seq<Byte>, rest: seq<Byte>)
    requires |l| == |f2| == 4 && |f1| == |f3| == |f4| == |f5| == |f6| == 8 && |f7| == 2
    requires b == SEGMENT_MAGIC + l + (f1 + f2 + f3 + f4 + f5 + f6 + f7) + cohort + rest
    ensures b[0..4] == SEGMENT_MAGIC && b[4..8] == l && b[8..16] == f1 && b[16..20] == f2 && b[20..28] == f3
    ensures b[28..36] == f4 && b[36..44] == f5 && b[44..52] == f6 && b[52..54] == f7
    ensures b[54..54 + |cohort|] == cohort && b[54 + |cohort|..] == rest
  {
  }

  function RawOf(h: Header): RawHeader
    requires |h.cohort| < U16_LIMIT
  {
    RawHeader(h.windowStart, h.windowSeconds, h.firstReceive, h.lastReceive, h.receivedFrameCount, h.recordCount,
              |h.cohort|)
  }

  /** `b` is a header of declared length `headerLen` followed by `rest`. */
  predicate LaidOut(b: seq<Byte>, h: Header, headerLen: U32, rest: seq<Byte>)
    requires |h.cohort| < U16_LIMIT
  {
    b == SEGMENT_MAGIC + EncodeLe(headerLen, 4) + HeaderFields(h) + h.cohort + rest
  }

  lemma HeaderReads(b: seq<Byte>, h: Header, headerLen: U32, rest: seq<Byte>)
    requires |h.cohort| < U16_LIMIT && LaidOut(b, h, headerLen, rest)
    ensures |b| == 54 + |h.cohort| + |rest|
    ensures b[0..4] == SEGMENT_MAGIC && HeaderEnd(b) == 8 + headerLen
    ensures ReadRawHeader(b) == RawOf(h)
    ensures b[54..54 + |h.cohort|] == h.cohort && b[54 + |h.cohort|..] == rest
  {
    hide EncodeLe, DecodeLe, ReadU16, ReadU32, ReadU64;
    HeaderSlices(b, EncodeLe(headerLen, 4), EncodeLe(h.windowStart, 8), EncodeLe(h.windowSeconds, 4),
                 EncodeLe(h.firstReceive, 8), EncodeLe(h.lastReceive, 8), EncodeLe(h.receivedFrameCount, 8),
                 EncodeLe(h.recordCount, 8), EncodeLe(|h.cohort|, 2), h.cohort, rest);
    ReadBack32(b, 4, headerLen);
    ReadBack64(b, 8, h.windowStart);
    ReadBack32(b, 16, h.windowSeconds);
    ReadBack64(b, 20, h.firstReceive);
    ReadBack64(b, 28, h.lastReceive);
    ReadBack64(b, 36, h.receivedFrameCount);
    ReadBack64(b, 44, h.recordCount);
    ReadBack16(b, 52, |h.cohort|);
  }

  /** A header laid out in front of `extra` unknown header bytes parses back to itself. */
  lemma HeaderParses(b: seq<Byte>, h: Header, extra: seq<Byte>, body: seq<Byte>)
    requires ValidName(h.cohort) && |h.cohort| < U16_LIMIT && BASE_HEADER_LEN + |h.cohort| + |extra| < U32_LIMIT
    requires LaidOut(b, h, BASE_HEADER_LEN + |h.cohort| + |extra|, extra + body)
    ensures ParseHeader(b) == Ok(h) && HeaderEnd(b) == 54 + |h.cohort| + |extra|
    ensures HeaderEnd(b) <= |b| && b[HeaderEnd(b)..] == body
  {
    hide LaidOut, ReadRawHeader, ParseHeader, ValidateName, ValidUtf8, HeaderEnd;
    ValidNamesAreText(h.cohort);
    HeaderReads(b, h, 46 + |h.cohort| + |extra|, extra + body);
    DropTwice(b, 54 + |h.cohort|, extra, body);
    HeaderChecks(b, h);
  }

  lemma HeaderChecks(b: seq<Byte>, h: Header)
    requires ValidName(h.cohort) && ValidUtf8(h.cohort) && |h.cohort| < U16_LIMIT
    requires |b| >= 54 && b[0..4] == SEGMENT_MAGIC && ReadRawHeader(b) == RawOf(h)
    requires 54 + |h.cohort| <= HeaderEnd(b) <= |b| && b[54..54 + |h.cohort|] == h.cohort
    ensures ParseHeader(b) == Ok(h)
  {
    hide ReadRawHeader, ValidateName, ValidUtf8, HeaderEnd;
  }

  lemma DropTwice(b: seq<Byte>, n: nat, extra: seq<Byte>, body: seq<Byte>)
    requires n <= |b| && b[n..] == extra + body
    ensures n + |extra| <= |b| && b[n + |extra|..] == body
  {
    assert b[n + |extra|..] == b[n..][|extra|..];
  }

  /** What the collector writes, the tuner reads back: header, record order and frame bytes. */
  lemma WriteThenRead(h: Header, rs: seq<Record>)
    requires ValidName(h.cohort) && Written(h, rs).Ok?
    ensures Parsed(Written(h, rs).value) == Ok(Segment(h, rs))
  {
    hide EncodeLe, HeaderFields, ReadU32, ValidateName;
    var b := Written(h, rs).value;
    assert [] + RecordsBytes(rs) == RecordsBytes(rs);
    ValidNamesAreText(h.cohort);
    HeaderParses(b, h, [], RecordsBytes(rs));
    RecordsWriteThenRead(rs, HeaderEnd(b));
  }

  /** Anything the reader accepts is laid out as a header, some unknown header bytes and the records. */
  lemma AcceptedLayout(b: seq<Byte>) returns (extra: seq<Byte>)
    requires Parsed(b).Ok?
    ensures var s := Parsed(b).value;
            && ValidName(s.header.cohort) && CheckFrames(s.records).Ok?
            && extra == b[54 + |s.header.cohort|..HeaderEnd(b)]
            && BASE_HEADER_LEN + |s.header.cohort| + |extra| < U32_LIMIT
            && |s.header.cohort| < U16_LIMIT
            && LaidOut(b, s.header, BASE_HEADER_LEN + |s.header.cohort| + |extra|, extra + RecordsBytes(s.records))
  {
    hide EncodeLe, DecodeLe, ReadU16, ReadU64, ValidateName, ValidUtf8, ParseRecords, CheckFrames, RecordsBytes;
    var s, end := Parsed(b).value, HeaderEnd(b);
    var c := 54 + |s.header.cohort|;
    extra := b[c..end];
    ValidNamesAreText(s.header.cohort);
    RecordsReadThenWrite(b[end..], end);
    FieldBytes32(b, 4);
    HeaderFieldBytes(b);
    assert b == b[0..4] + b[4..8] + b[8..54] + b[54..c] + (b[c..end] + b[end..]);
  }

  lemma HeaderFieldBytes(b: seq<Byte>)
    requires ParseHeader(b).Ok?
    ensures HeaderFields(ParseHeader(b).value) == b[8..54]
  {
    hide EncodeLe, DecodeLe, ReadU16, ReadU64, ReadU32, ValidateName, ValidUtf8;
    FieldBytes64(b, 8);
    FieldBytes32(b, 16);
    FieldBytes64(b, 20);
    FieldBytes64(b, 28);
    FieldBytes64(b, 36);
    FieldBytes64(b, 44);
    FieldBytes16(b, 52);
    assert b[8..54] == b[8..16] + b[16..20] + b[20..28] + b[28..36] + b[36..44] + b[44..52] + b[52..54];
  }

  /** An accepted file is reproduced byte for byte by writing what was read, exactly when its
      header carries no bytes past the cohort name. */
  lemma ReadThenWrite(b: seq<Byte>)
    requires Parsed(b).Ok?
    ensures var s := Parsed(b).value;
            Written(s.header, s.records) == Ok(b)
            <==> HeaderEnd(b) == FIXED_PREFIX_LEN + BASE_HEADER_LEN + |s.header.cohort|
  {
    hide EncodeLe, DecodeLe, ReadU16, ReadU32, ReadU64, ValidateName, ValidUtf8, ParseRecords, HeaderFields,
         RecordsBytes;
    var s := Parsed(b).value;
    var extra := AcceptedLayout(b);
    ValidNamesAreText(s.header.cohort);
    assert [] + RecordsBytes(s.records) == RecordsBytes(s.records);
    assert |SegmentBytes(s.header, s.records)| == 54 + |s.header.cohort| + |RecordsBytes(s.records)|;
    assert |b| == 54 + |s.header.cohort| + |extra| + |RecordsBytes(s.records)|;
  }

  /** A file whose header was extended by a later version: `tail` bytes after the known header. */
  function WithTail(b: seq<Byte>, tail: seq<Byte>): seq<Byte>
    requires |b| >= FIXED_PREFIX_LEN && HeaderEnd(b) <= |b|
  {
    SEGMENT_MAGIC + EncodeLe(HeaderEnd(b) - FIXED_PREFIX_LEN + |tail|, 4) + b[8..HeaderEnd(b)] + tail
      + b[HeaderEnd(b)..]
  }

  /** Appended header bytes change nothing the reader returns. */
  lemma UnknownHeaderBytesSkipped(b: seq<Byte>, tail: seq<Byte>)
    requires Parsed(b).Ok? && HeaderEnd(b) - FIXED_PREFIX_LEN + |tail| < U32_LIMIT
    ensures Parsed(WithTail(b, tail)) == Parsed(b)
  {
    hide EncodeLe, DecodeLe, ReadU16, ReadU32, ReadU64, ValidateName, ValidUtf8, ParseRecords, RecordsBytes;
    var s := Parsed(b).value;
    var extra := AcceptedLayout(b);
    var h, body, end := s.header, b[HeaderEnd(b)..], HeaderEnd(b);
    HeaderFieldBytes(b);
    var w := WithTail(b, tail);
    assert b[8..end] == b[8..54] + b[54..54 + |h.cohort|] + extra;
    assert b[54..54 + |h.cohort|] == h.cohort;
    assert w == SEGMENT_MAGIC + EncodeLe(BASE_HEADER_LEN + |h.cohort| + |extra + tail|, 4) + HeaderFields(h) + h.cohort
                + ((extra + tail) + body);
    HeaderParses(w, h, extra + tail, body);
    RecordsAnywhere(body, HeaderEnd(b), HeaderEnd(w));
  }

  /** The size of a segment: a fixed overhead, the name and the records. */
  lemma SegmentSize(h: Header, rs: seq<Record>)
    requires ValidName(h.cohort) && Written(h, rs).Ok?
    ensures |Written(h, rs).value| <= MAX_SEGMENT_OVERHEAD_BYTES + |RecordsBytes(rs)|
  {
    ValidNamesAreText(h.cohort);
  }
}
