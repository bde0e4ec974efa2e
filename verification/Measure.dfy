/** Preparing one stored segment for measurement, and measuring it. */
module Measure {
  import opened Wrappers
  import opened Bytes
  import opened Model
  import opened Fnv
  import opened Population
  import opened Intermediate
  import Frame
  import Segment

  const F32_DTYPE: U32 := 1
  const F32_BYTES: nat := 4
  const I32_LIMIT: nat := 0x8000_0000
  const I64_LIMIT: nat := 0x8000_0000_0000_0000

  datatype SampleFrameError = CohortMismatch | UnsupportedDtype(dtype: U32) | DimensionMismatch | ReceiveTimeOutOfRange

  /** A distinct vector of a part. Decoding its bytes as floats is left to the measurer. */
  datatype PreparedSample = PreparedSample(
    recordIndex: nat, dupCount: nat, receiveTimeUs: Result<nat, SampleFrameError>, vectorHash: U64,
    vector: Result<seq<Byte>, SampleFrameError>)

  datatype PreparedPart = PreparedPart(
    cohort: seq<Byte>, windowStart: U64, windowSeconds: U32, receivedFrameCount: U64, recordCount: U64,
    samples: seq<PreparedSample>)

  datatype PreparePartError =
    | SegmentRejected(segment: Segment.SegmentError)
    | FrameRejected(frame: Frame.FrameError)
    | WrongCohort(expected: seq<Byte>, observed: seq<Byte>)
    | WrongWindowStart(expectedStart: nat, observedStart: nat)
    | WrongWindowSeconds(expectedSeconds: nat, observedSeconds: nat)
    | WrongRecordCount(declared: nat, actual: nat)
    | WrongReceivedCount(received: nat, recordCount: nat)
    | RecordIndexOutOfRange(index: nat)
    | DuplicateCountOutOfRange
    | ResultCountOutOfRange(count: nat)

  // ----- deduplication within a part -----

  /** Which vectors have been seen, and where their sample is. */
  datatype Dedup = Dedup(first: map<seq<Byte>, nat>, samples: seq<PreparedSample>) {
    predicate InRange() { forall v :: v in first ==> first[v] < |samples| }
  }

  function CheckedVector(header: Frame.FrameHeader, vector: seq<Byte>,
                         cohort: seq<Byte>): Result<seq<Byte>, SampleFrameError> {
    if header.name != cohort then Err(CohortMismatch)
    else if header.dtype != F32_DTYPE then Err(UnsupportedDtype(header.dtype))
    else if header.dimension == 0 || header.dimension * F32_BYTES != |vector| then Err(DimensionMismatch)
    else Ok(vector)
  }

  function NewSample(record: Segment.Record, header: Frame.FrameHeader, index: nat, vector: seq<Byte>,
                     cohort: seq<Byte>): PreparedSample {
    PreparedSample(index, 1,
                   if record.receiveTime >= I64_LIMIT then Err(ReceiveTimeOutOfRange) else Ok(record.receiveTime),
                   Fnv1a64(vector), CheckedVector(header, vector, cohort))
  }

  function AddRecord(d: Dedup, record: Segment.Record, index: nat,
                     cohort: seq<Byte>): (r: Result<Dedup, PreparePartError>)
    requires d.InRange()
    ensures r.Ok? ==> r.value.InRange()
  {
    match Frame.ParseFrame(record.frame)
    case Err(e) => Err(FrameRejected(e))
    case Ok(header) =>
      var vector := Frame.PayloadOf(record.frame);
      if vector in d.first then
        var k := d.first[vector];
        if d.samples[k].dupCount + 1 >= I32_LIMIT then Err(DuplicateCountOutOfRange)
        else Ok(d.(samples := d.samples[k := d.samples[k].(dupCount := d.samples[k].dupCount + 1)]))
      else if index >= I32_LIMIT then Err(RecordIndexOutOfRange(index))
      else Ok(Dedup(d.first[vector := |d.samples|], d.samples + [NewSample(record, header, index, vector, cohort)]))
  }

  function Deduped(records: seq<Segment.Record>, cohort: seq<Byte>): (r: Result<Dedup, PreparePartError>)
    ensures r.Ok? ==> r.value.InRange()
  {
    if records == [] then Ok(Dedup(map[], []))
    else
      var d :- Deduped(records[..|records| - 1], cohort);
      AddRecord(d, records[|records| - 1], |records| - 1, cohort)
  }

  function CheckSegment(s: Segment.Segment, cohort: seq<Byte>, windowStart: nat,
                        windowSeconds: nat): Result<(), PreparePartError> {
    var h := s.header;
    if h.cohort != cohort then Err(WrongCohort(cohort, h.cohort))
    else if h.windowStart != windowStart then Err(WrongWindowStart(windowStart, h.windowStart))
    else if h.windowSeconds != windowSeconds then Err(WrongWindowSeconds(windowSeconds, h.windowSeconds))
    else if |s.records| != h.recordCount then Err(WrongRecordCount(h.recordCount, |s.records|))
    else if h.receivedFrameCount < h.recordCount then Err(WrongReceivedCount(h.receivedFrameCount, h.recordCount))
    else Ok(())
  }

  /** The specification of `PrepareSegment`. */
  function Prepared(bytes: seq<Byte>, cohort: seq<Byte>, windowStart: nat,
                    windowSeconds: nat): Result<PreparedPart, PreparePartError> {
    match Segment.Parsed(bytes)
    case Err(e) => Err(SegmentRejected(e))
    case Ok(s) =>
      var _ :- CheckSegment(s, cohort, windowStart, windowSeconds);
      var d :- Deduped(s.records, cohort);
      Ok(PreparedPart(s.header.cohort, s.header.windowStart, s.header.windowSeconds, s.header.receivedFrameCount,
                      s.header.recordCount, d.samples))
  }

  lemma {:induction false} DedupedPrefix(records: seq<Segment.Record>, cohort: seq<Byte>, n: nat)
    requires n <= |records|
    ensures Deduped(records[..n], cohort).Err? ==> Deduped(records, cohort) == Deduped(records[..n], cohort)
    decreases |records|
  {
    if n < |records| {
      DedupedPrefix(records[..|records| - 1], cohort, n);
      assert records[..|records| - 1][..n] == records[..n];
    } else {
      assert records[..n] == records;
    }
  }

  lemma DedupedNext(records: seq<Segment.Record>, cohort: seq<Byte>, i: nat)
    requires i < |records| && Deduped(records[..i], cohort).Ok?
    ensures Deduped(records[..i + 1], cohort) == AddRecord(Deduped(records[..i], cohort).value, records[i], i, cohort)
    ensures Deduped(records[..i + 1], cohort).Err? ==> Deduped(records, cohort) == Deduped(records[..i + 1], cohort)
  {
    assert records[..i + 1][..i] == records[..i];
    DedupedPrefix(records, cohort, i + 1);
  }

  method DeduplicateRecords(records: seq<Segment.Record>, cohort: seq<Byte>)
    returns (r: Result<seq<PreparedSample>, PreparePartError>)
    ensures r == match Deduped(records, cohort) case Ok(d) => Ok(d.samples) case Err(e) => Err(e)
  {
    hide Frame.ParseFrame, Frame.PayloadOf, NewSample;
    assert records[..0] == [];
    assert Deduped([], cohort) == Ok(Dedup(map[], []));
    hide Deduped;
    var first: map<seq<Byte>, nat> := map[];
    var samples: seq<PreparedSample> := [];
    for i := 0 to |records|
      invariant Dedup(first, samples).InRange()
      invariant Deduped(records[..i], cohort) == Ok(Dedup(first, samples))
    {
      DedupedNext(records, cohort, i);
      var frameHeader := Frame.ParseFrame(records[i].frame);
      if frameHeader.Err? {
        return Err(FrameRejected(frameHeader.error));
      }
      var vector := Frame.PayloadOf(records[i].frame);
      if vector in first {
        var k := first[vector];
        if samples[k].dupCount + 1 >= I32_LIMIT {
          return Err(DuplicateCountOutOfRange);
        }
        samples := samples[k := samples[k].(dupCount := samples[k].dupCount + 1)];
      } else {
        if i >= I32_LIMIT {
          return Err(RecordIndexOutOfRange(i));
        }
        first := first[vector := |samples|];
        samples := samples + [NewSample(records[i], frameHeader.value, i, vector, cohort)];
      }
    }
    assert records[..|records|] == records;
    return Ok(samples);
  }

  method PrepareSegment(bytes: seq<Byte>, cohort: seq<Byte>, windowStart: nat, windowSeconds: nat)
    returns (r: Result<PreparedPart, PreparePartError>)
    ensures r == Prepared(bytes, cohort, windowStart, windowSeconds)
  {
    hide Segment.Parsed, CheckSegment, Deduped;
    var parsed := Segment.ReadSegment(bytes);
    if parsed.Err? {
      return Err(SegmentRejected(parsed.error));
    }
    var header, records := parsed.value.header, parsed.value.records;
    var checked := CheckSegment(parsed.value, cohort, windowStart, windowSeconds);
    if checked.Err? {
      return Err(checked.error);
    }
    var samples := DeduplicateRecords(records, cohort);
    if samples.Err? {
      return Err(samples.error);
    }
    return Ok(PreparedPart(header.cohort, header.windowStart, header.windowSeconds, header.receivedFrameCount,
                           header.recordCount, samples.value));
  }

  // ----- what deduplication within a part yields -----

  type Vectors = seq<seq<Byte>>

  /** The vector bytes of each record. */
  function Payloads(records: seq<Segment.Record>): (vs: Vectors)
    requires forall r :: r in records ==> Frame.ParseFrame(r.frame).Ok?
    ensures |vs| == |records| && forall i :: 0 <= i < |vs| ==> vs[i] == Frame.PayloadOf(records[i].frame)
  {
    seq(|records|, i requires 0 <= i < |records| => Frame.PayloadOf(records[i].frame))
  }

  /** How many records carry the vector `v`. */
  function Occurrences(vs: Vectors, v: seq<Byte>): nat {
    if vs == [] then 0
    else (if vs[|vs| - 1] == v then 1 else 0) + Occurrences(vs[..|vs| - 1], v)
  }

  function TotalDuplicates(samples: seq<PreparedSample>): nat {
    if samples == [] then 0 else samples[|samples| - 1].dupCount + TotalDuplicates(samples[..|samples| - 1])
  }

  /** `s` stands for the vector of its record: its first record, and all of them counted. */
  predicate StandsFor(s: PreparedSample, vs: Vectors) {
    && s.recordIndex < |vs| && vs[s.recordIndex] !in vs[..s.recordIndex]
    && s.dupCount == Occurrences(vs, vs[s.recordIndex])
    && s.vectorHash == Fnv1a64(vs[s.recordIndex])
  }

  predicate AllStand(samples: seq<PreparedSample>, vs: Vectors) {
    forall k :: 0 <= k < |samples| ==> StandsFor(samples[k], vs)
  }

  predicate Ascend(samples: seq<PreparedSample>) {
    forall j, k :: 0 <= j < k < |samples| ==> samples[j].recordIndex < samples[k].recordIndex
  }

  /** Exactly the vectors of the part are indexed, each under the sample that stands for it. */
  predicate Indexed(d: Dedup, vs: Vectors) {
    && d.InRange()
    && (forall i :: 0 <= i < |vs| ==> vs[i] in d.first)
    && (forall v :: v in d.first ==>
        d.samples[d.first[v]].recordIndex < |vs| && vs[d.samples[d.first[v]].recordIndex] == v)
    && (forall k :: 0 <= k < |d.samples| ==>
         d.samples[k].recordIndex < |vs|
         && vs[d.samples[k].recordIndex] in d.first && d.first[vs[d.samples[k].recordIndex]] == k)
  }

  /** One sample per distinct vector, at its first record, in record order, with every record
      counted once. */
  predicate Represents(samples: seq<PreparedSample>, vs: Vectors) {
    && AllStand(samples, vs) && Ascend(samples) && TotalDuplicates(samples) == |vs|
    && (forall v :: v in vs ==>
        exists k :: 0 <= k < |samples| && samples[k].recordIndex < |vs| && vs[samples[k].recordIndex] == v)
    && (forall j, k :: 0 <= j < k < |samples| ==> vs[samples[j].recordIndex] != vs[samples[k].recordIndex])
  }

  lemma StandsStep(s: PreparedSample, vs: Vectors, v: seq<Byte>)
    requires StandsFor(s, vs)
    ensures StandsFor(if vs[s.recordIndex] == v then s.(dupCount := s.dupCount + 1) else s, vs + [v])
  {
    hide Fnv1a64;
    assert (vs + [v])[..|vs|] == vs;
    assert (vs + [v])[..s.recordIndex] == vs[..s.recordIndex];
  }

  lemma {:induction false} NoOccurrence(vs: Vectors, v: seq<Byte>)
    requires v !in vs
    ensures Occurrences(vs, v) == 0
  {
    if vs != [] { NoOccurrence(vs[..|vs| - 1], v); }
  }

  function Incremented(samples: seq<PreparedSample>, k: nat): seq<PreparedSample>
    requires k < |samples|
  {
    samples[k := samples[k].(dupCount := samples[k].dupCount + 1)]
  }

  lemma {:induction false} TotalIncrement(samples: seq<PreparedSample>, k: nat)
    requires k < |samples|
    ensures TotalDuplicates(Incremented(samples, k)) == TotalDuplicates(samples) + 1
  {
    var n := |samples| - 1;
    if k < n {
      TotalIncrement(samples[..n], k);
      assert Incremented(samples, k)[..n] == Incremented(samples[..n], k);
    } else {
      assert Incremented(samples, k)[..n] == samples[..n];
    }
  }

  predicate Holds(d: Dedup, vs: Vectors) {
    Indexed(d, vs) && AllStand(d.samples, vs) && Ascend(d.samples) && TotalDuplicates(d.samples) == |vs|
  }

  /** A repeated vector: its sample counts one more. */
  lemma RepeatStep(d: Dedup, vs: Vectors, v: seq<Byte>)
    requires Holds(d, vs) && v in d.first
    ensures Holds(d.(samples := Incremented(d.samples, d.first[v])), vs + [v])
  {
    hide StandsFor, TotalDuplicates;
    var k := d.first[v];
    var samples', vs' := Incremented(d.samples, k), vs + [v];
    TotalIncrement(d.samples, k);
    forall j | 0 <= j < |samples'| ensures StandsFor(samples'[j], vs') {
      StandsStep(d.samples[j], vs, v);
    }
    assert forall j :: 0 <= j < |samples'| ==> samples'[j].recordIndex == d.samples[j].recordIndex;
    assert forall i :: 0 <= i < |vs| ==> vs'[i] == vs[i];
  }

  /** A new vector: it gets a sample of its own. */
  lemma NewStep(d: Dedup, vs: Vectors, v: seq<Byte>, s: PreparedSample)
    requires Holds(d, vs) && v !in d.first
    requires s.recordIndex == |vs| && s.dupCount == 1 && s.vectorHash == Fnv1a64(v)
    ensures Holds(Dedup(d.first[v := |d.samples|], d.samples + [s]), vs + [v])
  {
    NewIndexed(d, vs, v, s);
    NewStands(d.samples, vs, v, s) by { assert v !in vs; }
    hide StandsFor, Indexed, Fnv1a64;
    assert (d.samples + [s])[..|d.samples|] == d.samples;
  }

  lemma NewIndexed(d: Dedup, vs: Vectors, v: seq<Byte>, s: PreparedSample)
    requires Indexed(d, vs) && v !in d.first && s.recordIndex == |vs|
    ensures Indexed(Dedup(d.first[v := |d.samples|], d.samples + [s]), vs + [v])
  {
    assert forall i :: 0 <= i < |vs| ==> (vs + [v])[i] == vs[i];
  }

  lemma NewStands(samples: seq<PreparedSample>, vs: Vectors, v: seq<Byte>, s: PreparedSample)
    requires AllStand(samples, vs) && Ascend(samples) && v !in vs
    requires forall k :: 0 <= k < |samples| ==> samples[k].recordIndex < |vs| && vs[samples[k].recordIndex] != v
    requires s.recordIndex == |vs| && s.dupCount == 1 && s.vectorHash == Fnv1a64(v)
    ensures AllStand(samples + [s], vs + [v]) && Ascend(samples + [s])
  {
    hide Fnv1a64;
    var vs' := vs + [v];
    NoOccurrence(vs, v);
    assert vs'[..|vs|] == vs;
    assert StandsFor(s, vs');
    forall j | 0 <= j < |samples + [s]| ensures StandsFor((samples + [s])[j], vs') {
      if j < |samples| { StandsStep(samples[j], vs, v); }
    }
  }

  lemma {:induction false} DedupedHolds(records: seq<Segment.Record>, cohort: seq<Byte>)
    requires Deduped(records, cohort).Ok?
    ensures forall r :: r in records ==> Frame.ParseFrame(r.frame).Ok?
    ensures Holds(Deduped(records, cohort).value, Payloads(records))
  {
    hide Frame.ParseFrame, Fnv1a64, Holds, Frame.PayloadOf;
    if records == [] {
      assert Holds(Dedup(map[], []), []) by { EmptyHolds(); }
    } else {
      var n := |records| - 1;
      DedupedHolds(records[..n], cohort);
      assert records == records[..n] + [records[n]];
      DedupedStep(Deduped(records[..n], cohort).value, records, cohort);
    }
  }

  lemma EmptyHolds()
    ensures Holds(Dedup(map[], []), [])
  {
  }

  lemma DedupedStep(d: Dedup, records: seq<Segment.Record>, cohort: seq<Byte>)
    requires records != [] && d.InRange()
    requires forall r :: r in records[..|records| - 1] ==> Frame.ParseFrame(r.frame).Ok?
    requires Holds(d, Payloads(records[..|records| - 1]))
    requires AddRecord(d, records[|records| - 1], |records| - 1, cohort).Ok?
    ensures forall r :: r in records ==> Frame.ParseFrame(r.frame).Ok?
    ensures Holds(AddRecord(d, records[|records| - 1], |records| - 1, cohort).value, Payloads(records))
  {
    hide Frame.ParseFrame, Fnv1a64, Holds, Frame.PayloadOf;
    var n := |records| - 1;
    assert records == records[..n] + [records[n]];
    var vs, v := Payloads(records[..n]), Frame.PayloadOf(records[n].frame);
    assert Payloads(records) == vs + [v];
    if v in d.first {
      RepeatStep(d, vs, v);
    } else {
      NewStep(d, vs, v, NewSample(records[n], Frame.ParseFrame(records[n].frame).value, n, v, cohort));
    }
  }

  /** What a sample says about the record it stands for: when it was received, and the vector to ask the
      database about, which is the frame's whole payload if the frame is this cohort's and holds as many
      floats as it says. */
  predicate Describes(s: PreparedSample, r: Segment.Record, cohort: seq<Byte>)
    requires Frame.ParseFrame(r.frame).Ok?
  {
    var h, payload := Frame.ParseFrame(r.frame).value, Frame.PayloadOf(r.frame);
    && (s.receiveTimeUs.Ok? <==> r.receiveTime < I64_LIMIT)
    && (s.receiveTimeUs.Ok? ==> s.receiveTimeUs.value == r.receiveTime)
    && (s.vector.Ok? <==>
         h.name == cohort && h.dtype == F32_DTYPE && h.dimension > 0 && F32_BYTES * h.dimension == |payload|)
    && (s.vector.Ok? ==> s.vector.value == payload)
  }

  predicate AllDescribe(samples: seq<PreparedSample>, records: seq<Segment.Record>, cohort: seq<Byte>) {
    forall k :: 0 <= k < |samples| ==>
      (samples[k].recordIndex < |records| && Frame.ParseFrame(records[samples[k].recordIndex].frame).Ok?
       && Describes(samples[k], records[samples[k].recordIndex], cohort))
  }

  lemma NewDescribes(r: Segment.Record, index: nat, cohort: seq<Byte>)
    requires Frame.ParseFrame(r.frame).Ok?
    ensures var s := NewSample(r, Frame.ParseFrame(r.frame).value, index, Frame.PayloadOf(r.frame), cohort);
            s.recordIndex == index && Describes(s, r, cohort)
  {
    hide Frame.ParseFrame, Frame.PayloadOf, Fnv1a64;
  }

  lemma CountedDescribes(s: PreparedSample, dupCount: nat, r: Segment.Record, cohort: seq<Byte>)
    requires Frame.ParseFrame(r.frame).Ok? && Describes(s, r, cohort)
    ensures Describes(s.(dupCount := dupCount), r, cohort)
  {
    hide Frame.ParseFrame, Frame.PayloadOf;
  }

  lemma {:induction false} DedupedDescribes(records: seq<Segment.Record>, cohort: seq<Byte>)
    requires Deduped(records, cohort).Ok?
    ensures AllDescribe(Deduped(records, cohort).value.samples, records, cohort)
  {
    hide Frame.ParseFrame, Frame.PayloadOf, NewSample, Describes;
    if records != [] {
      var n := |records| - 1;
      var rest, last := records[..n], records[n];
      DedupedDescribes(rest, cohort);
      NewDescribes(last, n, cohort);
      var before, after := Deduped(rest, cohort).value.samples, Deduped(records, cohort).value.samples;
      assert forall i :: 0 <= i < n ==> rest[i] == records[i];
      forall k | 0 <= k < |before| ensures Describes(after[k], records[after[k].recordIndex], cohort) {
        CountedDescribes(before[k], after[k].dupCount, records[before[k].recordIndex], cohort);
      }
    }
  }

  lemma HoldsRepresents(d: Dedup, vs: Vectors)
    requires Holds(d, vs)
    ensures Represents(d.samples, vs)
  {
    forall v | v in vs
      ensures exists k :: 0 <= k < |d.samples| && d.samples[k].recordIndex < |vs| && vs[d.samples[k].recordIndex] == v
    {
      var k := d.first[v];
      assert vs[d.samples[k].recordIndex] == v;
    }
  }

  /** A part that is accepted is the segment's accounting plus one sample per distinct vector, which
      carries that vector and the time of its record. */
  lemma PreparedRepresents(bytes: seq<Byte>, cohort: seq<Byte>, windowStart: nat, windowSeconds: nat)
    requires Prepared(bytes, cohort, windowStart, windowSeconds).Ok?
    ensures var p, s := Prepared(bytes, cohort, windowStart, windowSeconds).value, Segment.Parsed(bytes).value;
            && (forall r :: r in s.records ==> Frame.ParseFrame(r.frame).Ok?)
            && Represents(p.samples, Payloads(s.records))
            && |s.records| == p.recordCount <= p.receivedFrameCount == s.header.receivedFrameCount
            && AllDescribe(p.samples, s.records, cohort)
            && p.cohort == cohort && p.windowStart == windowStart && p.windowSeconds == windowSeconds
  {
    hide Segment.Parsed, Deduped, Holds, Represents, Frame.ParseFrame, AllDescribe;
    var records := Segment.Parsed(bytes).value.records;
    DedupedHolds(records, cohort);
    DedupedDescribes(records, cohort);
    HoldsRepresents(Deduped(records, cohort).value, Payloads(records));
  }
}
