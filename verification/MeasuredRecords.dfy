/** From stored records to the pair: every sample that aggregation sees carries the database's answer to the
    payload of its own record. */
module MeasuredRecords {
  import opened Wrappers
  import opened Bytes
  import opened Model
  import opened Ordered
  import opened Fnv
  import opened Population
  import opened Intermediate
  import opened Measure
  import opened Measurement
  import Frame
  import Segment

  /** The answer's latency, and its recall and latency for every ef, are the sample's. */
  predicate Carries(x: MeasuredSample, m: SampleMeasurement, grid: seq<int>) {
    && x.groundTruthLatencyMs == m.groundTruthLatencyMs && |m.sweeps| == |grid|
    && x.sweeps.Keys == (set ef | ef in grid)
    && forall i :: 0 <= i < |grid| ==>
         grid[i] in x.sweeps && x.sweeps[grid[i]] == SweepMeasurement(m.sweeps[i].recall, m.sweeps[i].latencyMs)
  }

  /** What makes an answer count as a measurement: as many exact neighbours as asked for, each with its
      distance, and one result for every ef of the grid, in its order. */
  predicate Counts(answer: SampleOutcome, config: AggregationConfig) {
    && answer.Measured? && |answer.m.gtKeys| == config.k && |answer.m.gtDistances| == config.k
    && |answer.m.sweeps| == |config.efGrid|
    && forall i :: 0 <= i < |config.efGrid| ==> answer.m.sweeps[i].ef == config.efGrid[i]
  }

  predicate SampleFrom(x: MeasuredSample, s: PreparedSample, config: AggregationConfig, measurer: Measurer) {
    && Measurable(s) && Counts(measurer(s.vector.value, config), config)
    && x.recordIndex == s.recordIndex && x.vectorHash == s.vectorHash && x.dupCount == s.dupCount
    && Carries(x, measurer(s.vector.value, config).m, config.efGrid)
  }

  lemma {:induction false} ObservationsAt(sweeps: seq<SampleSweepResult>, grid: seq<int>)
    requires StrictlyAscending(grid) && |sweeps| == |grid|
    requires forall i :: 0 <= i < |grid| ==> sweeps[i].ef == grid[i]
    ensures forall i :: 0 <= i < |grid| ==>
      (grid[i] in Observations(sweeps)
       && Observations(sweeps)[grid[i]] == SweepMeasurement(sweeps[i].recall, sweeps[i].latencyMs))
  {
    if grid != [] {
      var n := |grid| - 1;
      ObservationsAt(sweeps[..n], grid[..n]);
      forall i | 0 <= i < |grid|
        ensures grid[i] in Observations(sweeps)
        ensures Observations(sweeps)[grid[i]] == SweepMeasurement(sweeps[i].recall, sweeps[i].latencyMs)
      {
        if i < n { assert grid[..n][i] == grid[i] && sweeps[..n][i] == sweeps[i]; }
      }
    }
  }

  lemma ContributionCarries(s: PreparedSample, config: AggregationConfig, measurer: Measurer)
    requires StrictlyAscending(config.efGrid)
    ensures Contribution(s, config, measurer).Some? <==>
            Measurable(s) && Counts(measurer(s.vector.value, config), config)
    ensures Contribution(s, config, measurer).Some? ==>
            SampleFrom(Contribution(s, config, measurer).value, s, config, measurer)
  {
    if Contribution(s, config, measurer).Some? {
      var m := measurer(s.vector.value, config).m;
      ObservationsAt(m.sweeps, config.efGrid);
      ObservedKeys(m.sweeps, config.efGrid);
    }
    hide Observations;
  }

  /** Exactly the samples whose answer counts contribute, each with that answer. */
  lemma {:induction false} ContributionsFrom(samples: seq<PreparedSample>, config: AggregationConfig,
                                             measurer: Measurer)
    requires StrictlyAscending(config.efGrid)
    ensures forall x :: x in Contributions(samples, config, measurer) ==>
      exists s :: s in samples && SampleFrom(x, s, config, measurer)
    ensures forall s :: s in samples && Measurable(s) && Counts(measurer(s.vector.value, config), config) ==>
      exists x :: x in Contributions(samples, config, measurer) && SampleFrom(x, s, config, measurer)
  {
    hide SampleFrom, Counts, Contribution;
    if samples != [] {
      var n := |samples| - 1;
      ContributionsFrom(samples[..n], config, measurer);
      ContributionCarries(samples[n], config, measurer);
      var rest, all := Contributions(samples[..n], config, measurer), Contributions(samples, config, measurer);
      var last := Contribution(samples[n], config, measurer);
      assert samples == samples[..n] + [samples[n]];
      assert forall x :: x in all <==> x in rest || last == Some(x);
    }
  }

  /** The record a measured sample is about. */
  predicate AboutRecord(x: MeasuredSample, records: seq<Segment.Record>, config: AggregationConfig, measurer: Measurer)
    requires forall r :: r in records ==> Frame.ParseFrame(r.frame).Ok?
  {
    && 0 <= x.recordIndex < |records| && records[x.recordIndex].receiveTime < I64_LIMIT
    && var payload := Frame.PayloadOf(records[x.recordIndex].frame);
       && x.vectorHash == Fnv1a64(payload) && x.dupCount == Occurrences(Payloads(records), payload)
       && Counts(measurer(payload, config), config) && Carries(x, measurer(payload, config).m, config.efGrid)
  }

  /** A record that can be asked about: stamped in range, of the cohort, and a vector of floats. */
  predicate Askable(r: Segment.Record, cohort: seq<Byte>)
    requires Frame.ParseFrame(r.frame).Ok?
  {
    var h := Frame.ParseFrame(r.frame).value;
    && r.receiveTime < I64_LIMIT && h.name == cohort && h.dtype == F32_DTYPE && h.dimension > 0
    && F32_BYTES * h.dimension == |Frame.PayloadOf(r.frame)|
  }

  lemma AboutItsRecord(x: MeasuredSample, s: PreparedSample, samples: seq<PreparedSample>, records: seq<Segment.Record>,
                       config: AggregationConfig, measurer: Measurer)
    requires forall r :: r in records ==> Frame.ParseFrame(r.frame).Ok?
    requires SampleFrom(x, s, config, measurer) && s in samples
    requires AllDescribe(samples, records, config.cohort) && AllStand(samples, Payloads(records))
    ensures AboutRecord(x, records, config, measurer) && Askable(records[x.recordIndex], config.cohort)
  {
    hide Frame.ParseFrame, Frame.PayloadOf, Fnv1a64, Occurrences, Carries, Counts;
    var k :| 0 <= k < |samples| && samples[k] == s;
    assert StandsFor(samples[k], Payloads(records));
    assert Describes(samples[k], records[s.recordIndex], config.cohort);
  }

  /** No earlier record carries the same vector. */
  predicate FirstOf(records: seq<Segment.Record>, i: nat)
    requires i < |records| && forall r :: r in records ==> Frame.ParseFrame(r.frame).Ok?
  {
    forall j :: 0 <= j < i ==> Frame.PayloadOf(records[j].frame) != Frame.PayloadOf(records[i].frame)
  }

  /** A vector that can be asked about, and whose answer counts. */
  predicate Answered(records: seq<Segment.Record>, i: nat, config: AggregationConfig, measurer: Measurer)
    requires i < |records| && forall r :: r in records ==> Frame.ParseFrame(r.frame).Ok?
  {
    && FirstOf(records, i) && Askable(records[i], config.cohort)
    && Counts(measurer(Frame.PayloadOf(records[i].frame), config), config)
  }

  lemma EarlierOnes(vs: Vectors, j: nat)
    requires j <= |vs|
    ensures forall n :: 0 <= n < j ==> vs[n] in vs[..j]
  {
    forall n | 0 <= n < j ensures vs[n] in vs[..j] {
      assert vs[..j][n] == vs[n];
    }
  }

  lemma SampleOfRecord(samples: seq<PreparedSample>, records: seq<Segment.Record>, i: nat, config: AggregationConfig,
                       measurer: Measurer) returns (s: PreparedSample)
    requires i < |records| && forall r :: r in records ==> Frame.ParseFrame(r.frame).Ok?
    requires Represents(samples, Payloads(records)) && AllDescribe(samples, records, config.cohort)
    requires Answered(records, i, config, measurer)
    ensures s in samples && s.recordIndex == i && Measurable(s) && Counts(measurer(s.vector.value, config), config)
  {
    hide Frame.ParseFrame, Frame.PayloadOf, Fnv1a64, Occurrences, Counts, TotalDuplicates;
    var vs := Payloads(records);
    assert vs[i] in vs;
    var k :| 0 <= k < |samples| && samples[k].recordIndex < |vs| && vs[samples[k].recordIndex] == vs[i];
    s := samples[k];
    assert StandsFor(samples[k], vs);
    EarlierOnes(vs, s.recordIndex);
    assert s.recordIndex == i;
    assert Describes(samples[k], records[i], config.cohort);
  }

  /** The pair that is stored for a segment reads back as samples about that segment's records: each one
      carries the answer to its own record's whole payload, counts that payload's records, and every
      vector that can be asked about and whose answer counts has one, at its first record. */
  lemma PairIsAboutRecords(bytes: seq<Byte>, windowStart: nat, partUlid: nat, config: AggregationConfig,
                           computedAtUs: U64, measurer: Measurer)
    requires StrictlyAscending(config.efGrid)
    requires Prepared(bytes, config.cohort, windowStart, config.storageWindow).Ok?
    requires MeasuredPartOf(Prepared(bytes, config.cohort, windowStart, config.storageWindow).value, partUlid, config,
                            computedAtUs, measurer).Ok?
    ensures var part := Prepared(bytes, config.cohort, windowStart, config.storageWindow).value;
            var m := MeasuredPartOf(part, partUlid, config, computedAtUs, measurer).value;
            var records := Segment.Parsed(bytes).value.records;
            var pair := ReadPair(TruthFileOf(m), SweepFileOf(m));
            && pair.Ok? && (forall r :: r in records ==> Frame.ParseFrame(r.frame).Ok?)
            && (forall x :: x in pair.value.samples ==>
                 AboutRecord(x, records, config, measurer) && Askable(records[x.recordIndex], config.cohort))
            && (forall i :: 0 <= i < |records| && Answered(records, i, config, measurer) ==>
                 exists x :: x in pair.value.samples && x.recordIndex == i)
  {
    var part := Prepared(bytes, config.cohort, windowStart, config.storageWindow).value;
    var records := Segment.Parsed(bytes).value.records;
    hide Prepared, Segment.Parsed, MeasuredPartOf, ReadPair, Frame.ParseFrame, AllDescribe, AboutRecord, Askable,
         Answered;
    PreparedRepresents(bytes, config.cohort, windowStart, config.storageWindow);
    MeasuredPairReadsBack(part, partUlid, config, computedAtUs, measurer);
    SamplesAreAboutRecords(part.samples, records, config, measurer);
  }

  lemma SamplesAreAboutRecords(samples: seq<PreparedSample>, records: seq<Segment.Record>, config: AggregationConfig,
                               measurer: Measurer)
    requires StrictlyAscending(config.efGrid) && forall r :: r in records ==> Frame.ParseFrame(r.frame).Ok?
    requires Represents(samples, Payloads(records)) && AllDescribe(samples, records, config.cohort)
    ensures forall x :: x in Contributions(samples, config, measurer) ==>
      AboutRecord(x, records, config, measurer) && Askable(records[x.recordIndex], config.cohort)
    ensures forall i :: 0 <= i < |records| && Answered(records, i, config, measurer) ==>
      exists x :: x in Contributions(samples, config, measurer) && x.recordIndex == i
  {
    ContributionsFrom(samples, config, measurer);
    hide Frame.ParseFrame, AllDescribe, AboutRecord, Askable, Answered, Contributions, StrictlyAscending;
    var all := Contributions(samples, config, measurer);
    forall x | x in all
      ensures AboutRecord(x, records, config, measurer) && Askable(records[x.recordIndex], config.cohort)
    {
      var s :| s in samples && SampleFrom(x, s, config, measurer);
      AboutItsRecord(x, s, samples, records, config, measurer);
    }
    forall i | 0 <= i < |records| && Answered(records, i, config, measurer)
      ensures exists x :: x in all && x.recordIndex == i
    {
      var s := SampleOfRecord(samples, records, i, config, measurer);
      var x :| x in all && SampleFrom(x, s, config, measurer);
    }
  }

  // ----- the rows that are stored -----

  /** The stored truth row repeats the answer for the sample. */
  predicate RepeatsTruth(t: TruthMeasurement, s: PreparedSample, config: AggregationConfig, measurer: Measurer) {
    && Measurable(s) && Counts(measurer(s.vector.value, config), config)
    && t.recordIndex == s.recordIndex && t.vectorHash == s.vectorHash && t.dupCount == s.dupCount
    && t.receiveTimeUs == s.receiveTimeUs.value
    && var m := measurer(s.vector.value, config).m;
       t.latencyMs == m.groundTruthLatencyMs && t.gtKeys == m.gtKeys && t.gtDistances == m.gtDistances
  }

  /** The stored sweep row repeats what the answer for the sample says of the `i`-th ef of the grid. */
  predicate RepeatsSweep(r: SweepMeasurementRow, s: PreparedSample, i: nat, config: AggregationConfig,
                         measurer: Measurer) {
    && i < |config.efGrid| && r.ef == config.efGrid[i] && r.recordIndex == s.recordIndex
    && Measurable(s) && Counts(measurer(s.vector.value, config), config)
    && var answer := measurer(s.vector.value, config).m.sweeps[i];
       && r.returnedKeys == answer.returnedKeys && r.resultCount == |answer.returnedKeys|
       && r.recall == answer.recall && r.latencyMs == answer.latencyMs
  }

  /** Every stored row repeats an answer for one of the samples. */
  ghost predicate RowsAnswer(p: Progress, samples: seq<PreparedSample>, config: AggregationConfig, measurer: Measurer) {
    && (forall t :: t in p.truths ==> exists s :: s in samples && RepeatsTruth(t, s, config, measurer))
    && (forall r :: r in p.sweeps ==> exists s, i :: s in samples && RepeatsSweep(r, s, i, config, measurer))
  }

  lemma RowsAnswerGrow(p: Progress, samples: seq<PreparedSample>, s: PreparedSample, config: AggregationConfig,
                       measurer: Measurer)
    requires RowsAnswer(p, samples, config, measurer)
    ensures RowsAnswer(p, samples + [s], config, measurer)
  {
    hide RepeatsTruth, RepeatsSweep;
    assert forall x :: x in samples ==> x in samples + [s];
  }

  /** The rows that one sample adds. */
  lemma RowsAnswerStep(p: Progress, samples: seq<PreparedSample>, s: PreparedSample, config: AggregationConfig,
                       measurer: Measurer)
    requires RowsAnswer(p, samples, config, measurer) && MeasureSample(p, s, config, measurer).Ok?
    ensures RowsAnswer(MeasureSample(p, s, config, measurer).value, samples + [s], config, measurer)
  {
    RowsAnswerGrow(p, samples, s, config, measurer);
    if Measurable(s) && Counts(measurer(s.vector.value, config), config) {
      var m := measurer(s.vector.value, config).m;
      SweepRowsAre(s.recordIndex, m.sweeps);
      assert RepeatsTruth(TruthRow(s, m), s, config, measurer);
      var rows := SweepRows(s.recordIndex, m.sweeps).value;
      forall r | r in rows ensures exists i :: RepeatsSweep(r, s, i, config, measurer) {
        var i :| 0 <= i < |rows| && rows[i] == r;
        assert RepeatsSweep(r, s, i, config, measurer);
      }
      assert s in samples + [s];
      hide SweepRows, SweepsOf, Observations, RepeatsTruth, RepeatsSweep, Consistent;
    }
  }

  /** Everything a measurement stores repeats the database's answers. */
  lemma {:induction false} StoredRowsAnswer(samples: seq<PreparedSample>, config: AggregationConfig, measurer: Measurer)
    requires MeasureSamples(samples, config, measurer).Ok?
    ensures RowsAnswer(MeasureSamples(samples, config, measurer).value, samples, config, measurer)
  {
    hide MeasureSample, RepeatsTruth, RepeatsSweep;
    if samples != [] {
      var n := |samples| - 1;
      StoredRowsAnswer(samples[..n], config, measurer);
      assert samples == samples[..n] + [samples[n]];
      RowsAnswerStep(MeasureSamples(samples[..n], config, measurer).value, samples[..n], samples[n], config, measurer);
    }
  }
}
