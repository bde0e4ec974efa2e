/** Measuring a prepared part: every distinct sample ends up measured or failed, and the pair that is
    stored reads back as exactly what was measured. */
module Measurement {
  import opened Wrappers
  import opened Bytes
  import opened Model
  import opened Ordered
  import opened Population
  import opened Intermediate
  import opened Measure

  datatype SampleSweepResult = SampleSweepResult(ef: int, returnedKeys: seq<int>, recall: real, latencyMs: real)

  datatype SampleMeasurement = SampleMeasurement(
    gtKeys: seq<int>, gtDistances: seq<real>, groundTruthLatencyMs: real, sweeps: seq<SampleSweepResult>)

  datatype SampleOutcome =
    | Measured(m: SampleMeasurement)
    | DatabaseFailed
    | TooFewRows(returned: nat)
    | ConnectionLost
    | CancelledBeforeTransaction

  /** What the database answers for a vector under a configuration. */
  type Measurer = (seq<Byte>, AggregationConfig) -> SampleOutcome

  /** Why measuring a part ends without a pair. */
  datatype Stop =
    | Abort(abort: PhaseAAbort)
    | ConnectionUnavailable
    | MeasuringCancelled
    | PartRejected(error: PreparePartError)

  datatype Progress = Progress(failed: nat, truths: seq<TruthMeasurement>, sweeps: seq<SweepMeasurementRow>)

  datatype MeasuredPart = MeasuredPart(metadata: IntermediateMetadata, truths: seq<TruthMeasurement>,
                                       sweeps: seq<SweepMeasurementRow>)

  /** The measurement has the shape the configuration asks for. */
  predicate Consistent(m: SampleMeasurement, config: AggregationConfig) {
    && |m.gtKeys| == config.k && |m.gtDistances| == |m.gtKeys| && |m.sweeps| == |config.efGrid|
    && forall i :: 0 <= i < |m.sweeps| ==> m.sweeps[i].ef == config.efGrid[i]
  }

  predicate Measurable(s: PreparedSample) { s.receiveTimeUs.Ok? && s.vector.Ok? }

  function TruthRow(s: PreparedSample, m: SampleMeasurement): TruthMeasurement
    requires Measurable(s)
  {
    TruthMeasurement(s.recordIndex, s.vectorHash, s.dupCount, s.receiveTimeUs.value, m.groundTruthLatencyMs, m.gtKeys,
                     m.gtDistances)
  }

  function SweepRow(recordIndex: int, r: SampleSweepResult): SweepMeasurementRow {
    SweepMeasurementRow(recordIndex, r.ef, r.returnedKeys, r.recall, r.latencyMs, |r.returnedKeys|)
  }

  /** The rows of one sample's sweep. */
  function SweepRows(recordIndex: int,
                     sweeps: seq<SampleSweepResult>): Result<seq<SweepMeasurementRow>, PreparePartError> {
    if sweeps == [] then Ok([])
    else
      var rows :- SweepRows(recordIndex, sweeps[..|sweeps| - 1]);
      var last := sweeps[|sweeps| - 1];
      if |last.returnedKeys| >= I32_LIMIT then Err(ResultCountOutOfRange(|last.returnedKeys|))
      else Ok(rows + [SweepRow(recordIndex, last)])
  }

  function MeasureSample(p: Progress, s: PreparedSample, config: AggregationConfig,
                         measurer: Measurer): Result<Progress, Stop> {
    if !Measurable(s) then Ok(p.(failed := p.failed + 1))
    else match measurer(s.vector.value, config)
      case DatabaseFailed => Ok(p.(failed := p.failed + 1))
      case TooFewRows(returned) => Err(Abort(TableSmallerThanK(returned, config.k)))
      case ConnectionLost => Err(ConnectionUnavailable)
      case CancelledBeforeTransaction => Err(MeasuringCancelled)
      case Measured(m) =>
        if !Consistent(m, config) then Ok(p.(failed := p.failed + 1))
        else match SweepRows(s.recordIndex, m.sweeps)
          case Err(e) => Err(PartRejected(e))
          case Ok(rows) => Ok(Progress(p.failed, p.truths + [TruthRow(s, m)], p.sweeps + rows))
  }

  function MeasureSamples(samples: seq<PreparedSample>, config: AggregationConfig,
                          measurer: Measurer): Result<Progress, Stop> {
    if samples == [] then Ok(Progress(0, [], []))
    else
      var p :- MeasureSamples(samples[..|samples| - 1], config, measurer);
      MeasureSample(p, samples[|samples| - 1], config, measurer)
  }

  function Metadata(part: PreparedPart, partUlid: nat, config: AggregationConfig, computedAtUs: U64, failed: nat,
                    measured: nat): IntermediateMetadata {
    IntermediateMetadata(1, part.cohort, partUlid, part.windowStart, part.windowSeconds, part.receivedFrameCount,
                         part.recordCount, config.index, config.table, config.column, config.key, config.k,
                         config.efGrid, failed, measured, computedAtUs)
  }

  /** The specification of `MeasurePreparedPart`. */
  function MeasuredPartOf(part: PreparedPart, partUlid: nat, config: AggregationConfig, computedAtUs: U64,
                          measurer: Measurer): Result<MeasuredPart, Stop> {
    var p :- MeasureSamples(part.samples, config, measurer);
    Ok(MeasuredPart(Metadata(part, partUlid, config, computedAtUs, p.failed, |p.truths|), p.truths, p.sweeps))
  }

  lemma {:induction false} MeasurePrefix(samples: seq<PreparedSample>, config: AggregationConfig, measurer: Measurer,
                                         n: nat)
    requires n <= |samples|
    ensures MeasureSamples(samples[..n], config, measurer).Err? ==>
            MeasureSamples(samples, config, measurer) == MeasureSamples(samples[..n], config, measurer)
    decreases |samples|
  {
    hide MeasureSample;
    if n < |samples| {
      MeasurePrefix(samples[..|samples| - 1], config, measurer, n);
      assert samples[..|samples| - 1][..n] == samples[..n];
    } else {
      assert samples[..n] == samples;
    }
  }

  lemma MeasureNext(samples: seq<PreparedSample>, config: AggregationConfig, measurer: Measurer, i: nat)
    requires i < |samples| && MeasureSamples(samples[..i], config, measurer).Ok?
    ensures MeasureSamples(samples[..i + 1], config, measurer)
         == MeasureSample(MeasureSamples(samples[..i], config, measurer).value, samples[i], config, measurer)
    ensures MeasureSamples(samples[..i + 1], config, measurer).Err? ==>
            MeasureSamples(samples, config, measurer) == MeasureSamples(samples[..i + 1], config, measurer)
  {
    hide MeasureSample;
    assert samples[..i + 1][..i] == samples[..i];
    MeasurePrefix(samples, config, measurer, i + 1);
  }

  method MeasurePreparedPart(part: PreparedPart, partUlid: nat, config: AggregationConfig, computedAtUs: U64,
                             measurer: Measurer)
    returns (r: Result<MeasuredPart, Stop>)
    ensures r == MeasuredPartOf(part, partUlid, config, computedAtUs, measurer)
  {
    var failed: nat := 0;
    var truths: seq<TruthMeasurement> := [];
    var sweeps: seq<SweepMeasurementRow> := [];
    for i := 0 to |part.samples|
      invariant MeasureSamples(part.samples[..i], config, measurer) == Ok(Progress(failed, truths, sweeps))
    {
      var s := part.samples[i];
      MeasureNext(part.samples, config, measurer, i);
      if !Measurable(s) {
        failed := failed + 1;
        continue;
      }
      var outcome := measurer(s.vector.value, config);
      match outcome {
        case DatabaseFailed =>
          failed := failed + 1;
        case TooFewRows(returned) =>
          return Err(Abort(TableSmallerThanK(returned, config.k)));
        case ConnectionLost =>
          return Err(ConnectionUnavailable);
        case CancelledBeforeTransaction =>
          return Err(MeasuringCancelled);
        case Measured(m) =>
          if !Consistent(m, config) {
            failed := failed + 1;
            continue;
          }
          var rows := SweepRows(s.recordIndex, m.sweeps);
          if rows.Err? {
            return Err(PartRejected(rows.error));
          }
          truths := truths + [TruthRow(s, m)];
          sweeps := sweeps + rows.value;
      }
    }
    assert part.samples[..|part.samples|] == part.samples;
    return Ok(MeasuredPart(Metadata(part, partUlid, config, computedAtUs, failed, |truths|), truths, sweeps));
  }

  // ----- what a complete measurement holds -----

  function Observations(sweeps: seq<SampleSweepResult>): map<int, SweepMeasurement> {
    if sweeps == [] then map[]
    else
      var last := sweeps[|sweeps| - 1];
      Observations(sweeps[..|sweeps| - 1])[last.ef := SweepMeasurement(last.recall, last.latencyMs)]
  }

  /** What one sample contributes: nothing when it failed, its answers otherwise. */
  function Contribution(s: PreparedSample, config: AggregationConfig, measurer: Measurer): Option<MeasuredSample> {
    if Measurable(s) && var o := measurer(s.vector.value, config); o.Measured? && Consistent(o.m, config) then
      var m := measurer(s.vector.value, config).m;
      Some(SampleOf(TruthRow(s, m), Observations(m.sweeps)))
    else None
  }

  function Contributions(samples: seq<PreparedSample>, config: AggregationConfig,
                         measurer: Measurer): seq<MeasuredSample> {
    if samples == [] then []
    else
      var rest := Contributions(samples[..|samples| - 1], config, measurer);
      match Contribution(samples[|samples| - 1], config, measurer)
      case None => rest
      case Some(sample) => rest + [sample]
  }

  predicate RowsOf(rows: seq<SweepMeasurementRow>, recordIndex: int, sweeps: seq<SampleSweepResult>) {
    |rows| == |sweeps| && forall i :: 0 <= i < |rows| ==> rows[i] == SweepRow(recordIndex, sweeps[i])
  }

  lemma {:induction false} SweepRowsAre(recordIndex: int, sweeps: seq<SampleSweepResult>)
    requires SweepRows(recordIndex, sweeps).Ok?
    ensures RowsOf(SweepRows(recordIndex, sweeps).value, recordIndex, sweeps)
    ensures SweepsOf(SweepRows(recordIndex, sweeps).value, recordIndex) == Observations(sweeps)
  {
    if sweeps != [] {
      var n := |sweeps| - 1;
      SweepRowsAre(recordIndex, sweeps[..n]);
      var rows := SweepRows(recordIndex, sweeps).value;
      assert rows[..n] == SweepRows(recordIndex, sweeps[..n]).value;
      assert forall i :: 0 <= i < n ==> sweeps[..n][i] == sweeps[i];
    }
  }

  lemma {:induction false} ObservedKeys(sweeps: seq<SampleSweepResult>, grid: seq<int>)
    requires |sweeps| == |grid| && forall i :: 0 <= i < |sweeps| ==> sweeps[i].ef == grid[i]
    ensures Observations(sweeps).Keys == set ef | ef in grid
  {
    if sweeps != [] {
      var n := |sweeps| - 1;
      ObservedKeys(sweeps[..n], grid[..n]);
      assert grid == grid[..n] + [grid[n]];
    }
  }

  predicate Mentions(rows: seq<SweepMeasurementRow>, recordIndex: int) {
    exists i :: 0 <= i < |rows| && rows[i].recordIndex == recordIndex
  }

  lemma {:induction false} SweepsOfAppend(earlier: seq<SweepMeasurementRow>, rows: seq<SweepMeasurementRow>,
                                          recordIndex: int)
    ensures !Mentions(rows, recordIndex) ==> SweepsOf(earlier + rows, recordIndex) == SweepsOf(earlier, recordIndex)
    ensures !Mentions(earlier, recordIndex) ==> SweepsOf(earlier + rows, recordIndex) == SweepsOf(rows, recordIndex)
    decreases |rows|
  {
    if rows == [] {
      assert earlier + rows == earlier;
      NoSweeps(earlier, recordIndex);
    } else {
      var n := |rows| - 1;
      assert (earlier + rows)[..|earlier + rows| - 1] == earlier + rows[..n];
      SweepsOfAppend(earlier, rows[..n], recordIndex);
      assert Mentions(rows[..n], recordIndex) ==> Mentions(rows, recordIndex) by {
        assert forall i :: 0 <= i < n ==> rows[..n][i] == rows[i];
      }
    }
  }

  lemma {:induction false} NoSweeps(rows: seq<SweepMeasurementRow>, recordIndex: int)
    ensures !Mentions(rows, recordIndex) ==> SweepsOf(rows, recordIndex) == map[]
  {
    if rows != [] && !Mentions(rows, recordIndex) {
      var n := |rows| - 1;
      assert forall i :: 0 <= i < n ==> rows[..n][i] == rows[i];
      assert !Mentions(rows[..n], recordIndex);
      NoSweeps(rows[..n], recordIndex);
    }
  }

  /** Rows of one measurement: every sweep row belongs to one truth row, none twice, and the join is
      what the samples contributed. */
  predicate Coherent(p: Progress, samples: seq<PreparedSample>, config: AggregationConfig, measurer: Measurer) {
    && p.failed + |p.truths| == |samples|
    && |p.sweeps| == |p.truths| * |config.efGrid|
    && AscendingTruths(p.truths) && DistinctSweeps(p.sweeps) && NoOrphans(p.truths, p.sweeps)
    && (forall k :: k in Indexes(p.truths) ==> exists s :: s in samples && s.recordIndex == k)
    && Joined(p.truths, p.sweeps) == Contributions(samples, config, measurer)
  }

  lemma LaterIndex(truths: seq<TruthMeasurement>, samples: seq<PreparedSample>, s: PreparedSample)
    requires Ascend(samples + [s])
    requires forall k :: k in Indexes(truths) ==> exists x :: x in samples && x.recordIndex == k
    ensures forall k :: k in Indexes(truths) ==> k < s.recordIndex
  {
    hide Indexes;
    forall k | k in Indexes(truths) ensures k < s.recordIndex {
      var x :| x in samples && x.recordIndex == k;
      var i :| 0 <= i < |samples| && samples[i] == x;
      assert (samples + [s])[i] == x && (samples + [s])[|samples|] == s;
    }
  }

  lemma IndexesAppend(truths: seq<TruthMeasurement>, t: TruthMeasurement)
    ensures Indexes(truths + [t]) == Indexes(truths) + {t.recordIndex}
  {
    IndexesStep(truths + [t]);
    assert (truths + [t])[..|truths|] == truths;
  }

  lemma AscendingAppend(truths: seq<TruthMeasurement>, t: TruthMeasurement)
    requires AscendingTruths(truths) && forall k :: k in Indexes(truths) ==> k < t.recordIndex
    ensures AscendingTruths(truths + [t])
  {
    forall i | 0 <= i < |truths| ensures truths[i].recordIndex < t.recordIndex {
      assert truths[i].recordIndex in Indexes(truths);
    }
  }

  /** The new sample's rows join its truth row only. */
  lemma RowsAppend(p: Progress, t: TruthMeasurement, rows: seq<SweepMeasurementRow>, sweeps: seq<SampleSweepResult>,
                   grid: seq<int>)
    requires DistinctSweeps(p.sweeps) && NoOrphans(p.truths, p.sweeps) && StrictlyAscending(grid)
    requires t.recordIndex !in Indexes(p.truths) && RowsOf(rows, t.recordIndex, sweeps)
    requires |sweeps| == |grid| && forall i :: 0 <= i < |sweeps| ==> sweeps[i].ef == grid[i]
    ensures DistinctSweeps(p.sweeps + rows) && NoOrphans(p.truths + [t], p.sweeps + rows)
    ensures !Mentions(p.sweeps, t.recordIndex)
    ensures forall k :: k in Indexes(p.truths) ==> !Mentions(rows, k)
  {
    IndexesAppend(p.truths, t);
    hide Indexes;
  }

  lemma JoinedAppend(p: Progress, t: TruthMeasurement, rows: seq<SweepMeasurementRow>)
    requires !Mentions(p.sweeps, t.recordIndex)
    requires forall k :: k in Indexes(p.truths) ==> !Mentions(rows, k)
    ensures Joined(p.truths + [t], p.sweeps + rows)
         == Joined(p.truths, p.sweeps) + [SampleOf(t, SweepsOf(rows, t.recordIndex))]
  {
    forall i | 0 <= i < |p.truths|
      ensures SweepsOf(p.sweeps + rows, p.truths[i].recordIndex) == SweepsOf(p.sweeps, p.truths[i].recordIndex)
    {
      assert p.truths[i].recordIndex in Indexes(p.truths);
      SweepsOfAppend(p.sweeps, rows, p.truths[i].recordIndex);
    }
    SweepsOfAppend(p.sweeps, rows, t.recordIndex);
    hide SweepsOf, Indexes;
  }

  lemma Larger(n: nat, g: nat)
    ensures (n + 1) * g == n * g + g
  {
  }

  /** A sample that failed changes only the count of failures. */
  lemma CoherentFailed(p: Progress, samples: seq<PreparedSample>, s: PreparedSample, config: AggregationConfig,
                       measurer: Measurer)
    requires Coherent(p, samples, config, measurer) && Contribution(s, config, measurer) == None
    ensures Coherent(p.(failed := p.failed + 1), samples + [s], config, measurer)
  {
    hide Contribution, Indexes, Joined, AscendingTruths, DistinctSweeps, NoOrphans;
    assert (samples + [s])[..|samples|] == samples;
    assert forall x :: x in samples ==> x in samples + [s];
  }

  lemma CoherentMeasured(p: Progress, samples: seq<PreparedSample>, s: PreparedSample, config: AggregationConfig,
                         measurer: Measurer, m: SampleMeasurement)
    requires Ascend(samples + [s]) && StrictlyAscending(config.efGrid) && Coherent(p, samples, config, measurer)
    requires Measurable(s) && measurer(s.vector.value, config) == Measured(m) && Consistent(m, config)
    requires SweepRows(s.recordIndex, m.sweeps).Ok?
    ensures Coherent(Progress(p.failed, p.truths + [TruthRow(s, m)],
                              p.sweeps + SweepRows(s.recordIndex, m.sweeps).value),
                     samples + [s], config, measurer)
  {
    hide SweepsOf, Indexes, SweepRows, Observations, AscendingTruths, DistinctSweeps, NoOrphans, Ascend, Joined;
    var t, rows := TruthRow(s, m), SweepRows(s.recordIndex, m.sweeps).value;
    assert (samples + [s])[..|samples|] == samples;
    assert forall x :: x in samples ==> x in samples + [s];
    SweepRowsAre(s.recordIndex, m.sweeps);
    LaterIndex(p.truths, samples, s);
    AscendingAppend(p.truths, t);
    RowsAppend(p, t, rows, m.sweeps, config.efGrid);
    JoinedAppend(p, t, rows);
    IndexesAppend(p.truths, t);
    Larger(|p.truths|, |config.efGrid|);
  }

  lemma CoherentStep(p: Progress, samples: seq<PreparedSample>, s: PreparedSample, config: AggregationConfig,
                     measurer: Measurer)
    requires Ascend(samples + [s]) && StrictlyAscending(config.efGrid)
    requires Coherent(p, samples, config, measurer)
    requires MeasureSample(p, s, config, measurer).Ok?
    ensures Coherent(MeasureSample(p, s, config, measurer).value, samples + [s], config, measurer)
  {
    hide Coherent, Consistent, SweepRows, Observations, Ascend;
    if Contribution(s, config, measurer).Some? {
      CoherentMeasured(p, samples, s, config, measurer, measurer(s.vector.value, config).m);
    } else {
      CoherentFailed(p, samples, s, config, measurer);
    }
  }

  lemma {:induction false} MeasuredCoherent(samples: seq<PreparedSample>, config: AggregationConfig, measurer: Measurer)
    requires Ascend(samples) && StrictlyAscending(config.efGrid)
    requires MeasureSamples(samples, config, measurer).Ok?
    ensures Coherent(MeasureSamples(samples, config, measurer).value, samples, config, measurer)
  {
    hide MeasureSample, Contribution;
    if samples != [] {
      var n := |samples| - 1;
      MeasuredCoherent(samples[..n], config, measurer);
      assert samples == samples[..n] + [samples[n]];
      CoherentStep(MeasureSamples(samples[..n], config, measurer).value, samples[..n], samples[n], config, measurer);
      hide Coherent;
    }
  }

  function TruthFileOf(m: MeasuredPart): TruthFile { TruthFile(m.metadata, m.truths) }
  function SweepFileOf(m: MeasuredPart): SweepFile { SweepFile(m.metadata, m.sweeps) }

  /** A completely measured part accounts for each distinct sample once, holds one sweep row per
      measured sample and ef, and its two files read back as exactly what was measured. */
  lemma MeasuredPairReadsBack(part: PreparedPart, partUlid: nat, config: AggregationConfig, computedAtUs: U64,
                              measurer: Measurer)
    requires Ascend(part.samples) && StrictlyAscending(config.efGrid)
    requires MeasuredPartOf(part, partUlid, config, computedAtUs, measurer).Ok?
    ensures var m := MeasuredPartOf(part, partUlid, config, computedAtUs, measurer).value;
            && m.metadata.measuredCount + m.metadata.failedCount == |part.samples|
            && |m.sweeps| == m.metadata.measuredCount * |config.efGrid|
            && ReadPair(TruthFileOf(m), SweepFileOf(m))
               == Ok(IntermediatePart(m.metadata, Contributions(part.samples, config, measurer)))
  {
    var m := MeasuredPartOf(part, partUlid, config, computedAtUs, measurer).value;
    MeasuredCoherent(part.samples, config, measurer);
    hide MeasureSamples, Contributions, ReadPair, Joined, DistinctSweeps, NoOrphans;
    ReadableExactly(TruthFileOf(m), SweepFileOf(m));
    JoinReturnsRows(TruthFileOf(m), SweepFileOf(m));
    assert DistinctTruths(m.truths);
  }

  /** Every contributed sample carries exactly one observation per ef of the grid. */
  lemma {:induction false} ContributionsSwept(samples: seq<PreparedSample>, config: AggregationConfig,
                                              measurer: Measurer)
    ensures forall x :: x in Contributions(samples, config, measurer) ==> x.sweeps.Keys == set ef | ef in config.efGrid
  {
    if samples != [] {
      var n := |samples| - 1;
      ContributionsSwept(samples[..n], config, measurer);
      var c := Contribution(samples[n], config, measurer);
      if c.Some? {
        ObservedKeys(measurer(samples[n].vector.value, config).m.sweeps, config.efGrid);
      }
      assert forall x :: x in Contributions(samples, config, measurer) ==>
        x in Contributions(samples[..n], config, measurer) || c == Some(x);
      hide Contribution;
    }
  }
}
