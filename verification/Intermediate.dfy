/** The durable truth/sweep pair of one measured part. Encoding to and from columns is the
    identity; what is modelled is the join and its checks. */
module Intermediate {
  import opened Wrappers
  import opened Bytes
  import opened Model
  import opened Ordered
  import opened Population

  datatype TruthMeasurement = TruthMeasurement(
    recordIndex: int, vectorHash: U64, dupCount: int, receiveTimeUs: int, latencyMs: real,
    gtKeys: seq<int>, gtDistances: seq<real>)

  datatype SweepMeasurementRow = SweepMeasurementRow(
    recordIndex: int, ef: int, returnedKeys: seq<int>, recall: real, latencyMs: real, resultCount: nat)

  datatype TruthFile = TruthFile(metadata: IntermediateMetadata, rows: seq<TruthMeasurement>)
  datatype SweepFile = SweepFile(metadata: IntermediateMetadata, rows: seq<SweepMeasurementRow>)

  datatype IntermediateError =
    | Undecodable
    | MetadataMismatch
    | DuplicateTruthRecord(recordIndex: int)
    | MeasuredCountMismatch(metadataCount: nat, truthRowCount: nat)
    | OrphanSweepRecord(recordIndex: int)
    | DuplicateSweep(recordIndex: int, ef: int)

  function SampleOf(t: TruthMeasurement, sweeps: map<int, SweepMeasurement>): MeasuredSample {
    MeasuredSample(t.recordIndex, t.vectorHash, t.dupCount, t.latencyMs, sweeps)
  }

  /** The specification of `ReadTruthRows`. */
  function TruthSamples(rows: seq<TruthMeasurement>): Result<map<int, MeasuredSample>, IntermediateError> {
    if rows == [] then Ok(map[])
    else
      var samples :- TruthSamples(rows[..|rows| - 1]);
      var t := rows[|rows| - 1];
      if t.recordIndex in samples then Err(DuplicateTruthRecord(t.recordIndex))
      else Ok(samples[t.recordIndex := SampleOf(t, map[])])
  }

  method ReadTruthRows(rows: seq<TruthMeasurement>) returns (r: Result<map<int, MeasuredSample>, IntermediateError>)
    ensures r == TruthSamples(rows)
  {
    var samples: map<int, MeasuredSample> := map[];
    for i := 0 to |rows|
      invariant TruthSamples(rows[..i]) == Ok(samples)
    {
      assert rows[..i + 1][..i] == rows[..i];
      TruthPrefix(rows, i + 1);
      if rows[i].recordIndex in samples {
        return Err(DuplicateTruthRecord(rows[i].recordIndex));
      }
      samples := samples[rows[i].recordIndex := SampleOf(rows[i], map[])];
    }
    assert rows[..|rows|] == rows;
    return Ok(samples);
  }

  lemma {:induction false} TruthPrefix(rows: seq<TruthMeasurement>, n: nat)
    requires n <= |rows|
    ensures TruthSamples(rows[..n]).Err? ==> TruthSamples(rows) == TruthSamples(rows[..n])
    decreases |rows|
  {
    if n < |rows| {
      TruthPrefix(rows[..|rows| - 1], n);
      assert rows[..|rows| - 1][..n] == rows[..n];
    } else {
      assert rows[..n] == rows;
    }
  }

  function AddSweep(samples: map<int, MeasuredSample>,
                    row: SweepMeasurementRow): Result<map<int, MeasuredSample>, IntermediateError> {
    if row.recordIndex !in samples then Err(OrphanSweepRecord(row.recordIndex))
    else
      var sample := samples[row.recordIndex];
      if row.ef in sample.sweeps then Err(DuplicateSweep(row.recordIndex, row.ef))
      else
        var sweeps := sample.sweeps[row.ef := SweepMeasurement(row.recall, row.latencyMs)];
        Ok(samples[row.recordIndex := sample.(sweeps := sweeps)])
  }

  /** The specification of `ReadSweepRows`. */
  function WithSweeps(samples: map<int, MeasuredSample>,
                      rows: seq<SweepMeasurementRow>): Result<map<int, MeasuredSample>, IntermediateError> {
    if rows == [] then Ok(samples)
    else
      var before :- WithSweeps(samples, rows[..|rows| - 1]);
      AddSweep(before, rows[|rows| - 1])
  }

  method ReadSweepRows(initial: map<int, MeasuredSample>, rows: seq<SweepMeasurementRow>)
    returns (r: Result<map<int, MeasuredSample>, IntermediateError>)
    ensures r == WithSweeps(initial, rows)
  {
    var samples := initial;
    for i := 0 to |rows|
      invariant WithSweeps(initial, rows[..i]) == Ok(samples)
    {
      assert rows[..i + 1][..i] == rows[..i];
      SweepPrefix(initial, rows, i + 1);
      var row := rows[i];
      if row.recordIndex !in samples {
        return Err(OrphanSweepRecord(row.recordIndex));
      }
      var sample := samples[row.recordIndex];
      if row.ef in sample.sweeps {
        return Err(DuplicateSweep(row.recordIndex, row.ef));
      }
      var sweeps := sample.sweeps[row.ef := SweepMeasurement(row.recall, row.latencyMs)];
      samples := samples[row.recordIndex := sample.(sweeps := sweeps)];
    }
    assert rows[..|rows|] == rows;
    return Ok(samples);
  }

  lemma {:induction false} SweepPrefix(samples: map<int, MeasuredSample>, rows: seq<SweepMeasurementRow>, n: nat)
    requires n <= |rows|
    ensures WithSweeps(samples, rows[..n]).Err? ==> WithSweeps(samples, rows) == WithSweeps(samples, rows[..n])
    decreases |rows|
  {
    if n < |rows| {
      SweepPrefix(samples, rows[..|rows| - 1], n);
      assert rows[..|rows| - 1][..n] == rows[..n];
    } else {
      assert rows[..n] == rows;
    }
  }

  /** Reads and joins one pair. */
  function ReadPair(truth: TruthFile, sweep: SweepFile): Result<IntermediatePart, IntermediateError> {
    if truth.metadata != sweep.metadata then Err(MetadataMismatch)
    else
      var samples :- TruthSamples(truth.rows);
      if truth.metadata.measuredCount != |samples| then
        Err(MeasuredCountMismatch(truth.metadata.measuredCount, |samples|))
      else
        var joined :- WithSweeps(samples, sweep.rows);
        Ok(IntermediatePart(truth.metadata, InOrder(joined)))
  }

  // ----- what the join accepts and returns -----

  /** The observations recorded for one ordinal. */
  function SweepsOf(rows: seq<SweepMeasurementRow>, recordIndex: int): map<int, SweepMeasurement> {
    if rows == [] then map[]
    else
      var row := rows[|rows| - 1];
      var before := SweepsOf(rows[..|rows| - 1], recordIndex);
      if row.recordIndex == recordIndex then before[row.ef := SweepMeasurement(row.recall, row.latencyMs)] else before
  }

  predicate DistinctTruths(rows: seq<TruthMeasurement>) {
    forall i, j :: 0 <= i < j < |rows| ==> rows[i].recordIndex != rows[j].recordIndex
  }

  predicate DistinctSweeps(rows: seq<SweepMeasurementRow>) {
    forall i, j :: 0 <= i < j < |rows| ==> rows[i].recordIndex != rows[j].recordIndex || rows[i].ef != rows[j].ef
  }

  function Indexes(rows: seq<TruthMeasurement>): set<int> {
    set j | 0 <= j < |rows| :: rows[j].recordIndex
  }

  predicate NoOrphans(truths: seq<TruthMeasurement>, rows: seq<SweepMeasurementRow>) {
    forall i :: 0 <= i < |rows| ==> rows[i].recordIndex in Indexes(truths)
  }

  predicate HoldsTruths(m: map<int, MeasuredSample>, rows: seq<TruthMeasurement>) {
    && m.Keys == Indexes(rows) && |m| == |rows| && (forall k :: k in m ==> m[k].sweeps == map[])
    && (forall j :: 0 <= j < |rows| ==> rows[j].recordIndex in m && m[rows[j].recordIndex] == SampleOf(rows[j], map[]))
  }

  lemma IndexesStep(rows: seq<TruthMeasurement>)
    requires rows != []
    ensures Indexes(rows) == Indexes(rows[..|rows| - 1]) + {rows[|rows| - 1].recordIndex}
  {
    var n := |rows| - 1;
    assert forall j :: 0 <= j < n ==> rows[j] == rows[..n][j];
    forall k | k in Indexes(rows) ensures k in Indexes(rows[..n]) + {rows[n].recordIndex} {
      var j :| 0 <= j < |rows| && rows[j].recordIndex == k;
      assert j < n ==> rows[..n][j].recordIndex == k;
    }
    forall k | k in Indexes(rows[..n]) ensures k in Indexes(rows) {
      var j :| 0 <= j < n && rows[..n][j].recordIndex == k;
      assert rows[j].recordIndex == k;
    }
  }

  lemma DistinctStep(rows: seq<TruthMeasurement>)
    requires rows != []
    ensures DistinctTruths(rows) <==>
            DistinctTruths(rows[..|rows| - 1]) && rows[|rows| - 1].recordIndex !in Indexes(rows[..|rows| - 1])
  {
    var n := |rows| - 1;
    assert forall j :: 0 <= j < n ==> rows[j] == rows[..n][j];
  }

  lemma HoldsStep(m: map<int, MeasuredSample>, rows: seq<TruthMeasurement>)
    requires rows != [] && HoldsTruths(m, rows[..|rows| - 1]) && rows[|rows| - 1].recordIndex !in m
    ensures HoldsTruths(m[rows[|rows| - 1].recordIndex := SampleOf(rows[|rows| - 1], map[])], rows)
  {
    var n := |rows| - 1;
    IndexesStep(rows);
    hide Indexes;
    var m' := m[rows[n].recordIndex := SampleOf(rows[n], map[])];
    forall j | 0 <= j < |rows|
      ensures rows[j].recordIndex in m' && m'[rows[j].recordIndex] == SampleOf(rows[j], map[])
    {
      if j < n { assert rows[j] == rows[..n][j]; }
    }
    assert m'.Keys == m.Keys + {rows[n].recordIndex};
  }

  lemma {:induction false} TruthSamplesExact(rows: seq<TruthMeasurement>)
    ensures TruthSamples(rows).Ok? <==> DistinctTruths(rows)
    ensures TruthSamples(rows).Ok? ==> HoldsTruths(TruthSamples(rows).value, rows)
  {
    if rows == [] {
      assert Indexes(rows) == {};
    } else {
      var n := |rows| - 1;
      TruthSamplesExact(rows[..n]);
      DistinctStep(rows);
      if TruthSamples(rows).Ok? {
        HoldsStep(TruthSamples(rows[..n]).value, rows);
      }
      hide DistinctTruths, Indexes;
    }
  }

  lemma {:induction false} SweepsOfKeys(rows: seq<SweepMeasurementRow>, recordIndex: int, ef: int)
    ensures ef in SweepsOf(rows, recordIndex) <==>
            exists i :: 0 <= i < |rows| && rows[i].recordIndex == recordIndex && rows[i].ef == ef
  {
    if rows != [] {
      var n := |rows| - 1;
      SweepsOfKeys(rows[..n], recordIndex, ef);
      assert forall i :: 0 <= i < n ==> rows[i] == rows[..n][i];
    }
  }

  lemma {:induction false} WithSweepsExact(samples: map<int, MeasuredSample>, rows: seq<SweepMeasurementRow>)
    requires forall k :: k in samples ==> samples[k].sweeps == map[]
    ensures WithSweeps(samples, rows).Ok? <==>
            DistinctSweeps(rows) && forall i :: 0 <= i < |rows| ==> rows[i].recordIndex in samples
    ensures WithSweeps(samples, rows).Ok? ==>
      var m := WithSweeps(samples, rows).value;
      m.Keys == samples.Keys && forall k :: k in m ==> m[k] == samples[k].(sweeps := SweepsOf(rows, k))
  {
    if rows != [] {
      var n := |rows| - 1;
      WithSweepsExact(samples, rows[..n]);
      assert forall i :: 0 <= i < n ==> rows[i] == rows[..n][i];
      SweepsOfKeys(rows[..n], rows[n].recordIndex, rows[n].ef);
      hide SweepsOf;
    }
  }

  predicate AscendingTruths(rows: seq<TruthMeasurement>) {
    forall i, j :: 0 <= i < j < |rows| ==> rows[i].recordIndex < rows[j].recordIndex
  }

  /** The joined samples, in record order. */
  function Joined(truths: seq<TruthMeasurement>, sweeps: seq<SweepMeasurementRow>): seq<MeasuredSample> {
    seq(|truths|, i requires 0 <= i < |truths| => SampleOf(truths[i], SweepsOf(sweeps, truths[i].recordIndex)))
  }

  /** A pair is readable exactly when its two files describe one measurement and every row joins
      exactly once. */
  lemma ReadableExactly(truth: TruthFile, sweep: SweepFile)
    ensures ReadPair(truth, sweep).Ok? <==>
      && truth.metadata == sweep.metadata && truth.metadata.measuredCount == |truth.rows|
      && DistinctTruths(truth.rows) && DistinctSweeps(sweep.rows) && NoOrphans(truth.rows, sweep.rows)
    ensures ReadPair(truth, sweep).Ok? ==> ReadPair(truth, sweep).value.metadata == truth.metadata
  {
    hide TruthSamples, WithSweeps, InOrder;
    TruthSamplesExact(truth.rows);
    if TruthSamples(truth.rows).Ok? {
      WithSweepsExact(TruthSamples(truth.rows).value, sweep.rows);
    }
  }

  /** What is read back from a readable pair with its truth rows in record order. */
  lemma JoinReturnsRows(truth: TruthFile, sweep: SweepFile)
    requires ReadPair(truth, sweep).Ok? && AscendingTruths(truth.rows)
    ensures ReadPair(truth, sweep).value.samples == Joined(truth.rows, sweep.rows)
  {
    hide TruthSamples, WithSweeps, SweepsOf, InOrder, Indexes;
    TruthSamplesExact(truth.rows);
    var samples := TruthSamples(truth.rows).value;
    WithSweepsExact(samples, sweep.rows);
    InOrderOfTruths(truth.rows, sweep.rows, WithSweeps(samples, sweep.rows).value);
  }

  lemma InOrderOfTruths(truths: seq<TruthMeasurement>, sweeps: seq<SweepMeasurementRow>,
                        joined: map<int, MeasuredSample>)
    requires AscendingTruths(truths) && joined.Keys == Indexes(truths)
    requires forall j :: 0 <= j < |truths| ==>
      (truths[j].recordIndex in joined
       && joined[truths[j].recordIndex] == SampleOf(truths[j], SweepsOf(sweeps, truths[j].recordIndex)))
    ensures InOrder(joined) == Joined(truths, sweeps)
  {
    hide Ascending, SweepsOf;
    var keys := seq(|truths|, i requires 0 <= i < |truths| => truths[i].recordIndex);
    forall k ensures k in keys <==> k in Ascending(joined.Keys) {
      if k in joined.Keys {
        var j :| 0 <= j < |truths| && truths[j].recordIndex == k;
        assert keys[j] == k;
      }
    }
    AscendingUnique(keys, Ascending(joined.Keys));
  }
}
