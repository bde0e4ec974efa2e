/** Which stored pairs a round reuses: those that a measurement of the same segment under the same
    settings would have written. */
module Reuse {
  import opened Wrappers
  import opened Bytes
  import opened Model
  import opened Ordered
  import opened Aggregation
  import opened Measure
  import opened Measurement
  import opened Pipeline
  import opened Phases
  import opened Resume
  import Segment

  /** What a pair says about the segment it was measured from. */
  predicate SameSegment(m: IntermediateMetadata, m': IntermediateMetadata) {
    && m.cohort == m'.cohort && m.partUlid == m'.partUlid
    && m.windowStart == m'.windowStart && m.windowSeconds == m'.windowSeconds
    && m.receivedFrameCount == m'.receivedFrameCount && m.recordCount == m'.recordCount
  }

  /** What a pair says about how it was measured. */
  predicate SameSettings(m: IntermediateMetadata, m': IntermediateMetadata) {
    && m.formatVersion == m'.formatVersion && m.index == m'.index && m.table == m'.table && m.column == m'.column
    && m.key == m'.key && m.k == m'.k && m.efGrid == m'.efGrid
  }

  /** The metadata repeats the accounting of the stored segment and the run's settings. */
  predicate Accounts(m: IntermediateMetadata, run: Run, x: SourcePart) {
    && m.formatVersion == 1 && m.cohort == run.config.cohort && m.partUlid == x.listed.partUlid
    && m.windowStart == x.listed.windowStart && m.windowSeconds == x.listed.windowSeconds == run.config.storageWindow
    && m.receivedFrameCount == x.listed.receivedFrameCount && m.recordCount == x.listed.recordCount
    && m.index == run.config.index && m.table == run.config.table && m.column == run.config.column
    && m.key == run.config.key && m.k == run.config.k && m.efGrid == run.config.efGrid
    && m.computedAtUs == run.computedAtUs
    && Segment.Parsed(x.bytes).Ok? && m.recordCount == |Segment.Parsed(x.bytes).value.records|
    && m.receivedFrameCount == Segment.Parsed(x.bytes).value.header.receivedFrameCount
  }

  lemma MeasuredAccounts(run: Run, x: SourcePart)
    requires Sources(run).Ok? && x in Jobs(run) && MeasureSource(run, x).Ok?
    ensures Accounts(MeasureSource(run, x).value.metadata, run, x)
  {
    JobFrom(run, x);
    PreparedRepresents(x.bytes, run.config.cohort, x.listed.windowStart, run.config.storageWindow);
    PreparedParses(x.bytes, run.config.cohort, x.listed.windowStart, run.config.storageWindow);
    hide Sources, Jobs, Prepared, Segment.Parsed, Represents, AllDescribe, MeasureSamples;
  }

  lemma PreparedParses(bytes: seq<Byte>, cohort: seq<Byte>, windowStart: nat, windowSeconds: nat)
    requires Prepared(bytes, cohort, windowStart, windowSeconds).Ok?
    ensures Segment.Parsed(bytes).Ok?
  {
    hide Segment.Parsed, Deduped;
  }

  lemma SameAsAgain(run: Run, x: SourcePart, part: IntermediatePart, again: IntermediateMetadata)
    requires Accounts(again, run, x)
    ensures MatchesSource(part, x, run.config.cohort) <==> SameSegment(part.metadata, again)
    ensures IsCompatible(run.config, part) <==> SameSettings(part.metadata, again)
  {
    hide Segment.Parsed;
  }

  /** A round reuses a stored pair exactly when it could have been written by measuring the source again:
      it reads back, and its metadata is what the measurement would write, but for the time and the counts
      of what was measured and failed. It counts a pair as outdated exactly when only settings differ. */
  lemma ReusedExactly(b: Bucket, run: Run, x: SourcePart)
    requires Sources(run).Ok? && x in Jobs(run) && MeasureSource(run, x).Ok?
    ensures var found, again := PairAt(b, SlotOf(x)), MeasureSource(run, x).value.metadata;
            match Look(b, run.config, x)
            case Usable(part) =>
              found == Some(part) && SameSegment(part.metadata, again) && SameSettings(part.metadata, again)
            case Outdated =>
              found.Some? && SameSegment(found.value.metadata, again) && !SameSettings(found.value.metadata, again)
            case NotUsable => found.None? || !SameSegment(found.value.metadata, again)
  {
    hide Sources, Jobs, MeasureSource, PairAt, Accounts, MatchesSource, IsCompatible, SameSegment, SameSettings;
    MeasuredAccounts(run, x);
    if PairAt(b, SlotOf(x)).Some? {
      SameAsAgain(run, x, PairAt(b, SlotOf(x)).value, MeasureSource(run, x).value.metadata);
    }
  }
}
