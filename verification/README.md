# VectorSeam: a model with proofs

VectorSeam samples the query vectors of an approximate-nearest-neighbour service, stores them, and
works out offline which `ef_search` meets a recall target. This project models the four parts whose
correctness is not visible from any single function, and proves what they promise.

**The client and the codecs** (`Bytes`, `Cohort`, `Frame`, `Stream`, `Sender`, `Sampler`, `Segment`,
`Wire`, `Calendar`, `Timestamp`, `Keys`). Frames and segments are sequences of bytes. The SDK's name
pattern is modelled as the existence of a match and the collector's validator as it is written, and the two
are shown to accept the same names. Encoders and parsers are inverse. The calendar algorithm is compared
with the rules of the proleptic Gregorian calendar (section 3.2.1 of ISO 8601:2004). The sender, its queue
and its connections are a state machine over captures, batches, partial writes and reconnects.

**The collector** (`Memory`, `Writer`, `Collector`, `CollectorLaws`, `CollectorGuarantees`, `WriterRuns`,
`Flushes`, `Labels`, `Delivery`). The memory tracker's compare-and-swap loops run over the modification
order of one relaxed atomic, whose loads may return stale entries; they implement the counter that the rest
of the collector works with. The collector is a state machine in which any number of readers, the bounded
channel, the drop ledger and the window writer interleave between every two shared effects. `Writer` holds
the writer and the ledger as classes; what its methods do to a frame or a window is shown to be a run of
the state machine. `Delivery` exhibits runs that take a frame into a stored batch, so that the safety
theorems are not about a machine that cannot move.

**The estimator** (`Posterior`, `Outcomes`, `Ordered`, `Model`, `Selection`, `Fnv`, `Population`,
`Accounting`, `Aggregation`, `AggregateRound`, `AggregationLaws`, `Records`). Floating-point numbers are
reals. The posterior is the finite binomial sum that `python/seam_harness/anchor.py` writes down, and
`Outcomes` shows it to be the probability it stands for. One round is the function `Aggregation.Aggregate`;
`AggregateRound.AggregateOnce` computes it with the loops of the source.

**The tuner's rounds** (`Measure`, `Measurement`, `Intermediate`, `MeasuredRecords`, `SweepOrder`,
`Pipeline`, `Phases`, `Reuse`, `Endings`, `Resume`, `ResumeExamples`, `Torn`, `TornExample`, `Provenance`,
`Pacer`). A round reads what it needs before it overwrites it, so its writes are a list that is a function
of the store it starts from; a crash, a cancellation or a lost connection cuts that list short. Theorems
range over every history of rounds cut short anywhere. The rounds of a history may list different segments,
because parts arrive late and leave the window; all that is asked is that a stored segment is never
rewritten.

Part ULIDs are their 128-bit values, whose order is the order of their canonical text. The store of one
cohort is a map from storage window and part ULID to truth and sweep files; `Keys` and `Timestamp` show
that the paths built from these keep cohorts and windows apart. Time, randomness, the answers of the
database, iteration orders of hash maps, observed values of the memory counter, the bytes a socket takes
and the number of writes a process survives are parameters.

## What the code does differently from its documentation

- `Resume.ResumeEqualsClean`: a resumed round does not always publish what a never-crashed one would. The
  tuner's documentation asks for that in its test of resuming in the middle of a part and suggests it in
  general. Pairs of another configuration that an interrupted round already replaced are no longer counted
  in `incompatible_parts` (`ResumeExamples.ReplacedPairExample`), and a part measured by a round of another
  round end can come after the part at which the clean round aborts (`ResumeExamples.OutOfTurnExample`).
  Both conditions are exact, see `Resume.ResumeEqualsCleanExactly`.
- `Torn.AcceptedPairIsWhole`: a truth and a sweep file are told apart by their timestamps. When two rounds
  share theirs, a mixture of two measurements can be accepted (`TornExample.EqualTimesMixExample`).
- `Timestamp.SortableUntilYear10000`: file names sort chronologically only up to the end of year 9999.
- The tuner's documentation is not of one mind about the sweep: its listing of the queries has it in
  ascending order, its later decision has it shuffled per vector. The code shuffles and sorts afterwards,
  which `SweepOrder.ShuffleUnobservable` shows to be invisible.

## Model

| member | source | states |
|---|---|---|
| Bytes.EncodeThenDecode | crates/vectorseam-core/src/binary.rs:7-22 | A number that fits is read back from its little-endian bytes. |
| Bytes.DecodeThenEncode | crates/vectorseam-core/src/binary.rs:7-32 | Every byte string is the encoding of the number read from it. |
| Bytes.ReadExact | crates/vectorseam-core/src/binary.rs:24-32 | A read succeeds exactly when it lies within the buffer, and then returns those bytes. |
| Wire.EncodedDigits | crates/vectorseam-core/src/binary.rs:7-22 | Byte k of an encoded number is its k-th digit to base 256, the least significant first. |
| Cohort.ValidatorsAgree | python/vectorseam/frame.py:34-50 | The SDK's pattern matches a name exactly when the collector's segment-wise validator accepts its UTF-8 bytes. |
| Cohort.SegmentsAllValid | crates/vectorseam-core/src/cohort.rs:117-168 | The validator's loop accepts exactly the names all of whose segments are valid. |
| Frame.LayoutThenParse | crates/vectorseam-core/src/frame.rs:90-164 | Parsing a laid-out frame returns every field and the payload. |
| Frame.ParseThenLayout | crates/vectorseam-core/src/frame.rs:90-164 | An accepted buffer is the layout of what was parsed, byte for byte. |
| Frame.SelfDelimiting | crates/vectorseam-core/src/frame.rs:167-178 | A frame announces its own length whatever follows it. |
| Frame.EncodedFramesParse | python/vectorseam/frame.py:81-133 | Whatever the SDK encodes parses back field for field, under a valid cohort name. |
| Wire.FrameLayout | python/vectorseam/frame.py:192-215 | Every field of a frame stands, as a little-endian number, at the offset the format gives it. |
| Wire.ParsedFrameBytes | crates/vectorseam-core/src/frame.rs:90-164 | The parser accepts only frames whose fields stand at those offsets with the values it returns. |
| Wire.EncodesExactly | python/vectorseam/frame.py:81-133 | The SDK makes a frame exactly of a named, non-empty vector with as many bytes as it says, within the format's range. |
| Wire.FloatFramesAreMeasurable | crates/seam/src/measure.rs:268-293 | A frame of floats the SDK makes is one the tuner asks the database about, with the very vector captured. |
| Segment.WriteSegment | crates/vectorseam-core/src/segment.rs:114-154 | The writer's loops produce the specified bytes, or the first error. |
| Segment.ReadSegment | crates/vectorseam-core/src/segment.rs:157-251 | The reader's loop ends and returns the specified segment, or the first error. |
| Segment.WriteThenRead | crates/vectorseam-core/src/segment.rs:114-251 | Reading what was written returns header and records. |
| Segment.ReadThenWrite | crates/vectorseam-core/src/segment.rs:114-251 | Re-writing an accepted file reproduces it exactly when its header has no unknown bytes. |
| Segment.UnknownHeaderBytesSkipped | crates/vectorseam-core/src/segment.rs:157-251 | Extending the header changes nothing that is read. |
| Wire.WrittenSegmentBytes | crates/vectorseam-core/src/segment.rs:114-154 | Header fields and records of a written segment stand at the offsets the format gives them. |
| Segment.SegmentSize | crates/vectorseam-core/src/segment.rs:17-20 | A segment is at most the fixed overhead larger than its records. |
| Calendar.CivilFromDaysCorrect | crates/vectorseam-core/src/window.rs:61-79 | Day 0 is 1970-01-01, every day number gives a valid Gregorian date and the next number the next date. |
| Calendar.DatesInOrder | crates/vectorseam-core/src/window.rs:61-79 | Later day numbers are later dates. |
| Timestamp.AlignmentIsFloor | crates/vectorseam-core/src/window.rs:27-33 | The aligned start is the multiple of the width at or before the instant, less than a width away. |
| Timestamp.FormatInjective | crates/vectorseam-core/src/window.rs:51-59 | Two instants have the same timestamp exactly when they are in the same minute. |
| Timestamp.FormatSpells | crates/vectorseam-core/src/window.rs:51-59 | Until year 10000 the timestamp spells, in decimal digits, the date of the instant's day and its hour and minute. |
| Timestamp.Iso8601Spells | crates/seam/src/aggregate.rs:380-390 | A record's window times spell the same date, hour and minute, with separators and no seconds. |
| Timestamp.SortableUntilYear10000 | dashboard/vectorseam_dashboard/server.py:69-82 | Text order of timestamps is time order exactly up to year 9999. |
| Keys.NamespaceIsolation | crates/seam/src/pipeline.rs:242-292 | Listing a cohort's window by path segments finds exactly that cohort's and that window's objects. |
| Stream.VectorCaptureProducer.CaptureVector | python/vectorseam/vector_capture.py:306-346 | A capture is sampled, encoded and enqueued, or reports why not; the queue keeps its byte bound. |
| Stream.VectorCaptureProducer.TryDequeue | python/vectorseam/vector_capture.py:348-355 | The oldest frame leaves the queue. |
| Stream.VectorCaptureProducer.Drain | python/vectorseam/vector_capture.py:357-391 | A drain removes the longest prefix that its budget allows. |
| Stream.DrainTakesWhatFits | python/vectorseam/vector_capture.py:380-391 | What is drained fits the budget, and one frame more would not. |
| Stream.DrainTakesAll | python/vectorseam/vector_capture.py:357-391 | Without a budget a drain takes the whole queue. |
| Stream.EncodedIsAccepted | crates/vectorseam-collector/src/reader.rs:111-130 | The reader accepts whatever the SDK encodes. |
| Stream.ReadConnection | crates/vectorseam-collector/src/reader.rs:36-140 | The reader's loop hands on exactly the specified frames; its counters are the numbers of malformed, misnamed and handed-on frames and of length prefixes read, and it ends oversized exactly when the next length is over the limit. |
| Stream.AcceptedExactly | crates/vectorseam-collector/src/reader.rs:111-140 | Handed on are exactly the acceptable frames that could be stamped, each with its own clock reading; every other frame is malformed, misnamed or unstamped. |
| Stream.CutStream | crates/vectorseam-collector/src/reader.rs:36-109 | From any cut of a stream of frames the reader extracts a prefix of those frames. |
| Stream.WholeStream | crates/vectorseam-collector/src/reader.rs:36-109 | From a complete stream within the size limit it extracts all of them. |
| Sender.VectorSocketSender.DrainInitialFrames | python/vectorseam/vector_sender.py:223-232 | The initial batch fits the batch limit or is one frame; nothing is lost from the queue. |
| Sender.VectorSocketSender.SendAllBounded | python/vectorseam/vector_sender.py:244-271 | The loop writes a prefix of the batch, and reports success exactly when it wrote all of it. |
| Sender.VectorSocketSender.SendBatch | python/vectorseam/vector_sender.py:234-242 | A connection stays open exactly when the whole batch got out. |
| Sender.FramingStaysInSync | python/vectorseam/vector_sender.py:164-190 | Over every run, what the reader extracts from any received part of a connection is a byte-exact prefix of the frames dequeued for it. |
| Sender.EveryFrameLeavesOnce | python/vectorseam/vector_sender.py:164-190 | Enqueued frames are the batches, the open batch and the queue, in order; batches keep their size limit or are one frame. |
| Sender.DeliveredAtMostOnce | python/vectorseam/vector_sender.py:164-190 | No frame is delivered more often than it was enqueued, over all connections. |
| Sender.ProgressExactly | python/vectorseam/vector_sender.py:244-271 | A batch gets out as far as its turns write, up to its end or the first turn that fails. |
| Sender.FramesCanBeDelivered | python/vectorseam/vector_sender.py:164-271 | Any frame that fits the queue can be captured and delivered whole on a connection that stays open, also one larger than a batch. |
| Sampler.AdaptiveSampler.ShouldSample | python/vectorseam/vector_capture.py:163-183 | One call creates, rolls and counts exactly its cohort, as the specified call does, and decides by the resulting probability. |
| Sampler.AdaptiveSampler.RollOverIfNeeded | python/vectorseam/vector_capture.py:203-234 | The update in place is the specified roll. |
| Sampler.RolledSane | python/vectorseam/vector_capture.py:203-247 | Every roll and every count keeps the probability in (0, 1]: 1 while the estimate is within the target, and beyond it exactly what brings expected throughput to the target. |
| Sampler.EveryCallSane | python/vectorseam/vector_capture.py:163-247 | Over any history of calls with a clock that does not run backwards, every cohort's probability stays in (0, 1] and within the target, and the bucket of the cohort just called contains the present. |
| Sampler.RollingComposes | python/vectorseam/vector_capture.py:203-234 | Rolling in two steps is rolling once up to the idle cut-off, and within 2^-11 of the pre-idle estimate beyond it. |
| Sampler.SteadyRate | python/vectorseam/vector_capture.py:203-241 | Under a steady rate the estimate after n full buckets is the rate less one part in 2^n. |
| Sampler.CohortsAreSeparate | python/vectorseam/vector_capture.py:163-183 | A cohort's state after any history is that after its own calls alone. |
| Memory.StepKeeps | crates/vectorseam-collector/src/memory.rs:12-65 | Every step of the loops keeps the counter equal to the live guards and within the limit. |
| Memory.UsedIsLiveGuards | crates/vectorseam-collector/src/memory.rs:12-88 | Over every interleaving, with stale loads, the counter is the sum of live guards, never above the limit, and the clamp changes nothing. |
| Memory.StepIsAtomic | crates/vectorseam-collector/src/memory.rs:12-65 | A step is one whole reservation within the limit, one whole release, or no change. |
| Memory.LoopsImplementCounter | crates/vectorseam-collector/src/memory.rs:12-65 | Every run of the loops is a run of a counter that reserves and releases in one piece. |
| Memory.RefusalHadCause | crates/vectorseam-collector/src/memory.rs:12-35 | A refusal means that some value of the counter left no room. |
| Memory.ReservesWhatFits | crates/vectorseam-collector/src/memory.rs:12-35 | A thread that no other overtakes reserves whatever fits beside the latest value, and after a failed swap starts again from that value. |
| Memory.ReleasesWhole | crates/vectorseam-collector/src/memory.rs:37-65 | A guard that nobody is releasing can be released, and gives back exactly its bytes. |
| Writer.CollectorCounters.RecordDrop | crates/vectorseam-collector/src/counters.rs:42-52 | One drop more for the cohort, nothing else. |
| Writer.CollectorCounters.TakePendingDrops | crates/vectorseam-collector/src/counters.rs:54-62 | A cohort's drops are handed over and cleared. |
| Writer.CollectorCounters.TakeAllPendingDrops | crates/vectorseam-collector/src/counters.rs:64-72 | The whole ledger is handed over and cleared. |
| Writer.Writer.FoldPendingDrops | crates/vectorseam-collector/src/writer.rs:317-324 | Folding one cohort moves its drops without changing any account or stream. |
| Writer.Writer.FoldAllPendingDrops | crates/vectorseam-collector/src/writer.rs:326-331 | Folding the ledger moves all drops without changing any account or stream. |
| Writer.Writer.AddRecord | crates/vectorseam-collector/src/writer.rs:133-143 | The frame is appended to its cohort's buffer under the current window. |
| Writer.Writer.TakeFlushBatch | crates/vectorseam-collector/src/writer.rs:210-237 | The cohort's state becomes a batch, unless it is empty. |
| Writer.Writer.FlushCohort | crates/vectorseam-collector/src/writer.rs:194-208 | The cohort's buffer and drops leave in one sound batch; other cohorts and all accounts are unchanged. |
| Writer.Writer.FlushAll | crates/vectorseam-collector/src/writer.rs:187-192 | No buffer remains and nothing was lost. |
| Writer.Writer.AdvanceToReceiveWindow | crates/vectorseam-collector/src/writer.rs:112-131 | The window moves only forward, and only over empty buffers. |
| Writer.Writer.FlushLargestCohort | crates/vectorseam-collector/src/writer.rs:156-167 | A largest non-empty buffer is written out, if there is one. |
| Writer.Writer.HandleFrame | crates/vectorseam-collector/src/writer.rs:95-110 | The frame ends last in its cohort's stream, all else keeps its place, buffers keep their cap, and the writer's contents are the specified ones. |
| Writer.Writer.CloseWindow | crates/vectorseam-collector/src/writer.rs:169-185 | Every buffer is written out before the window changes; the new window contains the clock's reading, or is the next one when there is none. |
| Flushes.QuietFrame | crates/vectorseam-collector/src/writer.rs:95-110 | A frame that fits its cohort's buffer, without memory pressure, joins it with the cohort's pending drops, and no batch is written. |
| Flushes.FullFrame | crates/vectorseam-collector/src/writer.rs:145-151 | A frame that does not fit has exactly that cohort's buffer written out whole and starts a new one. |
| Flushes.PressedFrame | crates/vectorseam-collector/src/writer.rs:152-167 | Under memory pressure exactly one more batch is written, of a buffer that holds as many bytes as any other; nothing else changes. |
| Flushes.EmptiedExactly | crates/vectorseam-collector/src/writer.rs:187-208 | Emptying writes exactly one batch for every cohort with a buffer or pending drops, whole and under the window being closed. |
| Flushes.SoundInUse | crates/vectorseam-collector/src/writer.rs:95-110 | Every valid writer meets what the statements about batches ask: each buffer and each ledger entry counts something. |
| CollectorGuarantees.EveryFrameIsAccountedFor | crates/vectorseam-collector/src/reader.rs:139-168 | At every moment of every interleaving each valid frame is in flight, in the channel, held, in the ledger, in a buffer or in a batch, and sent frames keep their order. |
| CollectorGuarantees.BatchesAccountForEverything | crates/vectorseam-collector/src/writer.rs:70-93 | Once the writer stops, the batches alone account for every valid frame and hold every sent one, and all memory was given back. |
| CollectorGuarantees.MemoryIsBounded | crates/vectorseam-collector/src/config.rs:157-198 | Reservations stay within the live budget, buffers within their cap, and with the segment being written nothing exceeds the global limit. |
| CollectorGuarantees.ReleasesAlwaysPossible | crates/vectorseam-collector/src/memory.rs:37-65 | Giving memory back never finds less than is returned. |
| CollectorGuarantees.CounterIsTrackers | crates/vectorseam-collector/src/memory.rs:12-88 | Over every run the collector's memory counter is the tracker's after exactly the reservations and releases the run made. |
| CollectorGuarantees.ReservesExactly | crates/vectorseam-collector/src/config.rs:187-199 | A frame's memory can be reserved exactly when all reserved bytes with it fit the global limit beside one full buffer and its serialized form. |
| Delivery.FramesReachBatches | crates/vectorseam-collector/src/writer.rs:70-93 | Any valid frame can be taken into a stored batch of its window that holds just it, with all memory given back; or be refused and counted by a stored batch without records. |
| WriterRuns.HandleFrameIsRun | crates/vectorseam-collector/src/writer.rs:95-110 | What the writer's method for a frame does is a run of the collector in which only the writer moves, for every choice of order, memory reading and largest buffer. |
| WriterRuns.CloseWindowIsRun | crates/vectorseam-collector/src/writer.rs:169-185 | The same for closing the window, whatever the clock says. |
| CollectorGuarantees.LabelsAreNeverEarly | crates/vectorseam-collector/src/writer.rs:95-208 | Batch records were buffered under the batch's window and received no later; counts cover the records; no buffer survives a window change. |
| Labels.LabelsAreNotLate | crates/vectorseam-collector/src/writer.rs:95-185 | When frames are taken in the order they were received, and none was received before a time the clock had shown, every record's batch is labelled with exactly its receive window. |
| CollectorGuarantees.TunerAcceptsAllBatches | crates/seam/src/measure.rs:206-245 | Every batch of every run serializes to a segment the tuner accepts and reads back record for record, under a header that states window, cohort, counts and first and last receive time. |
| Posterior.FactorialForm | python/seam_harness/anchor.py:79-93 | The Pascal coefficients are the factorial quotients of the reference sum. |
| Posterior.TotalProbability | python/seam_harness/anchor.py:79-93 | The binomial theorem: all outcomes have probability one. |
| Outcomes.ConfidenceIsProbability | python/seam_harness/anchor.py:79-93 | Confidence(n, m, p) is the total weight of the boolean sequences of length n + 1 with at most m successes; it is defined exactly for m ≤ n and 0 < p < 1. |
| Outcomes.OutcomesComplete | python/seam_harness/anchor.py:79-93 | The outcomes weighed are all boolean sequences of their length. |
| Outcomes.ConfidenceLaws | crates/seam/src/math.rs:147-157 | Reflection: confidence(n, m, p) + confidence(n, n − m, 1 − p) = 1; and the recurrence in n and m. |
| Posterior.ConfidenceRange | crates/seam/src/math.rs:147-157 | Confidence lies strictly between 0 and 1. |
| Posterior.ConfidenceGrowsWithSuccesses | crates/seam/src/math.rs:147-157 | More compliant samples give strictly more confidence. |
| Posterior.OneMoreSample | crates/seam/src/math.rs:147-157 | A failing sample strictly lowers confidence and a compliant one strictly raises it. |
| Posterior.Ceiling | crates/seam/src/config.rs:612-619 | The most that n samples can show is 1 − p^(n+1). |
| Outcomes.Floor | crates/seam/src/math.rs:147-157 | Without a compliant sample confidence is (1 − p)^(n+1). |
| Posterior.CeilingGrows | crates/seam/src/config.rs:612-619 | Larger splits have strictly higher ceilings. |
| Posterior.ConfidenceShrinksWithPercentile | crates/seam/src/math.rs:147-157 | Demanding a larger compliant fraction strictly lowers confidence. |
| Selection.LeastClearing | crates/seam/src/math.rs:120-145 | The least clearing ef is selected when the maximum clears, the maximum otherwise; errors exactly on invalid or empty input. |
| Selection.RelaxingNeverRaises | crates/seam/src/math.rs:120-145 | A lower threshold or higher scores never raise the selected ef. |
| Selection.QuantileCountsCompliance | crates/seam/src/math.rs:94-117 | The quantile reaches a value exactly when enough samples do, up to the sample it interpolates over. |
| Records.QuantileIsQuantile | crates/seam/src/math.rs:94-117 | The quantile divides the sorted values linearly at rank q(n − 1). |
| Population.DeduplicateSamples | crates/seam/src/population.rs:27-53 | The loop keeps the specified survivors in hash order. |
| Population.SurvivorsAreFirst | crates/seam/src/population.rs:27-53 | Per hash, the sample with the least part and record ordinal survives. |
| Population.DeduplicationIgnoresOrder | crates/seam/src/population.rs:27-53 | Survival depends on which samples there are, not on their order or repetition. |
| Population.SidesPartition | crates/seam/src/aggregate.rs:159-171 | Train and holdout partition the survivors. |
| Population.SidesNeverMix | crates/seam/src/math.rs:83-91 | No vector is trained on in one round and held out in another, whichever copy survived. |
| Fnv.FnvReference | crates/seam/src/math.rs:63-68 | The hash has its three published reference values. |
| Population.TrainBuckets | crates/seam/src/math.rs:71-91 | For every vector the lowest buckets of 10000 are the train side, as many as the train fraction rounds to; other fractions are an error. |
| Population.LargerTrainKeeps | crates/seam/src/math.rs:71-91 | A larger train fraction keeps every vector on the train side that was there. |
| Population.ValidatePopulation | crates/seam/src/population.rs:55-90 | A population is accepted exactly when every sample has a valid observation for every ef. |
| Population.SelectionCompletes | crates/seam/src/population.rs:168-200 | On non-empty sides selection completes with the selected ef's own train and holdout statistics. |
| Population.LessConfidenceNeverRaises | crates/seam/src/population.rs:168-200 | Demanding less selection confidence never raises the proposed ef. |
| Population.InsufficientMeansUnattainable | crates/seam/src/aggregate.rs:180-197 | A round is refused exactly when no recalls of its samples would have led to an applied recommendation. |
| Accounting.InScopeWindowStarts | crates/seam/src/accounting.rs:11-37 | The loop returns the specified windows or error. |
| Accounting.WindowStartsExact | crates/seam/src/accounting.rs:11-37 | The windows in scope are exactly the aligned ones wholly inside the rolling window, in order. |
| Accounting.UniqueInScopeParts | crates/seam/src/accounting.rs:62-85 | The loop gathers the parts in scope, or the first overflow or conflict. |
| Accounting.InScopePartsExact | crates/seam/src/accounting.rs:62-85 | Gathered are exactly the listed parts wholly inside the rolling window; it fails exactly on an end that overflows or on two different such parts of one ULID. |
| Accounting.ScopesAgree | crates/seam/src/accounting.rs:11-85 | A part that fills an aligned storage window is in scope exactly when that window is. |
| Accounting.UniqueIntermediates | crates/seam/src/aggregate.rs:296-310 | The loop gathers the pairs, or the first conflict. |
| Accounting.GatherExact | crates/seam/src/accounting.rs:62-85 | Gathering succeeds exactly without rejects and conflicts, and then holds exactly what is listed. |
| Accounting.GatherIgnoresOrder | crates/seam/src/accounting.rs:62-85 | Order and repetition of what is listed do not matter. |
| Accounting.DroppedFrameFraction | crates/seam/src/accounting.rs:40-60 | The loop returns the specified fraction or error. |
| Accounting.DroppedFractionRange | crates/seam/src/accounting.rs:40-60 | The fraction is in [0, 1], and 0 exactly when every received frame was written. |
| Accounting.FractionExact | crates/seam/src/accounting.rs:40-60 | The fraction times the received frames is the received frames that were not written. |
| Accounting.TotalsAddUp | crates/seam/src/accounting.rs:40-60 | The totals count every part once: they add up over any division of the parts. |
| Accounting.AvailableIsWritten | crates/seam/src/aggregate.rs:104-111 | The samples available are the frames written. |
| Accounting.CoverageOf | crates/seam/src/accounting.rs:87-109 | Covered windows never outnumber those in scope, and the empty fraction is in [0, 1]. |
| Accounting.FullCoverage | crates/seam/src/accounting.rs:87-109 | The empty fraction is 0 exactly when every window in scope has a part. |
| Accounting.CoverageExact | crates/seam/src/accounting.rs:87-109 | Coverage counts the windows in scope that a listed part begins, each once; the empty fraction is that of the others, and 1 without windows. |
| AggregateRound.TotalAvailable | crates/seam/src/aggregate.rs:104-111 | The fold returns the total, or the first impossible or overflowing count. |
| AggregateRound.TallyIntermediates | crates/seam/src/aggregate.rs:120-145 | The loop computes the specified tally, or the first overflow. |
| AggregateRound.TallyExact | crates/seam/src/aggregate.rs:120-145 | The tally uses exactly the listed, compatible pairs, in ULID order and as often as they occur, with their totals, and counts the listed incompatible ones; it fails exactly when a counter overflows. |
| AggregateRound.SplitPopulation | crates/seam/src/aggregate.rs:159-171 | The loop sorts survivors to the side their hash says. |
| AggregationLaws.PopulationIsSurvivors | crates/seam/src/population.rs:27-53 | A round's population has one member for every vector a used part measured, the one measured in the least part and record, with its observations, and no other. |
| AggregateRound.DecideRound | crates/seam/src/aggregate.rs:146-202 | Validation, split, the ceiling test and selection, in this order. |
| AggregateRound.AggregateOnce | crates/seam/src/aggregate.rs:89-247 | The round computed step by step is the specified record or the first error. |
| Aggregation.ValidateConfig | crates/seam/src/aggregate.rs:323-378 | A configuration is accepted exactly when it is well-shaped and splits; then selection, split and grid are well defined. |
| AggregationLaws.StatusMeaning | crates/seam/src/aggregate.rs:180-197 | Published status and ef are justified by the round's own samples: unattainable, least clearing, or maximum not clearing. |
| Records.RecordSays | crates/seam/src/aggregate.rs:198-247 | What every other field of a record says: the round and its target, received and written frames, the size and mean latency of the population, each ef's quantile and means, and the recommended ef's confidence, compliance and quantile on either side. |
| AggregationLaws.AggregationIgnoresOrder | crates/seam/src/aggregate.rs:100-146 | Permuting or repeating listed parts and pairs leaves a successful round unchanged. |
| AggregationLaws.AggregationIgnoresMeasureTime | crates/seam/src/aggregate.rs:118-145 | When pairs were measured leaves no trace in the record. |
| AggregationLaws.AggregationShift | crates/seam/src/aggregate.rs:118-135 | With only compatible pairs the incompatible count is the one handed in and influences nothing else. |
| AggregationLaws.EffectiveMeaning | crates/seam/src/aggregate.rs:249-289 | A recommendation in a record is the round's approved selection, or the previous one under the same fingerprint marked as carried. |
| AggregationLaws.EffectiveExactly | crates/seam/src/aggregate.rs:249-289 | Conversely an approved selection always becomes the recommendation; otherwise the previous record's is carried under the same fingerprint, and otherwise there is none. |
| AggregationLaws.RepublishingIsIdempotent | crates/seam/src/aggregate.rs:198-206 | Aggregating again with one's own record as the previous one changes nothing. |
| Intermediate.ReadTruthRows | crates/seam/src/intermediate.rs:270-297 | The loop collects the truth rows, or the first duplicate. |
| Intermediate.ReadSweepRows | crates/seam/src/intermediate.rs:299-335 | The loop attaches the sweep rows, or the first orphan or duplicate. |
| Intermediate.ReadableExactly | crates/seam/src/intermediate.rs:115-137 | A pair is readable exactly when both files describe one measurement and every row joins once. |
| Intermediate.JoinReturnsRows | crates/seam/src/intermediate.rs:115-137 | The join returns each truth row with exactly its own sweep rows. |
| Measure.PrepareSegment | crates/seam/src/measure.rs:206-310 | Parsing, checks and deduplication return the specified part or the first error. |
| Measure.DeduplicateRecords | crates/seam/src/measure.rs:245-300 | The loop yields the specified samples or the first error. |
| Measure.PreparedRepresents | crates/seam/src/measure.rs:206-310 | One sample per distinct vector, at its first record, in record order, every record counted once; it carries the record's whole payload exactly when that is this cohort's vector of floats, and its receive time when that is in range. |
| Measurement.MeasurePreparedPart | crates/seam/src/measure.rs:312-410 | The loop measures, fails or stops at each sample as specified. |
| Measurement.MeasuredPairReadsBack | crates/seam/src/measure.rs:320-385 | Measured and failed samples add up, there is one sweep row per measured sample and ef, and the stored pair reads back as exactly what was measured. |
| Measurement.ContributionsSwept | crates/seam/src/measure.rs:350-385 | Every measured sample has exactly one observation per ef of the grid. |
| MeasuredRecords.PairIsAboutRecords | crates/seam/src/measure.rs:245-385 | A stored pair's samples carry the database's answer to the whole payload of their own record; every first record of a vector that can be asked about and is answered has one. |
| MeasuredRecords.StoredRowsAnswer | crates/seam/src/measure.rs:320-385 | Every stored truth and sweep row repeats the database's answer for its sample: keys, distances, recall, latencies and counts. |
| Endings.BrokenOffPublishesNothing | crates/seam/src/pipeline.rs:173-216 | When the connection is lost, or the round cancelled, at a sample that measuring reaches, the round fails with that error and keeps latest and all history, for every store and budget. |
| Endings.PublishedError | crates/seam/src/pipeline.rs:205-240 | A published record names a table smaller than k exactly when a sample that measuring reached was answered so, with that row count and the round's k; without an error every answer let the round go on. |
| SweepOrder.RecallRange | crates/seam/src/math.rs:53-61 | Recall is in [0, 1], and 1 exactly when k distinct neighbours are all returned. |
| SweepOrder.RecallCounts | crates/seam/src/math.rs:53-61 | Nothing returned is recall 0; one more exact neighbour raises it by exactly 1/k, and anything else leaves it. |
| SweepOrder.OrderSweep | crates/seam/src/database.rs:560-577 | The in-place shuffle is the specified one. |
| SweepOrder.ShufflePermutes | crates/seam/src/database.rs:560-577 | The shuffle is a permutation. |
| SweepOrder.DrawnElement | crates/seam/src/database.rs:560-577 | The place settled next holds the element its draw points at, and is not touched again. |
| SweepOrder.NeverZero | crates/seam/src/database.rs:560-577 | The generator starts from a state other than zero and never falls into it. |
| SweepOrder.ShuffleUnobservable | crates/seam/src/database.rs:355-384 | Shuffled, measured and sorted, the answers are the grid's in grid order, so the grid check cannot fail on a full sweep. |
| Pipeline.LoadSourceHeaders | crates/seam/src/pipeline.rs:294-335 | The loop loads the named segments by ULID, or the first error. |
| Pipeline.ScanSources | crates/seam/src/pipeline.rs:107-147 | The loop sorts sources into cached, outdated and pending. |
| Pipeline.MeasureParts | crates/seam/src/pipeline.rs:149-213 | The loop measures pending parts and writes truth before sweep, or stops where its writes or measurements end. |
| Pipeline.PublishRound | crates/seam/src/pipeline.rs:218-240 | History is written before latest, each at most once. |
| Pipeline.RunCohortRound | crates/seam/src/pipeline.rs:81-240 | The store afterwards is the planned writes cut off at the budget, and the round publishes exactly when all of them got through. |
| Endings.RecordsAfter | crates/seam/src/pipeline.rs:223-240 | A published record is in the history under its round end, and is the latest; a round cut short keeps the latest, and no round touches the history of another round end. |
| Pipeline.ObjectStore.Write | crates/seam/src/pipeline.rs:439-454 | A write takes effect or leaves the store alone. |
| Phases.LoadedExact | crates/seam/src/pipeline.rs:294-335 | A round that loads holds exactly one part per named segment in scope. |
| Reuse.ReusedExactly | crates/seam/src/pipeline.rs:107-147 | A round reuses a stored pair exactly when its metadata is what measuring the part again would write, but for time and counts, and counts it as outdated exactly when only settings differ. |
| Reuse.MeasuredAccounts | crates/seam/src/measure.rs:385-410 | A measurement's metadata repeats the accounting in the stored segment's header and the run's settings. |
| Phases.SameSource | crates/seam/src/pipeline.rs:294-335 | Which part a slot stands for is determined by the stored segment alone, whatever else a round listed beside it. |
| Phases.MeasuredAt | crates/seam/src/pipeline.rs:149-213 | A pending part is aggregated exactly when it and all before it were measured. |
| Phases.PhaseSlots | crates/seam/src/pipeline.rs:181-205 | After any prefix of the writes every pair is untouched, rewritten, or rewritten up to its truth file. |
| Resume.ResumeEqualsClean | crates/seam/src/pipeline.rs:107-239 | After any history of interrupted rounds, whatever parts they listed, the completed round publishes the clean record, up to the count of outdated pairs, exactly when nothing was measured past the clean round's abort. |
| Resume.ResumeEqualsCleanExactly | crates/seam/src/pipeline.rs:107-239 | The records agree entirely exactly when moreover no outdated pair was replaced. |
| Resume.AttemptsInTurn | crates/seam/src/pipeline.rs:149-213 | Attempts for the same parts, or parts that never abort, satisfy the condition. |
| Resume.ReplacedPairGoesUncounted | crates/seam/src/pipeline.rs:130-136 | After an attempt that replaces only an outdated pair's truth file, the resumed record counts fewer incompatible pairs and agrees otherwise. |
| ResumeExamples.ReplacedPairExample | crates/seam/src/pipeline.rs:130-136 | A concrete store and attempt: the clean record counts one incompatible pair, the resumed one none. |
| ResumeExamples.OutOfTurnPart | crates/seam/src/pipeline.rs:149-213 | A part measured past the part at which the clean round aborts is in the resumed record and not in the clean one. |
| ResumeExamples.OutOfTurnExample | crates/seam/src/pipeline.rs:149-213 | Concrete rounds: the clean record uses no part, the resumed one uses one. |
| Torn.AcceptedPairIsWhole | crates/seam/src/pipeline.rs:181-205 | Over any history with distinct timestamps, the two files of a readable pair come from one measurement of one run. |
| Torn.NoTornPair | crates/seam/src/pipeline.rs:110-149 | Every cached pair a round uses was measured at once, from that very source part, under the same settings, whatever configurations, windows and listings the rounds before it had. |
| Torn.EqualTimesMix | crates/seam/src/intermediate.rs:115-137 | Two measurements that share their timestamp can leave one's truths with the other's sweeps; the mixture is readable, and is one of them exactly when their truths or their sweeps agree. |
| TornExample.MixtureLeft | crates/seam/src/pipeline.rs:181-205 | Three rounds, of which the first and the last share their timestamp, leave such a mixture. |
| TornExample.EqualTimesMixExample | crates/seam/src/intermediate.rs:115-137 | Concrete rounds after which an accepted pair is neither of the measurements made. |
| Provenance.PublishedLinked | crates/seam/src/pipeline.rs:223-240 | Over any history of rounds and damaged records, each published round read its predecessor's record or none. |
| Provenance.UndamagedLinks | crates/seam/src/pipeline.rs:399-437 | As long as the latest record stays readable, every published round read the record of the one before it. |
| Provenance.RecommendationHasSource | crates/seam/src/aggregate.rs:249-289 | Every published recommendation was selected and approved by a round of the unbroken chain behind it that shares its fingerprint. |
| Provenance.LatestHasSource | crates/seam/src/pipeline.rs:399-437 | The same for the latest record after any history from an empty store. |
| Provenance.ApprovalLasts | crates/seam/src/aggregate.rs:249-289 | After a round that approved its selection every record of an unbroken chain has a recommendation, and it is that of the last approving round. |
| Provenance.LatestKeepsApproval | crates/seam/src/pipeline.rs:399-437 | The same for the latest record after any history from an empty store. |
| Provenance.PublishedIsServed | crates/vectorseam-recommendation-server/src/lib.rs:564-636 | The server answers a published record with its ef or as missing, never as defective. |
| Provenance.ServedExactly | crates/vectorseam-recommendation-server/src/lib.rs:564-636 | The server returns an ef exactly for a usable record that recommends it within bounds, and none exactly when nothing is stored or a usable record recommends nothing. |
| Pacer.DutyCyclePacer.constructor | crates/seam/src/pacer.rs:48-58 | A new pacer may start at once. |
| Pacer.DutyCyclePacer.RunReady | crates/seam/src/pacer.rs:96-110 | A unit is charged in full and followed by its cooldown. |
| Pacer.DutyCyclePacer.RunCancelableBeforeStart | crates/seam/src/pacer.rs:79-94 | A cancelled wait changes nothing; otherwise the unit runs. |
| Pacer.UnitExactly | crates/seam/src/pacer.rs:96-110 | The rest after a unit is exactly what makes the time worked its share of time worked and rested. |
| Pacer.DutyCycleHolds | crates/seam/src/pacer.rs:96-110 | Over any run, busy time is at most the share of the time from the first start to the next allowed start. |
| Pacer.BusyAtMostShare | crates/seam/src/pacer.rs:79-110 | So at every later start the connection was busy for at most its share. |

## Left out

- Sockets, HTTP, listeners, signals, timeouts and task supervision: a timeout or abort is a step that may happen.
- SQL and the database: the measurer is a parameter; the ordering of its results is modelled in `SweepOrder`.
- Parquet, JSON and YAML: encoding is the identity on values; an object that does not decode is `Malformed`. A published record is taken to fit the server's size limit.
- IEEE 754 rounding and the numerics of the Beta function: real arithmetic and the finite sum.
- Counters saturating at 2^64 − 1 in the collector and the counter of outdated pairs in the pipeline are natural numbers; the checked sums of aggregation keep their overflow errors.
- Decoding f32 components: a prepared vector is its bytes.
- Log messages, summaries, metrics and the reported minimum split size.
- Dashboard, demo, benchmarks, fixtures and the offline latency scripts.
- The recommendation server's cache and request handling around the lookup.
- Text of ULIDs and of file names inside a window; a stored segment carries the ULID its name spells, if any.
- Resume.ResumeEqualsClean: interrupted rounds are taken to carry timestamps that no initial sweep file of an in-scope part carries, because without that a mixture is possible, as TornExample.EqualTimesMixExample shows.
- Torn.NoTornPair: timestamps are taken to be distinct per round; the code takes them from the clock, and TornExample.EqualTimesMixExample shows what happens otherwise.
- Collector.NextReader: a reader may be refused memory at any time, because it may go by an old value of the counter; Memory.RefusalHadCause bounds this.
- Memory.Next: the guard is taken to be dropped by a thread that has seen its reservation, which the channel's hand-over ensures.
- Writer.Writer.HandleFrame: one call runs without interference; WriterRuns.HandleFrameIsRun makes it a run of Collector, whose runs cover the interleavings.
- Stream.VectorCaptureProducer.CaptureVector: the lock makes the check and the append one step; the sampler's decision is a parameter.
