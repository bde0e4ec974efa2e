/** Frames on a byte stream: the SDK's byte-bounded queue at one end, the collector's connection reader
    at the other. */
module Stream {
  import opened Wrappers
  import opened Bytes
  import opened Frame
  import Cohort

  type Message = seq<Byte>

  function TotalLen(frames: seq<Message>): nat {
    if frames == [] then 0 else TotalLen(frames[..|frames| - 1]) + |frames[|frames| - 1]|
  }

  function Flat(frames: seq<Message>): (bytes: seq<Byte>)
    ensures |bytes| == TotalLen(frames)
  {
    if frames == [] then [] else Flat(frames[..|frames| - 1]) + frames[|frames| - 1]
  }

  lemma LastOfConcat(a: seq<Message>, b: seq<Message>)
    requires b != []
    ensures (a + b)[..|a + b| - 1] == a + b[..|b| - 1] && (a + b)[|a + b| - 1] == b[|b| - 1]
  {
  }

  lemma {:induction false} FlatConcat(a: seq<Message>, b: seq<Message>)
    ensures Flat(a + b) == Flat(a) + Flat(b) && TotalLen(a + b) == TotalLen(a) + TotalLen(b)
    decreases |b|
  {
    if b == [] {
      assert a + b == a;
    } else {
      LastOfConcat(a, b);
      var front, last := b[..|b| - 1], b[|b| - 1];
      FlatConcat(a, front);
      assert Flat(a + b) == Flat(a + front) + last && Flat(b) == Flat(front) + last;
      assert TotalLen(a + b) == TotalLen(a + front) + |last| && TotalLen(b) == TotalLen(front) + |last|;
      hide Flat, TotalLen;
      assert (Flat(a) + Flat(front)) + last == Flat(a) + (Flat(front) + last);
    }
  }

  lemma FlatOne(f: Message)
    ensures Flat([f]) == f && TotalLen([f]) == |f|
  {
    assert [f][..0] == [] && [] + f == f;
  }

  // ----- the queue -----

  datatype CaptureResult = Enqueued | NotSampled | QueueFull | Rejected(error: EncodeError)

  /** How many frames a drain takes under a budget. */
  function DrainCount(queue: seq<Message>, budget: Option<nat>): (k: nat)
    ensures k <= |queue|
    decreases |queue|
  {
    if queue == [] || (budget.Some? && |queue[0]| > budget.value) then 0
    else 1 + DrainCount(queue[1..], if budget.Some? then Some(budget.value - |queue[0]|) else None)
  }

  lemma {:induction false} TotalLenSplit(frames: seq<Message>, k: nat)
    requires k <= |frames|
    ensures TotalLen(frames) == TotalLen(frames[..k]) + TotalLen(frames[k..])
  {
    assert frames == frames[..k] + frames[k..];
    FlatConcat(frames[..k], frames[k..]);
  }

  /** A drain takes frames from the front, whole, within its budget, and as many as that allows. */
  lemma {:induction false} DrainTakesWhatFits(queue: seq<Message>, budget: nat)
    ensures var k := DrainCount(queue, Some(budget));
            TotalLen(queue[..k]) <= budget && (k < |queue| ==> TotalLen(queue[..k + 1]) > budget)
    decreases |queue|
  {
    if queue != [] {
      FlatOne(queue[0]);
      if |queue[0]| <= budget {
        DrainTakesWhatFits(queue[1..], budget - |queue[0]|);
        var k := DrainCount(queue[1..], Some(budget - |queue[0]|));
        FrontLen(queue, k);
        if k < |queue[1..]| { FrontLen(queue, k + 1); }
      } else {
        assert queue[..1] == [queue[0]];
      }
    }
  }

  /** Without a budget a drain takes everything. */
  lemma {:induction false} DrainTakesAll(queue: seq<Message>)
    ensures DrainCount(queue, None) == |queue|
  {
    if queue != [] { DrainTakesAll(queue[1..]); }
  }

  lemma FrontLen(queue: seq<Message>, k: nat)
    requires queue != [] && k <= |queue[1..]|
    ensures TotalLen(queue[..k + 1]) == |queue[0]| + TotalLen(queue[1..][..k])
  {
    assert queue[..k + 1] == [queue[0]] + queue[1..][..k];
    FlatConcat([queue[0]], queue[1..][..k]);
    FlatOne(queue[0]);
  }

  class VectorCaptureProducer {
    const maxQueueBytes: nat
    var queue: seq<Message>
    var queuedBytes: nat

    constructor (maxQueueBytes: nat)
      requires maxQueueBytes > 0
      ensures Valid() && this.maxQueueBytes == maxQueueBytes && queue == []
    {
      this.maxQueueBytes := maxQueueBytes;
      queue, queuedBytes := [], 0;
    }

    ghost predicate Valid()
      reads this
    {
      queuedBytes == TotalLen(queue) <= maxQueueBytes
    }

    /** `sampled` is what the sampling policy decided. */
    method CaptureVector(sampled: bool, name: seq<Cohort.CodePoint>, dtype: DType, dimension: int, vector: seq<Byte>)
      returns (r: CaptureResult)
      requires Valid()
      modifies this
      ensures Valid()
      ensures r == if !sampled then NotSampled
                   else match EncodeFrame(name, dtype, dimension, vector)
                     case Err(e) => Rejected(e)
                     case Ok(frame) => if TotalLen(old(queue)) + |frame| > maxQueueBytes then QueueFull else Enqueued
      ensures queue == if r.Enqueued? then old(queue) + [EncodeFrame(name, dtype, dimension, vector).value]
                       else old(queue)
    {
      hide EncodeFrame;
      if !sampled {
        return NotSampled;
      }
      var encoded := EncodeFrame(name, dtype, dimension, vector);
      if encoded.Err? {
        return Rejected(encoded.error);
      }
      var frame := encoded.value;
      if queuedBytes + |frame| > maxQueueBytes {
        return QueueFull;
      }
      FlatConcat(queue, [frame]);
      FlatOne(frame);
      queue := queue + [frame];
      queuedBytes := queuedBytes + |frame|;
      return Enqueued;
    }

    method TryDequeue() returns (frame: Option<Message>)
      requires Valid()
      modifies this
      ensures Valid()
      ensures if old(queue) == [] then frame == None && queue == []
              else frame == Some(old(queue)[0]) && queue == old(queue)[1..]
    {
      if queue == [] {
        return None;
      }
      TotalLenSplit(queue, 1);
      FlatOne(queue[0]);
      assert queue[..1] == [queue[0]];
      frame := Some(queue[0]);
      queuedBytes := queuedBytes - |queue[0]|;
      queue := queue[1..];
    }

    method Drain(budget: Option<nat>) returns (frames: seq<Message>)
      requires Valid()
      modifies this
      ensures Valid()
      ensures var k := DrainCount(old(queue), budget); frames == old(queue)[..k] && queue == old(queue)[k..]
    {
      hide TotalLen;
      ghost var all := queue;
      frames := [];
      var drainedBytes: nat := 0;
      NothingTaken(all);
      while queue != []
        invariant Valid() && |frames| <= |all| && frames == all[..|frames|] && queue == all[|frames|..]
        invariant drainedBytes == TotalLen(frames) && (budget.Some? ==> drainedBytes <= budget.value)
        invariant DrainCount(all, budget)
          == |frames| + DrainCount(queue, if budget.Some? then Some(budget.value - drainedBytes) else None)
        decreases |queue|
      {
        var next := queue[0];
        if budget.Some? && drainedBytes + |next| > budget.value {
          break;
        }
        OneMore(all, |frames|);
        frames := frames + [next];
        drainedBytes := drainedBytes + |next|;
        queuedBytes := queuedBytes - |next|;
        queue := queue[1..];
      }
    }
  }

  lemma NothingTaken(all: seq<Message>)
    ensures TotalLen([]) == 0 && all[..0] == [] && all[0..] == all
  {
  }

  lemma OneMore(all: seq<Message>, k: nat)
    requires k < |all|
    ensures all[..k] + [all[k]] == all[..k + 1] && all[k..][0] == all[k] && all[k..][1..] == all[k + 1..]
    ensures TotalLen(all[..k + 1]) == TotalLen(all[..k]) + |all[k]|
    ensures TotalLen(all[k..]) == |all[k]| + TotalLen(all[k + 1..])
  {
    assert all[..k + 1][..k] == all[..k];
    assert all[k..] == [all[k]] + all[k + 1..];
    FlatConcat([all[k]], all[k + 1..]);
    FlatOne(all[k]);
  }

  // ----- the connection reader -----

  /** The frames a reader takes off a stream of which `stream` ever arrives. It stops at a frame over
      the size limit, closing the connection, and at a frame that does not arrive completely. */
  function Extracted(stream: seq<Byte>, maxFrameSize: nat): seq<Message>
    decreases |stream|
  {
    match TotalFrameLen(stream)
    case Err(_) => []
    case Ok(total) =>
      if total > maxFrameSize || total > |stream| then []
      else [stream[..total]] + Extracted(stream[total..], maxFrameSize)
  }

  /** A frame the collector accepts: it parses, and under a valid cohort name. */
  predicate Acceptable(f: Message) { ParseFrame(f).Ok? && Cohort.ValidName(ParseFrame(f).value.name) }

  /** A frame handed on, with the time it was received. */
  datatype Stamped = Stamped(frame: Message, receiveTime: U64)

  /** What the clock reads for the frame at a position, if it can be read. */
  type Clock = nat -> Option<U64>

  /** The frames handed on: the acceptable ones for which the clock could be read. */
  function Accepted(frames: seq<Message>, clock: Clock): (r: seq<Stamped>)
    ensures |r| <= |frames|
  {
    if frames == [] then []
    else
      var n := |frames| - 1;
      var rest := Accepted(frames[..n], clock);
      if Acceptable(frames[n]) && clock(n).Some? then rest + [Stamped(frames[n], clock(n).value)] else rest
  }

  /** The positions of acceptable frames for which it could not; they are skipped without a trace in the
      counters. */
  function Unstamped(frames: seq<Message>, clock: Clock): set<nat> {
    set i: nat | i < |frames| && Acceptable(frames[i]) && clock(i).None?
  }

  datatype ReaderCounters = ReaderCounters(
    framesRead: nat, invalidFrames: nat, invalidNames: nat, oversizedFrames: nat, validFrames: nat)

  lemma AcceptedMore(frames: seq<Message>, f: Message, clock: Clock)
    ensures var n := |frames|;
            Accepted(frames + [f], clock)
            == Accepted(frames, clock)
               + (if Acceptable(f) && clock(n).Some? then [Stamped(f, clock(n).value)] else [])
  {
    hide Acceptable;
    assert (frames + [f])[..|frames|] == frames;
  }

  /** The positions of frames that do not parse, and of those that do under no valid name. */
  function Malformed(frames: seq<Message>): set<nat> {
    set i: nat | i < |frames| && ParseFrame(frames[i]).Err?
  }

  function Misnamed(frames: seq<Message>): set<nat> {
    set i: nat | i < |frames| && HasBadName(frames[i])
  }

  lemma MalformedMore(frames: seq<Message>, f: Message)
    ensures |Malformed(frames + [f])| == |Malformed(frames)| + (if ParseFrame(f).Err? then 1 else 0)
  {
    hide ParseFrame;
    assert Malformed(frames + [f]) == Malformed(frames) + (if ParseFrame(f).Err? then {|frames|} else {});
  }

  predicate HasBadName(f: Message) { ParseFrame(f).Ok? && !Cohort.ValidName(ParseFrame(f).value.name) }

  lemma MisnamedMore(frames: seq<Message>, f: Message)
    ensures |Misnamed(frames + [f])| == |Misnamed(frames)| + (if HasBadName(f) then 1 else 0)
  {
    hide HasBadName;
    assert Misnamed(frames + [f]) == Misnamed(frames) + (if HasBadName(f) then {|frames|} else {});
  }

  /** Exactly the acceptable frames that could be stamped are handed on, each with its own reading. */
  lemma {:induction false} AcceptedExactly(frames: seq<Message>, clock: Clock)
    ensures forall i :: 0 <= i < |frames| && Acceptable(frames[i]) && clock(i).Some? ==>
      Stamped(frames[i], clock(i).value) in Accepted(frames, clock)
    ensures forall a :: a in Accepted(frames, clock) ==>
      exists i :: 0 <= i < |frames| && Acceptable(frames[i]) && clock(i) == Some(a.receiveTime) && frames[i] == a.frame
    ensures |Accepted(frames, clock)| + |Unstamped(frames, clock)| + |Malformed(frames)| + |Misnamed(frames)|
         == |frames|
  {
    hide ParseFrame, Cohort.ValidName;
    if frames == [] {
      assert Malformed(frames) == {} && Misnamed(frames) == {} && Unstamped(frames, clock) == {};
    } else {
      var n := |frames| - 1;
      var rest, f := frames[..n], frames[n];
      assert frames == rest + [f];
      AcceptedExactly(rest, clock);
      AcceptedMore(rest, f, clock);
      UnstampedMore(rest, f, clock);
      MalformedMore(rest, f);
      MisnamedMore(rest, f);
      hide Accepted, Unstamped, Malformed, Misnamed;
      forall a | a in Accepted(frames, clock)
        ensures exists i :: 0 <= i < |frames| && Acceptable(frames[i]) && clock(i) == Some(a.receiveTime)
                  && frames[i] == a.frame
      {
        if a in Accepted(rest, clock) {
          var i :| 0 <= i < n && Acceptable(rest[i]) && clock(i) == Some(a.receiveTime) && rest[i] == a.frame;
          assert frames[i] == a.frame;
        } else {
          assert frames[n] == a.frame;
        }
      }
    }
  }

  lemma UnstampedMore(frames: seq<Message>, f: Message, clock: Clock)
    ensures |Unstamped(frames + [f], clock)|
         == |Unstamped(frames, clock)| + (if Acceptable(f) && clock(|frames|).None? then 1 else 0)
  {
    hide Acceptable;
    var more := if Acceptable(f) && clock(|frames|).None? then {|frames|} else {};
    assert Unstamped(frames + [f], clock) == Unstamped(frames, clock) + more;
  }

  /** What the reader announces last and does not take: a length over the limit. */
  predicate EndsOversized(rest: seq<Byte>, maxFrameSize: nat) {
    TotalFrameLen(rest).Ok? && TotalFrameLen(rest).value > maxFrameSize
  }

  /** The counters and the frames handed on, after some frames. */
  predicate Tallied(frames: seq<Message>, clock: Clock, accepted: seq<Stamped>, c: ReaderCounters) {
    && accepted == Accepted(frames, clock) && c.validFrames == |accepted|
    && c.invalidFrames == |Malformed(frames)| && c.invalidNames == |Misnamed(frames)|
    && c.framesRead == |frames| && c.oversizedFrames == 0
  }

  lemma NoneTallied(clock: Clock)
    ensures Tallied([], clock, [], ReaderCounters(0, 0, 0, 0, 0))
  {
    assert Malformed([]) == {} && Misnamed([]) == {};
  }

  lemma TalliedMore(frames: seq<Message>, f: Message, clock: Clock, accepted: seq<Stamped>, before: ReaderCounters)
    requires Tallied(frames, clock, accepted, before)
    ensures var n, c := |frames|, before.(framesRead := before.framesRead + 1);
            && (ParseFrame(f).Err? ==>
                 Tallied(frames + [f], clock, accepted, c.(invalidFrames := c.invalidFrames + 1)))
            && (HasBadName(f) ==> Tallied(frames + [f], clock, accepted, c.(invalidNames := c.invalidNames + 1)))
            && (Acceptable(f) && clock(n).None? ==> Tallied(frames + [f], clock, accepted, c))
            && (Acceptable(f) && clock(n).Some? ==>
                 Tallied(frames + [f], clock, accepted + [Stamped(f, clock(n).value)],
                         c.(validFrames := c.validFrames + 1)))
  {
    hide ParseFrame, Cohort.ValidName, Accepted, Malformed, Misnamed;
    AcceptedMore(frames, f, clock);
    MalformedMore(frames, f);
    MisnamedMore(frames, f);
  }

  /** How far the reader has got: it has taken `frames`, and the rest is still to be read. */
  predicate ReadUpTo(stream: seq<Byte>, offset: nat, frames: seq<Message>, maxFrameSize: nat) {
    && offset <= |stream| && Flat(frames) == stream[..offset]
    && frames + Extracted(stream[offset..], maxFrameSize) == Extracted(stream, maxFrameSize)
  }

  /** Reads one connection to its end: invalid frames are counted and skipped, an oversized one ends it.
      Every length prefix read is accounted for, but for valid frames that could not be stamped. */
  method ReadConnection(stream: seq<Byte>, maxFrameSize: nat, clock: Clock)
    returns (accepted: seq<Stamped>, c: ReaderCounters)
    ensures accepted == Accepted(Extracted(stream, maxFrameSize), clock) && c.validFrames == |accepted|
    ensures c.invalidFrames == |Malformed(Extracted(stream, maxFrameSize))|
    ensures c.invalidNames == |Misnamed(Extracted(stream, maxFrameSize))|
    ensures Flat(Extracted(stream, maxFrameSize)) <= stream
    ensures var rest := stream[|Flat(Extracted(stream, maxFrameSize))|..];
            && c.framesRead == |Extracted(stream, maxFrameSize)| + (if TotalFrameLen(rest).Ok? then 1 else 0)
            && c.oversizedFrames == (if EndsOversized(rest, maxFrameSize) then 1 else 0)
  {
    hide ReadU32, ParseFrame, Tallied, ReadUpTo, Cohort.ValidName;
    accepted := [];
    c := ReaderCounters(0, 0, 0, 0, 0);
    ghost var frames: seq<Message> := [];
    NoneTallied(clock);
    NothingRead(stream, maxFrameSize);
    var offset, position := 0, 0;
    ghost var tallied := c;
    while |stream| - offset >= LEN_FIELD
      invariant 0 <= offset <= |stream| && position == |frames|
      invariant ReadUpTo(stream, offset, frames, maxFrameSize)
      invariant Tallied(frames, clock, accepted, c) && tallied == c
      decreases |stream| - offset
    {
      c := c.(framesRead := c.framesRead + 1);
      var rest := stream[offset..];
      var total := ReadU32(rest, 0).value + LEN_FIELD;
      if total > maxFrameSize {
        c := c.(oversizedFrames := c.oversizedFrames + 1);
        break;
      }
      if total > |rest| {
        break;
      }
      var frame := rest[..total];
      ReadFurther(stream, offset, total, frames, maxFrameSize);
      TalliedMore(frames, frame, clock, accepted, tallied);
      frames := frames + [frame];
      offset, position := offset + total, position + 1;
      var parsed := ParseFrame(frame);
      if parsed.Err? {
        c := c.(invalidFrames := c.invalidFrames + 1);
        tallied := c;
        continue;
      }
      if !Cohort.ValidName(parsed.value.name) {
        c := c.(invalidNames := c.invalidNames + 1);
        tallied := c;
        continue;
      }
      var receiveTime := clock(position - 1);
      if receiveTime.None? {
        tallied := c;
        continue;
      }
      c := c.(validFrames := c.validFrames + 1);
      tallied := c;
      accepted := accepted + [Stamped(frame, receiveTime.value)];
    }
    ReadToTheEnd(stream, offset, frames, maxFrameSize);
    TalliedIs(frames, clock, accepted, tallied);
  }

  lemma TalliedIs(frames: seq<Message>, clock: Clock, accepted: seq<Stamped>, c: ReaderCounters)
    requires Tallied(frames, clock, accepted, c)
    ensures accepted == Accepted(frames, clock) && c.validFrames == |accepted|
    ensures c.invalidFrames == |Malformed(frames)| && c.invalidNames == |Misnamed(frames)|
    ensures c.framesRead == |frames| && c.oversizedFrames == 0
  {
    hide Accepted, Malformed, Misnamed;
  }

  lemma NothingRead(stream: seq<Byte>, maxFrameSize: nat)
    ensures ReadUpTo(stream, 0, [], maxFrameSize)
  {
    assert stream[0..] == stream && [] + Extracted(stream, maxFrameSize) == Extracted(stream, maxFrameSize);
  }

  lemma ReadFurther(stream: seq<Byte>, offset: nat, total: nat, frames: seq<Message>, maxFrameSize: nat)
    requires ReadUpTo(stream, offset, frames, maxFrameSize) && |stream| - offset >= LEN_FIELD
    requires total == ReadU32(stream[offset..], 0).value + LEN_FIELD <= |stream| - offset && total <= maxFrameSize
    ensures ReadUpTo(stream, offset + total, frames + [stream[offset..][..total]], maxFrameSize)
  {
    hide ReadU32, Flat;
    var frame := stream[offset..][..total];
    NextExtracted(stream, offset, total, maxFrameSize, frames);
    FlatConcat(frames, [frame]);
    FlatOne(frame);
    assert stream[..offset] + frame == stream[..offset + total];
  }

  lemma ReadToTheEnd(stream: seq<Byte>, offset: nat, frames: seq<Message>, maxFrameSize: nat)
    requires ReadUpTo(stream, offset, frames, maxFrameSize) && Extracted(stream[offset..], maxFrameSize) == []
    ensures frames == Extracted(stream, maxFrameSize) && Flat(frames) <= stream
    ensures |Flat(frames)| == offset && stream[|Flat(frames)|..] == stream[offset..]
  {
    assert frames + [] == frames;
  }

  lemma NextExtracted(stream: seq<Byte>, offset: nat, total: nat, maxFrameSize: nat, frames: seq<Message>)
    requires offset <= |stream| && |stream| - offset >= LEN_FIELD
    requires total == ReadU32(stream[offset..], 0).value + LEN_FIELD <= |stream| - offset && total <= maxFrameSize
    requires frames + Extracted(stream[offset..], maxFrameSize) == Extracted(stream, maxFrameSize)
    ensures (frames + [stream[offset..][..total]]) + Extracted(stream[offset + total..], maxFrameSize)
            == Extracted(stream, maxFrameSize)
  {
    hide ReadU32;
    var rest := stream[offset..];
    assert rest[total..] == stream[offset + total..];
    assert frames + ([rest[..total]] + Extracted(rest[total..], maxFrameSize))
        == (frames + [rest[..total]]) + Extracted(rest[total..], maxFrameSize);
  }

  /** A frame that says how long it is. */
  predicate Delimited(f: Message) { ParseFrame(f).Ok? }

  /** What the SDK encodes is delimited, and accepted at the other end. */
  lemma EncodedIsAccepted(name: seq<Cohort.CodePoint>, dtype: DType, dimension: int, vector: seq<Byte>)
    requires EncodeFrame(name, dtype, dimension, vector).Ok?
    ensures Delimited(EncodeFrame(name, dtype, dimension, vector).value)
    ensures Acceptable(EncodeFrame(name, dtype, dimension, vector).value)
  {
    hide ParseFrame, Cohort.ValidName, Layout;
    EncodedFramesParse(name, dtype, dimension, vector);
  }

  predicate AllDelimited(frames: seq<Message>) { forall i :: 0 <= i < |frames| ==> Delimited(frames[i]) }

  lemma {:induction false} FlatFront(frames: seq<Message>)
    requires frames != []
    ensures Flat(frames) == frames[0] + Flat(frames[1..])
  {
    FlatConcat([frames[0]], frames[1..]);
    FlatOne(frames[0]);
    assert frames == [frames[0]] + frames[1..];
  }

  /** Cutting a stream of frames anywhere costs the reader at most the tail: what it extracts is the
      frames that were sent, byte for byte, in order, from the first. */
  lemma {:induction false} CutStream(frames: seq<Message>, stream: seq<Byte>, maxFrameSize: nat)
    requires AllDelimited(frames) && stream <= Flat(frames)
    ensures Extracted(stream, maxFrameSize) <= frames
    decreases |frames|
  {
    hide ParseFrame;
    if frames == [] {
      assert stream == [];
    } else {
      FlatFront(frames);
      var f := frames[0];
      CutHead(f, Flat(frames[1..]), stream);
      if |stream| >= |f| {
        assert Delimited(frames[0]);
        CutStream(frames[1..], stream[|f|..], maxFrameSize);
      }
      hide TotalFrameLen;
    }
  }

  lemma CutHead(f: Message, rest: seq<Byte>, stream: seq<Byte>)
    requires Delimited(f) && stream <= f + rest
    ensures |stream| < LEN_FIELD ==> TotalFrameLen(stream).Err?
    ensures |stream| >= LEN_FIELD ==> TotalFrameLen(stream) == Ok(|f|)
    ensures |stream| >= |f| ==> |f| >= LEN_FIELD && stream[..|f|] == f && stream[|f|..] <= rest
  {
    SelfDelimiting(f, rest);
    assert stream == (f + rest)[..|stream|];
    if |stream| >= LEN_FIELD { assert stream[0..4] == (f + rest)[0..4]; }
    if |stream| >= |f| { assert stream[|f|..] == rest[..|stream| - |f|]; }
  }

  /** When everything arrives and no frame is over the limit, every frame is extracted. */
  lemma {:induction false} WholeStream(frames: seq<Message>, maxFrameSize: nat)
    requires AllDelimited(frames) && forall i :: 0 <= i < |frames| ==> |frames[i]| <= maxFrameSize
    ensures Extracted(Flat(frames), maxFrameSize) == frames
  {
    hide ParseFrame;
    if frames != [] {
      FlatFront(frames);
      assert Delimited(frames[0]);
      CutHead(frames[0], Flat(frames[1..]), Flat(frames));
      assert Flat(frames)[|frames[0]|..] == Flat(frames[1..]);
      WholeStream(frames[1..], maxFrameSize);
    }
  }
}
