/** The SDK's socket sender: batches drained from the capture queue, each handed to one connection
    once, and a connection given up after the first incomplete write. */
module Sender {
  import opened Wrappers
  import opened Bytes
  import opened Stream

  // ----- the sender's own steps -----

  /** What one turn of the bounded send loop meets: a write of at most `n` bytes, or something fatal. */
  datatype Turn = Wrote(n: nat) | SocketError | StopRequested | DeadlinePassed

  /** The bytes a series of turns gets onto the wire. */
  function Progress(len: nat, sent: nat, turns: seq<Turn>): (n: nat)
    requires sent <= len
    ensures sent <= n <= len
    decreases |turns|
  {
    if sent == len || turns == [] || !turns[0].Wrote? || turns[0].n == 0 then sent
    else Progress(len, if turns[0].n <= len - sent then sent + turns[0].n else len, turns[1..])
  }

  class Socket {
    var wire: seq<Byte>
    var open: bool

    constructor ()
      ensures wire == [] && open
    {
      wire, open := [], true;
    }
  }

  class VectorSocketSender {
    const producer: VectorCaptureProducer
    const maxBatchBytes: nat
    var sock: Socket?

    constructor (producer: VectorCaptureProducer, maxBatchBytes: nat)
      requires maxBatchBytes > 0
      ensures this.producer == producer && this.maxBatchBytes == maxBatchBytes && sock == null
    {
      this.producer, this.maxBatchBytes := producer, maxBatchBytes;
      sock := null;
    }

    method CloseSocket(s: Socket)
      modifies this, s
      ensures !s.open && s.wire == old(s.wire) && sock == (if old(sock) == s then null else old(sock))
    {
      if sock == s {
        sock := null;
      }
      s.open := false;
    }

    method DrainInitialFrames() returns (frames: seq<Message>)
      requires producer.Valid()
      modifies producer
      ensures producer.Valid() && frames + producer.queue == old(producer.queue)
      ensures TotalLen(frames) <= maxBatchBytes || |frames| == 1
      ensures frames == [] ==> old(producer.queue) == []
    {
      DrainTakesWhatFits(producer.queue, maxBatchBytes);
      hide TotalLen, DrainCount;
      frames := producer.Drain(Some(maxBatchBytes));
      if frames != [] {
        return frames;
      }
      var frame := producer.TryDequeue();
      if frame.None? {
        return [];
      }
      return [frame.value];
    }

    /** Writes a batch in as many turns as it takes, and gives up at the first sign of trouble. */
    method SendAllBounded(s: Socket, batch: seq<Byte>, turns: seq<Turn>) returns (ok: bool)
      requires s.open
      modifies s
      ensures s.open && s.wire == old(s.wire) + batch[..Progress(|batch|, 0, turns)]
      ensures ok <==> Progress(|batch|, 0, turns) == |batch|
    {
      var sentBytes := 0;
      var turn := 0;
      assert turns[0..] == turns;
      while sentBytes < |batch|
        invariant 0 <= sentBytes <= |batch| && turn <= |turns| && s.open
        invariant Progress(|batch|, 0, turns) == Progress(|batch|, sentBytes, turns[turn..])
        invariant s.wire == old(s.wire) + batch[..sentBytes]
        decreases |turns| - turn
      {
        if turn == |turns| || !turns[turn].Wrote? || turns[turn].n == 0 {
          return false;
        }
        assert turns[turn..][1..] == turns[turn + 1..];
        var sentNow := if turns[turn].n <= |batch| - sentBytes then turns[turn].n else |batch| - sentBytes;
        s.wire := s.wire + batch[sentBytes..sentBytes + sentNow];
        assert batch[..sentBytes] + batch[sentBytes..sentBytes + sentNow] == batch[..sentBytes + sentNow];
        sentBytes := sentBytes + sentNow;
        turn := turn + 1;
      }
      return true;
    }

    /** Sends one batch; unless all of it got out, the connection is closed. */
    method SendBatch(s: Socket, frames: seq<Message>, turns: seq<Turn>)
      requires s.open
      modifies this, s
      ensures s.wire == old(s.wire) + Flat(frames)[..Progress(|Flat(frames)|, 0, turns)]
      ensures s.open <==> Progress(|Flat(frames)|, 0, turns) == |Flat(frames)|
    {
      var ok := SendAllBounded(s, Flat(frames), turns);
      if !ok {
        CloseSocket(s);
      }
    }
  }

  // ----- the sender and its connections over time -----

  datatype Conn = Conn(given: seq<Message>, wire: seq<Byte>, open: bool)

  /** A batch that has left the queue, and the connection it was written to, if any. */
  datatype Sent = Sent(frames: seq<Message>, conn: Option<nat>)

  datatype Position = AtTop | Retrying | Collecting | Ready

  datatype Sys = Sys(
    queue: seq<Message>, enqueued: seq<Message>, conns: seq<Conn>, current: Option<nat>,
    at: Position, sock: nat, batch: seq<Message>, sent: seq<Sent>)

  function Initial(): Sys { Sys([], [], [], None, AtTop, 0, [], []) }

  datatype Step =
    | Capture(frame: Message)
    | Connect
    | Begin
    | Retry
    | Extend
    | Abandon
    | Send(turns: seq<Turn>)
    | CloseCurrent

  function Opened(s: Sys): Sys { s.(conns := s.conns + [Conn([], [], true)], current := Some(|s.conns|)) }

  /** Hands the batch to its connection. */
  function SentOn(s: Sys, turns: seq<Turn>): Sys
    requires s.sock < |s.conns|
  {
    var conn, bytes := s.conns[s.sock], Flat(s.batch);
    var n := if conn.open then Progress(|bytes|, 0, turns) else 0;
    var conn' := Conn(conn.given + s.batch, conn.wire + bytes[..n], conn.open && n == |bytes|);
    s.(conns := s.conns[s.sock := conn'], sent := s.sent + [Sent(s.batch, Some(s.sock))], batch := [], at := AtTop,
       current := if !conn'.open && s.current == Some(s.sock) then None else s.current)
  }

  function Next(s: Sys, maxQueue: nat, maxBatch: nat, step: Step): Option<Sys> {
    match step
    case Capture(frame) =>
      if Delimited(frame) && TotalLen(s.queue) + |frame| <= maxQueue then
        Some(s.(queue := s.queue + [frame], enqueued := s.enqueued + [frame]))
      else None
    case Connect => if s.at.AtTop? && s.current.None? then Some(Opened(s)) else None
    case Begin =>
      if s.at.AtTop? && s.current.Some? then
        var k := DrainCount(s.queue, Some(maxBatch));
        if k > 0 then Some(s.(queue := s.queue[k..], batch := s.queue[..k], sock := s.current.value, at := Collecting))
        else Some(s.(sock := s.current.value, at := Retrying))
      else None
    case Retry =>
      if !s.at.Retrying? then None
      else if s.queue == [] then Some(s.(at := AtTop))
      else Some(s.(queue := s.queue[1..], batch := [s.queue[0]], at := Collecting))
    case Extend =>
      if !s.at.Collecting? then None
      else if TotalLen(s.batch) < maxBatch then
        var k := DrainCount(s.queue, Some(maxBatch - TotalLen(s.batch)));
        Some(s.(queue := s.queue[k..], batch := s.batch + s.queue[..k], at := Ready))
      else Some(s.(at := Ready))
    case Abandon =>
      if s.at.Collecting? then Some(s.(sent := s.sent + [Sent(s.batch, None)], batch := [], at := AtTop)) else None
    case Send(turns) => if s.at.Ready? && s.sock < |s.conns| then Some(SentOn(s, turns)) else None
    case CloseCurrent =>
      if s.current.Some? && s.current.value < |s.conns| then
        Some(s.(conns := s.conns[s.current.value := s.conns[s.current.value].(open := false)], current := None))
      else None
  }

  function Run(maxQueue: nat, maxBatch: nat, steps: seq<Step>): Sys {
    if steps == [] then Initial()
    else
      var before := Run(maxQueue, maxBatch, steps[..|steps| - 1]);
      match Next(before, maxQueue, maxBatch, steps[|steps| - 1])
      case None => before
      case Some(after) => after
  }

  // ----- the invariant -----

  /** The frames of all batches, in the order they left the queue. */
  function FramesOf(sent: seq<Sent>): seq<Message> {
    if sent == [] then [] else FramesOf(sent[..|sent| - 1]) + sent[|sent| - 1].frames
  }

  /** The frames of the batches handed to one connection. */
  function FramesOn(sent: seq<Sent>, conn: nat): seq<Message> {
    if sent == [] then []
    else
      FramesOn(sent[..|sent| - 1], conn)
      + (if sent[|sent| - 1].conn == Some(conn) then sent[|sent| - 1].frames else [])
  }

  predicate FitsBatch(frames: seq<Message>, maxBatch: nat) { TotalLen(frames) <= maxBatch || |frames| == 1 }

  /** A connection carries a prefix of the frames handed to it, all of them while it is open. */
  predicate SoundConn(c: Conn) { c.wire <= Flat(c.given) && (c.open ==> c.wire == Flat(c.given)) }

  function Assigned(conns: seq<Conn>): multiset<Message> {
    if conns == [] then multiset{} else Assigned(conns[..|conns| - 1]) + multiset(conns[|conns| - 1].given)
  }

  predicate InOrder(s: Sys) { s.enqueued == FramesOf(s.sent) + s.batch + s.queue && AllDelimited(s.enqueued) }

  predicate SoundConns(conns: seq<Conn>) { forall i :: 0 <= i < |conns| ==> SoundConn(conns[i]) }

  predicate WellPlaced(s: Sys) {
    && (s.current.Some? ==> s.current.value < |s.conns|)
    && (!s.at.AtTop? ==> s.sock < |s.conns|) && (s.at.AtTop? || s.at.Retrying? ==> s.batch == [])
  }

  predicate FitsAll(s: Sys, maxBatch: nat) {
    (forall i :: 0 <= i < |s.sent| ==> FitsBatch(s.sent[i].frames, maxBatch)) && FitsBatch(s.batch, maxBatch)
  }

  predicate Inv(s: Sys, maxBatch: nat) {
    && InOrder(s) && SoundConns(s.conns) && WellPlaced(s) && FitsAll(s, maxBatch)
    && Assigned(s.conns) <= multiset(FramesOf(s.sent))
  }

  predicate OnTheirConnections(s: Sys) {
    && (forall i :: 0 <= i < |s.conns| ==> s.conns[i].given == FramesOn(s.sent, i))
    && (forall i :: 0 <= i < |s.sent| && s.sent[i].conn.Some? ==> s.sent[i].conn.value < |s.conns|)
  }

  lemma {:induction false} AssignedSet(conns: seq<Conn>, i: nat, c: Conn)
    requires i < |conns|
    ensures Assigned(conns[i := c]) + multiset(conns[i].given) == Assigned(conns) + multiset(c.given)
  {
    var n := |conns| - 1;
    var front, last := conns[..n], conns[n];
    if i == n {
      assert conns[i := c][..n] == front;
    } else {
      AssignedSet(front, i, c);
      assert conns[i := c][..n] == front[i := c] && front[i] == conns[i];
      var a, b, d, e := Assigned(front[i := c]), multiset(conns[i].given), Assigned(front), multiset(c.given);
      assert Assigned(conns[i := c]) == a + multiset(last.given) && Assigned(conns) == d + multiset(last.given);
      hide Assigned;
      assert (a + multiset(last.given)) + b == (a + b) + multiset(last.given);
    }
  }

  lemma Cancel(x: multiset<Message>, y: multiset<Message>, m: multiset<Message>)
    requires x + m == y + m
    ensures x == y
  {
    forall e ensures x[e] == y[e] {
      assert (x + m)[e] == (y + m)[e];
    }
  }

  lemma SentLast(sent: seq<Sent>, x: Sent)
    ensures FramesOf(sent + [x]) == FramesOf(sent) + x.frames
    ensures forall conn: nat ::
            FramesOn(sent + [x], conn) == FramesOn(sent, conn) + (if x.conn == Some(conn) then x.frames else [])
  {
    assert (sent + [x])[..|sent|] == sent;
  }

  lemma WrittenSound(c: Conn, batch: seq<Message>, n: nat)
    requires SoundConn(c) && n <= |Flat(batch)| && (!c.open ==> n == 0)
    ensures SoundConn(Conn(c.given + batch, c.wire + Flat(batch)[..n], c.open && n == |Flat(batch)|))
  {
    FlatConcat(c.given, batch);
    hide Flat;
    if !c.open { assert Flat(batch)[..0] == [] && c.wire + [] == c.wire; }
    if n == |Flat(batch)| { assert Flat(batch)[..n] == Flat(batch); }
  }

  lemma SendKeeps(s: Sys, maxBatch: nat, turns: seq<Turn>)
    requires Inv(s, maxBatch) && s.at.Ready?
    ensures Inv(SentOn(s, turns), maxBatch)
  {
    hide Flat, FramesOf, Assigned, TotalLen, Progress, SoundConn, Delimited;
    var conn, bytes, s' := s.conns[s.sock], Flat(s.batch), SentOn(s, turns);
    var n := if conn.open then Progress(|bytes|, 0, turns) else 0;
    WrittenSound(conn, s.batch, n);
    SentLast(s.sent, Sent(s.batch, Some(s.sock)));
    AssignedSet(s.conns, s.sock, s'.conns[s.sock]);
    NothingLong();
    Regroup(FramesOf(s.sent), s.batch, s.queue);
    assert multiset(conn.given + s.batch) == multiset(conn.given) + multiset(s.batch);
    Cancel(Assigned(s'.conns), Assigned(s.conns) + multiset(s.batch), multiset(conn.given));
    assert multiset(FramesOf(s'.sent)) == multiset(FramesOf(s.sent)) + multiset(s.batch);
  }

  lemma Regroup(a: seq<Message>, b: seq<Message>, c: seq<Message>)
    ensures (a + b) + [] + c == a + b + c && a + [] + (b + c) == a + b + c
  {
  }

  lemma NothingLong()
    ensures TotalLen([]) == 0
  {
  }

  lemma BeginKeeps(s: Sys, maxQueue: nat, maxBatch: nat)
    requires Inv(s, maxBatch) && Next(s, maxQueue, maxBatch, Begin).Some?
    ensures Inv(Next(s, maxQueue, maxBatch, Begin).value, maxBatch)
  {
    hide FramesOf, Assigned, TotalLen, SoundConns, Delimited, DrainCount;
    var k := DrainCount(s.queue, Some(maxBatch));
    DrainTakesWhatFits(s.queue, maxBatch);
    assert s.queue == s.queue[..k] + s.queue[k..];
    Regroup(FramesOf(s.sent), s.queue[..k], s.queue[k..]);
  }

  lemma RetryKeeps(s: Sys, maxQueue: nat, maxBatch: nat)
    requires Inv(s, maxBatch) && Next(s, maxQueue, maxBatch, Retry).Some?
    ensures Inv(Next(s, maxQueue, maxBatch, Retry).value, maxBatch)
  {
    hide FramesOf, Assigned, TotalLen, SoundConns, Delimited;
    NothingLong();
    if s.queue != [] {
      assert s.queue == [s.queue[0]] + s.queue[1..];
      Regroup(FramesOf(s.sent), [s.queue[0]], s.queue[1..]);
    }
  }

  lemma ExtendKeeps(s: Sys, maxQueue: nat, maxBatch: nat)
    requires Inv(s, maxBatch) && Next(s, maxQueue, maxBatch, Extend).Some?
    ensures Inv(Next(s, maxQueue, maxBatch, Extend).value, maxBatch)
  {
    hide FramesOf, Assigned, TotalLen, SoundConns, Delimited, DrainCount;
    if TotalLen(s.batch) < maxBatch {
      var k := DrainCount(s.queue, Some(maxBatch - TotalLen(s.batch)));
      DrainTakesWhatFits(s.queue, maxBatch - TotalLen(s.batch));
      FlatConcat(s.batch, s.queue[..k]);
      assert s.queue == s.queue[..k] + s.queue[k..];
      Shift(FramesOf(s.sent), s.batch, s.queue[..k], s.queue[k..]);
    }
  }

  lemma Shift(a: seq<Message>, b: seq<Message>, c: seq<Message>, d: seq<Message>)
    ensures a + b + (c + d) == a + (b + c) + d
  {
  }

  lemma CaptureKeeps(s: Sys, maxQueue: nat, maxBatch: nat, frame: Message)
    requires Inv(s, maxBatch) && Next(s, maxQueue, maxBatch, Capture(frame)).Some?
    ensures Inv(Next(s, maxQueue, maxBatch, Capture(frame)).value, maxBatch)
  {
    hide FramesOf, Assigned, TotalLen, SoundConns, Delimited;
    assert FramesOf(s.sent) + s.batch + (s.queue + [frame]) == (FramesOf(s.sent) + s.batch + s.queue) + [frame];
  }

  lemma AbandonKeeps(s: Sys, maxQueue: nat, maxBatch: nat)
    requires Inv(s, maxBatch) && Next(s, maxQueue, maxBatch, Abandon).Some?
    ensures Inv(Next(s, maxQueue, maxBatch, Abandon).value, maxBatch)
  {
    hide FramesOf, Assigned, TotalLen, SoundConns, Delimited;
    NothingLong();
    SentLast(s.sent, Sent(s.batch, None));
    Regroup(FramesOf(s.sent), s.batch, s.queue);
    assert multiset(FramesOf(s.sent) + s.batch) == multiset(FramesOf(s.sent)) + multiset(s.batch);
  }

  lemma StepKeeps(s: Sys, maxQueue: nat, maxBatch: nat, step: Step)
    requires Inv(s, maxBatch) && Next(s, maxQueue, maxBatch, step).Some?
    ensures Inv(Next(s, maxQueue, maxBatch, step).value, maxBatch)
  {
    hide FramesOf, Assigned, TotalLen, SoundConn, Delimited, DrainCount, SentOn;
    match step {
      case Capture(frame) => CaptureKeeps(s, maxQueue, maxBatch, frame);
      case Connect => NewConn(s.conns);
      case Begin => BeginKeeps(s, maxQueue, maxBatch);
      case Retry => RetryKeeps(s, maxQueue, maxBatch);
      case Extend => ExtendKeeps(s, maxQueue, maxBatch);
      case Abandon => AbandonKeeps(s, maxQueue, maxBatch);
      case Send(turns) => SendKeeps(s, maxBatch, turns);
      case CloseCurrent => ClosedConn(s.conns, s.current.value);
    }
  }

  lemma NewConn(conns: seq<Conn>)
    ensures Assigned(conns + [Conn([], [], true)]) == Assigned(conns) && SoundConn(Conn([], [], true))
  {
    assert (conns + [Conn([], [], true)])[..|conns|] == conns;
  }

  lemma ClosedConn(conns: seq<Conn>, i: nat)
    requires i < |conns|
    ensures Assigned(conns[i := conns[i].(open := false)]) == Assigned(conns)
    ensures SoundConn(conns[i]) ==> SoundConn(conns[i].(open := false))
  {
    AssignedSet(conns, i, conns[i].(open := false));
    Cancel(Assigned(conns[i := conns[i].(open := false)]), Assigned(conns), multiset(conns[i].given));
  }

  lemma StepConnections(s: Sys, maxQueue: nat, maxBatch: nat, step: Step)
    requires Inv(s, maxBatch) && OnTheirConnections(s) && Next(s, maxQueue, maxBatch, step).Some?
    ensures OnTheirConnections(Next(s, maxQueue, maxBatch, step).value)
  {
    hide FramesOf, Assigned, TotalLen, Progress, SoundConn, Delimited, DrainCount, Flat, FramesOn;
    match step {
      case Send(turns) => SentLast(s.sent, Sent(s.batch, Some(s.sock)));
      case Abandon => SentLast(s.sent, Sent(s.batch, None));
      case Connect => NothingOn(s.sent, |s.conns|);
      case _ =>
    }
  }

  lemma {:induction false} NothingOn(sent: seq<Sent>, conn: nat)
    requires forall i :: 0 <= i < |sent| && sent[i].conn.Some? ==> sent[i].conn.value < conn
    ensures FramesOn(sent, conn) == []
  {
    if sent != [] { NothingOn(sent[..|sent| - 1], conn); }
  }

  lemma {:induction false} RunInv(maxQueue: nat, maxBatch: nat, steps: seq<Step>)
    ensures Inv(Run(maxQueue, maxBatch, steps), maxBatch) && OnTheirConnections(Run(maxQueue, maxBatch, steps))
  {
    hide Next;
    if steps != [] {
      RunInv(maxQueue, maxBatch, steps[..|steps| - 1]);
      var before := Run(maxQueue, maxBatch, steps[..|steps| - 1]);
      if Next(before, maxQueue, maxBatch, steps[|steps| - 1]).Some? {
        StepKeeps(before, maxQueue, maxBatch, steps[|steps| - 1]);
        StepConnections(before, maxQueue, maxBatch, steps[|steps| - 1]);
      }
      hide Inv, OnTheirConnections;
    }
  }

  // ----- what arrives -----

  lemma AssignedDelimited(s: Sys, maxBatch: nat, i: nat)
    requires Inv(s, maxBatch) && i < |s.conns|
    ensures AllDelimited(s.conns[i].given)
  {
    hide Delimited, SoundConn, TotalLen;
    AssignedIncludes(s.conns, i);
    hide Assigned;
    forall k | 0 <= k < |s.conns[i].given| ensures Delimited(s.conns[i].given[k]) {
      var f := s.conns[i].given[k];
      assert f in multiset(s.conns[i].given);
      assert f in multiset(FramesOf(s.sent));
      assert f in FramesOf(s.sent);
      assert f in s.enqueued;
    }
  }

  lemma {:induction false} AssignedIncludes(conns: seq<Conn>, i: nat)
    requires i < |conns|
    ensures multiset(conns[i].given) <= Assigned(conns)
  {
    if i < |conns| - 1 { AssignedIncludes(conns[..|conns| - 1], i); }
  }

  /** Whatever part of a connection's bytes reaches the collector, its reader extracts a byte-exact
      prefix, in order, of the frames the SDK dequeued for that connection. */
  lemma FramingStaysInSync(maxQueue: nat, maxBatch: nat, steps: seq<Step>, i: nat, arrived: seq<Byte>,
                           maxFrameSize: nat)
    requires i < |Run(maxQueue, maxBatch, steps).conns|
    requires arrived <= Run(maxQueue, maxBatch, steps).conns[i].wire
    ensures Extracted(arrived, maxFrameSize) <= FramesOn(Run(maxQueue, maxBatch, steps).sent, i)
  {
    RunInv(maxQueue, maxBatch, steps);
    hide Run, FramesOf, FramesOn, Assigned, TotalLen, Flat;
    var s := Run(maxQueue, maxBatch, steps);
    AssignedDelimited(s, maxBatch, i);
    CutStream(s.conns[i].given, arrived, maxFrameSize);
  }

  /** Every frame that was enqueued is in the queue, in the batch being collected, or in exactly one
      batch, in order; and no batch is larger than allowed unless it is a single frame. */
  lemma EveryFrameLeavesOnce(maxQueue: nat, maxBatch: nat, steps: seq<Step>)
    ensures var s := Run(maxQueue, maxBatch, steps);
            && s.enqueued == FramesOf(s.sent) + s.batch + s.queue
            && forall i :: 0 <= i < |s.sent| ==> TotalLen(s.sent[i].frames) <= maxBatch || |s.sent[i].frames| == 1
  {
    RunInv(maxQueue, maxBatch, steps);
    hide Run, FramesOf, Assigned, TotalLen;
  }

  /** All frames the collector extracts, over all connections. */
  function Delivered(arrived: seq<seq<Byte>>, maxFrameSize: nat): multiset<Message> {
    if arrived == [] then multiset{}
    else Delivered(arrived[..|arrived| - 1], maxFrameSize) + multiset(Extracted(arrived[|arrived| - 1], maxFrameSize))
  }

  lemma PrefixMultiset(a: seq<Message>, b: seq<Message>)
    requires a <= b
    ensures multiset(a) <= multiset(b)
  {
    assert b == a + b[|a|..];
  }

  lemma {:induction false} DeliveredAtMostAssigned(conns: seq<Conn>, arrived: seq<seq<Byte>>, maxFrameSize: nat)
    requires |arrived| == |conns|
    requires forall i :: 0 <= i < |conns| ==> Extracted(arrived[i], maxFrameSize) <= conns[i].given
    ensures Delivered(arrived, maxFrameSize) <= Assigned(conns)
  {
    hide Extracted;
    if conns != [] {
      var n := |conns| - 1;
      DeliveredAtMostAssigned(conns[..n], arrived[..n], maxFrameSize);
      PrefixMultiset(Extracted(arrived[n], maxFrameSize), conns[n].given);
    }
  }

  /** No frame is delivered more often than it was enqueued, however connections break and reconnect. */
  lemma DeliveredAtMostOnce(maxQueue: nat, maxBatch: nat, steps: seq<Step>, arrived: seq<seq<Byte>>, maxFrameSize: nat)
    requires var s := Run(maxQueue, maxBatch, steps);
             |arrived| == |s.conns| && forall i :: 0 <= i < |s.conns| ==> arrived[i] <= s.conns[i].wire
    ensures Delivered(arrived, maxFrameSize) <= multiset(Run(maxQueue, maxBatch, steps).enqueued)
  {
    RunInv(maxQueue, maxBatch, steps);
    var s := Run(maxQueue, maxBatch, steps);
    hide Run, Delivered, FramesOf, Assigned, TotalLen, Extracted;
    forall i | 0 <= i < |s.conns| ensures Extracted(arrived[i], maxFrameSize) <= s.conns[i].given {
      FramingStaysInSync(maxQueue, maxBatch, steps, i, arrived[i], maxFrameSize);
    }
    DeliveredAtMostAssigned(s.conns, arrived, maxFrameSize);
    assert multiset(s.enqueued) == multiset(FramesOf(s.sent)) + multiset(s.batch) + multiset(s.queue);
  }

  // ----- what does get out -----

  /** The bytes that some turns write, if each writes something. */
  function WrittenBy(turns: seq<Turn>): nat {
    if turns == [] then 0 else (if turns[0].Wrote? then turns[0].n else 0) + WrittenBy(turns[1..])
  }

  predicate Good(turn: Turn) { turn.Wrote? && turn.n > 0 }

  /** A batch gets out as far as its turns write, up to its end or the first turn that is no good. */
  lemma {:induction false} ProgressExactly(len: nat, sent: nat, turns: seq<Turn>, rest: seq<Turn>)
    requires sent <= len && forall i :: 0 <= i < |turns| ==> Good(turns[i])
    requires rest != [] ==> !Good(rest[0])
    ensures Progress(len, sent, turns + rest)
         == if sent + WrittenBy(turns) <= len then sent + WrittenBy(turns) else len
    decreases |turns|
  {
    if turns == [] {
      assert turns + rest == rest;
    } else {
      assert Good(turns[0]) && (turns + rest)[0] == turns[0] && (turns + rest)[1..] == turns[1..] + rest;
      if sent < len {
        ProgressExactly(len, if turns[0].n <= len - sent then sent + turns[0].n else len, turns[1..], rest);
      }
    }
  }

  /** The steps that bring one captured frame onto a connection. */
  function Delivery(frame: Message, maxBatch: nat): seq<Step> {
    [Connect, Capture(frame), Begin] + (if |frame| <= maxBatch then [] else [Retry])
    + [Extend, Send([Wrote(|frame|)])]
  }

  lemma StepTaken(maxQueue: nat, maxBatch: nat, steps: seq<Step>, step: Step, after: Sys)
    requires Next(Run(maxQueue, maxBatch, steps), maxQueue, maxBatch, step) == Some(after)
    ensures Run(maxQueue, maxBatch, steps + [step]) == after
  {
    hide Next;
    assert (steps + [step])[..|steps|] == steps;
  }

  /** A frame that fits the queue can be captured and delivered whole, on a connection that then stays
      open, however large the frame is beside a batch. */
  lemma FramesCanBeDelivered(frame: Message, maxQueue: nat, maxBatch: nat)
    requires Delimited(frame) && 0 < |frame| <= maxQueue && maxBatch > 0
    ensures var s := Run(maxQueue, maxBatch, Delivery(frame, maxBatch));
            && s.conns == [Conn([frame], frame, true)] && s.queue == [] && s.at == AtTop && s.current == Some(0)
            && s.sent == [Sent([frame], Some(0))]
  {
    hide Delimited, Next, Run, SentOn;
    var captured := Sys([frame], [frame], [Conn([], [], true)], Some(0), AtTop, 0, [], []);
    var collected := captured.(queue := [], batch := [frame], at := Collecting);
    var ready := collected.(at := Ready);
    var steps, send := [Connect, Capture(frame)], Send([Wrote(|frame|)]);
    ToCaptured(frame, maxQueue, maxBatch);
    ToCollected(frame, captured, maxQueue, maxBatch);
    ToReady(frame, collected, maxQueue, maxBatch);
    ToSent(frame, ready, maxQueue, maxBatch);
    if |frame| <= maxBatch {
      StepTaken(maxQueue, maxBatch, steps, Begin, collected);
      Concluded(frame, maxQueue, maxBatch, steps + [Begin], collected);
      assert Delivery(frame, maxBatch) == steps + [Begin] + [Extend] + [send];
    } else {
      StepTaken(maxQueue, maxBatch, steps, Begin, captured.(at := Retrying));
      StepTaken(maxQueue, maxBatch, steps + [Begin], Retry, collected);
      Concluded(frame, maxQueue, maxBatch, steps + [Begin] + [Retry], collected);
      assert Delivery(frame, maxBatch) == steps + [Begin] + [Retry] + [Extend] + [send];
    }
  }

  lemma Concluded(frame: Message, maxQueue: nat, maxBatch: nat, steps: seq<Step>, collected: Sys)
    requires Run(maxQueue, maxBatch, steps) == collected
    requires Next(collected, maxQueue, maxBatch, Extend) == Some(collected.(at := Ready))
    requires Next(collected.(at := Ready), maxQueue, maxBatch, Send([Wrote(|frame|)])).Some?
    ensures Run(maxQueue, maxBatch, steps + [Extend] + [Send([Wrote(|frame|)])])
         == Next(collected.(at := Ready), maxQueue, maxBatch, Send([Wrote(|frame|)])).value
  {
    hide Next, Run;
    var ready, send := collected.(at := Ready), Send([Wrote(|frame|)]);
    StepTaken(maxQueue, maxBatch, steps, Extend, ready);
    StepTaken(maxQueue, maxBatch, steps + [Extend], send, Next(ready, maxQueue, maxBatch, send).value);
  }

  lemma ToCaptured(frame: Message, maxQueue: nat, maxBatch: nat)
    requires Delimited(frame) && |frame| <= maxQueue
    ensures Run(maxQueue, maxBatch, [Connect, Capture(frame)])
         == Sys([frame], [frame], [Conn([], [], true)], Some(0), AtTop, 0, [], [])
  {
    hide Delimited;
    NothingLong();
    var connected := Sys([], [], [Conn([], [], true)], Some(0), AtTop, 0, [], []);
    assert [] + [Conn([], [], true)] == [Conn([], [], true)];
    StepTaken(maxQueue, maxBatch, [], Connect, connected);
    assert [] + [Connect] == [Connect] && [Connect] + [Capture(frame)] == [Connect, Capture(frame)];
    StepTaken(maxQueue, maxBatch, [Connect], Capture(frame),
              connected.(queue := [] + [frame], enqueued := [] + [frame]));
  }

  lemma ToCollected(frame: Message, captured: Sys, maxQueue: nat, maxBatch: nat)
    requires 0 < |frame|
    requires captured == Sys([frame], [frame], [Conn([], [], true)], Some(0), AtTop, 0, [], [])
    ensures var collected := captured.(queue := [], batch := [frame], at := Collecting);
            if |frame| <= maxBatch then Next(captured, maxQueue, maxBatch, Begin) == Some(collected)
            else Next(captured, maxQueue, maxBatch, Begin) == Some(captured.(at := Retrying))
                 && Next(captured.(at := Retrying), maxQueue, maxBatch, Retry) == Some(collected)
  {
    assert [frame][1..] == [] && [frame][..1] == [frame] && [frame][..0] == [] && [frame][0..] == [frame];
    assert DrainCount([frame], Some(maxBatch)) == if |frame| <= maxBatch then 1 else 0;
  }

  lemma ToReady(frame: Message, collected: Sys, maxQueue: nat, maxBatch: nat)
    requires collected.queue == [] && collected.batch == [frame] && collected.at == Collecting
    ensures Next(collected, maxQueue, maxBatch, Extend) == Some(collected.(at := Ready))
  {
    var none: seq<Message> := [];
    assert none[0..] == none[..0] == none && [frame] + none == [frame];
  }

  lemma ToSent(frame: Message, ready: Sys, maxQueue: nat, maxBatch: nat)
    requires 0 < |frame| && ready == Sys([], [frame], [Conn([], [], true)], Some(0), Ready, 0, [frame], [])
    ensures Next(ready, maxQueue, maxBatch, Send([Wrote(|frame|)]))
         == Some(Sys([], [frame], [Conn([frame], frame, true)], Some(0), AtTop, 0, [], [Sent([frame], Some(0))]))
  {
    var turns := [Wrote(|frame|)];
    FlatOne(frame);
    assert turns[1..] == [] && turns + [] == turns && WrittenBy(turns) == |frame|;
    ProgressExactly(|frame|, 0, turns, []);
    hide Progress, Flat;
    assert frame[..|frame|] == frame && [] + frame == frame && [] + [frame] == [frame];
    assert [] + [Sent([frame], Some(0))] == [Sent([frame], Some(0))];
    assert [Conn([], [], true)][0 := Conn([frame], frame, true)] == [Conn([frame], frame, true)];
  }
}
