/** Rolling-window membership and collector accounting. */
module Accounting {
  import opened Wrappers
  import opened Bytes
  import opened Model
  import opened Ordered
  import Timestamp

  // ----- windows in scope -----

  /** The starts of the storage windows that end at or before `end` and start at or after `lower`,
      stepping back from `end`. */
  function StartsFrom(lower: nat, end: nat, width: nat): seq<nat>
    requires width > 0
    decreases end
  {
    if end < width || end - width < lower then []
    else StartsFrom(lower, end - width, width) + [end - width]
  }

  function Lower(roundEnd: U64, duration: U64): Result<U64, AggregateError> {
    if roundEnd < duration then Err(WindowUnderflow) else Ok(roundEnd - duration)
  }

  /** The specification of `InScopeWindowStarts`. */
  function WindowStarts(roundEnd: U64, duration: U64, width: U32): Result<seq<nat>, AggregateError> {
    if width == 0 then Err(ZeroWindow)
    else if roundEnd % width != 0 then Err(UnalignedRoundEnd)
    else
      var lower :- Lower(roundEnd, duration);
      Ok(StartsFrom(lower, roundEnd, width))
  }

  function Reversed<T>(s: seq<T>): seq<T> {
    if s == [] then [] else Reversed(s[1..]) + [s[0]]
  }

  lemma {:induction false} ReversedAppend<T>(s: seq<T>, x: T)
    ensures Reversed(s + [x]) == [x] + Reversed(s)
  {
    if s != [] {
      ReversedAppend(s[1..], x);
      assert (s + [x])[1..] == s[1..] + [x];
    }
  }

  method InScopeWindowStarts(roundEnd: U64, duration: U64, width: U32) returns (r: Result<seq<nat>, AggregateError>)
    ensures r == WindowStarts(roundEnd, duration, width)
  {
    if width == 0 {
      return Err(ZeroWindow);
    }
    if roundEnd % width != 0 {
      return Err(UnalignedRoundEnd);
    }
    if roundEnd < duration {
      return Err(WindowUnderflow);
    }
    var lower: nat := roundEnd - duration;
    var starts: seq<nat> := [];
    var candidateEnd: nat := roundEnd;
    while candidateEnd >= width
      invariant StartsFrom(lower, roundEnd, width) == StartsFrom(lower, candidateEnd, width) + Reversed(starts)
      decreases candidateEnd
    {
      var start: nat := candidateEnd - width;
      if start < lower {
        break;
      }
      ReversedAppend(starts, start);
      starts := starts + [start];
      candidateEnd := start;
    }
    assert StartsFrom(lower, candidateEnd, width) == [] && [] + Reversed(starts) == Reversed(starts);
    return Ok(Reversed(starts));
  }

  /** Aligned instants are at least a window apart. */
  lemma AlignedGap(a: nat, b: nat, width: nat)
    requires width > 0 && a % width == 0 && b % width == 0 && a < b
    ensures a + width <= b
  {
    var k := b / width - a / width;
    assert b - a == width * k by {
      assert a == width * (a / width) && b == width * (b / width);
    }
    Timestamp.DistanceOfMultiples(width, k);
  }

  lemma WindowBefore(end: nat, width: nat)
    requires width > 0 && end % width == 0 && end >= width
    ensures (end - width) % width == 0
  {
    var q := end / width;
    assert end == width * q;
    assert end - width == width * (q - 1) + 0;
    Timestamp.RemainderOfMultiple(width, q - 1, 0);
  }

  /** The windows in scope are exactly the aligned ones that lie wholly inside the rolling window,
      in chronological order. */
  lemma {:induction false} StartsExact(lower: nat, end: nat, width: nat)
    requires width > 0 && end % width == 0
    ensures StrictlyAscending(StartsFrom(lower, end, width))
    ensures forall s: nat :: s in StartsFrom(lower, end, width) <==> s % width == 0 && lower <= s && s + width <= end
    decreases end
  {
    forall s: nat | s % width == 0 && s < end ensures s + width <= end {
      AlignedGap(s, end, width);
    }
    if end >= width && end - width >= lower {
      WindowBefore(end, width);
      StartsExact(lower, end - width, width);
      forall s: nat | s % width == 0 && s < end - width ensures s + width <= end - width {
        AlignedGap(s, end - width, width);
      }
      var r, rest := StartsFrom(lower, end, width), StartsFrom(lower, end - width, width);
      forall i | 0 <= i < |rest| ensures rest[i] < end - width {
        assert rest[i] in rest;
      }
      assert r == rest + [end - width];
      assert forall s: nat :: s in r <==> s in rest || s == end - width;
    }
  }

  lemma WindowStartsExact(roundEnd: U64, duration: U64, width: U32)
    ensures WindowStarts(roundEnd, duration, width).Ok? <==> width > 0 && roundEnd % width == 0 && duration <= roundEnd
    ensures WindowStarts(roundEnd, duration, width).Ok? ==>
      var starts := WindowStarts(roundEnd, duration, width).value;
      && StrictlyAscending(starts)
      && forall s: nat :: s in starts <==> s % width == 0 && roundEnd - duration <= s && s + width <= roundEnd
  {
    if width > 0 && roundEnd % width == 0 && duration <= roundEnd {
      StartsExact(roundEnd - duration, roundEnd, width);
    }
  }

  // ----- gathering parts by ULID -----

  /** What one listed element contributes: nothing, an error, or an entry that must not conflict. */
  datatype Step<T> = Skip | Reject(error: AggregateError) | Entry(partUlid: nat, part: T, conflict: AggregateError)

  function Gather<T(==)>(steps: seq<Step<T>>): Result<map<nat, T>, AggregateError> {
    if steps == [] then Ok(map[])
    else
      var gathered :- Gather(steps[..|steps| - 1]);
      match steps[|steps| - 1]
      case Skip => Ok(gathered)
      case Reject(error) => Err(error)
      case Entry(partUlid, part, conflict) =>
        if partUlid in gathered && gathered[partUlid] != part then Err(conflict)
        else Ok(gathered[partUlid := part])
  }

  predicate Admissible<T(==)>(steps: seq<Step<T>>) {
    && (forall s :: s in steps ==> !s.Reject?)
    && (forall s, t :: s in steps && t in steps && s.Entry? && t.Entry? && s.partUlid == t.partUlid ==>
        s.part == t.part)
  }

  /** Gathering succeeds exactly when nothing is rejected and no ULID names two different parts, and
      then holds exactly the parts listed. */
  lemma {:induction false} GatherExact<T>(steps: seq<Step<T>>)
    ensures Gather(steps).Ok? <==> Admissible(steps)
    ensures Gather(steps).Ok? ==>
      && (forall s :: s in steps && s.Entry? ==>
          s.partUlid in Gather(steps).value && Gather(steps).value[s.partUlid] == s.part)
      && (forall u :: u in Gather(steps).value ==> exists s :: s in steps && s.Entry? && s.partUlid == u)
  {
    if steps != [] {
      var rest, s := steps[..|steps| - 1], steps[|steps| - 1];
      GatherExact(rest);
      assert steps == rest + [s];
      assert forall t :: t in steps <==> t in rest || t == s;
      assert Admissible(steps) ==> Admissible(rest);
    }
  }

  /** Order and repetition of what is listed do not matter. */
  lemma GatherIgnoresOrder<T>(steps: seq<Step<T>>, steps': seq<Step<T>>)
    requires Gather(steps).Ok? && forall s :: s in steps <==> s in steps'
    ensures Gather(steps') == Gather(steps)
  {
    GatherExact(steps);
    GatherExact(steps');
    hide Gather;
    assert Admissible(steps');
    var m, m' := Gather(steps).value, Gather(steps').value;
    forall u | u in m ensures u in m' && m'[u] == m[u] {
      var s :| s in steps && s.Entry? && s.partUlid == u;
      assert s in steps';
    }
    forall u | u in m' ensures u in m {
      var s :| s in steps' && s.Entry? && s.partUlid == u;
      assert s in steps;
    }
    assert m == m';
  }

  predicate InScope(p: ListedPart, lower: nat, roundEnd: nat) {
    lower <= p.windowStart && p.windowStart + p.windowSeconds <= roundEnd
  }

  function ListedStep(p: ListedPart, lower: nat, roundEnd: nat): Step<ListedPart> {
    if p.windowStart + p.windowSeconds >= U64_LIMIT then Reject(PartWindowOverflow(p.partUlid))
    else if !InScope(p, lower, roundEnd) then Skip
    else Entry(p.partUlid, p, ConflictingListedPart(p.partUlid))
  }

  function ListedSteps(parts: seq<ListedPart>, lower: nat, roundEnd: nat): (s: seq<Step<ListedPart>>)
    ensures |s| == |parts| && forall i :: 0 <= i < |parts| ==> s[i] == ListedStep(parts[i], lower, roundEnd)
  {
    seq(|parts|, i requires 0 <= i < |parts| => ListedStep(parts[i], lower, roundEnd))
  }

  /** The specification of `UniqueInScopeParts`. */
  function InScopeParts(parts: seq<ListedPart>, lower: nat,
                        roundEnd: nat): Result<map<nat, ListedPart>, AggregateError> {
    Gather(ListedSteps(parts, lower, roundEnd))
  }

  method UniqueInScopeParts(parts: seq<ListedPart>, lower: nat, roundEnd: nat)
    returns (r: Result<map<nat, ListedPart>, AggregateError>)
    ensures r == InScopeParts(parts, lower, roundEnd)
  {
    ghost var steps := ListedSteps(parts, lower, roundEnd);
    var unique: map<nat, ListedPart> := map[];
    for i := 0 to |parts|
      invariant Gather(steps[..i]) == Ok(unique)
    {
      var part := parts[i];
      assert steps[..i + 1][..i] == steps[..i] && steps[..i + 1][i] == ListedStep(part, lower, roundEnd);
      GatherPrefix(steps, i + 1);
      if part.windowStart + part.windowSeconds >= U64_LIMIT {
        return Err(PartWindowOverflow(part.partUlid));
      }
      if part.windowStart < lower || part.windowStart + part.windowSeconds > roundEnd {
        continue;
      }
      if part.partUlid in unique && unique[part.partUlid] != part {
        return Err(ConflictingListedPart(part.partUlid));
      }
      unique := unique[part.partUlid := part];
    }
    assert steps[..|parts|] == steps;
    return Ok(unique);
  }

  /** An error in a prefix is the error of the whole. */
  lemma {:induction false} GatherPrefix<T>(steps: seq<Step<T>>, n: nat)
    requires n <= |steps|
    ensures Gather(steps[..n]).Err? ==> Gather(steps) == Gather(steps[..n])
    decreases |steps|
  {
    if n < |steps| {
      GatherPrefix(steps[..|steps| - 1], n);
      assert steps[..|steps| - 1][..n] == steps[..n];
    } else {
      assert steps[..n] == steps;
    }
  }

  function IntermediateStep(p: IntermediatePart): Step<IntermediatePart> {
    Entry(p.metadata.partUlid, p, ConflictingIntermediate(p.metadata.partUlid))
  }

  function IntermediateSteps(parts: seq<IntermediatePart>): (s: seq<Step<IntermediatePart>>)
    ensures |s| == |parts| && forall i :: 0 <= i < |parts| ==> s[i] == IntermediateStep(parts[i])
  {
    seq(|parts|, i requires 0 <= i < |parts| => IntermediateStep(parts[i]))
  }

  /** The specification of `UniqueIntermediates`. */
  function DistinctIntermediates(parts: seq<IntermediatePart>): Result<map<nat, IntermediatePart>, AggregateError> {
    Gather(IntermediateSteps(parts))
  }

  method UniqueIntermediates(parts: seq<IntermediatePart>)
      returns (r: Result<map<nat, IntermediatePart>, AggregateError>)
    ensures r == DistinctIntermediates(parts)
  {
    ghost var steps := IntermediateSteps(parts);
    var unique: map<nat, IntermediatePart> := map[];
    for i := 0 to |parts|
      invariant Gather(steps[..i]) == Ok(unique)
    {
      var partUlid := parts[i].metadata.partUlid;
      assert steps[..i + 1][..i] == steps[..i] && steps[..i + 1][i] == IntermediateStep(parts[i]);
      GatherPrefix(steps, i + 1);
      if partUlid in unique && unique[partUlid] != parts[i] {
        return Err(ConflictingIntermediate(partUlid));
      }
      unique := unique[partUlid := parts[i]];
    }
    assert steps[..|parts|] == steps;
    return Ok(unique);
  }

  /** The part begins and ends within the rolling window. */
  predicate Inside(p: ListedPart, from: nat, to: nat) {
    from <= p.windowStart <= to && p.windowStart + p.windowSeconds <= to
  }

  /** The parts in scope are exactly the listed ones that lie wholly inside the rolling window; listing
      fails exactly when a part's end overflows or one of them is named twice with different accounting. */
  lemma InScopePartsExact(parts: seq<ListedPart>, lower: nat, roundEnd: nat)
    ensures InScopeParts(parts, lower, roundEnd).Ok? <==>
      (forall p :: p in parts ==> p.windowStart + p.windowSeconds < 0x1_0000_0000_0000_0000)
      && (forall p, q :: p in parts && q in parts && Inside(p, lower, roundEnd) && Inside(q, lower, roundEnd) ==>
           (p.partUlid == q.partUlid ==> p == q))
    ensures InScopeParts(parts, lower, roundEnd).Ok? ==>
      forall p :: p in InScopeParts(parts, lower, roundEnd).value.Values <==>
        p in parts && Inside(p, lower, roundEnd)
    ensures InScopeParts(parts, lower, roundEnd).Ok? ==>
      forall u :: u in InScopeParts(parts, lower, roundEnd).value ==>
        InScopeParts(parts, lower, roundEnd).value[u].partUlid == u
  {
    var steps := ListedSteps(parts, lower, roundEnd);
    GatherExact(steps);
    hide Gather;
    forall p | p in parts ensures ListedStep(p, lower, roundEnd) in steps {
      var i :| 0 <= i < |parts| && parts[i] == p;
      assert steps[i] == ListedStep(p, lower, roundEnd);
    }
    forall s | s in steps ensures exists p :: p in parts && s == ListedStep(p, lower, roundEnd) {
      var i :| 0 <= i < |steps| && steps[i] == s;
      assert parts[i] in parts;
    }
  }

  /** A part that fills one storage window is in scope exactly when that window is. */
  lemma ScopesAgree(p: ListedPart, roundEnd: U64, duration: U64, width: U32)
    requires WindowStarts(roundEnd, duration, width).Ok?
    requires p.windowSeconds == width && p.windowStart % width == 0
    ensures InScope(p, Lower(roundEnd, duration).value, roundEnd) <==>
            p.windowStart in WindowStarts(roundEnd, duration, width).value
  {
    WindowStartsExact(roundEnd, duration, width);
    hide StartsFrom;
  }

  // ----- counters -----

  /** Adds up received and written frames in ULID order. */
  function FrameTotals(parts: seq<ListedPart>): Result<(nat, nat), AggregateError> {
    if parts == [] then Ok((0, 0))
    else
      var last := parts[|parts| - 1];
      var (received, records) :- FrameTotals(parts[..|parts| - 1]);
      if last.recordCount > last.receivedFrameCount then Err(InvalidPartCounts(last.partUlid))
      else if received + last.receivedFrameCount >= U64_LIMIT then Err(CounterOverflow("received_frame_count"))
      else if records + last.recordCount >= U64_LIMIT then Err(CounterOverflow("record_count"))
      else Ok((received + last.receivedFrameCount, records + last.recordCount))
  }

  function FractionOf(received: nat, records: nat): real {
    if received == 0 then 0.0 else 1.0 - records as real / received as real
  }

  /** The specification of `DroppedFrameFraction`. */
  function DroppedFraction(parts: seq<ListedPart>): Result<real, AggregateError> {
    var (received, records) :- FrameTotals(parts);
    Ok(FractionOf(received, records))
  }

  method DroppedFrameFraction(parts: seq<ListedPart>) returns (r: Result<real, AggregateError>)
    ensures r == DroppedFraction(parts)
  {
    var received: nat, records: nat := 0, 0;
    for i := 0 to |parts|
      invariant FrameTotals(parts[..i]) == Ok((received, records))
    {
      assert parts[..i + 1][..i] == parts[..i];
      FrameTotalsPrefix(parts, i + 1);
      if parts[i].recordCount > parts[i].receivedFrameCount {
        return Err(InvalidPartCounts(parts[i].partUlid));
      }
      if received + parts[i].receivedFrameCount >= U64_LIMIT {
        return Err(CounterOverflow("received_frame_count"));
      }
      if records + parts[i].recordCount >= U64_LIMIT {
        return Err(CounterOverflow("record_count"));
      }
      received := received + parts[i].receivedFrameCount;
      records := records + parts[i].recordCount;
    }
    assert parts[..|parts|] == parts;
    if received == 0 {
      return Ok(0.0);
    }
    return Ok(1.0 - records as real / received as real);
  }

  lemma {:induction false} FrameTotalsPrefix(parts: seq<ListedPart>, n: nat)
    requires n <= |parts|
    ensures FrameTotals(parts[..n]).Err? ==> FrameTotals(parts) == FrameTotals(parts[..n])
    decreases |parts|
  {
    if n < |parts| {
      FrameTotalsPrefix(parts[..|parts| - 1], n);
      assert parts[..|parts| - 1][..n] == parts[..n];
    } else {
      assert parts[..n] == parts;
    }
  }

  /** The published drop fraction is a fraction, and zero exactly when every received frame of every
      part was written. */
  lemma DroppedFractionRange(parts: seq<ListedPart>)
    requires DroppedFraction(parts).Ok?
    ensures 0.0 <= DroppedFraction(parts).value <= 1.0
    ensures DroppedFraction(parts).value == 0.0 <==>
            forall p :: p in parts ==> p.recordCount == p.receivedFrameCount
  {
    FrameTotalsOrdered(parts);
    var (received, records) := FrameTotals(parts).value;
    if received > 0 { Quotient(records as real, received as real); }
  }

  lemma Quotient(a: real, b: real)
    requires 0.0 <= a <= b && b > 0.0
    ensures 0.0 <= a / b <= 1.0 && (a / b == 1.0 <==> a == b)
  {
    var q := a / b;
    assert q * b == a;
    assert q > 1.0 ==> (q - 1.0) * b > 0.0;
    assert q < 0.0 ==> q * b < 0.0;
  }

  lemma {:induction false} FrameTotalsOrdered(parts: seq<ListedPart>)
    requires FrameTotals(parts).Ok?
    ensures var (received, records) := FrameTotals(parts).value;
            && records <= received
            && (records == received <==> forall p :: p in parts ==> p.recordCount == p.receivedFrameCount)
  {
    if parts != [] {
      FrameTotalsOrdered(parts[..|parts| - 1]);
      assert parts == parts[..|parts| - 1] + [parts[|parts| - 1]];
      assert forall p :: p in parts <==> p in parts[..|parts| - 1] || p == parts[|parts| - 1];
    }
  }

  function Available(parts: seq<ListedPart>): Result<nat, AggregateError> {
    if parts == [] then Ok(0)
    else
      var last := parts[|parts| - 1];
      var total :- Available(parts[..|parts| - 1]);
      if last.recordCount > last.receivedFrameCount then Err(InvalidPartCounts(last.partUlid))
      else if total + last.recordCount >= U64_LIMIT then Err(CounterOverflow("samples.available"))
      else Ok(total + last.recordCount)
  }

  /** The totals count every part once: they add up over any division of the parts, and one part's are
      its own. */
  lemma {:induction false} TotalsAddUp(parts: seq<ListedPart>, more: seq<ListedPart>, p: ListedPart)
    requires FrameTotals(parts + more).Ok?
    ensures FrameTotals(parts).Ok? && FrameTotals(more).Ok?
    ensures FrameTotals(parts + more).value
         == (FrameTotals(parts).value.0 + FrameTotals(more).value.0,
             FrameTotals(parts).value.1 + FrameTotals(more).value.1)
    ensures FrameTotals([p]).Ok? ==> FrameTotals([p]).value == (p.receivedFrameCount, p.recordCount)
    decreases |more|
  {
    if more == [] {
      assert parts + more == parts;
    } else {
      assert (parts + more)[..|parts + more| - 1] == parts + more[..|more| - 1];
      TotalsAddUp(parts, more[..|more| - 1], p);
    }
  }

  /** The samples available are the frames written. */
  lemma {:induction false} AvailableIsWritten(parts: seq<ListedPart>)
    requires FrameTotals(parts).Ok?
    ensures Available(parts) == Ok(FrameTotals(parts).value.1)
  {
    if parts != [] {
      AvailableIsWritten(parts[..|parts| - 1]);
      FrameTotalsOrdered(parts);
    }
  }

  /** The published fraction is that of received frames that were not written. */
  lemma FractionExact(received: nat, records: nat)
    ensures FractionOf(received, records) * received as real
         == if received == 0 then 0.0 else (received - records) as real
  {
    if received > 0 { assert records as real / received as real * received as real == records as real; }
  }

  // ----- coverage -----

  function WindowsWithParts(expected: seq<nat>, listed: map<nat, ListedPart>): set<nat> {
    set u | u in listed && listed[u].windowStart in expected :: listed[u].windowStart
  }

  lemma {:induction false} AtMostLength(s: set<nat>, t: seq<nat>)
    requires forall x :: x in s ==> x in t
    ensures |s| <= |t|
    decreases |t|
  {
    if t == [] {
      assert s == {};
    } else {
      var x := t[|t| - 1];
      AtMostLength(s - {x}, t[..|t| - 1]);
      if x in s { assert s == (s - {x}) + {x}; } else { assert s - {x} == s; }
    }
  }

  function CoverageOf(expected: seq<nat>, listed: map<nat, ListedPart>): (c: Coverage)
    ensures 0.0 <= c.emptyWindowFraction <= 1.0
    ensures c.windowsWithParts <= c.windowsInScope == |expected|
  {
    var present := WindowsWithParts(expected, listed);
    AtMostLength(present, expected);
    var inScope := |expected|;
    if inScope == 0 then Coverage(1.0, 0, |present|)
    else
      Quotient((inScope - |present|) as real, inScope as real);
      Coverage((inScope - |present|) as real / inScope as real, inScope, |present|)
  }

  lemma {:induction false} CountsAllWhenCovering(s: set<nat>, t: seq<nat>)
    requires StrictlyAscending(t) && forall x :: x in s ==> x in t
    ensures |s| == |t| <==> forall x :: x in t ==> x in s
    decreases |t|
  {
    if t == [] {
      assert s == {};
    } else {
      var x, rest := t[|t| - 1], t[..|t| - 1];
      LastIsNew(t);
      CountsAllWhenCovering(s - {x}, rest);
      AtMostLength(s - {x}, rest);
      SizeWithout(s, x);
      hide StrictlyAscending;
    }
  }

  lemma LastIsNew(t: seq<nat>)
    requires t != [] && StrictlyAscending(t)
    ensures var x, rest := t[|t| - 1], t[..|t| - 1];
            StrictlyAscending(rest) && x !in rest && forall y :: y in t <==> y in rest || y == x
  {
    var x, rest := t[|t| - 1], t[..|t| - 1];
    assert forall i :: 0 <= i < |rest| ==> rest[i] == t[i] < x;
    assert t == rest + [x];
  }

  lemma SizeWithout(s: set<nat>, x: nat)
    ensures |s - {x}| == if x in s then |s| - 1 else |s|
  {
    if x in s { assert s == (s - {x}) + {x}; } else { assert s - {x} == s; }
  }

  /** The empty fraction is zero exactly when every storage window in scope has a listed part. */
  lemma FullCoverage(expected: seq<nat>, listed: map<nat, ListedPart>)
    requires StrictlyAscending(expected) && expected != []
    ensures CoverageOf(expected, listed).emptyWindowFraction == 0.0 <==>
            forall w :: w in expected ==> exists u :: u in listed && listed[u].windowStart == w
  {
    var present := WindowsWithParts(expected, listed);
    CountsAllWhenCovering(present, expected);
    AtMostLength(present, expected);
    var a, b := (|expected| - |present|) as real, |expected| as real;
    assert a / b == 0.0 <==> a == 0.0 by {
      assert a == (a / b) * b;
    }
    assert forall w :: w in expected && w in present ==> exists u :: u in listed && listed[u].windowStart == w;
  }

  /** Coverage counts the windows in scope that some listed part begins with, each once. */
  lemma CoverageExact(expected: seq<nat>, listed: map<nat, ListedPart>)
    ensures var c := CoverageOf(expected, listed);
            && c.emptyWindowFraction * |expected| as real == (c.windowsInScope - c.windowsWithParts) as real
            && (expected == [] ==> c.emptyWindowFraction == 1.0)
            && c.windowsInScope == |expected|
            && exists present: set<nat> ::
                 |present| == c.windowsWithParts
                 && forall w :: w in present <==> w in expected && exists u :: u in listed && listed[u].windowStart == w
  {
    var present := WindowsWithParts(expected, listed);
    AtMostLength(present, expected);
    if expected != [] {
      var a, b := (|expected| - |present|) as real, |expected| as real;
      assert a / b * b == a;
    } else {
      assert present == {};
    }
    assert forall w :: w in present <==> w in expected && exists u :: u in listed && listed[u].windowStart == w;
  }
}
