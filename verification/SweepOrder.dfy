/** The order in which one sample's ef values are measured, and why nothing downstream sees it. */
module SweepOrder {
  import opened Wrappers
  import opened Bytes
  import opened Ordered
  import opened Posterior
  import opened Fnv
  import opened Population
  import opened Measurement
  import Accounting

  // ----- recall -----

  function Elements(s: seq<int>): set<int> { set x | x in s }

  /** Distinct ground-truth keys among the returned ones, over `k`. */
  function RecallAtK(gtKeys: seq<int>, returnedKeys: seq<int>, k: nat): Option<real> {
    if k == 0 then None else Some(|Elements(gtKeys) * Elements(returnedKeys)| as real / k as real)
  }

  lemma {:induction false} ElementsAtMost(s: seq<int>)
    ensures |Elements(s)| <= |s|
  {
    if s != [] {
      var rest := s[..|s| - 1];
      ElementsAtMost(rest);
      assert s == rest + [s[|s| - 1]];
      assert Elements(s) == Elements(rest) + {s[|s| - 1]};
    }
  }

  lemma SubsetSize(a: set<int>, b: set<int>)
    requires a <= b
    ensures |a| <= |b| && (|a| == |b| ==> a == b)
  {
    assert b == a + (b - a) && |b| == |a| + |b - a|;
  }

  /** Recall against `k` exact neighbours is a fraction, and perfect exactly when the neighbours are
      distinct and all returned. */
  lemma RecallRange(gtKeys: seq<int>, returnedKeys: seq<int>, k: nat)
    requires k > 0 && |gtKeys| == k
    ensures 0.0 <= RecallAtK(gtKeys, returnedKeys, k).value <= 1.0
    ensures RecallAtK(gtKeys, returnedKeys, k).value == 1.0 <==>
            |Elements(gtKeys)| == k && Elements(gtKeys) <= Elements(returnedKeys)
  {
    var gt, hits := Elements(gtKeys), Elements(gtKeys) * Elements(returnedKeys);
    ElementsAtMost(gtKeys);
    SubsetSize(hits, gt);
    Accounting.Quotient(|hits| as real, k as real);
    assert gt <= Elements(returnedKeys) ==> hits == gt;
  }

  lemma QuotientAdds(a: real, b: real, c: real)
    requires c > 0.0
    ensures (a + b) / c == a / c + b / c
  {
  }

  lemma HitsAdd(gtKeys: seq<int>, returnedKeys: seq<int>, key: int)
    ensures |Elements(gtKeys) * Elements(returnedKeys + [key])|
         == |Elements(gtKeys) * Elements(returnedKeys)| + (if key in gtKeys && key !in returnedKeys then 1 else 0)
  {
    var gt, hits := Elements(gtKeys), Elements(gtKeys) * Elements(returnedKeys);
    assert Elements(returnedKeys + [key]) == Elements(returnedKeys) + {key};
    if key in gtKeys && key !in returnedKeys {
      assert gt * Elements(returnedKeys + [key]) == hits + {key};
    } else {
      assert gt * Elements(returnedKeys + [key]) == hits;
    }
  }

  /** Recall counts the exact neighbours that were returned: nothing returned is none, a further
      neighbour raises recall by exactly one k-th, and anything else leaves it as it was. */
  lemma RecallCounts(gtKeys: seq<int>, returnedKeys: seq<int>, k: nat, key: int)
    requires k > 0
    ensures RecallAtK(gtKeys, [], k) == Some(0.0)
    ensures RecallAtK(gtKeys, returnedKeys + [key], k).value
         == RecallAtK(gtKeys, returnedKeys, k).value
            + (if key in gtKeys && key !in returnedKeys then 1.0 / k as real else 0.0)
  {
    HitsAdd(gtKeys, returnedKeys, key);
    assert Elements(gtKeys) * Elements([]) == {};
    hide Elements;
    QuotientAdds(|Elements(gtKeys) * Elements(returnedKeys)| as real, 1.0, k as real);
  }

  // ----- the shuffle -----

  /** One step of xorshift64*. */
  function NextState(state: bv64): bv64 {
    var a := state ^ (state >> 12);
    var b := a ^ (a << 25);
    b ^ (b >> 27)
  }

  function Draw(state: bv64): nat { ((state * 0x2545_F491_4F6C_DD1D) >> 33) as nat }

  function InitialState(vector: seq<Byte>): bv64 { (Fnv1a64(vector) as bv64) | 1 }

  function Swapped(s: seq<int>, i: nat, j: nat): seq<int>
    requires i < |s| && j < |s|
  {
    s[i := s[j]][j := s[i]]
  }

  function ShuffleFrom(s: seq<int>, index: nat, state: bv64): seq<int>
    requires index == 0 || index < |s|
    decreases index
  {
    if index == 0 then s
    else
      var next := NextState(state);
      ShuffleFrom(Swapped(s, index, Draw(next) % (index + 1)), index - 1, next)
  }

  /** The specification of `OrderSweep`. */
  function Shuffled(vector: seq<Byte>, grid: seq<int>): seq<int> {
    ShuffleFrom(grid, if grid == [] then 0 else |grid| - 1, InitialState(vector))
  }

  method SwapAt(a: array<int>, i: nat, j: nat)
    requires i < a.Length && j < a.Length
    modifies a
    ensures a[..] == Swapped(old(a[..]), i, j)
  {
    a[i], a[j] := a[j], a[i];
  }

  method OrderSweep(vector: seq<Byte>, grid: seq<int>) returns (order: array<int>)
    ensures fresh(order) && order[..] == Shuffled(vector, grid)
  {
    hide NextState, Draw, InitialState, Swapped;
    var state := InitialState(vector);
    order := new int[|grid|](i requires 0 <= i < |grid| => grid[i]);
    assert order[..] == grid;
    if |grid| == 0 {
      return;
    }
    var index := |grid| - 1;
    while index > 0
      invariant 0 <= index < order.Length
      invariant ShuffleFrom(order[..], index, state) == Shuffled(vector, grid)
    {
      state := NextState(state);
      SwapAt(order, index, Draw(state) % (index + 1));
      index := index - 1;
    }
  }

  lemma SwapPermutes(s: seq<int>, i: nat, j: nat)
    requires i < |s| && j < |s|
    ensures multiset(Swapped(s, i, j)) == multiset(s)
  {
  }

  lemma {:induction false} ShufflePermutes(s: seq<int>, index: nat, state: bv64)
    requires index == 0 || index < |s|
    ensures multiset(ShuffleFrom(s, index, state)) == multiset(s)
    decreases index
  {
    hide NextState, Draw;
    if index > 0 {
      var next := NextState(state);
      SwapPermutes(s, index, Draw(next) % (index + 1));
      ShufflePermutes(Swapped(s, index, Draw(next) % (index + 1)), index - 1, next);
    }
  }

  lemma RightShiftNonZero(a: bv64)
    ensures a != 0 ==> a ^ (a >> 12) != 0 && a ^ (a >> 27) != 0
  {
  }

  lemma LeftShiftNonZero(a: bv64)
    ensures a != 0 ==> a ^ (a << 25) != 0
  {
  }

  /** The generator starts from a state other than zero, and never falls into it. */
  lemma NeverZero(vector: seq<Byte>, state: bv64)
    ensures InitialState(vector) != 0
    ensures state != 0 ==> NextState(state) != 0
  {
    var a := state ^ (state >> 12);
    RightShiftNonZero(state);
    LeftShiftNonZero(a);
    RightShiftNonZero(a ^ (a << 25));
    hide Fnv1a64;
  }

  /** The place that the shuffle settles next holds the element that the next draw points at; the rest is
      shuffled further. */
  lemma {:induction false} DrawnElement(s: seq<int>, index: nat, state: bv64)
    requires index < |s|
    ensures |ShuffleFrom(s, index, state)| == |s|
    ensures forall i :: index < i < |s| ==> ShuffleFrom(s, index, state)[i] == s[i]
    ensures index > 0 ==>
      ShuffleFrom(s, index, state)[index] == s[Draw(NextState(state)) % (index + 1)]
    decreases index
  {
    hide NextState, Draw;
    if index > 0 {
      var next := NextState(state);
      DrawnElement(Swapped(s, index, Draw(next) % (index + 1)), index - 1, next);
    }
  }

  // ----- back to grid order -----

  function InsertByEf(x: SampleSweepResult, s: seq<SampleSweepResult>): seq<SampleSweepResult> {
    if s == [] || x.ef <= s[0].ef then [x] + s else [s[0]] + InsertByEf(x, s[1..])
  }

  function SortByEf(s: seq<SampleSweepResult>): seq<SampleSweepResult> {
    if s == [] then [] else InsertByEf(s[0], SortByEf(s[1..]))
  }

  /** Measures the ef values in the given order. */
  function Answers(order: seq<int>, answer: int -> SampleSweepResult): seq<SampleSweepResult> {
    seq(|order|, i requires 0 <= i < |order| => answer(order[i]).(ef := order[i]))
  }

  predicate AscendingEf(s: seq<SampleSweepResult>) {
    forall i, j :: 0 <= i < j < |s| ==> s[i].ef < s[j].ef
  }

  predicate DistinctEf(s: seq<SampleSweepResult>) {
    forall i, j :: 0 <= i < j < |s| ==> s[i].ef != s[j].ef
  }

  predicate SameElements(s: seq<SampleSweepResult>, t: seq<SampleSweepResult>) {
    (forall x :: x in s ==> x in t) && (forall x :: x in t ==> x in s)
  }

  lemma {:induction false} InsertByEfKeeps(x: SampleSweepResult, s: seq<SampleSweepResult>)
    requires AscendingEf(s) && forall y :: y in s ==> y.ef != x.ef
    ensures AscendingEf(InsertByEf(x, s)) && SameElements(InsertByEf(x, s), [x] + s)
  {
    if s != [] && s[0].ef < x.ef {
      var t := InsertByEf(x, s[1..]);
      InsertByEfKeeps(x, s[1..]);
      assert s == [s[0]] + s[1..];
      PrependSmallest(s[0], t);
    }
  }

  lemma PrependSmallest(first: SampleSweepResult, t: seq<SampleSweepResult>)
    requires AscendingEf(t) && forall y :: y in t ==> first.ef < y.ef
    ensures AscendingEf([first] + t)
  {
  }

  lemma {:induction false} SortByEfKeeps(s: seq<SampleSweepResult>)
    requires DistinctEf(s)
    ensures AscendingEf(SortByEf(s)) && SameElements(SortByEf(s), s)
  {
    if s != [] {
      SortByEfKeeps(s[1..]);
      assert forall y :: y in s[1..] ==> y.ef != s[0].ef;
      InsertByEfKeeps(s[0], SortByEf(s[1..]));
      assert s == [s[0]] + s[1..];
    }
  }

  lemma {:induction false} CountedOnce(s: seq<int>, x: int)
    requires StrictlyAscending(s)
    ensures multiset(s)[x] <= 1
  {
    if s != [] {
      var rest := s[..|s| - 1];
      CountedOnce(rest, x);
      assert s == rest + [s[|s| - 1]];
      assert x == s[|s| - 1] ==> x !in rest;
    }
  }

  /** A rearrangement of a strictly increasing list repeats nothing. */
  lemma RearrangedDistinct(s: seq<int>, t: seq<int>)
    requires StrictlyAscending(s) && multiset(s) == multiset(t)
    ensures forall i, j :: 0 <= i < j < |t| ==> t[i] != t[j]
  {
    forall i, j | 0 <= i < j < |t| ensures t[i] != t[j] {
      CountedOnce(s, t[j]);
      assert t == t[..j] + [t[j]] + t[j + 1..];
      assert t[i] in t[..j];
    }
  }

  /** Measured in shuffled order and sorted, the answers are exactly the grid's, in grid order: the
      shuffle cannot be observed, and the consistency check on a full sweep never fails. */
  lemma ShuffleUnobservable(vector: seq<Byte>, grid: seq<int>, answer: int -> SampleSweepResult)
    requires StrictlyAscending(grid)
    ensures multiset(Shuffled(vector, grid)) == multiset(grid)
    ensures SortByEf(Answers(Shuffled(vector, grid), answer)) == Answers(grid, answer)
  {
    var order := Shuffled(vector, grid);
    ShufflePermutes(grid, if grid == [] then 0 else |grid| - 1, InitialState(vector));
    RearrangedDistinct(grid, order);
    hide Shuffled, InitialState;
    SortByEfKeeps(Answers(order, answer));
    SortedAnswers(SortByEf(Answers(order, answer)), order, grid, answer);
  }

  lemma SortedAnswers(sorted: seq<SampleSweepResult>, order: seq<int>, grid: seq<int>, answer: int -> SampleSweepResult)
    requires StrictlyAscending(grid) && multiset(order) == multiset(grid)
    requires AscendingEf(sorted) && SameElements(sorted, Answers(order, answer))
    ensures sorted == Answers(grid, answer)
  {
    var efs := seq(|sorted|, i requires 0 <= i < |sorted| => sorted[i].ef);
    assert forall x :: x in order <==> x in multiset(order);
    assert forall x :: x in grid <==> x in multiset(grid);
    forall i | 0 <= i < |sorted| ensures sorted[i] == answer(efs[i]).(ef := efs[i]) && efs[i] in grid {
      assert sorted[i] in sorted;
      assert sorted[i] in Answers(order, answer);
      var j :| 0 <= j < |order| && Answers(order, answer)[j] == sorted[i];
      assert order[j] in order;
    }
    forall x | x in grid ensures x in efs {
      var j :| 0 <= j < |order| && order[j] == x;
      assert Answers(order, answer)[j] in Answers(order, answer);
      var i :| 0 <= i < |sorted| && sorted[i] == Answers(order, answer)[j];
      assert efs[i] == x;
    }
    AscendingUnique(efs, grid);
  }
}
