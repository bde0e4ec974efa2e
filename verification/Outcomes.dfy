/** What the compliance confidence is: the probability of an event, as the weight of the outcomes in it. */
module Outcomes {
  import opened Wrappers
  import opened Posterior

  /** The outcome of some trials, success by success. */
  type Outcome = seq<bool>

  /** The probability of one outcome of independent trials that each succeed with probability `p`. */
  function Weight(xs: Outcome, p: real): real {
    if xs == [] then 1.0 else (if xs[0] then p else 1.0 - p) * Weight(xs[1..], p)
  }

  function Successes(xs: Outcome): nat {
    if xs == [] then 0 else (if xs[0] then 1 else 0) + Successes(xs[1..])
  }

  function Each(first: bool, rest: seq<Outcome>): (r: seq<Outcome>)
    ensures |r| == |rest| && forall i :: 0 <= i < |r| ==> r[i] == [first] + rest[i]
  {
    seq(|rest|, i requires 0 <= i < |rest| => [first] + rest[i])
  }

  /** All outcomes of `n` trials. */
  function AllOutcomes(n: nat): seq<Outcome> {
    if n == 0 then [[]] else Each(true, AllOutcomes(n - 1)) + Each(false, AllOutcomes(n - 1))
  }

  lemma {:induction false} OutcomesLength(n: nat)
    ensures forall i :: 0 <= i < |AllOutcomes(n)| ==> |AllOutcomes(n)[i]| == n
  {
    if n > 0 { OutcomesLength(n - 1); }
  }

  lemma {:induction false} OutcomePosition(xs: Outcome) returns (i: nat)
    ensures i < |AllOutcomes(|xs|)| && AllOutcomes(|xs|)[i] == xs
    decreases |xs|
  {
    if xs == [] {
      i := 0;
    } else {
      var rest := AllOutcomes(|xs| - 1);
      var j := OutcomePosition(xs[1..]);
      assert xs == [xs[0]] + xs[1..] == Each(xs[0], rest)[j];
      i := if xs[0] then j else |rest| + j;
    }
  }

  /** The list holds every outcome of `n` trials, and nothing else. */
  lemma OutcomesComplete(n: nat, xs: Outcome)
    ensures xs in AllOutcomes(n) <==> |xs| == n
  {
    OutcomesLength(n);
    if |xs| == n { var _ := OutcomePosition(xs); }
    hide AllOutcomes;
  }

  /** And each of them once. */
  lemma {:induction false} OutcomesDistinct(n: nat)
    ensures forall i, j :: 0 <= i < j < |AllOutcomes(n)| ==> AllOutcomes(n)[i] != AllOutcomes(n)[j]
  {
    if n > 0 {
      OutcomesDistinct(n - 1);
      EachDistinct(AllOutcomes(n - 1));
    }
  }

  lemma EachDistinct(rest: seq<Outcome>)
    requires forall i, j :: 0 <= i < j < |rest| ==> rest[i] != rest[j]
    ensures var all := Each(true, rest) + Each(false, rest);
            forall i, j :: 0 <= i < j < |all| ==> all[i] != all[j]
  {
    var all := Each(true, rest) + Each(false, rest);
    forall i, j | 0 <= i < j < |all| ensures all[i] != all[j] {
      var i', j' := if i < |rest| then i else i - |rest|, if j < |rest| then j else j - |rest|;
      assert all[i][1..] == rest[i'] && all[j][1..] == rest[j'];
      if i' == j' { assert all[i][0] && !all[j][0]; }
    }
  }

  /** The probability that an outcome from the list has at most so many successes. */
  function WeightOf(outcomes: seq<Outcome>, most: int, p: real): real {
    if outcomes == [] then 0.0
    else (if Successes(outcomes[0]) <= most then Weight(outcomes[0], p) else 0.0) + WeightOf(outcomes[1..], most, p)
  }

  lemma {:induction false} WeightConcat(a: seq<Outcome>, b: seq<Outcome>, most: int, p: real)
    ensures WeightOf(a + b, most, p) == WeightOf(a, most, p) + WeightOf(b, most, p)
  {
    hide Weight, Successes;
    if a == [] {
      assert a + b == b;
    } else {
      assert (a + b)[1..] == a[1..] + b;
      WeightConcat(a[1..], b, most, p);
    }
  }

  lemma FirstTrial(first: bool, xs: Outcome, p: real)
    ensures Weight([first] + xs, p) == (if first then Share(p, Weight(xs, p)) else Share(1.0 - p, Weight(xs, p)))
    ensures Successes([first] + xs) == (if first then 1 else 0) + Successes(xs)
  {
    assert ([first] + xs)[1..] == xs;
  }

  lemma Shared(q: real, a: real, b: real)
    ensures Share(q, a + b) == Share(q, a) + Share(q, b) && Share(q, 0.0) == 0.0
  {
  }

  lemma {:induction false} WeightEach(first: bool, rest: seq<Outcome>, most: int, p: real)
    ensures WeightOf(Each(first, rest), most, p)
         == if first then Share(p, WeightOf(rest, most - 1, p)) else Share(1.0 - p, WeightOf(rest, most, p))
  {
    hide Weight, Successes, Share;
    var q, fewer := if first then p else 1.0 - p, if first then most - 1 else most;
    Shared(q, 0.0, 0.0);
    if rest != [] {
      WeightEach(first, rest[1..], most, p);
      assert Each(first, rest)[1..] == Each(first, rest[1..]);
      FirstTrial(first, rest[0], p);
      Shared(q, if Successes(rest[0]) <= fewer then Weight(rest[0], p) else 0.0, WeightOf(rest[1..], fewer, p));
    }
  }

  lemma {:induction false} NoneBelowZero(outcomes: seq<Outcome>, p: real)
    ensures WeightOf(outcomes, -1, p) == 0.0
  {
    if outcomes != [] { NoneBelowZero(outcomes[1..], p); }
  }

  lemma NoTrials(most: nat, p: real)
    ensures WeightOf(AllOutcomes(0), most, p) == 1.0
  {
    var none: seq<Outcome> := [[]];
    assert none[1..] == [] && Successes([]) == 0 && Weight([], p) == 1.0;
    assert WeightOf(none[1..], most, p) == 0.0;
  }

  /** One trial more, seen from both sides. */
  lemma TailSplits(N: nat, count: nat, p: real)
    requires count > 0
    ensures Tail(N + 1, count, p) == Share(p, Tail(N, count - 1, p)) + Share(1.0 - p, Tail(N, count, p))
  {
    hide Term;
    TailStep(N, count, p);
    var t := Term(N, count - 1, p);
    assert Tail(N, count, p) == Tail(N, count - 1, p) + t;
    Shared(p, Tail(N, count - 1, p), t);
    Shares(p, Tail(N, count, p));
  }

  /** The binomial sum is the probability of fewer than `count` successes. */
  lemma {:induction false} TailIsProbability(N: nat, count: nat, p: real)
    ensures Tail(N, count, p) == WeightOf(AllOutcomes(N), count - 1, p)
  {
    hide Share, Term, WeightOf, Each;
    if count == 0 {
      NoneBelowZero(AllOutcomes(N), p);
    } else if N == 0 {
      AllCounted(0, count, p);
      NoTrials(count - 1, p);
    } else {
      var rest := AllOutcomes(N - 1);
      TailIsProbability(N - 1, count - 1, p);
      TailIsProbability(N - 1, count, p);
      TailSplits(N - 1, count, p);
      WeightConcat(Each(true, rest), Each(false, rest), count - 1, p);
      WeightEach(true, rest, count - 1, p);
      WeightEach(false, rest, count - 1, p);
    }
  }

  /** The confidence after `m` of `n` samples complied is the probability that at most `m` of `n + 1`
      trials with success probability `p` succeed. It exists exactly for possible counts and proper
      fractions. */
  lemma ConfidenceIsProbability(n: nat, m: nat, p: real)
    ensures ComplianceConfidence(n, m, p).Ok? <==> m <= n && Probability(p)
    ensures m <= n && Probability(p) ==> Confidence(n, m, p) == WeightOf(AllOutcomes(n + 1), m, p)
  {
    TailIsProbability(n + 1, m + 1, p);
    hide Tail, WeightOf, AllOutcomes;
  }

  /** Success and failure change places: what is left over is the confidence of the mirror image. */
  lemma {:induction false} TailReflects(N: nat, count: nat, p: real)
    requires count <= N + 1
    ensures Tail(N, count, p) + Tail(N, N + 1 - count, 1.0 - p) == 1.0
  {
    if count == 0 {
      TotalProbability(N, 1.0 - p);
    } else if count == N + 1 {
      TotalProbability(N, p);
    } else {
      TailReflects(N - 1, count - 1, p);
      TailReflects(N - 1, count, p);
      TailSplits(N - 1, count, p);
      TailSplits(N - 1, N + 1 - count, 1.0 - p);
      hide Tail;
      var a, b := Tail(N - 1, count - 1, p), Tail(N - 1, count, p);
      var a', b' := Tail(N - 1, N + 1 - count, 1.0 - p), Tail(N - 1, N - count, 1.0 - p);
      assert a + a' == 1.0 && b + b' == 1.0;
      Mirror(p, a, b, a', b');
    }
  }

  lemma Mirror(p: real, a: real, b: real, a': real, b': real)
    requires a + a' == 1.0 && b + b' == 1.0
    ensures (Share(p, a) + Share(1.0 - p, b)) + (Share(1.0 - p, b') + Share(1.0 - (1.0 - p), a')) == 1.0
  {
    Shared(p, a, a');
    Shared(1.0 - p, b, b');
  }

  /** Without a compliant sample the confidence is that of failing throughout. */
  lemma Floor(n: nat, p: real)
    requires Probability(p)
    ensures Confidence(n, 0, p) == Pow(1.0 - p, n + 1)
  {
    TailReflects(n + 1, 1, p);
    Ceiling(n, 1.0 - p);
    hide Tail, Pow;
  }

  /** The laws that determine the confidence: its mirror image and its recurrence. */
  lemma ConfidenceLaws(n: nat, m: nat, p: real)
    requires m <= n && Probability(p)
    ensures Confidence(n, m, p) + Confidence(n, n - m, 1.0 - p) == 1.0
    ensures m < n ==>
      Confidence(n + 1, m + 1, p) == Share(p, Confidence(n, m, p)) + Share(1.0 - p, Confidence(n, m + 1, p))
  {
    TailReflects(n + 1, m + 1, p);
    if m < n { Recurrence(n, m, p); }
    hide Tail;
  }

  lemma Recurrence(n: nat, m: nat, p: real)
    requires m < n && Probability(p)
    ensures Confidence(n + 1, m + 1, p) == Share(p, Confidence(n, m, p)) + Share(1.0 - p, Confidence(n, m + 1, p))
  {
    TailSplits(n + 1, m + 2, p);
    ConfidenceIs(n + 1, m + 1, p);
    ConfidenceIs(n, m, p);
    ConfidenceIs(n, m + 1, p);
    hide Tail, Confidence, Share;
  }

  lemma ConfidenceIs(n: nat, m: nat, p: real)
    requires m <= n && Probability(p)
    ensures Confidence(n, m, p) == Tail(n + 1, m + 1, p)
  {
    hide Tail;
  }
}
