/** The compliance confidence: the probability that at least a fraction `p` of queries comply, given
    that `m` of `n` samples did. It is the survival function of Beta(m + 1, n - m + 1) at `p`, which
    for whole shapes is a finite binomial sum. */
module Posterior {
  import opened Wrappers

  function Pow(x: real, n: nat): real {
    if n == 0 then 1.0 else x * Pow(x, n - 1)
  }

  function Choose(n: nat, k: nat): nat {
    if k == 0 then 1 else if n == 0 then 0 else Choose(n - 1, k - 1) + Choose(n - 1, k)
  }

  function Factorial(n: nat): nat {
    if n == 0 then 1 else n * Factorial(n - 1)
  }

  predicate Probability(p: real) { 0.0 < p < 1.0 }

  /** The probability of exactly `s` successes in `N` trials. */
  function Term(N: nat, s: nat, p: real): real {
    if s > N then 0.0 else Choose(N, s) as real * (Pow(p, s) * Pow(1.0 - p, N - s))
  }

  /** The probability of fewer than `count` successes in `N` trials. */
  function Tail(N: nat, count: nat, p: real): real {
    if count == 0 then 0.0 else Tail(N, count - 1, p) + Term(N, count - 1, p)
  }

  datatype MathError =
    | InvalidConfidenceInput
    | EmptyQuantile
    | InvalidQuantileProbability
    | EmptyEfGrid
    | InvalidSelectionInput
    | InvalidTrainFraction

  function ComplianceConfidence(n: nat, m: nat, p: real): Result<real, MathError> {
    if m > n || p <= 0.0 || p >= 1.0 then Err(InvalidConfidenceInput)
    else Ok(Tail(n + 1, m + 1, p))
  }

  /** The confidence itself, where it is defined. */
  function Confidence(n: nat, m: nat, p: real): real
    requires m <= n && Probability(p)
  {
    ComplianceConfidence(n, m, p).value
  }

  // ----- coefficients -----

  lemma {:induction false} ChooseOutside(n: nat, k: nat)
    ensures k > n ==> Choose(n, k) == 0
    ensures k <= n ==> Choose(n, k) > 0
  {
    if k > 0 && n > 0 {
      ChooseOutside(n - 1, k - 1);
      ChooseOutside(n - 1, k);
    }
  }

  lemma {:induction false} ChooseAll(n: nat)
    ensures Choose(n, n) == 1
  {
    if n > 0 {
      ChooseAll(n - 1);
      ChooseOutside(n - 1, n);
    }
  }

  /** The coefficients are the quotients of factorials the reference implementation writes down. */
  lemma {:induction false} FactorialForm(n: nat, k: nat)
    requires k <= n
    ensures Choose(n, k) * (Factorial(k) * Factorial(n - k)) == Factorial(n)
  {
    if k == n {
      ChooseAll(n);
    } else if k > 0 {
      FactorialForm(n - 1, k - 1);
      FactorialForm(n - 1, k);
      Regroup(Choose(n - 1, k - 1), Choose(n - 1, k), k, n - k, Factorial(k - 1), Factorial(n - k - 1),
              Factorial(n - 1));
    }
  }

  lemma Regroup(a: int, b: int, k: int, j: int, fk: int, fj: int, f: int)
    requires a * (fk * (j * fj)) == f && b * ((k * fk) * fj) == f
    ensures (a + b) * ((k * fk) * (j * fj)) == (k + j) * f
  {
    assert a * ((k * fk) * (j * fj)) == k * (a * (fk * (j * fj)));
    assert b * ((k * fk) * (j * fj)) == j * (b * ((k * fk) * fj));
  }

  // ----- terms -----

  lemma {:induction false} PowPositive(x: real, n: nat)
    requires x > 0.0
    ensures Pow(x, n) > 0.0
  {
    if n > 0 { PowPositive(x, n - 1); }
  }

  lemma TermPositive(N: nat, s: nat, p: real)
    requires Probability(p) && s <= N
    ensures Term(N, s, p) > 0.0
  {
    ChooseOutside(N, s);
    PowPositive(p, s);
    PowPositive(1.0 - p, N - s);
    ProductPositive(Choose(N, s) as real, Pow(p, s), Pow(1.0 - p, N - s));
  }

  lemma ProductPositive(a: real, b: real, c: real)
    requires a > 0.0 && b > 0.0 && c > 0.0
    ensures a * (b * c) > 0.0
  {
    assert b * c > 0.0;
  }

  lemma TermMiddle(N: nat, s: nat, p: real)
    requires 0 < s <= N
    ensures Term(N + 1, s, p) == (1.0 - p) * Term(N, s, p) + p * Term(N, s - 1, p)
  {
    var q := 1.0 - p;
    var a, b, x, y := Choose(N, s), Choose(N, s - 1), Pow(p, s - 1), Pow(q, N - s);
    assert Pow(p, s) == p * x && Pow(q, N + 1 - s) == q * y;
    assert Choose(N + 1, s) == b + a;
    hide Pow, Choose;
    assert (b + a) as real == b as real + a as real;
    SplitTerm(a as real, b as real, p, q, x, y);
  }

  /** The part of a probability `t` that comes with one more success. */
  function Share(p: real, t: real): real { p * t }

  lemma Shares(p: real, t: real)
    ensures (1.0 - p) * t == t - Share(p, t)
  {
  }

  /** One more trial either succeeds or fails. */
  lemma TermStep(N: nat, s: nat, p: real)
    ensures Term(N + 1, s, p)
         == Term(N, s, p) - Share(p, Term(N, s, p)) + (if s == 0 then 0.0 else Share(p, Term(N, s - 1, p)))
  {
    ChooseOutside(N, s);
    var q := 1.0 - p;
    Shares(p, Term(N, s, p));
    if 0 < s <= N {
      TermMiddle(N, s, p);
    } else if s == N + 1 {
      SplitLast(Choose(N, N) as real, p, Pow(p, N), Pow(q, 0));
    } else if s == 0 {
      assert Pow(p, 0) == 1.0 && Pow(q, N + 1) == q * Pow(q, N);
      SplitFirst(q, Pow(q, N));
    }
  }

  lemma SplitFirst(q: real, y: real)
    ensures 1.0 * (1.0 * (q * y)) == q * (1.0 * (1.0 * y))
  {
  }

  lemma SplitLast(b: real, p: real, x: real, y: real)
    ensures b * ((p * x) * y) == p * (b * (x * y))
  {
    assert (p * x) * y == p * (x * y);
    Swap(b, p, x * y);
  }

  lemma Swap(b: real, p: real, t: real)
    ensures b * (p * t) == p * (b * t)
  {
  }

  lemma Distribute(q: real, a: real, b: real)
    ensures q * (a + b) == q * a + q * b
  {
  }

  lemma SplitTerm(a: real, b: real, p: real, q: real, x: real, y: real)
    ensures (b + a) * ((p * x) * (q * y)) == q * (a * ((p * x) * y)) + p * (b * (x * (q * y)))
  {
    var t := (p * x) * (q * y);
    Swap(q, a, (p * x) * y);
    Swap(q, p * x, y);
    assert t == p * (x * (q * y));
    Swap(p, b, x * (q * y));
    Distribute(t, a, b);
  }

  /** One more trial takes from the tail the chance of being on its edge and succeeding. */
  lemma {:induction false} TailStep(N: nat, count: nat, p: real)
    requires count > 0
    ensures Tail(N + 1, count, p) == Tail(N, count, p) - Share(p, Term(N, count - 1, p))
  {
    hide Term, Share;
    TermStep(N, count - 1, p);
    if count > 1 { TailStep(N, count - 1, p); }
  }

  /** The binomial theorem: all outcomes together have probability one. */
  lemma {:induction false} TotalProbability(N: nat, p: real)
    ensures Tail(N, N + 1, p) == 1.0
  {
    if N == 0 {
      assert Tail(0, 1, p) == Tail(0, 0, p) + Term(0, 0, p);
      assert Pow(p, 0) == 1.0 && Pow(1.0 - p, 0) == 1.0;
    } else {
      TotalProbability(N - 1, p);
      TailStep(N - 1, N + 1, p);
      assert Term(N - 1, N, p) == 0.0 && Share(p, 0.0) == 0.0;
      assert Tail(N - 1, N + 1, p) == Tail(N - 1, N, p) + Term(N - 1, N, p);
    }
  }

  lemma NoTerm(N: nat, s: nat, p: real)
    requires s > N
    ensures Term(N, s, p) == 0.0
  {
  }

  lemma {:induction false} TailGrows(N: nat, a: nat, b: nat, p: real)
    requires Probability(p) && a < b <= N + 1
    ensures Tail(N, a, p) < Tail(N, b, p)
    decreases b
  {
    TermPositive(N, b - 1, p);
    if a < b - 1 { TailGrows(N, a, b - 1, p); }
  }

  // ----- laws -----

  /** More compliant samples: strictly more confidence, which never reaches zero or one. */
  lemma ConfidenceRange(n: nat, m: nat, p: real)
    requires m <= n && Probability(p)
    ensures 0.0 < Confidence(n, m, p) < 1.0
  {
    TotalProbability(n + 1, p);
    TailGrows(n + 1, 0, m + 1, p);
    TailGrows(n + 1, m + 1, n + 2, p);
  }

  lemma ConfidenceGrowsWithSuccesses(n: nat, m: nat, m': nat, p: real)
    requires m < m' <= n && Probability(p)
    ensures Confidence(n, m, p) < Confidence(n, m', p)
  {
    TailGrows(n + 1, m + 1, m' + 1, p);
  }

  /** One more sample lowers the confidence when it fails and raises it when it complies. */
  lemma OneMoreSample(n: nat, m: nat, p: real)
    requires m <= n && Probability(p)
    ensures Confidence(n + 1, m, p) < Confidence(n, m, p) < Confidence(n + 1, m + 1, p)
  {
    var N := n + 1;
    TailStep(N, m + 1, p);
    TailStep(N, m + 2, p);
    TermPositive(N, m, p);
    TermPositive(N, m + 1, p);
    hide Term, Share;
    assert Tail(N, m + 2, p) == Tail(N, m + 1, p) + Term(N, m + 1, p);
    Fraction(p, Term(N, m, p));
    Fraction(p, Term(N, m + 1, p));
  }

  lemma SharePositive(p: real, t: real)
    requires p > 0.0 && t > 0.0
    ensures Share(p, t) > 0.0
  {
  }

  lemma Fraction(p: real, t: real)
    requires Probability(p) && t > 0.0
    ensures 0.0 < Share(p, t) < t
  {
    SharePositive(p, t);
    SharePositive(1.0 - p, t);
    Shares(p, t);
  }

  /** The most an `n`-sample split can show. */
  lemma Ceiling(n: nat, p: real)
    requires Probability(p)
    ensures Confidence(n, n, p) == 1.0 - Pow(p, n + 1)
  {
    var N := n + 1;
    TotalProbability(N, p);
    ChooseAll(N);
    assert Pow(1.0 - p, 0) == 1.0;
    assert Tail(N, N + 1, p) == Tail(N, N, p) + Term(N, N, p);
  }

  /** Larger splits have strictly higher ceilings: being too small is a threshold on size. */
  lemma {:induction false} CeilingGrows(n: nat, n': nat, p: real)
    requires n < n' && Probability(p)
    ensures Confidence(n, n, p) < Confidence(n', n', p)
    decreases n'
  {
    OneMoreSample(n' - 1, n' - 1, p);
    if n < n' - 1 { CeilingGrows(n, n' - 1, p); }
  }

  /** Asking for a larger compliant fraction never raises, and for `m < n + 1` strictly lowers, the
      confidence that it is met. */
  lemma {:induction false} TailShrinksWithPercentile(N: nat, count: nat, p: real, p': real)
    requires Probability(p) && Probability(p') && p < p'
    ensures Tail(N, count, p') <= Tail(N, count, p)
    ensures 0 < count <= N ==> Tail(N, count, p') < Tail(N, count, p)
  {
    hide Term, Share;
    if count > N {
      AllCounted(N, count, p);
      AllCounted(N, count, p');
    } else if count > 0 {
      TailShrinksWithPercentile(N - 1, count, p, p');
      TailShrinksWithPercentile(N - 1, count - 1, p, p');
      TailStep(N - 1, count, p);
      TailStep(N - 1, count, p');
      TailGrows(N - 1, count - 1, count, p);
      Couple(p, p', Tail(N - 1, count - 1, p), Tail(N - 1, count, p), Tail(N - 1, count - 1, p'),
             Tail(N - 1, count, p'));
    }
  }

  lemma {:induction false} AllCounted(N: nat, count: nat, p: real)
    requires count > N
    ensures Tail(N, count, p) == 1.0
    decreases count
  {
    if count == N + 1 {
      TotalProbability(N, p);
    } else {
      AllCounted(N, count - 1, p);
      NoTerm(N, count - 1, p);
    }
  }

  lemma Couple(p: real, p': real, a: real, b: real, a': real, b': real)
    requires 0.0 < p < p' < 1.0 && a' <= a < b && b' <= b
    ensures b' - Share(p', b' - a') < b - Share(p, b - a)
  {
    Larger(p, p', b - a);
    Bounded(p', b - b');
    Bounded(p', a - a');
    Spread(p', b - a, b - b', a - a');
    hide Share;
    assert b' - a' == (b - a) - (b - b') + (a - a');
  }

  lemma Spread(p: real, x: real, y: real, z: real)
    ensures Share(p, x - y + z) == Share(p, x) - Share(p, y) + Share(p, z)
  {
  }

  lemma Bounded(p: real, t: real)
    requires Probability(p) && t >= 0.0
    ensures 0.0 <= Share(p, t) <= t
  {
    if t > 0.0 { Fraction(p, t); }
  }

  lemma Larger(p: real, p': real, t: real)
    requires p < p' && t > 0.0
    ensures Share(p, t) < Share(p', t)
  {
    assert Share(p' - p, t) > 0.0;
  }

  lemma ConfidenceShrinksWithPercentile(n: nat, m: nat, p: real, p': real)
    requires m <= n && Probability(p) && Probability(p') && p < p'
    ensures Confidence(n, m, p') < Confidence(n, m, p)
  {
    TailShrinksWithPercentile(n + 1, m + 1, p, p');
  }
}
