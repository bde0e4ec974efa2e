/** Choosing an ef from posterior scores, and the quantiles reported beside it. */
module Selection {
  import opened Wrappers
  import opened Model
  import opened Ordered
  import opened Posterior

  datatype EfSelection = EfSelection(recommendedEf: int, status: RoundStatus)

  predicate SelectionInput(scores: map<int, real>, threshold: real) {
    0.0 < threshold <= 1.0 && forall ef :: ef in scores ==> 0.0 <= scores[ef] <= 1.0
  }

  /** The position of the first key that clears, or `|keys|`. */
  function FirstClearing(keys: seq<int>, scores: map<int, real>, threshold: real): (k: nat)
    requires forall i :: 0 <= i < |keys| ==> keys[i] in scores
    ensures k <= |keys| && forall i :: 0 <= i < k ==> scores[keys[i]] < threshold
    ensures k < |keys| ==> scores[keys[k]] >= threshold
  {
    if keys == [] || scores[keys[0]] >= threshold then 0
    else 1 + FirstClearing(keys[1..], scores, threshold)
  }

  predicate IsMaximum(ef: int, scores: map<int, real>) {
    ef in scores && forall e :: e in scores ==> e <= ef
  }

  lemma LastIsMaximum(scores: map<int, real>)
    requires scores != map[]
    ensures Ascending(scores.Keys) != [] && IsMaximum(Ascending(scores.Keys)[|scores| - 1], scores)
  {
    hide Ascending;
    var keys := Ascending(scores.Keys);
    assert scores.Keys != {};
    forall e | e in scores ensures e <= keys[|keys| - 1] {
      assert e in keys;
    }
    assert keys[|keys| - 1] in keys;
  }

  function Maximum(scores: map<int, real>): (ef: int)
    requires scores != map[]
    ensures IsMaximum(ef, scores)
  {
    LastIsMaximum(scores);
    Ascending(scores.Keys)[|scores| - 1]
  }

  function SelectEf(scores: map<int, real>, threshold: real): Result<EfSelection, MathError> {
    if !SelectionInput(scores, threshold) then Err(InvalidSelectionInput)
    else if scores == map[] then Err(EmptyEfGrid)
    else if scores[Maximum(scores)] < threshold then Ok(EfSelection(Maximum(scores), TargetUnmet))
    else
      var keys := Ascending(scores.Keys);
      Ok(EfSelection(keys[FirstClearing(keys, scores, threshold)], StatusOk))
  }

  /** What a selection promises: the maximum decides whether the target is met, and if it is the
      least clearing ef is chosen. */
  predicate SelectedBy(s: EfSelection, scores: map<int, real>, threshold: real)
    requires scores != map[]
  {
    && s.recommendedEf in scores
    && s.status == (if scores[Maximum(scores)] >= threshold then StatusOk else TargetUnmet)
    && (s.status == TargetUnmet ==> s.recommendedEf == Maximum(scores))
    && (s.status == StatusOk ==>
         scores[s.recommendedEf] >= threshold
         && forall e :: e in scores && e < s.recommendedEf ==> scores[e] < threshold)
  }

  lemma LeastClearing(scores: map<int, real>, threshold: real)
    ensures SelectEf(scores, threshold).Ok? <==> SelectionInput(scores, threshold) && scores != map[]
    ensures SelectEf(scores, threshold).Ok? ==> SelectedBy(SelectEf(scores, threshold).value, scores, threshold)
  {
    hide Ascending, FirstClearing, SelectionInput;
    if SelectionInput(scores, threshold) && scores != map[] && scores[Maximum(scores)] >= threshold {
      var keys := Ascending(scores.Keys);
      var k := FirstClearing(keys, scores, threshold);
      assert keys[k] in keys;
      forall e | e in scores && e < keys[k] ensures scores[e] < threshold {
        assert e in keys;
      }
    }
  }

  /** Lowering the threshold, or raising scores on the same grid, never raises the selected ef. */
  lemma RelaxingNeverRaises(scores: map<int, real>, threshold: real, scores': map<int, real>, threshold': real)
    requires SelectEf(scores, threshold).Ok? && SelectEf(scores', threshold').Ok?
    requires scores.Keys == scores'.Keys && threshold' <= threshold
    requires forall e :: e in scores ==> scores[e] <= scores'[e]
    ensures SelectEf(scores', threshold').value.recommendedEf <= SelectEf(scores, threshold).value.recommendedEf
    ensures SelectEf(scores, threshold).value.status == StatusOk ==>
            SelectEf(scores', threshold').value.status == StatusOk
  {
    hide SelectEf;
    LeastClearing(scores, threshold);
    LeastClearing(scores', threshold');
    assert scores != map[] && scores' != map[];
    RelaxedSelection(SelectEf(scores, threshold).value, scores, threshold, SelectEf(scores', threshold').value, scores',
                     threshold');
  }

  lemma RelaxedSelection(s: EfSelection, scores: map<int, real>, threshold: real,
                         s': EfSelection, scores': map<int, real>, threshold': real)
    requires scores != map[] && scores' != map[]
    requires SelectedBy(s, scores, threshold) && SelectedBy(s', scores', threshold')
    requires scores.Keys == scores'.Keys && threshold' <= threshold
    requires forall e :: e in scores ==> scores[e] <= scores'[e]
    ensures s'.recommendedEf <= s.recommendedEf
    ensures s.status == StatusOk ==> s'.status == StatusOk
  {
    hide Maximum;
    var m, m' := Maximum(scores), Maximum(scores');
    assert m in scores' && m' in scores;
    assert s.recommendedEf in scores' && s'.recommendedEf in scores;
  }

  // ----- quantiles -----

  predicate Increasing(s: seq<real>) {
    forall i, j :: 0 <= i < j < |s| ==> s[i] <= s[j]
  }

  function InsertSorted(x: real, s: seq<real>): seq<real> {
    if s == [] || x <= s[0] then [x] + s else [s[0]] + InsertSorted(x, s[1..])
  }

  function Sort(s: seq<real>): seq<real> {
    if s == [] then [] else InsertSorted(s[0], Sort(s[1..]))
  }

  predicate Above(s: seq<real>, low: real) {
    forall i :: 0 <= i < |s| ==> low <= s[i]
  }

  lemma {:induction false} InsertSortedCorrect(x: real, s: seq<real>, low: real)
    requires Increasing(s)
    ensures Increasing(InsertSorted(x, s)) && |InsertSorted(x, s)| == |s| + 1
    ensures low <= x && Above(s, low) ==> Above(InsertSorted(x, s), low)
  {
    if s != [] && s[0] < x {
      InsertSortedCorrect(x, s[1..], low);
      InsertSortedCorrect(x, s[1..], s[0]);
      assert Above(s[1..], s[0]);
    }
  }

  lemma {:induction false} InsertSortedCounts(x: real, s: seq<real>, value: real)
    ensures CountClearing(InsertSorted(x, s), value) == (if x >= value then 1 else 0) + CountClearing(s, value)
  {
    if s != [] && s[0] < x {
      InsertSortedCounts(x, s[1..], value);
      assert InsertSorted(x, s)[1..] == InsertSorted(x, s[1..]);
    } else {
      assert InsertSorted(x, s)[1..] == s;
    }
  }

  /** Sorting orders the values and keeps every count of values at or above a bound. */
  lemma {:induction false} SortCorrect(s: seq<real>, value: real)
    ensures Increasing(Sort(s)) && |Sort(s)| == |s|
    ensures CountClearing(Sort(s), value) == CountClearing(s, value)
  {
    if s != [] {
      SortCorrect(s[1..], value);
      InsertSortedCorrect(s[0], Sort(s[1..]), s[0]);
      InsertSortedCounts(s[0], Sort(s[1..]), value);
    }
  }

  function CountClearing(recalls: seq<real>, value: real): (m: nat)
    ensures m <= |recalls|
  {
    if recalls == [] then 0
    else (if recalls[0] >= value then 1 else 0) + CountClearing(recalls[1..], value)
  }

  function Scale(f: real, d: real): real { f * d }

  lemma ScaleInRange(f: real, d: real)
    requires 0.0 <= f <= 1.0 && d >= 0.0
    ensures 0.0 <= Scale(f, d) <= d
  {
    assert Scale(f, d) >= 0.0 && Scale(1.0 - f, d) >= 0.0;
  }

  /** Linear interpolation at rank `h` of an increasing list. */
  function AtRank(sorted: seq<real>, h: real): real
    requires 0 <= h.Floor < |sorted| && (h != h.Floor as real ==> h.Floor + 1 < |sorted|)
  {
    var lower := h.Floor;
    var fraction := h - lower as real;
    if fraction == 0.0 then sorted[lower]
    else sorted[lower] + Scale(fraction, sorted[lower + 1] - sorted[lower])
  }

  function Rank(n: nat, q: real): (h: real)
    requires n > 0 && 0.0 <= q <= 1.0
    ensures 0 <= h.Floor < n && (h != h.Floor as real ==> h.Floor + 1 < n)
  {
    ScaleInRange(q, (n - 1) as real);
    Scale(q, (n - 1) as real)
  }

  function QuantileType7(values: seq<real>, q: real): Result<real, MathError> {
    if values == [] then Err(EmptyQuantile)
    else if !(0.0 <= q <= 1.0) then Err(InvalidQuantileProbability)
    else
      SortCorrect(values, 0.0);
      if |values| == 1 then Ok(Sort(values)[0])
      else Ok(AtRank(Sort(values), Rank(|values|, q)))
  }

  /** In an increasing list the clearing values are a suffix. */
  lemma {:induction false} CountSorted(s: seq<real>, value: real, k: nat)
    requires Increasing(s) && k < |s|
    ensures s[k] >= value ==> CountClearing(s, value) >= |s| - k
    ensures s[k] < value ==> CountClearing(s, value) < |s| - k
  {
    if k > 0 {
      CountSorted(s[1..], value, k - 1);
    } else if |s| > 1 {
      CountSorted(s[1..], value, 0);
    }
  }

  /** The reported quantile and the number of compliant samples tell the same story: it reaches a
      target exactly when enough samples do, up to the one sample it interpolates over. */
  lemma QuantileCountsCompliance(values: seq<real>, q: real, value: real)
    requires values != [] && 0.0 <= q <= 1.0
    ensures QuantileType7(values, q).Ok?
    ensures var above := |values| - 1 - Rank(|values|, q).Floor;
            && (QuantileType7(values, q).value >= value ==> CountClearing(values, value) >= above)
            && (QuantileType7(values, q).value < value ==> CountClearing(values, value) <= above)
  {
    hide Sort, CountClearing, Rank, Scale;
    SortCorrect(values, value);
    var sorted, h := Sort(values), Rank(|values|, q);
    CountSorted(sorted, value, h.Floor);
    if h != h.Floor as real {
      CountSorted(sorted, value, h.Floor + 1);
      ScaleInRange(h - h.Floor as real, sorted[h.Floor + 1] - sorted[h.Floor]);
    }
  }
}
