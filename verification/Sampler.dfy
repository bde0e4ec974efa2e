/** The SDK's adaptive sampler: a per-cohort rate estimate over five-second buckets. */
module Sampler {
  const BUCKET_SECONDS: real := 5.0
  const ALPHA: real := 0.5
  const MAX_IDLE_ZERO_UPDATES: nat := 10

  /** The values of one cohort's state. */
  datatype Rate = Rate(bucketStart: real, bucketCount: nat, estimate: real, probability: real)

  function InitialRate(now: real): Rate { Rate(now, 0, 0.0, 1.0) }

  function UpdatedEstimate(estimate: real, bucketRate: real): real {
    ALPHA * bucketRate + (1.0 - ALPHA) * estimate
  }

  /** The estimate after a number of empty buckets. */
  function Decayed(estimate: real, n: nat): real {
    if n == 0 then estimate else UpdatedEstimate(Decayed(estimate, n - 1), 0.0)
  }

  function ProbabilityFor(estimate: real, target: real): real
    requires target > 0.0
  {
    if estimate <= target then 1.0 else target / estimate
  }

  function ElapsedBuckets(r: Rate, now: real): int { ((now - r.bucketStart) / BUCKET_SECONDS).Floor }

  /** The estimate with the bucket being closed folded in. */
  function Closed(r: Rate): real { UpdatedEstimate(r.estimate, r.bucketCount as real / BUCKET_SECONDS) }

  function AfterIdle(estimate: real, emptyBuckets: nat): real {
    if emptyBuckets > MAX_IDLE_ZERO_UPDATES then 0.0 else Decayed(estimate, emptyBuckets)
  }

  /** The specification of rolling a cohort's state over to `now`. */
  function Rolled(r: Rate, now: real, target: real): Rate
    requires target > 0.0
  {
    var elapsed := ElapsedBuckets(r, now);
    if elapsed <= 0 then r
    else
      var estimate := AfterIdle(Closed(r), elapsed - 1);
      Rate(r.bucketStart + elapsed as real * BUCKET_SECONDS, 0, estimate, ProbabilityFor(estimate, target))
  }

  function Counted(r: Rate): Rate { r.(bucketCount := r.bucketCount + 1) }

  type Rates = map<string, Rate>

  /** What one call does to the rates of all cohorts: it creates its cohort if need be, rolls it over and
      counts the call. */
  function Called(rates: Rates, name: string, now: real, target: real): Rates
    requires target > 0.0
  {
    rates[name := Counted(Rolled(if name in rates then rates[name] else InitialRate(now), now, target))]
  }

  class CohortState {
    var bucketStart: real
    var bucketCount: nat
    var rateEstimate: real
    var probability: real

    constructor (now: real)
      ensures Value() == InitialRate(now)
    {
      bucketStart, bucketCount, rateEstimate, probability := now, 0, 0.0, 1.0;
    }

    function Value(): Rate
      reads this
    {
      Rate(bucketStart, bucketCount, rateEstimate, probability)
    }
  }

  class AdaptiveSampler {
    const target: real
    var cohorts: map<string, CohortState>

    constructor (target: real)
      requires target > 0.0
      ensures this.target == target && cohorts == map[] && Valid()
    {
      this.target := target;
      cohorts := map[];
    }

    ghost predicate Valid()
      reads this, cohorts.Values
    {
      && target > 0.0
      && (forall a, b :: a in cohorts && b in cohorts && a != b ==> cohorts[a] != cohorts[b])
      && (forall a :: a in cohorts ==> Sane(cohorts[a].Value(), target))
    }

    /** The rates of all cohorts. */
    ghost function Rates(): Rates
      reads this, cohorts.Values
    {
      map a | a in cohorts :: cohorts[a].Value()
    }

    method RollOverIfNeeded(state: CohortState, now: real)
      requires target > 0.0
      modifies state
      ensures state.Value() == Rolled(old(state.Value()), now, target)
    {
      ghost var before := state.Value();
      var elapsed := ((now - state.bucketStart) / BUCKET_SECONDS).Floor;
      if elapsed <= 0 {
        return;
      }
      var bucketRate := state.bucketCount as real / BUCKET_SECONDS;
      state.rateEstimate := UpdatedEstimate(state.rateEstimate, bucketRate);
      var emptyBuckets := elapsed - 1;
      if emptyBuckets > MAX_IDLE_ZERO_UPDATES {
        state.rateEstimate := 0.0;
      } else {
        for i := 0 to emptyBuckets
          invariant state.rateEstimate == Decayed(Closed(before), i)
          invariant state.bucketStart == before.bucketStart && state.bucketCount == before.bucketCount
        {
          state.rateEstimate := UpdatedEstimate(state.rateEstimate, 0.0);
        }
      }
      state.bucketStart := state.bucketStart + elapsed as real * BUCKET_SECONDS;
      state.bucketCount := 0;
      state.probability := ProbabilityFor(state.rateEstimate, target);
    }

    /** The cohort's state, created on its first call. */
    method CohortFor(name: string, now: real) returns (state: CohortState)
      requires Valid()
      modifies this`cohorts
      ensures Valid() && name in cohorts && state == cohorts[name]
      ensures name in Rates() && Rates()[name] == state.Value()
      ensures cohorts.Values <= old(cohorts).Values + {state} && (state in old(cohorts).Values || fresh(state))
      ensures Rates() == old(Rates())[name := if name in old(Rates()) then old(Rates())[name] else InitialRate(now)]
    {
      if name !in cohorts {
        var created := new CohortState(now);
        InitialSane(now, target);
        cohorts := cohorts[name := created];
      }
      return cohorts[name];
    }

    /** Rolls a known cohort over and counts one capture. */
    method Count(state: CohortState, ghost name: string, now: real)
      requires Valid() && name in cohorts && cohorts[name] == state
      modifies state
      ensures Valid() && Rates() == old(Rates())[name := Counted(Rolled(old(state.Value()), now, target))]
    {
      hide Rolled, Sane, Counted;
      ghost var rate := state.Value();
      assert forall a :: a in cohorts && a != name ==> cohorts[a] != state;
      RolledSane(rate, now, target);
      RollOverIfNeeded(state, now);
      state.bucketCount := state.bucketCount + 1;
      CountedIs(Rolled(rate, now, target), state.Value());
    }

    /** Decides one capture; `draw` is the random number it would be compared with. */
    method ShouldSample(name: string, now: real, draw: real) returns (sampled: bool)
      requires Valid()
      modifies this, cohorts.Values
      ensures Valid() && name in cohorts && Rates() == Called(old(Rates()), name, now, target)
      ensures sampled <==> cohorts[name].probability == 1.0 || draw < cohorts[name].probability
    {
      CalledFrom(Rates(), name, now, target);
      hide Rolled, Sane, Counted, Called, Valid, Rates;
      var state := CohortFor(name, now);
      Count(state, name, now);
      return state.probability == 1.0 || draw < state.probability;
    }
  }

  // ----- what the state always satisfies -----

  /** A probability, and one that keeps the expected throughput at the target: everything is sampled while
      the estimate is within it, and beyond it exactly as much as the target allows. */
  predicate Sane(r: Rate, target: real) {
    && 0.0 < r.probability <= 1.0 && r.estimate >= 0.0 && r.probability * r.estimate <= target
    && (r.estimate <= target ==> r.probability == 1.0)
    && (r.estimate > target ==> r.probability * r.estimate == target)
  }

  lemma CalledFrom(rates: Rates, name: string, now: real, target: real)
    requires target > 0.0
    ensures var rate := if name in rates then rates[name] else InitialRate(now);
            rates[name := rate][name := Counted(Rolled(rate, now, target))] == Called(rates, name, now, target)
  {
    hide Rolled;
  }

  lemma CountedIs(r: Rate, r': Rate)
    requires r'.bucketStart == r.bucketStart && r'.bucketCount == r.bucketCount + 1
    requires r'.estimate == r.estimate && r'.probability == r.probability
    ensures r' == Counted(r)
  {
  }

  lemma InitialSane(now: real, target: real)
    requires target > 0.0
    ensures Sane(InitialRate(now), target)
  {
  }

  lemma ProbabilitySane(estimate: real, target: real)
    requires target > 0.0 && estimate >= 0.0
    ensures 0.0 < ProbabilityFor(estimate, target) <= 1.0 && ProbabilityFor(estimate, target) * estimate <= target
    ensures estimate <= target ==> ProbabilityFor(estimate, target) == 1.0
    ensures estimate > target ==> ProbabilityFor(estimate, target) * estimate == target
  {
    if estimate > target {
      var p := target / estimate;
      assert p * estimate == target;
      assert p >= 1.0 ==> p * estimate >= estimate;
      assert p <= 0.0 ==> p * estimate <= 0.0;
    }
  }

  lemma {:induction false} DecayedRange(estimate: real, n: nat)
    requires estimate >= 0.0
    ensures 0.0 <= Decayed(estimate, n) <= estimate
  {
    if n > 0 { DecayedRange(estimate, n - 1); }
  }

  lemma ClosedNonNegative(r: Rate)
    requires r.estimate >= 0.0
    ensures Closed(r) >= 0.0
  {
    assert r.bucketCount as real / BUCKET_SECONDS >= 0.0;
  }

  lemma AfterIdleNonNegative(estimate: real, n: nat)
    requires estimate >= 0.0
    ensures AfterIdle(estimate, n) >= 0.0
  {
    DecayedRange(estimate, n);
  }

  /** Every roll and every count keeps the state sane, wherever the clock has gone. */
  lemma RolledSane(r: Rate, now: real, target: real)
    requires target > 0.0 && Sane(r, target)
    ensures Sane(Rolled(r, now, target), target) && Sane(Counted(Rolled(r, now, target)), target)
  {
    hide ElapsedBuckets, Closed, AfterIdle, ProbabilityFor;
    if ElapsedBuckets(r, now) > 0 {
      ClosedNonNegative(r);
      AfterIdleNonNegative(Closed(r), ElapsedBuckets(r, now) - 1);
      ProbabilitySane(AfterIdle(Closed(r), ElapsedBuckets(r, now) - 1), target);
    }
  }

  lemma FloorBounds(x: real)
    ensures x.Floor as real <= x < x.Floor as real + 1.0
  {
  }

  /** After a roll the current bucket contains the present. */
  lemma BucketContainsNow(r: Rate, now: real, target: real)
    requires target > 0.0 && r.bucketStart <= now
    ensures 0.0 <= now - Rolled(r, now, target).bucketStart < BUCKET_SECONDS
  {
    FloorBounds((now - r.bucketStart) / BUCKET_SECONDS);
  }

  // ----- any history of calls -----

  datatype Call = Call(name: string, now: real)

  function AfterCalls(calls: seq<Call>, target: real): Rates
    requires target > 0.0
  {
    if calls == [] then map[]
    else
      var last := calls[|calls| - 1];
      Called(AfterCalls(calls[..|calls| - 1], target), last.name, last.now, target)
  }

  /** The clock does not run backwards. */
  predicate Monotonic(calls: seq<Call>) {
    forall i, j :: 0 <= i <= j < |calls| ==> calls[i].now <= calls[j].now
  }

  /** Every cohort is sane, and its bucket began no later than the last call. */
  predicate AllSane(rates: Rates, target: real, now: real) {
    forall a :: a in rates ==> Sane(rates[a], target) && rates[a].bucketStart <= now
  }

  lemma CalledSane(rates: Rates, name: string, earlier: real, now: real, target: real)
    requires target > 0.0 && AllSane(rates, target, earlier) && earlier <= now
    ensures AllSane(Called(rates, name, now, target), target, now)
    ensures 0.0 <= now - Called(rates, name, now, target)[name].bucketStart < BUCKET_SECONDS
  {
    var before := if name in rates then rates[name] else InitialRate(now);
    InitialSane(now, target);
    RolledSane(before, now, target);
    BucketContainsNow(before, now, target);
    hide Sane, Rolled;
  }

  /** Over any history of calls with a clock that does not run backwards, every cohort's probability
      stays in (0, 1] and keeps its expected throughput at or below the target, and the cohort that was
      just called is in the bucket that contains the present. */
  lemma {:induction false} EveryCallSane(calls: seq<Call>, target: real)
    requires target > 0.0 && calls != [] && Monotonic(calls)
    ensures var rates, last := AfterCalls(calls, target), calls[|calls| - 1];
            && AllSane(rates, target, last.now)
            && last.name in rates && 0.0 <= last.now - rates[last.name].bucketStart < BUCKET_SECONDS
  {
    hide AllSane, Called;
    var n := |calls| - 1;
    var last := calls[n];
    if n == 0 {
      assert AllSane(map[], target, last.now) by { NobodySane(target, last.now); }
      CalledSane(map[], last.name, last.now, last.now, target);
    } else {
      EveryCallSane(calls[..n], target);
      CalledSane(AfterCalls(calls[..n], target), last.name, calls[n - 1].now, last.now, target);
    }
    CallerKnown(AfterCalls(calls[..n], target), last.name, last.now, target);
  }

  lemma NobodySane(target: real, now: real)
    ensures AllSane(map[], target, now)
  {
  }

  lemma CallerKnown(rates: Rates, name: string, now: real, target: real)
    requires target > 0.0
    ensures name in Called(rates, name, now, target)
  {
  }

  /** The calls of one cohort. */
  function OnlyOf(calls: seq<Call>, name: string): seq<Call> {
    if calls == [] then []
    else
      var rest, last := OnlyOf(calls[..|calls| - 1], name), calls[|calls| - 1];
      if last.name == name then rest + [last] else rest
  }

  /** A cohort's rate depends on its own calls alone. */
  lemma {:induction false} CohortsAreSeparate(calls: seq<Call>, name: string, target: real)
    requires target > 0.0
    ensures var all, own := AfterCalls(calls, target), AfterCalls(OnlyOf(calls, name), target);
            (name in all <==> name in own) && (name in all ==> all[name] == own[name])
  {
    hide Rolled;
    if calls != [] {
      var rest, last := calls[..|calls| - 1], calls[|calls| - 1];
      CohortsAreSeparate(rest, name, target);
      if last.name == name { assert OnlyOf(calls, name)[..|OnlyOf(rest, name)|] == OnlyOf(rest, name); }
    }
  }

  /** A cohort called `perBucket` times in every five seconds from `start` on. */
  predicate Steady(calls: seq<Call>, name: string, start: real, perBucket: nat)
    requires perBucket > 0
  {
    && (calls != [] ==> calls[0].now == start)
    && forall i :: 0 <= i < |calls| ==>
         calls[i].name == name
         && start + 5.0 * (i / perBucket) as real <= calls[i].now < start + 5.0 * (i / perBucket + 1) as real
  }

  function PowerOfTwo(n: nat): nat { if n == 0 then 1 else 2 * PowerOfTwo(n - 1) }

  /** In bucket `bucket` of a steady run, after `count` of its calls: the estimate is short of the true rate by
      one part in 2^`bucket`. */
  predicate Approaches(r: Rate, start: real, perBucket: nat, bucket: nat, count: nat) {
    && r.bucketStart == start + 5.0 * bucket as real && r.bucketCount == count
    && (perBucket as real / 5.0 - r.estimate) * PowerOfTwo(bucket) as real == perBucket as real / 5.0
  }

  lemma StaysInBucket(r: Rate, start: real, perBucket: nat, bucket: nat, count: nat, now: real, target: real)
    requires target > 0.0 && Approaches(r, start, perBucket, bucket, count)
    requires r.bucketStart <= now < r.bucketStart + 5.0
    ensures Approaches(Counted(Rolled(r, now, target)), start, perBucket, bucket, count + 1)
  {
    assert 0.0 <= (now - r.bucketStart) / BUCKET_SECONDS < 1.0;
  }

  lemma EntersNextBucket(r: Rate, start: real, perBucket: nat, bucket: nat, now: real, target: real)
    requires target > 0.0 && Approaches(r, start, perBucket, bucket, perBucket)
    requires r.bucketStart + 5.0 <= now < r.bucketStart + 10.0
    ensures Approaches(Counted(Rolled(r, now, target)), start, perBucket, bucket + 1, 1)
  {
    assert 1.0 <= (now - r.bucketStart) / BUCKET_SECONDS < 2.0;
    assert ElapsedBuckets(r, now) == 1;
    var rate, power := perBucket as real / 5.0, PowerOfTwo(bucket) as real;
    var closed := Closed(r);
    assert rate - closed == 0.5 * (rate - r.estimate);
    assert (rate - closed) * (2.0 * power) == (rate - r.estimate) * power;
    assert Rolled(r, now, target).estimate == closed;
  }

  /** Under a steady rate the estimate is the rate, less one part in 2^n after n full buckets. */
  lemma {:induction false} SteadyRate(calls: seq<Call>, name: string, start: real, perBucket: nat, target: real)
    requires target > 0.0 && perBucket > 0 && calls != [] && Steady(calls, name, start, perBucket)
    ensures var rates, last := AfterCalls(calls, target), |calls| - 1;
            name in rates && Approaches(rates[name], start, perBucket, last / perBucket, last % perBucket + 1)
  {
    hide Rolled, Approaches;
    var last := |calls| - 1;
    var before := AfterCalls(calls[..last], target);
    if last == 0 {
      FirstCall(start, perBucket, target);
    } else {
      SteadyRate(calls[..last], name, start, perBucket, target);
      var bucket, count := (last - 1) / perBucket, (last - 1) % perBucket + 1;
      ApproachesFrom(before[name], start, perBucket, bucket, count);
      NextCall(last, perBucket);
      if count < perBucket {
        StaysInBucket(before[name], start, perBucket, bucket, count, calls[last].now, target);
      } else {
        EntersNextBucket(before[name], start, perBucket, bucket, calls[last].now, target);
      }
    }
  }

  lemma ApproachesFrom(r: Rate, start: real, perBucket: nat, bucket: nat, count: nat)
    requires Approaches(r, start, perBucket, bucket, count)
    ensures r.bucketStart == start + 5.0 * bucket as real
  {
  }

  lemma FirstCall(now: real, perBucket: nat, target: real)
    requires target > 0.0 && perBucket > 0
    ensures 0 / perBucket == 0 && 0 % perBucket == 0
    ensures Approaches(Counted(Rolled(InitialRate(now), now, target)), now, perBucket, 0, 1)
  {
    assert (now - now) / BUCKET_SECONDS == 0.0;
  }

  lemma NextCall(i: nat, perBucket: nat)
    requires i > 0 && perBucket > 0
    ensures var bucket, count := (i - 1) / perBucket, (i - 1) % perBucket + 1;
            if count < perBucket then i / perBucket == bucket && i % perBucket == count
            else i / perBucket == bucket + 1 && i % perBucket == 0
  {
    var bucket, count := (i - 1) / perBucket, (i - 1) % perBucket + 1;
    assert i == bucket * perBucket + count;
    if count == perBucket { assert i == (bucket + 1) * perBucket; }
    Divided(i, perBucket, if count < perBucket then bucket else bucket + 1, if count < perBucket then count else 0);
  }

  lemma {:induction false} AtLeastOnce(n: int, d: nat)
    ensures n > 0 ==> n * d >= d
    ensures n < 0 ==> n * d + d <= 0
    decreases if n < 0 then -n else n
  {
    if n > 1 {
      AtLeastOnce(n - 1, d);
      assert n * d == (n - 1) * d + d;
    } else if n < -1 {
      AtLeastOnce(n + 1, d);
      assert n * d == (n + 1) * d - d;
    }
  }

  lemma Divided(x: nat, d: nat, q: nat, r: nat)
    requires d > 0 && x == q * d + r && r < d
    ensures x / d == q && x % d == r
  {
    var n: int := x / d - q;
    var m: int := r - x % d;
    assert n * d == m by { assert (x / d) * d + x % d == x; }
    AtLeastOnce(n, d);
  }

  // ----- rolling in steps -----

  lemma {:induction false} DecayedTwice(estimate: real, m: nat, n: nat)
    ensures Decayed(Decayed(estimate, m), n) == Decayed(estimate, m + n)
    decreases n
  {
    if n > 0 { DecayedTwice(estimate, m, n - 1); }
  }

  /** Buckets elapsed in two steps add up. */
  lemma ElapsedAddUp(r: Rate, t1: real, t2: real, target: real)
    requires target > 0.0 && r.bucketStart <= t1 <= t2 && ElapsedBuckets(r, t1) > 0
    ensures ElapsedBuckets(Rolled(r, t1, target), t2) == ElapsedBuckets(r, t2) - ElapsedBuckets(r, t1)
    ensures ElapsedBuckets(r, t2) >= ElapsedBuckets(r, t1)
  {
    var e := ElapsedBuckets(r, t1);
    var x := (t2 - r.bucketStart) / BUCKET_SECONDS;
    assert (t2 - Rolled(r, t1, target).bucketStart) / BUCKET_SECONDS == x - e as real;
    assert (x - e as real).Floor == x.Floor - e;
    assert (t1 - r.bucketStart) / BUCKET_SECONDS <= x;
  }

  /** Up to the idle cut-off it does not matter whether a cohort was looked at in between: rolling to
      `t1` and then to `t2` is rolling to `t2`. Beyond it, the zeroed estimate is off by less than
      one part in 2^11 of what the estimate was when the cohort fell idle. */
  lemma RollingComposes(r: Rate, t1: real, t2: real, target: real)
    requires target > 0.0 && r.estimate >= 0.0 && r.bucketStart <= t1 <= t2
    ensures var direct, stepped := Rolled(r, t2, target), Rolled(Rolled(r, t1, target), t2, target);
            && (ElapsedBuckets(r, t2) <= MAX_IDLE_ZERO_UPDATES + 1 ==> stepped == direct)
            && (ElapsedBuckets(r, t1) <= 0 || ElapsedBuckets(r, t1) == ElapsedBuckets(r, t2) ==> stepped == direct)
            && (ElapsedBuckets(r, t2) > MAX_IDLE_ZERO_UPDATES + 1 ==>
                 stepped.bucketStart == direct.bucketStart
                 && (ElapsedBuckets(r, t1) > 0 && ElapsedBuckets(r, t1) < ElapsedBuckets(r, t2) ==>
                      stepped.bucketCount == direct.bucketCount && direct.estimate == 0.0
                      && 0.0 <= stepped.estimate && stepped.estimate * 2048.0 <= Closed(r)))
  {
    var e1, e2 := ElapsedBuckets(r, t1), ElapsedBuckets(r, t2);
    if e1 > 0 {
      ElapsedAddUp(r, t1, t2, target);
      ClosedNonNegative(r);
      if e1 < e2 { SteppedEstimate(Closed(r), e1, e2); }
    }
  }

  lemma {:induction false} Halving(estimate: real, n: nat)
    requires estimate >= 0.0 && n >= 11
    ensures Decayed(estimate, n) * 2048.0 <= estimate
  {
    if n == 11 {
      assert Decayed(estimate, 1) * 2.0 == estimate && Decayed(estimate, 2) * 4.0 == estimate;
      assert Decayed(estimate, 3) * 8.0 == estimate && Decayed(estimate, 4) * 16.0 == estimate;
      assert Decayed(estimate, 5) * 32.0 == estimate && Decayed(estimate, 6) * 64.0 == estimate;
      assert Decayed(estimate, 7) * 128.0 == estimate && Decayed(estimate, 8) * 256.0 == estimate;
      assert Decayed(estimate, 9) * 512.0 == estimate && Decayed(estimate, 10) * 1024.0 == estimate;
    } else {
      DecayedRange(estimate, n - 1);
      Halving(estimate, n - 1);
    }
  }

  /** The estimate after rolling over `e1` buckets and then over the rest of `e2`. */
  lemma SteppedEstimate(closed: real, e1: nat, e2: nat)
    requires closed >= 0.0 && 0 < e1 < e2
    ensures var stepped := AfterIdle(UpdatedEstimate(AfterIdle(closed, e1 - 1), 0.0), e2 - e1 - 1);
            && (e2 <= MAX_IDLE_ZERO_UPDATES + 1 ==> stepped == AfterIdle(closed, e2 - 1))
            && (e2 > MAX_IDLE_ZERO_UPDATES + 1 ==> 0.0 <= stepped && stepped * 2048.0 <= closed)
  {
    DecayedTwice(closed, e1, e2 - e1 - 1);
    if e2 > MAX_IDLE_ZERO_UPDATES + 1 {
      DecayedRange(closed, e2 - 1);
      Halving(closed, e2 - 1);
      ZeroStays(e2 - e1 - 1);
    }
  }

  lemma {:induction false} ZeroStays(n: nat)
    ensures Decayed(0.0, n) == 0.0
  {
    if n > 0 { ZeroStays(n - 1); }
  }
}
