/** The stratified bootstrap interval and its generator (src/evals/stats.rs). */
module Bootstrap {
  import opened Foundation
  import opened RobustStats

  const MODULUS := 0x1_0000_0000_0000_0000

  /** Exclusive or with the golden-ratio constant. */
  function Scrambled(seed: U64): U64 {
    (seed as bv64 ^ 0x9E37_79B9_7F4A_7C15) as int
  }

  /** One wrapping step of the linear congruential generator. */
  function NextState(state: U64): U64 {
    (state * 6364136223846793005 + 1442695040888963407) % MODULUS
  }

  /** The index that a state stands for: its upper 53 bits, modulo `n`. */
  function IndexFrom(state: U64, n: nat): (i: nat)
    requires n != 0
    ensures i < n
  {
    state / 0x800 % n
  }

  function StateAfter(state: U64, draws: nat): U64 {
    if draws == 0 then state else NextState(StateAfter(state, draws - 1))
  }

  class Lcg {
    var state: U64

    constructor (seed: U64)
      ensures state == Scrambled(seed)
    {
      state := Scrambled(seed);
    }

    method NextU64() returns (r: U64)
      modifies this
      ensures r == state == NextState(old(state))
    {
      state := NextState(state);
      return state;
    }

    method Index(n: nat) returns (i: nat)
      modifies this
      ensures n == 0 ==> i == 0 && state == old(state)
      ensures n != 0 ==> state == NextState(old(state)) && i == IndexFrom(state, n)
    {
      if n == 0 {
        return 0;
      }
      var r := NextU64();
      return r / 0x800 % n;
    }
  }

  // ------------------------------------------------------------------ specification

  /** The first `k` draws, with replacement, from one stratum. */
  function Drawn(stratum: seq<real>, state: U64, k: nat): seq<real>
    requires k <= |stratum|
  {
    if k == 0 then []
    else Drawn(stratum, state, k - 1) + [stratum[IndexFrom(StateAfter(state, k), |stratum|)]]
  }

  function Pooled(strata: seq<seq<real>>): seq<real>
    decreases |strata|
  {
    if strata == [] then [] else Pooled(strata[..|strata| - 1]) + strata[|strata| - 1]
  }

  /** One replicate: every stratum resampled to its own size, in order. */
  function Resampled(strata: seq<seq<real>>, state: U64): seq<real>
    decreases |strata|
  {
    if strata == [] then []
    else
      var before, last := strata[..|strata| - 1], strata[|strata| - 1];
      Resampled(before, state) + Drawn(last, StateAfter(state, |Pooled(before)|), |last|)
  }

  /** The interquartile means of the first `k` replicates. */
  function Replicates(strata: seq<seq<real>>, state: U64, k: nat): seq<real> {
    if k == 0 then []
    else Replicates(strata, state, k - 1) + [Iqm(Resampled(strata, StateAfterReplicates(strata, state, k - 1)))]
  }

  function StateAfterReplicates(strata: seq<seq<real>>, state: U64, k: nat): U64 {
    if k == 0 then state else StateAfter(StateAfterReplicates(strata, state, k - 1), |Pooled(strata)|)
  }

  datatype ConfidenceInterval = ConfidenceInterval(point: real, lo: real, hi: real)

  /** The interval drawn by a generator in the given state. */
  function IntervalFrom(strata: seq<seq<real>>, replicates: nat, state: U64): ConfidenceInterval {
    var point := Iqm(Pooled(strata));
    if Pooled(strata) == [] || replicates == 0 then ConfidenceInterval(point, point, point)
    else
      var sorted := Sorted(Replicates(strata, state, replicates));
      ConfidenceInterval(point, Percentile(sorted, 2.5), Percentile(sorted, 97.5))
  }

  function Interval(strata: seq<seq<real>>, replicates: nat, seed: U64): ConfidenceInterval {
    IntervalFrom(strata, replicates, Scrambled(seed))
  }

  lemma {:induction false} StateAfterMore(state: U64, draws: nat, more: nat)
    ensures StateAfter(StateAfter(state, draws), more) == StateAfter(state, draws + more)
  {
    if more != 0 {
      StateAfterMore(state, draws, more - 1);
    }
  }

  /** Draws one stratum in place of another generator state. */
  method DrawStratum(rng: Lcg, stratum: seq<real>) returns (values: seq<real>)
    modifies rng
    ensures values == Drawn(stratum, old(rng.state), |stratum|)
    ensures rng.state == StateAfter(old(rng.state), |stratum|)
  {
    values := [];
    for k := 0 to |stratum|
      invariant values == Drawn(stratum, old(rng.state), k)
      invariant rng.state == StateAfter(old(rng.state), k)
    {
      var i := rng.Index(|stratum|);
      values := values + [stratum[i]];
    }
  }

  method Resample(rng: Lcg, strata: seq<seq<real>>) returns (buffer: seq<real>)
    modifies rng
    ensures buffer == Resampled(strata, old(rng.state))
    ensures rng.state == StateAfter(old(rng.state), |Pooled(strata)|)
  {
    buffer := [];
    for j := 0 to |strata|
      invariant buffer == Resampled(strata[..j], old(rng.state))
      invariant rng.state == StateAfter(old(rng.state), |Pooled(strata[..j])|)
    {
      assert strata[..j + 1][..j] == strata[..j];
      ghost var drawn := |Pooled(strata[..j])|;
      StateAfterMore(old(rng.state), drawn, |strata[j]|);
      var values := DrawStratum(rng, strata[j]);
      buffer := buffer + values;
    }
    assert strata[..|strata|] == strata;
  }

  method StratifiedBootstrapCi(strata: seq<seq<real>>, replicates: nat, seed: U64) returns (ci: ConfidenceInterval)
    ensures ci == Interval(strata, replicates, seed)
  {
    var pooled := Pooled(strata);
    var point := Iqm(pooled);
    if pooled == [] || replicates == 0 {
      return ConfidenceInterval(point, point, point);
    }
    var rng := new Lcg(seed);
    var means := [];
    for k := 0 to replicates
      invariant means == Replicates(strata, Scrambled(seed), k)
      invariant rng.state == StateAfterReplicates(strata, Scrambled(seed), k)
    {
      var buffer := Resample(rng, strata);
      means := means + [Iqm(buffer)];
    }
    var sorted := Sorted(means);
    return ConfidenceInterval(point, Percentile(sorted, 2.5), Percentile(sorted, 97.5));
  }

  // ------------------------------------------------------------------ the interval

  predicate AllWithin(strata: seq<seq<real>>, low: real, high: real) {
    forall stratum | stratum in strata :: Within(stratum, low, high)
  }

  lemma {:induction false} DrawnWithin(stratum: seq<real>, state: U64, k: nat, low: real, high: real)
    requires k <= |stratum| && Within(stratum, low, high)
    ensures |Drawn(stratum, state, k)| == k && Within(Drawn(stratum, state, k), low, high)
  {
    if k != 0 {
      DrawnWithin(stratum, state, k - 1, low, high);
    }
  }

  /** Resampling keeps the pool's size and draws only values of the pool. */
  lemma {:induction false} ResampledWithin(strata: seq<seq<real>>, state: U64, low: real, high: real)
    requires AllWithin(strata, low, high)
    decreases |strata|
    ensures |Resampled(strata, state)| == |Pooled(strata)|
    ensures Within(Resampled(strata, state), low, high) && Within(Pooled(strata), low, high)
  {
    if strata != [] {
      var before, last := strata[..|strata| - 1], strata[|strata| - 1];
      ResampledWithin(before, state, low, high);
      DrawnWithin(last, StateAfter(state, |Pooled(before)|), |last|, low, high);
    }
  }

  lemma {:induction false} ReplicatesWithin(strata: seq<seq<real>>, state: U64, k: nat, low: real, high: real)
    requires AllWithin(strata, low, high) && Pooled(strata) != []
    ensures |Replicates(strata, state, k)| == k && Within(Replicates(strata, state, k), low, high)
  {
    if k != 0 {
      ReplicatesWithin(strata, state, k - 1, low, high);
      var at := StateAfterReplicates(strata, state, k - 1);
      ResampledWithin(strata, at, low, high);
      IqmWithin(Resampled(strata, at), low, high);
    }
  }

  lemma SortedWithin(s: seq<real>, low: real, high: real)
    requires Within(s, low, high)
    ensures |Sorted(s)| == |s| && Ordered(Sorted(s)) && Within(Sorted(s), low, high)
  {
    SortedShape(s);
    forall i | 0 <= i < |s|
      ensures low <= Sorted(s)[i] <= high
    {
      assert Sorted(s)[i] in multiset(s);
    }
  }

  /** The interval is the right way round and within any bounds of the samples, whatever the
      seed and however many replicates are drawn. */
  lemma IntervalWithin(strata: seq<seq<real>>, replicates: nat, seed: U64, low: real, high: real)
    requires AllWithin(strata, low, high) && Pooled(strata) != []
    ensures var ci := Interval(strata, replicates, seed);
            low <= ci.lo <= ci.hi <= high && low <= ci.point <= high
  {
    ResampledWithin(strata, Scrambled(seed), low, high);
    IqmWithin(Pooled(strata), low, high);
    if replicates != 0 {
      var means := Replicates(strata, Scrambled(seed), replicates);
      ReplicatesWithin(strata, Scrambled(seed), replicates, low, high);
      SortedWithin(means, low, high);
      PercentileMonotone(Sorted(means), 2.5, 97.5);
    }
  }
}
