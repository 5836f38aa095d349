/** When the bootstrap interval contains its point estimate (src/evals/stats.rs). */
module BootstrapPoint {
  import opened Foundation
  import opened RobustStats
  import opened Bootstrap

  // -------------------------------------------------------------- resampled pools

  /** As many values as the stratum has, each one of them. */
  predicate IsDraw(values: seq<real>, stratum: seq<real>) {
    |values| == |stratum| && forall i | 0 <= i < |values| :: values[i] in stratum
  }

  /** A pool that some draws from the strata give, in order. */
  predicate IsResample(pool: seq<real>, strata: seq<seq<real>>)
    decreases |strata|
  {
    if strata == [] then pool == []
    else
      var before, last := strata[..|strata| - 1], strata[|strata| - 1];
      && |last| <= |pool|
      && IsDraw(pool[|pool| - |last|..], last)
      && IsResample(pool[..|pool| - |last|], before)
  }

  lemma DrawnIsDraw(stratum: seq<real>, state: U64, k: nat)
    requires k <= |stratum|
    ensures |Drawn(stratum, state, k)| == k
    ensures forall i | 0 <= i < k :: Drawn(stratum, state, k)[i] in stratum
  {
    if k != 0 {
      DrawnIsDraw(stratum, state, k - 1);
    }
  }

  /** Appending a draw from one more stratum. */
  lemma AppendDraw(pool: seq<real>, values: seq<real>, strata: seq<seq<real>>)
    requires strata != [] && IsResample(pool, strata[..|strata| - 1]) && IsDraw(values, strata[|strata| - 1])
    ensures IsResample(pool + values, strata)
  {
    var last := strata[|strata| - 1];
    assert (pool + values)[|pool + values| - |last|..] == values;
    assert (pool + values)[..|pool + values| - |last|] == pool;
  }

  /** The generator draws such pools. */
  lemma {:induction false} ResampledIsResample(strata: seq<seq<real>>, state: U64)
    decreases |strata|
    ensures IsResample(Resampled(strata, state), strata)
  {
    if strata != [] {
      var before, last := strata[..|strata| - 1], strata[|strata| - 1];
      ResampledIsResample(before, state);
      DrawnIsDraw(last, StateAfter(state, |Pooled(before)|), |last|);
      AppendDraw(Resampled(before, state), Drawn(last, StateAfter(state, |Pooled(before)|), |last|), strata);
    }
  }

  // ------------------------------------------------------------ the extreme pools

  function Least(s: seq<real>): real
    decreases |s|
  {
    if s == [] then 0.0
    else if |s| == 1 then s[0]
    else MinReal(Least(s[..|s| - 1]), s[|s| - 1])
  }

  function Greatest(s: seq<real>): real
    decreases |s|
  {
    if s == [] then 0.0
    else if |s| == 1 then s[0]
    else MaxReal(Greatest(s[..|s| - 1]), s[|s| - 1])
  }

  lemma {:induction false} Extremes(s: seq<real>)
    requires s != []
    decreases |s|
    ensures Least(s) in s && Greatest(s) in s && Within(s, Least(s), Greatest(s))
  {
    if |s| != 1 {
      Extremes(s[..|s| - 1]);
    }
  }

  function Levelled(s: seq<real>, value: real): seq<real> {
    seq(|s|, _ => value)
  }

  /** The pool of the strata with every sample at the least, or the greatest, of its stratum. */
  function Lowest(strata: seq<seq<real>>): seq<real>
    decreases |strata|
  {
    if strata == [] then []
    else Lowest(strata[..|strata| - 1]) + Levelled(strata[|strata| - 1], Least(strata[|strata| - 1]))
  }

  function Highest(strata: seq<seq<real>>): seq<real>
    decreases |strata|
  {
    if strata == [] then []
    else Highest(strata[..|strata| - 1]) + Levelled(strata[|strata| - 1], Greatest(strata[|strata| - 1]))
  }

  lemma LevelledIsDraw(s: seq<real>)
    ensures IsDraw(Levelled(s, Least(s)), s) && IsDraw(Levelled(s, Greatest(s)), s) && IsDraw(s, s)
  {
    if s != [] {
      Extremes(s);
    }
  }

  /** The extreme pools and the pool itself are among the resamples. */
  lemma {:induction false} ExtremePoolsAreResamples(strata: seq<seq<real>>)
    decreases |strata|
    ensures IsResample(Lowest(strata), strata) && IsResample(Highest(strata), strata)
    ensures IsResample(Pooled(strata), strata)
  {
    if strata != [] {
      var before, last := strata[..|strata| - 1], strata[|strata| - 1];
      ExtremePoolsAreResamples(before);
      LevelledIsDraw(last);
      AppendDraw(Lowest(before), Levelled(last, Least(last)), strata);
      AppendDraw(Highest(before), Levelled(last, Greatest(last)), strata);
      AppendDraw(Pooled(before), last, strata);
    }
  }

  lemma DrawBetween(values: seq<real>, s: seq<real>)
    requires IsDraw(values, s)
    ensures Pointwise(Levelled(s, Least(s)), values) && Pointwise(values, Levelled(s, Greatest(s)))
  {
    if s != [] {
      Extremes(s);
    }
  }

  lemma PointwiseConcat(a: seq<real>, b: seq<real>, c: seq<real>, d: seq<real>)
    requires Pointwise(a, b) && Pointwise(c, d)
    ensures Pointwise(a + c, b + d)
  {
  }

  /** Every resample lies, sample for sample, between the extreme pools. */
  lemma {:induction false} ResampleBetween(pool: seq<real>, strata: seq<seq<real>>)
    requires IsResample(pool, strata)
    decreases |strata|
    ensures Pointwise(Lowest(strata), pool) && Pointwise(pool, Highest(strata))
  {
    if strata != [] {
      var before, last := strata[..|strata| - 1], strata[|strata| - 1];
      var head, tail := pool[..|pool| - |last|], pool[|pool| - |last|..];
      ResampleBetween(head, before);
      DrawBetween(tail, last);
      PointwiseConcat(Lowest(before), head, Levelled(last, Least(last)), tail);
      PointwiseConcat(head, Highest(before), tail, Levelled(last, Greatest(last)));
      assert pool == head + tail;
    }
  }

  // -------------------------------------------------------------- the interval

  function Means(pools: seq<seq<real>>): seq<real> {
    if pools == [] then [] else Means(pools[..|pools| - 1]) + [Iqm(pools[|pools| - 1])]
  }

  /** The interval that these replicates give. */
  function IntervalOf(strata: seq<seq<real>>, pools: seq<seq<real>>): ConfidenceInterval {
    var point := Iqm(Pooled(strata));
    if Pooled(strata) == [] || pools == [] then ConfidenceInterval(point, point, point)
    else
      var sorted := Sorted(Means(pools));
      ConfidenceInterval(point, Percentile(sorted, 2.5), Percentile(sorted, 97.5))
  }

  function DrawnPools(strata: seq<seq<real>>, state: U64, k: nat): seq<seq<real>> {
    if k == 0 then []
    else DrawnPools(strata, state, k - 1) + [Resampled(strata, StateAfterReplicates(strata, state, k - 1))]
  }

  predicate AllResamples(pools: seq<seq<real>>, strata: seq<seq<real>>) {
    forall i | 0 <= i < |pools| :: IsResample(pools[i], strata)
  }

  lemma MeansOfMore(pools: seq<seq<real>>, pool: seq<real>, more: seq<seq<real>>)
    requires more == pools + [pool]
    ensures Means(more) == Means(pools) + [Iqm(pool)]
  {
    assert more[..|pools|] == pools;
  }

  lemma {:induction false} DrawnAreResamples(strata: seq<seq<real>>, state: U64, k: nat)
    ensures |DrawnPools(strata, state, k)| == k && AllResamples(DrawnPools(strata, state, k), strata)
  {
    if k != 0 {
      DrawnAreResamples(strata, state, k - 1);
      ResampledIsResample(strata, StateAfterReplicates(strata, state, k - 1));
    }
  }

  /** The generator's replicates are the means of the pools it draws. */
  lemma {:induction false} DrawnMeans(strata: seq<seq<real>>, state: U64, k: nat)
    ensures Means(DrawnPools(strata, state, k)) == Replicates(strata, state, k)
  {
    if k != 0 {
      DrawnMeans(strata, state, k - 1);
      var pool := Resampled(strata, StateAfterReplicates(strata, state, k - 1));
      MeansOfMore(DrawnPools(strata, state, k - 1), pool, DrawnPools(strata, state, k));
    }
  }

  lemma IntervalIsDrawn(strata: seq<seq<real>>, replicates: nat, state: U64)
    ensures AllResamples(DrawnPools(strata, state, replicates), strata)
    ensures IntervalFrom(strata, replicates, state) == IntervalOf(strata, DrawnPools(strata, state, replicates))
  {
    DrawnAreResamples(strata, state, replicates);
    DrawnMeans(strata, state, replicates);
  }

  predicate Contains(ci: ConfidenceInterval) {
    ci.lo <= ci.point <= ci.hi
  }

  /** No resampling within the strata moves the interquartile mean: it is the same with every
      sample at the least and at the greatest value of its stratum. */
  predicate Settled(strata: seq<seq<real>>) {
    Iqm(Lowest(strata)) == Iqm(Highest(strata))
  }

  lemma ResampleMean(pool: seq<real>, strata: seq<seq<real>>)
    requires IsResample(pool, strata)
    ensures Iqm(Lowest(strata)) <= Iqm(pool) <= Iqm(Highest(strata))
  {
    ResampleBetween(pool, strata);
    IqmMonotone(Lowest(strata), pool);
    IqmMonotone(pool, Highest(strata));
  }

  lemma {:induction false} SettledMeans(strata: seq<seq<real>>, pools: seq<seq<real>>, v: real)
    requires Iqm(Lowest(strata)) == v == Iqm(Highest(strata)) && AllResamples(pools, strata)
    decreases |pools|
    ensures |Means(pools)| == |pools| && Within(Means(pools), v, v)
  {
    if pools != [] {
      SettledMeans(strata, pools[..|pools| - 1], v);
      ResampleMean(pools[|pools| - 1], strata);
    }
  }

  /** For settled strata the interval is the point, whatever is drawn. */
  lemma SettledInterval(strata: seq<seq<real>>, pools: seq<seq<real>>)
    requires Settled(strata) && AllResamples(pools, strata)
    ensures var ci := IntervalOf(strata, pools); ci.lo == ci.point == ci.hi
  {
    ExtremePoolsAreResamples(strata);
    ResampleMean(Pooled(strata), strata);
    var v := Iqm(Lowest(strata));
    SettledMeans(strata, pools, v);
    if pools != [] {
      SortedWithin(Means(pools), v, v);
      PercentileMonotone(Sorted(Means(pools)), 2.5, 97.5);
    }
  }

  lemma OneReplicate(strata: seq<seq<real>>, pool: seq<real>)
    requires Pooled(strata) != []
    ensures IntervalOf(strata, [pool]) == ConfidenceInterval(Iqm(Pooled(strata)), Iqm(pool), Iqm(pool))
  {
    assert [pool][..0] == [] && Means([]) == [];
    assert Means([pool]) == [Iqm(pool)];
    assert [Iqm(pool)][..0] == [] && Sorted([]) == [];
    assert Sorted([Iqm(pool)]) == [Iqm(pool)];
  }

  /** Whatever the draws, the interval of `n` replicates contains its point. */
  ghost predicate AlwaysContains(strata: seq<seq<real>>, n: nat) {
    forall pools: seq<seq<real>> | |pools| == n && AllResamples(pools, strata) :: Contains(IntervalOf(strata, pools))
  }

  /** For any number of replicates, the interval contains its point for all draws exactly when
      the strata are settled. */
  lemma ContainsExactly(strata: seq<seq<real>>, n: nat)
    ensures AlwaysContains(strata, n) <==> n == 0 || Settled(strata)
  {
    if Settled(strata) {
      forall pools: seq<seq<real>> | |pools| == n && AllResamples(pools, strata)
        ensures Contains(IntervalOf(strata, pools))
      {
        SettledInterval(strata, pools);
      }
    }
    if n != 0 && AlwaysContains(strata, n) {
      ExtremesContained(strata, n);
    }
  }

  function Copies(pool: seq<real>, n: nat): seq<seq<real>> {
    if n == 0 then [] else Copies(pool, n - 1) + [pool]
  }

  lemma WithinOneMore(means: seq<real>, v: real, more: seq<real>)
    requires Within(means, v, v) && more == means + [v]
    ensures Within(more, v, v) && |more| == |means| + 1
  {
  }

  lemma {:induction false} CopiesAreResamples(strata: seq<seq<real>>, pool: seq<real>, n: nat)
    requires IsResample(pool, strata)
    ensures |Copies(pool, n)| == n && AllResamples(Copies(pool, n), strata)
  {
    if n != 0 {
      CopiesAreResamples(strata, pool, n - 1);
    }
  }

  lemma {:induction false} CopiesMeans(pool: seq<real>, n: nat, v: real)
    requires v == Iqm(pool)
    ensures |Means(Copies(pool, n))| == n && Within(Means(Copies(pool, n)), v, v)
  {
    if n != 0 {
      CopiesMeans(pool, n - 1, v);
      MeansOfMore(Copies(pool, n - 1), pool, Copies(pool, n));
      WithinOneMore(Means(Copies(pool, n - 1)), v, Means(Copies(pool, n)));
    }
  }

  /** If every replicate draws the same pool, the interval is the mean of that pool. */
  lemma CopiesInterval(strata: seq<seq<real>>, pool: seq<real>, n: nat)
    requires IsResample(pool, strata) && Pooled(strata) != [] && n != 0
    ensures IntervalOf(strata, Copies(pool, n)) == ConfidenceInterval(Iqm(Pooled(strata)), Iqm(pool), Iqm(pool))
  {
    CopiesAreResamples(strata, pool, n);
    CopiesMeans(pool, n, Iqm(pool));
    SortedWithin(Means(Copies(pool, n)), Iqm(pool), Iqm(pool));
    PercentileMonotone(Sorted(Means(Copies(pool, n))), 2.5, 97.5);
  }

  lemma ContainedMean(strata: seq<seq<real>>, pool: seq<real>, n: nat)
    requires AlwaysContains(strata, n) && IsResample(pool, strata) && Pooled(strata) != [] && n != 0
    ensures Iqm(pool) == Iqm(Pooled(strata))
  {
    CopiesAreResamples(strata, pool, n);
    CopiesInterval(strata, pool, n);
    assert Contains(IntervalOf(strata, Copies(pool, n)));
  }

  lemma ExtremesContained(strata: seq<seq<real>>, n: nat)
    requires AlwaysContains(strata, n) && n != 0
    ensures Settled(strata)
  {
    ExtremePoolsAreResamples(strata);
    ResampleBetween(Pooled(strata), strata);
    if Pooled(strata) == [] {
      assert Lowest(strata) == [] == Highest(strata);
    } else {
      ContainedMean(strata, Lowest(strata), n);
      ContainedMean(strata, Highest(strata), n);
    }
  }

  /** So with the generator of the source: for settled strata, every seed and every number of
      replicates give an interval that is the point. */
  lemma SettledForEverySeed(strata: seq<seq<real>>, replicates: nat, seed: U64)
    requires Settled(strata)
    ensures var ci := Interval(strata, replicates, seed); ci.lo == ci.point == ci.hi
  {
    IntervalIsDrawn(strata, replicates, Scrambled(seed));
    SettledInterval(strata, DrawnPools(strata, Scrambled(seed), replicates));
  }

  predicate Constant(s: seq<real>) {
    forall i | 0 <= i < |s| :: s[i] == s[0]
  }

  /** Constant strata, among them single samples, are settled. */
  lemma {:induction false} ConstantIsSettled(strata: seq<seq<real>>)
    requires forall stratum | stratum in strata :: Constant(stratum)
    decreases |strata|
    ensures Lowest(strata) == Highest(strata) == Pooled(strata)
  {
    if strata != [] {
      var last := strata[|strata| - 1];
      ConstantIsSettled(strata[..|strata| - 1]);
      assert Constant(last);
      if last != [] {
        Extremes(last);
      }
      assert Levelled(last, Least(last)) == last == Levelled(last, Greatest(last));
    }
  }

  // ---------------------------------------------------------- two samples, one replicate

  /** A seed from which both draws of a pair take the second sample. */
  const UNLUCKY: U64 := 0x9E37_79B9_7F4A_7C17

  lemma UnluckySeed()
    ensures Scrambled(UNLUCKY) == 2
  {
    assert 0x9E37_79B9_7F4A_7C17 as bv64 ^ 0x9E37_79B9_7F4A_7C15 == 2;
  }

  lemma UnluckySteps()
    ensures IndexFrom(NextState(2), 2) == 1 && IndexFrom(NextState(NextState(2)), 2) == 1
  {
    assert NextState(2) == 14170967488582549417;
    assert NextState(14170967488582549417) == 16917806452429146372;
  }

  lemma TwoSamples(a: real, b: real)
    ensures Iqm([a, b]) == (a + b) / 2.0
  {
    assert [a, b][..1] == [a] && [a][..0] == [];
    assert Sum([a, b]) == Sum([a]) + b && Sum([a]) == a;
  }

  lemma OneStratum(s: seq<real>, state: U64)
    ensures Pooled([s]) == s
    ensures Resampled([s], state) == Drawn(s, state, |s|)
  {
    assert [s][..0] == [] && Pooled([]) == [];
    assert StateAfter(state, 0) == state;
  }

  /** A state whose next two indices are both 1 draws the second sample twice. */
  lemma SecondTwice(s: seq<real>, state: U64)
    requires |s| == 2
    requires IndexFrom(NextState(state), 2) == 1 && IndexFrom(NextState(NextState(state)), 2) == 1
    ensures Drawn(s, state, 2) == [s[1], s[1]]
  {
    assert StateAfter(state, 0) == state;
    assert StateAfter(state, 1) == NextState(state);
    assert Drawn(s, state, 0) == [];
    assert Drawn(s, state, 1) == [s[1]];
  }

  lemma OneDrawnPool(strata: seq<seq<real>>, state: U64)
    ensures IntervalFrom(strata, 1, state) == IntervalOf(strata, [Resampled(strata, state)])
  {
    IntervalIsDrawn(strata, 1, state);
    assert DrawnPools(strata, state, 0) == [] && StateAfterReplicates(strata, state, 0) == state;
    assert DrawnPools(strata, state, 1) == [Resampled(strata, state)];
  }

  lemma PairInterval(a: real, b: real)
    ensures IntervalOf([[a, b]], [[b, b]]) == ConfidenceInterval((a + b) / 2.0, b, b)
  {
    OneStratum([a, b], 0);
    OneReplicate([[a, b]], [b, b]);
    TwoSamples(a, b);
    TwoSamples(b, b);
  }

  lemma PairMissedFrom(a: real, b: real, state: U64)
    requires a != b && Resampled([[a, b]], state) == [b, b]
    ensures !Contains(IntervalFrom([[a, b]], 1, state))
  {
    OneDrawnPool([[a, b]], state);
    PairInterval(a, b);
  }

  lemma UnluckyDraws(s: seq<real>, state: U64)
    requires |s| == 2 && state == 2
    ensures Resampled([s], state) == [s[1], s[1]]
  {
    UnluckySteps();
    SecondTwice(s, state);
    OneStratum(s, state);
  }

  lemma PairMissed(a: real, b: real)
    requires a != b
    ensures !Contains(Interval([[a, b]], 1, UNLUCKY))
  {
    UnluckySeed();
    UnluckyDraws([a, b], Scrambled(UNLUCKY));
    PairMissedFrom(a, b, Scrambled(UNLUCKY));
  }

  lemma EqualPairContained(a: real, seed: U64)
    ensures Contains(Interval([[a, a]], 1, seed))
  {
    ConstantIsSettled([[a, a]]);
    SettledForEverySeed([[a, a]], 1, seed);
  }

  /** With the generator of the source, two samples and one replicate: the point lies in the
      interval for every seed exactly when the samples are equal. */
  lemma PairContainsExactly(a: real, b: real)
    ensures (forall seed: U64 :: Contains(Interval([[a, b]], 1, seed))) <==> a == b
  {
    if a == b {
      forall seed: U64
        ensures Contains(Interval([[a, b]], 1, seed))
      {
        EqualPairContained(a, seed);
      }
    } else {
      PairMissed(a, b);
    }
  }
}
