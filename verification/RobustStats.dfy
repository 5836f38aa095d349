/** Robust statistics of the evaluation harness (src/evals/stats.rs), over reals. */
module RobustStats {
  import opened Foundation

  function Sum(s: seq<real>): real
    decreases |s|
  {
    if s == [] then 0.0 else Sum(s[..|s| - 1]) + s[|s| - 1]
  }

  /** The arithmetic mean, and zero for no samples. */
  function Mean(s: seq<real>): real {
    if s == [] then 0.0 else Sum(s) / |s| as real
  }

  ghost predicate Ordered(s: seq<real>) {
    forall i, j | 0 <= i <= j < |s| :: s[i] <= s[j]
  }

  predicate Within(s: seq<real>, low: real, high: real) {
    forall i | 0 <= i < |s| :: low <= s[i] <= high
  }

  function Insert(x: real, s: seq<real>): seq<real>
    decreases |s|
  {
    if s == [] || s[|s| - 1] <= x then s + [x] else Insert(x, s[..|s| - 1]) + [s[|s| - 1]]
  }

  function Sorted(s: seq<real>): seq<real>
    decreases |s|
  {
    if s == [] then [] else Insert(s[|s| - 1], Sorted(s[..|s| - 1]))
  }

  /** The mean of the middle half; the plain mean of fewer than four samples. */
  function Iqm(samples: seq<real>): real {
    if |samples| < 4 then Mean(samples)
    else
      SortedShape(samples);
      var sorted, n := Sorted(samples), |samples|;
      var lo := n / 4;
      var mid := sorted[lo..n - lo];
      if mid == [] then Mean(sorted) else Mean(mid)
  }

  // --------------------------------------------------------------------- sorting

  lemma {:induction false} InsertShape(x: real, s: seq<real>)
    requires Ordered(s)
    decreases |s|
    ensures |Insert(x, s)| == |s| + 1 && Ordered(Insert(x, s))
    ensures multiset(Insert(x, s)) == multiset(s) + multiset{x}
    ensures forall y | y in Insert(x, s) :: y == x || y in s
  {
    if s != [] && x < s[|s| - 1] {
      var before, last := s[..|s| - 1], s[|s| - 1];
      InsertShape(x, before);
      assert s == before + [last];
      forall y | y in Insert(x, before)
        ensures y <= last
      {
      }
      OrderedThenLast(Insert(x, before), last);
    } else {
      OrderedThenLast(s, x);
    }
  }

  lemma OrderedThenLast(s: seq<real>, last: real)
    requires Ordered(s) && forall y | y in s :: y <= last
    ensures Ordered(s + [last])
  {
    forall i, j | 0 <= i <= j < |s| + 1
      ensures (s + [last])[i] <= (s + [last])[j]
    {
      if i < |s| {
        assert s[i] in s;
      }
    }
  }

  /** Sorting orders the samples and keeps every one of them. */
  lemma {:induction false} SortedShape(s: seq<real>)
    decreases |s|
    ensures |Sorted(s)| == |s| && Ordered(Sorted(s)) && multiset(Sorted(s)) == multiset(s)
  {
    if s != [] {
      SortedShape(s[..|s| - 1]);
      InsertShape(s[|s| - 1], Sorted(s[..|s| - 1]));
      assert s == s[..|s| - 1] + [s[|s| - 1]];
    }
  }

  // -------------------------------------------------------------------- counting

  function Count(s: seq<real>, bad: real -> bool): nat
    decreases |s|
  {
    if s == [] then 0 else Count(s[..|s| - 1], bad) + (if bad(s[|s| - 1]) then 1 else 0)
  }

  lemma {:induction false} CountOfConcat(s: seq<real>, t: seq<real>, bad: real -> bool)
    decreases |t|
    ensures Count(s + t, bad) == Count(s, bad) + Count(t, bad)
  {
    if t == [] {
      assert s + t == s;
    } else {
      assert (s + t)[..|s + t| - 1] == s + t[..|t| - 1];
      CountOfConcat(s, t[..|t| - 1], bad);
    }
  }

  lemma {:induction false} CountOfInsert(x: real, s: seq<real>, bad: real -> bool)
    decreases |s|
    ensures Count(Insert(x, s), bad) == Count(s, bad) + (if bad(x) then 1 else 0)
  {
    if s == [] || s[|s| - 1] <= x {
      assert (s + [x])[..|s|] == s;
    } else {
      var before, last := s[..|s| - 1], s[|s| - 1];
      CountOfInsert(x, before, bad);
      var inserted := Insert(x, before);
      assert (inserted + [last])[..|inserted|] == inserted;
    }
  }

  lemma {:induction false} CountOfSorted(s: seq<real>, bad: real -> bool)
    decreases |s|
    ensures Count(Sorted(s), bad) == Count(s, bad)
  {
    if s != [] {
      CountOfSorted(s[..|s| - 1], bad);
      CountOfInsert(s[|s| - 1], Sorted(s[..|s| - 1]), bad);
    }
  }

  lemma {:induction false} AllBad(s: seq<real>, bad: real -> bool)
    requires forall i | 0 <= i < |s| :: bad(s[i])
    decreases |s|
    ensures Count(s, bad) == |s|
  {
    if s != [] {
      AllBad(s[..|s| - 1], bad);
    }
  }

  /** A stretch of bad samples is counted in full. */
  lemma StretchCounted(s: seq<real>, i: nat, j: nat, bad: real -> bool)
    requires i <= j <= |s| && forall k | i <= k < j :: bad(s[k])
    ensures j - i <= Count(s, bad)
  {
    assert s == s[..i] + (s[i..j] + s[j..]);
    CountOfConcat(s[..i], s[i..j] + s[j..], bad);
    CountOfConcat(s[i..j], s[j..], bad);
    AllBad(s[i..j], bad);
  }

  /** Only touched samples can be bad. */
  lemma {:induction false} BadAreTouched(s: seq<real>, touched: set<nat>, bad: real -> bool)
    requires forall i | 0 <= i < |s| && i !in touched :: !bad(s[i])
    decreases |s|
    ensures Count(s, bad) <= |touched|
  {
    if s != [] {
      var n := |s| - 1;
      BadAreTouched(s[..n], touched - {n}, bad);
      if n !in touched {
        assert touched - {n} == touched;
      }
    }
  }

  // ------------------------------------------------------------------- the trimmed mean

  lemma {:induction false} SumWithin(s: seq<real>, low: real, high: real)
    requires Within(s, low, high)
    decreases |s|
    ensures Times(|s| as real, low) <= Sum(s) <= Times(|s| as real, high)
  {
    if s != [] {
      var n := |s| - 1;
      SumWithin(s[..n], low, high);
      TimesOneMore(n, low);
      TimesOneMore(n, high);
    } else {
      TimesZero(low);
      TimesZero(high);
    }
  }

  lemma TimesOneMore(n: nat, x: real)
    ensures Times((n + 1) as real, x) == Times(n as real, x) + x
  {
  }

  lemma TimesZero(x: real)
    ensures Times(0.0, x) == 0.0
  {
  }

  lemma QuotientWithin(sum: real, n: real, low: real, high: real)
    requires 0.0 < n && Times(n, low) <= sum <= Times(n, high)
    ensures low <= sum / n <= high
  {
    var q := sum / n;
    assert q * n == sum;
    if q < low {
      TimesStrict(q, low, n);
    }
    if high < q {
      TimesStrict(high, q, n);
    }
  }

  lemma MeanWithin(s: seq<real>, low: real, high: real)
    requires s != [] && Within(s, low, high)
    ensures low <= Mean(s) <= high
  {
    SumWithin(s, low, high);
    QuotientWithin(Sum(s), |s| as real, low, high);
  }

  /** A stretch of the ordered samples longer than the touched ones holds a good sample. */
  lemma StretchHasGood(t: seq<real>, touched: set<nat>, bad: real -> bool, i: nat, j: nat) returns (k: nat)
    requires i <= j <= |t| && |touched| < j - i
    requires forall m | 0 <= m < |t| && m !in touched :: !bad(t[m])
    ensures |Sorted(t)| == |t| && i <= k < j && !bad(Sorted(t)[k])
  {
    SortedShape(t);
    CountOfSorted(t, bad);
    BadAreTouched(t, touched, bad);
    if forall m | i <= m < j :: bad(Sorted(t)[m]) {
      StretchCounted(Sorted(t), i, j, bad);
    }
    k :| i <= k < j && !bad(Sorted(t)[k]);
  }

  lemma NotBelow(t: seq<real>, touched: set<nat>, low: real, i: nat)
    requires |touched| <= i < |t|
    requires forall m | 0 <= m < |t| && m !in touched :: low <= t[m]
    ensures |Sorted(t)| == |t| && low <= Sorted(t)[i]
  {
    SortedShape(t);
    var k := StretchHasGood(t, touched, x => x < low, 0, i + 1);
  }

  lemma NotAbove(t: seq<real>, touched: set<nat>, high: real, i: nat)
    requires |touched| < |t| - i && i < |t|
    requires forall m | 0 <= m < |t| && m !in touched :: t[m] <= high
    ensures |Sorted(t)| == |t| && Sorted(t)[i] <= high
  {
    SortedShape(t);
    var k := StretchHasGood(t, touched, x => high < x, i, |t|);
  }

  /** With at most a quarter of the samples outside the bounds, the middle half is inside. */
  lemma MiddleWithin(t: seq<real>, touched: set<nat>, low: real, high: real)
    requires 4 <= |t| && |touched| <= |t| / 4
    requires forall i | 0 <= i < |t| && i !in touched :: low <= t[i] <= high
    ensures |Sorted(t)| == |t| && Within(Sorted(t)[|t| / 4..|t| - |t| / 4], low, high)
  {
    SortedShape(t);
    forall i | |t| / 4 <= i < |t| - |t| / 4
      ensures low <= Sorted(t)[i] <= high
    {
      NotBelow(t, touched, low, i);
      NotAbove(t, touched, high, i);
    }
  }

  /** Replacing a quarter of the samples or fewer, by anything, keeps the interquartile mean
      within any bounds of the samples left untouched. */
  lemma IqmRobust(s: seq<real>, t: seq<real>, touched: set<nat>, low: real, high: real)
    requires 4 <= |s| == |t| && |touched| <= |s| / 4
    requires forall i | 0 <= i < |s| && i !in touched :: t[i] == s[i] && low <= s[i] <= high
    ensures low <= Iqm(t) <= high
  {
    MiddleWithin(t, touched, low, high);
    MeanWithin(Sorted(t)[|t| / 4..|t| - |t| / 4], low, high);
  }

  lemma IqmWithin(s: seq<real>, low: real, high: real)
    requires s != [] && Within(s, low, high)
    ensures low <= Iqm(s) <= high
  {
    if |s| < 4 {
      MeanWithin(s, low, high);
    } else {
      IqmRobust(s, s, {}, low, high);
    }
  }

  // -------------------------------------------------------------- the breakdown point

  function Overwritten(s: seq<real>, k: nat, value: real): seq<real>
    requires k <= |s|
  {
    seq(|s|, i requires 0 <= i < |s| => if i < k then value else s[i])
  }

  lemma LeastOf(s: seq<real>) returns (low: real)
    requires s != []
    ensures forall i | 0 <= i < |s| :: low <= s[i]
  {
    SortedShape(s);
    low := Sorted(s)[0];
    forall i | 0 <= i < |s|
      ensures low <= s[i]
    {
      assert s[i] in multiset(Sorted(s));
    }
  }

  lemma SortedMembers(s: seq<real>, low: real)
    requires forall i | 0 <= i < |s| :: low <= s[i]
    ensures |Sorted(s)| == |s| && forall i | 0 <= i < |s| :: low <= Sorted(s)[i]
  {
    SortedShape(s);
    forall i | 0 <= i < |s|
      ensures low <= Sorted(s)[i]
    {
      assert Sorted(s)[i] in multiset(s);
    }
  }

  /** The last of the middle half is among the `|t| / 4 + 1` largest. */
  lemma LastOfMiddle(t: seq<real>, value: real)
    requires 4 <= |t| && forall i | 0 <= i <= |t| / 4 :: value <= t[i]
    ensures |Sorted(t)| == |t| && value <= Sorted(t)[|t| - |t| / 4 - 1]
  {
    SortedShape(t);
    var sorted, k, n := Sorted(t), |t| / 4, |t|;
    CountOfSorted(t, x => value <= x);
    StretchCounted(t, 0, k + 1, x => value <= x);
    if sorted[n - k - 1] < value {
      GoodPrefix(sorted, n - k, x => value <= x);
    }
  }

  lemma GoodPrefix(s: seq<real>, j: nat, bad: real -> bool)
    requires j <= |s| && forall i | 0 <= i < j :: !bad(s[i])
    ensures Count(s, bad) <= |s| - j
  {
    assert s == s[..j] + s[j..];
    CountOfConcat(s[..j], s[j..], bad);
    NoneBad(s[..j], bad);
    CountAtMost(s[j..], bad);
  }

  lemma {:induction false} NoneBad(s: seq<real>, bad: real -> bool)
    requires forall i | 0 <= i < |s| :: !bad(s[i])
    decreases |s|
    ensures Count(s, bad) == 0
  {
    if s != [] {
      NoneBad(s[..|s| - 1], bad);
    }
  }

  lemma {:induction false} CountAtMost(s: seq<real>, bad: real -> bool)
    decreases |s|
    ensures Count(s, bad) <= |s|
  {
    if s != [] {
      CountAtMost(s[..|s| - 1], bad);
    }
  }

  lemma {:induction false} SumAtLeast(s: seq<real>, low: real)
    requires forall i | 0 <= i < |s| :: low <= s[i]
    decreases |s|
    ensures Times(|s| as real, low) <= Sum(s)
  {
    if s != [] {
      SumAtLeast(s[..|s| - 1], low);
      TimesOneMore(|s| - 1, low);
    } else {
      TimesZero(low);
    }
  }

  lemma QuotientAbove(sum: real, n: real, bound: real)
    requires 0.0 < n && Times(n, bound) < sum
    ensures bound < sum / n
  {
    var q := sum / n;
    assert q * n == sum && Times(n, q) == sum;
    if q <= bound {
      TimesMonotone(q, bound, n);
    }
  }

  lemma MeanAbove(s: seq<real>, low: real, bound: real)
    requires s != [] && forall i | 0 <= i < |s| :: low <= s[i]
    requires Times(|s| as real, bound) - Times((|s| - 1) as real, low) < s[|s| - 1]
    ensures bound < Mean(s)
  {
    SumAtLeast(s[..|s| - 1], low);
    QuotientAbove(Sum(s), |s| as real, bound);
  }

  /** One sample more than a quarter is enough to carry the interquartile mean past any bound. */
  lemma IqmBreaks(s: seq<real>, bound: real) returns (t: seq<real>, touched: set<nat>)
    requires 4 <= |s|
    ensures |t| == |s| && |touched| == |s| / 4 + 1
    ensures forall i | 0 <= i < |s| && i !in touched :: t[i] == s[i]
    ensures bound < Iqm(t)
  {
    var low := LeastOf(s);
    var n, k := |s|, |s| / 4;
    var m := n - 2 * k;
    var value := MaxReal(low, Times(m as real, bound) - Times((m - 1) as real, low) + 1.0);
    t := Overwritten(s, k + 1, value);
    touched := Below(k + 1);
    LastOfMiddle(t, value);
    SortedMembers(t, low);
    MeanAbove(Sorted(t)[k..n - k], low, bound);
  }

  // --------------------------------------------------------------------- monotonicity

  predicate Pointwise(s: seq<real>, t: seq<real>) {
    |s| == |t| && forall i | 0 <= i < |s| :: s[i] <= t[i]
  }

  lemma {:induction false} CountPointwise(s: seq<real>, t: seq<real>, v: real)
    requires Pointwise(s, t)
    decreases |s|
    ensures Count(t, x => x <= v) <= Count(s, x => x <= v)
  {
    if s != [] {
      CountPointwise(s[..|s| - 1], t[..|s| - 1], v);
    }
  }

  lemma GoodSuffix(s: seq<real>, j: nat, bad: real -> bool)
    requires j <= |s| && forall i | j <= i < |s| :: !bad(s[i])
    ensures Count(s, bad) <= j
  {
    assert s == s[..j] + s[j..];
    CountOfConcat(s[..j], s[j..], bad);
    NoneBad(s[j..], bad);
    CountAtMost(s[..j], bad);
  }

  lemma RankPointwise(s: seq<real>, t: seq<real>, k: nat)
    requires Pointwise(s, t) && k < |s|
    ensures |Sorted(s)| == |Sorted(t)| == |s| && Sorted(s)[k] <= Sorted(t)[k]
  {
    SortedShape(s);
    SortedShape(t);
    var v := Sorted(t)[k];
    if v < Sorted(s)[k] {
      CountOfSorted(s, x => x <= v);
      CountOfSorted(t, x => x <= v);
      StretchCounted(Sorted(t), 0, k + 1, x => x <= v);
      CountPointwise(s, t, v);
      GoodSuffix(Sorted(s), k, x => x <= v);
    }
  }

  lemma {:induction false} SumPointwise(s: seq<real>, t: seq<real>)
    requires Pointwise(s, t)
    decreases |s|
    ensures Sum(s) <= Sum(t)
  {
    if s != [] {
      SumPointwise(s[..|s| - 1], t[..|s| - 1]);
    }
  }

  lemma MeanPointwise(s: seq<real>, t: seq<real>)
    requires Pointwise(s, t)
    ensures Mean(s) <= Mean(t)
  {
    if s != [] {
      SumPointwise(s, t);
      QuotientMonotone(Sum(s), Sum(t), |s| as real);
    }
  }

  lemma SlicePointwise(u: seq<real>, v: seq<real>, lo: nat, hi: nat)
    requires |u| == |v| && lo <= hi <= |u| && forall k | lo <= k < hi :: u[k] <= v[k]
    ensures Pointwise(u[lo..hi], v[lo..hi])
  {
  }

  lemma SortedSize(s: seq<real>)
    ensures |Sorted(s)| == |s|
  {
    SortedShape(s);
  }

  lemma MiddlePointwise(s: seq<real>, t: seq<real>, lo: nat, hi: nat)
    requires Pointwise(s, t) && lo <= hi <= |s|
    ensures |Sorted(s)| == |Sorted(t)| == |s| && Pointwise(Sorted(s)[lo..hi], Sorted(t)[lo..hi])
  {
    SortedSize(s);
    SortedSize(t);
    forall k | lo <= k < hi
      ensures Sorted(s)[k] <= Sorted(t)[k]
    {
      RankPointwise(s, t, k);
    }
    SlicePointwise(Sorted(s), Sorted(t), lo, hi);
  }

  /** Raising samples never lowers the interquartile mean. */
  lemma IqmMonotone(s: seq<real>, t: seq<real>)
    requires Pointwise(s, t)
    ensures Iqm(s) <= Iqm(t)
  {
    if |s| < 4 {
      MeanPointwise(s, t);
    } else {
      var lo, hi := |s| / 4, |s| - |s| / 4;
      MiddlePointwise(s, t, lo, hi);
      MeanPointwise(Sorted(s)[lo..hi], Sorted(t)[lo..hi]);
    }
  }

  // ------------------------------------------------------------------- percentiles

  function Rank(n: nat, p: real): real {
    Times(p / 100.0, n as real - 1.0)
  }

  /** Linear interpolation between the two samples around a rank. */
  function AtRank(sorted: seq<real>, rank: real): real
    requires 0.0 <= rank <= |sorted| as real - 1.0
  {
    var lo, hi := rank.Floor, Ceil(rank);
    if lo == hi then sorted[lo]
    else
      var frac := rank - lo as real;
      Times(sorted[lo], 1.0 - frac) + Times(sorted[hi], frac)
  }

  lemma RankInRange(n: nat, p: real)
    requires 1 <= n && 0.0 <= p <= 100.0
    ensures 0.0 <= Rank(n, p) <= n as real - 1.0
  {
    FractionOf(p / 100.0, n as real - 1.0);
  }

  function Percentile(sorted: seq<real>, p: real): real
    requires 0.0 <= p <= 100.0
  {
    if sorted == [] then 0.0
    else if |sorted| == 1 then sorted[0]
    else
      RankInRange(|sorted|, p);
      AtRank(sorted, Rank(|sorted|, p))
  }

  lemma Mixed(a: real, b: real, f: real)
    requires a <= b && 0.0 <= f <= 1.0
    ensures a <= Times(a, 1.0 - f) + Times(b, f) <= b
    ensures Times(a, 1.0 - f) + Times(b, f) == a + Times(f, b - a)
  {
    FractionOf(f, b - a);
  }

  /** A rank's value lies between the samples around it. */
  lemma AtRankBetween(sorted: seq<real>, rank: real)
    requires Ordered(sorted) && 0.0 <= rank <= |sorted| as real - 1.0
    ensures rank.Floor <= Ceil(rank) <= rank.Floor + 1 && Ceil(rank) < |sorted|
    ensures sorted[rank.Floor] <= AtRank(sorted, rank) <= sorted[Ceil(rank)]
  {
    if rank.Floor != Ceil(rank) {
      Mixed(sorted[rank.Floor], sorted[Ceil(rank)], rank - rank.Floor as real);
    }
  }

  lemma AtRankMonotone(sorted: seq<real>, r: real, q: real)
    requires Ordered(sorted) && 0.0 <= r <= q <= |sorted| as real - 1.0
    ensures AtRank(sorted, r) <= AtRank(sorted, q)
  {
    AtRankBetween(sorted, r);
    AtRankBetween(sorted, q);
    if r.Floor == q.Floor {
      SameBandMonotone(sorted, r, q);
    } else {
      assert Ceil(r) <= q.Floor;
    }
  }

  lemma SameBandMonotone(sorted: seq<real>, r: real, q: real)
    requires Ordered(sorted) && 0.0 <= r <= q <= |sorted| as real - 1.0 && r.Floor == q.Floor
    ensures AtRank(sorted, r) <= AtRank(sorted, q)
  {
    AtRankBetween(sorted, r);
    AtRankBetween(sorted, q);
    if r.Floor != Ceil(r) {
      var a, b, lo := sorted[r.Floor], sorted[Ceil(r)], r.Floor as real;
      assert Ceil(q) == Ceil(r);
      Mixed(a, b, r - lo);
      Mixed(a, b, q - lo);
      TimesMonotone(r - lo, q - lo, b - a);
    }
  }

  /** Percentiles of ordered samples do not fall as `p` grows, and stay among the samples. */
  lemma PercentileMonotone(sorted: seq<real>, p: real, q: real)
    requires sorted != [] && Ordered(sorted) && 0.0 <= p <= q <= 100.0
    ensures sorted[0] <= Percentile(sorted, p) <= Percentile(sorted, q) <= sorted[|sorted| - 1]
  {
    if |sorted| != 1 {
      var n := |sorted|;
      RankInRange(n, p);
      RankInRange(n, q);
      TimesMonotone(p / 100.0, q / 100.0, n as real - 1.0);
      AtRankMonotone(sorted, Rank(n, p), Rank(n, q));
      AtRankBetween(sorted, Rank(n, p));
      AtRankBetween(sorted, Rank(n, q));
    }
  }
}
