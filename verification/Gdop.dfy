/** Geometric dilution of precision of a constellation (src/evals/gdop.rs), over reals.
    The source returns the square root of `trace((HᵀH)⁻¹)`; the model returns the trace
    itself, the square of the dilution, and compares squared ranges. */
module Gdop {
  import opened Foundation

  datatype Point = Point(x: real, y: real)

  /** A symmetric 2x2 matrix `[[a, b], [b, d]]`. */
  datatype Symmetric = Symmetric(a: real, b: real, d: real)

  /** The horizontal vector from the target to the observer. */
  function Sight(o: Point, t: Point): Point {
    Point(o.x - t.x, o.y - t.y)
  }

  function RangeSquared(v: Point): (s: real)
    ensures 0.0 <= s
  {
    SquareNonNegative(v.x);
    SquareNonNegative(v.y);
    v.x * v.x + v.y * v.y
  }

  /** A sight line shorter than a nanometre. */
  predicate Undefined(v: Point) {
    RangeSquared(v) < 0.000_000_000_000_000_001
  }

  predicate Coincident(o: Point, t: Point) {
    Undefined(Sight(o, t))
  }

  /** The products of the components of a vector. */
  function Outer(v: Point): Symmetric {
    Symmetric(v.x * v.x, v.x * v.y, v.y * v.y)
  }

  function Over(m: Symmetric, s: real): Symmetric
    requires s != 0.0
  {
    Symmetric(m.a / s, m.b / s, m.d / s)
  }

  /** One row of `H`, the unit vector along the sight line, as it enters `HᵀH`. */
  function Ray(o: Point, t: Point): Symmetric
    requires !Coincident(o, t)
  {
    Over(Outer(Sight(o, t)), RangeSquared(Sight(o, t)))
  }

  function Plus(m: Symmetric, n: Symmetric): Symmetric {
    Symmetric(m.a + n.a, m.b + n.b, m.d + n.d)
  }

  function Det(m: Symmetric): real {
    m.a * m.d - m.b * m.b
  }

  predicate AllApart(observers: seq<Point>, t: Point) {
    forall o | o in observers :: !Coincident(o, t)
  }

  /** `HᵀH` for unit sight lines. */
  function NormalMatrix(observers: seq<Point>, t: Point): Symmetric
    requires AllApart(observers, t)
    decreases |observers|
  {
    if observers == [] then Symmetric(0.0, 0.0, 0.0)
    else Plus(NormalMatrix(observers[..|observers| - 1], t), Ray(observers[|observers| - 1], t))
  }

  predicate Singular(det: real) {
    -0.000_000_000_001 < det < 0.000_000_000_001
  }

  /** The trace of the inverse of `m`, unless `m` is singular. */
  function TraceOfInverse(m: Symmetric): Option<real> {
    var det := Det(m);
    if Singular(det) then None
    else
      var trace := (m.a + m.d) / det;
      if trace <= 0.0 then None else Some(trace)
  }

  function Dilution(observers: seq<Point>, t: Point): Option<real> {
    if |observers| < 2 || !AllApart(observers, t) then None else TraceOfInverse(NormalMatrix(observers, t))
  }

  method GdopSquared(observers: seq<Point>, target: Point) returns (r: Option<real>)
    ensures r == Dilution(observers, target)
  {
    if |observers| < 2 {
      return None;
    }
    var a, b, d := 0.0, 0.0, 0.0;
    for i := 0 to |observers|
      invariant AllApart(observers[..i], target)
      invariant Symmetric(a, b, d) == NormalMatrix(observers[..i], target)
    {
      var sight := Sight(observers[i], target);
      var range := RangeSquared(sight);
      if Undefined(sight) {
        assert Coincident(observers[i], target);
        return None;
      }
      MatrixGrows(observers, i, target);
      var row := Over(Outer(sight), range);
      a, b, d := a + row.a, b + row.b, d + row.d;
    }
    assert observers[..|observers|] == observers;
    return TraceOfInverse(Symmetric(a, b, d));
  }

  lemma MatrixGrows(observers: seq<Point>, i: nat, t: Point)
    requires i < |observers| && AllApart(observers[..i], t) && !Coincident(observers[i], t)
    ensures AllApart(observers[..i + 1], t)
    ensures NormalMatrix(observers[..i + 1], t) == Plus(NormalMatrix(observers[..i], t), Ray(observers[i], t))
  {
    assert observers[..i + 1][..i] == observers[..i] && observers[..i + 1][i] == observers[i];
  }

  // ------------------------------------------------- the determinant as cross products

  function Cross(v: Point, w: Point): real {
    v.x * w.y - v.y * w.x
  }

  /** The squared sine of the angle between two vectors. */
  function SineSquaredOf(v: Point, w: Point): real
    requires RangeSquared(v) * RangeSquared(w) != 0.0
  {
    Cross(v, w) * Cross(v, w) / (RangeSquared(v) * RangeSquared(w))
  }

  lemma RangesPositive(o: Point, p: Point, t: Point)
    requires !Coincident(o, t) && !Coincident(p, t)
    ensures 0.0 < RangeSquared(Sight(o, t)) * RangeSquared(Sight(p, t))
  {
    MulPositive(RangeSquared(Sight(o, t)), RangeSquared(Sight(p, t)));
  }

  /** The squared sine of the angle between two sight lines. */
  function SineSquared(o: Point, p: Point, t: Point): real
    requires !Coincident(o, t) && !Coincident(p, t)
  {
    RangesPositive(o, p, t);
    SineSquaredOf(Sight(o, t), Sight(p, t))
  }

  /** Squared sines of `p` against each of the observers. */
  function Against(observers: seq<Point>, p: Point, t: Point): real
    requires AllApart(observers, t) && !Coincident(p, t)
    decreases |observers|
  {
    if observers == [] then 0.0
    else Against(observers[..|observers| - 1], p, t) + SineSquared(observers[|observers| - 1], p, t)
  }

  /** Squared sines over all pairs of sight lines. */
  function PairwiseSines(observers: seq<Point>, t: Point): real
    requires AllApart(observers, t)
    decreases |observers|
  {
    if observers == [] then 0.0
    else
      var before, last := observers[..|observers| - 1], observers[|observers| - 1];
      PairwiseSines(before, t) + Against(before, last, t)
  }

  /** What a unit sight line with products `r` adds to the determinant of `m`. */
  function Mixed(m: Symmetric, r: Symmetric): real {
    m.a * r.d - 2.0 * m.b * r.b + m.d * r.a
  }

  predicate UnitRay(r: Symmetric) {
    r.a + r.d == 1.0 && r.a * r.d == r.b * r.b && 0.0 <= r.a && 0.0 <= r.d
  }

  lemma QuotientsOfProducts(x: real, y: real, s: real, u: real)
    requires s != 0.0 && u != 0.0
    ensures s * u != 0.0 && (x / s) * (y / u) == x * y / (s * u)
  {
    assert s * u != 0.0;
    QuotientIs(x, y, s, u, x / s, y / u, x * y / (s * u));
  }

  lemma QuotientIs(x: real, y: real, s: real, u: real, p: real, q: real, r: real)
    requires s * u != 0.0 && p * s == x && q * u == y && r * (s * u) == x * y
    ensures p * q == r
  {
    assert (p * q) * (s * u) == (p * s) * (q * u);
    Cancel(p * q, r, s * u);
  }

  lemma SumOfQuotients(x: real, y: real, s: real)
    requires 0.0 < s && x + y == s
    ensures x / s + y / s == 1.0
  {
    assert x / s + y / s == s / s;
  }

  lemma ScaledMean(x: real, y: real, z: real, s: real, p: real, q: real, r: real)
    requires p * s == x && q * s == y && r * s == z && x * z == y * y && 0.0 < s
    ensures p * r == q * q
  {
    assert (p * r - q * q) * s * s == 0.0 by {
      assert p * r * s * s == x * z;
      assert q * q * s * s == y * y;
    }
    Cancel((p * r - q * q) * s, 0.0, s);
    Cancel(p * r - q * q, 0.0, s);
  }

  lemma MeanOver(x: real, y: real, z: real, s: real)
    requires 0.0 < s && x * z == y * y
    ensures (x / s) * (z / s) == (y / s) * (y / s)
  {
    ScaledMean(x, y, z, s, x / s, y / s, z / s);
  }

  lemma OverIsUnit(m: Symmetric, s: real)
    requires m.a * m.d == m.b * m.b && m.a + m.d == s && 0.0 < s && 0.0 <= m.a && 0.0 <= m.d
    ensures UnitRay(Over(m, s))
  {
    MeanOver(m.a, m.b, m.d, s);
    QuotientNonNegative(m.a, s);
    QuotientNonNegative(m.d, s);
    SumOfQuotients(m.a, m.d, s);
  }

  lemma OuterProducts(v: Point)
    ensures var m := Outer(v);
            m.a * m.d == m.b * m.b && m.a + m.d == RangeSquared(v) && 0.0 <= m.a && 0.0 <= m.d
  {
    SquareNonNegative(v.x);
    SquareNonNegative(v.y);
  }

  lemma RayIsUnit(o: Point, t: Point)
    requires !Coincident(o, t)
    ensures UnitRay(Ray(o, t))
  {
    OuterProducts(Sight(o, t));
    OverIsUnit(Outer(Sight(o, t)), RangeSquared(Sight(o, t)));
  }

  lemma SplitQuotient(a: real, b: real, c: real, d: real)
    requires 0.0 < d
    ensures (a - 2.0 * b + c) / d == a / d - 2.0 * (b / d) + c / d
  {
  }

  lemma MixedTerms(m: Symmetric, r: Symmetric)
    ensures Mixed(m, r) == m.a * r.d - 2.0 * (m.b * r.b) + m.d * r.a
  {
  }

  /** Scaling both matrices scales the mixed term. */
  lemma MixedOver(m: Symmetric, r: Symmetric, s: real, u: real)
    requires 0.0 < s && 0.0 < u && 0.0 < s * u
    ensures Mixed(m, r) / (s * u) == Mixed(Over(m, s), Over(r, u))
  {
    QuotientsOfProducts(m.a, r.d, s, u);
    QuotientsOfProducts(m.b, r.b, s, u);
    QuotientsOfProducts(m.d, r.a, s, u);
    MixedTerms(m, r);
    MixedTerms(Over(m, s), Over(r, u));
    SplitQuotient(m.a * r.d, m.b * r.b, m.d * r.a, s * u);
  }

  lemma CrossSquared(v: Point, w: Point)
    ensures Cross(v, w) * Cross(v, w) == Mixed(Outer(v), Outer(w))
  {
  }

  lemma SineIsMixedOf(v: Point, w: Point, s: real, u: real)
    requires s == RangeSquared(v) && u == RangeSquared(w) && 0.0 < s && 0.0 < u && 0.0 < s * u
    ensures SineSquaredOf(v, w) == Mixed(Over(Outer(v), s), Over(Outer(w), u))
    ensures 0.0 <= SineSquaredOf(v, w)
  {
    CrossSquared(v, w);
    MixedOver(Outer(v), Outer(w), s, u);
    SquareNonNegative(Cross(v, w));
    QuotientNonNegative(Cross(v, w) * Cross(v, w), s * u);
  }

  lemma SineIsMixed(o: Point, p: Point, t: Point)
    requires !Coincident(o, t) && !Coincident(p, t)
    ensures SineSquared(o, p, t) == Mixed(Ray(o, t), Ray(p, t))
    ensures 0.0 <= SineSquared(o, p, t)
  {
    RangesPositive(o, p, t);
    SineIsMixedOf(Sight(o, t), Sight(p, t), RangeSquared(Sight(o, t)), RangeSquared(Sight(p, t)));
  }

  lemma MixedAdds(m: Symmetric, n: Symmetric, r: Symmetric)
    ensures Mixed(Plus(m, n), r) == Mixed(m, r) + Mixed(n, r)
  {
    assert (m.a + n.a) * r.d == m.a * r.d + n.a * r.d;
    assert 2.0 * (m.b + n.b) * r.b == 2.0 * m.b * r.b + 2.0 * n.b * r.b;
    assert (m.d + n.d) * r.a == m.d * r.a + n.d * r.a;
  }

  lemma {:induction false} AgainstIsMixed(observers: seq<Point>, p: Point, t: Point)
    requires AllApart(observers, t) && !Coincident(p, t)
    decreases |observers|
    ensures Against(observers, p, t) == Mixed(NormalMatrix(observers, t), Ray(p, t))
    ensures 0.0 <= Against(observers, p, t)
  {
    if observers != [] {
      var before, last := observers[..|observers| - 1], observers[|observers| - 1];
      AgainstIsMixed(before, p, t);
      SineIsMixed(last, p, t);
      MixedAdds(NormalMatrix(before, t), Ray(last, t), Ray(p, t));
    }
  }

  lemma DetGrows(m: Symmetric, r: Symmetric)
    requires UnitRay(r)
    ensures Det(Plus(m, r)) == Det(m) + Mixed(m, r)
  {
    assert (m.a + r.a) * (m.d + r.d) == m.a * m.d + m.a * r.d + r.a * m.d + r.a * r.d;
    assert (m.b + r.b) * (m.b + r.b) == m.b * m.b + 2.0 * m.b * r.b + r.b * r.b;
  }

  /** Lagrange's identity: the determinant is the sum of the squared sines of all pairs, and
      the trace counts the observers. */
  lemma {:induction false} DeterminantIsPairwise(observers: seq<Point>, t: Point)
    requires AllApart(observers, t)
    decreases |observers|
    ensures Det(NormalMatrix(observers, t)) == PairwiseSines(observers, t)
    ensures NormalMatrix(observers, t).a + NormalMatrix(observers, t).d == |observers| as real
    ensures 0.0 <= PairwiseSines(observers, t)
  {
    if observers != [] {
      var before, last := observers[..|observers| - 1], observers[|observers| - 1];
      DeterminantIsPairwise(before, t);
      AgainstIsMixed(before, last, t);
      RayIsUnit(last, t);
      DetGrows(NormalMatrix(before, t), Ray(last, t));
    }
  }

  // -------------------------------------------------------------------- the result

  /** The result is defined exactly when two observers or more are all away from the target
      and the squared sines reach the threshold; it is then their number over that sum. */
  lemma DilutionExact(observers: seq<Point>, t: Point)
    ensures Dilution(observers, t)
            == if 2 <= |observers| && AllApart(observers, t) && !Singular(PairwiseSines(observers, t))
               then Some(|observers| as real / PairwiseSines(observers, t)) else None
  {
    if 2 <= |observers| && AllApart(observers, t) {
      DeterminantIsPairwise(observers, t);
      var det := PairwiseSines(observers, t);
      if !Singular(det) {
        RatioPositive(|observers| as real, det);
      }
    }
  }

  lemma RatioPositive(n: real, det: real)
    requires 0.0 < n && 0.0 < det
    ensures 0.0 < n / det && n / det * det == n
  {
  }

  lemma DeterminantBound(m: Symmetric, n: real)
    requires m.a + m.d == n
    ensures 4.0 * Det(m) <= n * n
  {
    SquareNonNegative(m.a - m.d);
    SquareNonNegative(m.b);
    assert n == m.a + m.d;
    SquareOfSum(m.a, m.d, n);
  }

  lemma SquareOfSum(a: real, d: real, n: real)
    requires n == a + d
    ensures n * n - 4.0 * (a * d) == (a - d) * (a - d)
  {
  }

  /** The squared sines of `n` sight lines add up to at most `n² / 4`. */
  lemma SinesAtMost(observers: seq<Point>, t: Point, n: real)
    requires AllApart(observers, t) && n == |observers| as real
    ensures 4.0 * PairwiseSines(observers, t) <= n * n
  {
    DeterminantIsPairwise(observers, t);
    DeterminantBound(NormalMatrix(observers, t), n);
  }

  /** No constellation of `n` observers does better than `4 / n`. */
  lemma DilutionAtLeast(observers: seq<Point>, t: Point)
    requires Dilution(observers, t).Some?
    ensures 4.0 / |observers| as real <= Dilution(observers, t).value
  {
    DilutionExact(observers, t);
    var n, det := |observers| as real, PairwiseSines(observers, t);
    SinesAtMost(observers, t, n);
    BoundedRatio(n, det);
  }

  lemma BoundedRatio(n: real, det: real)
    requires 0.0 < n && 0.0 < det && 4.0 * det <= n * n
    ensures 4.0 / n <= n / det
  {
    var p, q := 4.0 / n, n / det;
    assert p * n == 4.0 && q * det == n;
    if q < p {
      ScaleStrictly(q, p, n * det);
      assert q * (n * det) == n * (q * det) && p * (n * det) == (p * n) * det;
    }
  }

  lemma ScaleStrictly(p: real, q: real, c: real)
    requires p < q
    ensures 0.0 < c ==> p * c < q * c
  {
  }

  // -------------------------------------------------------------- order independence

  lemma PlusSwaps(m: Symmetric, p: Symmetric, q: Symmetric)
    ensures Plus(Plus(m, p), q) == Plus(Plus(m, q), p)
  {
  }

  /** Any observer may be counted last. */
  lemma {:induction false} CountedLast(observers: seq<Point>, i: nat, t: Point)
    requires AllApart(observers, t) && i < |observers|
    decreases |observers|
    ensures AllApart(observers[..i] + observers[i + 1..], t)
    ensures NormalMatrix(observers, t)
            == Plus(NormalMatrix(observers[..i] + observers[i + 1..], t), Ray(observers[i], t))
  {
    var n := |observers| - 1;
    var before, rest := observers[..n], observers[..i] + observers[i + 1..];
    if i == n {
      assert rest == before;
    } else {
      CountedLast(before, i, t);
      assert rest[..n - 1] == before[..i] + before[i + 1..] && rest[n - 1] == observers[n];
      PlusSwaps(NormalMatrix(rest[..n - 1], t), Ray(observers[i], t), Ray(observers[n], t));
    }
  }

  lemma RestsAgree(p: seq<Point>, q: seq<Point>, i: nat)
    requires p != [] && multiset(p) == multiset(q) && i < |q| && q[i] == p[|p| - 1]
    ensures multiset(p[..|p| - 1]) == multiset(q[..i] + q[i + 1..])
  {
    assert p == p[..|p| - 1] + [q[i]];
    assert q == q[..i] + [q[i]] + q[i + 1..];
    assert multiset(p[..|p| - 1]) == multiset(p) - multiset{q[i]};
  }

  lemma {:induction false} MatrixOfPermutation(p: seq<Point>, q: seq<Point>, t: Point)
    requires AllApart(p, t) && AllApart(q, t) && multiset(p) == multiset(q)
    decreases |p|
    ensures NormalMatrix(p, t) == NormalMatrix(q, t)
  {
    SameLength(p, q);
    if p != [] {
      assert p[|p| - 1] in multiset(p);
      var i :| 0 <= i < |q| && q[i] == p[|p| - 1];
      CountedLast(q, i, t);
      RestsAgree(p, q, i);
      MatrixOfPermutation(p[..|p| - 1], q[..i] + q[i + 1..], t);
    }
  }

  lemma SameLength(p: seq<Point>, q: seq<Point>)
    requires multiset(p) == multiset(q)
    ensures |p| == |q|
  {
    assert |multiset(p)| == |p| && |multiset(q)| == |q|;
  }

  lemma SameMembers(p: seq<Point>, q: seq<Point>, t: Point)
    requires AllApart(p, t) && multiset(p) == multiset(q)
    ensures AllApart(q, t)
  {
    forall o | o in q
      ensures !Coincident(o, t)
    {
      assert o in multiset(q);
    }
  }

  /** The order of the observers does not matter. */
  lemma OrderIndependent(p: seq<Point>, q: seq<Point>, t: Point)
    requires multiset(p) == multiset(q)
    ensures Dilution(p, t) == Dilution(q, t)
  {
    SameLength(p, q);
    if AllApart(p, t) {
      SameMembers(p, q, t);
      MatrixOfPermutation(p, q, t);
    } else if AllApart(q, t) {
      SameMembers(q, p, t);
    }
  }

  // -------------------------------------------------------------- one more observer

  /** `a²R - 2abQ + b²P` for the products `P`, `Q`, `R` of a ray. */
  function Form(a: real, b: real, r: Symmetric): real {
    a * a * r.d - 2.0 * a * b * r.b + b * b * r.a
  }

  lemma FormNonNegative(a: real, b: real, r: Symmetric)
    requires UnitRay(r)
    ensures 0.0 <= Form(a, b, r)
  {
    var f := Form(a, b, r);
    SquareNonNegative(a * r.d - b * r.b);
    SquareNonNegative(a * r.b - b * r.a);
    FormTimesD(a, b, r);
    FormTimesA(a, b, r);
    SplitUnit(f, r.a, r.d);
  }

  lemma SplitUnit(f: real, p: real, r: real)
    requires p + r == 1.0
    ensures f == f * p + f * r
  {
    assert f * p + f * r == f * (p + r);
  }

  lemma FormTimesD(a: real, b: real, r: Symmetric)
    requires r.a * r.d == r.b * r.b
    ensures Form(a, b, r) * r.d == (a * r.d - b * r.b) * (a * r.d - b * r.b)
  {
    assert b * b * r.a * r.d == b * b * (r.b * r.b);
  }

  lemma FormTimesA(a: real, b: real, r: Symmetric)
    requires r.a * r.d == r.b * r.b
    ensures Form(a, b, r) * r.a == (a * r.b - b * r.a) * (a * r.b - b * r.a)
  {
    assert a * a * r.d * r.a == a * a * (r.b * r.b);
  }

  /** A ray adds at least the share `det / trace` to the determinant. */
  lemma MixedShare(m: Symmetric, r: Symmetric)
    requires UnitRay(r)
    ensures Det(m) <= (m.a + m.d) * Mixed(m, r)
  {
    FormNonNegative(m.a, m.b, r);
    FormNonNegative(m.b, m.d, r);
    ShareExpanded(m, r);
  }

  lemma EqualFactors(x: real, y: real, z: real, w: real)
    requires x == y && z == w
    ensures x * z == y * w
  {
  }

  lemma ShareExpanded(m: Symmetric, r: Symmetric)
    requires r.a + r.d == 1.0
    ensures (m.a + m.d) * Mixed(m, r) - Det(m) == Form(m.a, m.b, r) + Form(m.b, m.d, r)
  {
    SplitUnit(m.a * m.d, r.a, r.d);
    SplitUnit(m.b * m.b, r.a, r.d);
    MixedExpanded(m, r);
  }

  lemma MixedExpanded(m: Symmetric, r: Symmetric)
    ensures (m.a + m.d) * Mixed(m, r)
            == m.a * m.a * r.d - 2.0 * m.a * m.b * r.b + m.a * m.d * r.a
               + m.a * m.d * r.d - 2.0 * m.b * m.d * r.b + m.d * m.d * r.a
  {
  }

  lemma RatioFalls(n: real, det: real, more: real)
    requires 0.0 < n && 0.0 < det && 0.0 <= more && det <= n * more
    ensures (n + 1.0) / (det + more) <= n / det
  {
    var p, q := (n + 1.0) / (det + more), n / det;
    assert p * (det + more) == n + 1.0 && q * det == n;
    assert q * (n * more) == n * (q * more);
    MulMonotone(det, n * more, q);
    assert q * more >= 1.0 by {
      if q * more < 1.0 {
        ScaleStrictly(q * more, 1.0, n);
      }
    }
    assert q * (det + more) >= n + 1.0;
    if q < p {
      ScaleStrictly(q, p, det + more);
    }
  }

  lemma ShareOf(m: Symmetric, r: Symmetric, n: real, det: real, more: real)
    requires UnitRay(r) && m.a + m.d == n && Det(m) == det && Mixed(m, r) == more
    ensures det <= n * more
  {
    MixedShare(m, r);
    EqualFactors(m.a + m.d, n, Mixed(m, r), more);
  }

  /** A new sight line brings at least the average observer's share of the squared sines. */
  lemma DeterminantShare(observers: seq<Point>, o: Point, t: Point, n: real)
    requires AllApart(observers, t) && !Coincident(o, t) && n == |observers| as real
    ensures 0.0 <= Against(observers, o, t)
    ensures PairwiseSines(observers, t) <= n * Against(observers, o, t)
  {
    DeterminantIsPairwise(observers, t);
    AgainstIsMixed(observers, o, t);
    RayIsUnit(o, t);
    var m := NormalMatrix(observers, t);
    ShareOf(m, Ray(o, t), n, PairwiseSines(observers, t), Against(observers, o, t));
  }

  lemma AppendedHelps(observers: seq<Point>, o: Point, t: Point)
    requires Dilution(observers, t).Some? && !Coincident(o, t)
    ensures var more := Dilution(observers + [o], t);
            more.Some? && more.value <= Dilution(observers, t).value
  {
    var more := observers + [o];
    assert more[..|observers|] == observers && more[|observers|] == o;
    DilutionExact(observers, t);
    DilutionExact(more, t);
    var n := |observers| as real;
    DeterminantShare(observers, o, t, n);
    RatioFalls(n, PairwiseSines(observers, t), Against(observers, o, t));
  }

  /** One more observer, away from the target, keeps a defined dilution defined and never
      makes it larger, wherever it is inserted. */
  lemma ObserverHelps(observers: seq<Point>, o: Point, i: nat, t: Point)
    requires i <= |observers| && Dilution(observers, t).Some? && !Coincident(o, t)
    ensures var more := Dilution(observers[..i] + [o] + observers[i..], t);
            more.Some? && more.value <= Dilution(observers, t).value
  {
    assert observers == observers[..i] + observers[i..];
    assert multiset(observers[..i] + [o] + observers[i..]) == multiset(observers + [o]);
    OrderIndependent(observers[..i] + [o] + observers[i..], observers + [o], t);
    AppendedHelps(observers, o, t);
  }
}
