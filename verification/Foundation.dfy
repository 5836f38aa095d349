/** Failure-compatible results, machine integer ranges and the few facts about
    real arithmetic that several models share. */
module Foundation {

  datatype Option<+T> = None | Some(value: T)

  datatype Result<+T, +E> = Success(value: T) | Failure(error: E) {
    predicate IsFailure() {
      Failure?
    }

    function PropagateFailure<U>(): Result<U, E>
      requires Failure?
    {
      Failure(error)
    }

    function Extract(): T
      requires Success?
    {
      value
    }
  }

  /** Succeeds exactly when the condition holds. */
  function Check<E>(condition: bool, error: E): Result<(), E> {
    if condition then Success(()) else Failure(error)
  }

  type U8 = n: int | 0 <= n < 0x100
  type U16 = n: int | 0 <= n < 0x1_0000
  type U32 = n: int | 0 <= n < 0x1_0000_0000
  type U64 = n: int | 0 <= n < 0x1_0000_0000_0000_0000
  type I32 = n: int | -0x8000_0000 <= n < 0x8000_0000

  const U32_MAX: U32 := 0xFFFF_FFFF
  const U64_MAX: U64 := 0xFFFF_FFFF_FFFF_FFFF

  function SaturatingAdd(a: U64, b: U64): U64 {
    if a + b <= U64_MAX then a + b else U64_MAX
  }

  function SaturatingSub(a: U64, b: U64): U64 {
    if b <= a then a - b else 0
  }

  /** A double: a finite value, or one of the values `is_finite` rejects. */
  datatype F64 = Finite(value: real) | NonFinite

  /** Finite and between these bounds. */
  predicate InRange(value: F64, minimum: real, maximum: real) {
    value.Finite? && minimum <= value.value <= maximum
  }

  function MinReal(a: real, b: real): real {
    if a <= b then a else b
  }

  function MaxReal(a: real, b: real): real {
    if a >= b then a else b
  }

  function ClampReal(x: real, low: real, high: real): real {
    if x < low then low else if x > high then high else x
  }

  /** The least integer at or above `x`. */
  function Ceil(x: real): (n: int)
    ensures n as real - 1.0 < x <= n as real
  {
    -((-x).Floor)
  }

  /** `f64::round`: to the nearest integer, halves away from zero. */
  function RoundHalfAway(x: real): (n: int)
    ensures -0.5 <= n as real - x <= 0.5
  {
    if x >= 0.0 then (x + 0.5).Floor else -((0.5 - x).Floor)
  }

  lemma RoundOfInteger(n: int)
    ensures RoundHalfAway(n as real) == n
  {
  }

  lemma MulNonNegative(a: real, b: real)
    requires 0.0 <= a && 0.0 <= b
    ensures 0.0 <= a * b
  {
  }

  lemma MulPositive(a: real, b: real)
    requires 0.0 < a && 0.0 < b
    ensures 0.0 < a * b
  {
  }

  lemma MulMonotone(a: real, b: real, c: real)
    requires a <= b && 0.0 <= c
    ensures a * c <= b * c && c * a <= c * b
  {
  }

  lemma SquareNonNegative(x: real)
    ensures 0.0 <= x * x
  {
  }

  /** A product under a name, so that facts about it carry over to equal factors. */
  function Times(a: real, b: real): real {
    a * b
  }

  lemma TimesPositive(a: real, b: real)
    requires 0.0 < a && 0.0 < b
    ensures 0.0 < Times(a, b)
  {
  }

  function Square(x: real): (r: real)
    ensures 0.0 <= r
  {
    SquareNonNegative(x);
    Times(x, x)
  }

  lemma SquareOfPositive(x: real)
    requires 0.0 < x
    ensures 0.0 < Square(x)
  {
    TimesPositive(x, x);
  }

  lemma SquareOfNegated(x: real)
    ensures Square(-x) == Square(x)
  {
  }

  lemma SquarePositive(x: real)
    requires x != 0.0
    ensures 0.0 < Square(x)
  {
    if x > 0.0 {
      SquareOfPositive(x);
    } else {
      SquareOfPositive(-x);
      SquareOfNegated(x);
    }
  }

  lemma FractionOf(t: real, d: real)
    requires 0.0 <= t <= 1.0 && 0.0 <= d
    ensures 0.0 <= Times(t, d) <= d
  {
    MulNonNegative(t, d);
    MulNonNegative(1.0 - t, d);
    assert (1.0 - t) * d == d - t * d;
  }

  lemma TimesMonotone(a: real, b: real, c: real)
    requires a <= b && 0.0 <= c
    ensures Times(a, c) <= Times(b, c) && Times(c, a) <= Times(c, b)
  {
  }

  lemma TimesStrict(a: real, b: real, c: real)
    requires a < b && 0.0 < c
    ensures Times(a, c) < Times(b, c) && Times(c, a) < Times(c, b)
  {
  }

  lemma QuotientNonNegative(x: real, d: real)
    requires 0.0 <= x && 0.0 < d
    ensures 0.0 <= x / d
  {
  }

  lemma QuotientMonotone(x: real, y: real, d: real)
    requires x <= y && 0.0 < d
    ensures x / d <= y / d
  {
    QuotientNonNegative(y - x, d);
    assert (y - x) / d == y / d - x / d;
  }

  lemma DividedBack(x: real, d: real)
    requires 0.0 < d
    ensures x / d * d == x
  {
  }

  lemma Cancel(a: real, b: real, c: real)
    requires a * c == b * c && c != 0.0
    ensures a == b
  {
  }

  // ------------------------------------------------------- finite sets and sequences

  lemma NothingBefore<T>(s: seq<T>)
    ensures [] + s == s
  {
  }

  lemma SubsetSize<T>(a: set<T>, b: set<T>)
    requires a <= b
    ensures |a| <= |b|
  {
    assert b == a + (b - a);
  }

  /** The natural numbers below `n`. */
  function Below(n: nat): (numbers: set<nat>)
    ensures forall k: nat :: k in numbers <==> k < n
    ensures |numbers| == n
  {
    if n == 0 then {} else Below(n - 1) + {n - 1}
  }
}
