/**
 * Applying a binary operator to two numeric tokens (`pow`, `operation_result`).
 *
 * The program computes every operation in `f64` and, when both operands are
 * `Int`, converts the result back with `as i32`. For `i32` operands that
 * round trip is modelled exactly on integers: the mathematical result, then a
 * saturating conversion (`as i32` truncates toward zero, saturates at the
 * bounds and sends NaN to 0). `Float` results stay symbolic terms.
 */
module Arithmetic {
  import opened Tokens

  function Abs(x: int): nat { if x < 0 then -x else x }

  /** `x as i32` for a floating-point value holding the integer `x`. */
  function SaturatingCast(x: int): I32
  {
    if x > I32_MAX then I32_MAX else if x < I32_MIN then I32_MIN else x
  }

  /**
   * The cast picks the `i32` value nearest to `x` (so it keeps every
   * value already in range), and it never reverses the order of two values.
   */
  lemma SaturatingCastNearest(x: int, x': int, y: I32)
    ensures Abs(SaturatingCast(x) - x) <= Abs(y - x)
    ensures x <= x' ==> SaturatingCast(x) <= SaturatingCast(x')
  {
  }

  /** The quotient rounded toward zero, what `as i32` makes of `a / b`. */
  function TruncDiv(a: int, b: int): int
    requires b != 0
  {
    var m := Abs(a) / Abs(b);
    if (a < 0) == (b < 0) then m else -m
  }

  /** What truncating division leaves over. */
  function TruncRem(a: int, b: int): int
    requires b != 0
  {
    var r := Abs(a) % Abs(b);
    if a < 0 then -r else r
  }

  lemma {:induction false} MulMonotone(m: nat, b: nat, c: nat)
    requires b <= c
    ensures m * b <= m * c
  {
    if m > 0 {
      MulMonotone(m - 1, b, c);
      assert m * b == (m - 1) * b + b && m * c == (m - 1) * c + c;
    }
  }

  /** Euclid's division of the magnitudes, the step `TruncDiv` is built on. */
  lemma MagnitudeDivision(a: nat, b: nat)
    requires b > 0
    ensures a == (a / b) * b + a % b && 0 <= a % b < b
    ensures a / b <= a
  {
    MulMonotone(a / b, 1, b);
  }

  /** Dividing by two or more at least halves. */
  lemma HalvingQuotient(a: nat, b: nat)
    requires b >= 2
    ensures 2 * (a / b) <= a
  {
    MagnitudeDivision(a, b);
    MulMonotone(a / b, 2, b);
  }

  /** Restoring the signs of quotient and remainder keeps the division exact. */
  lemma SignedDivision(a: int, b: int, m: int, r: int, q: int)
    requires b != 0 && Abs(a) == m * Abs(b) + r && 0 <= m && 0 <= r < Abs(b)
    requires q == if (a < 0) == (b < 0) then m else -m
    ensures a == q * b + (if a < 0 then -r else r)
  {
    var B := Abs(b);
    assert (q < 0) == (b < 0) ==> q * b == m * B;
    assert (q < 0) != (b < 0) ==> q * b == -(m * B);
  }

  /**
   * Truncating division is exact with a remainder smaller than the divisor
   * that has the sign of the dividend, and never grows the dividend's
   * magnitude.
   */
  lemma TruncDivRemainder(a: int, b: int)
    requires b != 0
    ensures a == TruncDiv(a, b) * b + TruncRem(a, b)
    ensures Abs(TruncRem(a, b)) < Abs(b)
    ensures TruncRem(a, b) == 0 || (TruncRem(a, b) > 0 <==> a > 0)
    ensures Abs(TruncDiv(a, b)) <= Abs(a)
  {
    var m, r := Abs(a) / Abs(b), Abs(a) % Abs(b);
    MagnitudeDivision(Abs(a), Abs(b));
    var q := TruncDiv(a, b);
    assert q == if (a < 0) == (b < 0) then m else -m;
    assert TruncRem(a, b) == if a < 0 then -r else r;
    assert Abs(q) == m;
    SignedDivision(a, b, m, r, q);
  }

  /** The truncated quotient of two `i32` values fits, except i32::MIN / -1. */
  lemma TruncDivInRange(x: I32, y: I32)
    requires y != 0 && !(x == I32_MIN && y == -1)
    ensures I32_MIN <= TruncDiv(x, y) <= I32_MAX
  {
    MagnitudeDivision(Abs(x), Abs(y));
    if Abs(y) >= 2 {
      HalvingQuotient(Abs(x), Abs(y));
    }
  }

  /** `pow(a, b)`: repeated multiplication, and 1 for every exponent `b <= 0`. */
  function Pow(a: int, b: int): int
    decreases if b <= 0 then 0 else b
  {
    if b <= 0 then 1 else a * Pow(a, b - 1)
  }

  /** Exponents add: the recursion really multiplies `b` copies of `a`. */
  lemma {:induction false} PowAdd(a: int, m: nat, n: nat)
    ensures Pow(a, m + n) == Pow(a, m) * Pow(a, n)
  {
    if m > 0 {
      PowAdd(a, m - 1, n);
      assert Pow(a, m + n) == a * (Pow(a, m - 1) * Pow(a, n));
      assert a * (Pow(a, m - 1) * Pow(a, n)) == (a * Pow(a, m - 1)) * Pow(a, n);
    }
  }

  /**
   * `operation(x as f64, y as f64) as i32` for two `i32` operands. Sums,
   * differences, products and powers of `i32` values are exact in `f64` up to
   * the saturation bound (any rounding keeps them beyond it), and an `f64`
   * quotient of two `i32` values never rounds across an integer, so exact
   * arithmetic followed by a saturating cast gives the same `i32`.
   */
  function IntOperation(op: Token, x: I32, y: I32): I32 {
    match op
    case Add => SaturatingCast(x + y)
    case Sub => SaturatingCast(x - y)
    case Mul => SaturatingCast(x * y)
    case Div =>
      if y == 0 then
        // x / 0.0 is +inf, -inf or NaN, which `as i32` sends to MAX, MIN or 0
        if x > 0 then I32_MAX else if x < 0 then I32_MIN else 0
      else SaturatingCast(TruncDiv(x, y))
    case Pow => SaturatingCast(Pow(x, y))
    case _ => 0
  }

  /** The operation carried out in floating point, for a `Float` result. */
  function FloatOperation(op: Token, x: F64, y: F64): F64 {
    if op.IsOp() then Compute(op, x, y) else Zero
  }

  /**
   * `operation_result(operator, a, b)`: `Int` with `Int` stays `Int`, a
   * `Float` on either side makes the result `Float`, and the result is always
   * a number.
   */
  function OperationResult(operator: Token, a: Token, b: Token): (r: Token)
    ensures r.IsNum()
    ensures a.IsNum() && b.IsNum() ==> (r.Float? <==> a.Float? || b.Float?)
    ensures a.Int? && b.Int? ==> r == Int(IntOperation(operator, a.n, b.n))
  {
    match a
    case Int(x) =>
      (match b
       case Int(y) => Int(IntOperation(operator, x, y))
       case Float(y) => Float(FloatOperation(operator, FromInt(x), y))
       case _ => Int(0))
    case Float(x) =>
      (match b
       case Int(y) => Float(FloatOperation(operator, x, FromInt(y)))
       case Float(y) => Float(FloatOperation(operator, x, y))
       case _ => Int(0))
    case _ => Int(0)
  }

  /**
   * Integer division truncates toward zero (see `TruncDivRemainder`); only
   * i32::MIN / -1 leaves the range, and it saturates.
   */
  lemma IntDivision(x: I32, y: I32)
    requires y != 0
    ensures x == I32_MIN && y == -1 ==> IntOperation(Div, x, y) == I32_MAX
    ensures !(x == I32_MIN && y == -1) ==> IntOperation(Div, x, y) == TruncDiv(x, y)
  {
    if !(x == I32_MIN && y == -1) {
      TruncDivInRange(x, y);
    }
  }
}
