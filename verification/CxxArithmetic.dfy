/**
  Integer division as the CUDA sources use it: C++ division truncates toward zero, so a negative
  offset does not round down. The lemmas say what survives.
 */
module CxxArithmetic {

  function Min(a: int, b: int): int {
    if a <= b then a else b
  }

  function Max(a: int, b: int): int {
    if a >= b then a else b
  }

  /** C++ `a / b` for a positive divisor. */
  function TruncDiv(a: int, b: int): int
    requires b > 0
  {
    if a >= 0 then a / b else -(-a / b)
  }

  /** `cute::ceil_div`, with C++ division. */
  function CeilDiv(a: int, b: int): int
    requires b > 0
  {
    TruncDiv(a + b - 1, b)
  }

  /** `div_floor` of `utils.h`. */
  function DivFloor(divisor: int, dividend: int): int
    requires divisor > 0
  {
    if dividend >= 0 then TruncDiv(dividend, divisor) else -1 - TruncDiv(-1 - dividend, divisor)
  }

  function RoundDown(divisor: int, dividend: int): int
    requires divisor > 0
  {
    DivFloor(divisor, dividend) * divisor
  }

  function RoundUp(divisor: int, dividend: int): int
    requires divisor > 0
  {
    DivFloor(divisor, dividend - 1) * divisor + divisor
  }

  /** Products with a positive factor are ordered as the other factor. */
  lemma ProductOrder(a: int, b: int, n: int)
    requires n > 0
    ensures a < b <==> a * n < b * n
    ensures a <= b <==> a * n <= b * n
    ensures a < b ==> a * n + n <= b * n
  {
    var x, y := a * n, b * n;
    if a < b {
      ProductSign(b - a - 1, n);
      assert (b - a - 1) * n == y - x - n;
    } else {
      ProductSign(a - b, n);
      assert (a - b) * n == x - y;
    }
  }

  lemma ProductSign(a: int, n: int)
    requires a >= 0 && n >= 0
    ensures a * n >= 0
  {
  }

  /** Quotient and remainder are determined by their equation. */
  lemma QuotientUnique(n: int, q: int, r: int, d: int)
    requires d > 0 && n == q * d + r && 0 <= r < d
    ensures n / d == q && n % d == r
  {
    var q', x, x' := n / d, q * d, n / d * d;
    assert n == x' + n % d;
    assert (q' + 1) * d == x' + d;
    assert (q + 1) * d == x + d;
    ProductOrder(q' + 1, q, d);
    ProductOrder(q + 1, q', d);
  }

  /** The quotient of a nonnegative dividend is the last multiple not above it. */
  lemma DivBounds(a: int, b: int)
    requires b > 0 && a >= 0
    ensures a / b >= 0 && a / b * b <= a < (a / b + 1) * b
  {
    assert a == a / b * b + a % b;
    assert (a / b + 1) * b == a / b * b + b;
  }

  /** Quotient and remainder of a number below a multiple of the divisor. */
  lemma DivMod(a: int, b: int, count: int)
    requires b > 0 && 0 <= a < b * count
    ensures 0 <= a / b < count && 0 <= a % b < b && a == a / b * b + a % b
  {
    DivBounds(a, b);
    var q, r := a / b, a % b;
    assert a == q * b + r;
    ProductOrder(count, q, b);
  }

  /** Rounding up a count to blocks: a block below the quotient is needed, a negative count needs none. */
  lemma CeilDivBounds(a: int, b: int)
    requires b > 0
    ensures a <= CeilDiv(a, b) * b
    ensures a <= 0 ==> CeilDiv(a, b) <= 0
    ensures a > 0 ==> CeilDiv(a, b) > 0 && (CeilDiv(a, b) - 1) * b < a
  {
    var t := a + b - 1;
    if t >= 0 {
      DivBounds(t, b);
      assert (t / b + 1) * b == t / b * b + b;
      assert (t / b - 1) * b == t / b * b - b;
      if a <= 0 {
        ProductOrder(1, t / b, b);
      } else {
        ProductOrder(t / b, 0, b);
      }
    } else {
      DivBounds(-t, b);
      var q := -t / b;
      assert -q * b == -(q * b);
    }
  }

  lemma CeilMonotone(a: int, b: int, n: int)
    requires n > 0
    ensures a <= b && b >= 0 ==> CeilDiv(a, n) <= CeilDiv(b, n)
  {
    hide CeilDiv;
    CeilDivBounds(a, n);
    CeilDivBounds(b, n);
    ProductOrder(CeilDiv(b, n), CeilDiv(a, n) - 1, n);
  }

  /** For a nonnegative result, truncation is flooring; below zero it only ever rounds up to zero. */
  lemma TruncDivBounds(a: int, b: int)
    requires b > 0
    ensures a >= 0 ==> TruncDiv(a, b) >= 0 && TruncDiv(a, b) * b <= a < (TruncDiv(a, b) + 1) * b
    ensures a < 0 ==> TruncDiv(a, b) <= 0 && (TruncDiv(a, b) - 1) * b < a <= TruncDiv(a, b) * b
  {
    if a >= 0 {
      DivBounds(a, b);
    } else {
      DivBounds(-a, b);
    }
  }

  /** `div_floor` is the true floor on all integers. */
  lemma DivFloorBounds(divisor: int, dividend: int)
    requires divisor > 0
    ensures DivFloor(divisor, dividend) * divisor <= dividend < (DivFloor(divisor, dividend) + 1) * divisor
  {
    if dividend >= 0 {
      DivBounds(dividend, divisor);
    } else {
      var m := -1 - dividend;
      DivBounds(m, divisor);
      var q := m / divisor;
      assert (-1 - q) * divisor == -(q * divisor) - divisor;
      assert (-1 - q + 1) * divisor == -(q * divisor);
      assert (q + 1) * divisor == q * divisor + divisor;
    }
  }

  /** Flooring is monotone, so later positions never lie in earlier chunks. */
  lemma RoundDownMonotone(divisor: int, a: int, b: int)
    requires divisor > 0 && a <= b
    ensures RoundDown(divisor, a) <= RoundDown(divisor, b) <= b
    ensures RoundUp(divisor, a) <= RoundUp(divisor, b)
    ensures RoundUp(divisor, a) <= RoundDown(divisor, a) + divisor
    ensures a < b ==> RoundDown(divisor, a) + divisor <= RoundUp(divisor, b)
    ensures RoundDown(divisor, a) <= a < RoundDown(divisor, a) + divisor
    ensures RoundUp(divisor, b) == RoundDown(divisor, b - 1) + divisor
  {
    FloorMonotone(divisor, a, b);
    FloorMonotone(divisor, a - 1, b - 1);
    FloorMonotone(divisor, a - 1, a);
    if a < b {
      FloorMonotone(divisor, a, b - 1);
    }
    DivFloorBounds(divisor, a);
    DivFloorBounds(divisor, b);
    assert (DivFloor(divisor, a) + 1) * divisor == DivFloor(divisor, a) * divisor + divisor;
  }

  lemma FloorMonotone(divisor: int, a: int, b: int)
    requires divisor > 0 && a <= b
    ensures DivFloor(divisor, a) * divisor <= DivFloor(divisor, b) * divisor
  {
    DivFloorBounds(divisor, a);
    DivFloorBounds(divisor, b);
    var x, y := DivFloor(divisor, a), DivFloor(divisor, b);
    ProductOrder(x, y + 1, divisor);
    ProductOrder(x, y, divisor);
  }
}
