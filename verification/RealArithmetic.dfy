/** Facts about real numbers that the solver is given one at a time. */
module RealArithmetic {
  /** 2^-52, the spacing of doubles at 1. */
  const EPSILON := 0.0000000000000002220446049250313080847263336181640625

  /** What `std::sqrt` is relied on for. */
  ghost predicate IsSqrt(sqrt: real -> real) {
    forall x :: x >= 0.0 ==> sqrt(x) >= 0.0 && sqrt(x) * sqrt(x) == x
  }

  function Abs(x: real): real {
    if x < 0.0 then -x else x
  }

  /** Products by name, for lemmas that put together what others have worked out. */
  function Mul(x: real, y: real): real {
    x * y
  }

  function Sq(x: real): real {
    x * x
  }

  lemma Product(x: real, y: real)
    requires x >= 0.0 && y >= 0.0
    ensures x * y >= 0.0
    ensures x > 0.0 && y > 0.0 ==> x * y > 0.0
  {}

  lemma TimesOrder(x: real, y: real, z: real)
    requires x <= y && z >= 0.0
    ensures x * z <= y * z && z * x <= z * y
  {
    Product(y - x, z);
  }

  lemma TimesLess(x: real, y: real, z: real)
    requires x < y && z > 0.0
    ensures x * z < y * z && z * x < z * y
  {
    Product(y - x, z);
  }

  lemma DivideOrder(x: real, y: real, z: real)
    requires z > 0.0 && Mul(x, z) <= Mul(y, z)
    ensures x <= y
  {
    if x > y {
      TimesLess(y, x, z);
    }
  }

  lemma MulTwice(x: real, y: real)
    ensures Mul(2.0 * x, y) == 2.0 * Mul(x, y)
  {}

  lemma MulCommutes(x: real, y: real)
    ensures Mul(x, y) == Mul(y, x)
  {}

  lemma SizeOfProduct(x: real, y: real)
    ensures Abs(Mul(x, y)) == Mul(Abs(x), Abs(y)) && Abs(y) >= 0.0 && (y != 0.0 ==> Abs(y) > 0.0)
  {
    AbsProduct(x, y);
  }

  lemma Cancel(k: real, x: real, y: real)
    requires k != 0.0 && k * x == k * y
    ensures x == y
  {
    assert k * (x - y) == 0.0;
  }

  lemma QuotientTimes(x: real, y: real, q: real)
    requires y != 0.0 && q == x / y
    ensures q * y == x
  {}

  lemma Quotient(x: real, y: real)
    requires (x >= 0.0 && y > 0.0) || (x <= 0.0 && y < 0.0)
    ensures x / y >= 0.0
  {}

  lemma AbsProduct(x: real, y: real)
    ensures Abs(x * y) == Abs(x) * Abs(y)
  {
    Product(Abs(x), Abs(y));
    assert x * y == Abs(x) * Abs(y) || x * y == -(Abs(x) * Abs(y));
  }

  lemma SquareGrows(x: real, y: real)
    requires 0.0 <= x < y
    ensures x * x < y * y
  {
    Product(y - x, y + x);
    var p, q := y - x, y + x;
    assert p * q == y * y - x * x;
  }

  lemma SquareOrder(x: real, y: real)
    requires 0.0 <= x <= y
    ensures x * x <= y * y
  {
    if x < y {
      SquareGrows(x, y);
    }
  }

  lemma SquareNonNegative(x: real)
    ensures x * x >= 0.0
  {
    if x >= 0.0 { Product(x, x); } else { Product(-x, -x); }
  }

  lemma SquareSign(x: real)
    ensures Sq(x) >= 0.0 && (x != 0.0 ==> Sq(x) > 0.0)
  {
    var y := -x;
    assert y * y == x * x;
    if x > 0.0 {
      SquareGrows(0.0, x);
    } else if x < 0.0 {
      SquareGrows(0.0, y);
    }
  }

  lemma DifferenceOfSquares(h: real, top: real)
    requires h > top > 0.0
    ensures h * h - top * top > 0.0
  {
    var x, y := h - top, h + top;
    Product(x, y);
    assert x * y == h * h - top * top;
  }

  function Max(x: real, y: real): real {
    if x < y then y else x
  }

  function Min(x: real, y: real): real {
    if y < x then y else x
  }

  lemma QuotientMirrored(x: real, y: real)
    requires y != 0.0
    ensures (-x) / (-y) == x / y
  {}

  lemma QuotientNegated(x: real, y: real)
    requires y != 0.0
    ensures -x / y == -(x / y)
  {
    var q := x / y;
    QuotientTimes(x, y, q);
    QuotientTimes(-x, y, -x / y);
    assert y * (-x / y) == y * -q;
    Cancel(y, -x / y, -q);
  }
}
