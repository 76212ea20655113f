/** Polynomials as coefficient arrays, highest power first, and the safeguarded Newton iteration of roots.hpp. */
module Newton {
  import opened RealArithmetic

  const TOLERANCE := 0.00000000000001

  // ---------------------------------------------------------------- values

  /** Horner's scheme. */
  function Poly(p: seq<real>, x: real): real {
    if p == [] then 0.0 else Poly(p[..|p| - 1], x) * x + p[|p| - 1]
  }

  function Pow(x: real, n: nat): real {
    if n == 0 then 1.0 else Pow(x, n - 1) * x
  }

  /** The lowest `n` powers, summed from the lowest up. */
  function LowSum(p: seq<real>, x: real, n: nat): real
    requires n <= |p|
  {
    if n == 0 then 0.0 else LowSum(p, x, n - 1) + p[|p| - n] * Pow(x, n - 1)
  }

  lemma {:induction false} LowSumShift(p: seq<real>, x: real, n: nat)
    requires 0 < n <= |p|
    ensures LowSum(p, x, n) == LowSum(p[..|p| - 1], x, n - 1) * x + p[|p| - 1]
  {
    var q := p[..|p| - 1];
    if n == 1 {
      assert LowSum(p, x, 1) == LowSum(p, x, 0) + p[|p| - 1] * Pow(x, 0);
    } else {
      LowSumShift(p, x, n - 1);
      assert q[|q| - (n - 1)] == p[|p| - n];
      ShiftStep(LowSum(q, x, n - 2), q[|q| - (n - 1)], Pow(x, n - 2), x, p[|p| - 1]);
    }
  }

  lemma ShiftStep(s: real, c: real, power: real, x: real, last: real)
    ensures (s + c * power) * x + last == (s * x + last) + c * (power * x)
  {}

  /** Summing the powers gives what Horner's scheme gives. */
  lemma {:induction false} SumIsHorner(p: seq<real>, x: real)
    ensures LowSum(p, x, |p|) == Poly(p, x)
  {
    if p != [] {
      LowSumShift(p, x, |p|);
      SumIsHorner(p[..|p| - 1], x);
    }
  }

  lemma {:induction false} PowersOfOne(n: nat)
    ensures Pow(1.0, n) == 1.0
  {
    if n > 0 {
      PowersOfOne(n - 1);
    }
  }

  /** `poly_eval`: close to zero only the constant coefficient counts. */
  function Value(p: seq<real>, x: real): real {
    if p != [] && Abs(x) < EPSILON then p[|p| - 1] else Poly(p, x)
  }

  method PolyEval(p: seq<real>, x: real) returns (r: real)
    ensures r == Value(p, x)
  {
    r := 0.0;
    if |p| == 0 {
      return;
    }
    SumIsHorner(p, x);
    var i := |p| - 1;
    if Abs(x) < EPSILON {
      r := p[|p| - 1];
    } else if x == 1.0 {
      while i >= 0
        invariant -1 <= i < |p| && r == LowSum(p, x, |p| - 1 - i)
      {
        PowersOfOne(|p| - 1 - i);
        r := r + p[i];
        i := i - 1;
      }
    } else {
      var xn := 1.0;
      while i >= 0
        invariant -1 <= i < |p| && r == LowSum(p, x, |p| - 1 - i) && xn == Pow(x, |p| - 1 - i)
      {
        r := r + p[i] * xn;
        xn := xn * x;
        i := i - 1;
      }
    }
  }

  // ---------------------------------------------------------------- derivatives

  /** The slope of the chord between `x` and `y`. */
  function Chord(p: seq<real>, x: real, y: real): real {
    if |p| <= 1 then 0.0 else Chord(p[..|p| - 1], x, y) * y + Poly(p[..|p| - 1], x)
  }

  lemma {:induction false} ChordIsSlope(p: seq<real>, x: real, y: real)
    ensures Poly(p, y) - Poly(p, x) == (y - x) * Chord(p, x, y)
  {
    if p != [] {
      var q := p[..|p| - 1];
      ChordIsSlope(q, x, y);
      ChordStep(Poly(q, x), Poly(q, y), Chord(q, x, y), x, y);
      if |p| == 1 {
        assert Poly(q, x) == 0.0 && Poly(q, y) == 0.0;
      }
    }
  }

  lemma ChordStep(u: real, v: real, s: real, x: real, y: real)
    requires v - u == (y - x) * s
    ensures v * y - u * x == (y - x) * (s * y + u)
  {
    assert (v - u) * y == (y - x) * s * y;
  }

  function Scaled(k: nat, c: real): real {
    k as real * c
  }

  function Derivative(p: seq<real>): (r: seq<real>)
    ensures |r| == if p == [] then 0 else |p| - 1
  {
    if p == [] then [] else seq(|p| - 1, i requires 0 <= i < |p| - 1 => Scaled(|p| - 1 - i, p[i]))
  }

  function Sum(p: seq<real>, q: seq<real>): (r: seq<real>)
    requires |p| == |q|
    ensures |r| == |p|
  {
    seq(|p|, i requires 0 <= i < |p| => p[i] + q[i])
  }

  lemma {:induction false} PolySum(p: seq<real>, q: seq<real>, x: real)
    requires |p| == |q|
    ensures Poly(Sum(p, q), x) == Poly(p, x) + Poly(q, x)
  {
    if p != [] {
      var n := |p| - 1;
      PolySum(p[..n], q[..n], x);
      assert Sum(p, q)[..n] == Sum(p[..n], q[..n]);
      SumStep(Poly(p[..n], x), Poly(q[..n], x), x);
    }
  }

  lemma SumStep(u: real, v: real, x: real)
    ensures (u + v) * x == u * x + v * x
  {}

  /** The coefficients computed are those of the limit of the chord. */
  lemma {:induction false} DerivativeIsChordAtOnePoint(p: seq<real>, x: real)
    ensures Poly(Derivative(p), x) == Chord(p, x, x)
  {
    hide Scaled;
    if |p| > 1 {
      var q := p[..|p| - 1];
      DerivativeIsChordAtOnePoint(q, x);
      DerivativeStep(p, q);
      PolySum(Derivative(q) + [0.0], q, x);
      PolyShift(Derivative(q), x);
    }
  }

  lemma PolyShift(p: seq<real>, x: real)
    ensures Poly(p + [0.0], x) == Poly(p, x) * x
  {
    assert (p + [0.0])[..|p|] == p;
  }

  lemma DerivativeStep(p: seq<real>, q: seq<real>)
    requires |p| > 1 && q == p[..|p| - 1]
    ensures Derivative(p) == Sum(Derivative(q) + [0.0], q)
  {
    hide Scaled;
    forall i | 0 <= i < |q| ensures Derivative(p)[i] == (Derivative(q) + [0.0])[i] + q[i] {
      ScaledStep(|p| - 1 - i, p[i]);
    }
  }

  lemma ScaledStep(k: nat, c: real)
    requires k >= 1
    ensures Scaled(k, c) == Scaled(k - 1, c) + c && Scaled(0, c) == 0.0
  {
    assert k as real == (k - 1) as real + 1.0;
  }

  method PolyDerivative(coeffs: seq<real>) returns (deriv: seq<real>)
    requires coeffs != []
    ensures deriv == Derivative(coeffs)
  {
    hide Scaled;
    deriv := [];
    for i := 0 to |coeffs| - 1
      invariant |deriv| == i && deriv == Derivative(coeffs)[..i]
    {
      deriv := deriv + [Scaled(|coeffs| - 1 - i, coeffs[i])];
    }
  }

  /** For a leading coefficient of one: the derivative made monic again. */
  method PolyMonicDerivative(coeffs: seq<real>) returns (deriv: seq<real>)
    requires |coeffs| >= 2 && coeffs[0] == 1.0
    ensures |deriv| == |coeffs| - 1 && deriv[0] == 1.0
    ensures forall i :: 0 <= i < |deriv| ==> deriv[i] * (|coeffs| - 1) as real == Derivative(coeffs)[i]
  {
    deriv := [1.0];
    for i := 1 to |coeffs| - 1
      invariant |deriv| == i && deriv[0] == 1.0
      invariant forall k :: 0 <= k < i ==> deriv[k] * (|coeffs| - 1) as real == Derivative(coeffs)[k]
    {
      deriv := deriv + [Scaled(|coeffs| - 1 - i, coeffs[i]) / (|coeffs| - 1) as real];
    }
  }

  // ---------------------------------------------------------------- how straight a polynomial is

  /** A bound for the value, the slope, and the curvature, where the argument is at most `b` in absolute value. */
  function Size(p: seq<real>, b: real): real {
    if p == [] then 0.0 else Mul(Size(p[..|p| - 1], b), b) + Abs(p[|p| - 1])
  }

  function Steepness(p: seq<real>, b: real): real {
    if |p| <= 1 then 0.0 else Mul(Steepness(p[..|p| - 1], b), b) + Size(p[..|p| - 1], b)
  }

  function Curvature(p: seq<real>, b: real): real {
    if |p| <= 1 then 0.0 else Mul(Curvature(p[..|p| - 1], b), b) + Steepness(p[..|p| - 1], b)
  }

  lemma TermBound(y: real, x: real, c: real, size: real, b: real, cb: real)
    requires Abs(y) <= size && Abs(x) <= b && Abs(c) <= cb
    ensures Abs(Mul(y, x) + c) <= Mul(size, b) + cb
  {
    AbsProduct(y, x);
    var u, v := Abs(y), Abs(x);
    TimesOrder(u, size, v);
    TimesOrder(v, b, size);
    assert Abs(Mul(y, x)) <= Mul(size, b);
    hide Mul;
  }

  lemma PolyUnfolds(p: seq<real>, x: real)
    requires p != []
    ensures Poly(p, x) == Mul(Poly(p[..|p| - 1], x), x) + p[|p| - 1]
  {}

  lemma SlopeUnfolds(p: seq<real>, x: real)
    requires |p| > 1
    ensures Chord(p, x, x) == Mul(Chord(p[..|p| - 1], x, x), x) + Poly(p[..|p| - 1], x)
  {
    hide Poly;
    var q := p[..|p| - 1];
    assert Chord(p, x, x) == Chord(q, x, x) * x + Poly(q, x);
  }

  lemma {:induction false} ValueBound(p: seq<real>, x: real, b: real)
    requires Abs(x) <= b
    ensures Abs(Poly(p, x)) <= Size(p, b)
  {
    hide Mul;
    if p != [] {
      var q := p[..|p| - 1];
      ValueBound(q, x, b);
      PolyUnfolds(p, x);
      hide Poly, Abs;
      TermBound(Poly(q, x), x, p[|p| - 1], Size(q, b), b, Abs(p[|p| - 1]));
    }
  }

  lemma {:induction false} SlopeBound(p: seq<real>, x: real, b: real)
    requires Abs(x) <= b
    ensures Abs(Chord(p, x, x)) <= Steepness(p, b)
  {
    hide Mul, Poly, Size;
    if |p| > 1 {
      var q := p[..|p| - 1];
      SlopeBound(q, x, b);
      ValueBound(q, x, b);
      SlopeUnfolds(p, x);
      hide Chord, Abs;
      TermBound(Chord(q, x, x), x, Poly(q, x), Steepness(q, b), b, Size(q, b));
    }
  }

  /** How far the polynomial is from its tangent. */
  function Remainder(p: seq<real>, x: real, y: real): real {
    Poly(p, y) - Poly(p, x) - (y - x) * Chord(p, x, x)
  }

  lemma RemainderStep(px: real, py: real, s: real, last: real, x: real, y: real)
    ensures (py * y + last) - (px * x + last) - (y - x) * (s * x + px) ==
            (py - px - (y - x) * s) * y + s * ((y - x) * (y - x))
  {
    var d := y - x;
    assert s * (d * d) == d * s * y - d * s * x;
    assert (py - px - d * s) * y == py * y - px * y - d * s * y;
    assert d * (s * x + px) == d * s * x + y * px - x * px;
  }

  lemma CurvatureUnfolds(k: real, b: real, s: real, dd: real)
    ensures Mul(Mul(k, b) + s, dd) == Mul(Mul(k, dd), b) + Mul(s, dd)
  {}

  lemma RemainderUnfolds(p: seq<real>, q: seq<real>, x: real, y: real)
    requires |p| > 1 && q == p[..|p| - 1]
    ensures Remainder(p, x, y) == Mul(Remainder(q, x, y), y) + Mul(Chord(q, x, x), Sq(y - x))
  {
    RemainderStep(Poly(q, x), Poly(q, y), Chord(q, x, x), p[|p| - 1], x, y);
  }

  lemma ConstantRemainder(p: seq<real>, x: real, y: real)
    requires |p| <= 1
    ensures Remainder(p, x, y) == 0.0
  {
    if |p| == 1 {
      assert Poly(p[..0], x) == 0.0 && Poly(p[..0], y) == 0.0;
    }
  }

  lemma ProductBound(s: real, dd: real, most: real)
    requires Abs(s) <= most && dd >= 0.0
    ensures Abs(Mul(s, dd)) <= Mul(most, dd)
  {
    AbsProduct(s, dd);
    TimesOrder(Abs(s), most, dd);
  }

  /** The curvature bounds the distance from the tangent. */
  lemma {:induction false} RemainderBound(p: seq<real>, x: real, y: real, b: real)
    requires Abs(x) <= b && Abs(y) <= b
    ensures Abs(Remainder(p, x, y)) <= Mul(Curvature(p, b), Sq(y - x))
  {
    hide Remainder, Chord, Poly, Size, Steepness, Mul, Sq;
    SquareSign(y - x);
    if |p| <= 1 {
      ConstantRemainder(p, x, y);
      NoCurvature(Sq(y - x));
    } else {
      var q := p[..|p| - 1];
      var dd, k, s := Sq(y - x), Curvature(q, b), Chord(q, x, x);
      RemainderBound(q, x, y, b);
      SlopeBound(q, x, b);
      RemainderUnfolds(p, q, x, y);
      ProductBound(s, dd, Steepness(q, b));
      hide Abs, Curvature;
      TermBound(Remainder(q, x, y), y, Mul(s, dd), Mul(k, dd), b, Mul(Steepness(q, b), dd));
      CurvatureUnfolds(k, b, Steepness(q, b), dd);
      CurvatureIs(p, q, b);
    }
  }

  lemma NoCurvature(dd: real)
    ensures Mul(0.0, dd) == 0.0
  {}

  lemma CurvatureIs(p: seq<real>, q: seq<real>, b: real)
    requires |p| > 1 && q == p[..|p| - 1]
    ensures Curvature(p, b) == Mul(Curvature(q, b), b) + Steepness(q, b)
  {}
}
