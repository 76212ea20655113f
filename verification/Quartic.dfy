/** The quartic solver of roots.hpp: the set it returns is exactly the non-negative real roots. */
module Quartics {
  import opened RealArithmetic

  function Quadratic(p: real, q: real, x: real): real {
    (x + p) * x + q
  }

  function Cubic(a: real, b: real, c: real, x: real): real {
    ((x + a) * x + b) * x + c
  }

  function Quartic(a: real, b: real, c: real, d: real, x: real): real {
    (((x + a) * x + b) * x + c) * x + d
  }

  /** What `std::cbrt` is relied on for. */
  ghost predicate IsCbrt(cbrt: real -> real) {
    forall x :: cbrt(x) * cbrt(x) * cbrt(x) == x
  }

  // ---------------------------------------------------------------- quadratic factors

  /** The coefficients of a product of two monic quadratics. */
  predicate Splits(a: real, b: real, c: real, d: real, p1: real, q1: real, p2: real, q2: real) {
    && p1 + p2 == a && q1 + q2 + Mul(p1, p2) == b
    && Mul(p1, q2) + Mul(p2, q1) == c && Mul(q1, q2) == d
  }

  lemma ProductOfQuadratics(p1: real, q1: real, p2: real, q2: real, x: real)
    ensures Quadratic(p1, q1, x) * Quadratic(p2, q2, x)
         == Quartic(p1 + p2, q1 + q2 + p1 * p2, p1 * q2 + p2 * q1, q1 * q2, x)
  {
    var x2 := x * x;
    assert Quadratic(p1, q1, x) == x2 + p1 * x + q1 && Quadratic(p2, q2, x) == x2 + p2 * x + q2;
  }

  /** A quartic that splits vanishes exactly where one of its factors does. */
  lemma SplitRoots(a: real, b: real, c: real, d: real, p1: real, q1: real, p2: real, q2: real, x: real)
    requires Splits(a, b, c, d, p1, q1, p2, q2)
    ensures Quartic(a, b, c, d, x) == 0.0 <==> Quadratic(p1, q1, x) == 0.0 || Quadratic(p2, q2, x) == 0.0
  {
    ProductOfQuadratics(p1, q1, p2, q2, x);
    ZeroProduct(Quadratic(p1, q1, x), Quadratic(p2, q2, x));
  }

  lemma ZeroProduct(x: real, y: real)
    ensures x * y == 0.0 <==> x == 0.0 || y == 0.0
  {}

  lemma CompleteSquare(p: real, q: real, x: real)
    ensures 4.0 * Quadratic(p, q, x) == Sq(2.0 * x + p) - (p * p - 4.0 * q)
  {}

  /** No real root, one, or two, by the sign of the discriminant. */
  lemma QuadraticRoots(p: real, q: real, D: real, s: real, x: real)
    requires D == p * p - 4.0 * q && (D > 0.0 ==> s >= 0.0 && s * s == D)
    ensures D < 0.0 ==> Quadratic(p, q, x) != 0.0
    ensures D == 0.0 ==> (Quadratic(p, q, x) == 0.0 <==> x == -p / 2.0)
    ensures D > 0.0 ==> (Quadratic(p, q, x) == 0.0 <==> x == (-p - s) / 2.0 || x == (-p + s) / 2.0)
  {
    var u := 2.0 * x + p;
    CompleteSquare(p, q, x);
    SquareNonNegative(u);
    hide Quadratic;
    if D == 0.0 {
      ZeroProduct(u, u);
    } else if D > 0.0 {
      assert Sq(u) - s * s == (u - s) * (u + s);
      ZeroProduct(u - s, u + s);
    }
  }

  // ---------------------------------------------------------------- the resolvent

  function Resolvent(a: real, b: real, c: real, d: real, y: real): real {
    Cubic(-b, a * c - 4.0 * d, -a * a * d - c * c + 4.0 * b * d, y)
  }

  /** What the resolvent solver returns: the real roots, each as often as it counts, or the only one. */
  datatype Zeros = Zeros(count: int, x0: real, x1: real, x2: real)

  predicate ThreeRoots(a: real, b: real, c: real, z: Zeros, y: real) {
    Cubic(a, b, c, y) == (y - z.x0) * (y - z.x1) * (y - z.x2)
  }

  predicate OneRoot(a: real, b: real, c: real, x0: real, p: real, q: real, y: real) {
    Cubic(a, b, c, y) == (y - x0) * Quadratic(p, q, y)
  }

  /** `x0` is the only real root: the quadratic factor has none. */
  ghost predicate OnlyRoot(a: real, b: real, c: real, x0: real, p: real, q: real) {
    p * p < 4.0 * q && forall y :: OneRoot(a, b, c, x0, p, q, y)
  }

  ghost predicate SolvesCubic(a: real, b: real, c: real, z: Zeros) {
    if z.count == 1 then exists p, q :: OnlyRoot(a, b, c, z.x0, p, q)
    else forall y :: ThreeRoots(a, b, c, z, y)
  }

  /** At twice the root of `d` the resolvent is not positive. */
  lemma ResolventAtTwiceRoot(a: real, b: real, c: real, d: real, r: real)
    requires r * r == d
    ensures Resolvent(a, b, c, d, 2.0 * r) == -Sq(a * r - c)
  {
    var y := 2.0 * r;
    assert y * y == 4.0 * d;
    var k := a * c - 4.0 * d;
    ExpandCubic(-b, k, -a * a * d - c * c + 4.0 * b * d, y, 4.0 * d);
    assert Sq(a * r - c) == a * a * d - 2.0 * (a * c * r) + c * c by {
      ExpandSquare(a, r, c, d);
    }
    assert a * c * y == 2.0 * (a * c * r);
    assert k * y == 2.0 * (a * c * r) - 4.0 * d * y;
    assert (-b) * (4.0 * d) == -(4.0 * b * d);
  }

  lemma ExpandCubic(a: real, b: real, c: real, y: real, yy: real)
    requires y * y == yy
    ensures Cubic(a, b, c, y) == yy * y + a * yy + b * y + c
  {}

  lemma ExpandSquare(a: real, r: real, c: real, d: real)
    requires r * r == d
    ensures Sq(a * r - c) == a * a * d - 2.0 * (a * c * r) + c * c
  {
    var x := a * r;
    assert Sq(x - c) == x * x - 2.0 * (x * c) + c * c;
    assert x * x == a * a * (r * r);
  }

  /** So one of the real roots is at least that large. */
  lemma SomeLargeRoot(a: real, b: real, c: real, d: real, z: Zeros, r: real)
    requires r * r == d && r >= 0.0
    requires SolvesCubic(-b, a * c - 4.0 * d, -a * a * d - c * c + 4.0 * b * d, z)
    ensures z.x0 >= 2.0 * r || (z.count != 1 && (z.x1 >= 2.0 * r || z.x2 >= 2.0 * r))
  {
    var y := 2.0 * r;
    ResolventAtTwiceRoot(a, b, c, d, r);
    SquareNonNegative(a * r - c);
    var A, B, C := -b, a * c - 4.0 * d, -a * a * d - c * c + 4.0 * b * d;
    assert Cubic(A, B, C, y) <= 0.0;
    hide Cubic, Resolvent;
    if z.count == 1 {
      var p, q :| OnlyRoot(A, B, C, z.x0, p, q);
      OnlyRootLarge(A, B, C, z.x0, p, q, y);
    } else {
      ThreeRootsLarge(A, B, C, z, y);
    }
  }

  lemma OnlyRootLarge(a: real, b: real, c: real, x0: real, p: real, q: real, y: real)
    requires OnlyRoot(a, b, c, x0, p, q) && Cubic(a, b, c, y) <= 0.0
    ensures x0 >= y
  {
    assert OneRoot(a, b, c, x0, p, q, y);
    PositiveQuadratic(p, q, y);
    hide Cubic, Quadratic, OnlyRoot;
    if x0 < y {
      Product(y - x0, Quadratic(p, q, y));
    }
  }

  lemma ThreeRootsLarge(a: real, b: real, c: real, z: Zeros, y: real)
    requires ThreeRoots(a, b, c, z, y) && Cubic(a, b, c, y) <= 0.0
    ensures z.x0 >= y || z.x1 >= y || z.x2 >= y
  {
    hide Cubic;
    if z.x0 < y && z.x1 < y && z.x2 < y {
      PositiveTriple(y - z.x0, y - z.x1, y - z.x2);
    }
  }

  lemma PositiveTriple(x: real, y: real, z: real)
    requires x > 0.0 && y > 0.0 && z > 0.0
    ensures x * y * z > 0.0
  {
    Product(x, y);
    Product(x * y, z);
  }

  lemma PositiveQuadratic(p: real, q: real, y: real)
    requires p * p < 4.0 * q
    ensures Quadratic(p, q, y) > 0.0
  {
    CompleteSquare(p, q, y);
    SquareNonNegative(2.0 * y + p);
    hide Quadratic;
  }

  // ---------------------------------------------------------------- the factors computed

  /** The root of greatest absolute value. */
  function Greatest(z: Zeros): real {
    var y := if z.count != 1 && Abs(z.x1) > Abs(z.x0) then z.x1 else z.x0;
    if z.count != 1 && Abs(z.x2) > Abs(y) then z.x2 else y
  }

  lemma RootsAreRoots(a: real, b: real, c: real, z: Zeros)
    requires SolvesCubic(a, b, c, z)
    ensures Cubic(a, b, c, z.x0) == 0.0
    ensures z.count != 1 ==> Cubic(a, b, c, z.x1) == 0.0 && Cubic(a, b, c, z.x2) == 0.0
  {
    hide Cubic, Quadratic;
    if z.count == 1 {
      var p, q :| OnlyRoot(a, b, c, z.x0, p, q);
      assert OneRoot(a, b, c, z.x0, p, q, z.x0);
    } else {
      assert ThreeRoots(a, b, c, z, z.x0) && ThreeRoots(a, b, c, z, z.x1) && ThreeRoots(a, b, c, z, z.x2);
    }
  }

  lemma GreatestIsRoot(a: real, b: real, c: real, z: Zeros)
    requires SolvesCubic(a, b, c, z)
    ensures Cubic(a, b, c, Greatest(z)) == 0.0
  {
    RootsAreRoots(a, b, c, z);
    hide Cubic, SolvesCubic;
  }

  /** The root chosen makes the first discriminant non-negative, whatever the coefficients. */
  lemma GreatestIsLarge(sqrt: real -> real, a: real, b: real, c: real, d: real, z: Zeros)
    requires IsSqrt(sqrt) && SolvesCubic(-b, a * c - 4.0 * d, -a * a * d - c * c + 4.0 * b * d, z)
    ensures Resolvent(a, b, c, d, Greatest(z)) == 0.0
    ensures Greatest(z) * Greatest(z) - 4.0 * d >= 0.0
  {
    GreatestIsRoot(-b, a * c - 4.0 * d, -a * a * d - c * c + 4.0 * b * d, z);
    assert Resolvent(a, b, c, d, Greatest(z)) == 0.0;
    hide Cubic, SolvesCubic, IsSqrt, Resolvent, Greatest;
    SquareNonNegative(Greatest(z));
    if d >= 0.0 {
      SquareRootOf(sqrt, d);
      SomeLargeRoot(a, b, c, d, z, sqrt(d));
      GreatestAbove(z, sqrt(d), d);
    }
  }

  lemma GreatestAbove(z: Zeros, r: real, d: real)
    requires r >= 0.0 && r * r == d
    requires z.x0 >= 2.0 * r || (z.count != 1 && (z.x1 >= 2.0 * r || z.x2 >= 2.0 * r))
    ensures Greatest(z) * Greatest(z) >= 4.0 * d
  {
    LargeSquare(Greatest(z), r, d);
  }

  lemma LargeSquare(y: real, r: real, d: real)
    requires r >= 0.0 && r * r == d && Abs(y) >= 2.0 * r
    ensures y * y >= 4.0 * d
  {
    SquareOrder(2.0 * r, Abs(y));
    assert Abs(y) * Abs(y) == y * y && (2.0 * r) * (2.0 * r) == 4.0 * d;
  }

  lemma ResolventEquation(a: real, b: real, c: real, d: real, y: real, D: real)
    requires Resolvent(a, b, c, d, y) == 0.0 && D == y * y - 4.0 * d
    ensures Mul(b - y, D) == a * c * y - a * a * d - c * c
  {
    ExpandCubic(-b, a * c - 4.0 * d, -a * a * d - c * c + 4.0 * b * d, y, y * y);
    hide Cubic;
    var yy := y * y;
    assert (b - y) * D == b * yy - 4.0 * b * d - yy * y + 4.0 * d * y;
    assert (a * c - 4.0 * d) * y == a * c * y - 4.0 * d * y;
  }

  /** With different constant terms the linear ones follow from the coefficients. */
  lemma DistinctFactors(a: real, b: real, c: real, d: real, y: real, s: real, q1: real, q2: real, p1: real, p2: real)
    requires Resolvent(a, b, c, d, y) == 0.0 && s > 0.0 && Sq(s) == y * y - 4.0 * d > 0.0
    requires q1 == (y + s) / 2.0 && q2 == (y - s) / 2.0 && Mul(p1, s) == a * q1 - c && Mul(p2, s) == c - a * q2
    ensures Splits(a, b, c, d, p1, q1, p2, q2)
  {
    ResolventEquation(a, b, c, d, y, y * y - 4.0 * d);
    ConstantTerm(y, s, d, q1, q2);
    hide Resolvent, Mul, Sq;
    SumOfLinear(a, c, s, q1, q2, p1, p2);
    CrossTerms(a, c, s, q1, q2, p1, p2);
    SquareTerm(a, b, c, d, y, s, q1, q2, p1, p2, y * y - 4.0 * d);
  }

  lemma ConstantTerm(y: real, s: real, d: real, q1: real, q2: real)
    requires Sq(s) == y * y - 4.0 * d && q1 == (y + s) / 2.0 && q2 == (y - s) / 2.0
    ensures Mul(q1, q2) == d
  {}

  lemma SumOfLinear(a: real, c: real, s: real, q1: real, q2: real, p1: real, p2: real)
    requires s > 0.0 && q1 - q2 == s && Mul(p1, s) == a * q1 - c && Mul(p2, s) == c - a * q2
    ensures p1 + p2 == a
  {
    assert s * (p1 + p2) == s * a;
    Cancel(s, p1 + p2, a);
  }

  lemma CrossTerms(a: real, c: real, s: real, q1: real, q2: real, p1: real, p2: real)
    requires s > 0.0 && q1 - q2 == s && Mul(p1, s) == a * q1 - c && Mul(p2, s) == c - a * q2
    ensures Mul(p1, q2) + Mul(p2, q1) == c
  {
    var x := p1 * q2 + p2 * q1;
    assert s * x == (p1 * s) * q2 + (p2 * s) * q1;
    assert s * x == s * c;
    Cancel(s, x, c);
  }

  lemma SquareTerm(a: real, b: real, c: real, d: real, y: real, s: real, q1: real, q2: real, p1: real, p2: real,
                   D: real)
    requires s > 0.0 && q1 + q2 == y && Mul(q1, q2) == d && Mul(p1, s) == a * q1 - c && Mul(p2, s) == c - a * q2
    requires D > 0.0 && Sq(s) == D && Mul(b - y, D) == a * c * y - a * a * d - c * c
    ensures q1 + q2 + Mul(p1, p2) == b
  {
    var u, w := a * q1 - c, c - a * q2;
    ScaledProduct(p1, p2, s, u, w);
    LinearProduct(a, c, d, y, q1, q2, u, w);
    hide Mul, Sq;
    CancelBoth(D, Mul(p1, p2), b - y, Mul(u, w));
  }

  lemma ScaledProduct(p1: real, p2: real, s: real, u: real, w: real)
    requires Mul(p1, s) == u && Mul(p2, s) == w
    ensures Mul(Sq(s), Mul(p1, p2)) == Mul(u, w)
  {
    assert (s * s) * (p1 * p2) == (p1 * s) * (p2 * s);
  }

  lemma CancelBoth(k: real, x: real, y: real, v: real)
    requires k != 0.0 && Mul(k, x) == v && Mul(y, k) == v
    ensures x == y
  {
    Cancel(k, x, y);
  }

  lemma LinearProduct(a: real, c: real, d: real, y: real, q1: real, q2: real, u: real, w: real)
    requires q1 + q2 == y && Mul(q1, q2) == d && u == a * q1 - c && w == c - a * q2
    ensures Mul(u, w) == a * c * y - a * a * d - c * c
  {
    var m := q1 * q2;
    assert u * w == a * c * q1 - a * a * m - c * c + a * c * q2;
    assert a * c * y == a * c * q1 + a * c * q2;
  }

  /** With equal constant terms the resolvent leaves a perfect square, and the linear terms solve a quadratic. */
  lemma EqualConstants(a: real, b: real, c: real, d: real, y: real)
    requires Resolvent(a, b, c, d, y) == 0.0 && y * y - 4.0 * d == 0.0
    ensures a * y == 2.0 * c
  {
    ResolventEquation(a, b, c, d, y, 0.0);
    hide Resolvent;
    assert a * c * y - a * a * d - c * c == 0.0;
    var u := a * y - 2.0 * c;
    assert a * a * d == a * a * (y * y) / 4.0;
    assert u * u == a * a * (y * y) - 4.0 * (a * c * y) + 4.0 * (c * c);
    ZeroProduct(u, u);
  }

  lemma EqualFactors(a: real, b: real, c: real, d: real, y: real, s: real)
    requires a * y == 2.0 * c && y * y == 4.0 * d && s * s == a * a - 4.0 * (b - y)
    ensures Splits(a, b, c, d, (a + s) / 2.0, y / 2.0, (a - s) / 2.0, y / 2.0)
  {}

  // ---------------------------------------------------------------- the solver

  /** A set on the stack: an array and how much of it is used. Negative values are not taken. */
  class PositiveSet {
    const data: array<real>
    var size: nat

    ghost predicate Valid()
      reads this
    {
      size <= data.Length
    }

    ghost function Contents(): seq<real>
      requires Valid()
      reads this, data
    {
      data[..size]
    }

    constructor (n: nat)
      ensures Valid() && Contents() == [] && data.Length == n && fresh(data)
    {
      data := new real[n](_ => 0.0);
      size := 0;
    }

    method Insert(value: real)
      requires Valid() && (value >= 0.0 ==> size < data.Length)
      modifies this`size, data
      ensures Valid() && Contents() == old(Contents()) + if value >= 0.0 then [value] else []
    {
      if value >= 0.0 {
        data[size] := value;
        size := size + 1;
      }
    }

    /** The real roots of `x * x + p * x + q`. */
    method InsertQuadraticRoots(sqrt: real -> real, p: real, q: real)
      requires Valid() && size + 2 <= data.Length && IsSqrt(sqrt)
      modifies this`size, data
      ensures Valid() && size <= old(size) + 2
      ensures forall x :: x in Contents() <==> x in old(Contents()) || (x >= 0.0 && Quadratic(p, q, x) == 0.0)
    {
      hide Quadratic, IsSqrt;
      var D := p * p - 4.0 * q;
      ghost var s := sqrt(D);
      SquareRootOf(sqrt, D);
      forall x ensures
        if D == 0.0 then Quadratic(p, q, x) == 0.0 <==> x == -p / 2.0
        else if D > 0.0 then Quadratic(p, q, x) == 0.0 <==> x == (-p - s) / 2.0 || x == (-p + s) / 2.0
        else Quadratic(p, q, x) != 0.0
      {
        QuadraticRoots(p, q, D, s, x);
      }
      if D == 0.0 {
        Insert(-p / 2.0);
      } else if D > 0.0 {
        var sqrtD := sqrt(D);
        Insert((-p - sqrtD) / 2.0);
        Insert((-p + sqrtD) / 2.0);
      }
    }
  }

  lemma SquareRootOf(sqrt: real -> real, x: real)
    requires IsSqrt(sqrt)
    ensures x >= 0.0 ==> sqrt(x) >= 0.0 && sqrt(x) * sqrt(x) == x && Sq(sqrt(x)) == x
    ensures x > 0.0 ==> sqrt(x) > 0.0
  {}

  // ---------------------------------------------------------------- the quartic

  ghost predicate SolvesEveryCubic(resolve: (real, real, real) -> Zeros) {
    forall a, b, c :: SolvesCubic(a, b, c, resolve(a, b, c))
  }

  lemma NoConstantTerms(a: real, b: real, x: real)
    ensures Quartic(a, b, 0.0, 0.0, x) == 0.0 <==> x == 0.0 || Quadratic(a, b, x) == 0.0
  {
    assert Quartic(a, b, 0.0, 0.0, x) == (Quadratic(a, b, x) * x) * x;
    ZeroProduct(Quadratic(a, b, x) * x, x);
    ZeroProduct(Quadratic(a, b, x), x);
  }

  lemma CubeDifference(x: real, y: real, e: real, k: real)
    requires e == y - x && k == y * y + x * y + x * x
    ensures e * k == y * y * y - x * x * x
    ensures 4.0 * k == 3.0 * Sq(y + x) + Sq(e)
  {}

  lemma CubeGrows(x: real, y: real)
    requires x < y
    ensures x * x * x < y * y * y
  {
    var e, k := y - x, y * y + x * y + x * x;
    CubeDifference(x, y, e, k);
    SquareSign(y + x);
    SquareSign(e);
    hide Sq;
    assert k > 0.0;
    Product(e, k);
  }

  lemma OnlyCubic(cbrt: real -> real, c: real, x: real)
    requires IsCbrt(cbrt)
    ensures Quartic(0.0, 0.0, c, 0.0, x) == 0.0 <==> x == 0.0 || x == -cbrt(c)
  {
    var r := -cbrt(c);
    assert r * r * r == -(cbrt(c) * cbrt(c) * cbrt(c)) == -c;
    assert Quartic(0.0, 0.0, c, 0.0, x) == (x * x * x + c) * x;
    ZeroProduct(x * x * x + c, x);
    hide Quartic;
    if x < r {
      CubeGrows(x, r);
    } else if r < x {
      CubeGrows(r, x);
    }
  }

  /** The real roots of the quartic in terms of those of its factors. */
  method InsertFactors(roots: PositiveSet, sqrt: real -> real, p1: real, q1: real, p2: real, q2: real,
                       ghost a: real, ghost b: real, ghost c: real, ghost d: real)
    requires roots.Valid() && roots.Contents() == [] && roots.data.Length == 4 && IsSqrt(sqrt)
    requires Splits(a, b, c, d, p1, q1, p2, q2)
    modifies roots`size, roots.data
    ensures roots.Valid()
    ensures forall x :: x in roots.Contents() <==> x >= 0.0 && Quartic(a, b, c, d, x) == 0.0
  {
    hide Quadratic, Quartic, Splits, IsSqrt;
    assert roots.size == |roots.Contents()|;
    roots.InsertQuadraticRoots(sqrt, p1, q1);
    roots.InsertQuadraticRoots(sqrt, p2, q2);
    forall x ensures Quartic(a, b, c, d, x) == 0.0 <==> Quadratic(p1, q1, x) == 0.0 || Quadratic(p2, q2, x) == 0.0 {
      SplitRoots(a, b, c, d, p1, q1, p2, q2, x);
    }
  }

  /** If the equal constant terms leave the linear ones complex, there is no real root. */
  lemma ComplexFactors(a: real, b: real, c: real, d: real, y: real, x: real)
    requires a * y == 2.0 * c && y * y == 4.0 * d && a * a - 4.0 * (b - y) < 0.0 && (c != 0.0 || d != 0.0)
    ensures Quartic(a, b, c, d, x) != 0.0
  {
    var u, D := x * x + a * x / 2.0 + y / 2.0, a * a - 4.0 * (b - y);
    ComplexSquares(a, b, c, d, y, x, u, D);
    hide Quartic;
    SquareNonNegative(u);
    SquareNonNegative(x);
    if x == 0.0 {
      assert u == y / 2.0;
      ZeroProduct(u, u);
    } else {
      ZeroProduct(x, x);
      Product(x * x, -D);
      assert (x * x) * -D == -D * (x * x);
    }
  }

  lemma ComplexSquares(a: real, b: real, c: real, d: real, y: real, x: real, u: real, D: real)
    requires a * y == 2.0 * c && y * y == 4.0 * d && u == x * x + a * x / 2.0 + y / 2.0 && D == a * a - 4.0 * (b - y)
    ensures 4.0 * Quartic(a, b, c, d, x) == 4.0 * (u * u) + -D * (x * x)
  {
    var xx := x * x;
    assert 4.0 * (u * u) ==
           4.0 * (xx * xx) + 4.0 * (a * (xx * x)) + 4.0 * (y * xx) + a * a * xx + 2.0 * (a * y * x) + y * y by {
      var h, g := a * x / 2.0, y / 2.0;
      assert u * u == xx * xx + h * h + g * g + 2.0 * (xx * h) + 2.0 * (xx * g) + 2.0 * (h * g);
      assert 4.0 * (h * h) == a * a * xx;
    }
    assert Quartic(a, b, c, d, x) == xx * xx + a * (xx * x) + b * xx + c * x + d;
    assert a * y * x == 2.0 * c * x;
    assert -D * xx == -(a * a * xx) + 4.0 * (b * xx) - 4.0 * (y * xx);
  }

  /** Without a constant and a linear term, or with those alone, the roots are read off. */
  method SolveDegenerate(roots: PositiveSet, sqrt: real -> real, cbrt: real -> real, a: real, b: real, c: real)
    requires roots.Valid() && roots.Contents() == [] && roots.data.Length == 4 && IsSqrt(sqrt) && IsCbrt(cbrt)
    requires c == 0.0 || (a == 0.0 && b == 0.0)
    modifies roots`size, roots.data
    ensures roots.Valid()
    ensures forall x :: x in roots.Contents() <==> x >= 0.0 && Quartic(a, b, c, 0.0, x) == 0.0
  {
    hide Quadratic, Quartic, IsSqrt, IsCbrt;
    assert roots.size == |roots.Contents()|;
    roots.Insert(0.0);
    assert roots.size == |roots.Contents()|;
    if c == 0.0 {
      roots.InsertQuadraticRoots(sqrt, a, b);
      forall x ensures Quartic(a, b, 0.0, 0.0, x) == 0.0 <==> x == 0.0 || Quadratic(a, b, x) == 0.0 {
        NoConstantTerms(a, b, x);
      }
    } else {
      roots.Insert(-cbrt(c));
      forall x ensures Quartic(0.0, 0.0, c, 0.0, x) == 0.0 <==> x == 0.0 || x == -cbrt(c) {
        OnlyCubic(cbrt, c, x);
      }
    }
  }

  /** The case of equal constant terms. */
  method SolveEqual(roots: PositiveSet, sqrt: real -> real, a: real, b: real, c: real, d: real, y: real)
    requires roots.Valid() && roots.Contents() == [] && roots.data.Length == 4 && IsSqrt(sqrt)
    requires a * y == 2.0 * c && y * y == 4.0 * d && (c != 0.0 || d != 0.0)
    modifies roots`size, roots.data
    ensures roots.Valid()
    ensures forall x :: x in roots.Contents() <==> x >= 0.0 && Quartic(a, b, c, d, x) == 0.0
  {
    var D := a * a - 4.0 * (b - y);
    if D == 0.0 {
      EqualFactors(a, b, c, d, y, 0.0);
      assert (a + 0.0) / 2.0 == a / 2.0 == (a - 0.0) / 2.0;
      hide Quartic, Splits, IsSqrt;
      InsertFactors(roots, sqrt, a / 2.0, y / 2.0, a / 2.0, y / 2.0, a, b, c, d);
    } else if D > 0.0 {
      SquareRootOf(sqrt, D);
      var sqrtD := sqrt(D);
      EqualFactors(a, b, c, d, y, sqrtD);
      hide Quartic, Splits, IsSqrt;
      InsertFactors(roots, sqrt, (a + sqrtD) / 2.0, y / 2.0, (a - sqrtD) / 2.0, y / 2.0, a, b, c, d);
    } else {
      // The square root is not a number, and no comparison with what follows from it holds.
      hide Quartic, IsSqrt;
      forall x ensures Quartic(a, b, c, d, x) != 0.0 {
        ComplexFactors(a, b, c, d, y, x);
      }
    }
  }

  /** The case of different constant terms. */
  method SolveDistinct(roots: PositiveSet, sqrt: real -> real, a: real, b: real, c: real, d: real, y: real, D: real)
    requires roots.Valid() && roots.Contents() == [] && roots.data.Length == 4 && IsSqrt(sqrt)
    requires Resolvent(a, b, c, d, y) == 0.0 && D == y * y - 4.0 * d > 0.0
    modifies roots`size, roots.data
    ensures roots.Valid()
    ensures forall x :: x in roots.Contents() <==> x >= 0.0 && Quartic(a, b, c, d, x) == 0.0
  {
    hide Quartic, Splits, IsSqrt, Resolvent, Sq;
    SquareRootOf(sqrt, D);
    var sqrtD := sqrt(D);
    var q1, q2 := (y + sqrtD) / 2.0, (y - sqrtD) / 2.0;
    assert q1 - q2 == sqrtD;
    var p1, p2 := (a * q1 - c) / (q1 - q2), (c - a * q2) / (q1 - q2);
    DistinctFactors(a, b, c, d, y, sqrtD, q1, q2, p1, p2);
    InsertFactors(roots, sqrt, p1, q1, p2, q2, a, b, c, d);
  }

  /** All the non-negative real roots, and nothing else. */
  method SolveQuartMonic(sqrt: real -> real, cbrt: real -> real, resolve: (real, real, real) -> Zeros,
                         a: real, b: real, c: real, d: real) returns (roots: PositiveSet)
    requires IsSqrt(sqrt) && IsCbrt(cbrt) && SolvesEveryCubic(resolve)
    ensures roots.Valid() && fresh(roots) && fresh(roots.data)
    ensures forall x :: x in roots.Contents() <==> x >= 0.0 && Quartic(a, b, c, d, x) == 0.0
  {
    hide Quartic, IsSqrt, IsCbrt, Resolvent, SolvesCubic, Greatest;
    roots := new PositiveSet(4);
    if d == 0.0 && (c == 0.0 || (a == 0.0 && b == 0.0)) {
      SolveDegenerate(roots, sqrt, cbrt, a, b, c);
      return;
    }
    var z := resolve(-b, a * c - 4.0 * d, -a * a * d - c * c + 4.0 * b * d);
    var y := Greatest(z);
    GreatestIsLarge(sqrt, a, b, c, d, z);
    var D := y * y - 4.0 * d;
    if D == 0.0 {
      EqualConstants(a, b, c, d, y);
      SolveEqual(roots, sqrt, a, b, c, d, y);
    } else {
      SolveDistinct(roots, sqrt, a, b, c, d, y, D);
    }
  }
}
