/** The safeguarded Newton iteration of roots.hpp: what each step does, and when the iterations are enough. */
module SafeNewton {
  import opened Newton
  import opened RealArithmetic

  // ---------------------------------------------------------------- one step

  predicate Between(l: real, x: real, h: real) {
    (l <= x <= h) || (h <= x <= l)
  }

  lemma BisectionStays(l: real, h: real)
    ensures Between(l, l + (h - l) / 2.0, h)
  {}

  /** A Newton step that passes the test stays in the bracket. */
  lemma NewtonStays(l: real, h: real, x: real, f: real, df: real)
    requires df != 0.0 && ((x - h) * df - f) * ((x - l) * df - f) <= 0.0
    ensures Between(l, x - f / df, h)
  {
    var step := f / df;
    var u, w := x - step - h, x - step - l;
    assert step * df == f;
    assert (x - h) * df - f == u * df && (x - l) * df - f == w * df;
    SameSign(u, w, df);
    if u > 0.0 && w > 0.0 {
      Product(u, w);
    } else if u < 0.0 && w < 0.0 {
      Product(-u, -w);
    }
  }

  lemma SameSign(u: real, w: real, df: real)
    requires df != 0.0 && (u * df) * (w * df) <= 0.0
    ensures u * w <= 0.0
  {
    SquareSign(df);
    var k := df * df;
    assert (u * df) * (w * df) == (u * w) * k;
    if u * w > 0.0 {
      Product(u * w, k);
    }
  }

  /** The test for a bisection step. */
  predicate Bisects(l: real, h: real, x: real, f: real, df: real, dxold: real) {
    ((x - h) * df - f) * ((x - l) * df - f) > 0.0 || Abs(2.0 * f) > Abs(dxold * df)
  }

  lemma TestedStep(l: real, h: real, x: real, f: real, df: real, dxold: real)
    requires df != 0.0 && !Bisects(l, h, x, f, df, dxold)
    ensures Between(l, x - f / df, h)
  {
    NewtonStays(l, h, x, f, df);
  }

  lemma ZeroSlope(l: real, h: real, x: real, f: real, dxold: real)
    requires !Bisects(l, h, x, f, 0.0, dxold)
    ensures f == 0.0
  {
    SquareSign(f);
    assert ((x - h) * 0.0 - f) * ((x - l) * 0.0 - f) == f * f;
  }

  /** Two points of the original bracket, with `x` between them, at which the value is negative and not negative. */
  predicate Brackets(p: seq<real>, l: real, x: real, h: real, lbound: real, ubound: real) {
    && lbound <= l <= ubound && lbound <= h <= ubound && Between(l, x, h)
    && Value(p, l) < 0.0 <= Value(p, h)
  }

  /**
   * Why the iteration stopped: an end was a zero; a halving was short enough; a Newton step from `from` was; the
   * iterations were used up; or a Newton step had no slope. `l` and `h` are the bracket of the last step.
   */
  datatype Stop =
    | AtEnd
    | Halved(l: real, h: real)
    | Converged(l: real, h: real, from: real)
    | UsedUp(l: real, h: real)
    | NoSlope(at: real)

  /** What each way of stopping says about the result. */
  predicate Achieved(p: seq<real>, lbound: real, ubound: real, rts: real, stop: Stop) {
    match stop
    case AtEnd => (rts == lbound || rts == ubound) && Value(p, rts) == 0.0
    case Halved(l, h) => Brackets(p, l, rts, h, lbound, ubound) && rts == l + (h - l) / 2.0
                         && Abs(h - l) < 2.0 * TOLERANCE
    case Converged(l, h, from) =>
      && Brackets(p, l, rts, h, lbound, ubound) && Between(l, from, h) && Value(Derivative(p), from) != 0.0
      && rts == from - Value(p, from) / Value(Derivative(p), from)
      && Abs(Value(p, from) / Value(Derivative(p), from)) < TOLERANCE
    case UsedUp(l, h) => Brackets(p, l, rts, h, lbound, ubound)
    case NoSlope(at) => lbound <= at <= ubound && Value(p, at) == 0.0 && Value(Derivative(p), at) == 0.0
  }

  // ---------------------------------------------------------------- runs

  /** Bracket, iterate, last step and the step before it. */
  datatype State = State(l: real, h: real, x: real, dx: real, dxold: real)

  const ITERATIONS := 128

  /** The iteration begins in the middle, from the end with a negative value to the other. */
  predicate Begins(p: seq<real>, lbound: real, ubound: real, s: State) {
    && Value(p, s.l) < 0.0 < Value(p, s.h) && ((s.l, s.h) == (lbound, ubound) || (s.l, s.h) == (ubound, lbound))
    && s.x == (s.l + s.h) / 2.0 && s.dx == s.dxold == Abs(s.h - s.l)
  }

  predicate Halves(p: seq<real>, s: State) {
    Bisects(s.l, s.h, s.x, Value(p, s.x), Value(Derivative(p), s.x), s.dxold)
  }

  /** A step halves the bracket, or else goes to the zero of the tangent; the end with the same sign moves along. */
  predicate Follows(p: seq<real>, s: State, s': State) {
    && s'.dxold == s.dx
    && (if Halves(p, s) then s'.dx == (s.h - s.l) / 2.0 && s'.x == s.l + s'.dx
        else Value(Derivative(p), s.x) != 0.0 && s'.dx == Value(p, s.x) / Value(Derivative(p), s.x)
             && s'.x == s.x - s'.dx)
    && (if Value(p, s'.x) < 0.0 then s'.l == s'.x && s'.h == s.h else s'.l == s.l && s'.h == s'.x)
  }

  /** A run in which no step has been short enough to stop. */
  predicate IsRun(p: seq<real>, lbound: real, ubound: real, run: seq<State>) {
    && run != [] && Begins(p, lbound, ubound, run[0])
    && forall k :: 1 <= k < |run| ==> Follows(p, run[k - 1], run[k]) && Abs(run[k].dx) >= TOLERANCE
  }

  function Width(s: State): real {
    Abs(s.h - s.l)
  }

  /** The state brackets a change of sign inside the original bracket. */
  predicate Bracketed(p: seq<real>, lbound: real, ubound: real, s: State) {
    Brackets(p, s.l, s.x, s.h, lbound, ubound)
  }

  lemma QuotientSmall(f: real, df: real, y: real)
    requires df != 0.0 && Abs(f) <= Abs(Mul(y, df))
    ensures Abs(f / df) <= Abs(y)
  {
    var q := f / df;
    QuotientTimes(f, df, q);
    SizeOfProduct(q, df);
    SizeOfProduct(y, df);
    hide Abs;
    DivideOrder(Abs(q), Abs(y), Abs(df));
  }

  /** A halving halves the bracket; a Newton step stays in it and is at most half the step before the last. */
  lemma StepSizes(p: seq<real>, lbound: real, ubound: real, s: State, s': State)
    requires Bracketed(p, lbound, ubound, s) && Follows(p, s, s')
    ensures Bracketed(p, lbound, ubound, s') && (s'.x == s'.l || s'.x == s'.h) && Width(s') <= Width(s)
    ensures Halves(p, s) ==> Abs(s'.dx) == Width(s) / 2.0 == Width(s')
    ensures !Halves(p, s) ==> Abs(s'.dx) <= Abs(s.dxold) / 2.0 && Abs(s'.dx) <= Width(s)
  {
    hide Value, Derivative;
    var f, df := Value(p, s.x), Value(Derivative(p), s.x);
    if Halves(p, s) {
      BisectionStays(s.l, s.h);
    } else {
      TestedStep(s.l, s.h, s.x, f, df, s.dxold);
      assert Abs(f) <= Abs(Mul(s.dxold / 2.0, df)) by {
        AbsProduct(s.dxold, df);
        AbsProduct(s.dxold / 2.0, df);
        AbsProduct(2.0, f);
      }
      QuotientSmall(f, df, s.dxold / 2.0);
    }
  }

  lemma BeginBracketed(p: seq<real>, lbound: real, ubound: real, s: State)
    requires Begins(p, lbound, ubound, s) && lbound <= ubound
    ensures Bracketed(p, lbound, ubound, s) && Width(s) == ubound - lbound
  {
    hide Value;
  }

  lemma {:induction false} RunBracketed(p: seq<real>, lbound: real, ubound: real, run: seq<State>, k: nat)
    requires IsRun(p, lbound, ubound, run) && lbound <= ubound && k < |run|
    ensures Bracketed(p, lbound, ubound, run[k]) && Width(run[k]) <= ubound - lbound
  {
    hide Bracketed, Follows, Begins, Width;
    if k == 0 {
      BeginBracketed(p, lbound, ubound, run[0]);
    } else {
      RunBracketed(p, lbound, ubound, run, k - 1);
      StepSizes(p, lbound, ubound, run[k - 1], run[k]);
    }
  }

  // ---------------------------------------------------------------- enough iterations for a short bracket

  function Twice(n: nat): (r: real)
    ensures r > 0.0
  {
    if n == 0 then 1.0 else 2.0 * Twice(n - 1)
  }

  function Triangle(n: nat): nat {
    if n == 0 then 0 else n + Triangle(n - 1)
  }

  /** At most `2^n` times the tolerance. */
  predicate Scaled2(x: real, n: nat) {
    Abs(x) <= Twice(n) * TOLERANCE
  }

  lemma OneLess(x: real, y: real, n: nat)
    requires Scaled2(y, n) && TOLERANCE <= Abs(x) <= Abs(y) / 2.0
    ensures n > 0 && Scaled2(x, n - 1)
  {}

  /**
   * Each step uses up a halving of the bracket or a halving of one of the last two steps, and a halving of the
   * bracket gives back at most as many of the latter as are left of the former.
   */
  lemma {:induction false} StepsLeft(p: seq<real>, lbound: real, ubound: real, run: seq<State>, k: nat, n: nat)
    returns (a: nat, c: nat, m: nat)
    requires IsRun(p, lbound, ubound, run) && lbound <= ubound && k < |run| && Scaled2(ubound - lbound, n)
    ensures Scaled2(run[k].dx, a) && Scaled2(run[k].dxold, c) && Scaled2(Width(run[k]), m)
    ensures k + a + c + Triangle(m) <= 2 * n + Triangle(n)
    decreases k
  {
    hide Bracketed, Follows, Begins, Value, Scaled2;
    if k == 0 {
      BeginBracketed(p, lbound, ubound, run[0]);
      FirstSizes(p, lbound, ubound, run[0], n);
      a, c, m := n, n, n;
    } else {
      var s, s' := run[k - 1], run[k];
      var a0, c0, m0 := StepsLeft(p, lbound, ubound, run, k - 1, n);
      RunBracketed(p, lbound, ubound, run, k - 1);
      StepSizes(p, lbound, ubound, s, s');
      OldIsLast(p, s, s');
      c := a0;
      if Halves(p, s) {
        OneLess(s'.dx, Width(s), m0);
        OneLess(Width(s'), Width(s), m0);
        a, m := m0 - 1, m0 - 1;
      } else {
        OneLess(s'.dx, s.dxold, c0);
        NotMore(Width(s'), Width(s), m0);
        a, m := c0 - 1, m0;
      }
    }
  }

  lemma FirstSizes(p: seq<real>, lbound: real, ubound: real, s: State, n: nat)
    requires Begins(p, lbound, ubound, s) && lbound <= ubound && Scaled2(ubound - lbound, n)
    ensures Scaled2(s.dx, n) && Scaled2(s.dxold, n) && Scaled2(Width(s), n)
  {
    hide Value;
  }

  lemma OldIsLast(p: seq<real>, s: State, s': State)
    requires Follows(p, s, s')
    ensures s'.dxold == s.dx
  {}

  lemma NotMore(x: real, y: real, n: nat)
    requires Scaled2(y, n) && Abs(x) <= Abs(y)
    ensures Scaled2(x, n)
  {}

  /** A bracket of at most `2^13` times the tolerance never uses up the iterations, whatever the polynomial. */
  predicate Short(lbound: real, ubound: real) {
    ubound - lbound <= 8192.0 * TOLERANCE
  }

  lemma ShortIsEnough(p: seq<real>, lbound: real, ubound: real, run: seq<State>)
    requires IsRun(p, lbound, ubound, run) && lbound <= ubound && Short(lbound, ubound)
    ensures |run| <= 118
  {
    assert Twice(13) == 8192.0 && Triangle(13) == 91 by {
      assert Twice(4) == 16.0 && Twice(8) == 256.0 && Twice(12) == 4096.0;
      assert Triangle(4) == 10 && Triangle(8) == 36 && Triangle(12) == 78;
    }
    var a, c, m := StepsLeft(p, lbound, ubound, run, |run| - 1, 13);
  }

  // ---------------------------------------------------------------- enough iterations for a nearly straight polynomial

  function Furthest(lbound: real, ubound: real): real {
    Max(Abs(lbound), Abs(ubound))
  }

  /**
   * Over the bracket the slope, known at one end, changes by half at the most; and the bracket keeps clear of the
   * arguments next to zero, for which only the constant coefficient counts.
   */
  predicate NearlyStraight(p: seq<real>, lbound: real, ubound: real) {
    && (lbound >= EPSILON || ubound <= -EPSILON) && Value(Derivative(p), lbound) != 0.0
    && 4.0 * Mul(ubound - lbound, Curvature(p, Furthest(lbound, ubound))) <= Abs(Value(Derivative(p), lbound))
  }

  /** The slope at `x` is more than enough for the distance from the tangent anywhere in the bracket. */
  predicate Steep(df: real, width: real, k: real) {
    df != 0.0 && 2.0 * Mul(width, k) <= Abs(df)
  }

  lemma InBounds(lbound: real, ubound: real, x: real)
    requires lbound <= x <= ubound
    ensures Abs(x) <= Furthest(lbound, ubound)
    ensures lbound >= EPSILON || ubound <= -EPSILON ==> Abs(x) >= EPSILON
  {}

  /** Away from zero the values are those of the polynomial, and its tangent is close. */
  lemma NearTangent(p: seq<real>, lbound: real, ubound: real, x: real, y: real)
    requires p != [] && NearlyStraight(p, lbound, ubound) && lbound <= x <= ubound && lbound <= y <= ubound
    ensures var r := Value(p, y) - Value(p, x) - Mul(y - x, Value(Derivative(p), x));
      Abs(r) <= Mul(Curvature(p, Furthest(lbound, ubound)), Sq(y - x))
  {
    hide Poly, Chord, Derivative, Curvature, Furthest, Sq;
    InBounds(lbound, ubound, x);
    InBounds(lbound, ubound, y);
    DerivativeIsChordAtOnePoint(p, x);
    RemainderBound(p, x, y, Furthest(lbound, ubound));
  }

  /** Slopes differ by at most twice the curvature for each unit of distance. */
  lemma SlopesClose(r: real, r': real, d: real, k: real, w: real, u: real, u': real)
    requires r + r' == Mul(d, u - u') && Abs(r) <= Mul(k, Sq(d)) && Abs(r') <= Mul(k, Sq(d))
    requires k >= 0.0 && Abs(d) <= w
    ensures Abs(u - u') <= 2.0 * Mul(w, k) || d == 0.0
  {
    if d != 0.0 {
      SizeOfProduct(u - u', d);
      MulCommutes(u - u', d);
      SquareRegrouped(k, d);
      var e, v := Abs(d), Abs(u - u');
      var most := 2.0 * Mul(e, k);
      assert Mul(v, e) <= Mul(e, most) == Mul(most, e);
      TimesOrder(e, w, k);
      DivideOrder(v, most, e);
    }
  }

  lemma SquareRegrouped(k: real, d: real)
    ensures Mul(Abs(d), 2.0 * Mul(Abs(d), k)) == 2.0 * Mul(k, Sq(d))
  {
    var e := Abs(d);
    assert Sq(d) == e * e;
    assert e * (2.0 * (e * k)) == 2.0 * (k * (e * e));
  }

  lemma SlopeThroughout(p: seq<real>, lbound: real, ubound: real, x: real)
    requires p != [] && NearlyStraight(p, lbound, ubound) && lbound <= x <= ubound
    ensures Steep(Value(Derivative(p), x), ubound - lbound, Curvature(p, Furthest(lbound, ubound)))
  {
    hide Value, Derivative, Curvature, Furthest;
    var k, w := Curvature(p, Furthest(lbound, ubound)), ubound - lbound;
    var u, u' := Value(Derivative(p), x), Value(Derivative(p), lbound);
    NearTangent(p, lbound, ubound, lbound, x);
    NearTangent(p, lbound, ubound, x, lbound);
    CurvatureNonNegative(p, lbound, ubound);
    Product(w, k);
    if x != lbound {
      BothWays(Value(p, x), Value(p, lbound), x - lbound, k, w, u, u');
    }
    hide Mul;
  }

  lemma BothWays(f: real, f': real, d: real, k: real, w: real, u: real, u': real)
    requires Abs(f - f' - Mul(d, u')) <= Mul(k, Sq(d)) && Abs(f' - f - Mul(-d, u)) <= Mul(k, Sq(-d))
    requires k >= 0.0 && Abs(d) <= w && d != 0.0
    ensures Abs(u - u') <= 2.0 * Mul(w, k)
  {
    assert Sq(-d) == Sq(d) && Mul(-d, u) == -Mul(d, u) && Mul(d, u - u') == Mul(d, u) - Mul(d, u');
    hide Mul, Sq, Abs;
    SlopesClose(f - f' - Mul(d, u'), f' - f - Mul(-d, u), d, k, w, u, u');
  }

  lemma CurvatureNonNegative(p: seq<real>, lbound: real, ubound: real)
    ensures Curvature(p, Furthest(lbound, ubound)) >= 0.0
  {
    CurvatureSigns(p, Furthest(lbound, ubound));
  }

  lemma {:induction false} CurvatureSigns(p: seq<real>, b: real)
    requires b >= 0.0
    ensures Size(p, b) >= 0.0 && Steepness(p, b) >= 0.0 && Curvature(p, b) >= 0.0
  {
    if p != [] {
      var q := p[..|p| - 1];
      CurvatureSigns(q, b);
      Product(Size(q, b), b);
      Product(Steepness(q, b), b);
      Product(Curvature(q, b), b);
    }
  }

  /**
   * After a halving the bracket is as wide as that step, and the step before was at least twice as long; after a
   * Newton step the next one would be at most half as long, and the one before was not shorter. What is left, with
   * a halving counted twice, is at most `left`.
   */
  predicate Settled(p: seq<real>, s: State, left: real) {
    && (s.x == s.l || s.x == s.h)
    && (|| (Width(s) == Abs(s.dx) && 2.0 * Abs(s.dx) <= Abs(s.dxold) && 2.0 * Abs(s.dx) <= left)
        || (Abs(s.dx) <= Abs(s.dxold) && Abs(s.dx) <= left
            && 2.0 * Abs(Value(p, s.x)) <= Abs(Mul(s.dx, Value(Derivative(p), s.x)))))
  }

  /** A Newton step leaves a value that the next one undoes in half the distance. */
  lemma NextIsShorter(p: seq<real>, lbound: real, ubound: real, s: State, s': State)
    requires p != [] && NearlyStraight(p, lbound, ubound) && Bracketed(p, lbound, ubound, s)
    requires Bracketed(p, lbound, ubound, s') && Follows(p, s, s') && !Halves(p, s) && Abs(s'.dx) <= ubound - lbound
    ensures 2.0 * Abs(Value(p, s'.x)) <= Abs(Mul(s'.dx, Value(Derivative(p), s'.x)))
  {
    hide Value, Derivative, Curvature, Furthest, NearlyStraight, Halves;
    var k, w := Curvature(p, Furthest(lbound, ubound)), ubound - lbound;
    var f, df, df' := Value(p, s.x), Value(Derivative(p), s.x), Value(Derivative(p), s'.x);
    InsideBounds(p, lbound, ubound, s);
    InsideBounds(p, lbound, ubound, s');
    NearTangent(p, lbound, ubound, s.x, s'.x);
    SlopeThroughout(p, lbound, ubound, s'.x);
    CurvatureNonNegative(p, lbound, ubound);
    QuotientTimes(f, df, s'.dx);
    assert Mul(s'.x - s.x, df) == -f && Sq(s'.x - s.x) == Sq(s'.dx);
    ValueAfter(Value(p, s'.x), s'.dx, df', k, w);
  }

  lemma InsideBounds(p: seq<real>, lbound: real, ubound: real, s: State)
    requires Bracketed(p, lbound, ubound, s)
    ensures lbound <= s.x <= ubound && lbound <= s.l <= ubound && lbound <= s.h <= ubound
  {
    hide Value;
  }

  lemma SteepBeats(d: real, df: real, k: real, w: real)
    requires Abs(d) <= w && k >= 0.0 && Steep(df, w, k)
    ensures 2.0 * Mul(k, Sq(d)) <= Abs(Mul(d, df))
  {
    var e, u := Abs(d), Abs(df);
    AbsProduct(d, df);
    TimesOrder(e, w, k);
    var low := 2.0 * Mul(e, k);
    TimesOrder(low, u, e);
    SquareRegrouped(k, d);
    hide Mul, Sq;
  }

  lemma ValueAfter(f: real, dx: real, df: real, k: real, w: real)
    requires Abs(f) <= Mul(k, Sq(dx)) && k >= 0.0 && Abs(dx) <= w && Steep(df, w, k)
    ensures 2.0 * Abs(f) <= Abs(Mul(dx, df))
  {
    hide Mul, Sq;
    SteepBeats(dx, df, k, w);
  }

  /** From both ends of the bracket the tangent leads into it. */
  lemma LeadsInside(p: seq<real>, lbound: real, ubound: real, s: State)
    requires p != [] && NearlyStraight(p, lbound, ubound) && Bracketed(p, lbound, ubound, s)
    ensures Mul(s.h - s.l, Value(Derivative(p), s.l)) > 0.0 && Mul(s.h - s.l, Value(Derivative(p), s.h)) > 0.0
  {
    hide Derivative, Curvature, Furthest, NearlyStraight, Value, Steep, Mul, Sq;
    var k, w := Curvature(p, Furthest(lbound, ubound)), ubound - lbound;
    var d, g, df := s.h - s.l, Value(p, s.h) - Value(p, s.l), Value(Derivative(p), s.h);
    InsideBounds(p, lbound, ubound, s);
    CurvatureNonNegative(p, lbound, ubound);
    NearTangent(p, lbound, ubound, s.l, s.h);
    NearTangent(p, lbound, ubound, s.h, s.l);
    SlopeThroughout(p, lbound, ubound, s.l);
    SlopeThroughout(p, lbound, ubound, s.h);
    Rises(g, d, Value(Derivative(p), s.l), k, w);
    OtherWay(s.l, s.h, df);
    Rises(g, d, df, k, w);
  }

  lemma OtherWay(l: real, h: real, df: real)
    ensures Mul(l - h, df) == -Mul(h - l, df) && Sq(l - h) == Sq(h - l)
  {}

  lemma Rises(g: real, d: real, df: real, k: real, w: real)
    requires g > 0.0 && Abs(g - Mul(d, df)) <= Mul(k, Sq(d)) && k >= 0.0 && Abs(d) <= w && Steep(df, w, k)
    ensures Mul(d, df) > 0.0
  {
    hide Mul, Sq;
    SteepBeats(d, df, k, w);
  }

  lemma BisectsBecause(l: real, h: real, x: real, f: real, df: real, dxold: real)
    requires Bisects(l, h, x, f, df, dxold) && 2.0 * Abs(f) <= Abs(Mul(dxold, df))
    ensures Mul((x - h) * df - f, (x - l) * df - f) > 0.0
  {
    assert Abs(2.0 * f) == 2.0 * Abs(f);
  }

  /** A Newton step that is not taken although it would be short would have crossed the whole bracket. */
  lemma Overshoots(l: real, h: real, x: real, f: real, df: real, dxold: real)
    requires Bisects(l, h, x, f, df, dxold) && 2.0 * Abs(f) <= Abs(Mul(dxold, df)) && Mul(h - l, df) > 0.0
    requires (x == l && f < 0.0) || (x == h && f >= 0.0)
    ensures Mul(Abs(h - l), Abs(df)) < Abs(f)
  {
    BisectsBecause(l, h, x, f, df, dxold);
    hide Bisects;
    var g, u, v := Mul(h - l, df), (x - h) * df - f, (x - l) * df - f;
    SameSigns(u, v);
    AbsProduct(h - l, df);
    if x == l {
      assert u == -g - f && v == -f;
    } else {
      assert u == -f && v == g - f;
    }
    hide Mul;
  }

  lemma SameSigns(u: real, v: real)
    requires Mul(u, v) > 0.0
    ensures (u > 0.0 && v > 0.0) || (u < 0.0 && v < 0.0)
  {
    if u >= 0.0 && v <= 0.0 {
      Product(u, -v);
    } else if u <= 0.0 && v >= 0.0 {
      Product(-u, v);
    }
  }

  lemma ShorterThanStep(width: real, df: real, f: real, dx: real)
    requires Mul(width, Abs(df)) < Abs(f) && 2.0 * Abs(f) <= Abs(Mul(dx, df)) && width >= 0.0
    ensures 2.0 * width <= Abs(dx)
  {
    AbsProduct(dx, df);
    var e, u := Abs(dx), Abs(df);
    assert 2.0 * width * u == 2.0 * (width * u);
    if 2.0 * width > e {
      TimesOrder(e, 2.0 * width, u);
    }
  }

  /** Each step halves what is left. */
  lemma SettledStep(p: seq<real>, lbound: real, ubound: real, s: State, s': State, left: real)
    requires p != [] && NearlyStraight(p, lbound, ubound) && Bracketed(p, lbound, ubound, s) && Follows(p, s, s')
    requires Settled(p, s, left) && Width(s) <= ubound - lbound
    ensures Settled(p, s', left / 2.0)
  {
    hide Value, Derivative, NearlyStraight, Brackets, Halves, Width, Abs;
    StepSizes(p, lbound, ubound, s, s');
    OldIsLast(p, s, s');
    AbsNonNegative(s.dx);
    if Halves(p, s) {
      if !(Width(s) == Abs(s.dx) && 2.0 * Abs(s.dx) <= Abs(s.dxold) && 2.0 * Abs(s.dx) <= left) {
        HalvedForGood(p, lbound, ubound, s);
      }
    } else {
      NextIsShorter(p, lbound, ubound, s, s');
      if !(Width(s) == Abs(s.dx) && 2.0 * Abs(s.dx) <= Abs(s.dxold) && 2.0 * Abs(s.dx) <= left) {
        NewtonAgain(p, s, s');
      }
    }
  }

  lemma AbsNonNegative(x: real)
    ensures Abs(x) >= 0.0
  {}

  lemma NewtonAgain(p: seq<real>, s: State, s': State)
    requires Follows(p, s, s') && !Halves(p, s)
    requires 2.0 * Abs(Value(p, s.x)) <= Abs(Mul(s.dx, Value(Derivative(p), s.x)))
    ensures 2.0 * Abs(s'.dx) <= Abs(s.dx)
  {
    hide Value, Derivative, Halves;
    var f, df := Value(p, s.x), Value(Derivative(p), s.x);
    HalfProduct(s.dx, df);
    QuotientSmall(f, df, s.dx / 2.0);
  }

  lemma HalfProduct(x: real, y: real)
    ensures 2.0 * Abs(Mul(x / 2.0, y)) == Abs(Mul(x, y))
  {
    assert Mul(x / 2.0, y) == Mul(x, y) / 2.0;
  }

  /** A halving after a Newton step means that the bracket is less than half as wide as that step. */
  lemma HalvedForGood(p: seq<real>, lbound: real, ubound: real, s: State)
    requires p != [] && NearlyStraight(p, lbound, ubound) && Bracketed(p, lbound, ubound, s) && Halves(p, s)
    requires (s.x == s.l || s.x == s.h) && Abs(s.dx) <= Abs(s.dxold)
    requires 2.0 * Abs(Value(p, s.x)) <= Abs(Mul(s.dx, Value(Derivative(p), s.x)))
    ensures 2.0 * Width(s) <= Abs(s.dx)
  {
    hide Value, Derivative, NearlyStraight, Bisects, Mul;
    var f, df := Value(p, s.x), Value(Derivative(p), s.x);
    LeadsInside(p, lbound, ubound, s);
    Longer(s.dx, s.dxold, df);
    Overshoots(s.l, s.h, s.x, f, df, s.dxold);
    ShorterThanStep(Width(s), df, f, s.dx);
  }

  lemma Longer(x: real, y: real, df: real)
    requires Abs(x) <= Abs(y)
    ensures Abs(Mul(x, df)) <= Abs(Mul(y, df))
  {
    SizeOfProduct(x, df);
    SizeOfProduct(y, df);
    var w := Abs(df);
    hide Abs;
    TimesOrder(Abs(x), Abs(y), w);
  }

  /** The first step leaves at most the width of the bracket. */
  lemma FirstStep(p: seq<real>, lbound: real, ubound: real, s: State, s': State)
    requires p != [] && NearlyStraight(p, lbound, ubound) && lbound <= ubound && Begins(p, lbound, ubound, s)
    requires Follows(p, s, s')
    ensures Settled(p, s', ubound - lbound)
  {
    hide Value, Derivative, NearlyStraight, Brackets, Halves;
    BeginBracketed(p, lbound, ubound, s);
    StepSizes(p, lbound, ubound, s, s');
    OldIsLast(p, s, s');
    if !Halves(p, s) {
      NextIsShorter(p, lbound, ubound, s, s');
    }
  }

  lemma {:induction false} SettledRun(p: seq<real>, lbound: real, ubound: real, run: seq<State>, k: nat)
    requires p != [] && NearlyStraight(p, lbound, ubound) && lbound <= ubound && IsRun(p, lbound, ubound, run)
    requires 1 <= k < |run|
    ensures Settled(p, run[k], 2.0 * (ubound - lbound) / Twice(k))
  {
    hide NearlyStraight, Begins, Follows, Settled, Bracketed, Width;
    if k == 1 {
      FirstStep(p, lbound, ubound, run[0], run[1]);
      assert Twice(1) == 2.0;
    } else {
      SettledRun(p, lbound, ubound, run, k - 1);
      RunBracketed(p, lbound, ubound, run, k - 1);
      SettledStep(p, lbound, ubound, run[k - 1], run[k], 2.0 * (ubound - lbound) / Twice(k - 1));
      HalfOfQuotient(2.0 * (ubound - lbound), Twice(k - 1));
    }
  }

  lemma HalfOfQuotient(x: real, y: real)
    requires y > 0.0
    ensures x / y / 2.0 == x / (2.0 * y)
  {}

  /** A nearly straight polynomial takes one step for each halving of the bracket down to the tolerance. */
  lemma StraightIsEnough(p: seq<real>, lbound: real, ubound: real, run: seq<State>)
    requires p != [] && NearlyStraight(p, lbound, ubound) && lbound <= ubound && IsRun(p, lbound, ubound, run)
    ensures |run| > 1 ==> Twice(|run| - 1) * TOLERANCE <= 2.0 * (ubound - lbound)
  {
    hide NearlyStraight, Begins, Follows, Settled, Twice;
    var k := |run| - 1;
    if k > 0 {
      SettledRun(p, lbound, ubound, run, k);
      SettledMeans(p, run[k], 2.0 * (ubound - lbound) / Twice(k));
      QuotientBound(2.0 * (ubound - lbound), Twice(k), TOLERANCE);
    }
  }

  lemma QuotientBound(x: real, y: real, t: real)
    requires y > 0.0 && t <= x / y
    ensures y * t <= x
  {
    var q := x / y;
    QuotientTimes(x, y, q);
    TimesOrder(t, q, y);
  }

  lemma SettledMeans(p: seq<real>, s: State, left: real)
    requires Settled(p, s, left)
    ensures Abs(s.dx) <= left
  {
    hide Value;
  }

  // ---------------------------------------------------------------- the zero of a nearly straight polynomial

  /** Two values in ascending order lie in the direction of the slope. */
  lemma Ascends(p: seq<real>, lbound: real, ubound: real, x: real, y: real)
    requires p != [] && NearlyStraight(p, lbound, ubound) && lbound <= x <= ubound && lbound <= y <= ubound
    requires Value(p, x) < Value(p, y)
    ensures Mul(y - x, Value(Derivative(p), x)) > 0.0
  {
    hide Derivative, Curvature, Furthest, NearlyStraight, Value, Steep, Mul, Sq;
    CurvatureNonNegative(p, lbound, ubound);
    NearTangent(p, lbound, ubound, x, y);
    SlopeThroughout(p, lbound, ubound, x);
    Rises(Value(p, y) - Value(p, x), y - x, Value(Derivative(p), x), Curvature(p, Furthest(lbound, ubound)),
          ubound - lbound);
  }

  /** The tangent at `x` comes within half the distance of a zero `z`. */
  lemma NearZero(p: seq<real>, lbound: real, ubound: real, x: real, z: real)
    requires p != [] && NearlyStraight(p, lbound, ubound) && lbound <= x <= ubound && lbound <= z <= ubound
    requires Value(p, z) == 0.0
    ensures var f, df := Value(p, x), Value(Derivative(p), x);
      df != 0.0 && Abs(x - f / df - z) <= Abs(z - x) / 2.0 && Abs(z - x) <= 2.0 * Abs(f / df)
  {
    hide Derivative, Curvature, Furthest, NearlyStraight, Value, Sq;
    var f, df, k := Value(p, x), Value(Derivative(p), x), Curvature(p, Furthest(lbound, ubound));
    CurvatureNonNegative(p, lbound, ubound);
    NearTangent(p, lbound, ubound, x, z);
    SlopeThroughout(p, lbound, ubound, x);
    SteepBeats(z - x, df, k, ubound - lbound);
    var q := f / df;
    QuotientTimes(f, df, q);
    var miss := x - q - z;
    assert Mul(miss, df) == -f - Mul(z - x, df) by {
      assert Mul(miss, df) == Mul(x - z, df) - q * df && Mul(x - z, df) == -Mul(z - x, df);
    }
    hide Mul;
    HalfAsFar(miss, z - x, df);
  }

  lemma HalfAsFar(x: real, y: real, df: real)
    requires df != 0.0 && 2.0 * Abs(Mul(x, df)) <= Abs(Mul(y, df))
    ensures Abs(x) <= Abs(y) / 2.0
  {
    SizeOfProduct(x, df);
    SizeOfProduct(y, df);
    MulTwice(Abs(x), Abs(df));
    hide Abs, Mul;
    DivideOrder(2.0 * Abs(x), Abs(y), Abs(df));
  }

  /** There is only one zero, and every bracket of a change of sign has it inside. */
  lemma ZeroInside(p: seq<real>, lbound: real, ubound: real, l: real, x: real, h: real, z: real)
    requires p != [] && NearlyStraight(p, lbound, ubound) && Brackets(p, l, x, h, lbound, ubound)
    requires lbound <= z <= ubound && Value(p, z) == 0.0
    ensures Between(l, z, h)
  {
    hide Derivative, NearlyStraight, Value;
    Ascends(p, lbound, ubound, l, h);
    Ascends(p, lbound, ubound, l, z);
    if Value(p, h) == 0.0 {
      OnlyZero(p, lbound, ubound, h, z);
    } else {
      Descends(p, lbound, ubound, z, h);
      Descends(p, lbound, ubound, l, h);
      SameSide(h - l, z - l, Value(Derivative(p), l));
      SameSide(h - l, h - z, Value(Derivative(p), h));
    }
  }

  lemma SameSide(x: real, y: real, df: real)
    requires Mul(x, df) > 0.0 && Mul(y, df) > 0.0
    ensures (x > 0.0 && y > 0.0) || (x < 0.0 && y < 0.0)
  {
    SameSigns(x, df);
    SameSigns(y, df);
  }

  lemma Descends(p: seq<real>, lbound: real, ubound: real, x: real, y: real)
    requires p != [] && NearlyStraight(p, lbound, ubound) && lbound <= x <= ubound && lbound <= y <= ubound
    requires Value(p, x) < Value(p, y)
    ensures Mul(y - x, Value(Derivative(p), y)) > 0.0
  {
    hide Derivative, Curvature, Furthest, NearlyStraight, Value, Steep, Mul, Sq;
    CurvatureNonNegative(p, lbound, ubound);
    NearTangent(p, lbound, ubound, y, x);
    SlopeThroughout(p, lbound, ubound, y);
    OtherWay(x, y, Value(Derivative(p), y));
    Rises(Value(p, y) - Value(p, x), y - x, Value(Derivative(p), y), Curvature(p, Furthest(lbound, ubound)),
          ubound - lbound);
  }

  lemma OnlyZero(p: seq<real>, lbound: real, ubound: real, x: real, z: real)
    requires p != [] && NearlyStraight(p, lbound, ubound) && lbound <= x <= ubound && lbound <= z <= ubound
    requires Value(p, x) == 0.0 == Value(p, z)
    ensures x == z
  {
    hide Derivative, NearlyStraight, Value;
    NearZero(p, lbound, ubound, x, z);
    assert 0.0 / Value(Derivative(p), x) == 0.0;
  }

  /** What is found is the zero, to the tolerance. */
  lemma FindsTheZero(p: seq<real>, lbound: real, ubound: real, rts: real, stop: Stop, z: real)
    requires p != [] && lbound <= ubound && NearlyStraight(p, lbound, ubound)
    requires Achieved(p, lbound, ubound, rts, stop) && !stop.UsedUp? && lbound <= z <= ubound && Value(p, z) == 0.0
    ensures Abs(rts - z) < TOLERANCE
  {
    hide Derivative, NearlyStraight, Value;
    match stop
    case AtEnd =>
      OnlyZero(p, lbound, ubound, rts, z);
    case Halved(l, h) =>
      ZeroInside(p, lbound, ubound, l, rts, h, z);
    case Converged(l, h, from) =>
      NearZero(p, lbound, ubound, from, z);
    case NoSlope(at) =>
      NearZero(p, lbound, ubound, at, z);
  }

  // ---------------------------------------------------------------- the method

  /** A bracket in which the iterations are enough, decidable before the call. */
  predicate EnoughIterations(p: seq<real>, lbound: real, ubound: real) {
    Short(lbound, ubound) || (NearlyStraight(p, lbound, ubound) && ubound - lbound <= 1000000000000.0)
  }

  lemma PowersOfTwo()
    ensures Twice(128) * TOLERANCE > 2.0 * 1000000000000.0
  {
    assert Twice(8) == 256.0;
    assert Twice(16) == 65536.0;
    assert Twice(24) == 16777216.0;
    assert Twice(32) == 4294967296.0;
    DoubledTwice(32);
    DoubledTwice(64);
    assert Twice(64) == 4294967296.0 * 4294967296.0;
  }

  lemma {:induction false} TwiceSum(m: nat, n: nat)
    ensures Twice(m + n) == Twice(m) * Twice(n)
  {
    if m > 0 {
      TwiceSum(m - 1, n);
    }
  }

  lemma DoubledTwice(n: nat)
    ensures Twice(2 * n) == Twice(n) * Twice(n)
  {
    TwiceSum(n, n);
  }

  lemma {:induction false} TwiceGrows(m: nat, n: nat)
    requires m <= n
    ensures Twice(m) <= Twice(n)
  {
    if m < n {
      TwiceGrows(m, n - 1);
    }
  }

  /** In such a bracket no run goes through all the iterations. */
  lemma RunsEndEarly(p: seq<real>, lbound: real, ubound: real, run: seq<State>)
    requires p != [] && lbound <= ubound && IsRun(p, lbound, ubound, run) && EnoughIterations(p, lbound, ubound)
    ensures |run| <= ITERATIONS
  {
    hide IsRun, NearlyStraight;
    if Short(lbound, ubound) {
      ShortIsEnough(p, lbound, ubound, run);
    } else {
      StraightIsEnough(p, lbound, ubound, run);
      PowersOfTwo();
      if |run| > ITERATIONS {
        TwiceGrows(ITERATIONS, |run| - 1);
      }
    }
  }

  lemma OneMoreStep(p: seq<real>, lbound: real, ubound: real, run: seq<State>, s: State)
    requires IsRun(p, lbound, ubound, run) && Follows(p, run[|run| - 1], s) && Abs(s.dx) >= TOLERANCE
    ensures IsRun(p, lbound, ubound, run + [s])
  {
    hide Begins, Follows;
  }

  /** The last step, from the last state of the run. */
  predicate Ends(p: seq<real>, s: State, rts: real, stop: Stop) {
    match stop
    case AtEnd => false
    case Halved(l, h) => (l, h) == (s.l, s.h) && Halves(p, s)
    case Converged(l, h, from) => (l, h, from) == (s.l, s.h, s.x) && !Halves(p, s)
    case UsedUp(l, h) => (l, h, rts) == (s.l, s.h, s.x)
    case NoSlope(at) => at == rts == s.x && !Halves(p, s)
  }

  /**
   * A zero of `p` between `lbound` and `ubound`. The last bracket lies inside the original one with a change of sign
   * and the result between its ends; stopping early means that the last bracket is shorter than twice the
   * tolerance, or the last Newton step shorter than it. The result is not a number only if an iterate was a zero of
   * both the polynomial and its derivative. The iterations are used up only after 128 steps none of which was short
   * enough to stop, and never in a bracket that is short or over which the polynomial is nearly straight.
   */
  method ShrinkInterval(p: seq<real>, lbound: real, ubound: real) returns (rts: real, stop: Stop, ghost run: seq<State>)
    requires p != [] && lbound <= ubound
    requires Value(p, lbound) <= 0.0 <= Value(p, ubound) || Value(p, ubound) <= 0.0 <= Value(p, lbound)
    ensures Achieved(p, lbound, ubound, rts, stop)
    ensures !stop.NoSlope? ==> lbound <= rts <= ubound
    ensures stop.AtEnd? <==> Value(p, lbound) == 0.0 || Value(p, ubound) == 0.0
    ensures !stop.AtEnd? ==>
      IsRun(p, lbound, ubound, run) && |run| <= ITERATIONS + 1 && Ends(p, run[|run| - 1], rts, stop)
    ensures stop.UsedUp? ==> |run| == ITERATIONS + 1
    ensures EnoughIterations(p, lbound, ubound) ==> !stop.UsedUp?
  {
    hide Value, Bisects, Poly, Derivative, EnoughIterations;
    var l, h := lbound, ubound;
    run := [];
    var fl := PolyEval(p, l);
    var fh := PolyEval(p, h);
    if fl == 0.0 {
      return l, AtEnd, run;
    }
    if fh == 0.0 {
      return h, AtEnd, run;
    }
    if fl > 0.0 {
      l, h := h, l;
    }
    rts := (l + h) / 2.0;
    var dxold := Abs(h - l);
    var dx := dxold;
    var deriv := PolyDerivative(p);
    var f := PolyEval(p, rts);
    var df := PolyEval(deriv, rts);
    run := [State(l, h, rts, dx, dxold)];
    for j := 0 to ITERATIONS
      invariant Brackets(p, l, rts, h, lbound, ubound)
      invariant f == Value(p, rts) && df == Value(deriv, rts)
      invariant IsRun(p, lbound, ubound, run) && |run| == j + 1 && run[j] == State(l, h, rts, dx, dxold)
    {
      if Bisects(l, h, rts, f, df, dxold) {
        dxold := dx;
        dx := (h - l) / 2.0;
        BisectionStays(l, h);
        rts := l + dx;
        stop := Halved(l, h);
        if l == rts {
          return;
        }
      } else {
        if df == 0.0 {
          ZeroSlope(l, h, rts, f, dxold);
          return rts, NoSlope(rts), run;
        }
        TestedStep(l, h, rts, f, df, dxold);
        dxold := dx;
        dx := f / df;
        var temp := rts;
        rts := rts - dx;
        stop := Converged(l, h, temp);
        if temp == rts {
          return;
        }
      }
      if Abs(dx) < TOLERANCE {
        return;
      }
      f := PolyEval(p, rts);
      df := PolyEval(deriv, rts);
      if f < 0.0 {
        l := rts;
      } else {
        h := rts;
      }
      OneMoreStep(p, lbound, ubound, run, State(l, h, rts, dx, dxold));
      run := run + [State(l, h, rts, dx, dxold)];
    }
    stop := UsedUp(l, h);
    if EnoughIterations(p, lbound, ubound) {
      RunsEndEarly(p, lbound, ubound, run);
    }
  }
}
