/**
 * The extremal third-order velocity profiles of velocity_third_step1.cpp. They are the second-order position
 * profiles one derivative lower, with one more test; that test is why this step can fail.
 */
module VelocityThird {
  import opened Kinematics
  import opened Profiles
  import opened RealArithmetic
  import opened SecondOrder

  // ---------------------------------------------------------------- the same formulas

  /** `time_none`: the squared peak acceleration. */
  lemma PeakSquare(a0: real, af: real, vd: real, j: real)
    requires j != 0.0
    ensures (a0 * a0 + af * af) / 2.0 + j * vd == Energy(a0, af, vd, j, -j)
  {
    var x := (a0 * a0 + af * af) / 2.0 + j * vd;
    assert (2.0 * j) * x == j * af * af - -j * a0 * a0 - 2.0 * j * -j * vd;
    assert j - -j == 2.0 * j;
    QuotientTimes(j * af * af - -j * a0 * a0 - 2.0 * j * -j * vd, 2.0 * j, Energy(a0, af, vd, j, -j));
    Cancel(2.0 * j, x, Energy(a0, af, vd, j, -j));
  }

  /** `time_acc0`: the time at the limit. */
  lemma TimeAtLimit(a0: real, af: real, vd: real, j: real, aMax: real)
    requires j != 0.0 && aMax != 0.0
    ensures 2.0 * aMax * j != 0.0
    ensures (a0 * a0 + af * af) / (2.0 * aMax * j) - aMax / j + vd / aMax == CruiseTime(a0, af, vd, aMax, j, -j)
  {
    NonZeroProduct(aMax, j);
    NonZeroProduct(j, -j);
    var s := a0 * a0 + af * af;
    var k, m := 2.0 * aMax * j, 2.0 * j * -j;
    assert m * aMax == -j * k;
    assert -j * a0 * a0 - j * af * af == -j * s;
    SameQuotient(s, k, -j);
    SameQuotient(aMax, j, -(2.0 * j));
    assert aMax * (j - -j) == -(aMax * -(2.0 * j)) && m == j * -(2.0 * j);
  }

  lemma SameQuotient(x: real, y: real, c: real)
    requires y != 0.0 && c != 0.0
    ensures c * y != 0.0 && y * c != 0.0 && (c * x) / (c * y) == x / y && -(x * c) / (y * c) == -x / y
  {
    if c * y == 0.0 {
      Cancel(c, y, 0.0);
    }
    var q := x / y;
    assert q * y == x && q * (c * y) == c * x;
    assert y * c == c * y && x * c == c * x;
  }

  // ---------------------------------------------------------------- the check

  lemma PatternsAgree(t0: real, t1: real, t2: real, j: real)
    ensures ThirdOrderPattern(UDDU, Times(t0, t1, t2), j) == SecondOrderPattern(UDDU, Times(t0, t1, t2), j, -j)
  {}

  /** A profile that reaches its target is accepted for its times and its two accelerations alone. */
  lemma VelocityAccepted(limits: ReachedLimits, v0: real, a0: real, af: real, vd: real, top: real, j: real,
                         t0: real, t1: real, t2: real, aMax: real, aMin: real)
    requires Reaches(a0, af, vd, top, j, -j, t0, t1, t2)
    ensures var t := Times(t0, t1, t2);
      VelocityAccepts(t, ThirdOrderPattern(UDDU, t, j), limits, v0, a0, v0 + vd, af, aMax, aMin) <==>
      && t0 >= 0.0 && t1 >= 0.0 && t2 >= 0.0 && t0 + t1 + t2 <= T_MAX && (limits == ACC0 ==> t1 >= EPSILON)
      && InLimits(top, aMax, aMin) && InLimits(af, aMax, aMin)
  {
    var t := Times(t0, t1, t2);
    PatternsAgree(t0, t1, t2, j);
    if t0 >= 0.0 && t1 >= 0.0 && t2 >= 0.0 {
      ThreeKnots(v0, a0, j, -j, t0, t1, t2, top, af);
      hide After, Rise, SecondOrderPattern, ThirdOrderPattern, VelocityAt, PositionAt, TimeAt;
    } else {
      assert !NonNegative(t) by {
        assert t[0] == t0 && t[1] == t1 && t[2] == t2;
      }
    }
  }

  // ---------------------------------------------------------------- the gap

  /** What a call finds when it finds nothing: at most solutions that take too long, or a sliver. */
  predicate Exhausted(sqrt: real -> real, a0: real, vd: real, j: real, aMax: real, aMin: real)
    requires j != 0.0 && aMax != 0.0
  {
    NoneExhausted(sqrt, a0, vd, j, -j, aMax, aMin) && Acc0Missed(a0, vd, j, aMax, aMin)
  }

  predicate Acc0Missed(a0: real, vd: real, j: real, aMax: real, aMin: real)
    requires j != 0.0 && aMax != 0.0
  {
    Acc0Solves(a0, vd, j, -j, aMax, aMin) ==>
      Acc0Total(a0, vd, aMax, j, -j) > T_MAX || CruiseTime(a0, 0.0, vd, aMax, j, -j) < EPSILON
  }

  /** Without a sliver, nothing found means that every motion within the limits takes too long. */
  lemma WithoutSliverTooLong(w: seq<Segment>, sqrt: real -> real, a0: real, vd: real, aMax: real, aMin: real, j: real)
    requires IsSqrt(sqrt) && UsualLimits(a0, aMax, aMin, j, -j) && Admissible(w, a0, vd, aMin, aMax, -j, j)
    requires Exhausted(sqrt, a0, vd, j, aMax, aMin) && Exhausted(sqrt, a0, vd, -j, aMin, aMax)
    requires !UpSliver(sqrt, a0, vd, j, aMax) && !DownSliver(sqrt, a0, vd, j, aMin)
    ensures Duration(w) > T_MAX
  {
    assert -(-j) == j;
    hide Solves, Energy, CruiseTime, Duration, Admissible, IsSqrt;
    SomeSolution(sqrt, a0, vd, aMax, aMin, j, -j);
    var e, f := Energy(a0, 0.0, vd, j, -j), Energy(a0, 0.0, vd, -j, j);
    if e >= 0.0 && NoneSolves(a0, vd, sqrt(e), j, -j, aMax, aMin) {
      SolutionIsFastest(w, a0, vd, sqrt(e), true, (sqrt(e) - a0) / j, 0.0, (0.0 - sqrt(e)) / -j, aMax, aMin, j, -j);
    } else if e >= 0.0 && sqrt(e) > aMax + V_EPS && Acc0Solves(a0, vd, j, -j, aMax, aMin) {
      SolutionIsFastest(w, a0, vd, aMax, true, (aMax - a0) / j, CruiseTime(a0, 0.0, vd, aMax, j, -j),
                        (0.0 - aMax) / -j, aMax, aMin, j, -j);
    } else if f >= 0.0 && NoneSolves(a0, vd, -sqrt(f), -j, j, aMin, aMax) {
      SolutionIsFastest(w, a0, vd, -sqrt(f), false, (-sqrt(f) - a0) / -j, 0.0, (0.0 - -sqrt(f)) / j, aMax, aMin, j, -j);
    } else {
      SolutionIsFastest(w, a0, vd, aMin, false, (aMin - a0) / -j, CruiseTime(a0, 0.0, vd, aMin, -j, j),
                        (0.0 - aMin) / j, aMax, aMin, j, -j);
    }
  }

  /** The gap in each direction, for accelerations that start inside the limits. */
  predicate UpSliver(sqrt: real -> real, a0: real, vd: real, j: real, aMax: real)
    requires j > 0.0 && aMax != 0.0
  {
    var e := Energy(a0, 0.0, vd, j, -j);
    e >= 0.0 && sqrt(e) > aMax + A_EPS && CruiseTime(a0, 0.0, vd, aMax, j, -j) < EPSILON
  }

  predicate DownSliver(sqrt: real -> real, a0: real, vd: real, j: real, aMin: real)
    requires j > 0.0 && aMin != 0.0
  {
    var f := Energy(a0, 0.0, vd, -j, j);
    f >= 0.0 && -sqrt(f) < aMin - A_EPS && CruiseTime(a0, 0.0, vd, aMin, -j, j) < EPSILON
  }

  lemma NegativeQuotient(x: real, y: real)
    requires (x < 0.0 && y > 0.0) || (x > 0.0 && y < 0.0)
    ensures x / y < 0.0
  {}

  /** The other direction's peak, if it has one, lies on the wrong side of the present velocity. */
  lemma OtherPeak(v: real, h: real, g: real, top: real)
    requires h > top > 0.0 && v <= top && g >= 0.0 && Sq(g) == v * v - Sq(h)
    ensures v < 0.0 && g < -v
  {
    SquareSign(g);
    assert (-v) * (-v) == v * v;
    if v >= 0.0 {
      SquareGrows(v, h);
    } else {
      SquareGrows(0.0, h);
      if g >= -v {
        SquareOrder(-v, g);
      }
    }
  }

  /** Cruising the other way would take a negative time. */
  lemma OtherCruise(v: real, pd: real, u: real, d: real, vMin: real, f: real)
    requires u > 0.0 > d && vMin < 0.0 && f == Energy(v, 0.0, pd, d, u) && f < Sq(vMin)
    ensures CruiseTime(v, 0.0, pd, vMin, d, u) < 0.0
  {
    CruiseByEnergy(v, pd, d, u, vMin, f);
    OppositeSigns(u, d);
    var x, k := CruiseTime(v, 0.0, pd, vMin, d, u), 2.0 * d * u;
    assert k == 2.0 * u * d;
    hide CruiseTime, Energy, Sq;
    Product(u - d, Sq(vMin) - f);
    NegativeCruise(k, vMin, x, d - u, f - Sq(vMin));
  }

  lemma CruiseByEnergy(v: real, pd: real, u: real, d: real, top: real, e: real)
    requires u != 0.0 && d != 0.0 && u != d && top != 0.0 && e == Energy(v, 0.0, pd, u, d)
    ensures Mul(2.0 * u * d, Mul(top, CruiseTime(v, 0.0, pd, top, u, d))) == -Mul(u - d, e - Sq(top))
  {
    NoSpeed(u);
    hide CruiseTime, Energy, Mul, Sq;
    CruiseDistance(v, 0.0, pd, top, u, d);
    EnergyAtRest(v, pd, u, d);
    MulDifference(u - d, e, Sq(top));
  }

  lemma NegativeCruise(k: real, top: real, x: real, c: real, e: real)
    requires k < 0.0 && top < 0.0 && c < 0.0 && e < 0.0 && Mul(k, Mul(top, x)) == -Mul(c, e)
    ensures x < 0.0
  {
    Product(-c, -e);
    assert c * e == (-c) * (-e);
    if x >= 0.0 {
      CruiseSign(k, top, x);
    }
  }

  lemma CruiseSign(k: real, top: real, x: real)
    requires k < 0.0 && top < 0.0 && x >= 0.0
    ensures Mul(k, Mul(top, x)) >= 0.0
  {
    Product(-top, x);
    var y := -top * x;
    assert top * x == -y;
    NonNegativeProduct(-k, y);
  }

  lemma NonNegativeProduct(k: real, y: real)
    requires k > 0.0 && y >= 0.0
    ensures (-k) * -y >= 0.0
  {
    Product(k, y);
    assert (-k) * -y == k * y;
  }

  /** In a sliver none of the other profiles is a solution, in either direction. */
  lemma SliverFails(sqrt: real -> real, v: real, pd: real, u: real, d: real, vMax: real, vMin: real)
    requires IsSqrt(sqrt) && UsualLimits(v, vMax, vMin, u, d)
    requires var e := Energy(v, 0.0, pd, u, d); e >= 0.0 && sqrt(e) > vMax + V_EPS
    ensures var e, f := Energy(v, 0.0, pd, u, d), Energy(v, 0.0, pd, d, u);
      && !NoneSolves(v, pd, sqrt(e), u, d, vMax, vMin) && !NoneSolves(v, pd, -sqrt(e), u, d, vMax, vMin)
      && (f >= 0.0 ==> !NoneSolves(v, pd, -sqrt(f), d, u, vMin, vMax) && !NoneSolves(v, pd, sqrt(f), d, u, vMin, vMax))
      && !Acc0Solves(v, pd, d, u, vMin, vMax)
  {
    var e, f := Energy(v, 0.0, pd, u, d), Energy(v, 0.0, pd, d, u);
    var h := sqrt(e);
    EnergiesAdd(v, pd, u, d);
    assert Sq(h) == e;
    NegativeQuotient(0.0 - -h, d);
    hide Reaches, Energy, CruiseTime;
    if f >= 0.0 {
      var g := sqrt(f);
      assert Sq(g) == f;
      OtherPeak(v, h, g, vMax);
      NegativeQuotient(-g - v, d);
      if g > 0.0 {
        NegativeQuotient(0.0 - g, u);
      }
    }
    OtherEnergy(v, e, f, vMax, vMin, h);
    OtherCruise(v, pd, u, d, vMin, f);
  }

  lemma OtherEnergy(v: real, e: real, f: real, vMax: real, vMin: real, h: real)
    requires e + f == v * v && h > vMax > 0.0 > vMin && Sq(h) == e && vMin <= v <= vMax
    ensures f < Sq(vMin)
  {
    SquareSign(vMin);
    SquareSign(h);
    if v < 0.0 {
      SquareOrder(-v, -vMin);
      assert (-v) * (-v) == v * v && (-vMin) * (-vMin) == vMin * vMin;
    } else {
      SquareOrder(v, h);
    }
  }

  /** The same for a sliver in the other direction. */
  lemma DownSliverFails(sqrt: real -> real, a0: real, vd: real, aMax: real, aMin: real, j: real)
    requires IsSqrt(sqrt) && UsualLimits(a0, aMax, aMin, j, -j) && DownSliver(sqrt, a0, vd, j, aMin)
    ensures var e, f := Energy(a0, 0.0, vd, j, -j), Energy(a0, 0.0, vd, -j, j);
      && !NoneSolves(a0, vd, -sqrt(f), -j, j, aMin, aMax) && !NoneSolves(a0, vd, sqrt(f), -j, j, aMin, aMax)
      && (e >= 0.0 ==>
            !NoneSolves(a0, vd, sqrt(e), j, -j, aMax, aMin) && !NoneSolves(a0, vd, -sqrt(e), j, -j, aMax, aMin))
      && !Acc0Solves(a0, vd, j, -j, aMax, aMin)
  {
    EnergyMirrored(a0, 0.0, vd, j, -j);
    EnergyMirrored(a0, 0.0, vd, -j, j);
    assert -(-j) == j;
    var e, f := Energy(a0, 0.0, vd, j, -j), Energy(a0, 0.0, vd, -j, j);
    hide NoneSolves, Acc0Solves, Energy, CruiseTime;
    SliverFails(sqrt, -a0, -vd, j, -j, -aMin, -aMax);
    if NoneSolves(a0, vd, -sqrt(f), -j, j, aMin, aMax) {
      NoneSolvesMirrored(a0, vd, -sqrt(f), -j, j, aMin, aMax);
    }
    if NoneSolves(a0, vd, sqrt(f), -j, j, aMin, aMax) {
      NoneSolvesMirrored(a0, vd, sqrt(f), -j, j, aMin, aMax);
    }
    if NoneSolves(a0, vd, sqrt(e), j, -j, aMax, aMin) {
      NoneSolvesMirrored(a0, vd, sqrt(e), j, -j, aMax, aMin);
    }
    if NoneSolves(a0, vd, -sqrt(e), j, -j, aMax, aMin) {
      NoneSolvesMirrored(a0, vd, -sqrt(e), j, -j, aMax, aMin);
    }
    if Acc0Solves(a0, vd, j, -j, aMax, aMin) {
      Acc0SolvesMirrored(a0, vd, j, -j, aMax, aMin);
    }
  }

  // ---------------------------------------------------------------- what the calls find

  lemma NoPeakFound(sqrt: real -> real, v: real, pd: real, u: real, d: real, vMax: real, vMin: real)
    requires IsSqrt(sqrt) && u != 0.0 && d != 0.0 && u != d
    requires var e := Energy(v, 0.0, pd, u, d);
      e >= 0.0 ==> !NoneSolves(v, pd, sqrt(e), u, d, vMax, vMin) && !NoneSolves(v, pd, -sqrt(e), u, d, vMax, vMin)
    ensures NoneFound(sqrt, v, 0.0, pd, u, d, vMax, vMin) == []
  {
    BothPeaks(sqrt, v, 0.0, pd, u, d);
    hide Energy, Reaches, OverPeak, IsPeak, IsSqrt, Solves;
    var e := Energy(v, 0.0, pd, u, d);
    if e >= 0.0 {
      PeakIs(v, 0.0, pd, sqrt(e), u, d, vMax, vMin);
      PeakIs(v, 0.0, pd, -sqrt(e), u, d, vMax, vMin);
    }
  }

  lemma NoCruiseFound(v: real, pd: real, u: real, d: real, vMax: real, vMin: real)
    requires u != 0.0 && d != 0.0 && vMax != 0.0
    requires !Acc0Solves(v, pd, u, d, vMax, vMin) || CruiseTime(v, 0.0, pd, vMax, u, d) < EPSILON
    ensures CruiseFound(EPSILON, v, 0.0, pd, u, d, vMax, vMin) == []
  {
    CruiseIs(EPSILON, v, 0.0, pd, u, d, vMax, vMin);
    hide CruiseFound, Solves, CruiseTime;
  }

  /** In a sliver, in whichever direction, no call finds anything. */
  lemma SliverFindsNothing(sqrt: real -> real, a0: real, vd: real, aMax: real, aMin: real, j: real)
    requires IsSqrt(sqrt) && UsualLimits(a0, aMax, aMin, j, -j)
    requires UpSliver(sqrt, a0, vd, j, aMax) || DownSliver(sqrt, a0, vd, j, aMin)
    ensures NoneFound(sqrt, a0, 0.0, vd, j, -j, aMax, aMin) == []
    ensures NoneFound(sqrt, a0, 0.0, vd, -j, j, aMin, aMax) == []
    ensures CruiseFound(EPSILON, a0, 0.0, vd, j, -j, aMax, aMin) == []
    ensures CruiseFound(EPSILON, a0, 0.0, vd, -j, j, aMin, aMax) == []
  {
    assert -(-j) == j;
    hide NoneSolves, Acc0Solves, Energy, CruiseTime, NoneFound, CruiseFound;
    if UpSliver(sqrt, a0, vd, j, aMax) {
      SliverFails(sqrt, a0, vd, j, -j, aMax, aMin);
    } else {
      DownSliverFails(sqrt, a0, vd, aMax, aMin, j);
    }
    NoPeakFound(sqrt, a0, vd, j, -j, aMax, aMin);
    NoPeakFound(sqrt, a0, vd, -j, j, aMin, aMax);
    NoCruiseFound(a0, vd, j, -j, aMax, aMin);
    NoCruiseFound(a0, vd, -j, j, aMin, aMax);
  }

  /** And if none does, they are exhausted. */
  lemma NothingLeft(sqrt: real -> real, a0: real, vd: real, j: real, aMax: real, aMin: real)
    requires IsSqrt(sqrt) && j != 0.0 && aMax != 0.0
    requires NoneFound(sqrt, a0, 0.0, vd, j, -j, aMax, aMin) == []
    requires CruiseFound(EPSILON, a0, 0.0, vd, j, -j, aMax, aMin) == []
    ensures Exhausted(sqrt, a0, vd, j, aMax, aMin)
  {
    NothingFound(sqrt, a0, vd, j, -j, aMax, aMin);
    CruiseIs(EPSILON, a0, 0.0, vd, j, -j, aMax, aMin);
    hide CruiseFound, NoneFound, Reaches, CruiseTime, NoneExhausted, InLimits;
  }

  /** Above the limit there is a profile that stays at the limit for a while. */
  lemma AboveLimitSolves(sqrt: real -> real, a0: real, vd: real, aMax: real, aMin: real, j: real)
    requires IsSqrt(sqrt) && UsualLimits(a0, aMax, aMin, j, -j)
    requires var e := Energy(a0, 0.0, vd, j, -j); e >= 0.0 && sqrt(e) > aMax
    ensures Acc0Solves(a0, vd, j, -j, aMax, aMin)
  {
    var h := sqrt(Energy(a0, 0.0, vd, j, -j));
    Acc0Reaches(a0, 0.0, vd, aMax, j, -j);
    TimeToCruise(a0, vd, h, j, -j, aMax);
    Quotient(aMax - a0, j);
    Quotient(0.0 - aMax, -j);
  }

  /** And yet there is a motion that solves it. */
  lemma SliverHasSolution(sqrt: real -> real, a0: real, vd: real, aMax: real, aMin: real, j: real)
    requires IsSqrt(sqrt) && UsualLimits(a0, aMax, aMin, j, -j)
    ensures UpSliver(sqrt, a0, vd, j, aMax) ==> Acc0Solves(a0, vd, j, -j, aMax, aMin)
    ensures DownSliver(sqrt, a0, vd, j, aMin) ==> Acc0Solves(a0, vd, -j, j, aMin, aMax)
  {
    hide Acc0Solves, Energy, CruiseTime;
    if UpSliver(sqrt, a0, vd, j, aMax) {
      AboveLimitSolves(sqrt, a0, vd, aMax, aMin, j);
    }
    if DownSliver(sqrt, a0, vd, j, aMin) {
      EnergyMirrored(a0, 0.0, vd, -j, j);
      assert -(-j) == j && -(-a0) == a0 && -(-vd) == vd && -(-aMin) == aMin && -(-aMax) == aMax;
      AboveLimitSolves(sqrt, -a0, -vd, -aMin, -aMax, j);
      Acc0SolvesMirrored(-a0, -vd, j, -j, -aMin, -aMax);
    }
  }

  /** For instance: from rest to a velocity whose peak acceleration passes the limit by 2e-12, at a jerk of 1e6. */
  lemma SliverExample(sqrt: real -> real)
    requires IsSqrt(sqrt)
    ensures var h := 1.000000000002;
      UpSliver(sqrt, 0.0, h * h / 1000000.0, 1000000.0, 1.0) && UsualLimits(0.0, 1.0, -1.0, 1000000.0, -1000000.0)
  {
    var h, j := 1.000000000002, 1000000.0;
    var vd := h * h / j;
    assert Energy(0.0, 0.0, vd, j, -j) == h * h;
    var g := sqrt(h * h);
    if g < h {
      SquareGrows(g, h);
    } else if g > h {
      SquareGrows(h, g);
    }
  }

  // ---------------------------------------------------------------- step 1

  /** What a caller learns from an accepted profile: exact, within limits, as long as it says. */
  predicate VelocitySolution(plan: Plan, a0: real, af: real, vd: real, j: real, aMax: real, aMin: real) {
    && |plan.t| == 7 && |plan.tSum| == 7 && |plan.v| == 8 && |plan.a| == 8
    && plan.t == Times(plan.t[0], plan.t[1], plan.t[2]) && plan.j == ThirdOrderPattern(UDDU, plan.t, j)
    && Solves(a0, af, vd, plan.a[1], j, -j, aMax, aMin, plan.t[0], plan.t[1], plan.t[2])
    && plan.tSum[6] == plan.t[0] + plan.t[1] + plan.t[2] <= T_MAX
    && plan.a[7] == af && plan.v[7] == plan.v[0] + vd && plan.vf == plan.v[7] && plan.af == af
  }

  lemma VelocityTimes(limits: ReachedLimits, v0: real, a0: real, af: real, vd: real, top: real, j: real,
                      t0: real, t1: real, t2: real, aMax: real, aMin: real)
    requires Reaches(a0, af, vd, top, j, -j, t0, t1, t2) && (t1 > 0.0 ==> top == aMax)
    ensures var t := Times(t0, t1, t2);
      VelocityAccepts(t, ThirdOrderPattern(UDDU, t, j), limits, v0, a0, v0 + vd, af, aMax, aMin) <==>
      && Solves(a0, af, vd, top, j, -j, aMax, aMin, t0, t1, t2) && t0 + t1 + t2 <= T_MAX
      && (limits == ACC0 ==> t1 >= EPSILON)
  {
    hide Reaches, InLimits, VelocityAccepts;
    VelocityAccepted(limits, v0, a0, af, vd, top, j, t0, t1, t2, aMax, aMin);
  }

  lemma VelocityPlan(plan: Plan, a0: real, af: real, vd: real, top: real, j: real, t0: real, t1: real, t2: real,
                     aMax: real, aMin: real)
    requires |plan.t| == 7 && |plan.tSum| == 7 && |plan.v| == 8 && |plan.a| == 8
    requires plan.t == Times(t0, t1, t2) && plan.j == ThirdOrderPattern(UDDU, plan.t, j)
    requires Timed(plan.t, plan.tSum) && Integrated(plan.t, plan.j, plan.a, plan.v)
    requires plan.a[0] == a0 && plan.vf == plan.v[0] + vd && plan.af == af
    requires Solves(a0, af, vd, top, j, -j, aMax, aMin, t0, t1, t2) && t0 + t1 + t2 <= T_MAX
    ensures VelocitySolution(plan, a0, af, vd, j, aMax, aMin) && plan.t[0] == t0 && plan.t[1] == t1 && plan.t[2] == t2
  {
    hide InLimits, SecondOrderPattern, ThirdOrderPattern, After, Rise, VelocityAt, PositionAt, TimeAt;
    PatternsAgree(t0, t1, t2, j);
    ThreeKnots(plan.v[0], a0, j, -j, t0, t1, t2, top, af);
    LastTime(plan.t, plan.tSum);
    KnotsOf(plan.t, plan.j, plan.a, plan.v);
  }

  lemma VelocitySolutionTime(plan: Plan, a0: real, af: real, vd: real, j: real, aMax: real, aMin: real)
    requires VelocitySolution(plan, a0, af, vd, j, aMax, aMin)
    ensures plan.tSum[6] == plan.t[0] + plan.t[1] + plan.t[2]
  {}

  /** The three times as written, for the profile that stays at the limit. */
  lemma Acc0Times(a0: real, af: real, vd: real, aMax: real, j: real)
    requires aMax != 0.0 && j != 0.0
    ensures 2.0 * aMax * j != 0.0
    ensures var t0, t1 := (-a0 + aMax) / j, (a0 * a0 + af * af) / (2.0 * aMax * j) - aMax / j + vd / aMax;
      && t0 == (aMax - a0) / j && t1 == CruiseTime(a0, af, vd, aMax, j, -j) && (-af + aMax) / j == (af - aMax) / -j
      && Reaches(a0, af, vd, aMax, j, -j, t0, t1, (-af + aMax) / j)
  {
    Acc0Reaches(a0, af, vd, aMax, j, -j);
    TimeAtLimit(a0, af, vd, j, aMax);
    QuotientMirrored(aMax - af, j);
    hide CruiseTime, Reaches;
    assert -a0 + aMax == aMax - a0 && -af + aMax == aMax - af && -(aMax - af) == af - aMax;
  }
}
