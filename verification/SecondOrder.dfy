/**
 * The second-order position profiles of position_second_step1.cpp: they reach the target exactly, one of
 * them is always accepted for a target at rest, and it is the fastest motion there is.
 */
module SecondOrder {
  import opened Kinematics
  import opened ProfileLists
  import opened Profiles
  import opened RealArithmetic

  // ---------------------------------------------------------------- the closed forms

  function Times(t0: real, t1: real, t2: real): seq<real> {
    [t0, t1, t2, 0.0, 0.0, 0.0, 0.0]
  }

  /** `t0` under `u`, `t1` without acceleration, `t2` under `d`: from `v` to `vf` over `pd`, with `top` between. */
  predicate Reaches(v: real, vf: real, pd: real, top: real, u: real, d: real, t0: real, t1: real, t2: real) {
    && After(v, u, t0) == top && After(top, d, t2) == vf
    && Rise(v, u, t0) + Rise(top, 0.0, t1) + Rise(top, d, t2) == pd
  }

  /** The squared peak velocity of a profile without cruise. */
  function Energy(v: real, vf: real, pd: real, u: real, d: real): real
    requires u != d
  {
    (u * vf * vf - d * v * v - 2.0 * u * d * pd) / (u - d)
  }

  /** The cruise time of a profile that reaches `top`. */
  function CruiseTime(v: real, vf: real, pd: real, top: real, u: real, d: real): real
    requires u != 0.0 && d != 0.0 && top != 0.0
  {
    (d * v * v - u * vf * vf) / (2.0 * u * d * top) + top * (u - d) / (2.0 * u * d) + pd / top
  }

  /** The time of the two flanks over the peak `top`. */
  function PeakTime(v: real, vf: real, u: real, d: real, top: real): real
    requires u != 0.0 && d != 0.0
  {
    (top - v) / u + (vf - top) / d
  }

  lemma FlankTimes(v: real, vf: real, top: real, u: real, d: real)
    requires u != 0.0 && d != 0.0
    ensures After(v, u, (top - v) / u) == top && After(top, d, (vf - top) / d) == vf
  {}

  /** The distance covered in the two flanks, without fractions. */
  lemma FlankDistance(v: real, vf: real, top: real, u: real, d: real, t0: real, t2: real)
    requires After(v, u, t0) == top && After(top, d, t2) == vf
    ensures 2.0 * u * d * (Rise(v, u, t0) + Rise(top, d, t2)) == d * (top * top - v * v) + u * (vf * vf - top * top)
  {
    var x, y := Rise(v, u, t0), Rise(top, d, t2);
    RiseEnergy(v, u, t0);
    RiseEnergy(top, d, t2);
    assert 2.0 * u * d * (x + y) == d * (2.0 * u * x) + u * (2.0 * d * y);
  }

  lemma EnergyEquation(v: real, vf: real, pd: real, u: real, d: real, e: real)
    requires u != d && e == Energy(v, vf, pd, u, d)
    ensures (u - d) * e == u * (vf * vf) - d * (v * v) - 2.0 * u * d * pd
  {}

  lemma NoneAlgebra(v: real, vf: real, pd: real, u: real, d: real, e: real, x: real)
    requires (u - d) * e == u * (vf * vf) - d * (v * v) - 2.0 * u * d * pd
    requires 2.0 * u * d * x == d * (e - v * v) + u * (vf * vf - e)
    ensures 2.0 * u * d * x == 2.0 * u * d * pd
  {}

  /** Either root of the peak velocity gives a profile without cruise that reaches the target exactly. */
  lemma NoneReaches(v: real, vf: real, pd: real, top: real, u: real, d: real)
    requires u != 0.0 && d != 0.0 && u != d && top * top == Energy(v, vf, pd, u, d)
    ensures Reaches(v, vf, pd, top, u, d, (top - v) / u, 0.0, (vf - top) / d)
  {
    var t0, t2 := (top - v) / u, (vf - top) / d;
    FlankTimes(v, vf, top, u, d);
    FlankDistance(v, vf, top, u, d, t0, t2);
    NoTime(top, 0.0);
    hide After, Rise, Energy;
    var x := Rise(v, u, t0) + Rise(top, d, t2);
    EnergyEquation(v, vf, pd, u, d, top * top);
    NoneAlgebra(v, vf, pd, u, d, top * top, x);
    Cancel(2.0 * u * d, x, pd);
  }

  /** The profile that cruises at any given non-zero speed reaches the target exactly. */
  lemma Acc0Reaches(v: real, vf: real, pd: real, top: real, u: real, d: real)
    requires u != 0.0 && d != 0.0 && top != 0.0
    ensures Reaches(v, vf, pd, top, u, d, (top - v) / u, CruiseTime(v, vf, pd, top, u, d), (vf - top) / d)
  {
    var t0, t1, t2 := (top - v) / u, CruiseTime(v, vf, pd, top, u, d), (vf - top) / d;
    FlankTimes(v, vf, top, u, d);
    FlankDistance(v, vf, top, u, d, t0, t2);
    var x := Rise(v, u, t0) + Rise(top, d, t2);
    FlanksByProducts(v, vf, top, u, d, x);
    CruiseDistance(v, vf, pd, top, u, d);
    CruiseIsProduct(top, t1);
    NonZeroProduct(u, d);
    hide CruiseTime, Mul, Sq, After, Rise;
    SumByProducts(2.0 * u * d, x, Mul(top, t1), pd, u, d, v, vf, top);
  }

  lemma CruiseIsProduct(top: real, t: real)
    ensures Rise(top, 0.0, t) == Mul(top, t)
  {}

  lemma NonZeroProduct(u: real, d: real)
    requires u != 0.0 && d != 0.0
    ensures 2.0 * u * d != 0.0
  {
    if 2.0 * u * d == 0.0 {
      Cancel(u, d, 0.0);
    }
  }

  lemma FlanksByProducts(v: real, vf: real, top: real, u: real, d: real, x: real)
    requires 2.0 * u * d * x == d * (top * top - v * v) + u * (vf * vf - top * top)
    ensures Mul(2.0 * u * d, x) == Mul(u, Sq(vf)) - Mul(d, Sq(v)) - Mul(u - d, Sq(top))
  {}

  lemma SumByProducts(k: real, x: real, y: real, pd: real, u: real, d: real, v: real, vf: real, top: real)
    requires k != 0.0 && Mul(k, x) == Mul(u, Sq(vf)) - Mul(d, Sq(v)) - Mul(u - d, Sq(top))
    requires Mul(k, y) == Mul(d, Sq(v)) - Mul(u, Sq(vf)) + Mul(u - d, Sq(top)) + Mul(k, pd)
    ensures x + y == pd
  {
    CancelSum(k, x, y, pd);
  }

  lemma CancelSum(k: real, x: real, y: real, z: real)
    requires k != 0.0 && Mul(k, x) + Mul(k, y) == Mul(k, z)
    ensures x + y == z
  {
    assert k * (x + y) == k * z;
    Cancel(k, x + y, z);
  }

  lemma CruiseDistance(v: real, vf: real, pd: real, top: real, u: real, d: real)
    requires u != 0.0 && d != 0.0 && top != 0.0
    ensures var k := 2.0 * u * d;
      Mul(k, Mul(top, CruiseTime(v, vf, pd, top, u, d)))
        == Mul(d, Sq(v)) - Mul(u, Sq(vf)) + Mul(u - d, Sq(top)) + Mul(k, pd)
  {
    var k := 2.0 * u * d;
    var x, y, z := (d * v * v - u * vf * vf) / (k * top), top * (u - d) / k, pd / top;
    NonZeroProduct(u, d);
    assert k * top != 0.0;
    assert k * (top * x) == k * top * x == d * v * v - u * vf * vf;
    assert k * y == top * (u - d);
    assert k * (top * y) == top * (k * y) == top * (top * (u - d));
    assert top * z == pd;
    assert k * (top * z) == k * pd;
    assert k * (top * (x + y + z)) == k * (top * x) + k * (top * y) + k * (top * z);
  }

  // ---------------------------------------------------------------- what the check makes of them

  /** The knots of a profile with three segments. */
  lemma ThreeKnots(p0: real, v: real, u: real, d: real, t0: real, t1: real, t2: real, top: real, end: real)
    requires t0 >= 0.0 && t1 >= 0.0 && t2 >= 0.0 && After(v, u, t0) == top && After(top, d, t2) == end
    ensures var t := Times(t0, t1, t2); var a := SecondOrderPattern(UDDU, t, u, d);
      && NonNegative(t) && TimeAt(t, 7) == t0 + t1 + t2
      && VelocityAt(v, t, a, 1) == top && VelocityAt(v, t, a, 2) == top && VelocityAt(v, t, a, 3) == end
      && VelocityAt(v, t, a, 4) == end && VelocityAt(v, t, a, 5) == end && VelocityAt(v, t, a, 6) == end
      && VelocityAt(v, t, a, 7) == end
      && PositionAt(p0, v, t, a, 7) == p0 + Rise(v, u, t0) + Rise(top, 0.0, t1) + Rise(top, d, t2)
  {
    var t := Times(t0, t1, t2);
    var a := SecondOrderPattern(UDDU, t, u, d);
    NoTime(v, 0.0);
    NoTime(v, u);
    NoTime(top, 0.0);
    NoTime(top, d);
    NoTime(end, 0.0);
    NoPush(top, t1);
    assert After(v, a[0], t0) == top && Rise(v, a[0], t0) == Rise(v, u, t0);
    assert After(top, a[2], t2) == end && Rise(top, a[2], t2) == Rise(top, d, t2);
    hide After, Rise, SecondOrderPattern;
    TimeSteps(t);
    FirstKnots(p0, v, t, a, top, end);
    LastKnots(p0, v, t, a, end);
  }

  lemma TimeSteps(t: seq<real>)
    requires |t| == 7
    ensures TimeAt(t, 7) == t[0] + t[1] + t[2] + t[3] + t[4] + t[5] + t[6]
  {
    assert TimeAt(t, 1) == t[0];
    assert TimeAt(t, 2) == t[0] + t[1];
    assert TimeAt(t, 3) == t[0] + t[1] + t[2];
    assert TimeAt(t, 4) == t[0] + t[1] + t[2] + t[3];
    assert TimeAt(t, 5) == t[0] + t[1] + t[2] + t[3] + t[4];
    assert TimeAt(t, 6) == t[0] + t[1] + t[2] + t[3] + t[4] + t[5];
  }

  lemma FirstKnots(p0: real, v: real, t: seq<real>, a: seq<real>, top: real, end: real)
    requires |t| == 7 && |a| == 7
    requires After(v, a[0], t[0]) == top && After(top, a[1], t[1]) == top && After(top, a[2], t[2]) == end
    ensures VelocityAt(v, t, a, 1) == top && VelocityAt(v, t, a, 2) == top && VelocityAt(v, t, a, 3) == end
    ensures PositionAt(p0, v, t, a, 3) == p0 + Rise(v, a[0], t[0]) + Rise(top, a[1], t[1]) + Rise(top, a[2], t[2])
  {
    hide After, Rise;
    assert VelocityAt(v, t, a, 1) == top;
    assert VelocityAt(v, t, a, 2) == top;
    assert PositionAt(p0, v, t, a, 1) == p0 + Rise(v, a[0], t[0]);
    assert PositionAt(p0, v, t, a, 2) == p0 + Rise(v, a[0], t[0]) + Rise(top, a[1], t[1]);
  }

  lemma LastKnots(p0: real, v: real, t: seq<real>, a: seq<real>, end: real)
    requires |t| == 7 && |a| == 7 && VelocityAt(v, t, a, 3) == end
    requires forall i :: 3 <= i < 7 ==> After(end, a[i], t[i]) == end && Rise(end, a[i], t[i]) == 0.0
    ensures VelocityAt(v, t, a, 4) == end && VelocityAt(v, t, a, 5) == end && VelocityAt(v, t, a, 6) == end
    ensures VelocityAt(v, t, a, 7) == end && PositionAt(p0, v, t, a, 7) == PositionAt(p0, v, t, a, 3)
  {
    hide After, Rise;
    assert VelocityAt(v, t, a, 4) == end && PositionAt(p0, v, t, a, 4) == PositionAt(p0, v, t, a, 3);
    assert VelocityAt(v, t, a, 5) == end && PositionAt(p0, v, t, a, 5) == PositionAt(p0, v, t, a, 3);
    assert VelocityAt(v, t, a, 6) == end && PositionAt(p0, v, t, a, 6) == PositionAt(p0, v, t, a, 3);
  }

  predicate InLimits(x: real, vMax: real, vMin: real) {
    Lower(vMax, vMin) - V_EPS <= x <= Upper(vMax, vMin) + V_EPS
  }

  /** A profile that reaches its target is accepted for its times and its two speeds alone. */
  lemma ThreeAccepted(p0: real, v: real, vf: real, pd: real, top: real, u: real, d: real,
                      t0: real, t1: real, t2: real, vMax: real, vMin: real)
    requires Reaches(v, vf, pd, top, u, d, t0, t1, t2)
    ensures var t := Times(t0, t1, t2);
      SecondOrderAccepts(t, SecondOrderPattern(UDDU, t, u, d), p0, v, p0 + pd, vf, vMax, vMin) <==>
      && t0 >= 0.0 && t1 >= 0.0 && t2 >= 0.0 && t0 + t1 + t2 <= T_MAX
      && InLimits(top, vMax, vMin) && InLimits(vf, vMax, vMin)
  {
    var t := Times(t0, t1, t2);
    var a := SecondOrderPattern(UDDU, t, u, d);
    if t0 >= 0.0 && t1 >= 0.0 && t2 >= 0.0 {
      ThreeKnots(p0, v, u, d, t0, t1, t2, top, vf);
      hide After, Rise, SecondOrderPattern, VelocityAt, PositionAt, TimeAt;
      assert forall i :: 2 <= i <= 6 ==> VelocityAt(v, t, a, i) == if i == 2 then top else vf;
      if InLimits(top, vMax, vMin) && InLimits(vf, vMax, vMin) {
        assert forall i :: 2 <= i <= 6 ==> InLimits(VelocityAt(v, t, a, i), vMax, vMin);
      }
    } else {
      assert !NonNegative(t) by {
        assert t[0] == t0 && t[1] == t1 && t[2] == t2;
      }
    }
  }

  // ---------------------------------------------------------------- what the calls find

  /** The check accepts the profile over `top` with a cruise of `t1`. */
  predicate Passes(v: real, vf: real, top: real, t1: real, u: real, d: real, vMax: real, vMin: real)
    requires u != 0.0 && d != 0.0
  {
    && (top - v) / u >= 0.0 && t1 >= 0.0 && (vf - top) / d >= 0.0 && PeakTime(v, vf, u, d, top) + t1 <= T_MAX
    && InLimits(top, vMax, vMin) && InLimits(vf, vMax, vMin)
  }

  /** The profile over `top` without cruise, if it is accepted. */
  function OverPeak(v: real, vf: real, top: real, u: real, d: real, vMax: real, vMin: real): (r: seq<Found>)
    requires u != 0.0 && d != 0.0
  {
    if Passes(v, vf, top, 0.0, u, d, vMax, vMin) then [Found(PeakTime(v, vf, u, d, top), vMax > 0.0)] else []
  }

  /** What `time_none` finds, with both roots of the peak velocity. */
  function NoneFound(sqrt: real -> real, v: real, vf: real, pd: real, u: real, d: real, vMax: real, vMin: real)
    : seq<Found>
    requires u != 0.0 && d != 0.0 && u != d
  {
    var e := Energy(v, vf, pd, u, d);
    if e < 0.0 then []
    else OverPeak(v, vf, -sqrt(e), u, d, vMax, vMin) + OverPeak(v, vf, sqrt(e), u, d, vMax, vMin)
  }

  /** What `time_acc0` finds, where a cruise has to take at least so long. */
  function CruiseFound(least: real, v: real, vf: real, pd: real, u: real, d: real, vMax: real, vMin: real): seq<Found>
    requires u != 0.0 && d != 0.0 && vMax != 0.0
  {
    var t1 := CruiseTime(v, vf, pd, vMax, u, d);
    if t1 >= least && Passes(v, vf, vMax, t1, u, d, vMax, vMin) then
      [Found(PeakTime(v, vf, u, d, vMax) + t1, vMax > 0.0)]
    else []
  }

  /** What the four calls find for a target that moves, in their order. */
  function AllFound(sqrt: real -> real, least: real, v: real, vf: real, pd: real,
                    vMax: real, vMin: real, aMax: real, aMin: real): seq<Found>
    requires vMin < 0.0 < vMax && aMin < 0.0 < aMax
  {
    NoneFound(sqrt, v, vf, pd, aMax, aMin, vMax, vMin) + NoneFound(sqrt, v, vf, pd, aMin, aMax, vMin, vMax)
    + CruiseFound(least, v, vf, pd, aMax, aMin, vMax, vMin) + CruiseFound(least, v, vf, pd, aMin, aMax, vMin, vMax)
  }

  // ---------------------------------------------------------------- targets at rest

  /** A motion of three segments within the limits that holds a speed only at the limit. */
  predicate Solves(v: real, vf: real, pd: real, top: real, u: real, d: real, vMax: real, vMin: real,
                   t0: real, t1: real, t2: real) {
    && Reaches(v, vf, pd, top, u, d, t0, t1, t2)
    && t0 >= 0.0 && t1 >= 0.0 && t2 >= 0.0 && InLimits(top, vMax, vMin) && InLimits(vf, vMax, vMin)
    && (t1 > 0.0 ==> top == vMax)
  }

  predicate UsualLimits(v: real, vMax: real, vMin: real, aMax: real, aMin: real) {
    vMin < 0.0 < vMax && aMin < 0.0 < aMax && vMin <= v <= vMax
  }

  lemma UpIsTrapezoid(v: real, pd: real, top: real, u: real, d: real, t0: real, t1: real, t2: real)
    requires u > 0.0 > d && t0 >= 0.0 && t1 >= 0.0 && t2 >= 0.0 && Reaches(v, 0.0, pd, top, u, d, t0, t1, t2)
    ensures Trapezoid(v, pd, top, u, d, t0, t1, t2)
  {
    assert top == t2 * -d;
    Product(t2, -d);
    FallFrom(top, d, t2);
  }

  lemma FallFrom(top: real, d: real, t: real)
    requires After(top, d, t) == 0.0
    ensures Rise(top, d, t) == Rise(0.0, -d, t)
  {
    assert t * (top + t * d) == 0.0;
  }

  lemma DownIsTrapezoid(v: real, pd: real, top: real, u: real, d: real, t0: real, t1: real, t2: real)
    requires d > 0.0 > u && t0 >= 0.0 && t1 >= 0.0 && t2 >= 0.0 && Reaches(v, 0.0, pd, top, u, d, t0, t1, t2)
    ensures Trapezoid(-v, -pd, -top, -u, -d, t0, t1, t2)
  {
    MirroredRise(v, u, t0);
    MirroredRise(top, 0.0, t1);
    MirroredRise(top, d, t2);
    assert -0.0 == 0.0;
    UpIsTrapezoid(-v, -pd, -top, -u, -d, t0, t1, t2);
  }

  /** A profile as a motion. */
  function Three(t0: real, u: real, t1: real, d: real, t2: real): seq<Segment> {
    [Segment(t0, u), Segment(t1, 0.0), Segment(t2, d)]
  }

  /** It is a motion within the limits exactly if its peak is. */
  lemma ThreeAdmissible(v: real, pd: real, top: real, u: real, d: real, t0: real, t1: real, t2: real,
                        vMax: real, vMin: real, aMax: real, aMin: real)
    requires UsualLimits(v, vMax, vMin, aMax, aMin) && aMin <= u <= aMax && aMin <= d <= aMax
    requires Reaches(v, 0.0, pd, top, u, d, t0, t1, t2) && t0 >= 0.0 && t1 >= 0.0 && t2 >= 0.0
    ensures Duration(Three(t0, u, t1, d, t2)) == t0 + t1 + t2
    ensures Admissible(Three(t0, u, t1, d, t2), v, pd, vMin, vMax, aMin, aMax) <==> vMin <= top <= vMax
  {
    hide After, Rise;
    var last := [Segment(t2, d)];
    var cruise := [Segment(t1, 0.0)] + last;
    OneSegment(top, t2, d, vMin, vMax, aMin, aMax);
    NoPush(top, t1);
    Unfold(top, Segment(t1, 0.0), last, vMin, vMax, aMin, aMax);
    Unfold(v, Segment(t0, u), cruise, vMin, vMax, aMin, aMax);
    assert Three(t0, u, t1, d, t2) == [Segment(t0, u)] + cruise;
    hide Within, Duration, EndVelocity, Displacement;
  }

  /** Whichever way it goes, a solution is as fast as any motion within the limits. */
  lemma SolutionIsFastest(w: seq<Segment>, v: real, pd: real, top: real, up: bool, t0: real, t1: real, t2: real,
                          vMax: real, vMin: real, aMax: real, aMin: real)
    requires UsualLimits(v, vMax, vMin, aMax, aMin) && Admissible(w, v, pd, vMin, vMax, aMin, aMax)
    requires if up then Solves(v, 0.0, pd, top, aMax, aMin, vMax, vMin, t0, t1, t2)
             else Solves(v, 0.0, pd, top, aMin, aMax, vMin, vMax, t0, t1, t2)
    ensures Duration(w) >= t0 + t1 + t2
  {
    hide Admissible, Duration, Reaches, Trapezoid;
    if up {
      UpIsTrapezoid(v, pd, top, aMax, aMin, t0, t1, t2);
      TrapezoidIsFastest(w, v, pd, top, t0, t1, t2, vMin, vMax, aMin, aMax);
    } else {
      DownIsTrapezoid(v, pd, top, aMin, aMax, t0, t1, t2);
      MirroredTrapezoidIsFastest(w, v, pd, top, t0, t1, t2, vMin, vMax, aMin, aMax);
    }
  }

  /** The profile that a call tries at the peak velocity `top`, and the one that cruises. */
  predicate NoneSolves(v: real, pd: real, top: real, u: real, d: real, vMax: real, vMin: real)
    requires u != 0.0 && d != 0.0
  {
    Solves(v, 0.0, pd, top, u, d, vMax, vMin, (top - v) / u, 0.0, (0.0 - top) / d)
  }

  predicate Acc0Solves(v: real, pd: real, u: real, d: real, vMax: real, vMin: real)
    requires u != 0.0 && d != 0.0 && vMax != 0.0
  {
    Solves(v, 0.0, pd, vMax, u, d, vMax, vMin, (vMax - v) / u, CruiseTime(v, 0.0, pd, vMax, u, d), (0.0 - vMax) / d)
  }

  function Acc0Total(v: real, pd: real, top: real, u: real, d: real): real
    requires u != 0.0 && d != 0.0 && top != 0.0
  {
    PeakTime(v, 0.0, u, d, top) + CruiseTime(v, 0.0, pd, top, u, d)
  }

  /** A call that finds nothing has at most a solution that takes too long. */
  predicate NoneExhausted(sqrt: real -> real, v: real, pd: real, u: real, d: real, vMax: real, vMin: real)
    requires u != 0.0 && d != 0.0 && u != d
  {
    var e := Energy(v, 0.0, pd, u, d);
    e >= 0.0 ==>
      && (NoneSolves(v, pd, sqrt(e), u, d, vMax, vMin) ==> PeakTime(v, 0.0, u, d, sqrt(e)) > T_MAX)
      && (NoneSolves(v, pd, -sqrt(e), u, d, vMax, vMin) ==> PeakTime(v, 0.0, u, d, -sqrt(e)) > T_MAX)
  }

  predicate Acc0Exhausted(v: real, pd: real, u: real, d: real, vMax: real, vMin: real)
    requires u != 0.0 && d != 0.0 && vMax != 0.0
  {
    Acc0Solves(v, pd, u, d, vMax, vMin) ==> Acc0Total(v, pd, vMax, u, d) > T_MAX
  }

  lemma EnergyAtRest(v: real, pd: real, u: real, d: real)
    requires u != d
    ensures Mul(u - d, Energy(v, 0.0, pd, u, d)) == -Mul(d, Sq(v)) - Mul(2.0 * u * d, pd)
  {}

  lemma NegativeProduct(k: real, top: real, x: real)
    requires k < 0.0 && top > 0.0 && x < 0.0
    ensures k * (top * x) > 0.0
  {
    Product(top, -x);
    var y := top * -x;
    Product(-k, y);
    assert top * x == -y && k * (top * x) == (-k) * y;
  }

  lemma CruisePositive(k: real, top: real, x: real, c: real, e: real)
    requires k < 0.0 && top > 0.0 && c > 0.0 && e > 0.0 && Mul(k, Mul(top, x)) == -Mul(c, e)
    ensures x >= 0.0
  {
    Product(c, e);
    if x < 0.0 {
      NegativeProduct(k, top, x);
    }
  }

  lemma OppositeSigns(u: real, d: real)
    requires u > 0.0 > d
    ensures 2.0 * u * d < 0.0
  {
    Product(u, -d);
  }

  lemma CruiseAtRest(v: real, pd: real, h: real, u: real, d: real, top: real)
    requires u != 0.0 && d != 0.0 && u != d && top != 0.0 && Sq(h) == Energy(v, 0.0, pd, u, d)
    ensures Mul(2.0 * u * d, Mul(top, CruiseTime(v, 0.0, pd, top, u, d))) == -Mul(u - d, Sq(h) - Sq(top))
  {
    NoSpeed(u);
    hide CruiseTime, Energy, Mul, Sq;
    CruiseDistance(v, 0.0, pd, top, u, d);
    EnergyAtRest(v, pd, u, d);
    MulDifference(u - d, Sq(h), Sq(top));
  }

  lemma NoSpeed(u: real)
    ensures Mul(u, Sq(0.0)) == 0.0
  {}

  lemma MulDifference(k: real, x: real, y: real)
    ensures Mul(k, x - y) == Mul(k, x) - Mul(k, y)
  {}

  /** If the peak velocity is above the limit there is time to cruise. */
  lemma TimeToCruise(v: real, pd: real, h: real, u: real, d: real, vMax: real)
    requires u > 0.0 > d && vMax > 0.0 && h > vMax && Sq(h) == Energy(v, 0.0, pd, u, d)
    ensures CruiseTime(v, 0.0, pd, vMax, u, d) >= 0.0
  {
    DifferenceOfSquares(h, vMax);
    assert Sq(h) - Sq(vMax) > 0.0;
    OppositeSigns(u, d);
    hide CruiseTime, Energy, Mul, Sq;
    CruiseAtRest(v, pd, h, u, d, vMax);
    CruisePositive(2.0 * u * d, vMax, CruiseTime(v, 0.0, pd, vMax, u, d), u - d, Sq(h) - Sq(vMax));
  }

  /** A direction whose peak is at or above the present velocity has a solution, with or without cruise. */
  lemma DirectionSolves(v: real, pd: real, h: real, u: real, d: real, vMax: real, vMin: real)
    requires u > 0.0 > d && vMin < 0.0 < vMax && v <= vMax
    requires h >= 0.0 && h * h == Energy(v, 0.0, pd, u, d) && v <= h
    ensures NoneSolves(v, pd, h, u, d, vMax, vMin) || (h > vMax + V_EPS && Acc0Solves(v, pd, u, d, vMax, vMin))
  {
    if h <= vMax + V_EPS {
      NoneReaches(v, 0.0, pd, h, u, d);
      Quotient(h - v, u);
      Quotient(0.0 - h, d);
    } else {
      Acc0Reaches(v, 0.0, pd, vMax, u, d);
      TimeToCruise(v, pd, h, u, d, vMax);
      Quotient(vMax - v, u);
      Quotient(0.0 - vMax, d);
    }
  }

  /** The two directions' energies add up to the present one, so one of them can be followed. */
  lemma EnergiesAdd(v: real, pd: real, u: real, d: real)
    requires u != d
    ensures Energy(v, 0.0, pd, u, d) + Energy(v, 0.0, pd, d, u) == v * v
  {
    EnergyAtRest(v, pd, u, d);
    EnergyAtRest(v, pd, d, u);
    var e, f := Energy(v, 0.0, pd, u, d), Energy(v, 0.0, pd, d, u);
    hide Energy;
    EnergySum(v, pd, u, d, e, f);
  }

  lemma EnergySum(v: real, pd: real, u: real, d: real, e: real, f: real)
    requires u != d && Mul(u - d, e) == -Mul(d, Sq(v)) - Mul(2.0 * u * d, pd)
    requires Mul(d - u, f) == -Mul(u, Sq(v)) - Mul(2.0 * d * u, pd)
    ensures e + f == v * v
  {
    assert (u - d) * (e + f) == (u - d) * (v * v);
    Cancel(u - d, e + f, v * v);
  }

  lemma EnergyMirrored(v: real, vf: real, pd: real, u: real, d: real)
    requires u != d
    ensures Energy(-v, -vf, -pd, -u, -d) == Energy(v, vf, pd, u, d)
  {
    var e, f := Energy(v, vf, pd, u, d), Energy(-v, -vf, -pd, -u, -d);
    EnergyEquation(v, vf, pd, u, d, e);
    EnergyEquation(-v, -vf, -pd, -u, -d, f);
    hide Energy;
    assert (-v) * (-v) == v * v && (-vf) * (-vf) == vf * vf && 2.0 * -u * -d * -pd == -(2.0 * u * d * pd);
    assert (u - d) * e == (u - d) * f;
    Cancel(u - d, e, f);
  }

  lemma SolvesMirrored(v: real, pd: real, top: real, u: real, d: real, vMax: real, vMin: real, t0: real, t1: real,
                       t2: real)
    requires vMax != 0.0 && Solves(v, 0.0, pd, top, u, d, vMax, vMin, t0, t1, t2)
    ensures Solves(-v, 0.0, -pd, -top, -u, -d, -vMax, -vMin, t0, t1, t2)
  {
    MirroredRise(v, u, t0);
    MirroredRise(top, 0.0, t1);
    MirroredRise(top, d, t2);
    assert -0.0 == 0.0;
    hide After, Rise;
  }

  lemma CruiseTimeMirrored(v: real, vf: real, pd: real, top: real, u: real, d: real)
    requires u != 0.0 && d != 0.0 && top != 0.0
    ensures CruiseTime(-v, -vf, -pd, -top, -u, -d) == CruiseTime(v, vf, pd, top, u, d)
  {
    CruiseDistance(v, vf, pd, top, u, d);
    CruiseDistance(-v, -vf, -pd, -top, -u, -d);
    var x, y := CruiseTime(v, vf, pd, top, u, d), CruiseTime(-v, -vf, -pd, -top, -u, -d);
    NonZeroProduct(u, d);
    hide CruiseTime;
    MirroredProducts(v, vf, pd, top, u, d);
    hide Mul, Sq;
    assert Mul(2.0 * -u * -d, Mul(-top, y)) == -Mul(2.0 * u * d, Mul(top, x));
    SameTime(u, d, top, x, y);
  }

  lemma MirroredProducts(v: real, vf: real, pd: real, top: real, u: real, d: real)
    ensures Mul(-d, Sq(-v)) == -Mul(d, Sq(v)) && Mul(-u, Sq(-vf)) == -Mul(u, Sq(vf))
    ensures Mul(-u - -d, Sq(-top)) == -Mul(u - d, Sq(top)) && Mul(2.0 * -u * -d, -pd) == -Mul(2.0 * u * d, pd)
  {}

  lemma SameTime(u: real, d: real, top: real, x: real, y: real)
    requires 2.0 * u * d != 0.0 && top != 0.0
    requires Mul(2.0 * -u * -d, Mul(-top, y)) == -Mul(2.0 * u * d, Mul(top, x))
    ensures y == x
  {
    var k := 2.0 * u * d;
    assert 2.0 * -u * -d == k;
    assert k * (-top * y) == -(k * (top * y));
    Cancel(k, top * y, top * x);
    Cancel(top, y, x);
  }

  lemma NoneSolvesMirrored(v: real, pd: real, top: real, u: real, d: real, vMax: real, vMin: real)
    requires u != 0.0 && d != 0.0 && vMax != 0.0 && NoneSolves(v, pd, top, u, d, vMax, vMin)
    ensures NoneSolves(-v, -pd, -top, -u, -d, -vMax, -vMin)
  {
    SolvesMirrored(v, pd, top, u, d, vMax, vMin, (top - v) / u, 0.0, (0.0 - top) / d);
    QuotientMirrored(top - v, u);
    QuotientMirrored(0.0 - top, d);
    hide Solves;
    assert -top - -v == -(top - v) && 0.0 - -top == -(0.0 - top);
  }

  lemma Acc0SolvesMirrored(v: real, pd: real, u: real, d: real, vMax: real, vMin: real)
    requires u != 0.0 && d != 0.0 && vMax != 0.0 && Acc0Solves(v, pd, u, d, vMax, vMin)
    ensures Acc0Solves(-v, -pd, -u, -d, -vMax, -vMin)
  {
    SolvesMirrored(v, pd, vMax, u, d, vMax, vMin,
                   (vMax - v) / u, CruiseTime(v, 0.0, pd, vMax, u, d), (0.0 - vMax) / d);
    CruiseTimeMirrored(v, 0.0, pd, vMax, u, d);
    assert -0.0 == 0.0;
    QuotientMirrored(vMax - v, u);
    QuotientMirrored(0.0 - vMax, d);
    hide Solves, CruiseTime;
    assert -vMax - -v == -(vMax - v) && 0.0 - -vMax == -(0.0 - vMax);
  }

  /** One of the four profiles tried for a target at rest is a solution. */
  lemma SomeSolution(sqrt: real -> real, v: real, pd: real, vMax: real, vMin: real, aMax: real, aMin: real)
    requires IsSqrt(sqrt) && UsualLimits(v, vMax, vMin, aMax, aMin)
    ensures var e, f := Energy(v, 0.0, pd, aMax, aMin), Energy(v, 0.0, pd, aMin, aMax);
      || (e >= 0.0 && NoneSolves(v, pd, sqrt(e), aMax, aMin, vMax, vMin))
      || (e >= 0.0 && sqrt(e) > vMax + V_EPS && Acc0Solves(v, pd, aMax, aMin, vMax, vMin))
      || (f >= 0.0 && NoneSolves(v, pd, -sqrt(f), aMin, aMax, vMin, vMax))
      || (f >= 0.0 && -sqrt(f) < vMin - V_EPS && Acc0Solves(v, pd, aMin, aMax, vMin, vMax))
  {
    var e, f := Energy(v, 0.0, pd, aMax, aMin), Energy(v, 0.0, pd, aMin, aMax);
    EnergiesAdd(v, pd, aMax, aMin);
    hide NoneSolves, Acc0Solves, Energy;
    var up := e >= 0.0 && v <= sqrt(e);
    if up {
      DirectionSolves(v, pd, sqrt(e), aMax, aMin, vMax, vMin);
    } else {
      assert f >= 0.0 && -v <= sqrt(f) by {
        TurnBack(sqrt, v, e, f);
      }
      EnergyMirrored(v, 0.0, pd, aMin, aMax);
      DirectionSolves(-v, -pd, sqrt(f), -aMin, -aMax, -vMin, -vMax);
      if NoneSolves(-v, -pd, sqrt(f), -aMin, -aMax, -vMin, -vMax) {
        NoneSolvesMirrored(-v, -pd, sqrt(f), -aMin, -aMax, -vMin, -vMax);
        assert -(-v) == v && -(-pd) == pd && -(-aMin) == aMin && -(-aMax) == aMax && -(-vMin) == vMin &&
               -(-vMax) == vMax;
      } else {
        Acc0SolvesMirrored(-v, -pd, -aMin, -aMax, -vMin, -vMax);
        assert -(-v) == v && -(-pd) == pd && -(-aMin) == aMin && -(-aMax) == aMax && -(-vMin) == vMin &&
               -(-vMax) == vMax;
      }
    }
  }

  /** Too fast to go on means fast enough to come back. */
  lemma TurnBack(sqrt: real -> real, v: real, e: real, f: real)
    requires IsSqrt(sqrt) && e + f == v * v && !(e >= 0.0 && v <= sqrt(e))
    ensures f >= 0.0 && -v <= sqrt(f)
  {
    if e >= 0.0 {
      SquareGrows(sqrt(e), v);
    } else {
      SquareNonNegative(v);
      if sqrt(f) < -v {
        assert (-v) * (-v) == v * v;
        SquareGrows(sqrt(f), -v);
      }
    }
  }

  /** If none of the four calls finds anything, every motion within the limits takes too long. */
  lemma EverythingTakesTooLong(w: seq<Segment>, sqrt: real -> real, v: real, pd: real,
                               vMax: real, vMin: real, aMax: real, aMin: real)
    requires IsSqrt(sqrt) && UsualLimits(v, vMax, vMin, aMax, aMin) && Admissible(w, v, pd, vMin, vMax, aMin, aMax)
    requires NoneExhausted(sqrt, v, pd, aMax, aMin, vMax, vMin) && Acc0Exhausted(v, pd, aMax, aMin, vMax, vMin)
    requires NoneExhausted(sqrt, v, pd, aMin, aMax, vMin, vMax) && Acc0Exhausted(v, pd, aMin, aMax, vMin, vMax)
    ensures Duration(w) > T_MAX
  {
    hide Solves, Energy, CruiseTime, Duration, Admissible, IsSqrt;
    SomeSolution(sqrt, v, pd, vMax, vMin, aMax, aMin);
    var e, f := Energy(v, 0.0, pd, aMax, aMin), Energy(v, 0.0, pd, aMin, aMax);
    if e >= 0.0 && NoneSolves(v, pd, sqrt(e), aMax, aMin, vMax, vMin) {
      SolutionIsFastest(w, v, pd, sqrt(e), true, (sqrt(e) - v) / aMax, 0.0, (0.0 - sqrt(e)) / aMin, vMax, vMin, aMax,
                        aMin);
    } else if Acc0Solves(v, pd, aMax, aMin, vMax, vMin) {
      SolutionIsFastest(w, v, pd, vMax, true, (vMax - v) / aMax, CruiseTime(v, 0.0, pd, vMax, aMax, aMin),
                        (0.0 - vMax) / aMin, vMax, vMin, aMax, aMin);
    } else if f >= 0.0 && NoneSolves(v, pd, -sqrt(f), aMin, aMax, vMin, vMax) {
      SolutionIsFastest(w, v, pd, -sqrt(f), false, (-sqrt(f) - v) / aMin, 0.0, (0.0 - -sqrt(f)) / aMax, vMax, vMin,
                        aMax, aMin);
    } else {
      SolutionIsFastest(w, v, pd, vMin, false, (vMin - v) / aMin, CruiseTime(v, 0.0, pd, vMin, aMin, aMax),
                        (0.0 - vMin) / aMax, vMax, vMin, aMax, aMin);
    }
  }

  // ---------------------------------------------------------------- found and solved

  /** All of them, or the first one if the search ends with it. */
  function Taken(fs: seq<Found>, returnAfterFound: bool): seq<Found> {
    if returnAfterFound && |fs| > 0 then fs[..1] else fs
  }

  /** A profile that reaches its target is found if it is a solution that does not take too long. */
  function IfSolved(v: real, vf: real, pd: real, top: real, t1: real, u: real, d: real, vMax: real, vMin: real)
    : (r: seq<Found>)
    requires u != 0.0 && d != 0.0
  {
    var t0, t2 := (top - v) / u, (vf - top) / d;
    if Solves(v, vf, pd, top, u, d, vMax, vMin, t0, t1, t2) && t0 + t1 + t2 <= T_MAX then
      [Found(t0 + t1 + t2, vMax > 0.0)]
    else []
  }

  lemma OverPeakIs(v: real, vf: real, pd: real, top: real, u: real, d: real, vMax: real, vMin: real)
    requires u != 0.0 && d != 0.0 && Reaches(v, vf, pd, top, u, d, (top - v) / u, 0.0, (vf - top) / d)
    ensures OverPeak(v, vf, top, u, d, vMax, vMin) == IfSolved(v, vf, pd, top, 0.0, u, d, vMax, vMin)
  {
    hide Reaches, InLimits;
  }

  lemma CruiseIs(least: real, v: real, vf: real, pd: real, u: real, d: real, vMax: real, vMin: real)
    requires u != 0.0 && d != 0.0 && vMax != 0.0
    ensures var t1 := CruiseTime(v, vf, pd, vMax, u, d);
      CruiseFound(least, v, vf, pd, u, d, vMax, vMin) ==
      if t1 >= least then IfSolved(v, vf, pd, vMax, t1, u, d, vMax, vMin) else []
    ensures CruiseFound(0.0, v, vf, pd, u, d, vMax, vMin) ==
            IfSolved(v, vf, pd, vMax, CruiseTime(v, vf, pd, vMax, u, d), u, d, vMax, vMin)
  {
    Acc0Reaches(v, vf, pd, vMax, u, d);
    hide Reaches, InLimits, CruiseTime;
  }

  /** Nothing found for a target at rest. */
  lemma NothingFound(sqrt: real -> real, v: real, pd: real, u: real, d: real, vMax: real, vMin: real)
    requires IsSqrt(sqrt) && u != 0.0 && d != 0.0 && u != d && vMax != 0.0
    ensures NoneFound(sqrt, v, 0.0, pd, u, d, vMax, vMin) == [] ==> NoneExhausted(sqrt, v, pd, u, d, vMax, vMin)
    ensures CruiseFound(0.0, v, 0.0, pd, u, d, vMax, vMin) == [] ==> Acc0Exhausted(v, pd, u, d, vMax, vMin)
  {
    hide Energy, CruiseTime, Reaches, InLimits;
  }

  /** One of the two peak velocities. */
  predicate IsPeak(v: real, vf: real, pd: real, top: real, u: real, d: real)
    requires u != d
  {
    top * top == Energy(v, vf, pd, u, d)
  }

  lemma BothPeaks(sqrt: real -> real, v: real, vf: real, pd: real, u: real, d: real)
    requires IsSqrt(sqrt) && u != d
    ensures var e := Energy(v, vf, pd, u, d);
      e >= 0.0 ==> IsPeak(v, vf, pd, sqrt(e), u, d) && IsPeak(v, vf, pd, -sqrt(e), u, d)
  {
    hide Energy;
    var h := sqrt(Energy(v, vf, pd, u, d));
    assert (-h) * (-h) == h * h;
  }

  lemma PeakIs(v: real, vf: real, pd: real, top: real, u: real, d: real, vMax: real, vMin: real)
    requires u != 0.0 && d != 0.0 && u != d && IsPeak(v, vf, pd, top, u, d)
    ensures Reaches(v, vf, pd, top, u, d, (top - v) / u, 0.0, (vf - top) / d)
    ensures OverPeak(v, vf, top, u, d, vMax, vMin) == IfSolved(v, vf, pd, top, 0.0, u, d, vMax, vMin)
  {
    NoneReaches(v, vf, pd, top, u, d);
    hide Reaches, Energy, OverPeak, IfSolved;
    OverPeakIs(v, vf, pd, top, u, d, vMax, vMin);
  }

  lemma FirstOfTwo(x: seq<Found>, y: seq<Found>, returnAfterFound: bool)
    requires |y| <= 1 && (returnAfterFound ==> x == [])
    ensures Taken(x + y, returnAfterFound) == x + y
  {
    if |y| == 1 {
      assert y[..1] == y;
    }
  }

  lemma FirstAlone(x: seq<Found>, y: seq<Found>)
    requires |x| == 1
    ensures Taken(x + y, true) == x
  {
    assert (x + y)[..1] == x;
  }

  // ---------------------------------------------------------------- the solver

  predicate Accepted(p0: real, v: real, vf: real, pd: real, u: real, d: real,
                     t0: real, t1: real, t2: real, vMax: real, vMin: real) {
    SecondOrderAccepts(Times(t0, t1, t2), SecondOrderPattern(UDDU, Times(t0, t1, t2), u, d), p0, v, p0 + pd, vf, vMax,
                       vMin)
  }

  /** What a caller learns from an accepted profile: exact, within limits, as long as it says. */
  predicate Solution(plan: Plan, v: real, vf: real, pd: real, u: real, d: real, vMax: real, vMin: real) {
    && |plan.t| == 7 && |plan.tSum| == 7 && |plan.v| == 8 && |plan.p| == 8 && |plan.a| == 8
    && plan.t == Times(plan.t[0], plan.t[1], plan.t[2])
    && plan.a == SecondOrderPattern(UDDU, plan.t, u, d) + [plan.af]
    && Solves(v, vf, pd, plan.v[1], u, d, vMax, vMin, plan.t[0], plan.t[1], plan.t[2])
    && plan.tSum[6] == plan.t[0] + plan.t[1] + plan.t[2] <= T_MAX
    && plan.v[7] == vf && plan.p[7] == plan.p[0] + pd && plan.pf == plan.p[7] && plan.vf == vf
  }

  lemma AcceptedTimes(p0: real, v: real, vf: real, pd: real, top: real, u: real, d: real,
                      t0: real, t1: real, t2: real, vMax: real, vMin: real)
    requires Reaches(v, vf, pd, top, u, d, t0, t1, t2) && (t1 > 0.0 ==> top == vMax)
    ensures Accepted(p0, v, vf, pd, u, d, t0, t1, t2, vMax, vMin) <==>
      Solves(v, vf, pd, top, u, d, vMax, vMin, t0, t1, t2) && t0 + t1 + t2 <= T_MAX
  {
    hide Reaches, InLimits, SecondOrderAccepts;
    ThreeAccepted(p0, v, vf, pd, top, u, d, t0, t1, t2, vMax, vMin);
  }

  lemma AcceptedPlan(plan: Plan, v: real, vf: real, pd: real, top: real, u: real, d: real,
                     t0: real, t1: real, t2: real, vMax: real, vMin: real)
    requires |plan.t| == 7 && |plan.tSum| == 7 && |plan.v| == 8 && |plan.p| == 8 && |plan.a| == 8
    requires plan.t == Times(t0, t1, t2) && plan.a == SecondOrderPattern(UDDU, plan.t, u, d) + [plan.af]
    requires Timed(plan.t, plan.tSum) && Integrated(plan.t, plan.a[..7], plan.v, plan.p)
    requires plan.v[0] == v && plan.pf == plan.p[0] + pd && plan.vf == vf
    requires Solves(v, vf, pd, top, u, d, vMax, vMin, t0, t1, t2) && t0 + t1 + t2 <= T_MAX
    ensures Solution(plan, v, vf, pd, u, d, vMax, vMin) && plan.t[0] == t0 && plan.t[1] == t1 && plan.t[2] == t2
  {
    hide InLimits, SecondOrderPattern, After, Rise, VelocityAt, PositionAt, TimeAt;
    ThreeKnots(plan.p[0], v, u, d, t0, t1, t2, top, vf);
    assert plan.a[..7] == SecondOrderPattern(UDDU, plan.t, u, d);
    LastTime(plan.t, plan.tSum);
    KnotsOf(plan.t, plan.a[..7], plan.v, plan.p);
  }

  lemma KnotsOf(t: seq<real>, a: seq<real>, v: seq<real>, p: seq<real>)
    requires |t| == 7 && |a| == 7 && |v| == 8 && |p| == 8 && Integrated(t, a, v, p)
    ensures v[1] == VelocityAt(v[0], t, a, 1) && v[7] == VelocityAt(v[0], t, a, 7) &&
            p[7] == PositionAt(p[0], v[0], t, a, 7)
  {}
}
