/**
 * Sampling an accepted third-order profile at any time (trajectory.hpp), and the limits its samples keep:
 * the check only looks at the knots.
 */
module Trajectory {
  import opened Kinematics
  import opened Patterns
  import opened Profiles
  import opened RealArithmetic

  // ---------------------------------------------------------------- inside one segment

  lemma LinearBetween(a: real, j: real, T: real, tau: real, low: real, high: real)
    requires 0.0 <= tau <= T && low <= a <= high && low <= After(a, j, T) <= high
    ensures low <= After(a, j, tau) <= high
  {
    if j >= 0.0 {
      Product(tau, j);
      Product(T - tau, j);
    } else {
      Product(tau, -j);
      Product(T - tau, -j);
    }
    assert tau * j == -(tau * -j) && (T - tau) * j == -((T - tau) * -j);
    assert After(a, j, T) == After(a, j, tau) + (T - tau) * j;
  }

  /** Velocity gained is the time times the mean of the accelerations at the ends. */
  lemma Trapezium(a: real, j: real, t: real)
    ensures Rise(a, j, t) == Mul(t, a + After(a, j, t)) / 2.0
  {}

  lemma SplitRise(a: real, j: real, tau: real, T: real)
    ensures Rise(a, j, T) == Rise(a, j, tau) + Rise(After(a, j, tau), j, T - tau)
    ensures After(a, j, T) == After(After(a, j, tau), j, T - tau)
  {
    var rest := T - tau;
    RiseOfSum(a, j, tau, rest);
  }

  lemma RiseOfSum(a: real, j: real, tau: real, rest: real)
    ensures Rise(a, j, tau + rest) == Rise(a, j, tau) + Rise(After(a, j, tau), j, rest)
    ensures After(a, j, tau + rest) == After(After(a, j, tau), j, rest)
  {}

  lemma MulSign(t: real, x: real)
    requires t >= 0.0
    ensures x >= 0.0 ==> Mul(t, x) >= 0.0
    ensures x <= 0.0 ==> Mul(t, x) <= 0.0
  {
    if x >= 0.0 { Product(t, x); } else { Product(t, -x); }
    assert t * x == -(t * -x);
  }

  /** A velocity inside a segment exceeds those at its ends only at a sign change of the acceleration. */
  lemma SegmentPeak(v: real, a: real, j: real, T: real, tau: real, high: real)
    requires 0.0 <= tau <= T && v <= high && v + Rise(a, j, T) <= high
    requires a > 0.0 > After(a, j, T) ==> j != 0.0 && VelocityAtZero(v, a, j) <= high
    ensures v + Rise(a, j, tau) <= high
  {
    var m, e := After(a, j, tau), After(a, j, T);
    SplitRise(a, j, tau, T);
    Trapezium(a, j, tau);
    Trapezium(m, j, T - tau);
    MulSign(tau, a + m);
    MulSign(T - tau, m + e);
    if a > 0.0 > e {
      PeakIsHighest(v, a, j, T, tau);
    } else {
      SignOfMiddle(a, j, tau, T);
      hide After, Rise, Mul;
    }
  }

  /** Without a change from positive to negative, the middle has the sign of one of the ends. */
  lemma SignOfMiddle(a: real, j: real, tau: real, T: real)
    requires 0.0 <= tau <= T && !(a > 0.0 > After(a, j, T))
    ensures var m := After(a, j, tau); a + m <= 0.0 || m + After(a, j, T) >= 0.0
  {
    var m, e := After(a, j, tau), After(a, j, T);
    if a <= 0.0 && m > 0.0 {
      if e < m { DownAfterUp(a, j, tau, T); }
    } else if a > 0.0 && m < 0.0 {
      LinearBetween(a, j, T, tau, 0.0, Max(a, e));
    }
  }

  lemma DownAfterUp(a: real, j: real, tau: real, T: real)
    requires 0.0 <= tau <= T && a < After(a, j, tau)
    ensures After(a, j, T) >= After(a, j, tau)
  {
    if j < 0.0 { Product(tau, -j); } else { Product(T - tau, j); }
    assert tau * j == -(tau * -j);
    assert After(a, j, T) == After(a, j, tau) + (T - tau) * j;
  }

  lemma FallingJerk(a: real, j: real, T: real)
    requires a > 0.0 > After(a, j, T) && T >= 0.0
    ensures j < 0.0
  {
    if j >= 0.0 {
      Product(T, j);
    }
  }

  lemma PeakIsHighest(v: real, a: real, j: real, T: real, tau: real)
    requires a > 0.0 > After(a, j, T) && T >= 0.0
    ensures j < 0.0 && v + Rise(a, j, tau) <= VelocityAtZero(v, a, j)
  {
    FallingJerk(a, j, T);
    var q, m, k := a * a / (2.0 * j), After(a, j, tau), 2.0 * j;
    assert q * k == a * a;
    RiseEnergy(a, j, tau);
    SquareNonNegative(m);
    var x := Rise(a, j, tau) + q;
    assert k * x == m * m;
    if x > 0.0 {
      Product(x, -k);
    }
  }

  /** How far a velocity can overshoot at a sign change too slight to be tested. */
  function Slack(jf: real): real {
    if jf == 0.0 then 0.0 else EPSILON / (2.0 * Abs(jf))
  }

  lemma SlackNonNegative(jf: real)
    ensures Slack(jf) >= 0.0
  {
    if jf != 0.0 {
      Quotient(EPSILON, 2.0 * Abs(jf));
    }
  }

  /** At a slight sign change the peak is within the slack of one of the ends. */
  lemma SlightPeak(v: real, a: real, j: real, T: real, high: real)
    requires a > 0.0 > After(a, j, T) && j < 0.0 && Mul(After(a, j, T), a) >= -EPSILON
    requires v <= high && v + Rise(a, j, T) <= high
    ensures VelocityAtZero(v, a, j) <= high + Slack(j)
  {
    var e, k, q := After(a, j, T), 2.0 * -j, a * a / (2.0 * j);
    var s := Slack(j);
    assert q * (2.0 * j) == a * a;
    RiseEnergy(a, j, T);
    assert s * k == EPSILON;
    if a <= -e {
      SmallSquare(a, -e);
      assert a * -e == -(e * a);
      PeakFromEnd(-q, s, k, a * a);
    } else {
      SmallSquare(-e, a);
      assert (-e) * (-e) == e * e && (-e) * a == -(e * a);
      var x := Rise(a, j, T);
      assert (-q - x) * k == e * e;
      PeakFromEnd(-q - x, s, k, e * e);
    }
  }

  lemma SmallSquare(x: real, y: real)
    requires 0.0 <= x <= y
    ensures x * x <= x * y
  {
    TimesOrder(x, y, x);
  }

  lemma PeakFromEnd(x: real, s: real, k: real, square: real)
    requires k > 0.0 && s * k == EPSILON && x * k == square && square <= EPSILON
    ensures x <= s
  {
    if x > s {
      TimesLess(s, x, k);
    }
  }

  /** What the check knows about the two ends of a segment bounds the velocity all through it, from above. */
  lemma SegmentBelow(v: real, a: real, j: real, T: real, tau: real, high: real, limit: real)
    requires 0.0 <= tau <= T && v <= high && v + Rise(a, j, T) <= high && limit <= high
    requires Mul(After(a, j, T), a) < -EPSILON ==> j != 0.0 && VelocityAtZero(v, a, j) <= limit
    ensures v + Rise(a, j, tau) <= high + Slack(j)
  {
    hide After, Rise, Slack, Mul, VelocityAtZero;
    SlackNonNegative(j);
    var e := After(a, j, T);
    if a > 0.0 > e {
      PeakIsHighest(v, a, j, T, tau);
      if Mul(e, a) >= -EPSILON {
        SlightPeak(v, a, j, T, high);
      }
    } else {
      SegmentPeak(v, a, j, T, tau, high);
    }
  }

  lemma MirroredZero(v: real, a: real, j: real, e: real)
    ensures Mul(-e, -a) == Mul(e, a) && Slack(-j) == Slack(j)
    ensures j != 0.0 ==> VelocityAtZero(-v, -a, -j) == -VelocityAtZero(v, a, j)
  {
    if j != 0.0 {
      var q := a * a / (2.0 * j);
      assert (-a) * (-a) == a * a && 2.0 * -j == -(2.0 * j) && a * a / -(2.0 * j) == -q;
    }
  }

  lemma SegmentAbove(v: real, a: real, j: real, T: real, tau: real, low: real, limit: real)
    requires 0.0 <= tau <= T && v >= low && v + Rise(a, j, T) >= low && limit >= low
    requires Mul(After(a, j, T), a) < -EPSILON ==> j != 0.0 && VelocityAtZero(v, a, j) >= limit
    ensures v + Rise(a, j, tau) >= low - Slack(j)
  {
    hide After, Rise, Slack, Mul, VelocityAtZero;
    MirroredRise(a, j, T);
    MirroredRise(a, j, tau);
    MirroredZero(v, a, j, After(a, j, T));
    SegmentBelow(-v, -a, -j, T, tau, -low, -limit);
  }

  // ---------------------------------------------------------------- an accepted profile

  predicate PlanSized(plan: Plan) {
    |plan.t| == 7 && |plan.tSum| == 7 && |plan.j| == 7 && |plan.a| == 8 && |plan.v| == 8 && |plan.p| == 8
  }

  /** What an accepting check leaves, for the instances that write no acceleration. */
  ghost predicate Accepted(plan: Plan, jf: real, how: Instance, velocity: Band, acceleration: Band) {
    && PlanSized(plan) && !how.setLimits && (how.limits == NONE || how.limits == ACC0 || how.limits == ACC1)
    && plan.j == ThirdOrderPattern(plan.signs, plan.t, jf)
    && Timed(plan.t, plan.tSum) && Integrated3(plan.t, plan.j, plan.a, plan.v, plan.p, how, 7)
    && ThirdOrderAccepts(plan.t, plan.j, Knot(plan.p[0], plan.v[0], plan.a[0]), plan.pf, plan.vf, plan.af,
                         how, velocity, acceleration)
  }

  /** An instance that writes accelerations has accepted just as well, if it wrote what was there anyway. */
  lemma WrittenAnyway(plan: Plan, jf: real, how: Instance, vMax: real, vMin: real, aMax: real, aMin: real)
    requires PlanSized(plan) && plan.j == ThirdOrderPattern(plan.signs, plan.t, jf) && Timed(plan.t, plan.tSum)
    requires Integrated3(plan.t, plan.j, plan.a, plan.v, plan.p, how, 7)
    requires ThirdOrderAccepts(plan.t, plan.j, KnotOf(plan, 0), plan.pf, plan.vf, plan.af, how,
                               VelocityBand(vMax, vMin), AccelerationBand(vMax, aMax, aMin))
    requires Typical(how, KnotAt(KnotOf(plan, 0), plan.t, plan.j, NATURAL, 1).a,
                     KnotAt(KnotOf(plan, 0), plan.t, plan.j, NATURAL, 3).a,
                     KnotAt(KnotOf(plan, 0), plan.t, plan.j, NATURAL, 5).a)
    ensures Accepted(plan, jf, NATURAL, VelocityBand(vMax, vMin), AccelerationBand(vMax, aMax, aMin))
  {
    assert NATURAL.limits == NONE && !NATURAL.setLimits;
    hide KnotAt, ThirdOrderAccepts, ThirdOrderPattern, Timed, Typical, VelocityBand, AccelerationBand, NonNegative,
         CrossingsOk, AtTarget, KnotsKeepLimits;
    var s := KnotOf(plan, 0);
    NothingWrittenExactly(s, plan.t, plan.j, how);
    NaturalCheck(plan.t, plan.j, s, plan.pf, plan.vf, plan.af, how, vMax, vMin, aMax, aMin);
    AlwaysTypical(s, plan.t, plan.j);
    NaturalCheck(plan.t, plan.j, s, plan.pf, plan.vf, plan.af, NATURAL, vMax, vMin, aMax, aMin);
  }

  lemma AlwaysTypical(s: Knot, t: seq<real>, j: seq<real>)
    requires |t| == 7 && |j| == 7
    ensures Typical(NATURAL, KnotAt(s, t, j, NATURAL, 1).a, KnotAt(s, t, j, NATURAL, 3).a,
                    KnotAt(s, t, j, NATURAL, 5).a)
  {
    hide KnotAt;
  }

  /** Segment `i` leads from knot `i` to knot `i + 1`. */
  lemma SegmentStep(plan: Plan, jf: real, how: Instance, velocity: Band, acceleration: Band, i: nat)
    requires Accepted(plan, jf, how, velocity, acceleration) && i < 7
    ensures plan.t[i] >= 0.0 && Integrate(Knot(plan.p[i], plan.v[i], plan.a[i]), plan.j[i], plan.t[i])
         == Knot(plan.p[i + 1], plan.v[i + 1], plan.a[i + 1])
    ensures plan.j[i] == 0.0 || plan.j[i] == jf || plan.j[i] == -jf
    ensures i == 1 || i == 3 || i == 5 ==> plan.j[i] == 0.0
    ensures i >= 2 ==> ZeroCrossingOk(Knot(plan.p[i], plan.v[i], plan.a[i]),
      Knot(plan.p[i + 1], plan.v[i + 1], plan.a[i + 1]), plan.j[i], velocity.low, velocity.high)
  {
    hide Integrate, ZeroCrossingOk, AtTarget, Within3, Within4, LongEnough, TimeAt, Timed;
    var s := Knot(plan.p[0], plan.v[0], plan.a[0]);
    assert KnotAt(s, plan.t, plan.j, how, i) == Knot(plan.p[i], plan.v[i], plan.a[i]);
    assert KnotAt(s, plan.t, plan.j, how, i + 1) == Knot(plan.p[i + 1], plan.v[i + 1], plan.a[i + 1]);
  }

  /** The accelerations at all the knots. */
  lemma KnotAccelerations(plan: Plan, jf: real, how: Instance, velocity: Band, acceleration: Band)
    requires Accepted(plan, jf, how, velocity, acceleration)
    requires acceleration.low <= plan.a[0] <= acceleration.high
    ensures forall i :: 0 <= i <= 6 ==> acceleration.low <= plan.a[i] <= acceleration.high
    ensures Abs(plan.a[7] - plan.af) < A_PRECISION && Abs(plan.v[7] - plan.vf) < V_PRECISION
    ensures forall i :: 3 <= i <= 6 ==> velocity.low <= plan.v[i] <= velocity.high
  {
    SegmentStep(plan, jf, how, velocity, acceleration, 1);
    SegmentStep(plan, jf, how, velocity, acceleration, 3);
    SegmentStep(plan, jf, how, velocity, acceleration, 5);
    NoPush(plan.a[1], plan.t[1]);
    NoPush(plan.a[3], plan.t[3]);
    NoPush(plan.a[5], plan.t[5]);
    hide After, Rise, KnotAt, CrossingsOk, LongEnough, TimeAt, Timed, Abs, ThirdOrderPattern;
    KnotsOf3(plan.t, plan.j, plan.a, plan.v, plan.p, how);
  }

  lemma KnotsOf3(t: seq<real>, j: seq<real>, a: seq<real>, v: seq<real>, p: seq<real>, how: Instance)
    requires |t| == 7 && |j| == 7 && |a| == 8 && |v| == 8 && |p| == 8 && Integrated3(t, j, a, v, p, how, 7)
    ensures forall i :: 0 <= i <= 7 ==> KnotAt(Knot(p[0], v[0], a[0]), t, j, how, i) == Knot(p[i], v[i], a[i])
    ensures KnotAt(Knot(p[0], v[0], a[0]), t, j, how, 1) == Knot(p[1], v[1], a[1])
    ensures KnotAt(Knot(p[0], v[0], a[0]), t, j, how, 3) == Knot(p[3], v[3], a[3])
    ensures KnotAt(Knot(p[0], v[0], a[0]), t, j, how, 4) == Knot(p[4], v[4], a[4])
    ensures KnotAt(Knot(p[0], v[0], a[0]), t, j, how, 5) == Knot(p[5], v[5], a[5])
    ensures KnotAt(Knot(p[0], v[0], a[0]), t, j, how, 6) == Knot(p[6], v[6], a[6])
    ensures KnotAt(Knot(p[0], v[0], a[0]), t, j, how, 7) == Knot(p[7], v[7], a[7])
  {
    hide KnotAt;
  }

  // ---------------------------------------------------------------- sampling

  function KnotOf(plan: Plan, i: nat): Knot
    requires PlanSized(plan) && i <= 7
  {
    Knot(plan.p[i], plan.v[i], plan.a[i])
  }

  /** Segment `i` is the one that `time` falls into: the first that ends later. */
  predicate InSegment(tSum: seq<real>, time: real, i: nat)
    requires |tSum| == 7
  {
    i < 7 && time < tSum[i] && (i > 0 ==> tSum[i - 1] <= time)
  }

  function Begin(tSum: seq<real>, i: nat): real
    requires |tSum| == 7 && i <= 7
  {
    if i == 0 then 0.0 else tSum[i - 1]
  }

  predicate SampleIn(plan: Plan, time: real, k: Knot, i: nat)
    requires PlanSized(plan)
  {
    InSegment(plan.tSum, time, i) && k == Integrate(KnotOf(plan, i), plan.j[i], time - Begin(plan.tSum, i))
  }

  /** The state of the profile `time` after its start. */
  ghost predicate IsSample(plan: Plan, time: real, k: Knot)
    requires PlanSized(plan)
  {
    if time >= plan.tSum[6] then k == Integrate(KnotOf(plan, 7), 0.0, time - plan.tSum[6])
    else exists i: nat :: SampleIn(plan, time, k, i)
  }

  /** The jerk of the profile `time` after its start. */
  ghost predicate IsJerk(plan: Plan, time: real, jerk: real)
    requires PlanSized(plan)
  {
    if time >= plan.tSum[6] then jerk == 0.0
    else exists i: nat :: InSegment(plan.tSum, time, i) && jerk == plan.j[i]
  }

  /** `std::upper_bound`: the first entry that is greater. */
  method UpperBound(tSum: seq<real>, time: real) returns (index: nat)
    requires |tSum| == 7 && time < tSum[6]
    ensures InSegment(tSum, time, index)
  {
    index := 0;
    while index < 7 && tSum[index] <= time
      invariant index < 7 && (index > 0 ==> tSum[index - 1] <= time)
    {
      index := index + 1;
    }
  }

  /** The state of one axis at a time measured from the end of its brake. */
  method AtTime(plan: Plan, time: real) returns (k: Knot, jerk: real)
    requires PlanSized(plan)
    ensures IsSample(plan, time, k) && IsJerk(plan, time, jerk)
  {
    hide Integrate;
    var tDiff := time;
    if tDiff >= plan.tSum[6] {
      k, jerk := Integrate(KnotOf(plan, 7), 0.0, tDiff - plan.tSum[6]), 0.0;
      return;
    }
    var index := UpperBound(plan.tSum, tDiff);
    if index > 0 {
      tDiff := tDiff - plan.tSum[index - 1];
    }
    k, jerk := Integrate(KnotOf(plan, index), plan.j[index], tDiff), plan.j[index];
    assert SampleIn(plan, time, k, index);
  }

  // ---------------------------------------------------------------- limits at all times

  predicate Inside(x: real, band: Band, margin: real) {
    band.low - margin <= x <= band.high + margin
  }

  /** Start and target are inside the limits that the check compares with, its tolerance not counted. */
  predicate EndsInside(plan: Plan, velocity: Band, acceleration: Band)
    requires PlanSized(plan)
  {
    && Inside(plan.a[0], acceleration, -A_EPS) && Inside(plan.af, acceleration, -A_EPS)
    && Inside(plan.vf, velocity, -V_EPS)
  }

  lemma SegmentTimes(plan: Plan, jf: real, how: Instance, velocity: Band, acceleration: Band, time: real, i: nat)
    requires Accepted(plan, jf, how, velocity, acceleration) && time >= 0.0 && InSegment(plan.tSum, time, i)
    ensures 0.0 <= time - Begin(plan.tSum, i) <= plan.t[i]
    ensures time >= plan.tSum[2] ==> i >= 3
    ensures time < plan.tSum[5] ==> i <= 5
  {
    hide Integrated3, ThirdOrderAccepts, ThirdOrderPattern, TimeAt;
    assert plan.tSum[i] == TimeAt(plan.t, i + 1);
    TimeStep(plan.t, i);
    if i > 0 {
      assert plan.tSum[i - 1] == TimeAt(plan.t, i - 1 + 1);
    } else {
      TimeStart(plan.t);
    }
    assert NonNegative(plan.t) by {
      TimesAreNonNegative(plan, jf, how, velocity, acceleration);
    }
    forall k, m | 0 <= k <= m < 7 ensures plan.tSum[k] <= plan.tSum[m] {
      TimesGrow(plan.t, k + 1, m + 1);
    }
  }

  lemma TimesAreNonNegative(plan: Plan, jf: real, how: Instance, velocity: Band, acceleration: Band)
    requires Accepted(plan, jf, how, velocity, acceleration)
    ensures NonNegative(plan.t)
  {
    hide Integrated3, ThirdOrderPattern, TimeAt, CrossingsOk, KnotAt, AtTarget, Within3, Within4, LongEnough;
  }

  lemma TimeStart(t: seq<real>)
    ensures TimeAt(t, 0) == 0.0
  {}

  lemma TimeStep(t: seq<real>, i: nat)
    requires i < |t|
    ensures TimeAt(t, i + 1) == TimeAt(t, i) + t[i]
  {}

  lemma {:induction false} TimesGrow(t: seq<real>, k: nat, m: nat)
    requires NonNegative(t) && k <= m <= |t|
    ensures TimeAt(t, k) <= TimeAt(t, m)
  {
    if k < m {
      TimesGrow(t, k, m - 1);
      TimeStep(t, m - 1);
    }
  }

  /** In segment `i`, at any time of it: the acceleration is between those at its ends, the velocity nearly so. */
  lemma SegmentLimits(plan: Plan, jf: real, how: Instance, velocity: Band, acceleration: Band,
                      i: nat, tau: real, k: Knot, ends: Band, widest: Band)
    requires Accepted(plan, jf, how, velocity, acceleration) && i < 7 && 0.0 <= tau <= plan.t[i]
    requires k == Integrate(KnotOf(plan, i), plan.j[i], tau)
    requires Inside(plan.a[i], ends, 0.0) && Inside(plan.a[i + 1], ends, 0.0)
    requires i >= 3 ==> Inside(plan.v[i], widest, 0.0) && Inside(plan.v[i + 1], widest, 0.0)
    requires widest.low <= velocity.low && velocity.high <= widest.high
    ensures Inside(k.a, ends, 0.0) && (i >= 3 ==> Inside(k.v, widest, Slack(jf)))
  {
    SegmentStep(plan, jf, how, velocity, acceleration, i);
    hide Accepted, After, Rise, Slack, Mul, VelocityAtZero;
    var v, a, j, T := plan.v[i], plan.a[i], plan.j[i], plan.t[i];
    LinearBetween(a, j, T, tau, ends.low, ends.high);
    if i >= 3 {
      SegmentBelow(v, a, j, T, tau, widest.high, velocity.high);
      SegmentAbove(v, a, j, T, tau, widest.low, velocity.low);
      SlackOfJerk(jf, j);
    }
  }

  lemma SlackOfJerk(jf: real, j: real)
    requires j == 0.0 || j == jf || j == -jf
    ensures Slack(j) <= Slack(jf)
  {
    SlackNonNegative(jf);
  }

  /**
   * At every time from the start on the acceleration is inside its limits, up to the tolerance for the final
   * one; up to the last segment, up to that of the check. From the end of the third segment to the end, the
   * velocity is inside its limits, up to the tolerance for the final one and the slack.
   */
  lemma LimitsHoldAtAllTimes(plan: Plan, jf: real, how: Instance, velocity: Band, acceleration: Band, time: real,
                             k: Knot)
    requires Accepted(plan, jf, how, velocity, acceleration) && EndsInside(plan, velocity, acceleration)
    requires time >= 0.0 && IsSample(plan, time, k)
    ensures Inside(k.a, acceleration, A_PRECISION - A_EPS)
    ensures time < plan.tSum[5] ==> Inside(k.a, acceleration, 0.0)
    ensures plan.tSum[2] <= time <= plan.tSum[6] ==> Inside(k.v, velocity, V_PRECISION - V_EPS + Slack(jf))
    ensures plan.tSum[2] <= time < plan.tSum[5] ==> Inside(k.v, velocity, Slack(jf))
  {
    SlackNonNegative(jf);
    if time >= plan.tSum[6] {
      KnotAccelerations(plan, jf, how, velocity, acceleration);
      NoPush(plan.a[7], time - plan.tSum[6]);
      NoTime(plan.a[7], 0.0);
      hide After, Rise, Slack, Integrated3, ThirdOrderAccepts, Timed, ThirdOrderPattern;
      LastSegments(plan, jf, how, velocity, acceleration);
    } else {
      var i: nat :| SampleIn(plan, time, k, i);
      LimitsHoldInSegment(plan, jf, how, velocity, acceleration, time, k, i);
    }
  }

  lemma LastSegments(plan: Plan, jf: real, how: Instance, velocity: Band, acceleration: Band)
    requires Accepted(plan, jf, how, velocity, acceleration)
    ensures plan.tSum[5] <= plan.tSum[6]
  {
    TimesAreNonNegative(plan, jf, how, velocity, acceleration);
    hide Integrated3, ThirdOrderAccepts, TimeAt, NonNegative;
    assert plan.tSum[5] == TimeAt(plan.t, 5 + 1) && plan.tSum[6] == TimeAt(plan.t, 6 + 1);
    TimesGrow(plan.t, 6, 7);
  }

  lemma LimitsHoldInSegment(plan: Plan, jf: real, how: Instance, velocity: Band, acceleration: Band,
                            time: real, k: Knot, i: nat)
    requires Accepted(plan, jf, how, velocity, acceleration) && EndsInside(plan, velocity, acceleration)
    requires time >= 0.0 && time < plan.tSum[6] && SampleIn(plan, time, k, i)
    ensures Inside(k.a, acceleration, A_PRECISION - A_EPS)
    ensures time < plan.tSum[5] ==> Inside(k.a, acceleration, 0.0)
    ensures plan.tSum[2] <= time ==> Inside(k.v, velocity, V_PRECISION - V_EPS + Slack(jf))
    ensures plan.tSum[2] <= time < plan.tSum[5] ==> Inside(k.v, velocity, Slack(jf))
  {
    SegmentTimes(plan, jf, how, velocity, acceleration, time, i);
    KnotAccelerations(plan, jf, how, velocity, acceleration);
    SlackNonNegative(jf);
    hide Accepted, Slack, Integrate;
    var tau := time - Begin(plan.tSum, i);
    if i <= 5 {
      SegmentLimits(plan, jf, how, velocity, acceleration, i, tau, k, acceleration, velocity);
    } else {
      var ends := Band(acceleration.low - (A_PRECISION - A_EPS), acceleration.high + (A_PRECISION - A_EPS));
      var widest := Band(velocity.low - (V_PRECISION - V_EPS), velocity.high + (V_PRECISION - V_EPS));
      SegmentLimits(plan, jf, how, velocity, acceleration, i, tau, k, ends, widest);
    }
  }
}
