/** When the profile made for an axis that is synchronised by phase is accepted, in terms of the limiting axis. */
module PhaseAcceptance {
  import opened Kinematics
  import opened Motion
  import opened PhaseSynchronization
  import opened Profiles
  import opened RealArithmetic
  import opened Trajectory

  predicate InBand(x: real, band: Band) {
    band.low <= x <= band.high
  }

  /** A sign change in proportion is not tested, or the velocity there fits. */
  predicate CrossingFits(k: Knot, next: Knot, j: real, ratio: real, velocity: Band) {
    Mul(Sq(ratio), Mul(next.a, k.a)) < -EPSILON ==>
      j != 0.0 && InBand(Mul(ratio, VelocityAtZero(k.v, k.a, j)), velocity)
  }

  predicate CrossingsFit(plan: Plan, ratio: real, velocity: Band)
    requires PlanSized(plan)
  {
    forall i :: 2 <= i < 7 ==> CrossingFits(KnotOf(plan, i), KnotOf(plan, i + 1), plan.j[i], ratio, velocity)
  }

  /** Even `ratio` times, the plan misses its target by less than the check lets pass. */
  predicate MissesLittle(plan: Plan, ratio: real)
    requires PlanSized(plan)
  {
    && Abs(Mul(ratio, plan.p[7] - plan.pf)) < P_PRECISION && Abs(Mul(ratio, plan.v[7] - plan.vf)) < V_PRECISION
    && Abs(Mul(ratio, plan.a[7] - plan.af)) < A_PRECISION
  }

  /** `ratio` times the plan hits the target and keeps the limits. */
  predicate Fits(plan: Plan, ratio: real, velocity: Band, acceleration: Band)
    requires PlanSized(plan)
  {
    && MissesLittle(plan, ratio) && CrossingsFit(plan, ratio, velocity)
    && InBand(Mul(ratio, plan.a[1]), acceleration) && InBand(Mul(ratio, plan.a[3]), acceleration)
    && InBand(Mul(ratio, plan.a[5]), acceleration)
    && InBand(Mul(ratio, plan.v[3]), velocity) && InBand(Mul(ratio, plan.v[4]), velocity)
    && InBand(Mul(ratio, plan.v[5]), velocity) && InBand(Mul(ratio, plan.v[6]), velocity)
  }

  /** Start and target of an axis in proportion to those of the plan. */
  predicate TaskInProportion(plan: Plan, ratio: real, s: Knot, pf: real, vf: real, af: real)
    requires PlanSized(plan)
  {
    && InProportion(KnotOf(plan, 0), plan.p[0], s, s.p, ratio)
    && pf - s.p == Mul(ratio, plan.pf - plan.p[0]) && vf == Mul(ratio, plan.vf) && af == Mul(ratio, plan.af)
  }

  lemma CrossingScaled(k: Knot, next: Knot, k': Knot, next': Knot, j: real, ratio: real, velocity: Band)
    requires k'.a == Mul(ratio, k.a) && next'.a == Mul(ratio, next.a) && k'.v == Mul(ratio, k.v)
    ensures ZeroCrossingOk(k', next', Mul(ratio, j), velocity.low, velocity.high) <==>
      CrossingFits(k, next, j, ratio, velocity)
  {
    SquareScaled(ratio, next.a, k.a);
    if Mul(next'.a, k'.a) < -EPSILON {
      NotZero(next'.a, k'.a);
      NotZero(ratio, k.a);
      if j == 0.0 {
        NoJerk(ratio);
      } else {
        ZeroScaled(k.v, k.a, j, ratio);
      }
    }
    hide Mul, Sq, VelocityAtZero;
  }

  lemma SquareScaled(ratio: real, x: real, y: real)
    ensures Mul(Mul(ratio, x), Mul(ratio, y)) == Mul(Sq(ratio), Mul(x, y))
  {}

  lemma ZeroScaled(v: real, a: real, j: real, ratio: real)
    requires j != 0.0 && ratio != 0.0
    ensures Mul(ratio, j) != 0.0
    ensures VelocityAtZero(Mul(ratio, v), Mul(ratio, a), Mul(ratio, j)) == Mul(ratio, VelocityAtZero(v, a, j))
  {
    if Mul(ratio, j) == 0.0 {
      Cancel(ratio, j, 0.0);
    }
    var q, k := a * a / (2.0 * j), 2.0 * Mul(ratio, j);
    var square := Mul(ratio, a) * Mul(ratio, a);
    var q' := square / k;
    QuotientTimes(a * a, 2.0 * j, q);
    QuotientTimes(square, k, q');
    assert k * (ratio * q) == (ratio * ratio) * (q * (2.0 * j));
    assert square == (ratio * ratio) * (a * a);
    Cancel(k, q', ratio * q);
    assert Mul(ratio, v - q) == Mul(ratio, v) - ratio * q;
  }

  /** The knots of the axis. */
  lemma AxisKnots(plan: Plan, jf: real, ratio: real, how: Instance, velocity: Band, acceleration: Band, s: Knot,
                  how': Instance, i: nat)
    requires Accepted(plan, jf, how, velocity, acceleration) && Plain(how') && i <= 7
    requires InProportion(KnotOf(plan, 0), plan.p[0], s, s.p, ratio)
    ensures InProportion(KnotOf(plan, i), plan.p[0],
      KnotAt(s, plan.t, ThirdOrderPattern(plan.signs, plan.t, Mul(ratio, jf)), how', i), s.p, ratio)
    ensures i < 7 ==>
      ThirdOrderPattern(plan.signs, plan.t, Mul(ratio, jf))[i] == Mul(ratio, plan.j[i])
  {
    hide Integrated3, ThirdOrderAccepts, Timed, InProportion, ThirdOrderPattern, Mul;
    JerksInProportion(plan.signs, plan.t, jf, ratio);
    AcceptedKnots(plan, jf, how, velocity, acceleration, i);
    KnotsInProportion(KnotOf(plan, 0), s, plan.t, plan.j, ThirdOrderPattern(plan.signs, plan.t, Mul(ratio, jf)), how,
                      how', ratio, i);
  }

  lemma AxisCrossings(plan: Plan, jf: real, ratio: real, how: Instance, velocity: Band, acceleration: Band, s: Knot,
                      how': Instance, velocity': Band)
    requires Accepted(plan, jf, how, velocity, acceleration) && Plain(how')
    requires InProportion(KnotOf(plan, 0), plan.p[0], s, s.p, ratio)
    ensures CrossingsOk(s, plan.t, ThirdOrderPattern(plan.signs, plan.t, Mul(ratio, jf)), how', velocity', 7) <==>
      CrossingsFit(plan, ratio, velocity')
  {
    assert PlanSized(plan);
    hide Accepted, KnotAt, ThirdOrderPattern, CrossingFits, ZeroCrossingOk, Mul;
    var j := ThirdOrderPattern(plan.signs, plan.t, Mul(ratio, jf));
    forall i | 2 <= i < 7
      ensures ZeroCrossingOk(KnotAt(s, plan.t, j, how', i), KnotAt(s, plan.t, j, how', i + 1), j[i], velocity'.low,
                             velocity'.high) <==>
              CrossingFits(KnotOf(plan, i), KnotOf(plan, i + 1), plan.j[i], ratio, velocity')
    {
      AxisKnots(plan, jf, ratio, how, velocity, acceleration, s, how', i);
      AxisKnots(plan, jf, ratio, how, velocity, acceleration, s, how', i + 1);
      CrossingScaled(KnotOf(plan, i), KnotOf(plan, i + 1), KnotAt(s, plan.t, j, how', i),
                     KnotAt(s, plan.t, j, how', i + 1), plan.j[i], ratio, velocity');
    }
  }

  lemma ScaledMiss(ratio: real, x: real, y: real)
    ensures Mul(ratio, x) - Mul(ratio, y) == Mul(ratio, x - y)
  {}

  lemma AxisMisses(plan: Plan, ratio: real, s: Knot, end: Knot, pf: real, vf: real, af: real)
    requires PlanSized(plan) && TaskInProportion(plan, ratio, s, pf, vf, af)
    requires InProportion(KnotOf(plan, 7), plan.p[0], end, s.p, ratio)
    ensures AtTarget(end, pf, vf, af) <==> MissesLittle(plan, ratio)
  {
    ScaledMiss(ratio, plan.p[7] - plan.p[0], plan.pf - plan.p[0]);
    ScaledMiss(ratio, plan.v[7], plan.vf);
    ScaledMiss(ratio, plan.a[7], plan.af);
    hide Mul, Abs;
    assert plan.p[7] - plan.p[0] - (plan.pf - plan.p[0]) == plan.p[7] - plan.pf;
  }

  /** The times of an accepted plan are usable for every axis. */
  lemma UsableTimes(plan: Plan, jf: real, how: Instance, velocity: Band, acceleration: Band)
    requires Accepted(plan, jf, how, velocity, acceleration)
    ensures NonNegative(plan.t) && TimeAt(plan.t, 7) <= T_MAX
  {
    hide Integrated3, Timed, CrossingsOk, AtTarget, Within3, Within4, KnotAt, LongEnough, TimeAt, NonNegative;
  }

  /** An axis in proportion to an accepted plan is accepted exactly if the plan leaves it that much room. */
  lemma AcceptedExactlyIfItFits(plan: Plan, jf: real, ratio: real, how: Instance, velocity: Band, acceleration: Band,
                                s: Knot, pf: real, vf: real, af: real, how': Instance, velocity': Band,
                                acceleration': Band)
    requires Accepted(plan, jf, how, velocity, acceleration) && TaskInProportion(plan, ratio, s, pf, vf, af)
    requires how'.limits == NONE && !how'.setLimits
    ensures Fits(plan, ratio, velocity', acceleration') <==>
      ThirdOrderAccepts(plan.t, ThirdOrderPattern(plan.signs, plan.t, Mul(ratio, jf)), s, pf, vf, af, how', velocity',
                        acceleration')
  {
    assert PlanSized(plan);
    hide Accepted, KnotAt, ThirdOrderPattern, CrossingsOk, CrossingsFit, NonNegative, TimeAt, AtTarget, MissesLittle,
         Mul;
    UsableTimes(plan, jf, how, velocity, acceleration);
    AxisCrossings(plan, jf, ratio, how, velocity, acceleration, s, how', velocity');
    AxisKnots(plan, jf, ratio, how, velocity, acceleration, s, how', 1);
    AxisKnots(plan, jf, ratio, how, velocity, acceleration, s, how', 3);
    AxisKnots(plan, jf, ratio, how, velocity, acceleration, s, how', 4);
    AxisKnots(plan, jf, ratio, how, velocity, acceleration, s, how', 5);
    AxisKnots(plan, jf, ratio, how, velocity, acceleration, s, how', 6);
    AxisKnots(plan, jf, ratio, how, velocity, acceleration, s, how', 7);
    AxisMisses(plan, ratio, s, KnotAt(s, plan.t, ThirdOrderPattern(plan.signs, plan.t, Mul(ratio, jf)), how', 7), pf,
               vf, af);
  }

  // ---------------------------------------------------------------- in terms of the limits

  /** The limits of the axis are at least the proportion of those of the plan; bands include the tolerance. */
  predicate Roomy(ratio: real, band: Band, band': Band, tolerance: real) {
    var high, low := band.high - tolerance, band.low + tolerance;
    if ratio >= 0.0 then
      Mul(ratio, high) <= band'.high - tolerance && band'.low + tolerance <= Mul(ratio, low)
    else Mul(ratio, low) <= band'.high - tolerance && band'.low + tolerance <= Mul(ratio, high)
  }

  /** The knots of the plan keep the limits with `part` of the tolerance. */
  predicate Keeps(plan: Plan, velocity: Band, acceleration: Band, part: real)
    requires PlanSized(plan)
  {
    && (forall i :: 2 <= i < 7 ==> KeepsCrossing(KnotOf(plan, i), KnotOf(plan, i + 1), plan.j[i], velocity, part))
    && Inside(plan.a[1], acceleration, (part - 1.0) * A_EPS) && Inside(plan.a[3], acceleration, (part - 1.0) * A_EPS)
    && Inside(plan.a[5], acceleration, (part - 1.0) * A_EPS)
    && Inside(plan.v[3], velocity, (part - 1.0) * V_EPS) && Inside(plan.v[4], velocity, (part - 1.0) * V_EPS)
    && Inside(plan.v[5], velocity, (part - 1.0) * V_EPS) && Inside(plan.v[6], velocity, (part - 1.0) * V_EPS)
  }

  predicate KeepsCrossing(k: Knot, next: Knot, j: real, velocity: Band, part: real) {
    Mul(next.a, k.a) < -Sq(part) * EPSILON ==>
      j != 0.0 && Inside(VelocityAtZero(k.v, k.a, j), velocity, (part - 1.0) * V_EPS)
  }

  /** Acceptance means: with the whole of the tolerance. */
  lemma AcceptedKeeps(plan: Plan, jf: real, how: Instance, velocity: Band, acceleration: Band)
    requires Accepted(plan, jf, how, velocity, acceleration)
    ensures Keeps(plan, velocity, acceleration, 1.0)
  {
    forall i | 2 <= i < 7
      ensures KeepsCrossing(KnotOf(plan, i), KnotOf(plan, i + 1), plan.j[i], velocity, 1.0)
    {
      SegmentStep(plan, jf, how, velocity, acceleration, i);
    }
    hide KnotAt, CrossingsOk, LongEnough, TimeAt, Timed, ThirdOrderPattern, AtTarget, KeepsCrossing, NonNegative;
    KnotsOf3(plan.t, plan.j, plan.a, plan.v, plan.p, how);
  }

  lemma ScaledBounds(r: real, x: real, low: real, high: real, little: real)
    requires r >= 0.0 && low - little <= x <= high + little
    ensures Mul(r, low) - Mul(r, little) <= Mul(r, x) <= Mul(r, high) + Mul(r, little)
  {
    TimesOrder(x, high + little, r);
    TimesOrder(low - little, x, r);
    assert r * (high + little) == r * high + r * little && r * (low - little) == r * low - r * little;
  }

  lemma NegativeRatio(ratio: real, x: real)
    ensures Mul(-ratio, x) == -Mul(ratio, x)
  {}

  lemma PartOf(r: real, part: real, tolerance: real)
    requires tolerance > 0.0 && r * part <= 1.0
    ensures Mul(r, part * tolerance) <= tolerance
  {
    TimesOrder(r * part, 1.0, tolerance);
    assert r * (part * tolerance) == (r * part) * tolerance;
  }

  lemma ScaledInside(x: real, band: Band, band': Band, ratio: real, part: real, tolerance: real)
    requires tolerance > 0.0 && part >= 0.0 && Abs(ratio) * part <= 1.0 && Roomy(ratio, band, band', tolerance)
    requires Inside(x, band, (part - 1.0) * tolerance)
    ensures InBand(Mul(ratio, x), band')
  {
    var high, low, little := band.high - tolerance, band.low + tolerance, part * tolerance;
    var r := Abs(ratio);
    assert (part - 1.0) * tolerance == little - tolerance;
    PartOf(r, part, tolerance);
    ScaledBounds(r, x, low, high, little);
    NegativeRatio(ratio, x);
    NegativeRatio(ratio, high);
    NegativeRatio(ratio, low);
    hide Mul;
  }

  lemma CrossingKept(k: Knot, next: Knot, j: real, ratio: real, part: real, velocity: Band, velocity': Band)
    requires part >= 0.0 && Abs(ratio) * part <= 1.0 && Roomy(ratio, velocity, velocity', V_EPS)
    requires KeepsCrossing(k, next, j, velocity, part)
    ensures CrossingFits(k, next, j, ratio, velocity')
  {
    hide InBand, Roomy, Inside, VelocityAtZero;
    var change := Mul(next.a, k.a);
    if Mul(Sq(ratio), change) < -EPSILON {
      if change >= -Sq(part) * EPSILON {
        SlightStays(change, ratio, part);
      }
      ScaledInside(VelocityAtZero(k.v, k.a, j), velocity, velocity', ratio, part, V_EPS);
    }
  }

  lemma SlightStays(change: real, ratio: real, part: real)
    requires part >= 0.0 && Abs(ratio) * part <= 1.0 && change >= -Sq(part) * EPSILON
    ensures Mul(Sq(ratio), change) >= -EPSILON
  {
    var r := Abs(ratio);
    var rp, small := r * part, Sq(part) * EPSILON;
    Product(r, part);
    SquareOrder(rp, 1.0);
    SquareNonNegative(r);
    TimesOrder(-small, change, r * r);
    assert r * r == ratio * ratio;
    assert r * r * -small == -(rp * rp * EPSILON);
  }

  /** Room in proportion is enough if the tolerances that the plan needs are not stretched beyond those of the check. */
  lemma RoomIsEnough(plan: Plan, ratio: real, part: real, velocity: Band, acceleration: Band, velocity': Band,
                     acceleration': Band)
    requires PlanSized(plan) && part >= 0.0 && Abs(ratio) * part <= 1.0 && Keeps(plan, velocity, acceleration, part)
    requires Roomy(ratio, velocity, velocity', V_EPS) && Roomy(ratio, acceleration, acceleration', A_EPS)
    requires MissesLittle(plan, ratio)
    ensures Fits(plan, ratio, velocity', acceleration')
  {
    hide Roomy, InBand, Inside, KeepsCrossing, CrossingFits, MissesLittle;
    forall i | 2 <= i < 7
      ensures CrossingFits(KnotOf(plan, i), KnotOf(plan, i + 1), plan.j[i], ratio, velocity')
    {
      CrossingKept(KnotOf(plan, i), KnotOf(plan, i + 1), plan.j[i], ratio, part, velocity, velocity');
    }
    ScaledInside(plan.a[1], acceleration, acceleration', ratio, part, A_EPS);
    ScaledInside(plan.a[3], acceleration, acceleration', ratio, part, A_EPS);
    ScaledInside(plan.a[5], acceleration, acceleration', ratio, part, A_EPS);
    ScaledInside(plan.v[3], velocity, velocity', ratio, part, V_EPS);
    ScaledInside(plan.v[4], velocity, velocity', ratio, part, V_EPS);
    ScaledInside(plan.v[5], velocity, velocity', ratio, part, V_EPS);
    ScaledInside(plan.v[6], velocity, velocity', ratio, part, V_EPS);
  }

  // ---------------------------------------------------------------- from the input to the answer

  /** Plan and axis are those of two axes of a collinear input that are controlled by position. */
  predicate FromInput(x: Task, s: Scale, limiting: nat, d: nat, plan: Plan, start: Knot, pf: real, vf: real, af: real)
  {
    && ScaleOk(x, s) && Collinear(x, s) && limiting < |x.pd| && d < |x.pd| && x.phase[limiting] && x.phase[d]
    && Entry(x, s.c, limiting) != 0.0 && x.position[limiting] && x.position[d] && PlanSized(plan)
    && plan.v[0] == x.v0[limiting] && plan.a[0] == x.a0[limiting] && plan.pf - plan.p[0] == x.pd[limiting]
    && plan.vf == x.vf[limiting] && plan.af == x.af[limiting]
    && start.v == x.v0[d] && start.a == x.a0[d] && pf - start.p == x.pd[d] && vf == x.vf[d] && af == x.af[d]
  }

  /** The axis has a task in proportion to that of the limiting one. */
  lemma CollinearTask(x: Task, s: Scale, limiting: nat, d: nat, plan: Plan, start: Knot, pf: real, vf: real, af: real)
    requires FromInput(x, s, limiting, d, plan, start, pf, vf, af)
    ensures TaskInProportion(plan, Ratio(x, s, limiting, d), start, pf, vf, af)
  {
    InputInProportion(x, s, limiting, d, Velocity);
    InputInProportion(x, s, limiting, d, Acceleration);
    InputInProportion(x, s, limiting, d, Distance);
    InputInProportion(x, s, limiting, d, TargetVelocity);
    InputInProportion(x, s, limiting, d, TargetAcceleration);
    hide Collinear, Ratio, Mul;
    NoJerk(Ratio(x, s, limiting, d));
  }

  /**
   * For a collinear input, the profile made for an axis under the control computed for it is accepted exactly if the
   * limiting plan leaves it room.
   */
  lemma PhaseAcceptedExactly(x: Task, s: Scale, limiting: nat, d: nat, plan: Plan, jf: real, how: Instance,
                             velocity: Band, acceleration: Band, start: Knot, pf: real, vf: real, af: real,
                             how': Instance, velocity': Band, acceleration': Band)
    requires FromInput(x, s, limiting, d, plan, start, pf, vf, af)
    requires Accepted(plan, jf, how, velocity, acceleration) && how'.limits == NONE && !how'.setLimits
    ensures var ratio := Ratio(x, s, limiting, d);
      Fits(plan, ratio, velocity', acceleration') <==>
      ThirdOrderAccepts(plan.t, ThirdOrderPattern(plan.signs, plan.t, Mul(jf, ratio)), start, pf, vf, af, how',
                        velocity', acceleration')
  {
    CollinearTask(x, s, limiting, d, plan, start, pf, vf, af);
    var ratio := Ratio(x, s, limiting, d);
    hide Accepted, FromInput, Ratio, Fits, ThirdOrderAccepts, ThirdOrderPattern, TaskInProportion;
    MulCommutes(jf, ratio);
    hide Mul;
    AcceptedExactlyIfItFits(plan, jf, ratio, how, velocity, acceleration, start, pf, vf, af, how', velocity',
                            acceleration');
  }

  /**
   * It is accepted if the limits of the axis are at least the proportion of those of the limiting axis and the plan,
   * on target in proportion, stretches no tolerance: none it needs at all, or any for an axis that moves less.
   */
  lemma PhaseSucceeds(x: Task, s: Scale, limiting: nat, d: nat, plan: Plan, jf: real, how: Instance,
                      velocity: Band, acceleration: Band, start: Knot, pf: real, vf: real, af: real,
                      how': Instance, velocity': Band, acceleration': Band, part: real)
    requires FromInput(x, s, limiting, d, plan, start, pf, vf, af)
    requires Accepted(plan, jf, how, velocity, acceleration) && how'.limits == NONE && !how'.setLimits
    requires Roomy(Ratio(x, s, limiting, d), velocity, velocity', V_EPS)
    requires Roomy(Ratio(x, s, limiting, d), acceleration, acceleration', A_EPS)
    requires MissesLittle(plan, Ratio(x, s, limiting, d)) && part >= 0.0 && Abs(Ratio(x, s, limiting, d)) * part <= 1.0
    requires part == 1.0 || Keeps(plan, velocity, acceleration, part)
    ensures ThirdOrderAccepts(plan.t, ThirdOrderPattern(plan.signs, plan.t, Mul(jf, Ratio(x, s, limiting, d))), start,
                              pf, vf, af, how', velocity', acceleration')
  {
    hide Roomy, MissesLittle, Keeps, Fits, ThirdOrderAccepts, ThirdOrderPattern, Mul;
    AcceptedKeeps(plan, jf, how, velocity, acceleration);
    PhaseAcceptedExactly(x, s, limiting, d, plan, jf, how, velocity, acceleration, start, pf, vf, af, how', velocity',
                         acceleration');
    RoomIsEnough(plan, Ratio(x, s, limiting, d), part, velocity, acceleration, velocity', acceleration');
  }
}
