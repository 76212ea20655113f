/**
 * What the sign patterns of profile.hpp make of the seven times: where a profile ends, and which profiles a check
 * accepts, in terms of the times and the control alone.
 */
module Patterns {
  import opened Kinematics
  import opened Profiles
  import opened RealArithmetic

  /** Between the limits that belong to a direction, up to the tolerance: `first` is the one moved towards. */
  predicate WithinLimits(up: bool, x: real, first: real, second: real, tolerance: real) {
    if up then second - tolerance <= x <= first + tolerance else first - tolerance <= x <= second + tolerance
  }

  function Total7(t: seq<real>): real
    requires |t| == 7
  {
    t[0] + t[1] + t[2] + t[3] + t[4] + t[5] + t[6]
  }

  lemma TotalIsSum(t: seq<real>)
    requires |t| == 7
    ensures TimeAt(t, 7) == Total7(t)
  {
    assert TimeAt(t, 1) == t[0] && TimeAt(t, 2) == t[0] + t[1] && TimeAt(t, 3) == t[0] + t[1] + t[2];
    assert TimeAt(t, 4) == t[0] + t[1] + t[2] + t[3] && TimeAt(t, 5) == t[0] + t[1] + t[2] + t[3] + t[4];
  }

  // ---------------------------------------------------------------- two integrations

  /** What `up` and `down`, applied first and third, leave for the fifth time and for the last. */
  function Fifth(signs: ControlSigns, up: real, down: real): real {
    match signs case UDDU => down case UDUD => up
  }

  function Seventh(signs: ControlSigns, up: real, down: real): real {
    match signs case UDDU => up case UDUD => down
  }

  /** The velocity reached after the first, the third, the fifth and the last control. */
  function Gained(signs: ControlSigns, t: seq<real>, up: real, down: real, controls: nat): real
    requires |t| == 7
  {
    (if controls >= 1 then Mul(t[0], up) else 0.0) + (if controls >= 2 then Mul(t[2], down) else 0.0) +
    (if controls >= 3 then Mul(t[4], Fifth(signs, up, down)) else 0.0) +
    (if controls >= 4 then Mul(t[6], Seventh(signs, up, down)) else 0.0)
  }

  /** The ground that control `u` over time `t` gains by the time `rest` after its end. */
  function Share(u: real, t: real, rest: real): real {
    Mul(u, Mul(t, t / 2.0 + rest))
  }

  /** Where the profile ends: each control contributes by its time and by what comes after it. */
  function Covered(signs: ControlSigns, t: seq<real>, v0: real, up: real, down: real): real
    requires |t| == 7
  {
    Mul(Total7(t), v0) + Share(up, t[0], t[1] + t[2] + t[3] + t[4] + t[5] + t[6])
    + Share(down, t[2], t[3] + t[4] + t[5] + t[6]) + Share(Fifth(signs, up, down), t[4], t[5] + t[6])
    + Share(Seventh(signs, up, down), t[6], 0.0)
  }

  /** The same number of seconds at the control of a segment, or none if it takes no time. */
  lemma OnlyIfItTakesTime(u: real, t: real)
    requires t >= 0.0
    ensures Mul(t, if t > 0.0 then u else 0.0) == Mul(t, u)
  {}

  lemma StepVelocity(v0: real, t: seq<real>, a: seq<real>, i: nat)
    requires i < |t| && i < |a|
    ensures VelocityAt(v0, t, a, i + 1) == VelocityAt(v0, t, a, i) + Mul(t[i], a[i])
  {}

  lemma Velocities(signs: ControlSigns, t: seq<real>, v0: real, up: real, down: real)
    requires |t| == 7 && NonNegative(t)
    ensures var a := SecondOrderPattern(signs, t, up, down);
      && VelocityAt(v0, t, a, 0) == v0
      && VelocityAt(v0, t, a, 1) == VelocityAt(v0, t, a, 2) == v0 + Gained(signs, t, up, down, 1)
      && VelocityAt(v0, t, a, 3) == VelocityAt(v0, t, a, 4) == v0 + Gained(signs, t, up, down, 2)
      && VelocityAt(v0, t, a, 5) == VelocityAt(v0, t, a, 6) == v0 + Gained(signs, t, up, down, 3)
      && VelocityAt(v0, t, a, 7) == v0 + Gained(signs, t, up, down, 4)
  {
    var a := SecondOrderPattern(signs, t, up, down);
    forall i | 0 <= i < 7 ensures VelocityAt(v0, t, a, i + 1) == VelocityAt(v0, t, a, i) + Mul(t[i], a[i]) {
      StepVelocity(v0, t, a, i);
    }
    OnlyIfItTakesTime(up, t[0]);
    OnlyIfItTakesTime(down, t[2]);
    OnlyIfItTakesTime(Fifth(signs, up, down), t[4]);
    OnlyIfItTakesTime(Seventh(signs, up, down), t[6]);
    assert VelocityAt(v0, t, a, 0) == v0;
    assert Mul(t[1], 0.0) == 0.0 && Mul(t[3], 0.0) == 0.0 && Mul(t[5], 0.0) == 0.0;
    hide VelocityAt, Mul, NonNegative;
    assert VelocityAt(v0, t, a, 0 + 1) == VelocityAt(v0, t, a, 0) + Mul(t[0], a[0]);
    assert VelocityAt(v0, t, a, 1 + 1) == VelocityAt(v0, t, a, 1) + Mul(t[1], a[1]);
    assert VelocityAt(v0, t, a, 2 + 1) == VelocityAt(v0, t, a, 2) + Mul(t[2], a[2]);
    assert VelocityAt(v0, t, a, 3 + 1) == VelocityAt(v0, t, a, 3) + Mul(t[3], a[3]);
    assert VelocityAt(v0, t, a, 4 + 1) == VelocityAt(v0, t, a, 4) + Mul(t[4], a[4]);
    assert VelocityAt(v0, t, a, 5 + 1) == VelocityAt(v0, t, a, 5) + Mul(t[5], a[5]);
    assert VelocityAt(v0, t, a, 6 + 1) == VelocityAt(v0, t, a, 6) + Mul(t[6], a[6]);
  }

  /** Going on at the present velocity: what a control adds to that is its share. */
  lemma Coasting(p: real, v: real, u: real, t: real, rest: real)
    ensures p + Rise(v, u, t) + Mul(rest, After(v, u, t)) == p + Mul(t + rest, v) + Share(u, t, rest)
  {}

  lemma StepPosition(p0: real, v0: real, t: seq<real>, a: seq<real>, i: nat, rest: real)
    requires i < |t| && i < |a|
    ensures PositionAt(p0, v0, t, a, i + 1) + Mul(rest, VelocityAt(v0, t, a, i + 1)) ==
      PositionAt(p0, v0, t, a, i) + Mul(t[i] + rest, VelocityAt(v0, t, a, i)) + Share(a[i], t[i], rest)
  {
    Coasting(PositionAt(p0, v0, t, a, i), VelocityAt(v0, t, a, i), a[i], t[i], rest);
    hide After, Rise, Share, Mul;
  }

  lemma ShareIfItTakesTime(u: real, t: real, rest: real)
    requires t >= 0.0
    ensures Share(if t > 0.0 then u else 0.0, t, rest) == Share(u, t, rest) && Share(0.0, t, rest) == 0.0
  {}

  lemma StartPosition(p0: real, v0: real, t: seq<real>, a: seq<real>)
    ensures PositionAt(p0, v0, t, a, 0) == p0 && VelocityAt(v0, t, a, 0) == v0
  {}

  lemma NoCoasting(v: real)
    ensures Mul(0.0, v) == 0.0
  {}

  lemma Position(signs: ControlSigns, t: seq<real>, p0: real, v0: real, up: real, down: real)
    requires |t| == 7 && NonNegative(t)
    ensures PositionAt(p0, v0, t, SecondOrderPattern(signs, t, up, down), 7) == p0 + Covered(signs, t, v0, up, down)
  {
    hide PositionAt, VelocityAt, Share, Mul;
    var a := SecondOrderPattern(signs, t, up, down);
    var r5 := t[6];
    var r4 := t[5] + r5;
    var r3 := t[4] + r4;
    var r2 := t[3] + r3;
    var r1 := t[2] + r2;
    var r0 := t[1] + r1;
    StepPosition(p0, v0, t, a, 0, r0);
    StepPosition(p0, v0, t, a, 1, r1);
    StepPosition(p0, v0, t, a, 2, r2);
    StepPosition(p0, v0, t, a, 3, r3);
    StepPosition(p0, v0, t, a, 4, r4);
    StepPosition(p0, v0, t, a, 5, r5);
    StepPosition(p0, v0, t, a, 6, 0.0);
    ShareIfItTakesTime(up, t[0], r0);
    ShareIfItTakesTime(up, t[1], r1);
    ShareIfItTakesTime(down, t[2], r2);
    ShareIfItTakesTime(up, t[3], r3);
    ShareIfItTakesTime(Fifth(signs, up, down), t[4], r4);
    ShareIfItTakesTime(up, t[5], r5);
    ShareIfItTakesTime(Seventh(signs, up, down), t[6], 0.0);
    StartPosition(p0, v0, t, a);
    NoCoasting(VelocityAt(v0, t, a, 7));
  }

  /** The velocities after each of the first three controls, the highest and lowest ones, keep the limits. */
  predicate KeepsLimits(signs: ControlSigns, t: seq<real>, v0: real, up: real, down: real, first: real, second: real,
                        tolerance: real)
    requires |t| == 7
  {
    && WithinLimits(first > 0.0, v0 + Gained(signs, t, up, down, 1), first, second, tolerance)
    && WithinLimits(first > 0.0, v0 + Gained(signs, t, up, down, 2), first, second, tolerance)
    && WithinLimits(first > 0.0, v0 + Gained(signs, t, up, down, 3), first, second, tolerance)
  }

  /**
   * What the second-order check accepts, for all times and both patterns: usable times, velocities inside the limits
   * after each control, and the end of the profile on target.
   */
  lemma SecondOrderExactly(signs: ControlSigns, t: seq<real>, p0: real, v0: real, pf: real, vf: real,
                           up: real, down: real, vMax: real, vMin: real)
    requires |t| == 7
    ensures SecondOrderAccepts(t, SecondOrderPattern(signs, t, up, down), p0, v0, pf, vf, vMax, vMin) <==>
      && NonNegative(t) && Total7(t) <= T_MAX
      && Abs(p0 + Covered(signs, t, v0, up, down) - pf) < P_PRECISION
      && Abs(v0 + Gained(signs, t, up, down, 4) - vf) < V_PRECISION
      && KeepsLimits(signs, t, v0, up, down, vMax, vMin, V_EPS)
  {
    hide NonNegative, SecondOrderPattern, Gained, Covered, VelocityAt, PositionAt, TimeAt, Abs, Total7;
    var a := SecondOrderPattern(signs, t, up, down);
    if NonNegative(t) {
      TotalIsSum(t);
      Velocities(signs, t, v0, up, down);
      Position(signs, t, p0, v0, up, down);
      var low, high := Lower(vMax, vMin) - V_EPS, Upper(vMax, vMin) + V_EPS;
      SevenKnots(v0, t, a, low, high);
    }
  }

  lemma SevenKnots(v0: real, t: seq<real>, a: seq<real>, low: real, high: real)
    requires |t| == 7 && |a| == 7
    ensures (forall i :: 2 <= i <= 6 ==> low <= VelocityAt(v0, t, a, i) <= high) <==>
      && low <= VelocityAt(v0, t, a, 2) <= high && low <= VelocityAt(v0, t, a, 3) <= high
      && low <= VelocityAt(v0, t, a, 4) <= high && low <= VelocityAt(v0, t, a, 5) <= high
      && low <= VelocityAt(v0, t, a, 6) <= high
  {
    hide VelocityAt;
  }

  /** The jerks of a third-order profile are a second-order pattern. */
  lemma SamePattern(signs: ControlSigns, t: seq<real>, jf: real)
    requires |t| == 7
    ensures ThirdOrderPattern(signs, t, jf) == SecondOrderPattern(signs, t, jf, -jf)
  {}

  lemma BandExactly(x: real, y: real, z: real, first: real, second: real, tolerance: real)
    ensures Within3(x, y, z, Lower(first, second) - tolerance, Upper(first, second) + tolerance) <==>
      && WithinLimits(first > 0.0, x, first, second, tolerance)
      && WithinLimits(first > 0.0, y, first, second, tolerance)
      && WithinLimits(first > 0.0, z, first, second, tolerance)
  {}

  /** The same for the check of a velocity target, a derivative lower; one instance wants its plateau to last. */
  lemma VelocityExactly(signs: ControlSigns, t: seq<real>, limits: ReachedLimits, v0: real, a0: real, vf: real,
                        af: real, jf: real, aMax: real, aMin: real)
    requires |t| == 7
    ensures VelocityAccepts(t, ThirdOrderPattern(signs, t, jf), limits, v0, a0, vf, af, aMax, aMin) <==>
      && NonNegative(t) && Total7(t) <= T_MAX && (limits == ACC0 ==> t[1] >= EPSILON)
      && Abs(v0 + Covered(signs, t, a0, jf, -jf) - vf) < V_PRECISION
      && Abs(a0 + Gained(signs, t, jf, -jf, 4) - af) < A_PRECISION
      && KeepsLimits(signs, t, a0, jf, -jf, aMax, aMin, A_EPS)
  {
    hide NonNegative, SecondOrderPattern, ThirdOrderPattern, Gained, Covered, VelocityAt, PositionAt, TimeAt, Abs,
         Within3, WithinLimits, Lower, Upper, Total7;
    SamePattern(signs, t, jf);
    if NonNegative(t) {
      TotalIsSum(t);
      Velocities(signs, t, a0, jf, -jf);
      Position(signs, t, v0, a0, jf, -jf);
      BandExactly(a0 + Gained(signs, t, jf, -jf, 1), a0 + Gained(signs, t, jf, -jf, 2),
                  a0 + Gained(signs, t, jf, -jf, 3), aMax, aMin, A_EPS);
    }
  }

  // ---------------------------------------------------------------- three integrations

  /** The instance that writes no acceleration. */
  const NATURAL := Instance(NONE, false, 0.0, 0.0)

  lemma {:induction false} NaturalKnot(s: Knot, t: seq<real>, j: seq<real>, i: nat)
    requires i <= |t| && i <= |j|
    ensures KnotAt(s, t, j, NATURAL, i).a == VelocityAt(s.a, t, j, i)
    ensures KnotAt(s, t, j, NATURAL, i).v == PositionAt(s.v, s.a, t, j, i)
    decreases i
  {
    if i > 0 {
      NaturalKnot(s, t, j, i - 1);
      hide After, Rise;
    }
  }

  /** The position after `T` more without jerk. */
  function Free(k: Knot, T: real): real {
    k.p + Mul(T, k.v) + Mul(Sq(T), k.a) / 2.0
  }

  /** The ground that jerk `j` over time `t` gains by the time `rest` after its end. */
  function Reach(j: real, t: real, rest: real): real {
    Mul(j, Mul(t, Sq(t) / 6.0 + Mul(t, rest) / 2.0 + Sq(rest) / 2.0))
  }

  /** The products of powers of the time with the acceleration and the jerk, by name. */
  lemma Expanded(t: real, rest: real, a: real, j: real)
    ensures Mul(Sq(t + rest), a) == Mul(Sq(t), a) + 2.0 * Mul(Mul(rest, t), a) + Mul(Sq(rest), a)
    ensures Mul(rest, Rise(a, j, t)) == Mul(Mul(rest, t), a) + Mul(Mul(rest, Sq(t)), j) / 2.0
    ensures Mul(Sq(rest), After(a, j, t)) == Mul(Sq(rest), a) + Mul(Mul(Sq(rest), t), j)
  {}

  lemma ReachExpanded(t: real, rest: real, j: real)
    ensures Reach(j, t, rest) ==
      Mul(Mul(t, Sq(t)), j) / 6.0 + Mul(Mul(rest, Sq(t)), j) / 2.0 + Mul(Mul(Sq(rest), t), j) / 2.0
  {}

  lemma IntegrateExpanded(k: Knot, j: real, t: real)
    ensures Integrate(k, j, t).p == k.p + Mul(t, k.v) + Mul(Sq(t), k.a) / 2.0 + Mul(Mul(t, Sq(t)), j) / 6.0
    ensures Integrate(k, j, t).v == k.v + Rise(k.a, j, t) && Integrate(k, j, t).a == After(k.a, j, t)
  {
    var x := k.a / 2.0 + t * j / 6.0;
    assert t * x == Mul(t, k.a) / 2.0 + Mul(Sq(t), j) / 6.0;
    assert t * (k.v + t * x) == Mul(t, k.v) + Mul(t, t * x);
  }

  lemma SumsExpanded(t: real, rest: real, v: real, rise: real)
    ensures Mul(t + rest, v) == Mul(t, v) + Mul(rest, v) && Mul(rest, v + rise) == Mul(rest, v) + Mul(rest, rise)
  {}

  lemma FreeAfter(k: Knot, j: real, t: real, rest: real)
    ensures Free(Integrate(k, j, t), rest) == Free(k, t + rest) + Reach(j, t, rest)
  {
    hide Integrate, Reach, Mul, Sq, Rise, After;
    IntegrateExpanded(k, j, t);
    Expanded(t, rest, k.a, j);
    SumsExpanded(t, rest, k.v, Rise(k.a, j, t));
    ReachExpanded(t, rest, j);
  }

  lemma StepFree(s: Knot, t: seq<real>, j: seq<real>, i: nat, rest: real)
    requires i < |t| && i < |j|
    ensures Free(KnotAt(s, t, j, NATURAL, i + 1), rest) ==
            Free(KnotAt(s, t, j, NATURAL, i), t[i] + rest) + Reach(j[i], t[i], rest)
  {
    FreeAfter(KnotAt(s, t, j, NATURAL, i), j[i], t[i], rest);
    hide Integrate, Free, Reach;
  }

  lemma ReachIfItTakesTime(j: real, t: real, rest: real)
    requires t >= 0.0
    ensures Reach(if t > 0.0 then j else 0.0, t, rest) == Reach(j, t, rest) && Reach(0.0, t, rest) == 0.0
  {
    if t == 0.0 {
      assert forall x :: Mul(0.0, x) == 0.0;
      assert Mul(j, 0.0) == 0.0;
    }
  }

  /** The ground that the four jerks of a profile gain by its end. */
  function JerksReach(signs: ControlSigns, t: seq<real>, jf: real): real
    requires |t| == 7
  {
    Reach(jf, t[0], t[1] + t[2] + t[3] + t[4] + t[5] + t[6]) + Reach(-jf, t[2], t[3] + t[4] + t[5] + t[6])
    + Reach(Fifth(signs, jf, -jf), t[4], t[5] + t[6]) + Reach(Seventh(signs, jf, -jf), t[6], 0.0)
  }

  /** Where a profile ends from any start, for all times and both patterns. */
  lemma ThirdOrderEnds(signs: ControlSigns, t: seq<real>, s: Knot, jf: real)
    requires |t| == 7 && NonNegative(t)
    ensures KnotAt(s, t, ThirdOrderPattern(signs, t, jf), NATURAL, 7) ==
      Knot(Free(s, Total7(t)) + JerksReach(signs, t, jf), s.v + Covered(signs, t, s.a, jf, -jf),
           s.a + Gained(signs, t, jf, -jf, 4))
  {
    hide KnotAt, VelocityAt, PositionAt, Gained, Covered, Free, JerksReach, ThirdOrderPattern, SecondOrderPattern,
         NonNegative, Total7;
    var j := ThirdOrderPattern(signs, t, jf);
    SamePattern(signs, t, jf);
    NaturalKnot(s, t, j, 7);
    Velocities(signs, t, s.a, jf, -jf);
    Position(signs, t, s.v, s.a, jf, -jf);
    EndPosition(signs, t, s, jf);
  }

  lemma EndPosition(signs: ControlSigns, t: seq<real>, s: Knot, jf: real)
    requires |t| == 7 && NonNegative(t)
    ensures KnotAt(s, t, ThirdOrderPattern(signs, t, jf), NATURAL, 7).p == Free(s, Total7(t)) + JerksReach(signs, t, jf)
  {
    var j := ThirdOrderPattern(signs, t, jf);
    var r5 := t[6];
    var r4 := t[5] + r5;
    var r3 := t[4] + r4;
    var r2 := t[3] + r3;
    var r1 := t[2] + r2;
    var r0 := t[1] + r1;
    StepFree(s, t, j, 0, r0);
    StepFree(s, t, j, 1, r1);
    StepFree(s, t, j, 2, r2);
    StepFree(s, t, j, 3, r3);
    StepFree(s, t, j, 4, r4);
    StepFree(s, t, j, 5, r5);
    StepFree(s, t, j, 6, 0.0);
    ReachIfItTakesTime(jf, t[0], r0);
    ReachIfItTakesTime(jf, t[1], r1);
    ReachIfItTakesTime(-jf, t[2], r2);
    ReachIfItTakesTime(jf, t[3], r3);
    ReachIfItTakesTime(Fifth(signs, jf, -jf), t[4], r4);
    ReachIfItTakesTime(jf, t[5], r5);
    ReachIfItTakesTime(Seventh(signs, jf, -jf), t[6], 0.0);
    assert KnotAt(s, t, j, NATURAL, 0) == s;
    NoFreeTime(KnotAt(s, t, j, NATURAL, 7));
    hide KnotAt, Free, Reach, NonNegative;
  }

  lemma NoFreeTime(k: Knot)
    ensures Free(k, 0.0) == k.p
  {}

  // ---------------------------------------------------------------- the instances of the check

  /** The segments that an instance is named after last at least 2^-52 s. */
  predicate PhasesLast(limits: ReachedLimits, t: seq<real>)
    requires |t| == 7
  {
    match limits
    case NONE => true
    case ACC0 => t[1] >= EPSILON
    case ACC1 => t[5] >= EPSILON
    case ACC0_ACC1 => t[1] >= EPSILON && t[5] >= EPSILON
    case VEL => t[3] >= EPSILON
    case ACC0_VEL => t[3] >= EPSILON
    case ACC1_VEL => t[3] >= EPSILON
    case ACC0_ACC1_VEL => t[3] >= EPSILON
  }

  /** The accelerations after the first, third and fifth jerk are those that the instance is about. */
  predicate Typical(how: Instance, first: real, third: real, fifth: real) {
    match how.limits
    case NONE => true
    case ACC0 => true
    case ACC1 => how.setLimits ==> third == how.aMin
    case ACC0_ACC1 => third == 0.0 && (how.setLimits ==> first == how.aMax && fifth == how.aMin)
    case VEL => third == 0.0
    case ACC0_VEL => third == 0.0
    case ACC1_VEL => third == 0.0
    case ACC0_ACC1_VEL => third == 0.0
  }

  lemma TypicalStep(k: Knot, how: Instance, i: nat)
    requires 1 <= i <= 7
    ensures k.(a := Override(how.limits, how.setLimits, how.aMax, how.aMin, i, k.a)) == k <==>
      && (i == 1 ==> how.limits == ACC0_ACC1 && how.setLimits ==> k.a == how.aMax)
      && (i == 3 ==> Typical(how.(setLimits := how.setLimits && how.limits == ACC1), 0.0, k.a, 0.0))
      && (i == 5 ==> how.limits == ACC0_ACC1 && how.setLimits ==> k.a == how.aMin)
  {}

  /** A check integrates the motion itself exactly if the accelerations it may write are there anyway. */
  lemma NothingWrittenExactly(s: Knot, t: seq<real>, j: seq<real>, how: Instance)
    requires |t| == 7 && |j| == 7
    ensures (forall i :: 0 <= i <= 7 ==> KnotAt(s, t, j, how, i) == KnotAt(s, t, j, NATURAL, i)) <==>
      Typical(how, KnotAt(s, t, j, NATURAL, 1).a, KnotAt(s, t, j, NATURAL, 3).a, KnotAt(s, t, j, NATURAL, 5).a)
  {
    var a1, a3, a5 := KnotAt(s, t, j, NATURAL, 1).a, KnotAt(s, t, j, NATURAL, 3).a, KnotAt(s, t, j, NATURAL, 5).a;
    TypicalStep(KnotAt(s, t, j, NATURAL, 1), how, 1);
    TypicalStep(KnotAt(s, t, j, NATURAL, 3), how, 3);
    TypicalStep(KnotAt(s, t, j, NATURAL, 5), how, 5);
    if Typical(how, a1, a3, a5) {
      forall i | 0 <= i <= 7 ensures KnotAt(s, t, j, how, i) == KnotAt(s, t, j, NATURAL, i) {
        TypicalKnots(s, t, j, how, i);
      }
    }
    if forall i :: 0 <= i <= 7 ==> KnotAt(s, t, j, how, i) == KnotAt(s, t, j, NATURAL, i) {
      SameKnots(s, t, j, how, 1);
      SameKnots(s, t, j, how, 3);
      SameKnots(s, t, j, how, 5);
    }
  }

  /** From the same knot, the next one is the same exactly if nothing is written there. */
  lemma SameKnots(s: Knot, t: seq<real>, j: seq<real>, how: Instance, i: nat)
    requires |t| == 7 && |j| == 7 && 1 <= i <= 7 && KnotAt(s, t, j, how, i - 1) == KnotAt(s, t, j, NATURAL, i - 1)
    ensures var k := KnotAt(s, t, j, NATURAL, i);
      KnotAt(s, t, j, how, i) == k.(a := Override(how.limits, how.setLimits, how.aMax, how.aMin, i, k.a))
  {
    hide Integrate;
  }

  lemma {:induction false} TypicalKnots(s: Knot, t: seq<real>, j: seq<real>, how: Instance, i: nat)
    requires |t| == 7 && |j| == 7 && i <= 7
    requires Typical(how, KnotAt(s, t, j, NATURAL, 1).a, KnotAt(s, t, j, NATURAL, 3).a, KnotAt(s, t, j, NATURAL, 5).a)
    ensures KnotAt(s, t, j, how, i) == KnotAt(s, t, j, NATURAL, i)
    decreases i
  {
    if i > 0 {
      TypicalKnots(s, t, j, how, i - 1);
      SameKnots(s, t, j, how, i);
      TypicalStep(KnotAt(s, t, j, NATURAL, i), how, i);
      hide KnotAt;
    }
  }

  /** What the check asks of the accelerations and velocities at the knots, limits first in the direction moved. */
  predicate KnotsKeepLimits(s: Knot, t: seq<real>, j: seq<real>, vMax: real, vMin: real, aMax: real, aMin: real)
    requires |t| == 7 && |j| == 7
  {
    && WithinLimits(vMax > 0.0, KnotAt(s, t, j, NATURAL, 1).a, aMax, aMin, A_EPS)
    && WithinLimits(vMax > 0.0, KnotAt(s, t, j, NATURAL, 3).a, aMax, aMin, A_EPS)
    && WithinLimits(vMax > 0.0, KnotAt(s, t, j, NATURAL, 5).a, aMax, aMin, A_EPS)
    && WithinLimits(vMax > 0.0, KnotAt(s, t, j, NATURAL, 3).v, vMax, vMin, V_EPS)
    && WithinLimits(vMax > 0.0, KnotAt(s, t, j, NATURAL, 4).v, vMax, vMin, V_EPS)
    && WithinLimits(vMax > 0.0, KnotAt(s, t, j, NATURAL, 5).v, vMax, vMin, V_EPS)
    && WithinLimits(vMax > 0.0, KnotAt(s, t, j, NATURAL, 6).v, vMax, vMin, V_EPS)
  }

  /** For the instances that write nothing, what is left of the check besides the sign changes and the target. */
  lemma NaturalCheck(t: seq<real>, j: seq<real>, s: Knot, pf: real, vf: real, af: real, how: Instance,
                     vMax: real, vMin: real, aMax: real, aMin: real)
    requires |t| == 7 && |j| == 7
    requires Typical(how, KnotAt(s, t, j, NATURAL, 1).a, KnotAt(s, t, j, NATURAL, 3).a, KnotAt(s, t, j, NATURAL, 5).a)
    ensures
      ThirdOrderAccepts(t, j, s, pf, vf, af, how, VelocityBand(vMax, vMin), AccelerationBand(vMax, aMax, aMin)) <==>
      && NonNegative(t) && PhasesLast(how.limits, t) && Total7(t) <= T_MAX
      && CrossingsOk(s, t, j, NATURAL, VelocityBand(vMax, vMin), 7)
      && AtTarget(KnotAt(s, t, j, NATURAL, 7), pf, vf, af)
      && KnotsKeepLimits(s, t, j, vMax, vMin, aMax, aMin)
  {
    hide KnotAt, TimeAt, NonNegative, AtTarget, Typical, ZeroCrossingOk, Total7, CrossingsOk;
    NothingWrittenExactly(s, t, j, how);
    TotalIsSum(t);
    SameCrossings(s, t, j, how, VelocityBand(vMax, vMin));
    assert KnotAt(s, t, j, how, 1) == KnotAt(s, t, j, NATURAL, 1);
    assert KnotAt(s, t, j, how, 3) == KnotAt(s, t, j, NATURAL, 3);
    assert KnotAt(s, t, j, how, 4) == KnotAt(s, t, j, NATURAL, 4);
    assert KnotAt(s, t, j, how, 5) == KnotAt(s, t, j, NATURAL, 5);
    assert KnotAt(s, t, j, how, 6) == KnotAt(s, t, j, NATURAL, 6);
    assert KnotAt(s, t, j, how, 7) == KnotAt(s, t, j, NATURAL, 7);
  }

  lemma SameCrossings(s: Knot, t: seq<real>, j: seq<real>, how: Instance, velocity: Band)
    requires |t| == 7 && |j| == 7 && forall i :: 0 <= i <= 7 ==> KnotAt(s, t, j, how, i) == KnotAt(s, t, j, NATURAL, i)
    ensures CrossingsOk(s, t, j, how, velocity, 7) <==> CrossingsOk(s, t, j, NATURAL, velocity, 7)
  {
    hide KnotAt, ZeroCrossingOk;
  }

  lemma CrossingTime(a: real, e: real, j: real, T: real) returns (tau: real)
    requires a > 0.0 > e && e == After(a, j, T) && T >= 0.0
    ensures j < 0.0 && 0.0 <= tau <= T && After(a, j, tau) == 0.0
  {
    if j >= 0.0 {
      Product(T, j);
    }
    tau := a / -j;
    Quotient(a, -j);
    QuotientTimes(a, -j, tau);
    assert tau * -j == -(tau * j) && T * -j == -(T * j);
    if tau > T {
      TimesLess(T, tau, -j);
    }
  }

  lemma VelocityThere(v: real, a: real, j: real, tau: real)
    requires j != 0.0 && After(a, j, tau) == 0.0
    ensures v + Rise(a, j, tau) == VelocityAtZero(v, a, j)
  {
    RiseEnergy(a, j, tau);
    var q, x := a * a / (2.0 * j), Rise(a, j, tau);
    assert q * (2.0 * j) == a * a;
    Cancel(2.0 * j, x, -q);
  }

  lemma OppositeSigns(a: real, e: real)
    requires Mul(e, a) < 0.0
    ensures a > 0.0 > e || a < 0.0 < e
  {
    if a >= 0.0 && e >= 0.0 {
      Product(e, a);
    } else if a <= 0.0 && e <= 0.0 {
      Product(-e, -a);
    }
  }

  lemma MirroredAfter(a: real, j: real, T: real)
    ensures After(-a, -j, T) == -After(a, j, T)
  {}

  /** The test at a sign change of the acceleration fails only where the velocity really leaves its limits. */
  lemma CrossingOutside(k: Knot, j: real, T: real, velocity: Band) returns (tau: real)
    requires T >= 0.0 && !ZeroCrossingOk(k, Integrate(k, j, T), j, velocity.low, velocity.high)
    ensures 0.0 <= tau <= T && !(velocity.low <= Integrate(k, j, tau).v <= velocity.high)
  {
    var a, e := k.a, After(k.a, j, T);
    OppositeSigns(a, e);
    MirroredAfter(a, j, T);
    hide After, Rise, Mul;
    if a > 0.0 {
      tau := CrossingTime(a, e, j, T);
    } else {
      tau := CrossingTime(-a, -e, -j, T);
      MirroredAfter(a, j, tau);
    }
    VelocityThere(k.v, a, j, tau);
  }

  /** From the end of the third segment on, and through it, the velocity keeps its limits. */
  ghost predicate VelocityKept(s: Knot, t: seq<real>, j: seq<real>, velocity: Band)
    requires |t| == 7 && |j| == 7
  {
    forall i, tau :: 2 <= i < 7 && 0.0 <= tau <= t[i] ==>
      velocity.low <= Integrate(KnotAt(s, t, j, NATURAL, i), j[i], tau).v <= velocity.high
  }

  /** Conversely to what acceptance promises: a profile on target is accepted if its motion keeps the limits. */
  lemma KeepingIsAccepted(t: seq<real>, j: seq<real>, s: Knot, pf: real, vf: real, af: real, how: Instance,
                          vMax: real, vMin: real, aMax: real, aMin: real)
    requires |t| == 7 && |j| == 7 && NonNegative(t) && PhasesLast(how.limits, t) && Total7(t) <= T_MAX
    requires Typical(how, KnotAt(s, t, j, NATURAL, 1).a, KnotAt(s, t, j, NATURAL, 3).a, KnotAt(s, t, j, NATURAL, 5).a)
    requires AtTarget(KnotAt(s, t, j, NATURAL, 7), pf, vf, af) && KnotsKeepLimits(s, t, j, vMax, vMin, aMax, aMin)
    requires VelocityKept(s, t, j, VelocityBand(vMax, vMin))
    ensures ThirdOrderAccepts(t, j, s, pf, vf, af, how, VelocityBand(vMax, vMin), AccelerationBand(vMax, aMax, aMin))
  {
    hide Integrate, ZeroCrossingOk, KnotsKeepLimits, PhasesLast, Typical, AtTarget, VelocityBand, ThirdOrderAccepts;
    var velocity := VelocityBand(vMax, vMin);
    forall i | 2 <= i < 7
      ensures ZeroCrossingOk(KnotAt(s, t, j, NATURAL, i), KnotAt(s, t, j, NATURAL, i + 1), j[i], velocity.low,
                             velocity.high)
    {
      var k := KnotAt(s, t, j, NATURAL, i);
      assert KnotAt(s, t, j, NATURAL, i + 1) == Integrate(k, j[i], t[i]);
      if !ZeroCrossingOk(k, Integrate(k, j[i], t[i]), j[i], velocity.low, velocity.high) {
        var tau := CrossingOutside(k, j[i], t[i], velocity);
        assert false;
      }
    }
    NaturalCheck(t, j, s, pf, vf, af, how, vMax, vMin, aMax, aMin);
  }

  // ---------------------------------------------------------------- two changes of velocity

  /** What jerk `jf` for `x`, none for `y` and `-jf` for `x` add to the velocity; the acceleration is as before. */
  function Change(jf: real, x: real, y: real): real {
    jf * x * (x + y)
  }

  /** The velocity gained while jerk `jf` builds up the acceleration. */
  function Ramp(jf: real, x: real): real {
    jf * x * x / 2.0
  }

  /** The state a change of velocity leaves: on average the velocity has been half way between. */
  function Changed(k: Knot, jf: real, x: real, y: real): Knot {
    var w := Change(jf, x, y);
    Knot(k.p + (k.v + w / 2.0) * (2.0 * x + y), k.v + w, 0.0)
  }

  lemma ThreeSegments(k: Knot, jf: real, x: real, y: real)
    requires k.a == 0.0
    ensures var k1 := Integrate(k, jf, x); var k2 := Integrate(k1, 0.0, y);
      && k1.a == k2.a == Mul(jf, x)
      && k1.v == k.v + Ramp(jf, x) && k2.v == k.v + Change(jf, x, y) - Ramp(jf, x)
      && Integrate(k2, -jf, x) == Changed(k, jf, x, y)
  {
    var k1 := Integrate(k, jf, x);
    var k2 := Integrate(k1, 0.0, y);
    var jxx, jxy := jf * x * x, jf * x * y;
    assert Change(jf, x, y) == jxx + jxy;
    assert k1.p == k.p + k.v * x + jxx * x / 6.0;
    assert k2.p == k1.p + k1.v * y + jxy * y / 2.0;
    assert k2.v == k1.v + jxy;
    assert Integrate(k2, -jf, x).p == k2.p + k2.v * x + jxx * x / 2.0 - jxx * x / 6.0;
    assert (k.v + (jxx + jxy) / 2.0) * (2.0 * x + y) ==
      2.0 * k.v * x + k.v * y + jxx * x + jxx * y / 2.0 + jxy * x + jxy * y / 2.0;
    assert jxy * x == jxx * y;
  }

  /** Two changes of velocity with a time at constant velocity between them. */
  predicate TwoChanges(t: seq<real>, x: real, y: real, z: real, u: real, w: real) {
    t == [x, y, x, z, u, w, u] && x > 0.0 && u > 0.0
  }

  /** The jerk that begins the second change. */
  function SecondJerk(signs: ControlSigns, jf: real): real {
    match signs case UDDU => -jf case UDUD => jf
  }

  /** The knots of such a profile. */
  lemma TwoChangesKnots(signs: ControlSigns, t: seq<real>, s: Knot, jf: real, x: real, y: real, z: real, u: real,
                        w: real)
    requires TwoChanges(t, x, y, z, u, w) && NonNegative(t) && s.a == 0.0
    ensures var j, j2 := ThirdOrderPattern(signs, t, jf), SecondJerk(signs, jf);
      var cruise, a1, a5 := Changed(s, jf, x, y), Mul(jf, x), Mul(j2, u);
      && (forall i :: 0 <= i <= 7 ==> KnotAt(s, t, j, NATURAL, i).a == [0.0, a1, a1, 0.0, 0.0, a5, a5, 0.0][i])
      && KnotAt(s, t, j, NATURAL, 3) == cruise
      && KnotAt(s, t, j, NATURAL, 4) == Knot(cruise.p + Mul(z, cruise.v), cruise.v, 0.0)
      && KnotAt(s, t, j, NATURAL, 5).v == cruise.v + Ramp(j2, u)
      && KnotAt(s, t, j, NATURAL, 6).v == cruise.v + Change(j2, u, w) - Ramp(j2, u)
      && KnotAt(s, t, j, NATURAL, 7) == Changed(KnotAt(s, t, j, NATURAL, 4), j2, u, w)
  {
    hide KnotAt, Integrate, Change, Changed, ThirdOrderPattern, NonNegative, Mul, Ramp;
    var j2 := SecondJerk(signs, jf);
    CruiseStart(s, jf, x, y);
    var cruise := Changed(s, jf, x, y);
    ThreeSegments(s, jf, x, y);
    Cruising(cruise, z);
    ThreeSegments(Knot(cruise.p + Mul(z, cruise.v), cruise.v, 0.0), j2, u, w);
    CruiseStart(Knot(cruise.p + Mul(z, cruise.v), cruise.v, 0.0), j2, u, w);
    KnotByKnot(signs, t, s, jf);
  }

  lemma CruiseStart(k: Knot, jf: real, x: real, y: real)
    ensures Changed(k, jf, x, y).a == 0.0 && Changed(k, jf, x, y).v == k.v + Change(jf, x, y)
  {}

  lemma Cruising(k: Knot, z: real)
    requires k.a == 0.0
    ensures Integrate(k, 0.0, z) == Knot(k.p + Mul(z, k.v), k.v, 0.0)
  {}

  lemma KnotByKnot(signs: ControlSigns, t: seq<real>, s: Knot, jf: real)
    requires |t| == 7 && t[0] > 0.0 && t[2] > 0.0 && t[4] > 0.0 && t[6] > 0.0
    ensures var j, j2 := ThirdOrderPattern(signs, t, jf), SecondJerk(signs, jf);
      && KnotAt(s, t, j, NATURAL, 0) == s
      && KnotAt(s, t, j, NATURAL, 1) == Integrate(s, jf, t[0])
      && KnotAt(s, t, j, NATURAL, 2) == Integrate(KnotAt(s, t, j, NATURAL, 1), 0.0, t[1])
      && KnotAt(s, t, j, NATURAL, 3) == Integrate(KnotAt(s, t, j, NATURAL, 2), -jf, t[2])
      && KnotAt(s, t, j, NATURAL, 4) == Integrate(KnotAt(s, t, j, NATURAL, 3), 0.0, t[3])
      && KnotAt(s, t, j, NATURAL, 5) == Integrate(KnotAt(s, t, j, NATURAL, 4), j2, t[4])
      && KnotAt(s, t, j, NATURAL, 6) == Integrate(KnotAt(s, t, j, NATURAL, 5), 0.0, t[5])
      && KnotAt(s, t, j, NATURAL, 7) == Integrate(KnotAt(s, t, j, NATURAL, 6), -j2, t[6])
  {
    hide Integrate;
  }

  /**
   * What the check accepts of such profiles, for every instance that writes what is there anyway: no time is
   * negative, none of its phases is empty, the end is on target, and the largest accelerations and velocities keep
   * the limits.
   */
  lemma TwoChangesExactly(signs: ControlSigns, t: seq<real>, x: real, y: real, z: real, u: real, w: real, s: Knot,
                          jf: real, pf: real, vf: real, af: real, how: Instance, vMax: real, vMin: real, aMax: real,
                          aMin: real)
    requires TwoChanges(t, x, y, z, u, w) && s.a == 0.0
    requires Typical(how, Mul(jf, x), 0.0, Mul(SecondJerk(signs, jf), u))
    ensures var j2 := SecondJerk(signs, jf);
      var v := s.v + Change(jf, x, y);
      var end := Changed(Knot(Changed(s, jf, x, y).p + Mul(z, v), v, 0.0), j2, u, w);
      ThirdOrderAccepts(t, ThirdOrderPattern(signs, t, jf), s, pf, vf, af, how, VelocityBand(vMax, vMin),
                        AccelerationBand(vMax, aMax, aMin)) <==>
      && y >= 0.0 && z >= 0.0 && w >= 0.0 && 2.0 * x + y + z + 2.0 * u + w <= T_MAX && PhasesLast(how.limits, t)
      && AtTarget(end, pf, vf, af)
      && WithinLimits(vMax > 0.0, Mul(jf, x), aMax, aMin, A_EPS) && WithinLimits(vMax > 0.0, 0.0, aMax, aMin, A_EPS)
      && WithinLimits(vMax > 0.0, Mul(j2, u), aMax, aMin, A_EPS) && WithinLimits(vMax > 0.0, v, vMax, vMin, V_EPS)
      && WithinLimits(vMax > 0.0, v + Ramp(j2, u), vMax, vMin, V_EPS)
      && WithinLimits(vMax > 0.0, v + Change(j2, u, w) - Ramp(j2, u), vMax, vMin, V_EPS)
  {
    hide KnotAt, PhasesLast, AtTarget, WithinLimits, Typical, Change, CrossingsOk, ThirdOrderPattern, ThirdOrderAccepts,
         SecondJerk, VelocityBand, AccelerationBand, Mul, Ramp, Changed, NonNegative;
    var j := ThirdOrderPattern(signs, t, jf);
    TimesOfTwo(t, x, y, z, u, w);
    if y >= 0.0 && z >= 0.0 && w >= 0.0 {
      var j2 := SecondJerk(signs, jf);
      var a1, a5 := Mul(jf, x), Mul(j2, u);
      TwoChangesKnots(signs, t, s, jf, x, y, z, u, w);
      CruiseStart(s, jf, x, y);
      assert KnotAt(s, t, j, NATURAL, 1).a == a1;
      assert KnotAt(s, t, j, NATURAL, 3).a == 0.0;
      assert KnotAt(s, t, j, NATURAL, 5).a == a5;
      NaturalCheck(t, j, s, pf, vf, af, how, vMax, vMin, aMax, aMin);
      NoSignChange(signs, t, s, j, a1, a5, VelocityBand(vMax, vMin));
      var v, cruise := s.v + Change(jf, x, y), Changed(s, jf, x, y);
      assert KnotAt(s, t, j, NATURAL, 4) == Knot(cruise.p + Mul(z, v), v, 0.0);
    } else {
      NotAccepted(t, j, s, pf, vf, af, how, VelocityBand(vMax, vMin), AccelerationBand(vMax, aMax, aMin));
    }
  }

  lemma TimesOfTwo(t: seq<real>, x: real, y: real, z: real, u: real, w: real)
    requires TwoChanges(t, x, y, z, u, w)
    ensures NonNegative(t) <==> y >= 0.0 && z >= 0.0 && w >= 0.0
    ensures Total7(t) == 2.0 * x + y + z + 2.0 * u + w
  {
    assert t[1] == y && t[3] == z && t[5] == w;
  }

  lemma NoSignChange(signs: ControlSigns, t: seq<real>, s: Knot, j: seq<real>, first: real, second: real,
                     velocity: Band)
    requires |t| == 7 && |j| == 7
    requires forall i :: 0 <= i <= 7 ==>
      KnotAt(s, t, j, NATURAL, i).a == [0.0, first, first, 0.0, 0.0, second, second, 0.0][i]
    ensures CrossingsOk(s, t, j, NATURAL, velocity, 7)
  {
    hide KnotAt;
    SquareNonNegative(second);
    forall i | 2 <= i < 7 ensures Mul(KnotAt(s, t, j, NATURAL, i + 1).a, KnotAt(s, t, j, NATURAL, i).a) >= 0.0 {
    }
  }

  /** The limits are on the two sides of zero, the one moved towards first. */
  predicate AroundZero(up: bool, first: real, second: real) {
    if up then second <= 0.0 <= first else first <= 0.0 <= second
  }

  lemma BetweenZeroAnd(up: bool, x: real, far: real, first: real, second: real, tolerance: real)
    requires AroundZero(up, first, second) && tolerance >= 0.0
    requires 0.0 <= x <= far || far <= x <= 0.0
    ensures WithinLimits(up, far, first, second, tolerance) ==> WithinLimits(up, x, first, second, tolerance)
    ensures WithinLimits(up, 0.0, first, second, tolerance)
  {}

  lemma ThereAndBack(jf: real, x: real, y: real)
    requires x > 0.0 && y >= 0.0
    ensures Change(-jf, x, y) == -Change(jf, x, y) && Ramp(-jf, x) == -Ramp(jf, x) && Mul(-jf, x) == -Mul(jf, x)
    ensures 0.0 <= Ramp(jf, x) <= Change(jf, x, y) || Change(jf, x, y) <= Ramp(jf, x) <= 0.0
  {
    var xx, xy := x * x, x * y;
    Product(x, x);
    Product(x, y);
    assert Change(jf, x, y) == jf * xx + jf * xy && Ramp(jf, x) == jf * xx / 2.0;
    if jf >= 0.0 {
      Product(jf, xx);
      Product(jf, xy);
    } else {
      Product(-jf, xx);
      Product(-jf, xy);
      assert -jf * xx == -(jf * xx) && -jf * xy == -(jf * xy);
    }
  }

  lemma RestDistance(p0: real, jf: real, x: real, y: real, z: real)
    ensures var w := Change(jf, x, y);
      Changed(Knot(Changed(Knot(p0, 0.0, 0.0), jf, x, y).p + Mul(z, w), w, 0.0), -jf, x, y) ==
      Knot(p0 + w * (2.0 * x + y + z), 0.0, 0.0)
  {
    var w, T := Change(jf, x, y), 2.0 * x + y;
    assert Change(-jf, x, y) == -w;
    hide Change;
    assert Changed(Knot(p0, 0.0, 0.0), jf, x, y).p == p0 + w / 2.0 * T;
    assert (w + -w / 2.0) * T == w / 2.0 * T;
    assert w * (T + z) == w / 2.0 * T + w / 2.0 * T + w * z;
  }

  /**
   * A profile from rest to rest, up and down again, is accepted exactly if it covers the distance asked for, its
   * phases are not empty, it does not take too long, and its largest acceleration and velocity keep the limits.
   */
  lemma RestToRestExactly(t: seq<real>, x: real, y: real, z: real, p0: real, jf: real, pf: real, vf: real, af: real,
                          how: Instance, vMax: real, vMin: real, aMax: real, aMin: real)
    requires TwoChanges(t, x, y, z, x, y) && y >= 0.0 && z >= 0.0 && Typical(how, Mul(jf, x), 0.0, -Mul(jf, x))
    requires AroundZero(vMax > 0.0, vMax, vMin) && AroundZero(vMax > 0.0, aMax, aMin)
    ensures var w := Change(jf, x, y);
      ThirdOrderAccepts(t, ThirdOrderPattern(UDDU, t, jf), Knot(p0, 0.0, 0.0), pf, vf, af, how,
                        VelocityBand(vMax, vMin), AccelerationBand(vMax, aMax, aMin)) <==>
      && 4.0 * x + 2.0 * y + z <= T_MAX && PhasesLast(how.limits, t)
      && AtTarget(Knot(p0 + w * (2.0 * x + y + z), 0.0, 0.0), pf, vf, af)
      && WithinLimits(vMax > 0.0, Mul(jf, x), aMax, aMin, A_EPS)
      && WithinLimits(vMax > 0.0, -Mul(jf, x), aMax, aMin, A_EPS)
      && WithinLimits(vMax > 0.0, w, vMax, vMin, V_EPS)
  {
    hide Change, Ramp, Mul, Changed, PhasesLast, Typical, AtTarget, WithinLimits, ThirdOrderAccepts, ThirdOrderPattern,
         VelocityBand, AccelerationBand;
    var w, r := Change(jf, x, y), Ramp(jf, x);
    ThereAndBack(jf, x, y);
    RestDistance(p0, jf, x, y, z);
    TwoChangesExactly(UDDU, t, x, y, z, x, y, Knot(p0, 0.0, 0.0), jf, pf, vf, af, how, vMax, vMin, aMax, aMin);
    BetweenZeroAnd(vMax > 0.0, r, w, vMax, vMin, V_EPS);
    BetweenZeroAnd(vMax > 0.0, w - r, w, vMax, vMin, V_EPS);
    BetweenZeroAnd(vMax > 0.0, 0.0, 0.0, aMax, aMin, A_EPS);
  }
}
