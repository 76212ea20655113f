/**
 * The seven-segment motion profile of profile.hpp: times and constant jerks go in, the state at every knot
 * comes out, and the checks say whether it is a solution.
 */
module Profiles {
  import opened Kinematics
  import opened RealArithmetic

  const V_EPS := 0.000000000001
  const A_EPS := 0.000000000001
  const J_EPS := 0.000000000001
  const P_PRECISION := 0.00000001
  const V_PRECISION := 0.00000001
  const A_PRECISION := 0.0000000001
  const T_MAX := 1000000000000.0

  const SEVEN_ZEROS: seq<real> := [0.0, 0.0, 0.0, 0.0, 0.0, 0.0, 0.0]

  datatype ReachedLimits = ACC0_ACC1_VEL | VEL | ACC0 | ACC1 | ACC0_ACC1 | ACC0_VEL | ACC1_VEL | NONE
  datatype Direction = UP | DOWN
  datatype ControlSigns = UDDU | UDUD

  /** The direction of a profile that is made with `limit` for its first limit. */
  function Way(limit: real): Direction {
    if limit > 0.0 then UP else DOWN
  }

  // ---------------------------------------------------------------- what the knots should be

  predicate NonNegative(t: seq<real>) {
    forall i :: 0 <= i < |t| ==> t[i] >= 0.0
  }

  /** Time at knot `i`. */
  function TimeAt(t: seq<real>, i: nat): real
    requires i <= |t|
    decreases i
  {
    if i == 0 then 0.0 else TimeAt(t, i - 1) + t[i - 1]
  }

  /** Velocity at knot `i` under constant accelerations `a`. */
  function VelocityAt(v0: real, t: seq<real>, a: seq<real>, i: nat): real
    requires i <= |t| && i <= |a|
    decreases i
  {
    if i == 0 then v0 else After(VelocityAt(v0, t, a, i - 1), a[i - 1], t[i - 1])
  }

  function PositionAt(p0: real, v0: real, t: seq<real>, a: seq<real>, i: nat): real
    requires i <= |t| && i <= |a|
    decreases i
  {
    if i == 0 then p0
    else PositionAt(p0, v0, t, a, i - 1) + Rise(VelocityAt(v0, t, a, i - 1), a[i - 1], t[i - 1])
  }

  /** The upper and lower limits in either order: which is which depends on the direction. */
  function Upper(x: real, y: real): real {
    if x > 0.0 then x else y
  }

  function Lower(x: real, y: real): real {
    if x > 0.0 then y else x
  }

  /** Accelerations of a second-order profile: none in a segment that takes no time. */
  function SecondOrderPattern(signs: ControlSigns, t: seq<real>, aUp: real, aDown: real): (r: seq<real>)
    requires |t| == 7
    ensures |r| == 7
  {
    var fifth := if signs == UDDU then aDown else aUp;
    var last := if signs == UDDU then aUp else aDown;
    [if t[0] > 0.0 then aUp else 0.0, 0.0, if t[2] > 0.0 then aDown else 0.0, 0.0,
     if t[4] > 0.0 then fifth else 0.0, 0.0, if t[6] > 0.0 then last else 0.0]
  }

  /** What a second-order check accepts. */
  predicate SecondOrderAccepts(t: seq<real>, a: seq<real>, p0: real, v0: real, pf: real, vf: real, vMax: real,
                               vMin: real)
    requires |t| == 7 && |a| == 7
  {
    && NonNegative(t) && TimeAt(t, 7) <= T_MAX
    && Abs(PositionAt(p0, v0, t, a, 7) - pf) < P_PRECISION
    && Abs(VelocityAt(v0, t, a, 7) - vf) < V_PRECISION
    && forall i :: 2 <= i <= 6 ==>
         Lower(vMax, vMin) - V_EPS <= VelocityAt(v0, t, a, i) <= Upper(vMax, vMin) + V_EPS
  }

  /** The states at the knots are those of the motion. */
  predicate Integrated(t: seq<real>, a: seq<real>, v: seq<real>, p: seq<real>)
    requires |t| == 7 && |a| == 7 && |v| == 8 && |p| == 8
  {
    forall i :: 0 <= i <= 7 ==> v[i] == VelocityAt(v[0], t, a, i) && p[i] == PositionAt(p[0], v[0], t, a, i)
  }

  predicate Timed(t: seq<real>, tSum: seq<real>)
    requires |t| == 7 && |tSum| == 7
  {
    forall i :: 0 <= i < 7 ==> tSum[i] == TimeAt(t, i + 1)
  }

  predicate OnTarget(v: seq<real>, p: seq<real>, pf: real, vf: real, low: real, high: real)
    requires |v| == 8 && |p| == 8
  {
    && Abs(p[7] - pf) < P_PRECISION && Abs(v[7] - vf) < V_PRECISION
    && v[2] <= high && v[3] <= high && v[4] <= high && v[5] <= high && v[6] <= high
    && v[2] >= low && v[3] >= low && v[4] >= low && v[5] >= low && v[6] >= low
  }

  lemma AcceptsKnots(t: seq<real>, a: seq<real>, v: seq<real>, p: seq<real>, pf: real, vf: real, vMax: real, vMin: real)
    requires |t| == 7 && |a| == 7 && |v| == 8 && |p| == 8 && Integrated(t, a, v, p)
    ensures SecondOrderAccepts(t, a, p[0], v[0], pf, vf, vMax, vMin) <==>
      && NonNegative(t) && TimeAt(t, 7) <= T_MAX
      && OnTarget(v, p, pf, vf, Lower(vMax, vMin) - V_EPS, Upper(vMax, vMin) + V_EPS)
  {
    hide After, Rise, VelocityAt, PositionAt, TimeAt, NonNegative, Abs, Lower, Upper;
    assert forall i :: 2 <= i <= 6 ==> v[i] == VelocityAt(v[0], t, a, i);
  }

  lemma NotAccepted2(t: seq<real>, a: seq<real>, p0: real, v0: real, pf: real, vf: real, vMax: real, vMin: real)
    requires |t| == 7 && |a| == 7 && (!NonNegative(t) || TimeAt(t, 7) > T_MAX)
    ensures !SecondOrderAccepts(t, a, p0, v0, pf, vf, vMax, vMin)
  {
    hide NonNegative, TimeAt, VelocityAt, PositionAt;
  }

  lemma LastTime(t: seq<real>, tSum: seq<real>)
    requires |t| == 7 && |tSum| == 7 && Timed(t, tSum)
    ensures tSum[6] == TimeAt(t, 7)
  {}

  // ---------------------------------------------------------------- third order

  /** Jerks of a third-order profile: none in a segment that takes no time. */
  function ThirdOrderPattern(signs: ControlSigns, t: seq<real>, jf: real): (r: seq<real>)
    requires |t| == 7
    ensures |r| == 7
  {
    [if t[0] > 0.0 then jf else 0.0, 0.0, if t[2] > 0.0 then -jf else 0.0, 0.0,
     if t[4] > 0.0 then (if signs == UDDU then -jf else jf) else 0.0, 0.0,
     if t[6] > 0.0 then (if signs == UDDU then jf else -jf) else 0.0]
  }

  /** Position, velocity and acceleration at a knot. */
  datatype Knot = Knot(p: real, v: real, a: real)

  /** `integrate` for constant jerk. */
  function Integrate(k: Knot, j: real, t: real): Knot {
    Knot(k.p + t * (k.v + t * (k.a / 2.0 + t * j / 6.0)), k.v + Rise(k.a, j, t), After(k.a, j, t))
  }

  predicate ReachesVelocity(limits: ReachedLimits) {
    limits == ACC0_ACC1_VEL || limits == VEL || limits == ACC0_VEL || limits == ACC1_VEL
  }

  /** The accelerations at a knot that some instances of the check write in place of the computed ones. */
  function Override(limits: ReachedLimits, setLimits: bool, aMax: real, aMin: real, i: nat, a: real): real {
    if i == 3 && (ReachesVelocity(limits) || limits == ACC0_ACC1) then 0.0
    else if setLimits && limits == ACC1 && i == 3 then aMin
    else if setLimits && limits == ACC0_ACC1 && i == 1 then aMax
    else if setLimits && limits == ACC0_ACC1 && i == 5 then aMin
    else a
  }

  /** Which limit instance a check is for, and the limits it may write. */
  datatype Instance = Instance(limits: ReachedLimits, setLimits: bool, aMax: real, aMin: real)

  function KnotAt(start: Knot, t: seq<real>, j: seq<real>, how: Instance, i: nat): Knot
    requires i <= |t| && i <= |j|
    decreases i
  {
    if i == 0 then start
    else
      var k := Integrate(KnotAt(start, t, j, how, i - 1), j[i - 1], t[i - 1]);
      k.(a := Override(how.limits, how.setLimits, how.aMax, how.aMin, i, k.a))
  }

  /** The segments a limit instance is about must not be empty. */
  predicate LongEnough(limits: ReachedLimits, t: seq<real>)
    requires |t| == 7
  {
    && (ReachesVelocity(limits) ==> t[3] >= EPSILON)
    && (limits == ACC0 || limits == ACC0_ACC1 ==> t[1] >= EPSILON)
    && (limits == ACC1 || limits == ACC0_ACC1 ==> t[5] >= EPSILON)
  }

  /** Between two knots where the acceleration changes sign, the velocity there is inside its limits. */
  predicate ZeroCrossingOk(k: Knot, next: Knot, j: real, low: real, high: real) {
    Mul(next.a, k.a) < -EPSILON ==> j != 0.0 && low <= VelocityAtZero(k.v, k.a, j) <= high
  }

  /** The first `n` segments pass the test at the sign changes of the acceleration, made from the third on. */
  predicate CrossingsOk(start: Knot, t: seq<real>, j: seq<real>, how: Instance, velocity: Band, n: nat)
    requires n <= |t| && n <= |j|
  {
    forall i :: 2 <= i < n ==>
      ZeroCrossingOk(KnotAt(start, t, j, how, i), KnotAt(start, t, j, how, i + 1), j[i], velocity.low, velocity.high)
  }

  lemma NoCrossings(start: Knot, t: seq<real>, j: seq<real>, how: Instance, velocity: Band)
    ensures CrossingsOk(start, t, j, how, velocity, 0)
  {}

  lemma OneMoreCrossing(start: Knot, t: seq<real>, j: seq<real>, how: Instance, velocity: Band, i: nat)
    requires i < 7 && |t| == 7 && |j| == 7 && CrossingsOk(start, t, j, how, velocity, i)
    ensures CrossingsOk(start, t, j, how, velocity, i + 1) <==> i > 1 ==>
      ZeroCrossingOk(KnotAt(start, t, j, how, i), KnotAt(start, t, j, how, i + 1), j[i], velocity.low, velocity.high)
    ensures !CrossingsOk(start, t, j, how, velocity, i + 1) ==> !CrossingsOk(start, t, j, how, velocity, 7)
  {
    hide KnotAt, ZeroCrossingOk;
  }

  /** The final conditions of the third-order check. */
  predicate AtTarget(k: Knot, pf: real, vf: real, af: real) {
    Abs(k.p - pf) < P_PRECISION && Abs(k.v - vf) < V_PRECISION && Abs(k.a - af) < A_PRECISION
  }

  predicate Within3(x: real, y: real, z: real, low: real, high: real) {
    x >= low && y >= low && z >= low && x <= high && y <= high && z <= high
  }

  predicate Within4(x: real, y: real, z: real, w: real, low: real, high: real) {
    x <= high && y <= high && z <= high && w <= high && x >= low && y >= low && z >= low && w >= low
  }

  /** The limits a check compares with: the direction decides which argument is which. */
  datatype Band = Band(low: real, high: real)

  function VelocityBand(vMax: real, vMin: real): Band {
    Band(Lower(vMax, vMin) - V_EPS, Upper(vMax, vMin) + V_EPS)
  }

  function AccelerationBand(vMax: real, aMax: real, aMin: real): Band {
    Band((if vMax > 0.0 then aMin else aMax) - A_EPS, (if vMax > 0.0 then aMax else aMin) + A_EPS)
  }

  /** The states at the knots are those of the motion under jerks `j`. */
  predicate Integrated3(t: seq<real>, j: seq<real>, a: seq<real>, v: seq<real>, p: seq<real>, how: Instance, n: nat)
    requires |t| == 7 && |j| == 7 && |a| == 8 && |v| == 8 && |p| == 8 && n <= 7
  {
    forall i :: 0 <= i <= n ==> KnotAt(Knot(p[0], v[0], a[0]), t, j, how, i) == Knot(p[i], v[i], a[i])
  }

  /** What a third-order check accepts. */
  predicate ThirdOrderAccepts(t: seq<real>, j: seq<real>, start: Knot, pf: real, vf: real, af: real,
                              how: Instance, velocity: Band, acceleration: Band)
    requires |t| == 7 && |j| == 7
  {
    && NonNegative(t) && LongEnough(how.limits, t) && TimeAt(t, 7) <= T_MAX
    && CrossingsOk(start, t, j, how, velocity, 7)
    && AtTarget(KnotAt(start, t, j, how, 7), pf, vf, af)
    && Within3(KnotAt(start, t, j, how, 1).a, KnotAt(start, t, j, how, 3).a, KnotAt(start, t, j, how, 5).a,
               acceleration.low, acceleration.high)
    && Within4(KnotAt(start, t, j, how, 3).v, KnotAt(start, t, j, how, 4).v, KnotAt(start, t, j, how, 5).v,
               KnotAt(start, t, j, how, 6).v, velocity.low, velocity.high)
  }

  lemma NotAccepted(t: seq<real>, j: seq<real>, start: Knot, pf: real, vf: real, af: real,
                    how: Instance, velocity: Band, acceleration: Band)
    requires |t| == 7 && |j| == 7
    requires
      || !NonNegative(t) || !LongEnough(how.limits, t) || TimeAt(t, 7) > T_MAX
      || !CrossingsOk(start, t, j, how, velocity, 7)
    ensures !ThirdOrderAccepts(t, j, start, pf, vf, af, how, velocity, acceleration)
  {
    hide NonNegative, LongEnough, CrossingsOk, AtTarget, Within3, Within4, KnotAt, TimeAt;
  }

  lemma AcceptsKnots3(t: seq<real>, j: seq<real>, a: seq<real>, v: seq<real>, p: seq<real>, pf: real, vf: real,
                      af: real, how: Instance, velocity: Band, acceleration: Band)
    requires |t| == 7 && |j| == 7 && |a| == 8 && |v| == 8 && |p| == 8 && Integrated3(t, j, a, v, p, how, 7)
    requires NonNegative(t) && LongEnough(how.limits, t) && TimeAt(t, 7) <= T_MAX
    requires CrossingsOk(Knot(p[0], v[0], a[0]), t, j, how, velocity, 7)
    ensures ThirdOrderAccepts(t, j, Knot(p[0], v[0], a[0]), pf, vf, af, how, velocity, acceleration) <==>
      && AtTarget(Knot(p[7], v[7], a[7]), pf, vf, af)
      && Within3(a[1], a[3], a[5], acceleration.low, acceleration.high)
      && Within4(v[3], v[4], v[5], v[6], velocity.low, velocity.high)
  {
    hide NonNegative, LongEnough, CrossingsOk, AtTarget, Within3, Within4, KnotAt, TimeAt;
  }

  // ---------------------------------------------------------------- third order, velocity

  lemma RatesOf(k: Knot, j: real, t: real)
    ensures Integrate(k, j, t).v == k.v + Rise(k.a, j, t) && Integrate(k, j, t).a == After(k.a, j, t)
  {}

  /** The states at the knots follow from each other under the jerks. */
  predicate Linked(t: seq<real>, j: seq<real>, a: seq<real>, v: seq<real>, p: seq<real>)
    requires |t| == 7 && |j| == 7 && |a| == 8 && |v| == 8 && |p| == 8
  {
    forall i :: 0 <= i < 7 ==> Integrate(Knot(p[i], v[i], a[i]), j[i], t[i]) == Knot(p[i + 1], v[i + 1], a[i + 1])
  }

  /**
   * What the check of a velocity target accepts. Read one derivative lower, accelerations and velocities at
   * the knots are what velocities and positions are in the second-order case.
   */
  predicate VelocityAccepts(t: seq<real>, j: seq<real>, limits: ReachedLimits, v0: real, a0: real, vf: real, af: real,
                            aMax: real, aMin: real)
    requires |t| == 7 && |j| == 7
  {
    && NonNegative(t) && (limits == ACC0 ==> t[1] >= EPSILON) && TimeAt(t, 7) <= T_MAX
    && Abs(PositionAt(v0, a0, t, j, 7) - vf) < V_PRECISION && Abs(VelocityAt(a0, t, j, 7) - af) < A_PRECISION
    && Within3(VelocityAt(a0, t, j, 1), VelocityAt(a0, t, j, 3), VelocityAt(a0, t, j, 5),
               Lower(aMax, aMin) - A_EPS, Upper(aMax, aMin) + A_EPS)
  }

  /** The checks after the integration. */
  lemma VelocityKnots(t: seq<real>, j: seq<real>, limits: ReachedLimits, a: seq<real>, v: seq<real>, vf: real, af: real,
                      aMax: real, aMin: real)
    requires |t| == 7 && |j| == 7 && |a| == 8 && |v| == 8 && Integrated(t, j, a, v)
    requires NonNegative(t) && (limits == ACC0 ==> t[1] >= EPSILON) && TimeAt(t, 7) <= T_MAX
    ensures VelocityAccepts(t, j, limits, v[0], a[0], vf, af, aMax, aMin) <==>
      && Abs(v[7] - vf) < V_PRECISION && Abs(a[7] - af) < A_PRECISION
      && Within3(a[1], a[3], a[5], Lower(aMax, aMin) - A_EPS, Upper(aMax, aMin) + A_EPS)
  {
    hide NonNegative, TimeAt, VelocityAt, PositionAt, Within3, Abs, Lower, Upper;
  }

  lemma VelocityNotAccepted(t: seq<real>, j: seq<real>, limits: ReachedLimits, v0: real, a0: real, vf: real, af: real,
                            aMax: real, aMin: real)
    requires |t| == 7 && |j| == 7
    requires !NonNegative(t) || (limits == ACC0 && t[1] < EPSILON) || TimeAt(t, 7) > T_MAX
    ensures !VelocityAccepts(t, j, limits, v0, a0, vf, af, aMax, aMin)
  {
    hide NonNegative, TimeAt, VelocityAt, PositionAt, Within3, Abs, Lower, Upper;
  }

  // ---------------------------------------------------------------- the profile

  /** A profile as a value: what assignment copies. */
  datatype Plan = Plan(t: seq<real>, tSum: seq<real>, j: seq<real>, a: seq<real>, v: seq<real>, p: seq<real>,
                       pf: real, vf: real, af: real, brakeDuration: real, accelDuration: real,
                       limits: ReachedLimits, direction: Direction, signs: ControlSigns)

  class Profile {
    var t: seq<real>
    var tSum: seq<real>
    var j: seq<real>
    var a: seq<real>
    var v: seq<real>
    var p: seq<real>
    var pf: real
    var vf: real
    var af: real
    var brakeDuration: real
    var accelDuration: real
    var limits: ReachedLimits
    var direction: Direction
    var signs: ControlSigns

    predicate Sized()
      reads this
    {
      |t| == 7 && |tSum| == 7 && |j| == 7 && |a| == 8 && |v| == 8 && |p| == 8
    }

    constructor ()
      ensures Sized()
    {
      t, tSum, j := SEVEN_ZEROS, SEVEN_ZEROS, SEVEN_ZEROS;
      a, v, p := SEVEN_ZEROS + [0.0], SEVEN_ZEROS + [0.0], SEVEN_ZEROS + [0.0];
      pf, vf, af, brakeDuration, accelDuration := 0.0, 0.0, 0.0, 0.0, 0.0;
      limits, direction, signs := NONE, UP, UDDU;
    }

    function Value(): Plan
      reads this
    {
      Plan(t, tSum, j, a, v, p, pf, vf, af, brakeDuration, accelDuration, limits, direction, signs)
    }

    /** Nothing a caller chose has changed. */
    twostate predicate SameTask()
      reads this
    {
      && t == old(t) && pf == old(pf) && vf == old(vf) && af == old(af)
      && brakeDuration == old(brakeDuration) && accelDuration == old(accelDuration)
      && |v| > 0 && |old(v)| > 0 && v[0] == old(v[0]) && |p| > 0 && |old(p)| > 0 && p[0] == old(p[0])
    }

    method SetBoundary(from: Profile)
      requires Sized() && from.Sized()
      modifies this
      ensures Sized() && t == old(t)
      ensures a[0] == old(from.a[0]) && v[0] == old(from.v[0]) && p[0] == old(from.p[0])
      ensures pf == old(from.pf) && vf == old(from.vf) && af == old(from.af)
      ensures brakeDuration == old(from.brakeDuration) && accelDuration == old(from.accelDuration)
    {
      a, v, p := a[0 := from.a[0]], v[0 := from.v[0]], p[0 := from.p[0]];
      af, vf, pf := from.af, from.vf, from.pf;
      brakeDuration, accelDuration := from.brakeDuration, from.accelDuration;
    }

    /** The running sums of the times, given up at the first negative one. */
    method SumTimes() returns (ok: bool)
      requires Sized()
      modifies this`tSum
      ensures Sized()
      ensures ok <==> NonNegative(t)
      ensures ok ==> Timed(t, tSum)
    {
      if t[0] < 0.0 {
        return false;
      }
      tSum := tSum[0 := t[0]];
      for i := 0 to 6
        invariant Sized()
        invariant forall k :: 0 <= k <= i ==> t[k] >= 0.0 && tSum[k] == TimeAt(t, k + 1)
      {
        if t[i + 1] < 0.0 {
          return false;
        }
        tSum := tSum[i + 1 := tSum[i] + t[i + 1]];
      }
      return true;
    }

    /** The times are usable: none negative, and not too long in all. */
    method TimesOk() returns (ok: bool)
      requires Sized()
      modifies this`tSum
      ensures Sized() && (ok <==> NonNegative(t) && TimeAt(t, 7) <= T_MAX)
      ensures ok ==> Timed(t, tSum)
    {
      hide NonNegative, Timed, TimeAt;
      ok := SumTimes();
      if ok {
        LastTime(t, tSum);
        ok := tSum[6] <= T_MAX;
      }
    }

    /** Velocities and positions at the knots, from the accelerations. */
    method IntegrateSecondOrder()
      requires Sized()
      modifies this`v, this`p
      ensures Sized()
      ensures v[0] == old(v[0]) && p[0] == old(p[0]) && Integrated(t, a[..7], v, p)
    {
      hide After, Rise;
      for i := 0 to 7
        invariant Sized()
        invariant forall k :: 0 <= k <= i ==>
          && v[k] == VelocityAt(old(v[0]), t, a[..7], k)
          && p[k] == PositionAt(old(p[0]), old(v[0]), t, a[..7], k)
        invariant v[0] == old(v[0]) && p[0] == old(p[0])
      {
        assert a[i] == a[..7][i];
        p := p[i + 1 := p[i] + Rise(v[i], a[i], t[i])];
        v := v[i + 1 := After(v[i], a[i], t[i])];
      }
    }

    method SetAccelerations(signs: ControlSigns, aUp: real, aDown: real)
      requires Sized()
      modifies this`a, this`j
      ensures Sized() && j == SEVEN_ZEROS
      ensures a == SecondOrderPattern(signs, t, aUp, aDown) + [af] && a[..7] == SecondOrderPattern(signs, t, aUp, aDown)
    {
      j := SEVEN_ZEROS;
      if signs == UDDU {
        a := [if t[0] > 0.0 then aUp else 0.0, 0.0, if t[2] > 0.0 then aDown else 0.0, 0.0,
              if t[4] > 0.0 then aDown else 0.0, 0.0, if t[6] > 0.0 then aUp else 0.0, af];
      } else {
        a := [if t[0] > 0.0 then aUp else 0.0, 0.0, if t[2] > 0.0 then aDown else 0.0, 0.0,
              if t[4] > 0.0 then aUp else 0.0, 0.0, if t[6] > 0.0 then aDown else 0.0, af];
      }
    }

    method CheckForSecondOrder(signs: ControlSigns, limits: ReachedLimits, aUp: real, aDown: real, vMax: real,
                               vMin: real)
      returns (ok: bool)
      requires Sized()
      modifies this
      ensures Sized() && SameTask()
      ensures ok <==> SecondOrderAccepts(t, SecondOrderPattern(signs, t, aUp, aDown), p[0], v[0], pf, vf, vMax, vMin)
      ensures ok ==>
        && a == SecondOrderPattern(signs, t, aUp, aDown) + [af] && j == SEVEN_ZEROS
        && Timed(t, tSum) && Integrated(t, a[..7], v, p)
        && direction == (if vMax > 0.0 then UP else DOWN) && this.limits == limits && this.signs == signs
    {
      hide After, Rise, VelocityAt, PositionAt, TimeAt, NonNegative, OnTarget, Integrated, Timed, SecondOrderPattern,
           SecondOrderAccepts;
      ok := TimesOk();
      if ok {
        ok := AssessSecondOrder(signs, limits, aUp, aDown, vMax, vMin);
      } else {
        NotAccepted2(t, SecondOrderPattern(signs, t, aUp, aDown), p[0], v[0], pf, vf, vMax, vMin);
      }
    }

    /** The rest of the check, once the times are known to be usable. */
    method AssessSecondOrder(signs: ControlSigns, limits: ReachedLimits, aUp: real, aDown: real, vMax: real, vMin: real)
      returns (ok: bool)
      requires Sized() && NonNegative(t) && TimeAt(t, 7) <= T_MAX
      modifies this`a, this`j, this`v, this`p, this`direction, this`limits, this`signs
      ensures Sized() && v[0] == old(v[0]) && p[0] == old(p[0])
      ensures ok <==> SecondOrderAccepts(t, SecondOrderPattern(signs, t, aUp, aDown), p[0], v[0], pf, vf, vMax, vMin)
      ensures a == SecondOrderPattern(signs, t, aUp, aDown) + [af] && j == SEVEN_ZEROS && Integrated(t, a[..7], v, p)
      ensures direction == (if vMax > 0.0 then UP else DOWN) && this.limits == limits && this.signs == signs
    {
      hide After, Rise, VelocityAt, PositionAt, TimeAt, NonNegative, OnTarget, Integrated, SecondOrderPattern,
           SecondOrderAccepts;
      SetAccelerations(signs, aUp, aDown);
      direction := if vMax > 0.0 then UP else DOWN;
      var vUppLim := (if direction == UP then vMax else vMin) + V_EPS;
      var vLowLim := (if direction == UP then vMin else vMax) - V_EPS;
      IntegrateSecondOrder();
      this.signs := signs;
      this.limits := limits;
      ok := OnTarget(v, p, pf, vf, vLowLim, vUppLim);
      AcceptsKnots(t, a[..7], v, p, pf, vf, vMax, vMin);
    }

    /** The states at the knots, given up at the first sign change of the acceleration with too high a velocity. */
    method IntegrateThirdOrder(how: Instance, velocity: Band) returns (ok: bool)
      requires Sized()
      modifies this`a, this`v, this`p
      ensures Sized() && a[0] == old(a[0]) && v[0] == old(v[0]) && p[0] == old(p[0])
      ensures ok <==> CrossingsOk(Start(), t, j, how, velocity, 7)
      ensures ok ==> Integrated3(t, j, a, v, p, how, 7)
    {
      hide Integrate, Override, ZeroCrossingOk, CrossingsOk;
      ghost var s := Start();
      NoCrossings(s, t, j, how, velocity);
      for i := 0 to 7
        invariant Sized() && Start() == s && Integrated3(t, j, a, v, p, how, i)
        invariant CrossingsOk(s, t, j, how, velocity, i)
      {
        var k := Knot(p[i], v[i], a[i]);
        var next := Integrate(k, j[i], t[i]);
        next := next.(a := Override(how.limits, how.setLimits, how.aMax, how.aMin, i + 1, next.a));
        assert KnotAt(s, t, j, how, i) == k;
        assert KnotAt(s, t, j, how, i + 1) == next;
        p, v, a := p[i + 1 := next.p], v[i + 1 := next.v], a[i + 1 := next.a];
        OneMoreCrossing(s, t, j, how, velocity, i);
        if i > 1 && !ZeroCrossingOk(k, next, j[i], velocity.low, velocity.high) {
          assert Start() == s;
          return false;
        }
      }
      ok := true;
    }

    /** The third-order check, one instance for each way of reaching the limits. */
    method Check(signs: ControlSigns, limits: ReachedLimits, setLimits: bool, jf: real,
                 vMax: real, vMin: real, aMax: real, aMin: real) returns (ok: bool)
      requires Sized()
      modifies this
      ensures Sized() && SameTask() && a[0] == old(a[0])
      ensures ok <==> ThirdOrderAccepts(t, ThirdOrderPattern(signs, t, jf), Start(), pf, vf, af,
        Instance(limits, setLimits, aMax, aMin), VelocityBand(vMax, vMin), AccelerationBand(vMax, aMax, aMin))
      ensures ok ==>
        && j == ThirdOrderPattern(signs, t, jf) && Timed(t, tSum)
        && Integrated3(t, j, a, v, p, Instance(limits, setLimits, aMax, aMin), 7)
        && direction == (if vMax > 0.0 then UP else DOWN) && this.limits == limits && this.signs == signs
    {
      hide NonNegative, Integrated3, Timed, ThirdOrderPattern, LongEnough, CrossingsOk, AtTarget, Within3, Within4,
           KnotAt,
           TimeAt, Integrate, Override, ThirdOrderAccepts;
      var how := Instance(limits, setLimits, aMax, aMin);
      var velocity, acceleration := VelocityBand(vMax, vMin), AccelerationBand(vMax, aMax, aMin);
      ok := TimesOk();
      if !ok || !LongEnough(limits, t) {
        NotAccepted(t, ThirdOrderPattern(signs, t, jf), Start(), pf, vf, af, how, velocity, acceleration);
        return false;
      }
      j := ThirdOrderPattern(signs, t, jf);
      direction := if vMax > 0.0 then UP else DOWN;
      ok := IntegrateThirdOrder(how, velocity);
      if ok {
        this.signs := signs;
        this.limits := limits;
        ok := && AtTarget(Knot(p[7], v[7], a[7]), pf, vf, af)
              && Within3(a[1], a[3], a[5], acceleration.low, acceleration.high)
              && Within4(v[3], v[4], v[5], v[6], velocity.low, velocity.high);
        AcceptsKnots3(t, j, a, v, p, pf, vf, af, how, velocity, acceleration);
      } else {
        NotAccepted(t, j, Start(), pf, vf, af, how, velocity, acceleration);
      }
    }

    /** Accelerations, velocities and positions at the knots, from the jerks. */
    method IntegrateVelocity()
      requires Sized()
      modifies this`a, this`v, this`p
      ensures Sized() && a[0] == old(a[0]) && v[0] == old(v[0]) && p[0] == old(p[0]) && Integrated(t, j, a, v)
      ensures Linked(t, j, a, v, p)
    {
      hide After, Rise, Integrate;
      for i := 0 to 7
        invariant Sized() && a[0] == old(a[0]) && v[0] == old(v[0]) && p[0] == old(p[0])
        invariant forall k :: 0 <= k < i ==>
          Integrate(Knot(p[k], v[k], a[k]), j[k], t[k]) == Knot(p[k + 1], v[k + 1], a[k + 1])
        invariant forall k :: 0 <= k <= i ==>
          a[k] == VelocityAt(old(a[0]), t, j, k) && v[k] == PositionAt(old(v[0]), old(a[0]), t, j, k)
      {
        var next := Integrate(Knot(p[i], v[i], a[i]), j[i], t[i]);
        RatesOf(Knot(p[i], v[i], a[i]), j[i], t[i]);
        p, v, a := p[i + 1 := next.p], v[i + 1 := next.v], a[i + 1 := next.a];
      }
    }

    method CheckForVelocity(signs: ControlSigns, limits: ReachedLimits, jf: real, aMax: real, aMin: real)
      returns (ok: bool)
      requires Sized()
      modifies this
      ensures Sized() && SameTask() && a[0] == old(a[0])
      ensures ok <==> VelocityAccepts(t, ThirdOrderPattern(signs, t, jf), limits, v[0], a[0], vf, af, aMax, aMin)
      ensures ok ==>
        && j == ThirdOrderPattern(signs, t, jf) && Timed(t, tSum) && Integrated(t, j, a, v) && Linked(t, j, a, v, p)
        && direction == (if aMax > 0.0 then UP else DOWN) && this.limits == limits && this.signs == signs
    {
      hide NonNegative, TimeAt, Timed, Integrated, Linked, VelocityAccepts, ThirdOrderPattern, Within3, Abs;
      ok := TimesOk();
      if ok && !(limits == ACC0 && t[1] < EPSILON) {
        ok := AssessVelocity(signs, limits, jf, aMax, aMin);
      } else {
        VelocityNotAccepted(t, ThirdOrderPattern(signs, t, jf), limits, v[0], a[0], vf, af, aMax, aMin);
        ok := false;
      }
    }

    method AssessVelocity(signs: ControlSigns, limits: ReachedLimits, jf: real, aMax: real, aMin: real)
      returns (ok: bool)
      requires Sized() && NonNegative(t) && TimeAt(t, 7) <= T_MAX && (limits == ACC0 ==> t[1] >= EPSILON)
      modifies this`a, this`j, this`v, this`p, this`direction, this`limits, this`signs
      ensures Sized() && a[0] == old(a[0]) && v[0] == old(v[0]) && p[0] == old(p[0])
      ensures ok <==> VelocityAccepts(t, ThirdOrderPattern(signs, t, jf), limits, v[0], a[0], vf, af, aMax, aMin)
      ensures j == ThirdOrderPattern(signs, t, jf) && Integrated(t, j, a, v) && Linked(t, j, a, v, p)
      ensures direction == (if aMax > 0.0 then UP else DOWN) && this.limits == limits && this.signs == signs
    {
      hide NonNegative, TimeAt, Integrated, Linked, VelocityAccepts, ThirdOrderPattern, Within3, Abs;
      j := ThirdOrderPattern(signs, t, jf);
      IntegrateVelocity();
      this.signs := signs;
      this.limits := limits;
      direction := if aMax > 0.0 then UP else DOWN;
      var aUppLim := (if direction == UP then aMax else aMin) + A_EPS;
      var aLowLim := (if direction == UP then aMin else aMax) - A_EPS;
      ok := Abs(v[7] - vf) < V_PRECISION && Abs(a[7] - af) < A_PRECISION && Within3(a[1], a[3], a[5], aLowLim, aUppLim);
      VelocityKnots(t, j, limits, a, v, vf, af, aMax, aMin);
    }

    function Start(): Knot
      requires |p| > 0 && |v| > 0 && |a| > 0
      reads this
    {
      Knot(p[0], v[0], a[0])
    }
  }
}
