/**
 * Phase synchronisation: `is_input_collinear` of calculator_target.hpp and the profiles made from it. All axes
 * that take part move along one straight line, at every time and not only at its ends.
 */
module PhaseSynchronization {
  import opened Blocks
  import opened Brake
  import opened Kinematics
  import opened Motion
  import opened Profiles
  import opened RealArithmetic
  import opened Trajectory

  // ---------------------------------------------------------------- collinear inputs

  /** The five vectors of an input, and which axes take part; some axes may be controlled by velocity. */
  datatype Task = Task(pd: seq<real>, v0: seq<real>, a0: seq<real>, vf: seq<real>, af: seq<real>,
                       phase: seq<bool>, position: seq<bool>)

  /** Which of the five vectors. */
  datatype Column = Distance | Velocity | Acceleration | TargetVelocity | TargetAcceleration

  predicate TaskSized(x: Task) {
    |x.pd| == |x.v0| == |x.a0| == |x.vf| == |x.af| == |x.phase| == |x.position|
  }

  function Entry(x: Task, c: Column, d: nat): real
    requires TaskSized(x) && d < |x.pd|
  {
    match c
    case Distance => x.pd[d]
    case Velocity => x.v0[d]
    case Acceleration => x.a0[d]
    case TargetVelocity => x.vf[d]
    case TargetAcceleration => x.af[d]
  }

  /** A distance counts only for an axis that is controlled by position. */
  predicate Counts(x: Task, c: Column, d: nat)
    requires TaskSized(x) && d < |x.pd|
  {
    c == Distance ==> x.position[d]
  }

  predicate Still(x: Task, d: nat)
    requires TaskSized(x) && d < |x.pd|
  {
    forall c: Column :: Counts(x, c, d) ==> Entry(x, c, d) == 0.0
  }

  /** The vector and the axis by which all others are measured. */
  datatype Scale = Scale(c: Column, d: nat)

  predicate ScaleOk(x: Task, s: Scale) {
    TaskSized(x) && s.d < |x.pd| && x.phase[s.d] && Counts(x, s.c, s.d) && Entry(x, s.c, s.d) != 0.0
  }

  /** How much of the scale vector a vector is, at the axis it is measured by. */
  function Share(x: Task, s: Scale, c: Column): real
    requires ScaleOk(x, s)
  {
    Entry(x, c, s.d) / Entry(x, s.c, s.d)
  }

  predicate OnScale(x: Task, s: Scale, c: Column, d: nat)
    requires ScaleOk(x, s) && d < |x.pd|
  {
    Counts(x, c, d) ==> Entry(x, c, d) == Mul(Share(x, s, c), Entry(x, s.c, d))
  }

  predicate AxisOnScale(x: Task, s: Scale, d: nat)
    requires ScaleOk(x, s) && d < |x.pd|
  {
    forall c: Column :: OnScale(x, s, c, d)
  }

  /** What the test amounts to: on the axes that take part, every vector is a multiple of the scale vector. */
  predicate Collinear(x: Task, s: Scale)
    requires ScaleOk(x, s)
  {
    forall d :: 0 <= d < |x.pd| && x.phase[d] ==> AxisOnScale(x, s, d)
  }

  /** All that counts lies on one line: each vector is a share of the same vector `r`. */
  predicate OnLine(x: Task, r: seq<real>, share: Column -> real)
    requires TaskSized(x) && |r| == |x.pd|
  {
    forall c: Column, d :: 0 <= d < |r| && x.phase[d] && Counts(x, c, d) ==> Entry(x, c, d) == Mul(share(c), r[d])
  }

  /**
   * What an axis needs so that the test does not fail at it. Measured by distances, an axis where the distance does
   * not count needs it on the line nevertheless, unless nothing but distances is asked for; measured by another
   * vector, an axis whose distance counts needs the one of the measuring axis on the line, unless it stands still.
   */
  predicate AxisFair(x: Task, s: Scale, r: seq<real>, share: Column -> real, d: nat)
    requires ScaleOk(x, s) && d < |r| == |x.pd|
  {
    if s.c == Distance then
      x.position[d] || x.pd[d] == Mul(share(Distance), r[d]) || forall c: Column :: c != Distance ==> share(c) == 0.0
    else
      !x.position[d] || x.pd[s.d] == Mul(share(Distance), r[s.d]) || r[d] == 0.0
  }

  predicate Fair(x: Task, s: Scale, r: seq<real>, share: Column -> real)
    requires ScaleOk(x, s) && |r| == |x.pd|
  {
    forall d :: 0 <= d < |r| && x.phase[d] ==> AxisFair(x, s, r, share, d)
  }

  /** Where all that counts is on one line, the test says so exactly if it is fair to every axis. */
  lemma LineFoundExactly(x: Task, s: Scale, r: seq<real>, share: Column -> real)
    requires ScaleOk(x, s) && |r| == |x.pd| && OnLine(x, r, share)
    ensures Collinear(x, s) <==> Fair(x, s, r, share)
  {
    forall d | 0 <= d < |r| && x.phase[d] ensures AxisOnScale(x, s, d) <==> AxisFair(x, s, r, share, d) {
      AxisFoundExactly(x, s, r, share, d);
    }
  }

  lemma AxisFoundExactly(x: Task, s: Scale, r: seq<real>, share: Column -> real, d: nat)
    requires ScaleOk(x, s) && d < |r| == |x.pd| && x.phase[d] && OnLine(x, r, share)
    ensures AxisOnScale(x, s, d) <==> AxisFair(x, s, r, share, d)
  {
    assert Entry(x, s.c, s.d) == Mul(share(s.c), r[s.d]);
    NotZero(share(s.c), r[s.d]);
    forall c: Column
      ensures OnScale(x, s, c, d) <==>
        || !Counts(x, c, d)
        || (if s.c == Distance then x.position[d] || x.pd[d] == Mul(share(Distance), r[d]) || share(c) == 0.0
            else c != Distance || x.pd[s.d] == Mul(share(Distance), r[s.d]) || r[d] == 0.0)
    {
      if Counts(x, c, d) {
        assert Entry(x, c, d) == Mul(share(c), r[d]);
        assert Counts(x, s.c, d) ==> Entry(x, s.c, d) == Mul(share(s.c), r[d]);
        assert Counts(x, c, s.d) ==> Entry(x, c, s.d) == Mul(share(c), r[s.d]);
        if s.c == Distance {
          MeasuredByDistance(share(c), share(Distance), r[d], r[s.d], x.pd[d]);
        } else {
          MeasuredByOther(share(c), share(s.c), r[d], r[s.d], Entry(x, c, s.d));
        }
      }
    }
    hide OnScale, Share, Mul;
  }

  /** And the test never says so of what is not on one line: the scale vector is that line. */
  lemma FoundIsOnLine(x: Task, s: Scale) returns (r: seq<real>, share: Column -> real)
    requires ScaleOk(x, s) && Collinear(x, s)
    ensures |r| == |x.pd| && OnLine(x, r, share) && Fair(x, s, r, share)
  {
    r := seq(|x.pd|, d requires 0 <= d < |x.pd| && TaskSized(x) => Entry(x, s.c, d));
    share := c => if ScaleOk(x, s) then Share(x, s, c) else 0.0;
    forall c: Column, d | 0 <= d < |r| && x.phase[d] && Counts(x, c, d) ensures Entry(x, c, d) == Mul(share(c), r[d]) {
      assert AxisOnScale(x, s, d) && OnScale(x, s, c, d);
    }
    LineFoundExactly(x, s, r, share);
  }

  lemma NotZero(x: real, y: real)
    requires Mul(x, y) != 0.0
    ensures x != 0.0 && y != 0.0
  {}

  /** Against distances: whether `y` lies where its share of the line puts it. */
  lemma MeasuredByDistance(a: real, b: real, r: real, r0: real, y: real)
    requires b != 0.0 && r0 != 0.0
    ensures Mul(b, r0) != 0.0
    ensures Mul(a, r) == Mul(Mul(a, r0) / Mul(b, r0), y) <==> y == Mul(b, r) || a == 0.0
  {
    assert b * r0 != 0.0 by {
      if b * r0 == 0.0 { Cancel(b, r0, 0.0); }
    }
    Proportional(a, b, r, r0);
    var q := Mul(a, r0) / Mul(b, r0);
    assert q * b == a by {
      QuotientTimes(a * r0, b * r0, q);
      Cancel(r0, q * b, a);
    }
    if a == 0.0 {
      Cancel(b, q, 0.0);
      assert Mul(a, r) == 0.0 && Mul(q, y) == 0.0;
    } else if Mul(q, y) == Mul(a, r) {
      Cancel(q, y, Mul(b, r));
    }
  }

  /** Against another vector: whether the measuring axis lies where its share of the line puts it. */
  lemma MeasuredByOther(a: real, b: real, r: real, r0: real, y0: real)
    requires b != 0.0 && r0 != 0.0
    ensures Mul(b, r0) != 0.0
    ensures Mul(a, r) == Mul(y0 / Mul(b, r0), Mul(b, r)) <==> y0 == Mul(a, r0) || r == 0.0
  {
    assert b * r0 != 0.0 by {
      if b * r0 == 0.0 { Cancel(b, r0, 0.0); }
    }
    var q := y0 / Mul(b, r0);
    QuotientTimes(y0, b * r0, q);
    assert q * (b * r) * r0 == y0 * r;
    assert (a * r) * r0 == (a * r0) * r;
    if r != 0.0 && a * r == q * (b * r) {
      Cancel(r, y0, a * r0);
    }
    if y0 == a * r0 {
      Cancel(r0, a * r, q * (b * r));
    }
  }

  /** Vectors that are multiples of any one vector pass, if that goes for the distances that do not count as well. */
  lemma AnyLineIsFound(x: Task, s: Scale, r: seq<real>, share: Column -> real)
    requires ScaleOk(x, s) && |r| == |x.pd|
    requires forall c: Column, d :: 0 <= d < |r| && x.phase[d] ==> Entry(x, c, d) == Mul(share(c), r[d])
    ensures Collinear(x, s)
  {
    assert Entry(x, Distance, s.d) == Mul(share(Distance), r[s.d]);
    assert forall d :: 0 <= d < |r| && x.phase[d] ==> Entry(x, Distance, d) == x.pd[d];
    LineFoundExactly(x, s, r, share);
  }

  lemma Proportional(x: real, y: real, r: real, r0: real)
    requires Mul(y, r0) != 0.0
    ensures Mul(x, r) == Mul(Mul(x, r0) / Mul(y, r0), Mul(y, r))
  {
    var q := x * r0 / (y * r0);
    QuotientTimes(x * r0, y * r0, q);
    Cancel(r0, q * y, x);
  }

  // ---------------------------------------------------------------- the test

  /** No, or yes with the control of every axis; dividing by an axis that does not move gives no numbers. */
  datatype Answer = No | Yes(controls: seq<real>) | NotNumbers

  function FirstMoving(x: Task, d: nat): (c: Option<Column>)
    requires TaskSized(x) && d < |x.pd|
    ensures c.None? <==> Still(x, d)
    ensures c.Some? ==> Counts(x, c.value, d) && Entry(x, c.value, d) != 0.0
  {
    if x.position[d] && x.pd[d] != 0.0 then assert Entry(x, Distance, d) != 0.0; Some(Distance)
    else if x.v0[d] != 0.0 then assert Entry(x, Velocity, d) != 0.0; Some(Velocity)
    else if x.a0[d] != 0.0 then assert Entry(x, Acceleration, d) != 0.0; Some(Acceleration)
    else if x.vf[d] != 0.0 then assert Entry(x, TargetVelocity, d) != 0.0; Some(TargetVelocity)
    else if x.af[d] != 0.0 then assert Entry(x, TargetAcceleration, d) != 0.0; Some(TargetAcceleration)
    else
      assert forall c: Column :: Counts(x, c, d) ==> Entry(x, c, d) == 0.0;
      None
  }

  /** The first axis that takes part and moves or is to move, and the first vector in which it does. */
  predicate IsFirst(x: Task, s: Scale)
    requires ScaleOk(x, s)
  {
    FirstMoving(x, s.d) == Some(s.c) && forall d :: 0 <= d < s.d && x.phase[d] ==> Still(x, d)
  }

  lemma OneFirst(x: Task, s: Scale, s': Scale)
    requires ScaleOk(x, s) && ScaleOk(x, s') && IsFirst(x, s) && IsFirst(x, s')
    ensures s == s'
  {
    assert !Still(x, s.d) && !Still(x, s'.d);
  }

  method FindScale(x: Task) returns (s: Option<Scale>)
    requires TaskSized(x)
    ensures s.Some? ==> ScaleOk(x, s.value) && IsFirst(x, s.value)
    ensures s.None? ==> forall d :: 0 <= d < |x.pd| && x.phase[d] ==> Still(x, d)
  {
    hide Still, Counts, Entry;
    for dof := 0 to |x.pd|
      invariant forall d :: 0 <= d < dof && x.phase[d] ==> Still(x, d)
    {
      if !x.phase[dof] {
        continue;
      }
      var c := FirstMoving(x, dof);
      if c.Some? {
        return Some(Scale(c.value, dof));
      }
    }
    return None;
  }

  /** The control of the limiting axis: its jerk, or its acceleration if the jerk is not limited. */
  function LimitingControl(up: bool, maxJerk: Time, aMax: real, aMin: real): real {
    if maxJerk.Infinite? then (if up then aMax else aMin) else if up then maxJerk.seconds else -maxJerk.seconds
  }

  function Ratio(x: Task, s: Scale, limiting: nat, d: nat): real
    requires ScaleOk(x, s) && limiting < |x.pd| && d < |x.pd| && Entry(x, s.c, limiting) != 0.0
  {
    Entry(x, s.c, d) / Entry(x, s.c, limiting)
  }

  predicate AxisPasses(x: Task, s: Scale, d: nat)
    requires ScaleOk(x, s) && d < |x.pd|
    ensures AxisPasses(x, s, d) <==> AxisOnScale(x, s, d)
  {
    hide Counts, Entry, Share, Mul;
    && OnScale(x, s, Distance, d) && OnScale(x, s, Velocity, d) && OnScale(x, s, Acceleration, d)
    && OnScale(x, s, TargetVelocity, d) && OnScale(x, s, TargetAcceleration, d)
  }

  /** Yes exactly for collinear inputs of which something moves; the controls are in proportion to the scale. */
  method IsInputCollinear(x: Task, up: bool, limiting: nat, maxJerk: Time, aMax: real, aMin: real)
    returns (answer: Answer, ghost scale: Option<Scale>)
    requires TaskSized(x) && limiting < |x.pd|
    ensures scale.Some? ==> ScaleOk(x, scale.value) && IsFirst(x, scale.value)
    ensures scale.None? ==> answer == No && forall d :: 0 <= d < |x.pd| && x.phase[d] ==> Still(x, d)
    ensures scale.Some? ==> (answer != No <==> Collinear(x, scale.value))
    ensures scale.Some? && answer != No ==> (answer.Yes? <==> Entry(x, scale.value.c, limiting) != 0.0)
    ensures answer.Yes? ==> scale.Some? && Entry(x, scale.value.c, limiting) != 0.0 && |answer.controls| == |x.pd|
    ensures answer.Yes? ==> forall d :: 0 <= d < |x.pd| && x.phase[d] ==>
      answer.controls[d] == Mul(LimitingControl(up, maxJerk, aMax, aMin), Ratio(x, scale.value, limiting, d))
  {
    hide AxisOnScale, Counts, LimitingControl, Mul, Entry, IsFirst;
    var found := FindScale(x);
    scale := found;
    if found.None? {
      return No, scale;
    }
    var s := found.value;
    var scaleLimiting := Entry(x, s.c, limiting);
    var control := LimitingControl(up, maxJerk, aMax, aMin);
    var controls := seq(|x.pd|, d => 0.0);
    for dof := 0 to |x.pd|
      invariant |controls| == |x.pd|
      invariant forall d :: 0 <= d < dof && x.phase[d] ==> AxisOnScale(x, s, d)
      invariant scaleLimiting != 0.0 ==>
        forall d :: 0 <= d < dof && x.phase[d] ==> controls[d] == Mul(control, Ratio(x, s, limiting, d))
    {
      if !x.phase[dof] {
        continue;
      }
      if !AxisPasses(x, s, dof) {
        return No, scale;
      }
      if scaleLimiting != 0.0 {
        Proportion(control, Entry(x, s.c, dof), scaleLimiting);
        controls := controls[dof := control * Entry(x, s.c, dof) / scaleLimiting];
      }
    }
    answer := if scaleLimiting != 0.0 then Yes(controls) else NotNumbers;
  }

  /** Speed 1 on both axes, and a distance to go on one of them; on the other the distance does not count. */
  function IdleDistance(idle: nat, distance: real): Task
    requires idle < 2
  {
    Task([1.0, distance], [1.0, 1.0], [0.0, 0.0], [0.0, 0.0], [0.0, 0.0], [true, true], [idle != 0, idle != 1])
  }

  function Shares(idle: nat): Column -> real {
    c => if c == Velocity || (c == Distance && idle == 1) then 1.0 else 0.0
  }

  lemma IdleDistanceUnfair(idle: nat, distance: real, s: Scale)
    requires (idle == 0 && distance == 0.0) || (idle == 1 && distance == 5.0)
    requires var x := IdleDistance(idle, distance); ScaleOk(x, s) && IsFirst(x, s)
    ensures var x := IdleDistance(idle, distance);
      OnLine(x, [1.0, 1.0], Shares(idle)) && !Still(x, 0) && !Collinear(x, s)
  {
    var x := IdleDistance(idle, distance);
    OneFirst(x, s, Scale(if idle == 0 then Velocity else Distance, 0));
    LineFoundExactly(x, s, [1.0, 1.0], Shares(idle));
    assert Shares(idle)(Velocity) == 1.0;
    hide Collinear, OnLine;
    assert !AxisFair(x, s, [1.0, 1.0], Shares(idle), 1);
  }

  /**
   * Two inputs of which all that counts is on the line of (1, 1), and which are turned down. In the first the axis
   * whose distance does not count is the one that moves first; in the second it is the other one.
   */
  method IdleDistanceSpoils() returns (first: Answer, second: Answer)
    ensures OnLine(IdleDistance(0, 0.0), [1.0, 1.0], Shares(0)) && first == No
    ensures OnLine(IdleDistance(1, 5.0), [1.0, 1.0], Shares(1)) && second == No
  {
    first := TurnedDown(0, 0.0);
    second := TurnedDown(1, 5.0);
  }

  method TurnedDown(idle: nat, distance: real) returns (answer: Answer)
    requires (idle == 0 && distance == 0.0) || (idle == 1 && distance == 5.0)
    ensures OnLine(IdleDistance(idle, distance), [1.0, 1.0], Shares(idle)) && answer == No
  {
    var x := IdleDistance(idle, distance);
    assert ScaleOk(x, Scale(Velocity, 0)) && !Still(x, 0) by {
      assert Counts(x, Velocity, 0) && Entry(x, Velocity, 0) == 1.0;
    }
    hide Collinear, OnLine, IdleDistance, ScaleOk, IsFirst;
    ghost var s;
    answer, s := IsInputCollinear(x, true, 0, Finite(1.0), 1.0, -1.0);
    IdleDistanceUnfair(idle, distance, s.value);
  }

  lemma Proportion(x: real, y: real, z: real)
    requires z != 0.0
    ensures x * y / z == Mul(x, y / z)
  {
    var q := y / z;
    QuotientTimes(y, z, q);
    assert x * q * z == x * y;
    QuotientTimes(x * y, z, x * y / z);
    Cancel(z, x * y / z, x * q);
  }

  // ---------------------------------------------------------------- moving in proportion

  /** `k'` is as far from its start as `k` is from its own, `ratio` times, with everything else in proportion. */
  predicate InProportion(k: Knot, p0: real, k': Knot, p0': real, ratio: real) {
    k'.p - p0' == Mul(ratio, k.p - p0) && k'.v == Mul(ratio, k.v) && k'.a == Mul(ratio, k.a)
  }

  lemma StaysInProportion(k: Knot, p0: real, k': Knot, p0': real, ratio: real, j: real, t: real)
    requires InProportion(k, p0, k', p0', ratio)
    ensures InProportion(Integrate(k, j, t), p0, Integrate(k', Mul(ratio, j), t), p0', ratio)
  {
    Parts(k, j, t);
    Parts(k', Mul(ratio, j), t);
    ScaledAcceleration(ratio, k.a, j, t);
    ScaledVelocity(ratio, k.a, j, t);
    ScaledGround(ratio, k.v, k.a, j, t);
    hide Integrate, After, Rise, Ground, Mul;
    ScaledSum(ratio, k.v, Rise(k.a, j, t));
    ScaledSum(ratio, k.p - p0, Ground(k.v, k.a, j, t));
    assert Integrate(k, j, t).p - p0 == k.p - p0 + Ground(k.v, k.a, j, t);
  }

  lemma Parts(k: Knot, j: real, t: real)
    ensures var next := Integrate(k, j, t);
      next.p == k.p + Ground(k.v, k.a, j, t) && next.v == k.v + Rise(k.a, j, t) && next.a == After(k.a, j, t)
  {}

  lemma ScaledAcceleration(r: real, a: real, j: real, t: real)
    ensures After(Mul(r, a), Mul(r, j), t) == Mul(r, After(a, j, t))
  {}

  lemma ScaledVelocity(r: real, a: real, j: real, t: real)
    ensures Rise(Mul(r, a), Mul(r, j), t) == Mul(r, Rise(a, j, t))
  {}

  lemma ScaledGround(r: real, v: real, a: real, j: real, t: real)
    ensures Ground(Mul(r, v), Mul(r, a), Mul(r, j), t) == Mul(r, Ground(v, a, j, t))
  {}

  lemma ScaledSum(r: real, x: real, y: real)
    ensures Mul(r, x) + Mul(r, y) == Mul(r, x + y)
  {}

  // ---------------------------------------------------------------- the profiles made

  predicate Plain(how: Instance) {
    !how.setLimits && (how.limits == NONE || how.limits == ACC0 || how.limits == ACC1)
  }

  lemma {:induction false} KnotsInProportion(s: Knot, s': Knot, t: seq<real>, j: seq<real>, j': seq<real>,
                                             how: Instance, how': Instance, ratio: real, i: nat)
    requires |t| == |j| == |j'| && i <= |t| && Plain(how) && Plain(how') && InProportion(s, s.p, s', s'.p, ratio)
    requires forall k :: 0 <= k < |j| ==> j'[k] == Mul(ratio, j[k])
    ensures InProportion(KnotAt(s, t, j, how, i), s.p, KnotAt(s', t, j', how', i), s'.p, ratio)
    decreases i
  {
    hide InProportion, Integrate, Mul;
    if i > 0 {
      KnotsInProportion(s, s', t, j, j', how, how', ratio, i - 1);
      StaysInProportion(KnotAt(s, t, j, how, i - 1), s.p, KnotAt(s', t, j', how', i - 1), s'.p, ratio, j[i - 1],
                        t[i - 1]);
    }
  }

  lemma JerksInProportion(signs: ControlSigns, t: seq<real>, jf: real, ratio: real)
    requires |t| == 7
    ensures forall k :: 0 <= k < 7 ==>
      ThirdOrderPattern(signs, t, Mul(ratio, jf))[k] == Mul(ratio, ThirdOrderPattern(signs, t, jf)[k])
  {}

  lemma KnotInProportion(plan: Plan, plan': Plan, jf: real, ratio: real, how: Instance, how': Instance,
                         velocity: Band, velocity': Band, acceleration: Band, acceleration': Band, i: nat)
    requires Accepted(plan, jf, how, velocity, acceleration) &&
             Accepted(plan', Mul(ratio, jf), how', velocity', acceleration')
    requires plan'.t == plan.t && plan'.signs == plan.signs && i <= 7
    requires InProportion(KnotOf(plan, 0), plan.p[0], KnotOf(plan', 0), plan'.p[0], ratio)
    ensures InProportion(KnotOf(plan, i), plan.p[0], KnotOf(plan', i), plan'.p[0], ratio)
    ensures i < 7 ==> plan'.j[i] == Mul(ratio, plan.j[i])
  {
    JerksInProportion(plan.signs, plan.t, jf, ratio);
    hide InProportion, Mul, ThirdOrderPattern, Integrated3, ThirdOrderAccepts, Timed;
    AcceptedKnots(plan, jf, how, velocity, acceleration, i);
    AcceptedKnots(plan', Mul(ratio, jf), how', velocity', acceleration', i);
    KnotsInProportion(KnotOf(plan, 0), KnotOf(plan', 0), plan.t, plan.j, plan'.j, how, how', ratio, i);
  }

  /**
   * An axis that copies the times of the limiting one, with its control and its start in proportion, is in
   * proportion to it at every time: both move along the same straight line.
   */
  lemma StraightLine(plan: Plan, plan': Plan, jf: real, ratio: real, how: Instance, how': Instance,
                     velocity: Band, velocity': Band, acceleration: Band, acceleration': Band,
                     time: real, k: Knot, k': Knot)
    requires Accepted(plan, jf, how, velocity, acceleration) &&
             Accepted(plan', Mul(ratio, jf), how', velocity', acceleration')
    requires plan'.t == plan.t && plan'.signs == plan.signs
    requires InProportion(KnotOf(plan, 0), plan.p[0], KnotOf(plan', 0), plan'.p[0], ratio)
    requires time >= 0.0 && IsSample(plan, time, k) && IsSample(plan', time, k')
    ensures InProportion(k, plan.p[0], k', plan'.p[0], ratio)
  {
    assert PlanSized(plan) && PlanSized(plan');
    hide Accepted, InProportion, Mul, Integrate, Abs, IsSample;
    SameEnds(plan, plan', jf, Mul(ratio, jf), how, how', velocity, velocity', acceleration, acceleration');
    AcceptedIsChained(plan, jf, how, velocity, acceleration, Abs(jf));
    forall i | 0 <= i <= 7 ensures KnotFollows(plan, plan', ratio, i) {
      KnotInProportion(plan, plan', jf, ratio, how, how', velocity, velocity', acceleration, acceleration', i);
    }
    SamplesFollow(plan, plan', ratio, Abs(jf), time, k, k');
  }

  predicate KnotFollows(plan: Plan, plan': Plan, ratio: real, i: nat)
    requires PlanSized(plan) && PlanSized(plan') && i <= 7
  {
    && InProportion(KnotOf(plan, i), plan.p[0], KnotOf(plan', i), plan'.p[0], ratio)
    && (i < 7 ==> plan'.j[i] == Mul(ratio, plan.j[i]))
  }

  /** Between knots in proportion the samples are. */
  lemma SamplesFollow(plan: Plan, plan': Plan, ratio: real, jerk: real, time: real, k: Knot, k': Knot)
    requires Chained(plan, jerk) && PlanSized(plan') && plan'.tSum == plan.tSum
    requires forall i :: 0 <= i <= 7 ==> KnotFollows(plan, plan', ratio, i)
    requires time >= 0.0 && IsSample(plan, time, k) && IsSample(plan', time, k')
    ensures InProportion(k, plan.p[0], k', plan'.p[0], ratio)
  {
    assert PlanSized(plan);
    hide InProportion, Mul, Integrate, Chained;
    if time >= plan.tSum[6] {
      assert KnotFollows(plan, plan', ratio, 7);
      NoJerk(ratio);
      StaysInProportion(KnotOf(plan, 7), plan.p[0], KnotOf(plan', 7), plan'.p[0], ratio, 0.0, time - plan.tSum[6]);
    } else {
      var i: nat :| SampleIn(plan, time, k, i);
      var m: nat :| SampleIn(plan', time, k', m);
      SampleBegins(plan, jerk, time, k, i);
      SameSegment(plan, jerk, time, i, m);
      assert KnotFollows(plan, plan', ratio, i);
      StaysInProportion(KnotOf(plan, i), plan.p[0], KnotOf(plan', i), plan'.p[0], ratio, plan.j[i],
                        time - Begin(plan.tSum, i));
    }
  }

  lemma NoJerk(ratio: real)
    ensures Mul(ratio, 0.0) == 0.0
  {}

  lemma SameSums(t: seq<real>, tSum: seq<real>, tSum': seq<real>)
    requires |t| == 7 && |tSum| == 7 && |tSum'| == 7 && Timed(t, tSum) && Timed(t, tSum')
    ensures tSum == tSum'
  {
    hide TimeAt;
  }

  lemma SampleBegins(plan: Plan, jerk: real, time: real, k: Knot, i: nat)
    requires Chained(plan, jerk) && SampleIn(plan, time, k, i) && time >= 0.0
    ensures Begin(plan.tSum, i) <= time
  {
    hide Integrate;
  }

  lemma AcceptedKnots(plan: Plan, jf: real, how: Instance, velocity: Band, acceleration: Band, i: nat)
    requires Accepted(plan, jf, how, velocity, acceleration) && i <= 7
    ensures Plain(how) && KnotOf(plan, i) == KnotAt(KnotOf(plan, 0), plan.t, plan.j, how, i)
  {
    hide KnotAt, ThirdOrderAccepts, Timed;
  }

  /** So an axis of a collinear input arrives as exactly as the limiting one does, in proportion. */
  lemma ArrivesInProportion(plan: Plan, plan': Plan, jf: real, ratio: real, how: Instance, how': Instance,
                            velocity: Band, velocity': Band, acceleration: Band, acceleration': Band)
    requires Accepted(plan, jf, how, velocity, acceleration) &&
             Accepted(plan', Mul(ratio, jf), how', velocity', acceleration')
    requires plan'.t == plan.t && plan'.signs == plan.signs
    requires InProportion(KnotOf(plan, 0), plan.p[0], KnotOf(plan', 0), plan'.p[0], ratio)
    requires plan'.pf - plan'.p[0] == Mul(ratio, plan.pf - plan.p[0])
    ensures plan'.p[7] - plan'.pf == Mul(ratio, plan.p[7] - plan.pf)
  {
    NoTimeAtAll(KnotOf(plan, 7), 0.0);
    NoTimeAtAll(KnotOf(plan', 7), 0.0);
    AcceptedEnds(plan, jf, how, velocity, acceleration);
    SameEnds(plan, plan', jf, Mul(ratio, jf), how, how', velocity, velocity', acceleration, acceleration');
    var time := plan.tSum[6];
    assert IsSample(plan, time, KnotOf(plan, 7)) && IsSample(plan', time, KnotOf(plan', 7));
    hide Accepted;
    StraightLine(plan, plan', jf, ratio, how, how', velocity, velocity', acceleration, acceleration', time,
                 KnotOf(plan, 7), KnotOf(plan', 7));
    DifferenceInProportion(ratio, plan.p[7], plan.pf, plan.p[0]);
  }

  lemma SameEnds(plan: Plan, plan': Plan, jf: real, jf': real, how: Instance, how': Instance,
                 velocity: Band, velocity': Band, acceleration: Band, acceleration': Band)
    requires Accepted(plan, jf, how, velocity, acceleration) && Accepted(plan', jf', how', velocity', acceleration')
    requires plan'.t == plan.t
    ensures plan'.tSum == plan.tSum
  {
    hide Integrated3, ThirdOrderAccepts, ThirdOrderPattern;
    SameSums(plan.t, plan.tSum, plan'.tSum);
  }

  lemma DifferenceInProportion(ratio: real, x: real, y: real, z: real)
    ensures Mul(ratio, x - z) - Mul(ratio, y - z) == Mul(ratio, x - y)
  {}

  // ---------------------------------------------------------------- from the input to the motion

  /** On axes that take part, every vector of a collinear input is in the proportion of the controls. */
  lemma InputInProportion(x: Task, s: Scale, limiting: nat, d: nat, c: Column)
    requires ScaleOk(x, s) && Collinear(x, s) && limiting < |x.pd| && d < |x.pd| && x.phase[limiting] && x.phase[d]
    requires Entry(x, s.c, limiting) != 0.0 && Counts(x, c, limiting) && Counts(x, c, d)
    ensures Entry(x, c, d) == Mul(Ratio(x, s, limiting, d), Entry(x, c, limiting))
  {
    hide Entry, Counts, Mul;
    assert AxisOnScale(x, s, limiting) && OnScale(x, s, c, limiting);
    assert AxisOnScale(x, s, d) && OnScale(x, s, c, d);
    ThroughScale(Share(x, s, c), Entry(x, s.c, d), Entry(x, s.c, limiting));
  }

  lemma ThroughScale(share: real, y: real, z: real)
    requires z != 0.0
    ensures Mul(share, y) == Mul(y / z, Mul(share, z))
  {
    var q := y / z;
    QuotientTimes(y, z, q);
    assert q * (share * z) == share * (q * z);
  }

  /**
   * The profile of an axis that is synchronised by phase: the times and the pattern of the limiting axis under
   * its own control, if that does not exceed its jerk and the check accepts.
   */
  method PhaseProfile(p: Profile, limiting: Plan, control: real, vMax: real, vMin: real, aMax: real, aMin: real,
                      jMax: real)
    returns (ok: bool)
    requires p.Sized() && |limiting.t| == 7
    modifies p
    ensures p.Sized() && p.Start() == old(p.Start()) && p.pf == old(p.pf) && p.vf == old(p.vf) && p.af == old(p.af)
    ensures ok <==>
      && Abs(control) < Abs(jMax) + J_EPS
      && ThirdOrderAccepts(limiting.t, ThirdOrderPattern(limiting.signs, limiting.t, control), old(p.Start()),
                           old(p.pf), old(p.vf), old(p.af), Instance(NONE, false, aMax, aMin), VelocityBand(vMax, vMin),
                           AccelerationBand(vMax, aMax, aMin))
    ensures ok ==>
      && Accepted(p.Value(), control, Instance(NONE, false, aMax, aMin), VelocityBand(vMax, vMin),
                  AccelerationBand(vMax, aMax, aMin))
      && p.t == limiting.t && p.signs == limiting.signs && p.limits == limiting.limits
      && Abs(control) < Abs(jMax) + J_EPS
  {
    p.t := limiting.t;
    p.signs := limiting.signs;
    ok := false;
    if Abs(control) < Abs(jMax) + J_EPS {
      hide Accepted, VelocityBand, AccelerationBand, Abs, ThirdOrderAccepts, ThirdOrderPattern;
      ok := CheckedProfile(p, limiting.signs, NONE, control, vMax, vMin, aMax, aMin);
      ghost var plan := p.Value();
      p.limits := limiting.limits;
      if ok {
        LimitsDoNotMatter(plan, limiting.limits, control, Instance(NONE, false, aMax, aMin), VelocityBand(vMax, vMin),
                          AccelerationBand(vMax, aMax, aMin));
      }
    }
  }

  lemma LimitsDoNotMatter(plan: Plan, limits: ReachedLimits, jf: real, how: Instance, velocity: Band,
                          acceleration: Band)
    requires Accepted(plan, jf, how, velocity, acceleration)
    ensures Accepted(plan.(limits := limits), jf, how, velocity, acceleration)
  {
    hide Integrated3, ThirdOrderAccepts, ThirdOrderPattern, Timed;
  }

  /**
   * Altogether: for a collinear input, an axis with the times of the limiting one and the control computed for
   * it is in proportion to the limiting axis at every time, and misses its target in the same proportion.
   */
  lemma PhaseMotion(x: Task, s: Scale, limiting: nat, d: nat, plan: Plan, plan': Plan, jf: real,
                    how: Instance, how': Instance, velocity: Band, velocity': Band,
                    acceleration: Band, acceleration': Band, time: real, k: Knot, k': Knot)
    requires ScaleOk(x, s) && Collinear(x, s) && limiting < |x.pd| && d < |x.pd| && x.phase[limiting] && x.phase[d]
    requires Entry(x, s.c, limiting) != 0.0 && x.position[limiting] && x.position[d]
    requires Accepted(plan, jf, how, velocity, acceleration)
    requires Accepted(plan', Mul(jf, Ratio(x, s, limiting, d)), how', velocity', acceleration')
    requires plan'.t == plan.t && plan'.signs == plan.signs
    requires plan.v[0] == x.v0[limiting] && plan.a[0] == x.a0[limiting] && plan.pf - plan.p[0] == x.pd[limiting]
    requires plan'.v[0] == x.v0[d] && plan'.a[0] == x.a0[d] && plan'.pf - plan'.p[0] == x.pd[d]
    requires time >= 0.0 && IsSample(plan, time, k) && IsSample(plan', time, k')
    ensures InProportion(k, plan.p[0], k', plan'.p[0], Ratio(x, s, limiting, d))
    ensures plan'.p[7] - plan'.pf == Mul(Ratio(x, s, limiting, d), plan.p[7] - plan.pf)
  {
    assert PlanSized(plan) && PlanSized(plan');
    hide Accepted, Collinear, ScaleOk, Mul, InProportion, IsSample;
    var ratio := Ratio(x, s, limiting, d);
    StartsInProportion(x, s, limiting, d, plan, plan');
    MulCommutes(jf, ratio);
    hide Ratio;
    StraightLine(plan, plan', jf, ratio, how, how', velocity, velocity', acceleration, acceleration', time, k, k');
    ArrivesInProportion(plan, plan', jf, ratio, how, how', velocity, velocity', acceleration, acceleration');
  }

  lemma StartsInProportion(x: Task, s: Scale, limiting: nat, d: nat, plan: Plan, plan': Plan)
    requires ScaleOk(x, s) && Collinear(x, s) && limiting < |x.pd| && d < |x.pd| && x.phase[limiting] && x.phase[d]
    requires Entry(x, s.c, limiting) != 0.0 && x.position[limiting] && x.position[d] && PlanSized(plan) &&
             PlanSized(plan')
    requires plan.v[0] == x.v0[limiting] && plan.a[0] == x.a0[limiting] && plan.pf - plan.p[0] == x.pd[limiting]
    requires plan'.v[0] == x.v0[d] && plan'.a[0] == x.a0[d] && plan'.pf - plan'.p[0] == x.pd[d]
    ensures InProportion(KnotOf(plan, 0), plan.p[0], KnotOf(plan', 0), plan'.p[0], Ratio(x, s, limiting, d))
    ensures plan'.pf - plan'.p[0] == Mul(Ratio(x, s, limiting, d), plan.pf - plan.p[0])
  {
    InputInProportion(x, s, limiting, d, Velocity);
    InputInProportion(x, s, limiting, d, Acceleration);
    InputInProportion(x, s, limiting, d, Distance);
    hide Collinear, Ratio, Mul;
    NoJerk(Ratio(x, s, limiting, d));
  }
}
