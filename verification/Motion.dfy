/**
 * The whole motion of an axis, brake and profile, as trajectory.hpp samples it: one continuous motion whose
 * jerk stays within its limit, from the state at the start to the target.
 */
module Motion {
  import opened Brake
  import opened Kinematics
  import opened Profiles
  import opened RealArithmetic
  import opened Trajectory

  // ---------------------------------------------------------------- motions under bounded jerk

  datatype Piece = Piece(dt: real, j: real)

  /** Where the pieces lead from `k`, one after the other. */
  function Flow(k: Knot, w: seq<Piece>): Knot {
    if w == [] then k else Integrate(Flow(k, w[..|w| - 1]), w[|w| - 1].j, w[|w| - 1].dt)
  }

  function Length(w: seq<Piece>): real {
    if w == [] then 0.0 else Length(w[..|w| - 1]) + w[|w| - 1].dt
  }

  predicate Bounded(w: seq<Piece>, jerk: real) {
    forall i :: 0 <= i < |w| ==> w[i].dt >= 0.0 && -jerk <= w[i].j <= jerk
  }

  predicate Traces(w: seq<Piece>, k: Knot, k': Knot, dt: real, jerk: real) {
    Bounded(w, jerk) && Length(w) == dt && Flow(k, w) == k'
  }

  /** Some motion with jerks of at most `jerk` leads from `k` to `k'` in `dt`. */
  ghost predicate Reaches(k: Knot, k': Knot, dt: real, jerk: real) {
    exists w :: Traces(w, k, k', dt, jerk)
  }

  lemma {:induction false} FlowAppend(k: Knot, w: seq<Piece>, w': seq<Piece>)
    ensures Flow(k, w + w') == Flow(Flow(k, w), w') && Length(w + w') == Length(w) + Length(w')
    decreases w'
  {
    hide Integrate;
    if w' == [] {
      assert w + w' == w;
    } else {
      var n := |w'| - 1;
      FlowAppend(k, w, w'[..n]);
      assert (w + w')[..|w + w'| - 1] == w + w'[..n];
    }
  }

  lemma ReachesOn(k: Knot, k': Knot, k'': Knot, dt: real, dt': real, jerk: real)
    requires Reaches(k, k', dt, jerk) && Reaches(k', k'', dt', jerk)
    ensures Reaches(k, k'', dt + dt', jerk)
  {
    var w :| Traces(w, k, k', dt, jerk);
    var w' :| Traces(w', k', k'', dt', jerk);
    FlowAppend(k, w, w');
    assert Traces(w + w', k, k'', dt + dt', jerk);
  }

  lemma ReachesBy(k: Knot, j: real, dt: real, jerk: real)
    requires dt >= 0.0 && -jerk <= j <= jerk
    ensures Reaches(k, Integrate(k, j, dt), dt, jerk)
  {
    hide Integrate;
    var w := [Piece(dt, j)];
    assert w[..0] == [] && Flow(k, w[..0]) == k && Length(w[..0]) == 0.0;
    assert Traces(w, k, Integrate(k, j, dt), dt, jerk);
  }

  /** The acceleration changes no faster than the jerk allows. */
  lemma {:induction false} AccelerationIsSteady(k: Knot, w: seq<Piece>, jerk: real)
    requires Bounded(w, jerk)
    ensures Length(w) >= 0.0
    ensures -Mul(Length(w), jerk) <= Flow(k, w).a - k.a <= Mul(Length(w), jerk)
    decreases w
  {
    NoLength(jerk);
    hide Integrate, After, Mul;
    if w != [] {
      var n := |w| - 1;
      AccelerationIsSteady(k, w[..n], jerk);
      AccelerationAfter(Flow(k, w[..n]), w[n].j, w[n].dt);
      SteadyStep(Flow(k, w[..n]).a, k.a, Length(w[..n]), w[n].dt, w[n].j, jerk);
    }
  }

  lemma NoLength(jerk: real)
    ensures Mul(0.0, jerk) == 0.0
  {}

  lemma AccelerationAfter(k: Knot, j: real, dt: real)
    ensures Integrate(k, j, dt).a == After(k.a, j, dt)
  {}

  lemma SteadyStep(a: real, a0: real, length: real, dt: real, j: real, jerk: real)
    requires dt >= 0.0 && -jerk <= j <= jerk && -Mul(length, jerk) <= a - a0 <= Mul(length, jerk)
    ensures -Mul(length + dt, jerk) <= After(a, j, dt) - a0 <= Mul(length + dt, jerk)
  {
    TimesOrder(-jerk, j, dt);
    TimesOrder(j, jerk, dt);
    assert (length + dt) * jerk == length * jerk + dt * jerk && dt * -jerk == -(dt * jerk);
  }

  /** A motion that takes no time goes nowhere. */
  lemma {:induction false} NoTimeNoMotion(k: Knot, w: seq<Piece>, jerk: real)
    requires Bounded(w, jerk) && Length(w) <= 0.0
    ensures Flow(k, w) == k
    decreases w
  {
    hide Integrate;
    if w != [] {
      var n := |w| - 1;
      LengthNonNegative(w[..n], jerk);
      NoTimeNoMotion(k, w[..n], jerk);
      NoTimeAtAll(k, w[n].j);
    }
  }

  lemma {:induction false} LengthNonNegative(w: seq<Piece>, jerk: real)
    requires Bounded(w, jerk)
    ensures Length(w) >= 0.0
    decreases w
  {
    if w != [] {
      LengthNonNegative(w[..|w| - 1], jerk);
    }
  }

  /** Going on with the same jerk: first for `s`, then for the rest. */
  lemma IntegrateOn(k: Knot, j: real, s: real, t: real)
    ensures Integrate(Integrate(k, j, s), j, t) == Integrate(k, j, s + t)
  {
    RiseOfSum(k.a, j, s, t);
    var v, a := k.v, k.a;
    PositionOfSum(v, a, j, s, t);
  }

  function Ground(v: real, a: real, j: real, t: real): real {
    t * (v + t * (a / 2.0 + t * j / 6.0))
  }

  lemma PositionOfSum(v: real, a: real, j: real, s: real, t: real)
    ensures Ground(v, a, j, s + t) == Ground(v, a, j, s) + Ground(v + Rise(a, j, s), After(a, j, s), j, t)
  {
    GroundOfSum(v, a, j, s, t);
    GroundAfter(v, a, j, s, t);
  }

  lemma GroundOfSum(v: real, a: real, j: real, s: real, t: real)
    ensures Ground(v, a, j, s + t) == (s + t) * v + (s * s + 2.0 * (s * t) + t * t) * a / 2.0
      + (s * s * s + 3.0 * (s * s * t) + 3.0 * (s * t * t) + t * t * t) * j / 6.0
  {}

  lemma GroundAfter(v: real, a: real, j: real, s: real, t: real)
    ensures Ground(v, a, j, s) == s * v + s * s * a / 2.0 + s * s * s * j / 6.0
    ensures Ground(v + Rise(a, j, s), After(a, j, s), j, t)
      == t * v + s * t * a + s * s * t * j / 2.0 + t * t * a / 2.0 + s * t * t * j / 2.0 + t * t * t * j / 6.0
  {}

  // ---------------------------------------------------------------- along a profile

  /** Every segment leads from one knot to the next, with a bounded jerk. */
  predicate Step(plan: Plan, jerk: real, i: nat)
    requires PlanSized(plan) && i < 7
  {
    && plan.t[i] >= 0.0 && -jerk <= plan.j[i] <= jerk
    && Integrate(KnotOf(plan, i), plan.j[i], plan.t[i]) == KnotOf(plan, i + 1)
    && Begin(plan.tSum, i + 1) == Begin(plan.tSum, i) + plan.t[i]
  }

  predicate Chained(plan: Plan, jerk: real) {
    PlanSized(plan) && jerk >= 0.0 && forall i :: 0 <= i < 7 ==> Step(plan, jerk, i)
  }

  lemma AcceptedIsChained(plan: Plan, jf: real, how: Instance, velocity: Band, acceleration: Band, jerk: real)
    requires Accepted(plan, jf, how, velocity, acceleration) && Abs(jf) <= jerk
    ensures Chained(plan, jerk)
  {
    forall i | 0 <= i < 7 ensures Step(plan, jerk, i) {
      SegmentStep(plan, jf, how, velocity, acceleration, i);
      SegmentEnds(plan.t, plan.tSum, i);
      hide Accepted, Integrate, ZeroCrossingOk;
    }
  }

  lemma SegmentEnds(t: seq<real>, tSum: seq<real>, i: nat)
    requires |t| == 7 && |tSum| == 7 && Timed(t, tSum) && i < 7
    ensures Begin(tSum, i + 1) == Begin(tSum, i) + t[i]
  {
    TimeStep(t, i);
    TimeStart(t);
    assert tSum[i] == TimeAt(t, i + 1);
    assert i > 0 ==> tSum[i - 1] == TimeAt(t, i - 1 + 1);
  }

  lemma {:induction false} KnotsReach(plan: Plan, jerk: real, i: nat, m: nat)
    requires Chained(plan, jerk) && i <= m <= 7
    ensures Reaches(KnotOf(plan, i), KnotOf(plan, m), Begin(plan.tSum, m) - Begin(plan.tSum, i), jerk)
    ensures Begin(plan.tSum, i) <= Begin(plan.tSum, m)
    decreases m
  {
    hide Integrate, Reaches;
    if i == m {
      StaysPut(KnotOf(plan, i), jerk);
    } else {
      KnotsReach(plan, jerk, i, m - 1);
      assert Step(plan, jerk, m - 1);
      ReachesBy(KnotOf(plan, m - 1), plan.j[m - 1], plan.t[m - 1], jerk);
      ReachesOn(KnotOf(plan, i), KnotOf(plan, m - 1), KnotOf(plan, m),
                Begin(plan.tSum, m - 1) - Begin(plan.tSum, i), plan.t[m - 1], jerk);
    }
  }

  lemma StaysPut(k: Knot, jerk: real)
    ensures Reaches(k, k, 0.0, jerk)
  {
    assert Traces([], k, k, 0.0, jerk);
  }

  /** From a knot to any later sample. */
  lemma KnotToSample(plan: Plan, jerk: real, n: nat, time: real, k: Knot)
    requires Chained(plan, jerk) && n <= 7 && Begin(plan.tSum, n) <= time && IsSample(plan, time, k)
    ensures Reaches(KnotOf(plan, n), k, time - Begin(plan.tSum, n), jerk)
  {
    hide Integrate, Reaches, Step;
    if time >= plan.tSum[6] {
      KnotsReach(plan, jerk, n, 7);
      ReachesBy(KnotOf(plan, 7), 0.0, time - plan.tSum[6], jerk);
      ReachesOn(KnotOf(plan, n), KnotOf(plan, 7), k, plan.tSum[6] - Begin(plan.tSum, n), time - plan.tSum[6], jerk);
    } else {
      var i: nat :| SampleIn(plan, time, k, i);
      KnotsReach(plan, jerk, 0, n);
      if n > i {
        KnotsReach(plan, jerk, i + 1, n);
      } else {
        KnotsReach(plan, jerk, n, i);
        JerkInStep(plan, jerk, i);
        ReachesBy(KnotOf(plan, i), plan.j[i], time - Begin(plan.tSum, i), jerk);
        ReachesOn(KnotOf(plan, n), KnotOf(plan, i), k,
                  Begin(plan.tSum, i) - Begin(plan.tSum, n), time - Begin(plan.tSum, i), jerk);
      }
    }
  }

  lemma JerkInStep(plan: Plan, jerk: real, i: nat)
    requires Chained(plan, jerk) && i < 7
    ensures -jerk <= plan.j[i] <= jerk
  {
    hide Integrate;
    assert Step(plan, jerk, i);
  }

  /** From a sample to any later time in its own segment, and so to the next knot. */
  lemma InOneSegment(plan: Plan, jerk: real, i: nat, time: real, time': real)
    requires Chained(plan, jerk) && i < 7 && Begin(plan.tSum, i) <= time <= time'
    ensures var k := KnotOf(plan, i);
      Reaches(Integrate(k, plan.j[i], time - Begin(plan.tSum, i)), Integrate(k, plan.j[i], time' - Begin(plan.tSum, i)),
              time' - time, jerk)
  {
    hide Integrate, Reaches, Step;
    var begin, k, j := Begin(plan.tSum, i), KnotOf(plan, i), plan.j[i];
    JerkInStep(plan, jerk, i);
    IntegrateOn(k, j, time - begin, time' - time);
    ReachesBy(Integrate(k, j, time - begin), j, time' - time, jerk);
    assert time - begin + (time' - time) == time' - begin;
  }

  lemma SampleToKnot(plan: Plan, jerk: real, time: real, k: Knot, i: nat)
    requires Chained(plan, jerk) && SampleIn(plan, time, k, i) && time >= 0.0
    ensures Begin(plan.tSum, i + 1) == plan.tSum[i]
    ensures Reaches(k, KnotOf(plan, i + 1), Begin(plan.tSum, i + 1) - time, jerk)
  {
    hide Integrate, Reaches;
    assert Step(plan, jerk, i);
    InOneSegment(plan, jerk, i, time, Begin(plan.tSum, i + 1));
  }

  /** Any two samples of a profile are connected by a motion that takes the time between them. */
  lemma ProfileMotion(plan: Plan, jerk: real, time: real, time': real, k: Knot, k': Knot)
    requires Chained(plan, jerk) && 0.0 <= time <= time' && IsSample(plan, time, k) && IsSample(plan, time', k')
    ensures Reaches(k, k', time' - time, jerk)
  {
    hide Integrate, Reaches, Step;
    if time >= plan.tSum[6] {
      var end := plan.tSum[6];
      IntegrateOn(KnotOf(plan, 7), 0.0, time - end, time' - time);
      ReachesBy(k, 0.0, time' - time, jerk);
      assert time - end + (time' - time) == time' - end;
    } else {
      var i: nat :| SampleIn(plan, time, k, i);
      KnotsReach(plan, jerk, i + 1, 7);
      KnotsReach(plan, jerk, 0, i);
      if time' < plan.tSum[i] {
        var m: nat :| SampleIn(plan, time', k', m);
        SameSegment(plan, jerk, time', i, m);
        InOneSegment(plan, jerk, i, time, time');
      } else {
        SampleToKnot(plan, jerk, time, k, i);
        KnotToSample(plan, jerk, i + 1, time', k');
        ReachesOn(k, KnotOf(plan, i + 1), k', Begin(plan.tSum, i + 1) - time, time' - Begin(plan.tSum, i + 1), jerk);
      }
    }
  }

  lemma SameSegment(plan: Plan, jerk: real, time: real, i: nat, m: nat)
    requires Chained(plan, jerk) && i < 7 && Begin(plan.tSum, i) <= time < plan.tSum[i] && InSegment(plan.tSum, time, m)
    requires time >= 0.0
    ensures i == m
  {
    hide Reaches, Integrate, Step;
    if i < m {
      KnotsReach(plan, jerk, i + 1, m);
    } else if m < i {
      KnotsReach(plan, jerk, m + 1, i);
    }
  }

  // ---------------------------------------------------------------- the whole of an axis

  /** What is sampled for one axis: the brake before the profile, and the profile. */
  datatype Axis = Axis(brake: BrakePlan, plan: Plan)

  predicate AxisSized(x: Axis) {
    && |x.brake.t| == 2 && |x.brake.j| == 2 && |x.brake.a| == 2 && |x.brake.v| == 2 && |x.brake.p| == 2
    && x.brake.duration >= 0.0 && PlanSized(x.plan) && x.plan.tSum[6] >= 0.0
  }

  function Lasts(x: Axis): real
    requires AxisSized(x)
  {
    x.brake.duration + x.plan.tSum[6]
  }

  function BrakeKnot(x: Axis, i: nat): Knot
    requires AxisSized(x) && i < 2
  {
    Knot(x.brake.p[i], x.brake.v[i], x.brake.a[i])
  }

  /** The state of an axis at a time of the trajectory. */
  ghost predicate IsState(x: Axis, time: real, k: Knot)
    requires AxisSized(x)
  {
    if time >= x.brake.duration then IsSample(x.plan, time - x.brake.duration, k)
    else if time < x.brake.t[0] then k == Integrate(BrakeKnot(x, 0), x.brake.j[0], time)
    else k == Integrate(BrakeKnot(x, 1), x.brake.j[1], time - x.brake.t[0])
  }

  ghost predicate IsAxisJerk(x: Axis, time: real, jerk: real)
    requires AxisSized(x)
  {
    if time >= x.brake.duration then IsJerk(x.plan, time - x.brake.duration, jerk)
    else jerk == if time < x.brake.t[0] then x.brake.j[0] else x.brake.j[1]
  }

  /** One axis before the end of the trajectory, which is not the end of every axis. */
  method AxisState(x: Axis, time: real) returns (k: Knot, jerk: real)
    requires AxisSized(x) && time >= 0.0
    ensures IsState(x, time, k) && IsAxisJerk(x, time, jerk)
  {
    var tDiff := time;
    if x.brake.duration > 0.0 {
      if tDiff < x.brake.duration {
        var index := if tDiff < x.brake.t[0] then 0 else 1;
        if index > 0 {
          tDiff := tDiff - x.brake.t[index - 1];
        }
        k, jerk := Integrate(BrakeKnot(x, index), x.brake.j[index], tDiff), x.brake.j[index];
        return;
      }
      tDiff := tDiff - x.brake.duration;
    }
    k, jerk := AtTime(x.plan, tDiff);
  }

  /** Past the end an axis goes on with its last acceleration. */
  function Afterwards(x: Axis, time: real): Knot
    requires AxisSized(x)
  {
    Integrate(KnotOf(x.plan, 7), 0.0, time - Lasts(x))
  }

  /** All axes of a trajectory with one section; past its end every axis keeps its last acceleration. */
  method StateToIntegrateFrom(axes: seq<Axis>, duration: real, time: real) returns (states: seq<Knot>, jerks: seq<real>)
    requires (forall d :: 0 <= d < |axes| ==> AxisSized(axes[d])) && time >= 0.0
    ensures |states| == |jerks| == |axes|
    ensures forall d :: 0 <= d < |axes| && (time < duration || Lasts(axes[d]) <= duration) ==>
      IsState(axes[d], time, states[d])
    ensures time >= duration ==> forall d :: 0 <= d < |axes| ==>
      states[d] == Afterwards(axes[d], time)
    ensures forall d :: 0 <= d < |axes| ==>
      if time >= duration then jerks[d] == 0.0 else IsAxisJerk(axes[d], time, jerks[d])
  {
    hide Integrate;
    states, jerks := [], [];
    for dof := 0 to |axes|
      invariant |states| == |jerks| == dof
      invariant forall d :: 0 <= d < dof && (time < duration || Lasts(axes[d]) <= duration) ==>
        IsState(axes[d], time, states[d])
      invariant time >= duration ==> forall d :: 0 <= d < dof ==>
        states[d] == Afterwards(axes[d], time)
      invariant forall d :: 0 <= d < dof ==>
        if time >= duration then jerks[d] == 0.0 else IsAxisJerk(axes[d], time, jerks[d])
    {
      var x, k, jerk := axes[dof], Knot(0.0, 0.0, 0.0), 0.0;
      if time >= duration {
        var tDiff := time - (x.brake.duration + x.plan.tSum[6]);
        k := Integrate(KnotOf(x.plan, 7), 0.0, tDiff);
        assert Lasts(x) <= duration ==> time - x.brake.duration - x.plan.tSum[6] == tDiff;
      } else {
        k, jerk := AxisState(x, time);
      }
      states, jerks := states + [k], jerks + [jerk];
    }
  }

  /** A brake from `s` to where an accepted profile starts. */
  ghost predicate Made(x: Axis, s: Knot, jf: real, how: Instance, velocity: Band, acceleration: Band, jerk: real) {
    && AxisSized(x) && Leads(x.brake, s, KnotOf(x.plan, 0))
    && x.brake.j[1] == 0.0 && -jerk <= x.brake.j[0] <= jerk
    && Accepted(x.plan, jf, how, velocity, acceleration) && Abs(jf) <= jerk
  }

  /** What the rest is about: the steps of the brake, then the segments of the profile. */
  ghost predicate Connected(x: Axis, s: Knot, jerk: real) {
    && AxisSized(x) && Leads(x.brake, s, KnotOf(x.plan, 0)) && Chained(x.plan, jerk)
    && x.brake.j[1] == 0.0 && -jerk <= x.brake.j[0] <= jerk
  }

  lemma MadeIsConnected(x: Axis, s: Knot, jf: real, how: Instance, velocity: Band, acceleration: Band, jerk: real)
    requires Made(x, s, jf, how, velocity, acceleration, jerk)
    ensures Connected(x, s, jerk)
  {
    hide Accepted, Leads, Chained;
    AcceptedIsChained(x.plan, jf, how, velocity, acceleration, jerk);
  }

  /** A step of the brake, from one of its times to a later one. */
  lemma InOneStep(k: Knot, j: real, s: real, t: real, jerk: real)
    requires 0.0 <= s <= t && -jerk <= j <= jerk
    ensures Reaches(Integrate(k, j, s), Integrate(k, j, t), t - s, jerk)
  {
    hide Integrate, Reaches;
    IntegrateOn(k, j, s, t - s);
    assert s + (t - s) == t;
    ReachesBy(Integrate(k, j, s), j, t - s, jerk);
  }

  /** Two times of the brake. */
  lemma BrakeMotion(x: Axis, s: Knot, jerk: real, time: real, time': real, k: Knot, k': Knot)
    requires Connected(x, s, jerk) && 0.0 <= time <= time' < x.brake.duration
    requires IsState(x, time, k) && IsState(x, time', k')
    ensures Reaches(k, k', time' - time, jerk)
  {
    hide Integrate, Reaches, Chained;
    var t0, j0, j1 := x.brake.t[0], x.brake.j[0], x.brake.j[1];
    var middle := Integrate(s, j0, t0);
    if time' < t0 {
      InOneStep(s, j0, time, time', jerk);
    } else if time >= t0 {
      InOneStep(middle, j1, time - t0, time' - t0, jerk);
    } else {
      InOneStep(s, j0, time, t0, jerk);
      ReachesBy(middle, j1, time' - t0, jerk);
      ReachesOn(k, middle, k', t0 - time, time' - t0, jerk);
    }
  }

  /** From the brake to the start of the profile. */
  lemma BrakeToProfile(x: Axis, s: Knot, jerk: real, time: real, k: Knot)
    requires Connected(x, s, jerk) && 0.0 <= time < x.brake.duration && IsState(x, time, k)
    ensures Reaches(k, KnotOf(x.plan, 0), x.brake.duration - time, jerk)
  {
    hide Integrate, Reaches, Chained;
    var t0, t1, j0, j1 := x.brake.t[0], x.brake.t[1], x.brake.j[0], x.brake.j[1];
    var middle := Integrate(s, j0, t0);
    if time >= t0 {
      InOneStep(middle, j1, time - t0, t1, jerk);
    } else {
      InOneStep(s, j0, time, t0, jerk);
      ReachesBy(middle, j1, t1, jerk);
      ReachesOn(k, middle, KnotOf(x.plan, 0), t0 - time, t1, jerk);
    }
  }

  /**
   * Any two states of an axis, wherever in brake or profile, are connected by a motion that takes exactly
   * the time between them under jerks within the limit.
   */
  lemma WholeMotion(x: Axis, s: Knot, jf: real, how: Instance, velocity: Band, acceleration: Band, jerk: real,
                    time: real, time': real, k: Knot, k': Knot)
    requires Made(x, s, jf, how, velocity, acceleration, jerk) && 0.0 <= time <= time'
    requires IsState(x, time, k) && IsState(x, time', k')
    ensures Reaches(k, k', time' - time, jerk)
  {
    MadeIsConnected(x, s, jf, how, velocity, acceleration, jerk);
    hide Made, Integrate, Reaches;
    var duration := x.brake.duration;
    if time' < duration {
      BrakeMotion(x, s, jerk, time, time', k, k');
    } else if time >= duration {
      ProfileMotion(x.plan, jerk, time - duration, time' - duration, k, k');
    } else {
      BrakeToProfile(x, s, jerk, time, k);
      KnotToSample(x.plan, jerk, 0, time' - duration, k');
      ReachesOn(k, KnotOf(x.plan, 0), k', duration - time, time' - duration, jerk);
    }
  }

  /** And every state is reached from the one at the start. */
  lemma FromTheStart(x: Axis, s: Knot, jf: real, how: Instance, velocity: Band, acceleration: Band, jerk: real,
                     time: real, k: Knot)
    requires Made(x, s, jf, how, velocity, acceleration, jerk) && time >= 0.0 && IsState(x, time, k)
    ensures Reaches(s, k, time, jerk)
  {
    MadeIsConnected(x, s, jf, how, velocity, acceleration, jerk);
    NoTimeAtAll(s, x.brake.j[0]);
    NoTimeAtAll(s, x.brake.j[1]);
    hide Made, Integrate, Reaches, Chained;
    var duration := x.brake.duration;
    if duration == 0.0 {
      KnotToSample(x.plan, jerk, 0, time, k);
    } else if time < duration {
      BrakeMotion(x, s, jerk, 0.0, time, s, k);
    } else {
      BrakeToProfile(x, s, jerk, 0.0, s);
      KnotToSample(x.plan, jerk, 0, time - duration, k);
      ReachesOn(s, KnotOf(x.plan, 0), k, duration, time - duration, jerk);
    }
  }

  /** So the acceleration never jumps: it changes by no more than the jerk allows. */
  lemma AccelerationNeverJumps(x: Axis, s: Knot, jf: real, how: Instance, velocity: Band, acceleration: Band,
                               jerk: real, time: real, time': real, k: Knot, k': Knot)
    requires Made(x, s, jf, how, velocity, acceleration, jerk) && 0.0 <= time <= time'
    requires IsState(x, time, k) && IsState(x, time', k')
    ensures Abs(k'.a - k.a) <= Mul(time' - time, jerk)
  {
    WholeMotion(x, s, jf, how, velocity, acceleration, jerk, time, time', k, k');
    hide Made, Mul;
    var w :| Traces(w, k, k', time' - time, jerk);
    AccelerationIsSteady(k, w, jerk);
  }

  /** The motion starts at the state given, */
  lemma StartsAtTheStart(x: Axis, s: Knot, jf: real, how: Instance, velocity: Band, acceleration: Band, jerk: real,
                         k: Knot)
    requires Made(x, s, jf, how, velocity, acceleration, jerk) && IsState(x, 0.0, k)
    ensures k == s
  {
    MadeIsConnected(x, s, jf, how, velocity, acceleration, jerk);
    hide Made, Integrate, Chained;
    NoTimeAtAll(s, x.brake.j[0]);
    NoTimeAtAll(s, x.brake.j[1]);
    if x.brake.duration == 0.0 {
      KnotToSample(x.plan, jerk, 0, 0.0, k);
      var w :| Traces(w, s, k, 0.0, jerk);
      NoTimeNoMotion(s, w, jerk);
    }
  }

  /** and ends, when the axis is done, on target. */
  lemma EndsOnTarget(x: Axis, s: Knot, jf: real, how: Instance, velocity: Band, acceleration: Band, jerk: real, k: Knot)
    requires Made(x, s, jf, how, velocity, acceleration, jerk) && IsState(x, Lasts(x), k)
    ensures AtTarget(k, x.plan.pf, x.plan.vf, x.plan.af)
  {
    var time := Lasts(x) - x.brake.duration;
    assert time == x.plan.tSum[6];
    NoTimeAtAll(KnotOf(x.plan, 7), 0.0);
    assert k == KnotOf(x.plan, 7);
    LastKnotOnTarget(x.plan, jf, how, velocity, acceleration);
  }

  lemma LastKnotOnTarget(plan: Plan, jf: real, how: Instance, velocity: Band, acceleration: Band)
    requires Accepted(plan, jf, how, velocity, acceleration)
    ensures AtTarget(KnotOf(plan, 7), plan.pf, plan.vf, plan.af)
  {
    hide KnotAt, CrossingsOk, LongEnough, Within3, Within4, AtTarget, TimeAt, Timed, NonNegative, ThirdOrderPattern;
    KnotsOf3(plan.t, plan.j, plan.a, plan.v, plan.p, how);
  }

  /**
   * While braking, the acceleration only moves from where it was to where the profile starts; from then on it
   * keeps its limits at every time.
   */
  lemma AccelerationAtAllTimes(x: Axis, s: Knot, jf: real, how: Instance, velocity: Band, acceleration: Band,
                               jerk: real, time: real, k: Knot)
    requires Made(x, s, jf, how, velocity, acceleration, jerk) && EndsInside(x.plan, velocity, acceleration)
    requires time >= 0.0 && IsState(x, time, k)
    ensures time >= x.brake.duration ==> Inside(k.a, acceleration, A_PRECISION - A_EPS)
    ensures time < x.brake.duration ==> Min(s.a, x.plan.a[0]) <= k.a <= Max(s.a, x.plan.a[0])
  {
    if time >= x.brake.duration {
      LimitsHoldAtAllTimes(x.plan, jf, how, velocity, acceleration, time - x.brake.duration, k);
    } else {
      hide Accepted, EndsInside;
      var t0, t1, j0 := x.brake.t[0], x.brake.t[1], x.brake.j[0];
      var middle := Integrate(s, j0, t0);
      NoPush(middle.a, t1);
      NoPush(middle.a, time - t0);
      AccelerationAfter(s, j0, t0);
      AccelerationAfter(s, j0, time);
      AccelerationAfter(middle, 0.0, t1);
      AccelerationAfter(middle, 0.0, time - t0);
      hide Integrate, After;
      if time < t0 {
        LinearBetween(s.a, j0, t0, time, Min(s.a, middle.a), Max(s.a, middle.a));
      }
    }
  }

  /**
   * What the calculator does for an axis, with the times of the profile given: brake, go on from the state the
   * brake leaves, and check the profile, upwards or with exchanged limits downwards.
   */
  method BrakeAndCheck(sqrt: real -> real, brake: BrakeProfile, p: Profile, vMax: real, vMin: real, aMax: real,
                       aMin: real, jMax: real, signs: ControlSigns, limits: ReachedLimits,
                       down: bool) returns (ok: bool)
    requires brake.Sized() && p.Sized() && IsSqrt(sqrt) && Limits(vMax, vMin, aMax, aMin, jMax)
    requires limits == NONE || limits == ACC0 || limits == ACC1
    modifies brake, p
    ensures p.Sized() && aMin <= p.a[0] <= aMax && p.pf == old(p.pf) && p.vf == old(p.vf) && p.af == old(p.af)
    ensures p.brakeDuration == brake.duration && p.t == old(p.t)
    ensures brake.Sized() && Leads(brake.Value(), old(p.Start()), p.Start())
    ensures Braked(old(p.v[0]), old(p.a[0]), p.v[0], p.a[0], vMax, vMin, aMax, aMin, jMax, brake.j[0], brake.t[1])
    ensures ok <==>
      ThirdOrderAccepts(p.t, ThirdOrderPattern(signs, p.t, if down then -jMax else jMax), p.Start(), p.pf, p.vf, p.af,
                        Called(limits, aMax, aMin, down),
                        if down then VelocityBand(vMin, vMax) else VelocityBand(vMax, vMin),
                        if down then AccelerationBand(vMin, aMin, aMax) else AccelerationBand(vMax, aMax, aMin))
    ensures ok ==>
      var x, how := Axis(brake.Value(), p.Value()), Called(limits, aMax, aMin, down);
      Made(x, old(p.Start()), if down then -jMax else jMax, how,
           if down then VelocityBand(vMin, vMax) else VelocityBand(vMax, vMin),
           if down then AccelerationBand(vMin, aMin, aMax) else AccelerationBand(vMax, aMax, aMin), jMax)
  {
    hide Accepted, Leads, Braked, VelocityBand, AccelerationBand, ThirdOrderAccepts, ThirdOrderPattern;
    var s := brake.BrakeAndFinalize(sqrt, p.Start(), vMax, vMin, aMax, aMin, jMax);
    p.p, p.v, p.a := p.p[0 := s.p], p.v[0 := s.v], p.a[0 := s.a];
    p.brakeDuration := brake.duration;
    ghost var b := brake.Value();
    if down {
      ok := CheckedProfile(p, signs, limits, -jMax, vMin, vMax, aMin, aMax);
    } else {
      ok := CheckedProfile(p, signs, limits, jMax, vMax, vMin, aMax, aMin);
    }
    if ok {
      assert brake.Value() == b;
      BrakeSize(b, old(p.Start()), s);
    }
  }

  /** What acceptance by the check says about the profile as a value. */
  method CheckedProfile(p: Profile, signs: ControlSigns, limits: ReachedLimits, jf: real,
                        vMax: real, vMin: real, aMax: real, aMin: real) returns (ok: bool)
    requires p.Sized() && (limits == NONE || limits == ACC0 || limits == ACC1)
    modifies p
    ensures p.Sized() && p.Start() == old(p.Start()) && p.pf == old(p.pf) && p.vf == old(p.vf) && p.af == old(p.af)
    ensures p.t == old(p.t) && p.brakeDuration == old(p.brakeDuration) && (ok ==> p.signs == signs)
    ensures ok <==> ThirdOrderAccepts(p.t, ThirdOrderPattern(signs, p.t, jf), old(p.Start()), p.pf, p.vf, p.af,
      Instance(limits, false, aMax, aMin), VelocityBand(vMax, vMin), AccelerationBand(vMax, aMax, aMin))
    ensures ok ==> Accepted(p.Value(), jf, Instance(limits, false, aMax, aMin), VelocityBand(vMax, vMin),
                            AccelerationBand(vMax, aMax, aMin))
    ensures ok ==> p.tSum[6] >= 0.0
  {
    hide ThirdOrderAccepts, Integrated3, ThirdOrderPattern, Timed, VelocityBand, AccelerationBand;
    ok := p.Check(signs, limits, false, jf, vMax, vMin, aMax, aMin);
    if ok {
      AcceptedEnds(p.Value(), jf, Instance(limits, false, aMax, aMin), VelocityBand(vMax, vMin),
                   AccelerationBand(vMax, aMax, aMin));
    }
  }

  function Called(limits: ReachedLimits, aMax: real, aMin: real, down: bool): Instance {
    if down then Instance(limits, false, aMin, aMax) else Instance(limits, false, aMax, aMin)
  }

  lemma BrakeSize(b: BrakePlan, s: Knot, s': Knot)
    requires Leads(b, s, s')
    ensures |b.t| == 2 && |b.j| == 2 && |b.a| == 2 && |b.v| == 2 && |b.p| == 2 && b.duration >= 0.0
  {}

  lemma AcceptedEnds(plan: Plan, jf: real, how: Instance, velocity: Band, acceleration: Band)
    requires Accepted(plan, jf, how, velocity, acceleration)
    ensures plan.tSum[6] >= 0.0
  {
    TimesAreNonNegative(plan, jf, how, velocity, acceleration);
    hide ThirdOrderAccepts, Integrated3, TimeAt, NonNegative;
    LastTime(plan.t, plan.tSum);
    TimesGrow(plan.t, 0, 7);
    TimeStart(plan.t);
  }
}
