/**
 * Motions of one axis with piecewise constant acceleration, and why a trapezoid is the fastest of them.
 * Read one derivative lower (acceleration for position's velocity, jerk for acceleration) the same facts
 * serve the third-order velocity interface.
 */
module Kinematics {
  import opened RealArithmetic

  /** `dt` seconds at constant acceleration `a`. */
  datatype Segment = Segment(dt: real, a: real)

  /** Velocity after `t` from velocity `v` at constant acceleration `u`. */
  function After(v: real, u: real, t: real): real {
    v + t * u
  }

  /** Distance covered in `t` from velocity `v` at constant acceleration `u`. */
  function Rise(v: real, u: real, t: real): real {
    t * (v + t * u / 2.0)
  }

  /** Velocity when jerk `j` has brought the acceleration to zero. */
  function VelocityAtZero(v: real, a: real, j: real): real
    requires j != 0.0
  {
    v - a * a / (2.0 * j)
  }

  function Duration(w: seq<Segment>): real {
    if w == [] then 0.0 else w[0].dt + Duration(w[1..])
  }

  function EndVelocity(v: real, w: seq<Segment>): real
    decreases w
  {
    if w == [] then v else EndVelocity(After(v, w[0].a, w[0].dt), w[1..])
  }

  function Displacement(v: real, w: seq<Segment>): real
    decreases w
  {
    if w == [] then 0.0
    else Rise(v, w[0].a, w[0].dt) + Displacement(After(v, w[0].a, w[0].dt), w[1..])
  }

  /**
   * No segment is negative in time, accelerations stay in [aMin, aMax] and velocities in [vMin, vMax]:
   * velocity is linear in each segment, so its values at the ends bound it everywhere.
   */
  predicate Within(v: real, w: seq<Segment>, vMin: real, vMax: real, aMin: real, aMax: real)
    decreases w
  {
    && vMin <= v <= vMax
    && (w != [] ==>
          && w[0].dt >= 0.0 && aMin <= w[0].a <= aMax
          && Within(After(v, w[0].a, w[0].dt), w[1..], vMin, vMax, aMin, aMax))
  }

  /** A motion from velocity `v` to velocity `vf` over `pd` that keeps the limits. */
  predicate Travels(w: seq<Segment>, v: real, vf: real, pd: real, vMin: real, vMax: real, aMin: real, aMax: real) {
    && Within(v, w, vMin, vMax, aMin, aMax)
    && EndVelocity(v, w) == vf
    && Displacement(v, w) == pd
  }

  /** A motion to rest. */
  predicate Admissible(w: seq<Segment>, v: real, pd: real, vMin: real, vMax: real, aMin: real, aMax: real) {
    Travels(w, v, 0.0, pd, vMin, vMax, aMin, aMax)
  }

  // ---------------------------------------------------------------- bounds on the distance covered

  lemma {:induction false} DurationNonNegative(v: real, w: seq<Segment>, vMin: real, vMax: real, aMin: real, aMax: real)
    requires Within(v, w, vMin, vMax, aMin, aMax)
    ensures Duration(w) >= 0.0
    decreases w
  {
    if w != [] {
      DurationNonNegative(After(v, w[0].a, w[0].dt), w[1..], vMin, vMax, aMin, aMax);
    }
  }

  lemma RiseStep(v: real, dt: real, a: real, u: real, s: real)
    requires dt >= 0.0 && a <= u && s >= 0.0
    ensures After(After(v, a, dt), u, s) <= After(v, u, dt + s)
    ensures Rise(v, a, dt) + Rise(After(v, a, dt), u, s) <= Rise(v, u, dt + s)
  {
    assert dt * (u - a) >= 0.0;
    assert dt * (u - a) * (dt / 2.0 + s) >= 0.0;
  }

  /** Accelerating as hard as allowed from the start covers the most ground. */
  lemma {:induction false} RiseBound(v: real, w: seq<Segment>, vMin: real, vMax: real, aMin: real, aMax: real)
    requires Within(v, w, vMin, vMax, aMin, aMax)
    ensures EndVelocity(v, w) <= After(v, aMax, Duration(w))
    ensures Displacement(v, w) <= Rise(v, aMax, Duration(w))
    decreases w
  {
    hide Rise, After;
    if w == [] {
      NoTime(v, aMax);
    } else {
      var dt, a := w[0].dt, w[0].a;
      RiseBound(After(v, a, dt), w[1..], vMin, vMax, aMin, aMax);
      DurationNonNegative(After(v, a, dt), w[1..], vMin, vMax, aMin, aMax);
      RiseStep(v, dt, a, aMax, Duration(w[1..]));
    }
  }

  /** Distance in terms of the velocities at its ends. */
  lemma RiseEnergy(v: real, u: real, t: real)
    ensures 2.0 * u * Rise(v, u, t) == After(v, u, t) * After(v, u, t) - v * v
  {}

  lemma NoTime(v: real, u: real)
    ensures Rise(v, u, 0.0) == 0.0 && After(v, u, 0.0) == v
  {}

  /** Without acceleration the velocity stays. */
  lemma NoPush(v: real, t: real)
    ensures After(v, 0.0, t) == v
  {}

  lemma FallStep(v: real, dt: real, a: real, d: real, e: real, s: real, rest: real)
    requires dt >= 0.0 && d <= a && s >= 0.0
    requires After(v, a, dt) <= After(e, -d, s) && rest <= Rise(e, -d, s)
    ensures v <= After(e, -d, dt + s)
    ensures Rise(v, a, dt) + rest <= Rise(e, -d, dt + s)
  {
    assert dt * (a - d) >= 0.0;
    assert dt * (dt * (a - d)) >= 0.0;
    assert dt * (v + dt * a) <= dt * (e - d * s);
  }

  /** Read backwards in time: braking as hard as allowed into the end covers the most ground. */
  lemma {:induction false} FallBound(v: real, w: seq<Segment>, vMin: real, vMax: real, aMin: real, aMax: real)
    requires Within(v, w, vMin, vMax, aMin, aMax)
    ensures v <= After(EndVelocity(v, w), -aMin, Duration(w))
    ensures Displacement(v, w) <= Rise(EndVelocity(v, w), -aMin, Duration(w))
    decreases w
  {
    hide Rise, After;
    if w == [] {
      NoTime(v, -aMin);
    } else {
      var dt, a := w[0].dt, w[0].a;
      FallBound(After(v, a, dt), w[1..], vMin, vMax, aMin, aMax);
      DurationNonNegative(After(v, a, dt), w[1..], vMin, vMax, aMin, aMax);
      FallStep(v, dt, a, aMin, EndVelocity(v, w), Duration(w[1..]), Displacement(After(v, a, dt), w[1..]));
    }
  }

  lemma CruiseStep(v: real, dt: real, a: real, top: real, s: real)
    requires dt >= 0.0 && v <= top && After(v, a, dt) <= top
    ensures Rise(v, a, dt) + Rise(top, 0.0, s) <= Rise(top, 0.0, dt + s)
  {
    assert v + dt * a / 2.0 <= top;
  }

  lemma {:induction false} CruiseBound(v: real, w: seq<Segment>, vMin: real, vMax: real, aMin: real, aMax: real)
    requires Within(v, w, vMin, vMax, aMin, aMax)
    ensures Displacement(v, w) <= Rise(vMax, 0.0, Duration(w))
    decreases w
  {
    hide Rise, After;
    if w == [] {
      NoTime(vMax, 0.0);
    } else {
      var dt, a := w[0].dt, w[0].a;
      CruiseBound(After(v, a, dt), w[1..], vMin, vMax, aMin, aMax);
      CruiseStep(v, dt, a, vMax, Duration(w[1..]));
    }
  }

  // ---------------------------------------------------------------- cutting a motion in two

  /** The motion up to `time`, and the motion from there on. */
  function Cut(w: seq<Segment>, time: real): (seq<Segment>, seq<Segment>)
    decreases w
  {
    if w == [] then ([], [])
    else if w[0].dt <= time then
      var (first, second) := Cut(w[1..], time - w[0].dt);
      ([w[0]] + first, second)
    else ([w[0].(dt := time)], [w[0].(dt := w[0].dt - time)] + w[1..])
  }

  lemma CutSegment(v: real, dt: real, a: real, time: real, vMin: real, vMax: real)
    requires 0.0 <= time < dt && vMin <= v <= vMax && vMin <= After(v, a, dt) <= vMax
    ensures vMin <= After(v, a, time) <= vMax
    ensures After(After(v, a, time), a, dt - time) == After(v, a, dt)
    ensures Rise(v, a, time) + Rise(After(v, a, time), a, dt - time) == Rise(v, a, dt)
  {
    if a >= 0.0 {
      assert time * a >= 0.0 && (dt - time) * a >= 0.0;
    } else {
      assert time * -a >= 0.0 && (dt - time) * -a >= 0.0;
    }
  }

  /** The two parts of a cut keep the limits, and nothing is lost between them. */
  predicate IsCut(v: real, w: seq<Segment>, time: real, first: seq<Segment>, second: seq<Segment>,
                  vMin: real, vMax: real, aMin: real, aMax: real) {
    && Within(v, first, vMin, vMax, aMin, aMax)
    && Within(EndVelocity(v, first), second, vMin, vMax, aMin, aMax)
    && Duration(first) == time && Duration(second) == Duration(w) - time
    && EndVelocity(EndVelocity(v, first), second) == EndVelocity(v, w)
    && Displacement(v, first) + Displacement(EndVelocity(v, first), second) == Displacement(v, w)
  }

  lemma OneSegment(v: real, dt: real, a: real, vMin: real, vMax: real, aMin: real, aMax: real)
    ensures var w := [Segment(dt, a)];
      && Duration(w) == dt && EndVelocity(v, w) == After(v, a, dt) && Displacement(v, w) == Rise(v, a, dt)
      && (Within(v, w, vMin, vMax, aMin, aMax) <==>
            vMin <= v <= vMax && dt >= 0.0 && aMin <= a <= aMax && vMin <= After(v, a, dt) <= vMax)
  {
    assert [Segment(dt, a)][1..] == [];
  }

  lemma Unfold(v: real, s: Segment, rest: seq<Segment>, vMin: real, vMax: real, aMin: real, aMax: real)
    ensures var w, v1 := [s] + rest, After(v, s.a, s.dt);
      && Duration(w) == s.dt + Duration(rest)
      && EndVelocity(v, w) == EndVelocity(v1, rest)
      && Displacement(v, w) == Rise(v, s.a, s.dt) + Displacement(v1, rest)
      && (Within(v, w, vMin, vMax, aMin, aMax) <==>
            vMin <= v <= vMax && s.dt >= 0.0 && aMin <= s.a <= aMax && Within(v1, rest, vMin, vMax, aMin, aMax))
  {
    assert ([s] + rest)[1..] == rest;
  }

  lemma CutHere(v: real, w: seq<Segment>, time: real, vMin: real, vMax: real, aMin: real, aMax: real)
    requires Within(v, w, vMin, vMax, aMin, aMax) && w != [] && 0.0 <= time < w[0].dt
    ensures IsCut(v, w, time, Cut(w, time).0, Cut(w, time).1, vMin, vMax, aMin, aMax)
  {
    hide Rise, After;
    var dt, a := w[0].dt, w[0].a;
    var (first, second) := Cut(w, time);
    assert Within(After(v, a, dt), w[1..], vMin, vMax, aMin, aMax) && vMin <= After(v, a, dt) <= vMax;
    CutSegment(v, dt, a, time, vMin, vMax);
    var v1 := After(v, a, time);
    assert first == [Segment(time, a)] && second == [Segment(dt - time, a)] + w[1..];
    assert second[1..] == w[1..];
    OneSegment(v, time, a, vMin, vMax, aMin, aMax);
    assert Within(v1, second, vMin, vMax, aMin, aMax);
  }

  lemma CutLater(v: real, s: Segment, w: seq<Segment>, time: real, first: seq<Segment>, second: seq<Segment>,
                 vMin: real, vMax: real, aMin: real, aMax: real)
    requires IsCut(After(v, s.a, s.dt), w, time - s.dt, first, second, vMin, vMax, aMin, aMax)
    requires vMin <= v <= vMax && s.dt >= 0.0 && aMin <= s.a <= aMax
    ensures IsCut(v, [s] + w, time, [s] + first, second, vMin, vMax, aMin, aMax)
  {
    hide Within, Duration, EndVelocity, Displacement, Rise, After;
    Unfold(v, s, w, vMin, vMax, aMin, aMax);
    Unfold(v, s, first, vMin, vMax, aMin, aMax);
  }

  lemma {:induction false} CutParts(v: real, w: seq<Segment>, time: real, vMin: real, vMax: real, aMin: real,
                                    aMax: real)
    requires Within(v, w, vMin, vMax, aMin, aMax) && 0.0 <= time <= Duration(w)
    ensures IsCut(v, w, time, Cut(w, time).0, Cut(w, time).1, vMin, vMax, aMin, aMax)
    decreases w
  {
    hide Rise, After;
    if w != [] {
      var dt, a := w[0].dt, w[0].a;
      if dt <= time {
        CutParts(After(v, a, dt), w[1..], time - dt, vMin, vMax, aMin, aMax);
        var (first, second) := Cut(w[1..], time - dt);
        assert w == [w[0]] + w[1..];
        CutLater(v, w[0], w[1..], time, first, second, vMin, vMax, aMin, aMax);
      } else {
        CutHere(v, w, time, vMin, vMax, aMin, aMax);
      }
    }
  }

  // ---------------------------------------------------------------- the trapezoid

  /** Up to speed in `t0`, `t1` at speed `top`, down to rest in `t2`. */
  predicate Trapezoid(v: real, pd: real, top: real, u: real, d: real, t0: real, t1: real, t2: real) {
    && u > 0.0 && d < 0.0 && t0 >= 0.0 && t1 >= 0.0 && t2 >= 0.0 && top >= 0.0
    && After(v, u, t0) == top && After(top, d, t2) == 0.0
    && pd == Rise(v, u, t0) + Rise(top, 0.0, t1) + Rise(0.0, -d, t2)
  }

  /** Distance is bounded by rising for `theta` and falling for the rest. */
  lemma RiseThenFall(w: seq<Segment>, v: real, pd: real, theta: real, vMin: real, vMax: real, aMin: real, aMax: real)
    requires Admissible(w, v, pd, vMin, vMax, aMin, aMax) && 0.0 <= theta <= Duration(w)
    ensures pd <= Rise(v, aMax, theta) + Rise(0.0, -aMin, Duration(w) - theta)
  {
    hide Within, Duration, EndVelocity, Displacement, Cut, Rise, After;
    var (first, second) := Cut(w, theta);
    CutParts(v, w, theta, vMin, vMax, aMin, aMax);
    RiseBound(v, first, vMin, vMax, aMin, aMax);
    FallBound(EndVelocity(v, first), second, vMin, vMax, aMin, aMax);
  }

  /** Distance is bounded by rising for `theta`, holding the top speed, and falling for `phi`. */
  lemma RiseCruiseFall(w: seq<Segment>, v: real, pd: real, theta: real, phi: real,
                       vMin: real, vMax: real, aMin: real, aMax: real)
    requires Admissible(w, v, pd, vMin, vMax, aMin, aMax)
    requires 0.0 <= theta && 0.0 <= phi && theta + phi <= Duration(w)
    ensures pd <= Rise(v, aMax, theta) + Rise(vMax, 0.0, Duration(w) - theta - phi) + Rise(0.0, -aMin, phi)
  {
    hide Within, Duration, EndVelocity, Displacement, Cut, Rise, After;
    var (first, second) := Cut(w, theta);
    CutParts(v, w, theta, vMin, vMax, aMin, aMax);
    RiseBound(v, first, vMin, vMax, aMin, aMax);
    var v1, middle := EndVelocity(v, first), Duration(second) - phi;
    var (cruise, fall) := Cut(second, middle);
    CutParts(v1, second, middle, vMin, vMax, aMin, aMax);
    CruiseBound(v1, cruise, vMin, vMax, aMin, aMax);
    FallBound(EndVelocity(v1, cruise), fall, vMin, vMax, aMin, aMax);
    assert EndVelocity(EndVelocity(v1, cruise), fall) == 0.0 && Duration(fall) == phi && Duration(first) == theta;
    assert Duration(cruise) == Duration(w) - theta - phi;
  }

  /** A distance covered under constant acceleration from a non-negative velocity grows with time. */
  lemma RiseGrows(v: real, u: real, theta: real, t: real)
    requires u > 0.0 && 0.0 <= theta <= t && After(v, u, theta) >= 0.0
    ensures Rise(v, u, theta) <= Rise(v, u, t)
    ensures theta < t ==> Rise(v, u, theta) < Rise(v, u, t)
  {
    RiseSumGrows(v, u, theta, t - theta);
  }

  lemma RiseSumGrows(v: real, u: real, theta: real, e: real)
    requires u > 0.0 && e >= 0.0 && After(v, u, theta) >= 0.0
    ensures Rise(v, u, theta) <= Rise(v, u, theta + e)
    ensures e > 0.0 ==> Rise(v, u, theta) < Rise(v, u, theta + e)
  {
    hide Rise, After;
    var speed, gain := After(v, u, theta), e * u;
    RiseSum(v, u, theta, e, speed, gain);
    Product(e, speed);
    Product(e, u);
    Product(e, gain);
  }

  lemma RiseSum(v: real, u: real, theta: real, e: real, speed: real, gain: real)
    requires speed == After(v, u, theta) && gain == e * u
    ensures Rise(v, u, theta + e) == Rise(v, u, theta) + e * speed + e * gain / 2.0
  {}

  lemma FromRest(u: real, t: real)
    requires u >= 0.0 && t >= 0.0
    ensures After(0.0, u, t) >= 0.0
  {
    Product(t, u);
  }

  lemma CruiseSum(top: real, t: real, e: real)
    ensures Rise(top, 0.0, t + e) == Rise(top, 0.0, t) + e * top
  {}

  lemma CruiseGrows(top: real, t: real, t': real)
    requires top >= 0.0 && t <= t'
    ensures Rise(top, 0.0, t) <= Rise(top, 0.0, t')
    ensures Rise(top, 0.0, 0.0) == 0.0
    ensures top > 0.0 && t < t' ==> Rise(top, 0.0, t) < Rise(top, 0.0, t')
  {
    hide Rise;
    NoTime(top, 0.0);
    CruiseSum(top, t, t' - t);
    Product(t' - t, top);
  }

  lemma AfterStop(v: real, u: real, stop: real, e: real)
    requires stop * u == -v
    ensures After(v, u, stop + e) == e * u == -((-e) * u)
  {}

  lemma RestTime(v: real, u: real, stop: real, t: real)
    requires u > 0.0 && stop == -v / u
    ensures After(v, u, t) >= 0.0 <==> t >= stop
  {
    hide After;
    assert stop * u == -v;
    AfterStop(v, u, stop, t - stop);
    if t >= stop {
      Product(t - stop, u);
    } else {
      Product(stop - t, u);
    }
  }

  /** When to change from rising to falling in too short a time: never below rest, never past the trapezoid. */
  lemma SwitchTime(v: real, T: real, u: real, t0: real, t2: real) returns (theta: real)
    requires u > 0.0 && t0 >= 0.0 && t2 >= 0.0 && 0.0 <= T < t0 + t2 && After(v, u, T) >= 0.0 && After(v, u, t0) >= 0.0
    ensures 0.0 <= theta <= T && theta <= t0 && T - theta <= t2 && After(v, u, theta) >= 0.0
  {
    var stop := -v / u;
    RestTime(v, u, stop, T);
    RestTime(v, u, stop, t0);
    theta := Max(T - t2, Max(stop, 0.0));
    RestTime(v, u, stop, theta);
  }

  /** A motion without the time for the trapezoid's two flanks does not get as far. */
  lemma TooShort(w: seq<Segment>, v: real, pd: real, top: real, t0: real, t1: real, t2: real,
                 vMin: real, vMax: real, aMin: real, aMax: real)
    requires Admissible(w, v, pd, vMin, vMax, aMin, aMax)
    requires Trapezoid(v, pd, top, aMax, aMin, t0, t1, t2)
    ensures Duration(w) >= t0 + t2
  {
    hide Within, Duration, EndVelocity, Displacement, Rise, After;
    var T := Duration(w);
    DurationNonNegative(v, w, vMin, vMax, aMin, aMax);
    RiseBound(v, w, vMin, vMax, aMin, aMax);
    if T < t0 + t2 {
      var theta := SwitchTime(v, T, aMax, t0, t2);
      RiseThenFall(w, v, pd, theta, vMin, vMax, aMin, aMax);
      RiseGrows(v, aMax, theta, t0);
      FromRest(-aMin, T - theta);
      RiseGrows(0.0, -aMin, T - theta, t2);
      CruiseGrows(top, 0.0, t1);
    }
  }

  /**
   * A trapezoid that holds the velocity limit whenever it holds a speed at all is as fast as any motion
   * between the same states within the same limits.
   */
  lemma TrapezoidIsFastest(w: seq<Segment>, v: real, pd: real, top: real, t0: real, t1: real, t2: real,
                           vMin: real, vMax: real, aMin: real, aMax: real)
    requires Admissible(w, v, pd, vMin, vMax, aMin, aMax)
    requires Trapezoid(v, pd, top, aMax, aMin, t0, t1, t2)
    requires t1 > 0.0 ==> top == vMax && top > 0.0
    ensures Duration(w) >= t0 + t1 + t2
  {
    hide Admissible, Rise, After, Duration;
    TooShort(w, v, pd, top, t0, t1, t2, vMin, vMax, aMin, aMax);
    if t1 > 0.0 {
      RiseCruiseFall(w, v, pd, t0, t2, vMin, vMax, aMin, aMax);
      if Duration(w) - t0 - t2 < t1 {
        CruiseGrows(top, Duration(w) - t0 - t2, t1);
      }
    }
  }

  // ---------------------------------------------------------------- moving frames and mirror images

  lemma ShiftedRise(v: real, s: real, a: real, dt: real)
    ensures Rise(v - s, a, dt) == Rise(v, a, dt) - s * dt && After(v - s, a, dt) == After(v, a, dt) - s
  {}

  /** The same motion seen from a frame that moves with velocity `s`. */
  lemma {:induction false} ShiftedWithin(w: seq<Segment>, v: real, s: real, vMin: real, vMax: real, aMin: real,
                                         aMax: real)
    requires Within(v, w, vMin, vMax, aMin, aMax)
    ensures Within(v - s, w, vMin - s, vMax - s, aMin, aMax)
    ensures EndVelocity(v - s, w) == EndVelocity(v, w) - s
    ensures Displacement(v - s, w) == Displacement(v, w) - s * Duration(w)
    decreases w
  {
    hide Rise, After;
    if w != [] {
      ShiftedRise(v, s, w[0].a, w[0].dt);
      ShiftedWithin(w[1..], After(v, w[0].a, w[0].dt), s, vMin, vMax, aMin, aMax);
    }
  }

  function Mirrored(w: seq<Segment>): seq<Segment> {
    if w == [] then [] else [w[0].(a := -w[0].a)] + Mirrored(w[1..])
  }

  lemma MirroredRise(v: real, a: real, dt: real)
    ensures Rise(-v, -a, dt) == -Rise(v, a, dt) && After(-v, -a, dt) == -After(v, a, dt)
  {}

  lemma {:induction false} MirroredWithin(w: seq<Segment>, v: real, vMin: real, vMax: real, aMin: real, aMax: real)
    requires Within(v, w, vMin, vMax, aMin, aMax)
    ensures Within(-v, Mirrored(w), -vMax, -vMin, -aMax, -aMin)
    ensures Duration(Mirrored(w)) == Duration(w)
    ensures EndVelocity(-v, Mirrored(w)) == -EndVelocity(v, w)
    ensures Displacement(-v, Mirrored(w)) == -Displacement(v, w)
    decreases w
  {
    hide Rise, After;
    if w != [] {
      var dt, a := w[0].dt, w[0].a;
      MirroredWithin(w[1..], After(v, a, dt), vMin, vMax, aMin, aMax);
      var m := Mirrored(w);
      assert m[0] == Segment(dt, -a) && m[1..] == Mirrored(w[1..]);
      MirroredRise(v, a, dt);
    }
  }

  /** The same for a motion whose trapezoid points downwards. */
  lemma MirroredTrapezoidIsFastest(w: seq<Segment>, v: real, pd: real, top: real, t0: real, t1: real, t2: real,
                                   vMin: real, vMax: real, aMin: real, aMax: real)
    requires Admissible(w, v, pd, vMin, vMax, aMin, aMax)
    requires Trapezoid(-v, -pd, -top, -aMin, -aMax, t0, t1, t2)
    requires t1 > 0.0 ==> top == vMin && top < 0.0
    ensures Duration(w) >= t0 + t1 + t2
  {
    hide Within, Duration, EndVelocity, Displacement, Rise, After, Mirrored, Trapezoid;
    MirroredWithin(w, v, vMin, vMax, aMin, aMax);
    TrapezoidIsFastest(Mirrored(w), -v, -pd, -top, t0, t1, t2, -vMax, -vMin, -aMax, -aMin);
  }
}
