/**
 * Second-order profiles of a prescribed duration: position_second_step2.cpp. Every candidate lasts exactly
 * as long as asked, which is why the check makes no test of that.
 */
module SecondOrderStep2 {
  import opened Kinematics
  import opened Profiles
  import opened RealArithmetic
  import opened SecondOrder
  import opened SecondOrderForms
  import opened SecondOrderTargets

  // ---------------------------------------------------------------- what the check makes of them

  function UpUpTimes(t0: real, t1: real, t6: real): seq<real> {
    [t0, t1, 0.0, 0.0, 0.0, 0.0, t6]
  }

  lemma Gated(v: real, a: real, t: real)
    requires t >= 0.0
    ensures After(v, if t > 0.0 then a else 0.0, t) == After(v, a, t)
    ensures Rise(v, if t > 0.0 then a else 0.0, t) == Rise(v, a, t)
  {}

  /** The knots of a profile that moves in its first two segments and its last. */
  lemma UpUpKnots(p0: real, v: real, u: real, d: real, t0: real, t1: real, t6: real, top: real, end: real)
    requires t0 >= 0.0 && t1 >= 0.0 && t6 >= 0.0 && After(v, u, t0) == top && After(top, u, t6) == end
    ensures var t := UpUpTimes(t0, t1, t6); var a := SecondOrderPattern(UDDU, t, u, d);
      && VelocityAt(v, t, a, 7) == end && (forall i :: 1 <= i <= 6 ==> VelocityAt(v, t, a, i) == top)
      && PositionAt(p0, v, t, a, 7) == p0 + Rise(v, u, t0) + Rise(top, 0.0, t1) + Rise(top, u, t6)
  {
    var t := UpUpTimes(t0, t1, t6);
    var a := SecondOrderPattern(UDDU, t, u, d);
    Gated(v, u, t0);
    Gated(top, u, t6);
    NoPush(top, t1);
    NoTime(top, 0.0);
    assert a[2] == a[3] == a[4] == a[5] == 0.0 && a[1] == 0.0;
    hide After, Rise, SecondOrderPattern;
    FirstKnots(p0, v, t, a, top, top);
    assert VelocityAt(v, t, a, 4) == top && PositionAt(p0, v, t, a, 4) == PositionAt(p0, v, t, a, 3);
    assert VelocityAt(v, t, a, 5) == top && PositionAt(p0, v, t, a, 5) == PositionAt(p0, v, t, a, 3);
    assert VelocityAt(v, t, a, 6) == top && PositionAt(p0, v, t, a, 6) == PositionAt(p0, v, t, a, 3);
  }

  /** A profile of this form that ends at the right speed is accepted for its times, its middle speed and its gain. */
  lemma UpUpAccepted(p0: real, v: real, vf: real, pd: real, gain: real, u: real, d: real,
                     t0: real, t1: real, t6: real, vMax: real, vMin: real)
    requires var top := After(v, u, t0);
      After(top, u, t6) == vf && Rise(v, u, t0) + Rise(top, 0.0, t1) + Rise(top, u, t6) == gain
    ensures var t := UpUpTimes(t0, t1, t6);
      SecondOrderAccepts(t, SecondOrderPattern(UDDU, t, u, d), p0, v, p0 + pd, vf, vMax, vMin) <==>
      && t0 >= 0.0 && t1 >= 0.0 && t6 >= 0.0 && t0 + t1 + t6 <= T_MAX
      && InLimits(After(v, u, t0), vMax, vMin) && Abs(gain - pd) < P_PRECISION
  {
    var t, top := UpUpTimes(t0, t1, t6), After(v, u, t0);
    var a := SecondOrderPattern(UDDU, t, u, d);
    TimeSteps(t);
    if t0 >= 0.0 && t1 >= 0.0 && t6 >= 0.0 {
      UpUpKnots(p0, v, u, d, t0, t1, t6, top, vf);
      hide After, Rise, SecondOrderPattern, VelocityAt, PositionAt, TimeAt;
      assert VelocityAt(v, t, a, 2) == top;
    } else {
      assert !NonNegative(t) by {
        assert t[0] == t0 && t[1] == t1 && t[6] == t6;
      }
    }
  }

  /** If it gains exactly what it should, for its times and its middle speed alone. */
  lemma UpUpExact(p0: real, v: real, vf: real, pd: real, u: real, d: real, t0: real, t1: real, t6: real,
                  vMax: real, vMin: real)
    requires var top := After(v, u, t0);
      After(top, u, t6) == vf && Rise(v, u, t0) + Rise(top, 0.0, t1) + Rise(top, u, t6) == pd
    ensures var t := UpUpTimes(t0, t1, t6);
      SecondOrderAccepts(t, SecondOrderPattern(UDDU, t, u, d), p0, v, p0 + pd, vf, vMax, vMin) <==>
      && t0 >= 0.0 && t1 >= 0.0 && t6 >= 0.0 && t0 + t1 + t6 <= T_MAX
      && InLimits(After(v, u, t0), vMax, vMin)
  {
    hide After, Rise, SecondOrderAccepts, SecondOrderPattern;
    UpUpAccepted(p0, v, vf, pd, pd, u, d, t0, t1, t6, vMax, vMin);
  }

  /** What acceptance means for the caller: the profile lasts as long as asked and ends where it should. */
  ghost predicate Timely(p: Profile, tf: real, pf: real)
    reads p
  {
    && p.Sized() && NonNegative(p.t) && Timed(p.t, p.tSum) && p.tSum[6] == tf <= T_MAX
    && Abs(p.p[7] - pf) < P_PRECISION && Abs(p.v[7] - p.vf) < V_PRECISION && p.pf == p.p[7]
  }

  /** Exactly where it should. */
  ghost predicate Exact(p: Profile, pf: real)
    reads p
  {
    p.Sized() && p.p[7] == pf && p.v[7] == p.vf
  }

  class PositionSecondOrderStep2 {
    const v0: real
    const tf: real
    const vf: real
    const pd: real
    const vd: real
    const vMax: real
    const vMin: real
    const aMax: real
    const aMin: real

    constructor (tf: real, p0: real, v0: real, pf: real, vf: real, vMax: real, vMin: real, aMax: real, aMin: real)
      ensures this.tf == tf && this.v0 == v0 && this.vf == vf && this.pd == pf - p0 && this.vd == vf - v0
      ensures this.vMax == vMax && this.vMin == vMin && this.aMax == aMax && this.aMin == aMin
    {
      this.tf, this.v0, this.vf, this.pd, this.vd := tf, v0, vf, pf - p0, vf - v0;
      this.vMax, this.vMin, this.aMax, this.aMin := vMax, vMin, aMax, aMin;
    }

    /** The profile holds this axis's start and target. */
    ghost predicate Bounded(p: Profile)
      reads p
    {
      p.Sized() && p.v[0] == v0 && p.pf == p.p[0] + pd && p.vf == vf && vd == vf - v0
    }

    /** The form that waits first and then moves at full acceleration. */
    ghost predicate TwoStep(p: Profile, a: real)
      requires a != 0.0
      reads p
    {
      p.t == UpUpTimes(0.0, -vd / a + tf, vd / a)
    }

    /** Has the times checked; on success the end of the profile becomes its target. */
    method Try(p: Profile, times: seq<real>, limits: ReachedLimits, aUp: real, aDown: real, vMax: real, vMin: real)
      returns (ok: bool)
      requires Bounded(p) && |times| == 7
      requires times[0] + times[1] + times[2] + times[3] + times[4] + times[5] + times[6] == tf
      modifies p
      ensures p.Sized() && p.p[0] == old(p.p[0]) && (!ok ==> Bounded(p))
      ensures ok <==> SecondOrderAccepts(times, SecondOrderPattern(UDDU, times, aUp, aDown), old(p.p[0]), v0, old(p.pf),
                                         vf, vMax, vMin)
      ensures ok ==> p.direction == Way(vMax)
      ensures ok ==> p.t == times && Timely(p, tf, old(p.pf)) && p.vf == old(p.vf)
      ensures ok ==> p.v[7] == VelocityAt(v0, times, SecondOrderPattern(UDDU, times, aUp, aDown), 7)
      ensures ok ==> p.p[7] == PositionAt(old(p.p[0]), v0, times, SecondOrderPattern(UDDU, times, aUp, aDown), 7)
    {
      hide VelocityAt, PositionAt, TimeAt, SecondOrderPattern, NonNegative, Abs;
      p.t := times;
      ok := p.CheckForSecondOrder(UDDU, limits, aUp, aDown, vMax, vMin);
      if ok {
        TimeSteps(p.t);
        LastTime(p.t, p.tSum);
        assert p.a[..7] == SecondOrderPattern(UDDU, times, aUp, aDown);
        KnotsOf(p.t, p.a[..7], p.v, p.p);
        p.pf := p.p[7];
      }
    }

    /** Up, cruise and down; a negative square means a root that is not a number, and the check refuses it. */
    method TryUpDown(sqrt: real -> real, p: Profile, vMax: real, vMin: real, aMax: real, aMin: real) returns (ok: bool)
      requires Bounded(p) && IsSqrt(sqrt) && aMax != 0.0 && aMin != 0.0 && aMax != aMin
      modifies p
      ensures p.Sized() && p.p[0] == old(p.p[0]) && (!ok ==> Bounded(p))
      ensures ok <==> UpDownFits(sqrt, v0, vf, pd, tf, aMax, aMin, vMax, vMin) && tf <= T_MAX
      ensures ok ==> p.direction == Way(vMax)
      ensures ok ==> Timely(p, tf, old(p.pf)) && p.vf == old(p.vf) && Exact(p, old(p.pf))
    {
      hide VelocityAt, PositionAt, SecondOrderPattern, SecondOrderAccepts, NonNegative, Abs, UpTime, CruiseSquare;
      var square := CruiseSquare(v0, vf, pd, tf, aMax, aMin);
      if square < 0.0 {
        return false;
      }
      var h1 := sqrt(square);
      var t0 := UpTime(v0, vf, tf, aMax, aMin, h1);
      UpDownReaches(v0, vf, pd, tf, aMax, aMin, h1, t0);
      ThreeAccepted(p.p[0], v0, vf, pd, After(v0, aMax, t0), aMax, aMin, t0, h1, tf - (t0 + h1), vMax, vMin);
      ok := Try(p, Times(t0, h1, tf - (t0 + h1)), ACC0, aMax, aMin, vMax, vMin);
      if ok {
        ThreeKnots(p.p[0], v0, aMax, aMin, t0, h1, tf - (t0 + h1), After(v0, aMax, t0), vf);
      }
    }

    method TryUpUp(p: Profile, vMax: real, vMin: real, aMax: real, aMin: real) returns (ok: bool)
      requires Bounded(p) && aMax != 0.0
      modifies p
      ensures p.Sized() && p.p[0] == old(p.p[0]) && (!ok ==> Bounded(p))
      ensures ok <==> UpUpFits(v0, vf, pd, tf, aMax, vMax, vMin) && tf <= T_MAX
      ensures ok ==> p.direction == Way(vMax)
      ensures ok ==> Timely(p, tf, old(p.pf)) && p.vf == old(p.vf) && Exact(p, old(p.pf))
    {
      hide VelocityAt, PositionAt, SecondOrderPattern, SecondOrderAccepts, NonNegative, Abs, UpUpTime;
      var h1 := -vd + aMax * tf;
      if h1 == 0.0 {
        // A quotient by zero is infinite or not a number, and the check refuses both.
        return false;
      }
      var t0 := UpUpTime(vd, pd, v0, tf, aMax, h1);
      var t1 := -vd / aMax + tf;
      var t6 := tf - (t0 + t1);
      UpUpReaches(v0, vf, pd, tf, aMax, h1, t0, t1, t6);
      UpUpExact(p.p[0], v0, vf, pd, aMax, aMin, t0, t1, t6, vMax, vMin);
      ok := Try(p, UpUpTimes(t0, t1, t6), ACC0, aMax, aMin, vMax, vMin);
      if ok {
        UpUpKnots(p.p[0], v0, aMax, aMin, t0, t1, t6, After(v0, aMax, t0), vf);
      }
    }

    /** The two-step form, from position `p0`, passes the check. */
    predicate TwoStepPasses(p0: real, vMax: real, vMin: real, aMax: real, aMin: real)
      requires aMax != 0.0
    {
      var t := UpUpTimes(0.0, -vd / aMax + tf, vd / aMax);
      SecondOrderAccepts(t, SecondOrderPattern(UDDU, t, aMax, aMin), p0, v0, p0 + pd, vf, vMax, vMin)
    }

    /** The form that stands still passes the check. */
    predicate StillPasses(p0: real, vMax: real, vMin: real, aMax: real, aMin: real) {
      var t := Times(0.0, tf, 0.0);
      && v0 == 0.0 && vf == 0.0 && pd == 0.0
      && SecondOrderAccepts(t, SecondOrderPattern(UDDU, t, aMax, aMin), p0, v0, p0 + pd, vf, vMax, vMin)
    }

    /** The form with an acceleration of its own passes the check. */
    predicate RampPasses(p0: real, vMax: real, vMin: real, aMax: real, aMin: real) {
      var h1 := 2.0 * (vf * tf - pd);
      && vd != 0.0 && h1 != 0.0 && aMin - A_EPS < vd * vd / h1 < aMax + A_EPS
      && var t, af := Times(h1 / vd, tf - h1 / vd, 0.0), vd * vd / h1;
         SecondOrderAccepts(t, SecondOrderPattern(UDDU, t, af, -af), p0, v0, p0 + pd, vf, vMax, vMin)
    }

    /** Without the check: the axis stands still and is to stand still. */
    lemma StillExactly(p0: real, vMax: real, vMin: real, aMax: real, aMin: real)
      ensures StillPasses(p0, vMax, vMin, aMax, aMin) <==>
        v0 == 0.0 && vf == 0.0 && pd == 0.0 && 0.0 <= tf <= T_MAX && InLimits(0.0, vMax, vMin)
    {
      Standstill(tf, aMax, aMin);
      if v0 == 0.0 && vf == 0.0 && pd == 0.0 {
        ThreeAccepted(p0, v0, vf, pd, 0.0, aMax, aMin, 0.0, tf, 0.0, vMax, vMin);
      }
    }

    /** Without the check: the acceleration it takes is allowed, and so is the speed held. */
    lemma RampExactly(p0: real, vMax: real, vMin: real, aMax: real, aMin: real)
      requires vd == vf - v0
      ensures var h1 := 2.0 * (vf * tf - pd);
        RampPasses(p0, vMax, vMin, aMax, aMin) <==>
        && vd != 0.0 && h1 != 0.0 && aMin - A_EPS < vd * vd / h1 < aMax + A_EPS
        && 0.0 <= h1 / vd <= tf <= T_MAX && InLimits(vf, vMax, vMin)
    {
      hide SecondOrderAccepts, SecondOrderPattern, Times, InLimits;
      var h1 := 2.0 * (vf * tf - pd);
      if vd != 0.0 && h1 != 0.0 {
        RampAccepted(p0, h1, h1 / vd, vd * vd / h1, vMax, vMin);
      }
    }

    lemma RampAccepted(p0: real, h1: real, t0: real, af: real, vMax: real, vMin: real)
      requires vd == vf - v0 && h1 == 2.0 * (vf * tf - pd) && vd != 0.0 && h1 != 0.0
      requires t0 == h1 / vd && af == vd * vd / h1
      ensures var t := Times(t0, tf - t0, 0.0);
        SecondOrderAccepts(t, SecondOrderPattern(UDDU, t, af, -af), p0, v0, p0 + pd, vf, vMax, vMin) <==>
        0.0 <= t0 <= tf <= T_MAX && InLimits(vf, vMax, vMin)
    {
      hide After, Rise, SecondOrderAccepts, SecondOrderPattern, Times, InLimits;
      RampReaches(v0, vf, pd, tf, h1, t0, af);
      NoTime(vf, -af);
      assert Reaches(v0, vf, pd, vf, af, -af, t0, tf - t0, 0.0);
      hide Reaches;
      ThreeAccepted(p0, v0, vf, pd, vf, af, -af, t0, tf - t0, 0.0, vMax, vMin);
    }

    /** Without the check: there is time, and waiting and then changing over at full acceleration comes close enough. */
    lemma TwoStepExactly(p0: real, vMax: real, vMin: real, aMax: real, aMin: real)
      requires vd == vf - v0 && aMax != 0.0
      ensures TwoStepPasses(p0, vMax, vMin, aMax, aMin) <==>
        && vd / aMax >= 0.0 && -vd / aMax + tf >= 0.0 && tf <= T_MAX && InLimits(v0, vMax, vMin)
        && Abs(Rise(v0, 0.0, -vd / aMax + tf) + Rise(v0, aMax, vd / aMax) - pd) < P_PRECISION
    {
      var t1, t6 := -vd / aMax + tf, vd / aMax;
      NoTime(v0, aMax);
      QuotientTimes(vd, aMax, t6);
      QuotientNegated(vd, aMax);
      assert After(v0, aMax, t6) == vf;
      hide After, Rise, Abs, SecondOrderAccepts, SecondOrderPattern, UpUpTimes, InLimits;
      UpUpAccepted(p0, v0, vf, pd, Rise(v0, 0.0, t1) + Rise(v0, aMax, t6), aMax, aMin, 0.0, t1, t6, vMax, vMin);
    }

    /** One of the three forms with full acceleration passes. */
    predicate SomeAcc0Passes(sqrt: real -> real, p0: real, vMax: real, vMin: real, aMax: real, aMin: real)
      requires aMax != 0.0 && aMin != 0.0 && aMax != aMin
    {
      || (tf <= T_MAX && UpDownFits(sqrt, v0, vf, pd, tf, aMax, aMin, vMax, vMin))
      || (tf <= T_MAX && UpUpFits(v0, vf, pd, tf, aMax, vMax, vMin))
      || TwoStepPasses(p0, vMax, vMin, aMax, aMin)
    }

    /** One of the five forms passes, in one direction. */
    predicate SomePasses(sqrt: real -> real, p0: real, vMax: real, vMin: real, aMax: real, aMin: real)
      requires aMax != 0.0 && aMin != 0.0 && aMax != aMin
    {
      || SomeAcc0Passes(sqrt, p0, vMax, vMin, aMax, aMin)
      || StillPasses(p0, vMax, vMin, aMax, aMin) || RampPasses(p0, vMax, vMin, aMax, aMin)
    }

    /** The three candidates with full acceleration; only the last need not reach the target by itself. */
    method TimeAcc0(sqrt: real -> real, p: Profile, vMax: real, vMin: real, aMax: real, aMin: real) returns (ok: bool)
      requires Bounded(p) && IsSqrt(sqrt) && aMax != 0.0 && aMin != 0.0 && aMax != aMin
      modifies p
      ensures p.Sized() && p.p[0] == old(p.p[0]) && (!ok ==> Bounded(p))
      ensures ok ==> p.direction == Way(vMax)
      ensures ok ==> Timely(p, tf, old(p.pf)) && p.vf == old(p.vf)
      ensures ok ==> Exact(p, old(p.pf)) || TwoStep(p, aMax)
      ensures ok <==> SomeAcc0Passes(sqrt, old(p.p[0]), vMax, vMin, aMax, aMin)
    {
      hide Timely, Exact, IsSqrt, UpDownFits, UpUpFits, SecondOrderAccepts, SecondOrderPattern;
      ok := TryUpDown(sqrt, p, vMax, vMin, aMax, aMin);
      if ok {
        return;
      }
      ok := TryUpUp(p, vMax, vMin, aMax, aMin);
      if ok {
        return;
      }
      QuotientNegated(vd, aMax);
      ok := Try(p, UpUpTimes(0.0, -vd / aMax + tf, vd / aMax), ACC0, aMax, aMin, vMax, vMin);
    }

    method TimeNone(p: Profile, vMax: real, vMin: real, aMax: real, aMin: real) returns (ok: bool)
      requires Bounded(p)
      modifies p
      ensures p.Sized() && p.p[0] == old(p.p[0]) && (!ok ==> Bounded(p))
      ensures ok ==> p.direction == Way(vMax)
      ensures ok ==> Timely(p, tf, old(p.pf)) && p.vf == old(p.vf) && Exact(p, old(p.pf))
      ensures ok <==>
        StillPasses(old(p.p[0]), vMax, vMin, aMax, aMin) || RampPasses(old(p.p[0]), vMax, vMin, aMax, aMin)
    {
      hide VelocityAt, PositionAt, SecondOrderPattern, SecondOrderAccepts, NonNegative, Abs;
      if v0 == 0.0 && vf == 0.0 && pd == 0.0 {
        ok := Try(p, Times(0.0, tf, 0.0), NONE, aMax, aMin, vMax, vMin);
        if ok {
          FirstTimes(p.t, 0.0, tf, 0.0);
          Standstill(tf, aMax, aMin);
          ThreeKnots(p.p[0], 0.0, aMax, aMin, 0.0, tf, 0.0, 0.0, 0.0);
          return;
        }
      }
      var h1 := 2.0 * (vf * tf - pd);
      if vd == 0.0 || h1 == 0.0 {
        // The time or the acceleration is infinite or not a number.
        return false;
      }
      var t0 := h1 / vd;
      var af := vd * vd / h1;
      if aMin - A_EPS < af && af < aMax + A_EPS {
        ok := Try(p, Times(t0, tf - t0, 0.0), NONE, af, -af, vMax, vMin);
        if ok {
          RampReaches(v0, vf, pd, tf, h1, t0, af);
          FirstTimes(p.t, t0, tf - t0, 0.0);
          NoTime(vf, -af);
          ThreeKnots(p.p[0], v0, af, -af, t0, tf - t0, 0.0, vf, vf);
        }
      } else {
        ok := false;
      }
    }

    method CheckAll(sqrt: real -> real, p: Profile, vMax: real, vMin: real, aMax: real, aMin: real) returns (ok: bool)
      requires Bounded(p) && IsSqrt(sqrt) && aMax != 0.0 && aMin != 0.0 && aMax != aMin
      modifies p
      ensures p.Sized() && p.p[0] == old(p.p[0]) && (!ok ==> Bounded(p))
      ensures ok ==> p.direction == Way(vMax)
      ensures ok ==> Timely(p, tf, old(p.pf)) && p.vf == old(p.vf)
      ensures ok ==> Exact(p, old(p.pf)) || TwoStep(p, aMax)
      ensures ok <==> SomePasses(sqrt, old(p.p[0]), vMax, vMin, aMax, aMin)
    {
      hide Timely, Exact, IsSqrt, SomeAcc0Passes, StillPasses, RampPasses;
      ok := TimeAcc0(sqrt, p, vMax, vMin, aMax, aMin);
      if !ok {
        ok := TimeNone(p, vMax, vMin, aMax, aMin);
      }
    }

    /** A motion to the target that keeps the limits and takes as long as asked, or less if the target is at rest. */
    ghost predicate InTime(w: seq<Segment>) {
      && UsualLimits(v0, vMax, vMin, aMax, aMin) && vMin <= vf <= vMax
      && Travels(w, v0, vf, pd, vMin, vMax, aMin, aMax)
      && (Duration(w) == tf || (vf == 0.0 && Duration(w) <= tf))
    }

    /**
     * Any profile found lasts exactly `tf`, and reaches the target exactly unless it is of the two-step form. One is
     * found for every `tf` that some motion within the limits takes, and for every longer one if the target is at rest.
     */
    method GetProfile(sqrt: real -> real, p: Profile) returns (ok: bool)
      requires Bounded(p) && IsSqrt(sqrt) && aMax != 0.0 && aMin != 0.0 && aMax != aMin
      modifies p
      ensures ok ==> Timely(p, tf, old(p.pf)) && p.vf == old(p.vf)
      ensures ok ==> Exact(p, old(p.pf)) || TwoStep(p, aMax) || TwoStep(p, aMin)
      ensures ok <==> SomePasses(sqrt, old(p.p[0]), vMax, vMin, aMax, aMin) ||
                      SomePasses(sqrt, old(p.p[0]), vMin, vMax, aMin, aMax)
      ensures ok ==>
        var up := SomePasses(sqrt, old(p.p[0]), vMax, vMin, aMax, aMin);
        var down := SomePasses(sqrt, old(p.p[0]), vMin, vMax, aMin, aMax);
        p.direction == Way(if up && (pd > 0.0 || !down) then vMax else vMin)
      ensures forall w :: InTime(w) && tf <= T_MAX ==> ok
    {
      hide Timely, Exact, IsSqrt, UpDownFits, UpUpFits, Travels, Duration, TwoStepPasses, StillPasses, RampPasses;
      forall w | InTime(w)
        ensures SomeFits(sqrt, v0, vf, pd, tf, vMax, vMin, aMax, aMin)
      {
        if Duration(w) == tf {
          AnyDurationFits(w, sqrt, v0, vf, pd, vMin, vMax, aMin, aMax);
        } else {
          LongerDurationsFit(w, tf, sqrt, v0, pd, vMin, vMax, aMin, aMax);
        }
      }
      if pd > 0.0 {
        ok := CheckAll(sqrt, p, vMax, vMin, aMax, aMin);
        if !ok {
          ok := CheckAll(sqrt, p, vMin, vMax, aMin, aMax);
        }
      } else {
        ok := CheckAll(sqrt, p, vMin, vMax, aMin, aMax);
        if !ok {
          ok := CheckAll(sqrt, p, vMax, vMin, aMax, aMin);
        }
      }
    }
  }

  lemma FirstTimes(t: seq<real>, t0: real, t1: real, t2: real)
    requires t == Times(t0, t1, t2) && NonNegative(t)
    ensures t0 >= 0.0 && t1 >= 0.0 && t2 >= 0.0
  {
    assert t[0] == t0 && t[1] == t1 && t[2] == t2;
  }

  lemma Standstill(t: real, u: real, d: real)
    ensures After(0.0, u, 0.0) == 0.0 && After(0.0, d, 0.0) == 0.0
    ensures Rise(0.0, u, 0.0) + Rise(0.0, 0.0, t) + Rise(0.0, d, 0.0) == 0.0
  {}
}
