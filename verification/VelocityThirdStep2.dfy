/**
 * Third-order velocity profiles of a prescribed duration: velocity_third_step2.cpp. The closed forms are those
 * of the second-order position step with equal and opposite jerks, so they inherit its exactness.
 */
module VelocityThirdStep2 {
  import opened Kinematics
  import opened Profiles
  import opened RealArithmetic
  import opened SecondOrder
  import opened SecondOrderDurations
  import opened SecondOrderForms
  import opened SecondOrderStep2
  import opened SecondOrderTargets
  import opened VelocityThird

  // ---------------------------------------------------------------- the same formulas

  /** The squared time at the peak, as written for a jerk `j`. */
  lemma SameCruiseSquare(a0: real, af: real, ad: real, vd: real, tf: real, j: real)
    requires j != 0.0 && ad == af - a0
    ensures j * j != 0.0
    ensures
      (-ad * ad + 2.0 * j * ((a0 + af) * tf - 2.0 * vd)) / (j * j) + tf * tf == CruiseSquare(a0, af, vd, tf, j, -j)
  {
    var x := -ad * ad + 2.0 * j * ((a0 + af) * tf - 2.0 * vd);
    SquareSign(j);
    assert 2.0 * j * (vd - tf * af) - 2.0 * -j * (vd - tf * a0) + ad * ad == -x;
    assert j * -j == -(j * j);
    QuotientMirrored(x, j * j);
  }

  lemma SameUpTime(a0: real, af: real, tf: real, j: real, h: real, t0: real)
    requires j != 0.0 && t0 == (af - a0) / (2.0 * j) + (tf - h) / 2.0
    ensures t0 == UpTime(a0, af, tf, j, -j, h)
  {
    UpTimeMeans(a0, af, tf, j, -j, h, UpTime(a0, af, tf, j, -j, h));
    QuotientTimes(af - a0, 2.0 * j, (af - a0) / (2.0 * j));
    hide UpTime;
    assert (2.0 * j) * t0 == af - a0 + j * (tf - h);
    assert j - -j == 2.0 * j && -j * (tf - h) == -(j * (tf - h));
    Cancel(2.0 * j, t0, UpTime(a0, af, tf, j, -j, h));
  }

  lemma OuterPatternsAgree(t: seq<real>, j: real)
    requires |t| == 7 && t[4] == 0.0
    ensures ThirdOrderPattern(UDDU, t, j) == SecondOrderPattern(UDDU, t, j, -j)
  {}

  /** A profile of the outer form is accepted for its times, its middle acceleration and the velocity it gains. */
  lemma OuterAccepted(v0: real, a0: real, af: real, vd: real, gain: real, j: real, t0: real, t1: real, t6: real,
                      aMax: real, aMin: real)
    requires var top := After(a0, j, t0);
      After(top, j, t6) == af && Rise(a0, j, t0) + Rise(top, 0.0, t1) + Rise(top, j, t6) == gain
    ensures var t := UpUpTimes(t0, t1, t6);
      VelocityAccepts(t, ThirdOrderPattern(UDDU, t, j), ACC0, v0, a0, v0 + vd, af, aMax, aMin) <==>
      && t0 >= 0.0 && t1 >= EPSILON && t6 >= 0.0 && t0 + t1 + t6 <= T_MAX
      && InLimits(After(a0, j, t0), aMax, aMin) && Abs(gain - vd) < V_PRECISION
  {
    var t, top := UpUpTimes(t0, t1, t6), After(a0, j, t0);
    OuterPatternsAgree(t, j);
    TimeSteps(t);
    if t0 >= 0.0 && t1 >= 0.0 && t6 >= 0.0 {
      UpUpKnots(v0, a0, j, -j, t0, t1, t6, top, af);
      hide After, Rise, SecondOrderPattern, ThirdOrderPattern, VelocityAt, PositionAt, TimeAt;
    } else {
      assert !NonNegative(t) by {
        assert t[0] == t0 && t[1] == t1 && t[6] == t6;
      }
    }
  }

  /** If it gains exactly what it should, for its times and its middle acceleration alone. */
  lemma OuterExact(v0: real, a0: real, af: real, vd: real, j: real, t0: real, t1: real, t6: real,
                   aMax: real, aMin: real)
    requires var top := After(a0, j, t0);
      After(top, j, t6) == af && Rise(a0, j, t0) + Rise(top, 0.0, t1) + Rise(top, j, t6) == vd
    ensures var t := UpUpTimes(t0, t1, t6);
      VelocityAccepts(t, ThirdOrderPattern(UDDU, t, j), ACC0, v0, a0, v0 + vd, af, aMax, aMin) <==>
      && t0 >= 0.0 && t1 >= EPSILON && t6 >= 0.0 && t0 + t1 + t6 <= T_MAX
      && InLimits(After(a0, j, t0), aMax, aMin)
  {
    hide After, Rise, VelocityAccepts, ThirdOrderPattern;
    OuterAccepted(v0, a0, af, vd, vd, j, t0, t1, t6, aMax, aMin);
  }

  // ---------------------------------------------------------------- the solver

  /** What acceptance means for the caller: the profile lasts as long as asked and ends as it should. */
  ghost predicate VelocityTimely(p: Profile, tf: real)
    reads p
  {
    && p.Sized() && NonNegative(p.t) && Timed(p.t, p.tSum) && p.tSum[6] == tf <= T_MAX
    && Abs(p.v[7] - p.vf) < V_PRECISION && Abs(p.a[7] - p.af) < A_PRECISION && p.pf == p.p[7]
  }

  ghost predicate VelocityExact(p: Profile)
    reads p
  {
    p.Sized() && p.v[7] == p.vf && p.a[7] == p.af
  }

  class VelocityThirdOrderStep2 {
    const a0: real
    const tf: real
    const af: real
    const aMax: real
    const aMin: real
    const jMax: real
    const vd: real
    const ad: real

    constructor (tf: real, v0: real, a0: real, vf: real, af: real, aMax: real, aMin: real, jMax: real)
      ensures this.tf == tf && this.a0 == a0 && this.af == af && this.vd == vf - v0 && this.ad == af - a0
      ensures this.aMax == aMax && this.aMin == aMin && this.jMax == jMax
    {
      this.tf, this.a0, this.af, this.vd, this.ad := tf, a0, af, vf - v0, af - a0;
      this.aMax, this.aMin, this.jMax := aMax, aMin, jMax;
    }

    /** The profile holds this axis's start and target. */
    ghost predicate Bounded(p: Profile)
      reads p
    {
      p.Sized() && p.a[0] == a0 && p.vf == p.v[0] + vd && p.af == af && ad == af - a0
    }

    /** Only the start and the target of the profile are the caller's. */
    twostate predicate Kept(p: Profile)
      reads p
    {
      Bounded(p) && |old(p.v)| > 0 && p.v[0] == old(p.v[0]) && p.vf == old(p.vf) && p.af == old(p.af)
    }

    /** The form that waits first and then moves at full jerk. */
    ghost predicate TwoStep(p: Profile, j: real)
      requires j != 0.0
      reads p
    {
      p.t == UpUpTimes(0.0, -ad / j + tf, ad / j)
    }

    /** Has the times checked; on success the end of the profile becomes its target position. */
    method Try(p: Profile, times: seq<real>, limits: ReachedLimits, j: real, aMax: real, aMin: real) returns (ok: bool)
      requires Bounded(p) && |times| == 7 && times[4] == 0.0
      requires times[0] + times[1] + times[2] + times[3] + times[4] + times[5] + times[6] == tf
      modifies p
      ensures Kept(p)
      ensures ok ==> p.direction == Way(aMax)
      ensures ok <==>
        VelocityAccepts(times, ThirdOrderPattern(UDDU, times, j), limits, p.v[0], a0, p.v[0] + vd, af, aMax, aMin)
      ensures ok ==> p.t == times && VelocityTimely(p, tf)
      ensures ok ==> p.a[7] == VelocityAt(a0, times, SecondOrderPattern(UDDU, times, j, -j), 7)
      ensures ok ==> p.v[7] == PositionAt(p.v[0], a0, times, SecondOrderPattern(UDDU, times, j, -j), 7)
    {
      hide VelocityAt, PositionAt, TimeAt, SecondOrderPattern, ThirdOrderPattern, NonNegative, Abs;
      p.t := times;
      ok := p.CheckForVelocity(UDDU, limits, j, aMax, aMin);
      if ok {
        TimeSteps(p.t);
        LastTime(p.t, p.tSum);
        OuterPatternsAgree(times, j);
        KnotsOf(p.t, p.j, p.a, p.v);
        p.pf := p.p[7];
      }
    }

    /** The candidate that goes up, holds and goes down is within the limits and holds for long enough. */
    ghost predicate UpDownHolds(sqrt: real -> real, j: real, aMax: real, aMin: real)
      requires j != 0.0
    {
      && UpDownFits(sqrt, a0, af, vd, tf, j, -j, aMax, aMin)
      && sqrt(CruiseSquare(a0, af, vd, tf, j, -j)) >= EPSILON
    }

    /** So does the one that holds between two equal jerks. */
    predicate UpUpHolds(j: real, aMax: real, aMin: real)
      requires j != 0.0
    {
      UpUpFits(a0, af, vd, tf, j, aMax, aMin) && -(af - a0) / j + tf >= EPSILON
    }

    /** Up, hold and down; a negative square means a root that is not a number, and the check refuses it. */
    method TryUpDown(sqrt: real -> real, p: Profile, aMax: real, aMin: real, jMax: real) returns (ok: bool)
      requires Bounded(p) && IsSqrt(sqrt) && jMax != 0.0
      modifies p
      ensures Kept(p) && (ok ==> VelocityTimely(p, tf) && VelocityExact(p))
      ensures ok ==> p.direction == Way(aMax)
      ensures ok <==> UpDownHolds(sqrt, jMax, aMax, aMin) && tf <= T_MAX
    {
      hide VelocityAt, PositionAt, SecondOrderPattern, VelocityAccepts, NonNegative, Abs, CruiseSquare, UpTime;
      SameCruiseSquare(a0, af, ad, vd, tf, jMax);
      var square := (-ad * ad + 2.0 * jMax * ((a0 + af) * tf - 2.0 * vd)) / (jMax * jMax) + tf * tf;
      if square < 0.0 {
        return false;
      }
      var h1 := sqrt(square);
      var t0 := ad / (2.0 * jMax) + (tf - h1) / 2.0;
      SameUpTime(a0, af, tf, jMax, h1, t0);
      UpDownReaches(a0, af, vd, tf, jMax, -jMax, h1, t0);
      VelocityAccepted(ACC0, p.v[0], a0, af, vd, After(a0, jMax, t0), jMax, t0, h1, tf - (t0 + h1), aMax, aMin);
      ok := Try(p, Times(t0, h1, tf - (t0 + h1)), ACC0, jMax, aMax, aMin);
      if ok {
        ThreeKnots(p.v[0], a0, jMax, -jMax, t0, h1, tf - (t0 + h1), After(a0, jMax, t0), af);
      }
    }

    method TryUpUp(p: Profile, aMax: real, aMin: real, jMax: real) returns (ok: bool)
      requires Bounded(p) && jMax != 0.0
      modifies p
      ensures Kept(p) && (ok ==> VelocityTimely(p, tf) && VelocityExact(p))
      ensures ok ==> p.direction == Way(aMax)
      ensures ok <==> UpUpHolds(jMax, aMax, aMin) && tf <= T_MAX
    {
      hide VelocityAt, PositionAt, SecondOrderPattern, VelocityAccepts, NonNegative, Abs, UpUpTime;
      var h1 := -ad + jMax * tf;
      if h1 == 0.0 {
        // A quotient by zero is infinite or not a number, and the check refuses both.
        return false;
      }
      var t0 := UpUpTime(ad, vd, a0, tf, jMax, h1);
      var t1 := -ad / jMax + tf;
      var t6 := tf - (t0 + t1);
      UpUpReaches(a0, af, vd, tf, jMax, h1, t0, t1, t6);
      OuterExact(p.v[0], a0, af, vd, jMax, t0, t1, t6, aMax, aMin);
      ok := Try(p, UpUpTimes(t0, t1, t6), ACC0, jMax, aMax, aMin);
      if ok {
        UpUpKnots(p.v[0], a0, jMax, -jMax, t0, t1, t6, After(a0, jMax, t0), af);
      }
    }

    /** The two-step form, from velocity `v0`, passes the check. */
    predicate TwoStepPasses(v0: real, j: real, aMax: real, aMin: real)
      requires j != 0.0
    {
      var t := UpUpTimes(0.0, -ad / j + tf, ad / j);
      VelocityAccepts(t, ThirdOrderPattern(UDDU, t, j), ACC0, v0, a0, v0 + vd, af, aMax, aMin)
    }

    /** The form that stands still passes the check. */
    predicate StillPasses(v0: real, j: real, aMax: real, aMin: real) {
      var t := Times(0.0, tf, 0.0);
      && a0 == 0.0 && af == 0.0 && vd == 0.0
      && VelocityAccepts(t, ThirdOrderPattern(UDDU, t, j), NONE, v0, a0, v0 + vd, af, aMax, aMin)
    }

    /** The form with a jerk of its own passes the check. */
    predicate RampPasses(v0: real, j: real, aMax: real, aMin: real) {
      var h1 := 2.0 * (af * tf - vd);
      && ad != 0.0 && h1 != 0.0 && Abs(ad * ad / h1) < Abs(j) + J_EPS
      && var t := Times(h1 / ad, tf - h1 / ad, 0.0);
         VelocityAccepts(t, ThirdOrderPattern(UDDU, t, ad * ad / h1), NONE, v0, a0, v0 + vd, af, aMax, aMin)
    }

    /** Without the check: the axis stands still and is to stand still. */
    lemma StillExactly(v0: real, j: real, aMax: real, aMin: real)
      ensures StillPasses(v0, j, aMax, aMin) <==>
        a0 == 0.0 && af == 0.0 && vd == 0.0 && 0.0 <= tf <= T_MAX && InLimits(0.0, aMax, aMin)
    {
      Standstill(tf, j, -j);
      if a0 == 0.0 && af == 0.0 && vd == 0.0 {
        VelocityAccepted(NONE, v0, a0, af, vd, 0.0, j, 0.0, tf, 0.0, aMax, aMin);
      }
    }

    /** Without the check: the jerk it takes is allowed, and so is the acceleration held. */
    lemma RampExactly(v0: real, j: real, aMax: real, aMin: real)
      requires ad == af - a0
      ensures var h1 := 2.0 * (af * tf - vd);
        RampPasses(v0, j, aMax, aMin) <==>
        && ad != 0.0 && h1 != 0.0 && Abs(ad * ad / h1) < Abs(j) + J_EPS
        && 0.0 <= h1 / ad <= tf <= T_MAX && InLimits(af, aMax, aMin)
    {
      hide Abs, VelocityAccepts, ThirdOrderPattern, Times, InLimits;
      var h1 := 2.0 * (af * tf - vd);
      if ad != 0.0 && h1 != 0.0 {
        RampAccepted(v0, h1, h1 / ad, ad * ad / h1, aMax, aMin);
      }
    }

    lemma RampAccepted(v0: real, h1: real, t0: real, jf: real, aMax: real, aMin: real)
      requires ad == af - a0 && h1 == 2.0 * (af * tf - vd) && ad != 0.0 && h1 != 0.0
      requires t0 == h1 / ad && jf == ad * ad / h1
      ensures var t := Times(t0, tf - t0, 0.0);
        VelocityAccepts(t, ThirdOrderPattern(UDDU, t, jf), NONE, v0, a0, v0 + vd, af, aMax, aMin) <==>
        0.0 <= t0 <= tf <= T_MAX && InLimits(af, aMax, aMin)
    {
      RampReaches(a0, af, vd, tf, h1, t0, jf);
      NoTime(af, -jf);
      hide After, Rise, VelocityAccepts, ThirdOrderPattern, Times, InLimits;
      VelocityAccepted(NONE, v0, a0, af, vd, af, jf, t0, tf - t0, 0.0, aMax, aMin);
    }

    /** Without the check: there is time, and waiting and then changing over at full jerk comes close enough. */
    lemma TwoStepExactly(v0: real, j: real, aMax: real, aMin: real)
      requires ad == af - a0 && j != 0.0
      ensures TwoStepPasses(v0, j, aMax, aMin) <==>
        && ad / j >= 0.0 && -ad / j + tf >= EPSILON && tf <= T_MAX && InLimits(a0, aMax, aMin)
        && Abs(Rise(a0, 0.0, -ad / j + tf) + Rise(a0, j, ad / j) - vd) < V_PRECISION
    {
      var t1, t6 := -ad / j + tf, ad / j;
      NoTime(a0, j);
      QuotientTimes(ad, j, t6);
      QuotientNegated(ad, j);
      assert After(a0, j, t6) == af;
      hide After, Rise, Abs, VelocityAccepts, ThirdOrderPattern, UpUpTimes, InLimits;
      OuterAccepted(v0, a0, af, vd, Rise(a0, 0.0, t1) + Rise(a0, j, t6), j, 0.0, t1, t6, aMax, aMin);
    }

    /** One of the five forms passes, in one direction. */
    ghost predicate SomePasses(sqrt: real -> real, v0: real, j: real, aMax: real, aMin: real)
      requires j != 0.0
    {
      || (tf <= T_MAX && (UpDownHolds(sqrt, j, aMax, aMin) || UpUpHolds(j, aMax, aMin)))
      || TwoStepPasses(v0, j, aMax, aMin) || StillPasses(v0, j, aMax, aMin) || RampPasses(v0, j, aMax, aMin)
    }

    /** The three candidates with full jerk; only the last need not reach the target by itself. */
    method TimeAcc0(sqrt: real -> real, p: Profile, aMax: real, aMin: real, jMax: real) returns (ok: bool)
      requires Bounded(p) && IsSqrt(sqrt) && jMax != 0.0
      modifies p
      ensures Kept(p) && (ok ==> VelocityTimely(p, tf) && (VelocityExact(p) || TwoStep(p, jMax)))
      ensures ok ==> p.direction == Way(aMax)
      ensures ok <==>
        || (tf <= T_MAX && (UpDownHolds(sqrt, jMax, aMax, aMin) || UpUpHolds(jMax, aMax, aMin)))
        || TwoStepPasses(p.v[0], jMax, aMax, aMin)
    {
      hide VelocityTimely, VelocityExact, IsSqrt, UpDownHolds, UpUpHolds, VelocityAccepts, ThirdOrderPattern;
      ok := TryUpDown(sqrt, p, aMax, aMin, jMax);
      if ok {
        return;
      }
      ok := TryUpUp(p, aMax, aMin, jMax);
      if ok {
        return;
      }
      QuotientNegated(ad, jMax);
      ok := Try(p, UpUpTimes(0.0, -ad / jMax + tf, ad / jMax), ACC0, jMax, aMax, aMin);
    }

    method TimeNone(p: Profile, aMax: real, aMin: real, jMax: real) returns (ok: bool)
      requires Bounded(p)
      modifies p
      ensures Kept(p) && (ok ==> VelocityTimely(p, tf) && VelocityExact(p))
      ensures ok ==> p.direction == Way(aMax)
      ensures ok <==> StillPasses(p.v[0], jMax, aMax, aMin) || RampPasses(p.v[0], jMax, aMax, aMin)
    {
      hide VelocityAt, PositionAt, SecondOrderPattern, ThirdOrderPattern, VelocityAccepts, NonNegative, Abs;
      if a0 == 0.0 && af == 0.0 && vd == 0.0 {
        ok := Try(p, Times(0.0, tf, 0.0), NONE, jMax, aMax, aMin);
        if ok {
          FirstTimes(p.t, 0.0, tf, 0.0);
          Standstill(tf, jMax, -jMax);
          ThreeKnots(p.v[0], 0.0, jMax, -jMax, 0.0, tf, 0.0, 0.0, 0.0);
          return;
        }
      }
      var h1 := 2.0 * (af * tf - vd);
      if ad == 0.0 || h1 == 0.0 {
        // The time or the jerk is infinite or not a number.
        return false;
      }
      var t0 := h1 / ad;
      var jf := ad * ad / h1;
      if Abs(jf) < Abs(jMax) + J_EPS {
        ok := Try(p, Times(t0, tf - t0, 0.0), NONE, jf, aMax, aMin);
        if ok {
          RampReaches(a0, af, vd, tf, h1, t0, jf);
          FirstTimes(p.t, t0, tf - t0, 0.0);
          NoTime(af, -jf);
          ThreeKnots(p.v[0], a0, jf, -jf, t0, tf - t0, 0.0, af, af);
        }
      } else {
        ok := false;
      }
    }

    method CheckAll(sqrt: real -> real, p: Profile, aMax: real, aMin: real, jMax: real) returns (ok: bool)
      requires Bounded(p) && IsSqrt(sqrt) && jMax != 0.0
      modifies p
      ensures Kept(p) && (ok ==> VelocityTimely(p, tf) && (VelocityExact(p) || TwoStep(p, jMax)))
      ensures ok ==> p.direction == Way(aMax)
      ensures ok <==> SomePasses(sqrt, p.v[0], jMax, aMax, aMin)
    {
      hide VelocityTimely, VelocityExact, IsSqrt, UpDownHolds, UpUpHolds, TwoStepPasses, StillPasses, RampPasses;
      ok := TimeAcc0(sqrt, p, aMax, aMin, jMax);
      if !ok {
        ok := TimeNone(p, aMax, aMin, jMax);
      }
    }

    /** A motion to the target that keeps the limits and takes as long as asked, or less if none is left over. */
    ghost predicate InTime(w: seq<Segment>) {
      && UsualLimits(a0, aMax, aMin, jMax, -jMax) && aMin <= af <= aMax
      && Travels(w, a0, af, vd, aMin, aMax, -jMax, jMax)
      && (Duration(w) == tf || (af == 0.0 && Duration(w) <= tf))
    }

    /** A candidate that matches the duration, in either direction. */
    ghost predicate SomeHolds(sqrt: real -> real)
      requires jMax != 0.0
    {
      || UpDownHolds(sqrt, jMax, aMax, aMin) || UpUpHolds(jMax, aMax, aMin)
      || UpDownHolds(sqrt, -jMax, aMin, aMax) || UpUpHolds(-jMax, aMin, aMax)
    }

    /** Every motion in time is matched by a candidate; what is refused is one that holds its peak too briefly. */
    lemma MatchedUnlessBrief(sqrt: real -> real, w: seq<Segment>)
      requires IsSqrt(sqrt) && jMax != 0.0 && InTime(w)
      ensures SomeFits(sqrt, a0, af, vd, tf, aMax, aMin, jMax, -jMax)
      ensures !SomeHolds(sqrt) ==>
        || 0.0 <= sqrt(CruiseSquare(a0, af, vd, tf, jMax, -jMax)) < EPSILON
        || 0.0 <= sqrt(CruiseSquare(a0, af, vd, tf, -jMax, jMax)) < EPSILON
        || 0.0 <= -(af - a0) / jMax + tf < EPSILON || 0.0 <= -(af - a0) / -jMax + tf < EPSILON
    {
      hide Travels, Duration, CruiseSquare, UpTime, UpUpTime;
      assert -(-jMax) == jMax;
      if Duration(w) == tf {
        AnyDurationFits(w, sqrt, a0, af, vd, aMin, aMax, -jMax, jMax);
      } else {
        LongerDurationsFit(w, tf, sqrt, a0, vd, aMin, aMax, -jMax, jMax);
      }
    }

    /**
     * Any profile found lasts exactly `tf`, and reaches the target exactly unless it is of the two-step form. One is
     * found exactly if one of the five forms passes in one of the directions.
     */
    method GetProfile(sqrt: real -> real, p: Profile) returns (ok: bool)
      requires Bounded(p) && IsSqrt(sqrt) && jMax != 0.0
      modifies p
      ensures Kept(p) && (ok ==> VelocityTimely(p, tf) && (VelocityExact(p) || TwoStep(p, jMax) || TwoStep(p, -jMax)))
      ensures ok <==> SomePasses(sqrt, p.v[0], jMax, aMax, aMin) || SomePasses(sqrt, p.v[0], -jMax, aMin, aMax)
      ensures ok ==>
        var up, down := SomePasses(sqrt, p.v[0], jMax, aMax, aMin), SomePasses(sqrt, p.v[0], -jMax, aMin, aMax);
        p.direction == Way(if up && (vd > 0.0 || !down) then aMax else aMin)
    {
      hide VelocityTimely, VelocityExact, IsSqrt, SomePasses;
      assert -(-jMax) == jMax;
      if vd > 0.0 {
        ok := CheckAll(sqrt, p, aMax, aMin, jMax);
        if !ok {
          ok := CheckAll(sqrt, p, aMin, aMax, -jMax);
        }
      } else {
        ok := CheckAll(sqrt, p, aMin, aMax, -jMax);
        if !ok {
          ok := CheckAll(sqrt, p, aMax, aMin, jMax);
        }
      }
    }
  }

  // ---------------------------------------------------------------- a duration that is refused

  /** From rest to velocity 1 in two seconds under a jerk of 1: a triangle, with no time at its peak. */
  lemma TriangleSquares()
    ensures CruiseSquare(0.0, 0.0, 1.0, 2.0, 1.0, -1.0) == 0.0
    ensures CruiseSquare(0.0, 0.0, 1.0, 2.0, -1.0, 1.0) == 8.0
  {}

  lemma TriangleRoots(sqrt: real -> real)
    requires IsSqrt(sqrt)
    ensures sqrt(0.0) == 0.0 && UpTime(0.0, 0.0, 2.0, -1.0, 1.0, sqrt(8.0)) < 0.0
  {
    RootOrder(sqrt, 0.0, 0.0);
    RootOrder(sqrt, 8.0, 2.5);
    hide IsSqrt, UpTime;
    UpTimeMeans(0.0, 0.0, 2.0, -1.0, 1.0, sqrt(8.0), UpTime(0.0, 0.0, 2.0, -1.0, 1.0, sqrt(8.0)));
  }

  lemma TriangleHolds(sqrt: real -> real, step: VelocityThirdOrderStep2)
    requires IsSqrt(sqrt) && step.a0 == step.af == step.ad == 0.0 && step.vd == 1.0 && step.tf == 2.0
    requires step.jMax == 1.0 && step.aMax == 10.0 && step.aMin == -10.0
    ensures !step.SomeHolds(sqrt)
  {
    hide IsSqrt, CruiseSquare, UpTime;
    TriangleSquares();
    TriangleRoots(sqrt);
  }

  lemma TriangleTwoStep(j: real)
    requires j == 1.0 || j == -1.0
    ensures var t := UpUpTimes(0.0, 2.0, 0.0);
      !VelocityAccepts(t, ThirdOrderPattern(UDDU, t, j), ACC0, 0.0, 0.0, 1.0, 0.0, 10.0 * j, -10.0 * j)
  {
    OuterPatternsAgree(UpUpTimes(0.0, 2.0, 0.0), j);
    UpUpKnots(0.0, 0.0, j, -j, 0.0, 2.0, 0.0, 0.0, 0.0);
  }

  lemma TriangleReaches()
    ensures Reaches(0.0, 0.0, 1.0, 1.0, 1.0, -1.0, 1.0, 0.0, 1.0)
  {}

  lemma TriangleMotion() returns (w: seq<Segment>)
    ensures Travels(w, 0.0, 0.0, 1.0, -10.0, 10.0, -1.0, 1.0) && Duration(w) == 2.0
  {
    hide Reaches, Travels, Duration, Three;
    TriangleReaches();
    w := Three(1.0, 1.0, 0.0, -1.0, 1.0);
    ThreeAdmissible(0.0, 1.0, 1.0, 1.0, -1.0, 1.0, 0.0, 1.0, 10.0, -10.0, 1.0, -1.0);
  }

  lemma TriangleFindsNothing(sqrt: real -> real, step: VelocityThirdOrderStep2)
    requires IsSqrt(sqrt) && step.a0 == step.af == step.ad == 0.0 && step.vd == 1.0 && step.tf == 2.0
    requires step.jMax == 1.0 && step.aMax == 10.0 && step.aMin == -10.0
    ensures !step.SomePasses(sqrt, 0.0, step.jMax, step.aMax, step.aMin)
    ensures !step.SomePasses(sqrt, 0.0, -step.jMax, step.aMin, step.aMax)
  {
    TriangleHolds(sqrt, step);
    TriangleTwoStep(1.0);
    TriangleTwoStep(-1.0);
    hide IsSqrt, VelocityAccepts, ThirdOrderPattern;
  }

  /** The step finds nothing for a duration that a motion within the limits takes. */
  method TriangleIsRefused(sqrt: real -> real)
    returns (step: VelocityThirdOrderStep2, ok: bool, ghost w: seq<Segment>)
    requires IsSqrt(sqrt)
    ensures step.tf == 2.0 && step.InTime(w) && !ok
  {
    hide IsSqrt, VelocityAccepts, VelocityTimely, VelocityExact, ThirdOrderPattern, UpDownFits, UpUpFits, UpUpTimes,
         Travels, Duration;
    step := new VelocityThirdOrderStep2(2.0, 0.0, 0.0, 1.0, 0.0, 10.0, -10.0, 1.0);
    var p := new Profile();
    p.a, p.v, p.vf, p.af := SEVEN_ZEROS + [0.0], SEVEN_ZEROS + [0.0], 1.0, 0.0;
    w := TriangleMotion();
    TriangleFindsNothing(sqrt, step);
    ok := step.GetProfile(sqrt, p);
  }
}
