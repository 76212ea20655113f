/**
 * Moving targets: in the frame that moves with the target it is at rest. So for every target velocity a duration is
 * possible exactly if it is enough for the velocities and the distance is neither too far nor too near for it.
 */
module SecondOrderTargets {
  import opened Kinematics
  import opened RealArithmetic
  import opened SecondOrder
  import opened SecondOrderDurations
  import opened SecondOrderForms

  // ---------------------------------------------------------------- the frame of the target

  lemma SquareShifted(v: real, vf: real, pd: real, T: real, u: real, d: real)
    requires u != 0.0 && d != 0.0
    ensures CruiseSquare(v - vf, 0.0, pd - vf * T, T, u, d) == CruiseSquare(v, vf, pd, T, u, d)
  {
    assert T * 0.0 == 0.0 && T * (v - vf) == T * v - T * vf;
    assert (0.0 - (v - vf)) * (0.0 - (v - vf)) == (vf - v) * (vf - v);
  }

  lemma UpTimesShifted(v: real, vf: real, pd: real, T: real, u: real, d: real, h: real)
    requires u != 0.0 && d != 0.0 && u != d
    ensures UpTime(v - vf, 0.0, T, u, d, h) == UpTime(v, vf, T, u, d, h)
  {
    assert 0.0 - (v - vf) == vf - v;
  }

  lemma UpUpTimeShifted(v: real, vf: real, pd: real, T: real, u: real, h1: real)
    requires u != 0.0 && h1 != 0.0
    ensures UpUpTime(0.0 - (v - vf), pd - vf * T, v - vf, T, u, h1) == UpUpTime(vf - v, pd, v, T, u, h1)
  {
    assert 0.0 - (v - vf) == vf - v;
    assert pd - vf * T - (v - vf) * T == pd - v * T;
  }

  lemma CoverShifted(v: real, vf: real, T: real, u: real, d: real, c: real)
    requires u != 0.0 && d != 0.0
    ensures HoldTime(v - vf, 0.0, T, u, d, c - vf) == HoldTime(v, vf, T, u, d, c)
    ensures Cover(v - vf, 0.0, T, u, d, c - vf) == Cover(v, vf, T, u, d, c) - vf * T
  {
    assert c - vf - (v - vf) == c - v && 0.0 - (c - vf) == vf - c;
    var t0, h, t2 := (c - v) / u, HoldTime(v, vf, T, u, d, c), (vf - c) / d;
    ShiftedRise(v, vf, u, t0);
    ShiftedRise(c, vf, 0.0, h);
    ShiftedRise(c, vf, d, t2);
    assert t0 + h + t2 == T;
    assert vf * t0 + vf * h + vf * t2 == vf * T;
  }

  lemma FarShifted(v: real, vf: real, pd: real, T: real, u: real, d: real, high: real)
    requires u != 0.0 && d != 0.0
    ensures NotTooFar(v - vf, 0.0, pd - vf * T, T, u, d, high - vf) <==> NotTooFar(v, vf, pd, T, u, d, high)
  {
    SquareShifted(v, vf, pd, T, u, d);
    CoverShifted(v, vf, T, u, d, high);
    hide CruiseSquare, HoldTime, Cover;
  }

  lemma NearShifted(v: real, vf: real, pd: real, T: real, u: real, d: real, low: real)
    requires u != 0.0 && d != 0.0
    ensures NotTooNear(v - vf, 0.0, pd - vf * T, T, u, d, low - vf) <==> NotTooNear(v, vf, pd, T, u, d, low)
  {
    FarShifted(-v, -vf, -pd, T, -d, -u, -low);
    assert -0.0 == 0.0 && -(v - vf) == -v - -vf && -(low - vf) == -low - -vf;
    assert -(pd - vf * T) == -pd - -vf * T;
    hide NotTooFar;
  }

  lemma EnoughShifted(v: real, vf: real, T: real, u: real, d: real)
    ensures EnoughTime(v - vf, 0.0, T, u, d) <==> EnoughTime(v, vf, T, u, d)
  {}

  lemma UpDownShifted(sqrt: real -> real, v: real, vf: real, pd: real, T: real, u: real, d: real, low: real, high: real)
    requires u != 0.0 && d != 0.0 && u != d
    ensures UpDownMatches(sqrt, v - vf, 0.0, pd - vf * T, T, u, d, low - vf, high - vf) <==>
            UpDownMatches(sqrt, v, vf, pd, T, u, d, low, high)
  {
    hide CruiseSquare, UpTime;
    SquareShifted(v, vf, pd, T, u, d);
    UpTimesShifted(v, vf, pd, T, u, d, sqrt(CruiseSquare(v, vf, pd, T, u, d)));
  }

  lemma UpUpShifted(v: real, vf: real, pd: real, T: real, u: real, low: real, high: real)
    requires u != 0.0
    ensures UpUpMatches(v - vf, 0.0, pd - vf * T, T, u, low - vf, high - vf) <==>
            UpUpMatches(v, vf, pd, T, u, low, high)
  {
    hide UpUpTime;
    var h1 := -(vf - v) + u * T;
    assert -(0.0 - (v - vf)) == -(vf - v);
    if h1 != 0.0 {
      UpUpTimeShifted(v, vf, pd, T, u, h1);
    }
  }

  lemma MatchesShifted(sqrt: real -> real, v: real, vf: real, pd: real, T: real,
                       vMax: real, vMin: real, aMax: real, aMin: real)
    requires aMax != 0.0 && aMin != 0.0 && aMax != aMin
    ensures SomeMatches(sqrt, v - vf, 0.0, pd - vf * T, T, vMax - vf, vMin - vf, aMax, aMin) <==>
            SomeMatches(sqrt, v, vf, pd, T, vMax, vMin, aMax, aMin)
  {
    hide UpDownMatches, UpUpMatches;
    UpDownShifted(sqrt, v, vf, pd, T, aMax, aMin, vMin, vMax);
    UpUpShifted(v, vf, pd, T, aMax, vMin, vMax);
    UpDownShifted(sqrt, v, vf, pd, T, aMin, aMax, vMin, vMax);
    UpUpShifted(v, vf, pd, T, aMin, vMin, vMax);
  }

  // ---------------------------------------------------------------- which durations are possible

  /** Start and target are inside the velocity limits, whatever these are. */
  predicate AnyLimits(v: real, vf: real, vMax: real, vMin: real, aMax: real, aMin: real) {
    aMin < 0.0 < aMax && vMin <= v <= vMax && vMin <= vf <= vMax
  }

  /** The duration is enough, and the distance is neither too far nor too near for it. */
  predicate Reachable(v: real, vf: real, pd: real, T: real, vMax: real, vMin: real, aMax: real, aMin: real)
    requires aMax != 0.0 && aMin != 0.0
  {
    && EnoughTime(v, vf, T, aMax, aMin)
    && NotTooFar(v, vf, pd, T, aMax, aMin, vMax) && NotTooNear(v, vf, pd, T, aMax, aMin, vMin)
  }

  lemma MotionIsNotTooFar(w: seq<Segment>, v: real, vf: real, pd: real, vMax: real, vMin: real, aMax: real, aMin: real)
    requires AnyLimits(v, vf, vMax, vMin, aMax, aMin) && Travels(w, v, vf, pd, vMin, vMax, aMin, aMax)
    ensures EnoughTime(v, vf, Duration(w), aMax, aMin)
    ensures NotTooFar(v, vf, pd, Duration(w), aMax, aMin, vMax)
  {
    var T := Duration(w);
    ShiftedWithin(w, v, vf, vMin, vMax, aMin, aMax);
    hide Within, EndVelocity, Displacement, Duration, NotTooFar, EnoughTime;
    Necessary(w, v - vf, pd - vf * T, vMin - vf, vMax - vf, aMin, aMax);
    EnoughShifted(v, vf, T, aMax, aMin);
    FarShifted(v, vf, pd, T, aMax, aMin, vMax);
  }

  /** What holds of every motion. */
  lemma MotionIsReachable(w: seq<Segment>, v: real, vf: real, pd: real, vMax: real, vMin: real, aMax: real, aMin: real)
    requires AnyLimits(v, vf, vMax, vMin, aMax, aMin) && Travels(w, v, vf, pd, vMin, vMax, aMin, aMax)
    ensures Reachable(v, vf, pd, Duration(w), vMax, vMin, aMax, aMin)
  {
    MirroredWithin(w, v, vMin, vMax, aMin, aMax);
    hide Within, EndVelocity, Displacement, Duration, NotTooFar, EnoughTime;
    MotionIsNotTooFar(w, v, vf, pd, vMax, vMin, aMax, aMin);
    MotionIsNotTooFar(Mirrored(w), -v, -vf, -pd, -vMin, -vMax, -aMin, -aMax);
  }

  /** What is reachable is matched by a candidate. */
  lemma ReachableMatches(sqrt: real -> real, v: real, vf: real, pd: real, T: real,
                         vMax: real, vMin: real, aMax: real, aMin: real)
    requires IsSqrt(sqrt) && AnyLimits(v, vf, vMax, vMin, aMax, aMin) && Reachable(v, vf, pd, T, vMax, vMin, aMax, aMin)
    ensures SomeMatches(sqrt, v, vf, pd, T, vMax, vMin, aMax, aMin)
  {
    hide NotTooFar, EnoughTime, SomeMatches;
    EnoughShifted(v, vf, T, aMax, aMin);
    FarShifted(v, vf, pd, T, aMax, aMin, vMax);
    NearShifted(v, vf, pd, T, aMax, aMin, vMin);
    Sufficient(sqrt, v - vf, pd - vf * T, T, vMin - vf, vMax - vf, aMin, aMax);
    MatchesShifted(sqrt, v, vf, pd, T, vMax, vMin, aMax, aMin);
  }

  /** Three segments are a motion within the limits if the speed between them is. */
  lemma ThreeTravel(v: real, vf: real, pd: real, c: real, t0: real, a: real, t1: real, b: real, t2: real,
                    vMax: real, vMin: real, aMax: real, aMin: real) returns (w: seq<Segment>)
    requires AnyLimits(v, vf, vMax, vMin, aMax, aMin) && aMin <= a <= aMax && aMin <= b <= aMax
    requires After(v, a, t0) == c && After(c, b, t2) == vf && Rise(v, a, t0) + Rise(c, 0.0, t1) + Rise(c, b, t2) == pd
    requires t0 >= 0.0 && t1 >= 0.0 && t2 >= 0.0 && vMin <= c <= vMax
    ensures Travels(w, v, vf, pd, vMin, vMax, aMin, aMax) && Duration(w) == t0 + t1 + t2
  {
    hide After, Rise;
    var last := [Segment(t2, b)];
    var cruise := [Segment(t1, 0.0)] + last;
    OneSegment(c, t2, b, vMin, vMax, aMin, aMax);
    NoPush(c, t1);
    Unfold(c, Segment(t1, 0.0), last, vMin, vMax, aMin, aMax);
    Unfold(v, Segment(t0, a), cruise, vMin, vMax, aMin, aMax);
    w := [Segment(t0, a)] + cruise;
    hide Within, Duration, EndVelocity, Displacement;
  }

  lemma UpDownTravels(sqrt: real -> real, v: real, vf: real, pd: real, T: real, u: real, d: real,
                      vMax: real, vMin: real, aMax: real, aMin: real) returns (w: seq<Segment>)
    requires IsSqrt(sqrt) && AnyLimits(v, vf, vMax, vMin, aMax, aMin)
    requires u != 0.0 && d != 0.0 && u != d && aMin <= u <= aMax && aMin <= d <= aMax
    requires UpDownMatches(sqrt, v, vf, pd, T, u, d, vMin, vMax)
    ensures Travels(w, v, vf, pd, vMin, vMax, aMin, aMax) && Duration(w) == T
  {
    hide CruiseSquare, UpTime, Travels, Duration;
    var h := sqrt(CruiseSquare(v, vf, pd, T, u, d));
    var t0 := UpTime(v, vf, T, u, d, h);
    UpDownReaches(v, vf, pd, T, u, d, h, t0);
    hide After, Rise;
    w := ThreeTravel(v, vf, pd, After(v, u, t0), t0, u, h, d, T - (t0 + h), vMax, vMin, aMax, aMin);
  }

  lemma UpUpTravels(v: real, vf: real, pd: real, T: real, u: real, vMax: real, vMin: real, aMax: real, aMin: real)
    returns (w: seq<Segment>)
    requires AnyLimits(v, vf, vMax, vMin, aMax, aMin) && u != 0.0 && aMin <= u <= aMax
    requires UpUpMatches(v, vf, pd, T, u, vMin, vMax)
    ensures Travels(w, v, vf, pd, vMin, vMax, aMin, aMax) && Duration(w) == T
  {
    hide UpUpTime, Travels, Duration;
    var h1 := -(vf - v) + u * T;
    var t0, t1 := UpUpTime(vf - v, pd, v, T, u, h1), -(vf - v) / u + T;
    UpUpReaches(v, vf, pd, T, u, h1, t0, t1, T - (t0 + t1));
    hide After, Rise;
    w := ThreeTravel(v, vf, pd, After(v, u, t0), t0, u, t1, u, T - (t0 + t1), vMax, vMin, aMax, aMin);
  }

  /** A matching candidate is a motion. */
  lemma MatchTravels(sqrt: real -> real, v: real, vf: real, pd: real, T: real,
                     vMax: real, vMin: real, aMax: real, aMin: real) returns (w: seq<Segment>)
    requires IsSqrt(sqrt) && AnyLimits(v, vf, vMax, vMin, aMax, aMin)
    requires SomeMatches(sqrt, v, vf, pd, T, vMax, vMin, aMax, aMin)
    ensures Travels(w, v, vf, pd, vMin, vMax, aMin, aMax) && Duration(w) == T
  {
    hide UpDownMatches, UpUpMatches, Travels, Duration;
    if UpDownMatches(sqrt, v, vf, pd, T, aMax, aMin, vMin, vMax) {
      w := UpDownTravels(sqrt, v, vf, pd, T, aMax, aMin, vMax, vMin, aMax, aMin);
    } else if UpUpMatches(v, vf, pd, T, aMax, vMin, vMax) {
      w := UpUpTravels(v, vf, pd, T, aMax, vMax, vMin, aMax, aMin);
    } else if UpDownMatches(sqrt, v, vf, pd, T, aMin, aMax, vMin, vMax) {
      w := UpDownTravels(sqrt, v, vf, pd, T, aMin, aMax, vMax, vMin, aMax, aMin);
    } else {
      w := UpUpTravels(v, vf, pd, T, aMin, vMax, vMin, aMax, aMin);
    }
  }

  /** Some motion within the limits takes exactly so long. */
  ghost predicate Feasible(v: real, vf: real, pd: real, T: real, vMax: real, vMin: real, aMax: real, aMin: real) {
    exists w :: Travels(w, v, vf, pd, vMin, vMax, aMin, aMax) && Duration(w) == T
  }

  /**
   * A duration is that of some motion, of any number of segments, exactly if it is reachable, and exactly if one of
   * four candidates matches it.
   */
  lemma FeasibleExactly(sqrt: real -> real, v: real, vf: real, pd: real, T: real,
                        vMax: real, vMin: real, aMax: real, aMin: real)
    requires IsSqrt(sqrt) && AnyLimits(v, vf, vMax, vMin, aMax, aMin)
    ensures Feasible(v, vf, pd, T, vMax, vMin, aMax, aMin) <==> Reachable(v, vf, pd, T, vMax, vMin, aMax, aMin)
    ensures Feasible(v, vf, pd, T, vMax, vMin, aMax, aMin) <==>
            SomeMatches(sqrt, v, vf, pd, T, vMax, vMin, aMax, aMin)
  {
    hide Travels, Duration, Reachable, SomeMatches;
    if w :| Travels(w, v, vf, pd, vMin, vMax, aMin, aMax) && Duration(w) == T {
      MotionIsReachable(w, v, vf, pd, vMax, vMin, aMax, aMin);
    }
    if Reachable(v, vf, pd, T, vMax, vMin, aMax, aMin) {
      ReachableMatches(sqrt, v, vf, pd, T, vMax, vMin, aMax, aMin);
    }
    if SomeMatches(sqrt, v, vf, pd, T, vMax, vMin, aMax, aMin) {
      var w := MatchTravels(sqrt, v, vf, pd, T, vMax, vMin, aMax, aMin);
    }
  }

  // ---------------------------------------------------------------- what the check lets through

  /** The candidate that goes up, cruises and goes down is within the limits, with the tolerance of the check. */
  predicate UpDownFits(sqrt: real -> real, v: real, vf: real, pd: real, T: real, u: real, d: real, vMax: real,
                       vMin: real)
    requires u != 0.0 && d != 0.0 && u != d
  {
    var e := CruiseSquare(v, vf, pd, T, u, d);
    && e >= 0.0
    && var t0 := UpTime(v, vf, T, u, d, sqrt(e));
       && t0 >= 0.0 && T - (t0 + sqrt(e)) >= 0.0
       && InLimits(After(v, u, t0), vMax, vMin) && InLimits(vf, vMax, vMin)
  }

  /** The candidate with a cruise between two equal accelerations is within the limits. */
  predicate UpUpFits(v: real, vf: real, pd: real, T: real, u: real, vMax: real, vMin: real)
    requires u != 0.0
  {
    var h1 := -(vf - v) + u * T;
    && h1 != 0.0
    && var t0 := UpUpTime(vf - v, pd, v, T, u, h1);
       && t0 >= 0.0 && -(vf - v) / u + T >= 0.0 && T - (t0 + (-(vf - v) / u + T)) >= 0.0
       && InLimits(After(v, u, t0), vMax, vMin)
  }

  /** One of the candidates that are tried is within the limits. */
  predicate SomeFits(sqrt: real -> real, v: real, vf: real, pd: real, T: real,
                     vMax: real, vMin: real, aMax: real, aMin: real)
    requires aMax != 0.0 && aMin != 0.0 && aMax != aMin
  {
    || UpDownFits(sqrt, v, vf, pd, T, aMax, aMin, vMax, vMin) || UpUpFits(v, vf, pd, T, aMax, vMax, vMin)
    || UpDownFits(sqrt, v, vf, pd, T, aMin, aMax, vMin, vMax) || UpUpFits(v, vf, pd, T, aMin, vMin, vMax)
  }

  /**
   * Every motion within the limits has one of the candidates to match it: same start, same target, same duration.
   */
  lemma AnyDurationFits(w: seq<Segment>, sqrt: real -> real, v: real, vf: real, pd: real,
                        vMin: real, vMax: real, aMin: real, aMax: real)
    requires IsSqrt(sqrt) && UsualLimits(v, vMax, vMin, aMax, aMin) && vMin <= vf <= vMax
    requires Travels(w, v, vf, pd, vMin, vMax, aMin, aMax)
    ensures SomeFits(sqrt, v, vf, pd, Duration(w), vMax, vMin, aMax, aMin)
  {
    hide Travels, Duration, CruiseSquare, UpTime, UpUpTime, After, Reachable;
    MotionIsReachable(w, v, vf, pd, vMax, vMin, aMax, aMin);
    ReachableMatches(sqrt, v, vf, pd, Duration(w), vMax, vMin, aMax, aMin);
  }

  /** A target at rest can be waited for, so every longer duration has a candidate as well. */
  lemma LongerDurationsFit(w: seq<Segment>, T: real, sqrt: real -> real, v: real, pd: real,
                           vMin: real, vMax: real, aMin: real, aMax: real)
    requires IsSqrt(sqrt) && UsualLimits(v, vMax, vMin, aMax, aMin) && Admissible(w, v, pd, vMin, vMax, aMin, aMax)
    requires Duration(w) <= T
    ensures SomeFits(sqrt, v, 0.0, pd, T, vMax, vMin, aMax, aMin)
  {
    var e := T - Duration(w);
    Waiting(w, e, v, vMin, vMax, aMin, aMax);
    hide Within, EndVelocity, Displacement, Duration, SomeFits;
    AnyDurationFits(w + [Segment(e, 0.0)], sqrt, v, 0.0, pd, vMin, vMax, aMin, aMax);
  }
}
