/**
 * The profiles of position_second_step1.cpp for any target: what its four calls find, and which durations the
 * extremal profiles of both directions tell some motion within the limits to take.
 */
module SecondOrderExtremals {
  import opened Blocks
  import opened BlockTable
  import opened Kinematics
  import opened PlateauTable
  import opened ProfileLists
  import opened Profiles
  import opened RealArithmetic
  import opened SecondOrder
  import opened SecondOrderDurations
  import opened SecondOrderRoots
  import opened SecondOrderTargets

  // ---------------------------------------------------------------- what the calls find

  lemma FlanksForward(v: real, vf: real, top: real, u: real, d: real)
    requires u > 0.0 > d
    ensures (top - v) / u >= 0.0 && (vf - top) / d >= 0.0 <==> top >= Max(v, vf)
  {
    QuotientTimes(top - v, u, (top - v) / u);
    QuotientTimes(vf - top, d, (vf - top) / d);
    SignsAgree(u, (top - v) / u, 1.0, top - v);
    SignsAgree(-d, (vf - top) / d, 1.0, top - vf);
  }

  /** A start and a target inside limits that let one move both ways. */
  predicate InBand(v: real, vf: real, low: real, high: real) {
    low < 0.0 < high && low <= v <= high && low <= vf <= high
  }

  /** Upwards a profile passes for its peak and its times. */
  lemma PassesUp(v: real, vf: real, top: real, t1: real, u: real, d: real, low: real, high: real)
    requires u > 0.0 > d && InBand(v, vf, low, high)
    ensures Passes(v, vf, top, t1, u, d, high, low) <==>
      Max(v, vf) <= top <= high + V_EPS && t1 >= 0.0 && PeakTime(v, vf, u, d, top) + t1 <= T_MAX
  {
    FlanksForward(v, vf, top, u, d);
    hide PeakTime;
  }

  /** The profile over a peak, upwards. */
  lemma OverUp(v: real, vf: real, top: real, u: real, d: real, low: real, high: real)
    requires u > 0.0 > d && InBand(v, vf, low, high)
    ensures OverPeak(v, vf, top, u, d, high, low) ==
            if Max(v, vf) <= top <= high + V_EPS then Timely([Found(PeakTime(v, vf, u, d, top), true)]) else []
  {
    PassesUp(v, vf, top, 0.0, u, d, low, high);
    TimelyFew([Found(PeakTime(v, vf, u, d, top), true)]);
    hide PeakTime, Passes, Timely;
  }

  /** The profiles found upwards are the extremal ones: without cruise, */
  lemma FlatUp(sqrt: real -> real, v: real, vf: real, pd: real, u: real, d: real, low: real, high: real)
    requires IsSqrt(sqrt) && u > 0.0 > d && InBand(v, vf, low, high)
    ensures NoneFound(sqrt, v, vf, pd, u, d, high, low) == Timely(Flat(WayOf(sqrt, v, vf, pd, u, d, high), true))
  {
    var e, w := Energy(v, vf, pd, u, d), WayOf(sqrt, v, vf, pd, u, d, high);
    if e >= 0.0 {
      OverUp(v, vf, sqrt(e), u, d, low, high);
      OverUp(v, vf, -sqrt(e), u, d, low, high);
    }
    TimelyFew(Flat(w, true));
    hide Energy, CruiseTime, PeakTime, LongerTime, OverPeak;
  }

  /** There is time for a cruise exactly from the limit on, and then the longer profile is the one with it. */
  lemma CruisesAbove(sqrt: real -> real, v: real, vf: real, pd: real, u: real, d: real, high: real)
    requires IsSqrt(sqrt) && u > 0.0 > d && high > 0.0
    ensures var e, t1 := Energy(v, vf, pd, u, d), CruiseTime(v, vf, pd, high, u, d);
      && (t1 >= 0.0 <==> e >= 0.0 && sqrt(e) >= high)
      && (t1 >= 0.0 ==> LongerTime(sqrt, v, vf, pd, u, d, high) == PeakTime(v, vf, u, d, high) + t1)
  {
    var e := Energy(v, vf, pd, u, d);
    CruiseSign(v, vf, pd, u, d, high);
    SquareSign(high);
    if e >= 0.0 {
      var s := sqrt(e);
      assert s * s == Sq(s);
      RootBounds(s, e, high);
    }
    hide PeakTime, CruiseTime, Energy, Sq;
  }

  /** and with one. */
  lemma CruisingUp(sqrt: real -> real, least: real, v: real, vf: real, pd: real, u: real, d: real,
                   low: real, high: real)
    requires IsSqrt(sqrt) && u > 0.0 > d && InBand(v, vf, low, high) && least >= 0.0
    ensures var w, t1 := WayOf(sqrt, v, vf, pd, u, d, high), CruiseTime(v, vf, pd, high, u, d);
      && CruiseFound(least, v, vf, pd, u, d, high, low) == Timely(Plateaus(w, t1 >= least, true))
      && Plateaus(w, t1 >= 0.0, true) == Cruising(w, true)
  {
    CruisesAbove(sqrt, v, vf, pd, u, d, high);
    PassesUp(v, vf, high, CruiseTime(v, vf, pd, high, u, d), u, d, low, high);
    TimelyFew(Cruising(WayOf(sqrt, v, vf, pd, u, d, high), true));
    hide Energy, CruiseTime, PeakTime, Passes, LongerTime, IsSqrt;
  }

  lemma PassesMirrored(v: real, vf: real, top: real, t1: real, u: real, d: real, vMax: real, vMin: real)
    requires u != 0.0 && d != 0.0 && vMax != 0.0
    ensures Passes(-v, -vf, -top, t1, -u, -d, -vMax, -vMin) == Passes(v, vf, top, t1, u, d, vMax, vMin)
    ensures PeakTime(-v, -vf, -u, -d, -top) == PeakTime(v, vf, u, d, top)
  {
    QuotientMirrored(top - v, u);
    QuotientMirrored(vf - top, d);
    assert -top - -v == -(top - v) && -vf - -top == -(vf - top);
  }

  /** The profile over a peak, downwards. */
  lemma OverDown(v: real, vf: real, top: real, u: real, d: real, low: real, high: real)
    requires u < 0.0 < d && InBand(v, vf, low, high)
    ensures OverPeak(v, vf, top, u, d, low, high) ==
            if Max(-v, -vf) <= -top <= -low + V_EPS then Timely([Found(PeakTime(-v, -vf, -u, -d, -top), false)]) else []
  {
    PassesMirrored(v, vf, top, 0.0, u, d, low, high);
    PassesUp(-v, -vf, -top, 0.0, -u, -d, -high, -low);
    TimelyFew([Found(PeakTime(-v, -vf, -u, -d, -top), false)]);
    hide PeakTime, Passes, Timely;
  }

  /** The profiles found downwards are the extremal ones of the mirrored task, the longer first. */
  lemma FlatDown(sqrt: real -> real, v: real, vf: real, pd: real, u: real, d: real, low: real, high: real)
    requires IsSqrt(sqrt) && u < 0.0 < d && InBand(v, vf, low, high)
    ensures NoneFound(sqrt, v, vf, pd, u, d, low, high) ==
            Timely(Flat(WayOf(sqrt, -v, -vf, -pd, -u, -d, -low), false))
  {
    var e, w := Energy(v, vf, pd, u, d), WayOf(sqrt, -v, -vf, -pd, -u, -d, -low);
    EnergyMirrored(v, vf, pd, u, d);
    OverDown(v, vf, sqrt(e), u, d, low, high);
    OverDown(v, vf, -sqrt(e), u, d, low, high);
    assert -(-sqrt(e)) == sqrt(e);
    TimelyFew(Flat(w, false));
    hide Energy, CruiseTime, PeakTime, LongerTime, OverPeak;
  }

  lemma CruisingDown(sqrt: real -> real, least: real, v: real, vf: real, pd: real, u: real, d: real,
                     low: real, high: real)
    requires IsSqrt(sqrt) && u < 0.0 < d && InBand(v, vf, low, high) && least >= 0.0
    ensures var w, t1 := WayOf(sqrt, -v, -vf, -pd, -u, -d, -low), CruiseTime(v, vf, pd, low, u, d);
      && CruiseFound(least, v, vf, pd, u, d, low, high) == Timely(Plateaus(w, t1 >= least, false))
      && Plateaus(w, t1 >= 0.0, false) == Cruising(w, false)
  {
    CruisesAbove(sqrt, -v, -vf, -pd, -u, -d, -low);
    CruiseTimeMirrored(v, vf, pd, low, u, d);
    PassesMirrored(v, vf, low, CruiseTime(v, vf, pd, low, u, d), u, d, low, high);
    PassesUp(-v, -vf, -low, CruiseTime(v, vf, pd, low, u, d), -u, -d, -high, -low);
    TimelyFew(Cruising(WayOf(sqrt, -v, -vf, -pd, -u, -d, -low), false));
    hide Energy, CruiseTime, PeakTime, Passes, LongerTime, IsSqrt;
  }

  /** All of them, with cruises that take at least so long. */
  lemma FoundAtLeast(sqrt: real -> real, least: real, v: real, vf: real, pd: real,
                     vMax: real, vMin: real, aMax: real, aMin: real)
    requires IsSqrt(sqrt) && InBand(v, vf, vMin, vMax) && aMin < 0.0 < aMax && least >= 0.0
    ensures
      var x := WayOf(sqrt, v, vf, pd, aMax, aMin, vMax);
      var y := WayOf(sqrt, -v, -vf, -pd, -aMin, -aMax, -vMin);
      AllFound(sqrt, least, v, vf, pd, vMax, vMin, aMax, aMin) ==
        Timely(Flat(x, true)) + Timely(Flat(y, false))
        + Timely(Plateaus(x, CruiseTime(v, vf, pd, vMax, aMax, aMin) >= least, true))
        + Timely(Plateaus(y, CruiseTime(v, vf, pd, vMin, aMin, aMax) >= least, false))
  {
    FlatUp(sqrt, v, vf, pd, aMax, aMin, vMin, vMax);
    FlatDown(sqrt, v, vf, pd, aMin, aMax, vMin, vMax);
    CruisingUp(sqrt, least, v, vf, pd, aMax, aMin, vMin, vMax);
    CruisingDown(sqrt, least, v, vf, pd, aMin, aMax, vMin, vMax);
    hide NoneFound, CruiseFound, WayOf, Flat, Plateaus, Timely, IsSqrt, InBand;
  }

  /**
   * The calls find the extremal profiles of both directions, as far as these do not take too long: one whose peak is
   * at the limit, up to the tolerance of the check, once without a cruise and once with one.
   */
  lemma FoundExactly(sqrt: real -> real, v: real, vf: real, pd: real, vMax: real, vMin: real, aMax: real, aMin: real)
    requires IsSqrt(sqrt) && InBand(v, vf, vMin, vMax) && aMin < 0.0 < aMax
    ensures AllFound(sqrt, 0.0, v, vf, pd, vMax, vMin, aMax, aMin) ==
            Timely(AllOf(WayOf(sqrt, v, vf, pd, aMax, aMin, vMax), WayOf(sqrt, -v, -vf, -pd, -aMin, -aMax, -vMin)))
  {
    FoundAtLeast(sqrt, 0.0, v, vf, pd, vMax, vMin, aMax, aMin);
    CruisingUp(sqrt, 0.0, v, vf, pd, aMax, aMin, vMin, vMax);
    CruisingDown(sqrt, 0.0, v, vf, pd, aMin, aMax, vMin, vMax);
    TimelyParts(WayOf(sqrt, v, vf, pd, aMax, aMin, vMax), WayOf(sqrt, -v, -vf, -pd, -aMin, -aMax, -vMin));
    hide AllFound, CruiseFound, WayOf, Flat, Plateaus, Cruising, AllOf, Timely, IsSqrt, InBand;
  }

  // ---------------------------------------------------------------- what they say of the durations

  /** Start and target inside the limits, and something moves. */
  predicate Moving(v: real, vf: real, vMax: real, vMin: real, aMax: real, aMin: real) {
    InBand(v, vf, vMin, vMax) && aMin < 0.0 < aMax && (v != 0.0 || vf != 0.0)
  }

  lemma OverTravels(v: real, vf: real, pd: real, top: real, t1: real, vMax: real, vMin: real, aMax: real, aMin: real)
    requires AnyLimits(v, vf, vMax, vMin, aMax, aMin) && t1 >= 0.0 && Max(v, vf) <= top <= vMax
    requires Reaches(v, vf, pd, top, aMax, aMin, (top - v) / aMax, t1, (vf - top) / aMin)
    ensures Feasible(v, vf, pd, PeakTime(v, vf, aMax, aMin, top) + t1, vMax, vMin, aMax, aMin)
  {
    FlanksForward(v, vf, top, aMax, aMin);
    hide Travels, Duration, After, Rise;
    var w := ThreeTravel(v, vf, pd, top, (top - v) / aMax, aMax, t1, aMin, (vf - top) / aMin, vMax, vMin, aMax, aMin);
  }

  /** The extremal profiles are motions. */
  lemma WayTravels(sqrt: real -> real, v: real, vf: real, pd: real, vMax: real, vMin: real, aMax: real, aMin: real)
    requires IsSqrt(sqrt) && InBand(v, vf, vMin, vMax) && aMin < 0.0 < aMax
    ensures var w := WayOf(sqrt, v, vf, pd, aMax, aMin, vMax);
      && (w != Nothing ==> Feasible(v, vf, pd, w.last, vMax, vMin, aMax, aMin))
      && (w.Two? ==> Feasible(v, vf, pd, w.first, vMax, vMin, aMax, aMin))
  {
    var w, e := WayOf(sqrt, v, vf, pd, aMax, aMin, vMax), Energy(v, vf, pd, aMax, aMin);
    hide Energy, CruiseTime, PeakTime, Reaches, Feasible;
    if w != Nothing {
      var s := sqrt(e);
      assert (-s) * (-s) == s * s == e;
      if w.Two? {
        NoneReaches(v, vf, pd, -s, aMax, aMin);
        OverTravels(v, vf, pd, -s, 0.0, vMax, vMin, aMax, aMin);
      }
      if s <= vMax {
        NoneReaches(v, vf, pd, s, aMax, aMin);
        OverTravels(v, vf, pd, s, 0.0, vMax, vMin, aMax, aMin);
      } else {
        CruisesAbove(sqrt, v, vf, pd, aMax, aMin, vMax);
        Acc0Reaches(v, vf, pd, vMax, aMax, aMin);
        OverTravels(v, vf, pd, vMax, CruiseTime(v, vf, pd, vMax, aMax, aMin), vMax, vMin, aMax, aMin);
      }
    }
  }

  lemma FeasibleMirrored(v: real, vf: real, pd: real, T: real, vMax: real, vMin: real, aMax: real, aMin: real)
    requires Feasible(-v, -vf, -pd, T, -vMin, -vMax, -aMin, -aMax)
    ensures Feasible(v, vf, pd, T, vMax, vMin, aMax, aMin)
  {
    var w :| Travels(w, -v, -vf, -pd, -vMax, -vMin, -aMax, -aMin) && Duration(w) == T;
    MirroredWithin(w, -v, -vMax, -vMin, -aMax, -aMin);
    hide Within, EndVelocity, Displacement, Duration;
    assert -(-v) == v && -(-vf) == vf && -(-pd) == pd && -(-vMin) == vMin && -(-vMax) == vMax;
    assert -(-aMin) == aMin && -(-aMax) == aMax;
    assert Travels(Mirrored(w), v, vf, pd, vMin, vMax, aMin, aMax);
  }

  /** A duration is that of some motion exactly if both directions allow it. */
  lemma BothAllow(sqrt: real -> real, v: real, vf: real, pd: real, T: real,
                  vMax: real, vMin: real, aMax: real, aMin: real)
    requires IsSqrt(sqrt) && Moving(v, vf, vMax, vMin, aMax, aMin)
    ensures
      var x := WayOf(sqrt, v, vf, pd, aMax, aMin, vMax);
      var y := WayOf(sqrt, -v, -vf, -pd, -aMin, -aMax, -vMin);
      && (x.One? || y.One?) && Sound(x) && Sound(y)
      && (Feasible(v, vf, pd, T, vMax, vMin, aMax, aMin) <==> Allowed(x, y, T))
  {
    hide Feasible, EnoughTime, NotTooFar, WayOf, Outside, WayAllows, Sound;
    FeasibleExactly(sqrt, v, vf, pd, T, vMax, vMin, aMax, aMin);
    FarExactly(sqrt, v, vf, pd, T, aMax, aMin, vMax);
    FarExactly(sqrt, -v, -vf, -pd, T, -aMin, -aMax, -vMin);
    WayBounds(sqrt, v, vf, pd, T, aMax, aMin, vMax);
    WayBounds(sqrt, -v, -vf, -pd, T, -aMin, -aMax, -vMin);
    WaysTogether(sqrt, v, vf, pd, aMax, aMin, vMin, vMax);
    if EnoughTime(v, vf, T, aMax, aMin) {
      EnoughMirrored(v, vf, T, aMax, aMin);
    }
    if EnoughTime(-v, -vf, T, -aMin, -aMax) {
      EnoughMirrored(-v, -vf, T, -aMin, -aMax);
      assert -(-v) == v && -(-vf) == vf && -(-aMin) == aMin && -(-aMax) == aMax;
    }
  }

  /** Each direction allows the profiles of the other. */
  lemma AllowEachOther(sqrt: real -> real, v: real, vf: real, pd: real, vMax: real, vMin: real, aMax: real, aMin: real)
    requires IsSqrt(sqrt) && Moving(v, vf, vMax, vMin, aMax, aMin)
    ensures
      var x := WayOf(sqrt, v, vf, pd, aMax, aMin, vMax);
      var y := WayOf(sqrt, -v, -vf, -pd, -aMin, -aMax, -vMin);
      && (x != Nothing ==> WayAllows(y, x.last)) && (x.Two? ==> WayAllows(y, x.first))
      && (y != Nothing ==> WayAllows(x, y.last)) && (y.Two? ==> WayAllows(x, y.first))
  {
    var x, y := WayOf(sqrt, v, vf, pd, aMax, aMin, vMax), WayOf(sqrt, -v, -vf, -pd, -aMin, -aMax, -vMin);
    WayTravels(sqrt, v, vf, pd, vMax, vMin, aMax, aMin);
    WayTravels(sqrt, -v, -vf, -pd, -vMin, -vMax, -aMin, -aMax);
    hide Feasible, WayOf, WayAllows, IsSqrt;
    if x != Nothing {
      BothAllow(sqrt, v, vf, pd, x.last, vMax, vMin, aMax, aMin);
    }
    if x.Two? {
      BothAllow(sqrt, v, vf, pd, x.first, vMax, vMin, aMax, aMin);
    }
    if y != Nothing {
      FeasibleMirrored(v, vf, pd, y.last, vMax, vMin, aMax, aMin);
      BothAllow(sqrt, v, vf, pd, y.last, vMax, vMin, aMax, aMin);
    }
    if y.Two? {
      FeasibleMirrored(v, vf, pd, y.first, vMax, vMin, aMax, aMin);
      BothAllow(sqrt, v, vf, pd, y.first, vMax, vMin, aMax, aMin);
    }
  }

  /**
   * The extremal profiles of both directions, at most three in all, tell exactly which durations some motion within
   * the limits, of any number of segments, takes.
   */
  lemma DurationsExactly(sqrt: real -> real, v: real, vf: real, pd: real, T: real,
                         vMax: real, vMin: real, aMax: real, aMin: real)
    requires IsSqrt(sqrt) && Moving(v, vf, vMax, vMin, aMax, aMin)
    ensures
      var x := WayOf(sqrt, v, vf, pd, aMax, aMin, vMax);
      var y := WayOf(sqrt, -v, -vf, -pd, -aMin, -aMax, -vMin);
      Fits(x, y) && (Feasible(v, vf, pd, T, vMax, vMin, aMax, aMin) <==> Allowed(x, y, T))
  {
    BothAllow(sqrt, v, vf, pd, T, vMax, vMin, aMax, aMin);
    AllowEachOther(sqrt, v, vf, pd, vMax, vMin, aMax, aMin);
    WaysTogether(sqrt, v, vf, pd, aMax, aMin, vMin, vMax);
    hide Feasible, Energy, PeakTime, CruiseTime, IsSqrt;
  }

  // ---------------------------------------------------------------- the block made of them

  /** What `calculate_block` has done with these profiles. */
  ghost predicate Calculated(block: Block, ok: bool, ps: seq<Plan>)
    reads block
  {
    && (ok <==> Usable(|ps|) || (|ps| == 4 && Distinct(ps).Some?))
    && (ok && |ps| != 4 ==> block.Of(ps)) && (ok && |ps| == 4 ==> block.Of(Distinct(ps).value))
    && (ok && |ps| == 5 ==> exists i :: block.OfFive(ps, i))
  }

  /** There is a block exactly if there are profiles to make one of, and it leaves open what they say. */
  lemma BlockUses(block: Block, ok: bool, ps: seq<Plan>, fs: seq<Found>, t: real)
    requires Calculated(block, ok, ps) && Tells(ps, fs)
    ensures ok <==> Used(fs).Some?
    ensures ok ==> Usable(|Used(fs).value|)
    ensures ok ==> (block.IsBlocked(Finite(t + Brakes(ps))) <==> !Open(Used(fs).value, t))
  {
    if |fs| == 4 {
      KeptTells(ps, fs);
    }
    hide Tells, Open, Twins;
    if ok {
      if |fs| == 4 {
        BlockOpen(block, Distinct(ps).value, Kept(fs).value, t);
      } else {
        BlockOpen(block, ps, fs, t);
      }
    }
  }

  /** The block blocks exactly the durations that no motion within the limits, of any number of segments, takes. */
  ghost predicate TellsTruth(block: Block, brakes: real, v: real, vf: real, pd: real,
                             vMax: real, vMin: real, aMax: real, aMin: real)
    reads block
  {
    forall T :: block.IsBlocked(Finite(T + brakes)) <==> !Feasible(v, vf, pd, T, vMax, vMin, aMax, aMin)
  }

  /** How many profiles there are, a peak at its limit counted twice, and whether they make a block. */
  predicate Counted(x: Way, y: Way, count: nat, ok: bool) {
    count == Size(x) + Size(y) + Doubled(x) + Doubled(y) && (ok <==> !Refused(x, y))
  }

  /** The same by the profiles of both directions. */
  ghost predicate TellsWays(block: Block, brakes: real, x: Way, y: Way)
    reads block
  {
    forall t :: block.IsBlocked(Finite(t + brakes)) <==> !Allowed(x, y, t)
  }

  lemma TruthByWays(block: Block, brakes: real, sqrt: real -> real, v: real, vf: real, pd: real,
                    vMax: real, vMin: real, aMax: real, aMin: real)
    requires IsSqrt(sqrt) && Moving(v, vf, vMax, vMin, aMax, aMin)
    ensures
      var x := WayOf(sqrt, v, vf, pd, aMax, aMin, vMax);
      var y := WayOf(sqrt, -v, -vf, -pd, -aMin, -aMax, -vMin);
      Fits(x, y) && (TellsTruth(block, brakes, v, vf, pd, vMax, vMin, aMax, aMin) <==> TellsWays(block, brakes, x, y))
  {
    var x, y := WayOf(sqrt, v, vf, pd, aMax, aMin, vMax), WayOf(sqrt, -v, -vf, -pd, -aMin, -aMax, -vMin);
    hide WayOf, Feasible, Allowed, IsSqrt, Moving, Fits;
    DurationsExactly(sqrt, v, vf, pd, 0.0, vMax, vMin, aMax, aMin);
    forall t ensures Feasible(v, vf, pd, t, vMax, vMin, aMax, aMin) <==> Allowed(x, y, t) {
      DurationsExactly(sqrt, v, vf, pd, t, vMax, vMin, aMax, aMin);
    }
  }

  /** The block leaves open what the profiles that it is made of say. */
  ghost predicate LeavesOpen(block: Block, brakes: real, fs: seq<Found>)
    reads block
  {
    && Used(fs).Some? && Usable(|Used(fs).value|)
    && forall t :: block.IsBlocked(Finite(t + brakes)) <==> !Open(Used(fs).value, t)
  }

  lemma NotNone(block: Block, ok: bool, ps: seq<Plan>)
    requires Calculated(block, ok, ps)
    ensures ok ==> ps != []
  {
    hide Distinct;
  }

  lemma BlockLeavesAll(block: Block, ok: bool, ps: seq<Plan>, fs: seq<Found>)
    requires Calculated(block, ok, ps) && Tells(ps, fs)
    ensures (ok <==> Used(fs).Some?) && (ok ==> ps != [] && LeavesOpen(block, Brakes(ps), fs))
  {
    hide Calculated, Tells, Open, Used, Brakes;
    NotNone(block, ok, ps);
    BlockUses(block, ok, ps, fs, 0.0);
    if ok {
      forall t ensures block.IsBlocked(Finite(t + Brakes(ps))) <==> !Open(Used(fs).value, t) {
        BlockUses(block, ok, ps, fs, t);
      }
    }
  }

  lemma BlockLeaves(block: Block, ok: bool, ps: seq<Plan>, fs: seq<Found>, brakes: real)
    requires Calculated(block, ok, ps) && Tells(ps, fs) && (ps != [] ==> brakes == Brakes(ps))
    ensures (ok <==> Used(fs).Some?) && (ok ==> LeavesOpen(block, brakes, fs))
  {
    hide Calculated, Tells, Used, Brakes, LeavesOpen;
    BlockLeavesAll(block, ok, ps, fs);
  }

  lemma BlockRight(block: Block, ok: bool, fs: seq<Found>, brakes: real, x: Way, y: Way)
    requires (ok <==> Used(fs).Some?) && (ok ==> LeavesOpen(block, brakes, fs))
    ensures ok && TellsWays(block, brakes, x, y) <==> Right(x, y, fs)
  {
    hide Allowed, Open, Used;
    if ok {
      assert forall t :: block.IsBlocked(Finite(t + brakes)) <==> !Open(Used(fs).value, t);
    }
  }

  /**
   * What there is to say of the call, for every start and target inside the limits: which profiles are found, whether
   * they make a block and what it leaves open, how many there are if none takes too long, and exactly when the block
   * tells the truth.
   */
  ghost predicate BlockAnswer(block: Block, ok: bool, brakes: real, sqrt: real -> real, v: real, vf: real, pd: real,
                              vMax: real, vMin: real, aMax: real, aMin: real)
    requires vMin < 0.0 < vMax && aMin < 0.0 < aMax
    reads block
  {
    var fs := AllFound(sqrt, 0.0, v, vf, pd, vMax, vMin, aMax, aMin);
    var x := WayOf(sqrt, v, vf, pd, aMax, aMin, vMax);
    var y := WayOf(sqrt, -v, -vf, -pd, -aMin, -aMax, -vMin);
    && fs == Timely(AllOf(x, y)) && (ok <==> Used(fs).Some?) && (ok ==> LeavesOpen(block, brakes, fs))
    && Fits(x, y) && (InTime(x) && InTime(y) ==> Counted(x, y, |fs|, ok))
    && (ok && TellsTruth(block, brakes, v, vf, pd, vMax, vMin, aMax, aMin) <==> BlockTold(x, y))
  }

  lemma BlockExactly(block: Block, ok: bool, ps: seq<Plan>, brakes: real, sqrt: real -> real,
                     v: real, vf: real, pd: real, vMax: real, vMin: real, aMax: real, aMin: real)
    requires IsSqrt(sqrt) && Moving(v, vf, vMax, vMin, aMax, aMin) && Calculated(block, ok, ps)
    requires Tells(ps, AllFound(sqrt, 0.0, v, vf, pd, vMax, vMin, aMax, aMin))
    requires ps != [] ==> brakes == Brakes(ps)
    ensures BlockAnswer(block, ok, brakes, sqrt, v, vf, pd, vMax, vMin, aMax, aMin)
  {
    var x, y := WayOf(sqrt, v, vf, pd, aMax, aMin, vMax), WayOf(sqrt, -v, -vf, -pd, -aMin, -aMax, -vMin);
    FoundExactly(sqrt, v, vf, pd, vMax, vMin, aMax, aMin);
    TruthByWays(block, brakes, sqrt, v, vf, pd, vMax, vMin, aMax, aMin);
    hide WayOf, AllFound, Timely, AllOf, Calculated, BlockTold, IsSqrt, Moving, Refused, Size, Doubled, Brakes, Right;
    hide TellsTruth, TellsWays, LeavesOpen, Used, Fits, InTime;
    BlockToldExactly(x, y);
    BlockLeaves(block, ok, ps, Timely(AllOf(x, y)), brakes);
    BlockRight(block, ok, Timely(AllOf(x, y)), brakes, x, y);
    if InTime(x) && InTime(y) {
      CountExactly(x, y);
      RefusedExactly(x, y);
    }
  }
}
