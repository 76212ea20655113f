/**
 * Step 1 of the third-order velocity interface: velocity_third_step1.cpp. For a target without acceleration the first
 * profile found is the fastest; for one with acceleration all are tried, and a block is made of those found.
 */
module VelocityThirdStep1 {
  import opened Blocks
  import opened BlockTable
  import opened Kinematics
  import opened PlateauTable
  import opened ProfileLists
  import opened Profiles
  import opened RealArithmetic
  import opened SecondOrder
  import opened SecondOrderDurations
  import opened SecondOrderExtremals
  import opened SecondOrderRoots
  import opened VelocityThird

  /** The two times of a profile without plateau, as they are written. */
  lemma PeakTimesAre(a0: real, af: real, h: real, j: real)
    requires j != 0.0
    ensures -(a0 + h) / j == (-h - a0) / j && -(af + h) / j == (af - -h) / -j
    ensures (-a0 + h) / j == (h - a0) / j && (-af + h) / j == (af - h) / -j
  {
    QuotientMirrored(-(af + h), j);
    QuotientMirrored(-af + h, j);
    assert -(-(af + h)) == af - -h && -(-af + h) == af - h && -(a0 + h) == -h - a0 && -a0 + h == h - a0;
  }

  /** The squared peak acceleration, as it is written. */
  function SquaredPeak(a0: real, af: real, vd: real, j: real): real {
    (a0 * a0 + af * af) / 2.0 + j * vd
  }

  /** Its roots, and what is found with them. */
  lemma RootsAre(sqrt: real -> real, a0: real, af: real, vd: real, j: real, d: real, aMax: real, aMin: real)
    requires IsSqrt(sqrt) && j != 0.0 && d == -j
    ensures var e, found := SquaredPeak(a0, af, vd, j), NoneFound(sqrt, a0, af, vd, j, d, aMax, aMin);
      && (e < 0.0 ==> found == [])
      && (e >= 0.0 ==>
            && IsPeak(a0, af, vd, sqrt(e), j, d) && IsPeak(a0, af, vd, -sqrt(e), j, d)
            && found == OverPeak(a0, af, -sqrt(e), j, d, aMax, aMin) + OverPeak(a0, af, sqrt(e), j, d, aMax, aMin))
  {
    BothPeaks(sqrt, a0, af, vd, j, d);
    PeakSquare(a0, af, vd, j);
    hide Energy, OverPeak, IsPeak;
  }

  /** The extremal profiles of both directions. */
  function Upwards(sqrt: real -> real, a0: real, af: real, vd: real, aMax: real, j: real, d: real): Way
    requires aMax != 0.0 && j != 0.0 && d != 0.0 && j != d
  {
    WayOf(sqrt, a0, af, vd, j, d, aMax)
  }

  /** The profile at the limit stays there long enough for the check. */
  predicate Long(a0: real, af: real, vd: real, aMax: real, j: real, d: real)
    requires aMax != 0.0 && j != 0.0 && d != 0.0
  {
    CruiseTime(a0, af, vd, aMax, j, d) >= EPSILON
  }

  /** Only from the limit on it does so at all. */
  lemma LongAbove(sqrt: real -> real, a0: real, af: real, vd: real, j: real, d: real, aMax: real)
    requires IsSqrt(sqrt) && j > 0.0 > d && aMax > 0.0
    ensures var w := Upwards(sqrt, a0, af, vd, aMax, j, d);
      Long(a0, af, vd, aMax, j, d) ==> w == Nothing || w.at != Below
  {
    hide Energy, CruiseTime, PeakTime, LongerTime, IsSqrt;
    CruisesAbove(sqrt, a0, af, vd, j, d, aMax);
  }

  /** The profiles that the four calls find for a target with acceleration. */
  function VelocityFound(sqrt: real -> real, a0: real, af: real, vd: real, aMax: real, aMin: real, j: real, d: real)
    : seq<Found>
    requires aMin < 0.0 < aMax && j > 0.0 > d
  {
    TimelyOf(Upwards(sqrt, a0, af, vd, aMax, j, d), Long(a0, af, vd, aMax, j, d),
             Upwards(sqrt, -a0, -af, -vd, -aMin, -d, -j), Long(a0, af, vd, aMin, d, j))
  }

  lemma VelocityFoundExactly(sqrt: real -> real, a0: real, af: real, vd: real, aMax: real, aMin: real, j: real, d: real)
    requires IsSqrt(sqrt) && InBand(a0, af, aMin, aMax) && j > 0.0 > d
    ensures AllFound(sqrt, EPSILON, a0, af, vd, aMax, aMin, j, d) == VelocityFound(sqrt, a0, af, vd, aMax, aMin, j, d)
  {
    hide CruiseTime, WayOf, AllFound, Timely, Plateaus, Flat;
    FoundAtLeast(sqrt, EPSILON, a0, af, vd, aMax, aMin, j, d);
  }

  /**
   * What there is to say of the call for a target with acceleration: which profiles are found, how many if none takes
   * too long, whether they make a block and what it leaves open, and exactly when it tells the truth.
   */
  ghost predicate VelocityAnswer(block: Block, ok: bool, brakes: real, sqrt: real -> real,
                                 a0: real, af: real, vd: real, aMax: real, aMin: real, j: real, d: real)
    requires aMin < 0.0 < aMax && j > 0.0 > d
    reads block
  {
    var fs := VelocityFound(sqrt, a0, af, vd, aMax, aMin, j, d);
    var x, longX := Upwards(sqrt, a0, af, vd, aMax, j, d), Long(a0, af, vd, aMax, j, d);
    var y, longY := Upwards(sqrt, -a0, -af, -vd, -aMin, -d, -j), Long(a0, af, vd, aMin, d, j);
    && (ok <==> Used(fs).Some?) && (ok ==> LeavesOpen(block, brakes, fs))
    && Fits(x, y) && (InTime(x) && InTime(y) ==> |fs| == CountOf(x, longX) + CountOf(y, longY))
    && (ok && TellsTruth(block, brakes, a0, af, vd, aMax, aMin, j, d) <==> PlateauTold(x, longX, y, longY))
  }

  lemma AnswerExactly(block: Block, ok: bool, ps: seq<Plan>, brakes: real, sqrt: real -> real,
                      a0: real, af: real, vd: real, aMax: real, aMin: real, j: real, d: real)
    requires IsSqrt(sqrt) && Moving(a0, af, aMax, aMin, j, d) && Calculated(block, ok, ps)
    requires Tells(ps, AllFound(sqrt, EPSILON, a0, af, vd, aMax, aMin, j, d)) && (ps != [] ==> brakes == Brakes(ps))
    ensures VelocityAnswer(block, ok, brakes, sqrt, a0, af, vd, aMax, aMin, j, d)
  {
    hide Calculated, Tells, AllFound, Brakes, TellsTruth, TellsWays, LeavesOpen, Used, Fits, InTime, PlateauTold, Right;
    hide WayOf, CruiseTime, CountOf, TimelyOf, IsSqrt, Twice, Missing;
    var x, longX := Upwards(sqrt, a0, af, vd, aMax, j, d), Long(a0, af, vd, aMax, j, d);
    var y, longY := Upwards(sqrt, -a0, -af, -vd, -aMin, -d, -j), Long(a0, af, vd, aMin, d, j);
    var fs := TimelyOf(x, longX, y, longY);
    VelocityFoundExactly(sqrt, a0, af, vd, aMax, aMin, j, d);
    TruthByWays(block, brakes, sqrt, a0, af, vd, aMax, aMin, j, d);
    BlockLeaves(block, ok, ps, fs, brakes);
    BlockRight(block, ok, fs, brakes, x, y);
    PlateauExactly(x, longX, y, longY);
    if InTime(x) && InTime(y) {
      LongAbove(sqrt, a0, af, vd, j, d, aMax);
      CruiseTimeMirrored(a0, af, vd, aMin, d, j);
      LongAbove(sqrt, -a0, -af, -vd, -d, -j, -aMin);
      CountedExactly(x, longX, y, longY);
    }
  }

  lemma AllFoundIs(sqrt: real -> real, a0: real, af: real, vd: real, aMax: real, aMin: real, u: real, d: real)
    requires aMin < 0.0 < aMax && d < 0.0 < u
    ensures AllFound(sqrt, EPSILON, a0, af, vd, aMax, aMin, u, d) ==
            NoneFound(sqrt, a0, af, vd, u, d, aMax, aMin) + NoneFound(sqrt, a0, af, vd, d, u, aMin, aMax)
            + CruiseFound(EPSILON, a0, af, vd, u, d, aMax, aMin) + CruiseFound(EPSILON, a0, af, vd, d, u, aMin, aMax)
  {}

  lemma AtMostTwo(sqrt: real -> real, a0: real, af: real, vd: real, u: real, d: real, aMax: real, aMin: real)
    requires u != 0.0 && d != 0.0 && u != d
    ensures var found := NoneFound(sqrt, a0, af, vd, u, d, aMax, aMin);
      |found| <= 2 && Taken(found, false) == found
  {}

  lemma AtMostOne(a0: real, af: real, vd: real, u: real, d: real, aMax: real, aMin: real)
    requires u != 0.0 && d != 0.0 && aMax != 0.0
    ensures |CruiseFound(EPSILON, a0, af, vd, u, d, aMax, aMin)| <= 1
  {}

  class VelocityThirdOrderStep1 {
    const a0: real
    const af: real
    const vd: real
    const aMax: real
    const aMin: real
    const jMax: real
    /** The profiles of `valid_profiles`, and further ones for what lies behind them. */
    const validProfiles: seq<Profile>
    /** Something behind the array has been written. */
    var outside: bool

    ghost predicate Ready()
      reads validProfiles
    {
      && |validProfiles| == SLOTS && aMin < 0.0 < aMax && jMax > 0.0
      && (forall i, j :: 0 <= i < j < SLOTS ==> validProfiles[i] != validProfiles[j])
      && forall i :: 0 <= i < SLOTS ==> validProfiles[i].Sized()
    }

    /** The slot holds this axis's start and target, and the brakes that go with them. */
    ghost predicate Bounded(p: Profile, input: Profile)
      reads p, input
    {
      && p.Sized() && p.a[0] == a0 && p.vf == p.v[0] + vd && p.af == af
      && p.brakeDuration == input.brakeDuration && p.accelDuration == input.accelDuration
    }

    /** The profile solves this axis in one of the two directions. */
    ghost predicate Solved(plan: Plan) {
      VelocitySolution(plan, a0, af, vd, jMax, aMax, aMin) || VelocitySolution(plan, a0, af, vd, -jMax, aMin, aMax)
    }

    /** The slot holds a profile that has been found. */
    ghost predicate Filled(p: Profile, input: Profile, f: Found)
      reads p, input
    {
      && p.Sized() && p.brakeDuration == input.brakeDuration && p.accelDuration == input.accelDuration
      && p.tSum[6] == f.duration && (p.direction == UP <==> f.up) && Solved(p.Value())
    }

    /** The slots hold these profiles, and the next one is ready. */
    ghost predicate Holding(input: Profile, fs: seq<Found>)
      reads this`outside, validProfiles, input
    {
      && Ready() && input !in validProfiles && |fs| < SLOTS && Bounded(validProfiles[|fs|], input)
      && (forall i :: 0 <= i < |fs| ==> Filled(validProfiles[i], input, fs[i]))
      && (outside <==> |fs| >= ROOM)
    }

    /** The limits of one direction or the other. */
    predicate OneWay(aMax: real, aMin: real, jMax: real) {
      || (aMax == this.aMax && aMin == this.aMin && jMax == this.jMax)
      || (aMax == this.aMin && aMin == this.aMax && jMax == -this.jMax)
    }

    constructor (v0: real, a0: real, vf: real, af: real, aMax: real, aMin: real, jMax: real)
      requires aMin < 0.0 < aMax && jMax > 0.0
      ensures Ready() && this.a0 == a0 && this.af == af && this.vd == vf - v0
      ensures this.aMax == aMax && this.aMin == aMin && this.jMax == jMax
      ensures forall i :: 0 <= i < SLOTS ==> fresh(validProfiles[i])
    {
      this.a0, this.af, this.vd := a0, af, vf - v0;
      this.aMax, this.aMin, this.jMax := aMax, aMin, jMax;
      outside := false;
      var slots: seq<Profile> := [];
      for n := 0 to SLOTS
        invariant |slots| == n && forall i :: 0 <= i < n ==> fresh(slots[i]) && slots[i].Sized()
        invariant forall i, j :: 0 <= i < j < n ==> slots[i] != slots[j]
      {
        var p := new Profile();
        slots := slots + [p];
      }
      validProfiles := slots;
    }

    /** Moves on to the next slot, which starts with the same boundary; the fourth is not in the array. */
    method AddProfile(profile: nat, ghost input: Profile, ghost fs: seq<Found>, ghost f: Found) returns (next: nat)
      requires Ready() && input !in validProfiles && profile == |fs| && profile + 1 < SLOTS
      requires forall i :: 0 <= i < |fs| ==> Filled(validProfiles[i], input, fs[i])
      requires Filled(validProfiles[profile], input, f) && Bounded(validProfiles[profile], input)
      requires outside <==> |fs| >= ROOM
      modifies this`outside, validProfiles[profile + 1]
      ensures next == profile + 1 && Holding(input, fs + [f])
    {
      hide VelocitySolution;
      next := profile + 1;
      if next >= ROOM {
        outside := true;
      }
      validProfiles[next].SetBoundary(validProfiles[profile]);
      assert forall i :: 0 <= i <= profile ==> validProfiles[i] != validProfiles[next];
    }

    /** Puts the times into a slot and has them checked. */
    method Try(p: Profile, limits: ReachedLimits, t0: real, t1: real, t2: real,
               aMax: real, aMin: real, j: real, ghost top: real, ghost input: Profile)
      returns (ok: bool)
      requires Bounded(p, input) && p != input && OneWay(aMax, aMin, j)
      requires Reaches(a0, af, vd, top, j, -j, t0, t1, t2) && (t1 > 0.0 ==> top == aMax)
      modifies p
      ensures Bounded(p, input)
      ensures ok <==>
        && Solves(a0, af, vd, top, j, -j, aMax, aMin, t0, t1, t2) && t0 + t1 + t2 <= T_MAX
        && (limits == ACC0 ==> t1 >= EPSILON)
      ensures ok ==> Filled(p, input, Found(t0 + t1 + t2, aMax > 0.0))
    {
      hide Reaches, Solves, VelocitySolution, VelocityAccepts, Integrated, Timed, ThirdOrderPattern;
      p.t := [t0, t1, t2, 0.0, 0.0, 0.0, 0.0];
      VelocityTimes(limits, p.v[0], a0, af, vd, top, j, t0, t1, t2, aMax, aMin);
      ok := p.CheckForVelocity(UDDU, limits, j, aMax, aMin);
      if ok {
        VelocityPlan(p.Value(), a0, af, vd, top, j, t0, t1, t2, aMax, aMin);
        VelocitySolutionTime(p.Value(), a0, af, vd, j, aMax, aMin);
      }
    }

    /** Tries a profile in the next slot. */
    method TryNext(profile: nat, limits: ReachedLimits, t0: real, t1: real, t2: real,
                   aMax: real, aMin: real, j: real, ghost top: real, ghost input: Profile, ghost fs: seq<Found>)
      returns (next: nat)
      requires Holding(input, fs) && profile == |fs| && profile + 1 < SLOTS && OneWay(aMax, aMin, j)
      requires t0 == (top - a0) / j && t2 == (af - top) / -j && (t1 > 0.0 ==> top == aMax)
      requires Reaches(a0, af, vd, top, j, -j, t0, t1, t2)
      modifies this`outside, validProfiles
      ensures var found := if limits == ACC0 && t1 < EPSILON then []
                           else IfSolved(a0, af, vd, top, t1, j, -j, aMax, aMin);
        next == profile + |found| && Holding(input, fs + found)
    {
      hide Reaches, Solves, VelocitySolution, After, Rise;
      next := profile;
      var p := validProfiles[profile];
      var ok := Try(p, limits, t0, t1, t2, aMax, aMin, j, top, input);
      assert forall i :: 0 <= i < profile ==> validProfiles[i] != p;
      assert fs + [] == fs;
      if ok {
        next := AddProfile(profile, input, fs, Found(t0 + t1 + t2, aMax > 0.0));
      }
    }

    method TimeAcc0(profile: nat, aMax: real, aMin: real, jMax: real,
                    ghost jMin: real, ghost input: Profile, ghost fs: seq<Found>)
      returns (next: nat)
      requires Holding(input, fs) && profile == |fs| && profile + 1 < SLOTS
      requires OneWay(aMax, aMin, jMax) && jMin == -jMax
      modifies this`outside, validProfiles
      ensures Holding(input, fs + CruiseFound(EPSILON, a0, af, vd, jMax, jMin, aMax, aMin))
      ensures next == profile + |CruiseFound(EPSILON, a0, af, vd, jMax, jMin, aMax, aMin)|
    {
      Acc0Times(a0, af, vd, aMax, jMax);
      CruiseIs(EPSILON, a0, af, vd, jMax, -jMax, aMax, aMin);
      hide Reaches, CruiseTime, Holding, IfSolved, CruiseFound;
      var t0 := (-a0 + aMax) / jMax;
      var t1 := (a0 * a0 + af * af) / (2.0 * aMax * jMax) - aMax / jMax + vd / aMax;
      var t2 := (-af + aMax) / jMax;
      next := TryNext(profile, ACC0, t0, t1, t2, aMax, aMin, jMax, aMax, input, fs);
    }

    /** The profile without plateau over one of the roots. */
    method TryPeak(profile: nat, t0: real, t2: real, aMax: real, aMin: real, j: real,
                   ghost top: real, ghost input: Profile, ghost fs: seq<Found>)
      returns (next: nat)
      requires Holding(input, fs) && profile == |fs| && profile + 1 < SLOTS && OneWay(aMax, aMin, j)
      requires j != 0.0 && IsPeak(a0, af, vd, top, j, -j) && t0 == (top - a0) / j && t2 == (af - top) / -j
      modifies this`outside, validProfiles
      ensures var found := OverPeak(a0, af, top, j, -j, aMax, aMin);
        next == profile + |found| && |found| <= 1 && Holding(input, fs + found)
    {
      PeakIs(a0, af, vd, top, j, -j, aMax, aMin);
      hide Reaches, Holding, IfSolved, OverPeak, IsPeak;
      next := TryNext(profile, NONE, t0, 0.0, t2, aMax, aMin, j, top, input, fs);
      assert |IfSolved(a0, af, vd, top, 0.0, j, -j, aMax, aMin)| <= 1;
    }

    method TryLower(profile: nat, h1: real, aMax: real, aMin: real, jMax: real,
                    ghost input: Profile, ghost fs: seq<Found>)
      returns (next: nat)
      requires Holding(input, fs) && profile == |fs| && profile + 1 < SLOTS && OneWay(aMax, aMin, jMax)
      requires jMax != 0.0 && IsPeak(a0, af, vd, -h1, jMax, -jMax)
      modifies this`outside, validProfiles
      ensures var found := OverPeak(a0, af, -h1, jMax, -jMax, aMax, aMin);
        next == profile + |found| && |found| <= 1 && Holding(input, fs + found)
    {
      PeakTimesAre(a0, af, h1, jMax);
      hide Holding, OverPeak, IsPeak;
      next := TryPeak(profile, -(a0 + h1) / jMax, -(af + h1) / jMax, aMax, aMin, jMax, -h1, input, fs);
    }

    method TryUpper(profile: nat, h1: real, aMax: real, aMin: real, jMax: real,
                    ghost input: Profile, ghost fs: seq<Found>)
      returns (next: nat)
      requires Holding(input, fs) && profile == |fs| && profile + 1 < SLOTS && OneWay(aMax, aMin, jMax)
      requires jMax != 0.0 && IsPeak(a0, af, vd, h1, jMax, -jMax)
      modifies this`outside, validProfiles
      ensures var found := OverPeak(a0, af, h1, jMax, -jMax, aMax, aMin);
        next == profile + |found| && |found| <= 1 && Holding(input, fs + found)
    {
      PeakTimesAre(a0, af, h1, jMax);
      hide Holding, OverPeak, IsPeak;
      next := TryPeak(profile, (-a0 + h1) / jMax, (-af + h1) / jMax, aMax, aMin, jMax, h1, input, fs);
    }

    /** Both roots, given up after the first that works if so told. */
    method TryRoots(profile: nat, h1: real, aMax: real, aMin: real, jMax: real, returnAfterFound: bool,
                    ghost input: Profile, ghost fs: seq<Found>)
      returns (next: nat)
      requires Holding(input, fs) && profile == |fs| && profile + 2 < SLOTS && OneWay(aMax, aMin, jMax) && jMax != 0.0
      requires IsPeak(a0, af, vd, h1, jMax, -jMax) && IsPeak(a0, af, vd, -h1, jMax, -jMax)
      modifies this`outside, validProfiles
      ensures
        var both := OverPeak(a0, af, -h1, jMax, -jMax, aMax, aMin) + OverPeak(a0, af, h1, jMax, -jMax, aMax, aMin);
        Holding(input, fs + Taken(both, returnAfterFound)) && next == profile + |Taken(both, returnAfterFound)|
    {
      hide Holding, OverPeak, IsPeak, Taken, OneWay;
      ghost var low := OverPeak(a0, af, -h1, jMax, -jMax, aMax, aMin);
      ghost var high := OverPeak(a0, af, h1, jMax, -jMax, aMax, aMin);
      next := TryLower(profile, h1, aMax, aMin, jMax, input, fs);
      if next > profile && returnAfterFound {
        FirstAlone(low, high);
        return;
      }
      assert fs + (low + high) == (fs + low) + high;
      next := TryUpper(next, h1, aMax, aMin, jMax, input, fs + low);
      FirstOfTwo(low, high, returnAfterFound);
    }

    method TimeNone(sqrt: real -> real, profile: nat, aMax: real, aMin: real, jMax: real, returnAfterFound: bool,
                    ghost jMin: real, ghost input: Profile, ghost fs: seq<Found>)
      returns (next: nat)
      requires IsSqrt(sqrt) && OneWay(aMax, aMin, jMax) && jMin == -jMax
      requires Holding(input, fs) && profile == |fs| && profile + 2 < SLOTS
      modifies this`outside, validProfiles
      ensures Holding(input, fs + Taken(NoneFound(sqrt, a0, af, vd, jMax, jMin, aMax, aMin), returnAfterFound))
      ensures next == profile + |Taken(NoneFound(sqrt, a0, af, vd, jMax, jMin, aMax, aMin), returnAfterFound)|
    {
      assert jMax != 0.0;
      RootsAre(sqrt, a0, af, vd, jMax, jMin, aMax, aMin);
      next := profile;
      hide SquaredPeak, Holding, OverPeak, IsPeak, IsSqrt, OneWay, NoneFound;
      var h1 := SquaredPeak(a0, af, vd, jMax);
      assert fs + [] == fs;
      if h1 >= 0.0 {
        next := TryRoots(profile, sqrt(h1), aMax, aMin, jMax, returnAfterFound, input, fs);
      }
    }

    lemma SolvedIsFastest(plan: Plan, w: seq<Segment>)
      requires af == 0.0 && UsualLimits(a0, aMax, aMin, jMax, -jMax) && Solved(plan)
      requires Admissible(w, a0, vd, aMin, aMax, -jMax, jMax)
      ensures Duration(w) >= plan.tSum[6]
    {
      hide Duration, Admissible, Solves;
      assert -(-jMax) == jMax;
      var up := VelocitySolution(plan, a0, af, vd, jMax, aMax, aMin);
      SolutionIsFastest(w, a0, vd, plan.a[1], up, plan.t[0], plan.t[1], plan.t[2], aMax, aMin, jMax, -jMax);
    }

    /**
     * As a motion it takes as long as it says, and it is one of those it beats exactly if its peak is within the
     * limits.
     */
    lemma SolvedIsAttained(plan: Plan) returns (w: seq<Segment>)
      requires af == 0.0 && UsualLimits(a0, aMax, aMin, jMax, -jMax) && Solved(plan)
      ensures Duration(w) == plan.tSum[6]
      ensures Admissible(w, a0, vd, aMin, aMax, -jMax, jMax) <==> aMin <= plan.a[1] <= aMax
    {
      hide Duration, Admissible, Reaches;
      var up := VelocitySolution(plan, a0, af, vd, jMax, aMax, aMin);
      var j := if up then jMax else -jMax;
      assert -(-jMax) == jMax;
      w := Three(plan.t[0], j, plan.t[1], -j, plan.t[2]);
      ThreeAdmissible(a0, vd, plan.a[1], j, -j, plan.t[0], plan.t[1], plan.t[2], aMax, aMin, jMax, -jMax);
    }

    /** A target without acceleration: the four calls in the order of its direction; the first find ends the search. */
    method Search(sqrt: real -> real, ghost input: Profile) returns (profile: nat, ghost fs: seq<Found>)
      requires IsSqrt(sqrt) && af == 0.0 && Holding(input, [])
      modifies this`outside, validProfiles
      ensures Holding(input, fs) && profile == |fs| <= 1
      ensures profile == 0 <==>
        && NoneFound(sqrt, a0, 0.0, vd, jMax, -jMax, aMax, aMin) == []
        && CruiseFound(EPSILON, a0, 0.0, vd, jMax, -jMax, aMax, aMin) == []
        && NoneFound(sqrt, a0, 0.0, vd, -jMax, jMax, aMin, aMax) == []
        && CruiseFound(EPSILON, a0, 0.0, vd, -jMax, jMax, aMin, aMax) == []
    {
      var aMax, aMin := if vd >= 0.0 then this.aMax else this.aMin, if vd >= 0.0 then this.aMin else this.aMax;
      var u, d := if vd >= 0.0 then jMax else -jMax, if vd >= 0.0 then -jMax else jMax;
      assert OneWay(aMax, aMin, u) && OneWay(aMin, aMax, d) && u == -d && u != 0.0 && aMax != 0.0 && aMin != 0.0;
      hide NoneFound, CruiseFound, IsSqrt, Holding, OneWay;
      profile := TimeNone(sqrt, 0, aMax, aMin, u, true, d, input, []);
      fs := [] + Taken(NoneFound(sqrt, a0, af, vd, u, d, aMax, aMin), true);
      if profile > 0 {
        return;
      }
      assert fs == [];
      profile := TimeAcc0(profile, aMax, aMin, u, d, input, fs);
      fs := fs + CruiseFound(EPSILON, a0, af, vd, u, d, aMax, aMin);
      if profile > 0 {
        return;
      }
      profile := TimeNone(sqrt, profile, aMin, aMax, d, true, u, input, fs);
      fs := fs + Taken(NoneFound(sqrt, a0, af, vd, d, u, aMin, aMax), true);
      if profile > 0 {
        return;
      }
      profile := TimeAcc0(profile, aMin, aMax, d, u, input, fs);
      fs := fs + CruiseFound(EPSILON, a0, af, vd, d, u, aMin, aMax);
    }

    /** A target with acceleration: all profiles of both directions. */
    method SearchAll(sqrt: real -> real, jMin: real, ghost input: Profile) returns (profile: nat)
      requires IsSqrt(sqrt) && Holding(input, []) && jMin == -jMax
      modifies this`outside, validProfiles
      ensures var fs := AllFound(sqrt, EPSILON, a0, af, vd, aMax, aMin, jMax, jMin);
        Holding(input, fs) && profile == |fs|
    {
      assert OneWay(aMax, aMin, jMax) && OneWay(aMin, aMax, jMin) && aMin < 0.0 < aMax && jMin < 0.0 < jMax;
      assert jMax == -jMin;
      hide NoneFound, CruiseFound, AllFound, IsSqrt, Holding, OneWay, Taken;
      AllFoundIs(sqrt, a0, af, vd, aMax, aMin, jMax, jMin);
      AtMostTwo(sqrt, a0, af, vd, jMax, jMin, aMax, aMin);
      AtMostTwo(sqrt, a0, af, vd, jMin, jMax, aMin, aMax);
      AtMostOne(a0, af, vd, jMax, jMin, aMax, aMin);
      ghost var a := NoneFound(sqrt, a0, af, vd, jMax, jMin, aMax, aMin);
      ghost var b := NoneFound(sqrt, a0, af, vd, jMin, jMax, aMin, aMax);
      ghost var c := CruiseFound(EPSILON, a0, af, vd, jMax, jMin, aMax, aMin);
      assert [] + a == a;
      profile := TimeNone(sqrt, 0, aMax, aMin, jMax, false, jMin, input, []);
      profile := TimeNone(sqrt, profile, aMin, aMax, jMin, false, jMax, input, a);
      profile := TimeAcc0(profile, aMax, aMin, jMax, jMin, input, a + b);
      profile := TimeAcc0(profile, aMin, aMax, jMin, jMax, input, a + b + c);
    }

    predicate Sliver(sqrt: real -> real)
      requires jMax > 0.0 && aMax != 0.0 && aMin != 0.0
    {
      UpSliver(sqrt, a0, vd, jMax, aMax) || DownSliver(sqrt, a0, vd, jMax, aMin)
    }

    /**
     * A target without acceleration: the block says the least duration of any motion within the limits, and its
     * profile takes that long. There is no block in a sliver, and otherwise only if every such motion would take
     * more than `T_MAX`.
     */
    ghost predicate StillTold(sqrt: real -> real, ok: bool, block: Block)
      requires jMax > 0.0 && aMax != 0.0 && aMin != 0.0
      reads block
    {
      && (ok ==> !Sliver(sqrt) && Solved(block.pMin) && block.Of([block.pMin]))
      && forall w :: Admissible(w, a0, vd, aMin, aMax, -jMax, jMax) && (ok || !Sliver(sqrt)) ==>
           if ok then Duration(w) >= block.pMin.tSum[6] else Duration(w) > T_MAX
    }

    /**
     * A target with acceleration: what `VelocityAnswer` says. The third profile found
     * makes the next slot one behind the array.
     */
    ghost predicate MovingTold(sqrt: real -> real, ok: bool, block: Block, brakes: real, jMin: real)
      requires aMin < 0.0 < aMax && jMax > 0.0 > jMin
      reads this`outside, block
    {
      && VelocityAnswer(block, ok, brakes, sqrt, a0, af, vd, aMax, aMin, jMax, jMin)
      && (outside <==> |VelocityFound(sqrt, a0, af, vd, aMax, aMin, jMax, jMin)| >= ROOM)
      && (ok ==> Solved(block.pMin))
    }

    lemma HoldingTells(input: Profile, fs: seq<Found>, ps: seq<Plan>)
      requires Holding(input, fs) && |ps| == |fs|
      requires forall i :: 0 <= i < |fs| ==> ps[i] == validProfiles[i].Value()
      ensures Tells(ps, fs) && SameBrakes(ps) && forall p :: p in ps ==> Solved(p)
      ensures ps != [] ==> Brakes(ps) == input.brakeDuration + input.accelDuration
    {
      hide VelocitySolution;
      assert forall i :: 0 <= i < |fs| ==> Filled(validProfiles[i], input, fs[i]);
    }

    lemma FastestSolved(ok: bool, block: Block, ps: seq<Plan>)
      requires Calculated(block, ok, ps) && forall p :: p in ps ==> Solved(p)
      ensures ok ==> Solved(block.pMin)
    {
      hide Solved, Describes, Identical;
    }

    lemma StillIsTold(sqrt: real -> real, ok: bool, block: Block)
      requires IsSqrt(sqrt) && af == 0.0 && UsualLimits(a0, aMax, aMin, jMax, -jMax)
      requires ok ==> Solved(block.pMin) && block.Of([block.pMin])
      requires !ok <==>
        && NoneFound(sqrt, a0, 0.0, vd, jMax, -jMax, aMax, aMin) == []
        && CruiseFound(EPSILON, a0, 0.0, vd, jMax, -jMax, aMax, aMin) == []
        && NoneFound(sqrt, a0, 0.0, vd, -jMax, jMax, aMin, aMax) == []
        && CruiseFound(EPSILON, a0, 0.0, vd, -jMax, jMax, aMin, aMax) == []
      ensures StillTold(sqrt, ok, block)
    {
      assert ok ==> |block.pMin.tSum| == 7;
      assert -(-jMax) == jMax;
      hide VelocitySolution, Exhausted, NoneFound, CruiseFound, UpSliver, DownSliver, Admissible, Duration, Describes;
      if Sliver(sqrt) {
        SliverFindsNothing(sqrt, a0, vd, aMax, aMin, jMax);
      }
      if !ok {
        NothingLeft(sqrt, a0, vd, jMax, aMax, aMin);
        NothingLeft(sqrt, a0, vd, -jMax, aMin, aMax);
      }
      forall w | Admissible(w, a0, vd, aMin, aMax, -jMax, jMax) && (ok || !Sliver(sqrt))
        ensures if ok then Duration(w) >= block.pMin.tSum[6] else Duration(w) > T_MAX
      {
        if ok {
          SolvedIsFastest(block.pMin, w);
        } else {
          WithoutSliverTooLong(w, sqrt, a0, vd, aMax, aMin, jMax);
        }
      }
    }

    method GetProfile(sqrt: real -> real, input: Profile, block: Block) returns (ok: bool)
      requires Ready() && Bounded(input, input) && input !in validProfiles && IsSqrt(sqrt)
      requires aMin <= a0 <= aMax && aMin <= af <= aMax
      modifies this`outside, validProfiles, block
      ensures af == 0.0 ==> StillTold(sqrt, ok, block)
      ensures af != 0.0 ==> MovingTold(sqrt, ok, block, input.brakeDuration + input.accelDuration, -jMax)
    {
      hide VelocitySolution, StillTold, MovingTold;
      outside := false;
      validProfiles[0].SetBoundary(input);
      assert Holding(input, []);
      hide Holding;
      if af == 0.0 {
        ok := ToStill(sqrt, input, block);
      } else {
        ok := ToMoving(sqrt, -jMax, input, block);
      }
    }

    method ToStill(sqrt: real -> real, ghost input: Profile, block: Block) returns (ok: bool)
      requires Holding(input, []) && IsSqrt(sqrt) && af == 0.0 && aMin <= a0 <= aMax
      modifies this`outside, validProfiles, block
      ensures StillTold(sqrt, ok, block)
    {
      hide VelocitySolution, NoneFound, CruiseFound, Describes, StillTold, Filled;
      var profile, fs := Search(sqrt, input);
      var plans := new Plan[SLOTS](i requires 0 <= i < SLOTS reads validProfiles => validProfiles[i].Value());
      ghost var ps := plans[..profile];
      HoldingTells(input, fs, ps);
      assert profile == 1 ==> ps == [ps[0]];
      ok := block.CalculateBlock(plans, profile);
      StillIsTold(sqrt, ok, block);
    }

    method ToMoving(sqrt: real -> real, jMin: real, ghost input: Profile, block: Block) returns (ok: bool)
      requires Holding(input, []) && IsSqrt(sqrt) && af != 0.0 && jMin == -jMax
      requires aMin <= a0 <= aMax && aMin <= af <= aMax
      modifies this`outside, validProfiles, block
      ensures MovingTold(sqrt, ok, block, input.brakeDuration + input.accelDuration, jMin)
    {
      hide VelocitySolution, Describes, AllFound, Filled, Tells, Distinct, IsSqrt, SameBrakes, Solved, Brakes;
      hide MovingTold, Block.Of, Block.OfFive, VelocityFound;
      var profile := SearchAll(sqrt, jMin, input);
      ghost var fs := AllFound(sqrt, EPSILON, a0, af, vd, aMax, aMin, jMax, jMin);
      var plans := new Plan[SLOTS](i requires 0 <= i < SLOTS reads validProfiles => validProfiles[i].Value());
      ghost var ps := plans[..profile];
      HoldingTells(input, fs, ps);
      ok := block.CalculateBlock(plans, profile);
      FastestSolved(ok, block, ps);
      MovingIsTold(sqrt, ok, block, input.brakeDuration + input.accelDuration, jMin, ps);
    }

    lemma MovingIsTold(sqrt: real -> real, ok: bool, block: Block, brakes: real, jMin: real, ps: seq<Plan>)
      requires IsSqrt(sqrt) && InBand(a0, af, aMin, aMax) && af != 0.0 && jMax > 0.0 && jMin == -jMax
      requires Tells(ps, AllFound(sqrt, EPSILON, a0, af, vd, aMax, aMin, jMax, jMin)) && Calculated(block, ok, ps)
      requires (outside <==> |ps| >= ROOM) && (ok ==> Solved(block.pMin)) && (ps != [] ==> brakes == Brakes(ps))
      ensures MovingTold(sqrt, ok, block, brakes, jMin)
    {
      hide Solved, Calculated, AllFound, Brakes, VelocityFound, VelocityAnswer;
      assert |ps| == |AllFound(sqrt, EPSILON, a0, af, vd, aMax, aMin, jMax, jMin)|;
      hide Tells, IsSqrt;
      VelocityFoundExactly(sqrt, a0, af, vd, aMax, aMin, jMax, jMin);
      AnswerExactly(block, ok, ps, brakes, sqrt, a0, af, vd, aMax, aMin, jMax, jMin);
    }
  }
}
