/**
 * Step 1 of the second-order position interface: position_second_step1.cpp. For a target at rest the first profile
 * found is the fastest; for one that moves all are, and a block is made of them.
 */
module SecondOrderStep1 {
  import opened Blocks
  import opened BlockTable
  import opened Kinematics
  import opened ProfileLists
  import opened Profiles
  import opened RealArithmetic
  import opened SecondOrder
  import opened SecondOrderExtremals
  import opened SecondOrderRoots
  import opened SecondOrderTargets

  lemma SolutionTime(plan: Plan, v: real, vf: real, pd: real, u: real, d: real, vMax: real, vMin: real)
    requires Solution(plan, v, vf, pd, u, d, vMax, vMin)
    ensures plan.tSum[6] == plan.t[0] + plan.t[1] + plan.t[2]
  {}

  class PositionSecondOrderStep1 {
    const v0: real
    const vf: real
    const pd: real
    const vMax: real
    const vMin: real
    const aMax: real
    const aMin: real
    /** The profiles of `valid_profiles`, and further ones for what lies behind them. */
    const validProfiles: seq<Profile>
    /** Something behind the array has been written. */
    var outside: bool

    ghost predicate Ready()
      reads validProfiles
    {
      && |validProfiles| == SLOTS && aMin < 0.0 < aMax && vMin < 0.0 < vMax
      && (forall i, j :: 0 <= i < j < SLOTS ==> validProfiles[i] != validProfiles[j])
      && forall i :: 0 <= i < SLOTS ==> validProfiles[i].Sized()
    }

    /** The slot holds this axis's start and target, and the brakes that go with them. */
    ghost predicate Bounded(p: Profile, input: Profile)
      reads p, input
    {
      && p.Sized() && p.v[0] == v0 && p.pf == p.p[0] + pd && p.vf == vf
      && p.brakeDuration == input.brakeDuration && p.accelDuration == input.accelDuration
    }

    /** The profile solves this axis in one of the two directions. */
    ghost predicate Solved(plan: Plan) {
      Solution(plan, v0, vf, pd, aMax, aMin, vMax, vMin) || Solution(plan, v0, vf, pd, aMin, aMax, vMin, vMax)
    }

    /** The slot holds a profile that has been found. */
    ghost predicate Filled(p: Profile, input: Profile, f: Found)
      reads p, input
    {
      && p.Sized() && p.brakeDuration == input.brakeDuration && p.accelDuration == input.accelDuration
      && p.tSum[6] == f.duration && (p.direction == UP <==> f.up) && Solved(p.Value())
    }

    /** The slots hold these profiles, and the next one is ready. */
    ghost predicate Holding(input: Profile, fs: seq<Found>)
      reads this`outside, validProfiles, input
    {
      && Ready() && input !in validProfiles && |fs| < SLOTS && Bounded(validProfiles[|fs|], input)
      && (forall i :: 0 <= i < |fs| ==> Filled(validProfiles[i], input, fs[i]))
      && (outside <==> |fs| >= ROOM)
    }

    /** The limits of one direction or the other. */
    predicate OneWay(vMax: real, vMin: real, aMax: real, aMin: real) {
      || (vMax == this.vMax && vMin == this.vMin && aMax == this.aMax && aMin == this.aMin)
      || (vMax == this.vMin && vMin == this.vMax && aMax == this.aMin && aMin == this.aMax)
    }

    constructor (p0: real, v0: real, pf: real, vf: real, vMax: real, vMin: real, aMax: real, aMin: real)
      requires aMin < 0.0 < aMax && vMin < 0.0 < vMax
      ensures Ready() && this.v0 == v0 && this.vf == vf && this.pd == pf - p0
      ensures this.vMax == vMax && this.vMin == vMin && this.aMax == aMax && this.aMin == aMin
      ensures forall i :: 0 <= i < SLOTS ==> fresh(validProfiles[i])
    {
      this.v0, this.vf, this.pd := v0, vf, pf - p0;
      this.vMax, this.vMin, this.aMax, this.aMin := vMax, vMin, aMax, aMin;
      outside := false;
      var slots: seq<Profile> := [];
      for n := 0 to SLOTS
        invariant |slots| == n && forall i :: 0 <= i < n ==> fresh(slots[i]) && slots[i].Sized()
        invariant forall i, j :: 0 <= i < j < n ==> slots[i] != slots[j]
      {
        var p := new Profile();
        slots := slots + [p];
      }
      validProfiles := slots;
    }

    /** Moves on to the next slot, which starts with the same boundary; the fourth is not in the array. */
    method AddProfile(profile: nat, ghost input: Profile, ghost fs: seq<Found>, ghost f: Found) returns (next: nat)
      requires Ready() && input !in validProfiles && profile == |fs| && profile + 1 < SLOTS
      requires forall i :: 0 <= i < |fs| ==> Filled(validProfiles[i], input, fs[i])
      requires Filled(validProfiles[profile], input, f) && Bounded(validProfiles[profile], input)
      requires outside <==> |fs| >= ROOM
      modifies this`outside, validProfiles[profile + 1]
      ensures next == profile + 1 && Holding(input, fs + [f])
    {
      hide Solution;
      next := profile + 1;
      if next >= ROOM {
        outside := true;
      }
      validProfiles[next].SetBoundary(validProfiles[profile]);
      assert forall i :: 0 <= i <= profile ==> validProfiles[i] != validProfiles[next];
    }

    /** Puts the times into a slot and has them checked. */
    method Try(p: Profile, limits: ReachedLimits, t0: real, t1: real, t2: real,
               vMax: real, vMin: real, aMax: real, aMin: real, ghost top: real, ghost input: Profile)
      returns (ok: bool)
      requires Bounded(p, input) && p != input && OneWay(vMax, vMin, aMax, aMin)
      requires Reaches(v0, vf, pd, top, aMax, aMin, t0, t1, t2) && (t1 > 0.0 ==> top == vMax)
      modifies p
      ensures Bounded(p, input)
      ensures ok <==> Solves(v0, vf, pd, top, aMax, aMin, vMax, vMin, t0, t1, t2) && t0 + t1 + t2 <= T_MAX
      ensures ok ==> Filled(p, input, Found(t0 + t1 + t2, vMax > 0.0))
    {
      hide Reaches, Solves, Solution, SecondOrderAccepts, Integrated, Timed, SecondOrderPattern;
      p.t := [t0, t1, t2, 0.0, 0.0, 0.0, 0.0];
      ghost var p0 := p.p[0];
      AcceptedTimes(p0, v0, vf, pd, top, aMax, aMin, t0, t1, t2, vMax, vMin);
      ok := p.CheckForSecondOrder(UDDU, limits, aMax, aMin, vMax, vMin);
      if ok {
        AcceptedPlan(p.Value(), v0, vf, pd, top, aMax, aMin, t0, t1, t2, vMax, vMin);
        SolutionTime(p.Value(), v0, vf, pd, aMax, aMin, vMax, vMin);
      }
    }

    /** Tries a profile in the next slot. */
    method TryNext(profile: nat, limits: ReachedLimits, t0: real, t1: real, t2: real,
                   vMax: real, vMin: real, aMax: real, aMin: real,
                   ghost top: real, ghost input: Profile, ghost fs: seq<Found>)
      returns (next: nat)
      requires Holding(input, fs) && profile == |fs| && profile + 1 < SLOTS && OneWay(vMax, vMin, aMax, aMin)
      requires t0 == (top - v0) / aMax && t2 == (vf - top) / aMin && (t1 > 0.0 ==> top == vMax)
      requires Reaches(v0, vf, pd, top, aMax, aMin, t0, t1, t2)
      modifies this`outside, validProfiles
      ensures var found := IfSolved(v0, vf, pd, top, t1, aMax, aMin, vMax, vMin);
        next == profile + |found| && Holding(input, fs + found)
    {
      hide Reaches, Solves, Solution, After, Rise;
      next := profile;
      var p := validProfiles[profile];
      var ok := Try(p, limits, t0, t1, t2, vMax, vMin, aMax, aMin, top, input);
      assert forall i :: 0 <= i < profile ==> validProfiles[i] != p;
      assert fs + [] == fs;
      if ok {
        next := AddProfile(profile, input, fs, Found(t0 + t1 + t2, vMax > 0.0));
      }
    }

    method TimeAcc0(profile: nat, vMax: real, vMin: real, aMax: real, aMin: real,
                    ghost input: Profile, ghost fs: seq<Found>) returns (next: nat)
      requires Holding(input, fs) && profile == |fs| && profile + 1 < SLOTS && OneWay(vMax, vMin, aMax, aMin)
      modifies this`outside, validProfiles
      ensures Holding(input, fs + CruiseFound(0.0, v0, vf, pd, aMax, aMin, vMax, vMin))
      ensures next == profile + |CruiseFound(0.0, v0, vf, pd, aMax, aMin, vMax, vMin)|
    {
      Acc0Reaches(v0, vf, pd, vMax, aMax, aMin);
      CruiseIs(0.0, v0, vf, pd, aMax, aMin, vMax, vMin);
      var t0 := (-v0 + vMax) / aMax;
      var t1 := CruiseTime(v0, vf, pd, vMax, aMax, aMin);
      var t2 := (vf - vMax) / aMin;
      assert -v0 + vMax == vMax - v0;
      hide Reaches, CruiseTime, Holding, IfSolved, CruiseFound;
      next := TryNext(profile, ACC0, t0, t1, t2, vMax, vMin, aMax, aMin, vMax, input, fs);
    }

    /** The profile without cruise over one of the roots. */
    method TryPeak(profile: nat, t0: real, t2: real, vMax: real, vMin: real, aMax: real, aMin: real,
                   ghost top: real, ghost input: Profile, ghost fs: seq<Found>)
      returns (next: nat)
      requires Holding(input, fs) && profile == |fs| && profile + 1 < SLOTS && OneWay(vMax, vMin, aMax, aMin)
      requires aMax != aMin && IsPeak(v0, vf, pd, top, aMax, aMin)
      requires t0 == (top - v0) / aMax && t2 == (vf - top) / aMin
      modifies this`outside, validProfiles
      ensures var found := OverPeak(v0, vf, top, aMax, aMin, vMax, vMin);
        next == profile + |found| && |found| <= 1 && Holding(input, fs + found)
    {
      PeakIs(v0, vf, pd, top, aMax, aMin, vMax, vMin);
      hide Reaches, Holding, IfSolved, OverPeak, IsPeak;
      next := TryNext(profile, NONE, t0, 0.0, t2, vMax, vMin, aMax, aMin, top, input, fs);
      assert |IfSolved(v0, vf, pd, top, 0.0, aMax, aMin, vMax, vMin)| <= 1;
    }

    method TryLower(profile: nat, h1: real, vMax: real, vMin: real, aMax: real, aMin: real,
                    ghost input: Profile, ghost fs: seq<Found>)
      returns (next: nat)
      requires Holding(input, fs) && profile == |fs| && profile + 1 < SLOTS && OneWay(vMax, vMin, aMax, aMin)
      requires aMax != aMin && IsPeak(v0, vf, pd, -h1, aMax, aMin)
      modifies this`outside, validProfiles
      ensures var found := OverPeak(v0, vf, -h1, aMax, aMin, vMax, vMin);
        next == profile + |found| && |found| <= 1 && Holding(input, fs + found)
    {
      assert aMax != 0.0 && aMin != 0.0;
      assert -(v0 + h1) == -h1 - v0 && vf + h1 == vf - -h1;
      hide Holding, OverPeak, IsPeak;
      next := TryPeak(profile, -(v0 + h1) / aMax, (vf + h1) / aMin, vMax, vMin, aMax, aMin, -h1, input, fs);
    }

    method TryUpper(profile: nat, h1: real, vMax: real, vMin: real, aMax: real, aMin: real,
                    ghost input: Profile, ghost fs: seq<Found>)
      returns (next: nat)
      requires Holding(input, fs) && profile == |fs| && profile + 1 < SLOTS && OneWay(vMax, vMin, aMax, aMin)
      requires aMax != aMin && IsPeak(v0, vf, pd, h1, aMax, aMin)
      modifies this`outside, validProfiles
      ensures var found := OverPeak(v0, vf, h1, aMax, aMin, vMax, vMin);
        next == profile + |found| && |found| <= 1 && Holding(input, fs + found)
    {
      assert aMax != 0.0 && aMin != 0.0;
      assert -v0 + h1 == h1 - v0;
      hide Holding, OverPeak, IsPeak;
      next := TryPeak(profile, (-v0 + h1) / aMax, (vf - h1) / aMin, vMax, vMin, aMax, aMin, h1, input, fs);
    }

    /** Both roots of the peak velocity, given up after the first that works if so told. */
    method TimeNone(sqrt: real -> real, profile: nat, vMax: real, vMin: real, aMax: real, aMin: real,
                    returnAfterFound: bool, ghost input: Profile, ghost fs: seq<Found>)
      returns (next: nat)
      requires IsSqrt(sqrt) && OneWay(vMax, vMin, aMax, aMin)
      requires Holding(input, fs) && profile == |fs| && profile + 2 < SLOTS
      modifies this`outside, validProfiles
      ensures var found := Taken(NoneFound(sqrt, v0, vf, pd, aMax, aMin, vMax, vMin), returnAfterFound);
        Holding(input, fs + found) && next == profile + |found|
    {
      assert aMax != 0.0 && aMin != 0.0 && aMax != aMin;
      BothPeaks(sqrt, v0, vf, pd, aMax, aMin);
      next := profile;
      hide Energy, Holding, OverPeak, IsPeak, IsSqrt;
      var h1 := Energy(v0, vf, pd, aMax, aMin);
      assert fs + [] == fs;
      ghost var found := NoneFound(sqrt, v0, vf, pd, aMax, aMin, vMax, vMin);
      if h1 >= 0.0 {
        h1 := sqrt(h1);
        ghost var low := OverPeak(v0, vf, -h1, aMax, aMin, vMax, vMin);
        ghost var high := OverPeak(v0, vf, h1, aMax, aMin, vMax, vMin);
        assert found == low + high;
        hide NoneFound, Taken, OneWay;
        next := TryLower(profile, h1, vMax, vMin, aMax, aMin, input, fs);
        if next > profile && returnAfterFound {
          FirstAlone(low, high);
          return;
        }
        assert fs + (low + high) == (fs + low) + high;
        next := TryUpper(next, h1, vMax, vMin, aMax, aMin, input, fs + low);
        FirstOfTwo(low, high, returnAfterFound);
      }
    }

    lemma SolvedIsFastest(plan: Plan, w: seq<Segment>)
      requires vf == 0.0 && UsualLimits(v0, vMax, vMin, aMax, aMin) && Solved(plan)
      requires Admissible(w, v0, pd, vMin, vMax, aMin, aMax)
      ensures Duration(w) >= plan.tSum[6]
    {
      hide Duration, Admissible, Solves;
      var up := Solution(plan, v0, vf, pd, aMax, aMin, vMax, vMin);
      SolutionIsFastest(w, v0, pd, plan.v[1], up, plan.t[0], plan.t[1], plan.t[2], vMax, vMin, aMax, aMin);
    }

    /**
     * As a motion it takes as long as it says, and it is one of those it beats exactly if its peak is within the
     * limits.
     */
    lemma SolvedIsAttained(plan: Plan) returns (w: seq<Segment>)
      requires vf == 0.0 && UsualLimits(v0, vMax, vMin, aMax, aMin) && Solved(plan)
      ensures Duration(w) == plan.tSum[6]
      ensures Admissible(w, v0, pd, vMin, vMax, aMin, aMax) <==> vMin <= plan.v[1] <= vMax
    {
      hide Duration, Admissible, Reaches;
      var up := Solution(plan, v0, vf, pd, aMax, aMin, vMax, vMin);
      var u, d := if up then aMax else aMin, if up then aMin else aMax;
      w := Three(plan.t[0], u, plan.t[1], d, plan.t[2]);
      ThreeAdmissible(v0, pd, plan.v[1], u, d, plan.t[0], plan.t[1], plan.t[2], vMax, vMin, aMax, aMin);
    }

    /** A target at rest: the four calls in the order of its direction; the first find ends the search. */
    method Search(sqrt: real -> real, ghost input: Profile) returns (profile: nat, ghost fs: seq<Found>)
      requires IsSqrt(sqrt) && vf == 0.0 && Holding(input, [])
      modifies this`outside, validProfiles
      ensures Holding(input, fs) && profile == |fs| <= 1
      ensures profile == 0 ==>
        && NoneExhausted(sqrt, v0, pd, aMax, aMin, vMax, vMin) && Acc0Exhausted(v0, pd, aMax, aMin, vMax, vMin)
        && NoneExhausted(sqrt, v0, pd, aMin, aMax, vMin, vMax) && Acc0Exhausted(v0, pd, aMin, aMax, vMin, vMax)
    {
      NothingFound(sqrt, v0, pd, aMax, aMin, vMax, vMin);
      NothingFound(sqrt, v0, pd, aMin, aMax, vMin, vMax);
      var vMax, vMin := if pd >= 0.0 then this.vMax else this.vMin, if pd >= 0.0 then this.vMin else this.vMax;
      var aMax, aMin := if pd >= 0.0 then this.aMax else this.aMin, if pd >= 0.0 then this.aMin else this.aMax;
      assert vMax != 0.0 && vMin != 0.0 && aMax != 0.0 && aMin != 0.0 && aMax != aMin;
      hide NoneExhausted, Acc0Exhausted, NoneFound, CruiseFound, IsSqrt, Holding;
      profile := TimeNone(sqrt, 0, vMax, vMin, aMax, aMin, true, input, []);
      fs := [] + Taken(NoneFound(sqrt, v0, vf, pd, aMax, aMin, vMax, vMin), true);
      if profile > 0 {
        return;
      }
      assert fs == [];
      profile := TimeAcc0(profile, vMax, vMin, aMax, aMin, input, fs);
      fs := fs + CruiseFound(0.0, v0, vf, pd, aMax, aMin, vMax, vMin);
      if profile > 0 {
        return;
      }
      profile := TimeNone(sqrt, profile, vMin, vMax, aMin, aMax, true, input, fs);
      fs := fs + Taken(NoneFound(sqrt, v0, vf, pd, aMin, aMax, vMin, vMax), true);
      if profile > 0 {
        return;
      }
      profile := TimeAcc0(profile, vMin, vMax, aMin, aMax, input, fs);
      fs := fs + CruiseFound(0.0, v0, vf, pd, aMin, aMax, vMin, vMax);
    }

    /** A target that moves: all profiles of both directions. */
    method SearchAll(sqrt: real -> real, ghost input: Profile) returns (profile: nat)
      requires IsSqrt(sqrt) && Holding(input, [])
      modifies this`outside, validProfiles
      ensures var fs := AllFound(sqrt, 0.0, v0, vf, pd, vMax, vMin, aMax, aMin);
        Holding(input, fs) && profile == |fs|
    {
      ghost var a := NoneFound(sqrt, v0, vf, pd, aMax, aMin, vMax, vMin);
      ghost var b := NoneFound(sqrt, v0, vf, pd, aMin, aMax, vMin, vMax);
      ghost var c := CruiseFound(0.0, v0, vf, pd, aMax, aMin, vMax, vMin);
      assert |a| <= 2 && |b| <= 2 && |c| <= 1;
      assert [] + a == a;
      assert vMax != 0.0 && vMin != 0.0 && aMax != 0.0 && aMin != 0.0 && aMax != aMin;
      hide NoneFound, CruiseFound, IsSqrt, Holding;
      profile := TimeNone(sqrt, 0, vMax, vMin, aMax, aMin, false, input, []);
      profile := TimeNone(sqrt, profile, vMin, vMax, aMin, aMax, false, input, a);
      profile := TimeAcc0(profile, vMax, vMin, aMax, aMin, input, a + b);
      profile := TimeAcc0(profile, vMin, vMax, aMin, aMax, input, a + b + c);
    }

    /**
     * A target at rest: the block says the least duration of any motion within the limits, and its profile takes
     * that long; there is no block only if every such motion would take more than `T_MAX`.
     */
    ghost predicate RestTold(ok: bool, block: Block)
      reads block
    {
      && (ok ==> Solved(block.pMin) && block.Of([block.pMin]))
      && forall w :: Admissible(w, v0, pd, vMin, vMax, aMin, aMax) ==>
           if ok then Duration(w) >= block.pMin.tSum[6] else Duration(w) > T_MAX
    }

    /**
     * A target that moves: what is found, whether it makes a block, and exactly when the block blocks the durations
     * that no motion takes and no others. The third profile found makes the next slot one behind the array.
     */
    ghost predicate MovingTold(sqrt: real -> real, ok: bool, block: Block, brakes: real)
      requires vMin < 0.0 < vMax && aMin < 0.0 < aMax
      reads this`outside, block
    {
      && BlockAnswer(block, ok, brakes, sqrt, v0, vf, pd, vMax, vMin, aMax, aMin)
      && (outside <==> |AllFound(sqrt, 0.0, v0, vf, pd, vMax, vMin, aMax, aMin)| >= ROOM)
      && (ok ==> Solved(block.pMin))
    }

    lemma HoldingTells(input: Profile, fs: seq<Found>, ps: seq<Plan>)
      requires Holding(input, fs) && |ps| == |fs|
      requires forall i :: 0 <= i < |fs| ==> ps[i] == validProfiles[i].Value()
      ensures Tells(ps, fs) && SameBrakes(ps) && forall p :: p in ps ==> Solved(p)
      ensures ps != [] ==> Brakes(ps) == input.brakeDuration + input.accelDuration
    {
      hide Solution;
      assert forall i :: 0 <= i < |fs| ==> Filled(validProfiles[i], input, fs[i]);
    }

    lemma FastestSolved(ok: bool, block: Block, ps: seq<Plan>)
      requires Calculated(block, ok, ps) && forall p :: p in ps ==> Solved(p)
      ensures ok ==> Solved(block.pMin)
    {
      hide Solved, Describes, Identical;
    }

    lemma MovingIsTold(sqrt: real -> real, ok: bool, block: Block, brakes: real, ps: seq<Plan>)
      requires IsSqrt(sqrt) && Moving(v0, vf, vMax, vMin, aMax, aMin) && Calculated(block, ok, ps)
      requires Tells(ps, AllFound(sqrt, 0.0, v0, vf, pd, vMax, vMin, aMax, aMin))
      requires (outside <==> |ps| >= ROOM) && (ok ==> Solved(block.pMin)) && (ps != [] ==> brakes == Brakes(ps))
      ensures MovingTold(sqrt, ok, block, brakes)
    {
      assert |ps| == |AllFound(sqrt, 0.0, v0, vf, pd, vMax, vMin, aMax, aMin)|;
      hide Solved, Calculated, AllFound, BlockAnswer, Tells, IsSqrt, Brakes;
      BlockExactly(block, ok, ps, brakes, sqrt, v0, vf, pd, vMax, vMin, aMax, aMin);
    }

    lemma RestFastest(ok: bool, block: Block)
      requires vf == 0.0 && UsualLimits(v0, vMax, vMin, aMax, aMin)
      requires ok ==> Solved(block.pMin) && block.Of([block.pMin])
      requires !ok ==> forall w :: Admissible(w, v0, pd, vMin, vMax, aMin, aMax) ==> Duration(w) > T_MAX
      ensures RestTold(ok, block)
    {
      assert ok ==> |block.pMin.tSum| == 7;
      hide Solution, Admissible, Duration, Describes;
      forall w | ok && Admissible(w, v0, pd, vMin, vMax, aMin, aMax) ensures Duration(w) >= block.pMin.tSum[6] {
        SolvedIsFastest(block.pMin, w);
      }
    }

    method GetProfile(sqrt: real -> real, input: Profile, block: Block) returns (ok: bool)
      requires Ready() && Bounded(input, input) && input !in validProfiles && IsSqrt(sqrt)
      requires vMin <= v0 <= vMax && vMin <= vf <= vMax
      modifies this`outside, validProfiles, block
      ensures vf == 0.0 ==> RestTold(ok, block)
      ensures vf != 0.0 ==> MovingTold(sqrt, ok, block, input.brakeDuration + input.accelDuration)
    {
      hide Solution, RestTold, MovingTold;
      outside := false;
      validProfiles[0].SetBoundary(input);
      assert Holding(input, []);
      hide Holding;
      if vf == 0.0 {
        ok := ToRest(sqrt, input, block);
      } else {
        ok := ToMoving(sqrt, input, block);
      }
    }

    method ToRest(sqrt: real -> real, ghost input: Profile, block: Block) returns (ok: bool)
      requires Holding(input, []) && IsSqrt(sqrt) && vf == 0.0 && vMin <= v0 <= vMax
      modifies this`outside, validProfiles, block
      ensures RestTold(ok, block)
    {
      hide Solution, NoneExhausted, Acc0Exhausted, Admissible, Duration, Describes, RestTold, Filled;
      var profile, fs := Search(sqrt, input);
      var plans := new Plan[SLOTS](i requires 0 <= i < SLOTS reads validProfiles => validProfiles[i].Value());
      ghost var ps := plans[..profile];
      HoldingTells(input, fs, ps);
      assert profile == 1 ==> ps == [ps[0]];
      ok := block.CalculateBlock(plans, profile);
      if !ok {
        forall w | Admissible(w, v0, pd, vMin, vMax, aMin, aMax) ensures Duration(w) > T_MAX {
          EverythingTakesTooLong(w, sqrt, v0, pd, vMax, vMin, aMax, aMin);
        }
      }
      RestFastest(ok, block);
    }

    method ToMoving(sqrt: real -> real, ghost input: Profile, block: Block) returns (ok: bool)
      requires Holding(input, []) && IsSqrt(sqrt) && vf != 0.0 && vMin <= v0 <= vMax && vMin <= vf <= vMax
      modifies this`outside, validProfiles, block
      ensures MovingTold(sqrt, ok, block, input.brakeDuration + input.accelDuration)
    {
      hide Solution, Describes, AllFound, Filled, Tells, Distinct, IsSqrt, SameBrakes, Solved, Brakes, MovingTold;
      var profile := SearchAll(sqrt, input);
      ghost var fs := AllFound(sqrt, 0.0, v0, vf, pd, vMax, vMin, aMax, aMin);
      var plans := new Plan[SLOTS](i requires 0 <= i < SLOTS reads validProfiles => validProfiles[i].Value());
      ghost var ps := plans[..profile];
      HoldingTells(input, fs, ps);
      ok := block.CalculateBlock(plans, profile);
      FastestSolved(ok, block, ps);
      MovingIsTold(sqrt, ok, block, input.brakeDuration + input.accelDuration, ps);
    }
  }

  // ---------------------------------------------------------------- peaks at the limit

  lemma RootOf(sqrt: real -> real, e: real, h: real)
    requires IsSqrt(sqrt) && h >= 0.0 && e == h * h
    ensures sqrt(e) == h
  {
    if sqrt(e) < h {
      SquareGrows(sqrt(e), h);
    } else if sqrt(e) > h {
      SquareGrows(h, sqrt(e));
    }
  }

  /** From 5 to 5 over a distance of 24: 4 s with a peak of 7, or between 8 s and 12 s the other way round. */
  lemma ExampleWays(sqrt: real -> real, low: real)
    requires IsSqrt(sqrt) && low <= -1.0
    ensures WayOf(sqrt, 5.0, 5.0, 24.0, 1.0, -1.0, 7.0) == One(4.0, 4.0, AtLimit)
    ensures WayOf(sqrt, -5.0, -5.0, -24.0, 1.0, -1.0, -low) == Two(8.0, 12.0, 12.0, PlaceOf(1.0, -low))
  {
    assert Energy(5.0, 5.0, 24.0, 1.0, -1.0) == 49.0 && Energy(-5.0, -5.0, -24.0, 1.0, -1.0) == 1.0;
    RootOf(sqrt, 49.0, 7.0);
    RootOf(sqrt, 1.0, 1.0);
  }

  method ExampleCall(sqrt: real -> real, low: real) returns (solver: PositionSecondOrderStep1, block: Block, ok: bool)
    requires IsSqrt(sqrt) && low <= -1.0
    ensures solver.v0 == solver.vf == 5.0 && solver.pd == 24.0 && solver.vMax == 7.0 && solver.vMin == low
    ensures solver.aMax == 1.0 && solver.aMin == -1.0 && solver.MovingTold(sqrt, ok, block, 0.0)
  {
    solver := new PositionSecondOrderStep1(0.0, 5.0, 24.0, 5.0, 7.0, low, 1.0, -1.0);
    var input := new Profile();
    input.p, input.v, input.pf, input.vf := input.p[0 := 0.0], input.v[0 := 5.0], 24.0, 5.0;
    input.brakeDuration, input.accelDuration := 0.0, 0.0;
    block := new Block(input.Value());
    hide BlockAnswer, Solution, AllFound;
    ok := solver.GetProfile(sqrt, input, block);
  }

  /** Four profiles, and no block, although there is a motion of 4 s. */
  method FourProfiles(sqrt: real -> real) returns (ok: bool)
    requires IsSqrt(sqrt)
    ensures !ok && Feasible(5.0, 5.0, 24.0, 4.0, 7.0, -7.0, 1.0, -1.0)
  {
    var solver, block;
    solver, block, ok := ExampleCall(sqrt, -7.0);
    ExampleWays(sqrt, -7.0);
    DurationsExactly(sqrt, 5.0, 5.0, 24.0, 4.0, 7.0, -7.0, 1.0, -1.0);
    hide WayOf, Feasible, TellsTruth, BlockTold, Timely, Used, LeavesOpen, IsSqrt;
  }

  lemma ExampleOfFive(sqrt: real -> real)
    requires IsSqrt(sqrt)
    ensures AllFound(sqrt, 0.0, 5.0, 5.0, 24.0, 7.0, -1.0, 1.0, -1.0) ==
            [Found(4.0, true), Found(12.0, false), Found(8.0, false), Found(4.0, true), Found(12.0, false)]
    ensures Feasible(5.0, 5.0, 24.0, 6.0, 7.0, -1.0, 1.0, -1.0)
  {
    var x, y := One(4.0, 4.0, AtLimit), Two(8.0, 12.0, 12.0, AtLimit);
    ExampleWays(sqrt, -1.0);
    DurationsExactly(sqrt, 5.0, 5.0, 24.0, 6.0, 7.0, -1.0, 1.0, -1.0);
    FoundExactly(sqrt, 5.0, 5.0, 24.0, 7.0, -1.0, 1.0, -1.0);
    hide AllFound, WayOf, Feasible, IsSqrt, Timely;
    AllInTime(x, y);
  }

  lemma FiveBlock(block: Block, fs: seq<Found>)
    requires fs == [Found(4.0, true), Found(12.0, false), Found(8.0, false), Found(4.0, true), Found(12.0, false)]
    requires LeavesOpen(block, 0.0, fs)
    ensures block.IsBlocked(Finite(6.0))
  {
    OpenFirst(fs, 0, 6.0);
    assert block.IsBlocked(Finite(6.0 + 0.0)) <==> !Open(fs, 6.0);
  }

  /** Five profiles, and a block that blocks a duration which a motion takes: 6 s. */
  method FiveProfiles(sqrt: real -> real) returns (ok: bool, block: Block)
    requires IsSqrt(sqrt)
    ensures ok && block.IsBlocked(Finite(6.0)) && Feasible(5.0, 5.0, 24.0, 6.0, 7.0, -1.0, 1.0, -1.0)
  {
    var solver;
    solver, block, ok := ExampleCall(sqrt, -1.0);
    ExampleOfFive(sqrt);
    hide WayOf, Feasible, TellsTruth, BlockTold, Timely, LeavesOpen, IsSqrt, AllFound, Fits, Counted;
    FiveBlock(block, AllFound(sqrt, 0.0, 5.0, 5.0, 24.0, 7.0, -1.0, 1.0, -1.0));
  }
}
