/** Which durations an axis can take: block.hpp. */
module Blocks {
  import opened Kinematics
  import opened Profiles
  import opened RealArithmetic

  datatype Option<T> = None | Some(value: T)

  /** A time that may be infinite. */
  datatype Time = Finite(seconds: real) | Infinite

  predicate Before(x: Time, y: Time) {
    x.Finite? && (y.Infinite? || x.seconds < y.seconds)
  }

  /** Durations strictly between `left` and `right` are impossible; `profile` lasts until `right`. */
  datatype Interval = Interval(left: Time, right: Time, profile: Plan)

  /** What a profile takes in all, braking before and after included. */
  function Total(p: Plan): real {
    (if |p.tSum| == 7 then p.tSum[6] else 0.0) + p.brakeDuration + p.accelDuration
  }

  /** The interval between two profiles, whichever is the longer. */
  function Between(x: Plan, y: Plan): (r: Interval)
    ensures r.left == Finite(Min(Total(x), Total(y))) && r.right == Finite(Total(r.profile))
    ensures r.profile == x || r.profile == y
    ensures Total(r.profile) >= Total(x) && Total(r.profile) >= Total(y)
  {
    if Total(x) < Total(y) then Interval(Finite(Total(x)), Finite(Total(y)), y)
    else Interval(Finite(Total(y)), Finite(Total(x)), x)
  }

  predicate Inside(i: Option<Interval>, t: Time) {
    i.Some? && Before(i.value.left, t) && Before(t, i.value.right)
  }

  /** Everything solved for one axis shares its boundary, so its brakes. */
  predicate SameBrakes(ps: seq<Plan>) {
    forall i, j :: 0 <= i < |ps| && 0 <= j < |ps| ==>
      |ps[i].tSum| == 7 && ps[i].brakeDuration == ps[j].brakeDuration && ps[i].accelDuration == ps[j].accelDuration
  }

  /** `valid_profiles` without the one at `index`, the later ones moved up. */
  method RemoveProfile(profiles: array<Plan>, count: nat, index: nat) returns (left: nat)
    requires index < count <= profiles.Length
    modifies profiles
    ensures left == count - 1
    ensures profiles[..left] == old(profiles[..index]) + old(profiles[index + 1..count])
  {
    ghost var was := profiles[..];
    for i := index to count - 1
      invariant forall k :: 0 <= k < index || i <= k < profiles.Length ==> profiles[k] == was[k]
      invariant forall k :: index <= k < i ==> profiles[k] == was[k + 1]
    {
      profiles[i] := profiles[i + 1];
    }
    left := count - 1;
    MovedUp(was, profiles[..], index, count);
  }

  lemma MovedUp(was: seq<Plan>, now: seq<Plan>, index: nat, count: nat)
    requires index < count <= |was| == |now|
    requires forall k :: 0 <= k < index ==> now[k] == was[k]
    requires forall k :: index <= k < count - 1 ==> now[k] == was[k + 1]
    ensures now[..count - 1] == was[..index] + was[index + 1..count]
  {}

  /** `std::min_element` by the time of the main profile. */
  method FastestIndex(profiles: array<Plan>, count: nat) returns (index: nat)
    requires 0 < count <= profiles.Length
    requires forall i :: 0 <= i < count ==> |profiles[i].tSum| == 7
    ensures index < count
    ensures forall i :: 0 <= i < count ==> profiles[index].tSum[6] <= profiles[i].tSum[6]
    ensures forall i :: 0 <= i < index ==> profiles[index].tSum[6] < profiles[i].tSum[6]
  {
    index := 0;
    for i := 1 to count
      invariant index < i
      invariant forall k :: 0 <= k < i ==> profiles[index].tSum[6] <= profiles[k].tSum[6]
      invariant forall k :: 0 <= k < index ==> profiles[index].tSum[6] < profiles[k].tSum[6]
    {
      if profiles[i].tSum[6] < profiles[index].tSum[6] {
        index := i;
      }
    }
  }

  /** Two profiles that last the same but for rounding. */
  predicate Close(x: Plan, y: Plan, spacings: real) {
    |x.tSum| == 7 && |y.tSum| == 7 && Abs(x.tSum[6] - y.tSum[6]) < spacings * EPSILON
  }

  predicate Identical(x: Plan, y: Plan, spacings: real) {
    Close(x, y, spacings) && x.direction != y.direction
  }

  /** The profiles `calculate_block` goes on with after dropping one of an identical pair out of four. */
  function Distinct(ps: seq<Plan>): (r: Option<seq<Plan>>)
    requires |ps| == 4
    ensures r.Some? ==> |r.value| == 3
  {
    if Identical(ps[0], ps[1], 32.0) then Some([ps[0], ps[2], ps[3]])
    else if Identical(ps[2], ps[3], 256.0) || Identical(ps[0], ps[3], 256.0) then Some([ps[0], ps[1], ps[2]])
    else None
  }

  predicate Blocked(tMin: real, a: Option<Interval>, b: Option<Interval>, t: Time) {
    Before(t, Finite(tMin)) || Inside(a, t) || Inside(b, t)
  }

  /** Exactly the shorter of two durations, or anything from the longer on. */
  predicate Possible2(x: real, y: real, t: real) {
    t == Min(x, y) || (t >= x && t >= y)
  }

  /** From the shortest to the middle one, or from the longest on: one or all three have become possible. */
  predicate Possible3(x: real, y: real, z: real, t: real) {
    var n := (if x <= t then 1 else 0) + (if y <= t then 1 else 0) + (if z <= t then 1 else 0);
    n == 1 || n == 3 || (n == 2 && (t == x || t == y || t == z))
  }

  /** An odd number of the five has become possible, or one lasts exactly that long. */
  predicate Possible5(x1: real, x2: real, x3: real, x4: real, x5: real, t: real) {
    var n := (if x1 <= t then 1 else 0) + (if x2 <= t then 1 else 0) + (if x3 <= t then 1 else 0)
             + (if x4 <= t then 1 else 0) + (if x5 <= t then 1 else 0);
    n == 1 || n == 3 || n == 5 || t == x1 || t == x2 || t == x3 || t == x4 || t == x5
  }

  /** How many profiles the source makes a block from. */
  predicate Usable(count: nat) {
    1 <= count <= 3 || count == 5
  }

  /** The durations that the profiles of an axis allow. */
  predicate Possible(ps: seq<Plan>, t: real)
    requires Usable(|ps|)
  {
    if |ps| == 1 || (|ps| == 2 && Close(ps[0], ps[1], 8.0)) then t >= Total(ps[0])
    else if |ps| == 2 then Possible2(Total(ps[0]), Total(ps[1]), t)
    else if |ps| == 3 then Possible3(Total(ps[0]), Total(ps[1]), Total(ps[2]), t)
    else Possible5(Total(ps[0]), Total(ps[1]), Total(ps[2]), Total(ps[3]), Total(ps[4]), t)
  }

  /** A block blocks exactly the finite durations its profiles do not allow. */
  ghost predicate Describes(tMin: real, a: Option<Interval>, b: Option<Interval>, ps: seq<Plan>)
    requires Usable(|ps|)
  {
    forall t :: Blocked(tMin, a, b, Finite(t)) <==> !Possible(ps, t)
  }

  lemma DescribesOne(p: Plan, ps: seq<Plan>)
    requires 1 <= |ps| <= 2 && ps[0] == p && (|ps| == 2 ==> Close(ps[0], ps[1], 8.0))
    ensures Describes(Total(p), None, None, ps)
  {
    hide Close, Total;
  }

  lemma DescribesTwo(ps: seq<Plan>, x: Plan, y: Plan)
    requires |ps| == 2 && !Close(ps[0], ps[1], 8.0) && (ps == [x, y] || ps == [y, x]) && Total(x) <= Total(y)
    ensures Describes(Total(x), Some(Between(x, y)), None, ps)
  {
    hide Close, Total;
  }

  lemma DescribesThree(ps: seq<Plan>, i: nat)
    requires |ps| == 3 && i < 3 && forall k :: 0 <= k < 3 ==> Total(ps[i]) <= Total(ps[k])
    ensures Describes(Total(ps[i]), Some(Between(ps[(i + 1) % 3], ps[(i + 2) % 3])), None, ps)
  {
    hide Total;
    assert Total(ps[i]) <= Total(ps[0]) && Total(ps[i]) <= Total(ps[1]) && Total(ps[i]) <= Total(ps[2]);
    if i == 0 {
      assert (i + 1) % 3 == 1 && (i + 2) % 3 == 2;
    } else if i == 1 {
      assert (i + 1) % 3 == 2 && (i + 2) % 3 == 0;
    } else {
      assert (i + 1) % 3 == 0 && (i + 2) % 3 == 1;
    }
  }

  /** One of the intervals ends before the other begins. */
  predicate Apart(a: Option<Interval>, b: Option<Interval>) {
    a.Some? && b.Some? ==>
      !Before(a.value.left, b.value.right) || !Before(b.value.left, a.value.right)
  }

  /** The shortest duration and two intervals describe five durations exactly if the intervals are apart. */
  lemma FiveDurations(m: real, la: real, ra: real, lb: real, rb: real)
    requires m <= la <= ra && m <= lb <= rb
    ensures (forall t :: t < m || la < t < ra || lb < t < rb <==> !Possible5(m, la, ra, lb, rb, t)) <==>
            ra <= lb || rb <= la
  {
    if !(ra <= lb || rb <= la) {
      var low, high := if la < lb then lb else la, if ra < rb then ra else rb;
      var t := if low < high then (low + high) / 2.0 else if la == ra then la else lb;
      assert Possible5(m, la, ra, lb, rb, t);
    }
  }

  /** Five durations in another order. */
  lemma SameFive(m: real, x1: real, x2: real, x3: real, x4: real, t: real)
    ensures Possible5(m, x1, x2, x3, x4, t) == Possible5(x1, x2, x3, x4, m, t)
    ensures Possible5(m, x1, x2, x3, x4, t) ==
            Possible5(m, Min(x1, x2), Max(x1, x2), Min(x3, x4), Max(x3, x4), t)
    ensures Possible5(m, x1, x2, x3, x4, t) ==
            Possible5(m, Min(x1, x4), Max(x1, x4), Min(x2, x3), Max(x2, x3), t)
  {}

  /** The profile `k` places after profile `i`. */
  function Next(ps: seq<Plan>, i: nat, k: nat): Plan
    requires |ps| == 5
  {
    ps[(i + k) % 5]
  }

  lemma {:induction false} PossibleFrom(ps: seq<Plan>, i: nat, t: real)
    requires |ps| == 5 && i < 5
    ensures Possible(ps, t) == Possible5(Total(Next(ps, i, 0)), Total(Next(ps, i, 1)), Total(Next(ps, i, 2)),
                                         Total(Next(ps, i, 3)), Total(Next(ps, i, 4)), t)
  {
    hide Total, Possible5;
    if i > 0 {
      PossibleFrom(ps, i - 1, t);
      SameFive(Total(Next(ps, i - 1, 0)), Total(Next(ps, i - 1, 1)), Total(Next(ps, i - 1, 2)),
               Total(Next(ps, i - 1, 3)), Total(Next(ps, i - 1, 4)), t);
      assert forall k :: 0 <= k < 4 ==> Next(ps, i - 1, k + 1) == Next(ps, i, k);
      assert (i - 1 + 0) % 5 == (i + 4) % 5;
    }
  }

  /** The intervals that the source makes from five profiles, the fastest of which is at `i`. */
  function Pairs(ps: seq<Plan>, i: nat): (Interval, Interval)
    requires |ps| == 5
  {
    if Next(ps, i, 1).direction == Next(ps, i, 2).direction then
      (Between(Next(ps, i, 1), Next(ps, i, 2)), Between(Next(ps, i, 3), Next(ps, i, 4)))
    else (Between(Next(ps, i, 1), Next(ps, i, 4)), Between(Next(ps, i, 2), Next(ps, i, 3)))
  }

  /** The durations of five profiles, in the order of the two intervals. */
  lemma PairsOrder(ps: seq<Plan>, i: nat)
    requires |ps| == 5 && i < 5 && forall k :: 0 <= k < 5 ==> Total(ps[i]) <= Total(ps[k])
    ensures var (a, b) := Pairs(ps, i);
      && a.left.Finite? && a.right.Finite? && b.left.Finite? && b.right.Finite?
      && Total(ps[i]) <= a.left.seconds <= a.right.seconds && Total(ps[i]) <= b.left.seconds <= b.right.seconds
  {
    hide Total;
    assert forall k: nat :: Total(ps[i]) <= Total(Next(ps, i, k));
  }

  lemma PairsPossible(ps: seq<Plan>, i: nat, t: real)
    requires |ps| == 5 && i < 5
    ensures var (a, b) := Pairs(ps, i);
      && a.left.Finite? && a.right.Finite? && b.left.Finite? && b.right.Finite?
      && Possible(ps, t) ==
         Possible5(Total(ps[i]), a.left.seconds, a.right.seconds, b.left.seconds, b.right.seconds, t)
  {
    hide Total, Possible5, Possible;
    PossibleFrom(ps, i, t);
    SameFive(Total(ps[i]), Total(Next(ps, i, 1)), Total(Next(ps, i, 2)), Total(Next(ps, i, 3)),
             Total(Next(ps, i, 4)), t);
  }

  /** The profile of an interval lasts until its end. */
  predicate Ends(i: Option<Interval>, ps: seq<Plan>) {
    i.Some? ==> i.value.profile in ps && i.value.right == Finite(Total(i.value.profile))
  }

  lemma PairsEnd(ps: seq<Plan>, i: nat)
    requires |ps| == 5
    ensures Ends(Some(Pairs(ps, i).0), ps) && Ends(Some(Pairs(ps, i).1), ps)
  {
    hide Total;
    assert forall k: nat {:trigger Next(ps, i, k)} :: Next(ps, i, k) in ps;
  }

  /** Five profiles are described by them exactly if the intervals are apart. */
  lemma DescribesFive(ps: seq<Plan>, i: nat)
    requires |ps| == 5 && i < 5 && forall k :: 0 <= k < 5 ==> Total(ps[i]) <= Total(ps[k])
    ensures var (a, b) := Pairs(ps, i);
      Describes(Total(ps[i]), Some(a), Some(b), ps) <==> Apart(Some(a), Some(b))
  {
    hide Total, Possible5, Possible, Next, Pairs;
    PairsOrder(ps, i);
    var (a, b) := Pairs(ps, i);
    var m, la, ra, lb, rb := Total(ps[i]), a.left.seconds, a.right.seconds, b.left.seconds, b.right.seconds;
    FiveDurations(m, la, ra, lb, rb);
    forall t ensures Possible(ps, t) == Possible5(m, la, ra, lb, rb, t) {
      PairsPossible(ps, i, t);
    }
    assert forall t :: Blocked(m, Some(a), Some(b), Finite(t)) <==> t < m || la < t < ra || lb < t < rb;
  }

  /** Of two nested intervals the outer one hides durations that the inner one has made possible. */
  lemma NestedIntervals(ps: seq<Plan>)
    requires |ps| == 5 && ps[1].direction == ps[2].direction
    requires Total(ps[0]) == 1.0 && Total(ps[1]) == 2.0 && Total(ps[2]) == 6.0
    requires Total(ps[3]) == 3.0 && Total(ps[4]) == 5.0
    ensures var (a, b) := Pairs(ps, 0);
      Possible(ps, 4.0) && Blocked(1.0, Some(a), Some(b), Finite(4.0)) && !Apart(Some(a), Some(b))
  {
    hide Total;
    assert Next(ps, 0, 1) == ps[1] && Next(ps, 0, 2) == ps[2] && Next(ps, 0, 3) == ps[3] && Next(ps, 0, 4) == ps[4];
  }

  /** The first of the fastest profiles. */
  predicate IsFastest(ps: seq<Plan>, i: nat) {
    && i < |ps| && (forall k :: 0 <= k < |ps| ==> Total(ps[i]) <= Total(ps[k]))
    && (forall k :: 0 <= k < i ==> Total(ps[i]) < Total(ps[k]))
  }

  lemma SameOrder(ps: seq<Plan>, i: nat, j: nat)
    requires SameBrakes(ps) && i < |ps| && j < |ps|
    ensures |ps[i].tSum| == 7 && |ps[j].tSum| == 7
    ensures ps[i].tSum[6] <= ps[j].tSum[6] <==> Total(ps[i]) <= Total(ps[j])
  {}

  lemma SevenSums(ps: seq<Plan>)
    requires SameBrakes(ps)
    ensures forall k :: 0 <= k < |ps| ==> |ps[k].tSum| == 7
  {
    forall k | 0 <= k < |ps| ensures |ps[k].tSum| == 7 {
      SameOrder(ps, k, k);
    }
  }

  lemma FastestInAll(ps: seq<Plan>, i: nat)
    requires SameBrakes(ps) && i < |ps|
    requires forall k :: 0 <= k < |ps| ==> ps[i].tSum[6] <= ps[k].tSum[6]
    requires forall k :: 0 <= k < i ==> ps[i].tSum[6] < ps[k].tSum[6]
    ensures IsFastest(ps, i) && forall k :: 0 <= k < |ps| ==> Total(ps[i]) <= Total(ps[k])
  {
    forall k | 0 <= k < |ps|
      ensures Total(ps[i]) <= Total(ps[k]) && (k < i ==> Total(ps[i]) < Total(ps[k]))
    {
      SameOrder(ps, i, k);
      SameOrder(ps, k, i);
    }
  }

  class Block {
    var pMin: Plan
    var tMin: real
    var a: Option<Interval>
    var b: Option<Interval>

    constructor (p: Plan)
      ensures pMin == p && tMin == Total(p) && a == None && b == None
    {
      pMin, tMin, a, b := p, Total(p), None, None;
    }

    predicate IsBlocked(t: Time)
      reads this
    {
      Blocked(tMin, a, b, t)
    }

    function GetProfile(t: Time): Plan
      reads this
    {
      if b.Some? && !Before(t, b.value.right) then b.value.profile
      else if a.Some? && !Before(t, a.value.right) then a.value.profile
      else pMin
    }

    method SetMinProfile(profile: Plan)
      modifies this
      ensures pMin == profile && tMin == Total(profile) && a == None && b == None
    {
      pMin := profile;
      tMin := Total(profile);
      a, b := None, None;
    }

    /** The block says what its profiles allow, and each of its profiles lasts as long as it says. */
    ghost predicate Of(ps: seq<Plan>)
      requires Usable(|ps|)
      reads this
    {
      && (Describes(tMin, a, b, ps) <==> Apart(a, b)) && pMin in ps && tMin == Total(pMin)
      && Ends(a, ps) && Ends(b, ps) && (|ps| < 5 ==> b == None)
    }

    /** For a duration that is not blocked: one of the profiles, and one that does not last longer. */
    lemma ProfileFits(ps: seq<Plan>, t: real)
      requires Usable(|ps|) && Of(ps) && !IsBlocked(Finite(t))
      ensures GetProfile(Finite(t)) in ps && Total(GetProfile(Finite(t))) <= t
    {}

    /** The block that five profiles make, overlapping intervals or not. */
    ghost predicate OfFive(ps: seq<Plan>, i: nat)
      requires |ps| == 5
      reads this
    {
      IsFastest(ps, i) && pMin == ps[i] && tMin == Total(pMin) && a == Some(Pairs(ps, i).0) && b == Some(Pairs(ps, i).1)
    }

    method FromTwo(profiles: array<Plan>)
      requires profiles.Length >= 2 && SameBrakes(profiles[..2])
      modifies this
      ensures Of(profiles[..2])
    {
      hide Describes, Total, SameBrakes;
      ghost var ps := profiles[..2];
      SameOrder(ps, 0, 1);
      SameOrder(ps, 1, 0);
      if Close(profiles[0], profiles[1], 8.0) {
        DescribesOne(ps[0], ps);
        SetMinProfile(profiles[0]);
      } else {
        var idxMin := if profiles[0].tSum[6] < profiles[1].tSum[6] then 0 else 1;
        var idxElse := (idxMin + 1) % 2;
        DescribesTwo(ps, ps[idxMin], ps[idxElse]);
        SetMinProfile(profiles[idxMin]);
        a := Some(Between(profiles[idxMin], profiles[idxElse]));
      }
    }

    method FromThree(profiles: array<Plan>)
      requires profiles.Length >= 3 && SameBrakes(profiles[..3])
      modifies this
      ensures Of(profiles[..3])
    {
      hide Describes, Total, Close;
      ghost var ps := profiles[..3];
      assert forall k :: 0 <= k < 3 ==> ps[k] == profiles[k];
      var idxMin := FastestIndex(profiles, 3);
      forall k | 0 <= k < 3 ensures Total(ps[idxMin]) <= Total(ps[k]) {
        SameOrder(ps, idxMin, k);
      }
      DescribesThree(ps, idxMin);
      SetMinProfile(profiles[idxMin]);
      a := Some(Between(profiles[(idxMin + 1) % 3], profiles[(idxMin + 2) % 3]));
    }

    lemma FiveIsOf(ps: seq<Plan>, i: nat)
      requires |ps| == 5 && OfFive(ps, i)
      ensures Of(ps)
    {
      hide Describes, Total, Apart, Possible, Pairs;
      DescribesFive(ps, i);
      PairsEnd(ps, i);
    }

    method FromFive(profiles: array<Plan>)
      requires profiles.Length >= 5 && SameBrakes(profiles[..5])
      modifies this
      ensures Of(profiles[..5]) && a.Some? && b.Some? && exists i :: OfFive(profiles[..5], i)
    {
      hide Total, Between, IsFastest, SameBrakes, Of;
      ghost var ps := profiles[..5];
      assert forall k :: 0 <= k < 5 ==> ps[k] == profiles[k] && |ps[k].tSum| == 7 by {
        SevenSums(ps);
      }
      var idxMin := FastestIndex(profiles, 5);
      FastestInAll(ps, idxMin);
      SetMinProfile(profiles[idxMin]);
      var idxElse1, idxElse2 := (idxMin + 1) % 5, (idxMin + 2) % 5;
      var idxElse3, idxElse4 := (idxMin + 3) % 5, (idxMin + 4) % 5;
      if profiles[idxElse1].direction == profiles[idxElse2].direction {
        a := Some(Between(profiles[idxElse1], profiles[idxElse2]));
        b := Some(Between(profiles[idxElse3], profiles[idxElse4]));
      } else {
        a := Some(Between(profiles[idxElse1], profiles[idxElse4]));
        b := Some(Between(profiles[idxElse2], profiles[idxElse3]));
      }
      assert OfFive(ps, idxMin);
      FiveIsOf(ps, idxMin);
    }

    /** One of two identical profiles out of four goes; without such a pair there is no answer. */
    method DropIdentical(profiles: array<Plan>) returns (ok: bool)
      requires profiles.Length >= 4
      modifies profiles
      ensures ok <==> Distinct(old(profiles[..4])).Some?
      ensures ok ==> profiles[..3] == Distinct(old(profiles[..4])).value
    {
      hide Close;
      ghost var ps := profiles[..4];
      var count := 4;
      ok := true;
      if Identical(profiles[0], profiles[1], 32.0) {
        count := RemoveProfile(profiles, 4, 1);
      } else if Identical(profiles[2], profiles[3], 256.0) {
        count := RemoveProfile(profiles, 4, 3);
      } else if Identical(profiles[0], profiles[3], 256.0) {
        count := RemoveProfile(profiles, 4, 3);
      } else {
        ok := false;
      }
    }

    /**
     * One, two, three or five profiles make a block, and four if two of them are identical. The block blocks
     * exactly what its profiles do not allow, unless there are five whose two intervals overlap.
     */
    method CalculateBlock(profiles: array<Plan>, validCount: nat) returns (ok: bool)
      requires validCount <= profiles.Length && SameBrakes(profiles[..validCount])
      modifies this, profiles
      ensures ok <==> Usable(validCount) || (validCount == 4 && Distinct(old(profiles[..4])).Some?)
      ensures ok && validCount != 4 ==> Of(old(profiles[..validCount]))
      ensures ok && validCount == 4 ==> Of(Distinct(old(profiles[..4])).value)
      ensures ok && validCount == 5 ==> exists i :: OfFive(old(profiles[..5]), i)
    {
      hide Describes, Total, Close, Identical;
      if validCount == 1 {
        DescribesOne(profiles[0], profiles[..1]);
        SetMinProfile(profiles[0]);
        return true;
      } else if validCount == 2 {
        FromTwo(profiles);
        return true;
      } else if validCount == 4 {
        ok := DropIdentical(profiles);
        if !ok {
          return;
        }
      } else if validCount % 2 == 0 {
        return false;
      }
      if validCount == 3 || validCount == 4 {
        FromThree(profiles);
        return true;
      } else if validCount == 5 {
        FromFive(profiles);
        return true;
      }
      var idxMin := FastestIndex(profiles, validCount);
      SetMinProfile(profiles[idxMin]);
      return false;
    }
  }
}
