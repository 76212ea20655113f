/**
 * Blocks by durations alone: what the profiles found for one axis, in the order in which they are found, make
 * `calculate_block` say, and when that is what the two directions of the axis allow.
 */
module ProfileLists {
  import opened Blocks
  import opened Profiles
  import opened RealArithmetic

  /** A profile that has been found: how long it lasts and which way it goes. */
  datatype Found = Found(duration: real, up: bool)

  /** How many profiles `valid_profiles` has room for. */
  const ROOM := 3

  /** How many the calls could fill, and one more. */
  const SLOTS := 7

  /** These are the plans of the profiles found. */
  predicate Tells(ps: seq<Plan>, fs: seq<Found>) {
    && SameBrakes(ps) && |ps| == |fs|
    && forall i :: 0 <= i < |fs| ==> ps[i].tSum[6] == fs[i].duration && (ps[i].direction == UP <==> fs[i].up)
  }

  // ---------------------------------------------------------------- what calculate_block does with them

  /** Two of them go different ways and take the same time but for rounding. */
  predicate Twins(x: Found, y: Found, spacings: real) {
    Abs(x.duration - y.duration) < spacings * EPSILON && x.up != y.up
  }

  /** One of a pair of twins out of four goes. */
  function Kept(fs: seq<Found>): Option<seq<Found>>
    requires |fs| == 4
  {
    if Twins(fs[0], fs[1], 32.0) then Some([fs[0], fs[2], fs[3]])
    else if Twins(fs[2], fs[3], 256.0) || Twins(fs[0], fs[3], 256.0) then Some([fs[0], fs[1], fs[2]])
    else None
  }

  /** Whether there is a block, and what it is made of. */
  function Used(fs: seq<Found>): Option<seq<Found>> {
    if |fs| == 4 then Kept(fs) else if Usable(|fs|) then Some(fs) else None
  }

  lemma KeptTells(ps: seq<Plan>, fs: seq<Found>)
    requires Tells(ps, fs) && |fs| == 4
    ensures Distinct(ps).Some? <==> Kept(fs).Some?
    ensures Kept(fs).Some? ==> Tells(Distinct(ps).value, Kept(fs).value)
  {
    assert Identical(ps[0], ps[1], 32.0) == Twins(fs[0], fs[1], 32.0);
    assert Identical(ps[2], ps[3], 256.0) == Twins(fs[2], fs[3], 256.0);
    assert Identical(ps[0], ps[3], 256.0) == Twins(fs[0], fs[3], 256.0);
    hide Identical, Twins, Abs;
  }

  /** The first of the fastest. */
  predicate IsFirst(fs: seq<Found>, i: nat) {
    && i < |fs| && (forall k :: 0 <= k < |fs| ==> fs[i].duration <= fs[k].duration)
    && forall k :: 0 <= k < i ==> fs[i].duration < fs[k].duration
  }

  predicate InGap(x: Found, y: Found, t: real) {
    Min(x.duration, y.duration) < t < Max(x.duration, y.duration)
  }

  function Behind(fs: seq<Found>, i: nat, k: nat): Found
    requires |fs| == 5
  {
    fs[(i + k) % 5]
  }

  /** The durations that a block made of one, two, three or five profiles leaves open. */
  ghost predicate Open(fs: seq<Found>, t: real)
    requires Usable(|fs|)
  {
    if |fs| == 1 || (|fs| == 2 && Abs(fs[0].duration - fs[1].duration) < 8.0 * EPSILON) then t >= fs[0].duration
    else if |fs| == 2 then Possible2(fs[0].duration, fs[1].duration, t)
    else if |fs| == 3 then Possible3(fs[0].duration, fs[1].duration, fs[2].duration, t)
    else exists i :: IsFirst(fs, i) && OpenFrom(fs, i, t)
  }

  /** Five profiles, the fastest of which is at `i`. */
  predicate OpenFrom(fs: seq<Found>, i: nat, t: real)
    requires |fs| == 5 && i < 5
  {
    && t >= fs[i].duration
    && if Behind(fs, i, 1).up == Behind(fs, i, 2).up then
         !InGap(Behind(fs, i, 1), Behind(fs, i, 2), t) && !InGap(Behind(fs, i, 3), Behind(fs, i, 4), t)
       else
         !InGap(Behind(fs, i, 1), Behind(fs, i, 4), t) && !InGap(Behind(fs, i, 2), Behind(fs, i, 3), t)
  }

  /** What braking before and after takes, the same for all of them. */
  function Brakes(ps: seq<Plan>): real {
    if ps == [] then 0.0 else ps[0].brakeDuration + ps[0].accelDuration
  }

  lemma TotalOf(ps: seq<Plan>, fs: seq<Found>)
    requires Tells(ps, fs)
    ensures forall k :: 0 <= k < |fs| ==> Total(ps[k]) == fs[k].duration + Brakes(ps)
  {
    hide Abs;
  }

  lemma FewOpen(ps: seq<Plan>, fs: seq<Found>, t: real)
    requires Tells(ps, fs) && 1 <= |fs| <= 3
    ensures Possible(ps, t + Brakes(ps)) <==> Open(fs, t)
  {
    TotalOf(ps, fs);
    assert |fs| == 2 ==> (Close(ps[0], ps[1], 8.0) <==> Abs(fs[0].duration - fs[1].duration) < 8.0 * EPSILON);
    hide Total, Abs, Brakes, Close;
  }

  lemma OneFastest(ps: seq<Plan>, fs: seq<Found>, i: nat)
    requires Tells(ps, fs) && IsFastest(ps, i)
    ensures IsFirst(fs, i)
  {
    TotalOf(ps, fs);
    hide Total, Brakes;
  }

  lemma FirstOnly(fs: seq<Found>, i: nat, j: nat)
    requires IsFirst(fs, i) && IsFirst(fs, j)
    ensures i == j
  {
    assert fs[i].duration <= fs[j].duration && fs[j].duration <= fs[i].duration;
  }

  lemma GapOf(p: Plan, q: Plan, x: Found, y: Found, brakes: real, t: real)
    requires Total(p) == x.duration + brakes && Total(q) == y.duration + brakes
    ensures Inside(Some(Between(p, q)), Finite(t + brakes)) <==> InGap(x, y, t)
  {}

  lemma GapsOf(ps: seq<Plan>, fs: seq<Found>, i: nat, j: nat, k: nat, t: real)
    requires Tells(ps, fs) && |fs| == 5
    ensures Inside(Some(Between(Next(ps, i, j), Next(ps, i, k))), Finite(t + Brakes(ps))) <==>
            InGap(Behind(fs, i, j), Behind(fs, i, k), t)
    ensures Next(ps, i, j).direction == Next(ps, i, k).direction <==> Behind(fs, i, j).up == Behind(fs, i, k).up
  {
    TotalOf(ps, fs);
    hide Total, Brakes;
    GapOf(Next(ps, i, j), Next(ps, i, k), Behind(fs, i, j), Behind(fs, i, k), Brakes(ps), t);
  }

  lemma FiveOpen(block: Block, ps: seq<Plan>, fs: seq<Found>, i: nat, t: real)
    requires Tells(ps, fs) && |fs| == 5 && block.OfFive(ps, i)
    ensures block.IsBlocked(Finite(t + Brakes(ps))) <==> !Open(fs, t)
  {
    OneFastest(ps, fs, i);
    TotalOf(ps, fs);
    GapsOf(ps, fs, i, 1, 2, t);
    GapsOf(ps, fs, i, 3, 4, t);
    GapsOf(ps, fs, i, 1, 4, t);
    GapsOf(ps, fs, i, 2, 3, t);
    hide Total, Brakes, Next, Behind, IsFirst, Tells, InGap, Inside, Between;
    if Open(fs, t) {
      var j :| IsFirst(fs, j) && OpenFrom(fs, j, t);
      FirstOnly(fs, i, j);
    }
    assert OpenFrom(fs, i, t) ==> Open(fs, t);
  }

  /** A block leaves open what the profiles that it is made of say. */
  lemma BlockOpen(block: Block, ps: seq<Plan>, fs: seq<Found>, t: real)
    requires Tells(ps, fs) && Usable(|fs|) && block.Of(ps) && (|fs| == 5 ==> exists i :: block.OfFive(ps, i))
    ensures block.IsBlocked(Finite(t + Brakes(ps))) <==> !Open(fs, t)
  {
    assert |ps| == |fs|;
    hide Tells, Brakes, Possible, Open, Ends, Total;
    if |fs| == 5 {
      var i :| block.OfFive(ps, i);
      FiveOpen(block, ps, fs, i, t);
    } else {
      FewOpen(ps, fs, t);
    }
  }
}
