/** How one duration is chosen for all axes: `synchronize` of calculator_target.hpp. */
module Synchronization {
  import opened Profiles
  import opened Blocks
  import opened RealArithmetic

  /** An axis without synchronisation does not take part in the choice. */
  datatype Mode = Phase | TimeAlways | TimeIfNecessary | NoSync

  /** What a block says about durations, as a value. */
  datatype Window = Window(tMin: real, a: Option<Interval>, b: Option<Interval>)

  predicate Open(w: Window, t: real) {
    !Blocked(w.tMin, w.a, w.b, Finite(t))
  }

  function Floor(least: Option<real>): real {
    if least.Some? then least.value else 0.0
  }

  /** A duration every synchronised axis can take, not below the minimum asked for. */
  predicate Admissible(ws: seq<Window>, modes: seq<Mode>, least: Option<real>, t: real)
    requires |ws| == |modes|
  {
    t >= Floor(least) && forall d :: 0 <= d < |ws| && modes[d] != NoSync ==> Open(ws[d], t)
  }

  function Right(i: Option<Interval>): Time {
    if i.Some? then i.value.right else Infinite
  }

  /** Entry `i` of `possible_t_syncs`: the `t_min`s, then the ends of the intervals, then the minimum. */
  function Candidate(ws: seq<Window>, modes: seq<Mode>, least: Option<real>, i: nat): Time
    requires |ws| == |modes| && i <= 3 * |ws|
  {
    var n := |ws|;
    if i < n then (if modes[i] == NoSync then Finite(0.0) else Finite(ws[i].tMin))
    else if i < 2 * n then (if modes[i - n] == NoSync then Infinite else Right(ws[i - n].a))
    else if i < 3 * n then (if modes[i - 2 * n] == NoSync then Infinite else Right(ws[i - 2 * n].b))
    else if least.Some? then Finite(least.value) else Infinite
  }

  predicate HasInterval(w: Window, mode: Mode) {
    mode != NoSync && (w.a.Some? || w.b.Some?)
  }

  predicate AnyInterval(ws: seq<Window>, modes: seq<Mode>, least: Option<real>)
    requires |ws| == |modes|
  {
    least.Some? || exists d :: 0 <= d < |ws| && HasInterval(ws[d], modes[d])
  }

  // ---------------------------------------------------------------- discrete durations

  function Multiple(k: int, delta: real): real {
    k as real * delta
  }

  /** `std::fmod`: the quotient is truncated towards zero. */
  function Fmod(x: real, delta: real): real
    requires delta > 0.0
  {
    if x >= 0.0 then x - Multiple((x / delta).Floor, delta) else -((-x) - Multiple(((-x) / delta).Floor, delta))
  }

  function RoundUp(x: Time, delta: Option<real>): Time
    requires delta.Some? ==> delta.value > 0.0
  {
    if x.Infinite? || delta.None? then x
    else
      var remainder := Fmod(x.seconds, delta.value);
      if remainder > EPSILON then Finite(x.seconds + (delta.value - remainder)) else x
  }

  /** The durations to choose from: all of them, or the multiples of `delta`. */
  ghost predicate OnGrid(delta: Option<real>, t: real) {
    delta.Some? ==> exists k :: t == Multiple(k, delta.value)
  }

  lemma MultiplesOrdered(k: int, j: int, delta: real)
    requires delta > 0.0
    ensures Multiple(k + 1, delta) == Multiple(k, delta) + delta
    ensures k <= j ==> Multiple(k, delta) <= Multiple(j, delta)
  {
    if k <= j {
      var e := (j - k) as real;
      Product(e, delta);
      assert j as real == k as real + e;
      assert Multiple(j, delta) == Multiple(k, delta) + e * delta;
    }
    assert (k + 1) as real == k as real + 1.0;
  }

  lemma BetweenMultiples(q: real, k: real, next: real, delta: real)
    requires k <= q < next && delta > 0.0
    ensures k * delta <= q * delta < next * delta
  {
    var low, high := q - k, next - q;
    Product(low, delta);
    Product(high, delta);
    assert q * delta == k * delta + low * delta && next * delta == q * delta + high * delta;
  }

  lemma FloorTimes(x: real, delta: real, k: int)
    requires x >= 0.0 && delta > 0.0 && k == (x / delta).Floor
    ensures Multiple(k, delta) <= x < Multiple(k + 1, delta)
  {
    var q, next := x / delta, (k + 1) as real;
    QuotientTimes(x, delta, q);
    assert k as real <= q < next == k as real + 1.0;
    BetweenMultiples(q, k as real, next, delta);
    assert x < next * delta;
    assert Multiple(k + 1, delta) == next * delta;
  }

  lemma FmodRange(x: real, delta: real)
    requires delta > 0.0
    ensures x >= 0.0 ==> 0.0 <= Fmod(x, delta) < delta
    ensures x < 0.0 ==> Fmod(x, delta) <= 0.0
  {
    hide Multiple;
    var y := if x >= 0.0 then x else -x;
    var k := (y / delta).Floor;
    FloorTimes(y, delta, k);
    MultiplesOrdered(k, k, delta);
    assert Fmod(x, delta) == if x >= 0.0 then y - Multiple(k, delta) else -(y - Multiple(k, delta));
  }

  /** Rounding goes up by less than one step, and never past a time on the grid. */
  lemma RoundUpRange(x: real, delta: Option<real>)
    requires delta.Some? ==> delta.value > 0.0
    ensures var r := RoundUp(Finite(x), delta);
      && r.Finite? && x <= r.seconds && (delta.Some? ==> r.seconds < x + delta.value)
  {
    hide Fmod;
    if delta.Some? {
      FmodRange(x, delta.value);
    }
  }

  lemma RoundUpBelow(x: real, delta: Option<real>, t: real)
    requires (delta.Some? ==> delta.value > 0.0) && OnGrid(delta, t) && x <= t
    ensures RoundUp(Finite(x), delta).seconds <= t
  {
    if delta.Some? && Fmod(x, delta.value) > EPSILON {
      FmodRange(x, delta.value);
      var j :| t == Multiple(j, delta.value);
      var k := (x / delta.value).Floor;
      FloorTimes(x, delta.value, k);
      hide Multiple;
      MultiplesOrdered(k, k, delta.value);
      MultiplesOrdered(k + 1, j, delta.value);
      MultiplesOrdered(j, k, delta.value);
    }
  }

  /** A rounded time is on the grid, or was within rounding error above it to begin with. */
  lemma RoundUpOnGrid(x: real, delta: Option<real>)
    requires (delta.Some? ==> delta.value > 0.0) && x >= 0.0
    ensures OnGrid(delta, RoundUp(Finite(x), delta).seconds) <==>
      delta.None? || !(0.0 < Fmod(x, delta.value) <= EPSILON)
  {
    if delta.Some? {
      var k := (x / delta.value).Floor;
      FloorTimes(x, delta.value, k);
      hide Multiple;
      MultiplesOrdered(k, k, delta.value);
      var r := RoundUp(Finite(x), delta).seconds;
      if Fmod(x, delta.value) > EPSILON {
        assert r == Multiple(k + 1, delta.value);
      } else if Fmod(x, delta.value) == 0.0 {
        assert r == Multiple(k, delta.value);
      } else {
        forall j ensures r != Multiple(j, delta.value) {
          MultiplesOrdered(k + 1, j, delta.value);
          MultiplesOrdered(j, k, delta.value);
        }
      }
    }
  }

  // ---------------------------------------------------------------- why the least duration is a candidate

  function Chosen(ws: seq<Window>, modes: seq<Mode>, least: Option<real>, delta: Option<real>, i: nat): Time
    requires |ws| == |modes| && i <= 3 * |ws| && (delta.Some? ==> delta.value > 0.0)
  {
    RoundUp(Candidate(ws, modes, least, i), delta)
  }

  /** No candidate is above a multiple of `delta` by no more than the rounding error that is let pass. */
  predicate Sharp(ws: seq<Window>, modes: seq<Mode>, least: Option<real>, delta: Option<real>)
    requires |ws| == |modes| && (delta.Some? ==> delta.value > 0.0)
  {
    forall i :: 0 <= i <= 3 * |ws| && delta.Some? && Candidate(ws, modes, least, i).Finite? ==>
      var x := Candidate(ws, modes, least, i).seconds;
      x >= 0.0 && !(0.0 < Fmod(x, delta.value) <= EPSILON)
  }

  /** Then every entry is on the grid, so the duration chosen is the least admissible one there. */
  lemma SharpOnGrid(ws: seq<Window>, modes: seq<Mode>, least: Option<real>, delta: Option<real>, i: nat)
    requires |ws| == |modes| && i <= 3 * |ws| && (delta.Some? ==> delta.value > 0.0) && Sharp(ws, modes, least, delta)
    requires Chosen(ws, modes, least, delta, i).Finite?
    ensures OnGrid(delta, Chosen(ws, modes, least, delta, i).seconds)
  {
    hide Fmod;
    var x := Candidate(ws, modes, least, i);
    if delta.Some? {
      RoundUpOnGrid(x.seconds, delta);
    }
  }

  /** Above a multiple of `delta` by no more than the rounding error that is let pass. */
  predicate JustAbove(x: Time, delta: Option<real>)
    requires delta.Some? ==> delta.value > 0.0
  {
    x.Finite? && delta.Some? && 0.0 < Fmod(x.seconds, delta.value) <= EPSILON
  }

  /** An entry that is not negative is off the grid after rounding exactly if it was just above it. */
  lemma ChosenOnGrid(ws: seq<Window>, modes: seq<Mode>, least: Option<real>, delta: Option<real>, i: nat)
    requires |ws| == |modes| && i <= 3 * |ws| && (delta.Some? ==> delta.value > 0.0)
    requires Chosen(ws, modes, least, delta, i).Finite? && Chosen(ws, modes, least, delta, i).seconds >= 0.0
    ensures OnGrid(delta, Chosen(ws, modes, least, delta, i).seconds) <==>
      !JustAbove(Candidate(ws, modes, least, i), delta)
  {
    var x := Candidate(ws, modes, least, i).seconds;
    if x < 0.0 && delta.Some? {
      FmodRange(x, delta.value);
    }
    hide Fmod;
    RoundUpOnGrid(x, delta);
  }

  predicate AtMost(x: Time, t: real) {
    x.Finite? && x.seconds <= t
  }

  lemma {:induction false} LargestAtMost(cs: seq<Time>, t: real) returns (k: nat)
    requires cs != [] && AtMost(cs[0], t)
    ensures k < |cs| && AtMost(cs[k], t)
    ensures forall j :: 0 <= j < |cs| && AtMost(cs[j], t) ==> cs[j].seconds <= cs[k].seconds
  {
    var last := |cs| - 1;
    if last == 0 {
      k := 0;
    } else {
      k := LargestAtMost(cs[..last], t);
      if AtMost(cs[last], t) && cs[last].seconds > cs[k].seconds {
        k := last;
      }
    }
  }

  /** Axes and limits as the rest of the library hands them over. */
  predicate Sensible(ws: seq<Window>, modes: seq<Mode>, least: Option<real>, delta: Option<real>) {
    && |ws| == |modes| > 0 && (delta.Some? ==> delta.value > 0.0) && (least.Some? ==> least.value >= 0.0)
    && forall d :: 0 <= d < |ws| ==> ws[d].tMin >= 0.0
  }

  function Entries(ws: seq<Window>, modes: seq<Mode>, least: Option<real>): nat
    requires |ws| == |modes|
  {
    if AnyInterval(ws, modes, least) then 3 * |ws| + 1 else |ws|
  }

  lemma MinimaBelow(ws: seq<Window>, modes: seq<Mode>, least: Option<real>, delta: Option<real>, t: real, d: nat)
    requires Sensible(ws, modes, least, delta) && d < |ws| && OnGrid(delta, t) && Admissible(ws, modes, least, t)
    ensures AtMost(Chosen(ws, modes, least, delta, d), t)
  {
    hide RoundUp, OnGrid;
    var x := Candidate(ws, modes, least, d);
    assert modes[d] != NoSync ==> Open(ws[d], t);
    RoundUpRange(x.seconds, delta);
    RoundUpBelow(x.seconds, delta, t);
  }

  /** If the end of an interval is not above `t`, its rounded value is among the entries, and not above `t` either. */
  lemma EndsBelow(ws: seq<Window>, modes: seq<Mode>, least: Option<real>, delta: Option<real>, t: real, i: nat)
    requires Sensible(ws, modes, least, delta) && |ws| <= i <= 3 * |ws| && OnGrid(delta, t)
    requires AtMost(Candidate(ws, modes, least, i), t)
    ensures i < Entries(ws, modes, least) && AtMost(Chosen(ws, modes, least, delta, i), t)
    ensures Candidate(ws, modes, least, i).seconds <= Chosen(ws, modes, least, delta, i).seconds
  {
    hide RoundUp, OnGrid;
    var n, x := |ws|, Candidate(ws, modes, least, i);
    RoundUpRange(x.seconds, delta);
    RoundUpBelow(x.seconds, delta, t);
    if i < 2 * n {
      assert ws[i - n].a.Some?;
    } else if i < 3 * n {
      assert ws[i - 2 * n].b.Some?;
    }
  }

  /** The largest candidate not above an admissible duration is admissible itself. */
  lemma CandidateBelow(ws: seq<Window>, modes: seq<Mode>, least: Option<real>, delta: Option<real>, t: real)
    returns (k: nat)
    requires Sensible(ws, modes, least, delta) && OnGrid(delta, t) && Admissible(ws, modes, least, t)
    ensures k < Entries(ws, modes, least) && AtMost(Chosen(ws, modes, least, delta, k), t)
    ensures Admissible(ws, modes, least, Chosen(ws, modes, least, delta, k).seconds)
    ensures forall d :: 0 <= d < |ws| ==>
      AtMost(Chosen(ws, modes, least, delta, d), Chosen(ws, modes, least, delta, k).seconds)
  {
    hide RoundUp, OnGrid, Admissible, AnyInterval, Candidate, Open;
    var n, m := |ws|, Entries(ws, modes, least);
    var cs := seq(m, i requires 0 <= i < m => Chosen(ws, modes, least, delta, i));
    forall d | 0 <= d < n ensures AtMost(cs[d], t) {
      MinimaBelow(ws, modes, least, delta, t, d);
    }
    k := LargestAtMost(cs, t);
    var c := cs[k].seconds;
    assert AtMost(cs[0], c);
    LargestIsAdmissible(ws, modes, least, delta, t, cs, c);
  }

  lemma LargestIsAdmissible(ws: seq<Window>, modes: seq<Mode>, least: Option<real>, delta: Option<real>, t: real,
                            cs: seq<Time>, c: real)
    requires Sensible(ws, modes, least, delta) && OnGrid(delta, t) && Admissible(ws, modes, least, t) && c <= t
    requires |cs| == Entries(ws, modes, least)
    requires forall i :: 0 <= i < |cs| ==> cs[i] == Chosen(ws, modes, least, delta, i)
    requires forall i :: 0 <= i < |cs| && AtMost(cs[i], t) ==> cs[i].seconds <= c
    requires forall d :: 0 <= d < |ws| ==> AtMost(cs[d], c)
    ensures Admissible(ws, modes, least, c)
  {
    hide RoundUp, OnGrid, AnyInterval;
    var n := |ws|;
    if least.Some? {
      EndsBelow(ws, modes, least, delta, t, 3 * n);
    } else {
      ChosenNotBelow(ws, modes, least, delta, 0);
    }
    forall d | 0 <= d < n && modes[d] != NoSync ensures Open(ws[d], c) {
      ChosenNotBelow(ws, modes, least, delta, d);
      assert Open(ws[d], t);
      if AtMost(Right(ws[d].a), t) {
        EndsBelow(ws, modes, least, delta, t, n + d);
      }
      if AtMost(Right(ws[d].b), t) {
        EndsBelow(ws, modes, least, delta, t, 2 * n + d);
      }
    }
  }

  lemma ChosenNotBelow(ws: seq<Window>, modes: seq<Mode>, least: Option<real>, delta: Option<real>, d: nat)
    requires Sensible(ws, modes, least, delta) && d < |ws|
    ensures var x := Chosen(ws, modes, least, delta, d); x.Finite? && x.seconds >= 0.0
    ensures modes[d] != NoSync ==> Chosen(ws, modes, least, delta, d).seconds >= ws[d].tMin
  {
    hide RoundUp;
    RoundUpRange(Candidate(ws, modes, least, d).seconds, delta);
  }

  // ---------------------------------------------------------------- sorted search

  predicate NotAfter(x: Time, y: Time) {
    !Before(y, x)
  }

  /** `order` lists the entries in ascending order; `place` says where each of them is. */
  predicate Sorted(cs: seq<Time>, order: seq<nat>, place: seq<nat>) {
    && |order| == |place| == |cs|
    && (forall i :: 0 <= i < |cs| ==> order[i] < |cs| && place[order[i]] == i)
    && (forall k :: 0 <= k < |cs| ==> place[k] < |cs| && order[place[k]] == k)
    && (forall i, j :: 0 <= i <= j < |cs| ==> NotAfter(cs[order[i]], cs[order[j]]))
  }

  lemma {:induction false} Pigeonhole(place: seq<nat>, m: nat)
    requires forall i, j :: 0 <= i < j < |place| ==> place[i] != place[j]
    requires forall i :: 0 <= i < |place| ==> place[i] < m
    ensures |place| <= m
    decreases m
  {
    if |place| > 0 {
      var last := |place| - 1;
      if m - 1 in place {
        var k :| 0 <= k < |place| && place[k] == m - 1;
        var rest := place[..k] + place[k + 1..];
        assert forall i :: 0 <= i < last ==> rest[i] == if i < k then place[i] else place[i + 1];
        Pigeonhole(rest, m - 1);
      } else {
        Pigeonhole(place, m - 1);
      }
    }
  }

  /** One of the first `n` entries is in position `n - 1` or later. */
  lemma SomeLatePlace(cs: seq<Time>, order: seq<nat>, place: seq<nat>, n: nat) returns (d: nat)
    requires Sorted(cs, order, place) && 0 < n <= |cs|
    ensures d < n && place[d] >= n - 1
  {
    var first := place[..n];
    forall i, j | 0 <= i < j < n ensures first[i] != first[j] {
      assert order[place[i]] == i && order[place[j]] == j;
    }
    if forall k :: 0 <= k < n ==> first[k] < n - 1 {
      Pigeonhole(first, n - 1);
    }
    d :| 0 <= d < n && first[d] >= n - 1;
  }

  /** If the first `n` entries are at most `c`, so is the one in position `n - 1`. */
  lemma StartIsEarlyEnough(cs: seq<Time>, order: seq<nat>, place: seq<nat>, n: nat, c: real)
    requires Sorted(cs, order, place) && 0 < n <= |cs| && forall d :: 0 <= d < n ==> AtMost(cs[d], c)
    ensures AtMost(cs[order[n - 1]], c)
  {
    var d := SomeLatePlace(cs, order, place, n);
    assert NotAfter(cs[order[n - 1]], cs[order[place[d]]]);
  }

  /** Nothing admissible is missed by looking at the sorted entries from position `n - 1` on. */
  lemma SearchFinds(ws: seq<Window>, modes: seq<Mode>, least: Option<real>, delta: Option<real>, t: real,
                    cs: seq<Time>, order: seq<nat>, place: seq<nat>) returns (i: nat)
    requires Sensible(ws, modes, least, delta) && OnGrid(delta, t) && Admissible(ws, modes, least, t)
    requires |cs| == Entries(ws, modes, least) && Sorted(cs, order, place)
    requires forall k :: 0 <= k < |cs| ==> cs[k] == Chosen(ws, modes, least, delta, k)
    ensures |ws| - 1 <= i < |cs| && AtMost(cs[order[i]], t) && Admissible(ws, modes, least, cs[order[i]].seconds)
  {
    hide Chosen, Admissible, AnyInterval, OnGrid;
    var n := |ws|;
    var k := CandidateBelow(ws, modes, least, delta, t);
    StartIsEarlyEnough(cs, order, place, n, cs[k].seconds);
    i := place[k];
    if i < n - 1 {
      assert NotAfter(cs[order[i]], cs[order[n - 1]]);
      i := n - 1;
    }
  }

  /** The entry can be taken. */
  predicate Takes(ws: seq<Window>, modes: seq<Mode>, least: Option<real>, x: Time)
    requires |ws| == |modes|
  {
    x.Finite? && Admissible(ws, modes, least, x.seconds)
  }

  /** `entry` is the first that can be taken from position `n - 1` on, the entries being in ascending order. */
  ghost predicate FirstTaken(ws: seq<Window>, modes: seq<Mode>, least: Option<real>, delta: Option<real>, entry: nat)
    requires |ws| == |modes| > 0 && (delta.Some? ==> delta.value > 0.0)
  {
    exists cs, order, place, i :: FirstAt(ws, modes, least, delta, entry, cs, order, place, i)
  }

  predicate FirstAt(ws: seq<Window>, modes: seq<Mode>, least: Option<real>, delta: Option<real>, entry: nat,
                    cs: seq<Time>, order: seq<nat>, place: seq<nat>, i: nat)
    requires |ws| == |modes| > 0 && (delta.Some? ==> delta.value > 0.0)
  {
    && |cs| == Entries(ws, modes, least) && Sorted(cs, order, place) && |ws| - 1 <= i < |cs| && order[i] == entry
    && (forall k :: 0 <= k < |cs| ==> cs[k] == Chosen(ws, modes, least, delta, k))
    && Takes(ws, modes, least, cs[entry]) && forall q :: |ws| - 1 <= q < i ==> !Takes(ws, modes, least, cs[order[q]])
  }

  lemma TakenFirst(ws: seq<Window>, modes: seq<Mode>, least: Option<real>, delta: Option<real>, entry: nat,
                   cs: seq<Time>, order: seq<nat>, place: seq<nat>, i: nat)
    requires |ws| == |modes| > 0 && (delta.Some? ==> delta.value > 0.0)
    requires |cs| == Entries(ws, modes, least) && Sorted(cs, order, place) && |ws| - 1 <= i < |cs| && order[i] == entry
    requires forall k :: 0 <= k < |cs| ==> cs[k] == Chosen(ws, modes, least, delta, k)
    requires Takes(ws, modes, least, cs[order[i]])
    requires forall q :: |ws| - 1 <= q < i ==> !Takes(ws, modes, least, cs[order[q]])
    ensures FirstTaken(ws, modes, least, delta, entry)
  {
    hide Chosen, Admissible, AnyInterval;
    assert FirstAt(ws, modes, least, delta, entry, cs, order, place, i);
  }

  lemma LastCandidate(ws: seq<Window>, modes: seq<Mode>, least: Option<real>)
    requires |ws| == |modes|
    ensures Candidate(ws, modes, least, 3 * |ws|) == if least.Some? then Finite(least.value) else Infinite
  {}

  lemma SortedRange(cs: seq<Time>, order: seq<nat>, place: seq<nat>)
    requires Sorted(cs, order, place)
    ensures |order| == |cs| && forall q :: 0 <= q < |cs| ==> order[q] < |cs|
  {}

  lemma NoneEarlier(ws: seq<Window>, modes: seq<Mode>, least: Option<real>, delta: Option<real>, t: real,
                    cs: seq<Time>, order: seq<nat>, place: seq<nat>, i: nat)
    requires Sensible(ws, modes, least, delta) && OnGrid(delta, t) && Admissible(ws, modes, least, t)
    requires |cs| == Entries(ws, modes, least) && Sorted(cs, order, place)
    requires forall k :: 0 <= k < |cs| ==> cs[k] == Chosen(ws, modes, least, delta, k)
    requires |ws| - 1 <= i <= |cs| && (i < |cs| ==> cs[order[i]].Finite?)
    requires forall q :: |ws| - 1 <= q < i ==>
      !(cs[order[q]].Finite? && Admissible(ws, modes, least, cs[order[q]].seconds))
    ensures i < |cs| && cs[order[i]].seconds <= t
  {
    hide Chosen, Admissible, AnyInterval, OnGrid;
    var q := SearchFinds(ws, modes, least, delta, t, cs, order, place);
    assert i <= q;
    assert NotAfter(cs[order[i]], cs[order[q]]);
  }

  lemma NoRounding(x: Time)
    ensures RoundUp(x, None) == x
  {}

  lemma ZeroStays(delta: Option<real>)
    requires delta.Some? ==> delta.value > 0.0
    ensures RoundUp(Finite(0.0), delta) == Finite(0.0)
  {
    if delta.Some? {
      assert 0.0 / delta.value == 0.0;
    }
  }

  // ---------------------------------------------------------------- the calculator

  function Look(b: Block): Window
    reads b
  {
    Window(b.tMin, b.a, b.b)
  }

  /** The profiles kept in a block last exactly as long as it says. */
  predicate Kept(i: Option<Interval>) {
    i.Some? ==> i.value.right == Infinite || i.value.right == Finite(Total(i.value.profile))
  }

  class TargetCalculator {
    const blocks: seq<Block>
    const modes: seq<Mode>
    const possibleTSyncs: array<Time>
    const idx: array<nat>

    ghost function Windows(): (ws: seq<Window>)
      reads blocks
      ensures |ws| == |blocks| && forall d :: 0 <= d < |blocks| ==> ws[d] == Look(blocks[d])
    {
      seq(|blocks|, d requires 0 <= d < |blocks| reads blocks => Look(blocks[d]))
    }

    ghost predicate Valid()
      reads blocks
    {
      && |blocks| == |modes| > 0 && possibleTSyncs.Length == idx.Length == 3 * |blocks| + 1
      && forall d :: 0 <= d < |blocks| ==>
           && blocks[d].tMin >= 0.0 && blocks[d].tMin == Total(blocks[d].pMin)
           && Kept(blocks[d].a) && Kept(blocks[d].b)
    }

    constructor (blocks: seq<Block>, modes: seq<Mode>)
      requires |blocks| == |modes| > 0
      ensures this.blocks == blocks && this.modes == modes && fresh(possibleTSyncs) && fresh(idx)
      ensures possibleTSyncs.Length == idx.Length == 3 * |blocks| + 1
    {
      this.blocks, this.modes := blocks, modes;
      possibleTSyncs := new Time[3 * |blocks| + 1](_ => Infinite);
      idx := new nat[3 * |blocks| + 1](_ => 0);
    }

    /** The three entries of one axis. */
    method CollectOne(dof: nat, least: Option<real>)
      requires Valid() && dof < |blocks|
      modifies possibleTSyncs
      ensures var n, ws := |blocks|, Windows();
        && possibleTSyncs[dof] == Candidate(ws, modes, least, dof)
        && possibleTSyncs[n + dof] == Candidate(ws, modes, least, n + dof)
        && possibleTSyncs[2 * n + dof] == Candidate(ws, modes, least, 2 * n + dof)
      ensures forall i :: 0 <= i <= 3 * |blocks| && i != dof && i != |blocks| + dof && i != 2 * |blocks| + dof ==>
        possibleTSyncs[i] == old(possibleTSyncs[i])
    {
      var n := |blocks|;
      if modes[dof] == NoSync {
        possibleTSyncs[dof] := Finite(0.0);
        possibleTSyncs[n + dof] := Infinite;
        possibleTSyncs[2 * n + dof] := Infinite;
      } else {
        possibleTSyncs[dof] := Finite(blocks[dof].tMin);
        possibleTSyncs[n + dof] := Right(blocks[dof].a);
        possibleTSyncs[2 * n + dof] := Right(blocks[dof].b);
      }
    }

    /** The start times of the intervals and the optional minimum. */
    method Collect(least: Option<real>) returns (anyInterval: bool)
      requires Valid()
      modifies possibleTSyncs
      ensures forall i :: 0 <= i <= 3 * |blocks| ==> possibleTSyncs[i] == Candidate(Windows(), modes, least, i)
      ensures anyInterval == AnyInterval(Windows(), modes, least)
    {
      hide Candidate;
      var n := |blocks|;
      ghost var ws := Windows();
      anyInterval := false;
      for dof := 0 to n
        invariant forall i :: 0 <= i < dof ==> possibleTSyncs[i] == Candidate(ws, modes, least, i)
        invariant forall i :: n <= i < n + dof ==> possibleTSyncs[i] == Candidate(ws, modes, least, i)
        invariant forall i :: 2 * n <= i < 2 * n + dof ==> possibleTSyncs[i] == Candidate(ws, modes, least, i)
        invariant anyInterval == exists d :: 0 <= d < dof && HasInterval(ws[d], modes[d])
      {
        CollectOne(dof, least);
        anyInterval := anyInterval || HasInterval(Look(blocks[dof]), modes[dof]);
      }
      LastCandidate(ws, modes, least);
      possibleTSyncs[3 * n] := if least.Some? then Finite(least.value) else Infinite;
      anyInterval := anyInterval || least.Some?;
    }

    /** Every finite entry goes up to the next multiple of `delta`, unless it is one but for rounding error. */
    method Discretize(delta: real)
      requires delta > 0.0
      modifies possibleTSyncs
      ensures forall i :: 0 <= i < possibleTSyncs.Length ==>
        possibleTSyncs[i] == RoundUp(old(possibleTSyncs[i]), Some(delta))
    {
      for i := 0 to possibleTSyncs.Length
        invariant forall k :: 0 <= k < i ==> possibleTSyncs[k] == RoundUp(old(possibleTSyncs[k]), Some(delta))
        invariant forall k :: i <= k < possibleTSyncs.Length ==> possibleTSyncs[k] == old(possibleTSyncs[k])
      {
        if possibleTSyncs[i].Infinite? {
          continue;
        }
        var remainder := Fmod(possibleTSyncs[i].seconds, delta);
        if remainder > EPSILON {
          possibleTSyncs[i] := Finite(possibleTSyncs[i].seconds + (delta - remainder));
        }
      }
    }

    /** `std::iota` and `std::sort` by the entries: the order comes with its inverse. */
    method SortIndices(end: nat) returns (ghost place: seq<nat>)
      requires end <= idx.Length == possibleTSyncs.Length
      modifies idx
      ensures Sorted(possibleTSyncs[..end], idx[..end], place)
    {
      hide Before, IsPermutation, Ordered, Sorted;
      for i := 0 to end
        invariant forall k :: 0 <= k < i ==> idx[k] == k
      {
        idx[i] := i;
      }
      place := seq(end, k requires 0 <= k < end => k);
      ghost var cs := possibleTSyncs[..end];
      IdentityIsPermutation(cs, idx[..end], place);
      for i := 0 to end
        invariant IsPermutation(idx[..end], place) && Ordered(cs, idx[..end], i, i)
      {
        OneMore(cs, idx[..end], i);
        place := SinkIndex(i, end, place);
      }
      IsSorted(cs, idx[..end], place);
    }

    /** The index at `i` goes down to where it belongs among those before it, which are in order. */
    method SinkIndex(i: nat, end: nat, ghost place: seq<nat>) returns (ghost place': seq<nat>)
      requires i < end <= idx.Length == possibleTSyncs.Length
      requires IsPermutation(idx[..end], place) && Ordered(possibleTSyncs[..end], idx[..end], i + 1, i)
      modifies idx
      ensures IsPermutation(idx[..end], place') && Ordered(possibleTSyncs[..end], idx[..end], i + 1, i + 1)
    {
      hide Before, IsPermutation, Ordered;
      ghost var cs := possibleTSyncs[..end];
      place' := place;
      var j := i;
      InRange(idx[..end], place', j);
      while j > 0 && Before(possibleTSyncs[idx[j]], possibleTSyncs[idx[j - 1]])
        invariant 0 <= j <= i && IsPermutation(idx[..end], place') && Ordered(cs, idx[..end], i + 1, j)
        invariant idx[j] < end && (j > 0 ==> idx[j - 1] < end)
      {
        ghost var order := idx[..end];
        place' := SwapKeeps(cs, order, place', i + 1, j);
        idx[j], idx[j - 1] := idx[j - 1], idx[j];
        j := j - 1;
        assert idx[..end] == order[j + 1 := order[j]][j := order[j + 1]];
        InRange(idx[..end], place', j);
      }
      InPlace(cs, idx[..end], place', i + 1, j);
    }

    /** Whether some synchronised axis cannot take the duration. */
    method AnyBlocked(t: Time) returns (blocked: bool)
      requires Valid()
      ensures blocked <==> exists d :: 0 <= d < |blocks| && modes[d] != NoSync && blocks[d].IsBlocked(t)
    {
      blocked := false;
      for dof := 0 to |blocks|
        invariant !blocked && forall d :: 0 <= d < dof && modes[d] != NoSync ==> !blocks[d].IsBlocked(t)
      {
        if modes[dof] == NoSync {
          continue;
        }
        if blocks[dof].IsBlocked(t) {
          return true;
        }
      }
    }

    method Acceptable(t: Time, least: Option<real>) returns (ok: bool)
      requires Valid()
      ensures ok <==> t.Finite? && Admissible(Windows(), modes, least, t.seconds)
    {
      var blocked := AnyBlocked(t);
      ghost var ws := Windows();
      if t.Finite? {
        assert forall d :: 0 <= d < |blocks| ==> Open(ws[d], t.seconds) == !blocks[d].IsBlocked(t);
      }
      ok := !(blocked || Before(t, Finite(Floor(least))) || t.Infinite?);
    }

    /** What the block of axis `l` keeps for an entry: its fastest profile, or that of the interval ending there. */
    predicate KeptFor(l: nat, entry: nat, plan: Plan)
      requires l < |blocks|
      reads blocks
    {
      || (entry == l && plan == blocks[l].pMin)
      || (entry == |blocks| + l && blocks[l].a.Some? && plan == blocks[l].a.value.profile)
      || (entry == 2 * |blocks| + l && blocks[l].b.Some? && plan == blocks[l].b.value.profile)
    }

    /** The entry a duration came from says whose profile takes exactly that long, and which of its profiles. */
    ghost predicate LimitedBy(entry: nat, limiting: Option<nat>, least: Option<real>, delta: Option<real>, tSync: real,
                              before: seq<Plan>, after: seq<Plan>)
      requires (delta.Some? ==> delta.value > 0.0) && |blocks| == |modes|
      reads blocks
    {
      if limiting.None? then
        && entry == 3 * |blocks| && least.Some? && RoundUp(Finite(least.value), delta) == Finite(tSync)
        && after == before
      else
        var l := limiting.value;
        && l < |blocks| && |before| == |after| == |blocks| && after == before[l := after[l]]
        && KeptFor(l, entry, after[l])
        && (modes[l] != NoSync ==> RoundUp(Finite(Total(after[l])), delta) == Finite(tSync))
        && (modes[l] == NoSync ==> tSync == 0.0 && after[l] == blocks[l].pMin)
    }

    /** The limiting axis moves along one of the profiles that were found for it, as a whole. */
    lemma LimitingWasFound(ps: seq<Plan>, entry: nat, limiting: Option<nat>, least: Option<real>, delta: Option<real>,
                           tSync: real, before: seq<Plan>, after: seq<Plan>)
      requires |blocks| == |modes| && (delta.Some? ==> delta.value > 0.0) && limiting.Some?
      requires LimitedBy(entry, limiting, least, delta, tSync, before, after)
      requires Usable(|ps|) && blocks[limiting.value].Of(ps)
      ensures after[limiting.value] in ps
    {
      hide RoundUp, Describes, Apart, Total;
    }

    /** The limiting axis and its profile, from the number of the entry. */
    method Limit(i: nat, least: Option<real>, ghost delta: Option<real>, ghost tSync: real, profiles: array<Plan>)
      returns (limiting: Option<nat>)
      requires Valid() && i <= 3 * |blocks| && profiles.Length == |blocks| && (delta.Some? ==> delta.value > 0.0)
      requires Chosen(Windows(), modes, least, delta, i) == Finite(tSync)
      modifies profiles
      ensures LimitedBy(i, limiting, least, delta, tSync, old(profiles[..]), profiles[..])
    {
      var n := |blocks|;
      if i == 3 * n {
        return None;
      }
      ZeroStays(delta);
      hide RoundUp;
      if i < n {
        limiting := Some(i);
        profiles[i] := blocks[i].pMin;
      } else if i < 2 * n {
        limiting := Some(i - n);
        profiles[i - n] := blocks[i - n].a.value.profile;
      } else {
        limiting := Some(i - 2 * n);
        profiles[i - 2 * n] := blocks[i - 2 * n].b.value.profile;
      }
    }

    /** The possible durations, rounded if they must be, and how many of them matter. */
    method Prepare(least: Option<real>, delta: Option<real>) returns (end: nat)
      requires Valid() && (delta.Some? ==> delta.value > 0.0)
      modifies possibleTSyncs
      ensures end == Entries(Windows(), modes, least)
      ensures forall k :: 0 <= k <= 3 * |blocks| ==> possibleTSyncs[k] == Chosen(Windows(), modes, least, delta, k)
    {
      hide RoundUp, Candidate, AnyInterval;
      ghost var ws := Windows();
      var anyInterval := Collect(least);
      if delta.Some? {
        Discretize(delta.value);
      } else {
        forall k | 0 <= k <= 3 * |blocks| ensures possibleTSyncs[k] == Chosen(ws, modes, least, delta, k) {
          NoRounding(possibleTSyncs[k]);
        }
      }
      end := if anyInterval then 3 * |blocks| + 1 else |blocks|;
    }

    /** The first acceptable entry in sorted order, from position `n - 1` on. */
    method FirstAcceptable(least: Option<real>, end: nat, ghost order: seq<nat>) returns (i: nat)
      requires Valid() && |blocks| <= end <= idx.Length && order == idx[..end]
      requires forall q :: 0 <= q < end ==> order[q] < end
      ensures |blocks| - 1 <= i <= end
      ensures i < end ==>
        possibleTSyncs[order[i]].Finite? && Admissible(Windows(), modes, least, possibleTSyncs[order[i]].seconds)
      ensures forall q :: |blocks| - 1 <= q < i ==>
        !(possibleTSyncs[order[q]].Finite? && Admissible(Windows(), modes, least, possibleTSyncs[order[q]].seconds))
    {
      hide Admissible;
      i := |blocks| - 1;
      while i < end
        invariant |blocks| - 1 <= i <= end
        invariant forall q :: |blocks| - 1 <= q < i ==>
          !(possibleTSyncs[order[q]].Finite? && Admissible(Windows(), modes, least, possibleTSyncs[order[q]].seconds))
      {
        assert idx[i] == order[i];
        var ok := Acceptable(possibleTSyncs[idx[i]], least);
        if ok {
          return;
        }
        i := i + 1;
      }
    }

    /**
     * The duration chosen is admissible and none on the grid is earlier; there is no answer only if no
     * duration on the grid is admissible. It is on the grid itself exactly if the entry it came from, the first
     * that can be taken in ascending order, was not just above a multiple of the step.
     */
    method Synchronize(least: Option<real>, delta: Option<real>, profiles: array<Plan>)
      returns (ok: bool, tSync: real, limiting: Option<nat>, ghost entry: nat)
      requires Valid() && profiles.Length == |blocks|
      requires (least.Some? ==> least.value >= 0.0) && (delta.Some? ==> delta.value > 0.0)
      modifies possibleTSyncs, idx, profiles
      ensures ok ==> Admissible(Windows(), modes, least, tSync)
      ensures forall t :: OnGrid(delta, t) && Admissible(Windows(), modes, least, t) ==> ok && tSync <= t
      ensures ok ==> entry <= 3 * |blocks| && FirstTaken(Windows(), modes, least, delta, entry)
      ensures ok ==> Chosen(Windows(), modes, least, delta, entry) == Finite(tSync)
      ensures ok ==> (OnGrid(delta, tSync) <==> !JustAbove(Candidate(Windows(), modes, least, entry), delta))
      ensures ok && Sharp(Windows(), modes, least, delta) ==> OnGrid(delta, tSync)
      ensures ok ==> LimitedBy(entry, limiting, least, delta, tSync, old(profiles[..]), profiles[..])
    {
      hide Sharp, Admissible, OnGrid, Chosen, LimitedBy, JustAbove, FirstTaken;
      tSync, limiting, entry := 0.0, None, 0;
      ghost var ws := Windows();
      var chosen;
      ok, chosen := Choose(least, delta);
      if ok {
        tSync := possibleTSyncs[chosen].seconds;
        entry := chosen;
        TakenIsNotNegative(ws, modes, least, tSync);
        ChosenOnGrid(ws, modes, least, delta, entry);
        if Sharp(ws, modes, least, delta) {
          SharpOnGrid(ws, modes, least, delta, entry);
        }
        limiting := Limit(chosen, least, delta, tSync, profiles);
      }
    }

    /** The entry that can be taken, by the search in ascending order. */
    method Choose(least: Option<real>, delta: Option<real>) returns (ok: bool, chosen: nat)
      requires Valid() && (delta.Some? ==> delta.value > 0.0)
      requires least.Some? ==> least.value >= 0.0
      modifies possibleTSyncs, idx
      ensures ok ==> chosen <= 3 * |blocks| && FirstTaken(Windows(), modes, least, delta, chosen)
      ensures ok ==> possibleTSyncs[chosen] == Chosen(Windows(), modes, least, delta, chosen)
      ensures ok ==> Takes(Windows(), modes, least, possibleTSyncs[chosen])
      ensures forall t :: OnGrid(delta, t) && Admissible(Windows(), modes, least, t) ==>
        ok && possibleTSyncs[chosen].seconds <= t
    {
      hide Admissible, OnGrid, Chosen, AnyInterval;
      ghost var ws := Windows();
      var end := Prepare(least, delta);
      ghost var place := SortIndices(end);
      ghost var cs, order := possibleTSyncs[..end], idx[..end];
      SortedRange(cs, order, place);
      var i := FirstAcceptable(least, end, order);
      forall t | OnGrid(delta, t) && Admissible(ws, modes, least, t) ensures i < end && cs[order[i]].seconds <= t {
        NoneEarlier(ws, modes, least, delta, t, cs, order, place, i);
      }
      ok, chosen := i < end, 0;
      if ok {
        chosen := idx[i];
        TakenFirst(ws, modes, least, delta, chosen, cs, order, place, i);
      }
    }
  }

  lemma TakenIsNotNegative(ws: seq<Window>, modes: seq<Mode>, least: Option<real>, t: real)
    requires |ws| == |modes| && Admissible(ws, modes, least, t) && (least.Some? ==> least.value >= 0.0)
    ensures t >= 0.0
  {}

  /** One axis whose minimum duration is one step and 2^-52: the call chooses just that, off the grid. */
  method OffTheGrid() returns (ok: bool, tSync: real)
    ensures ok && tSync == 1.0 + EPSILON && !OnGrid(Some(1.0), tSync)
  {
    var plan := Plan([], [0.0, 0.0, 0.0, 0.0, 0.0, 0.0, 1.0 + EPSILON], [], [], [], [], 0.0, 0.0, 0.0, 0.0, 0.0,
                     NONE, UP, UDDU);
    var block := new Block(plan);
    var calculator := new TargetCalculator([block], [TimeAlways]);
    var profiles := new Plan[1](_ => plan);
    ghost var entry, limiting;
    ghost var ws := calculator.Windows();
    OnlyEntry(ws, calculator.modes);
    ok, tSync, limiting, entry := calculator.Synchronize(None, Some(1.0), profiles);
  }

  lemma OnlyEntry(ws: seq<Window>, modes: seq<Mode>)
    requires ws == [Window(1.0 + EPSILON, None, None)] && modes == [TimeAlways]
    ensures Entries(ws, modes, None) == 1 && Chosen(ws, modes, None, Some(1.0), 0) == Finite(1.0 + EPSILON)
    ensures JustAbove(Candidate(ws, modes, None, 0), Some(1.0))
    ensures Admissible(ws, modes, None, 2.0) && OnGrid(Some(1.0), 2.0)
  {
    assert ((1.0 + EPSILON) / 1.0).Floor == 1;
    assert Multiple(1, 1.0) == 1.0 && Multiple(2, 1.0) == 2.0;
  }

  predicate IsPermutation(order: seq<nat>, place: seq<nat>) {
    && |order| == |place|
    && (forall i :: 0 <= i < |order| ==> order[i] < |order| && place[order[i]] == i)
    && (forall k :: 0 <= k < |order| ==> place[k] < |order| && order[place[k]] == k)
  }

  /** The first `n` indices are in order, except that the one at `but` may belong further down. */
  predicate Ordered(cs: seq<Time>, order: seq<nat>, n: nat, but: nat)
    requires |order| == |cs|
  {
    && n <= |order| && (forall k :: 0 <= k < |order| ==> order[k] < |cs|)
    && forall k, m :: 0 <= k <= m < n && m != but ==> NotAfter(cs[order[k]], cs[order[m]])
  }

  lemma IdentityIsPermutation(cs: seq<Time>, order: seq<nat>, place: seq<nat>)
    requires |order| == |place| == |cs| && forall k :: 0 <= k < |order| ==> order[k] == k && place[k] == k
    ensures IsPermutation(order, place) && Ordered(cs, order, 0, 0)
  {}

  lemma OneMore(cs: seq<Time>, order: seq<nat>, i: nat)
    requires |order| == |cs| && i < |cs| && Ordered(cs, order, i, i)
    ensures Ordered(cs, order, i + 1, i)
  {
    hide Before;
  }

  lemma InRange(order: seq<nat>, place: seq<nat>, j: nat)
    requires IsPermutation(order, place) && j < |order|
    ensures order[j] < |order| && (j > 0 ==> order[j - 1] < |order|)
  {}

  lemma SwapKeeps(cs: seq<Time>, order: seq<nat>, place: seq<nat>, n: nat, j: nat) returns (place': seq<nat>)
    requires |order| == |cs| && 0 < j < n && IsPermutation(order, place) && Ordered(cs, order, n, j)
    requires Before(cs[order[j]], cs[order[j - 1]])
    ensures var order' := order[j := order[j - 1]][j - 1 := order[j]];
      IsPermutation(order', place') && Ordered(cs, order', n, j - 1)
  {
    var order' := order[j := order[j - 1]][j - 1 := order[j]];
    place' := place[order[j] := j - 1][order[j - 1] := j];
    assert order[j] != order[j - 1];
    assert IsPermutation(order', place');
    forall k, m | 0 <= k <= m < n && m != j - 1 ensures NotAfter(cs[order'[k]], cs[order'[m]]) {
      var k', m' := Swapped(k, j), Swapped(m, j);
      assert order'[k] == order[k'] && order'[m] == order[m'];
      assert k' <= m' && m' != j ==> NotAfter(cs[order[k']], cs[order[m']]);
    }
  }

  function Swapped(k: nat, j: nat): nat
    requires j > 0
  {
    if k == j then j - 1 else if k == j - 1 then j else k
  }

  lemma InPlace(cs: seq<Time>, order: seq<nat>, place: seq<nat>, n: nat, j: nat)
    requires |order| == |cs| && j < n && IsPermutation(order, place) && Ordered(cs, order, n, j)
    requires j == 0 || !Before(cs[order[j]], cs[order[j - 1]])
    ensures Ordered(cs, order, n, n)
  {
    forall k | 0 <= k <= j ensures NotAfter(cs[order[k]], cs[order[j]]) {
      if k < j {
        assert NotAfter(cs[order[k]], cs[order[j - 1]]);
      }
    }
  }

  lemma IsSorted(cs: seq<Time>, order: seq<nat>, place: seq<nat>)
    requires |order| == |cs| && IsPermutation(order, place) && Ordered(cs, order, |cs|, |cs|)
    ensures Sorted(cs, order, place)
  {
    hide Before;
  }
}
