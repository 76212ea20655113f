/**
 * The same for velocity profiles, which are found with a plateau only if it takes long enough: a profile at the limit
 * may be found twice, only without its plateau, or not at all.
 */
module PlateauTable {
  import opened Blocks
  import opened BlockTable
  import opened ProfileLists
  import opened Profiles
  import opened RealArithmetic

  /** The profile at the limit is missing: its peak is above the limit, and it would stay there too briefly. */
  predicate Missing(w: Way, long: bool) {
    w != Nothing && w.at == Above && !long
  }

  /** It is found without its plateau only. */
  predicate Short(w: Way, long: bool) {
    w != Nothing && w.at == AtLimit && !long
  }

  /** What is found of it looks like this. */
  function Seen(w: Way, long: bool): Way {
    if Short(w, long) then w.(last := w.peak, at := Below) else w
  }

  function Plateaus(w: Way, long: bool, up: bool): seq<Found> {
    if long then Cruising(w, up) else []
  }

  /** The four calls in their order. */
  function FoundOf(x: Way, longX: bool, y: Way, longY: bool): seq<Found> {
    Flat(x, true) + Flat(y, false) + Plateaus(x, longX, true) + Plateaus(y, longY, false)
  }

  lemma SeenFound(w: Way, long: bool, up: bool)
    requires !Missing(w, long)
    ensures Flat(Seen(w, long), up) == Flat(w, up) && Cruising(Seen(w, long), up) == Plateaus(w, long, up)
  {}

  lemma SeenFits(x: Way, longX: bool, y: Way, longY: bool)
    requires Fits(x, y)
    ensures Fits(Seen(x, longX), Seen(y, longY))
  {}

  /** Exactly as long as it is. */
  predicate Whole(w: Way, long: bool) {
    Short(w, long) ==> w.peak == w.last
  }

  /** The fastest profile is always open. */
  lemma FirstOpen(u: seq<Found>, k: nat)
    requires (|u| == 1 || |u| == 3) && k < |u| && forall i :: 0 <= i < |u| ==> u[k].duration <= u[i].duration
    ensures Open(u, u[k].duration)
  {}

  /** A single profile found without its plateau, too early, makes the block open too early. */
  lemma ShortOne(x: Way, longX: bool, y: Way, longY: bool)
    requires Fits(x, y) && !Missing(x, longX) && !Missing(y, longY)
    requires (x.One? && !Whole(x, longX)) || (y.One? && !Whole(y, longY))
    ensures !Right(x, y, AllOf(Seen(x, longX), Seen(y, longY)))
  {
    var fs := AllOf(Seen(x, longX), Seen(y, longY));
    if Used(fs).Some? {
      var u := Used(fs).value;
      var q := if x.One? && !Whole(x, longX) then x.peak else y.peak;
      EarlyKept(x, longX, y, longY, u, q);
      assert !Allowed(x, y, q);
    }
  }

  lemma EarlyKept(x: Way, longX: bool, y: Way, longY: bool, u: seq<Found>, q: real)
    requires Fits(x, y) && !Missing(x, longX) && !Missing(y, longY)
    requires (x.One? && !Whole(x, longX) && q == x.peak) || (y.One? && !Whole(y, longY) && q == y.peak)
    requires Used(AllOf(Seen(x, longX), Seen(y, longY))) == Some(u)
    ensures Usable(|u|) && Open(u, q)
  {
    var fs := AllOf(Seen(x, longX), Seen(y, longY));
    CountExactly(Seen(x, longX), Seen(y, longY));
    if x.One? && !Whole(x, longX) {
      assert fs[0].duration == q && u[0] == fs[0];
      FirstOpen(u, 0);
    } else if x == Nothing {
      assert fs == [Found(q, false)];
    } else {
      var k := |Flat(x, true)|;
      assert fs[k] == Found(q, false);
      FirstOpen(u, k);
    }
  }

  /** The longer of two profiles found without its plateau, too early, makes the block open within the gap. */
  lemma ShortTwo(x: Way, longX: bool, y: Way, longY: bool)
    requires Fits(x, y) && !Missing(x, longX) && !Missing(y, longY)
    requires (x.Two? && !Whole(x, longX)) || (y.Two? && !Whole(y, longY))
    ensures !Right(x, y, AllOf(Seen(x, longX), Seen(y, longY)))
  {
    var fs := AllOf(Seen(x, longX), Seen(y, longY));
    var w := if x.Two? then x else y;
    var t := (w.peak + w.last) / 2.0;
    CountExactly(Seen(x, longX), Seen(y, longY));
    assert !Allowed(x, y, t);
    if Used(fs).Some? {
      LateOpen(fs, t);
    }
  }

  /** If nothing is missing: what is found has to be as long as it is, and then the durations decide as before. */
  lemma SeenExactly(x: Way, longX: bool, y: Way, longY: bool)
    requires Fits(x, y) && !Missing(x, longX) && !Missing(y, longY)
    ensures Fits(Seen(x, longX), Seen(y, longY))
    ensures Right(x, y, AllOf(Seen(x, longX), Seen(y, longY))) <==>
            Whole(x, longX) && Whole(y, longY) && Told(Seen(x, longX), Seen(y, longY))
  {
    SeenFits(x, longX, y, longY);
    if !Whole(x, longX) || !Whole(y, longY) {
      if (x.One? && !Whole(x, longX)) || (y.One? && !Whole(y, longY)) {
        ShortOne(x, longX, y, longY);
      } else {
        ShortTwo(x, longX, y, longY);
      }
    } else {
      RightExactly(Seen(x, longX), Seen(y, longY));
      assert forall t :: Allowed(x, y, t) <==> Allowed(Seen(x, longX), Seen(y, longY), t);
    }
  }

  // ---------------------------------------------------------------- missing profiles

  /** The single profile is missing beside two. */
  predicate ToldWithout(r: real, w: Way, long: bool)
    requires w.Two?
  {
    && r == w.first && !Missing(w, long) && (w.at == AtLimit ==> !long && w.peak == w.last)
    && (Near(w.first, w.last, 8.0) ==> w.first == w.last)
  }

  predicate ToldMissing(x: Way, longX: bool, y: Way, longY: bool) {
    (x.One? && Missing(x, longX) && y.Two? && ToldWithout(x.last, y, longY)) ||
    (y.One? && Missing(y, longY) && x.Two? && ToldWithout(y.last, x, longX))
  }

  /** What two profiles say by themselves. */
  lemma TwoOpen(u: seq<Found>, a: real, b: real, t: real)
    requires |u| == 2 && a <= b
    requires (u[0].duration, u[1].duration) == (a, b) || (u[0].duration, u[1].duration) == (b, a)
    ensures Open(u, t) <==>
            if Near(u[0].duration, u[1].duration, 8.0) then t >= u[0].duration else t == a || t >= b
  {}

  lemma WithoutExactly(x: Way, y: Way, fs: seq<Found>, r: real, w: Way, long: bool)
    requires w.Two? && Sound(w) && r <= w.first && !Missing(w, long)
    requires forall t :: Allowed(x, y, t) <==> Steps(r, w.first, w.last, t)
    requires fs == Flat(w, true) + Plateaus(w, long, true) || fs == Flat(w, false) + Plateaus(w, long, false)
    ensures Right(x, y, fs) <==> ToldWithout(r, w, long)
  {
    if w.at == AtLimit && long {
      assert |fs| == 3;
      ThreeRight(x, y, fs, fs, w.first, w.peak, w.last, r, w.first, w.last);
    } else {
      assert |fs| == 2;
      var b := if w.at == Above then w.last else w.peak;
      TwoRight(x, y, fs, w.first, b, r, w.first, w.last);
    }
  }

  lemma TwoRight(x: Way, y: Way, fs: seq<Found>, a: real, b: real, r: real, f: real, l: real)
    requires |fs| == 2 && a <= b && r <= f <= l && a == f && b <= l && (f < l ==> a < b)
    requires (fs[0].duration, fs[1].duration) == (a, b) || (fs[0].duration, fs[1].duration) == (b, a)
    requires forall t :: Allowed(x, y, t) <==> Steps(r, f, l, t)
    ensures Right(x, y, fs) <==> r == f && b == l && (Near(a, b, 8.0) ==> a == b)
  {
    forall t ensures Open(fs, t) <==>
        if Near(fs[0].duration, fs[1].duration, 8.0) then t >= fs[0].duration else t == a || t >= b
    {
      TwoOpen(fs, a, b, t);
    }
    hide Open, Allowed, Near;
    assert Steps(r, f, l, r) && (r < f ==> Steps(r, f, l, (r + f) / 2.0));
    assert b < l ==> !Steps(r, f, l, (b + l) / 2.0);
    assert a < b ==> !Steps(r, f, l, (a + l) / 2.0);
  }

  /** With the longer of two profiles missing the block is open in the gap. */
  lemma GapMissing(x: Way, longX: bool, y: Way, longY: bool)
    requires Fits(x, y) && ((x.Two? && Missing(x, longX)) || (y.Two? && Missing(y, longY)))
    ensures !Right(x, y, FoundOf(x, longX, y, longY))
  {
    var fs := FoundOf(x, longX, y, longY);
    var w := if x.Two? then x else y;
    var t := (w.first + w.last) / 2.0;
    assert !Allowed(x, y, t);
    if Used(fs).Some? {
      LateOpen(fs, t);
    }
  }

  lemma MissingExactly(x: Way, longX: bool, y: Way, longY: bool)
    requires Fits(x, y) && (Missing(x, longX) || Missing(y, longY))
    ensures Right(x, y, FoundOf(x, longX, y, longY)) <==> ToldMissing(x, longX, y, longY)
  {
    var fs := FoundOf(x, longX, y, longY);
    if (x.Two? && Missing(x, longX)) || (y.Two? && Missing(y, longY)) {
      GapMissing(x, longX, y, longY);
    } else if y.Two? {
      UpAllows(x, y);
      assert fs == Flat(y, false) + Plateaus(y, longY, false);
      WithoutExactly(x, y, fs, x.last, y, longY);
    } else if x.Two? {
      DownAllows(x, y);
      assert fs == Flat(x, true) + Plateaus(x, longX, true);
      WithoutExactly(x, y, fs, y.last, x, longX);
    } else {
      assert fs == [];
    }
  }

  // ---------------------------------------------------------------- profiles that take too long

  predicate SeenAlone(w: Way, long: bool, late: Way) {
    && w.One? && InTime(w) && !Missing(w, long) && Whole(w, long) && ToldAlone(Seen(w, long))
    && late.Two? && late.first == late.last > T_MAX
  }

  predicate PlateauLate(x: Way, longX: bool, y: Way, longY: bool) {
    SeenAlone(x, longX, y) || SeenAlone(y, longY, x)
  }

  function TimelyOf(x: Way, longX: bool, y: Way, longY: bool): seq<Found> {
    Timely(Flat(x, true)) + Timely(Flat(y, false))
    + Timely(Plateaus(x, longX, true)) + Timely(Plateaus(y, longY, false))
  }

  /** The exact condition. */
  predicate PlateauTold(x: Way, longX: bool, y: Way, longY: bool)
    requires Fits(x, y)
  {
    if !(InTime(x) && InTime(y)) then PlateauLate(x, longX, y, longY)
    else if Missing(x, longX) || Missing(y, longY) then ToldMissing(x, longX, y, longY)
    else
      SeenFits(x, longX, y, longY);
      Whole(x, longX) && Whole(y, longY) && Told(Seen(x, longX), Seen(y, longY))
  }

  lemma TimelyPart(w: Way, long: bool, up: bool)
    ensures |Timely(Plateaus(w, long, up))| <= |Timely(Cruising(w, up))|
    ensures forall f :: f in Timely(Plateaus(w, long, up)) ==> f.duration <= T_MAX
    ensures forall f :: f in Timely(Flat(w, up)) ==> f.duration <= T_MAX
  {
    TimelyAre(Plateaus(w, long, up));
    TimelyAre(Flat(w, up));
    assert Timely([]) == [];
    hide Timely, Flat, Cruising;
  }

  lemma FewerTimely(x: Way, longX: bool, y: Way, longY: bool)
    requires Fits(x, y) && !(InTime(x) && InTime(y))
    ensures var fs := TimelyOf(x, longX, y, longY);
      |fs| <= 4 && forall k :: 0 <= k < |fs| ==> fs[k].duration <= T_MAX
  {
    hide Timely, Flat, Cruising, Plateaus, AllOf, Fits, InTime;
    FewTimely(x, y);
    TimelyParts(x, y);
    TimelyPart(x, longX, true);
    TimelyPart(y, longY, false);
    var fs := TimelyOf(x, longX, y, longY);
    forall k | 0 <= k < |fs| ensures fs[k].duration <= T_MAX {
      assert fs[k] in fs;
    }
  }

  lemma NoneTimely(w: Way, long: bool, up: bool)
    requires Timely(Cruising(w, up)) == []
    ensures Timely(Plateaus(w, long, up)) == []
  {}

  lemma OneSeen(x: Way, y: Way, fs: seq<Found>, w: Way, long: bool, up: bool)
    requires w.One? && Sound(w) && InTime(w) && fs == Timely(Flat(w, up)) + Timely(Plateaus(w, long, up))
    requires forall t :: Allowed(x, y, t) <==> t >= w.last
    ensures Right(x, y, fs) <==> !Missing(w, long) && Whole(w, long) && ToldAlone(Seen(w, long))
  {
    TimelyWay(w, up);
    if Missing(w, long) {
      assert fs == [];
    } else if Short(w, long) {
      assert fs == [Found(w.peak, up)];
      assert Open(fs, w.peak) && (Allowed(x, y, w.peak) <==> w.peak >= w.last);
    } else {
      AloneOpen(x, y, fs, w);
    }
  }

  lemma PlateauLateExactly(x: Way, longX: bool, y: Way, longY: bool)
    requires Fits(x, y) && !(InTime(x) && InTime(y))
    ensures Right(x, y, TimelyOf(x, longX, y, longY)) <==> PlateauLate(x, longX, y, longY)
  {
    hide Timely, Flat, Cruising, Open, Used;
    var fs := TimelyOf(x, longX, y, longY);
    var t := LateGap(x, y);
    FewerTimely(x, longX, y, longY);
    if !Allowed(x, y, t) {
      if Used(fs).Some? {
        LateOpen(fs, t);
      }
    } else if x.One? {
      LateWay(y, false);
      NoneTimely(y, longY, false);
      OneSeen(x, y, fs, x, longX, true);
    } else {
      LateWay(x, true);
      NoneTimely(x, longX, true);
      OneSeen(x, y, fs, y, longY, false);
    }
  }

  /** Exactly when there is a block, and it leaves open what both directions allow. */
  lemma PlateauExactly(x: Way, longX: bool, y: Way, longY: bool)
    requires Fits(x, y)
    ensures Right(x, y, TimelyOf(x, longX, y, longY)) <==> PlateauTold(x, longX, y, longY)
  {
    hide Right, Told, Timely, Flat, Cruising;
    if !(InTime(x) && InTime(y)) {
      PlateauLateExactly(x, longX, y, longY);
    } else {
      TimelyWay(x, true);
      TimelyWay(y, false);
      assert Timely([]) == [] by {
        AllTimely([]);
      }
      assert TimelyOf(x, longX, y, longY) == FoundOf(x, longX, y, longY);
      if Missing(x, longX) || Missing(y, longY) {
        MissingExactly(x, longX, y, longY);
      } else {
        SeenFound(x, longX, true);
        SeenFound(y, longY, false);
        SeenExactly(x, longX, y, longY);
      }
    }
  }

  // ---------------------------------------------------------------- how many there are

  predicate Twice(w: Way, long: bool) {
    w != Nothing && w.at == AtLimit && long
  }

  /** How many of its profiles are found, if none takes too long. */
  function CountOf(w: Way, long: bool): int {
    Size(w) + (if Twice(w, long) then 1 else 0) - (if Missing(w, long) then 1 else 0)
  }

  lemma CountedExactly(x: Way, longX: bool, y: Way, longY: bool)
    requires Fits(x, y) && InTime(x) && InTime(y)
    requires (longX ==> x == Nothing || x.at != Below) && (longY ==> y == Nothing || y.at != Below)
    ensures |TimelyOf(x, longX, y, longY)| == CountOf(x, longX) + CountOf(y, longY)
  {
    hide Timely, Flat, Plateaus, CountOf;
    OneWayCount(x, longX, true);
    OneWayCount(y, longY, false);
  }

  lemma OneWayCount(w: Way, long: bool, up: bool)
    requires Sound(w) && InTime(w) && (long ==> w == Nothing || w.at != Below)
    ensures |Timely(Flat(w, up))| + |Timely(Plateaus(w, long, up))| == CountOf(w, long)
  {
    TimelyWay(w, up);
  }
}
