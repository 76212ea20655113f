/**
 * Two directions with extremal profiles, some of which may have been found twice because their peak is at the limit:
 * exactly when `calculate_block` makes a block that leaves open what the directions allow.
 */
module BlockTable {
  import opened Blocks
  import opened ProfileLists
  import opened Profiles
  import opened RealArithmetic

  /** Where the peak without cruise lies: `AtLimit` up to the tolerance of the check. */
  datatype Place = Below | AtLimit | Above

  /**
   * The extremal profiles of one direction: none, one, or two with the shorter first. The last one has its peak at
   * `at`, and lasts `peak` without a cruise at the limit.
   */
  datatype Way = Nothing | One(peak: real, last: real, at: Place) | Two(first: real, peak: real, last: real, at: Place)

  predicate Sound(w: Way) {
    match w
    case Nothing => true
    case One(peak, last, at) => peak <= last && (at == Below ==> peak == last)
    case Two(first, peak, last, at) =>
      first <= last && peak <= last && (at == Below ==> peak == last) && (at != Below ==> first < peak)
  }

  /** The durations that one direction allows. */
  predicate WayAllows(w: Way, t: real) {
    match w
    case Nothing => true
    case One(_, last, _) => t >= last
    case Two(first, _, last, _) => t <= first || t >= last
  }

  predicate Allowed(x: Way, y: Way, t: real) {
    WayAllows(x, t) && WayAllows(y, t)
  }

  /** What two directions of one axis have to do with each other. */
  predicate Fits(x: Way, y: Way) {
    && Sound(x) && Sound(y)
    && match (x, y) {
      case (Nothing, One(_, _, _)) => true
      case (One(_, _, _), Nothing) => true
      case (One(p, r, at), One(p', r', at')) => p == r == r' == p' && at != Above && at' != Above
      case (One(_, r, _), Two(f, _, _, _)) => r <= f
      case (Two(f, _, _, _), One(_, r, _)) => r <= f
      case _ => false
    }
  }

  // ---------------------------------------------------------------- what is found, in order

  function Over(peak: real, at: Place, up: bool): seq<Found> {
    if at == Above then [] else [Found(peak, up)]
  }

  /** Without cruise: the negative root is tried first. */
  function Flat(w: Way, up: bool): seq<Found> {
    match w
    case Nothing => []
    case One(peak, _, at) => Over(peak, at, up)
    case Two(first, peak, _, at) =>
      if up then [Found(first, up)] + Over(peak, at, up) else Over(peak, at, up) + [Found(first, up)]
  }

  /** With a cruise, which may take no time. */
  function Cruising(w: Way, up: bool): seq<Found> {
    if w == Nothing || w.at == Below then [] else [Found(w.last, up)]
  }

  /** The four calls in their order. */
  function AllOf(x: Way, y: Way): seq<Found> {
    Flat(x, true) + Flat(y, false) + Cruising(x, true) + Cruising(y, false)
  }

  // ---------------------------------------------------------------- when the block is right

  predicate Near(x: real, y: real, spacings: real) {
    Abs(x - y) < spacings * EPSILON
  }

  /** One profile up and two down. */
  predicate ToldUp(x: Way, y: Way)
    requires x.One? && y.Two?
  {
    var r, q, f, p, l := x.last, x.peak, y.first, y.peak, y.last;
    if x.at == AtLimit && y.at == AtLimit then q == r == f
    else if x.at == AtLimit && y.at == Below then q == r && if Near(l, r, 32.0) then l == r else Near(f, r, 256.0)
    else if x.at == AtLimit then q == r == f
    else if y.at == AtLimit && x.at == Below then Near(p, r, 32.0) || (Near(l, r, 256.0) && p == l)
    else y.at == AtLimit ==> Near(l, r, 256.0) && p == l
  }

  /** Two profiles up and one down. */
  predicate ToldDown(x: Way, y: Way)
    requires x.Two? && y.One?
  {
    var r, q, f, p, l := y.last, y.peak, x.first, x.peak, x.last;
    if x.at == AtLimit && y.at == AtLimit then q == r == f
    else if y.at == AtLimit && x.at == Below then q == r && Near(f, r, 256.0)
    else if y.at == AtLimit then Near(f, q, 32.0) || (q == r && Near(f, r, 256.0))
    else if x.at == AtLimit && y.at == Below then Near(l, r, 256.0) && p == l
    else x.at != AtLimit
  }

  predicate ToldAlone(w: Way)
    requires w.One?
  {
    w.at == AtLimit ==> w.peak == w.last
  }

  /** The exact condition, by the durations of the extremal profiles. */
  predicate Told(x: Way, y: Way)
    requires Fits(x, y)
  {
    if x.Two? then ToldDown(x, y)
    else if y.Two? then ToldUp(x, y)
    else x == Nothing || y == Nothing ==> ToldAlone(if x.One? then x else y)
  }

  /** There is a block, and it leaves open what both directions allow. */
  ghost predicate Right(x: Way, y: Way, fs: seq<Found>) {
    Used(fs).Some? && Usable(|Used(fs).value|) && forall t :: Open(Used(fs).value, t) <==> Allowed(x, y, t)
  }

  // ---------------------------------------------------------------- three profiles

  predicate Steps(a: real, b: real, c: real, t: real) {
    t >= a && (t <= b || t >= c)
  }

  /** Three durations in ascending order leave out those between the two longer ones. */
  lemma ThreeSteps(fs: seq<Found>, a: real, b: real, c: real, t: real)
    requires |fs| == 3 && a <= b <= c
    requires var d := (fs[0].duration, fs[1].duration, fs[2].duration);
      d == (a, b, c) || d == (a, c, b) || d == (b, a, c) || d == (b, c, a) || d == (c, a, b) || d == (c, b, a)
    ensures Open(fs, t) <==> Steps(a, b, c, t)
  {}

  /** Which is the same for other durations exactly if it begins with the same one and leaves out the same. */
  lemma SameSteps(a: real, b: real, c: real, r: real, f: real, l: real)
    requires a <= b <= c && r <= f <= l
    ensures (forall t :: Steps(a, b, c, t) <==> Steps(r, f, l, t)) <==>
            a == r && ((b == f && c == l) || (b == c && f == l))
  {
    if forall t :: Steps(a, b, c, t) <==> Steps(r, f, l, t) {
      assert Steps(a, b, c, a) && Steps(r, f, l, r);
      if b < c {
        assert !Steps(a, b, c, (b + c) / 2.0);
        var t, u := (b + f) / 2.0, (c + l) / 2.0;
        assert Steps(a, b, c, b) && Steps(a, b, c, c) && Steps(r, f, l, f) && Steps(r, f, l, l);
        assert Steps(a, b, c, t) == Steps(r, f, l, t) && Steps(a, b, c, u) == Steps(r, f, l, u);
        assert !Steps(r, f, l, (b + c) / 2.0);
      } else {
        assert Steps(r, f, l, (f + l) / 2.0) == Steps(a, b, c, (f + l) / 2.0);
      }
    }
  }

  /** The same of a block made of three profiles. */
  lemma ThreeRight(x: Way, y: Way, fs: seq<Found>, u: seq<Found>, a: real, b: real, c: real, r: real, f: real, l: real)
    requires Used(fs) == Some(u) && |u| == 3 && a <= b <= c && r <= f <= l
    requires var d := (u[0].duration, u[1].duration, u[2].duration);
      d == (a, b, c) || d == (a, c, b) || d == (b, a, c) || d == (b, c, a) || d == (c, a, b) || d == (c, b, a)
    requires forall t :: Allowed(x, y, t) <==> Steps(r, f, l, t)
    ensures Right(x, y, fs) <==> a == r && ((b == f && c == l) || (b == c && f == l))
  {
    forall t ensures Open(u, t) <==> Steps(a, b, c, t) {
      ThreeSteps(u, a, b, c, t);
    }
    SameSteps(a, b, c, r, f, l);
    hide Steps, Open, Allowed, Used;
  }

  lemma AloneUp(w: Way)
    requires w.One? && Sound(w)
    ensures Right(w, Nothing, AllOf(w, Nothing)) <==> ToldAlone(w)
  {
    AloneOpen(w, Nothing, AllOf(w, Nothing), w);
  }

  lemma AloneDown(w: Way)
    requires w.One? && Sound(w)
    ensures Right(Nothing, w, AllOf(Nothing, w)) <==> ToldAlone(w)
  {
    AloneOpen(Nothing, w, AllOf(Nothing, w), w);
  }

  lemma AloneOpen(x: Way, y: Way, fs: seq<Found>, w: Way)
    requires w.One? && Sound(w) && forall t :: Allowed(x, y, t) <==> t >= w.last
    requires if w.at == AtLimit then |fs| == 2 && fs[0].duration == w.peak && fs[1].duration == w.last
             else |fs| == 1 && fs[0].duration == w.last
    ensures Right(x, y, fs) <==> ToldAlone(w)
  {
    if w.at == AtLimit {
      assert Open(fs, w.peak);
      assert Allowed(x, y, w.peak) <==> w.peak >= w.last;
    }
  }

  lemma SameExactly(x: Way, y: Way)
    requires x.One? && y.One? && Fits(x, y)
    ensures Right(x, y, AllOf(x, y))
  {
  }

  lemma UpAllows(x: Way, y: Way)
    requires x.One? && y.Two? && Fits(x, y)
    ensures forall t :: Allowed(x, y, t) <==> Steps(x.last, y.first, y.last, t)
  {}

  lemma DownAllows(x: Way, y: Way)
    requires x.Two? && y.One? && Fits(x, y)
    ensures forall t :: Allowed(x, y, t) <==> Steps(y.last, x.first, x.last, t)
  {}

  lemma UpExactly(x: Way, y: Way)
    requires x.One? && y.Two? && Fits(x, y)
    ensures Right(x, y, AllOf(x, y)) <==> ToldUp(x, y)
  {
    UpAllows(x, y);
    hide Allowed, Steps, Abs, Open;
    var r, q, f, p, l, fs := x.last, x.peak, y.first, y.peak, y.last, AllOf(x, y);
    if x.at == AtLimit && y.at == AtLimit {
      FiveUp(x, y);
    } else if x.at == AtLimit && y.at == Below {
      assert fs == [Found(q, true), Found(l, false), Found(f, false), Found(r, true)];
      if Near(l, q, 32.0) {
        ThreeRight(x, y, fs, [fs[0], fs[2], fs[3]], q, r, f, r, f, l);
      } else if Near(f, r, 256.0) {
        ThreeRight(x, y, fs, [fs[0], fs[1], fs[2]], q, f, l, r, f, l);
      }
    } else if x.at == AtLimit {
      assert fs == [Found(q, true), Found(f, false), Found(r, true), Found(l, false)];
      if Near(f, q, 32.0) {
        ThreeRight(x, y, fs, [fs[0], fs[2], fs[3]], q, r, l, r, f, l);
      } else if Near(r, l, 256.0) {
        ThreeRight(x, y, fs, [fs[0], fs[1], fs[2]], q, r, f, r, f, l);
      }
    } else if y.at == AtLimit && x.at == Below {
      assert fs == [Found(r, true), Found(p, false), Found(f, false), Found(l, false)];
      if Near(r, p, 32.0) {
        ThreeRight(x, y, fs, [fs[0], fs[2], fs[3]], r, f, l, r, f, l);
      } else if Near(r, l, 256.0) {
        ThreeRight(x, y, fs, [fs[0], fs[1], fs[2]], r, f, p, r, f, l);
      }
    } else if y.at == AtLimit {
      assert fs == [Found(p, false), Found(f, false), Found(r, true), Found(l, false)];
      if Near(r, l, 256.0) {
        ThreeRight(x, y, fs, [fs[0], fs[1], fs[2]], r, f, p, r, f, l);
      }
    } else {
      ThreeRight(x, y, fs, fs, r, f, l, r, f, l);
    }
  }

  /** Five profiles of which the first in order is the fastest. */
  lemma OpenFirst(fs: seq<Found>, i: nat, t: real)
    requires |fs| == 5 && IsFirst(fs, i)
    ensures Open(fs, t) <==> OpenFrom(fs, i, t)
  {
    hide OpenFrom;
    if j :| IsFirst(fs, j) && OpenFrom(fs, j, t) {
      FirstOnly(fs, i, j);
    }
  }

  predicate TwoGaps(a: real, b: real, c: real, d: real, e: real, t: real) {
    t >= a && !(b < t < c) && !(d < t < e)
  }

  /** With the single profile and the last of the two doubled, the gaps run into each other. */
  lemma OverlappingGaps(x: Way, y: Way, fs: seq<Found>, r: real, q: real, f: real, p: real, l: real)
    requires |fs| == 5 && q <= r <= f < p <= l
    requires forall t :: Allowed(x, y, t) <==> Steps(r, f, l, t)
    requires forall t :: Open(fs, t) <==> TwoGaps(q, f, p, r, l, t)
    ensures Right(x, y, fs) <==> q == r == f
  {
    hide Open, Allowed;
    if Right(x, y, fs) {
      assert Open(fs, q) && !Open(fs, (r + f) / 2.0) == (r < f);
      assert Allowed(x, y, q) && Allowed(x, y, (r + f) / 2.0);
    }
  }

  lemma FiveUpOpen(fs: seq<Found>, r: real, q: real, f: real, p: real, l: real, t: real)
    requires fs == [Found(q, true), Found(p, false), Found(f, false), Found(r, true), Found(l, false)]
    requires q <= r <= f < p <= l
    ensures Open(fs, t) <==> TwoGaps(q, f, p, r, l, t)
  {
    OpenFirst(fs, 0, t);
    hide Open;
  }

  lemma FiveUp(x: Way, y: Way)
    requires x.One? && y.Two? && Fits(x, y) && x.at == AtLimit && y.at == AtLimit
    ensures Right(x, y, AllOf(x, y)) <==> x.peak == x.last == y.first
  {
    hide Open, Allowed, Steps, TwoGaps, Right;
    var r, q, f, p, l, fs := x.last, x.peak, y.first, y.peak, y.last, AllOf(x, y);
    assert fs == [Found(q, true), Found(p, false), Found(f, false), Found(r, true), Found(l, false)];
    UpAllows(x, y);
    forall t ensures Open(fs, t) <==> TwoGaps(q, f, p, r, l, t) {
      FiveUpOpen(fs, r, q, f, p, l, t);
    }
    OverlappingGaps(x, y, fs, r, q, f, p, l);
  }

  lemma DownExactly(x: Way, y: Way)
    requires x.Two? && y.One? && Fits(x, y)
    ensures Right(x, y, AllOf(x, y)) <==> ToldDown(x, y)
  {
    DownAllows(x, y);
    hide Allowed, Steps, Abs, Open;
    var r, q, f, p, l, fs := y.last, y.peak, x.first, x.peak, x.last, AllOf(x, y);
    if x.at == AtLimit && y.at == AtLimit {
      FiveDown(x, y);
    } else if y.at == AtLimit && x.at == Below {
      assert fs == [Found(f, true), Found(l, true), Found(q, false), Found(r, false)];
      if Near(f, r, 256.0) {
        ThreeRight(x, y, fs, [fs[0], fs[1], fs[2]], q, f, l, r, f, l);
      }
    } else if y.at == AtLimit {
      assert fs == [Found(f, true), Found(q, false), Found(l, true), Found(r, false)];
      if Near(f, q, 32.0) {
        ThreeRight(x, y, fs, [fs[0], fs[2], fs[3]], r, f, l, r, f, l);
      } else if Near(l, r, 256.0) || Near(f, r, 256.0) {
        ThreeRight(x, y, fs, [fs[0], fs[1], fs[2]], q, f, l, r, f, l);
      }
    } else if x.at == AtLimit && y.at == Below {
      assert fs == [Found(f, true), Found(p, true), Found(r, false), Found(l, true)];
      if Near(r, l, 256.0) {
        ThreeRight(x, y, fs, [fs[0], fs[1], fs[2]], r, f, p, r, f, l);
      }
    } else if x.at == AtLimit {
      assert fs == [Found(f, true), Found(p, true), Found(l, true), Found(r, false)];
      if Near(l, r, 256.0) || Near(f, r, 256.0) {
        ThreeRight(x, y, fs, [fs[0], fs[1], fs[2]], f, p, l, r, f, l);
      }
    } else {
      ThreeRight(x, y, fs, fs, r, f, l, r, f, l);
    }
  }

  lemma FiveDown(x: Way, y: Way)
    requires x.Two? && y.One? && Fits(x, y) && x.at == AtLimit && y.at == AtLimit
    ensures Right(x, y, AllOf(x, y)) <==> y.peak == y.last == x.first
  {
    var r, q, f, p, l, fs := y.last, y.peak, x.first, x.peak, x.last, AllOf(x, y);
    assert fs == [Found(f, true), Found(p, true), Found(q, false), Found(l, true), Found(r, false)];
    DownAllows(x, y);
    if q == f {
      forall t ensures Open(fs, t) <==> TwoGaps(f, r, p, q, l, t) {
        OpenFirst(fs, 0, t);
      }
    } else {
      forall t ensures Open(fs, t) <==> TwoGaps(q, r, f, p, l, t) {
        OpenFirst(fs, 2, t);
      }
    }
    hide Open, Allowed;
    if q < f {
      var t := (f + p) / 2.0;
      assert Open(fs, t) && !Allowed(x, y, t);
    }
  }

  lemma RightExactly(x: Way, y: Way)
    requires Fits(x, y)
    ensures Right(x, y, AllOf(x, y)) <==> Told(x, y)
  {
    if x.Two? {
      DownExactly(x, y);
    } else if y.Two? {
      UpExactly(x, y);
    } else if x.One? && y.One? {
      SameExactly(x, y);
    } else if x.One? {
      AloneUp(x);
    } else {
      AloneDown(y);
    }
  }

  // ---------------------------------------------------------------- how many there are

  function Size(w: Way): nat {
    match w
    case Nothing => 0
    case One(_, _, _) => 1
    case Two(_, _, _, _) => 2
  }

  /** A profile whose peak is at the limit is found twice. */
  function Doubled(w: Way): nat {
    if w != Nothing && w.at == AtLimit then 1 else 0
  }

  lemma CountExactly(x: Way, y: Way)
    requires Fits(x, y)
    ensures |AllOf(x, y)| == Size(x) + Size(y) + Doubled(x) + Doubled(y)
    ensures 1 <= Size(x) + Size(y) <= 3
  {
    hide Sound;
  }

  /** No two of four profiles are taken for the same one. */
  predicate Refused(x: Way, y: Way) {
    match (x, y)
    case (One(q, r, at), Two(f, p, l, at')) =>
      || (at == AtLimit && at' == Below && !Near(q, l, 32.0) && !Near(f, r, 256.0))
      || (at == AtLimit && at' == Above && !Near(q, f, 32.0) && !Near(r, l, 256.0))
      || (at == Below && at' == AtLimit && !Near(r, p, 32.0) && !Near(r, l, 256.0))
      || (at == Above && at' == AtLimit && !Near(r, l, 256.0))
    case (Two(f, p, l, at), One(q, r, at')) =>
      || (at == AtLimit && at' == Below && !Near(r, l, 256.0))
      || (at == AtLimit && at' == Above && !Near(l, r, 256.0) && !Near(f, r, 256.0))
      || (at == Below && at' == AtLimit && !Near(f, r, 256.0))
      || (at == Above && at' == AtLimit && !Near(f, q, 32.0) && !Near(l, r, 256.0) && !Near(f, r, 256.0))
    case _ => false
  }

  lemma RefusedExactly(x: Way, y: Way)
    requires Fits(x, y)
    ensures Used(AllOf(x, y)) == None <==> Refused(x, y)
  {
    CountExactly(x, y);
    hide Abs;
  }

  // ---------------------------------------------------------------- profiles that take too long

  /** Those that the check does not find too long. */
  function Timely(fs: seq<Found>): seq<Found> {
    if fs == [] then [] else (if fs[0].duration <= T_MAX then [fs[0]] else []) + Timely(fs[1..])
  }

  lemma {:induction false} TimelySum(xs: seq<Found>, ys: seq<Found>)
    ensures Timely(xs + ys) == Timely(xs) + Timely(ys)
  {
    if xs == [] {
      assert xs + ys == ys;
    } else {
      TimelySum(xs[1..], ys);
      assert (xs + ys)[1..] == xs[1..] + ys;
    }
  }

  lemma {:induction false} AllTimely(fs: seq<Found>)
    requires forall k :: 0 <= k < |fs| ==> fs[k].duration <= T_MAX
    ensures Timely(fs) == fs
  {
    if fs != [] {
      AllTimely(fs[1..]);
    }
  }

  lemma TimelyFew(fs: seq<Found>)
    requires |fs| <= 2
    ensures |fs| == 1 ==> Timely(fs) == if fs[0].duration <= T_MAX then fs else []
    ensures |fs| == 2 ==> Timely(fs) == Timely([fs[0]]) + Timely([fs[1]])
  {
    if |fs| == 2 {
      TimelySum([fs[0]], [fs[1]]);
      assert fs == [fs[0]] + [fs[1]];
    }
  }

  /** No profile of the direction takes too long. */
  predicate InTime(w: Way) {
    w == Nothing || w.last <= T_MAX
  }

  lemma AllInTime(x: Way, y: Way)
    requires Sound(x) && Sound(y) && InTime(x) && InTime(y)
    ensures Timely(AllOf(x, y)) == AllOf(x, y)
  {
    AllTimely(AllOf(x, y));
  }

  /** Whatever is left out is over when the longest of the profiles is. */
  lemma LateOpen(fs: seq<Found>, t: real)
    requires |fs| <= 4 && Used(fs).Some? && forall k :: 0 <= k < |fs| ==> fs[k].duration <= t
    ensures Usable(|Used(fs).value|) && Open(Used(fs).value, t)
  {
    hide Abs;
  }

  /** A direction whose profiles all take too long and leave nothing out, beside one profile in time. */
  predicate LateAlone(w: Way, late: Way) {
    w.One? && InTime(w) && ToldAlone(w) && late.Two? && late.first == late.last > T_MAX
  }

  /** The exact condition if some profile takes too long. */
  predicate ToldLate(x: Way, y: Way) {
    LateAlone(x, y) || LateAlone(y, x)
  }

  /** A duration that is too long for the check, and that some direction does not allow. */
  lemma LateGap(x: Way, y: Way) returns (t: real)
    requires Fits(x, y) && !(InTime(x) && InTime(y))
    ensures t > T_MAX
    ensures !Allowed(x, y, t) || (x.One? && InTime(x) && y.Two? && y.first == y.last > T_MAX)
                              || (y.One? && InTime(y) && x.Two? && x.first == x.last > T_MAX)
  {
    var w := if x.One? && !InTime(x) then x else if y.One? && !InTime(y) then y else if x.Two? then x else y;
    t := (Max(if w.Two? then w.first else T_MAX, T_MAX) + w.last) / 2.0;
  }

  lemma {:induction false} TimelyAre(fs: seq<Found>)
    ensures |Timely(fs)| <= |fs| && forall k :: 0 <= k < |Timely(fs)| ==> Timely(fs)[k].duration <= T_MAX
    ensures (exists k :: 0 <= k < |fs| && fs[k].duration > T_MAX) ==> |Timely(fs)| < |fs|
  {
    if fs != [] {
      TimelyAre(fs[1..]);
      if k :| 0 <= k < |fs| && fs[k].duration > T_MAX {
        assert k > 0 ==> fs[1..][k - 1] == fs[k];
      }
    }
  }

  lemma FewTimely(x: Way, y: Way)
    requires Fits(x, y) && !(InTime(x) && InTime(y))
    ensures |Timely(AllOf(x, y))| <= 4
  {
    var fs := AllOf(x, y);
    CountExactly(x, y);
    TimelyAre(fs);
    assert exists k :: 0 <= k < |fs| && fs[k].duration > T_MAX by {
      LateFound(x, y);
    }
  }

  lemma LateFound(x: Way, y: Way)
    requires Fits(x, y) && !(InTime(x) && InTime(y))
    ensures exists k :: 0 <= k < |AllOf(x, y)| && AllOf(x, y)[k].duration > T_MAX
  {
    var w, up := if InTime(x) then y else x, !InTime(x);
    var f := Found(w.last, up);
    assert f in Flat(w, up) || f in Cruising(w, up);
    assert f in AllOf(x, y);
  }

  lemma TimelyParts(x: Way, y: Way)
    ensures Timely(AllOf(x, y)) ==
            Timely(Flat(x, true)) + Timely(Flat(y, false)) + Timely(Cruising(x, true)) + Timely(Cruising(y, false))
  {
    TimelySum(Flat(x, true) + Flat(y, false) + Cruising(x, true), Cruising(y, false));
    TimelySum(Flat(x, true) + Flat(y, false), Cruising(x, true));
    TimelySum(Flat(x, true), Flat(y, false));
    hide Timely, Flat, Cruising;
  }

  /** A direction in which everything takes too long adds nothing. */
  lemma LateNothing(x: Way, y: Way)
    requires Sound(x) && Sound(y)
    ensures y.Two? && y.first > T_MAX && InTime(x) ==> Timely(AllOf(x, y)) == Flat(x, true) + Cruising(x, true)
    ensures x.Two? && x.first > T_MAX && InTime(y) ==> Timely(AllOf(x, y)) == Flat(y, false) + Cruising(y, false)
  {
    TimelyParts(x, y);
    if y.Two? && y.first > T_MAX && InTime(x) {
      LateWay(y, false);
      TimelyWay(x, true);
    }
    if x.Two? && x.first > T_MAX && InTime(y) {
      LateWay(x, true);
      TimelyWay(y, false);
    }
    hide Timely, Flat, Cruising, AllOf;
  }

  lemma LateWay(w: Way, up: bool)
    requires w.Two? && Sound(w) && w.first > T_MAX
    ensures Timely(Flat(w, up)) == [] && Timely(Cruising(w, up)) == []
  {
    TimelyFew(Flat(w, up));
    TimelyFew(Cruising(w, up));
  }

  lemma TimelyWay(w: Way, up: bool)
    requires Sound(w) && InTime(w)
    ensures Timely(Flat(w, up)) == Flat(w, up) && Timely(Cruising(w, up)) == Cruising(w, up)
  {
    AllTimely(Flat(w, up));
    AllTimely(Cruising(w, up));
  }

  lemma LateExactly(x: Way, y: Way)
    requires Fits(x, y) && !(InTime(x) && InTime(y))
    ensures Right(x, y, Timely(AllOf(x, y))) <==> ToldLate(x, y)
  {
    var fs := Timely(AllOf(x, y));
    var t := LateGap(x, y);
    FewTimely(x, y);
    TimelyAre(AllOf(x, y));
    LateNothing(x, y);
    hide Timely, AllOf, Open, Used;
    if !Allowed(x, y, t) {
      if Used(fs).Some? {
        LateOpen(fs, t);
      }
    } else if x.One? {
      AloneOpen(x, y, fs, x);
    } else {
      AloneOpen(x, y, fs, y);
    }
  }

  // ---------------------------------------------------------------- in all

  /** Exactly when there is a block, and it leaves open what both directions allow. */
  predicate BlockTold(x: Way, y: Way)
    requires Fits(x, y)
  {
    if InTime(x) && InTime(y) then Told(x, y) else ToldLate(x, y)
  }

  lemma BlockToldExactly(x: Way, y: Way)
    requires Fits(x, y)
    ensures Right(x, y, Timely(AllOf(x, y))) <==> BlockTold(x, y)
    ensures InTime(x) && InTime(y) ==> Timely(AllOf(x, y)) == AllOf(x, y)
  {
    hide Right, Told, ToldLate, Timely, AllOf, InTime;
    if InTime(x) && InTime(y) {
      AllInTime(x, y);
      RightExactly(x, y);
    } else {
      LateExactly(x, y);
    }
  }
}
