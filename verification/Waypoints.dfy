/** Dropping waypoints that a straight line passes closely enough: `filter_intermediate_positions` of ruckig.hpp. */
module Waypoints {
  import opened RealArithmetic

  type Point = seq<real>

  predicate Points(qs: seq<Point>, dofs: nat) {
    forall i :: 0 <= i < |qs| ==> |qs[i]| == dofs
  }

  // ---------------------------------------------------------------- one waypoint

  /** The first `n` coordinates of `q` are within the thresholds of the point at parameter `t` from `s` to `e`. */
  predicate Near(q: Point, s: Point, e: Point, threshold: seq<real>, t: real, n: nat)
    requires n <= |q| && n <= |s| && n <= |e| && n <= |threshold|
  {
    forall dof :: 0 <= dof < n ==> Abs(q[dof] - (s[dof] + t * (e[dof] - s[dof]))) <= threshold[dof]
  }

  /** One parameter places all coordinates. */
  ghost predicate Covered(q: Point, s: Point, e: Point, threshold: seq<real>)
    requires |q| == |s| == |e| == |threshold|
  {
    exists t :: 0.0 <= t <= 1.0 && Near(q, s, e, threshold, t, |q|)
  }

  /** The parameters that place one coordinate are an interval. */
  lemma Placed(q: real, s: real, e: real, r: real, t: real)
    requires e != s
    ensures Abs(q - (s + t * (e - s))) <= r <==>
      (q - s) / (e - s) - r / Abs(e - s) <= t <= (q - s) / (e - s) + r / Abs(e - s)
  {
    var d, h, w := e - s, (q - s) / (e - s), r / Abs(e - s);
    QuotientTimes(q - s, d, h);
    QuotientTimes(r, Abs(d), w);
    var x := h - t;
    assert q - (s + t * d) == x * d;
    assert Abs(x * d) == Abs(x) * Abs(d) by {
      AbsProduct(x, d);
    }
    if Abs(x) <= w {
      TimesOrder(Abs(x), w, Abs(d));
    } else {
      TimesLess(w, Abs(x), Abs(d));
    }
  }

  /** The parameters that place the first `n` coordinates are those from `low` to `high`. */
  ghost predicate Placing(q: Point, s: Point, e: Point, threshold: seq<real>, n: nat, low: real, high: real)
    requires |q| == |s| == |e| == |threshold| && n <= |q|
  {
    forall t :: 0.0 <= t <= 1.0 && Near(q, s, e, threshold, t, n) <==> low <= t <= high
  }

  lemma PlacingStep(q: Point, s: Point, e: Point, threshold: seq<real>, n: nat, low: real, high: real, from: real,
                    to: real)
    requires |q| == |s| == |e| == |threshold| && n < |q| && Placing(q, s, e, threshold, n, low, high) && s[n] != e[n]
    requires from == (q[n] - s[n]) / (e[n] - s[n]) - threshold[n] / Abs(e[n] - s[n])
    requires to == (q[n] - s[n]) / (e[n] - s[n]) + threshold[n] / Abs(e[n] - s[n])
    ensures Placing(q, s, e, threshold, n + 1, Max(from, low), Min(to, high))
  {
    hide Near;
    var n', low', high' := n + 1, Max(from, low), Min(to, high);
    forall t ensures 0.0 <= t <= 1.0 && Near(q, s, e, threshold, t, n') <==> low' <= t <= high' {
      NearStep(q, s, e, threshold, t, n);
      assert 0.0 <= t <= 1.0 && Near(q, s, e, threshold, t, n) <==> low <= t <= high;
    }
  }

  lemma NearStep(q: Point, s: Point, e: Point, threshold: seq<real>, t: real, n: nat)
    requires |q| == |s| == |e| == |threshold| && n < |q| && s[n] != e[n]
    ensures Abs(e[n] - s[n]) != 0.0
    ensures var h0, w := (q[n] - s[n]) / (e[n] - s[n]), threshold[n] / Abs(e[n] - s[n]);
      Near(q, s, e, threshold, t, n + 1) <==> Near(q, s, e, threshold, t, n) && h0 - w <= t <= h0 + w
  {
    Placed(q[n], s[n], e[n], threshold[n], t);
    hide Abs;
  }

  lemma NothingPlaces(q: Point, s: Point, e: Point, threshold: seq<real>, n: nat, low: real, high: real)
    requires |q| == |s| == |e| == |threshold| && n <= |q| && Placing(q, s, e, threshold, n, low, high) && low > high
    ensures !Covered(q, s, e, threshold)
  {
    forall t ensures Near(q, s, e, threshold, t, |q|) ==> Near(q, s, e, threshold, t, n) {
    }
    hide Near;
  }

  lemma NoCoordinates(q: Point, s: Point, e: Point, threshold: seq<real>)
    requires |q| == |s| == |e| == |threshold|
    ensures Placing(q, s, e, threshold, 0, 0.0, 1.0)
  {}

  lemma SomethingPlaces(q: Point, s: Point, e: Point, threshold: seq<real>, low: real, high: real)
    requires |q| == |s| == |e| == |threshold| && Placing(q, s, e, threshold, |q|, low, high) && low <= high
    ensures Covered(q, s, e, threshold)
  {
    hide Near;
    assert Near(q, s, e, threshold, low, |q|);
  }

  // ---------------------------------------------------------------- the test, where a line has no extent

  /** A double: a division by zero has no number to give. */
  datatype Ext = NotNumber | MinusInfinity | Number(x: real) | PlusInfinity

  function Divide(x: real, y: real): Ext {
    if y != 0.0 then Number(x / y) else if x > 0.0 then PlusInfinity else if x < 0.0 then MinusInfinity else NotNumber
  }

  function Negate(a: Ext): Ext {
    match a
    case NotNumber => NotNumber
    case MinusInfinity => PlusInfinity
    case Number(x) => Number(-x)
    case PlusInfinity => MinusInfinity
  }

  function Plus(a: Ext, b: Ext): Ext {
    if a.NotNumber? || b.NotNumber? then NotNumber
    else if a.Number? && b.Number? then Number(a.x + b.x)
    else if a.Number? || a == b then b
    else if b.Number? then a
    else NotNumber
  }

  /** No comparison with what is not a number holds. */
  predicate Less(a: Ext, b: Ext) {
    match (a, b)
    case (NotNumber, _) => false
    case (_, NotNumber) => false
    case (Number(x), Number(y)) => x < y
    case _ => a != b && (a.MinusInfinity? || b.PlusInfinity?)
  }

  /** `std::max` and `std::min`, with the first argument if neither is smaller. */
  function Larger(a: Ext, b: Ext): Ext {
    if Less(a, b) then b else a
  }

  function Smaller(a: Ext, b: Ext): Ext {
    if Less(b, a) then b else a
  }

  /** The parameters left after some coordinates, unless a coordinate has left none. */
  datatype Range = Empty | Range(from: Ext, to: Ext)

  function Narrowed(r: Range, q: real, s: real, e: real, threshold: real): Range {
    if r.Empty? then Empty
    else
      var h0, w := Divide(q - s, e - s), Divide(threshold, Abs(e - s));
      var from, to := Larger(Plus(h0, Negate(w)), r.from), Smaller(Plus(h0, w), r.to);
      if Less(to, from) then Empty else Range(from, to)
  }

  function RangeAfter(q: Point, s: Point, e: Point, threshold: seq<real>, n: nat): Range
    requires |q| == |s| == |e| == |threshold| && n <= |q|
  {
    if n == 0 then Range(Number(0.0), Number(1.0))
    else Narrowed(RangeAfter(q, s, e, threshold, n - 1), q[n - 1], s[n - 1], e[n - 1], threshold[n - 1])
  }

  predicate Passes(q: Point, s: Point, e: Point, threshold: seq<real>)
    requires |q| == |s| == |e| == |threshold|
  {
    RangeAfter(q, s, e, threshold, |q|).Range?
  }

  lemma {:induction false} EmptyStays(q: Point, s: Point, e: Point, threshold: seq<real>, n: nat, m: nat)
    requires |q| == |s| == |e| == |threshold| && n <= m <= |q| && RangeAfter(q, s, e, threshold, n).Empty?
    ensures RangeAfter(q, s, e, threshold, m).Empty?
    decreases m
  {
    if n < m {
      EmptyStays(q, s, e, threshold, n, m - 1);
    }
  }

  /** The test of one waypoint: it gives up at the first coordinate that leaves no parameter. */
  method PassesTest(q: Point, s: Point, e: Point, threshold: seq<real>) returns (ok: bool)
    requires |q| == |s| == |e| == |threshold|
    ensures ok <==> Passes(q, s, e, threshold)
  {
    hide Divide, Plus, Negate, Larger, Smaller, Less;
    var tStartMax, tEndMin := Number(0.0), Number(1.0);
    for dof := 0 to |q|
      invariant RangeAfter(q, s, e, threshold, dof) == Range(tStartMax, tEndMin)
    {
      var h0 := Divide(q[dof] - s[dof], e[dof] - s[dof]);
      var tStart := Plus(h0, Negate(Divide(threshold[dof], Abs(e[dof] - s[dof]))));
      var tEnd := Plus(h0, Divide(threshold[dof], Abs(e[dof] - s[dof])));
      tStartMax := Larger(tStart, tStartMax);
      tEndMin := Smaller(tEnd, tEndMin);
      if Less(tEndMin, tStartMax) {
        EmptyStays(q, s, e, threshold, dof + 1, |q|);
        return false;
      }
    }
    ok := true;
  }

  predicate Extended(s: Point, e: Point, n: nat) {
    n <= |s| == |e| && forall dof :: 0 <= dof < n ==> s[dof] != e[dof]
  }

  lemma NumbersNarrow(low: real, high: real, q: real, s: real, e: real, threshold: real)
    requires s != e
    ensures Abs(e - s) != 0.0
    ensures var h0, w := (q - s) / (e - s), threshold / Abs(e - s);
      var low', high' := Max(h0 - w, low), Min(h0 + w, high);
      Narrowed(Range(Number(low), Number(high)), q, s, e, threshold)
        == if low' > high' then Empty else Range(Number(low'), Number(high'))
  {}

  /** Along a line that extends in every coordinate looked at, the range is that of the placing parameters. */
  lemma {:induction false} RangeIsPlacing(q: Point, s: Point, e: Point, threshold: seq<real>, n: nat)
    requires |q| == |s| == |e| == |threshold| && n <= |q| && Extended(s, e, n)
    ensures var r := RangeAfter(q, s, e, threshold, n);
      if r.Empty? then !Covered(q, s, e, threshold)
      else r.from.Number? && r.to.Number? && r.from.x <= r.to.x && Placing(q, s, e, threshold, n, r.from.x, r.to.x)
  {
    hide Placing, Covered;
    if n == 0 {
      NoCoordinates(q, s, e, threshold);
    } else {
      RangeIsPlacing(q, s, e, threshold, n - 1);
      var r := RangeAfter(q, s, e, threshold, n - 1);
      if r.Range? {
        var d, low, high := n - 1, r.from.x, r.to.x;
        NumbersNarrow(low, high, q[d], s[d], e[d], threshold[d]);
        hide Abs, Narrowed;
        var h0, w := (q[d] - s[d]) / (e[d] - s[d]), threshold[d] / Abs(e[d] - s[d]);
        PlacingStep(q, s, e, threshold, d, low, high, h0 - w, h0 + w);
        if Max(h0 - w, low) > Min(h0 + w, high) {
          NothingPlaces(q, s, e, threshold, n, Max(h0 - w, low), Min(h0 + w, high));
        }
      }
    }
  }

  /** Such a line is judged rightly, whatever the waypoint and the thresholds. */
  lemma PassesIsCovered(q: Point, s: Point, e: Point, threshold: seq<real>)
    requires |q| == |s| == |e| == |threshold| && Extended(s, e, |s|)
    ensures Passes(q, s, e, threshold) <==> Covered(q, s, e, threshold)
  {
    hide Covered, Narrowed;
    RangeIsPlacing(q, s, e, threshold, |q|);
    var r := RangeAfter(q, s, e, threshold, |q|);
    if r.Range? {
      SomethingPlaces(q, s, e, threshold, r.from.x, r.to.x);
    }
  }

  predicate NotBelow(a: Ext, t: real) {
    a.NotNumber? || a.PlusInfinity? || (a.Number? && a.x >= t)
  }

  predicate NotAbove(a: Ext, t: real) {
    a.NotNumber? || a.MinusInfinity? || (a.Number? && a.x <= t)
  }

  /** A parameter that places a coordinate stays in the range, or the range has no numbers any more. */
  lemma ParameterStays(r: Range, q: real, s: real, e: real, threshold: real, t: real)
    requires r.Range? && NotAbove(r.from, t) && NotBelow(r.to, t) && threshold >= 0.0
    requires Abs(q - (s + t * (e - s))) <= threshold
    ensures var r' := Narrowed(r, q, s, e, threshold); r'.Range? && NotAbove(r'.from, t) && NotBelow(r'.to, t)
  {
    if s != e {
      Placed(q, s, e, threshold, t);
    } else {
      assert t * (e - s) == 0.0;
    }
  }

  /** No covered waypoint is ever refused, whatever the line. */
  lemma {:induction false} CoveredStays(q: Point, s: Point, e: Point, threshold: seq<real>, t: real, n: nat)
    requires |q| == |s| == |e| == |threshold| && n <= |q| && forall dof :: 0 <= dof < |q| ==> threshold[dof] >= 0.0
    requires 0.0 <= t <= 1.0 && Near(q, s, e, threshold, t, |q|)
    ensures var r := RangeAfter(q, s, e, threshold, n); r.Range? && NotAbove(r.from, t) && NotBelow(r.to, t)
  {
    hide Narrowed, Abs;
    if n > 0 {
      CoveredStays(q, s, e, threshold, t, n - 1);
      ParameterStays(RangeAfter(q, s, e, threshold, n - 1), q[n - 1], s[n - 1], e[n - 1], threshold[n - 1], t);
    }
  }

  lemma CoveredPasses(q: Point, s: Point, e: Point, threshold: seq<real>)
    requires |q| == |s| == |e| == |threshold| && forall dof :: 0 <= dof < |q| ==> threshold[dof] >= 0.0
    requires Covered(q, s, e, threshold)
    ensures Passes(q, s, e, threshold)
  {
    hide Near, RangeAfter;
    var t :| 0.0 <= t <= 1.0 && Near(q, s, e, threshold, t, |q|);
    CoveredStays(q, s, e, threshold, t, |q|);
  }

  /** The start of the line, but as far off as one likes in a coordinate in which the line has no extent. */
  function FarOff(s: Point, threshold: seq<real>, d: nat): Point
    requires d < |s| == |threshold|
  {
    s[d := s[d] + threshold[d] + 1.0]
  }

  lemma NoExtentPasses(r: Range, q: real, s: real, e: real, threshold: real)
    requires r.Range? && NotAbove(r.from, 0.0) && NotBelow(r.to, 0.0) && threshold >= 0.0 &&
             (q == s || (q > s && s == e))
    ensures var r' := Narrowed(r, q, s, e, threshold); r'.Range? && NotAbove(r'.from, 0.0) && NotBelow(r'.to, 0.0)
  {
    if s != e {
      AtStart(s, e, threshold);
    }
    hide Abs;
    var h0, w := Divide(q - s, e - s), Divide(threshold, Abs(e - s));
    assert NotAbove(Plus(h0, Negate(w)), 0.0) && NotBelow(Plus(h0, w), 0.0);
    hide Divide, Plus, Negate;
  }

  lemma AtStart(s: real, e: real, threshold: real)
    requires s != e && threshold >= 0.0
    ensures Divide(s - s, e - s) == Number(0.0)
    ensures var w := Divide(threshold, Abs(e - s)); w.Number? && w.x >= 0.0
  {
    Quotient(threshold, Abs(e - s));
    assert s - s == 0.0;
  }

  lemma {:induction false} FarOffStays(s: Point, e: Point, threshold: seq<real>, d: nat, n: nat)
    requires n <= |s| && d < |s| == |e| == |threshold| && s[d] == e[d]
    requires forall dof :: 0 <= dof < |s| ==> threshold[dof] >= 0.0
    ensures var r := RangeAfter(FarOff(s, threshold, d), s, e, threshold, n);
      r.Range? && NotAbove(r.from, 0.0) && NotBelow(r.to, 0.0)
  {
    hide Narrowed;
    if n > 0 {
      FarOffStays(s, e, threshold, d, n - 1);
      var q := FarOff(s, threshold, d);
      NoExtentPasses(RangeAfter(q, s, e, threshold, n - 1), q[n - 1], s[n - 1], e[n - 1], threshold[n - 1]);
    }
  }

  lemma FarOffIsNotCovered(s: Point, e: Point, threshold: seq<real>, d: nat)
    requires d < |s| == |e| == |threshold| && s[d] == e[d] && threshold[d] >= 0.0
    ensures !Covered(FarOff(s, threshold, d), s, e, threshold)
  {
    var q := FarOff(s, threshold, d);
    forall t ensures !Near(q, s, e, threshold, t, |q|) {
      assert t * (e[d] - s[d]) == 0.0;
      assert Abs(q[d] - (s[d] + t * (e[d] - s[d]))) > threshold[d];
    }
  }

  ghost predicate JudgedRightly(s: Point, e: Point, threshold: seq<real>)
    requires |s| == |e| == |threshold|
  {
    forall q: Point :: |q| == |s| ==> (Passes(q, s, e, threshold) <==> Covered(q, s, e, threshold))
  }

  /**
   * A line judges every waypoint rightly exactly if it extends in every coordinate. Where it does not, a waypoint
   * passes however far off it is in that coordinate, because the quotients are not numbers and nothing compares
   * with them.
   */
  lemma JudgedRightlyExactly(s: Point, e: Point, threshold: seq<real>)
    requires |s| == |e| == |threshold| && forall dof :: 0 <= dof < |s| ==> threshold[dof] >= 0.0
    ensures JudgedRightly(s, e, threshold) <==> Extended(s, e, |s|)
  {
    hide Passes, Covered;
    if Extended(s, e, |s|) {
      forall q: Point | |q| == |s| ensures Passes(q, s, e, threshold) <==> Covered(q, s, e, threshold) {
        PassesIsCovered(q, s, e, threshold);
      }
    } else {
      var d :| 0 <= d < |s| && s[d] == e[d];
      FarOffPasses(s, e, threshold, d);
      FarOffIsNotCovered(s, e, threshold, d);
    }
  }

  lemma FarOffPasses(s: Point, e: Point, threshold: seq<real>, d: nat)
    requires d < |s| == |e| == |threshold| && s[d] == e[d]
    requires forall dof :: 0 <= dof < |s| ==> threshold[dof] >= 0.0
    ensures Passes(FarOff(s, threshold, d), s, e, threshold)
  {
    FarOffStays(s, e, threshold, d, |s|);
  }

  /** For instance a waypoint 100 above the middle of a level line of length 1, with thresholds of 0.1. */
  lemma FarWaypointPasses()
    ensures Passes([0.5, 100.0], [0.0, 0.0], [1.0, 0.0], [0.1, 0.1])
    ensures !Covered([0.5, 100.0], [0.0, 0.0], [1.0, 0.0], [0.1, 0.1])
  {
    var q, s, e, threshold := [0.5, 100.0], [0.0, 0.0], [1.0, 0.0], [0.1, 0.1];
    assert RangeAfter(q, s, e, threshold, 1) == Range(Number(0.4), Number(0.6));
    assert RangeAfter(q, s, e, threshold, 2) == Range(NotNumber, Number(0.6));
    forall t ensures !Near(q, s, e, threshold, t, 2) {
      assert q[1] - (s[1] + t * (e[1] - s[1])) == 100.0;
      assert Abs(q[1] - (s[1] + t * (e[1] - s[1]))) > threshold[1];
    }
  }

  /** Start, waypoints and target in one line. */
  function Path(current: Point, waypoints: seq<Point>, target: Point): seq<Point> {
    [current] + waypoints + [target]
  }

  /** The waypoints that are kept, in order. */
  function Select(qs: seq<Point>, active: seq<bool>): (r: seq<Point>)
    requires |active| == |qs|
    ensures |r| <= |qs|
  {
    if qs == [] then []
    else
      var n := |qs| - 1;
      Select(qs[..n], active[..n]) + if active[n] then [qs[n]] else []
  }

  /** Position `i` of the path remains: both ends do, and the active waypoints. */
  predicate Kept(active: seq<bool>, i: nat) {
    i == 0 || i > |active| || active[i - 1]
  }

  /** `s` and `e` are kept and nothing between them is. */
  predicate Neighbours(active: seq<bool>, s: nat, e: nat) {
    s < e && Kept(active, s) && Kept(active, e) && forall k :: s < k < e ==> !Kept(active, k)
  }

  /** Every position between `s` and `e` passes the test of the line from the one to the other. */
  ghost predicate Spans(path: seq<Point>, threshold: seq<real>, s: nat, e: nat)
    requires Points(path, |threshold|) && s <= e < |path|
  {
    forall k :: s < k < e ==> Passes(path[k], path[s], path[e], threshold)
  }

  /** The line to `e` passes all that lies before it, and the line to the next position would not pass `e` as well. */
  ghost predicate Closed(path: seq<Point>, threshold: seq<real>, s: nat, e: nat)
    requires Points(path, |threshold|) && s <= e < |path|
  {
    Spans(path, threshold, s, e) && (e + 1 < |path| ==> !Spans(path, threshold, s, e + 1))
  }

  /** What the choice of active waypoints satisfies for neighbours up to position `n`. */
  ghost predicate Chosen(path: seq<Point>, threshold: seq<real>, active: seq<bool>, n: nat)
    requires Points(path, |threshold|) && |path| == |active| + 2 && n < |path|
  {
    forall s, e :: 0 <= s < e <= n && Neighbours(active, s, e) ==> Closed(path, threshold, s, e)
  }

  /** If the line extends in every coordinate, all that lies between its ends is covered. */
  lemma SpansCovers(path: seq<Point>, threshold: seq<real>, s: nat, e: nat)
    requires Points(path, |threshold|) && s <= e < |path| && Extended(path[s], path[e], |threshold|)
    ensures Spans(path, threshold, s, e) <==> forall k :: s < k < e ==> Covered(path[k], path[s], path[e], threshold)
  {
    hide Passes, Covered;
    forall k | s < k < e
      ensures Passes(path[k], path[s], path[e], threshold) <==> Covered(path[k], path[s], path[e], threshold)
    {
      PassesIsCovered(path[k], path[s], path[e], threshold);
    }
  }

  /** The test of all waypoints between two positions. */
  method DoAllPass(path: seq<Point>, threshold: seq<real>, s: nat, e: nat) returns (ok: bool)
    requires Points(path, |threshold|) && s < e < |path|
    ensures ok <==> Spans(path, threshold, s, e)
  {
    hide Passes;
    for k := s + 1 to e
      invariant forall m :: s < m < k ==> Passes(path[m], path[s], path[e], threshold)
    {
      ok := PassesTest(path[k], path[s], path[e], threshold);
      if !ok {
        return;
      }
    }
    ok := true;
  }

  /** What has been chosen stays chosen when a later waypoint is decided. */
  lemma ChosenStays(path: seq<Point>, threshold: seq<real>, active: seq<bool>, n: nat, k: nat, v: bool)
    requires Points(path, |threshold|) && |path| == |active| + 2 && n < k < |path| - 1
    requires Chosen(path, threshold, active, n)
    ensures Chosen(path, threshold, active[k - 1 := v], n)
  {
    hide Closed;
    forall s: nat, e: nat | 0 <= s < e <= n && Neighbours(active[k - 1 := v], s, e)
      ensures Closed(path, threshold, s, e)
    {
      assert forall m :: 0 <= m <= n ==> Kept(active[k - 1 := v], m) == Kept(active, m);
      assert Neighbours(active, s, e);
    }
  }

  /** A new neighbour closes the span before it. */
  lemma ChosenExtends(path: seq<Point>, threshold: seq<real>, active: seq<bool>, s: nat, e: nat)
    requires Points(path, |threshold|) && |path| == |active| + 2 && s < e < |path|
    requires Chosen(path, threshold, active, s) && Neighbours(active, s, e)
    requires Closed(path, threshold, s, e)
    ensures Chosen(path, threshold, active, e)
  {
    hide Closed;
    forall s': nat, e': nat | 0 <= s' < e' <= e && Neighbours(active, s', e')
      ensures Closed(path, threshold, s', e')
    {
      if e' == e {
        assert s' < s ==> !Kept(active, s);
        assert s < s' ==> !Kept(active, s');
      }
    }
  }

  /** Nothing is chosen before the first waypoint is looked at. */
  lemma NothingChosen(path: seq<Point>, threshold: seq<real>, active: seq<bool>)
    requires Points(path, |threshold|) && |path| == |active| + 2
    ensures Chosen(path, threshold, active, 0) && Spans(path, threshold, 0, 1) && KeptUntil(active, 0, 1)
  {}

  /** The waypoint before `end` is dropped: the span grows by one. */
  lemma Dropped(active: seq<bool>, start: nat, end: nat)
    requires start < end - 1 && 2 <= end < |active| + 2 && Kept(active, start)
    requires forall k :: start < k < end - 1 ==> !Kept(active, k)
    ensures var active' := active[end - 2 := false];
      Kept(active', start) && forall k :: start < k < end ==> !Kept(active', k)
  {
    var active' := active[end - 2 := false];
    assert forall k: nat :: start <= k < end - 1 ==> Kept(active', k) == Kept(active, k);
  }

  /** The waypoint before `end` stays active: it is the next neighbour. */
  lemma Activated(active: seq<bool>, start: nat, end: nat)
    requires start < end - 1 && 2 <= end < |active| + 2 && Kept(active, start)
    requires forall k :: start < k < end - 1 ==> !Kept(active, k)
    ensures Neighbours(active[end - 2 := true], start, end - 1)
  {
    var active' := active[end - 2 := true];
    assert forall k: nat :: start <= k < end - 1 ==> Kept(active', k) == Kept(active, k);
  }

  /**
   * The waypoints kept, in order. Every dropped one passes the test of the line between its kept neighbours, ends
   * of the path included; and no kept one could have been dropped: one of the positions between the neighbour
   * before it and the position after it does not pass the line from the one to the other. What a line that extends
   * in every coordinate passes, it covers.
   */
  method FilterIntermediatePositions(current: Point, waypoints: seq<Point>, target: Point, threshold: seq<real>)
    returns (filtered: seq<Point>, ghost active: seq<bool>)
    requires Points(Path(current, waypoints, target), |threshold|)
    ensures |active| == |waypoints| && filtered == Select(waypoints, active)
    ensures Chosen(Path(current, waypoints, target), threshold, active, |waypoints| + 1)
    ensures var path := Path(current, waypoints, target); forall s, e, k ::
      0 <= s < k < e < |path| && Neighbours(active, s, e) && Extended(path[s], path[e], |threshold|) ==>
      Covered(path[k], path[s], path[e], threshold)
  {
    hide Chosen, Spans, Kept, Neighbours, Closed, Covered, Extended, Passes;
    var path := Path(current, waypoints, target);
    var nWaypoints := |waypoints|;
    var isActive := new bool[nWaypoints](_ => true);
    active := isActive[..];
    if nWaypoints == 0 {
      EmptyPath(path, threshold, active);
      return waypoints, active;
    }
    var start := 0;
    NothingChosen(path, threshold, active);
    for end := 2 to nWaypoints + 2
      invariant start <= end - 2 && active == isActive[..] && Chosen(path, threshold, active, start)
      invariant KeptUntil(active, start, end - 1) && Spans(path, threshold, start, end - 1)
    {
      var ok := DoAllPass(path, threshold, start, end);
      isActive[end - 2] := !ok;
      Decide(path, threshold, active, start, end, ok);
      active := isActive[..];
      if !ok {
        start := end - 1;
      }
    }
    Finish(path, threshold, active, start);
    ChosenCovers(path, threshold, active);
    filtered := [];
    for i := 0 to nWaypoints
      invariant filtered == Select(waypoints[..i], active[..i]) && active == isActive[..]
    {
      assert waypoints[..i + 1][..i] == waypoints[..i] && active[..i + 1][..i] == active[..i];
      if isActive[i] {
        filtered := filtered + [waypoints[i]];
      }
    }
    assert waypoints[..nWaypoints] == waypoints && active[..nWaypoints] == active;
  }

  lemma ChosenCovers(path: seq<Point>, threshold: seq<real>, active: seq<bool>)
    requires Points(path, |threshold|) && |path| == |active| + 2 && Chosen(path, threshold, active, |path| - 1)
    ensures forall s, e, k ::
      0 <= s < k < e < |path| && Neighbours(active, s, e) && Extended(path[s], path[e], |threshold|) ==>
      Covered(path[k], path[s], path[e], threshold)
  {
    hide Covered, Extended, Passes;
    forall s, e, k | 0 <= s < k < e < |path| && Neighbours(active, s, e) && Extended(path[s], path[e], |threshold|)
      ensures Covered(path[k], path[s], path[e], threshold)
    {
      assert Closed(path, threshold, s, e);
      SpansCovers(path, threshold, s, e);
    }
  }

  /** `start` is kept, and nothing after it up to `end`. */
  predicate KeptUntil(active: seq<bool>, start: nat, end: nat) {
    Kept(active, start) && forall k :: start < k < end ==> !Kept(active, k)
  }

  lemma EmptyPath(path: seq<Point>, threshold: seq<real>, active: seq<bool>)
    requires Points(path, |threshold|) && |path| == 2 && active == []
    ensures Chosen(path, threshold, active, 1)
  {}

  lemma Finish(path: seq<Point>, threshold: seq<real>, active: seq<bool>, start: nat)
    requires Points(path, |threshold|) && |path| == |active| + 2 && start <= |active|
    requires Chosen(path, threshold, active, start) && KeptUntil(active, start, |active| + 1)
    requires Spans(path, threshold, start, |active| + 1)
    ensures Chosen(path, threshold, active, |active| + 1)
  {
    ChosenExtends(path, threshold, active, start, |active| + 1);
  }

  /** One turn of the loop. */
  lemma Decide(path: seq<Point>, threshold: seq<real>, active: seq<bool>, start: nat, end: nat, ok: bool)
    requires Points(path, |threshold|) && |path| == |active| + 2 && start <= end - 2 && end < |path|
    requires Chosen(path, threshold, active, start) && KeptUntil(active, start, end - 1)
    requires Spans(path, threshold, start, end - 1) && (ok <==> Spans(path, threshold, start, end))
    ensures var active', start' := active[end - 2 := !ok], if ok then start else end - 1;
      && Chosen(path, threshold, active', start') && KeptUntil(active', start', end)
      && Spans(path, threshold, start', end)
  {
    hide Chosen, Passes;
    var active' := active[end - 2 := !ok];
    ChosenStays(path, threshold, active, start, end - 1, !ok);
    if ok {
      Dropped(active, start, end);
    } else {
      Activated(active, start, end);
      ChosenExtends(path, threshold, active', start, end - 1);
    }
  }
}
