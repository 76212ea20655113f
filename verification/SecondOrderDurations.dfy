/**
 * Which durations have a second-order profile: every motion within the limits, however it moves, has one of the
 * candidates of position_second_step2.cpp to match it in start, target and duration. Most of it is said for a
 * target at rest; a moving target is at rest in the frame that moves with it.
 */
module SecondOrderDurations {
  import opened Kinematics
  import opened RealArithmetic
  import opened SecondOrder
  import opened SecondOrderForms

  /** Two flanks and a cruise with their speeds `a` and `b` by name: the target, weighted by either acceleration. */
  lemma WeightedUp(u: real, d: real, t0: real, h: real, t2: real, a: real, b: real, pd: real)
    requires a == u * t0 && b == d * t2 && pd == -(t0 * b) - t0 * a / 2.0 - h * b - t2 * b / 2.0
    ensures 2.0 * (u * pd) == -2.0 * (a * b) - a * a - 2.0 * Mul(u * d, h * t2) - Mul(u * d, t2 * t2)
  {
    assert u * (t0 * b) == a * b && u * (t0 * a) == a * a;
    assert u * (h * b) == Mul(u * d, h * t2) && u * (t2 * b) == Mul(u * d, t2 * t2);
    assert u * pd == -(u * (t0 * b)) - u * (t0 * a) / 2.0 - u * (h * b) - u * (t2 * b) / 2.0;
  }

  lemma WeightedDown(u: real, d: real, t0: real, h: real, t2: real, a: real, b: real, pd: real)
    requires a == u * t0 && b == d * t2 && pd == -(t0 * b) - t0 * a / 2.0 - h * b - t2 * b / 2.0
    ensures 2.0 * (d * pd) == -2.0 * Mul(d * t0, b) - Mul(u * d, t0 * t0) - 2.0 * Mul(d * h, b) - b * b
  {
    assert d * (t0 * b) == Mul(d * t0, b) && d * (t0 * a) == Mul(u * d, t0 * t0);
    assert d * (h * b) == Mul(d * h, b) && d * (t2 * b) == b * b;
    assert d * pd == -(d * (t0 * b)) - d * (t0 * a) / 2.0 - d * (h * b) - d * (t2 * b) / 2.0;
  }

  lemma WeightedTime(u: real, d: real, t0: real, h: real, t2: real, a: real, b: real, T: real)
    requires a == u * t0 && b == d * t2 && T == t0 + h + t2
    ensures d * (T * (-b - a)) ==
            -Mul(d * t0, b) - Mul(u * d, t0 * t0) - Mul(d * h, b) - Mul(u * d, h * t0) - b * b - a * b
  {
    assert d * T == d * t0 + d * h + b;
    assert d * (T * (-b - a)) == (d * T) * (-b - a);
    assert (d * t0) * a == Mul(u * d, t0 * t0) && (d * h) * a == Mul(u * d, h * t0);
  }

  lemma SpeedProduct(u: real, d: real, t0: real, h: real, t2: real, a: real, b: real, T: real)
    requires a == u * t0 && b == d * t2 && T == t0 + h + t2
    ensures Mul(u * d, h * h - T * T) ==
            -Mul(u * d, t0 * t0) - Mul(u * d, t2 * t2) - 2.0 * (a * b)
            - 2.0 * Mul(u * d, h * t0) - 2.0 * Mul(u * d, h * t2)
  {
    var k := u * d;
    assert a * b == k * (t0 * t2);
    assert h * h - T * T == -(t0 * t0 + t2 * t2 + 2.0 * (t0 * t2) + 2.0 * (h * t0) + 2.0 * (h * t2));
    assert k * (h * h - T * T) ==
           -(k * (t0 * t0) + k * (t2 * t2) + 2.0 * (k * (t0 * t2)) + 2.0 * (k * (h * t0)) + 2.0 * (k * (h * t2)));
  }

  lemma CruisePolynomial(u: real, d: real, t0: real, h: real, t2: real, v: real, pd: real, T: real)
    requires v == -(d * t2) - u * t0 && T == t0 + h + t2
    requires pd == Rise(v, u, t0) + Rise(-(d * t2), 0.0, h) + Rise(-(d * t2), d, t2)
    ensures 2.0 * (u * pd) - 2.0 * (d * pd) + 2.0 * (d * (T * v)) + v * v == Mul(u * d, h * h - T * T)
  {
    var a, b := u * t0, d * t2;
    assert pd == -(t0 * b) - t0 * a / 2.0 - h * b - t2 * b / 2.0;
    WeightedUp(u, d, t0, h, t2, a, b, pd);
    WeightedDown(u, d, t0, h, t2, a, b, pd);
    WeightedTime(u, d, t0, h, t2, a, b, T);
    SpeedProduct(u, d, t0, h, t2, a, b, T);
    assert v * v == a * a + 2.0 * (a * b) + b * b;
    hide Mul, Rise;
  }

  /** The converse of `UpDownReaches`: whatever reaches the target in time has its cruise time for a root. */
  lemma SquareOfCruise(v: real, pd: real, T: real, top: real, u: real, d: real, t0: real, h: real, t2: real)
    requires u != 0.0 && d != 0.0 && Reaches(v, 0.0, pd, top, u, d, t0, h, t2) && T == t0 + h + t2
    ensures CruiseSquare(v, 0.0, pd, T, u, d) == h * h
  {
    assert top == -(d * t2) && v == -(d * t2) - u * t0;
    CruisePolynomial(u, d, t0, h, t2, v, pd, T);
    NonZeroProduct(u, d);
    var e := CruiseSquare(v, 0.0, pd, T, u, d);
    CruiseSquareMeans(v, 0.0, pd, T, u, d, e);
    hide CruiseSquare, Rise;
    assert Sq(0.0 - v) == v * v && T * 0.0 == 0.0;
    assert d * (pd - T * v) == d * pd - d * (T * v);
    Cancel(u * d, e - T * T, h * h - T * T);
  }

  /** The farther the target, the shorter the cruise. */
  lemma SquareFalls(v: real, near: real, far: real, T: real, u: real, d: real)
    requires u > 0.0 > d && near <= far
    ensures CruiseSquare(v, 0.0, far, T, u, d) <= CruiseSquare(v, 0.0, near, T, u, d)
  {
    var x, y := CruiseSquare(v, 0.0, near, T, u, d), CruiseSquare(v, 0.0, far, T, u, d);
    CruiseSquareMeans(v, 0.0, near, T, u, d, x);
    CruiseSquareMeans(v, 0.0, far, T, u, d, y);
    hide CruiseSquare;
    Product(u, -d);
    SquareDifference(v, near, far, T, u, d, x, y);
    SameSign(u * -d, x - y, 2.0 * (u - d), far - near);
  }

  lemma SquareDifference(v: real, near: real, far: real, T: real, u: real, d: real, x: real, y: real)
    requires Mul(u * d, x - T * T) == 2.0 * (u * (near - T * 0.0)) - 2.0 * (d * (near - T * v)) + Sq(0.0 - v)
    requires Mul(u * d, y - T * T) == 2.0 * (u * (far - T * 0.0)) - 2.0 * (d * (far - T * v)) + Sq(0.0 - v)
    ensures u * -d * (x - y) == 2.0 * (u - d) * (far - near)
  {
    assert T * 0.0 == 0.0;
    assert d * (near - T * v) - d * (far - T * v) == d * (near - far);
    assert (u * d) * (x - T * T) - (u * d) * (y - T * T) == (u * d) * (x - y);
  }

  /** The longer the cruise, the lower its speed. */
  lemma SpeedFalls(v: real, T: real, u: real, d: real, h: real, t0: real, c: real, hc: real, tc: real)
    requires u > 0.0 > d && t0 == UpTime(v, 0.0, T, u, d, h)
    requires After(v, u, tc) == c && After(c, d, T - hc - tc) == 0.0
    ensures h <= hc ==> t0 >= tc && After(v, u, t0) >= c
    ensures h >= hc ==> t0 <= tc && After(v, u, t0) <= c
  {
    UpTimeMeans(v, 0.0, T, u, d, h, t0);
    FlankDifference(v, T, u, d, h, t0, c, hc, tc);
    hide UpTime;
    assert After(v, u, t0) - c == (t0 - tc) * u;
    if h <= hc {
      SameSign(u - d, t0 - tc, -d, hc - h);
      Product(t0 - tc, u);
    }
    if h >= hc {
      SameSign(u - d, tc - t0, -d, h - hc);
      Product(tc - t0, u);
    }
  }

  lemma FlankDifference(v: real, T: real, u: real, d: real, h: real, t0: real, c: real, hc: real, tc: real)
    requires Mul(u - d, t0) == 0.0 - v - Mul(d, T - h)
    requires c == v + tc * u && c + (T - hc - tc) * d == 0.0
    ensures (u - d) * (t0 - tc) == -d * (hc - h) && (u - d) * (tc - t0) == -d * (h - hc)
  {
    assert (T - hc - tc) * d == d * (T - hc) - d * tc;
    assert (u - d) * tc == tc * u - d * tc;
    assert d * (T - h) - d * (T - hc) == d * (hc - h);
  }

  lemma SameSign(k: real, x: real, l: real, y: real)
    requires k > 0.0 && l > 0.0 && y >= 0.0 && k * x == l * y
    ensures x >= 0.0
  {
    Product(l, y);
    if x < 0.0 {
      Product(k, -x);
    }
  }

  /** Times that reach `g` instead: how the root for `pd` compares with their cruise. */
  lemma RootAgainst(v: real, pd: real, T: real, u: real, d: real, g: real, c: real, tc: real, hc: real)
    requires u > 0.0 > d && Reaches(v, 0.0, g, c, u, d, tc, hc, T - hc - tc)
    ensures pd >= g ==> CruiseSquare(v, 0.0, pd, T, u, d) <= hc * hc
    ensures pd <= g ==> CruiseSquare(v, 0.0, pd, T, u, d) >= hc * hc
  {
    hide CruiseSquare, Reaches;
    SquareOfCruise(v, g, T, c, u, d, tc, hc, T - hc - tc);
    if pd >= g {
      SquareFalls(v, g, pd, T, u, d);
    }
    if pd <= g {
      SquareFalls(v, pd, g, T, u, d);
    }
  }

  // ---------------------------------------------------------------- what can be covered in a time

  /** Limits of which rest may be one. */
  predicate SlackLimits(v: real, vMax: real, vMin: real, aMax: real, aMin: real) {
    vMin <= 0.0 <= vMax && aMin < 0.0 < aMax && vMin <= v <= vMax
  }

  /** The time left for a cruise at speed `c`. */
  function HoldTime(v: real, vf: real, T: real, u: real, d: real, c: real): real
    requires u != 0.0 && d != 0.0
  {
    T - (c - v) / u - (vf - c) / d
  }

  /** The distance covered with it. */
  function Cover(v: real, vf: real, T: real, u: real, d: real, c: real): real
    requires u != 0.0 && d != 0.0
  {
    Rise(v, u, (c - v) / u) + Rise(c, 0.0, HoldTime(v, vf, T, u, d, c)) + Rise(c, d, (vf - c) / d)
  }

  /** The velocities can be changed in the time. */
  predicate EnoughTime(v: real, vf: real, T: real, u: real, d: real) {
    T >= 0.0 && After(v, d, T) <= vf <= After(v, u, T)
  }

  /** The distance is not beyond what rising and falling covers, with a cruise at the limit if there is time for it. */
  predicate NotTooFar(v: real, vf: real, pd: real, T: real, u: real, d: real, high: real)
    requires u != 0.0 && d != 0.0
  {
    && CruiseSquare(v, vf, pd, T, u, d) >= 0.0
    && (HoldTime(v, vf, T, u, d, high) >= 0.0 ==> pd <= Cover(v, vf, T, u, d, high))
  }

  /** The same downwards. */
  predicate NotTooNear(v: real, vf: real, pd: real, T: real, u: real, d: real, low: real)
    requires u != 0.0 && d != 0.0
  {
    NotTooFar(-v, -vf, -pd, T, -d, -u, -low)
  }

  /** Rising until there is only just time to stop. */
  lemma Farthest(w: seq<Segment>, v: real, pd: real, vMin: real, vMax: real, aMin: real, aMax: real)
    requires SlackLimits(v, vMax, vMin, aMax, aMin) && Admissible(w, v, pd, vMin, vMax, aMin, aMax)
    ensures CruiseSquare(v, 0.0, pd, Duration(w), aMax, aMin) >= 0.0
  {
    var T, u, d := Duration(w), aMax, aMin;
    RiseBound(v, w, vMin, vMax, aMin, aMax);
    FallBound(v, w, vMin, vMax, aMin, aMax);
    var theta := (-(d * T) - v) / (u - d);
    hide Admissible, Travels, Duration, CruiseSquare;
    SwitchWithin(v, u, d, T, theta);
    RiseThenFall(w, v, pd, theta, vMin, vMax, aMin, aMax);
    var c := After(v, u, theta);
    FallFrom(c, d, T - theta);
    NoTime(c, 0.0);
    RootAgainst(v, pd, T, u, d, Rise(v, u, theta) + Rise(c, d, T - theta), c, theta, 0.0);
  }

  lemma SwitchWithin(v: real, u: real, d: real, T: real, theta: real)
    requires u > 0.0 > d && theta == (-(d * T) - v) / (u - d)
    requires 0.0 <= After(v, u, T) && v <= After(0.0, -d, T)
    ensures 0.0 <= theta <= T && After(After(v, u, theta), d, T - theta) == 0.0
  {
    QuotientTimes(-(d * T) - v, u - d, theta);
    assert T * -d == -(d * T);
    Quotient(-(d * T) - v, u - d);
    assert (u - d) * (T - theta) == u * T + v;
    if T < theta {
      Product(u - d, theta - T);
    }
    assert (T - theta) * d + theta * u == d * T + theta * (u - d);
  }

  /** What holds of every motion to rest. */
  lemma Necessary(w: seq<Segment>, v: real, pd: real, vMin: real, vMax: real, aMin: real, aMax: real)
    requires SlackLimits(v, vMax, vMin, aMax, aMin) && Admissible(w, v, pd, vMin, vMax, aMin, aMax)
    ensures EnoughTime(v, 0.0, Duration(w), aMax, aMin)
    ensures NotTooFar(v, 0.0, pd, Duration(w), aMax, aMin, vMax)
  {
    var T, u, d := Duration(w), aMax, aMin;
    DurationNonNegative(v, w, vMin, vMax, aMin, aMax);
    RiseBound(v, w, vMin, vMax, aMin, aMax);
    FallBound(v, w, vMin, vMax, aMin, aMax);
    Farthest(w, v, pd, vMin, vMax, aMin, aMax);
    hide CruiseSquare, Admissible, Travels, Duration;
    assert After(v, d, T) <= 0.0;
    var tc, t2 := (vMax - v) / u, (0.0 - vMax) / d;
    FlankTimes(v, 0.0, vMax, u, d);
    Quotient(vMax - v, u);
    Quotient(0.0 - vMax, d);
    if HoldTime(v, 0.0, T, u, d, vMax) >= 0.0 {
      RiseCruiseFall(w, v, pd, tc, t2, vMin, vMax, aMin, aMax);
      FallFrom(vMax, d, t2);
    }
  }

  // ---------------------------------------------------------------- the candidates

  /** The candidate that goes up, cruises and goes down exists, and its peak is in the given range. */
  predicate UpDownMatches(sqrt: real -> real, v: real, vf: real, pd: real, T: real, u: real, d: real, low: real,
                          high: real)
    requires u != 0.0 && d != 0.0 && u != d
  {
    var e := CruiseSquare(v, vf, pd, T, u, d);
    && e >= 0.0
    && var t0 := UpTime(v, vf, T, u, d, sqrt(e));
       t0 >= 0.0 && T - (t0 + sqrt(e)) >= 0.0 && low <= After(v, u, t0) <= high
  }

  /** The candidate with a cruise between two equal accelerations exists, and so on. */
  predicate UpUpMatches(v: real, vf: real, pd: real, T: real, u: real, low: real, high: real)
    requires u != 0.0
  {
    var h1 := -(vf - v) + u * T;
    && h1 != 0.0
    && var t0 := UpUpTime(vf - v, pd, v, T, u, h1);
       && t0 >= 0.0 && -(vf - v) / u + T >= 0.0 && T - (t0 + (-(vf - v) / u + T)) >= 0.0
       && low <= After(v, u, t0) <= high
  }

  predicate SomeMatches(sqrt: real -> real, v: real, vf: real, pd: real, T: real,
                        vMax: real, vMin: real, aMax: real, aMin: real)
    requires aMax != 0.0 && aMin != 0.0 && aMax != aMin
  {
    || UpDownMatches(sqrt, v, vf, pd, T, aMax, aMin, vMin, vMax) || UpUpMatches(v, vf, pd, T, aMax, vMin, vMax)
    || UpDownMatches(sqrt, v, vf, pd, T, aMin, aMax, vMin, vMax) || UpUpMatches(v, vf, pd, T, aMin, vMin, vMax)
  }

  lemma RootOrder(sqrt: real -> real, e: real, h: real)
    requires IsSqrt(sqrt) && e >= 0.0 && h >= 0.0
    ensures e <= h * h ==> sqrt(e) <= h
    ensures e >= h * h ==> sqrt(e) >= h
  {
    if sqrt(e) > h {
      SquareGrows(h, sqrt(e));
    } else if sqrt(e) < h {
      SquareGrows(sqrt(e), h);
    }
  }

  /** The root at the present speed, or at rest: a target farther away takes a shorter cruise, at a higher speed. */
  lemma AboveSpeed(sqrt: real -> real, v: real, pd: real, T: real, u: real, d: real, c: real, tc: real, hc: real)
    requires IsSqrt(sqrt) && u > 0.0 > d && c >= 0.0 && tc >= 0.0 && hc >= 0.0
    requires After(v, u, tc) == c && After(c, d, T - hc - tc) == 0.0
    requires pd >= Rise(v, u, tc) + Rise(c, 0.0, hc) + Rise(c, d, T - hc - tc)
    requires CruiseSquare(v, 0.0, pd, T, u, d) >= 0.0
    ensures var h := sqrt(CruiseSquare(v, 0.0, pd, T, u, d)); var t0 := UpTime(v, 0.0, T, u, d, h);
      t0 >= 0.0 && T - (t0 + h) >= 0.0 && After(v, u, t0) >= 0.0
  {
    hide CruiseSquare, UpTime, Rise;
    var e := CruiseSquare(v, 0.0, pd, T, u, d);
    var t0 := UpTime(v, 0.0, T, u, d, sqrt(e));
    RootAgainst(v, pd, T, u, d, Rise(v, u, tc) + Rise(c, 0.0, hc) + Rise(c, d, T - hc - tc), c, tc, hc);
    RootOrder(sqrt, e, hc);
    SpeedFalls(v, T, u, d, sqrt(e), t0, c, hc, tc);
    UpTimeMeans(v, 0.0, T, u, d, sqrt(e), t0);
    EndSpeed(v, 0.0, T, u, d, sqrt(e), t0, T - (t0 + sqrt(e)));
    var t2 := T - (t0 + sqrt(e));
    NonNegativeTime(t2, d, After(v, u, t0));
  }

  lemma NonNegativeTime(t: real, d: real, top: real)
    requires d < 0.0 && top >= 0.0 && top + t * d == 0.0
    ensures t >= 0.0
  {
    SameSign(-d, t, 1.0, top);
  }

  /** The speed limit is kept, for the limit does not get one less far. */
  lemma BelowLimit(sqrt: real -> real, v: real, pd: real, T: real, u: real, d: real, vMax: real)
    requires IsSqrt(sqrt) && u > 0.0 > d && v <= vMax && vMax >= 0.0 && NotTooFar(v, 0.0, pd, T, u, d, vMax)
    ensures var h := sqrt(CruiseSquare(v, 0.0, pd, T, u, d)); After(v, u, UpTime(v, 0.0, T, u, d, h)) <= vMax
  {
    var tc, t2 := (vMax - v) / u, (0.0 - vMax) / d;
    FlankTimes(v, 0.0, vMax, u, d);
    var e, hc := CruiseSquare(v, 0.0, pd, T, u, d), HoldTime(v, 0.0, T, u, d, vMax);
    assert hc == T - tc - t2 && T - hc - tc == t2;
    hide CruiseSquare, UpTime, HoldTime;
    if hc >= 0.0 {
      hide After, Rise;
      RootAgainst(v, pd, T, u, d, Cover(v, 0.0, T, u, d, vMax), vMax, tc, hc);
      RootOrder(sqrt, e, hc);
    }
    SpeedFalls(v, T, u, d, sqrt(e), UpTime(v, 0.0, T, u, d, sqrt(e)), vMax, hc, tc);
  }

  /** How far one gets at the present speed and then stopping. */
  function Holding(v: real, T: real, d: real): real
    requires d != 0.0
  {
    Rise(v, 0.0, T - -v / d) + Stopping(v, d)
  }

  function Stopping(v: real, a: real): real
    requires a != 0.0
  {
    Rise(v, a, -v / a)
  }

  lemma StopTime(v: real, a: real)
    requires a != 0.0
    ensures After(v, a, -v / a) == 0.0
  {
    QuotientTimes(-v, a, -v / a);
  }

  /** A target that is not nearer than that is reached upwards. */
  lemma FoundUp(sqrt: real -> real, v: real, pd: real, T: real, vMin: real, vMax: real, u: real, d: real)
    requires IsSqrt(sqrt) && SlackLimits(v, vMax, vMin, u, d)
    requires EnoughTime(v, 0.0, T, u, d) && NotTooFar(v, 0.0, pd, T, u, d, vMax)
    requires pd >= if v >= 0.0 then Holding(v, T, d) else Stopping(v, u)
    ensures UpDownMatches(sqrt, v, 0.0, pd, T, u, d, vMin, vMax)
  {
    BelowLimit(sqrt, v, pd, T, u, d, vMax);
    TimeToStop(v, T, u, d);
    hide CruiseSquare, UpTime;
    if v >= 0.0 {
      var t2 := -v / d;
      StopTime(v, d);
      NoTime(v, u);
      assert T - (T - t2) - 0.0 == t2;
      AboveSpeed(sqrt, v, pd, T, u, d, v, 0.0, T - t2);
    } else {
      var tc := -v / u;
      StopTime(v, u);
      Quotient(-v, u);
      NoTime(0.0, d);
      NoSpeed(T - tc);
      assert T - (T - tc) - tc == 0.0;
      AboveSpeed(sqrt, v, pd, T, u, d, 0.0, tc, T - tc);
    }
  }

  lemma NoSpeed(t: real)
    ensures Rise(0.0, 0.0, t) == 0.0
  {}

  lemma TimeToStop(v: real, T: real, u: real, d: real)
    requires u > 0.0 > d && EnoughTime(v, 0.0, T, u, d)
    ensures v >= 0.0 ==> -v / d <= T
    ensures v < 0.0 ==> -v / u <= T
  {
    StopsBy(v, d, T);
    StopsBy(-v, -u, T);
    QuotientMirrored(-v, u);
  }

  lemma StopsBy(v: real, a: real, T: real)
    requires a < 0.0 && v <= T * -a
    ensures -v / a <= T
  {
    QuotientTimes(-v, a, -v / a);
    SameSign(-a, T - -v / a, 1.0, T * -a - v);
  }

  lemma BrakeShare(v: real, pd: real, T: real, d: real, h1: real, t0: real, tb: real, hold: real)
    requires d != 0.0 && tb * d == -v && h1 == v + d * T
    requires 2.0 * Mul(d, Mul(t0, h1)) == -Sq(0.0 - v) + 2.0 * Mul(d, pd - v * T)
    requires hold == v * (T - tb) + tb * (v + tb * d / 2.0)
    ensures -d * (T - tb) * t0 == hold - pd
  {
    assert h1 == d * (T - tb);
    assert t0 * h1 == d * (t0 * (T - tb));
    assert Sq(0.0 - v) == d * (d * (tb * tb)) by {
      assert (tb * d) * (tb * d) == d * (d * (tb * tb));
    }
    assert v * T == -(d * (tb * T)) && hold == -(d * (tb * T)) + d * (tb * tb) / 2.0 by {
      assert tb * (tb * d) == d * (tb * tb);
    }
    var x, y := d * (t0 * (T - tb)), pd - hold;
    assert d * (pd - v * T) == d * pd - d * (v * T);
    assert d * x == d * y;
    Cancel(d, x, y);
  }

  lemma ShareInTime(v: real, pd: real, T: real, d: real, t0: real, tb: real, hold: real, stop: real)
    requires d < 0.0 && T > tb && tb * d == -v && hold == v * (T - tb) + stop && stop <= pd <= hold
    requires -d * (T - tb) * t0 == hold - pd
    ensures 0.0 <= t0 <= tb && 0.0 <= After(v, d, t0) <= v
  {
    var k := -d * (T - tb);
    Product(-d, T - tb);
    SameSign(k, t0, 1.0, hold - pd);
    assert k * tb == v * (T - tb) by {
      assert k * tb == -(tb * d) * (T - tb);
    }
    assert k * (tb - t0) == k * tb - k * t0;
    SameSign(k, tb - t0, 1.0, pd - stop);
    Product(t0, -d);
    Product(tb - t0, -d);
    assert (tb - t0) * -d == v + t0 * d;
  }

  lemma BrakeGap(v: real, T: real, d: real, tb: real, h1: real)
    requires d < 0.0 && T > tb && tb * d == -v && h1 == -(0.0 - v) + d * T
    ensures h1 < 0.0
  {
    Product(-d, T - tb);
    assert -d * (T - tb) == -h1;
  }

  lemma TwiceBraked(v: real, pd: real, T: real, d: real, tb: real, hold: real, stop: real)
    requires d < 0.0 && T > tb && tb * d == -v && stop <= pd <= hold
    requires hold == v * (T - tb) + stop && stop == tb * (v + tb * d / 2.0)
    ensures var h1 := -(0.0 - v) + d * T;
      h1 != 0.0 && var t0 := UpUpTime(0.0 - v, pd, v, T, d, h1); 0.0 <= t0 <= tb && 0.0 <= After(v, d, t0) <= v
  {
    var h1 := -(0.0 - v) + d * T;
    BrakeGap(v, T, d, tb, h1);
    var t0 := UpUpTime(0.0 - v, pd, v, T, d, h1);
    UpTimeScaled(0.0 - v, pd, v, T, d, h1, t0);
    hide UpUpTime;
    BrakeShare(v, pd, T, d, h1, t0, tb, hold);
    ShareInTime(v, pd, T, d, t0, tb, hold, stop);
  }

  /** A target between where one stops at once and where one stops at the end is reached by braking twice. */
  lemma FoundBetween(v: real, pd: real, T: real, vMin: real, vMax: real, d: real)
    requires vMin <= 0.0 <= v <= vMax && d < 0.0 && -v / d <= T && Stopping(v, d) <= pd < Holding(v, T, d)
    ensures UpUpMatches(v, 0.0, pd, T, d, vMin, vMax)
  {
    var tb := -v / d;
    QuotientTimes(-v, d, tb);
    NoSpeed(T - tb);
    HoldingMeans(v, T, d, tb);
    hide Holding, Stopping;
    TwiceBraked(v, pd, T, d, tb, Holding(v, T, d), Stopping(v, d));
    hide After, UpUpTime;
    assert -(0.0 - v) / d == -tb by {
      QuotientTimes(v, d, v / d);
      Cancel(d, v / d, -tb);
    }
  }

  lemma HoldingMeans(v: real, T: real, d: real, tb: real)
    requires d != 0.0 && tb == -v / d
    ensures Holding(v, T, d) == v * (T - tb) + Stopping(v, d) && Stopping(v, d) == tb * (v + tb * d / 2.0)
    ensures T == tb ==> Holding(v, T, d) == Stopping(v, d)
  {}

  lemma UpDownMirrored(sqrt: real -> real, v: real, pd: real, T: real, u: real, d: real, low: real, high: real)
    requires u != 0.0 && d != 0.0 && u != d && UpDownMatches(sqrt, -v, 0.0, -pd, T, -u, -d, -high, -low)
    ensures UpDownMatches(sqrt, v, 0.0, pd, T, u, d, low, high)
  {
    hide CruiseSquare, UpTime, After, Rise;
    var e := CruiseSquare(v, 0.0, pd, T, u, d);
    CruiseSquareMirrored(v, pd, T, u, d);
    UpTimeMirrored(v, T, u, d, sqrt(e));
    MirroredRise(v, u, UpTime(v, 0.0, T, u, d, sqrt(e)));
  }

  lemma CruiseSquareMirrored(v: real, pd: real, T: real, u: real, d: real)
    requires u != 0.0 && d != 0.0
    ensures CruiseSquare(-v, 0.0, -pd, T, -u, -d) == CruiseSquare(v, 0.0, pd, T, u, d)
  {
    assert (-u) * (-d) == u * d && T * -v == -(T * v) && T * 0.0 == 0.0;
    assert (0.0 - -v) * (0.0 - -v) == (0.0 - v) * (0.0 - v);
    assert (-u) * (-pd - T * 0.0) == u * (pd - T * 0.0) && (-d) * (-pd - T * -v) == d * (pd - T * v);
  }

  lemma UpTimeMirrored(v: real, T: real, u: real, d: real, h: real)
    requires u != 0.0 && u != d
    ensures UpTime(-v, 0.0, T, -u, -d, h) == UpTime(v, 0.0, T, u, d, h)
  {
    assert (-u) * (-u - -d) == u * (u - d);
    assert (-u) * (0.0 - -v) - (-u) * (-d) * (T - h) == u * (0.0 - v) - u * d * (T - h);
  }

  lemma UpUpMirrored(v: real, pd: real, T: real, u: real, low: real, high: real)
    requires u != 0.0 && UpUpMatches(-v, 0.0, -pd, T, -u, -high, -low)
    ensures UpUpMatches(v, 0.0, pd, T, u, low, high)
  {
    hide UpUpTime, After, Rise;
    var h1 := -(0.0 - v) + u * T;
    assert -(0.0 - -v) + -u * T == -h1;
    UpUpTimeMirrored(v, pd, T, u, h1);
    MirroredRise(v, u, UpUpTime(0.0 - v, pd, v, T, u, h1));
    assert -(0.0 - -v) / -u == -(0.0 - v) / u by {
      QuotientMirrored(-(0.0 - v), u);
    }
  }

  lemma UpUpTimeMirrored(v: real, pd: real, T: real, u: real, h1: real)
    requires u != 0.0 && h1 != 0.0
    ensures UpUpTime(0.0 - -v, -pd, -v, T, -u, -h1) == UpUpTime(0.0 - v, pd, v, T, u, h1)
  {
    assert 2.0 * -u * -h1 == 2.0 * u * h1;
    assert -(0.0 - -v) * (0.0 - -v) == -(0.0 - v) * (0.0 - v);
    QuotientMirrored(pd - v * T, h1);
    assert -pd - -v * T == -(pd - v * T);
  }

  lemma FoundForwards(sqrt: real -> real, v: real, pd: real, T: real, vMin: real, vMax: real, aMin: real, aMax: real)
    requires IsSqrt(sqrt) && SlackLimits(v, vMax, vMin, aMax, aMin) && v >= 0.0
    requires EnoughTime(v, 0.0, T, aMax, aMin)
    requires NotTooFar(v, 0.0, pd, T, aMax, aMin, vMax) && NotTooNear(v, 0.0, pd, T, aMax, aMin, vMin)
    ensures SomeMatches(sqrt, v, 0.0, pd, T, vMax, vMin, aMax, aMin)
  {
    hide UpDownMatches, UpUpMatches, Holding, Stopping, NotTooFar;
    if pd >= Holding(v, T, aMin) {
      FoundUp(sqrt, v, pd, T, vMin, vMax, aMax, aMin);
    } else if pd > Stopping(v, aMin) {
      TimeToStop(v, T, aMax, aMin);
      FoundBetween(v, pd, T, vMin, vMax, aMin);
    } else {
      FoundBack(sqrt, v, pd, T, vMin, vMax, aMin, aMax);
    }
  }

  /** A target that is nearer than where one stops at once is reached by going back. */
  lemma FoundBack(sqrt: real -> real, v: real, pd: real, T: real, vMin: real, vMax: real, aMin: real, aMax: real)
    requires IsSqrt(sqrt) && SlackLimits(v, vMax, vMin, aMax, aMin) && v >= 0.0 && pd <= Stopping(v, aMin)
    requires EnoughTime(v, 0.0, T, aMax, aMin) && NotTooNear(v, 0.0, pd, T, aMax, aMin, vMin)
    ensures UpDownMatches(sqrt, v, 0.0, pd, T, aMin, aMax, vMin, vMax)
  {
    StoppingMirrored(v, aMin);
    StoppingAtRest(T, -aMax, -aMin);
    EnoughMirrored(v, 0.0, T, aMax, aMin);
    assert v == 0.0 ==> -v == 0.0;
    assert -0.0 == 0.0;
    hide UpDownMatches, Holding, Stopping, NotTooFar, EnoughTime;
    FoundUp(sqrt, -v, -pd, T, -vMax, -vMin, -aMin, -aMax);
    UpDownMirrored(sqrt, v, pd, T, aMin, aMax, vMin, vMax);
  }

  lemma EnoughMirrored(v: real, vf: real, T: real, u: real, d: real)
    requires EnoughTime(v, vf, T, u, d)
    ensures EnoughTime(-v, -vf, T, -d, -u)
  {
    MirroredRise(v, u, T);
    MirroredRise(v, d, T);
  }

  lemma StoppingMirrored(v: real, a: real)
    requires a != 0.0
    ensures Stopping(-v, -a) == -Stopping(v, a)
  {
    QuotientMirrored(-v, a);
    MirroredRise(v, a, -v / a);
  }

  lemma StoppingAtRest(T: real, d: real, a: real)
    requires d != 0.0 && a != 0.0
    ensures Holding(0.0, T, d) == Stopping(0.0, a) == 0.0
  {
    NoSpeed(T - -0.0 / d);
  }

  /** What is necessary is enough: one of the candidates matches. */
  lemma Sufficient(sqrt: real -> real, v: real, pd: real, T: real, vMin: real, vMax: real, aMin: real, aMax: real)
    requires IsSqrt(sqrt) && SlackLimits(v, vMax, vMin, aMax, aMin) && EnoughTime(v, 0.0, T, aMax, aMin)
    requires NotTooFar(v, 0.0, pd, T, aMax, aMin, vMax) && NotTooNear(v, 0.0, pd, T, aMax, aMin, vMin)
    ensures SomeMatches(sqrt, v, 0.0, pd, T, vMax, vMin, aMax, aMin)
  {
    if v >= 0.0 {
      FoundForwards(sqrt, v, pd, T, vMin, vMax, aMin, aMax);
    } else {
      assert -0.0 == 0.0 && -(-v) == v && -(-pd) == pd && -(-vMin) == vMin && -(-vMax) == vMax;
      assert -(-aMin) == aMin && -(-aMax) == aMax;
      EnoughMirrored(v, 0.0, T, aMax, aMin);
      hide UpDownMatches, UpUpMatches, NotTooFar, EnoughTime;
      FoundForwards(sqrt, -v, -pd, T, -vMax, -vMin, -aMax, -aMin);
      if UpDownMatches(sqrt, -v, 0.0, -pd, T, -aMin, -aMax, -vMax, -vMin) {
        UpDownMirrored(sqrt, v, pd, T, aMin, aMax, vMin, vMax);
      } else if UpUpMatches(-v, 0.0, -pd, T, -aMin, -vMax, -vMin) {
        UpUpMirrored(v, pd, T, aMin, vMin, vMax);
      } else if UpDownMatches(sqrt, -v, 0.0, -pd, T, -aMax, -aMin, -vMax, -vMin) {
        UpDownMirrored(sqrt, v, pd, T, aMax, aMin, vMin, vMax);
      } else {
        UpUpMirrored(v, pd, T, aMax, vMin, vMax);
      }
    }
  }

  // ---------------------------------------------------------------- waiting

  /** At rest one can wait. */
  lemma {:induction false} Waiting(w: seq<Segment>, e: real, v: real, vMin: real, vMax: real, aMin: real, aMax: real)
    requires Within(v, w, vMin, vMax, aMin, aMax) && EndVelocity(v, w) == 0.0 && e >= 0.0 && aMin <= 0.0 <= aMax
    ensures var longer := w + [Segment(e, 0.0)];
      && Within(v, longer, vMin, vMax, aMin, aMax) && EndVelocity(v, longer) == 0.0
      && Displacement(v, longer) == Displacement(v, w) && Duration(longer) == Duration(w) + e
    decreases w
  {
    var wait := [Segment(e, 0.0)];
    if w == [] {
      NoSpeed(e);
      NoPush(0.0, e);
      OneSegment(v, e, 0.0, vMin, vMax, aMin, aMax);
      assert w + wait == wait;
    } else {
      var v1 := After(v, w[0].a, w[0].dt);
      Waiting(w[1..], e, v1, vMin, vMax, aMin, aMax);
      Unfold(v, w[0], w[1..], vMin, vMax, aMin, aMax);
      Unfold(v, w[0], w[1..] + wait, vMin, vMax, aMin, aMax);
      assert w == [w[0]] + w[1..] && w + wait == [w[0]] + (w[1..] + wait);
    }
  }
}
