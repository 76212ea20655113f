/**
 * Which durations lead to a moving target, in closed form: the extremal profiles of position_second_step1.cpp are
 * the durations at which the possible ones begin and end.
 */
module SecondOrderRoots {
  import opened BlockTable
  import opened Kinematics
  import opened Profiles
  import opened RealArithmetic
  import opened SecondOrder
  import opened SecondOrderDurations
  import opened SecondOrderForms
  import opened SecondOrderTargets

  // ---------------------------------------------------------------- the peak for a duration

  /** The peak for which the flanks take all the time. */
  function Peak(v: real, vf: real, T: real, u: real, d: real): real
    requires u != d
  {
    (u * vf - d * v - u * d * T) / (u - d)
  }

  lemma PeakMeans(v: real, vf: real, T: real, u: real, d: real, c: real)
    requires u != d && c == Peak(v, vf, T, u, d)
    ensures Mul(u - d, c) == u * vf - d * v - Mul(u * d, T)
  {
    QuotientTimes(u * vf - d * v - u * d * T, u - d, c);
  }

  lemma HoldMeans(v: real, vf: real, T: real, u: real, d: real, x: real, h: real, c: real)
    requires u > 0.0 > d && h == T - PeakTime(v, vf, u, d, x) && c == Peak(v, vf, T, u, d)
    ensures u * -d * h == (u - d) * (c - x)
  {
    PeakMeans(v, vf, T, u, d, c);
    var t0, t2 := (x - v) / u, (vf - x) / d;
    QuotientTimes(x - v, u, t0);
    QuotientTimes(vf - x, d, t2);
    assert u * -d * t0 == -d * (x - v) by {
      assert u * -d * t0 == -d * (t0 * u);
    }
    assert u * -d * t2 == -(u * (vf - x)) by {
      assert u * -d * t2 == -(u * (t2 * d));
    }
    assert u * -d * h == u * -d * T - u * -d * t0 - u * -d * t2;
  }

  /** More time than the flanks over `x` take means a higher peak, and conversely. */
  lemma PeakOrder(v: real, vf: real, T: real, u: real, d: real, x: real)
    requires u > 0.0 > d
    ensures T >= PeakTime(v, vf, u, d, x) <==> Peak(v, vf, T, u, d) >= x
    ensures T <= PeakTime(v, vf, u, d, x) <==> Peak(v, vf, T, u, d) <= x
  {
    var h, c := T - PeakTime(v, vf, u, d, x), Peak(v, vf, T, u, d);
    HoldMeans(v, vf, T, u, d, x, h, c);
    hide Peak, PeakTime;
    Product(u, -d);
    SignsAgree(u * -d, h, u - d, c - x);
  }

  lemma SignsAgree(k: real, x: real, l: real, y: real)
    requires k > 0.0 && l > 0.0 && k * x == l * y
    ensures (x >= 0.0 <==> y >= 0.0) && (x <= 0.0 <==> y <= 0.0)
  {
    if x >= 0.0 { SameSign(l, y, k, x); }
    if y >= 0.0 { SameSign(k, x, l, y); }
    assert k * -x == -(k * x) && l * -y == -(l * y);
    if x <= 0.0 { SameSign(l, -y, k, -x); }
    if y <= 0.0 { SameSign(k, -x, l, -y); }
  }

  /** The time is enough exactly if the peak is not below either velocity. */
  lemma EnoughExactly(v: real, vf: real, T: real, u: real, d: real)
    requires u > 0.0 > d
    ensures EnoughTime(v, vf, T, u, d) <==> Peak(v, vf, T, u, d) >= Max(v, vf)
  {
    var c := Peak(v, vf, T, u, d);
    PeakMeans(v, vf, T, u, d, c);
    hide Peak;
    assert Mul(u * d, T) == u * (T * d) == d * (T * u);
    assert (u - d) * (c - v) == u * (vf - After(v, d, T));
    assert (u - d) * (c - vf) == -d * (After(v, u, T) - vf);
    SignsAgree(u - d, c - v, u, vf - After(v, d, T));
    SignsAgree(u - d, c - vf, -d, After(v, u, T) - vf);
    if After(v, d, T) <= vf <= After(v, u, T) {
      assert (u - d) * T == After(v, u, T) - After(v, d, T);
      SameSign(u - d, T, 1.0, After(v, u, T) - After(v, d, T));
    }
  }

  // ---------------------------------------------------------------- far enough

  /** With all the time spent on the flanks one gets far enough exactly if the peak has the energy. */
  lemma EnergyAgainst(v: real, vf: real, pd: real, T: real, u: real, d: real)
    requires u > 0.0 > d
    ensures CruiseSquare(v, vf, pd, T, u, d) >= 0.0 <==> Sq(Peak(v, vf, T, u, d)) >= Energy(v, vf, pd, u, d)
  {
    var c, e, E := Peak(v, vf, T, u, d), CruiseSquare(v, vf, pd, T, u, d), Energy(v, vf, pd, u, d);
    PeakMeans(v, vf, T, u, d, c);
    CruiseSquareMeans(v, vf, pd, T, u, d, e);
    EnergyEquation(v, vf, pd, u, d, E);
    NonZeroProduct(u, d);
    EnergyProducts(v, vf, pd, T, u, d, c, e, E);
    SquareSign(u - d);
    SquareSign(u * d);
    SignsOf(Sq(u - d), Sq(c) - E, Sq(u * d), e);
    hide Peak, CruiseSquare, Energy, Sq, Mul;
  }

  lemma SignsOf(k: real, x: real, l: real, y: real)
    requires k > 0.0 && l > 0.0 && Mul(k, x) == Mul(l, y)
    ensures (x >= 0.0 <==> y >= 0.0) && (x <= 0.0 <==> y <= 0.0)
  {
    SignsAgree(k, x, l, y);
  }

  lemma EnergyProducts(v: real, vf: real, pd: real, T: real, u: real, d: real, c: real, e: real, E: real)
    requires Mul(u - d, c) == u * vf - d * v - Mul(u * d, T)
    requires Mul(u * d, e - T * T) == 2.0 * (u * (pd - T * vf)) - 2.0 * (d * (pd - T * v)) + Sq(vf - v)
    requires (u - d) * E == u * (vf * vf) - d * (v * v) - 2.0 * u * d * pd
    ensures Mul(Sq(u - d), Sq(c) - E) == Mul(Sq(u * d), e)
  {
    var W, k, w := u * vf - d * v, u * d, u - d;
    WeightedSquares(u, d, vf, v, W);
    SquareExcess(u, d, vf, v, pd, T, W);
    PeakSquared(w, k, c, W, T);
    EnergyScaled(u, d, v, vf, pd, E);
    RootScaled(k, w, e, T, pd, W, Sq(vf - v));
    assert Sq(w) * (c * c - E) == Sq(Mul(w, c)) - Mul(w, Mul(w, E));
    hide Mul, Sq;
  }

  lemma PeakSquared(w: real, k: real, c: real, W: real, T: real)
    requires Mul(w, c) == W - Mul(k, T)
    ensures Sq(Mul(w, c)) == Sq(W) - 2.0 * Mul(k, Mul(T, W)) + Mul(k, Mul(k, T * T))
  {
    assert (W - k * T) * (W - k * T) == W * W - 2.0 * (k * (T * W)) + k * (k * (T * T));
  }

  lemma EnergyScaled(u: real, d: real, v: real, vf: real, pd: real, E: real)
    requires (u - d) * E == u * (vf * vf) - d * (v * v) - 2.0 * u * d * pd
    ensures Mul(u - d, Mul(u - d, E)) ==
            Mul(u - d, u * Sq(vf) - d * Sq(v)) - 2.0 * Mul(u * d, Mul(u - d, pd))
  {
    assert (u - d) * ((u - d) * E) == (u - d) * (u * (vf * vf) - d * (v * v)) - (u - d) * (2.0 * u * d * pd);
    assert (u - d) * (2.0 * u * d * pd) == 2.0 * ((u * d) * ((u - d) * pd));
  }

  lemma RootScaled(k: real, w: real, e: real, T: real, pd: real, W: real, q: real)
    requires Mul(k, e - T * T) == 2.0 * Mul(w, pd) - 2.0 * Mul(T, W) + q
    ensures Sq(k) * e == Mul(k, Mul(k, T * T)) + 2.0 * Mul(k, Mul(w, pd)) - 2.0 * Mul(k, Mul(T, W)) + Mul(k, q)
  {
    assert k * (k * (e - T * T)) == k * k * e - k * (k * (T * T));
  }

  // ---------------------------------------------------------------- cruising at the limit

  /** A cruise at the limit gets far enough exactly if it lasts as long as the one of the extremal profile. */
  lemma CoverAgainst(v: real, vf: real, pd: real, T: real, u: real, d: real, high: real)
    requires u > 0.0 > d && high > 0.0
    ensures pd <= Cover(v, vf, T, u, d, high) <==>
            HoldTime(v, vf, T, u, d, high) >= CruiseTime(v, vf, pd, high, u, d)
  {
    Acc0Reaches(v, vf, pd, high, u, d);
    var h, t1 := HoldTime(v, vf, T, u, d, high), CruiseTime(v, vf, pd, high, u, d);
    CruiseIsProduct(high, h);
    CruiseIsProduct(high, t1);
    hide HoldTime, CruiseTime, Rise, After;
    assert high * (h - t1) == Cover(v, vf, T, u, d, high) - pd;
    SignsAgree(high, h - t1, 1.0, Cover(v, vf, T, u, d, high) - pd);
  }

  /** That cruise, by the energy above the limit. */
  lemma CruiseEnergy(v: real, vf: real, pd: real, u: real, d: real, high: real)
    requires u > 0.0 > d && high > 0.0
    ensures Mul(2.0 * (u * -d), Mul(high, CruiseTime(v, vf, pd, high, u, d)))
              == Mul(u - d, Energy(v, vf, pd, u, d) - Sq(high))
  {
    CruiseDistance(v, vf, pd, high, u, d);
    EnergyEquation(v, vf, pd, u, d, Energy(v, vf, pd, u, d));
    hide CruiseTime, Energy;
  }

  lemma CruiseSign(v: real, vf: real, pd: real, u: real, d: real, high: real)
    requires u > 0.0 > d && high > 0.0
    ensures CruiseTime(v, vf, pd, high, u, d) >= 0.0 <==> Energy(v, vf, pd, u, d) >= Sq(high)
    ensures CruiseTime(v, vf, pd, high, u, d) <= 0.0 <==> Energy(v, vf, pd, u, d) <= Sq(high)
  {
    var t1, e := CruiseTime(v, vf, pd, high, u, d), Energy(v, vf, pd, u, d) - Sq(high);
    CruiseEnergy(v, vf, pd, u, d, high);
    Product(u, -d);
    hide CruiseTime, Energy, Sq;
    SignsOf(2.0 * (u * -d), Mul(high, t1), u - d, e);
    SignsAgree(high, t1, 1.0, Mul(high, t1));
  }

  /** Who has time for the cruise at the limit has time for the energy. */
  lemma CruisePeak(v: real, vf: real, pd: real, T: real, u: real, d: real, high: real)
    requires u > 0.0 > d && high > 0.0
    requires T >= PeakTime(v, vf, u, d, high) + CruiseTime(v, vf, pd, high, u, d)
    ensures Sq(Peak(v, vf, T, u, d)) >= Energy(v, vf, pd, u, d)
  {
    var h, t1 := T - PeakTime(v, vf, u, d, high), CruiseTime(v, vf, pd, high, u, d);
    var c, e := Peak(v, vf, T, u, d), Energy(v, vf, pd, u, d);
    HoldMeans(v, vf, T, u, d, high, h, c);
    CruiseEnergy(v, vf, pd, u, d, high);
    Product(u, -d);
    hide PeakTime, CruiseTime, Peak, Energy;
    MorePeak(u * -d, u - d, high, h, t1, c, e - Sq(high));
    SquareSign(c - high);
    assert Sq(c) == Sq(c - high) + 2.0 * (high * (c - high)) + Sq(high);
  }

  lemma MorePeak(k: real, w: real, high: real, h: real, t1: real, c: real, e: real)
    requires k > 0.0 && w > 0.0 && high > 0.0 && h >= t1
    requires k * h == w * (c - high) && Mul(2.0 * k, Mul(high, t1)) == Mul(w, e)
    ensures 2.0 * (high * (c - high)) >= e
  {
    Product(high, h - t1);
    Product(2.0 * k, high * (h - t1));
    assert high * (k * h) == high * (w * (c - high));
    assert w * (2.0 * (high * (c - high)) - e) == 2.0 * k * (high * (h - t1));
    SameSign(w, 2.0 * (high * (c - high)) - e, 1.0, 2.0 * k * (high * (h - t1)));
  }

  // ---------------------------------------------------------------- one direction

  /** The extremal profile with the higher peak: without cruise, or with one at the limit. */
  function LongerTime(sqrt: real -> real, v: real, vf: real, pd: real, u: real, d: real, high: real): real
    requires u != 0.0 && d != 0.0 && u != d && high != 0.0
  {
    var s := sqrt(Energy(v, vf, pd, u, d));
    if s <= high then PeakTime(v, vf, u, d, s)
    else PeakTime(v, vf, u, d, high) + CruiseTime(v, vf, pd, high, u, d)
  }

  /** The extremal profile with the lower peak. */
  function ShorterTime(sqrt: real -> real, v: real, vf: real, pd: real, u: real, d: real): real
    requires u != 0.0 && d != 0.0 && u != d
  {
    PeakTime(v, vf, u, d, -sqrt(Energy(v, vf, pd, u, d)))
  }

  /** The two profiles leave out the durations between them. */
  predicate Outside(sqrt: real -> real, v: real, vf: real, pd: real, T: real, u: real, d: real, high: real)
    requires u != 0.0 && d != 0.0 && u != d && high != 0.0
  {
    || Energy(v, vf, pd, u, d) < 0.0
    || T <= ShorterTime(sqrt, v, vf, pd, u, d) || T >= LongerTime(sqrt, v, vf, pd, u, d, high)
  }

  lemma RootBounds(s: real, e: real, high: real)
    requires s >= 0.0 && Sq(s) == e && high > 0.0
    ensures s < high ==> e < Sq(high)
    ensures s == high ==> e == Sq(high)
    ensures s > high ==> e > Sq(high)
  {
    if s < high { SquareGrows(s, high); }
    if s > high { SquareGrows(high, s); }
  }

  lemma SquareAgainst(c: real, s: real, e: real)
    requires s >= 0.0 && Sq(s) == e
    ensures Sq(c) >= e <==> c <= -s || c >= s
  {
    var x := if c < 0.0 then -c else c;
    assert x * x == c * c;
    if x < s {
      SquareGrows(x, s);
    } else {
      SquareOrder(s, x);
    }
  }

  lemma FarExactly(sqrt: real -> real, v: real, vf: real, pd: real, T: real, u: real, d: real, high: real)
    requires IsSqrt(sqrt) && u > 0.0 > d && high > 0.0
    ensures NotTooFar(v, vf, pd, T, u, d, high) <==> Outside(sqrt, v, vf, pd, T, u, d, high)
  {
    var c, e := Peak(v, vf, T, u, d), Energy(v, vf, pd, u, d);
    EnergyAgainst(v, vf, pd, T, u, d);
    CoverAgainst(v, vf, pd, T, u, d, high);
    CruiseSign(v, vf, pd, u, d, high);
    PeakOrder(v, vf, T, u, d, high);
    assert HoldTime(v, vf, T, u, d, high) == T - PeakTime(v, vf, u, d, high);
    hide Peak, Energy, CruiseSquare, Cover, HoldTime, CruiseTime, PeakTime;
    SquareSign(c);
    SquareSign(high);
    if e >= 0.0 {
      var s := sqrt(e);
      assert s * s == Sq(s);
      SquareAgainst(c, s, e);
      RootBounds(s, e, high);
      PeakOrder(v, vf, T, u, d, -s);
      PeakOrder(v, vf, T, u, d, s);
      if s > high && T >= PeakTime(v, vf, u, d, high) + CruiseTime(v, vf, pd, high, u, d) {
        CruisePeak(v, vf, pd, T, u, d, high);
      }
      hide Sq;
    }
  }

  /** Where the peak without cruise lies: the check lets it be above the limit by its tolerance. */
  function PlaceOf(s: real, high: real): Place {
    if s < high then Below else if s <= high + V_EPS then AtLimit else Above
  }

  /** The extremal profiles of one direction. */
  function WayOf(sqrt: real -> real, v: real, vf: real, pd: real, u: real, d: real, high: real): Way
    requires u != 0.0 && d != 0.0 && u != d && high != 0.0
  {
    var e := Energy(v, vf, pd, u, d);
    var s := sqrt(e);
    var peak, last := PeakTime(v, vf, u, d, s), LongerTime(sqrt, v, vf, pd, u, d, high);
    if e < 0.0 || s < Max(v, vf) then Nothing
    else if -s < Max(v, vf) then One(peak, last, PlaceOf(s, high))
    else Two(ShorterTime(sqrt, v, vf, pd, u, d), peak, last, PlaceOf(s, high))
  }

  lemma PeaksApart(v: real, vf: real, u: real, d: real, s: real)
    requires u > 0.0 > d && s >= 0.0
    ensures PeakTime(v, vf, u, d, -s) <= PeakTime(v, vf, u, d, s)
    ensures s > 0.0 ==> PeakTime(v, vf, u, d, -s) < PeakTime(v, vf, u, d, s)
  {
    PeakOrder(v, vf, PeakTime(v, vf, u, d, s), u, d, s);
    PeakOrder(v, vf, PeakTime(v, vf, u, d, s), u, d, -s);
    hide Peak, PeakTime;
  }

  lemma LastPeak(sqrt: real -> real, v: real, vf: real, pd: real, T: real, u: real, d: real, high: real)
    requires IsSqrt(sqrt) && u > 0.0 > d && high > 0.0 && Energy(v, vf, pd, u, d) >= 0.0
    ensures T >= LongerTime(sqrt, v, vf, pd, u, d, high) ==> Peak(v, vf, T, u, d) >= sqrt(Energy(v, vf, pd, u, d))
    ensures var s := sqrt(Energy(v, vf, pd, u, d));
      && PeakTime(v, vf, u, d, s) <= LongerTime(sqrt, v, vf, pd, u, d, high)
      && ShorterTime(sqrt, v, vf, pd, u, d) <= PeakTime(v, vf, u, d, s)
      && (s > 0.0 ==> ShorterTime(sqrt, v, vf, pd, u, d) < PeakTime(v, vf, u, d, s))
  {
    var L := LongerTime(sqrt, v, vf, pd, u, d, high);
    var e := Energy(v, vf, pd, u, d);
    var s := sqrt(e);
    assert s * s == Sq(s);
    RootBounds(s, e, high);
    CruiseSign(v, vf, pd, u, d, high);
    PeakOrder(v, vf, T, u, d, s);
    PeakOrder(v, vf, T, u, d, high);
    PeakOrder(v, vf, L, u, d, s);
    PeakOrder(v, vf, L, u, d, high);
    PeaksApart(v, vf, u, d, s);
    hide Peak, Energy, CruiseTime, PeakTime;
    if s > high {
      CruisePeak(v, vf, pd, L, u, d, high);
      SquareAgainst(Peak(v, vf, L, u, d), s, e);
      if T >= L {
        CruisePeak(v, vf, pd, T, u, d, high);
        SquareAgainst(Peak(v, vf, T, u, d), s, e);
      }
    }
    hide Sq;
  }

  /** The profiles say exactly how far one gets, and one alone says whether the time is enough. */
  lemma WayBounds(sqrt: real -> real, v: real, vf: real, pd: real, T: real, u: real, d: real, high: real)
    requires IsSqrt(sqrt) && u > 0.0 > d && high > 0.0 && Max(v, vf) <= high
    ensures var w := WayOf(sqrt, v, vf, pd, u, d, high);
      && (EnoughTime(v, vf, T, u, d) ==> (Outside(sqrt, v, vf, pd, T, u, d, high) <==> WayAllows(w, T)))
      && (w.One? && WayAllows(w, T) ==> EnoughTime(v, vf, T, u, d)) && Sound(w)
  {
    var e := Energy(v, vf, pd, u, d);
    EnoughExactly(v, vf, T, u, d);
    if e >= 0.0 {
      LastPeak(sqrt, v, vf, pd, T, u, d, high);
      PeakOrder(v, vf, T, u, d, sqrt(e));
      PeakOrder(v, vf, T, u, d, -sqrt(e));
    }
    hide Energy, Peak, EnoughTime, PeakTime, CruiseTime;
  }

  // ---------------------------------------------------------------- both directions

  /** What one direction has more, the other has less. */
  lemma EnergiesAdd(v: real, vf: real, pd: real, u: real, d: real)
    requires u > 0.0 > d
    ensures Energy(v, vf, pd, u, d) + Energy(-v, -vf, -pd, -d, -u) == Sq(v) + Sq(vf)
  {
    var x, y := Energy(v, vf, pd, u, d), Energy(-v, -vf, -pd, -d, -u);
    EnergyEquation(v, vf, pd, u, d, x);
    EnergyEquation(-v, -vf, -pd, -d, -u, y);
    hide Energy;
    assert (-vf) * (-vf) == vf * vf && (-v) * (-v) == v * v && 2.0 * -d * -u * -pd == -(2.0 * u * d * pd);
    assert (u - d) * (x + y) == (u - d) * (Sq(v) + Sq(vf));
    Cancel(u - d, x + y, Sq(v) + Sq(vf));
  }

  lemma MaxSquares(v: real, vf: real)
    ensures Sq(Max(v, vf)) + Sq(Max(-v, -vf)) == Sq(v) + Sq(vf)
  {
    assert (-v) * (-v) == v * v && (-vf) * (-vf) == vf * vf;
  }

  lemma WayByEnergy(sqrt: real -> real, v: real, vf: real, pd: real, u: real, d: real, high: real)
    requires IsSqrt(sqrt) && u > 0.0 > d && high > 0.0
    ensures var e, m, w := Energy(v, vf, pd, u, d), Max(v, vf), WayOf(sqrt, v, vf, pd, u, d, high);
      && (w == Nothing ==> e < Sq(m)) && (w.Two? ==> m <= 0.0 && e <= Sq(m))
      && (e > Sq(m) ==> w.One?) && (e >= Sq(m) && m > 0.0 ==> w.One?)
      && (w.One? ==> e >= Sq(m) && (e == Sq(m) ==> sqrt(e) == m))
  {
    var e, m := Energy(v, vf, pd, u, d), Max(v, vf);
    SquareSign(m);
    if e >= 0.0 {
      assert sqrt(e) * sqrt(e) == Sq(sqrt(e));
      SquareAgainst(m, sqrt(e), e);
      assert (-m) * (-m) == m * m;
      SquareAgainst(-m, sqrt(e), e);
    }
    hide Energy, Sq;
  }

  /**
   * Not both directions lack an extremal profile, nor do both have two, unless there is no motion at all; if both
   * have one, its peak is start or target.
   */
  lemma WaysTogether(sqrt: real -> real, v: real, vf: real, pd: real, u: real, d: real, low: real, high: real)
    requires IsSqrt(sqrt) && u > 0.0 > d && low < 0.0 < high && (v != 0.0 || vf != 0.0)
    ensures var x, y := WayOf(sqrt, v, vf, pd, u, d, high), WayOf(sqrt, -v, -vf, -pd, -d, -u, -low);
      && (x.One? || y.One?)
      && (x.One? && y.One? ==>
            && sqrt(Energy(v, vf, pd, u, d)) == Max(v, vf)
            && sqrt(Energy(-v, -vf, -pd, -d, -u)) == Max(-v, -vf))
  {
    EnergiesAdd(v, vf, pd, u, d);
    MaxSquares(v, vf);
    WayByEnergy(sqrt, v, vf, pd, u, d, high);
    WayByEnergy(sqrt, -v, -vf, -pd, -d, -u, -low);
    hide WayOf, Energy, Sq;
  }
}
