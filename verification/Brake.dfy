/** Bringing a state back inside the limits before a profile starts: brake.cpp and brake.hpp. */
module Brake {
  import opened Kinematics
  import opened Profiles
  import opened RealArithmetic

  const BRAKE_EPS := 0.000000000000022

  function VAtT(v0: real, a0: real, j: real, t: real): real {
    v0 + Rise(a0, j, t)
  }

  function VAtAZero(v0: real, a0: real, j: real): real
    requires j != 0.0
  {
    v0 + a0 * a0 / (2.0 * j)
  }

  /** How long jerk `-jMax` takes from acceleration `a0` to `a`. */
  function TimeDown(a0: real, a: real, jMax: real): real
    requires jMax != 0.0
  {
    (a0 - a) / jMax
  }

  /** A square root that is only asked for where there is one. */
  function Root(sqrt: real -> real, x: real): real
    requires x >= 0.0
  {
    sqrt(x)
  }

  function ToVMaxSquare(v0: real, a0: real, vMax: real, jMax: real): real {
    a0 * a0 + 2.0 * jMax * (v0 - vMax)
  }

  function ToVMinSquare(v0: real, a0: real, vMin: real, jMax: real): real {
    a0 * a0 / 2.0 + jMax * (v0 - vMin)
  }

  predicate RootsExist(v0: real, a0: real, vMax: real, vMin: real, jMax: real) {
    ToVMaxSquare(v0, a0, vMax, jMax) >= 0.0 && ToVMinSquare(v0, a0, vMin, jMax) >= 0.0
  }

  /** The earlier of the two times at which the velocity, or the velocity once stopped, meets its limit. */
  function TMinToVMax(sqrt: real -> real, v0: real, a0: real, vMax: real, vMin: real, jMax: real): real
    requires jMax != 0.0 && RootsExist(v0, a0, vMax, vMin, jMax)
  {
    Min(TimeDown(a0, 0.0, jMax) + Root(sqrt, ToVMaxSquare(v0, a0, vMax, jMax)) / Abs(jMax),
        TimeDown(a0, 0.0, jMax) + Root(sqrt, ToVMinSquare(v0, a0, vMin, jMax)) / Abs(jMax))
  }

  /** How long a constant `aMin` is held after `aMin` has been reached. */
  function HoldTime(v0: real, a0: real, vMax: real, vMin: real, aMin: real, jMax: real): real
    requires jMax != 0.0 && aMin != 0.0
  {
    var v := VAtT(v0, a0, -jMax, TimeDown(a0, aMin, jMax));
    Max(Min(-(v - vMax) / aMin, aMin / (2.0 * jMax) - (v - vMin) / aMin), 0.0)
  }

  /** The two braking times of `velocity_brake`. */
  function VelocityBrakeTimes(sqrt: real -> real, v0: real, a0: real, vMax: real, vMin: real, aMin: real,
                              jMax: real): (real, real)
    requires jMax != 0.0 && aMin != 0.0 && RootsExist(v0, a0, vMax, vMin, jMax)
  {
    var tToAMin := TimeDown(a0, aMin, jMax);
    var tMin := TMinToVMax(sqrt, v0, a0, vMax, vMin, jMax);
    if tToAMin < tMin then (Max(tToAMin - BRAKE_EPS, 0.0), HoldTime(v0, a0, vMax, vMin, aMin, jMax))
    else (Max(tMin - BRAKE_EPS, 0.0), 0.0)
  }

  /** Whether the velocity will exceed its limit even under full braking; the sign of the jerk says which limit. */
  predicate TooFast(v0: real, a0: real, vMax: real, jMax: real)
    requires jMax != 0.0
  {
    var v := VAtT(v0, a0, -jMax, TimeDown(a0, 0.0, jMax));
    (v > vMax && jMax > 0.0) || (v < vMax && jMax < 0.0)
  }

  predicate TooSlow(v0: real, a0: real, vMin: real, aMax: real, jMax: real)
    requires jMax != 0.0
  {
    var v := VAtT(v0, a0, -jMax, TimeDown(a0, aMax, jMax));
    (v < vMin && jMax > 0.0) || (v > vMin && jMax < 0.0)
  }

  function ClimbTime(v0: real, a0: real, vMax: real, vMin: real, aMax: real, jMax: real): real
    requires jMax != 0.0 && aMax != 0.0
  {
    var v := VAtT(v0, a0, -jMax, TimeDown(a0, aMax, jMax));
    Max(Min(-(v - vMin) / aMax, -aMax / (2.0 * jMax) - (v - vMax) / aMax - BRAKE_EPS), 0.0)
  }

  function AccelerationBrakeTimes(sqrt: real -> real, v0: real, a0: real, vMax: real, vMin: real, aMax: real,
                                  aMin: real, jMax: real)
    : (real, real)
    requires jMax != 0.0 && aMax != 0.0 && aMin != 0.0
    requires TooFast(v0, a0, vMax, jMax) ==> RootsExist(v0, a0, vMax, vMin, jMax)
  {
    if TooFast(v0, a0, vMax, jMax) then VelocityBrakeTimes(sqrt, v0, a0, vMax, vMin, aMin, jMax)
    else if TooSlow(v0, a0, vMin, aMax, jMax) then
      (TimeDown(a0, aMax, jMax) + BRAKE_EPS, ClimbTime(v0, a0, vMax, vMin, aMax, jMax))
    else (TimeDown(a0, aMax, jMax) + BRAKE_EPS, 0.0)
  }

  // ---------------------------------------------------------------- what braking achieves

  predicate Limits(vMax: real, vMin: real, aMax: real, aMin: real, j: real) {
    j > 0.0 && vMin <= vMax && aMin < 0.0 < aMax && j * BRAKE_EPS < aMax && j * BRAKE_EPS < -aMin
  }

  /** Taking the acceleration `a` back to zero with jerk `j` leaves the velocity at `vMin` or above. */
  predicate StaysAbove(v: real, a: real, j: real, vMin: real)
    requires j > 0.0
  {
    a <= 0.0 ==> v - a * a / (2.0 * j) >= vMin
  }

  predicate StaysBelow(v: real, a: real, j: real, vMax: real)
    requires j > 0.0
  {
    a >= 0.0 ==> v + a * a / (2.0 * j) <= vMax
  }

  /** The velocity once the acceleration `a` has been taken to zero with jerk `j`, up or down. */
  function Stopped(v: real, a: real, j: real): real
    requires j > 0.0
  {
    if a >= 0.0 then v + a * a / (2.0 * j) else v - a * a / (2.0 * j)
  }

  /** The velocity is above `vMax`, or will be once stopped, and stopping does not yet lead down to `vMin`. */
  predicate Excessive(v: real, a: real, vMax: real, vMin: real, j: real)
    requires j > 0.0
  {
    (v > vMax || Stopped(v, a, j) > vMax) && Stopped(v, a, j) > vMin
  }

  /**
   * What braking a too high velocity achieves, up to rounding: the acceleration is not positive, and held only at
   * its limit; the velocity does not fall below `vMax`, and is at `vMax`, unless `vMin` could not be kept any more
   * otherwise, being where stopping now leads.
   */
  predicate Slowed(v: real, a: real, vMax: real, vMin: real, aMin: real, j: real, t1: real)
    requires j > 0.0
  {
    && a <= j * BRAKE_EPS && (t1 > 0.0 ==> a <= aMin + j * BRAKE_EPS)
    && v >= vMax - j * BRAKE_EPS * BRAKE_EPS
    && (|| v <= vMax + (j * t1 - aMin) * BRAKE_EPS
        || v - a * a / (2.0 * j) <= vMin + (j * t1 - 2.0 * aMin) * BRAKE_EPS)
  }

  /**
   * What taking down a too high acceleration achieves: it is just inside its limit, and held there until the
   * velocity has reached `vMin` or stopping leads to `vMax`, and not beyond `vMin`.
   */
  predicate Eased(v: real, a: real, vMax: real, vMin: real, aMax: real, j: real, t1: real)
    requires j > 0.0
  {
    && a == aMax - j * BRAKE_EPS
    && (v >= vMin - j * t1 * BRAKE_EPS || v + a * a / (2.0 * j) >= vMax - (j * t1 + aMax) * BRAKE_EPS)
    && (t1 > 0.0 ==> v <= vMin + aMax * BRAKE_EPS)
  }

  /**
   * What braking downwards has made of velocity `v0` and acceleration `a0`: it has not been overdone; a too high
   * acceleration that could be undone without exceeding `vMax` still can; and it has achieved its aim.
   */
  predicate Relieved(v0: real, a0: real, v: real, a: real, vMax: real, vMin: real, aMax: real, aMin: real, j: real,
                     t1: real)
    requires j > 0.0
  {
    && StaysAbove(v, a, j, vMin)
    && if a0 > aMax && StaysBelow(v0, a0, j, vMax) then
         StaysBelow(v, a, j, vMax) && Eased(v, a, vMax, vMin, aMax, j, t1)
       else Slowed(v, a, vMax, vMin, aMin, j, t1)
  }

  /** After `t0` at jerk `-j` and `t1` without jerk the acceleration is inside its limits and the aim achieved. */
  predicate Lands(v0: real, a0: real, vMax: real, vMin: real, aMax: real, aMin: real, j: real, t0: real, t1: real)
    requires j > 0.0
  {
    var a := After(a0, -j, t0);
    && t0 >= 0.0 && t1 >= 0.0 && aMin <= a <= aMax
    && Relieved(v0, a0, v0 + Rise(a0, -j, t0) + Rise(a, 0.0, t1), a, vMax, vMin, aMax, aMin, j, t1)
  }

  lemma AboveByProducts(v: real, a: real, j: real, vMin: real)
    requires j > 0.0 && (a <= 0.0 ==> Mul(2.0 * j, v) - Sq(a) >= Mul(2.0 * j, vMin))
    ensures StaysAbove(v, a, j, vMin)
  {
    var q, k := a * a / (2.0 * j), 2.0 * j;
    assert q * k == a * a;
    assert k * (v - q) == k * v - a * a;
    if a <= 0.0 && v - q < vMin {
      TimesLess(v - q, vMin, k);
    }
  }

  lemma BelowByProducts(v: real, a: real, j: real, vMax: real)
    requires j > 0.0 && a >= 0.0
    ensures StaysBelow(v, a, j, vMax) <==> Mul(2.0 * j, v) + Sq(a) <= Mul(2.0 * j, vMax)
  {
    var q, k := a * a / (2.0 * j), 2.0 * j;
    assert q * k == a * a;
    assert k * (v + q) == k * v + a * a;
    if v + q <= vMax {
      TimesOrder(v + q, vMax, k);
    } else {
      TimesLess(vMax, v + q, k);
    }
  }

  /** Under jerk `-j` the velocity gained is the loss of squared acceleration. */
  lemma VelocityGained(a0: real, j: real, t: real, a: real)
    requires a == After(a0, -j, t)
    ensures Mul(2.0 * j, Rise(a0, -j, t)) == Sq(a0) - Sq(a)
  {
    RiseEnergy(a0, -j, t);
  }

  lemma TimeTo(a0: real, j: real, a: real)
    requires j != 0.0
    ensures After(a0, -j, TimeDown(a0, a, j)) == a
    ensures Mul(2.0 * j, Rise(a0, -j, TimeDown(a0, a, j))) == Sq(a0) - Sq(a)
  {
    var t := TimeDown(a0, a, j);
    assert After(a0, -j, t) == a;
    VelocityGained(a0, j, t, a);
  }

  /** More time under jerk `-j` means less acceleration. */
  lemma AfterFalls(a0: real, j: real, t: real, s: real)
    requires j > 0.0
    ensures t <= s ==> After(a0, -j, t) >= After(a0, -j, s)
    ensures After(a0, -j, t + s) == After(a0, -j, t) - j * s
  {
    if t <= s {
      Product(s - t, j);
      assert After(a0, -j, t) - After(a0, -j, s) == (s - t) * j;
    }
  }

  // ---------------------------------------------------------------- braking from too high a velocity

  /** The root under the second square root is the fastest deceleration that can still be undone in time. */
  lemma StopsInTime(v0: real, a0: real, vMin: real, j: real, t: real, a: real, s: real)
    requires j > 0.0 && a == After(a0, -j, t) && s >= 0.0 && Sq(s) == ToVMinSquare(v0, a0, vMin, j)
    requires a <= 0.0 ==> -s <= a
    ensures StaysAbove(v0 + Rise(a0, -j, t), a, j, vMin)
  {
    VelocityGained(a0, j, t, a);
    SquareByProducts(v0, a0, vMin, j);
    if a <= 0.0 {
      SquaresOrdered(a, s);
    }
    Distribute(2.0 * j, v0, Rise(a0, -j, t));
    hide After, Rise, Mul, Sq, StaysAbove, ToVMinSquare;
    AboveByProducts(v0 + Rise(a0, -j, t), a, j, vMin);
  }

  lemma SquareByProducts(v0: real, a0: real, vMin: real, j: real)
    ensures 2.0 * ToVMinSquare(v0, a0, vMin, j) == Sq(a0) + Mul(2.0 * j, v0) - Mul(2.0 * j, vMin)
  {}

  lemma SquaresOrdered(a: real, s: real)
    requires -s <= a <= 0.0
    ensures Sq(a) <= Sq(s)
  {
    SquareOrder(-a, s);
    assert (-a) * (-a) == a * a;
  }

  lemma Distribute(k: real, x: real, y: real)
    ensures Mul(k, x + y) == Mul(k, x) + Mul(k, y)
  {}

  /** The time held is at most what takes the velocity from that at `aMin` to where it can still be stopped. */
  lemma HoldTimeBound(v0: real, a0: real, vMax: real, vMin: real, aMin: real, j: real) returns (half: real, rest: real)
    requires j > 0.0 && aMin < 0.0 && HoldTime(v0, a0, vMax, vMin, aMin, j) > 0.0
    ensures HoldTime(v0, a0, vMax, vMin, aMin, j) <= half - rest
    ensures Mul(half, 2.0 * j) == aMin
    ensures Mul(rest, aMin) == v0 + Rise(a0, -j, TimeDown(a0, aMin, j)) - vMin
  {
    half := aMin / (2.0 * j);
    rest := (VAtT(v0, a0, -j, TimeDown(a0, aMin, j)) - vMin) / aMin;
    hide Rise, TimeDown;
  }

  lemma HoldSpeed(t1: real, a: real, aMin: real, half: real, rest: real)
    requires aMin <= a <= 0.0 && 0.0 < t1 <= half - rest
    ensures Rise(a, 0.0, t1) >= Mul(half, aMin) - Mul(rest, aMin)
  {
    TimesOrder(aMin, a, t1);
    TimesOrder(t1, half - rest, -aMin);
    var hold := half - rest;
    assert hold * -aMin == -(half * aMin) + rest * aMin && t1 * -aMin == -(t1 * aMin);
    assert Rise(a, 0.0, t1) == t1 * a;
  }

  lemma HoldHalf(half: real, k: real, aMin: real)
    requires Mul(half, k) == aMin
    ensures Mul(k, Mul(half, aMin)) == Sq(aMin)
  {
    assert k * (half * aMin) == (half * k) * aMin;
  }

  lemma HoldSum(k: real, v0: real, vMin: real, x: real, y: real, g: real, h: real, a0a0: real, mm: real, aa: real)
    requires k > 0.0 && g >= h - (v0 + x - vMin) && Mul(k, h) == mm && Mul(k, x) == a0a0 - mm && Mul(k, y) == a0a0 - aa
    requires aa <= mm
    ensures Mul(k, v0 + y + g) - aa >= Mul(k, vMin)
  {
    TimesOrder(h - (v0 + x - vMin), g, k);
    assert k * (h - (v0 + x - vMin)) == k * h - k * v0 - k * x + k * vMin;
  }

  /** Holding `a` for `t1` keeps enough velocity to stop at `vMin`. */
  lemma HoldStopsInTime(v0: real, a0: real, vMax: real, vMin: real, aMin: real, j: real, t: real, a: real, t1: real)
    requires j > 0.0 && aMin < 0.0 && a == After(a0, -j, t) && aMin <= a <= 0.0
    requires t1 == HoldTime(v0, a0, vMax, vMin, aMin, j) > 0.0
    ensures StaysAbove(v0 + Rise(a0, -j, t) + Rise(a, 0.0, t1), a, j, vMin)
  {
    hide After, Rise, HoldTime, TimeDown, Mul, Sq, StaysAbove;
    var tA := TimeDown(a0, aMin, j);
    var half, rest := HoldTimeBound(v0, a0, vMax, vMin, aMin, j);
    TimeTo(a0, j, aMin);
    VelocityGained(a0, j, t, a);
    HoldHalf(half, 2.0 * j, aMin);
    SquaresOrdered(a, -aMin);
    SquareOfNegative(aMin);
    HoldSpeed(t1, a, aMin, half, rest);
    HoldSum(2.0 * j, v0, vMin, Rise(a0, -j, tA), Rise(a0, -j, t), Rise(a, 0.0, t1), Mul(half, aMin), Sq(a0), Sq(aMin),
            Sq(a));
    AboveByProducts(v0 + Rise(a0, -j, t) + Rise(a, 0.0, t1), a, j, vMin);
  }

  lemma SquareOfNegative(x: real)
    ensures Sq(-x) == Sq(x)
  {}

  /** The two times of the square roots: the velocity is at its limit, and where stopping leads to `vMin`. */
  lemma RootTimes(sqrt: real -> real, v0: real, a0: real, vMax: real, vMin: real, j: real)
    returns (r: real, tX: real, s: real, tN: real)
    requires IsSqrt(sqrt) && j > 0.0 && RootsExist(v0, a0, vMax, vMin, j)
    ensures r >= 0.0 && Sq(r) == ToVMaxSquare(v0, a0, vMax, j) && tX == TimeDown(a0, -r, j)
    ensures s >= 0.0 && Sq(s) == ToVMinSquare(v0, a0, vMin, j) && tN == TimeDown(a0, -s, j)
    ensures TMinToVMax(sqrt, v0, a0, vMax, vMin, j) == Min(tX, tN)
  {
    r, s := sqrt(ToVMaxSquare(v0, a0, vMax, j)), sqrt(ToVMinSquare(v0, a0, vMin, j));
    tX, tN := TimeDown(a0, -r, j), TimeDown(a0, -s, j);
    TimeFurther(a0, r, j);
    TimeFurther(a0, s, j);
    hide TimeDown;
  }

  lemma TimeFurther(a0: real, r: real, j: real)
    requires j != 0.0
    ensures TimeDown(a0, 0.0, j) + r / j == TimeDown(a0, -r, j)
  {
    var x, y, z := TimeDown(a0, 0.0, j), r / j, TimeDown(a0, -r, j);
    assert x * j == a0 && y * j == r && z * j == a0 + r;
    Cancel(j, x + y, z);
  }

  /** The time of the second square root is when the deceleration becomes `-s`; the first is not before zero. */
  lemma TMinRange(sqrt: real -> real, v0: real, a0: real, vMax: real, vMin: real, j: real) returns (s: real, tV: real)
    requires IsSqrt(sqrt) && j > 0.0 && RootsExist(v0, a0, vMax, vMin, j)
    ensures s >= 0.0 && Sq(s) == ToVMinSquare(v0, a0, vMin, j)
    ensures TimeDown(a0, 0.0, j) <= TMinToVMax(sqrt, v0, a0, vMax, vMin, j) <= tV
    ensures After(a0, -j, tV) == -s
  {
    var r, tX;
    r, tX, s, tV := RootTimes(sqrt, v0, a0, vMax, vMin, j);
    TimeFurther(a0, r, j);
    TimeFurther(a0, s, j);
    Quotient(s, j);
    Quotient(r, j);
    TimeTo(a0, j, -s);
    hide TMinToVMax, TimeDown, RootsExist;
  }

  /** Shortened by `eps`, or not begun, a brake towards `aMin` ends within `j * eps` above it. */
  lemma NearlyThere(a0: real, j: real, t: real, target: real)
    requires j > 0.0 && After(a0, -j, t) <= target
    ensures After(a0, -j, Max(t - BRAKE_EPS, 0.0)) <= target + j * BRAKE_EPS
    ensures After(a0, -j, t) == target && target <= a0 ==> target <= After(a0, -j, Max(t - BRAKE_EPS, 0.0))
  {
    AfterFalls(a0, j, t - BRAKE_EPS, BRAKE_EPS);
    AfterFalls(a0, j, t, BRAKE_EPS);
    AfterFalls(a0, j, 0.0, BRAKE_EPS);
    AfterFalls(a0, j, Max(t - BRAKE_EPS, 0.0), t);
    NoTime(a0, -j);
    hide After;
  }

  /** Under jerk `-j`, the state `d` earlier. */
  lemma Earlier(a0: real, j: real, t: real, d: real)
    ensures After(a0, -j, t - d) == After(a0, -j, t) + j * d
    ensures Rise(a0, -j, t - d) == Rise(a0, -j, t) - Mul(d, After(a0, -j, t)) - Mul(j, Sq(d)) / 2.0
  {}

  /** Shortening by `eps` takes `d` off the time. */
  lemma Shortened(t: real) returns (d: real)
    requires t >= 0.0
    ensures 0.0 <= d <= BRAKE_EPS && Max(t - BRAKE_EPS, 0.0) == t - d
  {
    d := Min(t, BRAKE_EPS);
  }

  lemma SmallProducts(aS: real, aMin: real, j: real, d: real)
    requires j > 0.0 && 0.0 <= d <= BRAKE_EPS && aMin <= aS <= 0.0
    ensures 0.0 <= -Mul(d, aS) <= -aMin * BRAKE_EPS
    ensures 0.0 <= Mul(j, Sq(d)) <= j * BRAKE_EPS * BRAKE_EPS
    ensures 0.0 <= Mul(j, d) <= j * BRAKE_EPS
  {
    TimesOrder(d, BRAKE_EPS, -aS);
    assert d * -aS == -(d * aS);
    SquareOrder(d, BRAKE_EPS);
    SquareNonNegative(d);
    TimesOrder(0.0, d * d, j);
    TimesOrder(d * d, BRAKE_EPS * BRAKE_EPS, j);
    TimesOrder(0.0, d, j);
    TimesOrder(d, BRAKE_EPS, j);
  }

  lemma SmallHold(j: real, jd: real, t1: real)
    requires j > 0.0 && 0.0 <= jd <= j * BRAKE_EPS && t1 >= 0.0
    ensures 0.0 <= Mul(t1, jd) <= Mul(j, t1) * BRAKE_EPS
  {
    var k := j * BRAKE_EPS;
    TimesOrder(0.0, jd, t1);
    TimesOrder(jd, k, t1);
    assert t1 * k == (j * t1) * BRAKE_EPS;
  }

  /** The squared accelerations of two states `d` apart. */
  lemma StopLater(aS: real, j: real, d: real, a: real)
    requires j > 0.0 && a == aS + Mul(j, d)
    ensures a * a / (2.0 * j) == aS * aS / (2.0 * j) + Mul(d, aS) + Mul(j, Sq(d)) / 2.0
  {
    var q, qS, k := a * a / (2.0 * j), aS * aS / (2.0 * j), 2.0 * j;
    assert q * k == a * a && qS * k == aS * aS;
    Cancel(k, q, qS + d * aS + j * (d * d) / 2.0) by {
      assert k * (d * aS) == 2.0 * (aS * (j * d)) && k * (j * (d * d) / 2.0) == (j * d) * (j * d);
      assert k * (qS + d * aS + j * (d * d) / 2.0) == qS * k + k * (d * aS) + k * (j * (d * d) / 2.0);
      assert (aS + j * d) * (aS + j * d) == aS * aS + 2.0 * (aS * (j * d)) + (j * d) * (j * d);
    }
  }

  lemma HeldSum(t1: real, aS: real, jd: real)
    ensures Mul(t1, aS + jd) == Mul(t1, aS) + Mul(t1, jd)
  {}

  /**
   * Braking that would have the state (`vS`, `aS`) and then hold it for `t1`, until the velocity is at its limit
   * or stopping leads to `vMin`, but lets go `d` earlier.
   */
  lemma SlowedFrom(vS: real, aS: real, v: real, a: real, vMax: real, vMin: real, aMin: real, j: real, d: real, t1: real)
    requires j > 0.0 && 0.0 <= d <= BRAKE_EPS && aMin <= aS <= 0.0 && t1 >= 0.0 && (t1 > 0.0 ==> aS == aMin)
    requires a == aS + Mul(j, d) && v == vS - Mul(d, aS) - Mul(j, Sq(d)) / 2.0 + Mul(t1, a)
    requires vS + Mul(t1, aS) >= vMax
    requires vS + Mul(t1, aS) == vMax || vS + Mul(t1, aS) - aS * aS / (2.0 * j) <= vMin
    ensures Slowed(v, a, vMax, vMin, aMin, j, t1)
  {
    hide Slowed;
    var jd := Mul(j, d);
    SmallProducts(aS, aMin, j, d);
    SmallHold(j, jd, t1);
    StopLater(aS, j, d, a);
    HeldSum(t1, aS, jd);
    var q, qS := a * a / (2.0 * j), aS * aS / (2.0 * j);
    hide Mul, Sq;
    SlowedSum(vS + Mul(t1, aS), aS, v, a, vMax, vMin, aMin, j, jd, t1, Mul(d, aS), Mul(j, Sq(d)), Mul(t1, jd), q, qS,
              Mul(j, t1));
  }

  lemma SlowedSum(w: real, aS: real, v: real, a: real, vMax: real, vMin: real, aMin: real, j: real, jd: real, t1: real,
                  x: real, y: real, z: real, q: real, qS: real, jt: real)
    requires j > 0.0 && a == aS + jd && aS <= 0.0 && (t1 > 0.0 ==> aS == aMin) && jt == Mul(j, t1)
    requires q == a * a / (2.0 * j) && q == qS + x + y / 2.0 && v == w - x - y / 2.0 + z
    requires 0.0 <= -x <= -aMin * BRAKE_EPS && 0.0 <= y <= j * BRAKE_EPS * BRAKE_EPS && 0.0 <= jd <= j * BRAKE_EPS
    requires 0.0 <= z <= jt * BRAKE_EPS && w >= vMax && (w == vMax || w - qS <= vMin)
    ensures Slowed(v, a, vMax, vMin, aMin, j, t1)
  {
    if w == vMax {
      assert v <= vMax + (jt - aMin) * BRAKE_EPS;
    } else {
      assert v - q <= vMin + (jt - 2.0 * aMin) * BRAKE_EPS;
    }
  }

  /** Before the first root the velocity is still above its limit, and at it just there. */
  lemma AboveUntilRoot(v0: real, a0: real, vMax: real, j: real, r: real, t: real, a: real)
    requires j > 0.0 && r >= 0.0 && Sq(r) == ToVMaxSquare(v0, a0, vMax, j) && a == After(a0, -j, t) && -r <= a <= 0.0
    ensures v0 + Rise(a0, -j, t) >= vMax && (a == -r ==> v0 + Rise(a0, -j, t) == vMax)
  {
    VelocityGained(a0, j, t, a);
    SquaresOrdered(a, r);
    SquareOfNegative(r);
    Distribute(2.0 * j, v0, Rise(a0, -j, t));
    assert ToVMaxSquare(v0, a0, vMax, j) == Sq(a0) + Mul(2.0 * j, v0) - Mul(2.0 * j, vMax);
    var v := v0 + Rise(a0, -j, t);
    hide After, Rise, Sq, ToVMaxSquare, Mul;
    MulOrdered(2.0 * j, v, vMax);
    MulOrdered(2.0 * j, vMax, v);
  }

  /** At the second root, stopping leads to `vMin`. */
  lemma StopsAtRoot(v0: real, a0: real, vMin: real, j: real, s: real, t: real)
    requires j > 0.0 && s >= 0.0 && Sq(s) == ToVMinSquare(v0, a0, vMin, j) && After(a0, -j, t) == -s
    ensures v0 + Rise(a0, -j, t) - -s * -s / (2.0 * j) == vMin
  {
    VelocityGained(a0, j, t, -s);
    SquareOfNegative(s);
    SquareByProducts(v0, a0, vMin, j);
    Distribute(2.0 * j, v0, Rise(a0, -j, t));
    var v, q, k := v0 + Rise(a0, -j, t), -s * -s / (2.0 * j), 2.0 * j;
    assert Mul(k, q) == Sq(-s);
    hide After, Rise, Sq, ToVMinSquare;
    assert Mul(k, v - q) == Mul(k, v) - Mul(k, q);
    Cancel(k, v - q, vMin);
  }

  /** A deceleration not yet reached is reached later. */
  lemma RootAhead(a0: real, j: real, s: real)
    requires j > 0.0 && -s <= a0
    ensures TimeDown(a0, -s, j) >= 0.0
  {
    Quotient(a0 + s, j);
  }

  /** Both roots are ahead where there is something to brake. */
  lemma RootsAhead(v0: real, a0: real, vMax: real, vMin: real, j: real, r: real, s: real)
    requires j > 0.0 && r >= 0.0 && s >= 0.0 && (a0 <= 0.0 ==> v0 >= vMax) && StaysAbove(v0, a0, j, vMin)
    requires Sq(r) == ToVMaxSquare(v0, a0, vMax, j) && Sq(s) == ToVMinSquare(v0, a0, vMin, j)
    ensures -r <= a0 && -s <= a0
  {
    if a0 <= 0.0 {
      Product(2.0 * j, v0 - vMax);
      assert Sq(r) >= Sq(-a0);
      var q, k := a0 * a0 / (2.0 * j), 2.0 * j;
      assert q * k == a0 * a0;
      Product(k, v0 - q - vMin);
      assert k * (v0 - q - vMin) == 2.0 * j * (v0 - vMin) - a0 * a0;
      assert Sq(s) >= Sq(-a0);
      if r < -a0 {
        SquareGrows(r, -a0);
      }
      if s < -a0 {
        SquareGrows(s, -a0);
      }
    }
  }

  /** What `velocity_brake` achieves without holding the acceleration at its limit. */
  lemma RootSlows(v0: real, a0: real, vMax: real, vMin: real, aMin: real, j: real, r: real, tX: real, s: real, tN: real,
                  t0: real)
    requires j > 0.0 && r >= 0.0 && s >= 0.0 && tX == TimeDown(a0, -r, j) && tN == TimeDown(a0, -s, j)
    requires Sq(r) == ToVMaxSquare(v0, a0, vMax, j) && Sq(s) == ToVMinSquare(v0, a0, vMin, j)
    requires 0.0 <= Min(tX, tN) <= TimeDown(a0, aMin, j) && t0 == Max(Min(tX, tN) - BRAKE_EPS, 0.0)
    ensures Slowed(v0 + Rise(a0, -j, t0), After(a0, -j, t0), vMax, vMin, aMin, j, 0.0)
  {
    var t := Min(tX, tN);
    var aS := if tX <= tN then -r else -s;
    TimeTo(a0, j, -r);
    TimeTo(a0, j, -s);
    TimeTo(a0, j, aMin);
    AfterFalls(a0, j, t, TimeDown(a0, aMin, j));
    AfterFalls(a0, j, t, tX);
    var d := Shortened(t);
    Earlier(a0, j, t, d);
    AboveUntilRoot(v0, a0, vMax, j, r, t, aS);
    if tN < tX {
      StopsAtRoot(v0, a0, vMin, j, s, t);
    }
    assert Mul(0.0, aS) == 0.0 && Mul(0.0, After(a0, -j, t0)) == 0.0 && Mul(j, d) == j * d;
    hide After, Rise, Mul, Sq, TimeDown, Slowed, ToVMaxSquare, ToVMinSquare;
    SlowedFrom(v0 + Rise(a0, -j, t), aS, v0 + Rise(a0, -j, t0), After(a0, -j, t0), vMax, vMin, aMin, j, d, 0.0);
  }

  lemma HalfSquare(a: real, j: real, half: real)
    requires j > 0.0 && half == a / (2.0 * j)
    ensures a * a / (2.0 * j) == half * a
  {
    var q, k := a * a / (2.0 * j), 2.0 * j;
    assert k * q == a * a && k * (half * a) == (half * k) * a;
    Cancel(k, q, half * a);
  }

  /** The two times that limit how long `aMin` is held, as what they are for. */
  lemma HoldTimeMeans(v0: real, a0: real, vMax: real, vMin: real, aMin: real, j: real)
    requires j > 0.0 && aMin < 0.0 && v0 + Rise(a0, -j, TimeDown(a0, aMin, j)) >= vMax
    ensures var t1, v := HoldTime(v0, a0, vMax, vMin, aMin, j), v0 + Rise(a0, -j, TimeDown(a0, aMin, j));
      && t1 >= 0.0 && v + Mul(t1, aMin) >= vMax
      && (v + Mul(t1, aMin) == vMax || v + Mul(t1, aMin) - aMin * aMin / (2.0 * j) <= vMin)
  {
    var v, t1 := v0 + Rise(a0, -j, TimeDown(a0, aMin, j)), HoldTime(v0, a0, vMax, vMin, aMin, j);
    var x, half, rest := -(v - vMax) / aMin, aMin / (2.0 * j), (v - vMin) / aMin;
    assert t1 == Max(Min(x, half - rest), 0.0);
    QuotientTimes(-(v - vMax), aMin, x);
    QuotientTimes(aMin, 2.0 * j, half);
    QuotientTimes(v - vMin, aMin, rest);
    Quotient(-(v - vMax), aMin);
    HalfSquare(aMin, j, half);
    hide Rise, TimeDown, HoldTime;
    HoldEnd(t1, x, half - rest, aMin);
    assert (half - rest) * aMin == half * aMin - rest * aMin;
  }

  lemma HoldEnd(t1: real, x: real, y: real, aMin: real)
    requires aMin < 0.0 && x >= 0.0 && t1 == Max(Min(x, y), 0.0)
    ensures t1 >= 0.0 && Mul(t1, aMin) >= x * aMin
    ensures Mul(t1, aMin) == x * aMin || Mul(t1, aMin) <= y * aMin
  {
    TimesOrder(t1, x, -aMin);
    assert t1 * -aMin == -(t1 * aMin) && x * -aMin == -(x * aMin) && y * -aMin == -(y * aMin);
    if t1 != x {
      TimesOrder(y, t1, -aMin);
    }
  }

  /** What `velocity_brake` achieves by holding the acceleration at its limit. */
  lemma HoldSlows(v0: real, a0: real, vMax: real, vMin: real, aMin: real, j: real, r: real, tX: real, t0: real,
                  t1: real)
    requires j > 0.0 && r >= 0.0 && tX == TimeDown(a0, -r, j) && Sq(r) == ToVMaxSquare(v0, a0, vMax, j)
    requires aMin < 0.0 && 0.0 <= TimeDown(a0, aMin, j) < tX && t0 == Max(TimeDown(a0, aMin, j) - BRAKE_EPS, 0.0)
    requires t1 == HoldTime(v0, a0, vMax, vMin, aMin, j)
    ensures var a := After(a0, -j, t0);
      Slowed(v0 + Rise(a0, -j, t0) + Rise(a, 0.0, t1), a, vMax, vMin, aMin, j, t1)
  {
    var t, a := TimeDown(a0, aMin, j), After(a0, -j, t0);
    TimeTo(a0, j, -r);
    TimeTo(a0, j, aMin);
    AfterFalls(a0, j, t, tX);
    var d := Shortened(t);
    Earlier(a0, j, t, d);
    AboveUntilRoot(v0, a0, vMax, j, r, t, aMin);
    HoldTimeMeans(v0, a0, vMax, vMin, aMin, j);
    assert Rise(a, 0.0, t1) == Mul(t1, a) && Mul(j, d) == j * d;
    hide After, Rise, Mul, Sq, TimeDown, Slowed, ToVMaxSquare, HoldTime;
    SlowedFrom(v0 + Rise(a0, -j, t), aMin, v0 + Rise(a0, -j, t0) + Rise(a, 0.0, t1), a, vMax, vMin, aMin, j, d, t1);
  }

  /** It slows the axis down. */
  lemma VelocityBrakeSlows(sqrt: real -> real, v0: real, a0: real, vMax: real, vMin: real, aMax: real, aMin: real,
                           j: real)
    requires IsSqrt(sqrt) && Limits(vMax, vMin, aMax, aMin, j) && RootsExist(v0, a0, vMax, vMin, j)
    requires aMin <= a0 && StaysAbove(v0, a0, j, vMin) && (a0 <= 0.0 ==> v0 >= vMax)
    ensures var t := VelocityBrakeTimes(sqrt, v0, a0, vMax, vMin, aMin, j);
      var a := After(a0, -j, t.0);
      Slowed(v0 + Rise(a0, -j, t.0) + Rise(a, 0.0, t.1), a, vMax, vMin, aMin, j, t.1)
  {
    var r, tX, s, tN := RootTimes(sqrt, v0, a0, vMax, vMin, j);
    RootsAhead(v0, a0, vMax, vMin, j, r, s);
    RootAhead(a0, j, r);
    RootAhead(a0, j, s);
    RootAhead(a0, j, -aMin);
    var t := VelocityBrakeTimes(sqrt, v0, a0, vMax, vMin, aMin, j);
    NoTime(After(a0, -j, t.0), 0.0);
    hide After, Rise, TimeDown, TMinToVMax, HoldTime, StaysAbove, Sq, ToVMinSquare, ToVMaxSquare, Slowed;
    if TimeDown(a0, aMin, j) < Min(tX, tN) {
      HoldSlows(v0, a0, vMax, vMin, aMin, j, r, tX, t.0, t.1);
    } else {
      RootSlows(v0, a0, vMax, vMin, aMin, j, r, tX, s, tN, t.0);
    }
  }

  /** Where it leaves the acceleration, and that it is not overdone. */
  lemma VelocityBrakeEnds(sqrt: real -> real, v0: real, a0: real, vMax: real, vMin: real, aMax: real, aMin: real,
                          j: real)
    requires IsSqrt(sqrt) && Limits(vMax, vMin, aMax, aMin, j) && RootsExist(v0, a0, vMax, vMin, j)
    requires aMin <= a0 && StaysAbove(v0, a0, j, vMin) && (a0 > aMax ==> !StaysBelow(v0, a0, j, vMax))
    ensures var t := VelocityBrakeTimes(sqrt, v0, a0, vMax, vMin, aMin, j);
      var a := After(a0, -j, t.0);
      && t.0 >= 0.0 && t.1 >= 0.0 && aMin <= a <= aMax
      && StaysAbove(v0 + Rise(a0, -j, t.0) + Rise(a, 0.0, t.1), a, j, vMin)
  {
    var s, tV := TMinRange(sqrt, v0, a0, vMax, vMin, j);
    var tA, tMin := TimeDown(a0, aMin, j), TMinToVMax(sqrt, v0, a0, vMax, vMin, j);
    TimeTo(a0, j, aMin);
    TimeTo(a0, j, 0.0);
    NoTime(a0, -j);
    hide After, Rise, TimeDown, TMinToVMax, HoldTime, StaysAbove, StaysBelow, Mul, Sq, ToVMinSquare, ToVMaxSquare;
    AfterFalls(a0, j, TimeDown(a0, 0.0, j), tMin);
    if tA < tMin {
      var t0, t1 := Max(tA - BRAKE_EPS, 0.0), HoldTime(v0, a0, vMax, vMin, aMin, j);
      var a := After(a0, -j, t0);
      NearlyThere(a0, j, tA, aMin);
      AfterFalls(a0, j, tA, tV);
      HoldTimeNonNegative(v0, a0, vMax, vMin, aMin, j);
      NoTime(a, 0.0);
      if t1 > 0.0 {
        HoldStopsInTime(v0, a0, vMax, vMin, aMin, j, t0, a, t1);
      } else {
        StopsInTime(v0, a0, vMin, j, t0, a, s);
      }
    } else {
      var t0 := Max(tMin - BRAKE_EPS, 0.0);
      var a := After(a0, -j, t0);
      NearlyThere(a0, j, tMin, 0.0);
      NoTime(a, 0.0);
      AfterFalls(a0, j, t0, tA);
      AfterFalls(a0, j, t0, tV);
      AfterFalls(a0, j, 0.0, t0);
      if t0 > 0.0 {
        StopsInTime(v0, a0, vMin, j, t0, a, s);
      }
    }
  }

  /** `velocity_brake` is called for a velocity that is too high, or will be. */
  lemma VelocityBrakeLands(sqrt: real -> real, v0: real, a0: real, vMax: real, vMin: real, aMax: real, aMin: real,
                           j: real)
    requires IsSqrt(sqrt) && Limits(vMax, vMin, aMax, aMin, j) && RootsExist(v0, a0, vMax, vMin, j)
    requires aMin <= a0 && StaysAbove(v0, a0, j, vMin) && (a0 > aMax ==> !StaysBelow(v0, a0, j, vMax))
    requires a0 <= 0.0 ==> v0 >= vMax
    ensures var t := VelocityBrakeTimes(sqrt, v0, a0, vMax, vMin, aMin, j);
      Lands(v0, a0, vMax, vMin, aMax, aMin, j, t.0, t.1)
  {
    VelocityBrakeEnds(sqrt, v0, a0, vMax, vMin, aMax, aMin, j);
    VelocityBrakeSlows(sqrt, v0, a0, vMax, vMin, aMax, aMin, j);
    hide VelocityBrakeTimes, After, Rise, StaysAbove, StaysBelow, Slowed, Eased, RootsExist;
  }

  lemma HoldTimeNonNegative(v0: real, a0: real, vMax: real, vMin: real, aMin: real, j: real)
    requires j != 0.0 && aMin != 0.0
    ensures HoldTime(v0, a0, vMax, vMin, aMin, j) >= 0.0
  {}

  // ---------------------------------------------------------------- braking from too high an acceleration

  lemma TooFastMeans(v0: real, a0: real, vMax: real, vMin: real, j: real)
    requires j > 0.0 && a0 >= 0.0 && vMin <= vMax
    ensures TooFast(v0, a0, vMax, j) <==> !StaysBelow(v0, a0, j, vMax)
    ensures TooFast(v0, a0, vMax, j) ==> RootsExist(v0, a0, vMax, vMin, j)
  {
    var k, v := 2.0 * j, VAtT(v0, a0, -j, TimeDown(a0, 0.0, j));
    TimeTo(a0, j, 0.0);
    BelowByProducts(v0, a0, j, vMax);
    Distribute(k, v0, Rise(a0, -j, TimeDown(a0, 0.0, j)));
    SquareByProducts(v0, a0, vMin, j);
    assert ToVMaxSquare(v0, a0, vMax, j) == Sq(a0) + Mul(k, v0) - Mul(k, vMax);
    assert Sq(0.0) == 0.0;
    hide After, Rise, TimeDown, StaysBelow, Mul, Sq, ToVMinSquare, ToVMaxSquare;
    MulOrdered(k, v, vMax);
    MulOrdered(k, vMax, v);
    MulOrdered(k, vMin, vMax);
  }

  lemma MulOrdered(k: real, x: real, y: real)
    requires k > 0.0
    ensures x <= y ==> Mul(k, x) <= Mul(k, y)
    ensures x < y ==> Mul(k, x) < Mul(k, y)
  {
    if x < y {
      TimesLess(x, y, k);
    }
  }

  lemma ClimbTimeBound(v0: real, a0: real, vMax: real, vMin: real, aMax: real, j: real) returns (half: real, rest: real)
    requires j > 0.0 && aMax > 0.0 && ClimbTime(v0, a0, vMax, vMin, aMax, j) > 0.0
    ensures ClimbTime(v0, a0, vMax, vMin, aMax, j) <= -half - rest
    ensures Mul(half, 2.0 * j) == aMax
    ensures Mul(rest, aMax) == v0 + Rise(a0, -j, TimeDown(a0, aMax, j)) - vMax
  {
    half := aMax / (2.0 * j);
    rest := (VAtT(v0, a0, -j, TimeDown(a0, aMax, j)) - vMax) / aMax;
    assert -aMax / (2.0 * j) == -half;
    hide Rise, TimeDown;
  }

  lemma ClimbSpeed(t1: real, a: real, aMax: real, half: real, rest: real)
    requires 0.0 <= a <= aMax && 0.0 < t1 <= -half - rest
    ensures Rise(a, 0.0, t1) <= -Mul(half, aMax) - Mul(rest, aMax)
  {
    TimesOrder(a, aMax, t1);
    TimesOrder(t1, -half - rest, aMax);
    var climb := -half - rest;
    assert climb * aMax == -(half * aMax) - rest * aMax;
    assert Rise(a, 0.0, t1) == t1 * a;
  }

  lemma ClimbSum(k: real, v0: real, vMax: real, x: real, y: real, g: real, h: real, a0a0: real, mm: real, aa: real)
    requires k > 0.0 && g <= -h - (v0 + x - vMax) && Mul(k, h) == mm && Mul(k, x) == a0a0 - mm && Mul(k, y) == a0a0 - aa
    ensures Mul(k, v0 + y + g) + aa <= Mul(k, vMax)
  {
    TimesOrder(g, -h - (v0 + x - vMax), k);
    assert k * (-h - (v0 + x - vMax)) == -(k * h) - k * v0 - k * x + k * vMax;
  }

  lemma ClimbStaysBelow(v0: real, a0: real, vMax: real, vMin: real, aMax: real, j: real, t: real, a: real, t1: real)
    requires j > 0.0 && aMax > 0.0 && a == After(a0, -j, t) && 0.0 <= a <= aMax
    requires t1 == ClimbTime(v0, a0, vMax, vMin, aMax, j) > 0.0
    ensures StaysBelow(v0 + Rise(a0, -j, t) + Rise(a, 0.0, t1), a, j, vMax)
  {
    hide After, Rise, ClimbTime, TimeDown, Mul, Sq, StaysBelow;
    var tA := TimeDown(a0, aMax, j);
    var half, rest := ClimbTimeBound(v0, a0, vMax, vMin, aMax, j);
    TimeTo(a0, j, aMax);
    VelocityGained(a0, j, t, a);
    HoldHalf(half, 2.0 * j, aMax);
    ClimbSpeed(t1, a, aMax, half, rest);
    ClimbSum(2.0 * j, v0, vMax, Rise(a0, -j, tA), Rise(a0, -j, t), Rise(a, 0.0, t1), Mul(half, aMax), Sq(a0), Sq(aMax),
             Sq(a));
    BelowByProducts(v0 + Rise(a0, -j, t) + Rise(a, 0.0, t1), a, j, vMax);
  }

  /** Jerk alone changes nothing about the velocity at zero acceleration. */
  lemma JerkStaysBelow(v0: real, a0: real, vMax: real, j: real, t: real, a: real)
    requires j > 0.0 && a == After(a0, -j, t) && a >= 0.0 && a0 >= 0.0 && StaysBelow(v0, a0, j, vMax)
    ensures StaysBelow(v0 + Rise(a0, -j, t), a, j, vMax)
  {
    hide After, Rise, Mul, Sq, StaysBelow;
    VelocityGained(a0, j, t, a);
    Distribute(2.0 * j, v0, Rise(a0, -j, t));
    BelowByProducts(v0, a0, j, vMax);
    BelowByProducts(v0 + Rise(a0, -j, t), a, j, vMax);
  }

  /** The two times that limit how long the acceleration is held, as what they are for. */
  lemma ClimbTimeMeans(v0: real, a0: real, vMax: real, vMin: real, aMax: real, j: real)
    requires j > 0.0 && aMax > 0.0 && v0 + Rise(a0, -j, TimeDown(a0, aMax, j)) < vMin
    ensures var t1, v := ClimbTime(v0, a0, vMax, vMin, aMax, j), v0 + Rise(a0, -j, TimeDown(a0, aMax, j));
      && t1 >= 0.0 && v + Mul(t1, aMax) <= vMin
      && (v + Mul(t1, aMax) == vMin || v + Mul(t1, aMax) + aMax * aMax / (2.0 * j) >= vMax - aMax * BRAKE_EPS)
  {
    var v, t1 := v0 + Rise(a0, -j, TimeDown(a0, aMax, j)), ClimbTime(v0, a0, vMax, vMin, aMax, j);
    var x, half, rest := -(v - vMin) / aMax, aMax / (2.0 * j), (v - vMax) / aMax;
    QuotientNegated(aMax, 2.0 * j);
    assert t1 == Max(Min(x, -half - rest - BRAKE_EPS), 0.0);
    QuotientTimes(-(v - vMin), aMax, x);
    QuotientTimes(aMax, 2.0 * j, half);
    QuotientTimes(v - vMax, aMax, rest);
    Quotient(-(v - vMin), aMax);
    HalfSquare(aMax, j, half);
    var y := -half - rest - BRAKE_EPS;
    hide Rise, TimeDown, ClimbTime;
    ClimbEnd(t1, x, y, aMax);
    assert y * aMax == -(half * aMax) - rest * aMax - BRAKE_EPS * aMax;
  }

  lemma ClimbEnd(t1: real, x: real, y: real, aMax: real)
    requires aMax > 0.0 && x >= 0.0 && t1 == Max(Min(x, y), 0.0)
    ensures t1 >= 0.0 && Mul(t1, aMax) <= x * aMax
    ensures Mul(t1, aMax) == x * aMax || Mul(t1, aMax) >= y * aMax
  {
    TimesOrder(t1, x, aMax);
    if t1 != x {
      TimesOrder(y, t1, aMax);
    }
  }

  /** Easing that would have velocity `vS` at `aMax` and then hold it for `t1`, but lets go `eps` later. */
  lemma EasedFrom(vS: real, v: real, a: real, vMax: real, vMin: real, aMax: real, j: real, t1: real)
    requires j > 0.0 && j * BRAKE_EPS < aMax && t1 >= 0.0 && a == aMax - j * BRAKE_EPS
    requires v == vS + Mul(BRAKE_EPS, aMax) - Mul(j, Sq(BRAKE_EPS)) / 2.0 + Mul(t1, a)
    requires vS + Mul(t1, aMax) >= vMin || vS + Mul(t1, aMax) + aMax * aMax / (2.0 * j) >= vMax - aMax * BRAKE_EPS
    requires t1 > 0.0 ==> vS + Mul(t1, aMax) <= vMin
    ensures Eased(v, a, vMax, vMin, aMax, j, t1)
  {
    var d := -BRAKE_EPS;
    StopLater(aMax, j, d, a);
    HeldSum(t1, aMax, -(j * BRAKE_EPS));
    var q, qS, jd := a * a / (2.0 * j), aMax * aMax / (2.0 * j), j * BRAKE_EPS;
    assert Mul(t1, -jd) == -(Mul(j, t1) * BRAKE_EPS);
    SmallHold(j, jd, t1);
    assert Sq(d) == BRAKE_EPS * BRAKE_EPS && Mul(j, Sq(BRAKE_EPS)) == jd * BRAKE_EPS;
    assert Mul(d, aMax) == -(aMax * BRAKE_EPS);
    EasedSum(vS + Mul(t1, aMax), v, a, vMax, vMin, aMax, j, jd, t1, q, qS, Mul(j, t1));
  }

  lemma EasedSum(w: real, v: real, a: real, vMax: real, vMin: real, aMax: real, j: real, jd: real, t1: real,
                 q: real, qS: real, jt: real)
    requires j > 0.0 && jd == j * BRAKE_EPS && 0.0 <= jd < aMax && a == aMax - jd && jt == Mul(j, t1) && 0.0 <= jt
    requires q == a * a / (2.0 * j) && q == qS - aMax * BRAKE_EPS + jd * BRAKE_EPS / 2.0
    requires v == w + aMax * BRAKE_EPS - jd * BRAKE_EPS / 2.0 - jt * BRAKE_EPS
    requires (w >= vMin || w + qS >= vMax - aMax * BRAKE_EPS) && (t1 > 0.0 ==> w <= vMin)
    ensures Eased(v, a, vMax, vMin, aMax, j, t1)
  {
    if w >= vMin {
      assert v >= vMin - jt * BRAKE_EPS;
    } else {
      assert v + q >= vMax - (jt + aMax) * BRAKE_EPS;
    }
  }

  /** What the rest of `acceleration_brake` achieves. */
  lemma AccelerationEases(v0: real, a0: real, vMax: real, vMin: real, aMax: real, j: real, t0: real, t1: real)
    requires j > 0.0 && j * BRAKE_EPS < aMax && t0 == TimeDown(a0, aMax, j) + BRAKE_EPS
    requires t1 == if TooSlow(v0, a0, vMin, aMax, j) then ClimbTime(v0, a0, vMax, vMin, aMax, j) else 0.0
    ensures var a := After(a0, -j, t0);
      Eased(v0 + Rise(a0, -j, t0) + Rise(a, 0.0, t1), a, vMax, vMin, aMax, j, t1)
  {
    var t, a := TimeDown(a0, aMax, j), After(a0, -j, t0);
    var vS := v0 + Rise(a0, -j, t);
    TimeTo(a0, j, aMax);
    Earlier(a0, j, t, -BRAKE_EPS);
    assert t - -BRAKE_EPS == t0 && Sq(-BRAKE_EPS) == Sq(BRAKE_EPS);
    assert Mul(-BRAKE_EPS, aMax) == -Mul(BRAKE_EPS, aMax) && Rise(a, 0.0, t1) == Mul(t1, a) && Mul(0.0, aMax) == 0.0;
    if TooSlow(v0, a0, vMin, aMax, j) {
      ClimbTimeMeans(v0, a0, vMax, vMin, aMax, j);
    }
    hide After, Rise, Mul, Sq, TimeDown, Eased, ClimbTime;
    EasedFrom(vS, vS + Mul(BRAKE_EPS, aMax) - Mul(j, Sq(BRAKE_EPS)) / 2.0 + Mul(t1, a), a, vMax, vMin, aMax, j, t1);
  }

  lemma AccelerationBrakeLands(sqrt: real -> real, v0: real, a0: real, vMax: real, vMin: real, aMax: real, aMin: real,
                               j: real)
    requires IsSqrt(sqrt) && Limits(vMax, vMin, aMax, aMin, j) && a0 > aMax
    ensures TooFast(v0, a0, vMax, j) ==> RootsExist(v0, a0, vMax, vMin, j)
    ensures var t := AccelerationBrakeTimes(sqrt, v0, a0, vMax, vMin, aMax, aMin, j);
      Lands(v0, a0, vMax, vMin, aMax, aMin, j, t.0, t.1)
  {
    TooFastMeans(v0, a0, vMax, vMin, j);
    if TooFast(v0, a0, vMax, j) {
      VelocityBrakeLands(sqrt, v0, a0, vMax, vMin, aMax, aMin, j);
    } else {
      var tA := TimeDown(a0, aMax, j);
      var t0 := tA + BRAKE_EPS;
      var a, t1 := After(a0, -j, t0), ClimbTime(v0, a0, vMax, vMin, aMax, j);
      TimeTo(a0, j, aMax);
      AfterFalls(a0, j, tA, BRAKE_EPS);
      Quotient(a0 - aMax, j);
      NoTime(a, 0.0);
      JerkStaysBelow(v0, a0, vMax, j, t0, a);
      if t1 > 0.0 {
        ClimbStaysBelow(v0, a0, vMax, vMin, aMax, j, t0, a, t1);
      }
      var held := if TooSlow(v0, a0, vMin, aMax, j) then t1 else 0.0;
      AccelerationEases(v0, a0, vMax, vMin, aMax, j, t0, held);
      hide After, Rise, StaysBelow, Mul, Sq, VelocityBrakeTimes, TooFast, TooSlow, Eased, Slowed;
    }
  }

  // ---------------------------------------------------------------- mirror images

  lemma TimeMirrored(v0: real, a0: real, a: real, j: real)
    requires j != 0.0
    ensures TimeDown(-a0, -a, -j) == TimeDown(a0, a, j)
    ensures VAtT(-v0, -a0, j, TimeDown(a0, a, j)) == -VAtT(v0, a0, -j, TimeDown(a0, a, j))
  {
    QuotientMirrored(a0 - a, j);
    MirroredRise(a0, -j, TimeDown(a0, a, j));
  }

  lemma HoldTimeMirrored(v0: real, a0: real, vMax: real, vMin: real, aMin: real, j: real)
    requires j != 0.0 && aMin != 0.0
    ensures HoldTime(-v0, -a0, -vMax, -vMin, -aMin, -j) == HoldTime(v0, a0, vMax, vMin, aMin, j)
    ensures ClimbTime(-v0, -a0, -vMax, -vMin, -aMin, -j) == ClimbTime(v0, a0, vMax, vMin, aMin, j)
  {
    TimeMirrored(v0, a0, aMin, j);
    var v := VAtT(v0, a0, -j, TimeDown(a0, aMin, j));
    QuotientMirrored(v - vMax, aMin);
    QuotientMirrored(v - vMin, aMin);
    QuotientMirrored(aMin, 2.0 * j);
    QuotientMirrored(-(v - vMax), aMin);
    QuotientMirrored(-(v - vMin), aMin);
    QuotientMirrored(-aMin, 2.0 * j);
    assert 2.0 * -j == -(2.0 * j);
    hide VAtT, TimeDown;
  }

  /** The calls with exchanged limits and negated jerk brake exactly like the mirrored state. */
  lemma VelocityBrakeMirrored(sqrt: real -> real, v0: real, a0: real, vMax: real, vMin: real, aMin: real, j: real)
    requires j != 0.0 && aMin != 0.0 && RootsExist(v0, a0, vMax, vMin, j)
    ensures RootsExist(-v0, -a0, -vMax, -vMin, -j)
    ensures VelocityBrakeTimes(sqrt, -v0, -a0, -vMax, -vMin, -aMin, -j) ==
            VelocityBrakeTimes(sqrt, v0, a0, vMax, vMin, aMin, j)
  {
    TimeMirrored(v0, a0, aMin, j);
    TimeMirrored(v0, a0, 0.0, j);
    HoldTimeMirrored(v0, a0, vMax, vMin, aMin, j);
    assert -0.0 == 0.0;
    assert ToVMaxSquare(-v0, -a0, -vMax, -j) == ToVMaxSquare(v0, a0, vMax, j);
    assert ToVMinSquare(-v0, -a0, -vMin, -j) == ToVMinSquare(v0, a0, vMin, j);
    hide TimeDown, HoldTime, ToVMaxSquare, ToVMinSquare, VAtT;
  }

  lemma AccelerationBrakeMirrored(sqrt: real -> real, v0: real, a0: real, vMax: real, vMin: real,
                                  aMax: real, aMin: real, j: real)
    requires j != 0.0 && aMin != 0.0 && aMax != 0.0
    requires TooFast(v0, a0, vMax, j) ==> RootsExist(v0, a0, vMax, vMin, j)
    ensures TooFast(-v0, -a0, -vMax, -j) == TooFast(v0, a0, vMax, j)
    ensures TooFast(-v0, -a0, -vMax, -j) ==> RootsExist(-v0, -a0, -vMax, -vMin, -j)
    ensures AccelerationBrakeTimes(sqrt, -v0, -a0, -vMax, -vMin, -aMax, -aMin, -j)
         == AccelerationBrakeTimes(sqrt, v0, a0, vMax, vMin, aMax, aMin, j)
  {
    TimeMirrored(v0, a0, 0.0, j);
    TimeMirrored(v0, a0, aMax, j);
    HoldTimeMirrored(v0, a0, vMax, vMin, aMax, j);
    assert -0.0 == 0.0;
    hide TimeDown, ClimbTime, VelocityBrakeTimes, VAtT, RootsExist;
    if TooFast(v0, a0, vMax, j) {
      VelocityBrakeMirrored(sqrt, v0, a0, vMax, vMin, aMin, j);
    }
  }

  // ---------------------------------------------------------------- the brake profile

  /** The cases in which the axis is braked downwards: too high an acceleration, or inside its limits too fast. */
  predicate CalledFor(v0: real, a0: real, vMax: real, vMin: real, aMax: real, aMin: real, j: real)
    requires j > 0.0
  {
    a0 > aMax || (a0 >= aMin && Excessive(v0, a0, vMax, vMin, j))
  }

  /** The jerk to brake with: down where that is called for, or else up where the mirror image calls for it. */
  function BrakeJerk(v0: real, a0: real, vMax: real, vMin: real, aMax: real, aMin: real, j: real): real
    requires j > 0.0
  {
    if CalledFor(v0, a0, vMax, vMin, aMax, aMin, j) then -j
    else if CalledFor(-v0, -a0, -vMin, -vMax, -aMin, -aMax, j) then j
    else 0.0
  }

  /**
   * From velocity `v0` and acceleration `a0` a brake with jerk `j0`, and then `t1` without, has led to `v` and `a`:
   * it brakes exactly where that is called for, ends inside the acceleration limits, and has achieved its aim.
   */
  predicate Braked(v0: real, a0: real, v: real, a: real, vMax: real, vMin: real, aMax: real, aMin: real, j: real,
                   j0: real, t1: real)
    requires j > 0.0
  {
    && j0 == BrakeJerk(v0, a0, vMax, vMin, aMax, aMin, j) && aMin <= a <= aMax
    && (j0 == 0.0 ==> v == v0 && a == a0)
    && (j0 < 0.0 ==> Relieved(v0, a0, v, a, vMax, vMin, aMax, aMin, j, t1))
    && (j0 > 0.0 ==> Relieved(-v0, -a0, -v, -a, -vMin, -vMax, -aMin, -aMax, j, t1))
  }

  /** The state after `t0` at jerk `j0` and `t1` without. */
  function BrakedVelocity(v0: real, a0: real, j0: real, t0: real, t1: real): real {
    v0 + Rise(a0, j0, t0) + Rise(After(a0, j0, t0), 0.0, t1)
  }

  lemma BrakedFromAbove(v0: real, a0: real, vMax: real, vMin: real, aMax: real, aMin: real, j: real, t0: real, t1: real)
    requires j > 0.0 && CalledFor(v0, a0, vMax, vMin, aMax, aMin, j)
    requires Lands(v0, a0, vMax, vMin, aMax, aMin, j, t0, t1)
    ensures Braked(v0, a0, BrakedVelocity(v0, a0, -j, t0, t1), After(a0, -j, t0), vMax, vMin, aMax, aMin, j, -j, t1)
  {
    hide After, Rise, Relieved, CalledFor;
  }

  lemma BrakedFromBelow(v0: real, a0: real, vMax: real, vMin: real, aMax: real, aMin: real, j: real, t0: real, t1: real)
    requires j > 0.0 && !CalledFor(v0, a0, vMax, vMin, aMax, aMin, j)
    requires CalledFor(-v0, -a0, -vMin, -vMax, -aMin, -aMax, j)
    requires Lands(-v0, -a0, -vMin, -vMax, -aMin, -aMax, j, t0, t1)
    ensures Braked(v0, a0, BrakedVelocity(v0, a0, j, t0, t1), After(a0, j, t0), vMax, vMin, aMax, aMin, j, j, t1)
  {
    var a := After(a0, j, t0);
    MirroredRise(a0, j, t0);
    MirroredRise(a, 0.0, t1);
    assert -0.0 == 0.0 && -BrakedVelocity(v0, a0, j, t0, t1) == BrakedVelocity(-v0, -a0, -j, t0, t1);
    hide After, Rise, Relieved, CalledFor;
  }

  /** The cases in which a state inside its acceleration limits is braked. */
  predicate BrakesDown(v0: real, a0: real, vMax: real, vMin: real, j: real)
    requires j != 0.0
  {
    (v0 > vMax && VAtAZero(v0, a0, -j) > vMin) || (a0 > 0.0 && VAtAZero(v0, a0, j) > vMax)
  }

  lemma BrakesDownMeans(v0: real, a0: real, vMax: real, vMin: real, j: real)
    requires j > 0.0 && vMin <= vMax
    ensures BrakesDown(v0, a0, vMax, vMin, j) <==> Excessive(v0, a0, vMax, vMin, j)
    ensures BrakesDown(v0, a0, vMax, vMin, j) && a0 <= 0.0 ==> v0 > vMax
  {
    var q := a0 * a0 / (2.0 * j);
    assert a0 * a0 / (2.0 * -j) == -q;
    SquareNonNegative(a0);
    Quotient(a0 * a0, 2.0 * j);
  }

  lemma BrakesDownRoots(v0: real, a0: real, vMax: real, vMin: real, j: real)
    requires j > 0.0 && vMin <= vMax && BrakesDown(v0, a0, vMax, vMin, j)
    ensures RootsExist(v0, a0, vMax, vMin, j) && StaysAbove(v0, a0, j, vMin)
  {
    var q, k := a0 * a0 / (2.0 * j), 2.0 * j;
    assert q * k == a0 * a0 && a0 * a0 / (2.0 * -j) == -q;
    SquareNonNegative(a0);
    assert q >= 0.0 by { Quotient(a0 * a0, k); }
    assert v0 + q > vMax;
    Product(k, v0 + q - vMax);
    Product(k, v0 + q - vMin);
    Product(k, q);
    assert ToVMaxSquare(v0, a0, vMax, j) == k * (v0 + q - vMax);
    assert 2.0 * ToVMinSquare(v0, a0, vMin, j) == k * (v0 + q - vMin);
  }

  class BrakeProfile {
    var duration: real
    var t: seq<real>
    var j: seq<real>
    var a: seq<real>
    var v: seq<real>
    var p: seq<real>

    predicate Sized()
      reads this
    {
      |t| == 2 && |j| == 2 && |a| == 2 && |v| == 2 && |p| == 2
    }

    constructor ()
      ensures Sized()
    {
      duration := 0.0;
      t, j, a, v, p := [0.0, 0.0], [0.0, 0.0], [0.0, 0.0], [0.0, 0.0], [0.0, 0.0];
    }

    method VelocityBrake(sqrt: real -> real, v0: real, a0: real, vMax: real, vMin: real, aMin: real, jMax: real)
      requires Sized() && t[1] == 0.0 && jMax != 0.0 && aMin != 0.0 && RootsExist(v0, a0, vMax, vMin, jMax)
      modifies this`t, this`j
      ensures Sized() && j == old(j)[0 := -jMax]
      ensures (t[0], t[1]) == VelocityBrakeTimes(sqrt, v0, a0, vMax, vMin, aMin, jMax)
    {
      hide TimeDown, VAtT, ToVMaxSquare, ToVMinSquare;
      j := j[0 := -jMax];
      var tToAMin := TimeDown(a0, aMin, jMax);
      var tToVMax := TimeDown(a0, 0.0, jMax) + Root(sqrt, ToVMaxSquare(v0, a0, vMax, jMax)) / Abs(jMax);
      var tToVMin := TimeDown(a0, 0.0, jMax) + Root(sqrt, ToVMinSquare(v0, a0, vMin, jMax)) / Abs(jMax);
      var tMinToVMax := Min(tToVMax, tToVMin);
      if tToAMin < tMinToVMax {
        var vAtAMin := VAtT(v0, a0, -jMax, tToAMin);
        var tToVMaxWithConstant := -(vAtAMin - vMax) / aMin;
        var tToVMinWithConstant := aMin / (2.0 * jMax) - (vAtAMin - vMin) / aMin;
        t := [Max(tToAMin - BRAKE_EPS, 0.0), Max(Min(tToVMaxWithConstant, tToVMinWithConstant), 0.0)];
      } else {
        t := t[0 := Max(tMinToVMax - BRAKE_EPS, 0.0)];
      }
    }

    method AccelerationBrake(sqrt: real -> real, v0: real, a0: real, vMax: real, vMin: real,
                             aMax: real, aMin: real, jMax: real)
      requires Sized() && t[1] == 0.0 && jMax != 0.0 && aMin != 0.0 && aMax != 0.0
      requires TooFast(v0, a0, vMax, jMax) ==> RootsExist(v0, a0, vMax, vMin, jMax)
      modifies this`t, this`j
      ensures Sized() && j == old(j)[0 := -jMax]
      ensures (t[0], t[1]) == AccelerationBrakeTimes(sqrt, v0, a0, vMax, vMin, aMax, aMin, jMax)
    {
      hide TimeDown, VAtT, VelocityBrakeTimes;
      j := j[0 := -jMax];
      var tToAMax := TimeDown(a0, aMax, jMax);
      var tToAZero := TimeDown(a0, 0.0, jMax);
      var vAtAMax := VAtT(v0, a0, -jMax, tToAMax);
      var vAtAZero := VAtT(v0, a0, -jMax, tToAZero);
      if (vAtAZero > vMax && jMax > 0.0) || (vAtAZero < vMax && jMax < 0.0) {
        VelocityBrake(sqrt, v0, a0, vMax, vMin, aMin, jMax);
      } else if (vAtAMax < vMin && jMax > 0.0) || (vAtAMax > vMin && jMax < 0.0) {
        var tToVMin := -(vAtAMax - vMin) / aMax;
        var tToVMax := -aMax / (2.0 * jMax) - (vAtAMax - vMax) / aMax;
        t := [tToAMax + BRAKE_EPS, Max(Min(tToVMin, tToVMax - BRAKE_EPS), 0.0)];
      } else {
        t := t[0 := tToAMax + BRAKE_EPS];
      }
    }

    /** Every square root taken has an argument, and the times written bring the state inside its limits. */
    method GetPositionBrakeTrajectory(sqrt: real -> real, v0: real, a0: real, vMax: real, vMin: real,
                                      aMax: real, aMin: real, jMax: real)
      requires Sized() && IsSqrt(sqrt)
      requires Limits(vMax, vMin, aMax, aMin, jMax) || jMax == 0.0 || aMax == 0.0 || aMin == 0.0
      modifies this`t, this`j
      ensures Sized() && j[1] == 0.0
      ensures Limits(vMax, vMin, aMax, aMin, jMax) ==>
        && t[0] >= 0.0 && t[1] >= 0.0 && (j[0] == 0.0 ==> t == [0.0, 0.0])
        && Braked(v0, a0, BrakedVelocity(v0, a0, j[0], t[0], t[1]), After(a0, j[0], t[0]), vMax, vMin, aMax, aMin, jMax,
                  j[0], t[1])
      ensures !Limits(vMax, vMin, aMax, aMin, jMax) ==> t == [0.0, 0.0] && j == [0.0, 0.0]
    {
      hide VelocityBrakeTimes, AccelerationBrakeTimes, Relieved, Braked, VAtAZero, BrakedVelocity, After, Rise,
           Excessive;
      t, j := [0.0, 0.0], [0.0, 0.0];
      if jMax == 0.0 || aMax == 0.0 || aMin == 0.0 {
        return;
      }
      BrakesDownMeans(v0, a0, vMax, vMin, jMax);
      BrakesDownMeans(-v0, -a0, -vMin, -vMax, jMax);
      BrakesUpMeans(v0, a0, vMax, vMin, jMax);
      if a0 > aMax {
        AccelerationBrakeLands(sqrt, v0, a0, vMax, vMin, aMax, aMin, jMax);
        AccelerationBrake(sqrt, v0, a0, vMax, vMin, aMax, aMin, jMax);
        BrakedFromAbove(v0, a0, vMax, vMin, aMax, aMin, jMax, t[0], t[1]);
      } else if a0 < aMin {
        AccelerationDown(sqrt, v0, a0, vMax, vMin, aMax, aMin, jMax);
        AccelerationBrake(sqrt, v0, a0, vMin, vMax, aMin, aMax, -jMax);
        BrakedFromBelow(v0, a0, vMax, vMin, aMax, aMin, jMax, t[0], t[1]);
      } else if (v0 > vMax && VAtAZero(v0, a0, -jMax) > vMin) || (a0 > 0.0 && VAtAZero(v0, a0, jMax) > vMax) {
        BrakesDownRoots(v0, a0, vMax, vMin, jMax);
        VelocityBrakeLands(sqrt, v0, a0, vMax, vMin, aMax, aMin, jMax);
        VelocityBrake(sqrt, v0, a0, vMax, vMin, aMin, jMax);
        BrakedFromAbove(v0, a0, vMax, vMin, aMax, aMin, jMax, t[0], t[1]);
      } else if (v0 < vMin && VAtAZero(v0, a0, jMax) < vMax) || (a0 < 0.0 && VAtAZero(v0, a0, -jMax) < vMin) {
        VelocityDown(sqrt, v0, a0, vMax, vMin, aMax, aMin, jMax);
        VelocityBrake(sqrt, v0, a0, vMin, vMax, aMax, -jMax);
        BrakedFromBelow(v0, a0, vMax, vMin, aMax, aMin, jMax, t[0], t[1]);
      } else {
        NotBraked(v0, a0, vMax, vMin, aMax, aMin, jMax);
      }
    }

    function Value(): BrakePlan
      reads this
    {
      BrakePlan(duration, t, j, a, v, p)
    }

    /** The state at the end of the brake takes the place of the one at its start. */
    method Finalize(s: Knot) returns (s': Knot)
      requires Sized() && t[0] >= 0.0 && t[1] >= 0.0
      modifies this`duration, this`p, this`v, this`a
      ensures Sized() && Leads(Value(), s, s')
    {
      hide Profiles.Integrate;
      s' := s;
      NoTimeAtAll(s, j[0]);
      NoTimeAtAll(Integrate(s, j[0], t[0]), j[1]);
      if t[0] <= 0.0 && t[1] <= 0.0 {
        duration := 0.0;
        return;
      }
      duration := t[0];
      p, v, a := p[0 := s'.p], v[0 := s'.v], a[0 := s'.a];
      s' := Integrate(s', j[0], t[0]);
      if t[1] > 0.0 {
        duration := duration + t[1];
        p, v, a := p[1 := s'.p], v[1 := s'.v], a[1 := s'.a];
        s' := Integrate(s', j[1], t[1]);
      }
    }

    /** Braking and finalizing, as the calculator does for every axis: what braking achieves is achieved. */
    method BrakeAndFinalize(sqrt: real -> real, s: Knot, vMax: real, vMin: real,
                            aMax: real, aMin: real, jMax: real) returns (s': Knot)
      requires Sized() && IsSqrt(sqrt) && Limits(vMax, vMin, aMax, aMin, jMax)
      modifies this
      ensures Sized() && Leads(Value(), s, s') && aMin <= s'.a <= aMax
      ensures j[1] == 0.0 && (j[0] == jMax || j[0] == -jMax || j[0] == 0.0)
      ensures Braked(s.v, s.a, s'.v, s'.a, vMax, vMin, aMax, aMin, jMax, j[0], t[1])
      ensures duration == 0.0 ==> s' == s
    {
      hide After, Rise, Relieved, CalledFor;
      GetPositionBrakeTrajectory(sqrt, s.v, s.a, vMax, vMin, aMax, aMin, jMax);
      s' := Finalize(s);
      NoPush(After(s.a, j[0], t[0]), t[1]);
      NoTimeAtAll(s, j[0]);
      NoTimeAtAll(Integrate(s, j[0], t[0]), 0.0);
    }
  }

  /** A brake as a value. */
  datatype BrakePlan = BrakePlan(duration: real, t: seq<real>, j: seq<real>, a: seq<real>, v: seq<real>, p: seq<real>)

  /** The two steps of a brake lead from `s` to `s'`, and a brake that takes time records where each step starts. */
  predicate Leads(brake: BrakePlan, s: Knot, s': Knot) {
    && |brake.t| == 2 && |brake.j| == 2 && |brake.a| == 2 && |brake.v| == 2 && |brake.p| == 2
    && brake.t[0] >= 0.0 && brake.t[1] >= 0.0 && brake.duration == brake.t[0] + brake.t[1]
    && var middle := Integrate(s, brake.j[0], brake.t[0]);
    && s' == Integrate(middle, brake.j[1], brake.t[1])
    && (brake.duration > 0.0 ==> Knot(brake.p[0], brake.v[0], brake.a[0]) == s)
    && (brake.t[1] > 0.0 ==> Knot(brake.p[1], brake.v[1], brake.a[1]) == middle)
  }

  lemma NoTimeAtAll(s: Knot, j: real)
    ensures Integrate(s, j, 0.0) == s
  {}

  lemma AccelerationDown(sqrt: real -> real, v0: real, a0: real, vMax: real, vMin: real, aMax: real, aMin: real,
                         j: real)
    requires IsSqrt(sqrt) && Limits(vMax, vMin, aMax, aMin, j) && a0 < aMin
    ensures TooFast(v0, a0, vMin, -j) ==> RootsExist(v0, a0, vMin, vMax, -j)
    ensures var t := AccelerationBrakeTimes(sqrt, v0, a0, vMin, vMax, aMin, aMax, -j);
      Lands(-v0, -a0, -vMin, -vMax, -aMin, -aMax, j, t.0, t.1)
  {
    hide TooFast, RootsExist, AccelerationBrakeTimes, Lands;
    AccelerationBrakeLands(sqrt, -v0, -a0, -vMin, -vMax, -aMin, -aMax, j);
    AccelerationBrakeMirrored(sqrt, -v0, -a0, -vMin, -vMax, -aMin, -aMax, j);
    assert -(-v0) == v0 && -(-a0) == a0 && -(-vMin) == vMin && -(-vMax) == vMax && -(-aMin) == aMin && -(-aMax) == aMax;
  }

  lemma VelocityDown(sqrt: real -> real, v0: real, a0: real, vMax: real, vMin: real, aMax: real, aMin: real, j: real)
    requires IsSqrt(sqrt) && Limits(vMax, vMin, aMax, aMin, j) && aMin <= a0 <= aMax
    requires (v0 < vMin && VAtAZero(v0, a0, j) < vMax) || (a0 < 0.0 && VAtAZero(v0, a0, -j) < vMin)
    ensures RootsExist(v0, a0, vMin, vMax, -j)
    ensures var t := VelocityBrakeTimes(sqrt, v0, a0, vMin, vMax, aMax, -j);
      Lands(-v0, -a0, -vMin, -vMax, -aMin, -aMax, j, t.0, t.1)
  {
    BrakesUpMeans(v0, a0, vMax, vMin, j);
    hide RootsExist, VelocityBrakeTimes, Lands, VAtAZero, Excessive;
    assert -(-v0) == v0 && -(-a0) == a0 && -(-vMin) == vMin && -(-vMax) == vMax && -(-aMin) == aMin &&
           -(-aMax) == aMax && -(-j) == j;
    BrakesDownMeans(-v0, -a0, -vMin, -vMax, j);
    BrakesDownRoots(-v0, -a0, -vMin, -vMax, j);
    VelocityBrakeLands(sqrt, -v0, -a0, -vMin, -vMax, -aMin, -aMax, j);
    VelocityBrakeMirrored(sqrt, -v0, -a0, -vMin, -vMax, -aMax, j);
  }

  lemma AZeroMirrored(v0: real, a0: real, j: real)
    requires j != 0.0
    ensures VAtAZero(-v0, -a0, -j) == -VAtAZero(v0, a0, j)
  {
    assert (-a0) * (-a0) == a0 * a0 && 2.0 * -j == -(2.0 * j);
    var q := a0 * a0 / (2.0 * j);
    assert a0 * a0 / -(2.0 * j) == -q;
  }

  /** The mirror image of the test for braking downwards. */
  lemma BrakesUpMeans(v0: real, a0: real, vMax: real, vMin: real, j: real)
    requires j > 0.0
    ensures BrakesDown(-v0, -a0, -vMin, -vMax, j) <==>
      (v0 < vMin && VAtAZero(v0, a0, j) < vMax) || (a0 < 0.0 && VAtAZero(v0, a0, -j) < vMin)
  {
    AZeroMirrored(v0, a0, j);
    AZeroMirrored(v0, a0, -j);
    assert -(-j) == j;
    hide VAtAZero;
  }

  lemma NotBraked(v0: real, a0: real, vMax: real, vMin: real, aMax: real, aMin: real, j: real)
    requires Limits(vMax, vMin, aMax, aMin, j) && aMin <= a0 <= aMax
    requires !BrakesDown(v0, a0, vMax, vMin, j) && !BrakesDown(-v0, -a0, -vMin, -vMax, j)
    ensures Braked(v0, a0, BrakedVelocity(v0, a0, 0.0, 0.0, 0.0), After(a0, 0.0, 0.0), vMax, vMin, aMax, aMin, j, 0.0,
                   0.0)
  {
    BrakesDownMeans(v0, a0, vMax, vMin, j);
    BrakesDownMeans(-v0, -a0, -vMin, -vMax, j);
    NoTime(a0, 0.0);
    hide Excessive, BrakesDown, Relieved, After, Rise;
  }
}
