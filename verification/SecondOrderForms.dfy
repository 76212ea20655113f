/**
 * The closed forms of position_second_step2.cpp for a prescribed duration: all of them reach the target exactly.
 */
module SecondOrderForms {
  import opened Kinematics
  import opened RealArithmetic
  import opened SecondOrder

  /** The squared cruise time of the profile that goes up, cruises and goes down. */
  function CruiseSquare(v0: real, vf: real, pd: real, tf: real, u: real, d: real): real
    requires u != 0.0 && d != 0.0
  {
    (2.0 * u * (pd - tf * vf) - 2.0 * d * (pd - tf * v0) + (vf - v0) * (vf - v0)) / (u * d) + tf * tf
  }

  function UpTime(v0: real, vf: real, tf: real, u: real, d: real, h: real): real
    requires u != 0.0 && u != d
  {
    (u * (vf - v0) - u * d * (tf - h)) / (u * (u - d))
  }

  /** The first of two equal accelerations with a cruise between them. */
  function UpUpTime(vd: real, pd: real, v: real, T: real, u: real, h1: real): real
    requires u != 0.0 && h1 != 0.0
  {
    -vd * vd / (2.0 * u * h1) + (pd - v * T) / h1
  }

  lemma UpTimeMeans(v0: real, vf: real, tf: real, u: real, d: real, h: real, t0: real)
    requires u != 0.0 && u != d && t0 == UpTime(v0, vf, tf, u, d, h)
    ensures Mul(u - d, t0) == vf - v0 - Mul(d, tf - h)
  {
    var k := u * (u - d);
    assert k != 0.0 by {
      if k == 0.0 { Cancel(u, u - d, 0.0); }
    }
    QuotientTimes(u * (vf - v0) - u * d * (tf - h), k, t0);
    var x, y := (u - d) * t0, vf - v0 - d * (tf - h);
    assert u * x == u * y;
    Cancel(u, x, y);
  }

  lemma CruiseSquareMeans(v0: real, vf: real, pd: real, tf: real, u: real, d: real, e: real)
    requires u != 0.0 && d != 0.0 && e == CruiseSquare(v0, vf, pd, tf, u, d)
    ensures Mul(u * d, e - tf * tf)
         == 2.0 * (u * (pd - tf * vf)) - 2.0 * (d * (pd - tf * v0)) + Sq(vf - v0)
  {
    var k := u * d;
    assert k != 0.0 by {
      if k == 0.0 { Cancel(u, d, 0.0); }
    }
    QuotientTimes(2.0 * u * (pd - tf * vf) - 2.0 * d * (pd - tf * v0) + (vf - v0) * (vf - v0), k, e - tf * tf);
  }

  lemma WeightedSquares(u: real, d: real, vf: real, v0: real, W: real)
    requires W == u * vf - d * v0
    ensures Sq(W) == Mul(u * d, Sq(vf - v0)) + Mul(u - d, u * Sq(vf) - d * Sq(v0))
  {
    var x, y, z := u * vf, d * v0, vf - v0;
    assert Sq(W) == x * x - 2.0 * (x * y) + y * y;
    assert z * z == vf * vf - 2.0 * (vf * v0) + v0 * v0;
  }

  lemma SquareExcess(u: real, d: real, vf: real, v0: real, pd: real, tf: real, W: real)
    requires W == u * vf - d * v0
    ensures 2.0 * (u * (pd - tf * vf)) - 2.0 * (d * (pd - tf * v0)) == 2.0 * Mul(u - d, pd) - 2.0 * Mul(tf, W)
  {
    assert u * (pd - tf * vf) == u * pd - tf * (u * vf) && d * (pd - tf * v0) == d * pd - tf * (d * v0);
  }

  /** `m` is the cruise speed times `u - d`. */
  lemma ScaledSpeed(u: real, d: real, vf: real, v0: real, tf: real, h: real, t0: real, top: real, W: real)
    requires W == u * vf - d * v0 && Mul(u - d, t0) == vf - v0 - Mul(d, tf - h) && top == After(v0, u, t0)
    ensures Mul(u - d, top) == W - Mul(u * d, tf) + Mul(u * d, h)
  {
    assert (u - d) * top == (u - d) * v0 + u * ((u - d) * t0);
    assert u * (d * (tf - h)) == (u * d) * tf - (u * d) * h;
  }

  lemma DifferenceSquares(K: real, b: real, m: real)
    requires m == K + b
    ensures -Sq(m) + 2.0 * Mul(b, m) == -Sq(K) + Sq(b)
  {}

  lemma ShiftedSquare(W: real, c: real, K: real)
    requires K == W - c
    ensures -Sq(K) + Sq(c) == -Sq(W) + 2.0 * Mul(W, c)
  {}

  lemma ScaledSquare(k: real, h: real, tf: real, F: real)
    requires Mul(k, h * h - tf * tf) == F
    ensures Sq(Mul(k, h)) == Mul(k, F) + Sq(Mul(k, tf))
  {
    assert (k * h) * (k * h) == k * (k * (h * h - tf * tf)) + (k * tf) * (k * tf);
  }

  lemma Regroup(k: real, w: real, pd: real, tf: real, W: real, dd: real, F: real)
    requires F == 2.0 * Mul(w, pd) - 2.0 * Mul(tf, W) + dd
    ensures Mul(k, F) + 2.0 * Mul(W, Mul(k, tf)) == 2.0 * Mul(k, Mul(w, pd)) + Mul(k, dd)
  {}

  /** The distance covered, scaled by `u - d`, is that of the target. */
  lemma ScaledDistance(u: real, d: real, w: real, k: real, v0: real, vf: real, pd: real, tf: real, h: real,
                       m: real, W: real, total: real)
    requires W == u * vf - d * v0 && k == u * d && w == u - d && m == W - Mul(k, tf) + Mul(k, h)
    requires Mul(k, h * h - tf * tf) == 2.0 * (u * (pd - tf * vf)) - 2.0 * (d * (pd - tf * v0)) + Sq(vf - v0)
    requires total == -Sq(m) + 2.0 * Mul(Mul(k, h), m) + Mul(w, u * Sq(vf) - d * Sq(v0))
    ensures total == 2.0 * Mul(k, Mul(w, pd))
  {
    var F := Mul(k, h * h - tf * tf);
    SquareExcess(u, d, vf, v0, pd, tf, W);
    WeightedSquares(u, d, vf, v0, W);
    hide Mul, Sq;
    DifferenceSquares(W - Mul(k, tf), Mul(k, h), m);
    ScaledSquare(k, h, tf, F);
    ShiftedSquare(W, Mul(k, tf), W - Mul(k, tf));
    Regroup(k, w, pd, tf, W, Sq(vf - v0), F);
  }

  lemma ScaledFlanks(u: real, d: real, v0: real, vf: real, top: real, h: real, m: real, flanks: real)
    requires 2.0 * u * d * flanks == d * (top * top - v0 * v0) + u * (vf * vf - top * top) && m == Mul(u - d, top)
    ensures 2.0 * Mul(u * d, Mul(u - d, flanks + Mul(h, top)))
         == -Sq(m) + 2.0 * Mul(Mul(u * d, h), m) + Mul(u - d, u * Sq(vf) - d * Sq(v0))
  {
    var w, k := u - d, u * d;
    assert 2.0 * (k * flanks) == -(w * (top * top)) + (u * (vf * vf) - d * (v0 * v0));
    assert w * (2.0 * (k * flanks)) == -((w * top) * (w * top)) + w * (u * (vf * vf) - d * (v0 * v0));
    assert k * (w * (h * top)) == (k * h) * (w * top);
    assert k * (w * (flanks + h * top)) == k * (w * flanks) + k * (w * (h * top));
    assert k * (w * flanks) == w * (k * flanks);
  }

  /** Up, cruise, down: exact whenever the cruise time is a root of its square. */
  lemma UpDownReaches(v0: real, vf: real, pd: real, tf: real, u: real, d: real, h: real, t0: real)
    requires u != 0.0 && d != 0.0 && u != d && h * h == CruiseSquare(v0, vf, pd, tf, u, d)
    requires t0 == UpTime(v0, vf, tf, u, d, h)
    ensures Reaches(v0, vf, pd, After(v0, u, t0), u, d, t0, h, tf - (t0 + h))
  {
    var top, t2, W := After(v0, u, t0), tf - (t0 + h), u * vf - d * v0;
    UpTimeMeans(v0, vf, tf, u, d, h, t0);
    CruiseSquareMeans(v0, vf, pd, tf, u, d, h * h);
    hide CruiseSquare, UpTime;
    EndSpeed(v0, vf, tf, u, d, h, t0, t2);
    FlankDistance(v0, vf, top, u, d, t0, t2);
    ScaledSpeed(u, d, vf, v0, tf, h, t0, top, W);
    var flanks, m := Rise(v0, u, t0) + Rise(top, d, t2), Mul(u - d, top);
    hide After, Rise;
    ScaledFlanks(u, d, v0, vf, top, h, m, flanks);
    ScaledDistance(u, d, u - d, u * d, v0, vf, pd, tf, h, m, W,
                   -Sq(m) + 2.0 * Mul(Mul(u * d, h), m) + Mul(u - d, u * Sq(vf) - d * Sq(v0)));
    CruiseRise(top, h);
    hide Sq;
    CancelTwice(u, d, flanks + Mul(h, top), pd);
  }

  lemma CruiseRise(top: real, h: real)
    ensures Rise(top, 0.0, h) == Mul(h, top)
  {}

  lemma CancelTwice(u: real, d: real, x: real, y: real)
    requires u != 0.0 && d != 0.0 && u != d && Mul(u * d, Mul(u - d, x)) == Mul(u * d, Mul(u - d, y))
    ensures x == y
  {
    assert u * d != 0.0 by {
      if u * d == 0.0 { Cancel(u, d, 0.0); }
    }
    Cancel(u * d, (u - d) * x, (u - d) * y);
    Cancel(u - d, x, y);
  }

  lemma EndSpeed(v0: real, vf: real, tf: real, u: real, d: real, h: real, t0: real, t2: real)
    requires Mul(u - d, t0) == vf - v0 - Mul(d, tf - h) && t2 == tf - (t0 + h)
    ensures After(After(v0, u, t0), d, t2) == vf
  {
    assert t2 * d == d * (tf - h) - d * t0;
  }

  /** Up, cruise, up: two equal accelerations with the cruise between them. */
  lemma UpUpReaches(v0: real, vf: real, pd: real, tf: real, u: real, h1: real, t0: real, t1: real, t6: real)
    requires u != 0.0 && h1 == -(vf - v0) + u * tf && h1 != 0.0
    requires t0 == UpUpTime(vf - v0, pd, v0, tf, u, h1)
    requires t1 == -(vf - v0) / u + tf && t6 == tf - (t0 + t1)
    ensures var top := After(v0, u, t0);
      After(top, u, t6) == vf && Rise(v0, u, t0) + Rise(top, 0.0, t1) + Rise(top, u, t6) == pd
  {
    var vd, top := vf - v0, After(v0, u, t0);
    var s := t0 + t6;
    SumOfRises(vd, u, tf, t1, s);
    UpTimeScaled(vd, pd, v0, tf, u, h1, t0);
    assert Mul(u, t1) == h1 by {
      QuotientTimes(-vd, u, -vd / u);
    }
    UpUpSpeed(v0, u, t0, t6, s, vd, vf);
    UpUpDistance(v0, vd, u, tf, h1, t0, t1, t6, s, pd);
  }

  lemma SumOfRises(vd: real, u: real, tf: real, t1: real, s: real)
    requires u != 0.0 && t1 == -vd / u + tf && s == tf - t1
    ensures Mul(u, s) == vd
  {
    QuotientTimes(-vd, u, -vd / u);
  }

  lemma UpTimeScaled(vd: real, pd: real, v0: real, tf: real, u: real, h1: real, t0: real)
    requires u != 0.0 && h1 != 0.0 && t0 == UpUpTime(vd, pd, v0, tf, u, h1)
    ensures 2.0 * Mul(u, Mul(t0, h1)) == -Sq(vd) + 2.0 * Mul(u, pd - v0 * tf)
  {
    var k := 2.0 * u * h1;
    assert k != 0.0 by {
      if k == 0.0 { Cancel(2.0 * u, h1, 0.0); }
    }
    var x, y := -vd * vd / k, (pd - v0 * tf) / h1;
    QuotientTimes(-vd * vd, k, x);
    QuotientTimes(pd - v0 * tf, h1, y);
    assert 2.0 * (u * (x * h1)) == x * k;
    assert t0 * h1 == x * h1 + y * h1;
    assert u * (t0 * h1) == u * (x * h1) + u * (y * h1);
    assert -vd * vd == -(vd * vd);
  }

  lemma UpUpSpeed(v0: real, u: real, t0: real, t6: real, s: real, vd: real, vf: real)
    requires s == t0 + t6 && Mul(u, s) == vd == vf - v0
    ensures After(After(v0, u, t0), u, t6) == vf
  {
    assert u * s == t0 * u + t6 * u;
  }

  lemma UpUpDistance(v0: real, vd: real, u: real, tf: real, h1: real, t0: real, t1: real, t6: real, s: real, pd: real)
    requires u != 0.0 && s == t0 + t6 && tf == s + t1 && Mul(u, s) == vd && Mul(u, t1) == h1
    requires 2.0 * Mul(u, Mul(t0, h1)) == -Sq(vd) + 2.0 * Mul(u, pd - v0 * tf)
    ensures var top := After(v0, u, t0); Rise(v0, u, t0) + Rise(top, 0.0, t1) + Rise(top, u, t6) == pd
  {
    var top := After(v0, u, t0);
    var x := Rise(v0, u, t0) + Rise(top, 0.0, t1) + Rise(top, u, t6);
    RisesTogether(v0, u, t0, t1, t6, s, tf, x);
    assert Mul(u, Mul(t0, h1)) == Mul(u, u * (t0 * t1)) by {
      assert t0 * h1 == u * (t0 * t1);
    }
    assert Sq(vd) == u * (u * (s * s)) by {
      assert vd * vd == (u * s) * (u * s);
    }
    var rest := u * (t0 * t1) + u * (s * s) / 2.0;
    assert u * (x - v0 * tf) == u * rest;
    assert u * rest == u * (u * (t0 * t1)) + u * (u * (s * s)) / 2.0;
    assert u * (pd - v0 * tf) == u * (x - v0 * tf);
    Cancel(u, pd - v0 * tf, x - v0 * tf);
  }

  lemma RisesTogether(v0: real, u: real, t0: real, t1: real, t6: real, s: real, tf: real, x: real)
    requires s == t0 + t6 && tf == s + t1
    requires x == Rise(v0, u, t0) + Rise(After(v0, u, t0), 0.0, t1) + Rise(After(v0, u, t0), u, t6)
    ensures x == v0 * tf + u * (t0 * t1) + u * (s * s) / 2.0
  {
    assert s * s == t0 * t0 + 2.0 * (t0 * t6) + t6 * t6;
  }

  /** One acceleration and a cruise: the acceleration is whatever it takes. */
  lemma RampReaches(v0: real, vf: real, pd: real, tf: real, h1: real, t0: real, a: real)
    requires h1 == 2.0 * (vf * tf - pd) && vf != v0 && h1 != 0.0 && t0 == h1 / (vf - v0)
    requires a == (vf - v0) * (vf - v0) / h1
    ensures After(v0, a, t0) == vf && Rise(v0, a, t0) + Rise(vf, 0.0, tf - t0) == pd
  {
    var vd := vf - v0;
    QuotientTimes(h1, vd, t0);
    QuotientTimes(vd * vd, h1, a);
    assert t0 * a == vd by {
      assert vd * (t0 * a) == (t0 * vd) * a;
      Cancel(vd, t0 * a, vd);
    }
    Trapezium2(v0, a, t0);
    assert Rise(v0, a, t0) == t0 * (v0 + vf) / 2.0;
    assert Rise(vf, 0.0, tf - t0) == tf * vf - t0 * vf;
    assert t0 * (v0 + vf) / 2.0 - t0 * vf == -(t0 * vd) / 2.0;
  }

  lemma Trapezium2(v: real, a: real, t: real)
    ensures Rise(v, a, t) == t * (v + After(v, a, t)) / 2.0
  {}
}
