/** The few facts about primes that the order of the checksum polynomial needs. */
module Divisibility {

  /** If the prime p divides t * d for some 0 < t < p, then it divides d. */
  lemma {:induction false} PrimeDivides(p: nat, t: nat, d: nat, w: int) returns (e: nat)
    requires 0 < t < p && t * d == p * w
    requires forall f :: 1 < f < p ==> p % f != 0
    ensures d == p * e
    decreases t
  {
    if t == 1 {
      e := w;
    } else {
      var s, q := p % t, p / t;
      assert s * d == p * (d - q * w) by {
        assert s == p - q * t;
        assert s * d == p * d - (q * t) * d;
        assert (q * t) * d == q * (t * d) == q * (p * w) == p * (q * w);
      }
      e := PrimeDivides(p, s, d, d - q * w);
    }
  }

  lemma Rearrange(p: int, c: int, q: int, d: int, r: int, m: int)
    requires c == q * d + r && p * c == m * d
    ensures p * r == (m - p * q) * d
  {
    assert p * (q * d + r) == p * (q * d) + p * r;
    assert p * (q * d) == (p * q) * d;
  }

  lemma SmallFactor(t: int, p: nat, r: nat, d: nat)
    requires p * r == t * d && 0 < r < d && p > 0
    ensures 0 < t < p
  {
    assert 0 < p * r < p * d;
    if t <= 0 {
      Scaling(t, 0, d);
    } else if p <= t {
      Scaling(p, t, d);
    }
  }

  lemma Scaling(a: int, b: int, d: nat)
    requires a <= b
    ensures a * d <= b * d
  {}

  lemma Factors151(e: nat, m: nat)
    requires e * m == 151
    ensures e == 1 || e == 151
  {
    if 13 <= e && 13 <= m {
      Scaling(13, e, m);
    } else if e < 13 {
      assert e == 1 || e == 2 || e == 3 || e == 4 || e == 5 || e == 6 || e == 7 || e == 8 || e == 9
          || e == 10 || e == 11 || e == 12;
    } else {
      assert m == 1 || m == 2 || m == 3 || m == 4 || m == 5 || m == 6 || m == 7 || m == 8 || m == 9
          || m == 10 || m == 11 || m == 12;
    }
  }
}
