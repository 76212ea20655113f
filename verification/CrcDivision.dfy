/**
 * Cyclic redundancy checks as what they are: remainders of polynomial division, one bit at a time.
 */
module CrcDivision {

  type Bytes = seq<bv8>
  type Bits = seq<bv1>

  /** The bits of one byte, most significant first. */
  function Msb(v: bv8): (b: Bits)
    ensures |b| == 8
  {
    [(v >> 7) as bv1, ((v >> 6) & 1) as bv1, ((v >> 5) & 1) as bv1, ((v >> 4) & 1) as bv1,
     ((v >> 3) & 1) as bv1, ((v >> 2) & 1) as bv1, ((v >> 1) & 1) as bv1, (v & 1) as bv1]
  }

  /** The bits of one byte, least significant first. */
  function Lsb(v: bv8): (b: Bits)
    ensures |b| == 8
  {
    [(v & 1) as bv1, ((v >> 1) & 1) as bv1, ((v >> 2) & 1) as bv1, ((v >> 3) & 1) as bv1,
     ((v >> 4) & 1) as bv1, ((v >> 5) & 1) as bv1, ((v >> 6) & 1) as bv1, (v >> 7) as bv1]
  }

  function MsbFirst(m: Bytes): Bits {
    if m == [] then [] else MsbFirst(m[..|m| - 1]) + Msb(m[|m| - 1])
  }

  function LsbFirst(m: Bytes): Bits {
    if m == [] then [] else LsbFirst(m[..|m| - 1]) + Lsb(m[|m| - 1])
  }

  // ---------------------------------------------------------------- polynomial division

  /** `t` times x^5 + x^4 + 1, in a bit-reversed register: 0x8C when `t` is 1. */
  function Poly8(t: bv8): bv8 {
    (t << 7) ^ (t << 3) ^ (t << 2)
  }

  /** `t` times x^12 + x^5 + 1: 0x1021 when `t` is 1. */
  function Poly16(t: bv16): bv16 {
    t ^ (t << 5) ^ (t << 12)
  }

  /** One division step: the polynomial is subtracted when the leaving bit differs from `bit`. */
  function Shift8(crc: bv8, bit: bv1): bv8 {
    (crc >> 1) ^ Poly8((crc & 1) ^ (bit as bv8))
  }

  function Shift16(crc: bv16, bit: bv1): bv16 {
    (crc << 1) ^ Poly16((crc >> 15) ^ (bit as bv16))
  }

  /** Remainder modulo x^8 + x^5 + x^4 + 1 (register bit-reversed). */
  function Divide8(crc: bv8, m: Bits): bv8
  {
    if m == [] then crc else Shift8(Divide8(crc, m[..|m| - 1]), m[|m| - 1])
  }

  /** Remainder modulo x^16 + x^12 + x^5 + 1. */
  function Divide16(crc: bv16, m: Bits): bv16
  {
    if m == [] then crc else Shift16(Divide16(crc, m[..|m| - 1]), m[|m| - 1])
  }

  lemma {:induction false} Divide8Append(crc: bv8, a: Bits, b: Bits)
    ensures Divide8(crc, a + b) == Divide8(Divide8(crc, a), b)
  {
    if b == [] {
      assert a + b == a;
    } else {
      Divide8Append(crc, a, b[..|b| - 1]);
      assert (a + b)[..|a + b| - 1] == a + b[..|b| - 1];
    }
  }

  lemma {:induction false} Divide16Append(crc: bv16, a: Bits, b: Bits)
    ensures Divide16(crc, a + b) == Divide16(Divide16(crc, a), b)
  {
    if b == [] {
      assert a + b == a;
    } else {
      Divide16Append(crc, a, b[..|b| - 1]);
      assert (a + b)[..|a + b| - 1] == a + b[..|b| - 1];
    }
  }

  // ---------------------------------------------------------------- shifting zeros is linear

  /** Multiplies by x modulo x^8 + x^5 + x^4 + 1; the register is bit-reversed. */
  function Zero8(c: bv8): bv8 {
    (c >> 1) ^ Poly8(c & 1)
  }

  /** Multiplies by x modulo x^16 + x^12 + x^5 + 1. */
  function Zero16(c: bv16): bv16 {
    (c << 1) ^ Poly16(c >> 15)
  }

  function EightZeros8(c: bv8): bv8 {
    Zero8(Zero8(Zero8(Zero8(Zero8(Zero8(Zero8(Zero8(c))))))))
  }

  function EightZeros16(c: bv16): bv16 {
    Zero16(Zero16(Zero16(Zero16(Zero16(Zero16(Zero16(Zero16(c))))))))
  }

  function Zeros8(c: bv8, n: nat): bv8
    decreases n
  {
    if n == 0 then c else Zero8(Zeros8(c, n - 1))
  }

  function Zeros16(c: bv16, n: nat): bv16
    decreases n
  {
    if n == 0 then c else Zero16(Zeros16(c, n - 1))
  }

  /** Exclusive or, by name: the solver rewrites equations between `^` terms it is better off keeping. */
  function Xor16(a: bv16, b: bv16): bv16 {
    a ^ b
  }

  lemma Zero16LinearBits(a: bv16, b: bv16)
    ensures Zero16(a ^ b) == Zero16(a) ^ Zero16(b)
  {}

  lemma Zero16Linear(a: bv16, b: bv16)
    ensures Zero16(Xor16(a, b)) == Xor16(Zero16(a), Zero16(b))
  {
    hide Zero16;
    Zero16LinearBits(a, b);
  }

  lemma {:induction false} Zeros16Linear(a: bv16, b: bv16, n: nat)
    ensures Zeros16(Xor16(a, b), n) == Xor16(Zeros16(a, n), Zeros16(b, n))
  {
    hide Zero16, Xor16;
    if n > 0 {
      Zeros16Linear(a, b, n - 1);
      Zero16Linear(Zeros16(a, n - 1), Zeros16(b, n - 1));
    }
  }

  lemma Zeros8Unrolled(c: bv8)
    ensures Zeros8(c, 8) == EightZeros8(c)
  {}

  lemma Zeros16Unrolled(c: bv16)
    ensures Zeros16(c, 8) == EightZeros16(c)
  {}

  // ---------------------------------------------------------------- one byte at a time

  /** The part of byte `v` that has not been fed after `k` steps. */
  function Unfed8(v: bv8, k: nat): bv8
    decreases k
  {
    if k == 0 then v else Unfed8(v, k - 1) >> 1
  }

  function Unfed16(v: bv8, k: nat): bv16
    decreases k
  {
    if k == 0 then (v as bv16) << 8 else Unfed16(v, k - 1) << 1
  }

  lemma NextBit8(v: bv8, k: nat)
    requires k < 8
    ensures Lsb(v)[k] == (Unfed8(v, k) & 1) as bv1
  {
    var u1 := Unfed8(v, 1);
    var u2 := Unfed8(v, 2);
    var u3 := Unfed8(v, 3);
    var u4 := Unfed8(v, 4);
    var u5 := Unfed8(v, 5);
    var u6 := Unfed8(v, 6);
    var u7 := Unfed8(v, 7);
  }

  lemma NextBit16(v: bv8, k: nat)
    requires k < 8
    ensures Msb(v)[k] == (Unfed16(v, k) >> 15) as bv1
  {
    var u1 := Unfed16(v, 1);
    var u2 := Unfed16(v, 2);
    var u3 := Unfed16(v, 3);
    var u4 := Unfed16(v, 4);
    var u5 := Unfed16(v, 5);
    var u6 := Unfed16(v, 6);
    var u7 := Unfed16(v, 7);
  }

  lemma Step8(a: bv8, u: bv8)
    ensures Zero8(a ^ u) == Shift8(a, (u & 1) as bv1) ^ (u >> 1)
  {}

  lemma Step16Bits(a: bv16, u: bv16)
    ensures Zero16(a ^ u) == Shift16(a, (u >> 15) as bv1) ^ (u << 1)
  {}

  lemma Step16(a: bv16, u: bv16)
    ensures Zero16(Xor16(a, u)) == Xor16(Shift16(a, (u >> 15) as bv1), u << 1)
  {
    hide Zero16, Shift16;
    Step16Bits(a, u);
  }

  lemma {:induction false} FeedPrefix8(crc: bv8, v: bv8, k: nat)
    requires k <= 8
    ensures Zeros8(crc ^ v, k) == Divide8(crc, Lsb(v)[..k]) ^ Unfed8(v, k)
  {
    if k > 0 {
      FeedPrefix8(crc, v, k - 1);
      assert Lsb(v)[..k][..k - 1] == Lsb(v)[..k - 1];
      NextBit8(v, k - 1);
      Step8(Divide8(crc, Lsb(v)[..k - 1]), Unfed8(v, k - 1));
    }
  }

  lemma FeedStep16(crc: bv16, v: bv8, k: nat)
    requires k < 8
    requires Zeros16(Xor16(crc, (v as bv16) << 8), k) == Xor16(Divide16(crc, Msb(v)[..k]), Unfed16(v, k))
    ensures Zeros16(Xor16(crc, (v as bv16) << 8), k + 1)
         == Xor16(Divide16(crc, Msb(v)[..k + 1]), Unfed16(v, k + 1))
  {
    hide Zero16, Shift16, Xor16, Msb;
    assert Msb(v)[..k + 1][..k] == Msb(v)[..k];
    NextBit16(v, k);
    Step16(Divide16(crc, Msb(v)[..k]), Unfed16(v, k));
  }

  lemma {:induction false} FeedPrefix16(crc: bv16, v: bv8, k: nat)
    requires k <= 8
    ensures Zeros16(Xor16(crc, (v as bv16) << 8), k) == Xor16(Divide16(crc, Msb(v)[..k]), Unfed16(v, k))
  {
    hide Zero16, Shift16, Xor16, Msb;
    if k > 0 {
      FeedPrefix16(crc, v, k - 1);
      FeedStep16(crc, v, k - 1);
    }
  }

  lemma Byte8(crc: bv8, v: bv8)
    ensures Divide8(crc, Lsb(v)) == Zeros8(crc ^ v, 8)
  {
    FeedPrefix8(crc, v, 8);
    assert Lsb(v)[..8] == Lsb(v);
    Fed8(v);
  }

  /** The high byte of the register once the message byte is xored in. */
  function Index16(crc: bv16, v: bv8): (k: bv16)
    ensures k < 256
  {
    ((crc >> 8) ^ (v as bv16)) & 0xFF
  }

  lemma Byte16(crc: bv16, v: bv8, n: nat)
    requires n == 8
    ensures Divide16(crc, Msb(v)) == Zeros16(Xor16(crc, (v as bv16) << 8), n)
  {
    hide Zeros16, Divide16, Unfed16;
    FeedPrefix16(crc, v, n);
    assert Msb(v)[..n] == Msb(v);
    Fed16(v);
  }

  lemma Fed8(v: bv8)
    ensures Unfed8(v, 8) == 0
  {}

  lemma Fed16(v: bv8)
    ensures Unfed16(v, 8) == 0
  {}

  lemma LowHalf(c: bv16)
    requires c < 256
    ensures Zeros16(c, 8) == c << 8
  {
    Zeros16Unrolled(c);
  }

  lemma SplitRegisterBits(crc: bv16, v: bv8)
    ensures crc ^ ((v as bv16) << 8) == (Index16(crc, v) << 8) ^ (crc & 0xFF)
  {}

  lemma XorEqual(a: bv16, b: bv16, c: bv16, d: bv16)
    requires a ^ b == c ^ d
    ensures Xor16(a, b) == Xor16(c, d)
  {}

  lemma SplitRegister(crc: bv16, v: bv8)
    ensures Xor16(crc, (v as bv16) << 8) == Xor16(Index16(crc, v) << 8, crc & 0xFF)
  {
    hide *;
    SplitRegisterBits(crc, v);
    XorEqual(crc, (v as bv16) << 8, Index16(crc, v) << 8, crc & 0xFF);
  }

  lemma ShiftHalves(high: bv16, low: bv16, n: nat)
    requires low < 256 && n == 8
    ensures Zeros16(Xor16(high, low), n) == Xor16(Zeros16(high, n), low << 8)
  {
    hide *;
    Zeros16Linear(high, low, n);
    LowHalf(low);
  }

  /** Feeding a byte moves the low half of the register up and shifts its new high half through. */
  lemma DivideByIndex(crc: bv16, v: bv8, n: nat)
    requires n == 8
    ensures Divide16(crc, Msb(v)) == Xor16(Zeros16(Index16(crc, v) << 8, n), crc << 8)
  {
    hide *;
    Byte16(crc, v, n);
    SplitRegister(crc, v);
    ShiftHalves(Index16(crc, v) << 8, crc & 0xFF, n);
    assert (crc & 0xFF) << 8 == crc << 8;
  }
}
