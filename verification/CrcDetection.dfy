/**
 * Which transmission errors the 16-bit checksum of the inertial-sensor link cannot miss.
 *
 * A received word is the payload bits followed by the sixteen checksum bits. Two valid words of the
 * same length differ in at least four places, and never inside one window of sixteen bits.
 */
module CrcDetection {
  import opened CrcDivision
  import opened CrcParity

  // ---------------------------------------------------------------- words and remainders

  /** Remainder of the word itself; a word is valid exactly when it is zero (see `ValidWord`). */
  function Rem16(w: Bits): bv16 {
    if w == [] then 0 else Xor16(Zero16(Rem16(w[..|w| - 1])), w[|w| - 1] as bv16)
  }

  function Field16(crc: bv16): (f: Bits)
    ensures |f| == 16
  {
    Msb((crc >> 8) as bv8) + Msb((crc & 0xFF) as bv8)
  }

  lemma {:induction false} RemAppend(a: Bits, b: Bits)
    ensures Rem16(a + b) == Xor16(Zeros16(Rem16(a), |b|), Rem16(b))
  {
    hide Zero16, Xor16;
    if b == [] {
      assert a + b == a;
      XorZero(Rem16(a));
    } else {
      var b' := b[..|b| - 1];
      RemAppend(a, b');
      assert (a + b)[..|a + b| - 1] == a + b';
      Zero16Linear(Zeros16(Rem16(a), |b'|), Rem16(b'));
      XorAssociative(Zeros16(Rem16(a), |b|), Zero16(Rem16(b')), b[|b| - 1] as bv16);
    }
  }

  lemma XorZero(a: bv16)
    ensures Xor16(a, 0) == a && Xor16(a, a) == 0
  {}

  lemma XorAssociative(a: bv16, b: bv16, c: bv16)
    ensures Xor16(Xor16(a, b), c) == Xor16(a, Xor16(b, c))
  {
    assert (a ^ b) ^ c == a ^ (b ^ c);
  }

  lemma ShiftIsZeroBits(crc: bv16, bit: bv1)
    ensures Shift16(crc, bit) == Zero16(crc) ^ Poly16(bit as bv16)
  {}

  lemma ShiftIsZero(crc: bv16, bit: bv1)
    ensures Shift16(crc, bit) == Xor16(Zero16(crc), Poly16(bit as bv16))
  {
    hide Shift16, Zero16, Poly16;
    ShiftIsZeroBits(crc, bit);
  }

  lemma SixteenZeros()
    ensures Zeros16(1, 16) == 0x1021
  {
    ZerosAdd(1, 8, 8);
    Zeros16Unrolled(1);
    Zeros16Unrolled(0x100);
  }

  lemma ShiftRemainder(r: bv16, b: bv1, n: nat)
    requires n == 16
    ensures Zeros16(Xor16(Zero16(r), b as bv16), n) == Shift16(Zeros16(r, n), b)
  {
    hide Zeros16, Zero16, Shift16, Poly16, Xor16;
    Zeros16Linear(Zero16(r), b as bv16, n);
    OneMoreZero(r, n);
    ShiftedBit(b, n);
    ShiftIsZero(Zeros16(r, n), b);
  }

  /** Dividing a message is shifting its own remainder past the sixteen checksum places. */
  lemma {:induction false} DivideIsShiftedRemainder(m: Bits, n: nat)
    requires n == 16
    ensures Divide16(0, m) == Zeros16(Rem16(m), n)
  {
    if m == [] {
      ZerosOfZero(n);
    } else {
      DivideIsShiftedRemainder(m[..|m| - 1], n);
      ShiftRemainder(Rem16(m[..|m| - 1]), m[|m| - 1], n);
    }
  }

  lemma ShiftedBit(b: bv1, n: nat)
    requires n == 16
    ensures Zeros16(b as bv16, n) == Poly16(b as bv16)
  {
    assert b == 0 || b == 1;
    SixteenZeros();
    ZerosOfZero(16);
  }

  lemma {:induction false} OneMoreZero(c: bv16, n: nat)
    ensures Zeros16(Zero16(c), n) == Zero16(Zeros16(c, n))
  {
    if n > 0 {
      OneMoreZero(c, n - 1);
    }
  }

  lemma {:induction false} ZerosOfZero(n: nat)
    ensures Zeros16(0, n) == 0
  {
    if n > 0 {
      ZerosOfZero(n - 1);
    }
  }

  lemma {:induction false} ZerosAdd(c: bv16, m: nat, n: nat)
    ensures Zeros16(c, m + n) == Zeros16(Zeros16(c, m), n)
  {
    if n > 0 {
      ZerosAdd(c, m, n - 1);
    }
  }

  // ---------------------------------------------------------------- counting flipped bits

  function Difference(v: Bits, w: Bits): (d: Bits)
    requires |v| == |w|
    ensures |d| == |v| && forall i :: 0 <= i < |v| ==> d[i] == v[i] ^ w[i]
  {
    seq(|v|, i requires 0 <= i < |v| => v[i] ^ w[i])
  }

  function Ones(w: Bits): nat {
    if w == [] then 0 else Ones(w[..|w| - 1]) + (if w[|w| - 1] == 1 then 1 else 0)
  }

  lemma {:induction false} RemLinear(v: Bits, w: Bits)
    requires |v| == |w|
    ensures Rem16(Difference(v, w)) == Xor16(Rem16(v), Rem16(w))
  {
    hide Zero16, Xor16;
    if v == [] {
      XorZero(0);
    } else {
      var v', w', i := v[..|v| - 1], w[..|w| - 1], |v| - 1;
      RemLinear(v', w');
      assert Difference(v, w)[..i] == Difference(v', w');
      Zero16Linear(Rem16(v'), Rem16(w'));
      XorPairs(Zero16(Rem16(v')), Zero16(Rem16(w')), v[i], w[i]);
    }
  }

  lemma WidenXor(v: bv1, w: bv1)
    ensures (v ^ w) as bv16 == Xor16(v as bv16, w as bv16)
  {}

  lemma XorCommutes(a: bv16, b: bv16)
    ensures Xor16(a, b) == Xor16(b, a)
  {}

  lemma XorPairs(a: bv16, b: bv16, v: bv1, w: bv1)
    ensures Xor16(Xor16(a, b), (v ^ w) as bv16) == Xor16(Xor16(a, v as bv16), Xor16(b, w as bv16))
  {
    hide *;
    var x, y := v as bv16, w as bv16;
    WidenXor(v, w);
    XorAssociative(a, b, Xor16(x, y));
    XorAssociative(b, x, y);
    XorCommutes(b, x);
    XorAssociative(x, b, y);
    XorAssociative(a, x, Xor16(b, y));
  }

  lemma {:induction false} NoOnes(w: Bits)
    requires Ones(w) == 0
    ensures Rem16(w) == 0
    ensures forall i :: 0 <= i < |w| ==> w[i] == 0
  {
    if w != [] {
      NoOnes(w[..|w| - 1]);
      assert w[|w| - 1] == 0;
    }
  }

  /** A word with one bit set is a power of x. */
  lemma {:induction false} OneOne(w: Bits) returns (i: nat)
    requires Ones(w) == 1
    ensures i < |w| && Rem16(w) == Zeros16(1, i)
  {
    hide Xor16;
    var w', b := w[..|w| - 1], w[|w| - 1];
    if b == 1 {
      NoOnes(w');
      i := 0;
      XorOntoZero(1);
    } else {
      var j := OneOne(w');
      i := j + 1;
      assert b == 0;
      XorZero(Zero16(Rem16(w')));
    }
  }

  lemma XorOntoZero(a: bv16)
    ensures Xor16(Zero16(0), a) == a
  {}

  /** A word with two bits set is the sum of two different powers of x. */
  lemma {:induction false} TwoOnes(w: Bits) returns (i: nat, j: nat)
    requires Ones(w) == 2
    ensures i < j < |w| && Rem16(w) == Xor16(Zeros16(1, j), Zeros16(1, i))
  {
    hide Xor16;
    var w', b := w[..|w| - 1], w[|w| - 1];
    if b == 1 {
      var k := OneOne(w');
      i, j := 0, k + 1;
    } else {
      var k, l := TwoOnes(w');
      i, j := k + 1, l + 1;
      assert b == 0;
      XorZero(Zero16(Rem16(w')));
      Zero16Linear(Zeros16(1, l), Zeros16(1, k));
    }
  }

  // ---------------------------------------------------------------- parity

  lemma {:induction false} RemParity(w: Bits)
    ensures Parity(Rem16(w)) == if Ones(w) % 2 == 1 then 1 else 0
  {
    hide Zero16, Xor16, Parity;
    if w == [] {
      ParityOfBit(0);
    } else {
      var w', b := w[..|w| - 1], w[|w| - 1];
      RemParity(w');
      ShiftKeepsParity(Rem16(w'));
      ParityLinear(Zero16(Rem16(w')), b as bv16);
      ParityOfBit(b);
      assert b == 0 || b == 1;
      XorBits();
    }
  }

  lemma XorBits()
    ensures Xor16(0, 0) == 0 && Xor16(0, 1) == 1 && Xor16(1, 0) == 1 && Xor16(1, 1) == 0
  {}
}
