/**
 * The order of x modulo x^16 + x^12 + x^5 + 1 is 32767: no smaller power of x is 1.
 */
module CrcOrder {
  import opened CrcDivision
  import opened CrcDetection
  import opened Divisibility

  function Power(n: nat): bv16 {
    Zeros16(1, n)
  }

  // ---------------------------------------------------------------- multiplication

  function Gate(a: bv16, b: bv1): bv16 {
    if b == 1 then a else 0
  }

  function MulStep(r: bv16, a: bv16, b: bv1): bv16 {
    Xor16(Zero16(r), Gate(a, b))
  }

  /** The product of `a` and the polynomial with coefficients `w`, highest first. */
  function Mul(a: bv16, w: Bits): bv16
  {
    if w == [] then 0 else MulStep(Mul(a, w[..|w| - 1]), a, w[|w| - 1])
  }

  lemma {:induction false} ZerosOfGate(b: bv1, m: nat)
    ensures Zeros16(b as bv16, m) == Gate(Power(m), b)
  {
    assert b == 0 || b == 1;
    ZerosOfZero(m);
  }

  /** Shifting by m places is multiplying by x^m. */
  lemma {:induction false} ShiftIsMul(w: Bits, m: nat)
    ensures Zeros16(Rem16(w), m) == Mul(Power(m), w)
  {
    hide Zeros16, Zero16, Xor16, Gate, Power;
    if w == [] {
      ZerosOfZero(m);
    } else {
      var w', b := w[..|w| - 1], w[|w| - 1];
      ShiftIsMul(w', m);
      Zeros16Linear(Zero16(Rem16(w')), b as bv16, m);
      OneMoreZero(Rem16(w'), m);
      ZerosOfGate(b, m);
    }
  }

  function MulByte(r: bv16, a: bv16, v: bv8): bv16 {
    MulStep(MulStep(MulStep(MulStep(MulStep(MulStep(MulStep(MulStep(r,
      a, (v >> 7) as bv1), a, ((v >> 6) & 1) as bv1), a, ((v >> 5) & 1) as bv1), a, ((v >> 4) & 1) as bv1),
      a, ((v >> 3) & 1) as bv1), a, ((v >> 2) & 1) as bv1), a, ((v >> 1) & 1) as bv1), a, (v & 1) as bv1)
  }

  lemma MulAppendBit(a: bv16, w: Bits, b: bv1)
    ensures Mul(a, w + [b]) == MulStep(Mul(a, w), a, b)
  {
    assert (w + [b])[..|w|] == w;
  }

  lemma MulPrefix(a: bv16, s: Bits, k: nat)
    requires k < |s|
    ensures Mul(a, s[..k + 1]) == MulStep(Mul(a, s[..k]), a, s[k])
  {
    assert s[..k + 1] == s[..k] + [s[k]];
    MulAppendBit(a, s[..k], s[k]);
  }

  lemma MulAppendByte(a: bv16, w: Bits, v: bv8)
    ensures Mul(a, w + Msb(v)) == MulByte(Mul(a, w), a, v)
  {
    hide MulStep, Mul;
    var s, n := w + Msb(v), |w|;
    assert s[..n] == w && s[..n + 8] == s;
    MulPrefix(a, s, n);
    MulPrefix(a, s, n + 1);
    MulPrefix(a, s, n + 2);
    MulPrefix(a, s, n + 3);
    MulPrefix(a, s, n + 4);
    MulPrefix(a, s, n + 5);
    MulPrefix(a, s, n + 6);
    MulPrefix(a, s, n + 7);
  }

  function Times(a: bv16, b: bv16): bv16 {
    MulByte(MulByte(0, a, (b >> 8) as bv8), a, (b & 0xFF) as bv8)
  }

  lemma TimesIsMul(a: bv16, b: bv16)
    ensures Times(a, b) == Mul(a, Field16(b))
  {
    hide MulByte, Msb;
    MulAppendByte(a, [], (b >> 8) as bv8);
    assert [] + Msb((b >> 8) as bv8) == Msb((b >> 8) as bv8);
    MulAppendByte(a, Msb((b >> 8) as bv8), (b & 0xFF) as bv8);
  }

  // ---------------------------------------------------------------- the register as a word

  lemma {:induction false} RemPrefix(s: Bits, k: nat)
    requires k < |s|
    ensures Rem16(s[..k + 1]) == Xor16(Zero16(Rem16(s[..k])), s[k] as bv16)
  {
    assert s[..k + 1][..k] == s[..k];
  }

  /** The low byte of the register, shifted in after `r`. */
  function Enter(r: bv16, v: bv8): bv16 {
    var b := Msb(v);
    var r1 := Xor16(Zero16(r), b[0] as bv16);
    var r2 := Xor16(Zero16(r1), b[1] as bv16);
    var r3 := Xor16(Zero16(r2), b[2] as bv16);
    var r4 := Xor16(Zero16(r3), b[3] as bv16);
    var r5 := Xor16(Zero16(r4), b[4] as bv16);
    var r6 := Xor16(Zero16(r5), b[5] as bv16);
    var r7 := Xor16(Zero16(r6), b[6] as bv16);
    Xor16(Zero16(r7), b[7] as bv16)
  }

  lemma RemAppendByte(w: Bits, v: bv8)
    ensures Rem16(w + Msb(v)) == Enter(Rem16(w), v)
  {
    hide Msb, Rem16, Zero16, Xor16;
    var s, n := w + Msb(v), |w|;
    assert s[..n] == w && s[..n + 8] == s;
    RemPrefix(s, n);
    RemPrefix(s, n + 1);
    RemPrefix(s, n + 2);
    RemPrefix(s, n + 3);
    RemPrefix(s, n + 4);
    RemPrefix(s, n + 5);
    RemPrefix(s, n + 6);
    RemPrefix(s, n + 7);
  }

  lemma EnterBits(r: bv16, v: bv8)
    requires r < 256
    ensures Enter(r, v) == (r << 8) ^ (v as bv16)
  {}

  /** The checksum field, read as a word, is the checksum. */
  lemma RemOfField(c: bv16)
    ensures Rem16(Field16(c)) == c
  {
    hide Msb, Enter;
    var high, low := (c >> 8) as bv8, (c & 0xFF) as bv8;
    assert [] + Msb(high) == Msb(high);
    RemAppendByte([], high);
    RemAppendByte(Msb(high), low);
    EnterBits(0, high);
    EnterBits(high as bv16, low);
  }

  // ---------------------------------------------------------------- powers of x

  lemma PowerProduct(m: nat, n: nat, a: bv16, b: bv16)
    requires Power(m) == a && Power(n) == b
    ensures Power(m + n) == Times(a, b)
  {
    hide Zeros16, Times;
    ZerosAdd(1, n, m);
    RemOfField(b);
    ShiftIsMul(Field16(b), m);
    TimesIsMul(a, b);
  }

  lemma Power16()
    ensures Power(16) == 0x1021
  {
    SixteenZeros();
  }

  lemma Bytes32()
    ensures MulByte(0, 0x1021, 0x10) == 0x1231 && MulByte(0x1231, 0x1021, 0x21) == 0x3730
  {}

  lemma Power32()
    ensures Power(32) == 0x3730
  {
    hide Power, MulByte;
    Power16();
    PowerProduct(16, 16, 0x1021, 0x1021);
    Bytes32();
  }

  lemma Bytes64()
    ensures MulByte(0, 0x3730, 0x37) == 0x4035 && MulByte(0x4035, 0x3730, 0x30) == 0xB861
  {}

  lemma Power64()
    ensures Power(64) == 0xB861
  {
    hide Power, MulByte;
    Power32();
    PowerProduct(32, 32, 0x3730, 0x3730);
    Bytes64();
  }

  lemma Bytes128()
    ensures MulByte(0, 0xB861, 0xB8) == 0x61D9 && MulByte(0x61D9, 0xB861, 0x61) == 0xAEFC
  {}

  lemma Power128()
    ensures Power(128) == 0xAEFC
  {
    hide Power, MulByte;
    Power64();
    PowerProduct(64, 64, 0xB861, 0xB861);
    Bytes128();
  }

  lemma Bytes256()
    ensures MulByte(0, 0xAEFC, 0xAE) == 0x3828 && MulByte(0x3828, 0xAEFC, 0xFC) == 0x8E29
  {}

  lemma Power256()
    ensures Power(256) == 0x8E29
  {
    hide Power, MulByte;
    Power128();
    PowerProduct(128, 128, 0xAEFC, 0xAEFC);
    Bytes256();
  }

  lemma Bytes512()
    ensures MulByte(0, 0x8E29, 0x8E) == 0x09FA && MulByte(0x09FA, 0x8E29, 0x29) == 0x13FC
  {}

  lemma Power512()
    ensures Power(512) == 0x13FC
  {
    hide Power, MulByte;
    Power256();
    PowerProduct(256, 256, 0x8E29, 0x8E29);
    Bytes512();
  }

  lemma Bytes1024()
    ensures MulByte(0, 0x13FC, 0x13) == 0x1BE5 && MulByte(0x1BE5, 0x13FC, 0xFC) == 0x36C4
  {}

  lemma Power1024()
    ensures Power(1024) == 0x36C4
  {
    hide Power, MulByte;
    Power512();
    PowerProduct(512, 512, 0x13FC, 0x13FC);
    Bytes1024();
  }

  lemma Bytes2048()
    ensures MulByte(0, 0x36C4, 0x36) == 0x52FD && MulByte(0x52FD, 0x36C4, 0xC4) == 0xFD50
  {}

  lemma Power2048()
    ensures Power(2048) == 0xFD50
  {
    hide Power, MulByte;
    Power1024();
    PowerProduct(1024, 1024, 0x36C4, 0x36C4);
    Bytes2048();
  }

  lemma Bytes4096()
    ensures MulByte(0, 0xFD50, 0xFD) == 0x6BC0 && MulByte(0x6BC0, 0xFD50, 0x50) == 0xAA9E
  {}

  lemma Power4096()
    ensures Power(4096) == 0xAA9E
  {
    hide Power, MulByte;
    Power2048();
    PowerProduct(2048, 2048, 0xFD50, 0xFD50);
    Bytes4096();
  }

  lemma Bytes8192()
    ensures MulByte(0, 0xAA9E, 0xAA) == 0x154C && MulByte(0x154C, 0xAA9E, 0x9E) == 0x881C
  {}

  lemma Power8192()
    ensures Power(8192) == 0x881C
  {
    hide Power, MulByte;
    Power4096();
    PowerProduct(4096, 4096, 0xAA9E, 0xAA9E);
    Bytes8192();
  }

  lemma Bytes16384()
    ensures MulByte(0, 0x881C, 0x88) == 0x0624 && MulByte(0x0624, 0x881C, 0x1C) == 0x4458
  {}

  lemma Power16384()
    ensures Power(16384) == 0x4458
  {
    hide Power, MulByte;
    Power8192();
    PowerProduct(8192, 8192, 0x881C, 0x881C);
    Bytes16384();
  }

  lemma Bytes32768()
    ensures MulByte(0, 0x4458, 0x44) == 0x1551 && MulByte(0x1551, 0x4458, 0x58) == 0x0002
  {}

  lemma Power32768()
    ensures Power(32768) == 0x0002
  {
    hide Power, MulByte;
    Power16384();
    PowerProduct(16384, 16384, 0x4458, 0x4458);
    Bytes32768();
  }

  lemma Bytes192()
    ensures MulByte(0, 0xAEFC, 0xB8) == 0xA0C9 && MulByte(0xA0C9, 0xAEFC, 0x61) == 0x650B
  {}

  lemma Power192()
    ensures Power(192) == 0x650B
  {
    hide Power, MulByte;
    Power128();
    Power64();
    PowerProduct(128, 64, 0xAEFC, 0xB861);
    Bytes192();
  }

  lemma Bytes1056()
    ensures MulByte(0, 0x36C4, 0x37) == 0x6439 && MulByte(0x6439, 0x36C4, 0x30) == 0xF147
  {}

  lemma Power1056()
    ensures Power(1056) == 0xF147
  {
    hide Power, MulByte;
    Power1024();
    Power32();
    PowerProduct(1024, 32, 0x36C4, 0x3730);
    Bytes1056();
  }

  lemma Bytes4608()
    ensures MulByte(0, 0xAA9E, 0x13) == 0xE729 && MulByte(0xE729, 0xAA9E, 0xFC) == 0x54A0
  {}

  lemma Power4608()
    ensures Power(4608) == 0x54A0
  {
    hide Power, MulByte;
    Power4096();
    Power512();
    PowerProduct(4096, 512, 0xAA9E, 0x13FC);
    Bytes4608();
  }

  lemma Bytes4672()
    ensures MulByte(0, 0x54A0, 0xB8) == 0x7F85 && MulByte(0x7F85, 0x54A0, 0x61) == 0x0106
  {}

  lemma Power4672()
    ensures Power(4672) == 0x0106
  {
    hide Power, MulByte;
    Power4608();
    Power64();
    PowerProduct(4608, 64, 0x54A0, 0xB861);
    Bytes4672();
  }

  lemma OneMore(n: nat, c: bv16)
    requires Power(n) == c
    ensures Power(n + 1) == Zero16(c)
  {}

  lemma EightMore(n: nat, c: bv16)
    requires Power(n) == c
    ensures Power(n + 8) == EightZeros16(c)
  {
    ZerosAdd(1, n, 8);
    Zeros16Unrolled(c);
  }

  lemma Steps217()
    ensures EightZeros16(0x650B) == 0x3703
    ensures EightZeros16(0x3703) == 0x45B4
    ensures EightZeros16(0x45B4) == 0xAC61
    ensures Zero16(0xAC61) == 0x48E3
  {}

  lemma Late217()
    ensures Power(217) != 1
  {
    hide Power, Zeros16;
    Power192();
    EightMore(192, 0x650B);
    EightMore(200, 0x3703);
    EightMore(208, 0x45B4);
    OneMore(216, 0xAC61);
    Steps217();
  }

  lemma Steps1057()
    ensures Zero16(0xF147) == 0xF2AF
  {}

  lemma Late1057()
    ensures Power(1057) != 1
  {
    hide Power, Zeros16;
    Power1056();
    OneMore(1056, 0xF147);
    Steps1057();
  }

  lemma Steps4681()
    ensures EightZeros16(0x0106) == 0x1621
    ensures Zero16(0x1621) == 0x2C42
  {}

  lemma Late4681()
    ensures Power(4681) != 1
  {
    hide Power, Zeros16;
    Power4672();
    EightMore(4672, 0x0106);
    OneMore(4680, 0x1621);
    Steps4681();
  }

  // ---------------------------------------------------------------- the order

  lemma ZeroInjectiveBits(a: bv16)
    requires Zero16(a) == 0
    ensures a == 0
  {}

  /** Shifting loses nothing. */
  lemma ZeroInjective(a: bv16, b: bv16)
    requires Zero16(a) == Zero16(b)
    ensures a == b
  {
    hide Zero16, Xor16;
    Zero16Linear(a, b);
    XorZero(Zero16(a));
    ZeroInjectiveBits(Xor16(a, b));
    XorIsZero(a, b);
  }

  lemma XorIsZero(a: bv16, b: bv16)
    requires Xor16(a, b) == 0
    ensures a == b
  {}

  lemma {:induction false} ZerosInjective(a: bv16, b: bv16, n: nat)
    requires Zeros16(a, n) == Zeros16(b, n)
    ensures a == b
  {
    hide Zero16;
    if n > 0 {
      ZeroInjective(Zeros16(a, n - 1), Zeros16(b, n - 1));
      ZerosInjective(a, b, n - 1);
    }
  }

  ghost predicate Period(k: nat) {
    Power(k) == 1
  }

  lemma FullPeriod()
    ensures Period(32767)
  {
    hide Zeros16, Zero16;
    Power32768();
    OneMore(32767, Power(32767));
    assert Zero16(1) == 2 by { DoubleOne(); }
    ZeroInjective(Power(32767), 1);
  }

  lemma NoShift(c: bv16)
    ensures Zeros16(c, 0) == c
  {}

  lemma DoubleOne()
    ensures Zero16(1) == 2
  {}

  lemma {:induction false} PeriodMultiple(k: nat, q: nat)
    requires Period(k)
    ensures Period(k * q)
  {
    hide Zeros16;
    if q == 0 {
      NoShift(1);
    } else {
      PeriodMultiple(k, q - 1);
      ZerosAdd(1, k * (q - 1), k);
      assert k * (q - 1) + k == k * q;
    }
  }

  lemma PeriodRemainder(a: nat, d: nat)
    requires Period(a) && Period(d) && d > 0
    ensures Period(a % d)
  {
    hide Zeros16;
    PeriodMultiple(d, a / d);
    ZerosAdd(1, d * (a / d), a % d);
    assert d * (a / d) + a % d == a;
  }

  /** A period below every other positive period divides them all. */
  lemma LeastPeriodDivides(d: nat, a: nat)
    requires d > 0 && Period(d) && Period(a)
    requires forall k :: 0 < k < d ==> !Period(k)
    ensures a % d == 0
  {
    hide Period;
    PeriodRemainder(a, d);
  }

  lemma {:induction false} LeastPeriod(k: nat) returns (d: nat)
    requires k > 0 && Period(k)
    ensures 0 < d <= k && Period(d) && forall j :: 0 < j < d ==> !Period(j)
  {
    hide Period;
    if j :| 0 < j < k && Period(j) {
      d := LeastPeriod(j);
    } else {
      d := k;
    }
  }

  /** A least period that is not a divisor of 32767 / p is a multiple of the prime p. */
  lemma PrimeFactorOfPeriod(d: nat, p: nat, c: nat) returns (e: nat)
    requires d > 0 && Period(d) && forall k :: 0 < k < d ==> !Period(k)
    requires p > 1 && p * c == 32767 && !Period(c) && Period(32767)
    requires forall f :: 1 < f < p ==> p % f != 0
    ensures d == p * e
  {
    hide Period;
    LeastPeriodDivides(d, 32767);
    var q, r, m := c / d, c % d, 32767 / d;
    assert c == q * d + r && 32767 == m * d;
    if r == 0 {
      PeriodMultiple(d, q);
      assert false;
    } else {
      assert p * r == (m - p * q) * d by { Rearrange(p, c, q, d, r, m); }
      assert 0 < m - p * q < p by { SmallFactor(m - p * q, p, r, d); }
      e := PrimeDivides(p, m - p * q, d, r);
    }
  }

  /** The order of x is 32767. */
  lemma Order(k: nat)
    requires 0 < k < 32767
    ensures Power(k) != 1
  {
    hide Power;
    if Period(k) {
      var d := LeastPeriod(k);
      FullPeriod();
      Late217();
      Late1057();
      Late4681();
      LeastPeriodDivides(d, 32767);
      var e7 := PrimeFactorOfPeriod(d, 7, 4681);
      assert forall f :: 1 < f < 31 ==> 31 % f != 0;
      var e31 := PrimeFactorOfPeriod(d, 31, 1057);
      var e := PrimeDivides(7, 3, e31, e7 - 4 * e31);
      assert d == 217 * e;
      Factors151(e, 32767 / d);
    }
  }
}
