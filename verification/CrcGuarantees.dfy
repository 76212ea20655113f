/**
 * What the checksums of the inertial-sensor link guarantee: which corrupted frames can never pass.
 */
module CrcGuarantees {
  import opened CrcDivision
  import opened CrcDetection
  import opened CrcParity
  import opened CrcOrder

  /** A payload and the checksum received with it agree. */
  predicate Valid16(p: Bytes, crc: bv16) {
    Divide16(0, MsbFirst(p)) == crc
  }

  /** The protected bits: the payload followed by its checksum. */
  function Word(p: Bytes, crc: bv16): Bits {
    MsbFirst(p) + Field16(crc)
  }

  lemma {:induction false} MsbFirstLength(p: Bytes)
    ensures |MsbFirst(p)| == 8 * |p|
  {
    if p != [] {
      MsbFirstLength(p[..|p| - 1]);
    }
  }

  lemma ValidWordRemainder(p: Bytes, crc: bv16)
    requires Valid16(p, crc)
    ensures Rem16(Word(p, crc)) == 0
  {
    hide Divide16, Zeros16, Rem16, Xor16, MsbFirst, Field16;
    RemAppend(MsbFirst(p), Field16(crc));
    RemOfField(crc);
    DivideIsShiftedRemainder(MsbFirst(p), 16);
    XorZero(crc);
  }

  lemma DifferenceRemainder(p: Bytes, q: Bytes, c: bv16, d: bv16)
    requires |p| == |q| && Valid16(p, c) && Valid16(q, d)
    ensures |Word(p, c)| == |Word(q, d)| == 8 * |p| + 16
    ensures Rem16(Difference(Word(p, c), Word(q, d))) == 0
  {
    hide Divide16, Rem16, Xor16, MsbFirst, Field16;
    MsbFirstLength(p);
    MsbFirstLength(q);
    ValidWordRemainder(p, c);
    ValidWordRemainder(q, d);
    RemLinear(Word(p, c), Word(q, d));
    XorZero(0);
  }

  lemma {:induction false} PowersDiffer(i: nat, j: nat)
    requires i < j < i + 32767
    ensures Power(i) != Power(j)
  {
    hide Zeros16;
    if Power(i) == Power(j) {
      ZerosAdd(1, j - i, i);
      NoShift(1);
      ZerosInjective(1, Power(j - i), i);
      Order(j - i);
    }
  }

  /**
   * Two different valid words of the same length, as long as 4093 payload bytes, differ in at least
   * four bits: no corruption of one, two or three bits goes unnoticed.
   */
  lemma HammingDistanceFour(p: Bytes, q: Bytes, c: bv16, d: bv16)
    requires |p| == |q| <= 4093 && Valid16(p, c) && Valid16(q, d)
    requires Word(p, c) != Word(q, d)
    ensures |Word(p, c)| == |Word(q, d)|
    ensures Ones(Difference(Word(p, c), Word(q, d))) >= 4
  {
    hide Rem16, Ones, Valid16, Word, Xor16, Zeros16, Parity;
    DifferenceRemainder(p, q, c, d);
    var w := Difference(Word(p, c), Word(q, d));
    RemParity(w);
    ParityOfBit(0);
    if Ones(w) == 0 {
      NoOnes(w);
      EqualBits(Word(p, c), Word(q, d));
    } else if Ones(w) == 2 {
      var i, j := TwoOnes(w);
      XorIsZero(Zeros16(1, j), Zeros16(1, i));
      PowersDiffer(i, j);
    }
  }

  lemma EqualBits(v: Bits, w: Bits)
    requires |v| == |w| && forall i :: 0 <= i < |v| ==> Difference(v, w)[i] == 0
    ensures v == w
  {
    forall i | 0 <= i < |v| ensures v[i] == w[i] {
      assert Difference(v, w)[i] == v[i] ^ w[i];
    }
  }

  // ---------------------------------------------------------------- bursts

  function Pack(a: bv1, b: bv1, c: bv1, d: bv1, e: bv1, f: bv1, g: bv1, h: bv1): bv8 {
    ((a as bv8) << 7) ^ ((b as bv8) << 6) ^ ((c as bv8) << 5) ^ ((d as bv8) << 4)
      ^ ((e as bv8) << 3) ^ ((f as bv8) << 2) ^ ((g as bv8) << 1) ^ (h as bv8)
  }

  lemma Unpack(a: bv1, b: bv1, c: bv1, d: bv1, e: bv1, f: bv1, g: bv1, h: bv1, v: bv8)
    requires v == Pack(a, b, c, d, e, f, g, h)
    ensures (v >> 7) as bv1 == a && ((v >> 6) & 1) as bv1 == b
         && ((v >> 5) & 1) as bv1 == c && ((v >> 4) & 1) as bv1 == d
         && ((v >> 3) & 1) as bv1 == e && ((v >> 2) & 1) as bv1 == f
         && ((v >> 1) & 1) as bv1 == g && (v & 1) as bv1 == h
  {}

  /** Any eight bits are the bits of a byte. */
  lemma EightBits(b: Bits) returns (v: bv8)
    requires |b| == 8
    ensures Msb(v) == b
  {
    hide Pack;
    v := Pack(b[0], b[1], b[2], b[3], b[4], b[5], b[6], b[7]);
    Unpack(b[0], b[1], b[2], b[3], b[4], b[5], b[6], b[7], v);
  }

  lemma JoinBits(high: bv8, low: bv8)
    requires ((high as bv16) << 8) ^ (low as bv16) == 0
    ensures high == 0 && low == 0
  {}

  lemma ZeroByte()
    ensures Msb(0) == [0, 0, 0, 0, 0, 0, 0, 0]
  {}

  /** Sixteen bits are their own remainder, so only sixteen zeros have remainder zero. */
  lemma ShortWord(w: Bits)
    requires |w| == 16 && Rem16(w) == 0
    ensures forall i :: 0 <= i < 16 ==> w[i] == 0
  {
    hide Rem16, Msb, Enter;
    var high := EightBits(w[..8]);
    var low := EightBits(w[8..]);
    assert w == Msb(high) + Msb(low);
    assert [] + Msb(high) == Msb(high);
    RemAppendByte([], high);
    assert Rem16([]) == 0 by { NoOnes([]); }
    RemAppendByte(Msb(high), low);
    EnterBits(0, high);
    EnterBits(high as bv16, low);
    JoinBits(high, low);
    ZeroByte();
  }

  lemma {:induction false} AllZero(w: Bits)
    requires forall i :: 0 <= i < |w| ==> w[i] == 0
    ensures Ones(w) == 0
  {
    if w != [] {
      AllZero(w[..|w| - 1]);
    }
  }

  /** Two valid words that agree outside sixteen consecutive bits are the same word. */
  lemma BurstOfSixteen(p: Bytes, q: Bytes, c: bv16, d: bv16, start: nat)
    requires |p| == |q| && Valid16(p, c) && Valid16(q, d)
    requires |Word(p, c)| == |Word(q, d)| && start + 16 <= |Word(p, c)|
    requires forall i :: 0 <= i < |Word(p, c)| && !(start <= i < start + 16) ==> Word(p, c)[i] == Word(q, d)[i]
    ensures Word(p, c) == Word(q, d)
  {
    hide Rem16, Valid16, Word, Xor16, Zeros16, Ones;
    DifferenceRemainder(p, q, c, d);
    var v, w := Word(p, c), Word(q, d);
    var e := Difference(v, w);
    var before, window, after := e[..start], e[start..start + 16], e[start + 16..];
    assert e == before + window + after;
    AllZero(before);
    AllZero(after);
    NoOnes(before);
    NoOnes(after);
    RemAppend(before + window, after);
    RemAppend(before, window);
    XorWithZero(Zeros16(Rem16(before + window), |after|));
    ZerosOfZero(|after|);
    ZerosInjective(Rem16(before + window), 0, |after|);
    ZerosOfZero(16);
    XorWithZero(Rem16(window));
    ShortWord(window);
    forall i | 0 <= i < |v| ensures e[i] == 0 {
      if start <= i < start + 16 {
        assert e[i] == window[i - start];
      } else {
        assert v[i] == w[i];
      }
    }
    EqualBits(v, w);
  }

  lemma XorWithZero(a: bv16)
    ensures Xor16(a, 0) == a && Xor16(0, a) == a
  {}

  // ---------------------------------------------------------------- the header checksum

  lemma Shift8Injective(a: bv8, b: bv8, bit: bv1)
    requires Shift8(a, bit) == Shift8(b, bit)
    ensures a == b
  {}

  lemma {:induction false} Divide8Injective(a: bv8, b: bv8, m: Bits)
    requires Divide8(a, m) == Divide8(b, m)
    ensures a == b
  {
    hide Shift8;
    if m != [] {
      var m' := m[..|m| - 1];
      Shift8Injective(Divide8(a, m'), Divide8(b, m'), m[|m| - 1]);
      Divide8Injective(a, b, m');
    }
  }

  lemma {:induction false} LsbFirstAppend(a: Bytes, b: Bytes)
    ensures LsbFirst(a + b) == LsbFirst(a) + LsbFirst(b)
  {
    hide Lsb;
    if b == [] {
      assert a + b == a;
    } else {
      LsbFirstAppend(a, b[..|b| - 1]);
      assert (a + b)[..|a + b| - 1] == a + b[..|b| - 1];
    }
  }

  lemma XorCancels8(c: bv8, v: bv8, w: bv8)
    requires c ^ v == c ^ w
    ensures v == w
  {}

  lemma ByteInjective8(c: bv8, v: bv8, w: bv8)
    requires Divide8(c, Lsb(v)) == Divide8(c, Lsb(w))
    ensures v == w
  {
    hide Divide8, Lsb, Zeros8;
    Byte8(c, v);
    Byte8(c, w);
    Byte8(c ^ v, 0);
    Byte8(c ^ w, 0);
    assert (c ^ v) ^ 0 == c ^ v && (c ^ w) ^ 0 == c ^ w;
    Divide8Injective(c ^ v, c ^ w, Lsb(0));
    XorCancels8(c, v, w);
  }

  /** Changing one byte of a header always changes its checksum. */
  lemma OneByteChanged(a: Bytes, v: bv8, w: bv8, b: Bytes)
    requires v != w
    ensures Divide8(0, LsbFirst(a + [v] + b)) != Divide8(0, LsbFirst(a + [w] + b))
  {
    hide Divide8, Lsb, LsbFirst;
    forall x: bv8
      ensures Divide8(0, LsbFirst(a + [x] + b)) == Divide8(Divide8(Divide8(0, LsbFirst(a)), Lsb(x)), LsbFirst(b))
    {
      LsbFirstAppend(a + [x], b);
      LsbFirstAppend(a, [x]);
      OneByte(x);
      Divide8Append(0, LsbFirst(a + [x]), LsbFirst(b));
      Divide8Append(0, LsbFirst(a), Lsb(x));
    }
    var c := Divide8(0, LsbFirst(a));
    if Divide8(0, LsbFirst(a + [v] + b)) == Divide8(0, LsbFirst(a + [w] + b)) {
      Divide8Injective(Divide8(c, Lsb(v)), Divide8(c, Lsb(w)), LsbFirst(b));
      ByteInjective8(c, v, w);
    }
  }

  lemma OneByte(x: bv8)
    ensures LsbFirst([x]) == Lsb(x)
  {
    assert [x][..0] == [];
  }
}
