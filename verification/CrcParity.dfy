/** The parity of a register, and why dividing by an even-weight polynomial keeps it. */
module CrcParity {
  import opened CrcDivision

  function Fold8(c: bv16): bv16 {
    (c >> 8) ^ (c & 0xFF)
  }

  function Fold4(c: bv16): bv16 {
    (c >> 4) ^ (c & 0xF)
  }

  function Fold2(c: bv16): bv16 {
    (c >> 2) ^ (c & 3)
  }

  function Fold1(c: bv16): bv16 {
    (c >> 1) ^ (c & 1)
  }

  /** The exclusive or of all sixteen register bits. */
  function Parity(c: bv16): bv16 {
    Fold1(Fold2(Fold4(Fold8(c))))
  }

  lemma Fold8Bits(a: bv16, b: bv16)
    ensures Fold8(a ^ b) == Fold8(a) ^ Fold8(b)
  {}

  lemma Fold8Linear(a: bv16, b: bv16)
    ensures Fold8(Xor16(a, b)) == Xor16(Fold8(a), Fold8(b))
  {
    hide Fold8;
    Fold8Bits(a, b);
  }

  lemma Fold4Bits(a: bv16, b: bv16)
    ensures Fold4(a ^ b) == Fold4(a) ^ Fold4(b)
  {}

  lemma Fold4Linear(a: bv16, b: bv16)
    ensures Fold4(Xor16(a, b)) == Xor16(Fold4(a), Fold4(b))
  {
    hide Fold4;
    Fold4Bits(a, b);
  }

  lemma Fold2Bits(a: bv16, b: bv16)
    ensures Fold2(a ^ b) == Fold2(a) ^ Fold2(b)
  {}

  lemma Fold2Linear(a: bv16, b: bv16)
    ensures Fold2(Xor16(a, b)) == Xor16(Fold2(a), Fold2(b))
  {
    hide Fold2;
    Fold2Bits(a, b);
  }

  lemma Fold1Bits(a: bv16, b: bv16)
    ensures Fold1(a ^ b) == Fold1(a) ^ Fold1(b)
  {}

  lemma Fold1Linear(a: bv16, b: bv16)
    ensures Fold1(Xor16(a, b)) == Xor16(Fold1(a), Fold1(b))
  {
    hide Fold1;
    Fold1Bits(a, b);
  }

  lemma ParityLinear(a: bv16, b: bv16)
    ensures Parity(Xor16(a, b)) == Xor16(Parity(a), Parity(b))
  {
    hide Fold8, Fold4, Fold2, Fold1, Xor16;
    var a8, b8 := Fold8(a), Fold8(b);
    Fold8Linear(a, b);
    var a4, b4 := Fold4(a8), Fold4(b8);
    Fold4Linear(a8, b8);
    Fold2Linear(a4, b4);
    Fold1Linear(Fold2(a4), Fold2(b4));
  }

  lemma ParityOfShiftBits(c: bv16)
    ensures Parity(c << 1) == Parity(c) ^ (c >> 15)
  {}

  lemma ParityOfShift(c: bv16)
    ensures Parity(c << 1) == Xor16(Parity(c), c >> 15)
  {
    hide Parity;
    ParityOfShiftBits(c);
  }

  /** x^12 + x^5 + 1 has an odd number of terms, which the leaving x^16 makes even. */
  lemma ParityOfPoly(c: bv16)
    ensures Parity(Poly16(c >> 15)) == c >> 15
  {}

  lemma ParityOfBit(b: bv1)
    ensures Parity(b as bv16) == b as bv16
  {}

  lemma ZeroIsXor(c: bv16)
    ensures Zero16(c) == Xor16(c << 1, Poly16(c >> 15))
  {}

  lemma XorTwice(a: bv16, b: bv16)
    ensures Xor16(Xor16(a, b), b) == a
  {}

  lemma ShiftKeepsParity(c: bv16)
    ensures Parity(Zero16(c)) == Parity(c)
  {
    hide *;
    ZeroIsXor(c);
    ParityLinear(c << 1, Poly16(c >> 15));
    ParityOfShift(c);
    ParityOfPoly(c);
    XorTwice(Parity(c), c >> 15);
  }
}
