/**
 * The checksums of the optical-flow protocols (check.c): the reflected 16-bit CRC of MAVLink, computed
 * with an unreflected table, and the CRC-8 of section 5.1.4 of ETSI EN 302 307 used by MSP.
 */
module FlowCheck {
  import opened CrcDivision

  // ---------------------------------------------------------------- specifications

  /** One step of the reflected division by x^16 + x^12 + x^5 + 1: 0x8408, low bit first. */
  function ShiftReflected(crc: bv16, bit: bv1): bv16 {
    (crc >> 1) ^ PolyReflected((crc & 1) ^ (bit as bv16))
  }

  function PolyReflected(t: bv16): bv16 {
    (t << 15) ^ (t << 10) ^ (t << 3)
  }

  function DivideReflected(crc: bv16, m: Bits): bv16
  {
    if m == [] then crc else ShiftReflected(DivideReflected(crc, m[..|m| - 1]), m[|m| - 1])
  }

  /** One step of the division by x^8 + x^7 + x^6 + x^4 + x^2 + 1 (0xD5), high bit first. */
  function ShiftDvb(crc: bv8, bit: bv1): bv8 {
    (crc << 1) ^ PolyDvb((crc >> 7) ^ (bit as bv8))
  }

  function PolyDvb(t: bv8): bv8 {
    t ^ (t << 2) ^ (t << 4) ^ (t << 6) ^ (t << 7)
  }

  function DivideDvb(crc: bv8, m: Bits): bv8
  {
    if m == [] then crc else ShiftDvb(DivideDvb(crc, m[..|m| - 1]), m[|m| - 1])
  }

  /** The per-message seed byte of MAVLink, appended to every checksummed message. */
  function CrcExtra(id: nat): bv8
    requires id < 256
  {
    ExtraRow(id / 10)[id % 10]
  }

  function ExtraRow(r: nat): (row: seq<bv8>)
    ensures |row| == 10
  {
    match r
    case 0 => [50, 124, 137, 0, 237, 217, 104, 119, 0, 0]
    case 1 => [0, 89, 0, 0, 0, 0, 0, 0, 0, 0]
    case 2 => [214, 159, 220, 168, 24, 23, 170, 144, 67, 115]
    case 3 => [39, 246, 185, 104, 237, 244, 222, 212, 9, 254]
    case 4 => [230, 28, 28, 132, 221, 232, 11, 153, 41, 39]
    case 5 => [78, 0, 0, 0, 15, 3, 0, 0, 0, 0]
    case 6 => [0, 153, 183, 51, 59, 118, 148, 21, 0, 243]
    case 7 => [124, 0, 0, 38, 20, 158, 152, 143, 0, 0]
    case 8 => [0, 106, 49, 22, 143, 140, 5, 150, 0, 231]
    case 9 => [183, 63, 54, 0, 0, 0, 0, 0, 0, 0]
    case 10 => [175, 102, 158, 208, 56, 93, 138, 108, 32, 185]
    case 11 => [84, 34, 174, 124, 237, 4, 76, 128, 56, 116]
    case 12 => [134, 237, 203, 250, 87, 203, 220, 25, 226, 46]
    case 13 => [29, 223, 85, 6, 229, 203, 1, 195, 109, 168]
    case 14 => [181, 148, 72, 0, 0, 0, 103, 154, 178, 200]
    case 15 => [0, 0, 0, 0, 0, 0, 0, 0, 0, 0]
    case 16 => [0, 0, 0, 0, 0, 0, 0, 0, 0, 0]
    case 17 => [0, 0, 0, 0, 0, 0, 0, 0, 0, 0]
    case 18 => [0, 0, 0, 0, 0, 0, 0, 0, 0, 0]
    case 19 => [0, 0, 0, 0, 0, 0, 0, 0, 0, 0]
    case 20 => [0, 0, 0, 0, 0, 0, 0, 0, 0, 0]
    case 21 => [0, 0, 0, 0, 0, 0, 0, 0, 0, 0]
    case 22 => [0, 0, 0, 0, 0, 0, 0, 0, 0, 0]
    case 23 => [0, 0, 0, 0, 0, 0, 0, 0, 0, 0]
    case 24 => [0, 90, 104, 85, 95, 83, 0, 0, 8, 204]
    case _ => [49, 170, 44, 83, 46, 0, 0, 0, 0, 0]
  }

  /** The seeds of the messages that are received: OPTICAL_FLOW, OPTICAL_FLOW_RAD and DISTANCE_SENSOR. */
  lemma SeedsInUse()
    ensures CrcExtra(0x64) == 175 && CrcExtra(0x6A) == 138 && CrcExtra(0x84) == 85
  {}

  // ---------------------------------------------------------------- bit reversal

  function Reverse8(v: bv8): bv8 {
    ((v & 1) << 7) ^ (((v >> 1) & 1) << 6) ^ (((v >> 2) & 1) << 5) ^ (((v >> 3) & 1) << 4)
      ^ (((v >> 4) & 1) << 3) ^ (((v >> 5) & 1) << 2) ^ (((v >> 6) & 1) << 1) ^ (v >> 7)
  }

  function Reverse16(c: bv16): bv16 {
    ((c & 1) << 15) ^ (((c >> 1) & 1) << 14) ^ (((c >> 2) & 1) << 13) ^ (((c >> 3) & 1) << 12)
      ^ (((c >> 4) & 1) << 11) ^ (((c >> 5) & 1) << 10) ^ (((c >> 6) & 1) << 9) ^ (((c >> 7) & 1) << 8)
      ^ (((c >> 8) & 1) << 7) ^ (((c >> 9) & 1) << 6) ^ (((c >> 10) & 1) << 5) ^ (((c >> 11) & 1) << 4)
      ^ (((c >> 12) & 1) << 3) ^ (((c >> 13) & 1) << 2) ^ (((c >> 14) & 1) << 1) ^ (c >> 15)
  }

  /** The high-first bits of the reversed byte are the low-first bits of the byte. */
  lemma ReversedBits(v: bv8)
    ensures Msb(Reverse8(v)) == Lsb(v)
  {}

  lemma ReverseShiftBits(c: bv16, bit: bv1)
    ensures Reverse16(Shift16(c, bit)) == ShiftReflected(Reverse16(c), bit)
  {}

  function MovedBit8(v: bv8, i: nat): bv8
    requires i < 8
  {
    ((v >> i) & 1) << (7 - i)
  }

  /** The reversal after the first `i` bits have been placed. */
  function Placed8(v: bv8, i: nat): bv8
    requires i <= 8
    decreases i
  {
    if i == 0 then 0 else Placed8(v, i - 1) | MovedBit8(v, i - 1)
  }

  lemma PlaceNext8(v: bv8, i: nat)
    requires i < 8
    ensures Placed8(v, i + 1) == Placed8(v, i) | MovedBit8(v, i)
  {}

  lemma PlaceAll8(v: bv8)
    ensures Placed8(v, 8) == MovedBit8(v, 0) | MovedBit8(v, 1) | MovedBit8(v, 2) | MovedBit8(v, 3)
      | MovedBit8(v, 4) | MovedBit8(v, 5) | MovedBit8(v, 6) | MovedBit8(v, 7)
  {
    hide MovedBit8;
    PlaceNext8(v, 0); PlaceNext8(v, 1); PlaceNext8(v, 2); PlaceNext8(v, 3);
    PlaceNext8(v, 4); PlaceNext8(v, 5); PlaceNext8(v, 6); PlaceNext8(v, 7);
  }

  /** Setting each bit in turn or adding them all comes to the same. */
  lemma Disjoint8(v: bv8)
    ensures ((v & 1) << 7) | (((v >> 1) & 1) << 6) | (((v >> 2) & 1) << 5) | (((v >> 3) & 1) << 4)
      | (((v >> 4) & 1) << 3) | (((v >> 5) & 1) << 2) | (((v >> 6) & 1) << 1) | (v >> 7) == Reverse8(v)
  {}

  method ReverseLoop8(data: bv8) returns (t: bv8)
    ensures t == Reverse8(data)
  {
    t := 0;
    for i := 0 to 8
      invariant t == Placed8(data, i)
    {
      PlaceNext8(data, i);
      t := t | (((data >> i) & 1) << (7 - i));
    }
    PlaceAll8(data);
    Disjoint8(data);
  }

  function MovedBit16(v: bv16, i: nat): bv16
    requires i < 16
  {
    ((v >> i) & 1) << (15 - i)
  }

  /** The reversal after the first `i` bits have been placed. */
  function Placed16(v: bv16, i: nat): bv16
    requires i <= 16
    decreases i
  {
    if i == 0 then 0 else Placed16(v, i - 1) | MovedBit16(v, i - 1)
  }

  lemma PlaceNext16(v: bv16, i: nat)
    requires i < 16
    ensures Placed16(v, i + 1) == Placed16(v, i) | MovedBit16(v, i)
  {}

  lemma PlaceAll16(v: bv16)
    ensures Placed16(v, 16) == MovedBit16(v, 0) | MovedBit16(v, 1) | MovedBit16(v, 2) | MovedBit16(v, 3)
      | MovedBit16(v, 4) | MovedBit16(v, 5) | MovedBit16(v, 6) | MovedBit16(v, 7)
      | MovedBit16(v, 8) | MovedBit16(v, 9) | MovedBit16(v, 10) | MovedBit16(v, 11)
      | MovedBit16(v, 12) | MovedBit16(v, 13) | MovedBit16(v, 14) | MovedBit16(v, 15)
  {
    hide MovedBit16;
    PlaceNext16(v, 0); PlaceNext16(v, 1); PlaceNext16(v, 2); PlaceNext16(v, 3);
    PlaceNext16(v, 4); PlaceNext16(v, 5); PlaceNext16(v, 6); PlaceNext16(v, 7);
    PlaceNext16(v, 8); PlaceNext16(v, 9); PlaceNext16(v, 10); PlaceNext16(v, 11);
    PlaceNext16(v, 12); PlaceNext16(v, 13); PlaceNext16(v, 14); PlaceNext16(v, 15);
  }

  /** Setting each bit in turn or adding them all comes to the same. */
  lemma Disjoint16(v: bv16)
    ensures ((v & 1) << 15) | (((v >> 1) & 1) << 14) | (((v >> 2) & 1) << 13) | (((v >> 3) & 1) << 12)
      | (((v >> 4) & 1) << 11) | (((v >> 5) & 1) << 10) | (((v >> 6) & 1) << 9) | (((v >> 7) & 1) << 8)
      | (((v >> 8) & 1) << 7) | (((v >> 9) & 1) << 6) | (((v >> 10) & 1) << 5) | (((v >> 11) & 1) << 4)
      | (((v >> 12) & 1) << 3) | (((v >> 13) & 1) << 2) | (((v >> 14) & 1) << 1) | (v >> 15) == Reverse16(v)
  {}

  method ReverseLoop16(data: bv16) returns (t: bv16)
    ensures t == Reverse16(data)
  {
    t := 0;
    for i := 0 to 16
      invariant t == Placed16(data, i)
    {
      PlaceNext16(data, i);
      t := t | (((data >> i) & 1) << (15 - i));
    }
    PlaceAll16(data);
    Disjoint16(data);
  }

  // ---------------------------------------------------------------- the generated table

  /** The generator's branch is one division step fed with the bit leaving `c`. */
  lemma GeneratorStep(crc: bv16, c: bv16)
    ensures Shift16(crc, (c >> 15) as bv1) == if (crc ^ c) & 0x8000 != 0 then (crc << 1) ^ 0x1021 else crc << 1
  {
    if (crc ^ c) & 0x8000 != 0 {
      TopBitsDiffer(crc, c);
    } else {
      TopBitsAgree(crc, c);
    }
  }

  lemma TopBitsDiffer(crc: bv16, c: bv16)
    requires (crc ^ c) & 0x8000 != 0
    ensures Shift16(crc, (c >> 15) as bv1) == (crc << 1) ^ 0x1021
  {}

  lemma TopBitsAgree(crc: bv16, c: bv16)
    requires (crc ^ c) & 0x8000 == 0
    ensures Shift16(crc, (c >> 15) as bv1) == crc << 1
  {}

  method InitTableEntry(i: bv8) returns (crc: bv16)
    ensures crc == Divide16(0, Msb(i))
  {
    hide Shift16, Msb, Unfed16, Divide16;
    crc := 0;
    var c := (i as bv16) << 8;
    FirstUnfed(i);
    EmptyDivision(0);
    assert Msb(i)[..0] == [];
    for j := 0 to 8
      invariant crc == Divide16(0, Msb(i)[..j]) && c == Unfed16(i, j)
    {
      GeneratorStep(crc, c);
      NextBit16(i, j);
      NextDivision(0, Msb(i), j);
      NextUnfed(i, j);
      if (crc ^ c) & 0x8000 != 0 {
        crc := (crc << 1) ^ 0x1021;
      } else {
        crc := crc << 1;
      }
      c := c << 1;
    }
    assert Msb(i)[..8] == Msb(i);
  }

  lemma FirstUnfed(v: bv8)
    ensures Unfed16(v, 0) == (v as bv16) << 8
  {}

  lemma NextUnfed(v: bv8, j: nat)
    ensures Unfed16(v, j + 1) == Unfed16(v, j) << 1
  {}

  lemma EmptyDivision(crc: bv16)
    ensures Divide16(crc, []) == crc
  {}

  lemma NextDivision(crc: bv16, m: Bits, j: nat)
    requires j < |m|
    ensures Divide16(crc, m[..j + 1]) == Shift16(Divide16(crc, m[..j]), m[j])
  {
    assert m[..j + 1][..j] == m[..j];
  }

  ghost predicate TableOk(table: seq<bv16>) {
    |table| == 256 && forall k: bv8 :: table[k as int] == Divide16(0, Msb(k))
  }

  method InitTable(table: array<bv16>)
    requires table.Length == 256
    modifies table
    ensures TableOk(table[..])
  {
    hide Divide16, Msb;
    for i := 0 to 256
      invariant forall k: bv8 :: k as int < i ==> table[k as int] == Divide16(0, Msb(k))
    {
      table[i] := InitTableEntry(i as bv8);
    }
  }

  // ---------------------------------------------------------------- the MAVLink checksum

  lemma IndexBits(crc: bv16, c: bv8)
    ensures ((crc >> 8) ^ (0x00FF & (c as bv16))) & 0xFF == Index16(crc, c)
  {}

  lemma NarrowIndex(k: bv16, n: bv8)
    requires k < 256 && n == k as bv8
    ensures n as bv16 == k && n as int == k as int && Xor16(0, (n as bv16) << 8) == k << 8
  {}

  lemma EntryIsShifted(k: bv16, n: nat)
    requires k < 256 && n == 8
    ensures Divide16(0, Msb(k as bv8)) == Zeros16(k << 8, n)
  {
    hide Divide16, Msb, Zeros16, Xor16;
    NarrowIndex(k, k as bv8);
    Byte16(0, k as bv8, n);
  }

  lemma CharStep(crc: bv16, c: bv8, k: bv16, entry: bv16)
    requires k == Index16(crc, c) && entry == Divide16(0, Msb(k as bv8))
    ensures (crc << 8) ^ entry == Divide16(crc, Msb(c))
  {
    hide Divide16, Msb, Zeros16, Index16, Xor16;
    EntryIsShifted(k, 8);
    DivideByIndex(crc, c, 8);
    XorFlip(crc, entry);
  }

  method ComputeChar(crc16: bv16, c: bv8, table: seq<bv16>) returns (crc: bv16)
    requires TableOk(table)
    ensures crc == Divide16(crc16, Msb(c))
  {
    hide Divide16, Msb, Index16, Xor16;
    crc := crc16;
    IndexBits(crc, c);
    var k := ((crc >> 8) ^ (0x00FF & (c as bv16))) & 0xFF;
    NarrowIndex(k, k as bv8);
    CharStep(crc, c, k, table[k as int]);
    crc := (crc << 8) ^ table[k as int];
  }

  lemma XorFlip(crc: bv16, t: bv16)
    ensures (crc << 8) ^ t == Xor16(t, crc << 8)
  {}

  /** Reversing the register after each step of one division performs the other. */
  lemma {:induction false} ReverseDivision(crc: bv16, m: Bits)
    ensures Reverse16(Divide16(crc, m)) == DivideReflected(Reverse16(crc), m)
  {
    hide Reverse16, Shift16, ShiftReflected;
    if m != [] {
      var m' := m[..|m| - 1];
      ReverseDivision(crc, m');
      ReverseShiftBits(Divide16(crc, m'), m[|m| - 1]);
    }
  }

  method HexinCrc16(pSrc: array<bv8>, messageId: nat, len: nat, init: bv16) returns (result: bv16)
    requires 0 < len <= pSrc.Length && messageId < 256
    modifies pSrc
    ensures pSrc[..] == old(pSrc[..])[len - 1 := CrcExtra(messageId)]
    ensures result == DivideReflected(Reverse16(init), LsbFirst(pSrc[..len]))
  {
    hide Divide16, DivideReflected, Lsb, Msb, Reverse16, Reverse8, CrcExtra;
    // The initial value would be reversed first if `is_gradual` were 2; nothing sets it, so it is 0.
    var crc := init;
    pSrc[len - 1] := CrcExtra(messageId);
    var table := new bv16[256];
    InitTable(table);
    EmptyDivision(init);
    for i := 0 to len
      invariant pSrc[..] == old(pSrc[..])[len - 1 := CrcExtra(messageId)]
      invariant crc == Divide16(init, LsbFirst(pSrc[..i]))
      invariant TableOk(table[..])
    {
      var reversed := ReverseLoop8(pSrc[i]);
      ReversedBits(pSrc[i]);
      Divide16Append(init, LsbFirst(pSrc[..i]), Lsb(pSrc[i]));
      assert pSrc[..i + 1][..i] == pSrc[..i];
      crc := ComputeChar(crc, reversed, table[..]);
    }
    ReverseDivision(init, LsbFirst(pSrc[..len]));
    crc := ReverseLoop16(crc);
    XorWithNothing(crc);
    result := crc ^ 0x0000;
  }

  lemma XorWithNothing(crc: bv16)
    ensures crc ^ 0x0000 == crc
  {}

  lemma AllOnesReversed()
    ensures Reverse16(0xFFFF) == 0xFFFF
  {}

  // ---------------------------------------------------------------- the MSP checksum

  function Xor8(a: bv8, b: bv8): bv8 {
    a ^ b
  }

  lemma DvbTopDiffers(a: bv8, u: bv8)
    requires (a ^ u) & 0x80 != 0
    ensures ShiftDvb(a, (u >> 7) as bv1) ^ (u << 1) == ((a ^ u) << 1) ^ 0xD5
  {}

  lemma DvbTopAgrees(a: bv8, u: bv8)
    requires (a ^ u) & 0x80 == 0
    ensures ShiftDvb(a, (u >> 7) as bv1) ^ (u << 1) == (a ^ u) << 1
  {}

  /** Xoring the byte in first and branching on the register is the same as feeding its bits. */
  lemma DvbStep(a: bv8, u: bv8, r: bv8)
    requires r == Xor8(a, u)
    ensures Xor8(ShiftDvb(a, (u >> 7) as bv1), u << 1) == if r & 0x80 != 0 then (r << 1) ^ 0xD5 else r << 1
  {
    hide ShiftDvb;
    if r & 0x80 != 0 {
      DvbTopDiffers(a, u);
    } else {
      DvbTopAgrees(a, u);
    }
  }

  /** The part of byte `v` that has not been fed after `k` steps, high bit first. */
  function UnfedDvb(v: bv8, k: nat): bv8
    decreases k
  {
    if k == 0 then v else UnfedDvb(v, k - 1) << 1
  }

  lemma NextBitDvb(v: bv8, k: nat)
    requires k < 8
    ensures Msb(v)[k] == (UnfedDvb(v, k) >> 7) as bv1
  {
    var u1 := UnfedDvb(v, 1);
    var u2 := UnfedDvb(v, 2);
    var u3 := UnfedDvb(v, 3);
    var u4 := UnfedDvb(v, 4);
    var u5 := UnfedDvb(v, 5);
    var u6 := UnfedDvb(v, 6);
    var u7 := UnfedDvb(v, 7);
  }

  lemma FedDvb(v: bv8)
    ensures UnfedDvb(v, 8) == 0
  {}

  lemma NextDivisionDvb(crc: bv8, m: Bits, j: nat)
    requires j < |m|
    ensures DivideDvb(crc, m[..j + 1]) == ShiftDvb(DivideDvb(crc, m[..j]), m[j])
  {
    assert m[..j + 1][..j] == m[..j];
  }

  lemma {:induction false} DivideDvbAppend(crc: bv8, a: Bits, b: Bits)
    ensures DivideDvb(crc, a + b) == DivideDvb(DivideDvb(crc, a), b)
  {
    hide ShiftDvb;
    if b == [] {
      assert a + b == a;
    } else {
      DivideDvbAppend(crc, a, b[..|b| - 1]);
      assert (a + b)[..|a + b| - 1] == a + b[..|b| - 1];
    }
  }

  lemma FirstDvb(crc: bv8, a: bv8)
    ensures crc ^ a == Xor8(DivideDvb(crc, []), UnfedDvb(a, 0))
  {}

  lemma LastDvb(crc: bv8, a: bv8)
    ensures Xor8(crc, UnfedDvb(a, 8)) == crc
  {
    FedDvb(a);
  }

  lemma NextUnfedDvb(v: bv8, j: nat)
    ensures UnfedDvb(v, j + 1) == UnfedDvb(v, j) << 1
  {}

  method Crc8DvbS2(crc0: bv8, a: bv8) returns (crc: bv8)
    ensures crc == DivideDvb(crc0, Msb(a))
  {
    hide ShiftDvb, Msb, Xor8, DivideDvb, UnfedDvb;
    crc := crc0 ^ a;
    FirstDvb(crc0, a);
    assert Msb(a)[..0] == [];
    for ii := 0 to 8
      invariant crc == Xor8(DivideDvb(crc0, Msb(a)[..ii]), UnfedDvb(a, ii))
    {
      DvbStep(DivideDvb(crc0, Msb(a)[..ii]), UnfedDvb(a, ii), crc);
      NextBitDvb(a, ii);
      NextDivisionDvb(crc0, Msb(a), ii);
      NextUnfedDvb(a, ii);
      if crc & 0x80 != 0 {
        crc := (crc << 1) ^ 0xD5;
      } else {
        crc := crc << 1;
      }
    }
    LastDvb(DivideDvb(crc0, Msb(a)), a);
    assert Msb(a)[..8] == Msb(a);
  }

  method Crc8(buf: seq<bv8>, len: nat) returns (ck: bv8)
    requires len <= |buf|
    ensures ck == DivideDvb(0, MsbFirst(buf[..len]))
  {
    hide ShiftDvb, Msb;
    ck := 0;
    for i := 0 to len
      invariant ck == DivideDvb(0, MsbFirst(buf[..i]))
    {
      DivideDvbAppend(0, MsbFirst(buf[..i]), Msb(buf[i]));
      assert buf[..i + 1][..i] == buf[..i];
      ck := Crc8DvbS2(ck, buf[i]);
    }
  }
}
