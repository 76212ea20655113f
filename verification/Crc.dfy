/**
 * The two table-driven checksums of the inertial-sensor link (CRC_Table.c), proved equal to plain
 * bit-by-bit polynomial division.
 */
module Crc {
  import opened CrcDivision
  import opened CrcTables

  /** One table lookup performs the eight division steps of a byte. */
  lemma TableStep8(crc: bv8, v: bv8)
    ensures Table8(crc ^ v) == Divide8(crc, Lsb(v))
  {
    hide *;
    Byte8(crc, v);
    Lookup8(crc ^ v);
  }

  lemma TableStep16(crc: bv16, v: bv8, k: bv16)
    requires k == Index16(crc, v)
    ensures Xor16(Table16(k), crc << 8) == Divide16(crc, Msb(v))
  {
    hide *;
    DivideByIndex(crc, v, 8);
    Lookup16(k);
  }

  method Crc8Table(p: Bytes, counter: nat) returns (crc8: bv8)
    requires counter <= |p|
    ensures crc8 == Divide8(0, LsbFirst(p[..counter]))
  {
    crc8 := 0;
    for i := 0 to counter
      invariant crc8 == Divide8(0, LsbFirst(p[..i]))
    {
      var value := p[i];
      var newIndex := crc8 ^ value;
      TableStep8(crc8, value);
      Divide8Append(0, LsbFirst(p[..i]), Lsb(value));
      assert p[..i + 1][..i] == p[..i];
      crc8 := Table8(newIndex);
    }
  }

  method Crc16Table(p: Bytes, counter: nat) returns (crc16: bv16)
    requires counter <= |p|
    ensures crc16 == Divide16(0, MsbFirst(p[..counter]))
  {
    crc16 := 0;
    for i := 0 to counter
      invariant crc16 == Divide16(0, MsbFirst(p[..i]))
    {
      var value := p[i];
      var index := ((crc16 >> 8) ^ (value as bv16)) & 0xFF;
      TableStep16(crc16, value, index);
      Divide16Append(0, MsbFirst(p[..i]), Msb(value));
      assert p[..i + 1][..i] == p[..i];
      crc16 := Table16(index) ^ (crc16 << 8);
    }
  }
}
