/**
 * The lookup tables of the inertial-sensor link (CRC_Table.c) and what they tabulate.
 *
 * A table is kept as sixteen rows of sixteen entries; entry `k` is column `k & 15` of row `k >> 4`.
 */
module CrcTables {

  import opened CrcDivision

  const T8_0: seq<bv8> := [0, 94, 188, 226, 97, 63, 221, 131, 194, 156, 126, 32, 163, 253, 31, 65]
  const T8_1: seq<bv8> := [157, 195, 33, 127, 252, 162, 64, 30, 95, 1, 227, 189, 62, 96, 130, 220]
  const T8_2: seq<bv8> := [35, 125, 159, 193, 66, 28, 254, 160, 225, 191, 93, 3, 128, 222, 60, 98]
  const T8_3: seq<bv8> := [190, 224, 2, 92, 223, 129, 99, 61, 124, 34, 192, 158, 29, 67, 161, 255]
  const T8_4: seq<bv8> := [70, 24, 250, 164, 39, 121, 155, 197, 132, 218, 56, 102, 229, 187, 89, 7]
  const T8_5: seq<bv8> := [219, 133, 103, 57, 186, 228, 6, 88, 25, 71, 165, 251, 120, 38, 196, 154]
  const T8_6: seq<bv8> := [101, 59, 217, 135, 4, 90, 184, 230, 167, 249, 27, 69, 198, 152, 122, 36]
  const T8_7: seq<bv8> := [248, 166, 68, 26, 153, 199, 37, 123, 58, 100, 134, 216, 91, 5, 231, 185]
  const T8_8: seq<bv8> := [140, 210, 48, 110, 237, 179, 81, 15, 78, 16, 242, 172, 47, 113, 147, 205]
  const T8_9: seq<bv8> := [17, 79, 173, 243, 112, 46, 204, 146, 211, 141, 111, 49, 178, 236, 14, 80]
  const T8_A: seq<bv8> := [175, 241, 19, 77, 206, 144, 114, 44, 109, 51, 209, 143, 12, 82, 176, 238]
  const T8_B: seq<bv8> := [50, 108, 142, 208, 83, 13, 239, 177, 240, 174, 76, 18, 145, 207, 45, 115]
  const T8_C: seq<bv8> := [202, 148, 118, 40, 171, 245, 23, 73, 8, 86, 180, 234, 105, 55, 213, 139]
  const T8_D: seq<bv8> := [87, 9, 235, 181, 54, 104, 138, 212, 149, 203, 41, 119, 244, 170, 72, 22]
  const T8_E: seq<bv8> := [233, 183, 85, 11, 136, 214, 52, 106, 43, 117, 151, 201, 74, 20, 246, 168]
  const T8_F: seq<bv8> := [116, 42, 200, 150, 21, 75, 169, 247, 182, 232, 10, 84, 215, 137, 107, 53]

  const T16_0: seq<bv16> := [0x0000, 0x1021, 0x2042, 0x3063, 0x4084, 0x50A5, 0x60C6, 0x70E7,
    0x8108, 0x9129, 0xA14A, 0xB16B, 0xC18C, 0xD1AD, 0xE1CE, 0xF1EF]
  const T16_1: seq<bv16> := [0x1231, 0x0210, 0x3273, 0x2252, 0x52B5, 0x4294, 0x72F7, 0x62D6,
    0x9339, 0x8318, 0xB37B, 0xA35A, 0xD3BD, 0xC39C, 0xF3FF, 0xE3DE]
  const T16_2: seq<bv16> := [0x2462, 0x3443, 0x0420, 0x1401, 0x64E6, 0x74C7, 0x44A4, 0x5485,
    0xA56A, 0xB54B, 0x8528, 0x9509, 0xE5EE, 0xF5CF, 0xC5AC, 0xD58D]
  const T16_3: seq<bv16> := [0x3653, 0x2672, 0x1611, 0x0630, 0x76D7, 0x66F6, 0x5695, 0x46B4,
    0xB75B, 0xA77A, 0x9719, 0x8738, 0xF7DF, 0xE7FE, 0xD79D, 0xC7BC]
  const T16_4: seq<bv16> := [0x48C4, 0x58E5, 0x6886, 0x78A7, 0x0840, 0x1861, 0x2802, 0x3823,
    0xC9CC, 0xD9ED, 0xE98E, 0xF9AF, 0x8948, 0x9969, 0xA90A, 0xB92B]
  const T16_5: seq<bv16> := [0x5AF5, 0x4AD4, 0x7AB7, 0x6A96, 0x1A71, 0x0A50, 0x3A33, 0x2A12,
    0xDBFD, 0xCBDC, 0xFBBF, 0xEB9E, 0x9B79, 0x8B58, 0xBB3B, 0xAB1A]
  const T16_6: seq<bv16> := [0x6CA6, 0x7C87, 0x4CE4, 0x5CC5, 0x2C22, 0x3C03, 0x0C60, 0x1C41,
    0xEDAE, 0xFD8F, 0xCDEC, 0xDDCD, 0xAD2A, 0xBD0B, 0x8D68, 0x9D49]
  const T16_7: seq<bv16> := [0x7E97, 0x6EB6, 0x5ED5, 0x4EF4, 0x3E13, 0x2E32, 0x1E51, 0x0E70,
    0xFF9F, 0xEFBE, 0xDFDD, 0xCFFC, 0xBF1B, 0xAF3A, 0x9F59, 0x8F78]
  const T16_8: seq<bv16> := [0x9188, 0x81A9, 0xB1CA, 0xA1EB, 0xD10C, 0xC12D, 0xF14E, 0xE16F,
    0x1080, 0x00A1, 0x30C2, 0x20E3, 0x5004, 0x4025, 0x7046, 0x6067]
  const T16_9: seq<bv16> := [0x83B9, 0x9398, 0xA3FB, 0xB3DA, 0xC33D, 0xD31C, 0xE37F, 0xF35E,
    0x02B1, 0x1290, 0x22F3, 0x32D2, 0x4235, 0x5214, 0x6277, 0x7256]
  const T16_A: seq<bv16> := [0xB5EA, 0xA5CB, 0x95A8, 0x8589, 0xF56E, 0xE54F, 0xD52C, 0xC50D,
    0x34E2, 0x24C3, 0x14A0, 0x0481, 0x7466, 0x6447, 0x5424, 0x4405]
  const T16_B: seq<bv16> := [0xA7DB, 0xB7FA, 0x8799, 0x97B8, 0xE75F, 0xF77E, 0xC71D, 0xD73C,
    0x26D3, 0x36F2, 0x0691, 0x16B0, 0x6657, 0x7676, 0x4615, 0x5634]
  const T16_C: seq<bv16> := [0xD94C, 0xC96D, 0xF90E, 0xE92F, 0x99C8, 0x89E9, 0xB98A, 0xA9AB,
    0x5844, 0x4865, 0x7806, 0x6827, 0x18C0, 0x08E1, 0x3882, 0x28A3]
  const T16_D: seq<bv16> := [0xCB7D, 0xDB5C, 0xEB3F, 0xFB1E, 0x8BF9, 0x9BD8, 0xABBB, 0xBB9A,
    0x4A75, 0x5A54, 0x6A37, 0x7A16, 0x0AF1, 0x1AD0, 0x2AB3, 0x3A92]
  const T16_E: seq<bv16> := [0xFD2E, 0xED0F, 0xDD6C, 0xCD4D, 0xBDAA, 0xAD8B, 0x9DE8, 0x8DC9,
    0x7C26, 0x6C07, 0x5C64, 0x4C45, 0x3CA2, 0x2C83, 0x1CE0, 0x0CC1]
  const T16_F: seq<bv16> := [0xEF1F, 0xFF3E, 0xCF5D, 0xDF7C, 0xAF9B, 0xBFBA, 0x8FD9, 0x9FF8,
    0x6E17, 0x7E36, 0x4E55, 0x5E74, 0x2E93, 0x3EB2, 0x0ED1, 0x1EF0]

  function Row8(high: bv8): (row: seq<bv8>)
    ensures |row| == 16
  {
    match high
    case 0 => T8_0
    case 1 => T8_1
    case 2 => T8_2
    case 3 => T8_3
    case 4 => T8_4
    case 5 => T8_5
    case 6 => T8_6
    case 7 => T8_7
    case 8 => T8_8
    case 9 => T8_9
    case 10 => T8_A
    case 11 => T8_B
    case 12 => T8_C
    case 13 => T8_D
    case 14 => T8_E
    case _ => T8_F
  }

  function Table8(k: bv8): bv8 {
    Row8(k >> 4)[(k & 15) as int]
  }

  function Row16(high: bv16): (row: seq<bv16>)
    ensures |row| == 16
  {
    match high
    case 0 => T16_0
    case 1 => T16_1
    case 2 => T16_2
    case 3 => T16_3
    case 4 => T16_4
    case 5 => T16_5
    case 6 => T16_6
    case 7 => T16_7
    case 8 => T16_8
    case 9 => T16_9
    case 10 => T16_A
    case 11 => T16_B
    case 12 => T16_C
    case 13 => T16_D
    case 14 => T16_E
    case _ => T16_F
  }

  function Table16(k: bv16): bv16
    requires k < 256
  {
    Row16(k >> 4)[(k & 15) as int]
  }

  lemma Row8_0(low: bv8)
    requires low < 16
    ensures T8_0[low as int] == EightZeros8(0x00 | low)
  {}

  lemma Row8_1(low: bv8)
    requires low < 16
    ensures T8_1[low as int] == EightZeros8(0x10 | low)
  {}

  lemma Row8_2(low: bv8)
    requires low < 16
    ensures T8_2[low as int] == EightZeros8(0x20 | low)
  {}

  lemma Row8_3(low: bv8)
    requires low < 16
    ensures T8_3[low as int] == EightZeros8(0x30 | low)
  {}

  lemma Row8_4(low: bv8)
    requires low < 16
    ensures T8_4[low as int] == EightZeros8(0x40 | low)
  {}

  lemma Row8_5(low: bv8)
    requires low < 16
    ensures T8_5[low as int] == EightZeros8(0x50 | low)
  {}

  lemma Row8_6(low: bv8)
    requires low < 16
    ensures T8_6[low as int] == EightZeros8(0x60 | low)
  {}

  lemma Row8_7(low: bv8)
    requires low < 16
    ensures T8_7[low as int] == EightZeros8(0x70 | low)
  {}

  lemma Row8_8(low: bv8)
    requires low < 16
    ensures T8_8[low as int] == EightZeros8(0x80 | low)
  {}

  lemma Row8_9(low: bv8)
    requires low < 16
    ensures T8_9[low as int] == EightZeros8(0x90 | low)
  {}

  lemma Row8_A(low: bv8)
    requires low < 16
    ensures T8_A[low as int] == EightZeros8(0xA0 | low)
  {}

  lemma Row8_B(low: bv8)
    requires low < 16
    ensures T8_B[low as int] == EightZeros8(0xB0 | low)
  {}

  lemma Row8_C(low: bv8)
    requires low < 16
    ensures T8_C[low as int] == EightZeros8(0xC0 | low)
  {}

  lemma Row8_D(low: bv8)
    requires low < 16
    ensures T8_D[low as int] == EightZeros8(0xD0 | low)
  {}

  lemma Row8_E(low: bv8)
    requires low < 16
    ensures T8_E[low as int] == EightZeros8(0xE0 | low)
  {}

  lemma Row8_F(low: bv8)
    requires low < 16
    ensures T8_F[low as int] == EightZeros8(0xF0 | low)
  {}

  /** Every entry is its index, placed at the top of the register and shifted through it. */
  lemma Table8IsShifting(k: bv8)
    ensures Table8(k) == EightZeros8(k)
  {
    hide EightZeros8;
    var low := k & 15;
    match k >> 4
    case 0 => Row8_0(low); assert 0x00 | low == k;
    case 1 => Row8_1(low); assert 0x10 | low == k;
    case 2 => Row8_2(low); assert 0x20 | low == k;
    case 3 => Row8_3(low); assert 0x30 | low == k;
    case 4 => Row8_4(low); assert 0x40 | low == k;
    case 5 => Row8_5(low); assert 0x50 | low == k;
    case 6 => Row8_6(low); assert 0x60 | low == k;
    case 7 => Row8_7(low); assert 0x70 | low == k;
    case 8 => Row8_8(low); assert 0x80 | low == k;
    case 9 => Row8_9(low); assert 0x90 | low == k;
    case 10 => Row8_A(low); assert 0xA0 | low == k;
    case 11 => Row8_B(low); assert 0xB0 | low == k;
    case 12 => Row8_C(low); assert 0xC0 | low == k;
    case 13 => Row8_D(low); assert 0xD0 | low == k;
    case 14 => Row8_E(low); assert 0xE0 | low == k;
    case _ => Row8_F(low); assert 0xF0 | low == k;
  }

  lemma Row16_0(low: bv16)
    requires low < 16
    ensures T16_0[low as int] == EightZeros16((0x00 | low) << 8)
  {}

  lemma Row16_1(low: bv16)
    requires low < 16
    ensures T16_1[low as int] == EightZeros16((0x10 | low) << 8)
  {}

  lemma Row16_2(low: bv16)
    requires low < 16
    ensures T16_2[low as int] == EightZeros16((0x20 | low) << 8)
  {}

  lemma Row16_3(low: bv16)
    requires low < 16
    ensures T16_3[low as int] == EightZeros16((0x30 | low) << 8)
  {}

  lemma Row16_4(low: bv16)
    requires low < 16
    ensures T16_4[low as int] == EightZeros16((0x40 | low) << 8)
  {}

  lemma Row16_5(low: bv16)
    requires low < 16
    ensures T16_5[low as int] == EightZeros16((0x50 | low) << 8)
  {}

  lemma Row16_6(low: bv16)
    requires low < 16
    ensures T16_6[low as int] == EightZeros16((0x60 | low) << 8)
  {}

  lemma Row16_7(low: bv16)
    requires low < 16
    ensures T16_7[low as int] == EightZeros16((0x70 | low) << 8)
  {}

  lemma Row16_8(low: bv16)
    requires low < 16
    ensures T16_8[low as int] == EightZeros16((0x80 | low) << 8)
  {}

  lemma Row16_9(low: bv16)
    requires low < 16
    ensures T16_9[low as int] == EightZeros16((0x90 | low) << 8)
  {}

  lemma Row16_A(low: bv16)
    requires low < 16
    ensures T16_A[low as int] == EightZeros16((0xA0 | low) << 8)
  {}

  lemma Row16_B(low: bv16)
    requires low < 16
    ensures T16_B[low as int] == EightZeros16((0xB0 | low) << 8)
  {}

  lemma Row16_C(low: bv16)
    requires low < 16
    ensures T16_C[low as int] == EightZeros16((0xC0 | low) << 8)
  {}

  lemma Row16_D(low: bv16)
    requires low < 16
    ensures T16_D[low as int] == EightZeros16((0xD0 | low) << 8)
  {}

  lemma Row16_E(low: bv16)
    requires low < 16
    ensures T16_E[low as int] == EightZeros16((0xE0 | low) << 8)
  {}

  lemma Row16_F(low: bv16)
    requires low < 16
    ensures T16_F[low as int] == EightZeros16((0xF0 | low) << 8)
  {}

  /** Every entry is its index, placed at the top of the register and shifted through it. */
  lemma Table16IsShifting(k: bv16)
    requires k < 256
    ensures Table16(k) == EightZeros16(k << 8)
  {
    hide EightZeros16;
    var low := k & 15;
    match k >> 4
    case 0 => Row16_0(low); assert 0x00 | low == k;
    case 1 => Row16_1(low); assert 0x10 | low == k;
    case 2 => Row16_2(low); assert 0x20 | low == k;
    case 3 => Row16_3(low); assert 0x30 | low == k;
    case 4 => Row16_4(low); assert 0x40 | low == k;
    case 5 => Row16_5(low); assert 0x50 | low == k;
    case 6 => Row16_6(low); assert 0x60 | low == k;
    case 7 => Row16_7(low); assert 0x70 | low == k;
    case 8 => Row16_8(low); assert 0x80 | low == k;
    case 9 => Row16_9(low); assert 0x90 | low == k;
    case 10 => Row16_A(low); assert 0xA0 | low == k;
    case 11 => Row16_B(low); assert 0xB0 | low == k;
    case 12 => Row16_C(low); assert 0xC0 | low == k;
    case 13 => Row16_D(low); assert 0xD0 | low == k;
    case 14 => Row16_E(low); assert 0xE0 | low == k;
    case _ => Row16_F(low); assert 0xF0 | low == k;
  }

  lemma Lookup8(k: bv8)
    ensures Table8(k) == Zeros8(k, 8)
  {
    Zeros8Unrolled(k);
    Table8IsShifting(k);
  }

  lemma Lookup16(k: bv16)
    requires k < 256
    ensures Table16(k) == Zeros16(k << 8, 8)
  {
    Zeros16Unrolled(k << 8);
    Table16IsShifting(k);
  }
}
