/** Bytes and the numbers they stand for. */
module ByteNat {
  function ByteOf(n: nat): (v: bv8)
    requires n < 256
    ensures v as nat == n
  {
    n as bv8
  }

  lemma SameNumber(v: bv8, w: bv8)
    requires v as nat == w as nat
    ensures v == w
  {}

  lemma ByteOfNumber(v: bv8)
    ensures ByteOf(v as nat) == v
  {
    SameNumber(ByteOf(v as nat), v);
  }
}
