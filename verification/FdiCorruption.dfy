/**
 * Transmission errors on the inertial-sensor link: what a receiver that accepts a frame can rely on.
 */
module FdiCorruption {
  import opened CrcDivision
  import opened CrcDetection
  import opened CrcOrder
  import opened CrcGuarantees
  import opened FdiFrames

  lemma MsbInjective(v: bv8, w: bv8)
    requires Msb(v) == Msb(w)
    ensures v == w
  {
    assert Msb(v)[0] == Msb(w)[0] && Msb(v)[1] == Msb(w)[1] && Msb(v)[2] == Msb(w)[2] && Msb(v)[3] == Msb(w)[3];
    assert Msb(v)[4] == Msb(w)[4] && Msb(v)[5] == Msb(w)[5] && Msb(v)[6] == Msb(w)[6] && Msb(v)[7] == Msb(w)[7];
  }

  lemma {:induction false} MsbFirstInjective(p: Bytes, q: Bytes)
    requires |p| == |q| && MsbFirst(p) == MsbFirst(q)
    ensures p == q
  {
    hide Msb;
    if p != [] {
      var n := |p| - 1;
      MsbFirstLength(p[..n]);
      MsbFirstLength(q[..n]);
      assert MsbFirst(p)[..8 * n] == MsbFirst(p[..n]) && MsbFirst(q)[..8 * n] == MsbFirst(q[..n]);
      assert MsbFirst(p)[8 * n..] == Msb(p[n]) && MsbFirst(q)[8 * n..] == Msb(q[n]);
      MsbInjective(p[n], q[n]);
      MsbFirstInjective(p[..n], q[..n]);
    }
  }

  lemma WordInjective(p: Bytes, q: Bytes, c: bv16, d: bv16)
    requires |p| == |q| && Word(p, c) == Word(q, d)
    ensures p == q && c == d
  {
    hide MsbFirst, Field16;
    MsbFirstLength(p);
    MsbFirstLength(q);
    assert Word(p, c)[..8 * |p|] == MsbFirst(p) && Word(q, d)[..8 * |q|] == MsbFirst(q);
    assert Word(p, c)[8 * |p|..] == Field16(c) && Word(q, d)[8 * |q|..] == Field16(d);
    MsbFirstInjective(p, q);
    RemOfField(c);
    RemOfField(d);
  }

  /** The payload and checksum bits of a frame that carries a payload. */
  function Protected(w: Bytes): Bits
    requires IsFrame(w) && Length(w) > 0
  {
    Word(w[7..|w| - 1], PayloadCrc(w[7..|w| - 1]))
  }

  lemma CrcBytesEqual(a: bv8, b: bv8, c: bv8, d: bv8)
    requires a as int * 256 + b as int == c as int * 256 + d as int
    ensures a == c && b == d
  {
    assert a as int == c as int && b as int == d as int;
    assert (a as int) as bv8 == (c as int) as bv8 && (b as int) as bv8 == (d as int) as bv8;
  }

  lemma SameFrame(w: Bytes, v: Bytes)
    requires IsFrame(w) && IsFrame(v) && Length(w) > 0 && w[..5] == v[..5]
    requires w[7..|w| - 1] == v[7..|v| - 1]
    ensures w == v
  {
    hide PayloadCrc, HeaderCrc;
    assert w[2] == w[..5][2] && v[2] == v[..5][2];
    CrcBytesEqual(w[5], w[6], v[5], v[6]);
    assert w == w[..5] + [w[5], w[6]] + w[7..|w| - 1] + [w[|w| - 1]];
    assert v == v[..5] + [v[5], v[6]] + v[7..|v| - 1] + [v[|v| - 1]];
  }

  /**
   * Two different frames with the same header differ in at least four payload and checksum bits:
   * flipping one, two or three of them never turns a frame into another frame.
   */
  lemma PayloadErrorsDetected(w: Bytes, v: Bytes)
    requires IsFrame(w) && IsFrame(v) && Length(w) > 0 && w[..5] == v[..5] && w != v
    ensures Length(v) == Length(w) && |Protected(w)| == |Protected(v)|
    ensures Ones(Difference(Protected(w), Protected(v))) >= 4
  {
    hide MsbFirst, Divide16, HeaderCrc, Word, Field16, Ones;
    assert w[2] == w[..5][2] && v[2] == v[..5][2];
    var p, q := w[7..|w| - 1], v[7..|v| - 1];
    if Word(p, PayloadCrc(p)) == Word(q, PayloadCrc(q)) {
      WordInjective(p, q, PayloadCrc(p), PayloadCrc(q));
      SameFrame(w, v);
    }
    HammingDistanceFour(p, q, PayloadCrc(p), PayloadCrc(q));
  }

  /** Changing any one byte of the five header bytes makes the header fail. */
  lemma HeaderErrorsDetected(w: Bytes, k: nat, v: bv8)
    requires HeaderOk(w) && k < 5 && v != w[k]
    ensures !HeaderOk(w[k := v])
  {
    hide Divide8, LsbFirst;
    var w' := w[k := v];
    if k == 4 {
      assert w'[..4] == w[..4];
    } else {
      var a, b := w[..k], w[k + 1..4];
      assert w[..4] == a + [w[k]] + b;
      assert w'[..4] == a + [v] + b;
      OneByteChanged(a, w[k], v, b);
    }
  }
}
