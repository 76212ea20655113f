/**
 * The optical-flow parsers as flow_decode.c writes them: state numbers, payload structs and checksum
 * scratch buffers, proved to read the stream as `FlowFrames` says.
 */
module FlowDecode {
  import opened CrcDivision
  import opened FlowCheck
  import opened FlowFrames

  const MSP_FIRST: seq<bv8> := [0x24, 0x58, 0x3C, 0x00, 0x01, 0x1F, 0x05, 0x00]
  const MSP_SECOND: seq<bv8> := [0x24, 0x58, 0x3C, 0x00, 0x02, 0x1F, 0x09, 0x00]

  lemma MspHeaders(w: Bytes)
    requires Viable(Msp, w)
    ensures |w| >= 8 ==> w[..8] == MSP_FIRST
    ensures |w| >= 22 ==> w[14..22] == MSP_SECOND
  {
    hide MspCrc;
    forall k | 0 <= k < 8 && k < |w| ensures w[k] == MSP_FIRST[k] {
      FitsAt(Msp, w, k);
    }
    if |w| >= 22 {
      forall k | 0 <= k < 8 ensures w[14 + k] == MSP_SECOND[k] {
        FitsAt(Msp, w, 14 + k);
      }
    }
  }

  /** The checksum bytes of an MSP report, in terms of the scratch buffers. */
  lemma MspChecks(w: Bytes, v: bv8)
    requires Viable(Msp, w)
    ensures |w| == 13 ==> (Fits(Msp, w, v) <==> v == MspCrc([0x00, 0x01, 0x1F, 0x05, 0x00] + w[8..]))
    ensures |w| == 31 ==> (Fits(Msp, w, v) <==> v == MspCrc([0x00, 0x02, 0x1F, 0x09, 0x00] + w[22..]))
  {
    hide MspCrc, Viable;
    MspHeaders(w);
    if |w| == 13 {
      assert w[3..] == w[..8][3..] + w[8..];
      assert MSP_FIRST[3..] == [0x00, 0x01, 0x1F, 0x05, 0x00];
    }
    if |w| == 31 {
      assert w[14..][3..] == w[14..22][3..] + w[22..];
      assert MSP_SECOND[3..] == [0x00, 0x02, 0x1F, 0x09, 0x00];
    }
  }

  lemma MspFits(w: Bytes, v: bv8)
    requires |w| < 32
    ensures |w| < 8 ==> (Fits(Msp, w, v) <==> v == MSP_FIRST[|w|])
    ensures 14 <= |w| < 22 ==> (Fits(Msp, w, v) <==> v == MSP_SECOND[|w| - 14])
    ensures 8 <= |w| < 13 || 22 <= |w| < 31 ==> Fits(Msp, w, v)
  {
    hide MspCrc;
  }

  class MspParser {
    var s: int
    var p: nat
    const distance: array<bv8>
    const flow: array<bv8>
    const crc1: array<bv8>
    const crc2: array<bv8>
    ghost var pending: Bytes

    ghost predicate Valid()
      reads this, distance, flow, crc1, crc2
    {
      && distance.Length == 5 && flow.Length == 9 && crc1.Length == 10 && crc2.Length == 14
      && distance != flow && distance != crc1 && distance != crc2 && flow != crc1 && flow != crc2 && crc1 != crc2
      && crc1[..5] == [0x00, 0x01, 0x1F, 0x05, 0x00]
      && crc2[..5] == [0x00, 0x02, 0x1F, 0x09, 0x00]
      && Viable(Msp, pending)
      && 0 <= s <= 19
      && (s < 8 ==> |pending| == s)
      && (s == 8 ==> p < 5 && |pending| == 8 + p && distance[..p] == pending[8..])
      && (s == 9 ==> |pending| == 13)
      && (10 <= s <= 17 ==> |pending| == s + 4)
      && (s >= 9 ==> |pending| >= 13 && distance[..] == pending[8..13])
      && (s == 18 ==> p < 9 && |pending| == 22 + p && flow[..p] == pending[22..])
      && (s == 19 ==> |pending| == 31 && flow[..] == pending[22..])
    }

    constructor ()
      ensures Valid() && pending == []
      ensures fresh(distance) && fresh(flow) && fresh(crc1) && fresh(crc2)
    {
      s, p := 0, 0;
      distance := new bv8[5](_ => 0);
      flow := new bv8[9](_ => 0);
      crc1 := new bv8[][0x00, 0x01, 0x1F, 0x05, 0x00, 0, 0, 0, 0, 0];
      crc2 := new bv8[][0x00, 0x02, 0x1F, 0x09, 0x00, 0, 0, 0, 0, 0, 0, 0, 0, 0];
      pending := [];
    }

    /** `memcpy(crc1 + 5, &msp_dis_data, 5)` and the checksum of the result. */
    method DistanceCrc() returns (crc: bv8)
      requires Valid() && s == 9
      modifies crc1
      ensures Valid()
      ensures crc == MspCrc([0x00, 0x01, 0x1F, 0x05, 0x00] + pending[8..])
    {
      hide Viable, DivideDvb, MsbFirst;
      forall i | 0 <= i < 5 {
        crc1[5 + i] := distance[i];
      }
      crc := Crc8(crc1[..], 10);
      assert crc1[..10] == crc1[..5] + distance[..];
      assert crc1[..][..10] == crc1[..10];
      assert pending[8..] == pending[8..13];
    }

    method FlowCrc() returns (crc: bv8)
      requires Valid() && s == 19
      modifies crc2
      ensures Valid()
      ensures crc == MspCrc([0x00, 0x02, 0x1F, 0x09, 0x00] + pending[22..])
    {
      hide Viable, DivideDvb, MsbFirst;
      forall i | 0 <= i < 9 {
        crc2[5 + i] := flow[i];
      }
      crc := Crc8(crc2[..], 14);
      assert crc2[..14] == crc2[..5] + flow[..];
      assert crc2[..][..14] == crc2[..14];
    }

    /** What one byte does; on acceptance both payloads are in their structs. */
    twostate predicate Moved(ch: bv8, ret: int)
      reads this, distance, flow, crc1, crc2
    {
      && Valid()
      && pending == Feed(Msp, old(pending), ch).pending
      && ret == (if Feed(Msp, old(pending), ch).accepted then 0 else -1)
      && (ret == 0 ==>
            && |old(pending)| == 31
            && distance[..] == old(pending)[8..13]
            && flow[..] == old(pending)[22..31])
    }

    method CaseHeader(ch: bv8) returns (ret: int)
      requires Valid() && (s < 8 || 10 <= s < 18)
      modifies this
      ensures Moved(ch, ret)
    {
      hide Fits, Viable, MspCrc;
      ret := -1;
      MspFits(pending, ch);
      NothingIsViable(Msp);
      if s < 8 {
        if ch == MSP_FIRST[s] {
          ViableExtends(Msp, pending, ch);
          pending := pending + [ch];
          s := s + 1;
          if s == 8 {
            p := 0;
          }
        } else {
          pending := [];
          s := 0;
        }
      } else {
        if ch == MSP_SECOND[s - 10] {
          ViableExtends(Msp, pending, ch);
          ghost var kept := pending[8..13];
          pending := pending + [ch];
          assert pending[8..13] == kept;
          s := s + 1;
          if s == 18 {
            p := 0;
          }
        } else {
          pending := [];
          s := 0;
        }
      }
    }

    method CaseDistance(ch: bv8) returns (ret: int)
      requires Valid() && s == 8
      modifies this, distance
      ensures Moved(ch, ret)
    {
      hide Fits, Viable, MspCrc;
      ret := -1;
      MspFits(pending, ch);
      ViableExtends(Msp, pending, ch);
      ghost var got := distance[..p];
      distance[p] := ch;
      p := p + 1;
      assert distance[..p] == got + [ch];
      pending := pending + [ch];
      assert pending[8..] == got + [ch];
      if p == 5 {
        assert distance[..] == distance[..5] && pending[8..13] == pending[8..];
        s := 9;
        p := 0;
      }
    }

    method CaseFlow(ch: bv8) returns (ret: int)
      requires Valid() && s == 18
      modifies this, flow
      ensures Moved(ch, ret)
    {
      hide Fits, Viable, MspCrc;
      ret := -1;
      MspFits(pending, ch);
      ViableExtends(Msp, pending, ch);
      ghost var got, kept := flow[..p], pending[8..13];
      flow[p] := ch;
      p := p + 1;
      assert flow[..p] == got + [ch];
      pending := pending + [ch];
      assert pending[8..13] == kept && pending[22..] == got + [ch];
      if p == 9 {
        assert flow[..] == flow[..9];
        s := 19;
        p := 0;
      }
    }

    method CaseCrc(ch: bv8) returns (ret: int)
      requires Valid() && (s == 9 || s == 19)
      modifies this, crc1, crc2
      ensures Moved(ch, ret)
    {
      hide Fits, Viable, MspCrc;
      ret := -1;
      MspChecks(pending, ch);
      NothingIsViable(Msp);
      if s == 9 {
        var crc := DistanceCrc();
        if crc == ch {
          ViableExtends(Msp, pending, ch);
          ghost var kept := pending[8..13];
          pending := pending + [ch];
          assert pending[8..13] == kept;
          s := 10;
        } else {
          pending := [];
          s := 0;
        }
      } else {
        var crc := FlowCrc();
        if crc == ch {
          ret := 0;
        }
        pending := [];
        s := 0;
      }
    }

    /** One byte: 0 on acceptance, -1 otherwise. */
    method ParseChar(ch: bv8) returns (ret: int)
      requires Valid()
      modifies this, distance, flow, crc1, crc2
      ensures Moved(ch, ret)
    {
      hide Fits, Viable, Feed;
      if s == 8 {
        ret := CaseDistance(ch);
      } else if s == 18 {
        ret := CaseFlow(ch);
      } else if s == 9 || s == 19 {
        ret := CaseCrc(ch);
      } else {
        ret := CaseHeader(ch);
      }
    }
  }

  // ---------------------------------------------------------------- MAVLink, as ArduPilot and PX4 send it

  lemma MavlinkFit(f: Format, w: Bytes, v: bv8, n: nat)
    requires f.Mavlink? && n == f.flowLength as nat
    ensures |w| < 8 + n ==> Fits(f, w, v) == FitsMavlink(w, f.flowId, f.flowLength, v)
    ensures |w| >= 8 + n ==> Fits(f, w, v) == FitsMavlink(w[8 + n..], 0x84, 0x0E, v)
  {
    hide FitsMavlink;
  }

  lemma Constants()
    ensures 0x84 as bv8 as nat == 0x84 && 0x0E as bv8 as nat == 14
  {}

  lemma SliceKept(w: Bytes, v: bv8, i: nat, j: nat)
    requires i <= j <= |w|
    ensures (w + [v])[i..j] == w[i..j]
  {}

  lemma TailGrows(w: Bytes, v: bv8, i: nat, b: Bytes, k: nat)
    requires i <= |w| && k < |b| && b[..k] == w[i..]
    ensures b[k := v][..k + 1] == (w + [v])[i..]
  {
    assert b[k := v][..k + 1] == b[..k] + [v];
  }

  /** The fixed bytes at the head of the two messages. */
  lemma MavlinkHeads(f: Format, w: Bytes, n: nat)
    requires f.Mavlink? && n == f.flowLength as nat && Viable(f, w)
    ensures |w| >= 6 ==> w[1] == f.flowLength && w[3] == 0x00 && w[4] == 0x9E && w[5] == f.flowId
    ensures |w| >= 14 + n ==> w[9 + n] == 0x0E && w[11 + n] == 0x00 && w[12 + n] == 0x9E && w[13 + n] == 0x84
  {
    hide Viable, Fits, MavlinkCrc, IsLow, IsHigh, CrcExtra;
    if |w| >= 6 {
      FitAt(f, w, 1, n);
      FitAt(f, w, 3, n);
      FitAt(f, w, 4, n);
      FitAt(f, w, 5, n);
    }
    if |w| >= 14 + n {
      FitAt(f, w, 9 + n, n);
      FitAt(f, w, 11 + n, n);
      FitAt(f, w, 12 + n, n);
      FitAt(f, w, 13 + n, n);
    }
  }

  lemma FitAt(f: Format, w: Bytes, k: nat, n: nat)
    requires f.Mavlink? && n == f.flowLength as nat && Viable(f, w) && k < |w|
    ensures k < 8 + n ==> FitsMavlink(w[..k], f.flowId, f.flowLength, w[k])
    ensures k >= 8 + n ==> FitsMavlink(w[..k][8 + n..], 0x84, 0x0E, w[k])
  {
    hide Viable, Fits, FitsMavlink;
    FitsAt(f, w, k);
    MavlinkFit(f, w[..k], w[k], n);
  }

  /** The checksummed bytes of a message whose head has been read, as the scratch buffer holds them. */
  function Scratch(length: bv8, sequence: bv8, id: bv8, payload: Bytes): Bytes {
    [length, sequence, 0x00, 0x9E, id] + payload + [CrcExtra(id as nat)]
  }

  lemma ScratchFilled(before: Bytes, after: Bytes, length: bv8, sequence: bv8, id: bv8, payload: Bytes)
    requires |before| == 6 + |payload| && after == before[5 + |payload| := CrcExtra(id as nat)]
    requires before[..5] == [length, sequence, 0x00, 0x9E, id] && before[5..5 + |payload|] == payload
    ensures after == Scratch(length, sequence, id, payload)
    ensures after[0] == length && after[1] == sequence && after[2] == 0x00 && after[3] == 0x9E && after[4] == id
  {
    hide CrcExtra;
    assert after[..5] == before[..5] && after[5..5 + |payload|] == payload;
    assert after == after[..5] + after[5..5 + |payload|] + [after[5 + |payload|]];
    assert forall k :: 0 <= k < 5 ==> after[k] == before[..5][k];
  }

  lemma FirstScratch(f: Format, w: Bytes, n: nat)
    requires f.Mavlink? && n == f.flowLength as nat && Viable(f, w) && |w| >= 6 + n
    ensures w[1..6 + n] + [CrcExtra(f.flowId as nat)] == Scratch(f.flowLength, w[2], f.flowId, w[6..6 + n])
  {
    hide Viable, Fits, CrcExtra;
    MavlinkHeads(f, w, n);
    assert w[1..6 + n] == [w[1], w[2], w[3], w[4], w[5]] + w[6..6 + n];
  }

  lemma SecondScratch(f: Format, w: Bytes, n: nat)
    requires f.Mavlink? && n == f.flowLength as nat && Viable(f, w) && |w| >= 28 + n
    ensures w[9 + n..28 + n] + [CrcExtra(0x84)] == Scratch(0x0E, w[10 + n], 0x84, w[14 + n..28 + n])
  {
    hide Viable, Fits, CrcExtra;
    MavlinkHeads(f, w, n);
    assert w[9 + n..28 + n] == [w[9 + n], w[10 + n], w[11 + n], w[12 + n], w[13 + n]] + w[14 + n..28 + n];
    Constants();
  }

  /** The variables of the parser as one value. */
  datatype View = View(s: int, p: nat, pending: Bytes, flow: Bytes, distance: Bytes,
                       sequence1: bv8, sequence2: bv8, crc1: bv16, crc2: bv16)

  function FirstSum(f: Format, x: View): bv16
    requires f.Mavlink?
  {
    MavlinkCrc(Scratch(f.flowLength, x.sequence1, f.flowId, x.flow))
  }

  function SecondSum(x: View): bv16 {
    MavlinkCrc(Scratch(0x0E, x.sequence2, 0x84, x.distance))
  }

  ghost predicate Lengths(n: nat, x: View) {
    && 0 <= x.s <= 17 && |x.flow| == n && |x.distance| == 14
    && (x.s == 6 ==> x.p < n) && (x.s == 15 ==> x.p < 14)
    && |x.pending| == (
      if x.s <= 5 then x.s else if x.s == 6 then 6 + x.p else if x.s <= 14 then x.s - 1 + n
      else if x.s == 15 then 14 + n + x.p else x.s + 12 + n)
  }

  ghost predicate FirstAgrees(f: Format, n: nat, x: View)
    requires f.Mavlink? && Lengths(n, x)
  {
    && (x.s == 6 ==> x.flow[..x.p] == x.pending[6..])
    && (x.s >= 7 ==> x.flow == x.pending[6..6 + n])
    && (x.s >= 3 ==> x.sequence1 == x.pending[2])
    && (x.s == 8 ==> x.crc1 == FirstSum(f, x))
  }

  ghost predicate SecondAgrees(n: nat, x: View)
    requires Lengths(n, x)
  {
    && (x.s == 15 ==> x.distance[..x.p] == x.pending[14 + n..])
    && (x.s >= 16 ==> x.distance == x.pending[14 + n..28 + n])
    && (x.s >= 12 ==> x.sequence2 == x.pending[10 + n])
    && (x.s == 17 ==> x.crc2 == SecondSum(x))
  }

  /** The variables say what the pending bytes say. */
  ghost predicate Agrees(f: Format, n: nat, x: View) {
    && f.Mavlink? && n == f.flowLength as nat && n > 0
    && Viable(f, x.pending) && Lengths(n, x) && FirstAgrees(f, n, x) && SecondAgrees(n, x)
  }

  /** While the second message is read, nothing about the first changes; and the other way round. */
  lemma FirstKept(f: Format, n: nat, x: View, y: View, v: bv8)
    requires f.Mavlink? && Lengths(n, x) && Lengths(n, y) && FirstAgrees(f, n, x)
    requires 8 <= x.s && 9 <= y.s && y.pending == x.pending + [v] && y.flow == x.flow && y.sequence1 == x.sequence1
    ensures FirstAgrees(f, n, y)
  {
    hide FirstSum;
    SliceKept(x.pending, v, 6, 6 + n);
  }

  lemma SecondNotStarted(n: nat, x: View)
    requires Lengths(n, x) && x.s <= 11
    ensures SecondAgrees(n, x)
  {}

  lemma NothingAgrees(f: Format, n: nat, x: View)
    requires f.Mavlink? && n == f.flowLength as nat && n > 0 && |x.flow| == n && |x.distance| == 14
    requires x.s == 0 && x.pending == []
    ensures Agrees(f, n, x)
  {
    NothingIsViable(f);
  }

  /** The byte expected in state `s` of the head of a message. */
  predicate HeadByte(s: nat, id: bv8, length: bv8, v: bv8) {
    if s == 0 then v == 0xFE
    else if s == 1 then v == length
    else if s == 2 then true
    else if s == 3 then v == 0x00
    else if s == 4 then v == 0x9E
    else v == id
  }

  lemma FirstHeadStep(f: Format, n: nat, x: View, v: bv8)
    requires Agrees(f, n, x) && x.s <= 5
    ensures Fits(f, x.pending, v) <==> HeadByte(x.s, f.flowId, f.flowLength, v)
    ensures Fits(f, x.pending, v) ==>
      Agrees(f, n, x.(s := x.s + 1, p := if x.s == 5 then 0 else x.p, pending := x.pending + [v],
                      sequence1 := if x.s == 2 then v else x.sequence1))
  {
    hide Fits, Viable, FirstSum, SecondSum, MavlinkCrc, IsLow, IsHigh, CrcExtra, Scratch, SecondAgrees;
    MavlinkFit(f, x.pending, v, n);
    if Fits(f, x.pending, v) {
      ViableExtends(f, x.pending, v);
      SecondNotStarted(n, x.(s := x.s + 1, p := if x.s == 5 then 0 else x.p, pending := x.pending + [v],
                             sequence1 := if x.s == 2 then v else x.sequence1));
    }
  }

  lemma SecondHeadStep(f: Format, n: nat, x: View, v: bv8)
    requires Agrees(f, n, x) && 9 <= x.s <= 14
    ensures Fits(f, x.pending, v) <==> HeadByte(x.s - 9, 0x84, 0x0E, v)
    ensures Fits(f, x.pending, v) ==>
      Agrees(f, n, x.(s := x.s + 1, p := if x.s == 14 then 0 else x.p, pending := x.pending + [v],
                      sequence2 := if x.s == 11 then v else x.sequence2))
  {
    hide Fits, Viable, FirstSum, SecondSum, MavlinkCrc, IsLow, IsHigh, CrcExtra, Scratch, FirstAgrees;
    MavlinkFit(f, x.pending, v, n);
    if Fits(f, x.pending, v) {
      ViableExtends(f, x.pending, v);
      FirstKept(f, n, x, x.(s := x.s + 1, p := if x.s == 14 then 0 else x.p, pending := x.pending + [v],
                            sequence2 := if x.s == 11 then v else x.sequence2), v);
    }
  }

  lemma FirstPayloadStep(f: Format, n: nat, x: View, v: bv8)
    requires Agrees(f, n, x) && x.s == 6
    ensures Fits(f, x.pending, v)
    ensures x.p + 1 < n ==>
      Agrees(f, n, x.(p := x.p + 1, pending := x.pending + [v], flow := x.flow[x.p := v]))
    ensures x.p + 1 == n ==>
      Agrees(f, n, x.(s := 7, p := 0, pending := x.pending + [v], flow := x.flow[x.p := v]))
  {
    hide Fits, Viable, FirstSum, SecondSum, MavlinkCrc, IsLow, IsHigh, CrcExtra, Scratch, FirstAgrees, SecondAgrees,
         FitsMavlink, Lengths;
    PayloadFits(f, n, x, v);
    ViableExtends(f, x.pending, v);
    if x.p + 1 < n {
      var y := x.(p := x.p + 1, pending := x.pending + [v], flow := x.flow[x.p := v]);
      SecondNotStarted(n, y);
      FlowGrows(f, n, x, y, v);
    } else {
      var y := x.(s := 7, p := 0, pending := x.pending + [v], flow := x.flow[x.p := v]);
      SecondNotStarted(n, y);
      FlowFilled(f, n, x, y, v);
    }
  }

  lemma PayloadFits(f: Format, n: nat, x: View, v: bv8)
    requires f.Mavlink? && n == f.flowLength as nat && Lengths(n, x) && x.s == 6
    ensures x.p < n && Fits(f, x.pending, v)
    ensures |x.flow| == n
    ensures x.p + 1 < n ==> Lengths(n, x.(p := x.p + 1, pending := x.pending + [v], flow := x.flow[x.p := v]))
    ensures x.p + 1 == n ==> Lengths(n, x.(s := 7, p := 0, pending := x.pending + [v], flow := x.flow[x.p := v]))
  {
    hide Fits;
    MavlinkFit(f, x.pending, v, n);
  }

  lemma FlowGrows(f: Format, n: nat, x: View, y: View, v: bv8)
    requires f.Mavlink? && Lengths(n, x) && Lengths(n, y) && FirstAgrees(f, n, x) && x.s == 6
    requires y == x.(p := x.p + 1, pending := x.pending + [v], flow := x.flow[x.p := v])
    ensures FirstAgrees(f, n, y)
  {
    hide FirstSum;
    TailGrows(x.pending, v, 6, x.flow, x.p);
  }

  lemma FlowFilled(f: Format, n: nat, x: View, y: View, v: bv8)
    requires f.Mavlink? && Lengths(n, x) && Lengths(n, y) && FirstAgrees(f, n, x) && x.s == 6
    requires y == x.(s := 7, p := 0, pending := x.pending + [v], flow := x.flow[x.p := v])
    ensures FirstAgrees(f, n, y)
  {
    hide FirstSum;
    TailGrows(x.pending, v, 6, x.flow, x.p);
    assert y.flow[..n] == y.flow && y.pending[6..] == y.pending[6..6 + n];
  }

  lemma SecondPayloadStep(f: Format, n: nat, x: View, v: bv8)
    requires Agrees(f, n, x) && x.s == 15
    ensures Fits(f, x.pending, v)
    ensures x.p + 1 < 14 ==>
      Agrees(f, n, x.(p := x.p + 1, pending := x.pending + [v], distance := x.distance[x.p := v]))
    ensures x.p + 1 == 14 ==>
      Agrees(f, n, x.(s := 16, p := 0, pending := x.pending + [v], distance := x.distance[x.p := v]))
  {
    hide Fits, Viable, FirstSum, SecondSum, MavlinkCrc, IsLow, IsHigh, CrcExtra, Scratch, FirstAgrees, SecondAgrees;
    MavlinkFit(f, x.pending, v, n);
    Constants();
    ViableExtends(f, x.pending, v);
    if x.p + 1 < 14 {
      var y := x.(p := x.p + 1, pending := x.pending + [v], distance := x.distance[x.p := v]);
      FirstKept(f, n, x, y, v);
      DistanceGrows(n, x, y, v);
    } else {
      var y := x.(s := 16, p := 0, pending := x.pending + [v], distance := x.distance[x.p := v]);
      FirstKept(f, n, x, y, v);
      DistanceFilled(n, x, y, v);
    }
  }

  lemma DistanceGrows(n: nat, x: View, y: View, v: bv8)
    requires Lengths(n, x) && Lengths(n, y) && SecondAgrees(n, x) && x.s == 15
    requires y == x.(p := x.p + 1, pending := x.pending + [v], distance := x.distance[x.p := v])
    ensures SecondAgrees(n, y)
  {
    hide SecondSum;
    TailGrows(x.pending, v, 14 + n, x.distance, x.p);
  }

  lemma DistanceFilled(n: nat, x: View, y: View, v: bv8)
    requires Lengths(n, x) && Lengths(n, y) && SecondAgrees(n, x) && x.s == 15
    requires y == x.(s := 16, p := 0, pending := x.pending + [v], distance := x.distance[x.p := v])
    ensures SecondAgrees(n, y)
  {
    hide SecondSum;
    TailGrows(x.pending, v, 14 + n, x.distance, x.p);
    assert y.distance[..14] == y.distance && y.pending[14 + n..] == y.pending[14 + n..28 + n];
  }

  lemma FirstLowStep(f: Format, n: nat, x: View, v: bv8)
    requires Agrees(f, n, x) && x.s == 7
    ensures Fits(f, x.pending, v) <==> IsLow(v, FirstSum(f, x))
    ensures Fits(f, x.pending, v) ==> Agrees(f, n, x.(s := 8, pending := x.pending + [v], crc1 := FirstSum(f, x)))
  {
    hide Fits, Viable, MavlinkCrc, IsLow, IsHigh, CrcExtra, Scratch, SecondAgrees;
    LowFits(f, n, x, v);
    hide FitsMavlink;
    if Fits(f, x.pending, v) {
      var y := x.(s := 8, pending := x.pending + [v], crc1 := FirstSum(f, x));
      ViableExtends(f, x.pending, v);
      SliceKept(x.pending, v, 6, 6 + n);
      SecondNotStarted(n, y);
    }
  }

  lemma LowFits(f: Format, n: nat, x: View, v: bv8)
    requires Agrees(f, n, x) && x.s == 7
    ensures Fits(f, x.pending, v) <==> IsLow(v, FirstSum(f, x))
  {
    hide Fits, Viable, MavlinkCrc, IsLow, IsHigh, CrcExtra, Scratch, SecondAgrees;
    MavlinkFit(f, x.pending, v, n);
    FirstScratch(f, x.pending, n);
    assert x.pending[1..] == x.pending[1..6 + n];
  }

  lemma FirstHighStep(f: Format, n: nat, x: View, v: bv8)
    requires Agrees(f, n, x) && x.s == 8
    ensures Fits(f, x.pending, v) <==> IsHigh(v, x.crc1)
    ensures Fits(f, x.pending, v) ==> Agrees(f, n, x.(s := 9, pending := x.pending + [v]))
  {
    hide Fits, Viable, MavlinkCrc, IsLow, IsHigh, CrcExtra, Scratch, SecondAgrees;
    HighFits(f, n, x, v);
    if Fits(f, x.pending, v) {
      hide FirstAgrees;
      ViableExtends(f, x.pending, v);
      FirstKept(f, n, x, x.(s := 9, pending := x.pending + [v]), v);
      SecondNotStarted(n, x.(s := 9, pending := x.pending + [v]));
    }
  }

  lemma HighFits(f: Format, n: nat, x: View, v: bv8)
    requires Agrees(f, n, x) && x.s == 8
    ensures Fits(f, x.pending, v) <==> IsHigh(v, x.crc1)
  {
    hide Fits, Viable, MavlinkCrc, IsLow, IsHigh, CrcExtra, Scratch, SecondAgrees;
    MavlinkFit(f, x.pending, v, n);
    FirstScratch(f, x.pending, n);
  }

  lemma SecondLowStep(f: Format, n: nat, x: View, v: bv8)
    requires Agrees(f, n, x) && x.s == 16
    ensures Fits(f, x.pending, v) <==> IsLow(v, SecondSum(x))
    ensures Fits(f, x.pending, v) ==> Agrees(f, n, x.(s := 17, pending := x.pending + [v], crc2 := SecondSum(x)))
  {
    hide Fits, Viable, MavlinkCrc, IsLow, IsHigh, CrcExtra, Scratch, FirstAgrees;
    SecondLowFits(f, n, x, v);
    hide FitsMavlink, SecondAgrees;
    if Fits(f, x.pending, v) {
      var y := x.(s := 17, pending := x.pending + [v], crc2 := SecondSum(x));
      ViableExtends(f, x.pending, v);
      FirstKept(f, n, x, y, v);
      DistanceKept(n, x, y, v);
    }
  }

  lemma DistanceKept(n: nat, x: View, y: View, v: bv8)
    requires Lengths(n, x) && Lengths(n, y) && SecondAgrees(n, x) && x.s == 16
    requires y == x.(s := 17, pending := x.pending + [v], crc2 := SecondSum(x))
    ensures SecondAgrees(n, y)
  {
    hide MavlinkCrc, Scratch;
    SliceKept(x.pending, v, 14 + n, 28 + n);
  }

  lemma SecondLowFits(f: Format, n: nat, x: View, v: bv8)
    requires Agrees(f, n, x) && x.s == 16
    ensures Fits(f, x.pending, v) <==> IsLow(v, SecondSum(x))
  {
    hide Fits, Viable, MavlinkCrc, IsLow, IsHigh, CrcExtra, Scratch, FirstAgrees;
    MavlinkFit(f, x.pending, v, n);
    SecondScratch(f, x.pending, n);
    assert x.pending[8 + n..][1..] == x.pending[9 + n..28 + n];
    Constants();
  }

  lemma FlowOf(f: Format, n: nat, x: View)
    requires f.Mavlink? && Lengths(n, x) && FirstAgrees(f, n, x) && x.s >= 7
    ensures x.flow == x.pending[6..6 + n]
  {}

  lemma SecondHighFits(f: Format, n: nat, x: View, v: bv8)
    requires Agrees(f, n, x) && x.s == 17
    ensures Fits(f, x.pending, v) <==> IsHigh(v, x.crc2)
  {
    hide Fits, Viable, FirstSum, MavlinkCrc, IsLow, IsHigh, CrcExtra, Scratch, FirstAgrees;
    MavlinkFit(f, x.pending, v, n);
    SecondScratch(f, x.pending, n);
    var m := x.pending[8 + n..];
    assert m[1..|m| - 1] == x.pending[9 + n..28 + n];
    Constants();
  }

  lemma SecondHighStep(f: Format, n: nat, x: View, v: bv8)
    requires Agrees(f, n, x) && x.s == 17
    ensures Fits(f, x.pending, v) <==> IsHigh(v, x.crc2)
    ensures |x.pending| == 29 + n && |x.pending| + 1 == Size(f)
    ensures x.flow == x.pending[6..6 + n] && x.distance == x.pending[14 + n..28 + n]
  {
    hide Fits, Viable, FirstSum, MavlinkCrc, IsLow, IsHigh, CrcExtra, Scratch, FirstAgrees;
    SecondHighFits(f, n, x, v);
    hide FitsMavlink;
    assert x.flow == x.pending[6..6 + n] by {
      FlowOf(f, n, x);
    }
  }

  lemma PendingIsShort(f: Format, n: nat, x: View)
    requires Agrees(f, n, x) && x.s < 17
    ensures |x.pending| + 1 < Size(f)
  {}

  lemma AgreesRange(f: Format, n: nat, x: View)
    requires Agrees(f, n, x)
    ensures 0 <= x.s <= 17
    ensures x.s == 6 ==> x.p < n
    ensures x.s == 15 ==> x.p < 14
  {}

  /** The driver's checksum call, with its initial value 0xFFFF. */
  method Checksum(buffer: array<bv8>, id: bv8, len: nat) returns (crc: bv16)
    requires 0 < len <= buffer.Length
    modifies buffer
    ensures buffer[..] == old(buffer[..])[len - 1 := CrcExtra(id as nat)]
    ensures crc == MavlinkCrc(buffer[..len])
  {
    hide CrcExtra, DivideReflected, LsbFirst, Reverse16;
    crc := HexinCrc16(buffer, id as nat, len, 0xFFFF);
    AllOnesReversed();
  }

  /** `memcpy(to + 5, from, n)`. */
  method CopyBehindHead(to: array<bv8>, from: array<bv8>)
    requires to != from && to.Length == 6 + from.Length
    modifies to
    ensures to[..] == old(to[..5]) + from[..] + [old(to[5 + from.Length])]
  {
    forall i | 0 <= i < from.Length {
      to[5 + i] := from[i];
    }
  }

  /** Copies the payload behind a head that is already in the scratch buffer, and checksums the whole. */
  method MessageCrc(buffer: array<bv8>, payload: array<bv8>, length: bv8, sequence: bv8, id: bv8) returns (crc: bv16)
    requires buffer != payload && buffer.Length == 6 + payload.Length
    requires buffer[..5] == [length, sequence, 0x00, 0x9E, id]
    modifies buffer
    ensures crc == MavlinkCrc(Scratch(length, sequence, id, payload[..]))
    ensures buffer[0] == length && buffer[1] == sequence && buffer[2] == 0x00 && buffer[3] == 0x9E && buffer[4] == id
  {
    hide CrcExtra, MavlinkCrc, Scratch;
    CopyBehindHead(buffer, payload);
    ghost var before := buffer[..];
    crc := Checksum(buffer, id, 6 + payload.Length);
    ScratchFilled(before, buffer[..], length, sequence, id, payload[..]);
    assert buffer[..6 + payload.Length] == buffer[..];
  }

  class MavlinkParser {
    var s: int
    var p: nat
    const format: Format
    const n: nat
    const flow: array<bv8>
    const distance: array<bv8>
    const crc1: array<bv8>
    const crc2: array<bv8>
    var px4Crc1: bv16
    var px4Crc2: bv16
    ghost var pending: Bytes

    ghost predicate Shape()
      reads crc1, crc2
    {
      && format.Mavlink? && n == format.flowLength as nat && n > 0
      && flow.Length == n && distance.Length == 14 && crc1.Length == 6 + n && crc2.Length == 20
      && distance != flow && distance != crc1 && distance != crc2 && flow != crc1 && flow != crc2 && crc1 != crc2
      && crc1[0] == format.flowLength && crc1[2] == 0x00 && crc1[3] == 0x9E && crc1[4] == format.flowId
      && crc2[0] == 0x0E && crc2[2] == 0x00 && crc2[3] == 0x9E && crc2[4] == 0x84
    }

    ghost function Now(): View
      requires crc1.Length > 1 && crc2.Length > 1
      reads this, distance, flow, crc1, crc2
    {
      View(s, p, pending, flow[..], distance[..], crc1[1], crc2[1], px4Crc1, px4Crc2)
    }

    ghost predicate Valid()
      reads this, distance, flow, crc1, crc2
    {
      Shape() && Agrees(format, n, Now())
    }

    constructor (format: Format)
      requires format == APM || format == PX4
      ensures Valid() && pending == [] && this.format == format
      ensures fresh(flow) && fresh(distance) && fresh(crc1) && fresh(crc2)
    {
      s, p := 0, 0;
      this.format := format;
      n := format.flowLength as nat;
      flow := new bv8[format.flowLength as nat](_ => 0);
      distance := new bv8[14](_ => 0);
      crc1 := new bv8[6 + format.flowLength as nat](i =>
        if i == 0 then format.flowLength else if i == 3 then 0x9E else if i == 4 then format.flowId else 0);
      crc2 := new bv8[20](i => if i == 0 then 0x0E else if i == 3 then 0x9E else if i == 4 then 0x84 else 0);
      px4Crc1, px4Crc2 := 0, 0;
      pending := [];
    }

    /** What one byte does; on acceptance both payloads are in their structs. */
    twostate predicate Moved(ch: bv8, ret: int)
      reads this, distance, flow, crc1, crc2
    {
      && Valid()
      && pending == Feed(format, old(pending), ch).pending
      && ret == (if Feed(format, old(pending), ch).accepted then 0 else -1)
      && (ret == 0 ==>
            && |old(pending)| == 29 + n
            && flow[..] == old(pending)[6..6 + n]
            && distance[..] == old(pending)[14 + n..28 + n])
    }

    method Drop()
      requires Shape()
      modifies this`s, this`pending
      ensures Valid() && s == 0 && pending == []
    {
      hide Agrees;
      s := 0;
      pending := [];
      NothingAgrees(format, n, Now());
    }

    method CaseFirstHead(ch: bv8) returns (ret: int)
      requires Valid() && s <= 5
      modifies this, crc1
      ensures Moved(ch, ret)
    {
      hide Agrees, Fits, Size, HeadByte;
      ghost var x := Now();
      AgreesRange(format, n, x);
      FirstHeadStep(format, n, x, ch);
      PendingIsShort(format, n, x);
      ret := -1;
      if HeadByte(s, format.flowId, format.flowLength, ch) {
        if s == 2 {
          crc1[1] := ch;
        }
        pending := pending + [ch];
        s := s + 1;
        if s == 6 {
          p := 0;
        }
      } else {
        Drop();
      }
    }

    method CaseFirstPayload(ch: bv8) returns (ret: int)
      requires Valid() && s == 6
      modifies this, flow
      ensures Moved(ch, ret)
    {
      hide Agrees, Fits, Size;
      ghost var x := Now();
      AgreesRange(format, n, x);
      FirstPayloadStep(format, n, x, ch);
      PendingIsShort(format, n, x);
      ret := -1;
      flow[p] := ch;
      assert flow[..] == x.flow[x.p := ch];
      p := p + 1;
      pending := pending + [ch];
      if p == n {
        s := 7;
        p := 0;
      }
    }

    /** The payload goes behind the head, and the checksum call writes the seed byte. */
    method FirstCrc() returns (crc: bv16)
      requires Shape()
      modifies crc1
      ensures Shape() && crc1[1] == old(crc1[1])
      ensures crc == MavlinkCrc(Scratch(format.flowLength, crc1[1], format.flowId, flow[..]))
    {
      hide CrcExtra, MavlinkCrc, Scratch;
      ghost var head := [format.flowLength, crc1[1], 0x00, 0x9E, format.flowId];
      assert crc1[..5] == head;
      crc := MessageCrc(crc1, flow, format.flowLength, crc1[1], format.flowId);
    }

    method CaseFirstLow(ch: bv8) returns (ret: int)
      requires Valid() && s == 7
      modifies this, crc1
      ensures Moved(ch, ret)
    {
      hide Agrees, Fits, Size, MavlinkCrc, Scratch, IsLow;
      ghost var x := Now();
      PendingIsShort(format, n, x);
      FirstLowStep(format, n, x, ch);
      ret := -1;
      px4Crc1 := FirstCrc();
      if IsLow(ch, px4Crc1) {
        pending := pending + [ch];
        s := 8;
      } else {
        Drop();
      }
    }

    method CaseFirstHigh(ch: bv8) returns (ret: int)
      requires Valid() && s == 8
      modifies this
      ensures Moved(ch, ret)
    {
      hide Agrees, Fits, Size, FirstSum, IsHigh;
      ghost var x := Now();
      PendingIsShort(format, n, x);
      FirstHighStep(format, n, x, ch);
      ret := -1;
      if IsHigh(ch, px4Crc1) {
        pending := pending + [ch];
        s := 9;
      } else {
        Drop();
      }
    }

    method CaseSecondHead(ch: bv8) returns (ret: int)
      requires Valid() && 9 <= s <= 14
      modifies this, crc2
      ensures Moved(ch, ret)
    {
      hide Agrees, Fits, Size, HeadByte;
      ghost var x := Now();
      SecondHeadStep(format, n, x, ch);
      PendingIsShort(format, n, x);
      ret := -1;
      if HeadByte(s - 9, 0x84, 0x0E, ch) {
        if s == 11 {
          crc2[1] := ch;
        }
        pending := pending + [ch];
        s := s + 1;
        if s == 15 {
          p := 0;
        }
      } else {
        Drop();
      }
    }

    method CaseSecondPayload(ch: bv8) returns (ret: int)
      requires Valid() && s == 15
      modifies this, distance
      ensures Moved(ch, ret)
    {
      hide Agrees, Fits, Size;
      ghost var x := Now();
      AgreesRange(format, n, x);
      SecondPayloadStep(format, n, x, ch);
      PendingIsShort(format, n, x);
      ret := -1;
      distance[p] := ch;
      assert distance[..] == x.distance[x.p := ch];
      p := p + 1;
      pending := pending + [ch];
      if p == 14 {
        s := 16;
        p := 0;
      }
    }

    method SecondCrc() returns (crc: bv16)
      requires Shape()
      modifies crc2
      ensures Shape() && crc2[1] == old(crc2[1])
      ensures crc == MavlinkCrc(Scratch(0x0E, crc2[1], 0x84, distance[..]))
    {
      hide CrcExtra, MavlinkCrc, Scratch;
      ghost var head := [0x0E, crc2[1], 0x00, 0x9E, 0x84];
      assert crc2[..5] == head;
      crc := MessageCrc(crc2, distance, 0x0E, crc2[1], 0x84);
    }

    method CaseSecondLow(ch: bv8) returns (ret: int)
      requires Valid() && s == 16
      modifies this, crc2
      ensures Moved(ch, ret)
    {
      hide Agrees, Fits, Size, MavlinkCrc, Scratch, IsLow;
      ghost var x := Now();
      PendingIsShort(format, n, x);
      SecondLowStep(format, n, x, ch);
      ret := -1;
      px4Crc2 := SecondCrc();
      if IsLow(ch, px4Crc2) {
        pending := pending + [ch];
        s := 17;
      } else {
        Drop();
      }
    }

    method CaseSecondHigh(ch: bv8) returns (ret: int)
      requires Valid() && s == 17
      modifies this
      ensures Moved(ch, ret)
    {
      hide Agrees, Fits, Size, SecondSum, IsHigh;
      SecondHighStep(format, n, Now(), ch);
      ret := -1;
      if IsHigh(ch, px4Crc2) {
        ret := 0;
      }
      Drop();
    }

    /** One byte: 0 on acceptance, -1 otherwise. */
    method ParseChar(ch: bv8) returns (ret: int)
      requires Valid()
      modifies this, distance, flow, crc1, crc2
      ensures Moved(ch, ret)
    {
      hide Agrees, Feed;
      AgreesRange(format, n, Now());
      if s <= 5 {
        ret := CaseFirstHead(ch);
      } else if s == 6 {
        ret := CaseFirstPayload(ch);
      } else if s == 7 {
        ret := CaseFirstLow(ch);
      } else if s == 8 {
        ret := CaseFirstHigh(ch);
      } else if s <= 14 {
        ret := CaseSecondHead(ch);
      } else if s == 15 {
        ret := CaseSecondPayload(ch);
      } else if s == 16 {
        ret := CaseSecondLow(ch);
      } else {
        ret := CaseSecondHigh(ch);
      }
    }
  }

  // ---------------------------------------------------------------- whole streams

  /** The receive loop: the parser reports 0 exactly at the bytes where a report is complete. */
  method ListenMavlink(parser: MavlinkParser, stream: Bytes) returns (rets: seq<int>)
    requires parser.Valid() && parser.pending == []
    modifies parser, parser.distance, parser.flow, parser.crc1, parser.crc2
    ensures parser.Valid() && |rets| == |stream|
    ensures forall i :: 0 <= i < |stream| ==> rets[i] == if Accepts(parser.format, stream[..i + 1]) then 0 else -1
  {
    hide Accepts, Pending, Feed;
    rets := [];
    NothingPending(parser.format);
    for i := 0 to |stream|
      invariant parser.Valid() && |rets| == i && parser.pending == Pending(parser.format, stream[..i])
      invariant forall k :: 0 <= k < i ==> rets[k] == if Accepts(parser.format, stream[..k + 1]) then 0 else -1
    {
      var ret := parser.ParseChar(stream[i]);
      PendingNext(parser.format, stream[..i], stream[i]);
      assert stream[..i + 1] == stream[..i] + [stream[i]];
      rets := rets + [ret];
    }
  }

  method ListenMsp(parser: MspParser, stream: Bytes) returns (rets: seq<int>)
    requires parser.Valid() && parser.pending == []
    modifies parser, parser.distance, parser.flow, parser.crc1, parser.crc2
    ensures parser.Valid() && |rets| == |stream|
    ensures forall i :: 0 <= i < |stream| ==> rets[i] == if Accepts(Msp, stream[..i + 1]) then 0 else -1
  {
    hide Accepts, Pending, Feed;
    rets := [];
    NothingPending(Msp);
    for i := 0 to |stream|
      invariant parser.Valid() && |rets| == i && parser.pending == Pending(Msp, stream[..i])
      invariant forall k :: 0 <= k < i ==> rets[k] == if Accepts(Msp, stream[..k + 1]) then 0 else -1
    {
      var ret := parser.ParseChar(stream[i]);
      PendingNext(Msp, stream[..i], stream[i]);
      assert stream[..i + 1] == stream[..i] + [stream[i]];
      rets := rets + [ret];
    }
  }

  lemma NothingPending(f: Format)
    ensures Pending(f, []) == []
  {}
}
