/**
 * The two-message reports of the optical-flow sensors (flow_decode.c): which byte strings are a report,
 * and what a stream of bytes means to a parser that restarts at the first byte that does not fit.
 */
module FlowFrames {
  import opened CrcDivision
  import opened FlowCheck

  /** MSP: distance then flow. MAVLink: flow (its payload length and message id vary) then distance. */
  datatype Format = Msp | Mavlink(flowLength: bv8, flowId: bv8)

  const APM := Mavlink(0x1A, 0x64)
  const PX4 := Mavlink(0x2C, 0x6A)

  // ---------------------------------------------------------------- messages

  function MspCrc(m: Bytes): bv8 {
    DivideDvb(0, MsbFirst(m))
  }

  function MavlinkCrc(m: Bytes): bv16 {
    DivideReflected(0xFFFF, LsbFirst(m))
  }

  predicate IsLow(v: bv8, crc: bv16) {
    v as bv16 == crc & 0x00FF
  }

  predicate IsHigh(v: bv8, crc: bv16) {
    v as bv16 == (crc & 0xFF00) >> 8
  }

  /** `$X<`, flag 0, a two-byte id, a two-byte length, the payload, and the checksum of all after `<`. */
  predicate IsMspMessage(m: Bytes, id: bv8, length: bv8) {
    && |m| == 9 + length as nat
    && m[..8] == MspStart(id, length)
    && m[|m| - 1] == MspCrc(m[3..|m| - 1])
  }

  /** Start byte, length, sequence number, system 0, component 0x9E, id, payload, checksum low byte first. */
  predicate IsMavlinkMessage(m: Bytes, id: bv8, length: bv8) {
    && |m| == 8 + length as nat
    && m[0] == 0xFE && m[1] == length && m[3] == 0x00 && m[4] == 0x9E && m[5] == id
    && var crc := MavlinkCrc(m[1..|m| - 2] + [CrcExtra(id as nat)]);
       IsLow(m[|m| - 2], crc) && IsHigh(m[|m| - 1], crc)
  }

  function FirstLength(f: Format): nat {
    match f
    case Msp => 14
    case Mavlink(n, _) => 8 + n as nat
  }

  function Size(f: Format): (n: nat)
    ensures n >= 22
  {
    FirstLength(f) + match f
      case Msp => 18
      case Mavlink(_, _) => 22
  }

  /** A complete report: two messages of the expected kinds, one right after the other. */
  predicate IsReport(f: Format, w: Bytes) {
    && |w| == Size(f)
    && match f
       case Msp => IsMspMessage(w[..14], 1, 5) && IsMspMessage(w[14..], 2, 9)
       case Mavlink(n, id) =>
         IsMavlinkMessage(w[..FirstLength(f)], id, n) && IsMavlinkMessage(w[FirstLength(f)..], 0x84, 0x0E)
  }

  // ---------------------------------------------------------------- what a sensor sends

  function MspStart(id: bv8, length: bv8): Bytes {
    [0x24, 0x58, 0x3C, 0x00, id, 0x1F, length, 0x00]
  }

  function MspMessage(id: bv8, length: bv8, payload: Bytes): Bytes {
    var start := MspStart(id, length);
    start + payload + [MspCrc(start[3..] + payload)]
  }

  function MavlinkStart(sequence: bv8, id: bv8, length: bv8): Bytes {
    [0xFE, length, sequence, 0x00, 0x9E, id]
  }

  function LowHigh(crc: bv16): (end: Bytes)
    ensures |end| == 2
  {
    [(crc & 0x00FF) as bv8, ((crc & 0xFF00) >> 8) as bv8]
  }

  function MavlinkMessage(sequence: bv8, id: bv8, length: bv8, payload: Bytes): Bytes {
    var start := MavlinkStart(sequence, id, length);
    start + payload + LowHigh(MavlinkCrc(start[1..] + payload + [CrcExtra(id as nat)]))
  }

  lemma ThreeParts(m: Bytes, start: Bytes, payload: Bytes, end: Bytes, skip: nat)
    requires |m| == |start| + |payload| + |end| && m[|start|..|start| + |payload|] == payload && skip <= |start|
    ensures m == start + payload + end <==> m[..|start|] == start && m[|start| + |payload|..] == end
    ensures m[skip..|start| + |payload|] == m[..|start|][skip..] + payload
  {
    assert m == m[..|start|] + payload + m[|start| + |payload|..];
    assert (start + payload + end)[..|start|] == start;
    assert (start + payload + end)[|start| + |payload|..] == end;
  }

  /** The messages of a kind are the byte strings that a sensor makes of some payload. */
  lemma MspMessages(m: Bytes, id: bv8, length: bv8)
    requires |m| == 9 + length as nat
    ensures IsMspMessage(m, id, length) <==> m == MspMessage(id, length, m[8..|m| - 1])
  {
    hide MspCrc;
    var start, payload := MspStart(id, length), m[8..|m| - 1];
    var crc := MspCrc(start[3..] + payload);
    ThreeParts(m, start, payload, [crc], 3);
    assert m[|m| - 1..] == [m[|m| - 1]];
  }

  lemma LowByte(v: bv8, crc: bv16)
    ensures IsLow(v, crc) <==> v == (crc & 0x00FF) as bv8
  {}

  lemma HighByte(v: bv8, crc: bv16)
    ensures IsHigh(v, crc) <==> v == ((crc & 0xFF00) >> 8) as bv8
  {}

  lemma LowAndHigh(end: Bytes, crc: bv16)
    requires |end| == 2
    ensures IsLow(end[0], crc) && IsHigh(end[1], crc) <==> end == LowHigh(crc)
  {
    LowByte(end[0], crc);
    HighByte(end[1], crc);
    assert end == [end[0], end[1]];
  }

  lemma MavlinkStarts(m: Bytes, id: bv8, length: bv8)
    requires |m| >= 6
    ensures m[0] == 0xFE && m[1] == length && m[3] == 0x00 && m[4] == 0x9E && m[5] == id <==>
      m[..6] == MavlinkStart(m[2], id, length)
  {
    assert forall k :: 0 <= k < 6 ==> m[..6][k] == m[k];
  }

  lemma MavlinkMessages(m: Bytes, id: bv8, length: bv8)
    requires |m| == 8 + length as nat
    ensures IsMavlinkMessage(m, id, length) <==> m == MavlinkMessage(m[2], id, length, m[6..|m| - 2])
  {
    hide MavlinkCrc, CrcExtra, IsLow, IsHigh, LowHigh;
    var start, payload := MavlinkStart(m[2], id, length), m[6..|m| - 2];
    var crc := MavlinkCrc(start[1..] + payload + [CrcExtra(id as nat)]);
    LowAndHigh(m[|m| - 2..], crc);
    ThreeParts(m, start, payload, LowHigh(crc), 1);
    MavlinkStarts(m, id, length);
    hide MavlinkStart;
  }

  /** What a sensor sends for two payloads; `sequences` are the sequence numbers, which MSP does not have. */
  function Report(f: Format, sequences: (bv8, bv8), first: Bytes, second: Bytes): Bytes {
    match f
    case Msp => MspMessage(1, 5, first) + MspMessage(2, 9, second)
    case Mavlink(n, id) =>
      MavlinkMessage(sequences.0, id, n, first) + MavlinkMessage(sequences.1, 0x84, 0x0E, second)
  }

  predicate Lengths(f: Format, first: Bytes, second: Bytes) {
    match f
    case Msp => |first| == 5 && |second| == 9
    case Mavlink(n, _) => |first| == n as nat && |second| == 14
  }

  /** Every pair of payloads of the right lengths makes a report. */
  lemma ReportExists(f: Format, sequences: (bv8, bv8), first: Bytes, second: Bytes)
    requires Lengths(f, first, second)
    ensures IsReport(f, Report(f, sequences, first, second))
  {
    hide IsMspMessage, IsMavlinkMessage, MspCrc, MavlinkCrc, CrcExtra;
    var w := Report(f, sequences, first, second);
    var n := FirstLength(f);
    var a, b := w[..n], w[n..];
    match f {
      case Msp =>
        MspMessages(a, 1, 5);
        MspMessages(b, 2, 9);
        assert a[8..|a| - 1] == first && b[8..|b| - 1] == second;
      case Mavlink(length, id) =>
        MavlinkMessages(a, id, length);
        MavlinkMessages(b, 0x84, 0x0E);
        assert a[6..|a| - 2] == first && b[6..|b| - 2] == second;
        assert a[2] == sequences.0 && b[2] == sequences.1;
    }
  }

  /** Every report is made of some pair of payloads. */
  lemma ReportIsMade(f: Format, w: Bytes)
    requires IsReport(f, w)
    ensures exists sequences: (bv8, bv8), first, second ::
      Lengths(f, first, second) && w == Report(f, sequences, first, second)
  {
    hide IsMspMessage, IsMavlinkMessage, MspCrc, MavlinkCrc, CrcExtra, MspMessage, MavlinkMessage;
    var n := FirstLength(f);
    var a, b := w[..n], w[n..];
    match f {
      case Msp =>
        MspMessages(a, 1, 5);
        MspMessages(b, 2, 9);
        assert Lengths(f, a[8..|a| - 1], b[8..|b| - 1]) && w == Report(f, (0, 0), a[8..|a| - 1], b[8..|b| - 1]);
      case Mavlink(length, id) =>
        MavlinkMessages(a, id, length);
        MavlinkMessages(b, 0x84, 0x0E);
        assert Lengths(f, a[6..|a| - 2], b[6..|b| - 2]);
        assert w == Report(f, (a[2], b[2]), a[6..|a| - 2], b[6..|b| - 2]);
    }
  }

  // ---------------------------------------------------------------- byte by byte

  /** Whether `v` may be the next byte of a message that starts with `m`. */
  predicate FitsMsp(m: Bytes, id: bv8, length: bv8, v: bv8) {
    if |m| < 8 then v == MspStart(id, length)[|m|]
    else if |m| == 8 + length as nat then v == MspCrc(m[3..])
    else true
  }

  predicate FitsMavlink(m: Bytes, id: bv8, length: bv8, v: bv8) {
    if |m| == 0 then v == 0xFE
    else if |m| == 1 then v == length
    else if |m| == 3 then v == 0x00
    else if |m| == 4 then v == 0x9E
    else if |m| == 5 then v == id
    else if |m| == 6 + length as nat then
      IsLow(v, MavlinkCrc(m[1..] + [CrcExtra(id as nat)]))
    else if |m| == 7 + length as nat then
      IsHigh(v, MavlinkCrc(m[1..|m| - 1] + [CrcExtra(id as nat)]))
    else true
  }

  predicate FitsFirst(f: Format, m: Bytes, v: bv8) {
    match f
    case Msp => FitsMsp(m, 1, 5, v)
    case Mavlink(n, id) => FitsMavlink(m, id, n, v)
  }

  predicate FitsSecond(f: Format, m: Bytes, v: bv8) {
    match f
    case Msp => FitsMsp(m, 2, 9, v)
    case Mavlink(_, _) => FitsMavlink(m, 0x84, 0x0E, v)
  }

  predicate Fits(f: Format, w: Bytes, v: bv8) {
    if |w| < FirstLength(f) then FitsFirst(f, w, v) else FitsSecond(f, w[FirstLength(f)..], v)
  }

  /** Every byte of `w` fits after the ones before it. */
  predicate Viable(f: Format, w: Bytes) {
    forall k :: 0 <= k < |w| ==> Fits(f, w[..k], w[k])
  }

  lemma MspMessageFits(m: Bytes, id: bv8, length: bv8)
    requires |m| == 9 + length as nat
    ensures IsMspMessage(m, id, length) <==> forall k :: 0 <= k < |m| ==> FitsMsp(m[..k], id, length, m[k])
  {
    hide MspCrc;
    var h := MspStart(id, length);
    assert m[..|m| - 1][3..] == m[3..|m| - 1];
    if forall k :: 0 <= k < |m| ==> FitsMsp(m[..k], id, length, m[k]) {
      forall k | 0 <= k < 8 ensures m[k] == h[k] {
        assert FitsMsp(m[..k], id, length, m[k]);
      }
      assert FitsMsp(m[..|m| - 1], id, length, m[|m| - 1]);
      assert m[..8] == h;
    } else if IsMspMessage(m, id, length) {
      assert forall k :: 0 <= k < 8 ==> m[k] == m[..8][k];
    }
  }

  lemma MavlinkFitting(m: Bytes, id: bv8, length: bv8, n: nat)
    requires n == length as nat && |m| == 8 + n
    requires FitsMavlink(m[..0], id, length, m[0]) && FitsMavlink(m[..1], id, length, m[1])
    requires FitsMavlink(m[..3], id, length, m[3]) && FitsMavlink(m[..4], id, length, m[4])
    requires FitsMavlink(m[..5], id, length, m[5])
    requires FitsMavlink(m[..6 + n], id, length, m[6 + n]) && FitsMavlink(m[..7 + n], id, length, m[7 + n])
    ensures IsMavlinkMessage(m, id, length)
  {
    hide MavlinkCrc, CrcExtra, IsLow, IsHigh;
    assert m[..6 + n][1..] == m[1..6 + n];
    assert m[..7 + n][1..6 + n] == m[1..6 + n];
  }

  lemma MavlinkFits(m: Bytes, id: bv8, length: bv8, n: nat, k: nat)
    requires n == length as nat && |m| == 8 + n && IsMavlinkMessage(m, id, length) && k < |m|
    ensures FitsMavlink(m[..k], id, length, m[k])
  {
    hide MavlinkCrc, CrcExtra, IsLow, IsHigh;
    if k == 6 + n {
      assert m[..k][1..] == m[1..k];
    } else if k == 7 + n {
      assert m[..k][1..k - 1] == m[1..k - 1];
    }
  }

  lemma MavlinkMessageFits(m: Bytes, id: bv8, length: bv8)
    requires |m| == 8 + length as nat
    ensures IsMavlinkMessage(m, id, length) <==> forall k :: 0 <= k < |m| ==> FitsMavlink(m[..k], id, length, m[k])
  {
    hide FitsMavlink, IsMavlinkMessage;
    var n := length as nat;
    if forall k :: 0 <= k < |m| ==> FitsMavlink(m[..k], id, length, m[k]) {
      MavlinkFitting(m, id, length, n);
    }
    if IsMavlinkMessage(m, id, length) {
      forall k | 0 <= k < |m| ensures FitsMavlink(m[..k], id, length, m[k]) {
        MavlinkFits(m, id, length, n, k);
      }
    }
  }

  ghost predicate FirstViable(f: Format, m: Bytes) {
    forall k :: 0 <= k < |m| ==> FitsFirst(f, m[..k], m[k])
  }

  ghost predicate SecondViable(f: Format, m: Bytes) {
    forall k :: 0 <= k < |m| ==> FitsSecond(f, m[..k], m[k])
  }

  lemma SplitViable(f: Format, w: Bytes)
    requires |w| >= FirstLength(f)
    ensures Viable(f, w) <==> FirstViable(f, w[..FirstLength(f)]) && SecondViable(f, w[FirstLength(f)..])
  {
    hide FitsFirst, FitsSecond;
    var n := FirstLength(f);
    var a, b := w[..n], w[n..];
    forall k | 0 <= k < |w|
      ensures Fits(f, w[..k], w[k]) <==>
        if k < n then FitsFirst(f, a[..k], a[k]) else FitsSecond(f, b[..k - n], b[k - n])
    {
      if k < n {
        assert a[..k] == w[..k];
      } else {
        assert b[..k - n] == w[..k][n..];
      }
    }
    if FirstViable(f, a) && SecondViable(f, b) {
      assert Viable(f, w);
    }
    if Viable(f, w) {
      forall k | 0 <= k < |b| ensures FitsSecond(f, b[..k], b[k]) {
        assert Fits(f, w[..n + k], w[n + k]);
      }
    }
  }

  /** A report is what fits byte by byte to the end. */
  lemma ReportIsViable(f: Format, w: Bytes)
    requires |w| == Size(f)
    ensures IsReport(f, w) <==> Viable(f, w)
  {
    hide IsMspMessage, IsMavlinkMessage, FitsMsp, FitsMavlink, Viable;
    var n := FirstLength(f);
    SplitViable(f, w);
    match f {
      case Msp =>
        MspMessageFits(w[..n], 1, 5);
        MspMessageFits(w[n..], 2, 9);
      case Mavlink(length, id) =>
        MavlinkMessageFits(w[..n], id, length);
        MavlinkMessageFits(w[n..], 0x84, 0x0E);
    }
  }

  // ---------------------------------------------------------------- streams

  datatype Step = Step(pending: Bytes, accepted: bool)

  /** A byte that does not fit is dropped together with everything pending. */
  function Feed(f: Format, pending: Bytes, v: bv8): Step {
    if !Fits(f, pending, v) then Step([], false)
    else if |pending| + 1 == Size(f) then Step([], true)
    else Step(pending + [v], false)
  }

  /** What is pending after `s`, starting from state 0. */
  function Pending(f: Format, s: Bytes): Bytes {
    if s == [] then [] else Feed(f, Pending(f, s[..|s| - 1]), s[|s| - 1]).pending
  }

  /** The parser accepts at the last byte of `s`. */
  predicate Accepts(f: Format, s: Bytes) {
    s != [] && Feed(f, Pending(f, s[..|s| - 1]), s[|s| - 1]).accepted
  }

  lemma ViableExtends(f: Format, w: Bytes, v: bv8)
    requires Viable(f, w) && Fits(f, w, v)
    ensures Viable(f, w + [v])
  {
    hide Fits;
    assert forall k :: 0 <= k < |w| ==> (w + [v])[..k] == w[..k];
    assert (w + [v])[..|w|] == w;
  }

  /** Pending bytes are the end of the stream, fit so far, and began when nothing was pending. */
  lemma {:induction false} PendingOrigin(f: Format, s: Bytes)
    ensures var p := Pending(f, s);
      && |p| < Size(f) && |p| <= |s| && p == s[|s| - |p|..]
      && Viable(f, p)
      && Pending(f, s[..|s| - |p|]) == []
  {
    hide Fits, Viable, Size, Accepts;
    if s == [] {
      NothingIsViable(f);
    } else {
      var s', v := s[..|s| - 1], s[|s| - 1];
      PendingOrigin(f, s');
      OriginStep(f, s, s', v, Pending(f, s'));
    }
  }

  lemma OriginStep(f: Format, s: Bytes, s': Bytes, v: bv8, q: Bytes)
    requires s == s' + [v] && |q| < Size(f) && |q| <= |s'| && q == s'[|s'| - |q|..] && Viable(f, q)
    requires q == Pending(f, s') && Pending(f, s'[..|s'| - |q|]) == []
    ensures var p := Pending(f, s);
      && |p| < Size(f) && |p| <= |s| && p == s[|s| - |p|..]
      && Viable(f, p)
      && Pending(f, s[..|s| - |p|]) == []
  {
    hide Fits, Viable, Size, Pending, Accepts;
    PendingNext(f, s', v);
    if Fits(f, q, v) && |q| + 1 < Size(f) {
      ViableExtends(f, q, v);
      assert s[|s| - |q| - 1..] == q + [v];
      assert s[..|s| - |q| - 1] == s'[..|s'| - |q|];
    } else {
      NothingIsViable(f);
      assert s[..|s|] == s;
    }
  }

  lemma NothingIsViable(f: Format)
    ensures Viable(f, [])
  {}

  lemma FitsAt(f: Format, w: Bytes, k: nat)
    requires Viable(f, w) && k < |w|
    ensures Fits(f, w[..k], w[k])
  {}

  lemma PendingNext(f: Format, s: Bytes, v: bv8)
    ensures Pending(f, s + [v]) == Feed(f, Pending(f, s), v).pending
    ensures Accepts(f, s + [v]) == Feed(f, Pending(f, s), v).accepted
  {
    hide Feed;
    assert (s + [v])[..|s|] == s;
  }

  /** From a waiting parser, the bytes of a viable string are all kept. */
  lemma {:induction false} ViableIsKept(f: Format, s: Bytes, w: Bytes, k: nat)
    requires Pending(f, s) == [] && Viable(f, w) && k <= |w| && k < Size(f)
    ensures Pending(f, s + w[..k]) == w[..k]
  {
    hide Fits, Viable, Size, Pending, Accepts;
    if k == 0 {
      assert s + w[..0] == s;
    } else {
      ViableIsKept(f, s, w, k - 1);
      PendingNext(f, s + w[..k - 1], w[k - 1]);
      FitsAt(f, w, k - 1);
      assert w[..k] == w[..k - 1] + [w[k - 1]];
      assert s + w[..k] == s + w[..k - 1] + [w[k - 1]];
    }
  }

  lemma FeedAfter(f: Format, s: Bytes, w: Bytes, k: nat)
    requires Pending(f, s) == [] && Viable(f, w) && k < |w| && k < Size(f)
    ensures Accepts(f, s + w[..k + 1]) <==> k + 1 == Size(f)
    ensures k + 1 == Size(f) ==> Pending(f, s + w[..k + 1]) == []
  {
    hide Fits, Viable, Size, Pending, Accepts;
    ViableIsKept(f, s, w, k);
    FitsAt(f, w, k);
    PendingNext(f, s + w[..k], w[k]);
    assert s + w[..k + 1] == s + w[..k] + [w[k]];
  }

  /** A report that starts while the parser waits is accepted exactly at its last byte. */
  lemma ReportAccepted(f: Format, s: Bytes, w: Bytes)
    requires Pending(f, s) == [] && IsReport(f, w)
    ensures Accepts(f, s + w) && Pending(f, s + w) == []
    ensures forall k :: 0 < k < |w| ==> !Accepts(f, s + w[..k])
  {
    hide Fits, IsReport, Viable, Accepts, Pending;
    ReportSize(f, w);
    ReportIsViable(f, w);
    FeedAfter(f, s, w, |w| - 1);
    assert w[..|w| - 1 + 1] == w;
    forall k | 0 < k < |w| ensures !Accepts(f, s + w[..k]) {
      FeedAfter(f, s, w, k - 1);
    }
  }

  lemma ReportSize(f: Format, w: Bytes)
    requires IsReport(f, w)
    ensures |w| == Size(f)
  {}

  lemma AcceptedFits(f: Format, s: Bytes)
    requires Accepts(f, s)
    ensures s != [] && Fits(f, Pending(f, s[..|s| - 1]), s[|s| - 1])
    ensures |Pending(f, s[..|s| - 1])| + 1 == Size(f)
  {
    hide Fits, Size, Pending;
  }

  /** Where the parser accepts, a report ends that began while it waited. */
  lemma AcceptedIsReport(f: Format, s: Bytes)
    requires Accepts(f, s)
    ensures |s| >= Size(f) && IsReport(f, s[|s| - Size(f)..]) && Pending(f, s[..|s| - Size(f)]) == []
  {
    hide Fits, IsReport, Viable, Size, Pending, Accepts;
    AcceptedFits(f, s);
    var s', v := s[..|s| - 1], s[|s| - 1];
    var p := Pending(f, s');
    PendingOrigin(f, s');
    ViableExtends(f, p, v);
    assert s[|s| - |p| - 1..] == p + [v];
    assert s[..|s| - |p| - 1] == s'[..|s'| - |p|];
    ReportIsViable(f, p + [v]);
  }

  /**
   * On any stream: the parser accepts exactly when the last bytes are one contiguous report with valid
   * checksums and the parser was waiting when its first byte arrived.
   */
  lemma AcceptedExactly(f: Format, s: Bytes)
    ensures Accepts(f, s) <==>
      |s| >= Size(f) && IsReport(f, s[|s| - Size(f)..]) && Pending(f, s[..|s| - Size(f)]) == []
  {
    hide IsReport, Size, Pending, Accepts;
    var n := Size(f);
    if Accepts(f, s) {
      AcceptedIsReport(f, s);
    }
    if |s| >= n && IsReport(f, s[|s| - n..]) && Pending(f, s[..|s| - n]) == [] {
      ReportAccepted(f, s[..|s| - n], s[|s| - n..]);
      assert s == s[..|s| - n] + s[|s| - n..];
    }
  }

  /**
   * There is no resynchronisation: a start byte just before a report makes the parser miss it, because
   * the byte that breaks the false start is not itself tried as a start.
   */
  lemma StrayStartHidesReport(f: Format, w: Bytes, k: nat)
    requires IsReport(f, w) && (f.Mavlink? ==> f.flowLength != 0xFE)
    requires k <= |w|
    ensures !Accepts(f, ([w[0]] + w)[..k + 1])
  {
    hide IsReport, Accepts, Feed;
    ReportSize(f, w);
    var t := ([w[0]] + w)[..k + 1];
    AcceptedExactly(f, t);
    if k + 1 == Size(f) {
      assert t[|t| - Size(f)..] == t;
      NoRepeatedStart(f, t);
    } else if k == Size(f) {
      StartByte(f, w);
      assert t[..1] == [w[0]] && t[..1][..0] == [];
    }
  }

  lemma NoRepeatedStart(f: Format, t: Bytes)
    requires |t| >= 2 && t[0] == t[1] && (f.Mavlink? ==> f.flowLength != 0xFE)
    ensures !IsReport(f, t)
  {
    if IsReport(f, t) {
      ReportIsViable(f, t);
      TwoBytesFit(f, t);
    }
  }

  lemma TwoBytesFit(f: Format, t: Bytes)
    requires |t| >= 2 && Viable(f, t)
    ensures Fits(f, t[..0], t[0]) && Fits(f, t[..1], t[1])
  {}

  lemma StartByte(f: Format, w: Bytes)
    requires IsReport(f, w)
    ensures |w| > 0 && Feed(f, [], w[0]) == Step([w[0]], false)
    ensures w[0] == if f.Msp? then 0x24 else 0xFE
  {
    ReportIsViable(f, w);
    assert Fits(f, w[..0], w[0]);
    assert w[..0] == [];
  }
}
