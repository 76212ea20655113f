/**
 * The receiver and the senders of the inertial-sensor link (FDILink.c), one method per function, proved
 * to speak the wire format of `FdiFrames`.
 */
module FdiLink {
  import opened CrcDivision
  import opened FdiFrames
  import opened ByteNat
  import Crc

  // Receiver states, in the order of the frame's fields.
  const START := 0
  const CMD := 1
  const LENGTH := 2
  const SERIAL := 3
  const CRC8 := 4
  const CRC16H := 5
  const CRC16L := 6
  const DATA := 7
  const END := 8

  /** The bytes of a frame with type `kind`, serial number `serial` and the given payload. */
  function FrameOf(kind: bv8, serial: bv8, payload: Bytes): (w: Bytes)
    requires |payload| < 256
    ensures |w| > SERIAL && w[SERIAL] == serial
  {
    HeaderOf(kind, serial, ByteOf(|payload|)) +
    if payload == [] then [] else
      [HighByte(PayloadCrc(payload)), LowByte(PayloadCrc(payload))] + payload + [EDX]
  }

  function HighByte(c: bv16): bv8 {
    ByteOf(c as int / 256)
  }

  function LowByte(c: bv16): bv8 {
    ByteOf(c as int % 256)
  }

  lemma BytesOfWord(c: bv16)
    ensures HighByte(c) as int * 256 + LowByte(c) as int == c as int
  {
    hide ByteOf;
  }

  /** The five header bytes. */
  function HeaderOf(kind: bv8, serial: bv8, n: bv8): (h: Bytes)
    ensures |h| == 5
  {
    [STX, kind, n, serial, HeaderCrc([STX, kind, n, serial])]
  }

  lemma HeaderOfIsOk(kind: bv8, serial: bv8, n: bv8, rest: Bytes)
    ensures var w := HeaderOf(kind, serial, n) + rest;
            HeaderOk(w) && Length(w) == n as nat && w[1] == kind
  {
    hide HeaderCrc;
    var w := HeaderOf(kind, serial, n) + rest;
    assert w[..4] == [STX, kind, n, serial];
  }

  /** A header, checksum bytes that agree, the announced payload and the end flag make a frame. */
  lemma Assemble(header: Bytes, high: bv8, low: bv8, payload: Bytes, w: Bytes)
    requires w == header + [high, low] + payload + [EDX]
    requires |header| == 5 && HeaderOk(w) && Length(w) == |payload| > 0
    requires high as int * 256 + low as int == PayloadCrc(payload) as int
    ensures IsFrame(w) && PacketOf(w) == Packet(w[1], payload)
  {
    hide HeaderOk, PayloadCrc;
    assert w[7..|w| - 1] == payload;
  }

  lemma FrameOfIsFrame(kind: bv8, serial: bv8, payload: Bytes)
    requires |payload| < 256
    ensures IsFrame(FrameOf(kind, serial, payload))
    ensures PacketOf(FrameOf(kind, serial, payload)) == Packet(kind, payload)
  {
    hide HeaderCrc, PayloadCrc, HighByte, LowByte, HeaderOf, HeaderOk, ByteOf;
    var w := FrameOf(kind, serial, payload);
    var header := HeaderOf(kind, serial, ByteOf(|payload|));
    HeaderOfIsOk(kind, serial, ByteOf(|payload|), w[5..]);
    assert w == header + w[5..];
    if payload != [] {
      hide IsFrame, PacketOf;
      var c := PayloadCrc(payload);
      BytesOfWord(c);
      assert w == header + [HighByte(c), LowByte(c)] + payload + [EDX];
      Assemble(header, HighByte(c), LowByte(c), payload, w);
    }
  }

  lemma FeedResult(pending: Bytes, value: bv8)
    ensures var step := Feed(pending, value);
      && step.result in {-1, 0, 1}
      && (step.result == 1 ==> IsFrame(pending + [value]) && step.packets == [PacketOf(pending + [value])])
      && (step.result != 1 ==> step.packets == [])
  {
    hide IsFrame, Viable, PacketOf;
  }

  lemma ViableStart(w: Bytes)
    ensures Viable(w) ==> |w| > 0 && w[0] == STX && (|w| >= 5 ==> 0 < Length(w) && |w| <= 7 + Length(w))
    ensures forall v: bv8 :: v != STX ==> !IsFrame([v]) && !Viable([v])
  {}

  lemma EarlyByte(pending: Bytes, value: bv8)
    requires |pending| < 4 && (if pending == [] then value == STX else pending[0] == STX)
    ensures Feed(pending, value) == Step(pending + [value], 0, [])
    ensures Viable(pending + [value])
  {}

  lemma FifthByte(pending: Bytes, value: bv8)
    requires |pending| == 4 && pending[0] == STX
    ensures var w := pending + [value];
      && (value != HeaderCrc(pending) ==> Feed(pending, value) == Step([], -1, []))
      && (value == HeaderCrc(pending) && Length(w) == 0 ==> IsFrame(w) && PacketOf(w) == Packet(w[1], []))
      && (value == HeaderCrc(pending) && Length(w) > 0 ==> Viable(w) && !IsFrame(w))
  {
    hide HeaderCrc, PayloadCrc;
    assert (pending + [value])[..4] == pending;
  }

  /** Past the header, a receiver waits until the announced length has arrived. */
  lemma KeepsWaiting(pending: Bytes, value: bv8)
    requires Viable(pending) && 5 <= |pending| < 7 + Length(pending)
    ensures Feed(pending, value) == Step(pending + [value], 0, [])
    ensures Viable(pending + [value]) && Length(pending + [value]) == Length(pending)
  {
    hide HeaderCrc, PayloadCrc;
    assert (pending + [value])[..4] == pending[..4];
  }

  lemma LastByte(pending: Bytes, value: bv8)
    requires Viable(pending) && 5 <= |pending| == 7 + Length(pending)
    ensures var w := pending + [value];
      && Length(w) == Length(pending)
      && w[7..|w| - 1] == pending[7..]
      && !Viable(w)
      && (IsFrame(w) ==> PacketOf(w) == Packet(w[1], pending[7..]))
      && IsFrame(w) == (value == EDX
                        && pending[5] as int * 256 + pending[6] as int == PayloadCrc(pending[7..]) as int)
  {
    hide HeaderCrc, PayloadCrc;
    assert (pending + [value])[..4] == pending[..4];
    assert (pending + [value])[7..|pending|] == pending[7..];
  }

  lemma EmptyPayload()
    ensures HighByte(PayloadCrc([])) == 0 && LowByte(PayloadCrc([])) == 0
  {
    assert (0 as bv16) as int == 0;
  }

  class Status {
    var rxStatus: int
    var rxType: int
    var rxDataLeft: int
    var rxNumber: int
    var txNumber: int
    var crc8Verify: int
    var crc16Verify: int
    var bufferIndex: nat
    const frameBuffer: array<bv8>
    const buffer: array<bv8>

    // The bytes consumed since the receiver last waited for a start byte, and what it has delivered.
    ghost var pending: Bytes
    ghost var delivered: seq<Packet>

    ghost predicate Shape()
      reads this
    {
      frameBuffer.Length == 12 && buffer.Length == 256 && frameBuffer != buffer
    }

    /** The fields hold exactly what the pending bytes say. */
    ghost predicate Synchronised()
      reads this, frameBuffer, buffer
      requires Shape()
    {
      && START <= rxStatus <= END
      && (rxStatus != START ==> bufferIndex <= 256)
      && (rxStatus == START <==> pending == [])
      && (rxStatus != START ==> Viable(pending))
      && (START < rxStatus <= CRC8 ==> |pending| == rxStatus && frameBuffer[..rxStatus] == pending && bufferIndex == 0)
      && (rxStatus >= LENGTH ==> |pending| >= 2 && rxType == pending[1] as int)
      && (rxStatus == SERIAL || rxStatus == CRC8 ==> rxDataLeft == pending[2] as int)
      && (rxStatus >= CRC8 ==> |pending| >= 4 && rxNumber == pending[SERIAL] as int)
      && (rxStatus == CRC16H || rxStatus == CRC16L ==>
            |pending| == rxStatus && bufferIndex == 0 && rxDataLeft == Length(pending) > 0)
      && (rxStatus == CRC16L ==> crc16Verify == pending[5] as int)
      && (rxStatus >= DATA ==>
            && |pending| == 7 + bufferIndex
            && crc16Verify == pending[5] as int * 256 + pending[6] as int
            && rxDataLeft == Length(pending) - bufferIndex
            && buffer[..bufferIndex] == pending[7..])
      && (rxStatus == DATA ==> rxDataLeft > 0)
      && (rxStatus == END ==> rxDataLeft == 0)
    }

    ghost predicate Valid()
      reads this, frameBuffer, buffer
    {
      Shape() && Synchronised()
    }

    constructor ()
      ensures Valid() && pending == [] && delivered == [] && txNumber == 0
      ensures fresh(frameBuffer) && fresh(buffer)
    {
      rxStatus, rxType, rxDataLeft, rxNumber, txNumber, crc8Verify, crc16Verify := 0, 0, 0, 0, 0, 0, 0;
      bufferIndex := 0;
      frameBuffer := new bv8[12](_ => 0);
      buffer := new bv8[256](_ => 0);
      pending, delivered := [], [];
    }

    /** Goes back to waiting for a start byte; nothing else is touched. */
    method Error()
      modifies this`rxStatus
      ensures rxStatus == START
    {
      rxStatus := START;
    }

    method Insert(value: bv8)
      requires Shape()
      requires rxDataLeft > 0 && rxStatus == DATA ==> bufferIndex < 256
      modifies this`rxStatus, this`bufferIndex, this`rxDataLeft, buffer
      ensures old(rxDataLeft) > 0 && old(rxStatus) == DATA ==>
        && buffer[..] == old(buffer[..])[old(bufferIndex) := value]
        && bufferIndex == old(bufferIndex) + 1
        && (bufferIndex < 256 ==> rxStatus == DATA && rxDataLeft == old(rxDataLeft) - 1)
        && (bufferIndex == 256 ==> rxStatus == START && rxDataLeft == old(rxDataLeft))
      ensures !(old(rxDataLeft) > 0 && old(rxStatus) == DATA) ==>
        buffer[..] == old(buffer[..]) && rxStatus == START && bufferIndex == old(bufferIndex)
        && rxDataLeft == old(rxDataLeft)
    {
      if rxDataLeft <= 0 {
        Error();
        return;
      }
      if rxStatus != DATA {
        Error();
        return;
      }
      buffer[bufferIndex] := value;
      bufferIndex := bufferIndex + 1;
      if bufferIndex >= 256 {
        Error();
        return;
      }
      rxDataLeft := rxDataLeft - 1;
    }

    method Reset()
      modifies this`rxStatus, this`rxDataLeft, this`rxType, this`bufferIndex, this`txNumber
      ensures rxStatus == START && rxDataLeft == 0 && rxType == 0 && bufferIndex == 0 && txNumber == 0
    {
      rxStatus := START;
      rxDataLeft := 0;
      rxType := 0;
      bufferIndex := 0;
      txNumber := 0;
    }

    /** What every byte does: the state moves as `Feed` says; on acceptance it holds the packet. */
    twostate predicate Moved(value: bv8, result: int)
      reads this, frameBuffer, buffer
    {
      && Valid()
      && delivered == old(delivered)
      && result == Feed(old(pending), value).result
      && pending == Feed(old(pending), value).pending
      && (result == 1 ==>
            && IsFrame(old(pending) + [value])
            && rxType == PacketOf(old(pending) + [value]).kind as int
            && rxNumber == (old(pending) + [value])[SERIAL] as int
            && bufferIndex <= 256 && buffer[..bufferIndex] == PacketOf(old(pending) + [value]).payload)
    }

    // One method per group of cases of the switch.

    method CaseStart(value: bv8) returns (result: int)
      requires Valid() && rxStatus == START
      modifies this, frameBuffer
      ensures Moved(value, result) && txNumber == 0
    {
      hide IsFrame, Viable, Divide8, LsbFirst;
      ViableStart([]);
      assert pending + [value] == [value];
      frameBuffer[rxStatus] := value;
      Reset();
      if value == CONNECT {
        return 0;
      }
      if value != STX {
        Error();
        return -1;
      }
      EarlyByte(pending, value);
      rxStatus := CMD;
      pending := pending + [value];
      return 0;
    }

    method CaseField(value: bv8) returns (result: int)
      requires Valid() && CMD <= rxStatus <= SERIAL
      modifies this, frameBuffer
      ensures Moved(value, result) && txNumber == old(txNumber)
    {
      hide IsFrame, Viable, Divide8, LsbFirst;
      ViableStart(pending);
      EarlyByte(pending, value);
      frameBuffer[rxStatus] := value;
      if rxStatus == CMD {
        rxType := value as int;
        rxStatus := LENGTH;
      } else if rxStatus == LENGTH {
        rxDataLeft := value as int;
        rxStatus := SERIAL;
      } else {
        rxNumber := value as int;
        rxStatus := CRC8;
      }
      pending := pending + [value];
      return 0;
    }

    method CaseCrc8(value: bv8) returns (result: int)
      requires Valid() && rxStatus == CRC8
      modifies this, frameBuffer
      ensures Moved(value, result) && txNumber == old(txNumber)
    {
      hide IsFrame, Viable, Divide8, LsbFirst;
      ViableStart(pending);
      FifthByte(pending, value);
      frameBuffer[rxStatus] := value;
      crc8Verify := value as int;
      var crc := Crc.Crc8Table(frameBuffer[..], CRC8);
      assert frameBuffer[..][..4] == pending;
      ghost var w := pending + [value];
      pending := [];
      if crc as int != crc8Verify {
        Error();
        return -1;
      }
      if rxDataLeft == 0 {
        rxStatus := START;
        return 1;
      }
      pending := w;
      rxStatus := CRC16H;
      return 0;
    }

    method CaseCrc16(value: bv8) returns (result: int)
      requires Valid() && CRC16H <= rxStatus <= CRC16L
      modifies this, frameBuffer
      ensures Moved(value, result) && txNumber == old(txNumber)
    {
      hide IsFrame, Viable;
      ViableStart(pending);
      KeepsWaiting(pending, value);
      frameBuffer[rxStatus] := value;
      if rxStatus == CRC16H {
        crc16Verify := value as int;
        rxStatus := CRC16L;
      } else {
        crc16Verify := crc16Verify * 256 + value as int;
        rxStatus := DATA;
      }
      pending := pending + [value];
      return 0;
    }

    /** `Data` with nothing left falls through to `End`. */
    method CaseDataEnd(value: bv8) returns (result: int)
      requires Valid() && DATA <= rxStatus
      modifies this, frameBuffer, buffer
      ensures Moved(value, result) && txNumber == old(txNumber)
    {
      hide IsFrame, Viable, Divide16, MsbFirst;
      ViableStart(pending);
      frameBuffer[rxStatus] := value;
      if rxStatus == DATA && rxDataLeft != 0 {
        KeepsWaiting(pending, value);
        ghost var kept := buffer[..bufferIndex];
        Insert(value);
        assert buffer[..bufferIndex] == kept + [value];
        if rxDataLeft == 0 {
          rxStatus := END;
        }
        pending := pending + [value];
        return 0;
      }
      rxStatus := END;
      LastByte(pending, value);
      pending := [];
      if value != EDX {
        Error();
        return -1;
      }
      var crc16 := Crc.Crc16Table(buffer[..], bufferIndex);
      assert buffer[..][..bufferIndex] == buffer[..bufferIndex];
      if crc16 as int != crc16Verify {
        Error();
        return -1;
      }
      rxStatus := START;
      return 1;
    }

    /**
     * A corrupted state number is answered by -3 and a fresh start. Every byte that arrives while the receiver
     * waits resets the transmit number.
     */
    method RunningData(value: bv8) returns (result: int)
      requires Shape() && (START <= rxStatus <= END ==> Synchronised())
      modifies this, frameBuffer, buffer
      ensures START <= old(rxStatus) <= END ==> Moved(value, result)
      ensures !(START <= old(rxStatus) <= END) ==>
        result == -3 && Valid() && pending == [] && delivered == old(delivered)
      ensures txNumber == if old(rxStatus) == START then 0 else old(txNumber)
    {
      hide IsFrame, Viable, Feed;
      if rxStatus < START || rxStatus > END {
        Error();
        pending := [];
        return -3;
      }
      if rxStatus == START {
        result := CaseStart(value);
      } else if rxStatus <= SERIAL {
        result := CaseField(value);
      } else if rxStatus == CRC8 {
        result := CaseCrc8(value);
      } else if rxStatus <= CRC16L {
        result := CaseCrc16(value);
      } else {
        result := CaseDataEnd(value);
      }
    }

    /** The result is narrowed to a byte, so -1 and -3 come out as 255 and 253. */
    method Receive(value: bv8) returns (result: int)
      requires Valid()
      modifies this, frameBuffer, buffer
      ensures Valid()
      ensures result == if Feed(old(pending), value).result < 0 then 255 else Feed(old(pending), value).result
      ensures pending == Feed(old(pending), value).pending
      ensures delivered == old(delivered) + Feed(old(pending), value).packets
    {
      hide IsFrame, Viable, Feed, PacketOf;
      FeedResult(pending, value);
      var r := RunningData(value);
      result := r % 256;
      if result == 1 {
        Effect(value, old(pending));
      }
    }

    /** Hands the type and the payload on. */
    ghost method Effect(value: bv8, before: Bytes)
      requires Valid() && IsFrame(before + [value])
      requires rxType == PacketOf(before + [value]).kind as int
      requires bufferIndex <= 256 && buffer[..bufferIndex] == PacketOf(before + [value]).payload
      modifies this`delivered
      ensures delivered == old(delivered) + [PacketOf(before + [value])]
    {
      hide IsFrame, ByteOf;
      ByteOfNumber(PacketOf(before + [value]).kind);
      delivered := delivered + [Packet(ByteOf(rxType), buffer[..bufferIndex])];
    }

    /** Whatever arrives, what is delivered is what the stream means. */
    method Recv(buf: Bytes) returns (result: int)
      requires Valid()
      modifies this, frameBuffer, buffer
      ensures Valid() && result == 0
      ensures pending == FeedAll(old(pending), buf).pending
      ensures delivered == old(delivered) + FeedAll(old(pending), buf).packets
    {
      hide Feed;
      for i := 0 to |buf|
        invariant Valid()
        invariant pending == FeedAll(old(pending), buf[..i]).pending
        invariant delivered == old(delivered) + FeedAll(old(pending), buf[..i]).packets
      {
        assert buf[..i + 1][..i] == buf[..i];
        var _ := Receive(buf[i]);
      }
      assert buf[..|buf|] == buf;
      return 0;
    }

    // ---------------------------------------------------------------- senders

    /** The low byte of the running transmit number: how many frames went before, modulo 256. */
    function Serial(): (serial: bv8)
      reads this
      ensures serial as nat == txNumber % 256
    {
      ByteOf(txNumber % 256)
    }

    /** The five header bytes; both senders start with them. */
    method WriteHeader(out: array<bv8>, kind: bv8, len: nat)
      requires out.Length >= 5 && len < 256
      modifies this`txNumber, out
      ensures txNumber == old(txNumber) + 1
      ensures out[..5] == HeaderOf(kind, old(Serial()), ByteOf(len))
      ensures out[5..] == old(out[5..])
    {
      hide Divide8, LsbFirst, Serial, ByteOf;
      var announced, serial := ByteOf(len), Serial();
      out[START] := STX;
      out[CMD] := kind;
      out[LENGTH] := announced;
      out[SERIAL] := serial;
      txNumber := txNumber + 1;
      var crc8 := Crc.Crc8Table(out[..], CRC8);
      assert out[..][..4] == [STX, kind, announced, serial];
      out[CRC8] := crc8;
      assert out[..5] == HeaderOf(kind, serial, announced);
    }

    /** Checksum bytes, payload and end flag, behind a header that is left alone. */
    method WriteBody(out: array<bv8>, payload: Bytes)
      requires out.Length >= 8 + |payload|
      modifies out
      ensures out[..5] == old(out[..5]) && out[8 + |payload|..] == old(out[8 + |payload|..])
      ensures out[5..8 + |payload|] ==
        [HighByte(PayloadCrc(payload)), LowByte(PayloadCrc(payload))] + payload + [EDX]
    {
      hide Divide16, MsbFirst, HighByte, LowByte;
      var len := |payload|;
      for i := 0 to len
        invariant out[..5] == old(out[..5]) && out[8 + len..] == old(out[8 + len..])
        invariant out[DATA..DATA + i] == payload[..i]
      {
        out[DATA + i] := payload[i];
      }
      var crc16 := Crc.Crc16Table(out[DATA..], len);
      assert out[DATA..][..len] == payload;
      out[CRC16H] := HighByte(crc16);
      out[CRC16L] := LowByte(crc16);
      out[END + len - 1] := EDX;
      assert out[5..8 + len] == [out[5], out[6]] + out[7..7 + len] + [EDX];
    }

    /**
     * Writes a frame into the caller's buffer. An empty payload still gets two checksum bytes and an
     * end flag, which the receiver skips.
     */
    method Pack(out: array<bv8>, kind: bv8, payload: Bytes) returns (n: nat)
      requires |payload| < 248 && out.Length >= 8 + |payload|
      modifies this`txNumber, out
      ensures n == 8 + |payload| && txNumber == old(txNumber) + 1
      ensures out[..n] == FrameOf(kind, old(Serial()), payload) + (if payload == [] then [0, 0, EDX] else [])
      ensures out[n..] == old(out[n..])
    {
      hide HeaderCrc, PayloadCrc, HighByte, LowByte, HeaderOf, ByteOf;
      WriteHeader(out, kind, |payload|);
      ghost var header := out[..5];
      WriteBody(out, payload);
      EmptyPayload();
      assert out[..8 + |payload|] == header + out[5..8 + |payload|];
      return END + |payload|;
    }

    /** Builds a frame and hands it to the serial port; an empty payload is sent as a bare header. */
    method Send(kind: bv8, payload: Bytes) returns (sent: Bytes)
      requires |payload| < 248
      modifies this`txNumber
      ensures txNumber == old(txNumber) + 1
      ensures sent == FrameOf(kind, old(Serial()), payload)
    {
      hide HeaderCrc, PayloadCrc, HighByte, LowByte, HeaderOf, ByteOf;
      var out := new bv8[256];
      WriteHeader(out, kind, |payload|);
      ghost var header := out[..5];
      if |payload| == 0 {
        return out[..CRC8 + 1];
      } else {
        WriteBody(out, payload);
        assert out[..8 + |payload|] == header + out[5..8 + |payload|];
        return out[..END + |payload|];
      }
    }
  }

  // ---------------------------------------------------------------- from sender to receiver

  /** The three bytes behind an empty packed frame: two errors, then the end flag, which is also the connect flag. */
  lemma TrailerAnswers()
    ensures Feed([], 0).result == -1 && Feed([], 0).pending == []
    ensures EDX == CONNECT && Feed([], EDX).result == 0 && Feed([], EDX).pending == []
  {
    ViableStart([]);
    assert forall v: bv8 :: [] + [v] == [v];
  }

  datatype Message = Message(kind: bv8, serial: bv8, payload: Bytes, packed: bool)

  /** What goes on the line for one message: by `Pack`, or by `Send`. */
  function OnLine(m: Message): Bytes
    requires |m.payload| < 248
  {
    FrameOf(m.kind, m.serial, m.payload) + if m.packed && m.payload == [] then [0, 0, EDX] else []
  }

  function Line(ms: seq<Message>): Bytes
    requires forall m :: m in ms ==> |m.payload| < 248
  {
    if ms == [] then [] else Line(ms[..|ms| - 1]) + OnLine(ms[|ms| - 1])
  }

  function Packets(ms: seq<Message>): seq<Packet> {
    seq(|ms|, i requires 0 <= i < |ms| => Packet(ms[i].kind, ms[i].payload))
  }

  /** Everything packed or sent, back to back, is delivered exactly once each and in order. */
  lemma {:induction false} SentIsReceived(ms: seq<Message>)
    requires forall m :: m in ms ==> |m.payload| < 248
    ensures FeedAll([], Line(ms)) == Run([], Packets(ms))
  {
    hide FrameOf, Feed, IsFrame, PacketOf, ByteOf;
    if ms != [] {
      var before, m := ms[..|ms| - 1], ms[|ms| - 1];
      SentIsReceived(before);
      var w := FrameOf(m.kind, m.serial, m.payload);
      FrameOfIsFrame(m.kind, m.serial, m.payload);
      FrameDelivered(w);
      FeedAllAppend([], Line(before), OnLine(m));
      if m.packed && m.payload == [] {
        NoiseIgnored([0, 0, EDX]);
        FeedAllAppend([], w, [0, 0, EDX]);
      } else {
        assert OnLine(m) == w;
      }
      assert Packets(ms) == Packets(before) + [Packet(m.kind, m.payload)];
    }
  }
}
