/**
 * The wire format of the inertial-sensor link (FDILink.h, FDILink.c) and the meaning of a byte stream,
 * independent of how the receiver keeps its state.
 */
module FdiFrames {
  import opened CrcDivision

  const STX: bv8 := 0xFC
  const EDX: bv8 := 0xFD
  const CONNECT: bv8 := 0xFD

  /** What the receiver hands on: the type byte and the payload. */
  datatype Packet = Packet(kind: bv8, payload: Bytes)

  function HeaderCrc(h: Bytes): bv8 {
    Divide8(0, LsbFirst(h))
  }

  function PayloadCrc(p: Bytes): bv16 {
    Divide16(0, MsbFirst(p))
  }

  /** The first five bytes of `w` are a header whose checksum agrees. */
  predicate HeaderOk(w: Bytes) {
    |w| >= 5 && w[0] == STX && w[4] == HeaderCrc(w[..4])
  }

  /** The payload length announced by a header. */
  function Length(w: Bytes): (n: nat)
    requires |w| >= 3
    ensures n < 256
  {
    w[2] as nat
  }

  /** Exactly one complete frame. */
  predicate IsFrame(w: Bytes) {
    && HeaderOk(w)
    && if Length(w) == 0 then |w| == 5
       else
         && |w| == 8 + Length(w)
         && w[|w| - 1] == EDX
         && w[5] as int * 256 + w[6] as int == PayloadCrc(w[7..|w| - 1]) as int
  }

  /** A non-empty sequence of bytes that the receiver keeps waiting on. */
  predicate Viable(w: Bytes) {
    && |w| > 0
    && w[0] == STX
    && (|w| >= 5 ==> HeaderOk(w) && 0 < Length(w) && |w| <= 7 + Length(w))
  }

  function PacketOf(w: Bytes): Packet
    requires IsFrame(w)
  {
    Packet(w[1], if Length(w) == 0 then [] else w[7..|w| - 1])
  }

  // ---------------------------------------------------------------- what one byte does

  datatype Step = Step(pending: Bytes, result: int, packets: seq<Packet>)

  /** `pending` holds the bytes consumed since the receiver last waited for a start byte. */
  function Feed(pending: Bytes, value: bv8): Step {
    var w := pending + [value];
    if pending == [] && value == CONNECT then Step([], 0, [])
    else if IsFrame(w) then Step([], 1, [PacketOf(w)])
    else if Viable(w) then Step(w, 0, [])
    else Step([], -1, [])
  }

  datatype Run = Run(pending: Bytes, packets: seq<Packet>)

  function FeedAll(pending: Bytes, s: Bytes): Run {
    if s == [] then Run(pending, [])
    else
      var before := FeedAll(pending, s[..|s| - 1]);
      var last := Feed(before.pending, s[|s| - 1]);
      Run(last.pending, before.packets + last.packets)
  }

  lemma {:induction false} FeedAllAppend(pending: Bytes, a: Bytes, b: Bytes)
    ensures FeedAll(pending, a + b) ==
      Run(FeedAll(FeedAll(pending, a).pending, b).pending,
          FeedAll(pending, a).packets + FeedAll(FeedAll(pending, a).pending, b).packets)
  {
    hide Feed;
    if b == [] {
      assert a + b == a;
    } else {
      FeedAllAppend(pending, a, b[..|b| - 1]);
      assert (a + b)[..|a + b| - 1] == a + b[..|b| - 1];
    }
  }

  // ---------------------------------------------------------------- frames are delivered

  /** Every proper non-empty prefix of a frame is waited on, and is not itself a frame. */
  lemma PrefixOfFrame(w: Bytes, k: nat)
    requires IsFrame(w) && 0 < k < |w|
    ensures Viable(w[..k]) && !IsFrame(w[..k])
  {
    hide HeaderCrc, PayloadCrc;
    if k >= 5 {
      assert w[..k][..4] == w[..4];
    }
  }

  lemma {:induction false} PrefixPending(w: Bytes, k: nat)
    requires IsFrame(w) && k < |w|
    ensures FeedAll([], w[..k]) == Run(w[..k], [])
  {
    hide IsFrame, Viable, PacketOf;
    if k > 0 {
      PrefixPending(w, k - 1);
      assert w[..k][..k - 1] == w[..k - 1];
      assert w[..k - 1] + [w[k - 1]] == w[..k];
      PrefixOfFrame(w, k);
      assert k == 1 ==> w[..k] == [w[0]];
      StartsWithStx(w);
    }
  }

  lemma StartsWithStx(w: Bytes)
    requires IsFrame(w) || Viable(w)
    ensures |w| > 0 && w[0] == STX
    ensures IsFrame(w) ==> |w| >= 5
  {}

  /** A frame fed to a waiting receiver is delivered once, at its last byte. */
  lemma FrameDelivered(w: Bytes)
    requires IsFrame(w)
    ensures |w| > 0 && FeedAll([], w[..|w| - 1]).packets == []
    ensures FeedAll([], w) == Run([], [PacketOf(w)])
  {
    hide IsFrame, Viable, PacketOf;
    StartsWithStx(w);
    PrefixPending(w, |w| - 1);
    assert w[..|w| - 1] + [w[|w| - 1]] == w;
  }

  /** Bytes other than the start byte leave a waiting receiver waiting. */
  lemma {:induction false} NoiseIgnored(s: Bytes)
    requires STX !in s
    ensures FeedAll([], s) == Run([], [])
  {
    if s != [] {
      NoiseIgnored(s[..|s| - 1]);
      assert s[|s| - 1] in s;
      assert [] + [s[|s| - 1]] == [s[|s| - 1]];
    }
  }

  // ---------------------------------------------------------------- streams

  /** A stretch of line traffic: idle bytes, or one frame. */
  datatype Segment = Noise(bytes: Bytes) | Frame(bytes: Bytes)

  predicate Sound(g: Segment) {
    match g
    case Noise(s) => STX !in s
    case Frame(w) => IsFrame(w)
  }

  function Traffic(gs: seq<Segment>): Bytes {
    if gs == [] then [] else Traffic(gs[..|gs| - 1]) + gs[|gs| - 1].bytes
  }

  function Sent(gs: seq<Segment>): seq<Packet>
    requires forall g :: g in gs ==> Sound(g)
  {
    if gs == [] then []
    else
      var last := gs[|gs| - 1];
      assert Sound(last);
      Sent(gs[..|gs| - 1]) + (if last.Frame? then [PacketOf(last.bytes)] else [])
  }

  /** Whatever idle traffic separates them, frames are delivered exactly once each, in order. */
  lemma {:induction false} RoundTrip(gs: seq<Segment>)
    requires forall g :: g in gs ==> Sound(g)
    ensures FeedAll([], Traffic(gs)) == Run([], Sent(gs))
  {
    hide IsFrame, PacketOf, Feed;
    if gs != [] {
      var before, last := gs[..|gs| - 1], gs[|gs| - 1];
      RoundTrip(before);
      FeedAllAppend([], Traffic(before), last.bytes);
      assert Sound(last);
      match last {
        case Noise(s) => NoiseIgnored(s);
        case Frame(w) => FrameDelivered(w);
      }
    }
  }

  /** The frames of a stream, each after the bytes skipped before it. */
  function Weave(gaps: seq<Bytes>, frames: seq<Bytes>): Bytes
    requires |gaps| == |frames|
  {
    if gaps == [] then []
    else
      var n := |gaps| - 1;
      Weave(gaps[..n], frames[..n]) + gaps[n] + frames[n]
  }

  /** The stream consists of these frames with these gaps before them, then skipped and pending bytes. */
  ghost predicate Explains(s: Bytes, run: Run, gaps: seq<Bytes>, frames: seq<Bytes>, skipped: Bytes) {
    && |gaps| == |frames| == |run.packets|
    && s == Weave(gaps, frames) + skipped + run.pending
    && forall i :: 0 <= i < |frames| ==> IsFrame(frames[i]) && run.packets[i] == PacketOf(frames[i])
  }

  lemma ExplainsFrame(s: Bytes, run: Run, gaps: seq<Bytes>, frames: seq<Bytes>, skipped: Bytes, v: bv8)
    requires Explains(s, run, gaps, frames, skipped)
    requires IsFrame(run.pending + [v])
    ensures Explains(s + [v], Run([], run.packets + [PacketOf(run.pending + [v])]),
                     gaps + [skipped], frames + [run.pending + [v]], [])
  {
    hide IsFrame, PacketOf;
    var w := run.pending + [v];
    assert (gaps + [skipped])[..|gaps|] == gaps && (frames + [w])[..|frames|] == frames;
    assert Weave(gaps + [skipped], frames + [w]) == Weave(gaps, frames) + skipped + w;
  }

  lemma ExplainsSkip(s: Bytes, run: Run, gaps: seq<Bytes>, frames: seq<Bytes>, skipped: Bytes, v: bv8)
    requires Explains(s, run, gaps, frames, skipped)
    ensures Explains(s + [v], Run([], run.packets), gaps, frames, skipped + run.pending + [v])
    ensures Explains(s + [v], Run(run.pending + [v], run.packets), gaps, frames, skipped)
  {
    hide IsFrame, PacketOf;
    var before := Weave(gaps, frames);
    assert s + [v] == before + (skipped + run.pending + [v]) + [];
    assert s + [v] == before + skipped + (run.pending + [v]);
  }

  /** On any stream whatsoever, what is delivered are disjoint frames of that stream, in order. */
  lemma {:induction false} Soundness(s: Bytes) returns (gaps: seq<Bytes>, frames: seq<Bytes>, skipped: Bytes)
    ensures Explains(s, FeedAll([], s), gaps, frames, skipped)
  {
    hide IsFrame, Viable, PacketOf, Weave;
    if s == [] {
      gaps, frames, skipped := EmptyStream();
    } else {
      var s', v := s[..|s| - 1], s[|s| - 1];
      gaps, frames, skipped := Soundness(s');
      assert s == s' + [v];
      var before := FeedAll([], s');
      ExplainsSkip(s', before, gaps, frames, skipped, v);
      if Feed(before.pending, v).result == 1 {
        ExplainsFrame(s', before, gaps, frames, skipped, v);
        gaps, frames, skipped := gaps + [skipped], frames + [before.pending + [v]], [];
      } else if Feed(before.pending, v).pending == [] {
        skipped := skipped + before.pending + [v];
      }
    }
  }

  lemma EmptyStream() returns (gaps: seq<Bytes>, frames: seq<Bytes>, skipped: Bytes)
    ensures Explains([], Run([], []), gaps, frames, skipped)
  {
    gaps, frames, skipped := [], [], [];
  }
}
