/** The multi-turn position of a geared motor from its single-turn encoder: motor_dj_rm_driver.c. */
module Encoder {
  const COUNTS := 8192
  const HALF := 4096
  const CALIBRATION := 50

  /** The turn counter's step from one angle to the next. */
  function Turn(last: int, angle: int): int {
    if angle - last > HALF then -1 else if angle - last < -HALF then 1 else 0
  }

  /** Shorter than half a turn, or half a turn that does not pass the zero of the encoder. */
  predicate Unwraps(p: int, p': int) {
    -HALF < p' - p < HALF || ((p' - p == HALF || p' - p == -HALF) && p' % COUNTS - p % COUNTS == p' - p)
  }

  /**
   * A step is unwrapped correctly exactly if it is shorter than half a turn, or half a turn that does not
   * pass the zero of the encoder.
   */
  lemma UnwrappedExactly(p: int, p': int)
    ensures var last, angle := p % COUNTS, p' % COUNTS;
      angle + COUNTS * Turn(last, angle) - last == p' - p <==> Unwraps(p, p')
  {
    var last, angle := p % COUNTS, p' % COUNTS;
    var k, m := p / COUNTS, p' / COUNTS;
    assert p == k * COUNTS + last && p' == m * COUNTS + angle;
    assert angle + COUNTS * Turn(last, angle) - last == p' - p <==> Turn(last, angle) == m - k;
  }

  class MotorMeasure {
    var canId: nat
    var angle: nat
    var msgCnt: nat
    var lastAngle: nat
    var offsetAngle: nat
    var roundCnt: int
    var totalAngle: int
    /** True positions in counts: now, and where the displacement is counted from. */
    ghost var position: int
    ghost var origin: int

    ghost predicate Calibrated()
      reads this
    {
      msgCnt >= CALIBRATION
    }

    /** The turns and the angle together are the true displacement. */
    ghost predicate Tracks()
      reads this
    {
      && angle == position % COUNTS && offsetAngle == origin % COUNTS
      && COUNTS * roundCnt + angle - offsetAngle == position - origin
    }

    constructor (canId: nat)
      ensures msgCnt == 0 && roundCnt == 0 && !Calibrated()
    {
      this.canId, angle, msgCnt, lastAngle, offsetAngle, roundCnt, totalAngle := canId, 0, 0, 0, 0, 0, 0;
      position, origin := 0, 0;
    }

    /**
     * One message. The first fifty only set the zero, and calibration never starts again; every later one
     * keeps turns and angle at the true displacement exactly if the step can be unwrapped. The total angle
     * is short of that displacement by one count for each turn.
     */
    method Receive(data: nat, ghost p: int)
      requires data == p % COUNTS && msgCnt < 256
      modifies this
      ensures position == p && msgCnt < 256 && canId == old(canId)
      ensures old(Calibrated()) ==> Calibrated() && origin == old(origin) && msgCnt == 255
      ensures old(Calibrated()) && old(Tracks()) ==> (Tracks() <==> Unwraps(old(position), p))
      ensures old(Calibrated()) && Tracks() ==> totalAngle == position - origin - roundCnt
      ensures !old(Calibrated()) ==> msgCnt == old(msgCnt) + 1 && origin == p && roundCnt == old(roundCnt)
      ensures !old(Calibrated()) && roundCnt == 0 ==> Tracks()
    {
      if msgCnt < CALIBRATION {
        msgCnt := msgCnt + 1;
        angle := data;
        offsetAngle := data;
        position, origin := p, p;
      } else {
        lastAngle := angle;
        angle := data;
        UnwrappedExactly(position, p);
        if angle - lastAngle > HALF {
          roundCnt := roundCnt - 1;
        } else if angle - lastAngle < -HALF {
          roundCnt := roundCnt + 1;
        }
        msgCnt := 0xff;
        totalAngle := roundCnt * 8191 + angle - offsetAngle;
        position := p;
      }
    }

    /** The present position becomes the zero. */
    method BackToZero()
      requires Tracks()
      modifies this`offsetAngle, this`roundCnt, this`origin
      ensures Tracks() && origin == position && roundCnt == 0
    {
      offsetAngle := angle;
      roundCnt := 0;
      origin := position;
    }
  }

  /** Where the motor was before message `i`. */
  function Before(start: int, path: seq<int>, i: nat): int
    requires i < |path|
  {
    if i == 0 then start else path[i - 1]
  }

  /** Any number of messages after calibration: the total angle is the displacement less one count for each turn. */
  method Follow(m: MotorMeasure, data: seq<nat>, ghost path: seq<int>)
    requires |data| == |path| && m.Calibrated() && m.msgCnt < 256 && m.Tracks() && data != []
    requires forall i :: 0 <= i < |path| ==> data[i] == path[i] % COUNTS
    requires forall i :: 0 <= i < |path| ==> Unwraps(Before(m.position, path, i), path[i])
    modifies m
    ensures m.Calibrated() && m.Tracks() && m.origin == old(m.origin) && m.position == path[|path| - 1]
    ensures m.totalAngle == path[|path| - 1] - m.origin - m.roundCnt
    ensures m.totalAngle == path[|path| - 1] - m.origin <==> path[|path| - 1] / COUNTS == m.origin / COUNTS
  {
    for i := 0 to |data|
      invariant m.Calibrated() && m.msgCnt < 256 && m.Tracks() && m.origin == old(m.origin)
      invariant m.position == if i == 0 then old(m.position) else path[i - 1]
      invariant i > 0 ==> m.totalAngle == m.position - m.origin - m.roundCnt
    {
      assert Unwraps(Before(old(m.position), path, i), path[i]);
      m.Receive(data[i], path[i]);
    }
  }

  /** A motor that turns once forwards and 8 counts more is told to have turned 8199 counts, not 8200. */
  method OneTurnForwards() returns (totalAngle: int)
    ensures totalAngle == 8199
  {
    var m := new MotorMeasure(0x201);
    for i := 0 to CALIBRATION
      invariant m.msgCnt == i && m.roundCnt == 0 && (i > 0 ==> m.Tracks() && m.position == m.origin == 0)
    {
      m.Receive(0, 0);
    }
    ghost var path := [4000, 8000, 8200];
    Follow(m, [4000, 8000, 8], path);
    assert m.position == 8200 && m.origin == 0;
    totalAngle := m.totalAngle;
  }

  // ---------------------------------------------------------------- finding a motor

  predicate Ascending(ids: seq<nat>) {
    forall i, j :: 0 <= i < j < |ids| ==> ids[i] < ids[j]
  }

  const BYTE := 256

  /** A search goes on between two eight-bit ends, or is over: with an index, without, or by reading past the table. */
  datatype Search = Looking(left: nat, right: nat) | Found(index: nat) | Absent | OffTable

  /** One turn of the loop; the ends wrap around. */
  function Turned(ids: seq<nat>, canId: nat, s: Search): Search {
    if !s.Looking? then s
    else if s.left > s.right then Absent
    else
      var mid := (s.left + s.right) / 2;
      if mid >= |ids| then OffTable
      else if ids[mid] == canId then Found(mid)
      else if ids[mid] < canId then Looking((mid + 1) % BYTE, s.right)
      else Looking(s.left, if mid == 0 then BYTE - 1 else mid - 1)
  }

  /** The search after so many turns. */
  function SearchAfter(ids: seq<nat>, canId: nat, turns: nat): Search
    requires 0 < |ids| <= BYTE
  {
    if turns == 0 then Looking(0, |ids| - 1) else Turned(ids, canId, SearchAfter(ids, canId, turns - 1))
  }

  /** Between two ends that have not wrapped: what has been passed over is not the id. */
  predicate Narrowing(ids: seq<nat>, canId: nat, s: Search) {
    && s.Looking? && s.left <= |ids| && s.right < |ids| && s.left <= s.right + 1
    && (forall i :: 0 <= i < s.left ==> ids[i] < canId)
    && (forall i :: s.right < i < |ids| ==> canId < ids[i])
  }

  /** Where a search that has not wrapped goes on to: a smaller one, its end, or the wrap. */
  lemma NarrowingTurn(ids: seq<nat>, canId: nat, s: Search)
    requires 0 < |ids| <= BYTE && Ascending(ids) && Narrowing(ids, canId, s)
    requires !(|ids| == BYTE && ids[BYTE - 1] < canId)
    ensures var t := Turned(ids, canId, s);
      || (t.Found? && t.index < |ids| && ids[t.index] == canId)
      || (t == Absent && canId !in ids && ids[0] < canId)
      || (t == Looking(0, BYTE - 1) && canId < ids[0])
      || (Narrowing(ids, canId, t) && t.right - t.left < s.right - s.left)
  {
    if s.left > s.right {
      assert s.left == s.right + 1;
      assert forall i :: 0 <= i < |ids| ==> ids[i] != canId;
    }
  }

  /**
   * An id from the first one on, with no wrap at the far end: found or absent, in as many turns as there are
   * entries.
   */
  lemma {:induction false} OrdinarySearch(ids: seq<nat>, canId: nat, turns: nat)
    requires 0 < |ids| <= BYTE && Ascending(ids) && ids[0] <= canId && !(|ids| == BYTE && ids[BYTE - 1] < canId)
    ensures var s := SearchAfter(ids, canId, turns);
      || (s.Found? && s.index < |ids| && ids[s.index] == canId)
      || (s == Absent && canId !in ids)
      || (Narrowing(ids, canId, s) && s.right - s.left + turns < |ids|)
  {
    if turns > 0 {
      OrdinarySearch(ids, canId, turns - 1);
      var s := SearchAfter(ids, canId, turns - 1);
      hide Narrowing;
      if Narrowing(ids, canId, s) {
        NarrowingTurn(ids, canId, s);
      }
    }
  }

  /** An id below the first one: the right end comes down to zero and wraps around. */
  lemma {:induction false} SearchBelow(ids: seq<nat>, canId: nat, turns: nat)
    requires 0 < |ids| < BYTE / 2 && Ascending(ids) && canId < ids[0]
    ensures var s := SearchAfter(ids, canId, turns);
      || s == OffTable || (s == Looking(0, BYTE - 1) && turns <= |ids|)
      || (s.Looking? && s.left == 0 && s.right + turns < |ids|)
  {
    if turns > 0 {
      SearchBelow(ids, canId, turns - 1);
    }
  }

  /** In a table that reaches past the middle of the wrapped range the search stays inside it for ever. */
  lemma {:induction false} SearchBelowForever(ids: seq<nat>, canId: nat, turns: nat)
    requires BYTE / 2 <= |ids| <= BYTE && Ascending(ids) && canId < ids[0]
    ensures var s := SearchAfter(ids, canId, turns); s.Looking? && s.left == 0 && s.right < BYTE
  {
    if turns > 0 {
      SearchBelowForever(ids, canId, turns - 1);
    }
  }

  /** So does an id above the last one in a table of the greatest size: the left end wraps around. */
  lemma {:induction false} SearchAboveForever(ids: seq<nat>, canId: nat, turns: nat)
    requires |ids| == BYTE && Ascending(ids) && ids[BYTE - 1] < canId
    ensures var s := SearchAfter(ids, canId, turns); s.Looking? && s.left < BYTE && s.right == BYTE - 1
  {
    if turns > 0 {
      SearchAboveForever(ids, canId, turns - 1);
    }
  }

  /** The loop has no end for an id below the first one in a table of at least 128, or above the last one of 256. */
  predicate Endless(ids: seq<nat>, canId: nat)
    requires 0 < |ids| <= BYTE
  {
    (canId < ids[0] && |ids| >= BYTE / 2) || (|ids| == BYTE && ids[BYTE - 1] < canId)
  }

  /**
   * After one turn more than there are entries: found exactly if the id is in the table; past the table exactly
   * for an id below the first one in a table of at most 127; still looking exactly in the endless cases.
   */
  lemma SearchOutcome(ids: seq<nat>, canId: nat, turns: nat)
    requires 0 < |ids| <= BYTE && Ascending(ids) && turns > |ids|
    ensures var s := SearchAfter(ids, canId, turns);
      && (s.Found? <==> canId in ids) && (s.Found? ==> s.index < |ids| && ids[s.index] == canId)
      && (s.OffTable? <==> canId < ids[0] && |ids| < BYTE / 2)
      && (s.Looking? <==> Endless(ids, canId))
  {
    hide Turned;
    if canId < ids[0] && |ids| < BYTE / 2 {
      SearchBelow(ids, canId, turns);
    } else if canId < ids[0] {
      SearchBelowForever(ids, canId, turns);
    } else if |ids| == BYTE && ids[BYTE - 1] < canId {
      SearchAboveForever(ids, canId, turns);
    } else {
      OrdinarySearch(ids, canId, turns);
    }
  }

  /** And endless it is: after no number of turns is the search over. */
  lemma SearchNeverEnds(ids: seq<nat>, canId: nat, turns: nat)
    requires 0 < |ids| <= BYTE && Ascending(ids) && Endless(ids, canId)
    ensures SearchAfter(ids, canId, turns).Looking?
  {
    if canId < ids[0] {
      SearchBelowForever(ids, canId, turns);
    } else {
      SearchAboveForever(ids, canId, turns);
    }
  }

  /**
   * The loop, for at most so many turns: it need not end by itself. Given more turns than there are entries it has
   * ended, if it ever does: with the index of the id, without it, or past the table.
   */
  method GetByCanId(ids: seq<nat>, canId: nat, turns: nat) returns (r: Search)
    requires 0 < |ids| <= BYTE
    ensures r == SearchAfter(ids, canId, turns)
    ensures Ascending(ids) && turns > |ids| ==> (r.Found? <==> canId in ids)
    ensures r.Found? ==> r.index < |ids| && ids[r.index] == canId
    ensures Ascending(ids) && turns > |ids| ==> (r.OffTable? <==> canId < ids[0] && |ids| < BYTE / 2)
    ensures Ascending(ids) && turns > |ids| ==> (r.Looking? <==> Endless(ids, canId))
  {
    hide Turned, Endless;
    r := Looking(0, |ids| - 1);
    for i := 0 to turns
      invariant r == SearchAfter(ids, canId, i)
      invariant r.Found? ==> r.index < |ids| && ids[r.index] == canId
    {
      FoundIsRight(ids, canId, r);
      r := Turned(ids, canId, r);
    }
    if Ascending(ids) && turns > |ids| {
      SearchOutcome(ids, canId, turns);
    }
  }

  lemma FoundIsRight(ids: seq<nat>, canId: nat, s: Search)
    requires s.Found? ==> s.index < |ids| && ids[s.index] == canId
    ensures var t := Turned(ids, canId, s); t.Found? ==> t.index < |ids| && ids[t.index] == canId
  {}
}
