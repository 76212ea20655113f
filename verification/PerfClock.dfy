/**
 * The clock of perf_counter.c: a timer that counts down and wraps, an interrupt that accounts for each wrap
 * some time later, and readings taken in between.
 */
module PerfClock {
  const COMPENSATION_THRESHOLD := 16

  /** Milliseconds or microseconds that have been counted, and the cycles left over. */
  datatype Counter = Counter(unit: int, count: int, residue: int)

  /** One wrap of `load` cycles, as the interrupt handler adds it. */
  function Added(c: Counter, load: int): Counter
    requires c.unit > 0
  {
    var sum := c.residue + load;
    c.(count := c.count + sum / c.unit, residue := sum - sum / c.unit * c.unit)
  }

  /** Everything counted, in cycles. */
  function Cycles(c: Counter): int {
    c.count * c.unit + c.residue
  }

  /** What a reading shows `extra` cycles after the last wrap that was accounted for. */
  function Reading(c: Counter, extra: int): int
    requires c.unit > 0
  {
    c.count + (extra + c.residue) / c.unit
  }

  lemma AddedKeepsCycles(c: Counter, load: int)
    requires c.unit > 0
    ensures Cycles(Added(c, load)) == Cycles(c) + load
    ensures 0 <= Added(c, load).residue < c.unit
  {
    var sum := c.residue + load;
    var q := sum / c.unit;
    assert sum == q * c.unit + sum % c.unit;
    assert (c.count + q) * c.unit == c.count * c.unit + q * c.unit;
  }

  /** A reading is the whole number of units in all the cycles, counted or not. */
  lemma ReadingIsFloor(c: Counter, extra: int)
    requires c.unit > 0
    ensures Reading(c, extra) == (Cycles(c) + extra) / c.unit
  {
    DivideShifted(c.count, extra + c.residue, c.unit);
  }

  lemma DivideShifted(k: int, x: int, n: int)
    requires n > 0
    ensures (k * n + x) / n == k + x / n
  {
    var q, r := x / n, x % n;
    assert k * n + x == (k + q) * n + r;
    QuotientIs(k * n + x, n, k + q, r);
  }

  lemma QuotientIs(x: int, n: int, q: int, r: int)
    requires n > 0 && 0 <= r < n && x == q * n + r
    ensures x / n == q
  {
    var d := x / n - q;
    assert x == x / n * n + x % n;
    assert d * n == r - x % n;
    SmallMultiple(d, n);
  }

  lemma SmallMultiple(d: int, n: int)
    requires n > 0 && -n < d * n < n
    ensures d == 0
  {
    if d > 0 {
      MultipleGrows(1, d, n);
    } else if d < 0 {
      MultipleGrows(d, -1, n);
    }
  }

  lemma MultipleGrows(x: int, y: int, n: int)
    requires n > 0 && x <= y
    ensures x * n <= y * n
  {}

  class PerfCounter {
    // The timer: it counts from `load` down to zero and starts again; reaching zero sets the pending bit.
    const load: int
    var val: int
    var pending: bool
    // What the handler has accounted for.
    var clockCounts: int
    var ms: Counter
    var us: Counter
    var oldTimestamp: int
    /** Cycles that have passed. */
    ghost var elapsed: int
    /** Cycles in each counter when the clock started. */
    ghost const msStart: int
    ghost const usStart: int

    /** Cycles between what has been accounted for and now. */
    ghost function Due(): int
      reads this
    {
      (load - val) + (if pending && val != 0 then load + 1 else 0) - (if !pending && val == 0 then load + 1 else 0)
    }

    ghost predicate Valid()
      reads this
    {
      && load >= COMPENSATION_THRESHOLD && 0 <= val <= load
      && ms.unit > 0 && us.unit > 0 && ms.residue >= 0 && us.residue >= 0
      && elapsed == clockCounts + Due()
      && Cycles(ms) == clockCounts + msStart && Cycles(us) == clockCounts + usStart
    }

    /** A clock of the given units, with whatever residues are left from before. */
    constructor (load: int, msUnit: int, usUnit: int, msResidue: int, usResidue: int)
      requires load >= COMPENSATION_THRESHOLD && msUnit > 0 && usUnit > 0 && msResidue >= 0 && usResidue >= 0
      ensures Valid() && elapsed == 0 && this.load == load && msStart == msResidue && usStart == usResidue
      ensures ms == Counter(msUnit, 0, msResidue) && us == Counter(usUnit, 0, usResidue) && oldTimestamp == 0
      ensures val == load && !pending && clockCounts == 0
    {
      this.load, val, pending, clockCounts, oldTimestamp := load, load, false, 0, 0;
      ms, us := Counter(msUnit, 0, msResidue), Counter(usUnit, 0, usResidue);
      elapsed, msStart, usStart := 0, msResidue, usResidue;
    }

    /**
     * The states in which the next cycle makes the registers tell less than before: a pending wrap is about to be
     * compensated for no longer, or one was handled in the very cycle it became pending.
     */
    predicate AboutToFall()
      reads this
    {
      (pending && val == COMPENSATION_THRESHOLD) || (!pending && val == 0)
    }

    /**
     * One cycle of the timer. A wrap that comes before the last one was handled would be lost. What the registers
     * tell falls in exactly two states, and otherwise it does not.
     */
    method Tick()
      requires Valid() && (val == 1 ==> !pending)
      modifies this`val, this`pending, this`elapsed
      ensures Valid() && elapsed == old(elapsed) + 1
      ensures val == if old(val) == 0 then load else old(val) - 1
      ensures pending == (old(pending) || old(val) == 1)
      ensures clockCounts + CheckSystick() < old(clockCounts + CheckSystick()) <==> old(AboutToFall())
    {
      elapsed := elapsed + 1;
      if val == 0 {
        val := load;
      } else {
        val := val - 1;
        if val == 0 {
          pending := true;
        }
      }
    }

    /** `user_code_insert_to_systick_handler`: one wrap more, in all three counts. */
    method Handle()
      requires Valid() && pending
      modifies this`pending, this`clockCounts, this`ms, this`us
      ensures Valid() && !pending && clockCounts == old(clockCounts) + load + 1
      ensures 0 <= ms.residue < ms.unit == old(ms.unit) && 0 <= us.residue < us.unit == old(us.unit)
      ensures clockCounts + CheckSystick() >= old(clockCounts + CheckSystick())
    {
      var wLoad := load + 1;
      AddedKeepsCycles(ms, wLoad);
      AddedKeepsCycles(us, wLoad);
      pending := false;
      clockCounts := clockCounts + wLoad;
      ms := Added(ms, wLoad);
      us := Added(us, wLoad);
    }

    /** The cycles since the last wrap that was accounted for, as far as the registers tell. */
    function CheckSystick(): int
      reads this
    {
      var nTemp := load - val;
      if pending && load - nTemp >= COMPENSATION_THRESHOLD then nTemp + (load + 1) else nTemp
    }

    /**
     * The registers tell the true time except in two cases: a wrap has been pending for so long that the
     * timer is close to zero again, or it was handled in the very cycle it became pending.
     */
    lemma ExactlyWhen()
      requires Valid()
      ensures clockCounts + CheckSystick() == elapsed <==>
        !(pending && 0 < val < COMPENSATION_THRESHOLD) && !(!pending && val == 0)
    {}

    method GetSystemTicks() returns (lTemp: int)
      requires Valid()
      modifies this`oldTimestamp
      ensures Valid() && oldTimestamp == lTemp >= old(oldTimestamp)
      ensures lTemp == old(oldTimestamp) || lTemp == clockCounts + CheckSystick()
      ensures old(oldTimestamp) <= elapsed && !(pending && 0 < val < COMPENSATION_THRESHOLD) && !(!pending && val == 0)
        ==> lTemp == elapsed
    {
      lTemp := CheckSystick() + clockCounts;
      if lTemp < oldTimestamp {
        lTemp := oldTimestamp;
      } else {
        oldTimestamp := lTemp;
      }
    }

    /** The whole milliseconds in the cycles the registers tell of, and those left at the start. */
    method GetSystemMs() returns (nTemp: int)
      requires Valid()
      ensures nTemp == (clockCounts + CheckSystick() + msStart) / ms.unit
    {
      ReadingIsFloor(ms, CheckSystick());
      nTemp := ms.count + (CheckSystick() + ms.residue) / ms.unit;
    }

    method GetSystemUs() returns (nTemp: int)
      requires Valid()
      ensures nTemp == (clockCounts + CheckSystick() + usStart) / us.unit
    {
      ReadingIsFloor(us, CheckSystick());
      nTemp := us.count + (CheckSystick() + us.residue) / us.unit;
    }

    /** What the registers tell is not changed by handling a pending wrap exactly if the timer is not close to zero. */
    method HandleBetweenReadings() returns (before: int, after: int)
      requires Valid() && pending
      modifies this`pending, this`clockCounts, this`ms, this`us
      ensures Valid() && before == old(clockCounts + CheckSystick()) && after == clockCounts + CheckSystick()
      ensures before == after <==> val >= COMPENSATION_THRESHOLD
      ensures val < COMPENSATION_THRESHOLD ==> after == before + load + 1
    {
      before := clockCounts + CheckSystick();
      Handle();
      after := clockCounts + CheckSystick();
    }
  }

  /** A larger number of cycles does not make fewer units. */
  lemma DivideOrdered(x: int, y: int, n: int)
    requires n > 0 && x <= y
    ensures x / n <= y / n
  {
    assert x == x / n * n + x % n && y == y / n * n + y % n;
    if x / n > y / n {
      MultipleGrows(y / n + 1, x / n, n);
    }
  }

  /** From one cycle to the next the milliseconds go back only in the two states in which the registers do. */
  method TickBetweenReadings(clock: PerfCounter) returns (before: int, after: int)
    requires clock.Valid() && (clock.val == 1 ==> !clock.pending)
    modifies clock`val, clock`pending, clock`elapsed
    ensures clock.Valid() && (after < before ==> old(clock.AboutToFall()))
    ensures after < before <==>
      && old(clock.AboutToFall())
      && (clock.clockCounts + clock.CheckSystick() + clock.msStart) / clock.ms.unit
         < old((clock.clockCounts + clock.CheckSystick() + clock.msStart) / clock.ms.unit)
  {
    before := clock.GetSystemMs();
    ghost var told := clock.clockCounts + clock.CheckSystick() + clock.msStart;
    clock.Tick();
    after := clock.GetSystemMs();
    if told <= clock.clockCounts + clock.CheckSystick() + clock.msStart {
      DivideOrdered(told, clock.clockCounts + clock.CheckSystick() + clock.msStart, clock.ms.unit);
    }
  }

  /** So many cycles without a wrap. */
  method CountDown(clock: PerfCounter, cycles: nat)
    requires clock.Valid() && cycles < clock.val
    modifies clock`val, clock`pending, clock`elapsed
    ensures clock.Valid() && clock.val == old(clock.val) - cycles && clock.pending == old(clock.pending)
  {
    for i := 0 to cycles
      invariant clock.Valid() && clock.val == old(clock.val) - i && clock.pending == old(clock.pending)
    {
      clock.Tick();
    }
  }

  /** A reading on a clock of 16000 cycles a millisecond. */
  method ReadSixteen(clock: PerfCounter) returns (reading: int)
    requires clock.Valid() && clock.ms.unit == 16000 && clock.msStart == 0 && clock.clockCounts == 0
    ensures reading == clock.CheckSystick() / 16000
  {
    reading := clock.GetSystemMs();
  }

  /**
   * The milliseconds can go back: on a clock whose period is one millisecond, with the first wrap still pending
   * until the timer is at 16 again, a reading of 1 is followed one cycle later by a reading of 0.
   */
  method MillisecondsCanGoBack() returns (before: int, after: int)
    ensures before == 1 && after == 0
  {
    hide Cycles;
    var clock := new PerfCounter(15999, 16000, 16, 0, 0);
    CountDown(clock, 15998);
    clock.Tick();
    clock.Tick();
    CountDown(clock, 15983);
    before := ReadSixteen(clock);
    clock.Tick();
    after := ReadSixteen(clock);
  }
}
