/**
 * Lock-free counters under any interleaving: rtatomic.h. The primitives run with interrupts off and are
 * single steps; the retry loop of `rt_atomic_fetch_add_unless` is a machine that takes one of them at a time.
 */
module Atomic {
  const WORD := 0x1_0000_0000

  /** A 32-bit machine word, read without a sign; sums wrap around. */
  type Word = x: nat | x < WORD

  function Plus(x: int, y: int): Word {
    (x + y) % WORD
  }

  function Minus(x: int, y: int): Word {
    (x - y) % WORD
  }

  // ---------------------------------------------------------------- primitives

  class Cell {
    var value: Word

    constructor (value: Word)
      ensures this.value == value
    {
      this.value := value;
    }

    method Load() returns (temp: Word)
      ensures temp == value
    {
      temp := value;
    }

    method Sub(val: Word) returns (temp: Word)
      modifies this
      ensures temp == old(value) && Plus(value, val) == old(value)
    {
      temp := value;
      value := Minus(value, val);
    }

    /** Strong compare and exchange: on a mismatch the expectation is replaced by what was found. */
    method CompareExchange(expected: Word, desired: Word) returns (expected': Word, success: bool)
      modifies this
      ensures success <==> old(value) == expected
      ensures value == if success then desired else old(value)
      ensures expected' == old(value)
    {
      if value != expected {
        expected' := value;
        success := false;
      } else {
        expected' := expected;
        value := desired;
        success := true;
      }
    }

    /**
     * True exactly when the counter was zero before. That says whether it has become zero, as the name has it,
     * exactly for counters above one, read without a sign: the last reference is let go without a notice.
     */
    method DecAndTest() returns (zero: bool)
      modifies this
      ensures Plus(value, 1) == old(value)
      ensures zero <==> old(value) == 0
      ensures zero <==> value == WORD - 1
      ensures (zero <==> value == 0) <==> old(value) > 1
    {
      var temp := Sub(1);
      zero := temp == 0;
    }

    /** The retry loop when nobody else interferes: what one call does by itself. */
    method FetchAddUnless(a: Word, u: Word) returns (c: Word)
      modifies this
      ensures c == old(value) && value == Effect(old(value), a, u)
    {
      c := Load();
      var success := false;
      while !success
        invariant c == old(value) && value == if success then Effect(old(value), a, u) else old(value)
        decreases !success
      {
        if c == u {
          break;
        }
        c, success := CompareExchange(c, Plus(c, a));
      }
    }

    method AddUnless(a: Word, u: Word) returns (added: bool)
      modifies this
      ensures added <==> old(value) != u
      ensures value == if added then Plus(old(value), a) else u
    {
      var c := FetchAddUnless(a, u);
      added := c != u;
    }

    method IncNotZero() returns (added: bool)
      modifies this
      ensures added <==> old(value) != 0
      ensures value == if added then Plus(old(value), 1) else 0
    {
      added := AddUnless(1, 0);
    }
  }

  /** A counter of one becomes zero and the test says no; a counter of zero does not and it says yes. */
  method DecAndTestMisses() returns (last: bool, lastValue: Word, none: bool, noneValue: Word)
    ensures lastValue == 0 && !last
    ensures noneValue != 0 && none
  {
    var one := new Cell(1);
    var zero := new Cell(0);
    last := one.DecAndTest();
    none := zero.DecAndTest();
    lastValue, noneValue := one.value, zero.value;
  }

  /** One call by itself: what it finds decides whether it adds. */
  function Effect(value: Word, a: Word, u: Word): Word {
    if value == u then value else Plus(value, a)
  }

  // ---------------------------------------------------------------- the retry loop

  /**
   * A call of `fetch_add_unless(a, u)`: not begun, holding a value `c` it is about to test, about to
   * exchange it, or finished with `c`.
   */
  datatype Phase = Begin | Test(c: Word) | Exchange(c: Word) | Done(c: Word)

  datatype Caller = Caller(a: Word, u: Word, phase: Phase, fails: nat)

  /** What the log says of a call at the moment it takes effect. */
  datatype Entry = Entry(caller: nat, a: Word, u: Word, found: Word)

  datatype System = System(value: Word, callers: seq<Caller>, log: seq<Entry>)

  predicate Initial(s: System) {
    s.log == [] && forall i :: 0 <= i < |s.callers| ==> s.callers[i].phase == Begin && s.callers[i].fails == 0
  }

  /** The call has read a value; reading `u` is when a call that adds nothing takes effect. */
  function Read(s: System, i: nat, fails: nat): System
    requires i < |s.callers|
  {
    var k := s.callers[i];
    s.(callers := s.callers[i := k.(phase := Test(s.value), fails := fails)],
       log := if s.value == k.u then s.log + [Entry(i, k.a, k.u, s.value)] else s.log)
  }

  /** One step of caller `i`. */
  function Step(s: System, i: nat): System
    requires i < |s.callers|
  {
    var k := s.callers[i];
    match k.phase
    case Begin => Read(s, i, k.fails)
    case Test(c) => s.(callers := s.callers[i := k.(phase := if c == k.u then Done(c) else Exchange(c))])
    case Exchange(c) =>
      if s.value != c then Read(s, i, k.fails + 1)
      else System(Plus(c, k.a), s.callers[i := k.(phase := Done(c))], s.log + [Entry(i, k.a, k.u, c)])
    case Done(c) => s
  }

  /** The system after the callers have taken steps in the given order. */
  function Run(s: System, schedule: seq<nat>): System {
    if schedule == [] then s
    else
      var before := Run(s, schedule[..|schedule| - 1]);
      var i := schedule[|schedule| - 1];
      if i < |before.callers| then Step(before, i) else before
  }

  // ---------------------------------------------------------------- the sequential meaning

  function Replay(value: Word, log: seq<Entry>): Word {
    if log == [] then value
    else
      var last := log[|log| - 1];
      Effect(Replay(value, log[..|log| - 1]), last.a, last.u)
  }

  /** Every entry found the value that the calls before it, one after another, leave. */
  predicate Sequential(value: Word, log: seq<Entry>) {
    log != [] ==> Sequential(value, log[..|log| - 1]) && log[|log| - 1].found == Replay(value, log[..|log| - 1])
  }

  /** The call has taken effect. */
  predicate Effective(k: Caller) {
    k.phase.Done? || (k.phase.Test? && k.phase.c == k.u)
  }

  predicate Logged(log: seq<Entry>, i: nat) {
    exists n :: 0 <= n < |log| && log[n].caller == i
  }

  /** No caller is in the log twice. */
  predicate Once(log: seq<Entry>) {
    forall m, n :: 0 <= m < n < |log| ==> log[m].caller != log[n].caller
  }

  /** An entry records a call that has taken effect, with what it found. */
  predicate EntryOk(s: System, e: Entry) {
    && e.caller < |s.callers|
    && var k := s.callers[e.caller];
       Effective(k) && e.a == k.a && e.u == k.u && e.found == k.phase.c
  }

  /** A call is in the log once it has taken effect; one about to exchange did not find `u`. */
  predicate CallerOk(s: System, i: nat)
    requires i < |s.callers|
  {
    && (Effective(s.callers[i]) ==> Logged(s.log, i))
    && (s.callers[i].phase.Exchange? ==> s.callers[i].phase.c != s.callers[i].u)
  }

  /** What holds of a system that began with `value`. */
  predicate Linearized(value: Word, s: System) {
    && Sequential(value, s.log) && s.value == Replay(value, s.log) && Once(s.log)
    && (forall n :: 0 <= n < |s.log| ==> EntryOk(s, s.log[n]))
    && (forall i :: 0 <= i < |s.callers| ==> CallerOk(s, i))
  }

  lemma Append(value: Word, log: seq<Entry>, e: Entry)
    requires Sequential(value, log) && e.found == Replay(value, log)
    ensures Sequential(value, log + [e]) && Replay(value, log + [e]) == Effect(Replay(value, log), e.a, e.u)
  {
    assert (log + [e])[..|log|] == log;
  }

  /** A step that puts caller `i` into the log for the first time. */
  lemma EffectStep(value: Word, s: System, i: nat, k: Caller, e: Entry)
    requires Linearized(value, s) && i < |s.callers| && !Effective(s.callers[i])
    requires e == Entry(i, k.a, k.u, s.value) && Effective(k) && k.phase.c == s.value
    ensures Linearized(value, System(Effect(s.value, e.a, e.u), s.callers[i := k], s.log + [e]))
  {
    var s' := System(Effect(s.value, e.a, e.u), s.callers[i := k], s.log + [e]);
    Append(value, s.log, e);
    forall n | 0 <= n < |s'.log| ensures EntryOk(s', s'.log[n]) {
      if n < |s.log| {
        assert EntryOk(s, s.log[n]);
      }
    }
    forall j | 0 <= j < |s'.callers| ensures CallerOk(s', j) {
      assert CallerOk(s, j);
      if j == i {
        assert s'.log[|s.log|].caller == i;
      } else if Effective(s.callers[j]) {
        var n :| 0 <= n < |s.log| && s.log[n].caller == j;
        assert s'.log[n].caller == j;
      }
    }
    assert Once(s'.log) by {
      forall m, n | 0 <= m < n < |s'.log| ensures s'.log[m].caller != s'.log[n].caller {
        assert EntryOk(s, s.log[m]);
      }
    }
  }

  /** A step that changes nothing but the phase of one caller, and not whether it has taken effect. */
  lemma QuietStep(value: Word, s: System, i: nat, k: Caller)
    requires Linearized(value, s) && i < |s.callers| && k.a == s.callers[i].a && k.u == s.callers[i].u
    requires Effective(k) == Effective(s.callers[i]) && (Effective(k) ==> k.phase.c == s.callers[i].phase.c)
    requires k.phase.Exchange? ==> k.phase.c != k.u
    ensures Linearized(value, s.(callers := s.callers[i := k]))
  {
    var s' := s.(callers := s.callers[i := k]);
    forall n | 0 <= n < |s'.log| ensures EntryOk(s', s'.log[n]) {
      assert EntryOk(s, s.log[n]);
    }
    forall j | 0 <= j < |s'.callers| ensures CallerOk(s', j) {
      assert CallerOk(s, j);
    }
  }

  lemma ReadStep(value: Word, s: System, i: nat, fails: nat)
    requires Linearized(value, s) && i < |s.callers| && !Effective(s.callers[i])
    ensures Linearized(value, Read(s, i, fails))
  {
    hide Linearized;
    var k := s.callers[i];
    var k' := k.(phase := Test(s.value), fails := fails);
    if s.value == k.u {
      EffectStep(value, s, i, k', Entry(i, k.a, k.u, s.value));
    } else {
      QuietStep(value, s, i, k');
    }
  }

  lemma StepLinearized(value: Word, s: System, i: nat)
    requires Linearized(value, s) && i < |s.callers|
    ensures Linearized(value, Step(s, i))
  {
    var k := s.callers[i];
    assert CallerOk(s, i);
    hide Linearized;
    match k.phase {
      case Begin => ReadStep(value, s, i, k.fails);
      case Test(c) => QuietStep(value, s, i, k.(phase := if c == k.u then Done(c) else Exchange(c)));
      case Exchange(c) =>
        if s.value != c {
          ReadStep(value, s, i, k.fails + 1);
        } else {
          EffectStep(value, s, i, k.(phase := Done(c)), Entry(i, k.a, k.u, c));
        }
      case Done(c) =>
    }
  }

  /** In every run of every set of callers the calls take effect one at a time, as if one after another. */
  lemma {:induction false} RunLinearized(s: System, schedule: seq<nat>)
    requires Initial(s)
    ensures Linearized(s.value, Run(s, schedule))
  {
    if schedule == [] {
      assert forall i :: 0 <= i < |s.callers| ==> CallerOk(s, i);
    } else {
      var i := schedule[|schedule| - 1];
      RunLinearized(s, schedule[..|schedule| - 1]);
      var before := Run(s, schedule[..|schedule| - 1]);
      hide Linearized, Step;
      if i < |before.callers| {
        StepLinearized(s.value, before, i);
      }
    }
  }

  // ---------------------------------------------------------------- results and order

  /** A finished call is in the log exactly once, with the value it returns. */
  lemma FinishedCall(s: System, schedule: seq<nat>, i: nat) returns (n: nat)
    requires Initial(s) && i < |Run(s, schedule).callers| && Run(s, schedule).callers[i].phase.Done?
    ensures var r := Run(s, schedule); var k := r.callers[i];
      && n < |r.log| && r.log[n] == Entry(i, k.a, k.u, k.phase.c)
      && k.phase.c == Replay(s.value, r.log[..n])
      && forall m :: 0 <= m < |r.log| && r.log[m].caller == i ==> m == n
  {
    RunLinearized(s, schedule);
    var r := Run(s, schedule);
    hide Run;
    assert CallerOk(r, i);
    n :| 0 <= n < |r.log| && r.log[n].caller == i;
    assert EntryOk(r, r.log[n]);
    FoundInOrder(s.value, r.log, n);
  }

  lemma {:induction false} FoundInOrder(value: Word, log: seq<Entry>, n: nat)
    requires Sequential(value, log) && n < |log|
    ensures log[n].found == Replay(value, log[..n])
  {
    var last := |log| - 1;
    if n < last {
      FoundInOrder(value, log[..last], n);
      assert log[..last][..n] == log[..n];
    }
  }

  lemma StepLog(s: System, i: nat)
    requires i < |s.callers|
    ensures s.log <= Step(s, i).log && |Step(s, i).callers| == |s.callers|
  {}

  /** The log only grows: what takes effect in a longer run takes effect after what did in a shorter one. */
  lemma {:induction false} LogGrows(s: System, first: seq<nat>, more: seq<nat>)
    ensures Run(s, first).log <= Run(s, first + more).log
    ensures |Run(s, first).callers| == |Run(s, first + more).callers|
  {
    if more == [] {
      assert first + more == first;
    } else {
      var rest, i := more[..|more| - 1], more[|more| - 1];
      LogGrows(s, first, rest);
      assert (first + more)[..|first + more| - 1] == first + rest;
      hide Step;
      if i < |Run(s, first + rest).callers| {
        StepLog(Run(s, first + rest), i);
      }
    }
  }

  /** A call that is finished before another one begins takes effect before it. */
  lemma RealTimeOrder(s: System, first: seq<nat>, more: seq<nat>, i: nat, j: nat) returns (m: nat, n: nat)
    requires Initial(s) && i < |Run(s, first).callers| && j < |Run(s, first).callers|
    requires Run(s, first).callers[i].phase.Done? && Run(s, first).callers[j].phase.Begin?
    requires j < |Run(s, first + more).callers| && Run(s, first + more).callers[j].phase.Done?
    ensures var log := Run(s, first + more).log;
      m < n < |log| && log[m].caller == i && log[n].caller == j
  {
    m := FinishedCall(s, first, i);
    n := FinishedCall(s, first + more, j);
    LogGrows(s, first, more);
    RunLinearized(s, first);
    var r := Run(s, first);
    assert forall q :: 0 <= q < |r.log| ==> EntryOk(r, r.log[q]);
  }

  // ---------------------------------------------------------------- the value

  /** A call whose guard is the present value does not change it. */
  lemma GuardedStep(value: Word, s: System, i: nat)
    requires Linearized(value, s) && i < |s.callers| && s.value == s.callers[i].u
    ensures Step(s, i).value == s.value
  {
    assert CallerOk(s, i);
  }

  predicate AllGuard(s: System, u: Word) {
    forall i :: 0 <= i < |s.callers| ==> s.callers[i].u == u
  }

  lemma StepKeepsGuards(s: System, i: nat, u: Word)
    requires i < |s.callers| && AllGuard(s, u)
    ensures AllGuard(Step(s, i), u)
  {}

  /** Once the value is the one all calls are guarded by, it stays: `inc_not_zero` never revives a zero. */
  lemma {:induction false} ZeroStays(s: System, first: seq<nat>, more: seq<nat>, u: Word)
    requires Initial(s) && AllGuard(s, u) && Run(s, first).value == u
    ensures Run(s, first + more).value == u && AllGuard(Run(s, first + more), u)
  {
    RunGuards(s, first + more, u);
    if more == [] {
      assert first + more == first;
    } else {
      var rest, i := more[..|more| - 1], more[|more| - 1];
      ZeroStays(s, first, rest, u);
      assert (first + more)[..|first + more| - 1] == first + rest;
      RunLinearized(s, first + rest);
      hide Step, Linearized;
      if i < |Run(s, first + rest).callers| {
        GuardedStep(s.value, Run(s, first + rest), i);
      }
    }
  }

  lemma {:induction false} RunGuards(s: System, schedule: seq<nat>, u: Word)
    requires AllGuard(s, u)
    ensures AllGuard(Run(s, schedule), u)
  {
    if schedule != [] {
      var i := schedule[|schedule| - 1];
      RunGuards(s, schedule[..|schedule| - 1], u);
      if i < |Run(s, schedule[..|schedule| - 1]).callers| {
        StepKeepsGuards(Run(s, schedule[..|schedule| - 1]), i, u);
      }
    }
  }

  /** A call that returned something else than its guard has added. */
  predicate Added(k: Caller) {
    k.phase.Done? && k.phase.c != k.u
  }

  function SumAdded(callers: seq<Caller>): nat {
    if callers == [] then 0
    else SumAdded(callers[..|callers| - 1]) + if Added(callers[|callers| - 1]) then callers[|callers| - 1].a else 0
  }

  function Successes(callers: seq<Caller>): (n: nat)
    ensures n <= |callers|
  {
    if callers == [] then 0
    else Successes(callers[..|callers| - 1]) + if Added(callers[|callers| - 1]) then 1 else 0
  }

  /** Replacing one caller changes the sums by what it contributes. */
  lemma {:induction false} Contribution(callers: seq<Caller>, i: nat, k: Caller)
    requires i < |callers|
    ensures SumAdded(callers[i := k]) - (if Added(k) then k.a else 0)
         == SumAdded(callers) - (if Added(callers[i]) then callers[i].a else 0)
    ensures Successes(callers[i := k]) - (if Added(k) then 1 else 0)
         == Successes(callers) - (if Added(callers[i]) then 1 else 0)
  {
    var last := |callers| - 1;
    if i == last {
      assert callers[i := k][..last] == callers[..last];
    } else {
      Contribution(callers[..last], i, k);
      assert callers[i := k][..last] == callers[..last][i := k];
    }
  }

  lemma PlusPlus(x: nat, y: nat, z: nat)
    ensures Plus(Plus(x, y), z) == Plus(x, y + z)
  {}

  /** How often a call may have failed: each time, another one has succeeded since it last read the value. */
  predicate FailsOk(s: System, i: nat)
    requires i < |s.callers|
  {
    var k, n := s.callers[i], Successes(s.callers);
    match k.phase
    case Begin => k.fails == 0
    case Test(c) => k.fails + (if c != s.value then 1 else 0) <= n
    case Exchange(c) => k.fails + (if c != s.value then 1 else 0) <= n
    case Done(c) => k.fails + (if c != k.u then 1 else 0) <= n
  }

  /** Conservation, and the bound on failures. */
  predicate Accounted(value: Word, s: System) {
    s.value == Plus(value, SumAdded(s.callers)) && forall i :: 0 <= i < |s.callers| ==> FailsOk(s, i)
  }

  lemma StepAccounted(value: Word, s: System, i: nat)
    requires Linearized(value, s) && Accounted(value, s) && i < |s.callers|
    ensures Accounted(value, Step(s, i))
  {
    var k, s' := s.callers[i], Step(s, i);
    assert CallerOk(s, i) && FailsOk(s, i);
    hide Linearized;
    Contribution(s.callers, i, s'.callers[i]);
    assert s'.callers == s.callers[i := s'.callers[i]];
    PlusPlus(value, SumAdded(s.callers), k.a);
    hide SumAdded, Successes, Plus;
    assert FailsOk(s', i);
    forall j | 0 <= j < |s'.callers| ensures FailsOk(s', j) {
      if j != i {
        OthersFail(s, s', j);
      }
    }
  }

  /** A change of value is a success, which allows everybody else one more failure. */
  lemma OthersFail(s: System, s': System, j: nat)
    requires j < |s.callers| == |s'.callers| && s'.callers[j] == s.callers[j] && FailsOk(s, j)
    requires Successes(s'.callers) >= Successes(s.callers) + if s'.value != s.value then 1 else 0
    ensures FailsOk(s', j)
  {
    hide Successes;
  }

  lemma {:induction false} NothingAdded(callers: seq<Caller>)
    requires forall i :: 0 <= i < |callers| ==> callers[i].phase == Begin
    ensures SumAdded(callers) == 0 && Successes(callers) == 0
  {
    if callers != [] {
      NothingAdded(callers[..|callers| - 1]);
    }
  }

  /**
   * In every run the value is the initial one plus what the successful calls have added, each once; and a
   * call fails at most as often as other calls succeed.
   */
  lemma {:induction false} RunAccounted(s: System, schedule: seq<nat>)
    requires Initial(s)
    ensures Accounted(s.value, Run(s, schedule))
  {
    if schedule == [] {
      NothingAdded(s.callers);
    } else {
      var i := schedule[|schedule| - 1];
      RunAccounted(s, schedule[..|schedule| - 1]);
      RunLinearized(s, schedule[..|schedule| - 1]);
      var before := Run(s, schedule[..|schedule| - 1]);
      hide Linearized, Accounted, Step;
      if i < |before.callers| {
        StepAccounted(s.value, before, i);
      }
    }
  }

  // ---------------------------------------------------------------- progress

  function Count(schedule: seq<nat>, i: nat): nat {
    if schedule == [] then 0
    else Count(schedule[..|schedule| - 1], i) + if schedule[|schedule| - 1] == i then 1 else 0
  }

  /** How many steps an unfinished call has taken. */
  function Taken(k: Caller): nat {
    match k.phase
    case Begin => 2 * k.fails
    case Test(c) => 1 + 2 * k.fails
    case Exchange(c) => 2 + 2 * k.fails
    case Done(c) => 0
  }

  lemma {:induction false} StepsTaken(s: System, schedule: seq<nat>, i: nat)
    requires Initial(s) && i < |s.callers|
    ensures |Run(s, schedule).callers| == |s.callers|
    ensures var k := Run(s, schedule).callers[i]; k.phase.Done? || Taken(k) == Count(schedule, i)
  {
    if schedule != [] {
      var before := Run(s, schedule[..|schedule| - 1]);
      StepsTaken(s, schedule[..|schedule| - 1], i);
      hide Step;
      if schedule[|schedule| - 1] < |before.callers| {
        OneStepTaken(before, schedule[|schedule| - 1], i);
      }
    }
  }

  lemma OneStepTaken(s: System, j: nat, i: nat)
    requires i < |s.callers| && j < |s.callers|
    ensures |Step(s, j).callers| == |s.callers|
    ensures j != i ==> Step(s, j).callers[i] == s.callers[i]
    ensures var k := Step(s, i).callers[i]; k.phase.Done? || Taken(k) == Taken(s.callers[i]) + 1
    ensures s.callers[i].phase.Done? ==> Step(s, i).callers[i].phase.Done?
  {}

  lemma {:induction false} SomeoneElse(callers: seq<Caller>, i: nat)
    requires i < |callers| && !Added(callers[i])
    ensures Successes(callers) < |callers|
  {
    var last := |callers| - 1;
    if i < last {
      SomeoneElse(callers[..last], i);
    }
  }

  /**
   * Every call is finished after a number of its own steps that depends on nothing but how many calls there are in
   * the system, whatever the schedule.
   */
  lemma BoundedRetries(s: System, schedule: seq<nat>, i: nat)
    requires Initial(s) && i < |s.callers| && Count(schedule, i) > 2 * |s.callers|
    ensures i < |Run(s, schedule).callers| && Run(s, schedule).callers[i].phase.Done?
  {
    StepsTaken(s, schedule, i);
    RunAccounted(s, schedule);
    var r := Run(s, schedule);
    if !r.callers[i].phase.Done? {
      assert FailsOk(r, i);
      SomeoneElse(r.callers, i);
    }
  }
}
