/**
 * Runs of the cycle accounts of perf_counter.c. A history of events alone says which agents are registered,
 * which accounts are enabled, and what every account must hold; the code is proved to keep to it over every run.
 */
module TaskAccounts {
  import opened TaskCycles

  datatype Event =
    | Prepare(info: Info)
    | SetEnabled(info: Info, on: bool)
    | Register(task: Task, agent: Agent, info: Info)
    | Unregister(agent: Agent)
    | SwitchIn(task: Task, now: int)
    | SwitchOut(task: Task, now: int)

  /** The tasks, agents and accounts that take part, and the calibrated cost of a reading. */
  datatype World = World(tasks: set<Task>, agents: set<Agent>, infos: set<Info>, offset: int)

  ghost predicate Valid(w: World) {
    && (forall t :: t in w.tasks ==> t.own in w.infos && t.root !in w.agents)
    && (forall t, u :: t in w.tasks && u in w.tasks && t != u ==> t.root != u.root)
  }

  // ---------------------------------------------------------------- what a history says

  /** The agents of a task, the last one registered first. */
  function Behind(h: seq<Event>, t: Task): seq<Entry> {
    if h == [] then [] else
    var before, e := Behind(h[..|h| - 1], t), h[|h| - 1];
    if e.Register? && e.task == t then [Entry(e.agent, e.info)] + before else
    if e.Unregister? then Dropped(before, e.agent) else before
  }

  /** Whether an account is enabled. */
  function On(h: seq<Event>, x: Info): bool {
    if h == [] then false else
    var e := h[|h| - 1];
    if e.Prepare? && e.info == x then true else
    if e.SetEnabled? && e.info == x then e.on else On(h[..|h| - 1], x)
  }

  /** When a task was last switched to. */
  function Since(h: seq<Event>, t: Task): int {
    if h == [] then 0 else
    var e := h[|h| - 1];
    if e.SwitchIn? && e.task == t then e.now else Since(h[..|h| - 1], t)
  }

  /** How often the account gets a slice of the task that ends, or begins, now. */
  function Due(h: seq<Event>, t: Task, x: Info): nat {
    Shares(t.own, Behind(h, t), x, On(h, x))
  }

  /** The cycles of all slices that an account got since it was prepared. */
  function Total(h: seq<Event>, x: Info, offset: int): int {
    if h == [] then 0 else
    var front, e := h[..|h| - 1], h[|h| - 1];
    if e.Prepare? && e.info == x then 0 else
    Total(front, x, offset) +
    if e.SwitchOut? then Times(Due(front, e.task, x), e.now - Since(front, e.task) - offset) else 0
  }

  /** The slices that an account got since it was prepared, by their beginnings. */
  function Activations(h: seq<Event>, x: Info): nat {
    if h == [] then 0 else
    var front, e := h[..|h| - 1], h[|h| - 1];
    if e.Prepare? && e.info == x then 0 else
    Activations(front, x) + if e.SwitchIn? then Due(front, e.task, x) else 0
  }

  // ---------------------------------------------------------------- which histories are allowed

  ghost predicate InWorld(e: Event, w: World) {
    match e
    case Prepare(x) => x in w.infos
    case SetEnabled(x, _) => x in w.infos
    case Register(t, a, x) => t in w.tasks && a in w.agents && x in w.infos
    case Unregister(a) => a in w.agents
    case SwitchIn(t, _) => t in w.tasks
    case SwitchOut(t, _) => t in w.tasks
  }

  ghost predicate Free(h: seq<Event>, a: Agent, w: World) {
    forall t, y :: t in w.tasks && y in Behind(h, t) ==> y.agent != a
  }

  /** An agent may be registered only while it is in no list. */
  ghost predicate Allowed(h: seq<Event>, e: Event, w: World) {
    InWorld(e, w) && (e.Register? ==> Free(h, e.agent, w))
  }

  ghost predicate Proper(h: seq<Event>, w: World) {
    forall k :: 0 <= k < |h| ==> Allowed(h[..k], h[k], w)
  }

  // ---------------------------------------------------------------- the lists of a history

  ghost predicate Inside(entries: seq<Entry>, w: World) {
    forall y :: y in entries ==> y.agent in w.agents && y.info in w.infos
  }

  /** No agent is in two lists, or twice in one. */
  ghost predicate Sound(h: seq<Event>, w: World) {
    && (forall t :: t in w.tasks ==> Distinct(Behind(h, t)) && Inside(Behind(h, t), w))
    && (forall t, u, y, z :: t in w.tasks && u in w.tasks && t != u && y in Behind(h, t) && z in Behind(h, u) ==>
          y.agent != z.agent)
  }

  lemma Append(h: seq<Event>, e: Event)
    ensures (h + [e])[..|h|] == h && (h + [e])[|h|] == e
  {}

  /** What is left after dropping an agent: every entry of the others. */
  lemma {:induction false} DroppedKeeps(entries: seq<Entry>, a: Agent, y: Entry)
    requires Distinct(entries)
    ensures y in Dropped(entries, a) <==> y in entries && y.agent != a
  {
    if entries != [] {
      var rest := entries[1..];
      assert entries == [entries[0]] + rest;
      if entries[0].agent != a {
        DroppedKeeps(rest, a, y);
      } else if y in rest {
        var i :| 0 <= i < |rest| && rest[i] == y;
        assert entries[i + 1] == y && entries[0].agent != entries[i + 1].agent;
      }
    }
  }

  lemma {:induction false} DroppedDistinct(entries: seq<Entry>, a: Agent)
    requires Distinct(entries)
    ensures Distinct(Dropped(entries, a))
  {
    if entries != [] && entries[0].agent != a {
      var rest := entries[1..];
      DroppedDistinct(rest, a);
      forall i | 0 <= i < |Dropped(rest, a)| ensures Dropped(rest, a)[i].agent != entries[0].agent {
        var y := Dropped(rest, a)[i];
        DroppedKeeps(rest, a, y);
        var j :| 0 <= j < |rest| && rest[j] == y;
        assert entries[j + 1] == y;
      }
    }
  }

  /** The entries of one task after an event. */
  lemma BehindNext(h: seq<Event>, e: Event, t: Task, y: Entry)
    requires Distinct(Behind(h, t))
    ensures y in Behind(h + [e], t) <==>
            || (e.Register? && e.task == t && y == Entry(e.agent, e.info))
            || (y in Behind(h, t) && !(e.Unregister? && e.agent == y.agent))
  {
    Append(h, e);
    if e.Unregister? {
      DroppedKeeps(Behind(h, t), e.agent, y);
    }
  }

  lemma DistinctNext(h: seq<Event>, e: Event, t: Task, w: World)
    requires t in w.tasks && Sound(h, w) && Allowed(h, e, w)
    ensures Distinct(Behind(h + [e], t))
  {
    Append(h, e);
    if e.Unregister? {
      DroppedDistinct(Behind(h, t), e.agent);
    } else if e.Register? && e.task == t {
      assert forall i :: 0 <= i < |Behind(h, t)| ==> Behind(h, t)[i] in Behind(h, t);
    }
  }

  lemma SoundNext(h: seq<Event>, e: Event, w: World)
    requires Sound(h, w) && Allowed(h, e, w)
    ensures Sound(h + [e], w)
  {
    hide Behind, Dropped, Distinct;
    var longer := h + [e];
    forall t | t in w.tasks ensures Distinct(Behind(longer, t)) && Inside(Behind(longer, t), w) {
      DistinctNext(h, e, t, w);
      forall y | y in Behind(longer, t) ensures y.agent in w.agents && y.info in w.infos {
        BehindNext(h, e, t, y);
      }
    }
    forall t, u, y, z | t in w.tasks && u in w.tasks && t != u && y in Behind(longer, t) && z in Behind(longer, u)
      ensures y.agent != z.agent
    {
      BehindNext(h, e, t, y);
      BehindNext(h, e, u, z);
    }
  }

  lemma ProperFront(h: seq<Event>, w: World)
    requires Proper(h, w) && h != []
    ensures Proper(h[..|h| - 1], w) && Allowed(h[..|h| - 1], h[|h| - 1], w)
    ensures h[..|h| - 1] + [h[|h| - 1]] == h
  {
    var front := h[..|h| - 1];
    assert forall k :: 0 <= k < |front| ==> front[..k] == h[..k] && front[k] == h[k];
  }

  lemma {:induction false} AlwaysSound(h: seq<Event>, w: World)
    requires Proper(h, w)
    ensures Sound(h, w)
  {
    if h != [] {
      ProperFront(h, w);
      AlwaysSound(h[..|h| - 1], w);
      SoundNext(h[..|h| - 1], h[|h| - 1], w);
    }
  }

  /** The agent was registered behind the task with this account, and has not been unregistered since. */
  ghost predicate Registered(h: seq<Event>, t: Task, y: Entry) {
    exists i :: 0 <= i < |h| && h[i] == Register(t, y.agent, y.info) && !(Unregister(y.agent) in h[i..])
  }

  lemma RegisteredNext(h: seq<Event>, e: Event, t: Task, y: Entry)
    ensures Registered(h + [e], t, y) <==>
            || e == Register(t, y.agent, y.info)
            || (Registered(h, t, y) && e != Unregister(y.agent))
  {
    var longer := h + [e];
    assert forall i :: 0 <= i < |h| ==> longer[i..] == h[i..] + [e] && longer[i] == h[i];
    assert longer[|h|..] == [e];
    if Registered(h, t, y) && e != Unregister(y.agent) {
      var i :| 0 <= i < |h| && h[i] == Register(t, y.agent, y.info) && !(Unregister(y.agent) in h[i..]);
      assert longer[i] == Register(t, y.agent, y.info) && !(Unregister(y.agent) in longer[i..]);
    }
    if e == Register(t, y.agent, y.info) {
      assert longer[|h|] == Register(t, y.agent, y.info);
    }
  }

  /** The lists hold exactly the agents that are registered. */
  lemma {:induction false} BehindExactly(h: seq<Event>, t: Task, y: Entry, w: World)
    requires Proper(h, w) && t in w.tasks
    ensures y in Behind(h, t) <==> Registered(h, t, y)
  {
    if h != [] {
      var front, e := h[..|h| - 1], h[|h| - 1];
      ProperFront(h, w);
      AlwaysSound(front, w);
      BehindExactly(front, t, y, w);
      BehindNext(front, e, t, y);
      RegisteredNext(front, e, t, y);
    }
  }

  /** The account was last switched on, not off. */
  ghost predicate IsOn(h: seq<Event>, x: Info) {
    exists i :: 0 <= i < |h| && (h[i] == Prepare(x) || h[i] == SetEnabled(x, true)) && SetEnabled(x, false) !in h[i..]
  }

  lemma {:induction false} OnExactly(h: seq<Event>, x: Info)
    ensures On(h, x) <==> IsOn(h, x)
  {
    if h != [] {
      var front, e := h[..|h| - 1], h[|h| - 1];
      OnExactly(front, x);
      assert forall i :: 0 <= i < |front| ==> h[i..] == front[i..] + [e] && front[i] == h[i];
      assert h[|front|..] == [e];
    }
  }

  /** The registrations of an account behind a task that have not been undone. */
  ghost predicate Live(h: seq<Event>, i: nat, t: Task, x: Info)
    requires i < |h|
  {
    h[i].Register? && h[i].task == t && h[i].info == x && Unregister(h[i].agent) !in h[i..]
  }

  ghost function LiveSet(h: seq<Event>, t: Task, x: Info): set<nat> {
    set i: nat | i < |h| && Live(h, i, t, x)
  }

  lemma {:induction false} CountCons(e: Entry, entries: seq<Entry>, x: Info)
    ensures Count([e] + entries, x) == Count(entries, x) + if e.info == x then 1 else 0
  {
    if entries == [] {
      assert [e] + entries == [e];
      assert Count([e][..0], x) == 0;
    } else {
      var front := entries[..|entries| - 1];
      CountCons(e, front, x);
      assert ([e] + entries)[..|entries|] == [e] + front;
    }
  }

  lemma {:induction false} CountDropped(entries: seq<Entry>, a: Agent, x: Info)
    requires Distinct(entries)
    ensures Count(entries, x) == Count(Dropped(entries, a), x) + if Entry(a, x) in entries then 1 else 0
  {
    if entries != [] {
      var rest := entries[1..];
      assert entries == [entries[0]] + rest;
      CountCons(entries[0], rest, x);
      if entries[0].agent == a {
        assert forall y :: y in rest ==> y.agent != a;
      } else {
        CountDropped(rest, a, x);
        CountCons(entries[0], Dropped(rest, a), x);
      }
    }
  }

  /** An agent has at most one live registration. */
  lemma LiveOnce(h: seq<Event>, t: Task, x: Info, i: nat, j: nat, w: World)
    requires Proper(h, w) && t in w.tasks
    requires i < |h| && j < |h| && Live(h, i, t, x) && Live(h, j, t, x) && h[i].agent == h[j].agent
    ensures i == j
  {
    if i < j {
      LiveTwice(h, t, x, i, j, w);
    } else if j < i {
      LiveTwice(h, t, x, j, i, w);
    }
  }

  lemma LiveTwice(h: seq<Event>, t: Task, x: Info, i: nat, j: nat, w: World)
    requires Proper(h, w) && t in w.tasks
    requires i < j < |h| && Live(h, i, t, x) && Live(h, j, t, x)
    ensures h[i].agent != h[j].agent
  {
    var before := h[..j];
    assert forall k :: 0 <= k < j ==> before[..k] == h[..k] && before[k] == h[k];
    assert Proper(before, w) && Allowed(before, h[j], w);
    var y := Entry(h[i].agent, x);
    assert forall e :: e in before[i..] ==> e in h[i..];
    assert before[i] == Register(t, y.agent, y.info);
    BehindExactly(before, t, y, w);
  }

  lemma LiveNext(h: seq<Event>, e: Event, t: Task, x: Info)
    ensures e.Register? && e.task == t && e.info == x ==> LiveSet(h + [e], t, x) == LiveSet(h, t, x) + {|h|}
    ensures e.Unregister? ==>
      LiveSet(h + [e], t, x) == LiveSet(h, t, x) - set i: nat | i < |h| && Live(h, i, t, x) && h[i].agent == e.agent
    ensures !e.Unregister? && !(e.Register? && e.task == t && e.info == x) ==>
      LiveSet(h + [e], t, x) == LiveSet(h, t, x)
  {
    var longer := h + [e];
    forall i: nat | i < |h| ensures Live(longer, i, t, x) <==> Live(h, i, t, x) && e != Unregister(h[i].agent) {
      assert longer[i] == h[i] && longer[i..] == h[i..] + [e];
    }
    assert longer[|h|] == e && longer[|h|..] == [e];
  }

  /** Unregistering an agent ends its registration, if it has one. */
  lemma LiveGone(h: seq<Event>, a: Agent, t: Task, x: Info, w: World)
    requires Proper(h, w) && t in w.tasks
    ensures |LiveSet(h, t, x)| ==
            |LiveSet(h + [Unregister(a)], t, x)| + if Entry(a, x) in Behind(h, t) then 1 else 0
  {
    hide Behind, Proper;
    LiveNext(h, Unregister(a), t, x);
    BehindExactly(h, t, Entry(a, x), w);
    var gone := set i: nat | i < |h| && Live(h, i, t, x) && h[i].agent == a;
    if Registered(h, t, Entry(a, x)) {
      var i: nat :| i < |h| && h[i] == Register(t, a, x) && !(Unregister(a) in h[i..]);
      forall j: nat | j in gone ensures j == i {
        LiveOnce(h, t, x, i, j, w);
      }
      assert gone == {i};
    } else {
      forall i: nat | i < |h| && Live(h, i, t, x) ensures h[i].agent != a {
        assert h[i] == Register(t, h[i].agent, x);
      }
      assert gone == {};
    }
  }

  /** A list names an account as often as there are live registrations of it. */
  lemma {:induction false} CountLive(h: seq<Event>, t: Task, x: Info, w: World)
    requires Proper(h, w) && t in w.tasks
    ensures Count(Behind(h, t), x) == |LiveSet(h, t, x)|
  {
    if h != [] {
      var front, e := h[..|h| - 1], h[|h| - 1];
      ProperFront(h, w);
      AlwaysSound(front, w);
      CountLive(front, t, x, w);
      LiveNext(front, e, t, x);
      if e.Register? && e.task == t {
        CountCons(Entry(e.agent, e.info), Behind(front, t), x);
      } else if e.Unregister? {
        CountDropped(Behind(front, t), e.agent, x);
        LiveGone(front, e.agent, t, x, w);
      }
    }
  }

  /**
   * An account gets a slice of its own task once, and a slice of any task once for each live registration
   * behind that task if it is enabled.
   */
  lemma DueExactly(h: seq<Event>, t: Task, x: Info, w: World)
    requires Proper(h, w) && t in w.tasks
    ensures Due(h, t, x) == (if x == t.own then 1 else 0) + if IsOn(h, x) then |LiveSet(h, t, x)| else 0
  {
    OnExactly(h, x);
    CountLive(h, t, x, w);
  }

  // ---------------------------------------------------------------- the code keeps to it

  function Roots(w: World): set<Agent> {
    set t | t in w.tasks :: t.root
  }

  lemma NodesInside(t: Task, entries: seq<Entry>, w: World)
    requires t in w.tasks && Inside(entries, w)
    ensures forall a :: a in Nodes(t.root, entries) ==> a in w.agents + Roots(w)
  {
    assert forall i :: 0 <= i < |entries| ==> entries[i] in entries;
  }

  /** The list of a task is as the history says. */
  ghost predicate ListAgrees(t: Task, h: seq<Event>, w: World)
    requires t in w.tasks && Inside(Behind(h, t), w)
    reads t`agentsValid, w.agents, Roots(w)
  {
    NodesInside(t, Behind(h, t), w);
    t.Follows(Behind(h, t))
  }

  ghost predicate ListsAgree(h: seq<Event>, w: World)
    reads w.tasks`agentsValid, w.agents, Roots(w)
  {
    && Sound(h, w)
    && (forall t :: t in w.tasks ==> ListAgrees(t, h, w))
    && (forall a :: a in w.agents && Free(h, a, w) ==> a.prev == null)
  }

  ghost predicate ClocksAgree(h: seq<Event>, w: World)
    reads w.tasks`lastTimestamp
  {
    forall t :: t in w.tasks ==> t.lastTimestamp == Since(h, t)
  }

  /** An account is as the history says. */
  ghost predicate AccountAgrees(x: Info, h: seq<Event>, w: World)
    reads x
  {
    && x.enabled == On(h, x)
    && x.usedTotal == Total(h, x, w.offset)
    && x.activeCount == Counted(0, Activations(h, x))
  }

  ghost predicate AccountsAgree(h: seq<Event>, w: World)
    reads w.infos
  {
    forall x :: x in w.infos ==> AccountAgrees(x, h, w)
  }

  /** All tasks, agents and accounts are as the history says. */
  ghost predicate Agrees(h: seq<Event>, w: World)
    reads w.tasks, w.agents, w.infos, Roots(w)
  {
    Valid(w) && ListsAgree(h, w) && ClocksAgree(h, w) && AccountsAgree(h, w)
  }

  predicate ListEvent(e: Event) {
    e.Register? || e.Unregister?
  }

  lemma ListsStay(h: seq<Event>, e: Event, w: World)
    requires ListsAgree(h, w) && Allowed(h, e, w) && !ListEvent(e)
    ensures ListsAgree(h + [e], w)
    ensures forall t :: t in w.tasks ==> Behind(h + [e], t) == Behind(h, t)
  {
    Append(h, e);
    SoundNext(h, e, w);
    hide Sound, Inside;
    assert forall t :: Behind(h + [e], t) == Behind(h, t);
    assert forall t :: t in w.tasks && ListAgrees(t, h, w) ==> Behind(h + [e], t) == Behind(h, t);
  }

  lemma ClocksStay(h: seq<Event>, e: Event, w: World)
    requires ClocksAgree(h, w) && !e.SwitchIn?
    ensures ClocksAgree(h + [e], w)
  {
    Append(h, e);
  }

  lemma AccountsStay(h: seq<Event>, e: Event, w: World)
    requires AccountsAgree(h, w) && ListEvent(e)
    ensures AccountsAgree(h + [e], w)
  {
    Append(h, e);
    forall x | x in w.infos ensures AccountAgrees(x, h + [e], w) {
      assert AccountAgrees(x, h, w);
    }
  }

  lemma NextAccount(h: seq<Event>, e: Event, x: Info, w: World)
    requires !e.Prepare? || e.info != x
    ensures On(h + [e], x) == if e.SetEnabled? && e.info == x then e.on else On(h, x)
    ensures Total(h + [e], x, w.offset) == Total(h, x, w.offset) +
            if e.SwitchOut? then Times(Due(h, e.task, x), e.now - Since(h, e.task) - w.offset) else 0
    ensures Activations(h + [e], x) == Activations(h, x) + if e.SwitchIn? then Due(h, e.task, x) else 0
  {
    Append(h, e);
  }

  lemma PreparedAccount(h: seq<Event>, x: Info, w: World)
    ensures On(h + [Prepare(x)], x)
    ensures Total(h + [Prepare(x)], x, w.offset) == 0 && Activations(h + [Prepare(x)], x) == 0
  {
    Append(h, Prepare(x));
  }

  method SetAccount(e: Event, w: World, ghost h: seq<Event>)
    requires Agrees(h, w) && Allowed(h, e, w) && (e.Prepare? || e.SetEnabled?)
    modifies e.info
    ensures Agrees(h + [e], w)
  {
    hide Behind, On, Since, Total, Activations, Sound, Valid, ListsAgree;
    match e {
      case Prepare(x) =>
        x.Prepare();
        PreparedAccount(h, x, w);
      case SetEnabled(x, on) =>
        if on {
          var _ := x.Enable();
        } else {
          var _ := x.Disable();
        }
        NextAccount(h, e, x, w);
    }
    assert forall a: Agent :: a in w.agents + Roots(w) ==> unchanged(a);
    ListsStay(h, e, w);
    ClocksStay(h, e, w);
    forall x | x in w.infos && x != e.info ensures AccountAgrees(x, h + [e], w) {
      NextAccount(h, e, x, w);
    }
  }

  method BeginSlice(t: Task, now: int, w: World, ghost h: seq<Event>)
    requires Agrees(h, w) && t in w.tasks
    modifies t`lastTimestamp, w.infos`activeCount
    ensures Agrees(h + [SwitchIn(t, now)], w)
  {
    hide Behind, On, Since, Total, Activations, Sound, ListsAgree, Counted;
    ghost var e := SwitchIn(t, now);
    SwitchReady(h, t, w);
    t.SwitchIn(now, Behind(h, t), w.infos);
    assert forall a: Agent :: a in w.agents + Roots(w) ==> unchanged(a);
    ListsStay(h, e, w);
    forall u ensures Since(h + [e], u) == if u == t then now else Since(h, u) {
      NextClock(h, e, u);
    }
    forall x | x in w.infos ensures AccountAgrees(x, h + [e], w) {
      NextAccount(h, e, x, w);
      CountedSum(0, Activations(h, x), Due(h, t, x));
    }
  }

  lemma NextClock(h: seq<Event>, e: Event, t: Task)
    ensures Since(h + [e], t) == if e.SwitchIn? && e.task == t then e.now else Since(h, t)
  {
    Append(h, e);
  }

  /** What the switches ask for. */
  lemma SwitchReady(h: seq<Event>, t: Task, w: World)
    requires Agrees(h, w) && t in w.tasks
    ensures t.Follows(Behind(h, t)) && Within(Behind(h, t), w.infos) && t.own in w.infos
    ensures forall x :: x in w.infos ==> x.activeCount < ACTIVATIONS
  {
    hide Behind;
    assert ListAgrees(t, h, w);
    assert forall x :: x in w.infos ==> AccountAgrees(x, h, w);
    assert forall i :: 0 <= i < |Behind(h, t)| ==> Behind(h, t)[i] in Behind(h, t);
  }

  method EndSlice(t: Task, now: int, w: World, ghost h: seq<Event>)
    requires Agrees(h, w) && t in w.tasks
    modifies w.infos`usedRecent, w.infos`usedTotal
    ensures Agrees(h + [SwitchOut(t, now)], w)
  {
    hide Behind, On, Since, Total, Activations, Sound, ListsAgree, Counted, Times, ToInt32;
    ghost var e := SwitchOut(t, now);
    SwitchReady(h, t, w);
    var used := t.SwitchOut(now, w.offset, Behind(h, t), w.infos);
    assert forall a: Agent :: a in w.agents + Roots(w) ==> unchanged(a);
    ListsStay(h, e, w);
    ClocksStay(h, e, w);
    forall x | x in w.infos ensures AccountAgrees(x, h + [e], w) {
      NextAccount(h, e, x, w);
    }
  }

  /** The lists of two tasks have no node in common, and a free agent is in neither. */
  lemma NodesApart(h: seq<Event>, t: Task, u: Task, w: World)
    requires Valid(w) && Sound(h, w) && t in w.tasks && u in w.tasks && t != u
    ensures forall i :: 0 <= i < |Nodes(t.root, Behind(h, t))| ==>
      Nodes(t.root, Behind(h, t))[i] !in Nodes(u.root, Behind(h, u))
  {
    hide Behind;
    var mine, other := Behind(h, t), Behind(h, u);
    assert forall i :: 0 <= i < |mine| ==> mine[i] in mine;
    assert forall i :: 0 <= i < |other| ==> other[i] in other;
  }

  lemma FreeApart(h: seq<Event>, t: Task, a: Agent, w: World)
    requires Valid(w) && t in w.tasks && a in w.agents && Free(h, a, w)
    ensures a !in Nodes(t.root, Behind(h, t))
  {
    hide Behind;
    var mine := Behind(h, t);
    assert forall i :: 0 <= i < |mine| ==> mine[i] in mine;
  }

  lemma Following(h: seq<Event>, w: World)
    requires ListsAgree(h, w)
    ensures forall t :: t in w.tasks ==> t.Follows(Behind(h, t))
  {
    forall t | t in w.tasks ensures t.Follows(Behind(h, t)) {
      assert ListAgrees(t, h, w);
    }
  }

  lemma AllFollow(h: seq<Event>, w: World)
    requires Sound(h, w)
    requires forall t :: t in w.tasks ==> t.Follows(Behind(h, t))
    requires forall a :: a in w.agents && Free(h, a, w) ==> a.prev == null
    ensures ListsAgree(h, w)
  {}

  lemma FreeBefore(h: seq<Event>, e: Event, b: Agent, w: World)
    requires e.Register? && e.task in w.tasks && Free(h + [e], b, w)
    ensures b != e.agent && Free(h, b, w)
  {
    hide Behind;
    forall t | t in w.tasks
      ensures Behind(h + [e], t) == if e.task == t then [Entry(e.agent, e.info)] + Behind(h, t) else Behind(h, t)
    {
      LongerList(h, e, t);
    }
    assert Entry(e.agent, e.info) in Behind(h + [e], e.task);
  }

  method AddAgent(t: Task, a: Agent, x: Info, w: World, ghost h: seq<Event>)
    requires Agrees(h, w) && Allowed(h, Register(t, a, x), w)
    modifies t`agentsValid, a, Nodes(t.root, Behind(h, t))
    ensures Agrees(h + [Register(t, a, x)], w)
  {
    hide Behind, On, Since, Total, Activations, Sound, Counted, Nodes, Holds, ListsAgree;
    ghost var e := Register(t, a, x);
    SoundBefore(h, w);
    FreeApart(h, t, a, w);
    SoundNext(h, e, w);
    Following(h, w);
    forall b | b in w.agents && Free(h + [e], b, w)
      ensures b != a && b.prev == null && b !in Nodes(t.root, Behind(h, t))
    {
      FreeBefore(h, e, b, w);
      FreeApart(h, t, b, w);
    }
    t.Register(a, x, Behind(h, t));
    forall u | u in w.tasks ensures u.Follows(Behind(h + [e], u)) {
      LongerList(h, e, u);
      if u != t {
        NodesApart(h, u, t, w);
        FreeApart(h, u, a, w);
        ghost var mine := Behind(h, u);
        assert old(allocated(mine));
        ghost var list := Nodes(u.root, mine);
        assert forall i :: 0 <= i < |list| ==> list[i] != a && unchanged(list[i]);
      }
    }
    AllFollow(h + [e], w);
    ClocksStay(h, e, w);
    AccountsStay(h, e, w);
  }

  lemma SoundBefore(h: seq<Event>, w: World)
    requires ListsAgree(h, w)
    ensures Sound(h, w)
    ensures forall a :: a in w.agents && Free(h, a, w) ==> a.prev == null
  {}

  lemma LongerList(h: seq<Event>, e: Event, u: Task)
    requires e.Register?
    ensures Behind(h + [e], u) == if e.task == u then [Entry(e.agent, e.info)] + Behind(h, u) else Behind(h, u)
  {
    Append(h, e);
  }

  /** The list of a task when an agent goes; the lists it is not in stay. */
  lemma ShorterList(h: seq<Event>, a: Agent, u: Task)
    ensures Behind(h + [Unregister(a)], u) == Dropped(Behind(h, u), a)
    ensures a !in Agents(Behind(h, u)) ==> Behind(h + [Unregister(a)], u) == Behind(h, u)
  {
    Append(h, Unregister(a));
    if a !in Agents(Behind(h, u)) {
      DroppedNothing(Behind(h, u), a);
    }
  }

  lemma AgentOf(entries: seq<Entry>, a: Agent)
    ensures a in Agents(entries) <==> exists y :: y in entries && y.agent == a
  {
    if a in Agents(entries) {
      var i :| 0 <= i < |entries| && Agents(entries)[i] == a;
      assert entries[i] in entries;
    }
    if y :| y in entries && y.agent == a {
      var i :| 0 <= i < |entries| && entries[i] == y;
      assert Agents(entries)[i] == a;
    }
  }

  /** An agent in a list has a predecessor. */
  lemma Bound(h: seq<Event>, t: Task, a: Agent)
    requires t.Follows(Behind(h, t)) && a in Agents(Behind(h, t))
    ensures a.prev != null
  {
    hide Behind;
    var list := Nodes(t.root, Behind(h, t));
    var i :| 0 <= i < |Behind(h, t)| && Agents(Behind(h, t))[i] == a;
    assert list[i + 1] == a && list[i + 1].prev == list[i];
  }

  /** An agent that was in no list, or has just been taken out, is in none now; the others are where they were. */
  lemma FreeAfter(h: seq<Event>, a: Agent, b: Agent, w: World)
    requires Sound(h, w) && a != b && Free(h + [Unregister(a)], b, w)
    ensures Free(h, b, w)
  {
    hide Behind;
    forall t, y | t in w.tasks && y in Behind(h, t) ensures y.agent != b {
      BehindNext(h, Unregister(a), t, y);
    }
  }

  /** Where an agent is, if it is in a list at all. */
  ghost predicate IsAt(h: seq<Event>, a: Agent, t: Task?, w: World) {
    if t == null then Free(h, a, w) else t in w.tasks && a in Agents(Behind(h, t))
  }

  /** The lists of the other tasks have nothing to do with the agent. */
  lemma Elsewhere(h: seq<Event>, t: Task?, u: Task, a: Agent, w: World)
    requires Valid(w) && Sound(h, w) && a in w.agents && IsAt(h, a, t, w) && u in w.tasks && u != t
    ensures Behind(h + [Unregister(a)], u) == Behind(h, u)
    ensures forall i :: 0 <= i < |Nodes(u.root, Behind(h, u))| ==> Nodes(u.root, Behind(h, u))[i] != a
    ensures t != null ==> forall i :: 0 <= i < |Nodes(u.root, Behind(h, u))| ==>
      Nodes(u.root, Behind(h, u))[i] !in Nodes(t.root, Behind(h, t))
  {
    hide Behind;
    ShorterList(h, a, u);
    AgentOf(Behind(h, u), a);
    if t == null {
      FreeApart(h, u, a, w);
    } else {
      AgentOf(Behind(h, t), a);
      NodesApart(h, u, t, w);
    }
  }

  method RemoveAgent(a: Agent, ghost t: Task?, w: World, ghost h: seq<Event>)
    requires Agrees(h, w) && a in w.agents
    requires IsAt(h, a, t, w)
    modifies w.agents, Roots(w)
    ensures Agrees(h + [Unregister(a)], w)
  {
    hide Behind, On, Since, Total, Activations, Sound, Counted, Nodes, Holds, ListsAgree;
    ghost var e := Unregister(a);
    SoundBefore(h, w);
    SoundNext(h, e, w);
    Following(h, w);
    ghost var root, entries := a, [];
    assert Nodes(a, []) == [a];
    if t != null {
      root, entries := t.root, Behind(h, t);
      Bound(h, t, a);
      NodesInside(t, entries, w);
    }
    forall b | b in w.agents && b != a && Free(h + [e], b, w)
      ensures b.prev == null && b !in Nodes(root, entries)
    {
      FreeAfter(h, a, b, w);
      if t != null {
        FreeApart(h, t, b, w);
      }
    }
    a.Unregister(root, entries);
    forall u | u in w.tasks ensures u.Follows(Behind(h + [e], u)) {
      ShorterList(h, a, u);
      if u != t {
        Elsewhere(h, t, u, a, w);
        ghost var mine := Behind(h, u);
        assert old(allocated(mine));
        ghost var list := Nodes(u.root, mine);
        assert forall i :: 0 <= i < |list| ==> list[i] != a && unchanged(list[i]);
      }
    }
    AllFollow(h + [e], w);
    ClocksStay(h, e, w);
    AccountsStay(h, e, w);
  }

  /** Before the first event: empty lists, and accounts in zeroed memory. */
  lemma AtFirst(w: World)
    requires Valid(w)
    requires forall t :: t in w.tasks ==> t.Follows([]) && t.lastTimestamp == 0
    requires forall a :: a in w.agents ==> a.prev == null
    requires forall x :: x in w.infos ==> !x.enabled && x.usedTotal == 0 && x.activeCount == 0
    ensures Agrees([], w)
  {
    AllFollow([], w);
  }

  /** One event, carried out by the code. */
  method Perform(e: Event, w: World, ghost h: seq<Event>)
    requires Agrees(h, w) && Allowed(h, e, w)
    modifies w.tasks, w.agents, w.infos, Roots(w)
    ensures Agrees(h + [e], w)
  {
    hide Behind, On, Since, Total, Activations, Sound, ListsAgree, ClocksAgree, AccountsAgree;
    match e {
      case Prepare(x) =>
        SetAccount(e, w, h);
      case SetEnabled(x, on) =>
        SetAccount(e, w, h);
      case Register(t, a, x) =>
        SoundBefore(h, w);
        NodesInside(t, Behind(h, t), w);
        AddAgent(t, a, x, w, h);
      case Unregister(a) =>
        ghost var t: Task? := null;
        if u :| u in w.tasks && a in Agents(Behind(h, u)) {
          t := u;
        } else {
          AllFree(h, a, w);
        }
        RemoveAgent(a, t, w, h);
      case SwitchIn(t, now) =>
        BeginSlice(t, now, w, h);
      case SwitchOut(t, now) =>
        EndSlice(t, now, w, h);
    }
  }

  lemma AllFree(h: seq<Event>, a: Agent, w: World)
    requires forall t :: t in w.tasks ==> a !in Agents(Behind(h, t))
    ensures Free(h, a, w)
  {
    hide Behind;
    forall t, y | t in w.tasks && y in Behind(h, t) ensures y.agent != a {
      AgentOf(Behind(h, t), a);
    }
  }

  /**
   * Over every run, whatever is registered, unregistered, enabled and disabled in between, every account holds
   * exactly the slices that the events say it is due.
   */
  method Run(events: seq<Event>, w: World)
    requires Agrees([], w) && Proper(events, w)
    modifies w.tasks, w.agents, w.infos, Roots(w)
    ensures Agrees(events, w)
    ensures forall x :: x in w.infos ==> x.usedTotal == Total(events, x, w.offset)
    ensures forall x :: x in w.infos ==> x.enabled == On(events, x)
    ensures forall x :: x in w.infos ==> x.activeCount == Activations(events, x) % ACTIVATIONS
    ensures forall t :: t in w.tasks ==> t.Follows(Behind(events, t))
  {
    hide Behind, On, Since, Total, Activations, ListsAgree, ClocksAgree;
    var k := 0;
    while k < |events|
      invariant 0 <= k <= |events| && Agrees(events[..k], w)
    {
      assert events[..k + 1] == events[..k] + [events[k]];
      Perform(events[k], w, events[..k]);
      k := k + 1;
    }
    assert events[..k] == events;
    Following(events, w);
    assert forall x :: x in w.infos ==> AccountAgrees(x, events, w);
  }
}
