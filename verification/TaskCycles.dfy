/**
 * The per-task cycle accounts of perf_counter.c: a doubly linked list of agents behind each task, each
 * naming an account that is credited with every slice of the task while it is registered and enabled.
 */
module TaskCycles {

  // ---------------------------------------------------------------- accounts, agents and tasks

  const ACTIVATIONS := 0x1_0000

  /** Narrowing to a signed 32-bit word: the same number but for multiples of 2^32. */
  function ToInt32(x: int): (r: int)
    ensures -0x8000_0000 <= r < 0x8000_0000 && (x - r) % 0x1_0000_0000 == 0
  {
    (x + 0x8000_0000) % 0x1_0000_0000 - 0x8000_0000
  }

  /** `task_cycle_info_t`, in memory that starts as zeros. */
  class Info {
    var usedTotal: int
    var usedRecent: int
    var activeCount: nat
    var enabled: bool

    constructor ()
      ensures !enabled && usedTotal == 0 && usedRecent == 0 && activeCount == 0
    {
      usedTotal, usedRecent, activeCount, enabled := 0, 0, 0, false;
    }

    /** `init_task_cycle_info`. */
    method Prepare()
      modifies this
      ensures enabled && usedTotal == 0 && usedRecent == 0 && activeCount == 0
    {
      usedTotal, usedRecent, activeCount, enabled := 0, 0, 0, true;
    }

    method Enable() returns (was: bool)
      modifies this`enabled
      ensures was == old(enabled) && enabled
    {
      was := enabled;
      enabled := true;
    }

    method Disable() returns (was: bool)
      modifies this`enabled
      ensures was == old(enabled) && !enabled
    {
      was := enabled;
      enabled := false;
    }

    /** A slice is added, unless the account is disabled. */
    method Credit(used: int)
      modifies this`usedRecent, this`usedTotal
      ensures usedTotal == old(usedTotal) + if enabled then used else 0
      ensures usedRecent == if enabled then ToInt32(used) else old(usedRecent)
    {
      if enabled {
        usedRecent := ToInt32(used);
        usedTotal := usedTotal + used;
      }
    }

    /** One activation is counted, unless the account is disabled. */
    method Activate()
      modifies this`activeCount
      ensures activeCount == if enabled then Counted(old(activeCount), 1) else old(activeCount)
    {
      if enabled {
        activeCount := Counted(activeCount, 1);
      }
    }
  }

  /** `task_cycle_info_agent_t`. */
  class Agent {
    var info: Info?
    var next: Agent?
    var prev: Agent?

    constructor ()
      ensures info == null && next == null && prev == null
    {
      info, next, prev := null, null, null;
    }

    /** The agent is taken out from wherever it is; one that is in no list stays as it is, and so does the list. */
    method Unregister(ghost root: Agent, ghost entries: seq<Entry>)
      requires prev == null || (Holds(root, entries) && this in Agents(entries))
      modifies this, Nodes(root, entries)
      ensures old(prev) != null ==> Holds(root, Dropped(entries, this)) && next == null && prev == null
      ensures old(prev) == null ==> unchanged(this) && unchanged(Nodes(root, entries))
    {
      if prev == null {
        return;
      }
      ghost var list := Nodes(root, entries);
      ghost var k :| 0 <= k < |entries| && Agents(entries)[k] == this;
      assert list[k + 1] == this;
      assert Distinct(entries) by {
        assert forall i :: 0 <= i < |entries| ==> entries[i].agent == list[i + 1];
      }
      Detach(list, k + 1);
      HoldsWithout(root, entries, k);
    }

    /** The part of the registration that pushes the agent into both chains. */
    method PushBehind(root: Agent, ghost list: seq<Agent>)
      requires Linked(list) && list[0] == root && this !in list
      modifies `next, `prev, root`next, list`prev
      ensures Linked([root, this] + list[1..])
    {
      NextAgent(list, 0);
      next := root.next;
      root.next := this;
      prev := root;
      if next != null {
        next.prev := this;
      }
      ghost var l := [root, this] + list[1..];
      assert forall i :: 2 <= i < |l| ==> l[i] == list[i - 1];
    }

    /** The part of it that takes the agent out of both chains. */
    method Detach(ghost list: seq<Agent>, ghost k: nat)
      requires Linked(list) && 0 < k < |list| && this == list[k]
      modifies list`next, list`prev
      ensures Linked(list[..k] + list[k + 1..]) && next == null && prev == null
    {
      var ptPrev := prev;
      NextAgent(list, k - 1);
      NextAgent(list, k);
      assert ptPrev == list[k - 1];
      if ptPrev.next != this {
        return;
      }
      ptPrev.next := next;
      if next != null {
        next.prev := ptPrev;
      }
      next := null;
      prev := null;
      ghost var l := list[..k] + list[k + 1..];
      assert forall i :: 0 <= i < |l| ==> l[i] == if i < k then list[i] else list[i + 1];
    }
  }

  /** An agent together with the account that it names. */
  datatype Entry = Entry(agent: Agent, info: Info)

  function Agents(entries: seq<Entry>): seq<Agent> {
    seq(|entries|, i requires 0 <= i < |entries| => entries[i].agent)
  }

  ghost predicate Within(entries: seq<Entry>, infos: set<Info>) {
    forall i :: 0 <= i < |entries| ==> entries[i].info in infos
  }

  function Nodes(root: Agent, entries: seq<Entry>): (list: seq<Agent>)
    ensures |list| == |entries| + 1 && list[0] == root
    ensures forall i :: 0 < i < |list| ==> list[i] == entries[i - 1].agent
  {
    [root] + Agents(entries)
  }

  /** A root and the agents behind it, linked both ways. */
  ghost predicate Linked(list: seq<Agent>)
    reads list
  {
    && list != []
    && (forall i, j :: 0 <= i < j < |list| ==> list[i] != list[j])
    && (forall i :: 0 <= i < |list| - 1 ==> list[i].next == list[i + 1])
    && (forall i :: 0 < i < |list| ==> list[i].prev == list[i - 1])
    && list[|list| - 1].next == null
  }

  lemma NextAgent(list: seq<Agent>, i: nat)
    requires Linked(list) && i < |list|
    ensures list[i].next == if i + 1 < |list| then list[i + 1] else null
  {}

  /** Every agent names the account of its entry. */
  ghost predicate Named(root: Agent, entries: seq<Entry>)
    reads Nodes(root, entries)
  {
    var list := Nodes(root, entries);
    forall i :: 0 < i < |list| ==> list[i].info == entries[i - 1].info
  }

  /** The list behind the root holds the entries, in this order. */
  ghost predicate Holds(root: Agent, entries: seq<Entry>)
    reads Nodes(root, entries)
  {
    Linked(Nodes(root, entries)) && Named(root, entries)
  }

  /** The entries without the first one of the agent. */
  function Dropped(entries: seq<Entry>, agent: Agent): seq<Entry> {
    if entries == [] then [] else
    if entries[0].agent == agent then entries[1..] else [entries[0]] + Dropped(entries[1..], agent)
  }

  ghost predicate Distinct(entries: seq<Entry>) {
    forall i, j :: 0 <= i < j < |entries| ==> entries[i].agent != entries[j].agent
  }

  lemma {:induction false} DroppedAt(entries: seq<Entry>, k: nat)
    requires k < |entries| && Distinct(entries)
    ensures Dropped(entries, entries[k].agent) == entries[..k] + entries[k + 1..]
  {
    if k > 0 {
      DroppedAt(entries[1..], k - 1);
      assert [entries[0]] + entries[1..k] == entries[..k];
    }
  }

  lemma {:induction false} DroppedNothing(entries: seq<Entry>, agent: Agent)
    requires agent !in Agents(entries)
    ensures Dropped(entries, agent) == entries
  {
    if entries != [] {
      assert Agents(entries)[0] == entries[0].agent;
      assert forall i :: 0 <= i < |entries| - 1 ==> Agents(entries[1..])[i] == Agents(entries)[i + 1];
      DroppedNothing(entries[1..], agent);
    }
  }

  lemma HoldsWith(root: Agent, entries: seq<Entry>, agent: Agent, info: Info)
    requires Linked([root, agent] + Nodes(root, entries)[1..]) && Named(root, entries) && agent.info == info
    ensures Holds(root, [Entry(agent, info)] + entries)
  {
    hide Nodes;
    var list, longer := Nodes(root, entries), [Entry(agent, info)] + entries;
    var after := Nodes(root, longer);
    assert after == [root, agent] + list[1..];
    forall i | 0 < i < |after| ensures after[i].info == longer[i - 1].info {
      if i > 1 {
        assert list[i - 1].info == entries[i - 2].info;
      }
    }
  }

  lemma NodesWithout(root: Agent, entries: seq<Entry>, k: nat)
    requires k < |entries| && Distinct(entries)
    ensures Dropped(entries, entries[k].agent) == entries[..k] + entries[k + 1..]
    ensures Nodes(root, Dropped(entries, entries[k].agent)) ==
            Nodes(root, entries)[..k + 1] + Nodes(root, entries)[k + 2..]
  {
    DroppedAt(entries, k);
    hide Nodes, Dropped, Distinct;
    var list := Nodes(root, entries);
    var after, cut := Nodes(root, entries[..k] + entries[k + 1..]), list[..k + 1] + list[k + 2..];
    assert |after| == |cut|;
    forall i | 0 <= i < |after| ensures after[i] == cut[i] {
      assert cut[i] == if i < k + 1 then list[i] else list[i + 1];
    }
  }

  lemma HoldsWithout(root: Agent, entries: seq<Entry>, k: nat)
    requires k < |entries| && Distinct(entries) && Named(root, entries)
    requires Linked(Nodes(root, entries)[..k + 1] + Nodes(root, entries)[k + 2..])
    ensures Holds(root, Dropped(entries, entries[k].agent))
  {
    hide Nodes, Linked, Distinct, Dropped;
    NodesWithout(root, entries, k);
    var list, rest := Nodes(root, entries), entries[..k] + entries[k + 1..];
    var after := Nodes(root, rest);
    forall i | 0 < i < |after| ensures after[i].info == rest[i - 1].info {
      var j := if i < k + 1 then i else i + 1;
      assert after[i] == list[j] && rest[i - 1] == entries[j - 1];
    }
  }

  // ---------------------------------------------------------------- what one slice adds

  /** How many of the entries name the account. */
  function Count(entries: seq<Entry>, x: Info): nat {
    if entries == [] then 0 else
    Count(entries[..|entries| - 1], x) + if entries[|entries| - 1].info == x then 1 else 0
  }

  /** How often an account gets a slice of the task: as its own once, and once more for each agent if enabled. */
  function Shares(own: Info, entries: seq<Entry>, x: Info, enabled: bool): nat {
    (if x == own then 1 else 0) + if enabled then Count(entries, x) else 0
  }

  function Times(n: nat, used: int): int {
    n * used
  }

  lemma TimesOnce(n: nat, used: int)
    ensures Times(n + 1, used) == Times(n, used) + used && Times(0, used) == 0
  {}

  lemma CountStart(entries: seq<Entry>, used: int)
    ensures Times(0, used) == 0 && forall x :: Count(entries[..0], x) == 0
  {}

  lemma CountStep(entries: seq<Entry>, k: nat, used: int)
    requires k < |entries|
    ensures forall x :: Count(entries[..k + 1], x) == Count(entries[..k], x) + if entries[k].info == x then 1 else 0
    ensures Times(Count(entries[..k + 1], entries[k].info), used) ==
            Times(Count(entries[..k], entries[k].info), used) + used
  {
    assert entries[..k + 1][..k] == entries[..k];
    TimesOnce(Count(entries[..k], entries[k].info), used);
  }

  /** The walk along the agents when a slice ends. */
  method CreditAgents(root: Agent, used: int, ghost entries: seq<Entry>, ghost infos: set<Info>)
    requires Holds(root, entries) && Within(entries, infos)
    modifies infos`usedRecent, infos`usedTotal
    ensures forall x :: x in infos ==>
      x.usedTotal == old(x.usedTotal) + Times(if x.enabled then Count(entries, x) else 0, used)
    ensures forall x :: x in infos ==>
      x.usedRecent == if x.enabled && Count(entries, x) > 0 then ToInt32(used) else old(x.usedRecent)
  {
    hide Times, ToInt32, Count, Nodes;
    ghost var list := Nodes(root, entries);
    NextAgent(list, 0);
    var agent := root.next;
    ghost var k := 0;
    CountStart(entries, used);
    while agent != null
      invariant 0 <= k <= |entries| && agent == if k < |entries| then list[k + 1] else null
      invariant forall x :: x in infos ==>
        x.usedTotal == old(x.usedTotal) + Times(if x.enabled then Count(entries[..k], x) else 0, used)
      invariant forall x :: x in infos ==>
        x.usedRecent == if x.enabled && Count(entries[..k], x) > 0 then ToInt32(used) else old(x.usedRecent)
      decreases |entries| - k
    {
      CountStep(entries, k, used);
      NextAgent(list, k + 1);
      var info := agent.info;
      assert info == entries[k].info;
      if info != null {
        info.Credit(used);
      }
      agent := agent.next;
      k := k + 1;
    }
    assert entries[..k] == entries;
  }

  /** A sixteen-bit counter that goes up by `n`. */
  function Counted(before: nat, n: nat): nat {
    (before + n) % ACTIVATIONS
  }

  lemma CountedSum(before: nat, n: nat, more: nat)
    ensures Counted(Counted(before, n), more) == Counted(before, n + more)
    ensures Counted(before, n) < ACTIVATIONS && (before < ACTIVATIONS ==> Counted(before, 0) == before)
  {}

  /** The walk along the agents when a slice begins. */
  method ActivateAgents(root: Agent, ghost entries: seq<Entry>, ghost infos: set<Info>)
    requires Holds(root, entries) && Within(entries, infos)
    requires forall x :: x in infos ==> x.activeCount < ACTIVATIONS
    modifies infos`activeCount
    ensures forall x :: x in infos ==>
      x.activeCount == Counted(old(x.activeCount), if x.enabled then Count(entries, x) else 0)
  {
    hide Counted, Count, Nodes;
    ghost var list := Nodes(root, entries);
    NextAgent(list, 0);
    var agent := root.next;
    ghost var k := 0;
    CountStart(entries, 0);
    forall x | x in infos ensures Counted(x.activeCount, 0) == x.activeCount {
      CountedSum(x.activeCount, 0, 0);
    }
    while agent != null
      invariant 0 <= k <= |entries| && agent == if k < |entries| then list[k + 1] else null
      invariant forall x :: x in infos ==>
        x.activeCount == Counted(old(x.activeCount), if x.enabled then Count(entries[..k], x) else 0)
      decreases |entries| - k
    {
      CountStep(entries, k, 0);
      NextAgent(list, k + 1);
      var info := agent.info;
      assert info == entries[k].info;
      if info != null {
        CountedSum(old(info.activeCount), Count(entries[..k], info), 1);
        info.Activate();
      }
      agent := agent.next;
      k := k + 1;
    }
    assert entries[..k] == entries;
  }

  /** A task's own account, its agents, and when it last began to run. */
  class Task {
    const root: Agent
    const own: Info
    var lastTimestamp: int
    /** The magic word that says that the list of agents may be followed. */
    var agentsValid: bool

    /** `init_task_cycle_counter` on the stack of a new task. */
    constructor ()
      ensures fresh(root) && fresh(own) && Follows([]) && lastTimestamp == 0
      ensures !own.enabled && own.usedTotal == 0 && own.usedRecent == 0 && own.activeCount == 0
    {
      lastTimestamp, agentsValid := 0, false;
      root := new Agent();
      own := new Info();
      new;
      assert Linked([root]);
      assert Nodes(root, []) == [root];
    }

    /** The entries are in the list, and the list is followed unless it is empty. */
    ghost predicate Follows(entries: seq<Entry>)
      reads this`agentsValid, Nodes(root, entries)
    {
      Holds(root, entries) && (entries != [] ==> agentsValid)
    }

    /** The agent is pushed right behind the root, and the list counts from now on. */
    method Register(agent: Agent, info: Info, ghost entries: seq<Entry>)
      requires Follows(entries) && agent !in Nodes(root, entries)
      modifies this`agentsValid, agent, Nodes(root, entries)
      ensures Follows([Entry(agent, info)] + entries) && agentsValid
    {
      hide Nodes;
      agentsValid := true;
      agent.info := info;
      agent.PushBehind(root, Nodes(root, entries));
      HoldsWith(root, entries, agent, info);
    }

    /** The task, and every enabled account that is registered, counts one more time that it became active. */
    method SwitchIn(now: int, ghost entries: seq<Entry>, ghost infos: set<Info>)
      requires Follows(entries) && Within(entries, infos) && own in infos
      requires forall x :: x in infos ==> x.activeCount < ACTIVATIONS
      modifies this`lastTimestamp, infos`activeCount
      ensures Follows(entries) && lastTimestamp == now
      ensures forall x :: x in infos ==>
        x.activeCount == Counted(old(x.activeCount), Shares(own, entries, x, x.enabled))
    {
      hide Count, Counted;
      lastTimestamp := now;
      own.activeCount := Counted(own.activeCount, 1);
      ghost var share := if own.enabled then Count(entries, own) else 0;
      CountedSum(old(own.activeCount), 1, share);
      forall x | x in infos ensures x.activeCount < ACTIVATIONS && Counted(x.activeCount, 0) == x.activeCount {
        CountedSum(x.activeCount, 0, 0);
      }
      if agentsValid {
        ActivateAgents(root, entries, infos);
      } else {
        CountStart(entries, 0);
        assert entries[..0] == entries;
      }
    }

    /**
     * The slice that ends is credited once to the task's own account and once for every agent whose account
     * is enabled, and to nobody else.
     */
    method SwitchOut(now: int, offset: int, ghost entries: seq<Entry>, ghost infos: set<Info>) returns (used: int)
      requires Follows(entries) && Within(entries, infos) && own in infos
      modifies infos`usedRecent, infos`usedTotal
      ensures Follows(entries) && used == now - lastTimestamp - offset
      ensures forall x :: x in infos ==>
        x.usedTotal == old(x.usedTotal) + Times(Shares(own, entries, x, x.enabled), used)
      ensures forall x :: x in infos ==>
        x.usedRecent == if Shares(own, entries, x, x.enabled) > 0 then ToInt32(used) else old(x.usedRecent)
    {
      hide Times, ToInt32, Count;
      used := now - lastTimestamp - offset;
      own.usedRecent := ToInt32(used);
      own.usedTotal := own.usedTotal + used;
      TimesOnce(0, used);
      TimesOnce(if own.enabled then Count(entries, own) else 0, used);
      if agentsValid {
        CreditAgents(root, used, entries, infos);
      } else {
        CountStart(entries, used);
        assert entries[..0] == entries;
      }
    }
  }
}
