/**
 * The intrusive lists of rtservice.h: a ring linked both ways and a chain linked one way, on the heap, as
 * the sequences of nodes they stand for.
 */
module KernelLists {

  // ---------------------------------------------------------------- rt_list

  class ListNode {
    var next: ListNode?
    var prev: ListNode?

    constructor ()
      ensures next == null && prev == null
    {
      next, prev := null, null;
    }
  }

  /** The index after `i` around a ring of `n`. */
  function After(i: nat, n: nat): nat
    requires i < n
  {
    if i + 1 == n then 0 else i + 1
  }

  /** Every node of the sequence is linked to the one after it and back; the last one to the first. */
  ghost predicate Ring(nodes: seq<ListNode>)
    reads nodes
  {
    && nodes != []
    && (forall i, j :: 0 <= i < j < |nodes| ==> nodes[i] != nodes[j])
    && (forall i :: 0 <= i < |nodes| ==> nodes[i].next == nodes[After(i, |nodes|)])
    && (forall i :: 0 <= i < |nodes| ==> nodes[After(i, |nodes|)].prev == nodes[i])
  }

  /** A ring has no first node. */
  lemma RotatedRing(nodes: seq<ListNode>, k: nat)
    requires Ring(nodes) && k < |nodes|
    ensures Ring(nodes[k..] + nodes[..k])
  {
    var n := |nodes|;
    var r := nodes[k..] + nodes[..k];
    forall i | 0 <= i < n ensures r[i].next == r[After(i, n)] && r[After(i, n)].prev == r[i] {
      var j := if i < n - k then k + i else i - (n - k);
      assert r[i] == nodes[j] && r[After(i, n)] == nodes[After(j, n)];
    }
  }

  /** `n` comes right after `l`; no node but `l`, the one that was after it, and `n` is written. */
  method InsertAfter(l: ListNode, n: ListNode, ghost ring: seq<ListNode>)
    requires Ring(ring) && ring[0] == l && n !in ring
    modifies l, ring[After(0, |ring|)], n
    ensures Ring([l, n] + ring[1..])
  {
    l.next.prev := n;
    n.next := l.next;
    l.next := n;
    n.prev := l;
    ghost var r := [l, n] + ring[1..];
    assert forall i :: 2 <= i < |r| ==> r[i] == ring[i - 1];
  }

  /** `n` comes right before `l`, which is the end of the ring that starts at `l`. */
  method InsertBefore(l: ListNode, n: ListNode, ghost ring: seq<ListNode>)
    requires Ring(ring) && ring[0] == l && n !in ring
    modifies l, ring[|ring| - 1], n
    ensures Ring(ring + [n])
  {
    assert ring[After(|ring| - 1, |ring|)] == l;
    l.prev.next := n;
    n.prev := l.prev;
    l.prev := n;
    n.next := l;
  }

  /** The rest of the ring closes up, and the node removed is a ring by itself. */
  method Remove(n: ListNode, ghost ring: seq<ListNode>)
    requires Ring(ring) && ring[0] == n
    modifies n, ring[After(0, |ring|)], ring[|ring| - 1]
    ensures Ring([n]) && (|ring| > 1 ==> Ring(ring[1..]))
  {
    assert ring[After(|ring| - 1, |ring|)] == n;
    n.next.prev := n.prev;
    n.prev.next := n.next;
    n.next := n;
    n.prev := n;
    ghost var r := ring[1..];
    assert forall i :: 0 <= i < |r| ==> r[i] == ring[i + 1];
  }

  method IsEmpty(l: ListNode, ghost ring: seq<ListNode>) returns (empty: bool)
    requires Ring(ring) && ring[0] == l
    ensures empty <==> ring == [l]
  {
    empty := l.next == l;
    if |ring| > 1 {
      assert ring[0] != ring[1] == ring[After(0, |ring|)];
    }
  }

  /** The walk around the ring ends, and has counted the nodes but `l`. */
  method Len(l: ListNode, ghost ring: seq<ListNode>) returns (len: nat)
    requires Ring(ring) && ring[0] == l
    ensures len == |ring| - 1
  {
    len := 0;
    var p := l;
    while p.next != l
      invariant len < |ring| && p == ring[len]
      decreases |ring| - len
    {
      assert p.next == ring[After(len, |ring|)];
      p := p.next;
      len := len + 1;
    }
    assert ring[len].next == ring[After(len, |ring|)];
  }

  /** What one call does, the other undoes: for every ring and every node outside it. */
  method InsertAndRemove(l: ListNode, n: ListNode, ghost ring: seq<ListNode>)
    requires Ring(ring) && ring[0] == l && n !in ring
    modifies ring, n
    ensures Ring(ring) && Ring([n])
  {
    assert ring != [];
    hide Ring;
    InsertAfter(l, n, ring);
    RotatedRing([l, n] + ring[1..], 1);
    Rotations(l, n, ring);
    Remove(n, [n] + ring[1..] + [l]);
    assert ([n] + ring[1..] + [l])[1..] == ring[1..] + [l];
    RotatedRing(ring[1..] + [l], |ring| - 1);
  }

  lemma Rotations(l: ListNode, n: ListNode, ring: seq<ListNode>)
    requires ring != [] && ring[0] == l
    ensures var r := [l, n] + ring[1..]; r[1..] + r[..1] == [n] + ring[1..] + [l]
    ensures var r := ring[1..] + [l]; r[|ring| - 1..] + r[..|ring| - 1] == ring
    ensures forall x :: x in [n] + ring[1..] + [l] ==> x == n || x in ring
  {}

  /** Moving a node from one ring to another leaves both rings whole. */
  method Move(n: ListNode, l: ListNode, ghost from: seq<ListNode>, ghost to: seq<ListNode>)
    requires Ring(from) && from[0] == n && |from| > 1 && Ring(to) && to[0] == l
    requires forall i, j :: 0 <= i < |from| && 0 <= j < |to| ==> from[i] != to[j]
    modifies from, to
    ensures Ring(from[1..]) && Ring(to + [n])
  {
    Remove(n, from);
    InsertBefore(l, n, to);
  }

  // ---------------------------------------------------------------- rt_slist

  class SListNode {
    var next: SListNode?

    constructor ()
      ensures next == null
    {
      next := null;
    }
  }

  /** The nodes from the head on; the last one is linked to nothing. */
  ghost predicate Chain(nodes: seq<SListNode>)
    reads nodes
  {
    && nodes != []
    && (forall i, j :: 0 <= i < j < |nodes| ==> nodes[i] != nodes[j])
    && (forall i :: 0 <= i < |nodes| - 1 ==> nodes[i].next == nodes[i + 1])
    && nodes[|nodes| - 1].next == null
  }

  lemma LastIsUnlinked(chain: seq<SListNode>, k: nat)
    requires Chain(chain) && k < |chain|
    ensures chain[k].next == null <==> k == |chain| - 1
    ensures k < |chain| - 1 ==> chain[k].next == chain[k + 1]
  {}

  method Append(l: SListNode, n: SListNode, ghost chain: seq<SListNode>)
    requires Chain(chain) && chain[0] == l && n !in chain
    modifies chain[|chain| - 1], n
    ensures Chain(chain + [n])
  {
    var node := l;
    ghost var k := 0;
    while node.next != null
      invariant k < |chain| && node == chain[k]
      modifies {}
      decreases |chain| - k
    {
      LastIsUnlinked(chain, k);
      node := node.next;
      k := k + 1;
    }
    LastIsUnlinked(chain, k);
    node.next := n;
    n.next := null;
  }

  method Insert(l: SListNode, n: SListNode, ghost chain: seq<SListNode>)
    requires Chain(chain) && chain[0] == l && n !in chain
    modifies l, n
    ensures Chain([l, n] + chain[1..])
  {
    n.next := l.next;
    l.next := n;
    ghost var c := [l, n] + chain[1..];
    assert forall i :: 2 <= i < |c| ==> c[i] == chain[i - 1];
  }

  method SListLen(l: SListNode, ghost chain: seq<SListNode>) returns (len: nat)
    requires Chain(chain) && chain[0] == l
    ensures len == |chain| - 1
  {
    len := 0;
    var list := l.next;
    while list != null
      invariant len < |chain| && list == chain[len].next
      decreases |chain| - len
    {
      LastIsUnlinked(chain, len);
      list := list.next;
      len := len + 1;
    }
    LastIsUnlinked(chain, len);
  }

  /** Where `n` is in a chain after its head; the length if it is not there. */
  ghost function Find(chain: seq<SListNode>, n: SListNode, from: nat): (k: nat)
    requires 1 <= from <= |chain|
    ensures from <= k <= |chain| && (k < |chain| ==> chain[k] == n)
    ensures forall i :: from <= i < k ==> chain[i] != n
    decreases |chain| - from
  {
    if from == |chain| || chain[from] == n then from else Find(chain, n, from + 1)
  }

  /** The last node before `n`, or before the end of the chain. */
  method Predecessor(l: SListNode, n: SListNode, ghost chain: seq<SListNode>) returns (node: SListNode)
    requires Chain(chain) && chain[0] == l
    ensures node == chain[Find(chain, n, 1) - 1]
  {
    node := l;
    ghost var k, f := 0, Find(chain, n, 1);
    while node.next != null && node.next != n
      invariant k < f && node == chain[k]
      decreases |chain| - k
    {
      LastIsUnlinked(chain, k);
      node := node.next;
      k := k + 1;
    }
    LastIsUnlinked(chain, k);
  }

  lemma FindIsMembership(chain: seq<SListNode>, n: SListNode)
    requires chain != []
    ensures n in chain[1..] <==> Find(chain, n, 1) < |chain|
  {
    var f := Find(chain, n, 1);
    if f < |chain| {
      assert chain[1..][f - 1] == n;
    }
  }

  /** A chain in which node `f` has been passed over. */
  lemma PassedOver(chain: seq<SListNode>, f: nat)
    requires 1 <= f < |chain| && forall i, j :: 0 <= i < j < |chain| ==> chain[i] != chain[j]
    requires forall i :: 0 <= i < |chain| - 1 && i != f - 1 ==> chain[i].next == chain[i + 1]
    requires chain[f - 1].next == if f + 1 < |chain| then chain[f + 1] else null
    requires f + 1 < |chain| ==> chain[|chain| - 1].next == null
    ensures Chain(chain[..f] + chain[f + 1..])
  {
    var c := chain[..f] + chain[f + 1..];
    assert forall i :: 0 <= i < |c| ==> c[i] == if i < f then chain[i] else chain[i + 1];
  }

  /** The chain without `n`; a node that is not after the head, the head itself included, changes nothing. */
  method SListRemove(l: SListNode, n: SListNode, ghost chain: seq<SListNode>) returns (head: SListNode)
    requires Chain(chain) && chain[0] == l
    modifies chain[Find(chain, n, 1) - 1]
    ensures head == l
    ensures n in chain[1..] ==> Chain(chain[..Find(chain, n, 1)] + chain[Find(chain, n, 1) + 1..])
    ensures n !in chain[1..] ==> Chain(chain) && forall x :: x in chain ==> x.next == old(x.next)
  {
    var node := Predecessor(l, n, chain);
    ghost var f := Find(chain, n, 1);
    FindIsMembership(chain, n);
    LastIsUnlinked(chain, f - 1);
    if node.next != null {
      LastIsUnlinked(chain, f);
      node.next := node.next.next;
      PassedOver(chain, f);
    }
    head := l;
  }
}
