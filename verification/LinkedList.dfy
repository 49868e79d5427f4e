/** The doubly linked list under the round-robin cursors: its nodes spell out a sequence of names. */
module LinkedList {

  class LinkedListNode {
    const group: string
    var prev: LinkedListNode?
    var next: LinkedListNode?

    constructor (group: string)
      ensures this.group == group && prev == null && next == null
    {
      this.group := group;
      prev, next := null, null;
    }
  }

  /** The names of a sequence of nodes. */
  ghost function NamesOf(nodes: seq<LinkedListNode>): (names: seq<string>)
    ensures |names| == |nodes|
    ensures forall i :: 0 <= i < |nodes| ==> names[i] == nodes[i].group
  {
    seq(|nodes|, i requires 0 <= i < |nodes| => nodes[i].group)
  }

  ghost function Without<T>(s: seq<T>, i: nat): seq<T>
    requires i < |s|
  {
    s[..i] + s[i + 1..]
  }

  lemma NamesWithout(nodes: seq<LinkedListNode>, i: nat)
    requires i < |nodes|
    ensures NamesOf(Without(nodes, i)) == Without(NamesOf(nodes), i)
  {
  }

  ghost predicate Distinct(nodes: seq<LinkedListNode>) {
    forall i, j :: 0 <= i < j < |nodes| ==> nodes[i] != nodes[j]
  }

  /** The node at place `i`, or null past either end. */
  ghost function At(nodes: seq<LinkedListNode>, i: int): LinkedListNode? {
    if 0 <= i < |nodes| then nodes[i] else null
  }

  lemma AtWithout(nodes: seq<LinkedListNode>, i: nat, k: int)
    requires i < |nodes|
    ensures At(Without(nodes, i), k) == At(nodes, if k < i then k else k + 1)
  {
  }

  ghost predicate Linked(nodes: seq<LinkedListNode>)
    reads nodes
  {
    forall k :: 0 <= k < |nodes| ==> LinkedAt(nodes, k)
  }

  ghost predicate LinkedAt(nodes: seq<LinkedListNode>, k: nat)
    requires k < |nodes|
    reads nodes
  {
    nodes[k].prev == At(nodes, k - 1) && nodes[k].next == At(nodes, k + 1)
  }

  /** Node `k` is linked to its neighbours other than node `i`. */
  ghost predicate SkipsAt(nodes: seq<LinkedListNode>, i: nat, k: nat)
    requires k < |nodes|
    reads nodes
  {
    && nodes[k].prev == At(nodes, if k == i + 1 then i - 1 else k - 1)
    && nodes[k].next == At(nodes, if k == i - 1 then i + 1 else k + 1)
  }

  lemma Skipped(nodes: seq<LinkedListNode>, i: nat)
    requires i < |nodes| && Distinct(nodes) && forall k :: 0 <= k < |nodes| && k != i ==> SkipsAt(nodes, i, k)
    ensures Linked(Without(nodes, i)) && Distinct(Without(nodes, i)) && nodes[i] !in Without(nodes, i)
    ensures |Without(nodes, i)| == |nodes| - 1
    ensures At(Without(nodes, i), 0) == At(nodes, if i == 0 then 1 else 0)
    ensures At(Without(nodes, i), |nodes| - 2) == At(nodes, if i == |nodes| - 1 then i - 1 else |nodes| - 1)
  {
    var rest := Without(nodes, i);
    forall k | 0 <= k < |rest| ensures LinkedAt(rest, k) {
      assert SkipsAt(nodes, i, if k < i then k else k + 1);
      AtWithout(nodes, i, k - 1);
      AtWithout(nodes, i, k + 1);
    }
  }

  class LinkedList {
    var head: LinkedListNode?
    var tail: LinkedListNode?
    var total: nat
    ghost var nodes: seq<LinkedListNode>

    ghost predicate Valid()
      reads this, nodes
    {
      && Distinct(nodes) && Linked(nodes)
      && head == At(nodes, 0) && tail == At(nodes, |nodes| - 1) && total == |nodes|
    }

    constructor ()
      ensures Valid() && nodes == []
    {
      head, tail, total, nodes := null, null, 0, [];
    }

    method Append(node: LinkedListNode)
      requires Valid() && node !in nodes && node.prev == null && node.next == null
      modifies this, node, nodes
      ensures Valid() && nodes == old(nodes) + [node]
    {
      if head == null {
        head := node;
        tail := head;
      } else {
        tail.next := node;
        node.prev := tail;
        tail := tail.next;
      }
      total := total + 1;
      ghost var before := nodes;
      nodes := nodes + [node];
      forall k | 0 <= k < |nodes| ensures LinkedAt(nodes, k) {
        assert k < |before| ==> old(LinkedAt(before, k));
      }
    }

    /** Unlinks the node at place `i`; every other node keeps its place in the order. */
    method Remove(node: LinkedListNode, ghost i: nat)
      requires Valid() && i < |nodes| && nodes[i] == node
      modifies this, nodes
      ensures Valid() && nodes == Without(old(nodes), i) && NamesOf(nodes) == Without(old(NamesOf(nodes)), i)
      ensures node !in nodes && node.prev == null && node.next == null
    {
      hide Without, NamesOf;
      assert LinkedAt(nodes, i);
      if node.prev != null {
        node.prev.next := node.next;
      } else {
        head := node.next;
      }
      if node.next != null {
        node.next.prev := node.prev;
      } else {
        tail := node.prev;
      }
      node.prev := null;
      node.next := null;
      total := total - 1;
      forall k | 0 <= k < |nodes| && k != i ensures SkipsAt(nodes, i, k) {
        assert old(LinkedAt(nodes, k));
      }
      Skipped(nodes, i);
      NamesWithout(nodes, i);
      nodes := Without(nodes, i);
    }

    /** Walks to the first node with the given name, as `removeEmptyChild` does. */
    method Find(group: string) returns (node: LinkedListNode?, ghost i: nat)
      requires Valid()
      ensures node != null <==> group in NamesOf(nodes)
      ensures node != null ==> i < |nodes| && nodes[i] == node && node.group == group
    {
      node, i := head, 0;
      while node != null && node.group != group
        invariant i <= |nodes| && node == At(nodes, i)
        invariant forall j :: 0 <= j < i ==> nodes[j].group != group
        decreases |nodes| - i
      {
        assert LinkedAt(nodes, i);
        node, i := node.next, i + 1;
      }
      assert node != null ==> NamesOf(nodes)[i] == group;
    }
  }
}
