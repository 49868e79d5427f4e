/**
 * The fair round-robin queue in place. Each method takes the queue from one state of the
 * specification to the next.
 */
module RoundRobinQueue {
  import opened Types
  import opened Order
  import opened GroupPath
  import opened Heap
  import opened Counters
  import opened RoundRobinNodes
  import opened RoundRobinExact
  import RR = RoundRobin
  import RRP = RoundRobinProperties
  import Sch = Scheduling
  import Steps = RoundRobinSteps

  // ---------- What the values promise ----------

  /** The index leads to nodes of the tree. */
  ghost predicate Indexed(nodes: Nodes, index: map<string, GroupNode>) {
    forall g :: g in index ==> Split(g) in nodes && index[g] == nodes[Split(g)]
  }

  /** Every queued group is in the index, and the total is right. */
  ghost predicate Listed(items: map<nat, Item>, groups: set<string>, total: int) {
    total == |items| && forall id :: id in items ==> items[id].group in groups
  }

  lemma ListedMore(items: map<nat, Item>, groups: set<string>, total: int, x: Item)
    requires Listed(items, groups, total) && x.id !in items
    ensures Listed(items[x.id := x], groups + {x.group}, total + 1)
  {
  }

  ghost predicate Sized(s: set<Path>, n: int) {
    n == |s|
  }

  lemma ReadyResized(entries: map<Path, Entry>, n: int, p: Path, ready: bool)
    requires Sized(ReadyPaths(entries), n) && p in entries && entries[p].ready != ready
    ensures Sized(ReadyPaths(entries[p := entries[p].(ready := ready)]), if ready then n + 1 else n - 1)
  {
    var s, t := ReadyPaths(entries), ReadyPaths(entries[p := entries[p].(ready := ready)]);
    assert t == if ready then s + {p} else s - {p};
  }

  lemma SameElements(s: set<string>, list: seq<string>)
    requires forall c :: c in s <==> c in list
    ensures |s| == 0 <==> list == []
  {
    if list != [] {
      assert list[0] in s;
    }
  }

  lemma EmptyHeap(queue: PriorityMemoryQueue)
    requires queue.Valid()
    ensures queue.Len() > 0 <==> queue.Contents() != map[]
  {
    hide PriorityMemoryQueue.Valid, PriorityMemoryQueue.Contents, PriorityMemoryQueue.Len;
  }

  ghost function NewView(root: GroupNode): View {
    View(map[[] := root], map[[] := EMPTY_NODE], map[[] := RR.Ring([], 0)], map[], multiset{})
  }

  lemma NothingQueued(root: GroupNode, maxUnacked: uint32)
    requires root.path == [] && root.groupKey == "" && root.parent == null
    ensures RR.WellFormed(RR.New(maxUnacked)) && Coherent(NewView(root))
    ensures Exact(NewView(root), Limit(maxUnacked)) && ReadyPaths(NewView(root).entries) == {}
  {
    RRP.NewWellFormed(maxUnacked);
    assert NodePlaced(NewView(root).nodes, []);
  }

  class FairRoundRobinQueue {
    const root: GroupNode
    var maxUnacked: SlotLimit
    var unackedByGroup: map<string, int>
    var totalMessages: nat
    var groupKeyToLeaf: map<string, GroupNode>
    var readyLeaves: int
    ghost var v: View
    ghost var members: set<GroupNode>
    ghost var heaps: set<PriorityMemoryQueue>

    ghost function State(): RR.State
      reads `v, `maxUnacked
    {
      StateOf(v, maxUnacked)
    }

    /** The objects of the tree, with the values they hold. */
    ghost predicate InHeap()
      reads `v, `members, `heaps, members, heaps
    {
      && Owned(v.nodes, members, heaps) && AllShown(v.nodes, v.entries, members, heaps)
      && Linked(v.nodes, members, heaps)
    }

    ghost predicate Synced()
      reads `v, `members, `heaps, `groupKeyToLeaf, `readyLeaves, `unackedByGroup, members, heaps
      ensures Synced() ==> InHeap() && Coherent(v) && v.nodes[[]] == root && Counts(unackedByGroup, v.unacked)
    {
      && InHeap() && Coherent(v) && v.nodes[[]] == root && Indexed(v.nodes, groupKeyToLeaf)
      && Sized(ReadyPaths(v.entries), readyLeaves) && Counts(unackedByGroup, v.unacked)
    }

    /**
     * The tree is well formed, every node counts what is at it and below it, the ready flags mark
     * exactly the ready leaves, and every queued group is in the index.
     */
    ghost predicate Valid()
      reads this, members, heaps
    {
      && Synced() && RR.WellFormed(State()) && Exact(v, maxUnacked)
      && Listed(v.items, groupKeyToLeaf.Keys, totalMessages)
    }

    constructor (maxUnacked: uint32)
      ensures fresh(members) && fresh(heaps) && State() == RR.New(maxUnacked)
      ensures Valid()
    {
      hide HeapShows, Split, RR.WellFormed, Exact, Coherent, ReadyPaths;
      var node := new GroupNode("root", null, "", []);
      root := node;
      this.maxUnacked := Limit(maxUnacked);
      unackedByGroup, groupKeyToLeaf, totalMessages, readyLeaves := map[], map[], 0, 0;
      v := NewView(node);
      members, heaps := {node}, {node.queue};
      new;
      Reshown(root, EMPTY_NODE);
      NothingQueued(root, maxUnacked);
    }

    // ---------- One node at a time ----------

    ghost predicate At(node: GroupNode)
      reads `v
    {
      node.path in v.nodes && v.nodes[node.path] == node
    }

    method MarkNode(node: GroupNode, count: nat, ready: bool)
      requires InHeap() && Coherent(v) && At(node)
      modifies node`ready, node`messageCount, `v
      ensures v == Mark(old(v), node.path, count, ready)
      ensures InHeap() && Coherent(v)
    {
      hide Coherent, Shows, Owned, Linked;
      ghost var p := node.path;
      Apart(v, p);
      Marked(v, p, count, ready);
      Reshown(node, v.entries[p]);
      node.messageCount := count;
      node.ready := ready;
      v := Mark(v, p, count, ready);
      Reshown(node, v.entries[p]);
    }

    method SetReady(node: GroupNode, ready: bool)
      requires InHeap() && Coherent(v) && Sized(ReadyPaths(v.entries), readyLeaves) && At(node) && node.ready != ready
      modifies node`ready, node`messageCount, `v, `readyLeaves
      ensures v == Mark(old(v), node.path, old(v).entries[node.path].messageCount, ready)
      ensures InHeap() && Coherent(v) && Sized(ReadyPaths(v.entries), readyLeaves)
    {
      hide Coherent, Shows, Sized, ReadyPaths, Owned, Linked;
      Reshown(node, v.entries[node.path]);
      ReadyResized(v.entries, readyLeaves, node.path, ready);
      MarkNode(node, node.messageCount, ready);
      readyLeaves := if ready then readyLeaves + 1 else readyLeaves - 1;
    }

    /** A leaf with an item and a free slot. */
    method IsReady(node: GroupNode) returns (ready: bool)
      requires Synced() && At(node)
      ensures ready <==> RR.IsReadyLeaf(State(), node.path)
      ensures node.ready == v.entries[node.path].ready
    {
      hide Coherent, Join, RR.ItemsAt, Indexed, Sized;
      hide PriorityMemoryQueue.Valid, PriorityMemoryQueue.InOrder, PriorityMemoryQueue.Contents;
      PlaceOf(v, node.path);
      SameElements(node.children.Keys, node.childrenList);
      EmptyHeap(node.queue);
      assert Counter(unackedByGroup, node.groupKey) == v.unacked[node.groupKey];
      ready := |node.children| == 0 && node.queue.Len() > 0 && Counter(unackedByGroup, node.groupKey) < maxUnacked;
    }

    method RefreshLeafReady(node: GroupNode)
      requires Synced() && At(node)
      modifies node`ready, node`messageCount, `readyLeaves, `v
      ensures v == Refresh(old(v), maxUnacked, node.path)
      ensures Synced()
    {
      hide Coherent, FairRoundRobinQueue.InHeap, RR.IsReadyLeaf, Indexed, Sized, ReadyPaths, Counts;
      var ready := IsReady(node);
      if ready != node.ready {
        SetReady(node, ready);
      } else {
        MarkedSame(v, node.path);
      }
    }

    method MakeChild(node: GroupNode, name: string) returns (child: GroupNode)
      requires InHeap() && Coherent(v) && At(node) && (node.path != [] ==> node.groupKey != "")
      requires RR.Child(node.path, name) !in v.nodes && RR.ItemsAt(v.items, RR.Child(node.path, name)) == map[]
      ensures fresh(child) && fresh(child.queue) && FitsUnder(v, node.path, name, child)
      ensures child.children == map[] && Shows(child, EMPTY_NODE)
    {
      hide Coherent, Shows, Join, RR.ItemsAt, AllShown, Linked;
      ghost var p := node.path;
      PlaceOf(v, p);
      ChildKey(p, name);
      child := new GroupNode(
        name, node, if node.groupKey == "" then name else node.groupKey + "." + name, RR.Child(p, name));
    }

    /** Takes the new child into the tree. */
    ghost method AdoptChild(node: GroupNode, name: string, child: GroupNode)
      requires InHeap() && Coherent(v) && At(node) && FitsUnder(v, node.path, name, child)
      requires child.children == map[] && Shows(child, EMPTY_NODE)
      modifies `v, `members, `heaps
      ensures members == old(members) + {child} && heaps == old(heaps) + {child.queue}
      ensures v == Adopt(old(v), child.path, child)
      ensures Coherent(v)
      ensures InHeap()
    {
      hide Coherent, Shows, Join, RR.ItemsAt, ChildrenOk;
      ghost var q := child.path;
      Adopted(v, node.path, name, child);
      forall r | r in v.nodes
        ensures ChildrenOk(v.nodes[q := child], r, v.nodes[r].children, v.nodes[r].childrenList)
      {
        ChildrenKept(v.nodes, q, child, r, v.nodes[r].children, v.nodes[r].childrenList);
      }
      Reshown(child, EMPTY_NODE);
      Childless(v.nodes[q := child], q);
      members, heaps := members + {child}, heaps + {child.queue};
      v := Adopt(v, q, child);
    }

    /** Gives the node new children, a new turn order and a new cursor. */
    method Relist(
      node: GroupNode, children: map<string, GroupNode>, list: seq<string>, current: Option<string>, ghost r: RR.Ring)
      requires InHeap() && Coherent(v) && At(node)
      requires RingShown(list, current, r) && ChildrenOk(v.nodes, node.path, children, list)
      modifies node`children, node`childrenList, node`currentChild, `v
      ensures var p, e := node.path, old(v).entries[node.path];
        v == Write(old(v), p, e.(childrenList := list, currentChild := current), r)
      ensures Coherent(v)
      ensures InHeap()
    {
      hide Coherent, Shows, RingShown, ChildrenOk, Owned;
      ghost var p, e := node.path, v.entries[node.path].(childrenList := list, currentChild := current);
      Apart(v, p);
      Written(v, p, e, r);
      Reshown(node, v.entries[p]);
      node.children, node.childrenList, node.currentChild := children, list, current;
      v := Write(v, p, e, r);
      Reshown(node, e);
    }

    /** Hangs the child at the end of the turn order. */
    method Append(node: GroupNode, name: string, child: GroupNode)
      requires InHeap() && Coherent(v) && At(node) && At(child) && child.path == RR.Child(node.path, name)
      modifies node`children, node`childrenList, node`currentChild, `v
      ensures var p, e, r := node.path, old(v).entries[node.path], old(v).tree[node.path];
        v == Write(old(v), p, e.(childrenList := e.childrenList + [name]), r.(names := r.names + [name]))
      ensures Coherent(v)
      ensures InHeap()
    {
      hide Coherent, Shows, ChildrenOk;
      ghost var p, r := node.path, v.tree[node.path];
      PlaceOf(v, p);
      Reshown(node, v.entries[p]);
      ChildAdded(v.nodes, p, name, node.children, node.childrenList);
      Relist(node, node.children[name := child], node.childrenList + [name], node.currentChild,
             r.(names := r.names + [name]));
    }

    /** Takes the child out of the turn order and of the tree. A cursor on it goes back to the head. */
    method Unlist(node: GroupNode, name: string, i: nat)
      requires InHeap() && Coherent(v) && At(node) && RR.RingOk(v.tree[node.path])
      requires i < |node.childrenList| && node.childrenList[i] == name
      modifies node`children, node`childrenList, node`currentChild, `v
      ensures var p, e, r := node.path, old(v).entries[node.path], RR.Dropped(old(v).tree[node.path], name);
        v == Write(old(v), p, e.(childrenList := r.names,
                                 currentChild := Redirected(e.currentChild, name, r.names)), r)
      ensures Coherent(v)
      ensures InHeap()
    {
      hide Coherent, Shows, ChildrenOk;
      ghost var p, r := node.path, v.tree[node.path];
      PlaceOf(v, p);
      Reshown(node, v.entries[p]);
      ChildGone(v.nodes, p, name, r, node.children);
      RingPlucked(node.childrenList, node.currentChild, r, name);
      var list := node.childrenList[..i] + node.childrenList[i + 1..];
      assert list == RR.Dropped(r, name).names;
      Relist(node, node.children - {name}, list, Redirected(node.currentChild, name, list), RR.Dropped(r, name));
    }

    /** Lets the removed child go. */
    ghost method AbandonChild(p: Path, c: string)
      requires InHeap() && Coherent(v) && p in v.nodes && c !in v.entries[p].childrenList
      requires forall r :: r in v.nodes ==> !(RR.Child(p, c) < r)
      modifies `v
      ensures v == Abandon(old(v), RR.Child(p, c))
      ensures Coherent(v)
      ensures InHeap()
    {
      hide Coherent, Shows, ChildrenOk;
      Abandoned(v, RR.Child(p, c));
      Reshown(v.nodes[p], v.entries[p]);
      forall r | r in v.nodes
        ensures ChildrenOk(v.nodes - {RR.Child(p, c)}, r, v.nodes[r].children, v.nodes[r].childrenList)
      {
        ChildrenStay(v.nodes, p, c, r, v.nodes[r].children, v.nodes[r].childrenList);
      }
      v := Abandon(v, RR.Child(p, c));
    }

    /** The heap of the node holds what the view will say, and the view says it. */
    ghost method Refill(node: GroupNode, items: map<nat, Item>)
      requires Owned(v.nodes, members, heaps) && Linked(v.nodes, members, heaps) && Coherent(v) && At(node)
      requires forall q :: q in v.nodes && q != node.path ==> Shows(v.nodes[q], v.entries[q])
      requires Shows(node, v.entries[node.path].(heap := RR.ItemsAt(items, node.path)))
      requires Keyed(items) && forall q :: q != node.path ==> RR.ItemsAt(items, q) == RR.ItemsAt(v.items, q)
      modifies `v
      ensures v == Fill(old(v), node.path, items)
      ensures Coherent(v)
      ensures InHeap()
    {
      hide Coherent, Shows, Owned, Linked, RR.ItemsAt;
      Filled(v, node.path, items);
      v := Fill(v, node.path, items);
    }

    method Push(node: GroupNode, x: Item)
      requires InHeap() && Coherent(v) && At(node) && x.id !in v.items && Split(x.group) == node.path
      modifies node.queue, `v
      ensures v == Fill(old(v), node.path, old(v).items[x.id := x])
      ensures Coherent(v)
      ensures InHeap()
    {
      hide Coherent, Shows, Owned, Linked, RR.ItemsAt, Split;
      hide PriorityMemoryQueue.Valid, PriorityMemoryQueue.InOrder, PriorityMemoryQueue.Contents;
      ghost var p := node.path;
      Apart(v, p);
      PlaceOf(v, p);
      Reshown(node, v.entries[p]);
      ItemsAfterAdd(v.items, x);
      ItemAt(v.items, x.id, p);
      node.queue.Push(x);
      ghost var items := v.items[x.id := x];
      Reshown(node, v.entries[p].(heap := RR.ItemsAt(items, p)));
      Refill(node, items);
    }

    method Pop(node: GroupNode) returns (x: Item)
      requires InHeap() && Coherent(v) && At(node) && RR.ItemsAt(v.items, node.path) != map[]
      modifies node.queue, `v
      ensures IsFirst(RR.ItemsAt(old(v).items, node.path), x) && x.id in old(v).items && old(v).items[x.id] == x
      ensures v == Fill(old(v), node.path, old(v).items - {x.id})
      ensures Coherent(v)
      ensures InHeap()
    {
      hide Coherent, Shows, Owned, Linked, RR.ItemsAt, Split;
      hide PriorityMemoryQueue.Valid, PriorityMemoryQueue.InOrder, PriorityMemoryQueue.Contents;
      ghost var p := node.path;
      Apart(v, p);
      PlaceOf(v, p);
      Reshown(node, v.entries[p]);
      node.queue.SizeOfContents();
      x := node.queue.Pop();
      ItemAt(v.items, x.id, p);
      ItemsAfterRemove(v.items, x.id);
      ghost var items := v.items - {x.id};
      Reshown(node, v.entries[p].(heap := RR.ItemsAt(items, p)));
      Refill(node, items);
    }

    method Drop(node: GroupNode, id: nat) returns (x: Option<Item>)
      requires InHeap() && Coherent(v) && At(node)
      modifies node.queue, `v
      ensures var at := RR.ItemsAt(old(v).items, node.path); x == if id in at then Some(at[id]) else None
      ensures v == if x.Some? then Fill(old(v), node.path, old(v).items - {id}) else old(v)
      ensures Coherent(v)
      ensures InHeap()
    {
      hide Coherent, Shows, Owned, Linked, RR.ItemsAt, Split;
      hide PriorityMemoryQueue.Valid, PriorityMemoryQueue.InOrder, PriorityMemoryQueue.Contents;
      ghost var p := node.path;
      Apart(v, p);
      PlaceOf(v, p);
      Reshown(node, v.entries[p]);
      x := node.queue.Delete(id);
      ghost var items := if x.Some? then v.items - {id} else v.items;
      ItemAt(v.items, id, p);
      if x.Some? {
        ItemsAfterRemove(v.items, id);
      }
      Reshown(node, v.entries[p].(heap := RR.ItemsAt(items, p)));
      Refill(node, items);
      FilledSame(old(v), p);
    }

    method Change(node: GroupNode, id: nat, priority: int)
      requires InHeap() && Coherent(v) && At(node)
      modifies node.queue, `v
      ensures v == if id in RR.ItemsAt(old(v).items, node.path)
                   then Fill(old(v), node.path, old(v).items[id := old(v).items[id].(priority := priority)]) else old(v)
      ensures Coherent(v)
      ensures InHeap()
    {
      hide Coherent, Shows, Owned, Linked, RR.ItemsAt, Split;
      hide PriorityMemoryQueue.Valid, PriorityMemoryQueue.InOrder, PriorityMemoryQueue.Contents;
      ghost var p := node.path;
      Apart(v, p);
      PlaceOf(v, p);
      Reshown(node, v.entries[p]);
      ItemAt(v.items, id, p);
      node.queue.UpdatePriority(id, priority);
      ghost var items := v.items;
      if id in RR.ItemsAt(v.items, p) {
        ItemsAfterChange(v.items, id, priority);
        items := v.items[id := v.items[id].(priority := priority)];
      }
      Reshown(node, v.entries[p].(heap := RR.ItemsAt(items, p)));
      Refill(node, items);
      FilledSame(old(v), p);
    }

    lemma FieldsAt(node: GroupNode)
      requires InHeap() && Coherent(v) && At(node)
      ensures node in members && node.queue in heaps && Shows(node, v.entries[node.path])
      ensures var e := v.entries[node.path];
        && node.childrenList == e.childrenList && node.currentChild == e.currentChild
        && node.messageCount == e.messageCount && node.ready == e.ready
      ensures node.childrenList == v.tree[node.path].names
    {
      hide Coherent, HeapShows;
      PlaceOf(v, node.path);
    }

    // ---------- Along a path ----------

    /** Adds `n` to the message count of the leaf and of everything above it. */
    method Tally(leaf: GroupNode, n: int)
      requires InHeap() && Coherent(v) && At(leaf)
      requires forall p :: p in v.entries && p <= leaf.path ==> v.entries[p].messageCount + n >= 0
      modifies members`ready, members`messageCount, `v
      ensures v == old(v).(entries := Shift(old(v).entries, leaf.path, 0, n))
      ensures Coherent(v)
      ensures InHeap()
    {
      hide Coherent, Shows, FairRoundRobinQueue.InHeap, Shift;
      ghost var l, e := leaf.path, v.entries;
      var node: GroupNode? := leaf;
      ghost var k := |l| + 1;
      ShiftNothing(e, l, n);
      while node != null
        invariant 0 <= k <= |l| + 1 && (node == null <==> k == 0)
        invariant node != null ==> At(node) && node.path == l[..k - 1]
        invariant v == old(v).(entries := Shift(e, l, k, n))
        invariant Coherent(v)
        invariant InHeap()
        decreases k
      {
        OneUp(v, l, k);
        FieldsAt(node);
        ShiftStep(e, l, k, n);
        MarkNode(node, node.messageCount + n, node.ready);
        node := node.parent;
        k := k - 1;
      }
    }

    lemma ChildrenAt(node: GroupNode)
      requires InHeap() && Coherent(v) && At(node)
      ensures forall c :: c in node.children <==> c in v.tree[node.path].names
      ensures forall c :: c in node.children ==>
        At(node.children[c]) && node.children[c].path == RR.Child(node.path, c)
      ensures node.groupKey == Join(node.path)
    {
      hide Coherent, Join;
      PlaceOf(v, node.path);
      forall c | c in node.children ensures At(node.children[c]) && node.children[c].path == RR.Child(node.path, c) {
        PlaceOf(v, RR.Child(node.path, c));
      }
    }

    /** Creates an empty leaf under the node. */
    method NewLeaf(node: GroupNode, name: string) returns (child: GroupNode)
      requires InHeap() && Coherent(v) && At(node) && (node.path != [] ==> node.groupKey != "")
      requires RR.Child(node.path, name) !in v.nodes && RR.ItemsAt(v.items, RR.Child(node.path, name)) == map[]
      modifies node`children, node`childrenList, node`currentChild, `v, `members, `heaps
      ensures fresh(child) && fresh(child.queue) && child.path == RR.Child(node.path, name)
      ensures members == old(members) + {child} && heaps == old(heaps) + {child.queue}
      ensures v == Sprout(old(v), node.path, name, child)
      ensures Coherent(v)
      ensures InHeap()
    {
      hide Coherent, FairRoundRobinQueue.InHeap, RR.ItemsAt;
      child := MakeChild(node, name);
      AdoptChild(node, name, child);
      Append(node, name, child);
    }

    /** The same, after which the node counts as a leaf no longer. */
    method Grow(node: GroupNode, name: string) returns (child: GroupNode)
      requires Synced() && Exact(v, maxUnacked) && At(node) && (node.path != [] ==> node.groupKey != "")
      requires name !in v.tree[node.path].names && RR.Child(node.path, name) !in v.tree
      requires !RR.Holds(v.items, RR.Child(node.path, name))
      modifies node, `v, `members, `heaps, `readyLeaves
      ensures fresh(child) && fresh(child.queue)
      ensures members == old(members) + {child} && heaps == old(heaps) + {child.queue}
      ensures At(child) && child.path == RR.Child(node.path, name)
      ensures v.tree == Steps.GrownOnce(old(v).tree, node.path, name)
      ensures v.items == old(v).items && v.unacked == old(v).unacked
      ensures Synced() && Exact(v, maxUnacked)
    {
      hide Coherent, Shows, FairRoundRobinQueue.InHeap, Exact, ExactBut, Sized, Steps.GrownOnce, Indexed;
      hide RR.IsReadyLeaf, RR.ItemsAt, RR.Holds, ReadyPaths, Sprout, Refresh, Counts;
      ghost var p, q := node.path, RR.Child(node.path, name);
      SameDomain(v, q);
      NothingAt(v.items, q);
      child := NewLeaf(node, name);
      SproutGrows(old(v), p, name, child);
      SproutReady(old(v), p, name, child);
      SproutExact(old(v), maxUnacked, p, name, child);
      IndexKept(old(v).nodes, groupKeyToLeaf, q, child);
      Refreshed(v, maxUnacked, p);
      RefreshLeafReady(node);
    }

    /** One segment of the descent: creates the child if there is none. */
    method Step(node: GroupNode, name: string) returns (child: GroupNode)
      requires Synced() && Exact(v, maxUnacked) && At(node) && (node.path != [] ==> node.groupKey != "")
      requires name in v.tree[node.path].names <==> RR.Child(node.path, name) in v.tree
      requires RR.Child(node.path, name) in v.tree || !RR.Holds(v.items, RR.Child(node.path, name))
      modifies node, `v, `members, `heaps, `readyLeaves
      ensures fresh(members - old(members)) && fresh(heaps - old(heaps)) && old(members) <= members
      ensures At(child) && child.path == RR.Child(node.path, name)
      ensures v.tree == Steps.GrownOnce(old(v).tree, node.path, name)
      ensures v.items == old(v).items && v.unacked == old(v).unacked
      ensures Synced() && Exact(v, maxUnacked)
    {
      hide FairRoundRobinQueue.InHeap, FairRoundRobinQueue.Synced, Coherent, Exact, Steps.GrownOnce, RR.Holds;
      ChildrenAt(node);
      if name !in node.children {
        child := Grow(node, name);
      } else {
        Steps.GrownAlready(v.tree, node.path, name);
        child := node.children[name];
      }
    }

    /** The node at the end of the path, with every node on the way created as needed. */
    method Descend(l: Path) returns (leaf: GroupNode)
      requires Synced() && Exact(v, maxUnacked) && RR.WellFormed(State()) && ValidPath(l)
      modifies members, `v, `members, `heaps, `readyLeaves
      ensures fresh(members - old(members)) && fresh(heaps - old(heaps)) && old(members) <= members
      ensures At(leaf) && leaf.path == l && v.tree == RR.Grown(old(v).tree, l)
      ensures v.items == old(v).items && v.unacked == old(v).unacked
      ensures Synced() && Exact(v, maxUnacked)
    {
      hide FairRoundRobinQueue.InHeap, FairRoundRobinQueue.Synced, Coherent, Exact, Counts;
      hide Steps.GrownOnce, RR.Grown, RR.Holds, RR.WellFormed, Join;
      ghost var s := State();
      leaf := root;
      PlaceOf(v, []);
      assert [] in s.nodes;
      Steps.GrownNothing(s.nodes);
      for i := 0 to |l|
        invariant fresh(members - old(members)) && fresh(heaps - old(heaps)) && old(members) <= members
        invariant At(leaf) && leaf.path == l[..i] && v.tree == RR.Grown(s.nodes, l[..i])
        invariant v.items == s.items && v.unacked == s.unacked
        invariant Synced() && Exact(v, maxUnacked)
      {
        DescentStep(s, l, i);
        PlaceOf(v, leaf.path);
        FieldsAt(leaf);
        leaf := Step(leaf, l[i]);
      }
      assert l[..|l|] == l;
    }

    method PushCounted(leaf: GroupNode, x: Item)
      requires InHeap() && Coherent(v) && At(leaf) && x.id !in v.items && Split(x.group) == leaf.path
      modifies leaf.queue, members`ready, members`messageCount, `v
      ensures v == Recount(old(v), leaf.path, old(v).items[x.id := x], 1)
      ensures Coherent(v)
      ensures InHeap()
    {
      hide FairRoundRobinQueue.InHeap, Coherent, RR.ItemsAt, Shift, Split;
      Push(leaf, x);
      Tally(leaf, 1);
    }

    /** Queues the item at its node, counts it and files the node in the index. */
    method Insert(leaf: GroupNode, x: Item)
      requires Synced() && Exact(v, maxUnacked) && At(leaf) && leaf.path == Split(x.group) && x.id !in v.items
      modifies leaf.queue, members`ready, members`messageCount, `v, `groupKeyToLeaf, `readyLeaves
      ensures groupKeyToLeaf == old(groupKeyToLeaf)[x.group := leaf]
      ensures v.items == old(v).items[x.id := x] && v.tree == old(v).tree && v.unacked == old(v).unacked
      ensures Synced() && Exact(v, maxUnacked)
    {
      hide FairRoundRobinQueue.InHeap, Coherent, Exact, ExactBut, Indexed, Recount, Refresh, ReadyPaths, Sized, Split;
      hide Counts;
      FieldsAt(leaf);
      AddedExact(v, maxUnacked, x);
      PushCounted(leaf, x);
      IndexGrown(v.nodes, groupKeyToLeaf, x.group);
      groupKeyToLeaf := groupKeyToLeaf[x.group := leaf];
      Refreshed(v, maxUnacked, leaf.path);
      RefreshLeafReady(leaf);
    }

    /** Queues the item under its own group. */
    method Place(x: Item)
      requires Synced() && Exact(v, maxUnacked) && RR.WellFormed(State()) && ValidGroup(x.group) && x.id !in v.items
      modifies members, heaps, `v, `members, `heaps, `readyLeaves, `groupKeyToLeaf
      ensures fresh(members - old(members)) && fresh(heaps - old(heaps))
      ensures v.items == old(v).items[x.id := x] && v.unacked == old(v).unacked
      ensures v.tree == RR.Grown(old(v).tree, Split(x.group))
      ensures groupKeyToLeaf.Keys == old(groupKeyToLeaf).Keys + {x.group}
      ensures Synced() && Exact(v, maxUnacked)
    {
      hide FairRoundRobinQueue.InHeap, FairRoundRobinQueue.Synced, Coherent, Exact, Counts, StateOf;
      hide RR.Grown, RR.WellFormed, Split, Keyed;
      var groups := Split(x.group);
      var leaf := Descend(groups);
      FieldsAt(leaf);
      Insert(leaf, x);
    }

    method Enqueue(group: string, item: Item)
      requires Valid() && ValidGroup(RR.GroupOrDefault(group)) && item.id !in State().items
      modifies this, members, heaps
      ensures fresh(members - old(members)) && fresh(heaps - old(heaps))
      ensures State() == RR.Enqueue(old(State()), group, item.id, item.priority)
      ensures Valid()
    {
      hide FairRoundRobinQueue.InHeap, FairRoundRobinQueue.Synced, Coherent, Exact, Counts, Listed;
      hide RR.Grown, RR.WellFormed, Split, ValidGroup, Keyed;
      var key := RR.GroupOrDefault(group);
      var x := Item(item.id, item.priority, key);
      ListedMore(v.items, groupKeyToLeaf.Keys, totalMessages, x);
      RRP.EnqueueWellFormed(State(), group, item.id, item.priority);
      Place(x);
      totalMessages := totalMessages + 1;
    }

    // ---------- Removing emptied nodes ----------

    method IndexOfChild(list: seq<string>, name: string) returns (i: nat)
      requires name in list
      ensures i < |list| && list[i] == name
    {
      i := 0;
      while list[i] != name
        invariant i < |list| && name !in list[..i]
        decreases |list| - i
      {
        i := i + 1;
      }
    }

    method DropReady(node: GroupNode)
      requires InHeap() && Coherent(v) && Sized(ReadyPaths(v.entries), readyLeaves) && At(node)
      modifies node`ready, node`messageCount, `v, `readyLeaves
      ensures v == Mark(old(v), node.path, old(v).entries[node.path].messageCount, false)
      ensures InHeap() && Coherent(v) && Sized(ReadyPaths(v.entries), readyLeaves)
    {
      hide FairRoundRobinQueue.InHeap, Coherent, Sized, ReadyPaths;
      FieldsAt(node);
      if node.ready {
        SetReady(node, false);
      } else {
        MarkedSame(v, node.path);
      }
    }

    /** Takes the child out of its parent's list and out of the tree. */
    method RemoveChild(parent: GroupNode, name: string)
      requires InHeap() && Coherent(v) && At(parent)
      requires name in v.tree[parent.path].names && RR.RingOk(v.tree[parent.path])
      requires forall r :: r in v.nodes ==> !(RR.Child(parent.path, name) < r)
      modifies parent`children, parent`childrenList, parent`currentChild, `v
      ensures v == Shed(old(v), parent.path, name)
      ensures InHeap() && Coherent(v)
    {
      hide FairRoundRobinQueue.InHeap, Coherent, RR.Dropped;
      FieldsAt(parent);
      RRP.DroppedOk(v.tree[parent.path], name);
      var i := IndexOfChild(parent.childrenList, name);
      Unlist(parent, name, i);
      AbandonChild(parent.path, name);
    }

    /** Takes the child out of the tree and out of the index. */
    method Detach(parent: GroupNode, name: string)
      requires Synced() && At(parent) && name in v.tree[parent.path].names && RR.RingOk(v.tree[parent.path])
      requires ExactBut(v, maxUnacked, RR.Child(parent.path, name))
      requires forall r :: r in v.nodes ==> !(RR.Child(parent.path, name) < r)
      modifies members, `v, `groupKeyToLeaf, `readyLeaves
      ensures v.tree == Steps.Cut(old(v).tree, parent.path, name)
      ensures v.nodes == old(v).nodes - {RR.Child(parent.path, name)}
      ensures v.items == old(v).items && v.unacked == old(v).unacked
      ensures groupKeyToLeaf == old(groupKeyToLeaf) - {Join(RR.Child(parent.path, name))}
      ensures Synced() && ExactBut(v, maxUnacked, parent.path)
    {
      hide FairRoundRobinQueue.InHeap, Coherent, ExactBut, Sized, Indexed, ReadyPaths, Shed, Steps.Cut, Counts;
      hide RR.RingOk, RR.Dropped, Join, Mark;
      ghost var p, q := parent.path, RR.Child(parent.path, name);
      ChildrenAt(parent);
      FieldsAt(parent);
      var child := parent.children[name];
      ChildrenAt(child);
      FieldsAt(child);
      MarkedBut(v, maxUnacked, q, false);
      DropReady(child);
      ShedCuts(v, p, name);
      ShedExact(v, maxUnacked, p, name);
      IndexLess(v.nodes, groupKeyToLeaf, q);
      RemoveChild(parent, name);
      groupKeyToLeaf := groupKeyToLeaf - {child.groupKey};
    }

    /** Removes the emptied child, and every ancestor that is empty too. */
    method RemoveEmptyChild(parent: GroupNode, name: string)
      requires Synced() && At(parent) && Removable(v, RR.Child(parent.path, name))
      requires ExactBut(v, maxUnacked, RR.Child(parent.path, name)) && ValidPath(RR.Child(parent.path, name))
      modifies members, `v, `groupKeyToLeaf, `readyLeaves
      ensures v.tree == RR.Pruned(old(v).tree, v.items, RR.Child(parent.path, name))
      ensures v.items == old(v).items && v.unacked == old(v).unacked
      ensures Shrunk(old(v).nodes, v.nodes, old(groupKeyToLeaf), groupKeyToLeaf)
      ensures Synced() && Exact(v, maxUnacked)
      decreases |parent.path|, 1
    {
      hide FairRoundRobinQueue.InHeap, FairRoundRobinQueue.Synced, Coherent, Exact, ExactBut, RR.Pruned, Steps.Cut;
      hide Counts;
      hide RR.Holds, Removable, RR.OnTree, Shrunk, Join, ValidPath;
      ghost var p, nodes, index := parent.path, v.nodes, groupKeyToLeaf;
      RemovableNow(v, p, name);
      ValidFront(p, name);
      Detach(parent, name);
      ShrunkBy(nodes, v.nodes, index, RR.Child(p, name));
      RemovableNext(old(v), v, maxUnacked, p, name);
      ghost var nodes', index' := v.nodes, groupKeyToLeaf;
      Rise(parent);
      ShrunkOn(nodes, nodes', v.nodes, index, index', groupKeyToLeaf);
    }

    /** A node that lost a child goes as well if nothing is left below it, and may be ready otherwise. */
    method Rise(node: GroupNode)
      requires Synced() && At(node) && ExactBut(v, maxUnacked, node.path) && ValidPath(node.path)
      requires node.path != [] && v.entries[node.path].messageCount == 0 ==> Removable(v, node.path)
      modifies members, `v, `groupKeyToLeaf, `readyLeaves
      ensures node.path != [] && old(v).entries[node.path].messageCount == 0 ==>
        RR.OnTree(old(v).tree, node.path) && v.tree == RR.Pruned(old(v).tree, v.items, node.path)
      ensures node.path == [] || old(v).entries[node.path].messageCount != 0 ==> v.tree == old(v).tree
      ensures v.items == old(v).items && v.unacked == old(v).unacked
      ensures Shrunk(old(v).nodes, v.nodes, old(groupKeyToLeaf), groupKeyToLeaf)
      ensures Synced() && Exact(v, maxUnacked)
      decreases |node.path|, 0
    {
      hide FairRoundRobinQueue.InHeap, FairRoundRobinQueue.Synced, Coherent, Exact, ExactBut, RR.Pruned, Counts;
      hide RR.Holds, RR.OnTree, Refresh, Shrunk, Join, ValidPath, RR.RingOk;
      ghost var p := node.path;
      FieldsAt(node);
      PlaceOf(v, p);
      Apart(v, []);
      if node != root && node.messageCount == 0 {
        PlaceOf(v, p[..|p| - 1]);
        assert RR.Child(p[..|p| - 1], node.name) == p;
        RemoveEmptyChild(node.parent, node.name);
      } else {
        ShrunkNot(v.nodes, groupKeyToLeaf);
        Refreshed(v, maxUnacked, p);
        RefreshLeafReady(node);
      }
    }

    /** After an item left its heap: counts it out and removes its node if that was the last. */
    method Settle(leaf: GroupNode, ghost x: Item)
      requires Synced() && At(leaf) && leaf.path == Split(x.group) && Pending(v, maxUnacked, x)
      modifies members, `v, `groupKeyToLeaf, `readyLeaves
      ensures RR.OnTree(old(v).tree, Split(x.group))
      ensures v.tree == RR.Pruned(old(v).tree, v.items, Split(x.group))
      ensures v.items == old(v).items && v.unacked == old(v).unacked
      ensures Shrunk(old(v).nodes, v.nodes, old(groupKeyToLeaf), groupKeyToLeaf)
      ensures Synced() && Exact(v, maxUnacked)
    {
      hide FairRoundRobinQueue.InHeap, Coherent, Exact, ExactBut, Pending, CountedOut, RR.Pruned, RR.OnTree, RR.Holds;
      hide Sized, ReadyPaths, Counts, Indexed, Split, ValidPath, Refresh, Removable, CountsOf, Shrunk;
      ghost var l := leaf.path;
      PendingPlace(v, maxUnacked, x);
      CountedOutExact(v, maxUnacked, x);
      TallyOut(leaf);
      FieldsAt(leaf);
      PlaceOf(v, l);
      Emptied(old(v), v, maxUnacked, x);
      if leaf.messageCount == 0 {
        PlaceOf(v, l[..|l| - 1]);
        assert RR.Child(l[..|l| - 1], leaf.name) == l;
        RemoveEmptyChild(leaf.parent, leaf.name);
      } else {
        ShrunkNot(v.nodes, groupKeyToLeaf);
        Refreshed(v, maxUnacked, l);
        RefreshLeafReady(leaf);
      }
    }

    method TallyOut(leaf: GroupNode)
      requires InHeap() && Coherent(v) && At(leaf)
      requires forall p :: p in v.entries && p <= leaf.path ==> v.entries[p].messageCount > 0
      modifies members`ready, members`messageCount, `v
      ensures v == CountedOut(old(v), leaf.path)
      ensures InHeap() && Coherent(v)
    {
      hide FairRoundRobinQueue.InHeap, Coherent, Shift;
      Tally(leaf, -1);
    }

    // ---------- The walk ----------

    lemma LinkedAt(node: GroupNode)
      requires InHeap() && Coherent(v) && At(node)
      ensures ChildrenOk(v.nodes, node.path, node.children, node.childrenList)
    {
      hide Coherent, ChildrenOk;
    }

    /** Points the cursor at a child. */
    method PointTo(node: GroupNode, current: string, ghost i: nat)
      requires Synced() && At(node) && i < |v.tree[node.path].names| && v.tree[node.path].names[i] == current
      modifies node`children, node`childrenList, node`currentChild, `v
      ensures v.tree == old(v).tree[node.path := old(v).tree[node.path].(cursor := i)]
      ensures v.items == old(v).items && Follows(old(v), v)
      ensures node.currentChild == Some(current)
      ensures Synced()
    {
      hide FairRoundRobinQueue.InHeap, Coherent, Sized, Indexed, Counts, ChildrenOk, ReadyPaths;
      FieldsAt(node);
      PlaceOf(v, node.path);
      LinkedAt(node);
      Relist(node, node.children, node.childrenList, Some(current), v.tree[node.path].(cursor := i));
      FieldsAt(node);
      TalliesSame(old(v).entries, v.entries);
    }

    /** Sets an unset cursor to the head of the list. */
    method Begin(node: GroupNode)
      requires Synced() && At(node) && v.tree[node.path].names != []
      modifies node`children, node`childrenList, node`currentChild, `v
      ensures v.tree == old(v).tree && v.items == old(v).items && Follows(old(v), v)
      ensures node.currentChild.Some? && Synced()
    {
      hide FairRoundRobinQueue.InHeap, FairRoundRobinQueue.Synced, Coherent, Counts;
      FieldsAt(node);
      PlaceOf(v, node.path);
      if node.currentChild == None {
        PointTo(node, node.childrenList[0], 0);
      }
    }

    /** Moves the cursor to the next child, from the last one to the head. */
    method Advance(node: GroupNode)
      requires Synced() && At(node) && RR.RingOk(v.tree[node.path]) && node.currentChild.Some?
      modifies node`children, node`childrenList, node`currentChild, `v
      ensures var p, r := node.path, old(v).tree[node.path];
        v.tree == old(v).tree[p := r.(cursor := if r.cursor + 1 == |r.names| then 0 else r.cursor + 1)]
      ensures v.items == old(v).items && Follows(old(v), v)
      ensures node.currentChild.Some? && Synced()
    {
      hide FairRoundRobinQueue.InHeap, FairRoundRobinQueue.Synced, Coherent, Counts;
      FieldsAt(node);
      PlaceOf(v, node.path);
      var list := node.childrenList;
      var i := IndexOfChild(list, node.currentChild.value);
      var next := if i + 1 == |list| then list[0] else list[i + 1];
      PointTo(node, next, if i + 1 == |list| then 0 else i + 1);
    }

    /** Pops from a leaf. */
    method PopHere(node: GroupNode) returns (x: Option<Item>)
      requires Synced() && At(node) && RR.WellFormed(State()) && v.tree[node.path].names == []
      modifies node.queue, `v
      ensures Follows(old(v), v) && Steps.Walked(old(State()), State(), node.path, x)
      ensures Synced()
    {
      hide FairRoundRobinQueue.InHeap, Coherent, Sized, Indexed, Counts, ReadyPaths, RR.ItemsAt, RR.WellFormed;
      hide PriorityMemoryQueue.Valid, PriorityMemoryQueue.Contents, PriorityMemoryQueue.InOrder;
      FieldsAt(node);
      PlaceOf(v, node.path);
      EmptyHeap(node.queue);
      if node.queue.Len() == 0 {
        return None;
      }
      var y := Pop(node);
      Steps.WalkedHere(old(State()), node.path, y);
      TalliesSame(old(v).entries, v.entries);
      x := Some(y);
    }

    /** Whether the group of the node has a free slot. */
    method HasSlot(node: GroupNode) returns (free: bool)
      requires Synced() && At(node)
      ensures free <==> RR.UnderLimit(State(), node.path)
    {
      hide FairRoundRobinQueue.InHeap, Coherent, Indexed, Sized, Join;
      PlaceOf(v, node.path);
      free := Counter(unackedByGroup, node.groupKey) < maxUnacked;
    }

    /** Visits the child whose turn it is. */
    method VisitInTurn(node: GroupNode, ghost s: RR.State, ghost k: nat) returns (x: Option<Item>)
      requires Synced() && At(node) && RR.WellFormed(s) && node.path in s.nodes
      requires s.nodes[node.path].cursor < |s.nodes[node.path].names| && k < |s.nodes[node.path].names|
      requires State() == Steps.InTurn(s, node.path, k) && node.currentChild.Some?
      modifies members, heaps, `v
      ensures Follows(old(v), v) && Steps.ChildVisited(s, node.path, k, State(), x)
      ensures Synced()
      decreases RR.Descendants(s.nodes, node.path), 0
    {
      hide FairRoundRobinQueue.InHeap, FairRoundRobinQueue.Synced, Coherent, Counts, RR.WellFormed, RR.Descendants;
      hide RR.UnderLimit, RR.Scan, RR.Walk, Steps.Walked, Steps.Spot, Follows;
      Steps.ScanStep(s, node.path, k);
      ChildrenAt(node);
      FieldsAt(node);
      PlaceOf(v, node.path);
      var child := node.children[node.currentChild.value];
      x := VisitChild(child);
    }

    /** The same, after which it is the next child's turn. */
    method Visit(node: GroupNode, ghost s: RR.State, ghost k: nat) returns (x: Option<Item>)
      requires Synced() && At(node) && RR.WellFormed(s) && node.path in s.nodes
      requires s.nodes[node.path].cursor < |s.nodes[node.path].names| && k < |s.nodes[node.path].names|
      requires State() == Steps.InTurn(s, node.path, k) && node.currentChild.Some?
      modifies members, heaps, `v
      ensures Follows(old(v), v) && node.currentChild.Some?
      ensures x == None ==> State() == Steps.InTurn(s, node.path, k + 1)
      ensures x == None ==> RR.Scan(s, node.path, k) == RR.Scan(s, node.path, k + 1)
      ensures x.Some? && RR.Walk(s, node.path) == RR.Scan(s, node.path, k) ==>
        Steps.Walked(s, State(), node.path, x)
      ensures Synced()
      decreases RR.Descendants(s.nodes, node.path), 1
    {
      hide FairRoundRobinQueue.InHeap, FairRoundRobinQueue.Synced, Coherent, Counts, RR.WellFormed, RR.Descendants;
      hide RR.Scan, RR.Walk, Steps.Walked, Steps.Spot, Follows, Steps.ChildVisited;
      ghost var p := node.path;
      RR.RingOnTree(s, p);
      FieldsAt(node);
      x := VisitInTurn(node, s, k);
      ghost var w := v;
      FollowsAt(old(v), w, p);
      Steps.Visited(s, p, k, State(), x);
      Steps.SpotFacts(s.nodes[p], k);
      FieldsAt(node);
      Advance(node);
      FollowsOn(old(v), w, v);
      FollowsAt(w, v, p);
    }

    /** The child is skipped while its group has no free slot. */
    method VisitChild(child: GroupNode) returns (x: Option<Item>)
      requires Synced() && At(child) && RR.WellFormed(State())
      modifies members, heaps, `v
      ensures Follows(old(v), v)
      ensures if RR.UnderLimit(old(State()), child.path) then Steps.Walked(old(State()), State(), child.path, x)
              else x == None && State() == old(State())
      ensures Synced()
      decreases RR.Descendants(v.tree, child.path), 4
    {
      hide FairRoundRobinQueue.InHeap, FairRoundRobinQueue.Synced, Coherent, Counts, RR.WellFormed, RR.Descendants;
      hide RR.UnderLimit, Steps.Walked, Follows;
      FollowsItself(v);
      var free := HasSlot(child);
      if free {
        x := DequeueFromNode(child);
      } else {
        x := None;
      }
    }

    /** One round through the children, until one gives an item. */
    method ScanChildren(node: GroupNode) returns (x: Option<Item>)
      requires Synced() && At(node) && RR.WellFormed(State()) && v.tree[node.path].names != []
      requires node.currentChild.Some?
      modifies members, heaps, `v
      ensures Follows(old(v), v) && Steps.Walked(old(State()), State(), node.path, x)
      ensures Synced()
      decreases RR.Descendants(v.tree, node.path), 2
    {
      hide FairRoundRobinQueue.InHeap, FairRoundRobinQueue.Synced, Coherent, Counts, RR.WellFormed, RR.Descendants;
      hide RR.Scan, Steps.Spot, Follows, Steps.PoppedAt;
      ghost var p, s := node.path, State();
      Steps.TurnedBack(s, p);
      RR.RingOnTree(s, p);
      FollowsItself(v);
      FieldsAt(node);
      PlaceOf(v, p);
      var start := node.currentChild;
      var visited, maxVisits := 0, |node.childrenList|;
      while visited < maxVisits
        invariant 0 <= visited <= maxVisits == |s.nodes[p].names|
        invariant State() == Steps.InTurn(s, p, visited) && Follows(old(v), v)
        invariant RR.Walk(s, p) == RR.Scan(s, p, visited)
        invariant node.currentChild.Some? && Synced()
      {
        ghost var w := v;
        FollowsAt(old(v), w, p);
        x := Visit(node, s, visited);
        FollowsOn(old(v), w, v);
        FollowsAt(w, v, p);
        if x.Some? {
          return;
        }
        visited := visited + 1;
        FieldsAt(node);
        PlaceOf(v, p);
        Steps.SpotFacts(s.nodes[p], visited - 1);
        if node.currentChild == start {
          break;
        }
      }
      x := None;
    }

    /** Pops from a leaf, and elsewhere from the first child in turn that has something to give. */
    method DequeueFromNode(node: GroupNode) returns (x: Option<Item>)
      requires Synced() && At(node) && RR.WellFormed(State())
      modifies members, heaps, `v
      ensures Follows(old(v), v) && Steps.Walked(old(State()), State(), node.path, x)
      ensures Synced()
      decreases RR.Descendants(v.tree, node.path), 3
    {
      hide FairRoundRobinQueue.InHeap, FairRoundRobinQueue.Synced, Coherent, Counts, RR.WellFormed, RR.Descendants;
      hide Steps.Walked, Follows;
      ChildrenAt(node);
      FieldsAt(node);
      SameElements(node.children.Keys, node.childrenList);
      if |node.children| == 0 {
        x := PopHere(node);
      } else {
        Begin(node);
        ghost var w := v;
        FollowsAt(old(v), w, node.path);
        x := ScanChildren(node);
        FollowsOn(old(v), w, v);
      }
    }

    // ---------- The interface ----------

    /** Sets the counter of a group, whose node must be looked at again afterwards. */
    method SetSlots(group: string, counters: map<string, int>, ghost unacked: multiset<string>)
      requires Synced() && Exact(v, maxUnacked) && Counts(counters, unacked)
      requires forall h: string :: h != group ==> unacked[h] == v.unacked[h]
      modifies `unackedByGroup, `v
      ensures v == old(v).(unacked := unacked)
      ensures ExactBut(v, maxUnacked, Split(group)) && (Absent(v.items, group) ==> Exact(v, maxUnacked))
      ensures Synced()
    {
      hide Coherent, Exact, ExactBut, Counts, Sized, Indexed, ReadyPaths, Split, Absent, Shows, Owned, Linked;
      SlotExact(v, maxUnacked, unacked, group);
      CountersApart(v, unacked);
      unackedByGroup := counters;
      v := v.(unacked := unacked);
    }

    /** Refreshes the node of a group, if it is queued. */
    method RefreshGroup(group: string)
      requires Synced() && ExactBut(v, maxUnacked, Split(group)) && (Absent(v.items, group) ==> Exact(v, maxUnacked))
      requires group !in groupKeyToLeaf ==> Absent(v.items, group)
      modifies members, `v, `readyLeaves
      ensures State() == old(State())
      ensures Synced() && Exact(v, maxUnacked)
    {
      hide FairRoundRobinQueue.InHeap, Coherent, Exact, ExactBut, Counts, Sized, ReadyPaths, Split, Absent, Refresh;
      if group in groupKeyToLeaf {
        var leaf := groupKeyToLeaf[group];
        PlaceOf(v, Split(group));
        FieldsAt(leaf);
        Refreshed(v, maxUnacked, leaf.path);
        RefreshLeafReady(leaf);
      }
    }

    method MarkUnacked(group: string)
      requires Valid()
      modifies this, members
      ensures members == old(members) && heaps == old(heaps) && State() == RR.MarkUnacked(old(State()), group)
      ensures Valid()
    {
      hide FairRoundRobinQueue.InHeap, FairRoundRobinQueue.Synced, Coherent, Exact, ExactBut, Counts, Listed;
      hide RR.WellFormed, Split;
      Counted(unackedByGroup, v.unacked, group);
      AbsentOr(v.items, groupKeyToLeaf.Keys, totalMessages, group);
      AnySlots(State(), v.unacked + multiset{group});
      SetSlots(group, unackedByGroup[group := Counter(unackedByGroup, group) + 1], v.unacked + multiset{group});
      RefreshGroup(group);
    }

    method UpdateWeights(group: string)
      requires Valid()
      modifies this, members
      ensures members == old(members) && heaps == old(heaps) && State() == RR.Release(old(State()), group)
      ensures Valid()
    {
      hide FairRoundRobinQueue.InHeap, FairRoundRobinQueue.Synced, Coherent, Exact, ExactBut, Listed, RR.WellFormed;
      hide Split;
      Lowered(unackedByGroup, v.unacked, group);
      if group !in unackedByGroup {
        return;
      }
      var count := unackedByGroup[group] - 1;
      var counters := if count <= 0 then unackedByGroup - {group} else unackedByGroup[group := count];
      AbsentOr(v.items, groupKeyToLeaf.Keys, totalMessages, group);
      AnySlots(State(), v.unacked - multiset{group});
      SetSlots(group, counters, v.unacked - multiset{group});
      RefreshGroup(group);
    }

    method TakeSlot(group: string)
      requires Synced()
      modifies `unackedByGroup, `v
      ensures v == old(v).(unacked := old(v).unacked + multiset{group})
      ensures Synced()
    {
      hide Coherent, Counts, Sized, Indexed, ReadyPaths, Shows, Owned, Linked;
      Counted(unackedByGroup, v.unacked, group);
      CountersApart(v, v.unacked + multiset{group});
      unackedByGroup := unackedByGroup[group := Counter(unackedByGroup, group) + 1];
      v := v.(unacked := v.unacked + multiset{group});
    }

    /** Counts the popped item out through the index. */
    method SettleGroup(group: string, ghost x: Item)
      requires Synced() && Pending(v, maxUnacked, x) && x.group == group && group in groupKeyToLeaf
      modifies members, `v, `groupKeyToLeaf, `readyLeaves
      ensures RR.OnTree(old(v).tree, Split(group))
      ensures State() == old(State()).(nodes := RR.Pruned(old(v).tree, v.items, Split(group)))
      ensures Shrunk(old(v).nodes, v.nodes, old(groupKeyToLeaf), groupKeyToLeaf)
      ensures Synced() && Exact(v, maxUnacked)
    {
      hide FairRoundRobinQueue.InHeap, Coherent, Exact, Pending, Counts, Sized, ReadyPaths, Split, RR.Pruned;
      hide RR.OnTree, Shrunk;
      var leaf := groupKeyToLeaf[group];
      PlaceOf(v, Split(group));
      Settle(leaf, x);
    }

    /** The same, with the total. */
    method Finish(group: string, ghost x: Item)
      requires Synced() && Pending(v, maxUnacked, x) && x.group == group
      requires Listed(v.items[x.id := x], groupKeyToLeaf.Keys, totalMessages)
      modifies members, `v, `groupKeyToLeaf, `readyLeaves, `totalMessages
      ensures RR.OnTree(old(v).tree, Split(group))
      ensures State() == old(State()).(nodes := RR.Pruned(old(v).tree, v.items, Split(group)))
      ensures Valid()
    {
      hide FairRoundRobinQueue.InHeap, FairRoundRobinQueue.Synced, Coherent, Exact, Pending, Counts, Listed, Shrunk;
      hide RR.WellFormed, RR.Pruned, RR.OnTree, Split;
      ListedGroup(v.items, groupKeyToLeaf.Keys, totalMessages, x);
      SettleGroup(group, x);
      PendingRemoved(old(v), maxUnacked, x);
      ListedLess(v, maxUnacked, x, old(v).nodes, old(groupKeyToLeaf), groupKeyToLeaf, totalMessages);
      totalMessages := totalMessages - 1;
    }

    method Dequeue(ack: bool) returns (x: Option<Item>)
      requires Valid()
      modifies this, members, heaps
      ensures members == old(members) && heaps == old(heaps) && (x, State()) == RR.Dequeue(old(State()), ack)
      ensures Valid()
    {
      hide FairRoundRobinQueue.InHeap, FairRoundRobinQueue.Synced, Coherent, Exact, Pending, Counts, Listed, Follows;
      hide RR.WellFormed, RR.Walk, RR.Pruned, RR.Advanced, RR.OnTree, Split, Steps.PoppedAt, Steps.AdvancedFrom;
      ghost var s := State();
      PlaceOf(v, []);
      x := DequeueFromNode(root);
      FollowsAt(old(v), v, []);
      if x == None {
        NothingWalked(s);
        FollowsExact(old(v), v, maxUnacked);
        return;
      }
      var y := x.value;
      DequeuePending(old(v), v, maxUnacked, y, ack);
      WalkedTree(s, State(), y);
      if !ack {
        TakeSlot(y.group);
      }
      Finish(y.group, y);
    }

    method Delete(group: string, id: nat) returns (x: Option<Item>)
      requires Valid()
      modifies this, members, heaps
      ensures members == old(members) && heaps == old(heaps) && x == RR.Get(old(State()), group, id)
      ensures State() == RR.Delete(old(State()), group, id)
      ensures Valid()
    {
      hide FairRoundRobinQueue.InHeap, Coherent, Exact, Pending, Counts, Listed, Sized, ReadyPaths;
      hide RR.WellFormed, RR.Pruned, RR.OnTree, Split, RR.ItemsAt;
      ghost var s := State();
      AbsentOr(v.items, groupKeyToLeaf.Keys, totalMessages, group);
      if group !in groupKeyToLeaf {
        return None;
      }
      var leaf := groupKeyToLeaf[group];
      PlaceOf(v, Split(group));
      FieldsAt(leaf);
      x := Drop(leaf, id);
      SameKey(s.items, group, id);
      if x.None? {
        return;
      }
      DropPending(old(v), maxUnacked, id);
      DropKeeps(old(v), leaf.path, s.items - {id});
      KeyOf(s, id);
      assert v.items[id := x.value] == s.items;
      Finish(group, x.value);
    }

    method Get(group: string, id: nat) returns (x: Option<Item>)
      requires Valid()
      ensures x == RR.Get(State(), group, id)
    {
      hide FairRoundRobinQueue.InHeap, Coherent, Exact, Counts, Listed, Sized, RR.WellFormed, Split, RR.ItemsAt;
      hide PriorityMemoryQueue.Valid, PriorityMemoryQueue.Contents, PriorityMemoryQueue.InOrder;
      AbsentOr(v.items, groupKeyToLeaf.Keys, totalMessages, group);
      if group !in groupKeyToLeaf {
        return None;
      }
      var leaf := groupKeyToLeaf[group];
      PlaceOf(v, Split(group));
      FieldsAt(leaf);
      SameKey(v.items, group, id);
      x := leaf.queue.Get(id);
    }

    method UpdatePriority(group: string, id: nat, priority: int)
      requires Valid()
      modifies this, heaps
      ensures members == old(members) && heaps == old(heaps)
      ensures State() == RR.UpdatePriority(old(State()), group, id, priority)
      ensures Valid()
    {
      hide FairRoundRobinQueue.InHeap, Coherent, Exact, Counts, Listed, Sized, ReadyPaths, RR.WellFormed, Split;
      hide RR.ItemsAt;
      ghost var s := State();
      AbsentOr(v.items, groupKeyToLeaf.Keys, totalMessages, group);
      if group !in groupKeyToLeaf {
        return;
      }
      var leaf := groupKeyToLeaf[group];
      PlaceOf(v, Split(group));
      FieldsAt(leaf);
      SameKey(v.items, group, id);
      Change(leaf, id, priority);
      if RR.Get(s, group, id).Some? {
        ChangedExact(old(v), maxUnacked, id, priority);
        DropKeeps(old(v), leaf.path, v.items);
        RRP.UpdatePriorityWellFormed(s, group, id, priority);
        ListedStill(s.items, groupKeyToLeaf.Keys, totalMessages, id, priority);
      }
    }

    /** Every queued group is looked at again. */
    method UpdateMaxUnacked(maxUnacked: uint32)
      requires Valid()
      modifies this, members
      ensures members == old(members) && heaps == old(heaps)
      ensures State() == RR.UpdateMaxUnacked(old(State()), maxUnacked)
      ensures Valid()
    {
      hide FairRoundRobinQueue.InHeap, Coherent, Exact, ExactButFor, Counts, Listed, Sized, ReadyPaths, RR.WellFormed;
      hide Split;
      hide Refresh;
      ListedAll(v, this.maxUnacked, Limit(maxUnacked), groupKeyToLeaf.Keys, totalMessages);
      AnyLimitWellFormed(State(), Limit(maxUnacked));
      this.maxUnacked := Limit(maxUnacked);
      var groups := groupKeyToLeaf.Keys;
      while groups != {}
        invariant groups <= groupKeyToLeaf.Keys && Synced() && ExactButFor(v, this.maxUnacked, groups)
        invariant members == old(members) && heaps == old(heaps) && groupKeyToLeaf == old(groupKeyToLeaf)
        invariant totalMessages == old(totalMessages) && State() == RR.UpdateMaxUnacked(old(State()), maxUnacked)
        decreases groups
      {
        var group :| group in groups;
        var leaf := groupKeyToLeaf[group];
        PlaceOf(v, Split(group));
        FieldsAt(leaf);
        RefreshedFor(v, this.maxUnacked, groups, group);
        RefreshLeafReady(leaf);
        groups := groups - {group};
      }
      ExactForAll(v, this.maxUnacked);
    }

    function Len(): (n: nat)
      requires Valid()
      reads this, members, heaps
      ensures n == |State().items|
    {
      totalMessages
    }

    method PeekReady() returns (ready: bool)
      requires Valid()
      ensures ready <==> RR.PeekReady(State())
    {
      hide FairRoundRobinQueue.InHeap, Coherent, Counts, Listed, RR.WellFormed, RR.IsReadyLeaf;
      ReadyAny(State(), ReadyPaths(v.entries), readyLeaves);
      ready := readyLeaves > 0;
    }

    /** `hasReadyNode`: the gating of the walk, child by child in no particular order. */
    method HasReadyNode(node: GroupNode) returns (ready: bool)
      requires Synced() && At(node) && RR.WellFormed(State())
      ensures ready <==> RR.HasReady(State(), node.path)
      decreases RR.Descendants(v.tree, node.path)
    {
      hide FairRoundRobinQueue.InHeap, FairRoundRobinQueue.Synced, Coherent, Counts, RR.WellFormed, RR.Descendants;
      hide RR.UnderLimit;
      hide RR.ItemsAt, PriorityMemoryQueue.Valid, PriorityMemoryQueue.Contents, PriorityMemoryQueue.InOrder;
      ghost var p := node.path;
      ChildrenAt(node);
      FieldsAt(node);
      PlaceOf(v, p);
      SameElements(node.children.Keys, node.childrenList);
      if |node.children| == 0 {
        EmptyHeap(node.queue);
        return node.queue.Len() > 0;
      }
      var names := node.children.Keys;
      while names != {}
        invariant names <= node.children.Keys
        invariant forall c :: c in node.children && c !in names ==> !GivesReady(State(), p, c)
        decreases names
      {
        var name :| name in names;
        var child := node.children[name];
        ReadyThrough(State(), p, name);
        var free := HasSlot(child);
        if free {
          var below := HasReadyNode(child);
          if below {
            return true;
          }
        }
        names := names - {name};
      }
      ReadyNowhere(State(), p);
      ready := false;
    }

    // ---------- Scheduling state ----------

    /** The scheduling state of the subtree, depth first. */
    method Capture(node: GroupNode) returns (out: seq<Sch.SchedulingNode>)
      requires Synced() && At(node) && RR.WellFormed(State())
      ensures Sch.CapturesBelow(v.tree, out, node.path)
      decreases RR.Descendants(v.tree, node.path)
    {
      hide FairRoundRobinQueue.InHeap, FairRoundRobinQueue.Synced, Coherent, Counts, RR.Descendants, RR.Holds;
      hide RR.WellFormed;
      hide Sch.CapturesFirst, Sch.CapturesBelow, Join;
      ghost var p := node.path;
      FieldsAt(node);
      ChildrenAt(node);
      PlaceOf(v, p);
      RR.RingOnTree(State(), p);
      if |node.childrenList| == 0 {
        CapturesLeaf(State(), p);
        return [];
      }
      var n := Sch.SchedulingNode(node.groupKey, node.childrenList,
                                  if node.currentChild.Some? then node.currentChild.value else "");
      out := [n];
      Sch.CapturesNode(v.tree, p, n);
      for k := 0 to |node.childrenList|
        invariant Sch.CapturesFirst(v.tree, out, p, k)
      {
        RR.ChildHasFewerDescendants(v.tree, p, node.childrenList[k]);
        var below := Capture(node.children[node.childrenList[k]]);
        Sch.CapturesChild(v.tree, out, below, p, k);
        out := out + below;
      }
      CapturesTree(State(), out, p);
    }

    method SchedulingState() returns (out: seq<Sch.SchedulingNode>)
      requires Valid()
      ensures Sch.Captures(State().nodes, out)
    {
      hide FairRoundRobinQueue.InHeap, FairRoundRobinQueue.Synced, Coherent, Counts, Exact, Listed, RR.WellFormed;
      hide Sch.Captures, Sch.CapturesBelow;
      PlaceOf(v, []);
      out := Capture(root);
      Sch.CapturesAll(v.tree, out);
    }

    /** The node at a path of the scheduling state, if it exists. */
    method Find(path: string) returns (node: GroupNode?)
      requires Synced() && RR.WellFormed(State())
      ensures var p := if path == "" then [] else Split(path);
        if p in v.tree then node != null && At(node) && node.path == p else node == null
    {
      hide FairRoundRobinQueue.InHeap, FairRoundRobinQueue.Synced, Coherent, Counts, RR.WellFormed;
      node := root;
      PlaceOf(v, []);
      if path != "" {
        var names := Split(path);
        for i := 0 to |names|
          invariant node != null ==> At(node) && node.path == names[..i]
          invariant node == null ==> names !in v.tree
        {
          if node != null {
            ChildrenAt(node);
            assert RR.Child(names[..i], names[i]) == names[..i + 1];
            OnTheWay(State(), names, i);
            node := if names[i] in node.children then node.children[names[i]] else null;
          }
        }
        assert names[..|names|] == names;
      }
    }

    /** Puts the children of the node into the given order and sets its cursor. */
    method Rearrange(node: GroupNode, n: Sch.SchedulingNode)
      requires Synced() && Exact(v, maxUnacked) && At(node) && RR.RingOk(v.tree[node.path])
      modifies node`children, node`childrenList, node`currentChild, `v
      ensures v.tree == old(v).tree[node.path := Sch.Reordered(old(v).tree[node.path], n.children, n.current)]
      ensures v.items == old(v).items && v.unacked == old(v).unacked && v.nodes == old(v).nodes
      ensures Synced() && Exact(v, maxUnacked)
    {
      hide FairRoundRobinQueue.InHeap, Coherent, Counts, Exact, Indexed, Sized, ReadyPaths, Sch.Reordered, ChildrenOk;
      hide RingShown, Sch.Listed, Sch.Unlisted, RR.RingOk;
      ghost var p := node.path;
      FieldsAt(node);
      LinkedAt(node);
      ghost var r := Sch.Reordered(v.tree[p], n.children, n.current);
      var ordered := Sch.Order(n.children, node.childrenList);
      var cursor := Sch.Locate(ordered, n.current);
      Sch.ReorderedOk(v.tree[p], n.children, n.current);
      ReorderedShown(v.tree[p], n.children, n.current, ordered, cursor);
      SameChildren(v.nodes, p, node.children, node.childrenList, ordered);
      ReorderExact(v, maxUnacked, p, r, cursor);
      Relist(node, node.children, ordered, cursor, r);
    }

    /** The same for the node at a path, if it exists. */
    method RestoreNode(n: Sch.SchedulingNode)
      requires Synced() && Exact(v, maxUnacked) && RR.WellFormed(State())
      modifies members, `v
      ensures State() == old(State()).(nodes := Sch.RestoreNode(old(v).tree, n))
      ensures Synced() && Exact(v, maxUnacked) && RR.WellFormed(State())
    {
      hide FairRoundRobinQueue.InHeap, FairRoundRobinQueue.Synced, Coherent, Counts, Exact, RR.WellFormed, Split;
      hide Sch.Reordered;
      RestoredWellFormed(State(), n);
      var node := Find(n.path);
      if node != null {
        FieldsAt(node);
        RR.RingOnTree(State(), node.path);
        Rearrange(node, n);
      }
    }

    method RestoreSchedulingState(nodes: seq<Sch.SchedulingNode>)
      requires Valid()
      modifies members, `v
      ensures State() == old(State()).(nodes := Sch.RestoreNodes(old(v).tree, nodes))
      ensures Valid()
    {
      hide FairRoundRobinQueue.InHeap, FairRoundRobinQueue.Synced, Coherent, Counts, Exact, Listed, RR.WellFormed;
      hide Sch.RestoreNode;
      for i := 0 to |nodes|
        invariant State() == old(State()).(nodes := Sch.RestoreNodes(old(v).tree, nodes[..i]))
        invariant Synced() && Exact(v, maxUnacked) && RR.WellFormed(State())
      {
        assert nodes[..i + 1][..i] == nodes[..i];
        RestoreNode(nodes[i]);
      }
      assert nodes[..|nodes|] == nodes;
    }
  }

  lemma RestoredWellFormed(s: RR.State, n: Sch.SchedulingNode)
    requires RR.WellFormed(s)
    ensures RR.WellFormed(s.(nodes := Sch.RestoreNode(s.nodes, n)))
  {
    Sch.RestoreNodeFits(s.nodes, s.items, n);
  }

  lemma ReorderedShown(r: RR.Ring, children: seq<string>, current: string, ordered: seq<string>, cursor: Option<string>)
    requires var listed := Sch.Listed(children, r.names, {}); ordered == listed + Sch.Unlisted(r.names, listed)
    requires cursor == if current in ordered then Some(current) else None
    ensures ordered == Sch.Reordered(r, children, current).names
    ensures RingShown(ordered, cursor, Sch.Reordered(r, children, current))
  {
  }

  lemma SameChildren(nodes: Nodes, p: Path, children: map<string, GroupNode>, a: seq<string>, b: seq<string>)
    requires ChildrenOk(nodes, p, children, a) && forall c :: c in b <==> c in a
    ensures ChildrenOk(nodes, p, children, b) && (b == [] <==> a == [])
  {
    assert (a != [] ==> a[0] in a) && (b != [] ==> b[0] in b);
  }

  /** The child is not blocked and leads to a message. */
  ghost predicate GivesReady(s: RR.State, p: Path, c: string)
    requires RR.WellFormed(s)
  {
    RR.Child(p, c) in s.nodes && RR.UnderLimit(s, RR.Child(p, c)) && RR.HasReady(s, RR.Child(p, c))
  }

  lemma ReadyThrough(s: RR.State, p: Path, c: string)
    requires RR.WellFormed(s) && p in s.nodes && c in s.nodes[p].names
    ensures RR.Child(p, c) in s.nodes && RR.Descendants(s.nodes, RR.Child(p, c)) < RR.Descendants(s.nodes, p)
    ensures GivesReady(s, p, c) ==> RR.HasReady(s, p)
  {
    RR.ChildOnTree(s, p, c);
    RR.ChildHasFewerDescendants(s.nodes, p, c);
  }

  lemma ReadyNowhere(s: RR.State, p: Path)
    requires RR.WellFormed(s) && p in s.nodes && s.nodes[p].names != []
    requires forall c :: c in s.nodes[p].names ==> !GivesReady(s, p, c)
    ensures !RR.HasReady(s, p)
  {
  }

  lemma CapturesLeaf(s: RR.State, p: Path)
    requires RR.WellFormed(s) && p in s.nodes && s.nodes[p].names == []
    ensures Sch.CapturesBelow(s.nodes, [], p)
  {
    hide RR.Holds;
    forall q | q in s.nodes && p <= q ensures q == p {
      if q != p {
        RR.NextOnWay(p, q);
        RR.PrefixOnTree(s, RR.Child(p, q[|p|]), q);
        assert false;
      }
    }
  }

  lemma CapturesTree(s: RR.State, sched: seq<Sch.SchedulingNode>, p: Path)
    requires RR.WellFormed(s) && p in s.nodes && Sch.CapturesFirst(s.nodes, sched, p, |s.nodes[p].names|)
    ensures Sch.CapturesBelow(s.nodes, sched, p)
  {
    Sch.CapturesChildren(s.nodes, s.items, sched, p);
  }

  lemma OnTheWay(s: RR.State, l: Path, i: nat)
    requires RR.WellFormed(s) && i < |l| && l[..i] in s.nodes
    ensures RR.Child(l[..i], l[i]) in s.nodes <==> l[i] in s.nodes[l[..i]].names
    ensures l in s.nodes ==> RR.Child(l[..i], l[i]) in s.nodes
  {
    if l in s.nodes {
      assert RR.Child(l[..i], l[i]) == l[..i + 1];
      RR.PrefixOnTree(s, RR.Child(l[..i], l[i]), l);
    }
  }

  lemma ReadyAny(s: RR.State, ready: set<Path>, n: int)
    requires Steps.ReadyExact(s, ready) && Sized(ready, n)
    ensures n > 0 <==> RR.PeekReady(s)
  {
    if n > 0 {
      var p :| p in ready;
      assert RR.IsReadyLeaf(s, p);
    }
  }

  lemma ListedStill(items: map<nat, Item>, groups: set<string>, total: int, id: nat, priority: int)
    requires Listed(items, groups, total) && id in items
    ensures Listed(items[id := items[id].(priority := priority)], groups, total)
  {
    assert items[id := items[id].(priority := priority)].Keys == items.Keys;
  }

  lemma ListedAll(v: View, limit: SlotLimit, limit': SlotLimit, groups: set<string>, total: int)
    requires Listed(v.items, groups, total) && Exact(v, limit)
    ensures ExactButFor(v, limit', groups)
  {
    AnyLimit(v, limit, limit', groups);
  }

  lemma AnyLimitWellFormed(s: RR.State, limit: SlotLimit)
    requires RR.WellFormed(s)
    ensures RR.WellFormed(s.(limit := limit))
  {
  }

  lemma DropKeeps(v: View, p: Path, items: map<nat, Item>)
    requires p in v.entries
    ensures ReadyPaths(Fill(v, p, items).entries) == ReadyPaths(v.entries)
  {
  }

  lemma SameKey(items: map<nat, Item>, g: string, id: nat)
    ensures id in RR.ItemsAt(items, Split(g)) <==> id in items && items[id].group == g
    ensures id in RR.ItemsAt(items, Split(g)) ==> RR.ItemsAt(items, Split(g))[id] == items[id]
  {
    hide Split, Join;
    JoinSplit(g);
    if id in items {
      JoinSplit(items[id].group);
    }
  }

  lemma NothingWalked(s: RR.State)
    requires RR.WellFormed(s) && [] in s.nodes && RR.Walk(s, []) == None
    ensures forall ack :: RR.Dequeue(s, ack) == (None, s)
  {
  }

  lemma ListedGroup(items: map<nat, Item>, groups: set<string>, total: int, y: Item)
    requires Listed(items[y.id := y], groups, total)
    ensures y.group in groups && total > 0
  {
    assert items[y.id := y][y.id] == y;
  }

  /** What is still queued is still in the index. */
  lemma ListedLess(
    v: View, limit: SlotLimit, x: Item, nodes: Nodes, before: map<string, GroupNode>, after: map<string, GroupNode>, total: int)
    requires RR.WellFormed(StateOf(v, limit)) && Coherent(v) && Shrunk(nodes, v.nodes, before, after)
    requires Listed(v.items[x.id := x], before.Keys, total) && x.id !in v.items
    ensures Listed(v.items, after.Keys, total - 1)
  {
    hide RR.WellFormed, Coherent, Split;
    assert v.items[x.id := x] - {x.id} == v.items;
    forall j | j in v.items ensures v.items[j].group in after.Keys {
      RR.ItemOnTree(StateOf(v, limit), j);
      SameDomain(v, Split(v.items[j].group));
      assert v.items[x.id := x][j].group in before.Keys;
    }
  }

  lemma AbsentOr(items: map<nat, Item>, groups: set<string>, total: int, g: string)
    requires Listed(items, groups, total)
    ensures g !in groups ==> Absent(items, g)
  {
  }

  lemma Emptied(v: View, w: View, limit: SlotLimit, x: Item)
    requires Pending(v, limit, x) && w == CountedOut(v, Split(x.group)) && Coherent(w)
    requires ExactBut(w, limit, Split(x.group)) && RR.OnTree(v.tree, Split(x.group)) && Split(x.group) in w.nodes
    ensures w.entries[Split(x.group)].messageCount == 0 ==> Removable(w, Split(x.group))
    ensures w.entries[Split(x.group)].messageCount != 0 ==>
      RR.Pruned(v.tree, v.items, Split(x.group)) == v.tree
  {
    hide Pending, CountedOut, RR.Pruned, RR.OnTree, RR.Holds, Split, Steps.IdsUnder, Coherent;
    var l := Split(x.group);
    Steps.CountIsZero(w.items, l);
    assert CountsOf(w.entries)[l] == |Steps.IdsUnder(w.items, l)|;
    PendingOffWay(v, limit, x);
    if RR.Holds(v.items, l) {
      NothingPruned(v, limit, x);
    }
  }

  /** Nodes off the way to `q` lead to items, and `q` does not. */
  ghost predicate Removable(v: View, q: Path) {
    && q in v.nodes && q != [] && RR.OnTree(v.tree, q) && !RR.Holds(v.items, q)
    && Steps.HoldsOffWay(v.tree, v.items, q) && (forall p :: p in v.tree ==> RR.RingOk(v.tree[p]))
  }

  lemma RemovableNow(v: View, p: Path, c: string)
    requires Coherent(v) && Removable(v, RR.Child(p, c)) && p in v.nodes
    ensures c in v.tree[p].names && RR.RingOk(v.tree[p])
    ensures forall r :: r in v.nodes ==> !(RR.Child(p, c) < r)
  {
    hide RR.Holds, RR.RingOk;
    RR.ChildOnWay(p, c, RR.Child(p, c));
    NothingBelow(v.tree, v.items, RR.Child(p, c));
  }

  lemma RemovableNext(v: View, w: View, limit: SlotLimit, p: Path, c: string)
    requires Coherent(v) && Coherent(w) && Removable(v, RR.Child(p, c)) && p in v.nodes && p in w.nodes
    requires c in v.tree[p].names && w.tree == Steps.Cut(v.tree, p, c) && w.items == v.items
    requires ExactBut(w, limit, p)
    ensures RR.OnTree(v.tree, RR.Child(p, c))
    ensures p != [] && w.entries[p].messageCount == 0 ==>
      Removable(w, p) && RR.Pruned(v.tree, v.items, RR.Child(p, c)) == RR.Pruned(w.tree, v.items, p)
    ensures p == [] || w.entries[p].messageCount != 0 ==> RR.Pruned(v.tree, v.items, RR.Child(p, c)) == w.tree
  {
    hide RR.Pruned, RR.Holds, RR.OnTree, Steps.IdsUnder, RR.Dropped, RR.RingOk;
    Steps.PrunedStep(v.tree, v.items, p, c);
    Steps.CountIsZero(w.items, p);
    assert CountsOf(w.entries)[p] == |Steps.IdsUnder(w.items, p)|;
    forall q | q in w.tree ensures RR.RingOk(w.tree[q]) {
      RRP.DroppedOk(v.tree[p], c);
    }
  }

  /** Nodes only went, and the groups whose node is still there stay in the index. */
  ghost predicate Shrunk(a: Nodes, b: Nodes, before: map<string, GroupNode>, after: map<string, GroupNode>) {
    && (forall p :: p in b ==> p in a)
    && (forall g :: g in before && Split(g) in b ==> g in after)
  }

  lemma ShrunkNot(nodes: Nodes, index: map<string, GroupNode>)
    ensures Shrunk(nodes, nodes, index, index)
  {
  }

  lemma ShrunkBy(a: Nodes, b: Nodes, index: map<string, GroupNode>, q: Path)
    requires ValidPath(q) && q != [] && b == a - {q}
    ensures Shrunk(a, b, index, index - {Join(q)})
  {
    SplitJoin(q);
  }

  lemma ShrunkOn(
    a: Nodes, b: Nodes, c: Nodes, x: map<string, GroupNode>, y: map<string, GroupNode>, z: map<string, GroupNode>)
    requires Shrunk(a, b, x, y) && Shrunk(b, c, y, z)
    ensures Shrunk(a, c, x, z)
  {
  }

  lemma ValidFront(p: Path, c: string)
    requires ValidPath(RR.Child(p, c))
    ensures ValidPath(p)
  {
    assert forall i :: 0 <= i < |p| ==> p[i] == RR.Child(p, c)[i];
  }

  lemma IndexLess(nodes: Nodes, index: map<string, GroupNode>, q: Path)
    requires Indexed(nodes, index)
    ensures Indexed(nodes - {q}, index - {Join(q)})
  {
    forall g | g in index && g != Join(q) ensures Split(g) != q {
      JoinSplit(g);
    }
  }

  lemma IndexGrown(nodes: Nodes, index: map<string, GroupNode>, g: string)
    requires Indexed(nodes, index) && Split(g) in nodes
    ensures Indexed(nodes, index[g := nodes[Split(g)]])
  {
  }

  lemma IndexKept(nodes: Nodes, index: map<string, GroupNode>, q: Path, child: GroupNode)
    requires Indexed(nodes, index) && q !in nodes
    ensures Indexed(nodes[q := child], index)
  {
  }

  /** The parent link leads one segment up. */
  lemma OneUp(v: View, l: Path, k: nat)
    requires Coherent(v) && 0 < k <= |l| + 1 && l[..k - 1] in v.nodes
    ensures k == 1 ==> v.nodes[l[..k - 1]].parent == null
    ensures k > 1 ==> l[..k - 2] in v.nodes && v.nodes[l[..k - 1]].parent == v.nodes[l[..k - 2]]
    ensures k > 1 ==> v.nodes[l[..k - 2]].path == l[..k - 2]
  {
    hide Stands, Join;
    PlaceOf(v, l[..k - 1]);
    if k > 1 {
      assert l[..k - 1][..k - 2] == l[..k - 2];
      PlaceOf(v, l[..k - 2]);
    }
  }

  lemma FilledSame(v: View, p: Path)
    requires Coherent(v) && p in v.nodes
    ensures Fill(v, p, v.items) == v
  {
    assert Stands(v, p);
  }

  lemma Childless(nodes: Nodes, p: Path)
    ensures ChildrenOk(nodes, p, map[], [])
  {
  }

  lemma ChildKey(p: Path, c: string)
    ensures Join([]) == ""
    ensures Join(RR.Child(p, c)) == if p == [] then c else Join(p) + "." + c
  {
    assert p != [] ==> RR.Child(p, c)[..|p|] == p;
  }

  lemma MarkedSame(v: View, p: Path)
    requires p in v.entries
    ensures Mark(v, p, v.entries[p].messageCount, v.entries[p].ready) == v
  {
  }
}
