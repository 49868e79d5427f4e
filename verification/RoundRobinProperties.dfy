/** The group tree stays well formed, and what a dequeue finds agrees with both readiness checks. */
module RoundRobinProperties {
  import opened Types
  import opened Order
  import opened GroupPath
  import opened RoundRobin

  // ---------- The tree invariant ----------

  lemma NewWellFormed(maxUnacked: uint32)
    ensures WellFormed(New(maxUnacked))
  {
    var s := New(maxUnacked);
    forall p: Path ensures p in s.nodes <==> p == [] || Holds(s.items, p) {
      assert !Holds(s.items, p);
    }
  }

  lemma HoldsAfterAdd(items: map<nat, Item>, x: Item, p: Path)
    requires x.id !in items
    ensures Holds(items[x.id := x], p) <==> Holds(items, p) || p <= Split(x.group)
  {
    var items' := items[x.id := x];
    if Holds(items, p) {
      var id :| Under(items, id, p);
      assert Under(items', id, p);
    }
    if p <= Split(x.group) {
      assert Under(items', x.id, p);
    }
    if Holds(items', p) {
      var id :| Under(items', id, p);
      assert id == x.id || Under(items, id, p);
    }
  }

  lemma AppendedOk(r: Ring, c: string)
    requires RingOk(r)
    ensures RingOk(Appended(r, c))
    ensures forall d :: d in Appended(r, c).names <==> d == c || d in r.names
  {
  }

  lemma GrownChildren(nodes: Tree, items: map<nat, Item>, l: Path, p: Path, c: string)
    requires Fits(nodes, items) && p in Grown(nodes, l)
    ensures c in Grown(nodes, l)[p].names <==> Child(p, c) in Grown(nodes, l)
  {
    ChildOnWay(p, c, l);
    if p < l {
      AppendedOk(RingAt(nodes, p), l[|p|]);
    }
    if p !in nodes && Child(p, c) in nodes {
      HoldsPrefix(items, p, Child(p, c));
      assert false;
    }
  }

  lemma GrownNodes(nodes: Tree, items: map<nat, Item>, x: Item, p: Path)
    requires Fits(nodes, items) && x.id !in items
    ensures p in Grown(nodes, Split(x.group)) <==> p == [] || Holds(items[x.id := x], p)
  {
    HoldsAfterAdd(items, x, p);
  }

  lemma GrownRings(nodes: Tree, items: map<nat, Item>, l: Path, p: Path)
    requires Fits(nodes, items) && p in Grown(nodes, l)
    ensures RingOk(Grown(nodes, l)[p])
  {
    if p < l { AppendedOk(RingAt(nodes, p), l[|p|]); }
  }

  lemma GrownFits(nodes: Tree, items: map<nat, Item>, x: Item)
    requires Fits(nodes, items) && x.id !in items
    ensures Fits(Grown(nodes, Split(x.group)), items[x.id := x])
  {
    var nodes' := Grown(nodes, Split(x.group));
    forall p { GrownNodes(nodes, items, x, p); }
    forall p | p in nodes' { GrownRings(nodes, items, Split(x.group), p); }
    forall p, c | p in nodes' { GrownChildren(nodes, items, Split(x.group), p, c); }
  }

  lemma EnqueueWellFormed(s: State, group: string, id: nat, priority: int)
    requires WellFormed(s) && id !in s.items && ValidGroup(GroupOrDefault(group))
    ensures WellFormed(Enqueue(s, group, id, priority))
  {
    GrownFits(s.nodes, s.items, Item(id, priority, GroupOrDefault(group)));
  }

  lemma HoldsAfterRemove(items: map<nat, Item>, id: nat, p: Path)
    requires id in items
    ensures Holds(items - {id}, p) ==> Holds(items, p)
    ensures !(p <= Split(items[id].group)) ==> (Holds(items - {id}, p) <==> Holds(items, p))
  {
    if Holds(items - {id}, p) {
      var j :| Under(items - {id}, j, p);
      assert Under(items, j, p);
    }
    if Holds(items, p) && !(p <= Split(items[id].group)) {
      var j :| Under(items, j, p);
      assert Under(items - {id}, j, p);
    }
  }

  lemma HoldsPrefix(items: map<nat, Item>, p: Path, q: Path)
    requires p <= q && Holds(items, q)
    ensures Holds(items, p)
  {
    var id :| Under(items, id, q);
    assert Under(items, id, p);
  }

  lemma DroppedOk(r: Ring, c: string)
    requires RingOk(r) && c in r.names
    ensures RingOk(Dropped(r, c))
    ensures forall d :: d in Dropped(r, c).names <==> d != c && d in r.names
  {
    var i := IndexOf(r.names, c);
    var names := Dropped(r, c).names;
    assert forall k :: 0 <= k < |names| ==> names[k] == r.names[if k < i then k else k + 1];
    forall d | d != c && d in r.names ensures d in names {
      var j :| 0 <= j < |r.names| && r.names[j] == d;
      assert names[if j < i then j else j - 1] == d;
    }
  }

  lemma ServedOk(r: Ring, c: string)
    requires RingOk(r) && c in r.names
    ensures RingOk(Served(r, c)) && Served(r, c).names == r.names
  {
  }

  lemma PrunedChildren(nodes: Tree, items: map<nat, Item>, items': map<nat, Item>, l: Path, p: Path, c: string)
    requires Fits(nodes, items) && OnTree(nodes, l) && p in Pruned(nodes, items', l)
    requires Holds(items', Child(p, c)) ==> Holds(items, Child(p, c))
    requires !(Child(p, c) <= l) ==> (Holds(items', Child(p, c)) <==> Holds(items, Child(p, c)))
    ensures c in Pruned(nodes, items', l)[p].names <==> Child(p, c) in Pruned(nodes, items', l)
  {
    ChildOnWay(p, c, l);
    if p < l {
      DroppedOk(nodes[p], l[|p|]);
      NextOnWay(p, l);
    }
  }

  lemma PrunedFits(nodes: Tree, items: map<nat, Item>, id: nat)
    requires Fits(nodes, items) && id in items && OnTree(nodes, Split(items[id].group))
    ensures Fits(Pruned(nodes, items - {id}, Split(items[id].group)), items - {id})
  {
    var l := Split(items[id].group);
    var items' := items - {id};
    var nodes' := Pruned(nodes, items', l);
    forall p: Path ensures p in nodes' <==> p == [] || Holds(items', p) {
      HoldsAfterRemove(items, id, p);
    }
    forall p | p in nodes' ensures RingOk(nodes'[p]) {
      if p < l { DroppedOk(nodes[p], l[|p|]); }
    }
    forall p, c | p in nodes' ensures c in nodes'[p].names <==> Child(p, c) in nodes' {
      HoldsAfterRemove(items, id, Child(p, c));
      PrunedChildren(nodes, items, items', l, p, c);
    }
  }

  lemma RemovedWellFormed(s: State, id: nat)
    requires WellFormed(s) && id in s.items
    ensures WellFormed(Removed(s, id))
  {
    ItemOnTree(s, id);
    PrunedFits(s.nodes, s.items, id);
  }

  lemma DeleteWellFormed(s: State, group: string, id: nat)
    requires WellFormed(s)
    ensures WellFormed(Delete(s, group, id))
  {
    if Get(s, group, id).Some? { RemovedWellFormed(s, id); }
  }

  lemma AdvancedFits(nodes: Tree, items: map<nat, Item>, l: Path)
    requires Fits(nodes, items) && OnTree(nodes, l)
    ensures Fits(Advanced(nodes, l), items)
  {
    forall p | p in nodes && p < l ensures RingOk(Served(nodes[p], l[|p|])) {
      ServedOk(nodes[p], l[|p|]);
    }
  }

  lemma DequeueWellFormed(s: State, ack: bool)
    requires WellFormed(s)
    ensures WellFormed(Dequeue(s, ack).1)
  {
    if Walk(s, []).Some? {
      var l := Walk(s, []).value;
      WalkReachesLeaf(s, []);
      LeadsTo(s, l);
      AdvancedFits(s.nodes, s.items, l);
      AdvancedOnTree(s.nodes, l);
      PrunedFits(Advanced(s.nodes, l), s.items, First(ItemsAt(s.items, l)).id);
    }
  }

  /** A dequeue hands out one queued item and takes a slot for it, or changes nothing. */
  lemma DequeueEffect(s: State, ack: bool)
    requires WellFormed(s)
    ensures var (x, s') := Dequeue(s, ack);
      match x
      case None => s' == s
      case Some(x) =>
        && x.id in s.items && s.items[x.id] == x && s'.items == s.items - {x.id} && s'.limit == s.limit
        && s'.unacked == if ack then s.unacked else s.unacked + multiset{x.group}
  {
    assert [] in s.nodes;
    hide WellFormed, Walk, Advanced, Pruned;
    WalkReachesLeaf(s, []);
  }

  /** The item comes from a group with a free slot. */
  lemma DequeueUnderLimit(s: State, ack: bool)
    requires WellFormed(s) && Dequeue(s, ack).0.Some?
    ensures s.unacked[Dequeue(s, ack).0.value.group] < s.limit
  {
    assert [] in s.nodes;
    hide WellFormed, Walk, Advanced, Pruned;
    WalkReachesLeaf(s, []);
    var l := Walk(s, []).value;
    var x := Dequeue(s, ack).0.value;
    assert x.id in ItemsAt(s.items, l);
    JoinSplit(x.group);
    assert [] < l <= l;
    assert UnderLimit(s, l);
  }

  lemma UpdatePriorityWellFormed(s: State, group: string, id: nat, priority: int)
    requires WellFormed(s)
    ensures WellFormed(UpdatePriority(s, group, id, priority))
  {
    hide Holds;
    var s' := UpdatePriority(s, group, id, priority);
    forall p: Path ensures Holds(s.items, p) <==> Holds(s'.items, p) {
      HoldsAlike(s.items, s'.items, p);
      HoldsAlike(s'.items, s.items, p);
    }
  }

  lemma HoldsAlike(a: map<nat, Item>, b: map<nat, Item>, p: Path)
    requires forall i :: i in a ==> i in b && a[i].group == b[i].group
    ensures Holds(a, p) ==> Holds(b, p)
  {
    if Holds(a, p) {
      var j :| Under(a, j, p);
      assert Under(b, j, p);
    }
  }

  /** The nodes, and which children each ring lists, follow from the items alone. */
  lemma FitsDeterminesShape(a: Tree, b: Tree, items: map<nat, Item>)
    requires Fits(a, items) && Fits(b, items)
    ensures a.Keys == b.Keys
    ensures forall p, c :: p in a ==> (c in a[p].names <==> c in b[p].names)
  {
    assert forall p :: p in a <==> p in b;
    forall p, c | p in a ensures c in a[p].names <==> c in b[p].names {
      assert Child(p, c) in a <==> Child(p, c) in b;
    }
  }

  // ---------- Readiness ----------

  lemma {:induction false} ReachableHasReady(s: State, p: Path, l: Path)
    requires WellFormed(s) && p in s.nodes && Reachable(s, p, l)
    ensures HasReady(s, p)
    decreases |l| - |p|
  {
    if p != l {
      var c := l[|p|];
      var child := Child(p, c);
      NextOnWay(p, l);
      LeadsTo(s, l);
      assert c in s.nodes[p].names;
      ReachableHasReady(s, child, l);
      ChildHasFewerDescendants(s.nodes, p, c);
    }
  }

  lemma {:induction false} WalkFindsWhatIsReady(s: State, p: Path)
    requires WellFormed(s) && p in s.nodes && HasReady(s, p)
    ensures Walk(s, p).Some?
    decreases Descendants(s.nodes, p)
  {
    if s.nodes[p].names != [] {
      var c :| c in s.nodes[p].names && UnderLimit(s, Child(p, c))
        && (ChildHasFewerDescendants(s.nodes, p, c); HasReady(s, Child(p, c)));
      var order := Rotation(s.nodes[p]);
      assert c in order;
      var k :| 0 <= k < |order| && order[k] == c;
      ChildHasFewerDescendants(s.nodes, p, c);
      WalkFindsWhatIsReady(s, Child(p, c));
      ScanFinds(s, p, 0, k);
    }
  }

  /** The child at place `k` of the rotation would yield an item. */
  ghost predicate Yields(s: State, p: Path, k: nat)
    requires WellFormed(s) && p in s.nodes && k < |s.nodes[p].names|
  {
    var c := Rotation(s.nodes[p])[k];
    assert c in s.nodes[p].names;
    UnderLimit(s, Child(p, c)) && Walk(s, Child(p, c)).Some?
  }

  lemma {:induction false} ScanFinds(s: State, p: Path, j: nat, k: nat)
    requires WellFormed(s) && p in s.nodes && j <= k < |s.nodes[p].names| && Yields(s, p, k)
    ensures Scan(s, p, j).Some?
    decreases k - j
  {
    if j < k && !Yields(s, p, j) {
      ScanFinds(s, p, j + 1, k);
    }
  }

  /**
   * The walk returns an item exactly when `hasReadyNode` says so, and that is exactly when some leaf
   * with an item has no blocked node on its path.
   */
  lemma DequeueIffHasReady(s: State, ack: bool)
    requires WellFormed(s)
    ensures Dequeue(s, ack).0.Some? <==> HasReady(s, [])
    ensures HasReady(s, []) <==> exists l :: Reachable(s, [], l)
  {
    WalkReachesLeaf(s, []);
    if Walk(s, []).Some? {
      ReachableHasReady(s, [], Walk(s, []).value);
    }
    if HasReady(s, []) {
      WalkFindsWhatIsReady(s, []);
    }
    if l :| Reachable(s, [], l) {
      ReachableHasReady(s, [], l);
    }
  }

  /** A deliverable message is never missed: `PeekReady` is true whenever a dequeue would succeed. */
  lemma DequeueImpliesPeekReady(s: State, ack: bool)
    requires WellFormed(s) && Dequeue(s, ack).0.Some?
    ensures PeekReady(s)
  {
    WalkReachesLeaf(s, []);
    var l := Walk(s, []).value;
    assert l != [];
    assert IsReadyLeaf(s, l);
  }

  ghost predicate InUse(s: State, group: string) {
    group in s.unacked || exists id :: id in s.items && s.items[id].group == group
  }

  /** No group that is queued or in flight is a dotted prefix of another. */
  ghost predicate PrefixFree(s: State) {
    forall g, h :: InUse(s, g) && InUse(s, h) && Split(g) <= Split(h) ==> g == h
  }

  /** A node above a queued group that is no group itself has no message in flight. */
  lemma InnerNodesAreFree(s: State, h: string, q: Path)
    requires WellFormed(s) && PrefixFree(s) && InUse(s, h) && [] < q < Split(h)
    ensures s.unacked[Join(q)] == 0
  {
    assert forall i :: 0 <= i < |q| ==> q[i] == Split(h)[i] && DotFree(q[i]);
    SplitJoin(q);
    if Join(q) in s.unacked {
      assert InUse(s, Join(q));
      assert false;
    }
  }

  /** Without groups that are prefixes of others the three checks agree. */
  lemma PeekReadyIffDequeue(s: State, ack: bool)
    requires WellFormed(s) && PrefixFree(s)
    ensures PeekReady(s) <==> Dequeue(s, ack).0.Some?
  {
    if Dequeue(s, ack).0.Some? {
      DequeueImpliesPeekReady(s, ack);
    } else if PeekReady(s) {
      var l :| IsReadyLeaf(s, l);
      var id :| id in ItemsAt(s.items, l);
      assert InUse(s, s.items[id].group);
      forall q | [] < q <= l ensures UnderLimit(s, q) {
        if q != l { InnerNodesAreFree(s, s.items[id].group, q); }
      }
      assert Reachable(s, [], l);
      DequeueIffHasReady(s, ack);
    }
  }
}
