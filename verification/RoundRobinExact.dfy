/**
 * The cached numbers of the round-robin tree: message counts that say how much is at and below a node,
 * and ready flags that mark exactly the ready leaves. Each step on the values keeps them exact, or
 * exact but for one node that the next step repairs.
 */
module RoundRobinExact {
  import opened Types
  import opened Order
  import opened GroupPath
  import opened RoundRobin
  import opened RoundRobinSteps
  import opened RoundRobinNodes
  import RRP = RoundRobinProperties

  ghost function StateOf(v: View, limit: SlotLimit): State {
    State(v.items, v.unacked, limit, v.tree)
  }

  ghost function ReadyPaths(entries: map<Path, Entry>): set<Path> {
    set p | p in entries && entries[p].ready
  }

  ghost function CountsOf(entries: map<Path, Entry>): map<Path, nat> {
    map p | p in entries :: entries[p].messageCount
  }

  ghost predicate Exact(v: View, limit: SlotLimit) {
    CountsExact(CountsOf(v.entries), v.items) && ReadyExact(StateOf(v, limit), ReadyPaths(v.entries))
  }

  /** Exact, but the flag of the node at `q` may be stale. */
  ghost predicate ExactBut(v: View, limit: SlotLimit, q: Path) {
    CountsExact(CountsOf(v.entries), v.items) && ReadyBut(StateOf(v, limit), ReadyPaths(v.entries), q)
  }

  /** The view after the node's flag was recomputed. */
  ghost function Refresh(v: View, limit: SlotLimit, p: Path): (w: View)
    requires p in v.entries
    ensures w.nodes == v.nodes && w.tree == v.tree && w.items == v.items && w.unacked == v.unacked
  {
    Mark(v, p, v.entries[p].messageCount, IsReadyLeaf(StateOf(v, limit), p))
  }

  lemma Refreshed(v: View, limit: SlotLimit, p: Path)
    requires ExactBut(v, limit, p) && p in v.entries
    ensures Exact(Refresh(v, limit, p), limit)
  {
    hide IsReadyLeaf;
    var w := Refresh(v, limit, p);
    assert CountsOf(w.entries) == CountsOf(v.entries);
    assert StateOf(w, limit) == StateOf(v, limit);
    forall q ensures q in ReadyPaths(w.entries) <==> IsReadyLeaf(StateOf(w, limit), q) {
      if q != p {
        assert q in ReadyPaths(w.entries) <==> q in ReadyPaths(v.entries);
      }
    }
  }

  ghost predicate SameTallies(a: map<Path, Entry>, b: map<Path, Entry>) {
    forall p :: (p in a <==> p in b) && (p in a ==> a[p].messageCount == b[p].messageCount && a[p].ready == b[p].ready)
  }

  /** A cursor that is set stays set. */
  ghost predicate CursorsKept(a: map<Path, Entry>, b: map<Path, Entry>) {
    forall p :: p in a && p in b && a[p].currentChild.Some? ==> b[p].currentChild.Some?
  }

  /** From `a` to `b` only cursors and the contents of heaps changed. */
  ghost predicate Follows(a: View, b: View) {
    && b.nodes == a.nodes && b.unacked == a.unacked && SameTallies(a.entries, b.entries)
    && CursorsKept(a.entries, b.entries)
  }

  lemma FollowsItself(a: View)
    ensures Follows(a, a)
  {
  }

  lemma FollowsOn(a: View, b: View, c: View)
    requires Follows(a, b) && Follows(b, c)
    ensures Follows(a, c)
  {
  }

  lemma FollowsAt(a: View, b: View, p: Path)
    requires Follows(a, b) && p in a.entries
    ensures b.nodes == a.nodes && b.unacked == a.unacked && p in b.entries
    ensures a.entries[p].currentChild.Some? ==> b.entries[p].currentChild.Some?
  {
  }

  lemma FollowsExact(a: View, b: View, limit: SlotLimit)
    requires Exact(a, limit) && Follows(a, b) && b.tree == a.tree && b.items == a.items
    ensures Exact(b, limit)
  {
    hide IsReadyLeaf, CountsExact;
    TalliesSame(a.entries, b.entries);
  }

  lemma TalliesSame(a: map<Path, Entry>, b: map<Path, Entry>)
    requires SameTallies(a, b)
    ensures CountsOf(a) == CountsOf(b) && ReadyPaths(a) == ReadyPaths(b)
  {
  }

  // ---------- A new leaf ----------

  ghost function Sprout(v: View, p: Path, c: string, child: GroupNode): (w: View)
    requires p in v.entries && p in v.tree
    ensures w.nodes == v.nodes[Child(p, c) := child] && w.items == v.items && w.unacked == v.unacked
  {
    Write(Adopt(v, Child(p, c), child), p,
          v.entries[p].(childrenList := v.entries[p].childrenList + [c]),
          v.tree[p].(names := v.tree[p].names + [c]))
  }

  lemma SproutGrows(v: View, p: Path, c: string, child: GroupNode)
    requires p in v.entries && p in v.tree && c !in v.tree[p].names && Child(p, c) !in v.tree
    ensures Sprout(v, p, c, child).tree == GrownOnce(v.tree, p, c)
  {
    assert p != Child(p, c);
  }

  lemma SproutReady(v: View, p: Path, c: string, child: GroupNode)
    requires p in v.entries && p in v.tree && Child(p, c) !in v.entries
    ensures ReadyPaths(Sprout(v, p, c, child).entries) == ReadyPaths(v.entries)
  {
    assert p != Child(p, c);
  }

  lemma NothingAt(items: map<nat, Item>, p: Path)
    requires !Holds(items, p)
    ensures ItemsAt(items, p) == map[] && IdsUnder(items, p) == {}
  {
    forall id | id in items ensures !(p <= Split(items[id].group)) {
      assert !Under(items, id, p);
    }
  }

  /** The new leaf is empty and its parent no longer a leaf. */
  lemma SproutExact(v: View, limit: SlotLimit, p: Path, c: string, child: GroupNode)
    requires Exact(v, limit) && p in v.entries && p in v.tree && c !in v.tree[p].names
    requires Child(p, c) !in v.tree && Child(p, c) !in v.entries && !Holds(v.items, Child(p, c))
    ensures ExactBut(Sprout(v, p, c, child), limit, p)
  {
    hide IdsUnder, Holds, ItemsAt;
    var w, q := Sprout(v, p, c, child), Child(p, c);
    assert p != q;
    NothingAt(v.items, q);
    SproutReady(v, p, c, child);
    forall r | r != p ensures r in ReadyPaths(w.entries) <==> IsReadyLeaf(StateOf(w, limit), r) {
      assert r in ReadyPaths(v.entries) <==> IsReadyLeaf(StateOf(v, limit), r);
    }
  }

  /** What a descent along `l` may rely on when it has come to depth `i`. */
  lemma DescentStep(s: State, l: Path, i: nat)
    requires WellFormed(s) && ValidPath(l) && i < |l|
    ensures var a, p, q := Grown(s.nodes, l[..i]), l[..i], Child(l[..i], l[i]);
      && q == l[..i + 1] && p in a && (l[i] in a[p].names <==> q in a) && (q in a || !Holds(s.items, q))
      && Grown(s.nodes, q) == GrownOnce(a, p, l[i]) && (p != [] ==> Join(p) != "")
  {
    hide GrownOnce, Holds, Join, Grown, Fits;
    var p := l[..i];
    GrownStep(s.nodes, p, l[i]);
    RRP.GrownChildren(s.nodes, s.items, p, p, l[i]);
    if Child(p, l[i]) !in Grown(s.nodes, p) {
      HeldOnTree(s, p, Child(p, l[i]));
    }
    JoinNonEmpty(p);
  }

  lemma HeldOnTree(s: State, l: Path, q: Path)
    requires WellFormed(s) && q != [] && q !in Grown(s.nodes, l)
    ensures !Holds(s.items, q)
  {
  }

  // ---------- One more item ----------

  ghost function Shift(entries: map<Path, Entry>, l: Path, k: nat, n: int): map<Path, Entry> {
    map p | p in entries ::
      if p <= l && |p| >= k then entries[p].(messageCount := Plus(entries[p].messageCount, n)) else entries[p]
  }

  function Plus(a: nat, n: int): nat {
    if a + n < 0 then 0 else a + n
  }

  lemma ShiftNothing(entries: map<Path, Entry>, l: Path, n: int)
    ensures Shift(entries, l, |l| + 1, n) == entries
  {
  }

  lemma ShiftStep(entries: map<Path, Entry>, l: Path, k: nat, n: int)
    requires 0 < k <= |l| + 1 && l[..k - 1] in entries
    ensures var p, e := l[..k - 1], Shift(entries, l, k, n);
      && p in e && e[p] == entries[p]
      && Shift(entries, l, k - 1, n) == e[p := e[p].(messageCount := Plus(e[p].messageCount, n))]
  {
    forall q | q in entries && q <= l && |q| == k - 1 ensures q == l[..k - 1] {
    }
  }

  /** The view after the heap of `l` changed and the counts on the way to it followed. */
  ghost function Recount(v: View, l: Path, items: map<nat, Item>, n: int): (w: View)
    requires l in v.entries
    ensures w.nodes == v.nodes && w.tree == v.tree && w.items == items && w.unacked == v.unacked
  {
    var u := Fill(v, l, items);
    u.(entries := Shift(u.entries, l, 0, n))
  }

  lemma RecountCounts(v: View, l: Path, items: map<nat, Item>, n: int)
    requires l in v.entries && forall p :: p in v.entries && p <= l ==> v.entries[p].messageCount + n >= 0
    ensures Shifted(CountsOf(v.entries), CountsOf(Recount(v, l, items, n).entries), l, n)
    ensures ReadyPaths(Recount(v, l, items, n).entries) == ReadyPaths(v.entries)
  {
    hide ItemsAt;
  }

  lemma AddedExact(v: View, limit: SlotLimit, x: Item)
    requires Exact(v, limit) && x.id !in v.items && Split(x.group) in v.entries
    ensures ExactBut(Recount(v, Split(x.group), v.items[x.id := x], 1), limit, Split(x.group))
    ensures ReadyPaths(Recount(v, Split(x.group), v.items[x.id := x], 1).entries) == ReadyPaths(v.entries)
  {
    hide ItemsAt, Recount, CountsOf, Split;
    var l := Split(x.group);
    var items := v.items[x.id := x];
    var w := Recount(v, l, items, 1);
    RecountCounts(v, l, items, 1);
    CountsAfterAdd(CountsOf(v.entries), CountsOf(w.entries), v.items, x);
    ItemsAfterAdd(v.items, x);
    forall r | r != l ensures r in ReadyPaths(w.entries) <==> IsReadyLeaf(StateOf(w, limit), r) {
      assert r in ReadyPaths(v.entries) <==> IsReadyLeaf(StateOf(v, limit), r);
    }
  }

  // ---------- A removed leaf ----------

  lemma MarkedBut(v: View, limit: SlotLimit, q: Path, ready: bool)
    requires ExactBut(v, limit, q) && q in v.entries
    ensures ExactBut(Mark(v, q, v.entries[q].messageCount, ready), limit, q)
    ensures var w := Mark(v, q, v.entries[q].messageCount, ready); q in w.entries && w.entries[q].ready == ready
  {
    hide IsReadyLeaf;
    var w := Mark(v, q, v.entries[q].messageCount, ready);
    assert CountsOf(w.entries) == CountsOf(v.entries);
    assert StateOf(w, limit) == StateOf(v, limit);
    assert forall r :: r != q ==> (r in ReadyPaths(w.entries) <==> r in ReadyPaths(v.entries));
  }

  /** The view without the child, its ring without it too. */
  ghost function Shed(v: View, p: Path, c: string): (w: View)
    requires p in v.entries && p in v.tree && c in v.tree[p].names
    ensures w.nodes == v.nodes - {Child(p, c)} && w.items == v.items && w.unacked == v.unacked
  {
    var e, r := v.entries[p], Dropped(v.tree[p], c);
    Abandon(
      Write(v, p, e.(childrenList := r.names, currentChild := Redirected(e.currentChild, c, r.names)), r),
      Child(p, c))
  }

  lemma ShedCuts(v: View, p: Path, c: string)
    requires p in v.entries && p in v.tree && c in v.tree[p].names
    ensures Shed(v, p, c).tree == Cut(v.tree, p, c)
    ensures Child(p, c) in v.entries && !v.entries[Child(p, c)].ready ==>
      ReadyPaths(Shed(v, p, c).entries) == ReadyPaths(v.entries)
  {
    hide Dropped;
    assert p != Child(p, c);
  }

  lemma ShedExact(v: View, limit: SlotLimit, p: Path, c: string)
    requires ExactBut(v, limit, Child(p, c)) && p in v.entries && p in v.tree && c in v.tree[p].names
    ensures ExactBut(Shed(v, p, c), limit, p)
  {
    hide ItemsAt, Dropped, IdsUnder;
    var w, q := Shed(v, p, c), Child(p, c);
    assert p != q;
    forall r | r != p ensures r in ReadyPaths(w.entries) <==> IsReadyLeaf(StateOf(w, limit), r) {
      assert r != q ==> (r in ReadyPaths(v.entries) <==> IsReadyLeaf(StateOf(v, limit), r));
    }
  }

  /** A node above which nothing is held has nothing below it either. */
  lemma NothingBelow(nodes: Tree, items: map<nat, Item>, q: Path)
    requires HoldsOffWay(nodes, items, q) && !Holds(items, q)
    ensures forall r :: r in nodes ==> !(q < r)
  {
    forall r | r in nodes ensures !(q < r) {
      if q < r {
        RRP.HoldsPrefix(items, q, r);
        assert false;
      }
    }
  }

  // ---------- One item less ----------

  /** The state as it was before `x` left its heap. */
  ghost function With(v: View, limit: SlotLimit, x: Item): State {
    StateOf(v, limit).(items := v.items[x.id := x])
  }

  /** `x` has left its heap, but the counts still include it and its node may be flagged wrongly. */
  ghost predicate Pending(v: View, limit: SlotLimit, x: Item) {
    && x.id !in v.items && WellFormed(With(v, limit, x))
    && CountsExact(CountsOf(v.entries), v.items[x.id := x])
    && ReadyBut(StateOf(v, limit), ReadyPaths(v.entries), Split(x.group))
  }

  lemma PendingPlace(v: View, limit: SlotLimit, x: Item)
    requires Pending(v, limit, x)
    ensures Split(x.group) in v.tree && OnTree(v.tree, Split(x.group)) && ValidPath(Split(x.group))
    ensures forall p :: p in v.entries && p <= Split(x.group) ==> v.entries[p].messageCount > 0
  {
    hide Split, OnTree, CountsExact;
    ItemOnTree(With(v, limit, x), x.id);
    assert ValidGroup(With(v, limit, x).items[x.id].group);
    forall p | p in v.entries && p <= Split(x.group) ensures v.entries[p].messageCount > 0 {
      PendingCount(v, limit, x, p);
    }
  }

  lemma PendingCount(v: View, limit: SlotLimit, x: Item, p: Path)
    requires Pending(v, limit, x) && p in v.entries && p <= Split(x.group)
    ensures v.entries[p].messageCount > 0
  {
    hide Split, WellFormed, ReadyBut;
    assert x.id in IdsUnder(v.items[x.id := x], p);
    assert CountsOf(v.entries)[p] > 0;
  }

  /** The view once the item is counted out. */
  ghost function CountedOut(v: View, l: Path): (w: View)
    ensures w.nodes == v.nodes && w.tree == v.tree && w.items == v.items && w.unacked == v.unacked
  {
    v.(entries := Shift(v.entries, l, 0, -1))
  }

  lemma CountedOutExact(v: View, limit: SlotLimit, x: Item)
    requires Pending(v, limit, x)
    ensures ExactBut(CountedOut(v, Split(x.group)), limit, Split(x.group))
    ensures ReadyPaths(CountedOut(v, Split(x.group)).entries) == ReadyPaths(v.entries)
  {
    hide Split, IdsUnder, IsReadyLeaf, WellFormed;
    var w, items := CountedOut(v, Split(x.group)), v.items[x.id := x];
    forall p | p in v.entries && p <= Split(x.group) { PendingCount(v, limit, x, p); }
    assert Shifted(CountsOf(v.entries), CountsOf(w.entries), Split(x.group), -1);
    CountsAfterRemove(CountsOf(v.entries), CountsOf(w.entries), items, x.id);
    assert items - {x.id} == v.items;
    assert StateOf(w, limit) == StateOf(v, limit);
  }

  lemma PendingOffWay(v: View, limit: SlotLimit, x: Item)
    requires Pending(v, limit, x)
    ensures HoldsOffWay(v.tree, v.items, Split(x.group)) && (forall p :: p in v.tree ==> RingOk(v.tree[p]))
  {
    hide Split;
    var s := With(v, limit, x);
    forall p | p in v.tree && !(p <= Split(x.group)) ensures Holds(v.items, p) {
      RRP.HoldsAfterRemove(s.items, x.id, p);
      assert s.items - {x.id} == v.items;
    }
  }

  lemma PendingRemoved(v: View, limit: SlotLimit, x: Item)
    requires Pending(v, limit, x) && OnTree(v.tree, Split(x.group))
    ensures x.id !in v.items
    ensures WellFormed(StateOf(v, limit).(nodes := Pruned(v.tree, v.items, Split(x.group))))
  {
    hide Split, OnTree, WellFormed, CountsExact, ReadyBut, Pruned;
    var s := With(v, limit, x);
    assert s.items - {x.id} == v.items;
    RRP.RemovedWellFormed(s, x.id);
  }

  /** As long as the node leads to items, nothing is pruned. */
  lemma NothingPruned(v: View, limit: SlotLimit, x: Item)
    requires Pending(v, limit, x) && Holds(v.items, Split(x.group)) && OnTree(v.tree, Split(x.group))
    ensures Pruned(v.tree, v.items, Split(x.group)) == v.tree
  {
    hide Split, OnTree, Holds, WellFormed, CountsExact, ReadyBut;
    PendingOffWay(v, limit, x);
    forall p | p in v.tree && p <= Split(x.group) ensures Holds(v.items, p) {
      RRP.HoldsPrefix(v.items, p, Split(x.group));
    }
    forall p | p < Split(x.group) ensures Holds(v.items, Split(x.group)[..|p| + 1]) {
      RRP.HoldsPrefix(v.items, Split(x.group)[..|p| + 1], Split(x.group));
    }
  }

  // ---------- Slots ----------

  /** Nobody is queued under the group. */
  ghost predicate Absent(items: map<nat, Item>, g: string) {
    forall id :: id in items ==> items[id].group != g
  }

  lemma SameGroup(items: map<nat, Item>, p: Path, g: string)
    requires ItemsAt(items, p) != map[]
    ensures Join(p) == g ==> p == Split(g)
    ensures Absent(items, g) ==> p != Split(g)
  {
    hide Join, Split;
    var id :| id in ItemsAt(items, p);
    JoinSplit(items[id].group);
    JoinSplit(g);
  }

  /** A slot taken or given back concerns only the readiness of its own group. */
  lemma SlotExact(v: View, limit: SlotLimit, unacked: multiset<string>, g: string)
    requires Exact(v, limit) && forall h: string :: h != g ==> unacked[h] == v.unacked[h]
    ensures ExactBut(v.(unacked := unacked), limit, Split(g))
    ensures Absent(v.items, g) ==> Exact(v.(unacked := unacked), limit)
  {
    hide Join, Split, ItemsAt, CountsExact, Absent;
    var w := v.(unacked := unacked);
    forall p ensures p != Split(g) || Absent(v.items, g) ==> (IsReadyLeaf(StateOf(w, limit), p) <==> IsReadyLeaf(StateOf(v, limit), p)) {
      if ItemsAt(v.items, p) != map[] {
        SameGroup(v.items, p, g);
      }
    }
  }

  // ---------- The item a walk has popped ----------

  lemma WalkedTree(s: State, t: State, y: Item)
    requires WellFormed(s) && [] in s.nodes && Walked(s, t, [], Some(y))
    ensures var l := Split(y.group);
      && OnTree(s.nodes, l) && t.nodes == Advanced(s.nodes, l) && t.items == s.items - {y.id}
      && t.items[y.id := y] == s.items && y.id in s.items && s.items[y.id] == y && t.unacked == s.unacked
      && WellFormed(t.(items := s.items)) && Walk(s, []) == Some(l) && Keyed(ItemsAt(s.items, l))
  {
    hide Walk, Advanced, AdvancedFrom, OnTree, Split, ItemsAt, Fits;
    var l := Walk(s, []).value;
    ItemAt(s.items, y.id, l);
    AdvancedFromRoot(s.nodes, l);
    RRP.AdvancedFits(s.nodes, s.items, l);
    KeyedAt(s.items, l);
  }

  lemma KeyedAt(items: map<nat, Item>, p: Path)
    requires Keyed(items)
    ensures Keyed(ItemsAt(items, p))
  {
  }

  lemma AdvancedReady(v: View, w: View, limit: SlotLimit, y: Item)
    requires Exact(v, limit) && WellFormed(StateOf(v, limit)) && [] in v.tree
    requires Follows(v, w) && Walked(StateOf(v, limit), StateOf(w, limit), [], Some(y))
    ensures CountsExact(CountsOf(w.entries), v.items)
    ensures ReadyBut(StateOf(w, limit), ReadyPaths(w.entries), Split(y.group))
  {
    hide Join, Split, ItemsAt, CountsExact, WellFormed, Walked, OnTree, CountsOf, ReadyPaths;
    WalkedTree(StateOf(v, limit), StateOf(w, limit), y);
    TalliesSame(v.entries, w.entries);
    ItemsAfterRemove(v.items, y.id);
    var l := Split(y.group);
    forall p | p != l ensures p in ReadyPaths(w.entries) <==> IsReadyLeaf(StateOf(w, limit), p) {
      AdvancedNames(v.tree, l, p);
      assert p in ReadyPaths(v.entries) <==> IsReadyLeaf(StateOf(v, limit), p);
    }
  }

  lemma AdvancedNames(nodes: Tree, l: Path, p: Path)
    requires OnTree(nodes, l)
    ensures p in Advanced(nodes, l) <==> p in nodes
    ensures p in nodes ==> Advanced(nodes, l)[p].names == nodes[p].names
  {
  }

  /** The item is out of its heap and has its slot; what remains is to count it out. */
  lemma DequeuePending(v: View, w: View, limit: SlotLimit, y: Item, ack: bool)
    requires Exact(v, limit) && WellFormed(StateOf(v, limit)) && [] in v.tree
    requires Follows(v, w) && Walked(StateOf(v, limit), StateOf(w, limit), [], Some(y))
    ensures var u := w.(unacked := if ack then w.unacked else w.unacked + multiset{y.group});
      && Pending(u, limit, y) && OnTree(u.tree, Split(y.group))
      && Dequeue(StateOf(v, limit), ack)
         == (Some(y), StateOf(u, limit).(nodes := Pruned(u.tree, u.items, Split(y.group))))
  {
    hide Split, ItemsAt, CountsExact, WellFormed, Walk, Advanced, Pruned, OnTree, CountsOf, ReadyPaths, ReadyBut;
    hide IsReadyLeaf;
    var s, l := StateOf(v, limit), Split(y.group);
    WalkedTree(s, StateOf(w, limit), y);
    AdvancedReady(v, w, limit, y);
    FirstUnique(ItemsAt(s.items, l), y);
    AdvancedOnTree(s.nodes, l);
    var u := w.(unacked := if ack then w.unacked else w.unacked + multiset{y.group});
    ReadyButSlot(w, u, limit, y);
    AnySlots(StateOf(w, limit).(items := s.items), u.unacked);
  }

  lemma ReadyButSlot(w: View, u: View, limit: SlotLimit, y: Item)
    requires ReadyBut(StateOf(w, limit), ReadyPaths(w.entries), Split(y.group)) && u == w.(unacked := u.unacked)
    requires forall h: string :: h != y.group ==> u.unacked[h] == w.unacked[h]
    ensures ReadyBut(StateOf(u, limit), ReadyPaths(u.entries), Split(y.group))
  {
    hide Join, Split, ItemsAt, ReadyPaths;
    forall p | p != Split(y.group) ensures IsReadyLeaf(StateOf(u, limit), p) <==> IsReadyLeaf(StateOf(w, limit), p) {
      if ItemsAt(w.items, p) != map[] {
        SameGroup(w.items, p, y.group);
      }
    }
  }

  lemma AnySlots(s: State, unacked: multiset<string>)
    requires WellFormed(s)
    ensures WellFormed(s.(unacked := unacked))
  {
  }

  /** The same for an item taken out of its heap by id. */
  lemma DropPending(v: View, limit: SlotLimit, id: nat)
    requires Exact(v, limit) && WellFormed(StateOf(v, limit)) && id in v.items && Split(v.items[id].group) in v.entries
    ensures Pending(Fill(v, Split(v.items[id].group), v.items - {id}), limit, v.items[id])
  {
    hide Split, ItemsAt, CountsExact, WellFormed, CountsOf, ReadyPaths;
    var y, l := v.items[id], Split(v.items[id].group);
    var w := Fill(v, l, v.items - {id});
    KeyOf(StateOf(v, limit), id);
    assert w.items[id := y] == v.items;
    assert With(w, limit, y) == StateOf(v, limit);
    TalliesSame(v.entries, w.entries);
    ItemsAfterRemove(v.items, id);
    forall p | p != l ensures p in ReadyPaths(w.entries) <==> IsReadyLeaf(StateOf(w, limit), p) {
      assert p in ReadyPaths(v.entries) <==> IsReadyLeaf(StateOf(v, limit), p);
    }
  }

  lemma KeyOf(s: State, id: nat)
    requires WellFormed(s) && id in s.items
    ensures s.items[id].id == id
  {
  }

  /** A new priority changes no count and no readiness. */
  lemma ChangedExact(v: View, limit: SlotLimit, id: nat, priority: int)
    requires Exact(v, limit) && id in v.items && Split(v.items[id].group) in v.entries
    ensures Exact(Fill(v, Split(v.items[id].group), v.items[id := v.items[id].(priority := priority)]), limit)
  {
    hide Split, ItemsAt, CountsOf, ReadyPaths;
    var y, l := v.items[id].(priority := priority), Split(v.items[id].group);
    var w := Fill(v, l, v.items[id := y]);
    TalliesSame(v.entries, w.entries);
    ItemsAfterChange(v.items, id, priority);
    ItemAt(v.items, id, l);
    forall p ensures IdsUnder(w.items, p) == IdsUnder(v.items, p) {
    }
    forall p ensures p in ReadyPaths(w.entries) <==> IsReadyLeaf(StateOf(w, limit), p) {
      assert p in ReadyPaths(v.entries) <==> IsReadyLeaf(StateOf(v, limit), p);
    }
  }

  // ---------- A new limit ----------

  /** Counts are exact, and so are the flags of all nodes but those of the given groups. */
  ghost predicate ExactButFor(v: View, limit: SlotLimit, groups: set<string>) {
    && CountsExact(CountsOf(v.entries), v.items)
    && forall p :: Away(p, groups) ==> (p in ReadyPaths(v.entries) <==> IsReadyLeaf(StateOf(v, limit), p))
  }

  ghost predicate Away(p: Path, groups: set<string>) {
    forall g :: g in groups ==> Split(g) != p
  }

  lemma AnyLimit(v: View, limit: SlotLimit, limit': SlotLimit, groups: set<string>)
    requires Exact(v, limit) && forall id :: id in v.items ==> v.items[id].group in groups
    ensures ExactButFor(v, limit', groups)
  {
    hide Join, Split, CountsExact;
    forall p | Away(p, groups) ensures ItemsAt(v.items, p) == map[] {
      assert forall id :: id in v.items ==> Split(v.items[id].group) != p;
    }
  }

  lemma RefreshedFor(v: View, limit: SlotLimit, groups: set<string>, g: string)
    requires ExactButFor(v, limit, groups) && Split(g) in v.entries
    ensures ExactButFor(Refresh(v, limit, Split(g)), limit, groups - {g})
  {
    hide IsReadyLeaf, Split, CountsExact;
    var w, q := Refresh(v, limit, Split(g)), Split(g);
    assert CountsOf(w.entries) == CountsOf(v.entries);
    assert StateOf(w, limit) == StateOf(v, limit);
    forall p | Away(p, groups - {g}) ensures p in ReadyPaths(w.entries) <==> IsReadyLeaf(StateOf(w, limit), p) {
      if p != q {
        assert Away(p, groups);
        assert p in ReadyPaths(w.entries) <==> p in ReadyPaths(v.entries);
      }
    }
  }

  lemma ExactForAll(v: View, limit: SlotLimit)
    requires ExactButFor(v, limit, {})
    ensures Exact(v, limit)
  {
    hide IsReadyLeaf, CountsExact;
    assert forall p :: Away(p, {});
  }

  // ---------- A new turn order ----------

  /** The view with the children of `p` in another order. */
  ghost function Reorder(v: View, p: Path, r: Ring, current: Option<string>): View
    requires p in v.entries
  {
    Write(v, p, v.entries[p].(childrenList := r.names, currentChild := current), r)
  }

  lemma ReorderExact(v: View, limit: SlotLimit, p: Path, r: Ring, current: Option<string>)
    requires Exact(v, limit) && p in v.entries && p in v.tree && (r.names == [] <==> v.tree[p].names == [])
    ensures Exact(Reorder(v, p, r, current), limit)
    ensures ReadyPaths(Reorder(v, p, r, current).entries) == ReadyPaths(v.entries)
  {
    hide ItemsAt, CountsExact;
    var w := Reorder(v, p, r, current);
    TalliesSame(v.entries, w.entries);
    forall q ensures IsReadyLeaf(StateOf(w, limit), q) <==> IsReadyLeaf(StateOf(v, limit), q) {
    }
  }
}
