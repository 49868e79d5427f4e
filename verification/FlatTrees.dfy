/** Trees of one level: groups without dots. On these the operations can be followed ring by ring. */
module FlatTrees {
  import opened Types
  import opened Order
  import opened GroupPath
  import opened RoundRobin
  import opened RoundRobinProperties

  ghost function Leaves(names: seq<string>): set<Path> {
    set c | c in names :: [c]
  }

  /** The root with ring `r` and a leaf for every child. */
  ghost function FlatTree(r: Ring): Tree {
    map p | p in {[]} + Leaves(r.names) :: if p == [] then r else Ring([], 0)
  }

  predicate FlatGroup(g: string) {
    g != "" && DotFree(g)
  }

  ghost predicate InGroup(items: map<nat, Item>, id: nat, g: string) {
    id in items && items[id].group == g
  }

  ghost predicate Queued(items: map<nat, Item>, g: string) {
    exists id :: InGroup(items, id, g)
  }

  /** `s` is a tree of one level with root ring `r`. */
  ghost predicate Flat(s: State, r: Ring) {
    && s.nodes == FlatTree(r) && RingOk(r) && Keyed(s.items)
    && (forall id :: id in s.items ==> FlatGroup(s.items[id].group))
    && (forall c :: c in r.names <==> Queued(s.items, c))
  }

  lemma SplitFlat(items: map<nat, Item>, id: nat)
    requires id in items && FlatGroup(items[id].group)
    ensures Split(items[id].group) == [items[id].group]
  {
    NoDotSplit(items[id].group);
  }

  lemma HoldsFlat(s: State, r: Ring, p: Path)
    requires Flat(s, r)
    ensures p != [] ==> (Holds(s.items, p) <==> p in Leaves(r.names))
  {
    if p != [] && Holds(s.items, p) {
      var id :| Under(s.items, id, p);
      SplitFlat(s.items, id);
      assert InGroup(s.items, id, s.items[id].group);
      assert p == [s.items[id].group];
    }
    if p in Leaves(r.names) {
      var c :| c in r.names && p == [c];
      var id :| InGroup(s.items, id, c);
      SplitFlat(s.items, id);
      assert Under(s.items, id, p);
    }
  }

  lemma FlatWellFormed(s: State, r: Ring)
    requires Flat(s, r)
    ensures WellFormed(s)
  {
    hide Holds;
    forall p ensures p in s.nodes <==> p == [] || Holds(s.items, p) {
      HoldsFlat(s, r, p);
    }
    forall p, c | p in s.nodes ensures c in s.nodes[p].names <==> Child(p, c) in s.nodes {
      if p == [] { assert Child(p, c) == [c]; } else { assert |Child(p, c)| == 2; }
    }
    forall id | id in s.items ensures ValidGroup(s.items[id].group) {
      SplitFlat(s.items, id);
    }
  }

  lemma ItemsFlat(s: State, r: Ring, c: string)
    requires Flat(s, r)
    ensures ItemsAt(s.items, [c]) == map id | id in s.items && InGroup(s.items, id, c) :: s.items[id]
  {
    forall id | id in s.items ensures Split(s.items[id].group) == [c] <==> s.items[id].group == c {
      SplitFlat(s.items, id);
    }
  }

  lemma OneLevel(c: string)
    ensures Child([], c) == [c] && Join([c]) == c
  {
  }

  lemma OnlyRootAbove(p: Path, c: string)
    ensures p < [c] <==> p == []
    ensures p <= [c] <==> p == [] || p == [c]
  {
    if p <= [c] && |p| == 1 { assert p[0] == [c][0]; }
  }

  /** The child whose turn it is, if it has a slot, is served. */
  lemma FlatWalk(s: State, r: Ring, c: string)
    requires Flat(s, r) && r.names != [] && r.names[r.cursor] == c && s.unacked[c] < s.limit
    ensures WellFormed(s) && Walk(s, []) == Some([c])
  {
    FlatWellFormed(s, r);
    OneLevel(c);
    ItemsFlat(s, r, c);
    var id :| InGroup(s.items, id, c);
    assert id in ItemsAt(s.items, [c]);
    assert Rotation(r)[0] == c;
    assert [c] in s.nodes;
    assert Walk(s, [c]) == Some([c]);
  }

  lemma FlatPruned(r: Ring, items: map<nat, Item>, c: string, s: State)
    requires Flat(s, r) && c in r.names && Keyed(items)
    requires forall id :: id in items ==> id in s.items && items[id] == s.items[id]
    requires forall g :: g in r.names && g != c ==> Queued(items, g)
    ensures OnTree(FlatTree(r), [c])
    ensures Pruned(FlatTree(r), items, [c]) == FlatTree(if Queued(items, c) then r else Dropped(r, c))
  {
    hide Holds, Queued, FlatTree, Dropped, Pruned;
    FlatOnTree(r, c);
    var r' := if Queued(items, c) then r else Dropped(r, c);
    forall p: Path ensures p in Pruned(FlatTree(r), items, [c]) <==> p in FlatTree(r') {
      PrunedNode(r, items, c, s, p);
    }
    forall p: Path | p in FlatTree(r') ensures Pruned(FlatTree(r), items, [c])[p] == FlatTree(r')[p] {
      PrunedNode(r, items, c, s, p);
    }
  }

  lemma FlatOnTree(r: Ring, c: string)
    requires c in r.names
    ensures OnTree(FlatTree(r), [c])
  {
    forall p | p < [c] ensures p in FlatTree(r) && [c][|p|] in FlatTree(r)[p].names {
      OnlyRootAbove(p, c);
    }
  }

  lemma PrunedNode(r: Ring, items: map<nat, Item>, c: string, s: State, p: Path)
    requires Flat(s, r) && c in r.names && OnTree(FlatTree(r), [c])
    requires forall id :: id in items ==> id in s.items && items[id] == s.items[id]
    requires forall g :: g in r.names && g != c ==> Queued(items, g)
    ensures var t := Pruned(FlatTree(r), items, [c]); var u := FlatTree(if Queued(items, c) then r else Dropped(r, c));
      (p in t <==> p in u) && (p in u ==> t[p] == u[p])
  {
    hide Holds, Queued, Dropped;
    OnlyRootAbove(p, c);
    DroppedNames(r, c);
    HoldsLeaf(items, c, s);
    assert [c][..1] == [c];
    if p != [] && p in FlatTree(r) {
      var g :| g in r.names && p == [g];
      HoldsLeaf(items, g, s);
      LeafOf(r, g);
      LeafOf(Dropped(r, c), g);
    } else if p != [] {
      NoLeaf(r, Dropped(r, c), p);
    }
  }

  lemma LeafOf(r: Ring, g: string)
    ensures [g] in FlatTree(r) <==> g in r.names
  {
    if [g] in FlatTree(r) {
      var c :| c in r.names && [g] == [c];
      assert [g][0] == [c][0];
    }
  }

  lemma NoLeaf(r: Ring, r': Ring, p: Path)
    requires p !in FlatTree(r) && p != [] && (forall g :: g in r'.names ==> g in r.names)
    ensures p !in FlatTree(r')
  {
  }

  lemma DroppedNames(r: Ring, c: string)
    requires RingOk(r) && c in r.names
    ensures forall g :: g in Dropped(r, c).names <==> g in r.names && g != c
  {
    var i := IndexOf(r.names, c);
    forall g | g in r.names && g != c ensures g in Dropped(r, c).names {
      var k :| 0 <= k < |r.names| && r.names[k] == g;
      assert Dropped(r, c).names[if k < i then k else k - 1] == g;
    }
  }

  lemma HoldsLeaf(items: map<nat, Item>, g: string, s: State)
    requires forall id :: id in items ==> id in s.items && items[id] == s.items[id]
    requires forall id :: id in s.items ==> FlatGroup(s.items[id].group)
    ensures Holds(items, [g]) <==> Queued(items, g)
  {
    if Holds(items, [g]) {
      var id :| Under(items, id, [g]);
      SplitFlat(items, id);
      OnlyRootAbove([g], items[id].group);
      assert [g][0] == [items[id].group][0];
      assert InGroup(items, id, g);
    }
    if Queued(items, g) {
      var id :| InGroup(items, id, g);
      SplitFlat(items, id);
      assert Under(items, id, [g]);
    }
  }

  lemma FlatDequeue(s: State, r: Ring, c: string, x: Item, ack: bool)
    requires Flat(s, r) && r.names != [] && r.names[r.cursor] == c && s.unacked[c] < s.limit
    requires InGroup(s.items, x.id, c) && s.items[x.id] == x
    requires forall id :: InGroup(s.items, id, c) && id != x.id ==> Before(x, s.items[id])
    ensures WellFormed(s) && Walk(s, []) == Some([c])
    ensures var items := s.items - {x.id};
      Dequeue(s, ack) == (Some(x), s.(items := items,
        unacked := if ack then s.unacked else s.unacked + multiset{c},
        nodes := FlatTree(if Queued(items, c) then Served(r, c) else Dropped(Served(r, c), c))))
  {
    hide Queued, Walk, WellFormed, InGroup, Pruned;
    FlatWalk(s, r, c);
    FlatFirst(s, r, c, x);
    var items := s.items - {x.id};
    LeavesOthers(s, r, c, x.id);
    FlatAdvanced(r, c);
    ServedFlat(s, r, c);
    FlatPruned(Served(r, c), items, c, s.(nodes := FlatTree(Served(r, c))));
  }

  lemma FlatFirst(s: State, r: Ring, c: string, x: Item)
    requires Flat(s, r) && InGroup(s.items, x.id, c) && s.items[x.id] == x
    requires forall id :: InGroup(s.items, id, c) && id != x.id ==> Before(x, s.items[id])
    ensures ItemsAt(s.items, [c]) != map[] && Keyed(ItemsAt(s.items, [c])) && First(ItemsAt(s.items, [c])) == x
  {
    ItemsFlat(s, r, c);
    assert x.id in ItemsAt(s.items, [c]);
    FirstUnique(ItemsAt(s.items, [c]), x);
  }

  lemma LeavesOthers(s: State, r: Ring, c: string, id: nat)
    requires Flat(s, r) && InGroup(s.items, id, c)
    ensures var items := s.items - {id};
      && Keyed(items) && (forall g :: g in r.names && g != c ==> Queued(items, g)) && c in r.names
      && (forall j :: j in items ==> j in s.items && items[j] == s.items[j])
  {
    assert Queued(s.items, c);
    forall g | g in r.names && g != c ensures Queued(s.items - {id}, g) {
      var j :| InGroup(s.items, j, g);
      assert InGroup(s.items - {id}, j, g);
    }
  }

  lemma FlatAdvanced(r: Ring, c: string)
    requires RingOk(r) && c in r.names
    ensures OnTree(FlatTree(r), [c]) && Advanced(FlatTree(r), [c]) == FlatTree(Served(r, c))
  {
    OneLevel(c);
  }

  lemma ServedFlat(s: State, r: Ring, c: string)
    requires Flat(s, r) && c in r.names
    ensures Flat(s.(nodes := FlatTree(Served(r, c))), Served(r, c))
  {
  }

  lemma FlatEnqueue(s: State, r: Ring, g: string, id: nat, priority: int)
    requires Flat(s, r) && FlatGroup(g) && id !in s.items
    ensures var s' := Enqueue(s, g, id, priority);
      && s' == s.(items := s.items[id := Item(id, priority, g)], nodes := FlatTree(Appended(r, g)))
      && Flat(s', Appended(r, g))
  {
    hide FlatTree, Grown;
    NoDotSplit(g);
    FlatGrown(r, g);
    var items := s.items[id := Item(id, priority, g)];
    forall c ensures c in Appended(r, g).names <==> Queued(items, c) {
      if c == g { assert InGroup(items, id, g); }
      if Queued(s.items, c) {
        var j :| InGroup(s.items, j, c);
        assert InGroup(items, j, c);
      }
      if Queued(items, c) && c != g {
        var j :| InGroup(items, j, c);
        assert InGroup(s.items, j, c);
      }
    }
  }

  lemma FlatGrown(r: Ring, g: string)
    requires RingOk(r)
    ensures Grown(FlatTree(r), [g]) == FlatTree(Appended(r, g)) && RingOk(Appended(r, g))
  {
    var t, u := Grown(FlatTree(r), [g]), FlatTree(Appended(r, g));
    forall p: Path ensures (p in t <==> p in u) && (p in u ==> t[p] == u[p]) {
      OnlyRootAbove(p, g);
      if p != [] && p in t && p != [g] { assert p in FlatTree(r); }
    }
  }

  lemma FlatLess(s: State, r: Ring, c: string, id: nat)
    requires Flat(s, r) && InGroup(s.items, id, c)
    ensures var items := s.items - {id}; var r' := if Queued(items, c) then r else Dropped(r, c);
      c in r.names && Flat(s.(items := items, nodes := FlatTree(r')), r')
  {
    var items := s.items - {id};
    LeavesOthers(s, r, c, id);
    DroppedNames(r, c);
    DroppedOk(r, c);
    forall g ensures g in r.names && (g != c || Queued(items, c)) <==> Queued(items, g) {
      if Queued(items, g) {
        var j :| InGroup(items, j, g);
        assert InGroup(s.items, j, g);
      }
    }
  }

  lemma FlatDelete(s: State, r: Ring, c: string, id: nat)
    requires Flat(s, r) && InGroup(s.items, id, c)
    ensures WellFormed(s) && Get(s, c, id).Some?
    ensures var items := s.items - {id};
      Delete(s, c, id) == s.(items := items, nodes := FlatTree(if Queued(items, c) then r else Dropped(r, c)))
  {
    hide Queued, WellFormed, Pruned;
    FlatWellFormed(s, r);
    SplitFlat(s.items, id);
    LeavesOthers(s, r, c, id);
    FlatPruned(r, s.items - {id}, c, s);
  }

  lemma FlatReady(s: State, r: Ring, c: string)
    requires Flat(s, r) && c in r.names && s.unacked[c] < s.limit
    ensures WellFormed(s) && [] in s.nodes && Child([], c) in s.nodes
    ensures UnderLimit(s, Child([], c)) && HasReady(s, Child([], c))
  {
    FlatWellFormed(s, r);
    OneLevel(c);
    ItemsFlat(s, r, c);
    var id :| InGroup(s.items, id, c);
    assert id in ItemsAt(s.items, [c]);
    LeafOf(r, c);
  }
}
