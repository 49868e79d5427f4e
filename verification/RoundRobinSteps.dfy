/**
 * The round-robin queue one node at a time: how the tree, the message counts and the set of ready
 * leaves move while an operation works its way along one path.
 */
module RoundRobinSteps {
  import opened Types
  import opened Order
  import opened GroupPath
  import opened RoundRobin
  import opened RoundRobinProperties

  // ---------- Message counts ----------

  ghost function IdsUnder(items: map<nat, Item>, p: Path): set<nat> {
    set id | id in items && p <= Split(items[id].group)
  }

  /** Every node counts the messages queued at it and below it. */
  ghost predicate CountsExact(counts: map<Path, nat>, items: map<nat, Item>) {
    forall p :: p in counts ==> counts[p] == |IdsUnder(items, p)|
  }

  lemma CountIsZero(items: map<nat, Item>, p: Path)
    ensures |IdsUnder(items, p)| == 0 <==> !Holds(items, p)
  {
    if Holds(items, p) {
      var id :| Under(items, id, p);
      assert id in IdsUnder(items, p);
    }
    if IdsUnder(items, p) != {} {
      var id :| id in IdsUnder(items, p);
      assert Under(items, id, p);
    }
  }

  /** The counts after adding `n` along the path `l`. */
  ghost predicate Shifted(before: map<Path, nat>, after: map<Path, nat>, l: Path, n: int) {
    && after.Keys == before.Keys
    && forall p :: p in before ==> after[p] == before[p] + if p <= l then n else 0
  }

  lemma CountsAfterAdd(before: map<Path, nat>, after: map<Path, nat>, items: map<nat, Item>, x: Item)
    requires CountsExact(before, items) && x.id !in items && Shifted(before, after, Split(x.group), 1)
    ensures CountsExact(after, items[x.id := x])
  {
    forall p | p in after ensures after[p] == |IdsUnder(items[x.id := x], p)| {
      assert IdsUnder(items[x.id := x], p)
          == IdsUnder(items, p) + if p <= Split(x.group) then {x.id} else {};
    }
  }

  lemma CountsAfterRemove(before: map<Path, nat>, after: map<Path, nat>, items: map<nat, Item>, id: nat)
    requires CountsExact(before, items) && id in items && Shifted(before, after, Split(items[id].group), -1)
    ensures CountsExact(after, items - {id})
  {
    forall p | p in after ensures after[p] == |IdsUnder(items - {id}, p)| {
      assert IdsUnder(items - {id}, p)
          == IdsUnder(items, p) - if p <= Split(items[id].group) then {id} else {};
    }
  }

  // ---------- Growing ----------

  lemma GrownNothing(nodes: Tree)
    requires [] in nodes
    ensures Grown(nodes, []) == nodes
  {
  }

  ghost function GrownOnce(a: Tree, p: Path, c: string): Tree
    requires p in a
  {
    a[p := Appended(a[p], c)][Child(p, c) := RingAt(a, Child(p, c))]
  }

  lemma GrownAlready(a: Tree, p: Path, c: string)
    requires p in a && c in a[p].names && Child(p, c) in a
    ensures GrownOnce(a, p, c) == a
  {
  }

  lemma GrownAt(nodes: Tree, p: Path, c: string, r: Path)
    ensures p in Grown(nodes, p)
    ensures r in Grown(nodes, Child(p, c)) <==> r in GrownOnce(Grown(nodes, p), p, c)
    ensures r in Grown(nodes, Child(p, c)) ==> Grown(nodes, Child(p, c))[r] == GrownOnce(Grown(nodes, p), p, c)[r]
  {
    hide Appended, Prefixes;
    PrefixOfChild(p, c, r);
    PrefixOfChild(p, c, p);
  }

  /** One step of the descent: the next segment is appended to the ring if it is new. */
  lemma GrownStep(nodes: Tree, p: Path, c: string)
    ensures p in Grown(nodes, p)
    ensures Grown(nodes, Child(p, c)) == GrownOnce(Grown(nodes, p), p, c)
  {
    hide Grown, GrownOnce;
    GrownAt(nodes, p, c, p);
    forall r { GrownAt(nodes, p, c, r); }
  }

  lemma PrefixOfChild(p: Path, c: string, r: Path)
    ensures r <= Child(p, c) <==> r == Child(p, c) || r <= p
    ensures r < Child(p, c) <==> r <= p
    ensures r <= p <==> r == p || r < p
    ensures r < p ==> Child(p, c)[|r|] == p[|r|]
  {
    if r <= Child(p, c) && |r| == |p| + 1 {
      assert r == Child(p, c);
    }
  }

  // ---------- Ready leaves ----------

  /** `ready` is the set of ready leaves, except perhaps at `q`. */
  ghost predicate ReadyBut(s: State, ready: set<Path>, q: Path) {
    forall p :: p != q ==> (p in ready <==> IsReadyLeaf(s, p))
  }

  ghost predicate ReadyExact(s: State, ready: set<Path>) {
    forall p :: p in ready <==> IsReadyLeaf(s, p)
  }

  // ---------- Advancing ----------

  /** The cursors from `p` down to the served leaf `l` moved past it. */
  ghost function AdvancedFrom(nodes: Tree, p: Path, l: Path): Tree
    requires OnTree(nodes, l)
  {
    map q | q in nodes :: if p <= q < l then Served(nodes[q], l[|q|]) else nodes[q]
  }

  lemma AdvancedFromRoot(nodes: Tree, l: Path)
    requires OnTree(nodes, l)
    ensures AdvancedFrom(nodes, [], l) == Advanced(nodes, l)
  {
  }

  lemma AdvancedStep(nodes: Tree, r: Ring, p: Path, c: string, l: Path)
    requires OnTree(nodes, l) && p in nodes && Child(p, c) <= l && r.names == nodes[p].names
    ensures OnTree(nodes[p := r], l)
    ensures AdvancedFrom(nodes[p := r], Child(p, c), l)[p := Served(r, c)] == AdvancedFrom(nodes, p, l)
  {
    ChildOnWay(p, c, l);
    forall q | q in nodes { BelowChild(p, c, l, q); }
  }

  lemma BelowChild(p: Path, c: string, l: Path, q: Path)
    requires Child(p, c) <= l
    ensures p <= q < l <==> q == p || Child(p, c) <= q < l
  {
    ChildOnWay(p, c, l);
    ChildOnWay(p, c, q);
  }

  /** A walk looks only at what is below its start. */
  lemma {:induction false} WalkLocal(s: State, t: State, p: Path)
    requires WellFormed(s) && WellFormed(t) && p in s.nodes && t.nodes.Keys == s.nodes.Keys
    requires t.items == s.items && t.unacked == s.unacked && t.limit == s.limit
    requires forall q :: q in s.nodes && p <= q ==> t.nodes[q] == s.nodes[q]
    ensures Walk(t, p) == Walk(s, p)
    decreases Descendants(s.nodes, p), 1, 0
  {
    if s.nodes[p].names != [] {
      ScanLocal(s, t, p, 0);
    }
  }

  lemma {:induction false} ScanLocal(s: State, t: State, p: Path, k: nat)
    requires WellFormed(s) && WellFormed(t) && p in s.nodes && t.nodes.Keys == s.nodes.Keys
    requires t.items == s.items && t.unacked == s.unacked && t.limit == s.limit
    requires forall q :: q in s.nodes && p <= q ==> t.nodes[q] == s.nodes[q]
    requires k <= |s.nodes[p].names|
    ensures Scan(t, p, k) == Scan(s, p, k)
    decreases Descendants(s.nodes, p), 0, |s.nodes[p].names| - k
  {
    var order := Rotation(s.nodes[p]);
    if k < |order| {
      var child := Child(p, order[k]);
      assert order[k] in s.nodes[p].names;
      ChildHasFewerDescendants(s.nodes, p, order[k]);
      assert p == child[..|p|];
      WalkLocal(s, t, child);
      ScanLocal(s, t, p, k + 1);
    }
  }

  // ---------- Pruning ----------

  /** Every node not on the way to `l` leads to an item. */
  ghost predicate HoldsOffWay(nodes: Tree, items: map<nat, Item>, l: Path) {
    forall p :: p in nodes && !(p <= l) ==> Holds(items, p)
  }

  /** The tree without the node at `Child(p, c)`. */
  ghost function Cut(nodes: Tree, p: Path, c: string): Tree
    requires p in nodes && c in nodes[p].names
  {
    (nodes - {Child(p, c)})[p := Dropped(nodes[p], c)]
  }

  lemma CutOnTree(nodes: Tree, p: Path, c: string)
    requires OnTree(nodes, Child(p, c))
    ensures p in nodes && c in nodes[p].names && OnTree(Cut(nodes, p, c), p)
  {
    ChildOnWay(p, c, Child(p, c));
    forall q | q < p ensures q in Cut(nodes, p, c) && p[|q|] in Cut(nodes, p, c)[q].names {
      PrefixOfChild(p, c, q);
    }
  }

  lemma NextPrefix(p: Path, c: string, q: Path)
    ensures q == p ==> Child(p, c)[..|q| + 1] == Child(p, c) && Child(p, c)[|q|] == c
    ensures q < p ==> Child(p, c)[..|q| + 1] == p[..|q| + 1] <= p && Child(p, c)[|q|] == p[|q|]
  {
  }

  lemma CutAt(nodes: Tree, items: map<nat, Item>, p: Path, c: string, q: Path)
    requires OnTree(nodes, Child(p, c)) && !Holds(items, Child(p, c)) && HoldsOffWay(nodes, items, Child(p, c))
    requires p in nodes && c in nodes[p].names && OnTree(Cut(nodes, p, c), p)
    requires p == [] || Holds(items, p)
    ensures q in Pruned(nodes, items, Child(p, c)) <==> q in Cut(nodes, p, c)
    ensures q in Cut(nodes, p, c) ==> Pruned(nodes, items, Child(p, c))[q] == Cut(nodes, p, c)[q]
  {
    hide Holds, Dropped, OnTree;
    PrefixOfChild(p, c, q);
    NextPrefix(p, c, q);
    if q < p {
      HoldsPrefix(items, q, p);
      HoldsPrefix(items, p[..|q| + 1], p);
    }
  }

  lemma CutAndPruneAt(nodes: Tree, items: map<nat, Item>, p: Path, c: string, q: Path)
    requires OnTree(nodes, Child(p, c)) && !Holds(items, Child(p, c)) && HoldsOffWay(nodes, items, Child(p, c))
    requires p in nodes && c in nodes[p].names && OnTree(Cut(nodes, p, c), p)
    requires p != [] && !Holds(items, p)
    ensures q in Pruned(nodes, items, Child(p, c)) <==> q in Pruned(Cut(nodes, p, c), items, p)
    ensures q in Pruned(nodes, items, Child(p, c)) ==>
      Pruned(nodes, items, Child(p, c))[q] == Pruned(Cut(nodes, p, c), items, p)[q]
  {
    hide Holds, Dropped, OnTree;
    PrefixOfChild(p, c, q);
    NextPrefix(p, c, q);
  }

  /** Removing a node that no longer leads to an item, and then its parent if need be. */
  lemma PrunedStep(nodes: Tree, items: map<nat, Item>, p: Path, c: string)
    requires OnTree(nodes, Child(p, c)) && !Holds(items, Child(p, c)) && HoldsOffWay(nodes, items, Child(p, c))
    ensures p in nodes && c in nodes[p].names && OnTree(Cut(nodes, p, c), p)
    ensures HoldsOffWay(Cut(nodes, p, c), items, p)
    ensures p != [] && !Holds(items, p) ==>
      Pruned(nodes, items, Child(p, c)) == Pruned(Cut(nodes, p, c), items, p)
    ensures p == [] || Holds(items, p) ==> Pruned(nodes, items, Child(p, c)) == Cut(nodes, p, c)
  {
    hide Pruned, Holds, OnTree;
    CutOnTree(nodes, p, c);
    forall q | q in nodes { PrefixOfChild(p, c, q); }
    if p == [] || Holds(items, p) {
      forall q { CutAt(nodes, items, p, c, q); }
    } else {
      forall q { CutAndPruneAt(nodes, items, p, c, q); }
    }
  }

  // ---------- The scan of one ring ----------

  /** The index the cursor of a ring stands on after `k` moves. */
  function Spot(r: Ring, k: nat): (i: nat)
    requires r.cursor < |r.names| && k <= |r.names|
    ensures i < |r.names|
  {
    if r.cursor + k < |r.names| then r.cursor + k else r.cursor + k - |r.names|
  }

  lemma SpotFacts(r: Ring, k: nat)
    requires RingOk(r) && k < |r.names|
    ensures Rotation(r)[k] == r.names[Spot(r, k)]
    ensures Spot(r, 0) == r.cursor && Spot(r, |r.names|) == r.cursor
    ensures Spot(r, k + 1) == if Spot(r, k) + 1 == |r.names| then 0 else Spot(r, k) + 1
    ensures r.names[Spot(r, k + 1)] == r.names[r.cursor] <==> k + 1 == |r.names|
  {
  }

  /** The tree with the cursor of the ring at `p` moved `k` times. */
  ghost function Turned(nodes: Tree, p: Path, k: nat): Tree
    requires p in nodes && nodes[p].cursor < |nodes[p].names| && k <= |nodes[p].names|
  {
    nodes[p := nodes[p].(cursor := Spot(nodes[p], k))]
  }

  lemma TurnedWellFormed(s: State, p: Path, k: nat)
    requires WellFormed(s) && p in s.nodes && s.nodes[p].names != [] && k <= |s.nodes[p].names|
    ensures s.nodes[p].cursor < |s.nodes[p].names| && WellFormed(s.(nodes := Turned(s.nodes, p, k)))
  {
    RingOnTree(s, p);
    hide ValidGroup, Keyed;
    var t := Turned(s.nodes, p, k);
    forall q, c | q in t ensures c in t[q].names <==> Child(q, c) in t {
      assert t[q].names == s.nodes[q].names;
    }
  }

  /** What a scan does with the `k`-th child, in the tree as the scan has left it. */
  lemma ScanStep(s: State, p: Path, k: nat)
    requires WellFormed(s) && p in s.nodes && k < |s.nodes[p].names| && s.nodes[p].cursor < |s.nodes[p].names|
    ensures var t := s.(nodes := Turned(s.nodes, p, k));
      var c := s.nodes[p].names[Spot(s.nodes[p], k)];
      && WellFormed(t) && Child(p, c) in s.nodes
      && Descendants(t.nodes, Child(p, c)) < Descendants(s.nodes, p)
      && Walk(t, Child(p, c)) == Walk(s, Child(p, c))
      && Scan(s, p, k) == if UnderLimit(s, Child(p, c)) && Walk(s, Child(p, c)).Some? then Walk(s, Child(p, c))
                          else Scan(s, p, k + 1)
  {
    hide UnderLimit;
    RingOnTree(s, p);
    SpotFacts(s.nodes[p], k);
    TurnedWellFormed(s, p, k);
    var t := s.(nodes := Turned(s.nodes, p, k));
    var c := s.nodes[p].names[Spot(s.nodes[p], k)];
    ChildOnTree(s, p, c);
    hide WellFormed, Walk;
    ChildHasFewerDescendants(s.nodes, p, c);
    assert Descendants(t.nodes, Child(p, c)) == Descendants(s.nodes, Child(p, c));
    assert !(Child(p, c) <= p);
    WalkLocal(s, t, Child(p, c));
  }

  /** The item popped by a walk from `p`, and the cursors it moved on the way. */
  ghost predicate Walked(s: State, t: State, p: Path, x: Option<Item>)
    requires WellFormed(s) && p in s.nodes
  {
    match x
    case None => Walk(s, p) == None && t == s
    case Some(y) =>
      && Walk(s, p).Some? && PoppedAt(s, y, Walk(s, p).value)
      && t == s.(items := s.items - {y.id}, nodes := AdvancedFrom(s.nodes, p, Walk(s, p).value))
  }

  ghost predicate PoppedAt(s: State, y: Item, l: Path)
    ensures PoppedAt(s, y, l) ==> OnTree(s.nodes, l)
  {
    OnTree(s.nodes, l) && IsFirst(ItemsAt(s.items, l), y) && y.id in s.items && s.items[y.id] == y
  }

  lemma WalkedHere(s: State, p: Path, y: Item)
    requires WellFormed(s) && p in s.nodes && s.nodes[p].names == [] && ItemsAt(s.items, p) != map[]
    requires IsFirst(ItemsAt(s.items, p), y) && y.id in s.items && s.items[y.id] == y
    ensures Walked(s, s.(items := s.items - {y.id}), p, Some(y))
  {
    LeadsTo(s, p);
    assert AdvancedFrom(s.nodes, p, p) == s.nodes;
  }

  lemma WalkedChild(s: State, p: Path, k: nat, t: State, y: Item)
    requires WellFormed(s) && p in s.nodes && k < |s.nodes[p].names| && s.nodes[p].cursor < |s.nodes[p].names|
    requires var c := s.nodes[p].names[Spot(s.nodes[p], k)];
      var u := s.(nodes := Turned(s.nodes, p, k));
      && Child(p, c) in s.nodes && WellFormed(u) && Walk(u, Child(p, c)) == Walk(s, Child(p, c))
      && Walk(s, p) == Walk(s, Child(p, c)) && Walked(u, t, Child(p, c), Some(y))
    ensures p in t.nodes
    ensures Walked(s, t.(nodes := t.nodes[p := s.nodes[p].(cursor := Spot(s.nodes[p], k + 1))]), p, Some(y))
  {
    hide WellFormed, Walk, AdvancedFrom, OnTree, Served, Spot, IsFirst, ItemsAt;
    var c := s.nodes[p].names[Spot(s.nodes[p], k)];
    var l := Walk(s, p).value;
    RingOnTree(s, p);
    LeadsDown(s, p, c);
    LeadsTo(s, l);
    var r := s.nodes[p].(cursor := Spot(s.nodes[p], k));
    AdvancedStep(s.nodes, r, p, c, l);
    AdvancedKeys(s.nodes[p := r], Child(p, c), l, p);
    ServedSpot(s.nodes[p], k);
  }

  lemma ServedSpot(r: Ring, k: nat)
    requires RingOk(r) && k < |r.names|
    ensures Served(r.(cursor := Spot(r, k)), r.names[Spot(r, k)]) == r.(cursor := Spot(r, k + 1))
  {
    SpotFacts(r, k);
  }

  lemma LeadsDown(s: State, p: Path, c: string)
    requires WellFormed(s) && Child(p, c) in s.nodes && Walk(s, Child(p, c)).Some?
    ensures var l := Walk(s, Child(p, c)).value; Child(p, c) <= l && l in s.nodes
  {
    WalkReachesLeaf(s, Child(p, c));
  }

  lemma AdvancedKeys(nodes: Tree, q: Path, l: Path, p: Path)
    requires OnTree(nodes, l) && p in nodes
    ensures p in AdvancedFrom(nodes, q, l)
  {
  }

  /** The child whose turn it is after `k` moves, and the state the scan has reached by then. */
  ghost function ChildInTurn(s: State, p: Path, k: nat): Path
    requires p in s.nodes && s.nodes[p].cursor < |s.nodes[p].names| && k < |s.nodes[p].names|
  {
    Child(p, s.nodes[p].names[Spot(s.nodes[p], k)])
  }

  ghost function InTurn(s: State, p: Path, k: nat): State
    requires p in s.nodes && s.nodes[p].cursor < |s.nodes[p].names| && k <= |s.nodes[p].names|
  {
    s.(nodes := Turned(s.nodes, p, k))
  }

  /** `t` is what visiting the child left, and `x` what it gave. */
  ghost predicate ChildVisited(s: State, p: Path, k: nat, t: State, x: Option<Item>)
    requires WellFormed(s) && p in s.nodes && s.nodes[p].cursor < |s.nodes[p].names| && k < |s.nodes[p].names|
  {
    var c, u := ChildInTurn(s, p, k), InTurn(s, p, k);
    && WellFormed(u) && c in u.nodes
    && if UnderLimit(u, c) then Walked(u, t, c, x) else x == None && t == u
  }

  lemma Visited(s: State, p: Path, k: nat, t: State, x: Option<Item>)
    requires WellFormed(s) && p in s.nodes && s.nodes[p].cursor < |s.nodes[p].names| && k < |s.nodes[p].names|
    requires ChildVisited(s, p, k, t, x)
    ensures p in t.nodes && t.nodes[p] == InTurn(s, p, k).nodes[p]
    ensures var t' := t.(nodes := t.nodes[p := s.nodes[p].(cursor := Spot(s.nodes[p], k + 1))]);
      && (x == None ==> t' == InTurn(s, p, k + 1) && Scan(s, p, k) == Scan(s, p, k + 1))
      && (x.Some? && Walk(s, p) == Scan(s, p, k) ==> Walked(s, t', p, x))
  {
    hide WellFormed, Walk, Scan, Join, Spot, AdvancedFrom, PoppedAt;
    ScanStep(s, p, k);
    if x.Some? {
      RingKept(InTurn(s, p, k), p, s.nodes[p].names[Spot(s.nodes[p], k)], x.value);
      if Walk(s, p) == Scan(s, p, k) {
        WalkedChild(s, p, k, t, x.value);
      }
    }
  }

  lemma RingKept(u: State, p: Path, c: string, y: Item)
    requires WellFormed(u) && p in u.nodes && Child(p, c) in u.nodes
    requires Walk(u, Child(p, c)).Some? && PoppedAt(u, y, Walk(u, Child(p, c)).value)
    ensures var a := AdvancedFrom(u.nodes, Child(p, c), Walk(u, Child(p, c)).value); p in a && a[p] == u.nodes[p]
  {
    hide WellFormed, Walk, PoppedAt;
    ChildOnWay(p, c, p);
  }

  lemma TurnedBack(s: State, p: Path)
    requires WellFormed(s) && p in s.nodes && s.nodes[p].names != []
    ensures s.nodes[p].cursor < |s.nodes[p].names|
    ensures InTurn(s, p, 0) == s && InTurn(s, p, |s.nodes[p].names|) == s
    ensures Walk(s, p) == Scan(s, p, 0) && Scan(s, p, |s.nodes[p].names|) == None
  {
    RingOnTree(s, p);
    SpotFacts(s.nodes[p], 0);
    assert Turned(s.nodes, p, 0) == s.nodes && Turned(s.nodes, p, |s.nodes[p].names|) == s.nodes;
  }
}
