/**
 * What the fair round-robin queue does, on values. The group tree is a map from path to ring: the
 * order in which a node's children take turns and the index of the child whose turn is next. An
 * unset cursor of the source is index 0, since both start the next scan at the head.
 */
module RoundRobin {
  import opened Types
  import opened Order
  import opened GroupPath

  datatype Ring = Ring(names: seq<string>, cursor: nat)

  type Tree = map<Path, Ring>

  /** `unacked[g]` is group g's unacked counter; a counter at zero and a missing one are the same. */
  datatype State = State(items: map<nat, Item>, unacked: multiset<string>, limit: SlotLimit, nodes: Tree)

  // ---------- Trees and the items under them ----------

  /** The items queued at the node with path `p`. */
  ghost function ItemsAt(items: map<nat, Item>, p: Path): map<nat, Item> {
    map id | id in items && Split(items[id].group) == p :: items[id]
  }

  ghost predicate Under(items: map<nat, Item>, id: nat, p: Path) {
    id in items && p <= Split(items[id].group)
  }

  /** Some item is queued at `p` or below it. */
  ghost predicate Holds(items: map<nat, Item>, p: Path) {
    exists id :: Under(items, id, p)
  }

  ghost predicate NoDuplicates(s: seq<string>) {
    forall i, j :: 0 <= i < j < |s| ==> s[i] != s[j]
  }

  ghost predicate RingOk(r: Ring) {
    NoDuplicates(r.names) && (r.cursor < |r.names| || (r.names == [] && r.cursor == 0))
  }

  function Child(p: Path, c: string): Path {
    p + [c]
  }

  lemma NextOnWay(p: Path, l: Path)
    requires p < l
    ensures l[..|p| + 1] == Child(p, l[|p|]) && Child(p, l[|p|]) <= l
  {
  }

  lemma ChildOnWay(p: Path, c: string, l: Path)
    ensures Child(p, c) <= l <==> p < l && l[|p|] == c
    ensures p < Child(p, c)
  {
    if p < l && l[|p|] == c {
      NextOnWay(p, l);
    }
  }

  /** The tree has exactly the nodes that lead to an item, and each ring lists exactly the children. */
  ghost predicate Fits(nodes: Tree, items: map<nat, Item>) {
    && (forall p :: p in nodes <==> p == [] || Holds(items, p))
    && (forall p :: p in nodes ==> RingOk(nodes[p]))
    && (forall p, c :: p in nodes ==> (c in nodes[p].names <==> Child(p, c) in nodes))
  }

  ghost predicate WellFormed(s: State) {
    && Keyed(s.items)
    && (forall id :: id in s.items ==> ValidGroup(s.items[id].group))
    && Fits(s.nodes, s.items)
  }

  lemma RingOnTree(s: State, p: Path)
    requires WellFormed(s) && p in s.nodes
    ensures RingOk(s.nodes[p])
  {
  }

  lemma ChildOnTree(s: State, p: Path, c: string)
    requires WellFormed(s) && p in s.nodes && c in s.nodes[p].names
    ensures Child(p, c) in s.nodes
  {
  }

  // ---------- The walk of a dequeue ----------

  function Rotation(r: Ring): (order: seq<string>)
    requires r.cursor <= |r.names|
    ensures |order| == |r.names|
    ensures forall c :: c in order <==> c in r.names
  {
    assert r.names == r.names[..r.cursor] + r.names[r.cursor..];
    r.names[r.cursor..] + r.names[..r.cursor]
  }

  ghost predicate UnderLimit(s: State, p: Path) {
    s.unacked[Join(p)] < s.limit
  }

  ghost predicate IsLeaf(s: State, p: Path) {
    p in s.nodes && s.nodes[p].names == []
  }

  ghost function Descendants(nodes: Tree, p: Path): set<Path> {
    set q | q in nodes && p <= q
  }

  lemma ChildHasFewerDescendants(nodes: Tree, p: Path, c: string)
    requires p in nodes
    ensures Descendants(nodes, Child(p, c)) < Descendants(nodes, p)
  {
    assert p in Descendants(nodes, p) && p !in Descendants(nodes, Child(p, c));
    forall q | q in Descendants(nodes, Child(p, c)) ensures q in Descendants(nodes, p) {
      assert p == (Child(p, c))[..|p|];
    }
  }

  /** The leaf that `dequeueFromNode` pops from, starting at node `p`. */
  ghost function Walk(s: State, p: Path): Option<Path>
    requires WellFormed(s) && p in s.nodes
    decreases Descendants(s.nodes, p), 1, 0
  {
    if s.nodes[p].names == [] then
      if ItemsAt(s.items, p) != map[] then Some(p) else None
    else
      Scan(s, p, 0)
  }

  /** The children from the `k`-th in the rotation on: the first that is not blocked and yields an item. */
  ghost function Scan(s: State, p: Path, k: nat): Option<Path>
    requires WellFormed(s) && p in s.nodes && k <= |s.nodes[p].names|
    decreases Descendants(s.nodes, p), 0, |s.nodes[p].names| - k
  {
    var order := Rotation(s.nodes[p]);
    if k == |order| then None
    else
      var child := Child(p, order[k]);
      assert order[k] in s.nodes[p].names;
      ChildHasFewerDescendants(s.nodes, p, order[k]);
      if UnderLimit(s, child) && Walk(s, child).Some? then Walk(s, child) else Scan(s, p, k + 1)
  }

  /** `hasReadyNode`: the same gating, in no particular order. */
  ghost predicate HasReady(s: State, p: Path)
    requires WellFormed(s) && p in s.nodes
    decreases Descendants(s.nodes, p)
  {
    if s.nodes[p].names == [] then ItemsAt(s.items, p) != map[]
    else exists c ::
      && c in s.nodes[p].names
      && UnderLimit(s, Child(p, c))
      && (ChildHasFewerDescendants(s.nodes, p, c); HasReady(s, Child(p, c)))
  }

  /** `PeekReady`: some leaf holds an item and is itself under the limit. */
  ghost predicate PeekReady(s: State) {
    exists p :: IsReadyLeaf(s, p)
  }

  ghost predicate IsReadyLeaf(s: State, p: Path) {
    IsLeaf(s, p) && ItemsAt(s.items, p) != map[] && UnderLimit(s, p)
  }

  // ---------- Updates ----------

  /** A place of `c` in `s`; the only one in a list without duplicates. */
  ghost function IndexOf(s: seq<string>, c: string): (i: nat)
    requires c in s
    ensures i < |s| && s[i] == c
  {
    var i: nat :| i < |s| && s[i] == c;
    i
  }

  function Appended(r: Ring, c: string): Ring {
    if c in r.names then r else r.(names := r.names + [c])
  }

  /** After `c` was served its successor is next. */
  ghost function Served(r: Ring, c: string): Ring
    requires c in r.names
  {
    var i := IndexOf(r.names, c);
    r.(cursor := if i + 1 == |r.names| then 0 else i + 1)
  }

  /** `removeEmptyChild` on one ring: a cursor on the removed child goes back to the head. */
  ghost function Dropped(r: Ring, c: string): Ring
    requires c in r.names
  {
    var i := IndexOf(r.names, c);
    Ring(r.names[..i] + r.names[i + 1..],
         if r.cursor == i then 0 else if r.cursor < i then r.cursor else r.cursor - 1)
  }

  ghost function Prefixes(l: Path): (ps: set<Path>)
    ensures forall p :: p in ps <==> p <= l
  {
    var ps := set i | 0 <= i <= |l| :: l[..i];
    assert forall p :: p <= l ==> p == l[..|p|];
    ps
  }

  ghost function RingAt(nodes: Tree, p: Path): Ring {
    if p in nodes then nodes[p] else Ring([], 0)
  }

  /** Creates the nodes missing on the way to `l`, each at the end of its parent's turn order. */
  ghost function Grown(nodes: Tree, l: Path): Tree {
    map p | p in nodes.Keys + Prefixes(l) ::
      if p < l then Appended(RingAt(nodes, p), l[|p|]) else RingAt(nodes, p)
  }

  /** Moves every cursor on the way to the served leaf `l` past it. */
  ghost function Advanced(nodes: Tree, l: Path): Tree
    requires OnTree(nodes, l)
  {
    map p | p in nodes :: if p < l then Served(nodes[p], l[|p|]) else nodes[p]
  }

  ghost predicate OnTree(nodes: Tree, l: Path) {
    forall p :: p < l ==> p in nodes && l[|p|] in nodes[p].names
  }

  /** Removes the nodes on the way to `l` that no longer lead to an item. */
  ghost function Pruned(nodes: Tree, items: map<nat, Item>, l: Path): Tree
    requires OnTree(nodes, l)
  {
    map p | p in nodes && (p == [] || Holds(items, p)) ::
      if p < l && !Holds(items, l[..|p| + 1]) then Dropped(nodes[p], l[|p|]) else nodes[p]
  }

  lemma LeadsTo(s: State, l: Path)
    requires WellFormed(s) && l in s.nodes
    ensures OnTree(s.nodes, l)
  {
    forall p | p < l ensures p in s.nodes && l[|p|] in s.nodes[p].names {
      NextOnWay(p, l);
      PrefixOnTree(s, p, l);
      PrefixOnTree(s, Child(p, l[|p|]), l);
    }
  }

  lemma PrefixOnTree(s: State, p: Path, l: Path)
    requires WellFormed(s) && l in s.nodes && p <= l
    ensures p in s.nodes
  {
    if p != [] {
      var id :| Under(s.items, id, l);
      assert Under(s.items, id, p);
    }
  }

  lemma ItemOnTree(s: State, id: nat)
    requires WellFormed(s) && id in s.items
    ensures Split(s.items[id].group) in s.nodes
    ensures OnTree(s.nodes, Split(s.items[id].group))
  {
    assert Under(s.items, id, Split(s.items[id].group));
    LeadsTo(s, Split(s.items[id].group));
  }

  // ---------- Operations ----------

  function GroupOrDefault(group: string): string {
    if group == "" then "default" else group
  }

  ghost function Enqueue(s: State, group: string, id: nat, priority: int): State {
    var g := GroupOrDefault(group);
    s.(items := s.items[id := Item(id, priority, g)], nodes := Grown(s.nodes, Split(g)))
  }

  ghost function Get(s: State, group: string, id: nat): Option<Item> {
    if id in s.items && s.items[id].group == group then Some(s.items[id]) else None
  }

  ghost function Removed(s: State, id: nat): State
    requires WellFormed(s) && id in s.items
  {
    ItemOnTree(s, id);
    var items := s.items - {id};
    s.(items := items, nodes := Pruned(s.nodes, items, Split(s.items[id].group)))
  }

  ghost function Delete(s: State, group: string, id: nat): State
    requires WellFormed(s)
  {
    if Get(s, group, id).Some? then Removed(s, id) else s
  }

  ghost function Dequeue(s: State, ack: bool): (r: (Option<Item>, State))
    requires WellFormed(s)
  {
    match Walk(s, [])
    case None => (None, s)
    case Some(l) =>
      WalkReachesLeaf(s, []);
      LeadsTo(s, l);
      var x := First(ItemsAt(s.items, l));
      var items := s.items - {x.id};
      AdvancedOnTree(s.nodes, l);
      (Some(x),
       s.(items := items,
          unacked := if ack then s.unacked else s.unacked + multiset{x.group},
          nodes := Pruned(Advanced(s.nodes, l), items, l)))
  }

  ghost function UpdatePriority(s: State, group: string, id: nat, priority: int): State {
    if Get(s, group, id).Some? then s.(items := s.items[id := s.items[id].(priority := priority)]) else s
  }

  /** `UpdateWeights`: gives back one unacked slot. */
  function Release(s: State, group: string): State {
    s.(unacked := s.unacked - multiset{group})
  }

  function MarkUnacked(s: State, group: string): State {
    s.(unacked := s.unacked + multiset{group})
  }

  function UpdateMaxUnacked(s: State, maxUnacked: uint32): State {
    s.(limit := Limit(maxUnacked))
  }

  function New(maxUnacked: uint32): State {
    State(map[], multiset{}, Limit(maxUnacked), map[[] := Ring([], 0)])
  }

  lemma AdvancedOnTree(nodes: Tree, l: Path)
    requires OnTree(nodes, l)
    ensures OnTree(Advanced(nodes, l), l)
  {
  }

  // ---------- What the walk finds ----------

  /** The item set of a leaf that a walk from `p` may pop from. */
  ghost predicate Reachable(s: State, p: Path, l: Path) {
    && p <= l && IsLeaf(s, l) && ItemsAt(s.items, l) != map[]
    && forall q :: p < q <= l ==> UnderLimit(s, q)
  }

  lemma {:induction false} WalkReachesLeaf(s: State, p: Path)
    requires WellFormed(s) && p in s.nodes
    ensures Walk(s, p).Some? ==> Reachable(s, p, Walk(s, p).value)
    decreases Descendants(s.nodes, p), 1, 0
  {
    if s.nodes[p].names != [] {
      ScanReachesLeaf(s, p, 0);
    }
  }

  lemma {:induction false} ScanReachesLeaf(s: State, p: Path, k: nat)
    requires WellFormed(s) && p in s.nodes && k <= |s.nodes[p].names|
    ensures Scan(s, p, k).Some? ==> Reachable(s, p, Scan(s, p, k).value)
    decreases Descendants(s.nodes, p), 0, |s.nodes[p].names| - k
  {
    var order := Rotation(s.nodes[p]);
    if k < |order| {
      var child := Child(p, order[k]);
      assert order[k] in s.nodes[p].names;
      ChildHasFewerDescendants(s.nodes, p, order[k]);
      if UnderLimit(s, child) && Walk(s, child).Some? {
        WalkReachesLeaf(s, child);
        var l := Walk(s, child).value;
        assert p == child[..|p|];
        forall q | p < q <= l ensures UnderLimit(s, q) {
          if |q| == |p| + 1 {
            assert q == child;
          } else {
            assert child < q;
          }
        }
      } else {
        ScanReachesLeaf(s, p, k + 1);
      }
    }
  }
}
