/**
 * The group nodes of the round-robin queue as objects, the values they hold, and what those values
 * stand for. Every change of one node is a step on the values that keeps them coherent.
 */
module RoundRobinNodes {
  import opened Types
  import opened GroupPath
  import opened Heap
  import opened RR = RoundRobin
  import RRP = RoundRobinProperties

  class GroupNode {
    const name: string
    const parent: GroupNode?
    const groupKey: string
    const queue: PriorityMemoryQueue
    ghost const path: Path
    var children: map<string, GroupNode>
    var childrenList: seq<string>
    var currentChild: Option<string>
    var messageCount: nat
    var ready: bool

    constructor (name: string, parent: GroupNode?, groupKey: string, ghost path: Path)
      ensures this.name == name && this.parent == parent && this.groupKey == groupKey && this.path == path
      ensures fresh(queue) && children == map[] && Shows(this, EMPTY_NODE)
    {
      this.name, this.parent, this.groupKey, this.path := name, parent, groupKey, path;
      children, childrenList, currentChild, messageCount, ready := map[], [], None, 0, false;
      queue := new PriorityMemoryQueue(true);
    }
  }

  // ---------- The objects and their values ----------

  /** The fields of a node, but for its children, and the contents of its heap. */
  datatype Entry = Entry(
    childrenList: seq<string>,
    currentChild: Option<string>,
    messageCount: nat,
    ready: bool,
    heap: map<nat, Item>)

  const EMPTY_NODE := Entry([], None, 0, false, map[])

  ghost predicate HeapShows(queue: PriorityMemoryQueue, contents: map<nat, Item>)
    reads queue
  {
    queue.Valid() && queue.InOrder() && queue.minFirst && queue.Contents() == contents
  }

  ghost predicate Shows(n: GroupNode, e: Entry)
    reads n, n.queue
  {
    && n.childrenList == e.childrenList && n.currentChild == e.currentChild
    && n.messageCount == e.messageCount && n.ready == e.ready && HeapShows(n.queue, e.heap)
  }

  lemma Reshown(n: GroupNode, e: Entry)
    ensures Shows(n, e) <==>
      && n.childrenList == e.childrenList && n.currentChild == e.currentChild
      && n.messageCount == e.messageCount && n.ready == e.ready && HeapShows(n.queue, e.heap)
  {
  }

  type Nodes = map<Path, GroupNode>

  /** A child is the node one segment down. */
  ghost predicate ChildrenOk(nodes: Nodes, p: Path, children: map<string, GroupNode>, list: seq<string>) {
    && (forall c :: c in children <==> c in list)
    && (forall c :: c in children ==> Child(p, c) in nodes && children[c] == nodes[Child(p, c)])
  }

  ghost predicate Owned(nodes: Nodes, members: set<GroupNode>, heaps: set<PriorityMemoryQueue>)
    ensures Owned(nodes, members, heaps) ==> forall p :: p in nodes ==> nodes[p] in members && nodes[p].queue in heaps
  {
    forall p :: p in nodes ==> nodes[p] in members && nodes[p].queue in heaps
  }

  /** The objects hold the values. */
  ghost predicate AllShown(
    nodes: Nodes, entries: map<Path, Entry>, members: set<GroupNode>, heaps: set<PriorityMemoryQueue>)
    requires Owned(nodes, members, heaps)
    reads members, heaps
  {
    forall p :: p in nodes ==> p in entries && Shows(nodes[p], entries[p])
  }

  ghost predicate Linked(nodes: Nodes, members: set<GroupNode>, heaps: set<PriorityMemoryQueue>)
    requires Owned(nodes, members, heaps)
    reads members`children, members`childrenList
  {
    forall p :: p in nodes ==> ChildrenOk(nodes, p, nodes[p].children, nodes[p].childrenList)
  }

  /** The node at every path, its values, and what they stand for. */
  datatype View = View(
    nodes: Nodes,
    entries: map<Path, Entry>,
    tree: Tree,
    items: map<nat, Item>,
    unacked: multiset<string>)

  // ---------- What the values stand for ----------

  /** Nodes know their path, their key and their parent, and no two share a heap. */
  ghost predicate Placed(nodes: Nodes) {
    && [] in nodes
    && (forall p {:trigger NodePlaced(nodes, p)} :: p in nodes ==> NodePlaced(nodes, p))
    && (forall p, q :: p in nodes && q in nodes && p != q ==> nodes[p].queue != nodes[q].queue)
  }

  ghost predicate NodePlaced(nodes: Nodes, p: Path)
    requires p in nodes
  {
    var n := nodes[p];
    && n.path == p && n.groupKey == Join(p)
    && (p == [] ==> n.parent == null)
    && (p != [] ==> p[..|p| - 1] in nodes && n.parent == nodes[p[..|p| - 1]] && n.name == p[|p| - 1])
  }

  /** The list and the cursor of a node, as a ring. An unset cursor is the head. */
  ghost predicate RingShown(list: seq<string>, current: Option<string>, r: Ring) {
    r.names == list &&
    match current
    case None => r.cursor == 0
    case Some(c) => r.cursor < |list| && list[r.cursor] == c
  }

  ghost predicate Stands(v: View, p: Path) {
    && p in v.entries && p in v.tree
    && RingShown(v.entries[p].childrenList, v.entries[p].currentChild, v.tree[p])
    && v.entries[p].heap == ItemsAt(v.items, p)
  }

  ghost predicate Coherent(v: View)
    ensures Coherent(v) ==> [] in v.nodes && Keyed(v.items)
    ensures Coherent(v) ==> forall p :: p in v.nodes ==> p in v.entries && p in v.tree
  {
    && Placed(v.nodes) && Keyed(v.items)
    && (forall p :: p in v.entries || p in v.tree ==> p in v.nodes)
    && (forall p {:trigger Stands(v, p)} {:trigger p in v.nodes} :: p in v.nodes ==> Stands(v, p))
  }

  lemma SameDomain(v: View, p: Path)
    requires Coherent(v)
    ensures p in v.nodes <==> p in v.entries
    ensures p in v.nodes <==> p in v.tree
  {
  }

  lemma PlaceOf(v: View, p: Path)
    requires Coherent(v) && p in v.nodes
    ensures NodePlaced(v.nodes, p) && Stands(v, p)
  {
    hide Stands;
    assert NodePlaced(v.nodes, p);
  }

  /** Different nodes and heaps for different paths. */
  lemma Apart(v: View, p: Path)
    requires Coherent(v) && p in v.nodes
    ensures v.nodes[p].path == p
    ensures forall q :: q in v.nodes && q != p ==>
      v.nodes[q] != v.nodes[p] && v.nodes[q].queue != v.nodes[p].queue
  {
    hide Stands;
    assert NodePlaced(v.nodes, p);
    forall q | q in v.nodes && q != p ensures v.nodes[q] != v.nodes[p] {
      assert NodePlaced(v.nodes, q);
    }
  }

  // ---------- Steps on the values ----------

  /** New values for the fields of the node at `p`. */
  ghost function Write(v: View, p: Path, e: Entry, r: Ring): View {
    v.(entries := v.entries[p := e], tree := v.tree[p := r])
  }

  lemma Written(v: View, p: Path, e: Entry, r: Ring)
    requires Coherent(v) && p in v.nodes && e.heap == v.entries[p].heap
    requires RingShown(e.childrenList, e.currentChild, r)
    ensures Coherent(Write(v, p, e, r))
  {
    hide RingShown, Placed, ItemsAt, Keyed;
    var w := Write(v, p, e, r);
    forall q | q in w.nodes ensures Stands(w, q) {
      assert Stands(v, q);
    }
  }

  /** A new count or ready flag for the node at `p`. */
  ghost function Mark(v: View, p: Path, count: nat, ready: bool): (w: View)
    requires p in v.entries
    ensures w.nodes == v.nodes && w.tree == v.tree && w.items == v.items && w.unacked == v.unacked
  {
    v.(entries := v.entries[p := v.entries[p].(messageCount := count, ready := ready)])
  }

  lemma Marked(v: View, p: Path, count: nat, ready: bool)
    requires Coherent(v) && p in v.nodes
    ensures Coherent(Mark(v, p, count, ready))
  {
    hide RingShown, Placed, ItemsAt, Keyed;
    var w := Mark(v, p, count, ready);
    forall q | q in w.nodes ensures Stands(w, q) {
      assert Stands(v, q);
    }
  }

  /** New contents for the heap of the node at `p`. */
  ghost function Fill(v: View, p: Path, items: map<nat, Item>): View
    requires p in v.entries
  {
    v.(entries := v.entries[p := v.entries[p].(heap := ItemsAt(items, p))], items := items)
  }

  lemma Filled(v: View, p: Path, items: map<nat, Item>)
    requires Coherent(v) && p in v.nodes && Keyed(items)
    requires forall q :: q != p ==> ItemsAt(items, q) == ItemsAt(v.items, q)
    ensures Coherent(Fill(v, p, items))
  {
    hide RingShown, Placed, ItemsAt, Keyed;
    var w := Fill(v, p, items);
    forall q | q in w.nodes ensures Stands(w, q) {
      assert Stands(v, q);
    }
  }

  lemma CountersApart(v: View, unacked: multiset<string>)
    requires Coherent(v)
    ensures Coherent(v.(unacked := unacked))
  {
    hide RingShown, Placed, ItemsAt, Keyed;
    var w := v.(unacked := unacked);
    forall q | q in w.nodes ensures Stands(w, q) {
      assert Stands(v, q);
    }
  }

  /** A new node at `q`, not yet on its parent's list. */
  ghost function Adopt(v: View, q: Path, child: GroupNode): View {
    v.(nodes := v.nodes[q := child], entries := v.entries[q := EMPTY_NODE], tree := v.tree[q := Ring([], 0)])
  }

  ghost predicate FitsUnder(v: View, p: Path, c: string, child: GroupNode) {
    && p in v.nodes && Child(p, c) !in v.nodes && (forall q :: q in v.nodes ==> v.nodes[q].queue != child.queue)
    && child.path == Child(p, c) && child.groupKey == Join(Child(p, c)) && child.name == c
    && child.parent == v.nodes[p] && ItemsAt(v.items, Child(p, c)) == map[]
  }

  lemma AdoptedPlaced(v: View, p: Path, c: string, child: GroupNode)
    requires Coherent(v) && FitsUnder(v, p, c, child)
    ensures Placed(Adopt(v, Child(p, c), child).nodes)
  {
    hide Stands, Join;
    var q := Child(p, c);
    var nodes := Adopt(v, q, child).nodes;
    assert q[..|q| - 1] == p && q[|q| - 1] == c;
    forall r | r in nodes ensures NodePlaced(nodes, r) {
      if r != q {
        assert NodePlaced(v.nodes, r);
      }
    }
  }

  lemma Adopted(v: View, p: Path, c: string, child: GroupNode)
    requires Coherent(v) && FitsUnder(v, p, c, child)
    ensures Coherent(Adopt(v, Child(p, c), child))
  {
    hide Placed, ItemsAt, Keyed, Join;
    var w := Adopt(v, Child(p, c), child);
    AdoptedPlaced(v, p, c, child);
    forall r | r in w.nodes ensures Stands(w, r) {
      assert r != Child(p, c) ==> Stands(v, r);
    }
  }

  lemma ChildrenKept(nodes: Nodes, q: Path, child: GroupNode, r: Path, children: map<string, GroupNode>, list: seq<string>)
    requires ChildrenOk(nodes, r, children, list) && q !in nodes
    ensures ChildrenOk(nodes[q := child], r, children, list)
  {
  }

  lemma ChildAdded(nodes: Nodes, p: Path, c: string, children: map<string, GroupNode>, list: seq<string>)
    requires ChildrenOk(nodes, p, children, list) && Child(p, c) in nodes
    ensures ChildrenOk(nodes, p, children[c := nodes[Child(p, c)]], list + [c])
  {
  }

  // ---------- Removing a node ----------

  /** The cursor after `c` left the list: the head if it was on `c`. */
  function Redirected(current: Option<string>, c: string, list: seq<string>): Option<string> {
    if current != Some(c) then current else if list == [] then None else Some(list[0])
  }

  lemma RingPlucked(list: seq<string>, current: Option<string>, r: Ring, c: string)
    requires RingShown(list, current, r) && RingOk(r) && c in list
    ensures var r' := Dropped(r, c); RingShown(r'.names, Redirected(current, c, r'.names), r')
  {
  }

  lemma ChildGone(nodes: Nodes, p: Path, c: string, r: Ring, children: map<string, GroupNode>)
    requires ChildrenOk(nodes, p, children, r.names) && RingOk(r) && c in r.names
    ensures ChildrenOk(nodes, p, children - {c}, Dropped(r, c).names)
  {
    RRP.DroppedOk(r, c);
  }

  /** The tree without the node at `q`. */
  ghost function Abandon(v: View, q: Path): View {
    v.(nodes := v.nodes - {q}, entries := v.entries - {q}, tree := v.tree - {q})
  }

  lemma AbandonedPlaced(v: View, q: Path)
    requires Coherent(v) && q != [] && forall r :: r in v.nodes ==> !(q < r)
    ensures Placed(Abandon(v, q).nodes)
  {
    hide Stands, Join;
    var nodes := Abandon(v, q).nodes;
    forall r | r in nodes ensures NodePlaced(nodes, r) {
      assert NodePlaced(v.nodes, r);
      assert r != [] ==> r[..|r| - 1] < r;
    }
  }

  lemma Abandoned(v: View, q: Path)
    requires Coherent(v) && q != [] && forall r :: r in v.nodes ==> !(q < r)
    ensures Coherent(Abandon(v, q))
  {
    hide Placed, ItemsAt, Keyed, RingShown;
    var w := Abandon(v, q);
    AbandonedPlaced(v, q);
    forall r | r in w.nodes ensures Stands(w, r) {
      assert Stands(v, r);
    }
  }

  lemma ChildrenStay(nodes: Nodes, p: Path, c: string, r: Path, children: map<string, GroupNode>, list: seq<string>)
    requires ChildrenOk(nodes, r, children, list) && (r == p ==> c !in list)
    ensures ChildrenOk(nodes - {Child(p, c)}, r, children, list)
  {
    forall d | d in children ensures Child(r, d) != Child(p, c) {
      assert Child(r, d)[..|r|] == r && Child(p, c)[..|p|] == p;
      assert Child(r, d)[|r|] == d && Child(p, c)[|p|] == c;
    }
  }

  // ---------- The items of one node ----------

  lemma ItemsAfterAdd(items: map<nat, Item>, x: Item)
    requires x.id !in items
    ensures forall q :: q != Split(x.group) ==> ItemsAt(items[x.id := x], q) == ItemsAt(items, q)
    ensures ItemsAt(items[x.id := x], Split(x.group)) == ItemsAt(items, Split(x.group))[x.id := x]
  {
  }

  lemma ItemsAfterRemove(items: map<nat, Item>, id: nat)
    requires id in items
    ensures var p := Split(items[id].group);
      && ItemsAt(items - {id}, p) == ItemsAt(items, p) - {id}
      && forall q :: q != p ==> ItemsAt(items - {id}, q) == ItemsAt(items, q)
  {
  }

  lemma ItemsAfterChange(items: map<nat, Item>, id: nat, priority: int)
    requires id in items
    ensures var p, x := Split(items[id].group), items[id].(priority := priority);
      && ItemsAt(items[id := x], p) == ItemsAt(items, p)[id := x]
      && forall q :: q != p ==> ItemsAt(items[id := x], q) == ItemsAt(items, q)
  {
  }

  lemma ItemAt(items: map<nat, Item>, id: nat, p: Path)
    ensures id in ItemsAt(items, p) <==> id in items && Split(items[id].group) == p
    ensures id in ItemsAt(items, p) ==> ItemsAt(items, p)[id] == items[id]
  {
  }
}
