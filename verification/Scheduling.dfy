/**
 * The scheduling state of a round-robin queue in a snapshot: per inner node, the turn order of its
 * children and the child whose turn is next.
 */
module Scheduling {
  import opened Types
  import opened GroupPath
  import opened RoundRobin
  import opened RoundRobinProperties

  datatype SchedulingNode = SchedulingNode(path: string, children: seq<string>, current: string)

  /** `n` is what `SchedulingState` writes for node `p`: an unset cursor, at the head, is written as "". */
  ghost predicate Describes(nodes: Tree, p: Path, n: SchedulingNode) {
    && p in nodes && nodes[p].names != [] && nodes[p].cursor < |nodes[p].names|
    && n.path == Join(p) && n.children == nodes[p].names
    && (n.current == nodes[p].names[nodes[p].cursor] || (n.current == "" && nodes[p].cursor == 0))
  }

  ghost predicate DescribesSome(nodes: Tree, n: SchedulingNode) {
    exists p :: Describes(nodes, p, n)
  }

  /** Every inner node is described, and nothing else is. */
  ghost predicate Captures(nodes: Tree, sched: seq<SchedulingNode>) {
    && (forall i :: 0 <= i < |sched| ==> DescribesSome(nodes, sched[i]))
    && (forall p :: p in nodes && nodes[p].names != [] ==>
          exists i :: 0 <= i < |sched| && Describes(nodes, p, sched[i]))
  }

  // ---------- Restoring ----------

  /** The listed names that exist, each once. */
  function Listed(children: seq<string>, names: seq<string>, seen: set<string>): seq<string> {
    if children == [] then []
    else if children[0] in names && children[0] !in seen then
      [children[0]] + Listed(children[1..], names, seen + {children[0]})
    else Listed(children[1..], names, seen)
  }

  /** The names that were not listed, in their old order. */
  function Unlisted(names: seq<string>, listed: seq<string>): seq<string> {
    if names == [] then []
    else if names[0] in listed then Unlisted(names[1..], listed)
    else [names[0]] + Unlisted(names[1..], listed)
  }

  ghost function Reordered(r: Ring, children: seq<string>, current: string): Ring {
    var listed := Listed(children, r.names, {});
    var ordered := listed + Unlisted(r.names, listed);
    Ring(ordered, if current in ordered then IndexOf(ordered, current) else 0)
  }

  ghost function RestoreNode(nodes: Tree, n: SchedulingNode): Tree {
    var p := if n.path == "" then [] else Split(n.path);
    if p in nodes then nodes[p := Reordered(nodes[p], n.children, n.current)] else nodes
  }

  /** `RestoreSchedulingState`. */
  ghost function RestoreNodes(nodes: Tree, sched: seq<SchedulingNode>): Tree {
    if sched == [] then nodes
    else RestoreNode(RestoreNodes(nodes, sched[..|sched| - 1]), sched[|sched| - 1])
  }

  // ---------- Restoring what was captured ----------

  lemma {:induction false} ListedAll(children: seq<string>, names: seq<string>, seen: set<string>)
    requires NoDuplicates(children)
    requires forall c :: c in children ==> c in names && c !in seen
    ensures Listed(children, names, seen) == children
  {
    if children != [] {
      var rest := children[1..];
      assert forall i :: 0 <= i < |rest| ==> rest[i] == children[i + 1];
      ListedAll(rest, names, seen + {children[0]});
    }
  }

  lemma {:induction false} UnlistedNone(names: seq<string>, listed: seq<string>)
    requires forall c :: c in names ==> c in listed
    ensures Unlisted(names, listed) == []
  {
    if names != [] {
      UnlistedNone(names[1..], listed);
    }
  }

  /** A ring with the same children, in any order, is put back exactly. */
  lemma ReorderedAsDescribed(r: Ring, b: Ring, current: string)
    requires RingOk(b) && b.names != [] && (forall c :: c in r.names <==> c in b.names) && "" !in b.names
    requires current == b.names[b.cursor] || (current == "" && b.cursor == 0)
    ensures Reordered(r, b.names, current) == b
  {
    ListedAll(b.names, r.names, {});
    UnlistedNone(r.names, b.names);
    assert b.names + [] == b.names;
  }

  lemma PathsAreValid(nodes: Tree, items: map<nat, Item>, p: Path)
    requires Fits(nodes, items) && (forall id :: id in items ==> ValidGroup(items[id].group)) && p in nodes
    ensures ValidPath(p)
    ensures "" !in nodes[p].names
  {
    if p != [] {
      var id :| Under(items, id, p);
      assert forall i :: 0 <= i < |p| ==> p[i] == Split(items[id].group)[i];
    }
    forall c | c in nodes[p].names ensures c != "" {
      assert Child(p, c) in nodes;
      var id :| Under(items, id, Child(p, c));
      assert Child(p, c)[|p|] == Split(items[id].group)[|p|];
    }
  }

  lemma RestoreDescribed(c: Tree, b: Tree, items: map<nat, Item>, p: Path, n: SchedulingNode)
    requires Fits(b, items) && (forall id :: id in items ==> ValidGroup(items[id].group))
    requires Describes(b, p, n) && p in c && forall name :: name in c[p].names <==> name in b[p].names
    ensures RestoreNode(c, n) == c[p := b[p]]
  {
    PathsAreValid(b, items, p);
    JoinNonEmpty(p);
    if p != [] { SplitJoin(p); }
    ReorderedAsDescribed(c[p], b[p], n.current);
  }

  /** `c` is `a` with some rings already put back to those of `b`. */
  ghost predicate Partly(a: Tree, b: Tree, c: Tree, sched: seq<SchedulingNode>) {
    && c.Keys == a.Keys == b.Keys
    && (forall p :: p in c ==> c[p] == a[p] || c[p] == b[p])
    && (forall p, i :: 0 <= i < |sched| && Describes(b, p, sched[i]) ==> p in c && c[p] == b[p])
  }

  lemma DescribedOnce(nodes: Tree, items: map<nat, Item>, p: Path, q: Path, n: SchedulingNode)
    requires Fits(nodes, items) && (forall id :: id in items ==> ValidGroup(items[id].group))
    requires Describes(nodes, p, n) && Describes(nodes, q, n)
    ensures p == q
  {
    PathsAreValid(nodes, items, p);
    PathsAreValid(nodes, items, q);
    JoinInjective(p, q);
  }

  lemma {:induction false} RestoresPartly(a: Tree, b: Tree, items: map<nat, Item>, sched: seq<SchedulingNode>)
    requires Fits(a, items) && Fits(b, items) && (forall id :: id in items ==> ValidGroup(items[id].group))
    requires forall i :: 0 <= i < |sched| ==> DescribesSome(b, sched[i])
    ensures Partly(a, b, RestoreNodes(a, sched), sched)
    decreases |sched|
  {
    hide Fits, ValidGroup, Describes, RestoreNode;
    FitsDeterminesShape(a, b, items);
    if sched != [] {
      var front, n := sched[..|sched| - 1], sched[|sched| - 1];
      RestoresPartly(a, b, items, front);
      var c := RestoreNodes(a, front);
      assert DescribesSome(b, n);
      var p :| Describes(b, p, n);
      DescribedOnTree(b, p, n);
      RestoreDescribed(c, b, items, p, n);
      var c' := c[p := b[p]];
      forall q, i | 0 <= i < |sched| && Describes(b, q, sched[i]) ensures q in c' && c'[q] == b[q] {
        DescribedOnTree(b, q, sched[i]);
        if i < |front| {
          assert front[i] == sched[i];
        } else {
          DescribedOnce(b, items, p, q, n);
        }
      }
    }
  }

  lemma DescribedOnTree(nodes: Tree, p: Path, n: SchedulingNode)
    requires Describes(nodes, p, n)
    ensures p in nodes
  {
  }

  /**
   * Whatever order a tree's children were created in, restoring the scheduling state captured from a
   * tree over the same messages gives that tree.
   */
  lemma RestoresWhatWasCaptured(a: Tree, b: Tree, items: map<nat, Item>, sched: seq<SchedulingNode>)
    requires Fits(a, items) && Fits(b, items) && (forall id :: id in items ==> ValidGroup(items[id].group))
    requires Captures(b, sched)
    ensures RestoreNodes(a, sched) == b
  {
    hide Describes, RestoreNodes, Fits;
    FitsDeterminesShape(a, b, items);
    RestoresPartly(a, b, items, sched);
    var c := RestoreNodes(a, sched);
    forall p | p in c ensures c[p] == b[p] {
      if b[p].names == [] {
        LeafRing(a, items, p);
        LeafRing(b, items, p);
      }
    }
  }

  lemma HasFirst(s: seq<string>)
    requires s != []
    ensures exists c :: c in s
  {
    assert s[0] in s;
  }

  lemma LeafRing(nodes: Tree, items: map<nat, Item>, p: Path)
    requires Fits(nodes, items) && p in nodes && forall c :: c !in nodes[p].names
    ensures nodes[p] == Ring([], 0)
  {
    if nodes[p].names != [] {
      HasFirst(nodes[p].names);
      assert false;
    }
  }

  // ---------- Capturing, subtree by subtree ----------

  ghost predicate Covered(nodes: Tree, sched: seq<SchedulingNode>, q: Path) {
    exists i :: 0 <= i < |sched| && Describes(nodes, q, sched[i])
  }

  /** What the walk of `SchedulingState` writes for the subtree at `p`. */
  ghost predicate CapturesBelow(nodes: Tree, sched: seq<SchedulingNode>, p: Path) {
    && (forall i :: 0 <= i < |sched| ==> DescribesSome(nodes, sched[i]))
    && (forall q :: q in nodes && p <= q && nodes[q].names != [] ==> Covered(nodes, sched, q))
  }

  /** The node itself and its first `k` children are written. */
  ghost predicate CapturesFirst(nodes: Tree, sched: seq<SchedulingNode>, p: Path, k: nat)
    requires p in nodes && k <= |nodes[p].names|
  {
    && (forall i :: 0 <= i < |sched| ==> DescribesSome(nodes, sched[i])) && Covered(nodes, sched, p)
    && (forall j, q :: 0 <= j < k && q in nodes && Child(p, nodes[p].names[j]) <= q && nodes[q].names != [] ==>
          Covered(nodes, sched, q))
  }

  lemma CoveredMore(nodes: Tree, a: seq<SchedulingNode>, b: seq<SchedulingNode>, q: Path)
    requires Covered(nodes, a, q) || Covered(nodes, b, q)
    ensures Covered(nodes, a + b, q)
  {
    hide Describes;
    if Covered(nodes, a, q) {
      var i :| 0 <= i < |a| && Describes(nodes, q, a[i]);
      assert (a + b)[i] == a[i];
    } else {
      var i :| 0 <= i < |b| && Describes(nodes, q, b[i]);
      assert (a + b)[|a| + i] == b[i];
    }
  }

  lemma CapturesNode(nodes: Tree, p: Path, n: SchedulingNode)
    requires Describes(nodes, p, n)
    ensures CapturesFirst(nodes, [n], p, 0)
  {
    hide Describes;
    DescribedOnTree(nodes, p, n);
    assert [n][0] == n;
  }

  lemma CapturesChild(nodes: Tree, a: seq<SchedulingNode>, b: seq<SchedulingNode>, p: Path, k: nat)
    requires p in nodes && k < |nodes[p].names| && CapturesFirst(nodes, a, p, k)
    requires CapturesBelow(nodes, b, Child(p, nodes[p].names[k]))
    ensures CapturesFirst(nodes, a + b, p, k + 1)
  {
    hide Describes, Covered, DescribesSome;
    CoveredMore(nodes, a, b, p);
    forall i | 0 <= i < |a + b| ensures DescribesSome(nodes, (a + b)[i]) {
      assert (a + b)[i] == if i < |a| then a[i] else b[i - |a|];
    }
    forall j, q | 0 <= j < k + 1 && q in nodes && Child(p, nodes[p].names[j]) <= q && nodes[q].names != []
      ensures Covered(nodes, a + b, q)
    {
      CoveredMore(nodes, a, b, q);
    }
  }

  lemma CapturesChildren(nodes: Tree, items: map<nat, Item>, sched: seq<SchedulingNode>, p: Path)
    requires Fits(nodes, items) && p in nodes && CapturesFirst(nodes, sched, p, |nodes[p].names|)
    ensures CapturesBelow(nodes, sched, p)
  {
    hide Describes, Covered, DescribesSome, Holds;
    forall q | q in nodes && p <= q && nodes[q].names != [] ensures Covered(nodes, sched, q) {
      if p != q {
        var c := q[|p|];
        NextOnWay(p, q);
        HoldsPrefix(items, Child(p, c), q);
        assert c in nodes[p].names;
        var j :| 0 <= j < |nodes[p].names| && nodes[p].names[j] == c;
        assert Child(p, nodes[p].names[j]) <= q;
      }
    }
  }

  lemma CapturesAll(nodes: Tree, sched: seq<SchedulingNode>)
    requires CapturesBelow(nodes, sched, [])
    ensures Captures(nodes, sched)
  {
    hide Describes, DescribesSome;
    forall p | p in nodes && nodes[p].names != []
      ensures exists i :: 0 <= i < |sched| && Describes(nodes, p, sched[i])
    {
      assert [] <= p;
      assert Covered(nodes, sched, p);
    }
  }

  // ---------- Restoring keeps the tree ----------

  lemma {:induction false} ListedOk(children: seq<string>, names: seq<string>, seen: set<string>)
    ensures NoDuplicates(Listed(children, names, seen))
    ensures forall c :: c in Listed(children, names, seen) ==> c in names && c !in seen
  {
    if children != [] {
      ListedOk(children[1..], names, seen + {children[0]});
      ListedOk(children[1..], names, seen);
    }
  }

  lemma {:induction false} UnlistedOk(names: seq<string>, listed: seq<string>)
    ensures forall c :: c in Unlisted(names, listed) <==> c in names && c !in listed
    ensures NoDuplicates(names) ==> NoDuplicates(Unlisted(names, listed))
  {
    if names != [] {
      var rest := names[1..];
      assert forall i :: 0 <= i < |rest| ==> rest[i] == names[i + 1];
      assert names == [names[0]] + rest;
      UnlistedOk(rest, listed);
    }
  }

  /** A reordered ring still lists exactly the children, each once. */
  lemma ReorderedOk(r: Ring, children: seq<string>, current: string)
    requires RingOk(r)
    ensures RingOk(Reordered(r, children, current))
    ensures forall c :: c in Reordered(r, children, current).names <==> c in r.names
  {
    var listed := Listed(children, r.names, {});
    ListedOk(children, r.names, {});
    UnlistedOk(r.names, listed);
    NoDuplicatesInSum(listed, Unlisted(r.names, listed));
  }

  lemma NoDuplicatesInSum(a: seq<string>, b: seq<string>)
    requires NoDuplicates(a) && NoDuplicates(b) && forall c :: c in b ==> c !in a
    ensures NoDuplicates(a + b)
  {
    forall i, j | 0 <= i < j < |a + b| ensures (a + b)[i] != (a + b)[j] {
      if i < |a| <= j {
        assert b[j - |a|] in b && a[i] in a;
      }
    }
  }

  lemma RestoreNodeFits(nodes: Tree, items: map<nat, Item>, n: SchedulingNode)
    requires Fits(nodes, items)
    ensures Fits(RestoreNode(nodes, n), items)
  {
    hide Reordered, Holds, RingOk, Split;
    var p := if n.path == "" then [] else Split(n.path);
    if p in nodes {
      ReorderedOk(nodes[p], n.children, n.current);
    }
  }

  // ---------- The loops of a restore ----------

  /** Keeps the listed children that exist, each once, and appends the others in their old order. */
  method Order(children: seq<string>, names: seq<string>) returns (ordered: seq<string>)
    ensures var listed := Listed(children, names, {}); ordered == listed + Unlisted(names, listed)
  {
    ordered := [];
    var seen: set<string> := {};
    for i := 0 to |children|
      invariant Listed(children, names, {}) == ordered + Listed(children[i..], names, seen)
      invariant forall c :: c in seen <==> c in ordered
    {
      assert children[i..][1..] == children[i + 1..];
      if children[i] in names && children[i] !in seen {
        seen := seen + {children[i]};
        ordered := ordered + [children[i]];
      }
    }
    assert children[|children|..] == [] && ordered + [] == ordered;
    ghost var listed := ordered;
    for i := 0 to |names|
      invariant listed + Unlisted(names, listed) == ordered + Unlisted(names[i..], listed)
    {
      assert names[i..][1..] == names[i + 1..];
      if names[i] !in seen {
        ordered := ordered + [names[i]];
      }
    }
    assert names[|names|..] == [] && ordered + [] == ordered;
  }

  /** The cursor at the child with the given name, or unset. */
  method Locate(ordered: seq<string>, current: string) returns (cursor: Option<string>)
    ensures cursor == if current in ordered then Some(current) else None
  {
    for i := 0 to |ordered|
      invariant current !in ordered[..i]
    {
      if ordered[i] == current {
        return Some(ordered[i]);
      }
    }
    cursor := None;
  }
}
