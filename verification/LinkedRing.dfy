/**
 * A node's children in the source's own form: a doubly linked list and a pointer to the child whose turn
 * is next. The steps of the tree operations on it are those on the ring of names.
 */
module LinkedRing {
  import opened Types
  import opened RoundRobin
  import opened LinkedList
  import F = Fairness

  /** The place of a node in the list. */
  ghost function PlaceOf(nodes: seq<LinkedListNode>, node: LinkedListNode): (i: nat)
    requires node in nodes
    ensures i < |nodes| && nodes[i] == node
  {
    var i: nat :| i < |nodes| && nodes[i] == node;
    i
  }

  ghost function RingOf(nodes: seq<LinkedListNode>, current: LinkedListNode?): Ring
    requires current == null || current in nodes
  {
    Ring(NamesOf(nodes), if current == null then 0 else PlaceOf(nodes, current))
  }

  lemma PlaceIs(nodes: seq<LinkedListNode>, i: nat)
    requires Distinct(nodes) && i < |nodes|
    ensures PlaceOf(nodes, nodes[i]) == i
  {
  }

  class ChildRing {
    const list: LinkedList
    var current: LinkedListNode?

    ghost predicate Valid()
      reads this, list, list.nodes
    {
      && list.Valid() && NoDuplicates(NamesOf(list.nodes))
      && (current == null || current in list.nodes)
    }

    ghost function Abs(): Ring
      requires Valid()
      reads this, list, list.nodes
    {
      RingOf(list.nodes, current)
    }

    constructor ()
      ensures Valid() && fresh(list) && list.nodes == [] && Abs() == Ring([], 0)
    {
      list := new LinkedList();
      current := null;
    }

    /** A new child goes to the end of the list. */
    method Append(name: string)
      requires Valid() && name !in Abs().names
      modifies list, list.nodes
      ensures Valid() && fresh(set n | n in list.nodes && n !in old(list.nodes))
      ensures Abs() == Appended(old(Abs()), name)
    {
      ghost var nodes := list.nodes;
      var node := new LinkedListNode(name);
      list.Append(node);
      assert NamesOf(nodes + [node]) == NamesOf(nodes) + [name];
      if current != null {
        PlaceIs(nodes, PlaceOf(nodes, current));
        PlaceIs(list.nodes, PlaceOf(nodes, current));
      }
    }

    /** `removeEmptyChild`: the child leaves, and a cursor on it goes back to the head. */
    method Remove(name: string)
      requires Valid() && name in Abs().names
      modifies this, list, list.nodes
      ensures Valid() && (forall n :: n in list.nodes ==> n in old(list.nodes))
      ensures Abs() == Dropped(old(Abs()), name)
    {
      hide Dropped, RingOf, NamesOf;
      ghost var nodes, before := list.nodes, current;
      NamesOfRing(nodes, current);
      var node, i := list.Find(name);
      WithoutKeeps(nodes, i);
      list.Remove(node, i);
      if current != null && current.group == name {
        current := list.head;
      }
      RingWithout(nodes, before, i, current);
    }

    /** One child further, and from the last to the first. */
    method Advance()
      requires Valid() && current != null
      modifies this
      ensures Valid() && current != null
      ensures Abs() == old(Abs()).(cursor := After(old(Abs()).cursor, |old(Abs()).names|))
    {
      ghost var i := PlaceOf(list.nodes, current);
      assert LinkedAt(list.nodes, i);
      current := current.next;
      if current == null {
        current := list.head;
      }
      PlaceIs(list.nodes, After(i, |list.nodes|));
    }

    /** An unset cursor is set to the head. */
    method Begin()
      requires Valid() && list.nodes != []
      modifies this
      ensures Valid() && current != null && Abs() == old(Abs())
    {
      if current == null {
        current := list.head;
        PlaceIs(list.nodes, 0);
      }
    }

    /**
     * The loop of `dequeueFromNode`: from the cursor on, the first child that gives something is
     * served, and the cursor stops after it.
     */
    method TakeTurn(gives: string -> bool) returns (served: Option<string>)
      requires Valid() && list.nodes != []
      modifies this
      ensures Valid()
      ensures match served
        case None => Abs() == old(Abs()) && forall c :: c in Abs().names ==> !gives(c)
        case Some(c) =>
          && c in old(Abs()).names && gives(c) && Abs() == Served(old(Abs()), c)
          && forall d :: d in old(Abs()).names && F.Turn(old(Abs()), d) < F.Turn(old(Abs()), c) ==> !gives(d)
    {
      hide F.Turn, Nth, Served, RingOf, ChildRing.Valid, NoDuplicates, IndexOf;
      ghost var r := Abs();
      Sized();
      Begin();
      var start, visited := current, 0;
      assert r == RingOf(list.nodes, start);
      NthEnds(r);
      while visited < list.total
        invariant 0 <= visited <= |r.names| == list.total && Valid() && current != null && list.nodes == old(list.nodes)
        invariant Abs() == r.(cursor := Nth(r, visited))
        invariant forall k :: 0 <= k < visited ==> Nth(r, k) < |r.names| && !gives(r.names[Nth(r, k)])
      {
        NthIsTurn(r, visited);
        CurrentName();
        var name := current.group;
        Advance();
        if gives(name) {
          forall d | d in r.names && F.Turn(r, d) < F.Turn(r, name) ensures !gives(d) {
            TurnIsNth(r, d);
          }
          ServedFrom(r, visited);
          return Some(name);
        }
        NthNext(r, visited);
        visited := visited + 1;
        if current == start {
          assert Abs() == r;
          BackAtStart(r, visited);
          break;
        }
      }
      forall c | c in r.names ensures !gives(c) {
        TurnIsNth(r, c);
      }
      served := None;
    }

    lemma Sized()
      requires Valid()
      ensures RingOk(Abs()) && |Abs().names| == |list.nodes| == list.total
    {
    }

    lemma CurrentName()
      requires Valid() && current != null
      ensures Abs().cursor < |Abs().names| && Abs().names[Abs().cursor] == current.group
    {
    }
  }

  // ---------- Rings of nodes ----------

  lemma NamesOfRing(nodes: seq<LinkedListNode>, current: LinkedListNode?)
    requires current == null || current in nodes
    ensures RingOf(nodes, current).names == NamesOf(nodes)
  {
  }

  lemma WithoutKeeps(nodes: seq<LinkedListNode>, i: nat)
    requires i < |nodes| && NoDuplicates(NamesOf(nodes))
    ensures NoDuplicates(NamesOf(Without(nodes, i)))
    ensures forall n :: n in Without(nodes, i) ==> n in nodes
    ensures forall n :: n in nodes && n != nodes[i] ==> n in Without(nodes, i)
  {
    var rest := Without(nodes, i);
    forall k | 0 <= k < |rest| ensures rest[k] == nodes[if k < i then k else k + 1] {
    }
    forall n | n in nodes && n != nodes[i] ensures n in rest {
      var k :| 0 <= k < |nodes| && nodes[k] == n;
      assert rest[if k < i then k else k - 1] == n;
    }
  }

  /** Taking a node out of the list, with the cursor adjusted, is dropping its name from the ring. */
  lemma RingWithout(nodes: seq<LinkedListNode>, current: LinkedListNode?, i: nat, next: LinkedListNode?)
    requires Distinct(nodes) && NoDuplicates(NamesOf(nodes)) && i < |nodes| && (current == null || current in nodes)
    requires next == if current == nodes[i] then At(Without(nodes, i), 0) else current
    ensures next == null || next in Without(nodes, i)
    ensures nodes[i].group in NamesOf(nodes)
    ensures RingOf(Without(nodes, i), next) == Dropped(RingOf(nodes, current), nodes[i].group)
  {
    var rest, names := Without(nodes, i), NamesOf(nodes);
    assert names[i] == nodes[i].group;
    F.IndexIs(names, i);
    NamesWithout(nodes, i);
    assert Distinct(rest);
    if current != null {
      var c := PlaceOf(nodes, current);
      if c == i {
        if rest != [] { PlaceIs(rest, 0); }
      } else {
        assert rest[if c < i then c else c - 1] == current;
        PlaceIs(rest, if c < i then c else c - 1);
      }
    }
  }

  // ---------- Places ----------

  function After(i: nat, n: nat): nat {
    if i + 1 == n then 0 else i + 1
  }

  /** The `k`-th place from the cursor on; a full round leads back to it. */
  function Nth(r: Ring, k: nat): nat {
    if r.cursor + k < |r.names| then r.cursor + k else r.cursor + k - |r.names|
  }

  lemma NthEnds(r: Ring)
    requires RingOk(r) && r.names != []
    ensures Nth(r, 0) == r.cursor == Nth(r, |r.names|)
  {
  }

  lemma NthNext(r: Ring, k: nat)
    requires RingOk(r) && k < |r.names|
    ensures Nth(r, k + 1) == After(Nth(r, k), |r.names|)
  {
  }

  lemma BackAtStart(r: Ring, k: nat)
    requires RingOk(r) && 0 < k <= |r.names| && Nth(r, k) == r.cursor
    ensures k == |r.names|
  {
  }

  lemma NthIsTurn(r: Ring, k: nat)
    requires RingOk(r) && k < |r.names|
    ensures Nth(r, k) < |r.names| && F.Turn(r, r.names[Nth(r, k)]) == k
  {
    F.IndexIs(r.names, Nth(r, k));
  }

  lemma TurnIsNth(r: Ring, c: string)
    requires RingOk(r) && c in r.names
    ensures F.Turn(r, c) < |r.names| && Nth(r, F.Turn(r, c)) < |r.names| && r.names[Nth(r, F.Turn(r, c))] == c
  {
  }

  lemma ServedFrom(r: Ring, k: nat)
    requires RingOk(r) && k < |r.names|
    ensures Nth(r, k) < |r.names|
    ensures Served(r, r.names[Nth(r, k)]) == r.(cursor := After(Nth(r, k), |r.names|))
  {
    F.IndexIs(r.names, Nth(r, k));
  }
}
