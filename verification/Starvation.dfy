/**
 * A child can wait for ever. When two siblings take turns in running empty and being refilled, each comes
 * back at the end of the list, behind the cursor and so before a third that waits at its head.
 */
module Starvation {
  import opened Types
  import opened Order
  import opened GroupPath
  import opened RoundRobin
  import opened Fairness
  import opened FlatTrees

  /** Three groups with one message each. */
  datatype Trio = Trio(x: string, a: string, b: string, limit: SlotLimit)

  ghost predicate Distinct(t: Trio) {
    && FlatGroup(t.x) && FlatGroup(t.a) && FlatGroup(t.b)
    && t.x != t.a && t.x != t.b && t.a != t.b
  }

  ghost function AllOf(t: Trio): map<nat, Item> {
    map[1 := Item(1, 0, t.x), 2 := Item(2, 0, t.a), 3 := Item(3, 0, t.b)]
  }

  /** The message `id` of group `g` is out, and `x` and `h` are left, `h` with the next turn. */
  ghost function Without(t: Trio, id: nat, h: string): State {
    State(AllOf(t) - {id}, multiset{}, t.limit, FlatTree(Ring([t.x, h], 1)))
  }

  /** All are queued, and `g` has the next turn, then `h`, then `x`. */
  ghost function With(t: Trio, g: string, h: string): State {
    State(AllOf(t), multiset{}, t.limit, FlatTree(Ring([t.x, g, h], 1)))
  }

  ghost function StateAt(t: Trio, i: nat): State {
    match i % 4
    case 0 => With(t, t.b, t.a)
    case 1 => Without(t, 3, t.a)
    case 2 => With(t, t.a, t.b)
    case 3 => Without(t, 2, t.b)
  }

  function OpAt(t: Trio, i: nat): Op {
    match i % 4
    case 0 => DoDequeue(true)
    case 1 => DoEnqueue(t.b, 3, 0)
    case 2 => DoDequeue(true)
    case 3 => DoEnqueue(t.a, 2, 0)
  }

  lemma WithIsFlat(t: Trio, g: string, h: string)
    requires Distinct(t) && ((g == t.a && h == t.b) || (g == t.b && h == t.a))
    ensures Flat(With(t, g, h), Ring([t.x, g, h], 1))
  {
    var items := AllOf(t);
    assert InGroup(items, 1, t.x) && InGroup(items, 2, t.a) && InGroup(items, 3, t.b);
  }

  lemma Rings(x: string, g: string, h: string)
    requires x != g && x != h && g != h
    ensures var r := Ring([x, g, h], 1); Dropped(Served(r, g), g) == Ring([x, h], 1)
    ensures Appended(Ring([x, h], 1), g) == Ring([x, h, g], 1)
  {
    var names := [x, g, h];
    assert names[0] == x && names[1] == g && names[2] == h;
    assert IndexOf(names, g) == 1;
    assert names[..1] + names[2..] == [x, h];
  }

  ghost predicate Pair(t: Trio, g: string, h: string, id: nat) {
    (g == t.a && h == t.b && id == 2) || (g == t.b && h == t.a && id == 3)
  }

  lemma OnlyMessage(t: Trio, g: string, h: string, id: nat)
    requires Distinct(t) && Pair(t, g, h, id)
    ensures var items := AllOf(t);
      && InGroup(items, id, g) && items[id] == Item(id, 0, g) && (forall j :: InGroup(items, j, g) ==> j == id)
      && !Queued(items - {id}, g) && (items - {id})[id := Item(id, 0, g)] == items
  {
    var items := AllOf(t);
    assert (items - {id})[id := Item(id, 0, g)] == items;
  }

  /** `g` is served and leaves the tree. */
  lemma Leaves(t: Trio, g: string, h: string, id: nat)
    requires Distinct(t) && Pair(t, g, h, id)
    ensures var s := With(t, g, h); WellFormed(s) && Walk(s, []) == Some([g]) && Dequeue(s, true).1 == Without(t, id, h)
    ensures Flat(Without(t, id, h), Ring([t.x, h], 1))
  {
    hide Flat, FlatTree, Dropped, Served, AllOf, Queued, InGroup, Dequeue, Walk, WellFormed;
    var s, r, items := With(t, g, h), Ring([t.x, g, h], 1), AllOf(t);
    WithIsFlat(t, g, h);
    OnlyMessage(t, g, h, id);
    assert r.names[1] == g;
    FlatDequeue(s, r, g, Item(id, 0, g), true);
    Rings(t.x, g, h);
    ServedFlat(s, r, g);
    FlatLess(s.(nodes := FlatTree(Served(r, g))), Served(r, g), g, id);
  }

  /** It comes back behind `h`. */
  lemma ComesBack(t: Trio, g: string, h: string, id: nat)
    requires Distinct(t) && Pair(t, g, h, id)
    ensures Enqueue(Without(t, id, h), g, id, 0) == With(t, h, g)
  {
    hide Flat, FlatTree, Dropped, Served, AllOf, Queued, InGroup, Enqueue, FlatGroup;
    Leaves(t, g, h, id);
    OnlyMessage(t, g, h, id);
    Rings(t.x, g, h);
    FlatEnqueue(Without(t, id, h), Ring([t.x, h], 1), g, id, 0);
  }

  lemma XWaits(s: State, r: Ring, x: string)
    requires Flat(s, r) && x in r.names && s.unacked[x] < s.limit
    ensures WellFormed(s) && Deliverable(s, [], x)
  {
    hide HasReady, UnderLimit, WellFormed;
    FlatReady(s, r, x);
    assert s.nodes[[]] == r;
  }

  lemma OnlyItServes(s: State, g: string, x: string)
    requires WellFormed(s) && Walk(s, []) == Some([g])
    ensures Serves(s, [], x) <==> x == g
  {
    hide Walk, WellFormed;
    OneLevel(x);
    OnlyRootAbove([x], g);
    assert [x] == [g] ==> [x][0] == [g][0];
  }

  lemma StepOut(t: Trio, g: string, h: string, id: nat)
    requires Distinct(t) && Pair(t, g, h, id)
    ensures var s := With(t, g, h);
      && WellFormed(s) && Step(s, DoDequeue(true)) == Without(t, id, h)
      && Deliverable(s, [], t.x) && !Serves(s, [], t.x) && Serves(s, [], g)
  {
    hide Flat, Dequeue, Walk, WellFormed, Deliverable, Serves;
    Leaves(t, g, h, id);
    WithIsFlat(t, g, h);
    var s := With(t, g, h);
    assert [t.x, g, h][0] == t.x;
    XWaits(s, Ring([t.x, g, h], 1), t.x);
    OnlyItServes(s, g, t.x);
    OnlyItServes(s, g, g);
  }

  lemma StepIn(t: Trio, g: string, h: string, id: nat)
    requires Distinct(t) && Pair(t, g, h, id)
    ensures var s := Without(t, id, h);
      && WellFormed(s) && Legal(s, DoEnqueue(g, id, 0)) && Step(s, DoEnqueue(g, id, 0)) == With(t, h, g)
      && Deliverable(s, [], t.x)
  {
    hide Flat, Enqueue, WellFormed, Deliverable;
    Leaves(t, g, h, id);
    ComesBack(t, g, h, id);
    assert [t.x, h][0] == t.x;
    XWaits(Without(t, id, h), Ring([t.x, h], 1), t.x);
    ValidFlat(g);
  }

  lemma CycleStep(t: Trio, i: nat)
    requires Distinct(t)
    ensures WellFormed(StateAt(t, i)) && Legal(StateAt(t, i), OpAt(t, i))
    ensures Step(StateAt(t, i), OpAt(t, i)) == StateAt(t, i + 1)
    ensures Deliverable(StateAt(t, i), [], t.x) && !ServesIn(StateAt(t, i), OpAt(t, i), [], t.x)
    ensures i % 4 == 0 ==> ServesIn(StateAt(t, i), OpAt(t, i), [], t.b)
    ensures i % 4 == 2 ==> ServesIn(StateAt(t, i), OpAt(t, i), [], t.a)
  {
    hide Step, WellFormed, Deliverable, Serves, With, Without, Distinct;
    StepOut(t, t.b, t.a, 3);
    StepIn(t, t.b, t.a, 3);
    StepOut(t, t.a, t.b, 2);
    StepIn(t, t.a, t.b, 2);
  }

  lemma ValidFlat(g: string)
    requires FlatGroup(g)
    ensures GroupOrDefault(g) == g && ValidGroup(g)
  {
    NoDotSplit(g);
  }

  /**
   * For any three groups and any length there is a run in which `x` is deliverable all the time and
   * never served, while `b` and `a` are served in turn, each at every fourth step. Nothing is deleted.
   */
  lemma WaitsForEver(t: Trio, n: nat) returns (states: seq<State>, ops: seq<Op>)
    requires Distinct(t)
    ensures |ops| == n && IsRun(states, ops)
    ensures forall i :: 0 <= i < n ==> Deliverable(states[i], [], t.x) && !ServesIn(states[i], ops[i], [], t.x)
    ensures forall i :: 0 <= i < n && i % 4 == 0 ==> ServesIn(states[i], ops[i], [], t.b)
    ensures forall i :: 0 <= i < n && i % 4 == 2 ==> ServesIn(states[i], ops[i], [], t.a)
  {
    hide StateAt, OpAt, Step, Legal, Deliverable, ServesIn, WellFormed;
    states := seq(n + 1, i requires 0 <= i => StateAt(t, i));
    ops := seq(n, i requires 0 <= i => OpAt(t, i));
    forall i | 0 <= i <= n ensures WellFormed(states[i]) {
      CycleStep(t, i);
    }
    forall i | 0 <= i < n
      ensures Legal(states[i], ops[i]) && states[i + 1] == Step(states[i], ops[i])
      ensures Deliverable(states[i], [], t.x) && !ServesIn(states[i], ops[i], [], t.x)
      ensures i % 4 == 0 ==> ServesIn(states[i], ops[i], [], t.b)
      ensures i % 4 == 2 ==> ServesIn(states[i], ops[i], [], t.a)
    {
      CycleStep(t, i);
    }
  }

  // ---------- A deletion at the cursor ----------

  /** Two messages of `a`, one of `x` and one of `b`. */
  ghost function Four(t: Trio): map<nat, Item> {
    map[1 := Item(1, 0, t.a), 2 := Item(2, 0, t.a), 3 := Item(3, 0, t.b), 4 := Item(4, 0, t.x)]
  }

  ghost function Begun(t: Trio): State {
    State(Four(t), multiset{}, t.limit, FlatTree(Ring([t.a, t.b, t.x], 0)))
  }

  ghost function Turned(t: Trio): State {
    State(Four(t) - {1}, multiset{}, t.limit, FlatTree(Ring([t.a, t.b, t.x], 1)))
  }

  ghost function Reset(t: Trio): State {
    State(Four(t) - {1} - {3}, multiset{}, t.limit, FlatTree(Ring([t.a, t.x], 0)))
  }

  lemma FourFlat(t: Trio)
    requires Distinct(t)
    ensures Flat(Begun(t), Ring([t.a, t.b, t.x], 0)) && Flat(Turned(t), Ring([t.a, t.b, t.x], 1))
    ensures InGroup(Four(t), 1, t.a) && Queued(Four(t) - {1}, t.a) && InGroup(Four(t) - {1}, 3, t.b)
    ensures forall j :: InGroup(Four(t), j, t.a) && j != 1 ==> Before(Four(t)[1], Four(t)[j])
    ensures !Queued(Four(t) - {1} - {3}, t.b)
  {
    hide FlatTree, FlatGroup, DotFree;
    var items := Four(t);
    assert InGroup(items, 1, t.a) && InGroup(items, 2, t.a) && InGroup(items, 3, t.b) && InGroup(items, 4, t.x);
    var rest := items - {1};
    assert InGroup(rest, 2, t.a) && InGroup(rest, 3, t.b) && InGroup(rest, 4, t.x);
    GroupsOf(t, items);
    GroupsOf(t, rest);
  }

  lemma GroupsOf(t: Trio, items: map<nat, Item>)
    requires forall id :: id in items ==> id in Four(t) && items[id] == Four(t)[id]
    requires Queued(items, t.a) && Queued(items, t.b) && Queued(items, t.x)
    ensures forall c :: c in [t.a, t.b, t.x] <==> Queued(items, c)
  {
    forall c | Queued(items, c) ensures c in [t.a, t.b, t.x] {
      var id :| InGroup(items, id, c);
      assert [t.a, t.b, t.x][0] == t.a && [t.a, t.b, t.x][1] == t.b && [t.a, t.b, t.x][2] == t.x;
    }
  }

  lemma ResetRings(a: string, b: string, x: string)
    requires a != b && a != x && b != x
    ensures Served(Ring([a, b, x], 0), a) == Ring([a, b, x], 1)
    ensures b in [a, b, x] && Dropped(Ring([a, b, x], 1), b) == Ring([a, x], 0)
  {
    var names := [a, b, x];
    assert names[0] == a && names[1] == b && names[2] == x;
    assert IndexOf(names, a) == 0 && IndexOf(names, b) == 1;
    assert names[..1] + names[2..] == [a, x];
  }

  lemma FirstTurn(t: Trio)
    requires Distinct(t)
    ensures WellFormed(Begun(t)) && Dequeue(Begun(t), true).1 == Turned(t) && Walk(Begun(t), []) == Some([t.a])
  {
    hide Flat, FlatTree, Served, Dropped, Four, Queued, InGroup, Dequeue, Walk, WellFormed;
    FourFlat(t);
    ResetRings(t.a, t.b, t.x);
    FourthOf(t);
    FlatDequeue(Begun(t), Ring([t.a, t.b, t.x], 0), t.a, Item(1, 0, t.a), true);
  }

  lemma FourthOf(t: Trio)
    ensures 1 in Four(t) && Four(t)[1] == Item(1, 0, t.a)
  {
  }

  lemma NextIsDeleted(t: Trio)
    requires Distinct(t)
    ensures WellFormed(Turned(t)) && Delete(Turned(t), t.b, 3) == Reset(t) && Flat(Reset(t), Ring([t.a, t.x], 0))
  {
    hide Flat, FlatTree, Served, Dropped, Four, Queued, InGroup, Delete, WellFormed;
    FourFlat(t);
    ResetRings(t.a, t.b, t.x);
    FlatDelete(Turned(t), Ring([t.a, t.b, t.x], 1), t.b, 3);
    FlatLess(Turned(t), Ring([t.a, t.b, t.x], 1), t.b, 3);
  }

  /** `a` is served, `b` is next and is deleted, and `a` is served again while `x` waits. */
  lemma DeletingTheNextServesTwice(t: Trio) returns (states: seq<State>, ops: seq<Op>)
    requires Distinct(t)
    ensures |ops| == 3 && IsRun(states, ops)
    ensures forall i :: 0 <= i < 3 ==> Deliverable(states[i], [], t.x)
    ensures ServesIn(states[0], ops[0], [], t.a) && ops[1] == DoDelete(t.b, 3) && ServesIn(states[2], ops[2], [], t.a)
  {
    hide Flat, Dequeue, Delete, Walk, WellFormed, Deliverable, Serves;
    FourFlat(t);
    FirstTurn(t);
    NextIsDeleted(t);
    FlatWellFormed(Reset(t), Ring([t.a, t.x], 0));
    states := [Begun(t), Turned(t), Reset(t), Dequeue(Reset(t), true).1];
    ops := [DoDequeue(true), DoDelete(t.b, 3), DoDequeue(true)];
    assert [t.a, t.b, t.x][2] == t.x && [t.a, t.x][1] == t.x && [t.a, t.x][0] == t.a;
    XWaits(Begun(t), Ring([t.a, t.b, t.x], 0), t.x);
    XWaits(Turned(t), Ring([t.a, t.b, t.x], 1), t.x);
    XWaits(Reset(t), Ring([t.a, t.x], 0), t.x);
    FlatWalk(Reset(t), Ring([t.a, t.x], 0), t.a);
    OnlyItServes(Begun(t), t.a, t.a);
    OnlyItServes(Reset(t), t.a, t.a);
    StepWellFormed(Reset(t), DoDequeue(true));
  }
}
