/**
 * Round-robin fairness over whole runs. Every serving brings a waiting child one turn nearer, every
 * sibling that is created while the child is before the cursor takes it one turn back, and nothing else
 * moves it. The servings of two siblings that stay deliverable alternate.
 */
module Fairness {
  import opened Types
  import opened GroupPath
  import opened RoundRobin
  import opened RoundRobinProperties

  // ---------- Turns on one ring ----------

  /** How many children come before `c` when the next scan starts. */
  ghost function Turn(r: Ring, c: string): nat
    requires c in r.names && r.cursor < |r.names|
  {
    var i := IndexOf(r.names, c);
    if r.cursor <= i then i - r.cursor else i - r.cursor + |r.names|
  }

  lemma TurnIsPlace(r: Ring, c: string)
    requires c in r.names && r.cursor < |r.names|
    ensures Turn(r, c) < |r.names| && Rotation(r)[Turn(r, c)] == c
  {
  }

  ghost predicate Precedes(r: Ring, a: string, b: string) {
    RingOk(r) && a in r.names && b in r.names && Turn(r, a) < Turn(r, b)
  }

  lemma IndexIs(s: seq<string>, i: nat)
    requires NoDuplicates(s) && i < |s|
    ensures IndexOf(s, s[i]) == i
  {
  }

  /** Whoever was just served waits for all others. */
  lemma ServedGoesLast(r: Ring, a: string, b: string)
    requires RingOk(r) && a in r.names && b in r.names && a != b
    ensures Precedes(Served(r, b), a, b)
  {
    assert IndexOf(r.names, a) != IndexOf(r.names, b);
  }

  lemma ServedKeepsOrder(r: Ring, x: string, a: string, b: string)
    requires x in r.names && Precedes(r, a, b) && Turn(r, x) < Turn(r, a)
    ensures Precedes(Served(r, x), a, b)
  {
  }

  lemma AppendedIndex(r: Ring, c: string, a: string)
    requires RingOk(r) && a in r.names
    ensures RingOk(Appended(r, c)) && a in Appended(r, c).names
    ensures IndexOf(Appended(r, c).names, a) == IndexOf(r.names, a)
    ensures c !in r.names ==> IndexOf(Appended(r, c).names, c) == |r.names|
  {
    AppendedOk(r, c);
    if c !in r.names {
      var names := r.names + [c];
      assert names[IndexOf(r.names, a)] == a && names[|r.names|] == c;
      IndexIs(names, IndexOf(r.names, a));
      IndexIs(names, |r.names|);
    }
  }

  /** A new child comes after `a`, and leaves its turn alone, exactly if `a` is not before the cursor. */
  lemma AppendedAfterIff(r: Ring, c: string, a: string)
    requires RingOk(r) && a in r.names && c !in r.names
    ensures Precedes(Appended(r, c), a, c) <==> r.cursor <= IndexOf(r.names, a)
    ensures a in Appended(r, c).names && Appended(r, c).cursor < |Appended(r, c).names|
    ensures Turn(Appended(r, c), a) == Turn(r, a) + if r.cursor <= IndexOf(r.names, a) then 0 else 1
  {
    AppendedIndex(r, c, a);
  }

  lemma AppendedKeepsOrder(r: Ring, c: string, a: string, b: string)
    requires Precedes(r, a, b)
    ensures Precedes(Appended(r, c), a, b)
  {
    AppendedIndex(r, c, a);
    AppendedIndex(r, c, b);
  }

  lemma DroppedIndex(r: Ring, c: string, a: string)
    requires RingOk(r) && c in r.names && a in r.names && a != c
    ensures a in Dropped(r, c).names
    ensures IndexOf(Dropped(r, c).names, a)
         == IndexOf(r.names, a) - if IndexOf(r.names, c) < IndexOf(r.names, a) then 1 else 0
  {
    DroppedOk(r, c);
    var i, k := IndexOf(r.names, c), IndexOf(r.names, a);
    IndexIs(Dropped(r, c).names, if i < k then k - 1 else k);
  }

  /** Removing the child keeps the turns of the others: it is not its turn, or it is first or last in the list. */
  ghost predicate KeepsTurns(r: Ring, c: string)
    requires r.cursor < |r.names|
  {
    r.names[r.cursor] != c || r.cursor == 0 || r.cursor == |r.names| - 1
  }

  lemma DroppedTurn(r: Ring, c: string, a: string)
    requires RingOk(r) && c in r.names && a in r.names && a != c && KeepsTurns(r, c)
    ensures RingOk(Dropped(r, c)) && a in Dropped(r, c).names
    ensures Turn(Dropped(r, c), a) == Turn(r, a) - if Turn(r, c) < Turn(r, a) then 1 else 0
  {
    DroppedOk(r, c);
    DroppedIndex(r, c, a);
    IndexIs(r.names, r.cursor);
    assert IndexOf(r.names, a) != IndexOf(r.names, c);
  }

  lemma DroppedKeepsOrder(r: Ring, c: string, a: string, b: string)
    requires Precedes(r, a, b) && c in r.names && c != a && c != b && KeepsTurns(r, c)
    ensures Precedes(Dropped(r, c), a, b)
  {
    DroppedTurn(r, c, a);
    DroppedTurn(r, c, b);
  }

  lemma ServedTurn(r: Ring, x: string, a: string)
    requires RingOk(r) && x in r.names && a in r.names && Turn(r, x) < Turn(r, a)
    ensures RingOk(Served(r, x)) && Turn(Served(r, x), a) == Turn(r, a) - Turn(r, x) - 1
    ensures Turn(Served(r, x), x) == |r.names| - 1
  {
  }

  // ---------- Which child a dequeue serves ----------

  ghost predicate Serves(s: State, p: Path, c: string)
    requires WellFormed(s)
  {
    Walk(s, []).Some? && Child(p, c) <= Walk(s, []).value
  }

  /** A dequeue that looks at `c` gets an item from it. */
  ghost predicate Deliverable(s: State, p: Path, c: string)
    requires WellFormed(s)
  {
    p in s.nodes && c in s.nodes[p].names && UnderLimit(s, Child(p, c)) && HasReady(s, Child(p, c))
  }

  lemma {:induction false} WalkPassesThrough(s: State, p: Path, q: Path)
    requires WellFormed(s) && p in s.nodes && Walk(s, p).Some? && p <= q <= Walk(s, p).value
    ensures q in s.nodes && Walk(s, q) == Walk(s, p)
    decreases |q| - |p|
  {
    if p != q {
      WalkReachesLeaf(s, p);
      var k := ScanPlace(s, p, 0);
      var c := Rotation(s.nodes[p])[k];
      var l := Walk(s, p).value;
      ChildOnWay(p, c, l);
      ChildOnWay(p, c, q);
      assert c in s.nodes[p].names;
      WalkPassesThrough(s, Child(p, c), q);
    }
  }

  /** The place in the rotation where a successful scan stops; nothing before it yields an item. */
  lemma {:induction false} ScanPlace(s: State, p: Path, j: nat) returns (k: nat)
    requires WellFormed(s) && p in s.nodes && j <= |s.nodes[p].names| && Scan(s, p, j).Some?
    ensures j <= k < |s.nodes[p].names| && Yields(s, p, k)
    ensures Scan(s, p, j) == Walk(s, Child(p, Rotation(s.nodes[p])[k]))
    ensures Child(p, Rotation(s.nodes[p])[k]) <= Scan(s, p, j).value
    ensures forall i :: j <= i < k ==> !Yields(s, p, i)
    decreases |s.nodes[p].names| - j
  {
    hide Fits;
    RingOnTree(s, p);
    if Yields(s, p, j) {
      k := j;
      var c := Rotation(s.nodes[p])[k];
      ChildOnTree(s, p, c);
      WalkReachesLeaf(s, Child(p, c));
    } else {
      k := ScanPlace(s, p, j + 1);
    }
  }

  lemma ServedPlace(s: State, p: Path, x: string)
    requires WellFormed(s) && Serves(s, p, x)
    ensures p in s.nodes && x in s.nodes[p].names
    ensures forall i :: 0 <= i < Turn(s.nodes[p], x) && i < |s.nodes[p].names| ==> !Yields(s, p, i)
  {
    var l := Walk(s, []).value;
    ChildOnWay(p, x, l);
    WalkPassesThrough(s, [], p);
    WalkReachesLeaf(s, p);
    var k := ScanPlace(s, p, 0);
    var c := Rotation(s.nodes[p])[k];
    ChildOnWay(p, c, l);
    RotationPlace(s.nodes[p], k);
  }

  lemma DeliverableYields(s: State, p: Path, a: string)
    requires WellFormed(s) && Deliverable(s, p, a)
    ensures Turn(s.nodes[p], a) < |s.nodes[p].names| && Yields(s, p, Turn(s.nodes[p], a))
  {
    TurnIsPlace(s.nodes[p], a);
    WalkFindsWhatIsReady(s, Child(p, a));
  }

  /** The served child comes no later than any deliverable one. */
  lemma ServedBeforeDeliverable(s: State, p: Path, x: string, a: string)
    requires WellFormed(s) && Serves(s, p, x) && Deliverable(s, p, a) && a != x
    ensures x in s.nodes[p].names && Turn(s.nodes[p], x) < Turn(s.nodes[p], a)
  {
    ServedPlace(s, p, x);
    DeliverableYields(s, p, a);
    TurnIsPlace(s.nodes[p], a);
    TurnIsPlace(s.nodes[p], x);
  }

  lemma RotationPlace(r: Ring, k: nat)
    requires RingOk(r) && k < |r.names|
    ensures Rotation(r)[k] in r.names && Turn(r, Rotation(r)[k]) == k
  {
    var i := if k < |r.names| - r.cursor then r.cursor + k else k - (|r.names| - r.cursor);
    assert Rotation(r)[k] == r.names[i];
    IndexIs(r.names, i);
  }

  // ---------- Operations ----------

  datatype Op =
    | DoEnqueue(group: string, id: nat, priority: int)
    | DoDequeue(ack: bool)
    | DoDelete(group: string, id: nat)
    | DoUpdatePriority(group: string, id: nat, priority: int)
    | DoRelease(group: string)
    | DoMarkUnacked(group: string)
    | DoUpdateMaxUnacked(maxUnacked: uint32)

  ghost predicate Legal(s: State, op: Op) {
    op.DoEnqueue? ==> op.id !in s.items && ValidGroup(GroupOrDefault(op.group))
  }

  ghost function Step(s: State, op: Op): State
    requires WellFormed(s)
  {
    match op
    case DoEnqueue(group, id, priority) => Enqueue(s, group, id, priority)
    case DoDequeue(ack) => Dequeue(s, ack).1
    case DoDelete(group, id) => Delete(s, group, id)
    case DoUpdatePriority(group, id, priority) => UpdatePriority(s, group, id, priority)
    case DoRelease(group) => Release(s, group)
    case DoMarkUnacked(group) => MarkUnacked(s, group)
    case DoUpdateMaxUnacked(maxUnacked) => UpdateMaxUnacked(s, maxUnacked)
  }

  lemma StepWellFormed(s: State, op: Op)
    requires WellFormed(s) && Legal(s, op)
    ensures WellFormed(Step(s, op))
  {
    match op
    case DoEnqueue(group, id, priority) => EnqueueWellFormed(s, group, id, priority);
    case DoDequeue(ack) => DequeueWellFormed(s, ack);
    case DoDelete(group, id) => DeleteWellFormed(s, group, id);
    case DoUpdatePriority(group, id, priority) => UpdatePriorityWellFormed(s, group, id, priority);
    case _ =>
  }

  /**
   * What one step owes to a child `a` of `p` that waits for its turn: it stays in the tree, it is
   * deliverable when a dequeue looks, and a deletion does not send the cursor back past it.
   */
  ghost predicate Waits(s: State, op: Op, p: Path, a: string)
    requires WellFormed(s) && Legal(s, op)
  {
    StepWellFormed(s, op);
    var s' := Step(s, op);
    && Present(s, p, a) && Present(s', p, a)
    && (op.DoDequeue? ==> Deliverable(s, p, a))
    && (op.DoDelete? ==> forall c :: c in s.nodes[p].names && c !in s'.nodes[p].names ==> KeepsTurns(s.nodes[p], c))
  }

  ghost predicate Present(s: State, p: Path, c: string)
    requires WellFormed(s)
  {
    p in s.nodes && c in s.nodes[p].names && s.nodes[p].cursor < |s.nodes[p].names|
  }

  ghost predicate ServesIn(s: State, op: Op, p: Path, c: string)
    requires WellFormed(s)
  {
    op.DoDequeue? && Serves(s, p, c)
  }

  /** The dequeue serves some child of `p`. */
  ghost predicate ServesBelow(s: State, op: Op, p: Path)
    requires WellFormed(s)
  {
    op.DoDequeue? && Walk(s, []).Some? && p < Walk(s, []).value
  }

  /** The step creates a child of `p` while `a` is before the cursor. */
  ghost predicate Overtakes(s: State, op: Op, p: Path, a: string)
    requires WellFormed(s) && Legal(s, op)
  {
    && op.DoEnqueue? && Present(s, p, a) && IndexOf(s.nodes[p].names, a) < s.nodes[p].cursor
    && exists c :: c !in s.nodes[p].names && p in Step(s, op).nodes && c in Step(s, op).nodes[p].names
  }

  /** The ring of `p` after a dequeue that served leaf `l`. */
  lemma DequeueRing(s: State, ack: bool, p: Path)
    requires WellFormed(s) && Walk(s, []).Some? && p in s.nodes && p in Dequeue(s, ack).1.nodes
    ensures var l := Walk(s, []).value; var r, r' := s.nodes[p], Dequeue(s, ack).1.nodes[p];
      if p < l then l[|p|] in r.names && (r' == Served(r, l[|p|]) || r' == Dropped(Served(r, l[|p|]), l[|p|]))
      else r' == r
  {
    WalkReachesLeaf(s, []);
    LeadsTo(s, Walk(s, []).value);
  }

  /** The ring of `p` after an enqueue. */
  lemma EnqueueRing(s: State, group: string, id: nat, priority: int, p: Path)
    requires WellFormed(s) && p in s.nodes
    ensures var l := Split(GroupOrDefault(group)); var r' := Enqueue(s, group, id, priority).nodes[p];
      r' == if p < l then Appended(s.nodes[p], l[|p|]) else s.nodes[p]
  {
  }

  /** The ring of `p` after a delete. */
  lemma DeleteRing(s: State, group: string, id: nat, p: Path)
    requires WellFormed(s) && p in s.nodes && p in Delete(s, group, id).nodes
    ensures var r, r' := s.nodes[p], Delete(s, group, id).nodes[p];
      r' == r || exists c :: c in r.names && r' == Dropped(r, c)
  {
    if Get(s, group, id).Some? { ItemOnTree(s, id); }
  }

  lemma DequeueTurn(s: State, ack: bool, p: Path, a: string)
    requires WellFormed(s) && Waits(s, DoDequeue(ack), p, a) && !Serves(s, p, a)
    ensures var r, r' := s.nodes[p], Dequeue(s, ack).1.nodes[p];
      Turn(r', a) + (if ServesBelow(s, DoDequeue(ack), p) then 1 else 0) <= Turn(r, a)
  {
    if Walk(s, []).Some? {
      var l := Walk(s, []).value;
      DequeueRing(s, ack, p);
      ChildOnWay(p, a, l);
      if p < l {
        var x, r := l[|p|], s.nodes[p];
        ChildOnWay(p, x, l);
        ServedBeforeDeliverable(s, p, x, a);
        ServedTurn(r, x, a);
        var served := Served(r, x);
        assert served.names[served.cursor] != x;
        DroppedTurn(served, x, a);
      }
    }
  }

  lemma EnqueueTurn(s: State, group: string, id: nat, priority: int, p: Path, a: string)
    requires WellFormed(s) && Legal(s, DoEnqueue(group, id, priority)) && Waits(s, DoEnqueue(group, id, priority), p, a)
    ensures var r, r' := s.nodes[p], Enqueue(s, group, id, priority).nodes[p];
      Turn(r', a) == Turn(r, a) + if Overtakes(s, DoEnqueue(group, id, priority), p, a) then 1 else 0
  {
    hide Grown, Split;
    EnqueueRing(s, group, id, priority, p);
    var l := Split(GroupOrDefault(group));
    if p < l && l[|p|] !in s.nodes[p].names {
      AppendedAfterIff(s.nodes[p], l[|p|], a);
      assert l[|p|] in Appended(s.nodes[p], l[|p|]).names;
    }
  }

  lemma DeleteTurn(s: State, group: string, id: nat, p: Path, a: string)
    requires WellFormed(s) && Waits(s, DoDelete(group, id), p, a)
    ensures Turn(Delete(s, group, id).nodes[p], a) <= Turn(s.nodes[p], a)
  {
    DeleteRing(s, group, id, p);
    var r, r' := s.nodes[p], Delete(s, group, id).nodes[p];
    if r' != r {
      var c :| c in r.names && r' == Dropped(r, c);
      DroppedOk(r, c);
      DroppedTurn(r, c, a);
    }
  }

  /** A step that serves a sibling brings `a` nearer; only a sibling created while `a` is before the cursor delays it. */
  lemma StepMovesTurn(s: State, op: Op, p: Path, a: string)
    requires WellFormed(s) && Legal(s, op) && Waits(s, op, p, a) && !ServesIn(s, op, p, a)
    ensures Turn(Step(s, op).nodes[p], a) + (if ServesBelow(s, op, p) then 1 else 0)
         <= Turn(s.nodes[p], a) + if Overtakes(s, op, p, a) then 1 else 0
  {
    hide Walk, Dequeue, Delete, Enqueue, Turn, Deliverable, Serves, WellFormed;
    StepWellFormed(s, op);
    match op
    case DoEnqueue(group, id, priority) => EnqueueTurn(s, group, id, priority, p, a);
    case DoDequeue(ack) => DequeueTurn(s, ack, p, a);
    case DoDelete(group, id) => DeleteTurn(s, group, id, p, a);
    case _ =>
  }

  // ---------- Runs ----------

  /** The states of a run: `states[i]` is where operation `ops[i]` starts. */
  ghost predicate IsRun(states: seq<State>, ops: seq<Op>) {
    && |states| == |ops| + 1
    && (forall i :: 0 <= i < |states| ==> WellFormed(states[i]))
    && (forall i :: 0 <= i < |ops| ==> Legal(states[i], ops[i]) && states[i + 1] == Step(states[i], ops[i]))
  }

  /** `a` waits through the operations from `i` up to but not including `k`. */
  ghost predicate WaitsFrom(states: seq<State>, ops: seq<Op>, p: Path, a: string, i: nat, k: nat)
    requires IsRun(states, ops) && k <= |ops|
  {
    forall j :: i <= j < k ==> Waits(states[j], ops[j], p, a)
  }

  /** How many of the operations from `i` up to `k` serve a child of `p`. */
  ghost function Servings(states: seq<State>, ops: seq<Op>, p: Path, i: nat, k: nat): nat
    requires IsRun(states, ops) && i <= k <= |ops|
    decreases k
  {
    if k == i then 0
    else Servings(states, ops, p, i, k - 1) + if ServesBelow(states[k - 1], ops[k - 1], p) then 1 else 0
  }

  /** How many of them create a child of `p` while `a` is before the cursor. */
  ghost function Overtakings(states: seq<State>, ops: seq<Op>, p: Path, a: string, i: nat, k: nat): nat
    requires IsRun(states, ops) && i <= k <= |ops|
    decreases k
  {
    if k == i then 0
    else Overtakings(states, ops, p, a, i, k - 1) + if Overtakes(states[k - 1], ops[k - 1], p, a) then 1 else 0
  }

  /**
   * The wait is bounded: before `a` is served, the children of `p` are served no more often than `a`'s
   * place in the rotation says, plus once for each sibling created while `a` is before the cursor.
   */
  lemma {:induction false} BoundedWait(states: seq<State>, ops: seq<Op>, p: Path, a: string, i: nat, k: nat)
    requires IsRun(states, ops) && i <= k <= |ops| && Present(states[i], p, a) && WaitsFrom(states, ops, p, a, i, k)
    requires forall j :: i <= j < k ==> !ServesIn(states[j], ops[j], p, a)
    ensures Present(states[k], p, a)
    ensures Servings(states, ops, p, i, k) + Turn(states[k].nodes[p], a)
         <= Turn(states[i].nodes[p], a) + Overtakings(states, ops, p, a, i, k)
    decreases k
  {
    hide WellFormed, Legal, Turn, Serves, Deliverable, Step, ServesBelow, Overtakes;
    if i < k {
      BoundedWait(states, ops, p, a, i, k - 1);
      StepMovesTurn(states[k - 1], ops[k - 1], p, a);
    }
  }

  // ---------- Alternation ----------

  /** `b` has its turn after `a`, or none at all. */
  ghost predicate Behind(r: Ring, a: string, b: string) {
    RingOk(r) && a in r.names && (b in r.names ==> Precedes(r, a, b))
  }

  /** `a` waits, and `b` is not created while `a` is before the cursor. */
  ghost predicate Fair(s: State, op: Op, p: Path, a: string, b: string)
    requires WellFormed(s) && Legal(s, op)
  {
    && Waits(s, op, p, a)
    && (b !in s.nodes[p].names && b in Step(s, op).nodes[p].names ==>
          s.nodes[p].cursor <= IndexOf(s.nodes[p].names, a))
  }

  lemma DequeueKeepsBehind(s: State, ack: bool, p: Path, a: string, b: string)
    requires WellFormed(s) && Waits(s, DoDequeue(ack), p, a) && a != b
    requires Behind(s.nodes[p], a, b) && !Serves(s, p, a)
    ensures !Serves(s, p, b)
    ensures Behind(Dequeue(s, ack).1.nodes[p], a, b)
  {
    if Walk(s, []).Some? {
      var l := Walk(s, []).value;
      DequeueRing(s, ack, p);
      ChildOnWay(p, b, l);
      ChildOnWay(p, a, l);
      if p < l {
        var x, r := l[|p|], s.nodes[p];
        ChildOnWay(p, x, l);
        ServedBeforeDeliverable(s, p, x, a);
        if b in r.names { ServedKeepsOrder(r, x, a, b); }
        var served := Served(r, x);
        assert served.names[served.cursor] != x;
        DroppedOk(served, x);
        DroppedTurn(served, x, a);
        if b in r.names { DroppedKeepsOrder(served, x, a, b); }
      }
    }
  }

  lemma RingPutsBehind(r: Ring, r': Ring, a: string, b: string)
    requires RingOk(r) && b in r.names && a != b && a in r'.names
    requires r' == Served(r, b) || r' == Dropped(Served(r, b), b)
    ensures Behind(r', a, b)
  {
    hide Turn;
    var served := Served(r, b);
    DroppedOk(served, b);
    ServedGoesLast(r, a, b);
  }

  /** Whoever is served goes last, or leaves. */
  lemma ServingPutsBehind(s: State, ack: bool, p: Path, a: string, b: string)
    requires WellFormed(s) && a != b && Serves(s, p, b)
    requires WellFormed(Dequeue(s, ack).1) && Present(Dequeue(s, ack).1, p, a)
    ensures Behind(Dequeue(s, ack).1.nodes[p], a, b)
  {
    hide Walk, Dequeue, Fits, Behind, Served, Dropped;
    RootOnTree(s);
    var l := Walk(s, []).value;
    ChildOnWay(p, b, l);
    WalkPassesThrough(s, [], p);
    RingOnTree(s, p);
    DequeueRing(s, ack, p);
    RingPutsBehind(s.nodes[p], Dequeue(s, ack).1.nodes[p], a, b);
  }

  lemma EnqueueKeepsBehind(s: State, group: string, id: nat, priority: int, p: Path, a: string, b: string)
    requires WellFormed(s) && Legal(s, DoEnqueue(group, id, priority)) && Fair(s, DoEnqueue(group, id, priority), p, a, b)
    requires Behind(s.nodes[p], a, b)
    ensures Behind(Enqueue(s, group, id, priority).nodes[p], a, b)
  {
    hide Grown, Split;
    EnqueueRing(s, group, id, priority, p);
    var l := Split(GroupOrDefault(group));
    if p < l {
      var c, r := l[|p|], s.nodes[p];
      AppendedOk(r, c);
      if b in r.names { AppendedKeepsOrder(r, c, a, b); }
      if c !in r.names { AppendedAfterIff(r, c, a); }
    }
  }

  lemma DeleteKeepsBehind(s: State, group: string, id: nat, p: Path, a: string, b: string)
    requires WellFormed(s) && Waits(s, DoDelete(group, id), p, a) && Behind(s.nodes[p], a, b)
    ensures Behind(Delete(s, group, id).nodes[p], a, b)
  {
    DeleteRing(s, group, id, p);
    var r, r' := s.nodes[p], Delete(s, group, id).nodes[p];
    if r' != r {
      var c :| c in r.names && r' == Dropped(r, c);
      DroppedOk(r, c);
      if b in r.names && b != c { DroppedKeepsOrder(r, c, a, b); }
    }
  }

  /** While `b` is behind `a`, no operation serves `b`, and none but a serving of `a` brings it before `a`. */
  lemma StepKeepsBehind(s: State, op: Op, p: Path, a: string, b: string)
    requires WellFormed(s) && Legal(s, op) && Fair(s, op, p, a, b) && a != b
    requires Behind(s.nodes[p], a, b) && !ServesIn(s, op, p, a)
    ensures !ServesIn(s, op, p, b)
    ensures Behind(Step(s, op).nodes[p], a, b)
  {
    hide Walk, Dequeue, Delete, Enqueue, Behind, Deliverable, Serves, WellFormed;
    match op
    case DoEnqueue(group, id, priority) => EnqueueKeepsBehind(s, group, id, priority, p, a, b);
    case DoDequeue(ack) => DequeueKeepsBehind(s, ack, p, a, b);
    case DoDelete(group, id) => DeleteKeepsBehind(s, group, id, p, a, b);
    case _ =>
  }

  ghost predicate FairFrom(states: seq<State>, ops: seq<Op>, p: Path, a: string, b: string, i: nat, k: nat)
    requires IsRun(states, ops) && k <= |ops|
  {
    forall j :: i <= j < k ==> Fair(states[j], ops[j], p, a, b)
  }

  lemma {:induction false} NotServedUntil(
    states: seq<State>, ops: seq<Op>, p: Path, a: string, b: string, i: nat, k: nat)
    requires IsRun(states, ops) && i <= k < |ops| && a != b && FairFrom(states, ops, p, a, b, i, k)
    requires p in states[i].nodes && Behind(states[i].nodes[p], a, b)
    requires Deliverable(states[k], p, a) && ServesIn(states[k], ops[k], p, b)
    ensures exists j :: i <= j < k && ServesIn(states[j], ops[j], p, a)
    decreases k - i
  {
    hide WellFormed, Legal, Behind, Serves, Deliverable, Step;
    if i == k {
      BehindIsNotServed(states[k], p, a, b);
    } else if !ServesIn(states[i], ops[i], p, a) {
      StepKeepsBehind(states[i], ops[i], p, a, b);
      NotServedUntil(states, ops, p, a, b, i + 1, k);
    }
  }

  lemma BehindIsNotServed(s: State, p: Path, a: string, b: string)
    requires WellFormed(s) && Deliverable(s, p, a) && Behind(s.nodes[p], a, b) && a != b
    ensures !Serves(s, p, b)
  {
    if Serves(s, p, b) { ServedBeforeDeliverable(s, p, b, a); }
  }

  /**
   * Between two servings of `b`, a sibling `a` that stays deliverable is served, whatever becomes of
   * `b` in between: it may even leave the tree, as long as it does not come back while `a` is before
   * the cursor.
   */
  lemma ServedInBetween(states: seq<State>, ops: seq<Op>, p: Path, a: string, b: string, i: nat, k: nat)
    requires IsRun(states, ops) && a != b && i < k < |ops| && FairFrom(states, ops, p, a, b, i + 1, k)
    requires ServesIn(states[i], ops[i], p, b) && ServesIn(states[k], ops[k], p, b)
    requires Present(states[i + 1], p, a) && Deliverable(states[k], p, a)
    ensures exists j :: i < j < k && ServesIn(states[j], ops[j], p, a)
  {
    ServingPutsBehind(states[i], ops[i].ack, p, a, b);
    NotServedUntil(states, ops, p, a, b, i + 1, k);
  }

  /** Between two consecutive servings of `b`, a sibling is served exactly once while both stay deliverable. */
  lemma ServedExactlyOnce(states: seq<State>, ops: seq<Op>, p: Path, a: string, b: string, i: nat, k: nat)
    requires IsRun(states, ops) && a != b && i < k < |ops|
    requires FairFrom(states, ops, p, a, b, i + 1, k) && FairFrom(states, ops, p, b, a, i + 1, k)
    requires Present(states[i + 1], p, a) && Deliverable(states[k], p, a)
    requires ServesIn(states[i], ops[i], p, b) && ServesIn(states[k], ops[k], p, b)
    requires forall j :: i < j < k ==> !ServesIn(states[j], ops[j], p, b)
    ensures exists j :: i < j < k && ServesIn(states[j], ops[j], p, a)
    ensures forall j, j' :: i < j < j' < k && ServesIn(states[j], ops[j], p, a) ==> !ServesIn(states[j'], ops[j'], p, a)
  {
    hide WellFormed, Legal, Serves, Deliverable, Step, Present;
    ServedInBetween(states, ops, p, a, b, i, k);
    forall j, j' | i < j < j' < k && ServesIn(states[j], ops[j], p, a)
      ensures !ServesIn(states[j'], ops[j'], p, a)
    {
      if ServesIn(states[j'], ops[j'], p, a) {
        assert Fair(states[j], ops[j], p, b, a) && Fair(states[j'], ops[j'], p, b, a);
        ServedInBetween(states, ops, p, b, a, j, j');
        assert false;
      }
    }
  }

  // ---------- Dequeues only ----------

  lemma DequeueTakesAway(s: State, ack: bool)
    requires WellFormed(s)
    ensures var s' := Dequeue(s, ack).1;
      && (forall q :: q in s'.nodes ==> q in s.nodes) && (forall q :: UnderLimit(s', q) ==> UnderLimit(s, q))
      && (forall id :: id in s'.items ==> id in s.items && s'.items[id] == s.items[id])
  {
    WalkReachesLeaf(s, []);
  }

  /** A child that vanished with a dequeue led to the served leaf. */
  lemma VanishedWithServed(s: State, ack: bool, q: Path)
    requires WellFormed(s) && WellFormed(Dequeue(s, ack).1) && q in s.nodes && q !in Dequeue(s, ack).1.nodes
    ensures Walk(s, []).Some? && q <= Walk(s, []).value
  {
    hide Dequeue, Walk;
    var s' := Dequeue(s, ack).1;
    var id :| Under(s.items, id, q);
    assert id in s'.items && s'.items[id] == s.items[id] ==> Under(s'.items, id, q) && Holds(s'.items, q);
    DequeueTakesOne(s, ack);
  }

  /** What a dequeue takes is an item of the leaf it walked to. */
  lemma DequeueTakesOne(s: State, ack: bool)
    requires WellFormed(s)
    ensures var s' := Dequeue(s, ack).1;
      forall id :: id in s.items ==>
        (id in s'.items && s'.items[id] == s.items[id])
        || (Walk(s, []).Some? && Split(s.items[id].group) == Walk(s, []).value)
  {
    hide Walk, Pruned, Advanced, Split, Fits;
    RootOnTree(s);
    WalkReachesLeaf(s, []);
    if Walk(s, []).Some? {
      var x := Dequeue(s, ack).0.value;
      assert x.id in ItemsAt(s.items, Walk(s, []).value);
    }
  }

  lemma ReadyBefore(s: State, ack: bool, q: Path, l: Path) returns (m: Path)
    requires WellFormed(s) && WellFormed(Dequeue(s, ack).1) && Reachable(Dequeue(s, ack).1, q, l)
    ensures Reachable(s, q, m)
  {
    hide Dequeue, Fits, UnderLimit;
    var s' := Dequeue(s, ack).1;
    DequeueTakesAway(s, ack);
    ItemsBefore(s'.items, s.items, l);
    if s.nodes[l].names == [] {
      m := l;
    } else {
      var d := s.nodes[l].names[0];
      ChildOnTree(s, l, d);
      NotInLeaf(s', l, d);
      VanishedWithServed(s, ack, Child(l, d));
      RootOnTree(s);
      m := Walk(s, []).value;
      WalkReachesLeaf(s, []);
      OnlyLonger(q, l, d, m);
    }
  }

  lemma RootOnTree(s: State)
    requires WellFormed(s)
    ensures [] in s.nodes
  {
  }

  lemma ItemsBefore(a: map<nat, Item>, b: map<nat, Item>, l: Path)
    requires (forall id :: id in a ==> id in b && a[id] == b[id]) && ItemsAt(a, l) != map[]
    ensures ItemsAt(b, l) != map[]
  {
    var id :| id in ItemsAt(a, l);
    assert id in ItemsAt(b, l);
  }

  lemma NotInLeaf(s: State, l: Path, d: string)
    requires WellFormed(s) && IsLeaf(s, l)
    ensures Child(l, d) !in s.nodes
  {
  }

  lemma OnlyLonger(q: Path, l: Path, d: string, m: Path)
    requires q <= l && Child(l, d) <= m
    ensures q <= m
  {
    assert l == Child(l, d)[..|l|];
  }

  /** What is deliverable after a dequeue was so before. */
  lemma DeliverableBefore(s: State, ack: bool, p: Path, c: string)
    requires WellFormed(s) && WellFormed(Dequeue(s, ack).1) && Deliverable(Dequeue(s, ack).1, p, c)
    ensures Deliverable(s, p, c)
  {
    hide Dequeue, UnderLimit, Walk, HasReady;
    var s' := Dequeue(s, ack).1;
    DequeueTakesAway(s, ack);
    WalkFindsWhatIsReady(s', Child(p, c));
    WalkReachesLeaf(s', Child(p, c));
    var m := ReadyBefore(s, ack, Child(p, c), Walk(s', Child(p, c)).value);
    ReachableHasReady(s, Child(p, c), m);
  }

  lemma ServedIsDeliverable(s: State, p: Path, c: string)
    requires WellFormed(s) && Serves(s, p, c)
    ensures Deliverable(s, p, c)
  {
    hide UnderLimit, Walk, HasReady;
    var l := Walk(s, []).value;
    ChildOnWay(p, c, l);
    WalkPassesThrough(s, [], p);
    WalkPassesThrough(s, [], Child(p, c));
    WalkReachesLeaf(s, []);
    ReachableHasReady(s, Child(p, c), l);
  }

  lemma {:induction false} DeliverableAllAlong(states: seq<State>, ops: seq<Op>, p: Path, c: string, j: nat, k: nat)
    requires IsRun(states, ops) && j <= k <= |ops| && (forall i :: j <= i < k ==> ops[i].DoDequeue?)
    requires Deliverable(states[k], p, c)
    ensures Deliverable(states[j], p, c)
    decreases k - j
  {
    hide WellFormed, Deliverable, Legal;
    if j < k {
      DeliverableAllAlong(states, ops, p, c, j + 1, k);
      DeliverableBefore(states[j], ops[j].ack, p, c);
    }
  }

  lemma DeliverableIsPresent(s: State, p: Path, c: string)
    requires WellFormed(s) && Deliverable(s, p, c)
    ensures Present(s, p, c)
  {
  }

  lemma DequeuesAreFair(states: seq<State>, ops: seq<Op>, p: Path, a: string, b: string, i: nat, k: nat)
    requires IsRun(states, ops) && k <= |ops| && (forall j :: i <= j < k ==> ops[j].DoDequeue?)
    requires forall j :: i <= j <= k ==> Deliverable(states[j], p, a)
    ensures FairFrom(states, ops, p, a, b, i, k)
  {
    forall j | i <= j < k ensures Fair(states[j], ops[j], p, a, b) {
      assert Deliverable(states[j], p, a) && Deliverable(states[j + 1], p, a);
      DequeueFair(states[j], ops[j].ack, p, a, b);
    }
  }

  lemma DequeueFair(s: State, ack: bool, p: Path, a: string, b: string)
    requires WellFormed(s) && WellFormed(Dequeue(s, ack).1)
    requires Deliverable(s, p, a) && Deliverable(Dequeue(s, ack).1, p, a)
    ensures Fair(s, DoDequeue(ack), p, a, b)
  {
    hide Walk, HasReady, UnderLimit, Dequeue;
    DequeueTakesAway(s, ack);
    DeliverableIsPresent(s, p, a);
    DeliverableIsPresent(Dequeue(s, ack).1, p, a);
  }

  /**
   * While messages are only taken out, a child that is still deliverable at the second of two
   * consecutive servings of a sibling was served exactly once in between.
   */
  lemma DequeuesAlternate(states: seq<State>, ops: seq<Op>, p: Path, a: string, b: string, i: nat, k: nat)
    requires IsRun(states, ops) && a != b && i < k < |ops| && (forall j :: i <= j <= k ==> ops[j].DoDequeue?)
    requires ServesIn(states[i], ops[i], p, b) && ServesIn(states[k], ops[k], p, b)
    requires forall j :: i < j < k ==> !ServesIn(states[j], ops[j], p, b)
    requires Deliverable(states[k], p, a)
    ensures exists j :: i < j < k && ServesIn(states[j], ops[j], p, a)
    ensures forall j, j' :: i < j < j' < k && ServesIn(states[j], ops[j], p, a) ==> !ServesIn(states[j'], ops[j'], p, a)
  {
    hide WellFormed, Legal, Serves, Deliverable, Step, Present;
    ServedIsDeliverable(states[k], p, b);
    forall j | i + 1 <= j <= k ensures Deliverable(states[j], p, a) && Deliverable(states[j], p, b) {
      DeliverableAllAlong(states, ops, p, a, j, k);
      DeliverableAllAlong(states, ops, p, b, j, k);
    }
    DequeuesAreFair(states, ops, p, a, b, i + 1, k);
    DequeuesAreFair(states, ops, p, b, a, i + 1, k);
    DeliverableIsPresent(states[i + 1], p, a);
    ServedExactlyOnce(states, ops, p, a, b, i, k);
  }
}
