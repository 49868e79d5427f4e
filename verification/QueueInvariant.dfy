/**
 * The invariant of a queue, kept by every operation: ready and in-flight messages partition the
 * stored ones and mirror them, and each group's unacked counter is the number of its messages in
 * flight.
 */
module QueueInvariant {
  import opened Types
  import opened QueueSpec
  import opened MemoryFacts

  /** What the invariant relates, whatever the kind of ready queue. */
  datatype View = View(
    fair: bool, msgs: map<nat, Message>, ready: map<nat, Item>, unacked: multiset<string>, ack: map<nat, Item>)

  ghost function ViewOf(q: Queue): View {
    View(IsFair(q), q.msgs, Items(q.ready), Unacked(q.ready), q.ack)
  }

  ghost function InFlight(ack: map<nat, Item>, g: string): set<nat> {
    set id | id in ack && ack[id].group == g
  }

  /** Every stored message is either ready or in flight, and nothing else is. */
  ghost predicate Partition(v: View) {
    v.ready.Keys !! v.ack.Keys && v.ready.Keys + v.ack.Keys == v.msgs.Keys
  }

  function ReadyItem(id: nat, m: Message): Item {
    Item(id, m.priority, m.group)
  }

  /** What is kept in memory repeats what is stored. */
  ghost predicate Mirror(v: View) {
    && (forall id :: id in v.ready ==> id in v.msgs && v.ready[id] == ReadyItem(id, v.msgs[id]))
    && (forall id :: id in v.ack ==>
          id in v.msgs && v.ack[id] == Item(id, v.ack[id].priority, v.msgs[id].group))
  }

  /** The counters that gate the groups count exactly the messages in flight. */
  ghost predicate Slots(v: View) {
    v.fair ==> forall g :: v.unacked[g] == |InFlight(v.ack, g)|
  }

  ghost predicate Consistent(v: View) {
    Partition(v) && Mirror(v) && Slots(v)
  }

  ghost predicate AllAccepted(m: Memory, msgs: map<nat, Message>) {
    forall id :: id in msgs ==> Accepts(m, msgs[id].group)
  }

  ghost predicate Inv(q: Queue) {
    && MemoryOk(q.ready) && SameKind(NewMemory(q.config), q.ready)
    && AllAccepted(q.ready, q.msgs) && Consistent(ViewOf(q))
  }

  // ---------- Counting messages in flight ----------

  lemma InFlightAfterAdd(ack: map<nat, Item>, x: Item, g: string)
    requires x.id !in ack
    ensures |InFlight(ack[x.id := x], g)| == |InFlight(ack, g)| + if g == x.group then 1 else 0
  {
    var ack' := ack[x.id := x];
    if g == x.group {
      assert InFlight(ack', g) == InFlight(ack, g) + {x.id};
    } else {
      assert InFlight(ack', g) == InFlight(ack, g);
    }
  }

  lemma InFlightAfterRemove(ack: map<nat, Item>, id: nat, g: string)
    requires id in ack
    ensures |InFlight(ack - {id}, g)| == |InFlight(ack, g)| - if g == ack[id].group then 1 else 0
  {
    if g == ack[id].group {
      assert InFlight(ack - {id}, g) == InFlight(ack, g) - {id};
    } else {
      assert InFlight(ack - {id}, g) == InFlight(ack, g);
    }
  }

  lemma SlotsAfterRelease(v: View, v': View, id: nat)
    requires Slots(v) && id in v.ack && v'.fair == v.fair && v'.ack == v.ack - {id}
    requires v.fair ==> v'.unacked == v.unacked - multiset{v.ack[id].group}
    ensures Slots(v')
  {
    forall g ensures |InFlight(v'.ack, g)| == |InFlight(v.ack, g)| - if g == v.ack[id].group then 1 else 0 {
      InFlightAfterRemove(v.ack, id, g);
    }
  }

  lemma SlotsAfterTake(v: View, v': View, x: Item)
    requires Slots(v) && x.id !in v.ack && v'.fair == v.fair && v'.ack == v.ack[x.id := x]
    requires v.fair ==> v'.unacked == v.unacked + multiset{x.group}
    ensures Slots(v')
  {
    forall g ensures |InFlight(v'.ack, g)| == |InFlight(v.ack, g)| + if g == x.group then 1 else 0 {
      InFlightAfterAdd(v.ack, x, g);
    }
  }

  // ---------- The transitions of one message ----------

  function Slot(v: View, group: string): multiset<string> {
    if v.fair then multiset{group} else multiset{}
  }

  /** A new message becomes ready. */
  lemma Arrives(v: View, id: nat, m: Message)
    requires Consistent(v) && id !in v.msgs
    ensures Consistent(v.(msgs := v.msgs[id := m], ready := v.ready[id := ReadyItem(id, m)]))
  {
  }

  /** A new message is in flight at once, as when a snapshot is restored. */
  lemma ArrivesInFlight(v: View, id: nat, m: Message, deadline: int)
    requires Consistent(v) && id !in v.msgs
    ensures Consistent(v.(msgs := v.msgs[id := m], unacked := v.unacked + Slot(v, m.group),
                          ack := v.ack[id := Item(id, deadline, m.group)]))
  {
    SlotsAfterTake(v, v.(unacked := v.unacked + Slot(v, m.group), ack := v.ack[id := Item(id, deadline, m.group)]),
                   Item(id, deadline, m.group));
  }

  /** A ready message is delivered and awaits its ack. */
  lemma GoesInFlight(v: View, id: nat, m: Message, deadline: int)
    requires Consistent(v) && id in v.ready && m.group == v.msgs[id].group
    ensures Consistent(v.(msgs := v.msgs[id := m], ready := v.ready - {id},
                          unacked := v.unacked + Slot(v, m.group), ack := v.ack[id := Item(id, deadline, m.group)]))
  {
    SlotsAfterTake(v, v.(unacked := v.unacked + Slot(v, m.group), ack := v.ack[id := Item(id, deadline, m.group)]),
                   Item(id, deadline, m.group));
  }

  /** A ready message disappears. */
  lemma LeavesReady(v: View, id: nat)
    requires Consistent(v) && id in v.ready
    ensures Consistent(v.(msgs := v.msgs - {id}, ready := v.ready - {id}))
  {
  }

  /** A message in flight disappears. */
  lemma LeavesInFlight(v: View, id: nat)
    requires Consistent(v) && id in v.ack
    ensures Consistent(v.(msgs := v.msgs - {id}, unacked := v.unacked - Slot(v, v.msgs[id].group), ack := v.ack - {id}))
  {
    SlotsAfterRelease(v, v.(unacked := v.unacked - Slot(v, v.msgs[id].group), ack := v.ack - {id}), id);
  }

  /** A message in flight becomes ready again. */
  lemma ComesBack(v: View, id: nat, m: Message)
    requires Consistent(v) && id in v.ack && m.group == v.msgs[id].group
    ensures Consistent(v.(msgs := v.msgs[id := m], ready := v.ready[id := ReadyItem(id, m)],
                          unacked := v.unacked - Slot(v, m.group), ack := v.ack - {id}))
  {
    SlotsAfterRelease(v, v.(unacked := v.unacked - Slot(v, m.group), ack := v.ack - {id}), id);
  }

  /** A message in flight gets another deadline, and possibly another stored priority. */
  lemma ChangesDeadline(v: View, id: nat, m: Message, deadline: int)
    requires Consistent(v) && id in v.ack && m.group == v.msgs[id].group
    ensures Consistent(v.(msgs := v.msgs[id := m], ack := v.ack[id := v.ack[id].(priority := deadline)]))
  {
    var ack := v.ack[id := v.ack[id].(priority := deadline)];
    forall g ensures InFlight(ack, g) == InFlight(v.ack, g) {
    }
  }

  /** A ready message gets another priority. */
  lemma ChangesPriority(v: View, id: nat, m: Message)
    requires Consistent(v) && id in v.ready && m.group == v.msgs[id].group
    ensures Consistent(v.(msgs := v.msgs[id := m], ready := v.ready[id := ReadyItem(id, m)]))
  {
  }
}
