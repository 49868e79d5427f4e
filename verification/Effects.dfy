/**
 * What each command of the log does to a queue, field by field: which message is handed out, what of a
 * message changes and what stays.
 */
module Effects {
  import opened Types
  import opened Order
  import opened GroupPath
  import opened Fsm
  import opened FsmInvariant
  import opened QueueInvariant
  import opened QueueSteps
  import opened Changes
  import MF = MemoryFacts
  import Mixing
  import Q = QueueSpec
  import Rd = Readiness
  import RR = RoundRobin
  import RRP = RoundRobinProperties
  import WQ = WeightedSpec

  // ---------- Which message is handed out ----------

  lemma SoonestOf(items: map<nat, Item>, x: Item)
    requires IsFirst(items, x)
    ensures forall id :: id in items && id != x.id && items[id].id == id ==>
      x.priority < items[id].priority || (x.priority == items[id].priority && x.id < id)
  {
  }

  /** Nothing of the same group, and in a delayed queue nothing at all, should have come before. */
  ghost predicate InTurn(m: Q.Memory, x: Item) {
    forall id :: id in Q.Items(m) && id != x.id && (m.DelayedMemory? || Q.Items(m)[id].group == x.group) ==>
      x.priority < Q.Items(m)[id].priority || (x.priority == Q.Items(m)[id].priority && x.id < id)
  }

  lemma HandsOutInTurn(m: Q.Memory, ack: bool, mixed: nat, now: int, x: Item)
    requires Q.MemoryOk(m) && Q.MemoryDequeue(m, ack, mixed, now).0 == Some(x)
    ensures InTurn(m, x) && (m.DelayedMemory? ==> x.priority <= now)
  {
    hide RR.WellFormed, RR.Walk, RR.Pruned, RR.Advanced, WQ.CalculateWeight, Split;
    match m
    case DelayedMemory(items) => SoonestOf(items, x);
    case RoundRobinMemory(s) => RoundRobinInTurn(s, ack, x);
    case WeightedMemory(s) => WeightedInTurn(s, ack, mixed, x);
  }

  lemma RoundRobinInTurn(s: RR.State, ack: bool, x: Item)
    requires RR.WellFormed(s) && RR.Dequeue(s, ack).0 == Some(x)
    ensures InTurn(Q.RoundRobinMemory(s), x)
  {
    assert [] in s.nodes;
    hide RR.Walk, RR.Pruned, RR.Advanced, Split, RR.Fits;
    RRP.DequeueEffect(s, ack);
    var l := RR.Walk(s, []).value;
    RR.WalkReachesLeaf(s, []);
    var items := RR.ItemsAt(s.items, l);
    assert x.id in items;
    SoonestOf(items, x);
    forall id | id in s.items && s.items[id].group == x.group ensures id in items {
    }
  }

  lemma WeightedInTurn(s: WQ.State, ack: bool, mixed: nat, x: Item)
    requires WQ.WellFormed(s) && WQ.Dequeue(s, ack, mixed).0 == Some(x)
    ensures InTurn(Q.WeightedMemory(s), x)
  {
    hide WQ.CalculateWeight, WQ.Refreshed;
    WQ.SelectedHasItem(s, mixed);
    var g := WQ.Selected(s, mixed);
    var items := WQ.ItemsOf(s.items, g);
    assert x.id in items && x.group == g;
    SoonestOf(items, x);
    forall id | id in s.items && s.items[id].group == x.group ensures id in items {
    }
  }

  // ---------- Commands on messages ----------

  lemma EnqueueEffect(q: Q.Queue, e: Entry)
    requires Inv(q) && Enabled(q, e) && e.cmd.Enqueue?
    ensures var (q', r) := OnQueue(q, e); var id := e.cmd.id;
      && r.Answered? && r.id == id
      && r.msg.group == (if Q.IsFair(q) then e.cmd.group else "default") && r.msg.priority == e.cmd.priority
      && r.msg.content == e.cmd.content && r.msg.metadata == e.cmd.metadata && r.msg.deliveryCount == 0
      && q'.msgs == q.msgs[id := r.msg] && q'.ack == q.ack && q'.config == q.config
      && Q.Items(q'.ready) == Q.Items(q.ready)[id := Item(id, e.cmd.priority, r.msg.group)]
  {
    hide OnQueue, Q.MemoryOk, Q.Items, Q.Unacked, Consistent, AllAccepted, MF.SameKind, MF.Accepts;
    CommandIsChange(q, e);
  }

  /**
   * The message handed out keeps its group, content, priority and metadata and counts one delivery more.
   * Among the ready messages of its group, or in a delayed queue among all, it has the lowest priority
   * and of those the smallest id. A delayed message is due.
   */
  lemma DequeueEffect(q: Q.Queue, e: Entry)
    requires Inv(q) && e.cmd.Dequeue?
    ensures Q.MemoryOk(q.ready)
    ensures var (q', r) := OnQueue(q, e);
      if r.Answered? then
        var (id, m) := (r.id, r.msg);
        && id in q.msgs && id in Q.Items(q.ready) && q'.config == q.config
        && m.group == q.msgs[id].group && m.content == q.msgs[id].content
        && m.priority == q.msgs[id].priority && m.metadata == q.msgs[id].metadata
        && m.deliveryCount == (q.msgs[id].deliveryCount + 1) % UINT32_SIZE
        && Q.Items(q'.ready) == Q.Items(q.ready) - {id}
        && q'.msgs == (if e.cmd.ack then q.msgs - {id} else q.msgs[id := m])
        && q'.ack == (if e.cmd.ack then q.ack
                      else q.ack[id := Item(id, e.now + q.config.settings.ackTimeout, q.msgs[id].group)])
      else r == Failed(EmptyQueue) && q' == q
    ensures var r := OnQueue(q, e).1;
      r.Answered? ==>
        && (!Q.IsFair(q) ==> r.msg.priority <= e.now)
        && forall j | j in Q.Items(q.ready) && j in q.msgs && j != r.id
             && (Q.IsFair(q) ==> q.msgs[j].group == r.msg.group) ::
             r.msg.priority < q.msgs[j].priority || (r.msg.priority == q.msgs[j].priority && r.id < j)
  {
    hide Q.MemoryOk, Q.Items, Q.Unacked, Consistent, AllAccepted, MF.SameKind, Q.Dequeue, Mixing.Mix64;
    Rd.InvGivesOk(q);
    DequeueStep(q, e.cmd.ack, Mixing.Mix64(e.index), e.now);
    DeliveryFields(q, e.cmd.ack, Mixing.Mix64(e.index), e.now);
    DeliveryInTurn(q, e.cmd.ack, Mixing.Mix64(e.index), e.now);
  }

  lemma DeliveryFields(q: Q.Queue, ack: bool, mixed: nat, now: int)
    requires Inv(q) && Q.MemoryOk(q.ready)
    ensures var r := Q.Dequeue(q, ack, mixed, now).1;
      r.Ok? ==>
        var (id, m) := r.value;
        && id in q.msgs && m.group == q.msgs[id].group && m.content == q.msgs[id].content
        && m.priority == q.msgs[id].priority && m.metadata == q.msgs[id].metadata
        && m.deliveryCount == (q.msgs[id].deliveryCount + 1) % UINT32_SIZE
  {
    hide Q.MemoryOk, Q.Items, Q.MemoryDequeue, Inv;
  }

  lemma DeliveryInTurn(q: Q.Queue, ack: bool, mixed: nat, now: int)
    requires Inv(q) && Q.MemoryOk(q.ready)
    ensures var r := Q.Dequeue(q, ack, mixed, now).1;
      r.Ok? ==>
        var (id, m) := r.value;
        && (!Q.IsFair(q) ==> m.priority <= now)
        && forall j | j in Q.Items(q.ready) && j != id && j in q.msgs && (Q.IsFair(q) ==> q.msgs[j].group == m.group) ::
             m.priority < q.msgs[j].priority || (m.priority == q.msgs[j].priority && id < j)
  {
    hide Q.MemoryOk, Q.Items, Q.MemoryDequeue, Slots, AllAccepted, Partition, MF.HandsOut;
    FairOrDelayed(q);
    MF.DequeueFacts(q.ready, ack, mixed, now);
    var x := Q.MemoryDequeue(q.ready, ack, mixed, now).0;
    if x.Some? {
      HandedIsReady(q.ready, ack, mixed, now, x.value);
      HandsOutInTurn(q.ready, ack, mixed, now, x.value);
      var v := ViewOf(q);
      assert v.ready[x.value.id] == ReadyItem(x.value.id, v.msgs[x.value.id]);
      forall j | j in v.ready ensures j in v.msgs && v.ready[j] == ReadyItem(j, v.msgs[j]) {
      }
    }
  }

  lemma HandedIsReady(m: Q.Memory, ack: bool, mixed: nat, now: int, x: Item)
    requires Q.MemoryOk(m) && Q.MemoryDequeue(m, ack, mixed, now).0 == Some(x)
    ensures x.id in Q.Items(m) && Q.Items(m)[x.id] == x
  {
    hide Q.MemoryOk, Q.MemoryDequeue, Q.Items;
    MF.DequeueFacts(m, ack, mixed, now);
  }

  /** The message in flight has used up its deliveries. */
  predicate UsedUp(q: Q.Queue, id: nat)
    requires id in q.msgs
  {
    0 < q.config.settings.deliveryLimit <= q.msgs[id].deliveryCount
  }

  /**
   * A message in flight leaves the ack queue. If its deliveries are used up it is gone; otherwise it is
   * ready again, with the given priority unless that is zero and exactly the given metadata unless that
   * is empty, and nothing else of it changes.
   */
  lemma NackEffect(q: Q.Queue, e: Entry)
    requires Inv(q) && e.cmd.Nack?
    ensures Q.MemoryOk(q.ready)
    ensures var (q', r) := OnQueue(q, e); var id := e.cmd.id;
      if id !in q.ack then r == Failed(MessageNotFound) && q' == q
      else
        && r == Done && id in q.msgs && q'.ack == q.ack - {id} && q'.config == q.config
        && if UsedUp(q, id) then q'.msgs == q.msgs - {id} && Q.Items(q'.ready) == Q.Items(q.ready)
           else
             && id in q'.msgs && q'.msgs == q.msgs[id := q'.msgs[id]]
             && q'.msgs[id].group == q.msgs[id].group && q'.msgs[id].content == q.msgs[id].content
             && q'.msgs[id].deliveryCount == q.msgs[id].deliveryCount
             && q'.msgs[id].priority == (if e.cmd.priority != 0 then e.cmd.priority else q.msgs[id].priority)
             && q'.msgs[id].metadata == (if e.cmd.metadata != map[] then e.cmd.metadata else q.msgs[id].metadata)
             && Q.Items(q'.ready) == Q.Items(q.ready)[id := Item(id, q'.msgs[id].priority, q.msgs[id].group)]
  {
    hide Q.MemoryOk, Q.Items, Q.Unacked, Consistent, AllAccepted, MF.SameKind, Q.Nack;
    Rd.InvGivesOk(q);
    NackStep(q, e.cmd.id, e.cmd.priority, e.cmd.metadata);
  }

  /** After a timeout the message is dropped or ready again as it was. */
  lemma AckTimeoutEffect(q: Q.Queue, e: Entry)
    requires Inv(q) && e.cmd.AckTimeout?
    ensures Q.MemoryOk(q.ready)
    ensures var (q', r) := OnQueue(q, e); var id := e.cmd.id;
      if id !in q.ack then r == Failed(MessageNotFound) && q' == q
      else
        && r == Done && id in q.msgs && q'.ack == q.ack - {id} && q'.config == q.config
        && if UsedUp(q, id) then q'.msgs == q.msgs - {id} && Q.Items(q'.ready) == Q.Items(q.ready)
           else
             && q'.msgs == q.msgs
             && Q.Items(q'.ready) == Q.Items(q.ready)[id := Item(id, q.msgs[id].priority, q.msgs[id].group)]
  {
    hide Q.MemoryOk, Q.Items, Q.Unacked, Consistent, AllAccepted, MF.SameKind, Q.AckTimeout;
    Rd.InvGivesOk(q);
    AckTimeoutStep(q, e.cmd.id);
    if e.cmd.id in q.ack { assert q.msgs[e.cmd.id := q.msgs[e.cmd.id]] == q.msgs; }
  }

  /** An ack removes a message in flight and nothing else. */
  lemma AckEffect(q: Q.Queue, e: Entry)
    requires Inv(q) && e.cmd.Ack?
    ensures Q.MemoryOk(q.ready)
    ensures var (q', r) := OnQueue(q, e); var id := e.cmd.id;
      if id !in q.ack then r == Failed(MessageNotFound) && q' == q
      else
        && r == Done && q'.msgs == q.msgs - {id} && q'.ack == q.ack - {id} && q'.config == q.config
        && Q.Items(q'.ready) == Q.Items(q.ready)
  {
    hide Q.MemoryOk, Q.Items, Q.Unacked, Consistent, AllAccepted, MF.SameKind, Q.Ack;
    Rd.InvGivesOk(q);
    AckStep(q, e.cmd.id);
  }

  /** A delete removes a stored message from wherever it is. */
  lemma DeleteEffect(q: Q.Queue, e: Entry)
    requires Inv(q) && e.cmd.Delete?
    ensures Q.MemoryOk(q.ready)
    ensures var (q', r) := OnQueue(q, e); var id := e.cmd.id;
      if id !in q.msgs then r == Failed(MessageNotFound) && q' == q
      else
        && r == Done && q'.msgs == q.msgs - {id} && q'.ack == q.ack - {id} && q'.config == q.config
        && Q.Items(q'.ready) == Q.Items(q.ready) - {id}
  {
    hide Q.MemoryOk, Q.Items, Q.Unacked, AllAccepted, MF.SameKind, Q.Delete, Slots, Mirror;
    Rd.InvGivesOk(q);
    DeleteStep(q, e.cmd.id);
    assert e.cmd.id in q.ack ==> Q.Items(q.ready) - {e.cmd.id} == Q.Items(q.ready);
    assert e.cmd.id !in q.ack ==> q.ack - {e.cmd.id} == q.ack;
  }

  /** A touch moves the deadline of a message in flight and nothing else. */
  lemma TouchEffect(q: Q.Queue, e: Entry)
    requires Inv(q) && e.cmd.Touch?
    ensures Q.MemoryOk(q.ready)
    ensures var (q', r) := OnQueue(q, e); var id := e.cmd.id;
      if id !in q.ack then r == Failed(MessageNotFound) && q' == q
      else
        && r == Done && q'.msgs == q.msgs && q'.config == q.config && q'.ready == q.ready
        && q'.ack == q.ack[id := Item(id, e.now + q.config.settings.ackTimeout, q.ack[id].group)]
  {
    hide Q.MemoryOk, Q.Items, Q.Unacked, AllAccepted, MF.SameKind, Slots, Partition;
    Rd.InvGivesOk(q);
    var v := ViewOf(q);
    if e.cmd.id in q.ack { assert v.ack[e.cmd.id] == Item(e.cmd.id, v.ack[e.cmd.id].priority, v.msgs[e.cmd.id].group); }
  }

  /** A new priority is stored; a ready message moves in its heap, and one in flight gets it as its deadline. */
  lemma UpdatePriorityEffect(q: Q.Queue, e: Entry)
    requires Inv(q) && e.cmd.UpdatePriority?
    ensures Q.MemoryOk(q.ready)
    ensures var (q', r) := OnQueue(q, e); var (id, priority) := (e.cmd.id, e.cmd.priority);
      if id !in q.msgs then r == Failed(MessageNotFound) && q' == q
      else
        && r == Done && id in q'.msgs && q'.msgs == q.msgs[id := q'.msgs[id]] && q'.config == q.config
        && q'.msgs[id].priority == priority && q'.msgs[id].group == q.msgs[id].group
        && q'.msgs[id].content == q.msgs[id].content && q'.msgs[id].metadata == q.msgs[id].metadata
        && q'.msgs[id].deliveryCount == q.msgs[id].deliveryCount
        && if id in q.ack then
             q'.ack == q.ack[id := Item(id, priority, q.msgs[id].group)] && Q.Items(q'.ready) == Q.Items(q.ready)
           else
             q'.ack == q.ack && Q.Items(q'.ready) == Q.Items(q.ready)[id := Item(id, priority, q.msgs[id].group)]
  {
    hide Q.MemoryOk, Q.Items, Q.Unacked, AllAccepted, MF.SameKind, Q.UpdatePriority, Slots, Partition;
    Rd.InvGivesOk(q);
    UpdatePriorityStep(q, e.cmd.id, e.cmd.priority);
    var v := ViewOf(q);
    if e.cmd.id in q.ack { assert v.ack[e.cmd.id] == Item(e.cmd.id, v.ack[e.cmd.id].priority, v.msgs[e.cmd.id].group); }
  }

  /** A lookup answers the stored message and changes nothing. */
  lemma GetEffect(q: Q.Queue, e: Entry)
    requires Inv(q) && e.cmd.Get?
    ensures Q.MemoryOk(q.ready)
    ensures OnQueue(q, e)
         == (q, if e.cmd.id in q.msgs then Answered(e.cmd.id, q.msgs[e.cmd.id]) else Failed(MessageNotFound))
  {
    hide Inv, Q.MemoryOk;
    Rd.InvGivesOk(q);
  }
}
