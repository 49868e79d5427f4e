/** What each operation of a queue does to its messages. Every one keeps the invariant. */
module QueueSteps {
  import opened Types
  import opened GroupPath
  import opened QueueSpec
  import opened MemoryFacts
  import opened QueueInvariant

  /** `q'` follows `q` with view `v`: the invariant holds and up-to-date weights stay so. */
  ghost predicate Moves(q: Queue, q': Queue, v: View) {
    && q'.config == q.config && ViewOf(q') == v && Inv(q') && SameKind(q.ready, q'.ready)
    && (WeightsFresh(q.ready) ==> WeightsFresh(q'.ready)) && (WeightsGated(q.ready) ==> WeightsGated(q'.ready))
  }

  lemma MovesTo(q: Queue, q': Queue, items: map<nat, Item>, unacked: multiset<string>)
    requires Inv(q) && q'.config == q.config && Becomes(q.ready, q'.ready, items, unacked)
    requires AllAccepted(q.ready, q'.msgs)
    requires Consistent(View(IsFair(q), q'.msgs, items, unacked, q'.ack))
    ensures Moves(q, q', View(IsFair(q), q'.msgs, items, unacked, q'.ack))
  {
    hide MemoryOk, Items, Unacked, ValidGroup, WeightsFresh, WeightsGated, Consistent;
  }

  lemma NewQueueInv(config: Config)
    ensures Inv(Queue(config, map[], NewMemory(config), map[]))
    ensures WeightsFresh(NewMemory(config)) && WeightsGated(NewMemory(config))
  {
    NewMemoryFacts(config);
    hide MemoryOk;
    assert forall g :: InFlight(map[], g) == {};
  }

  lemma DefaultAccepted(q: Queue)
    requires Inv(q)
    ensures !IsFair(q) ==> Accepts(q.ready, "default")
  {
  }

  lemma RestoredVerbatim(q: Queue, m: Message)
    requires Inv(q) && Accepts(q.ready, m.group)
    ensures RestoredMessage(q, m) == m
  {
  }

  lemma EnqueueStep(q: Queue, id: nat, group: string, priority: int, content: string, metadata: map<string, string>)
    requires Inv(q) && id !in q.msgs && (IsFair(q) ==> Accepts(q.ready, group))
    ensures var v, m := ViewOf(q), Message(if IsFair(q) then group else "default", priority, content, metadata, 0);
      Moves(q, Enqueue(q, id, group, priority, content, metadata),
            v.(msgs := v.msgs[id := m], ready := v.ready[id := ReadyItem(id, m)]))
  {
    hide MemoryOk, Items, Unacked, Accepts, MemoryEnqueue, MemoryGet, Moves, SameKind;
    var g := if IsFair(q) then group else "default";
    var m := Message(g, priority, content, metadata, 0);
    DefaultAccepted(q);
    GetFacts(q.ready, g, id);
    EnqueueFacts(q.ready, g, id, priority);
    Arrives(ViewOf(q), id, m);
    MovesTo(q, Enqueue(q, id, group, priority, content, metadata), Items(q.ready)[id := ReadyItem(id, m)], Unacked(q.ready));
  }

  /** The view after message `id` was delivered as `m`. */
  ghost function Delivery(v: View, id: nat, m: Message, ack: bool, deadline: int): View {
    if ack then v.(msgs := v.msgs - {id}, ready := v.ready - {id})
    else v.(msgs := v.msgs[id := m], ready := v.ready - {id},
            unacked := v.unacked + Slot(v, m.group), ack := v.ack[id := Item(id, deadline, m.group)])
  }

  lemma FairOrDelayed(q: Queue)
    requires Inv(q)
    ensures q.ready.DelayedMemory? <==> !IsFair(q)
  {
  }

  lemma ReadyIsStored(v: View, id: nat)
    requires Consistent(v) && id in v.ready
    ensures id in v.msgs && v.ready[id] == ReadyItem(id, v.msgs[id])
  {
  }

  lemma AcceptedAfter(m: Memory, msgs: map<nat, Message>, id: nat, x: Message)
    requires AllAccepted(m, msgs) && id in msgs && x.group == msgs[id].group
    ensures AllAccepted(m, msgs - {id}) && AllAccepted(m, msgs[id := x])
  {
  }

  lemma DeliveryConsistent(v: View, id: nat, ack: bool, deadline: int)
    requires Consistent(v) && id in v.ready
    ensures id in v.msgs && Consistent(Delivery(v, id, Delivered(v.msgs[id]), ack, deadline))
  {
    if ack { LeavesReady(v, id); } else { GoesInFlight(v, id, Delivered(v.msgs[id]), deadline); }
  }

  /** A successful dequeue of `x`. */
  lemma DequeueMoves(q: Queue, ack: bool, mixed: nat, now: int, x: Item)
    requires Inv(q) && Items(q.ready) != map[] && MemoryDequeue(q.ready, ack, mixed, now).0 == Some(x)
    ensures x.id in Items(q.ready) && x.id in q.msgs
    ensures Moves(q, Dequeue(q, ack, mixed, now).0,
                  Delivery(ViewOf(q), x.id, Delivered(q.msgs[x.id]), ack, now + q.config.settings.ackTimeout))
  {
    hide MemoryOk, Items, Unacked, Accepts, MemoryDequeue, Consistent, AllAccepted, SameKind, Moves;
    FairOrDelayed(q);
    var v := ViewOf(q);
    DequeueFacts(q.ready, ack, mixed, now);
    ReadyIsStored(v, x.id);
    AcceptedAfter(q.ready, q.msgs, x.id, Delivered(v.msgs[x.id]));
    DeliveryConsistent(v, x.id, ack, now + q.config.settings.ackTimeout);
    var v' := Delivery(v, x.id, Delivered(v.msgs[x.id]), ack, now + q.config.settings.ackTimeout);
    MovesTo(q, Dequeue(q, ack, mixed, now).0, v'.ready, v'.unacked);
  }

  lemma DequeueStep(q: Queue, ack: bool, mixed: nat, now: int)
    requires Inv(q)
    ensures var (q', r) := Dequeue(q, ack, mixed, now);
      match r
      case Err(e) => e == EmptyQueue && q' == q
      case Ok((id, m)) =>
        && id in Items(q.ready) && id in q.msgs && m == Delivered(q.msgs[id])
        && m.group == q.msgs[id].group && m.priority == q.msgs[id].priority && m.content == q.msgs[id].content
        && m.metadata == q.msgs[id].metadata && m.deliveryCount == (q.msgs[id].deliveryCount + 1) % UINT32_SIZE
        && Moves(q, q', Delivery(ViewOf(q), id, m, ack, now + q.config.settings.ackTimeout))
  {
    hide MemoryOk, Items, Unacked, Accepts, MemoryDequeue, Consistent, AllAccepted, SameKind, Moves, Delivery;
    var x := MemoryDequeue(q.ready, ack, mixed, now).0;
    if Items(q.ready) != map[] && x.Some? {
      DequeueMoves(q, ack, mixed, now, x.value);
    }
  }

  ghost function Departure(v: View, id: nat): View
    requires id in v.msgs
  {
    if id in v.ack then v.(msgs := v.msgs - {id}, unacked := v.unacked - Slot(v, v.msgs[id].group), ack := v.ack - {id})
    else v.(msgs := v.msgs - {id}, ready := v.ready - {id})
  }

  lemma AckStep(q: Queue, id: nat)
    requires Inv(q)
    ensures var (q', r) := Ack(q, id);
      if id in q.ack then id in q.msgs && r == Ok(()) && Moves(q, q', Departure(ViewOf(q), id))
      else r == Err(MessageNotFound) && q' == q
  {
    hide MemoryOk, Items, Unacked, Accepts, MemoryRelease, Moves, SameKind;
    if id in q.ack {
      var v := ViewOf(q);
      var group := q.msgs[id].group;
      NoRelease(q.ready);
      ReleaseFacts(q.ready, group);
      LeavesInFlight(v, id);
      MovesTo(q, Ack(q, id).0, v.ready, v.unacked - Slot(v, group));
    }
  }

  lemma NoRelease(m: Memory)
    requires MemoryOk(m)
    ensures Becomes(m, m, Items(m), Unacked(m) - multiset{})
  {
  }

  lemma Unchanged(m: Memory)
    requires MemoryOk(m)
    ensures Becomes(m, m, Items(m), Unacked(m))
  {
  }

  lemma DeleteStep(q: Queue, id: nat)
    requires Inv(q)
    ensures var (q', r) := Delete(q, id);
      if id in q.msgs then r == Ok(()) && Moves(q, q', Departure(ViewOf(q), id))
      else r == Err(MessageNotFound) && q' == q
  {
    hide MemoryOk, Items, Unacked, Accepts, MemoryRelease, MemoryDelete, Moves, SameKind;
    if id in q.msgs {
      var v := ViewOf(q);
      var group := q.msgs[id].group;
      DeleteFacts(q.ready, group, id);
      if id in q.ack {
        NoRelease(q.ready);
        ReleaseFacts(q.ready, group);
        LeavesInFlight(v, id);
        MovesTo(q, Delete(q, id).0, v.ready, v.unacked - Slot(v, group));
      } else {
        LeavesReady(v, id);
        assert q.ack - {id} == q.ack;
        MovesTo(q, Delete(q, id).0, v.ready - {id}, v.unacked);
      }
    }
  }

  predicate Exhausted(q: Queue, m: Message) {
    q.config.settings.deliveryLimit > 0 && m.deliveryCount >= q.config.settings.deliveryLimit
  }

  ghost function Return(v: View, id: nat, m: Message): View {
    v.(msgs := v.msgs[id := m], ready := v.ready[id := ReadyItem(id, m)],
       unacked := v.unacked - Slot(v, m.group), ack := v.ack - {id})
  }

  /** A message in flight goes back to the ready queue, with `m` stored for it. */
  lemma RedeliverStep(q: Queue, id: nat, newPriority: int, m: Message)
    requires Inv(q) && id in q.ack && !Exhausted(q, q.msgs[id]) && m.group == q.msgs[id].group
    requires m.priority == if newPriority != 0 then newPriority else q.msgs[id].priority
    ensures var q' := RedeliverOrDrop(q, id, newPriority).0;
      Moves(q, q'.(msgs := q'.msgs[id := m]), Return(ViewOf(q), id, m))
  {
    hide Items, Unacked, MemoryOk, Accepts, MemoryEnqueue, MemoryRelease, Moves, WeightsFresh, WeightsGated;
    var v := ViewOf(q);
    var ready := MemoryEnqueue(q.ready, m.group, id, m.priority);
    assert Accepts(q.ready, m.group);
    EnqueueFacts(q.ready, m.group, id, m.priority);
    ReleaseFacts(ready, m.group);
    ComesBack(v, id, m);
    var q' := RedeliverOrDrop(q, id, newPriority).0;
    MovesTo(q, q'.(msgs := q'.msgs[id := m]), v.ready[id := ReadyItem(id, m)], v.unacked - Slot(v, m.group));
  }

  lemma NackStep(q: Queue, id: nat, priority: int, metadata: map<string, string>)
    requires Inv(q)
    ensures var (q', r) := Nack(q, id, priority, metadata);
      if id !in q.ack then r == Err(MessageNotFound) && q' == q
      else
        && id in q.msgs && r == Ok(())
        && Moves(q, q', if Exhausted(q, q.msgs[id]) then Departure(ViewOf(q), id)
                        else Return(ViewOf(q), id, UpdatedMessage(q.msgs[id], priority, metadata)))
  {
    hide Items, Unacked, Accepts, MemoryEnqueue, MemoryRelease, MemoryOk, MemoryDelete, Moves, SameKind, Return;
    hide Departure, Partition, Slots, AllAccepted;
    if id in q.ack {
      var (q', dropped) := RedeliverOrDrop(q, id, priority);
      if Exhausted(q, q.msgs[id]) {
        DeleteStep(q, id);
      } else {
        var m := UpdatedMessage(q.msgs[id], priority, metadata);
        RedeliverStep(q, id, priority, m);
        assert Nack(q, id, priority, metadata).0 == q'.(msgs := q'.msgs[id := m]);
      }
    }
  }

  lemma AckTimeoutStep(q: Queue, id: nat)
    requires Inv(q)
    ensures var (q', r) := AckTimeout(q, id);
      if id !in q.ack then r == Err(MessageNotFound) && q' == q
      else
        && id in q.msgs && r == Ok(())
        && Moves(q, q', if Exhausted(q, q.msgs[id]) then Departure(ViewOf(q), id)
                        else Return(ViewOf(q), id, q.msgs[id]))
  {
    hide Items, Unacked, Accepts, MemoryEnqueue, MemoryRelease, MemoryOk, MemoryDelete, Moves, SameKind, Return;
    hide Departure, Partition, Slots, AllAccepted;
    if id in q.ack {
      var (q', dropped) := RedeliverOrDrop(q, id, 0);
      if Exhausted(q, q.msgs[id]) {
        DeleteStep(q, id);
      } else {
        RedeliverStep(q, id, 0, q.msgs[id]);
        assert q' == q'.(msgs := q'.msgs[id := q.msgs[id]]);
      }
    }
  }

  ghost function NewDeadline(v: View, id: nat, m: Message, deadline: int): View
    requires id in v.ack
  {
    v.(msgs := v.msgs[id := m], ack := v.ack[id := v.ack[id].(priority := deadline)])
  }

  lemma TouchStep(q: Queue, id: nat, now: int)
    requires Inv(q)
    ensures var (q', r) := Touch(q, id, now);
      if id !in q.ack then r == Err(MessageNotFound) && q' == q
      else
        && id in q.msgs && r == Ok(())
        && Moves(q, q', NewDeadline(ViewOf(q), id, q.msgs[id], now + q.config.settings.ackTimeout))
  {
    hide MemoryOk, Items, Unacked, Accepts, Moves, SameKind, WeightsFresh, WeightsGated, AllAccepted, Slots, Partition;
    if id in q.ack {
      Unchanged(q.ready);
      ChangesDeadline(ViewOf(q), id, q.msgs[id], now + q.config.settings.ackTimeout);
      assert q.msgs[id := q.msgs[id]] == q.msgs;
      MovesTo(q, Touch(q, id, now).0, Items(q.ready), Unacked(q.ready));
    }
  }

  lemma UpdatePriorityStep(q: Queue, id: nat, priority: int)
    requires Inv(q)
    ensures var (q', r) := UpdatePriority(q, id, priority);
      if id !in q.msgs then r == Err(MessageNotFound) && q' == q
      else
        var v, m := ViewOf(q), q.msgs[id].(priority := priority);
        && r == Ok(())
        && Moves(q, q', if id in q.ack then NewDeadline(v, id, m, priority)
                        else v.(msgs := v.msgs[id := m], ready := v.ready[id := ReadyItem(id, m)]))
  {
    hide Items, Unacked, MemoryOk, MemoryGet, MemoryUpdatePriority, Accepts, Moves, SameKind;
    if id in q.msgs {
      var v, m := ViewOf(q), q.msgs[id].(priority := priority);
      GetFacts(q.ready, m.group, id);
      UpdatePriorityFacts(q.ready, m.group, id, priority);
      var q' := UpdatePriority(q, id, priority).0;
      if id in q.ack {
        ChangesDeadline(v, id, m, priority);
        MovesTo(q, q', v.ready, v.unacked);
      } else {
        ChangesPriority(v, id, m);
        MovesTo(q, q', v.ready[id := ReadyItem(id, m)], v.unacked);
      }
    }
  }

  lemma EnqueueRestoredStep(q: Queue, id: nat, m: Message)
    requires Inv(q) && id !in q.msgs && Accepts(q.ready, m.group)
    ensures var v := ViewOf(q);
      Moves(q, EnqueueRestored(q, id, m), v.(msgs := v.msgs[id := m], ready := v.ready[id := ReadyItem(id, m)]))
  {
    hide MemoryOk, Items, Unacked, Accepts, MemoryEnqueue, MemoryGet, Moves, SameKind;
    RestoredVerbatim(q, m);
    var v := ViewOf(q);
    GetFacts(q.ready, m.group, id);
    EnqueueFacts(q.ready, m.group, id, m.priority);
    Arrives(v, id, m);
    MovesTo(q, EnqueueRestored(q, id, m), v.ready[id := ReadyItem(id, m)], v.unacked);
  }

  lemma RestoreUnackedStep(q: Queue, id: nat, m: Message, deadline: int)
    requires Inv(q) && id !in q.msgs && Accepts(q.ready, m.group)
    ensures var v := ViewOf(q);
      Moves(q, RestoreUnacked(q, id, m, deadline),
            v.(msgs := v.msgs[id := m], unacked := v.unacked + Slot(v, m.group),
               ack := v.ack[id := Item(id, deadline, m.group)]))
  {
    hide MemoryOk, Items, Unacked, Accepts, MemoryMarkUnacked, MemoryGet, Moves, SameKind;
    FairOrDelayed(q);
    RestoredVerbatim(q, m);
    var v := ViewOf(q);
    GetFacts(q.ready, m.group, id);
    MarkUnackedFacts(q.ready, m.group);
    ArrivesInFlight(v, id, m, deadline);
    MovesTo(q, RestoreUnacked(q, id, m, deadline), v.ready, v.unacked + Slot(v, m.group));
  }
}
