/**
 * When a queue has a message to hand out, whatever the seed, and which steps can turn a queue that has
 * none into one that has.
 */
module Readiness {
  import opened Types
  import opened Order
  import opened GroupPath
  import opened Weights
  import opened Fsm
  import opened QueueInvariant
  import opened QueueSteps
  import opened Changes
  import Q = QueueSpec
  import MF = MemoryFacts
  import Mixing
  import RR = RoundRobin
  import RRP = RoundRobinProperties
  import WQ = WeightedSpec
  import WQP = WeightedProperties

  /** A delayed message is due, a leaf of the tree is reachable, or some group has a weight. */
  ghost predicate Ready(m: Q.Memory, now: int) {
    match m
    case DelayedMemory(items) => exists id :: id in items && items[id].priority <= now
    case RoundRobinMemory(s) => exists l :: RR.Reachable(s, [], l)
    case WeightedMemory(s) => Total(s.weights) > 0
  }

  // ---------- What a dequeue finds ----------

  lemma DelayedReady(items: map<nat, Item>, now: int)
    requires Keyed(items)
    ensures Q.DelayedDequeue(items, now).0.Some? <==> exists id :: id in items && items[id].priority <= now
  {
    if items != map[] {
      var x := First(items);
      assert x.id in items && items[x.id] == x;
    }
  }

  /** No message of a weighted queue is without group, so the empty name has no weight. */
  lemma NoEmptyName(q: Q.Queue)
    requires Inv(q) && q.ready.WeightedMemory?
    ensures "" !in q.ready.wq.weights
  {
    hide WQ.CalculateWeight;
    var s, v := q.ready.wq, ViewOf(q);
    assert WQ.GroupOk(s, "");
    forall id | id in s.items ensures s.items[id].group != "" {
      assert v.ready[id] == ReadyItem(id, v.msgs[id]);
      assert MF.Accepts(q.ready, q.msgs[id].group);
    }
    assert WQ.ItemsOf(s.items, "") == map[];
    forall id | id in v.ack ensures v.ack[id].group != "" {
      assert MF.Accepts(q.ready, q.msgs[id].group);
    }
    assert InFlight(v.ack, "") == {};
    assert v.unacked[""] == |InFlight(v.ack, "")|;
  }

  /** A dequeue succeeds exactly if the queue is ready, with or without ack and for every seed. */
  lemma DequeueIffReady(q: Q.Queue, ack: bool, mixed: nat, now: int)
    requires Inv(q)
    ensures Q.MemoryOk(q.ready)
    ensures Q.Dequeue(q, ack, mixed, now).1.Ok? <==> Ready(q.ready, now)
    ensures !Ready(q.ready, now) ==> Q.Dequeue(q, ack, mixed, now) == (q, Err(EmptyQueue))
  {
    hide Inv, Q.MemoryOk, Q.Items, Q.MemoryDequeue, Ready, Q.Dequeue, MF.HandsOut;
    InvGivesOk(q);
    FoundIffReady(q, ack, mixed, now);
    MF.DequeueFacts(q.ready, ack, mixed, now);
    DequeueStep(q, ack, mixed, now);
    DeliversWhatIsFound(q, ack, mixed, now);
  }

  lemma InvGivesOk(q: Q.Queue)
    requires Inv(q)
    ensures Q.MemoryOk(q.ready)
  {
    hide Q.MemoryOk, Consistent, AllAccepted;
  }

  lemma FoundIffReady(q: Q.Queue, ack: bool, mixed: nat, now: int)
    requires Inv(q)
    ensures Q.MemoryDequeue(q.ready, ack, mixed, now).0.Some? <==> Ready(q.ready, now)
  {
    hide Consistent, AllAccepted, RR.Dequeue, WQ.Dequeue, RR.Reachable, Q.DelayedDequeue, RR.WellFormed, WQ.WellFormed;
    match q.ready
    case DelayedMemory(items) => DelayedReady(items, now);
    case RoundRobinMemory(s) => RRP.DequeueIffHasReady(s, ack);
    case WeightedMemory(s) =>
      NoEmptyName(q);
      WQP.PeekReadyIffDequeue(s, ack, mixed);
  }

  lemma DeliversWhatIsFound(q: Q.Queue, ack: bool, mixed: nat, now: int)
    requires Inv(q) && Q.MemoryOk(q.ready)
    ensures Q.MemoryDequeue(q.ready, ack, mixed, now).0.Some? <==> Q.Dequeue(q, ack, mixed, now).1.Ok?
  {
    hide Q.MemoryOk, Q.MemoryDequeue, Consistent, AllAccepted, Q.Items, MF.SameKind, Q.Delivered;
    MF.DequeueFacts(q.ready, ack, mixed, now);
    var x := Q.MemoryDequeue(q.ready, ack, mixed, now).0;
    if x.Some? {
      ReadyIsStored(ViewOf(q), x.value.id);
    }
  }

  // ---------- Which commands make a queue ready ----------

  /** `redeliverOrDrop` is reached, and drops the message. */
  ghost predicate Drops(q: Q.Queue, cmd: Command)
    requires Q.MemoryOk(q.ready)
  {
    (cmd.Nack? || cmd.AckTimeout?) && cmd.id in q.ack && cmd.id in q.msgs && Exhausted(q, q.msgs[cmd.id])
  }

  /** The command calls `notify`. */
  ghost predicate Announces(q: Q.Queue, cmd: Command)
    requires Q.MemoryOk(q.ready)
  {
    match cmd
    case Enqueue(_, id, group, _, _, _) => Q.MemoryGet(q.ready, if Q.IsFair(q) then group else "default", id).None?
    case Nack(_, id, _, _) => id in q.ack && id in q.msgs && !Q.RedeliverOrDrop(q, id, cmd.priority).1
    case AckTimeout(_, id) => id in q.ack && id in q.msgs && !Q.RedeliverOrDrop(q, id, 0).1
    case _ => false
  }

  lemma FewerAreNotReady(items: map<nat, Item>, id: nat, now: int)
    ensures Ready(Q.DelayedMemory(items - {id}), now) ==> Ready(Q.DelayedMemory(items), now)
  {
  }

  /** The order within a group does not matter for readiness. */
  lemma PriorityKeepsReady(m: Q.Memory, group: string, id: nat, priority: int, now: int)
    requires !m.DelayedMemory?
    ensures Ready(Q.MemoryUpdatePriority(m, group, id, priority), now) <==> Ready(m, now)
  {
    if m.RoundRobinMemory? {
      var s, s' := m.rr, RR.UpdatePriority(m.rr, group, id, priority);
      forall l: Path ensures RR.Reachable(s, [], l) <==> RR.Reachable(s', [], l) {
        SameLeaves(s, s', l);
      }
    }
  }

  lemma SameLeaves(s: RR.State, s': RR.State, l: Path)
    requires s'.nodes == s.nodes && s'.unacked == s.unacked && s'.limit == s.limit && s'.items.Keys == s.items.Keys
    requires forall id :: id in s.items ==> s'.items[id].group == s.items[id].group
    ensures RR.Reachable(s, [], l) <==> RR.Reachable(s', [], l)
  {
    hide RR.UnderLimit;
    assert forall id :: id in RR.ItemsAt(s.items, l) <==> id in RR.ItemsAt(s'.items, l);
    assert forall q :: RR.UnderLimit(s, q) <==> RR.UnderLimit(s', q) by { SameSlots(s, s'); }
  }

  lemma SameSlots(s: RR.State, s': RR.State)
    requires s'.unacked == s.unacked && s'.limit == s.limit
    ensures forall q :: RR.UnderLimit(s, q) <==> RR.UnderLimit(s', q)
  {
  }

  /** The kinds of commands that can make a queue ready without a word. */
  ghost predicate Silent(q: Q.Queue, cmd: Command)
    requires Q.MemoryOk(q.ready)
  {
    if q.ready.DelayedMemory? then cmd.UpdatePriority? else cmd.Ack? || cmd.Delete? || Drops(q, cmd)
  }

  lemma DeleteGains(q: Q.Queue, id: nat, now: int)
    requires Q.MemoryOk(q.ready) && q.ready.DelayedMemory? && !Q.IsFair(q)
    ensures Ready(Q.Delete(q, id).0.ready, now) ==> Ready(q.ready, now)
  {
    FewerAreNotReady(q.ready.delayed, id, now);
  }

  lemma FailureGains(q: Q.Queue, id: nat, priority: int, now: int)
    requires Q.MemoryOk(q.ready) && id in q.msgs && Q.RedeliverOrDrop(q, id, priority).1
    requires q.ready.DelayedMemory? ==> !Q.IsFair(q)
    ensures Exhausted(q, q.msgs[id])
    ensures q.ready.DelayedMemory? && Ready(Q.RedeliverOrDrop(q, id, priority).0.ready, now) ==> Ready(q.ready, now)
  {
    hide Ready, Q.Delete, Q.MemoryOk, Q.MemoryEnqueue;
    if q.ready.DelayedMemory? { DeleteGains(q, id, now); }
  }

  lemma KindOf(q: Q.Queue)
    requires Inv(q)
    ensures q.ready.DelayedMemory? <==> !Q.IsFair(q)
  {
    hide Q.MemoryOk, Consistent, AllAccepted;
  }

  /** A command that makes a queue ready is announced, or is of one of these kinds. */
  lemma CommandGains(q: Q.Queue, e: Entry)
    requires Inv(q) && Enabled(q, e)
    ensures Q.MemoryOk(q.ready)
    ensures !Ready(q.ready, e.now) && Ready(OnQueue(q, e).0.ready, e.now) ==> Announces(q, e.cmd) || Silent(q, e.cmd)
  {
    hide Inv, Ready, Q.MemoryOk, Q.Dequeue, Q.Delete, Q.RedeliverOrDrop, Q.MemoryGet, Q.MemoryEnqueue, Q.MemoryRelease,
      Q.MemoryUpdatePriority, Mixing.Mix64, MF.Accepts, Q.Items, Exhausted;
    InvGivesOk(q);
    KindOf(q);
    match e.cmd
    case Enqueue(_, id, group, _, _, _) =>
      NotStoredIsNotReady(q, id);
      MF.GetFacts(q.ready, if Q.IsFair(q) then group else "default", id);
    case Dequeue(_, ack) => DequeueIffReady(q, ack, Mixing.Mix64(e.index), e.now);
    case Delete(_, id) => if !Q.IsFair(q) { DeleteGains(q, id, e.now); }
    case Nack(_, id, priority, _) =>
      if id in q.ack && id in q.msgs && Q.RedeliverOrDrop(q, id, priority).1 { FailureGains(q, id, priority, e.now); }
    case AckTimeout(_, id) =>
      AckedIsStored(q, id);
      if id in q.ack && Q.RedeliverOrDrop(q, id, 0).1 { FailureGains(q, id, 0, e.now); }
    case UpdatePriority(_, id, priority) =>
      if Q.IsFair(q) && id in q.msgs { PriorityKeepsReady(q.ready, q.msgs[id].group, id, priority, e.now); }
    case _ =>
  }

  lemma NotStoredIsNotReady(q: Q.Queue, id: nat)
    requires Inv(q) && id !in q.msgs
    ensures id !in Q.Items(q.ready)
  {
    hide Q.MemoryOk, Q.Items, AllAccepted, Slots;
  }

  lemma AckedIsStored(q: Q.Queue, id: nat)
    requires Inv(q)
    ensures id in q.ack ==> id in q.msgs
  {
    hide Q.MemoryOk, Q.Items, AllAccepted, Slots;
  }
}
