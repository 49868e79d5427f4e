/**
 * Every command on a queue's messages does one of seven things to at most one message. Properties of
 * whole runs follow from these changes alone.
 */
module Changes {
  import opened Types
  import opened Fsm
  import opened Mixing
  import opened QueueInvariant
  import opened QueueSteps
  import Q = QueueSpec
  import MF = MemoryFacts

  datatype Change =
    | NoChange
    | Arrival(id: nat, msg: Message)
    | Handout(id: nat, msg: Message, ack: bool, deadline: int)
    | Exit(id: nat)
    | Comeback(id: nat, msg: Message)
    | Postponement(id: nat, msg: Message, deadline: int)
    | Reprioritized(id: nat, msg: Message)

  ghost predicate Possible(v: View, c: Change) {
    match c
    case NoChange => true
    case Arrival(id, _) => id !in v.msgs
    case Handout(id, m, _, _) => id in v.ready && id in v.msgs && m == Q.Delivered(v.msgs[id])
    case Exit(id) => id in v.msgs
    case Comeback(id, m) => id in v.ack && id in v.msgs && SameButPriority(m, v.msgs[id])
    case Postponement(id, m, _) => id in v.ack && id in v.msgs && SameButPriority(m, v.msgs[id])
    case Reprioritized(id, m) => id in v.ready && id in v.msgs && SameButPriority(m, v.msgs[id])
  }

  /** Same group and delivery count. */
  predicate SameButPriority(a: Message, b: Message) {
    a.group == b.group && a.deliveryCount == b.deliveryCount
  }

  ghost function After(v: View, c: Change): View
    requires Possible(v, c)
  {
    match c
    case NoChange => v
    case Arrival(id, m) => v.(msgs := v.msgs[id := m], ready := v.ready[id := ReadyItem(id, m)])
    case Handout(id, m, ack, deadline) => Delivery(v, id, m, ack, deadline)
    case Exit(id) => Departure(v, id)
    case Comeback(id, m) => Return(v, id, m)
    case Postponement(id, m, deadline) => NewDeadline(v, id, m, deadline)
    case Reprioritized(id, m) => v.(msgs := v.msgs[id := m], ready := v.ready[id := ReadyItem(id, m)])
  }

  ghost predicate Enabled(q: Q.Queue, e: Entry) {
    && OnMessages(e.cmd)
    && (e.cmd.Enqueue? ==> e.cmd.id !in q.msgs && (Q.IsFair(q) ==> MF.Accepts(q.ready, e.cmd.group)))
  }

  /** What a command does to the queue's messages. */
  ghost function ChangeOf(q: Q.Queue, e: Entry): Change
    requires Inv(q) && Enabled(q, e)
  {
    match e.cmd
    case Enqueue(_, id, group, priority, content, metadata) =>
      Arrival(id, Message(if Q.IsFair(q) then group else "default", priority, content, metadata, 0))
    case Dequeue(_, ack) =>
      (match Q.Dequeue(q, ack, Mix64(e.index), e.now).1
       case Err(_) => NoChange
       case Ok((id, m)) => Handout(id, m, ack, e.now + q.config.settings.ackTimeout))
    case Get(_, _) => NoChange
    case Delete(_, id) => if id in q.msgs then Exit(id) else NoChange
    case Ack(_, id) => if id in q.ack then Exit(id) else NoChange
    case Nack(_, id, priority, metadata) => Failure(q, id, priority, metadata)
    case AckTimeout(_, id) => Failure(q, id, 0, map[])
    case Touch(_, id) =>
      if id in q.ack && id in q.msgs then Postponement(id, q.msgs[id], e.now + q.config.settings.ackTimeout) else NoChange
    case UpdatePriority(_, id, priority) =>
      if id !in q.msgs then NoChange
      else if id in q.ack then Postponement(id, q.msgs[id].(priority := priority), priority)
      else Reprioritized(id, q.msgs[id].(priority := priority))
  }

  /** A failed delivery: back to the ready queue, or dropped once the delivery limit is used up. */
  ghost function Failure(q: Q.Queue, id: nat, priority: int, metadata: map<string, string>): Change {
    if id !in q.ack || id !in q.msgs then NoChange
    else if Exhausted(q, q.msgs[id]) then Exit(id)
    else Comeback(id, Q.UpdatedMessage(q.msgs[id], priority, metadata))
  }

  /** Whether the command reports success, and which message it returns. */
  ghost predicate Reports(q: Q.Queue, e: Entry, r: Response)
    requires Inv(q) && Enabled(q, e)
  {
    var c := ChangeOf(q, e);
    match e.cmd
    case Enqueue(_, id, _, _, _, _) => r == Answered(id, c.msg)
    case Dequeue(_, _) => r == if c.Handout? then Answered(c.id, c.msg) else Failed(EmptyQueue)
    case Get(_, id) => r == if id in q.msgs then Answered(id, q.msgs[id]) else Failed(MessageNotFound)
    case _ => r == if c.NoChange? then Failed(MessageNotFound) else Done
  }

  /** The queue after a command is the queue after its change, and the response tells which. */
  lemma CommandIsChange(q: Q.Queue, e: Entry)
    requires Inv(q) && Enabled(q, e)
    ensures Possible(ViewOf(q), ChangeOf(q, e)) && Moves(q, OnQueue(q, e).0, After(ViewOf(q), ChangeOf(q, e)))
    ensures Reports(q, e, OnQueue(q, e).1)
  {
    hide Moves, Mix64, Delivery, Departure, Return, NewDeadline, Q.Dequeue, Q.Enqueue, Q.Delete, Q.Ack, Q.Nack, Q.Touch,
      Q.AckTimeout, Q.UpdatePriority, Q.Items, Q.Unacked, MF.Accepts, Q.MemoryOk, MF.SameKind, AllAccepted, Slots;
    Stays(q);
    match e.cmd
    case Enqueue(_, id, group, priority, content, metadata) => EnqueueStep(q, id, group, priority, content, metadata);
      EnqueueStores(q, id, group, priority, content, metadata);
    case Dequeue(_, ack) => DequeueStep(q, ack, Mix64(e.index), e.now);
    case Get(_, id) =>
    case Delete(_, id) => DeleteStep(q, id);
    case Ack(_, id) => AckStep(q, id);
    case Nack(_, id, priority, metadata) => NackStep(q, id, priority, metadata);
    case Touch(_, id) => TouchStep(q, id, e.now);
    case AckTimeout(_, id) =>
      AckTimeoutStep(q, id);
      if id in q.msgs { assert Q.UpdatedMessage(q.msgs[id], 0, map[]) == q.msgs[id]; }
    case UpdatePriority(_, id, priority) => UpdatePriorityStep(q, id, priority);
  }

  lemma EnqueueStores(q: Q.Queue, id: nat, group: string, priority: int, content: string, metadata: map<string, string>)
    ensures var q' := Q.Enqueue(q, id, group, priority, content, metadata);
      id in q'.msgs && q'.msgs[id] == Message(if Q.IsFair(q) then group else "default", priority, content, metadata, 0)
  {
  }

  lemma Stays(q: Q.Queue)
    requires Inv(q)
    ensures Moves(q, q, ViewOf(q))
  {
  }

  /** Where a change leaves one message. */
  lemma ChangeMovesMessage(v: View, c: Change, id: nat)
    requires Partition(v) && Possible(v, c)
    ensures var v' := After(v, c); var own := !c.NoChange? && c.id == id;
      && (id in v'.ready <==> if own then c.Arrival? || c.Comeback? || c.Reprioritized? else id in v.ready)
      && (id in v'.ack <==> if own then c.Postponement? || (c.Handout? && !c.ack) else id in v.ack)
      && (id in v'.msgs <==> if own then !c.Exit? && !(c.Handout? && c.ack) else id in v.msgs)
  {
    hide Q.Delivered, Slot;
    assert id in v.msgs <==> id in v.ready || id in v.ack;
  }
}
