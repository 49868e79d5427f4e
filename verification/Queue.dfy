/**
 * One queue: its share of the store, the ready queue and the ack queue. Each method takes it from one
 * state of the specification to the next and leaves the messages of other queues alone.
 */
module Queue {
  import opened Types
  import opened Mixing
  import D = DelayedQueue
  import F = Fsm
  import MF = MemoryFacts
  import MQ = MemoryQueue
  import Q = QueueSpec
  import QI = QueueInvariant
  import QS = QueueSteps
  import Sch = Scheduling
  import Sn = Snapshot
  import St = Store

  class Queue {
    const name: string
    const store: St.BadgerStore
    const queue: MQ.MemoryQueue
    const ackQueue: D.DelayedQueue
    var config: Config

    ghost var Repr: set<object>

    /** What is in memory is in order, and separate from the store. */
    ghost predicate Intact()
      reads this, Repr
      ensures Intact() ==> this in Repr && store !in Repr
    {
      && this in Repr && ackQueue.queue in Repr && MQ.Head(queue) in Repr && MQ.Repr(queue) <= Repr
      && store !in Repr && this !in MQ.Repr(queue) && ackQueue.queue !in MQ.Repr(queue)
      && MQ.Valid(queue) && ackQueue.Valid()
    }

    ghost function InMemory(): F.Loaded
      requires Intact()
      reads this, Repr
    {
      F.Loaded(config, MQ.StateOf(queue), ackQueue.Contents())
    }

    ghost predicate Valid()
      reads this, Repr, store
      ensures Valid() ==> this in Repr && store !in Repr && store.Valid()
    {
      Intact() && store.Valid()
    }

    ghost function Abs(): Q.Queue
      requires Valid()
      reads this, Repr, store
    {
      var m := InMemory();
      Q.Queue(m.config, store.Under(name), m.ready, m.ack)
    }

    /** What holds in every state that a run reaches. */
    ghost predicate Good()
      reads this, Repr, store
    {
      Valid() && QI.Inv(Abs())
    }

    constructor (
      store: St.BadgerStore, name: string, config: Config, queue: MQ.MemoryQueue, ackQueue: D.DelayedQueue,
      ghost objects: set<object>)
      requires store.Valid() && MQ.Valid(queue) && ackQueue.Valid() && objects == MQ.Repr(queue)
      requires ackQueue.queue !in objects && store !in objects
      ensures Repr == {this, ackQueue.queue} + objects && this.store == store && this.name == name
      ensures Valid()
      ensures Abs() == Q.Queue(config, store.Under(name), old(MQ.StateOf(queue)), old(ackQueue.Contents()))
    {
      hide MQ.Valid, MQ.StateOf, MQ.Repr, D.DelayedQueue.Valid, D.DelayedQueue.Contents, St.BadgerStore.Valid;
      this.store, this.name, this.config, this.queue, this.ackQueue := store, name, config, queue, ackQueue;
      Repr := {this, ackQueue.queue} + objects;
    }

    /** `newQueue` and `Init`. */
    static method Init(store: St.BadgerStore, name: string, config: Config) returns (q: Queue)
      requires store.Valid()
      ensures q.Valid() && fresh(q.Repr) && q.store == store && q.name == name
      ensures q.Abs() == Q.Queue(config, store.Under(name), Q.NewMemory(config), map[])
    {
      hide MQ.Valid, MQ.StateOf, MQ.Repr, D.DelayedQueue.Valid, D.DelayedQueue.Contents, St.BadgerStore.Valid;
      hide Q.NewMemory;
      var acks := new D.DelayedQueue(false);
      var m := MQ.New(config);
      q := new Queue(store, name, config, m, acks, MQ.Repr(m));
    }

    method Get(id: nat) returns (r: Result<(nat, Message)>)
      requires Valid()
      ensures r == Q.Get(Abs(), id)
    {
      hide MQ.Valid, MQ.StateOf, MQ.Repr, D.DelayedQueue.Valid, D.DelayedQueue.Contents;
      var msg := store.Get(name, id);
      r := if msg.Ok? then Ok((id, msg.value)) else Err(msg.error);
    }

    // ---------- The ready queue and the ack queue ----------

    method PutReady(group: string, item: Item)
      requires Valid() && item.group == group && item.id !in Q.Items(Abs().ready) && MF.Accepts(Abs().ready, group)
      modifies Repr
      ensures Valid() && fresh(Repr - old(Repr))
      ensures Abs() == old(Abs()).(ready := Q.MemoryEnqueue(old(Abs()).ready, group, item.id, item.priority))
    {
      hide MQ.Valid, MQ.StateOf, MQ.Repr, D.DelayedQueue.Valid, D.DelayedQueue.Contents, St.BadgerStore.Valid, QI.Inv;
      MQ.Enqueue(queue, group, item);
      Repr := Repr + MQ.Repr(queue);
    }

    method TakeReady(ack: bool, mixed: nat, now: int) returns (x: Option<Item>)
      requires Valid()
      modifies Repr
      ensures Valid() && fresh(Repr - old(Repr))
      ensures Q.MemoryOk(old(Abs()).ready)
      ensures var (y, m) := Q.MemoryDequeue(old(Abs()).ready, ack, mixed, now);
        x == y && Abs() == old(Abs()).(ready := m)
    {
      hide MQ.Valid, MQ.StateOf, MQ.Repr, D.DelayedQueue.Valid, D.DelayedQueue.Contents, St.BadgerStore.Valid, QI.Inv;
      x := MQ.Dequeue(queue, ack, mixed, now);
      Repr := Repr + MQ.Repr(queue);
    }

    method DropReady(group: string, id: nat)
      requires Valid()
      modifies Repr
      ensures Valid() && fresh(Repr - old(Repr)) && Q.MemoryOk(old(Abs()).ready)
      ensures Abs() == old(Abs()).(ready := Q.MemoryDelete(old(Abs()).ready, group, id))
    {
      hide MQ.Valid, MQ.StateOf, MQ.Repr, D.DelayedQueue.Valid, D.DelayedQueue.Contents, St.BadgerStore.Valid, QI.Inv;
      MQ.Delete(queue, group, id);
      Repr := Repr + MQ.Repr(queue);
    }

    method SetReady(group: string, id: nat, priority: int)
      requires Valid()
      modifies Repr
      ensures Valid() && fresh(Repr - old(Repr))
      ensures Abs() == old(Abs()).(ready := Q.MemoryUpdatePriority(old(Abs()).ready, group, id, priority))
    {
      hide MQ.Valid, MQ.StateOf, MQ.Repr, D.DelayedQueue.Valid, D.DelayedQueue.Contents, St.BadgerStore.Valid, QI.Inv;
      MQ.UpdatePriority(queue, group, id, priority);
      Repr := Repr + MQ.Repr(queue);
    }

    /** Gives back the slot of a message in flight. */
    method Release(group: string)
      requires Valid() && (Q.IsFair(Abs()) ==> group in Q.Unacked(Abs().ready))
      modifies Repr
      ensures Valid() && fresh(Repr - old(Repr))
      ensures Abs() == old(Abs()).(ready := Q.ReleaseIfFair(old(Abs()), old(Abs()).ready, group))
    {
      hide MQ.Valid, MQ.StateOf, MQ.Repr, D.DelayedQueue.Valid, D.DelayedQueue.Contents, St.BadgerStore.Valid, QI.Inv;
      if config.kind == Fair {
        MQ.UpdateWeights(queue, group);
        Repr := Repr + MQ.Repr(queue);
      }
    }

    method Mark(group: string)
      requires Valid()
      modifies Repr
      ensures Valid() && fresh(Repr - old(Repr))
      ensures Abs() == old(Abs()).(ready := Q.MemoryMarkUnacked(old(Abs()).ready, group))
    {
      hide MQ.Valid, MQ.StateOf, MQ.Repr, D.DelayedQueue.Valid, D.DelayedQueue.Contents, St.BadgerStore.Valid, QI.Inv;
      MQ.MarkUnacked(queue, group);
      Repr := Repr + MQ.Repr(queue);
    }

    method PutAck(item: Item)
      requires Valid() && item.id !in Abs().ack
      modifies Repr
      ensures Valid() && Repr == old(Repr) && Abs() == old(Abs()).(ack := old(Abs()).ack[item.id := item])
    {
      hide MQ.Valid, MQ.StateOf, MQ.Repr, D.DelayedQueue.Valid, D.DelayedQueue.Contents, St.BadgerStore.Valid, QI.Inv;
      ackQueue.Enqueue(item);
    }

    method DropAck(id: nat) returns (found: bool)
      requires Valid()
      modifies Repr
      ensures Valid() && Repr == old(Repr) && Abs() == old(Abs()).(ack := old(Abs()).ack - {id})
      ensures found == (id in old(Abs()).ack)
    {
      hide MQ.Valid, MQ.StateOf, MQ.Repr, D.DelayedQueue.Valid, D.DelayedQueue.Contents, St.BadgerStore.Valid, QI.Inv;
      var x := ackQueue.Delete(id);
      found := x.Some?;
    }

    method GetAck(id: nat) returns (x: Option<Item>)
      requires Valid()
      ensures x == if id in Abs().ack then Some(Abs().ack[id]) else None
    {
      hide MQ.Valid, MQ.StateOf, MQ.Repr, D.DelayedQueue.Valid, D.DelayedQueue.Contents, St.BadgerStore.Valid, QI.Inv;
      x := ackQueue.Get(id);
    }

    /** A new deadline. */
    method MoveAck(id: nat, deadline: int)
      requires Valid() && id in Abs().ack
      modifies Repr
      ensures Valid() && Repr == old(Repr)
      ensures Abs() == old(Abs()).(ack := old(Abs()).ack[id := old(Abs()).ack[id].(priority := deadline)])
    {
      hide MQ.Valid, MQ.StateOf, MQ.Repr, D.DelayedQueue.Valid, D.DelayedQueue.Contents, St.BadgerStore.Valid, QI.Inv;
      ackQueue.UpdatePriority(id, deadline);
    }

    /** The same written to the item itself, behind the back of the heap. */
    method WriteAck(id: nat, priority: int)
      requires Valid() && id in Abs().ack
      modifies Repr
      ensures Valid() && Repr == old(Repr)
      ensures Abs() == old(Abs()).(ack := old(Abs()).ack[id := old(Abs()).ack[id].(priority := priority)])
    {
      hide MQ.Valid, MQ.StateOf, MQ.Repr, D.DelayedQueue.Valid, D.DelayedQueue.Contents, St.BadgerStore.Valid, QI.Inv;
      ackQueue.SetPriority(id, priority);
    }

    // ---------- The stored messages ----------

    /** The messages of other queues, and all configurations, are as they were. */
    twostate predicate OnlyMine()
      reads this, Repr, store
    {
      Valid() && store.Db() == F.WithMsgs(old(store.Db()), name, Abs().msgs)
    }

    method SaveNew(id: nat, group: string, priority: int, content: string, metadata: map<string, string>)
      returns (msg: Message)
      requires Valid()
      modifies store
      ensures OnlyMine() && msg == Message(group, priority, content, metadata, 0)
      ensures Abs() == old(Abs()).(msgs := old(Abs()).msgs[id := msg])
    {
      hide MQ.Valid, MQ.StateOf, MQ.Repr, D.DelayedQueue.Valid, D.DelayedQueue.Contents, St.BadgerStore.Valid, QI.Inv;
      hide F.WithMsgs, F.MsgsOf;
      msg := store.Enqueue(name, id, group, priority, content, metadata);
    }

    method SaveDelivery(id: nat, ack: bool) returns (r: Result<Message>)
      requires Valid()
      modifies store
      ensures Valid()
      ensures id !in old(Abs()).msgs ==> r == Err(MessageNotFound) && Abs() == old(Abs()) && store.Db() == old(store.Db())
      ensures id in old(Abs()).msgs ==>
        && r == Ok(Q.Delivered(old(Abs()).msgs[id])) && OnlyMine()
        && Abs() == old(Abs()).(msgs := if ack then old(Abs()).msgs - {id} else old(Abs()).msgs[id := r.value])
    {
      hide MQ.Valid, MQ.StateOf, MQ.Repr, D.DelayedQueue.Valid, D.DelayedQueue.Contents, St.BadgerStore.Valid, QI.Inv;
      hide F.WithMsgs, F.MsgsOf;
      r := store.Dequeue(name, id, ack);
    }

    method Erase(id: nat) returns (r: Result<Message>)
      requires Valid()
      modifies store
      ensures Valid()
      ensures id !in old(Abs()).msgs ==> r == Err(MessageNotFound) && Abs() == old(Abs()) && store.Db() == old(store.Db())
      ensures id in old(Abs()).msgs ==>
        && r == Ok(old(Abs()).msgs[id]) && OnlyMine() && Abs() == old(Abs()).(msgs := old(Abs()).msgs - {id})
    {
      hide MQ.Valid, MQ.StateOf, MQ.Repr, D.DelayedQueue.Valid, D.DelayedQueue.Contents, St.BadgerStore.Valid, QI.Inv;
      hide F.WithMsgs, F.MsgsOf;
      r := store.Delete(name, id);
    }

    method EraseAcked(id: nat)
      requires Valid()
      modifies store
      ensures OnlyMine() && Abs() == old(Abs()).(msgs := old(Abs()).msgs - {id})
    {
      hide MQ.Valid, MQ.StateOf, MQ.Repr, D.DelayedQueue.Valid, D.DelayedQueue.Contents, St.BadgerStore.Valid, QI.Inv;
      hide F.WithMsgs, F.MsgsOf;
      store.Ack(name, id);
    }

    method SavePriority(id: nat, priority: int) returns (r: Result<()>)
      requires Valid() && id in Abs().msgs
      modifies store
      ensures OnlyMine() && r == Ok(())
      ensures Abs() == old(Abs()).(msgs := old(Abs()).msgs[id := old(Abs()).msgs[id].(priority := priority)])
    {
      hide MQ.Valid, MQ.StateOf, MQ.Repr, D.DelayedQueue.Valid, D.DelayedQueue.Contents, St.BadgerStore.Valid, QI.Inv;
      hide F.WithMsgs, F.MsgsOf;
      r := store.UpdatePriority(name, id, priority);
    }

    method SaveUpdate(id: nat, priority: int, metadata: map<string, string>) returns (r: Result<()>)
      requires Valid() && id in Abs().msgs
      modifies store
      ensures OnlyMine() && r == Ok(())
      ensures Abs() == old(Abs()).(msgs := old(Abs()).msgs[id :=
        Q.UpdatedMessage(old(Abs()).msgs[id], priority, metadata)])
    {
      hide MQ.Valid, MQ.StateOf, MQ.Repr, D.DelayedQueue.Valid, D.DelayedQueue.Contents, St.BadgerStore.Valid, QI.Inv;
      hide F.WithMsgs, F.MsgsOf;
      r := store.UpdateMessage(name, id, priority, metadata);
    }

    method SaveRestored(id: nat, msg: Message)
      requires Valid()
      modifies store
      ensures OnlyMine() && Abs() == old(Abs()).(msgs := old(Abs()).msgs[id := msg])
    {
      hide MQ.Valid, MQ.StateOf, MQ.Repr, D.DelayedQueue.Valid, D.DelayedQueue.Contents, St.BadgerStore.Valid, QI.Inv;
      hide F.WithMsgs, F.MsgsOf;
      store.RestoreMessage(name, id, msg);
    }

    // ---------- The interface ----------

    method GetReady(group: string, id: nat) returns (x: Option<Item>)
      requires Valid()
      ensures x == Q.MemoryGet(Abs().ready, group, id)
    {
      hide MQ.Valid, MQ.StateOf, MQ.Repr, D.DelayedQueue.Valid, D.DelayedQueue.Contents, St.BadgerStore.Valid, QI.Inv;
      x := MQ.Get(queue, group, id);
    }

    method Len() returns (n: nat)
      requires Valid()
      ensures n == |Q.Items(Abs().ready)|
    {
      hide MQ.Valid, MQ.StateOf, MQ.Repr, D.DelayedQueue.Valid, D.DelayedQueue.Contents, St.BadgerStore.Valid, QI.Inv;
      n := MQ.Len(queue);
    }

    lemma Unwritten()
      requires Valid()
      ensures Q.MemoryOk(Abs().ready) && store.Db() == F.WithMsgs(store.Db(), name, Abs().msgs)
    {
      hide MQ.Valid, MQ.Repr, D.DelayedQueue.Valid, D.DelayedQueue.Contents;
      St.WrittenBack(store.Db(), name);
    }

    method Enqueue(id: nat, group: string, priority: int, content: string, metadata: map<string, string>)
      returns (msg: Message)
      requires Valid() && MF.Enqueueable(Abs(), id, group)
      modifies Repr, store
      ensures fresh(Repr - old(Repr)) && OnlyMine()
      ensures Abs() == Q.Enqueue(old(Abs()), id, group, priority, content, metadata) && msg == Abs().msgs[id]
      ensures old(Good()) && id !in old(Abs()).msgs ==> Good()
    {
      hide Queue.Valid, Queue.Abs, QI.Inv, F.WithMsgs, F.MsgsOf, Q.MemoryOk, MF.Accepts, St.Normal;
      ghost var q := Abs();
      Unwritten();
      var g := if config.kind != Fair then "default" else group;
      ConfigOf();
      msg := SaveNew(id, g, priority, content, metadata);
      var item := GetReady(g, id);
      GetIsLookup(q.ready, g, id);
      if item == None {
        PutReady(msg.group, Item(id, priority, g));
      }
      if old(Good()) && id !in q.msgs {
        EnqueueGood(q, id, group, priority, content, metadata);
      }
    }

    /** One command of the log. */
    method Run(e: F.Entry) returns (r: F.Response)
      requires Valid() && Sound(Abs()) && F.OnMessages(e.cmd)
      requires e.cmd.Enqueue? ==> MF.Enqueueable(Abs(), e.cmd.id, e.cmd.group)
      modifies Repr, store
      ensures fresh(Repr - old(Repr)) && OnlyMine()
      ensures Q.MemoryOk(old(Abs()).ready) && (Abs(), r) == F.OnQueue(old(Abs()), e)
    {
      hide Queue.Valid, Queue.Abs, QI.Inv, Sound, Q.MemoryOk, Q.Items, Q.Unacked, MF.Accepts, St.Normal;
      hide Q.Enqueue, Q.Dequeue, Q.Delete, Q.Ack, Q.Nack, Q.Touch, Q.AckTimeout, Q.UpdatePriority, F.WithMsgs;
      hide F.MsgsOf, Mix64;
      Unwritten();
      match e.cmd
      case Enqueue(_, id, group, priority, content, metadata) =>
        var msg := Enqueue(id, group, priority, content, metadata);
        r := F.Answered(id, msg);
      case Dequeue(_, ack) =>
        var x := Dequeue(ack, Mix64(e.index), e.now);
        r := F.Answer(x);
      case Get(_, id) =>
        var x := Get(id);
        r := F.Answer(x);
      case Delete(_, id) =>
        var x := Delete(id);
        r := F.Outcome(x);
      case Ack(_, id) =>
        var x := Ack(id);
        r := F.Outcome(x);
      case Nack(_, id, priority, metadata) =>
        var x := Nack(id, priority, metadata);
        r := F.Outcome(x);
      case Touch(_, id) =>
        var x := Touch(id, e.now);
        r := F.Outcome(x);
      case AckTimeout(_, id) =>
        var x := AckTimeout(id);
        r := F.Outcome(x);
      case UpdatePriority(_, id, priority) =>
        var x := UpdatePriority(id, priority);
        r := F.Outcome(x);
    }

    /** New settings, which the strategy must not be part of. */
    method UpdateQueue(default: uint32, settings: Settings) returns (r: Result<()>)
      requires Valid()
      modifies Repr, store
      ensures Valid() && fresh(Repr - old(Repr))
      ensures
        if old(config).settings.strategy != settings.strategy then
          r == Err(InvalidQueueSettings) && store.Db() == old(store.Db()) && InMemory() == old(InMemory())
        else match F.WithTimeout(default, settings)
          case Err(e) => r == Err(e) && store.Db() == old(store.Db()) && InMemory() == old(InMemory())
          case Ok(settings) =>
            var config := old(config).(settings := settings);
            && r == Ok(())
            && store.Db() == old(store.Db()).(configs := old(store.Db()).configs[name := config])
            && InMemory() == F.Loaded(
                 config, Q.MemoryUpdateMaxUnacked(old(InMemory()).ready, settings.maxUnacked), old(InMemory()).ack)
    {
      hide MQ.Valid, MQ.StateOf, MQ.Repr, D.DelayedQueue.Valid, D.DelayedQueue.Contents, St.BadgerStore.Valid, QI.Inv;
      if config.settings.strategy != settings.strategy {
        return Err(InvalidQueueSettings);
      }
      var timed := F.WithTimeout(default, settings);
      if timed.Err? {
        return Err(timed.error);
      }
      config := config.(settings := timed.value);
      store.SetQueue(name, config);
      MQ.UpdateMaxUnacked(queue, config.settings.maxUnacked);
      Repr := Repr + MQ.Repr(queue);
      r := Ok(());
    }

    // ---------- Snapshots ----------

    method EnqueueRestored(id: nat, message: Message)
      requires Valid() && MF.Enqueueable(Abs(), id, message.group)
      modifies Repr, store
      ensures fresh(Repr - old(Repr)) && OnlyMine() && Abs() == Q.EnqueueRestored(old(Abs()), id, message)
    {
      hide Queue.Valid, Queue.Abs, QI.Inv, F.WithMsgs, F.MsgsOf, Q.MemoryOk, MF.Accepts, St.Normal;
      ghost var q := Abs();
      ConfigOf();
      var msg := if config.kind != Fair then message.(group := "default") else message;
      SaveRestored(id, msg);
      var item := GetReady(msg.group, id);
      GetIsLookup(q.ready, msg.group, id);
      if item == None {
        PutReady(msg.group, Item(id, msg.priority, msg.group));
      }
    }

    method RestoreUnacked(id: nat, message: Message, deadline: int)
      requires Valid()
      modifies Repr, store
      ensures fresh(Repr - old(Repr)) && OnlyMine()
      ensures Q.MemoryOk(old(Abs()).ready) && Abs() == Q.RestoreUnacked(old(Abs()), id, message, deadline)
    {
      hide Queue.Valid, Queue.Abs, QI.Inv, F.WithMsgs, F.MsgsOf, Q.MemoryOk, MF.Accepts, St.Normal, Q.MemoryGet;
      hide Q.MemoryDelete;
      hide Q.MemoryMarkUnacked;
      Unwritten();
      ConfigOf();
      var msg := if config.kind != Fair then message.(group := "default") else message;
      SaveRestored(id, msg);
      var acked := GetAck(id);
      if acked.Some? {
        MoveAck(id, deadline);
        return;
      }
      var item := GetReady(msg.group, id);
      if item.Some? {
        DropReady(msg.group, id);
      }
      PutAck(Item(id, deadline, msg.group));
      Mark(msg.group);
    }

    method RestoreRoundRobinState(sched: seq<Sch.SchedulingNode>)
      requires Valid()
      modifies Repr
      ensures Valid() && fresh(Repr - old(Repr))
      ensures Abs() == old(Abs()).(ready := Sn.RestoreSchedule(old(Abs()).ready, sched))
    {
      hide MQ.Valid, MQ.StateOf, MQ.Repr, D.DelayedQueue.Valid, D.DelayedQueue.Contents, St.BadgerStore.Valid, QI.Inv;
      hide Sn.RestoreSchedule;
      MQ.RestoreSchedulingState(queue, sched);
      Repr := Repr + MQ.Repr(queue);
    }

    /** The markers of the messages in flight, by id. */
    method UnackedSnapshot() returns (ids: seq<nat>, items: seq<Sn.SnapshotItem>)
      requires Valid()
      ensures Sn.Lists(ids, Abs().ack.Keys) && items == Sn.UnackedItems(Abs().ack, ids)
      ensures forall i, j :: 0 <= i < j < |ids| ==> ids[i] < ids[j]
    {
      hide MQ.Valid, MQ.StateOf, MQ.Repr, D.DelayedQueue.Valid, D.DelayedQueue.Contents, St.BadgerStore.Valid, F.MsgsOf;
      ids := Sorted(ackQueue.Ids());
      items := [];
      for i := 0 to |ids|
        invariant |items| == i
        invariant forall k :: 0 <= k < i ==> items[k] == Sn.UnackedItem(ids[k], Abs().ack[ids[k]].priority)
      {
        items := items + [Sn.UnackedItem(ids[i], ackQueue.ItemOf(ids[i]).priority)];
      }
    }

    /** The stored messages, in the order of their keys. */
    method MessageSnapshot() returns (ids: seq<nat>, items: seq<Sn.SnapshotItem>)
      requires Valid()
      ensures Sn.Lists(ids, Abs().msgs.Keys) && items == Sn.MessageItems(Abs().msgs, ids)
      ensures forall i, j :: 0 <= i < j < |ids| ==> ids[i] < ids[j]
    {
      hide MQ.Valid, MQ.StateOf, MQ.Repr, D.DelayedQueue.Valid, D.DelayedQueue.Contents, St.BadgerStore.Valid, F.MsgsOf;
      var msgs := store.Under(name);
      ids := Sorted(msgs.Keys);
      items := [];
      for i := 0 to |ids|
        invariant |items| == i
        invariant forall k :: 0 <= k < i ==> items[k] == Sn.MessageItem(ids[k], msgs[ids[k]])
      {
        items := items + [Sn.MessageItem(ids[i], msgs[ids[i]])];
      }
    }

    /** The queue's part of a snapshot. */
    method PersistSnapshot() returns (items: seq<Sn.SnapshotItem>)
      requires Valid()
      ensures Sn.IsBlock(name, Abs(), items)
    {
      hide Queue.Valid, Sn.Lists, Sn.UnackedItems, Sn.MessageItems, Sch.Captures, F.MsgsOf;
      ConfigOf();
      ghost var unackedIds, ids;
      var unacked, messages;
      unackedIds, unacked := UnackedSnapshot();
      ids, messages := MessageSnapshot();
      var sched := Schedule();
      var tail := if sched.Some? then [Sn.SchedulingItem(sched.value)] else [];
      assert Sn.IsSchedule(Abs().ready, tail);
      items := [Sn.QueueItem(name, config)] + unacked + messages + tail;
    }

    method Schedule() returns (sched: Option<seq<Sch.SchedulingNode>>)
      requires Valid()
      ensures sched.Some? <==> Abs().ready.RoundRobinMemory?
      ensures sched.Some? ==> Sch.Captures(Abs().ready.rr.nodes, sched.value)
    {
      hide MQ.Valid, MQ.StateOf, MQ.Repr, D.DelayedQueue.Valid, D.DelayedQueue.Contents, St.BadgerStore.Valid, QI.Inv;
      hide Sch.Captures;
      sched := MQ.SchedulingState(queue);
    }

    lemma ConfigOf()
      requires Valid()
      ensures Abs().config == config
    {
    }

    method Dequeue(ack: bool, mixed: nat, now: int) returns (r: Result<(nat, Message)>)
      requires Valid() && Sound(Abs())
      modifies Repr, store
      ensures fresh(Repr - old(Repr)) && OnlyMine()
      ensures Q.MemoryOk(old(Abs()).ready) && (Abs(), r) == Q.Dequeue(old(Abs()), ack, mixed, now)
      ensures old(Good()) ==> Good()
    {
      hide Queue.Valid, Queue.Abs, QI.Inv, F.WithMsgs, F.MsgsOf, Q.MemoryOk, Q.Items, Q.MemoryDequeue, MF.Accepts;
      hide St.Normal;
      ghost var q := Abs();
      Unwritten();
      ConfigOf();
      DequeueGood(q, ack, mixed, now);
      EmptyItems(q.ready);
      TakenFacts(q, ack, mixed, now);
      var n := Len();
      if n == 0 {
        return Err(EmptyQueue);
      }
      var item := TakeReady(ack, mixed, now);
      if item == None {
        return Err(EmptyQueue);
      }
      var id := item.value.id;
      var msg := SaveDelivery(id, ack);
      if msg.Err? {
        return Err(msg.error);
      }
      ConfigOf();
      if !ack {
        PutAck(Item(id, now + config.settings.ackTimeout, msg.value.group));
      }
      r := Ok((id, msg.value));
    }

    method Ack(id: nat) returns (r: Result<()>)
      requires Valid() && Sound(Abs())
      modifies Repr, store
      ensures fresh(Repr - old(Repr)) && OnlyMine() && (Abs(), r) == Q.Ack(old(Abs()), id)
      ensures old(Good()) ==> Good()
    {
      hide Queue.Valid, Queue.Abs, QI.Inv, F.WithMsgs, F.MsgsOf, Q.MemoryOk, Q.Items, Q.Unacked, MF.Accepts, St.Normal;
      ghost var q := Abs();
      Unwritten();
      ConfigOf();
      AckGood(q, id);
      var item := GetAck(id);
      if item == None {
        return Err(MessageNotFound);
      }
      if config.kind == Fair {
        var msg := Get(id);
        if msg.Err? {
          return Err(msg.error);
        }
        Release(msg.value.1.group);
      }
      EraseAcked(id);
      var _ := DropAck(id);
      r := Ok(());
    }

    method Delete(id: nat) returns (r: Result<()>)
      requires Valid() && Sound(Abs())
      modifies Repr, store
      ensures fresh(Repr - old(Repr)) && OnlyMine()
      ensures Q.MemoryOk(old(Abs()).ready) && (Abs(), r) == Q.Delete(old(Abs()), id)
      ensures old(Good()) ==> Good()
    {
      hide Queue.Valid, Queue.Abs, QI.Inv, F.WithMsgs, F.MsgsOf, Q.MemoryOk, Q.Items, Q.Unacked, MF.Accepts;
      hide St.Normal, Q.MemoryDelete;
      ghost var q := Abs();
      Unwritten();
      ConfigOf();
      DeleteGood(q, id);
      var msg := Erase(id);
      if msg.Err? {
        return Err(msg.error);
      }
      var group := msg.value.group;
      SlotAfterDelete(q, id);
      DropReady(group, id);
      var found := DropAck(id);
      if found {
        Release(group);
      }
      r := Ok(());
    }

    /** Puts the message back on the ready queue, or removes it once its deliveries are used up. */
    method RedeliverOrDrop(id: nat, msg: Message, newPriority: int) returns (dropped: bool)
      requires Valid() && Sound(Abs()) && id in Abs().ack && id in Abs().msgs && msg == Abs().msgs[id]
      modifies Repr, store
      ensures fresh(Repr - old(Repr)) && OnlyMine()
      ensures Q.MemoryOk(old(Abs()).ready) && (Abs(), dropped) == Q.RedeliverOrDrop(old(Abs()), id, newPriority)
    {
      hide Queue.Valid, Queue.Abs, QI.Inv, F.WithMsgs, F.MsgsOf, Q.MemoryOk, Q.Items, Q.Unacked, MF.Accepts;
      hide St.Normal, Q.MemoryDelete;
      hide Q.MemoryEnqueue;
      ghost var q := Abs();
      Unwritten();
      ConfigOf();
      var limit := config.settings.deliveryLimit;
      if limit > 0 && msg.deliveryCount >= limit {
        var _ := Delete(id);
        return true;
      }
      var _ := DropAck(id);
      var priority := if newPriority != 0 then newPriority else msg.priority;
      SlotAfterEnqueue(q, id, priority);
      PutReady(msg.group, Item(id, priority, msg.group));
      Release(msg.group);
      dropped := false;
    }

    method Nack(id: nat, priority: int, metadata: map<string, string>) returns (r: Result<()>)
      requires Valid() && Sound(Abs())
      modifies Repr, store
      ensures fresh(Repr - old(Repr)) && OnlyMine()
      ensures Q.MemoryOk(old(Abs()).ready) && (Abs(), r) == Q.Nack(old(Abs()), id, priority, metadata)
      ensures old(Good()) ==> Good()
    {
      hide Queue.Valid, Queue.Abs, QI.Inv, F.WithMsgs, F.MsgsOf, Q.MemoryOk, Q.Items, Q.Unacked, MF.Accepts;
      hide St.Normal, Sound;
      hide Q.RedeliverOrDrop;
      ghost var q := Abs();
      Unwritten();
      NackGood(q, id, priority, metadata);
      var item := GetAck(id);
      if item == None {
        return Err(MessageNotFound);
      }
      var message := Get(id);
      if message.Err? {
        return Err(message.error);
      }
      var msg := message.value.1;
      ghost var db := store.Db();
      var dropped := RedeliverOrDrop(id, msg, priority);
      RedeliveredStays(q, id, priority);
      if !dropped && (metadata != map[] || (priority != 0 && priority != msg.priority)) {
        ghost var msgs := Abs().msgs;
        var _ := SaveUpdate(id, priority, metadata);
        St.Written(db, name, Abs().msgs);
      }
      r := Ok(());
    }

    method AckTimeout(id: nat) returns (r: Result<()>)
      requires Valid() && Sound(Abs())
      modifies Repr, store
      ensures fresh(Repr - old(Repr)) && OnlyMine()
      ensures Q.MemoryOk(old(Abs()).ready) && (Abs(), r) == Q.AckTimeout(old(Abs()), id)
      ensures old(Good()) ==> Good()
    {
      hide Queue.Valid, Queue.Abs, QI.Inv, F.WithMsgs, F.MsgsOf, Q.MemoryOk, Q.Items, Q.Unacked, MF.Accepts, St.Normal;
      hide Q.RedeliverOrDrop;
      ghost var q := Abs();
      Unwritten();
      AckTimeoutGood(q, id);
      var item := GetAck(id);
      if item == None {
        return Err(MessageNotFound);
      }
      var message := Get(id);
      if message.Err? {
        var _ := DropAck(id);
        Release(item.value.group);
        return Err(message.error);
      }
      var _ := RedeliverOrDrop(id, message.value.1, 0);
      r := Ok(());
    }

    method Touch(id: nat, now: int) returns (r: Result<()>)
      requires Valid()
      modifies Repr
      ensures Repr == old(Repr) && OnlyMine() && (Abs(), r) == Q.Touch(old(Abs()), id, now)
      ensures old(Good()) ==> Good()
    {
      hide Queue.Valid, Queue.Abs, QI.Inv, F.WithMsgs, F.MsgsOf, Q.MemoryOk, Q.Items, Q.Unacked, MF.Accepts, St.Normal;
      ghost var q := Abs();
      Unwritten();
      ConfigOf();
      TouchGood(q, id, now);
      var item := GetAck(id);
      if item == None {
        return Err(MessageNotFound);
      }
      MoveAck(id, now + config.settings.ackTimeout);
      r := Ok(());
    }

    /** The new priority is also written into the ack queue's item, where it is the deadline. */
    method UpdatePriority(id: nat, priority: int) returns (r: Result<()>)
      requires Valid()
      modifies Repr, store
      ensures fresh(Repr - old(Repr)) && OnlyMine() && (Abs(), r) == Q.UpdatePriority(old(Abs()), id, priority)
      ensures old(Good()) ==> Good()
    {
      hide Queue.Valid, Queue.Abs, QI.Inv, F.WithMsgs, F.MsgsOf, Q.MemoryOk, Q.Items, Q.Unacked, MF.Accepts, St.Normal;
      hide Q.MemoryGet, Q.MemoryUpdatePriority;
      ghost var q := Abs();
      Unwritten();
      UpdatePriorityGood(q, id, priority);
      var msg := Get(id);
      if msg.Err? {
        return Err(msg.error);
      }
      var group := msg.value.1.group;
      var item := GetReady(group, id);
      var inFlight := item == None;
      if inFlight {
        var acked := GetAck(id);
        if acked == None {
          return Err(MessageNotFound);
        }
      }
      r := SavePriority(id, priority);
      if inFlight {
        WriteAck(id, priority);
      }
      SetReady(group, id, priority);
    }
  }

  /** What the operations on messages in flight rely on. */
  ghost predicate Sound(q: Q.Queue) {
    && Q.MemoryOk(q.ready)
    && (forall id :: id in Q.Items(q.ready) ==> id !in q.ack && Q.Items(q.ready)[id].id == id)
    && (forall id :: id in q.ack && Q.IsFair(q) ==> q.ack[id].group in Q.Unacked(q.ready))
    && (forall id :: id in q.ack && id in q.msgs ==>
          q.msgs[id].group == q.ack[id].group && MF.Accepts(q.ready, q.msgs[id].group))
  }

  lemma InvIsSound(q: Q.Queue)
    requires QI.Inv(q)
    ensures Sound(q)
  {
    hide Q.MemoryOk, MF.Accepts;
    var v := QI.ViewOf(q);
    forall id | id in q.ack && Q.IsFair(q) ensures q.ack[id].group in Q.Unacked(q.ready) {
      assert id in QI.InFlight(v.ack, q.ack[id].group);
    }
  }

  lemma EmptyItems(m: Q.Memory)
    ensures |Q.Items(m)| == 0 <==> Q.Items(m) == map[]
  {
  }

  lemma TakenFacts(q: Q.Queue, ack: bool, mixed: nat, now: int)
    requires Sound(q)
    ensures var (x, m) := Q.MemoryDequeue(q.ready, ack, mixed, now);
      if x.None? then m == q.ready else x.value.id !in q.ack
  {
    hide Q.MemoryOk, Q.MemoryDequeue, Q.Items, Q.Unacked, MF.Accepts, MF.Becomes;
    MF.DequeueFacts(q.ready, ack, mixed, now);
  }

  lemma SlotAfterDelete(q: Q.Queue, id: nat)
    requires Sound(q) && id in q.msgs
    ensures id in q.ack && Q.IsFair(q) ==> q.msgs[id].group in Q.Unacked(Q.MemoryDelete(q.ready, q.msgs[id].group, id))
  {
    hide Q.MemoryOk, Q.MemoryDelete, Q.Items, Q.Unacked, MF.Accepts;
    if id in q.ack {
      MF.DeleteFacts(q.ready, q.msgs[id].group, id);
    }
  }

  lemma SlotAfterEnqueue(q: Q.Queue, id: nat, priority: int)
    requires Sound(q) && id in q.msgs && id in q.ack
    ensures id !in Q.Items(q.ready) && MF.Accepts(q.ready, q.msgs[id].group)
    ensures Q.IsFair(q) ==> q.msgs[id].group in Q.Unacked(Q.MemoryEnqueue(q.ready, q.msgs[id].group, id, priority))
  {
    hide Q.MemoryOk, Q.MemoryEnqueue, Q.Items, Q.Unacked, MF.Accepts;
    MF.EnqueueFacts(q.ready, q.msgs[id].group, id, priority);
  }

  lemma RedeliveredStays(q: Q.Queue, id: nat, priority: int)
    requires Q.MemoryOk(q.ready) && id in q.msgs
    ensures !Q.RedeliverOrDrop(q, id, priority).1 ==> Q.RedeliverOrDrop(q, id, priority).0.msgs == q.msgs
  {
  }

  lemma DequeueGood(q: Q.Queue, ack: bool, mixed: nat, now: int)
    requires Q.MemoryOk(q.ready)
    ensures QI.Inv(q) ==> QI.Inv(Q.Dequeue(q, ack, mixed, now).0)
  {
    hide QI.Inv, Q.Dequeue, Q.MemoryOk;
    if QI.Inv(q) {
      QS.DequeueStep(q, ack, mixed, now);
    }
  }

  lemma AckGood(q: Q.Queue, id: nat)
    ensures QI.Inv(q) ==> QI.Inv(Q.Ack(q, id).0)
  {
    hide QI.Inv, Q.Ack, Q.MemoryOk;
    if QI.Inv(q) {
      QS.AckStep(q, id);
    }
  }

  lemma DeleteGood(q: Q.Queue, id: nat)
    requires Q.MemoryOk(q.ready)
    ensures QI.Inv(q) ==> QI.Inv(Q.Delete(q, id).0)
  {
    hide QI.Inv, Q.Delete, Q.MemoryOk;
    if QI.Inv(q) {
      QS.DeleteStep(q, id);
    }
  }

  lemma NackGood(q: Q.Queue, id: nat, priority: int, metadata: map<string, string>)
    requires Q.MemoryOk(q.ready)
    ensures QI.Inv(q) ==> QI.Inv(Q.Nack(q, id, priority, metadata).0)
  {
    hide QI.Inv, Q.Nack, Q.MemoryOk;
    if QI.Inv(q) {
      QS.NackStep(q, id, priority, metadata);
    }
  }

  lemma AckTimeoutGood(q: Q.Queue, id: nat)
    requires Q.MemoryOk(q.ready)
    ensures QI.Inv(q) ==> QI.Inv(Q.AckTimeout(q, id).0)
  {
    hide QI.Inv, Q.AckTimeout, Q.MemoryOk;
    if QI.Inv(q) {
      QS.AckTimeoutStep(q, id);
    }
  }

  lemma TouchGood(q: Q.Queue, id: nat, now: int)
    ensures QI.Inv(q) ==> QI.Inv(Q.Touch(q, id, now).0)
  {
    hide QI.Inv, Q.Touch, Q.MemoryOk;
    if QI.Inv(q) {
      QS.TouchStep(q, id, now);
    }
  }

  lemma UpdatePriorityGood(q: Q.Queue, id: nat, priority: int)
    ensures QI.Inv(q) ==> QI.Inv(Q.UpdatePriority(q, id, priority).0)
  {
    hide QI.Inv, Q.UpdatePriority, Q.MemoryOk;
    if QI.Inv(q) {
      QS.UpdatePriorityStep(q, id, priority);
    }
  }

  /** Ids in increasing order. */
  method Sorted(keys: set<nat>) returns (ids: seq<nat>)
    ensures Sn.Lists(ids, keys)
    ensures forall i, j :: 0 <= i < j < |ids| ==> ids[i] < ids[j]
  {
    ids := [];
    var rest := keys;
    while rest != {}
      invariant forall id :: id in ids <==> id in keys && id !in rest
      invariant rest <= keys && forall i, j :: 0 <= i < j < |ids| ==> ids[i] < ids[j]
      decreases rest
    {
      var id :| id in rest;
      ids := Inserted(ids, id);
      rest := rest - {id};
    }
  }

  method Inserted(ids: seq<nat>, id: nat) returns (more: seq<nat>)
    requires id !in ids && forall i, j :: 0 <= i < j < |ids| ==> ids[i] < ids[j]
    ensures forall j :: j in more <==> j == id || j in ids
    ensures forall i, j :: 0 <= i < j < |more| ==> more[i] < more[j]
  {
    var k := |ids|;
    while k > 0 && ids[k - 1] > id
      invariant 0 <= k <= |ids| && forall j :: k <= j < |ids| ==> ids[j] > id
    {
      k := k - 1;
    }
    more := ids[..k] + [id] + ids[k..];
    assert forall j :: j in ids <==> j in ids[..k] || j in ids[k..];
  }

  lemma GetIsLookup(m: Q.Memory, group: string, id: nat)
    requires id in Q.Items(m) ==> Q.Items(m)[id].group == group
    ensures Q.MemoryGet(m, group, id).Some? <==> id in Q.Items(m)
  {
  }

  lemma EnqueueGood(q: Q.Queue, id: nat, group: string, priority: int, content: string, metadata: map<string, string>)
    requires QI.Inv(q) && id !in q.msgs && (Q.IsFair(q) ==> MF.Accepts(q.ready, group))
    ensures QI.Inv(Q.Enqueue(q, id, group, priority, content, metadata))
  {
    hide QI.Inv, Q.Enqueue;
    QS.EnqueueStep(q, id, group, priority, content, metadata);
  }
}
