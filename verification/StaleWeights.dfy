/**
 * A legal log whose restored replica answers differently: a weighted queue's limit is lowered, which
 * leaves the weights of the running replica alone, while restoring a snapshot recomputes them.
 */
module StaleWeights {
  import opened Types
  import opened Fsm
  import opened FsmInvariant
  import opened QueueInvariant
  import opened Snapshot
  import opened WeightedExample
  import Mixing
  import Q = QueueSpec
  import WQ = WeightedSpec
  import WQP = WeightedProperties

  const NAME := "q"

  /** The state with a single queue. */
  ghost function Alone(q: Q.Queue): State {
    State(WithMsgs(Db(map[NAME := q.config], map[]), NAME, q.msgs), map[NAME := Loaded(q.config, q.ready, q.ack)])
  }

  lemma AloneIs(q: Q.Queue)
    ensures QueueOf(Alone(q), NAME) == q && Alone(q).queues.Keys == {NAME}
    ensures MemoryOk(Alone(q)) <==> Q.MemoryOk(q.ready)
  {
  }

  /** A command on messages. */
  lemma ApplyAlone(default: uint32, q: Q.Queue, e: Entry, q': Q.Queue, r: Response)
    requires Q.MemoryOk(q.ready) && OnMessages(e.cmd) && e.cmd.queue == NAME
    requires OnQueue(q, e) == (q', r) && q'.config == q.config
    ensures MemoryOk(Alone(q)) && Apply(default, Alone(q), e) == (Alone(q'), r)
  {
    hide OnQueue, Q.MemoryOk;
    AloneIs(q);
    OtherMessages(q, q');
  }

  lemma OtherMessages(q: Q.Queue, q': Q.Queue)
    requires q'.config == q.config
    ensures With(Alone(q), NAME, q') == Alone(q')
  {
    var configs := map[NAME := q.config];
    assert map[NAME := q.msgs][NAME := q'.msgs] == map[NAME := q'.msgs];
    assert map[NAME := q.msgs] - {NAME} == map[];
    assert Alone(q).queues[NAME := Loaded(q'.config, q'.ready, q'.ack)] == Alone(q').queues;
  }

  // ---------- The log ----------

  function Arrival(index: nat, id: nat): Entry {
    Entry(index, 0, Enqueue(NAME, id, GROUP, 0, "", map[]))
  }

  function Delivery(index: nat): Entry {
    Entry(index, 0, Dequeue(NAME, false))
  }

  /** Two messages, a delivery, a lower limit; then another delivery. */
  function Log(): seq<Entry> {
    [Entry(1, 0, CreateQueue(NAME, Fair, Configured(10).settings)), Arrival(2, 1), Arrival(3, 2), Delivery(4),
     Entry(5, 0, UpdateQueue(NAME, Configured(1).settings)), Delivery(6)]
  }

  /** One message in flight, and a limit of one that the weight does not know of. */
  ghost function Lowered(): Q.Queue {
    var q := OneInFlight(10);
    q.(config := Configured(1), ready := Q.MemoryUpdateMaxUnacked(q.ready, 1))
  }

  ghost function After(q: Q.Queue, e: Entry): Q.Queue
    requires Q.MemoryOk(q.ready) && OnMessages(e.cmd)
  {
    OnQueue(q, e).0
  }

  lemma CreateFirst(default: uint32)
    ensures MemoryOk(EMPTY) && Apply(default, EMPTY, Log()[0]).0 == Alone(NothingYet(10)) && Legal(EMPTY, Log()[0])
  {
    assert EMPTY.db.configs[NAME := Configured(10)] == map[NAME := Configured(10)];
  }

  lemma ArrivalsAndDelivery(default: uint32)
    ensures MemoryOk(Alone(NothingYet(10))) && Apply(default, Alone(NothingYet(10)), Log()[1]).0 == Alone(OneReady(10))
    ensures MemoryOk(Alone(OneReady(10))) && Apply(default, Alone(OneReady(10)), Log()[2]).0 == Alone(TwoReady(10))
    ensures MemoryOk(Alone(TwoReady(10))) && Apply(default, Alone(TwoReady(10)), Log()[3]).0 == Alone(OneInFlight(10))
  {
    hide Inv, Apply, Alone, Q.Enqueue, Q.Dequeue, Mixing.Mix64, MemoryOk, Q.MemoryOk;
    ExampleInv(10);
    InvOk(NothingYet(10));
    InvOk(OneReady(10));
    FirstArrives(10);
    ApplyAlone(default, NothingYet(10), Log()[1], OneReady(10), Answered(1, Stored(0)));
    SecondArrives(10);
    ApplyAlone(default, OneReady(10), Log()[2], TwoReady(10), Answered(2, Stored(0)));
    FirstIsDelivered(10, Mixing.Mix64(4));
    ApplyAlone(default, TwoReady(10), Log()[3], OneInFlight(10), Answered(1, Stored(1)));
  }

  lemma InvOk(q: Q.Queue)
    requires Inv(q)
    ensures Q.MemoryOk(q.ready)
  {
    hide Q.MemoryOk, Consistent, AllAccepted;
  }

  lemma LimitIsLowered(default: uint32)
    ensures MemoryOk(Alone(OneInFlight(10))) && Legal(Alone(OneInFlight(10)), Log()[4])
    ensures Apply(default, Alone(OneInFlight(10)), Log()[4]).0 == Alone(Lowered())
  {
    hide WQ.CalculateWeight, Inv, Q.MemoryOk;
    InFlightInv(10);
    InvOk(OneInFlight(10));
    AloneIs(OneInFlight(10));
    assert 1 in OneInFlight(10).msgs;
  }

  lemma ArrivalsAreLegal()
    ensures Legal(Alone(NothingYet(10)), Log()[1]) && Legal(Alone(OneReady(10)), Log()[2])
    ensures Legal(Alone(TwoReady(10)), Log()[3])
  {
    AloneIs(NothingYet(10));
    AloneIs(OneReady(10));
  }

  // ---------- The two answers ----------

  lemma LoweredWellFormed()
    ensures WQ.WellFormed(Lowered().ready.wq)
  {
    hide WQ.WellFormed, Inv;
    InFlightInv(10);
    InvIsWellFormed(OneInFlight(10));
    WQP.UpdateMaxUnackedWellFormed(OneInFlight(10).ready.wq, 1);
  }

  /** The running replica still has the old weight. */
  lemma RunningDelivers(mixed: nat)
    ensures Q.MemoryOk(Lowered().ready) && Q.Dequeue(Lowered(), false, mixed, 0).1.Ok?
  {
    hide WQ.WellFormed, WQ.CalculateWeight, WQ.Dequeue;
    LoweredWellFormed();
    var s := Lowered().ready.wq;
    WQ.WeightPositiveIff(10, 1, 1);
    OnlyGroup(s, mixed);
    WQP.PeekReadyIffDequeue(s, false, mixed);
    assert 2 in s.items;
    Served(s, mixed);
  }

  lemma Served(s: WQ.State, mixed: nat)
    requires WQ.WellFormed(s) && WQ.Dequeue(s, false, mixed).0.Some?
    ensures WQ.Dequeue(s, false, mixed).0.value.id in s.items
  {
    WQ.SelectedHasItem(s, mixed);
  }

  /** The restored one has the weight of a group at its limit. */
  lemma RestoredIsEmpty(mixed: nat)
    ensures Q.MemoryOk(RenewedQueue(Lowered()).ready)
    ensures Q.Dequeue(RenewedQueue(Lowered()), false, mixed, 0) == (RenewedQueue(Lowered()), Err(EmptyQueue))
  {
    hide WQ.WellFormed, WQ.CalculateWeight, WQ.ItemsOf;
    LoweredWellFormed();
    var s := Lowered().ready.wq;
    WQP.RenewedOk(s);
    WQ.WeightPositiveIff(1, 1, |WQ.ItemsOf(s.items, GROUP)|);
    OnlyGroup(WQP.Renewed(s), mixed);
  }

  lemma Answers(default: uint32)
    ensures MemoryOk(Alone(Lowered())) && Apply(default, Alone(Lowered()), Log()[5]).1.Answered?
    ensures MemoryOk(Alone(RenewedQueue(Lowered())))
    ensures Apply(default, Alone(RenewedQueue(Lowered())), Log()[5]) == (Alone(RenewedQueue(Lowered())), Failed(EmptyQueue))
  {
    hide Apply, Alone, Q.Dequeue, Mixing.Mix64, MemoryOk, Q.MemoryOk;
    var m := Mixing.Mix64(6);
    RunningDelivers(m);
    SameConfig(Lowered(), m);
    ApplyAlone(default, Lowered(), Log()[5], After(Lowered(), Log()[5]), OnQueue(Lowered(), Log()[5]).1);
    RestoredIsEmpty(m);
    var q := RenewedQueue(Lowered());
    ApplyAlone(default, q, Log()[5], q, Failed(EmptyQueue));
  }

  lemma SameConfig(q: Q.Queue, mixed: nat)
    requires Q.MemoryOk(q.ready)
    ensures Q.Dequeue(q, false, mixed, 0).0.config == q.config
  {
    hide Q.MemoryDequeue, Q.MemoryOk, Q.Items;
  }

  // ---------- The snapshot ----------

  function SnapshotItems(): seq<SnapshotItem> {
    [LeaderItem, QueueItem(NAME, Configured(1)), UnackedItem(1, 10), MessageItem(1, Stored(1)), MessageItem(2, Stored(0))]
  }

  lemma IsItsBlock()
    ensures IsBlock(NAME, Lowered(), SnapshotItems()[1..])
  {
    var q := Lowered();
    assert q.ack.Keys == {1} && q.msgs.Keys == {1, 2};
    assert Lists([1], q.ack.Keys) && Lists([1, 2], q.msgs.Keys);
    assert UnackedItems(q.ack, [1]) == [UnackedItem(1, 10)];
    assert MessageItems(q.msgs, [1, 2]) == [MessageItem(1, Stored(1)), MessageItem(2, Stored(0))];
    assert IsSchedule(q.ready, []);
    assert SnapshotItems()[1..]
        == [QueueItem(NAME, q.config)] + UnackedItems(q.ack, [1]) + MessageItems(q.msgs, [1, 2]) + [];
  }

  lemma IsItsSnapshot()
    ensures IsSnapshot(Alone(Lowered()), SnapshotItems())
  {
    hide IsBlock, Alone;
    IsItsBlock();
    AloneIs(Lowered());
    var s, block := Alone(Lowered()), SnapshotItems()[1..];
    assert [NAME][..0] == [];
    assert AreBlocks(s, [], []);
    assert block == [] + block;
    assert AreBlocks(s, [NAME], block);
    assert SnapshotItems() == [LeaderItem] + block;
  }

  lemma RenewedAlone(q: Q.Queue)
    ensures RenewedState(Alone(q)) == Alone(RenewedQueue(q))
  {
  }

  ghost function States(default: uint32): seq<State> {
    [EMPTY, Alone(NothingYet(10)), Alone(OneReady(10)), Alone(TwoReady(10)), Alone(OneInFlight(10)), Alone(Lowered())]
  }

  lemma LogIsLegal(default: uint32)
    ensures IsRun(default, States(default), Log()[..5])
  {
    hide Apply, MemoryOk, Legal, Alone;
    CreateFirst(default);
    ArrivalsAndDelivery(default);
    ArrivalsAreLegal();
    LimitIsLowered(default);
    var log := Log()[..5];
    assert forall i :: 0 <= i < 5 ==> log[i] == Log()[i];
  }

  /**
   * The snapshot is taken after five entries. At the sixth, the running replica delivers a message and
   * the restored one, over whatever state it had, finds its queue empty.
   */
  lemma RestoredReplicaDiffers(default: uint32, previous: State)
    returns (states: seq<State>, log: seq<Entry>, items: seq<SnapshotItem>, restored: State, e: Entry)
    requires DefaultOk(default)
    ensures IsRun(default, states, log) && states[0] == EMPTY && IsSnapshot(states[|log|], items)
    ensures Restore(default, previous, items) == Some(restored)
    ensures MemoryOk(states[|log|]) && MemoryOk(restored) && Legal(states[|log|], e)
    ensures Apply(default, states[|log|], e).1.Answered? && Apply(default, restored, e).1 == Failed(EmptyQueue)
  {
    hide Apply, MemoryOk, Alone, IsSnapshot, Restore, FsmInv;
    states, log, items, e := States(default), Log()[..5], SnapshotItems(), Log()[5];
    LogIsLegal(default);
    EmptyInv(default);
    RunKeepsInv(default, states, log, 5);
    IsItsSnapshot();
    RestoreGivesRenewed(default, states[5], previous, items);
    RenewedAlone(Lowered());
    restored := Alone(RenewedQueue(Lowered()));
    Answers(default);
  }
}
