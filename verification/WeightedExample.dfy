/**
 * A weighted queue with two messages of one group, step by step: both ready, one in flight, and that one
 * acked. The unacked limit is a parameter.
 */
module WeightedExample {
  import opened Types
  import opened Order
  import opened Weights
  import opened QueueInvariant
  import Q = QueueSpec
  import MF = MemoryFacts
  import QS = QueueSteps
  import WQ = WeightedSpec

  const GROUP := "a"

  /** Ack timeout 10, no delivery limit. */
  function Configured(maxUnacked: uint32): Config {
    Config(Fair, Settings(Weighted, maxUnacked, 10, 0))
  }

  function Stored(deliveryCount: uint32): Message {
    Message(GROUP, 0, "", map[], deliveryCount)
  }

  function Waiting(id: nat): Item {
    Item(id, 0, GROUP)
  }

  /** The weight with `unacked` messages in flight and `size` ready. */
  ghost function Weight(maxUnacked: uint32, unacked: nat, size: nat): WeightMap {
    map[GROUP := WQ.CalculateWeight(Limit(maxUnacked), unacked, size)]
  }

  ghost function Memory(items: map<nat, Item>, unacked: multiset<string>, maxUnacked: uint32, weights: WeightMap): Q.Memory {
    Q.WeightedMemory(WQ.State(items, unacked, Limit(maxUnacked), weights))
  }

  ghost function NothingYet(max: uint32): Q.Queue {
    Q.Queue(Configured(max), map[], Q.NewMemory(Configured(max)), map[])
  }

  ghost function OneReady(max: uint32): Q.Queue {
    Q.Queue(Configured(max), map[1 := Stored(0)],
            Memory(map[1 := Waiting(1)], multiset{}, max, Weight(max, 0, 1)), map[])
  }

  ghost function TwoReady(max: uint32): Q.Queue {
    Q.Queue(Configured(max), map[1 := Stored(0), 2 := Stored(0)],
            Memory(map[1 := Waiting(1), 2 := Waiting(2)], multiset{}, max, Weight(max, 0, 2)), map[])
  }

  ghost function OneInFlight(max: uint32): Q.Queue {
    Q.Queue(Configured(max), map[1 := Stored(1), 2 := Stored(0)],
            Memory(map[2 := Waiting(2)], multiset{GROUP}, max, Weight(max, 1, 1)), map[1 := Item(1, 10, GROUP)])
  }

  ghost function OneAcked(max: uint32): Q.Queue {
    Q.Queue(Configured(max), map[2 := Stored(0)],
            Memory(map[2 := Waiting(2)], multiset{}, max, Weight(max, 0, 1)), map[])
  }

  lemma InOneGroup(items: map<nat, Item>)
    requires forall id :: id in items ==> items[id].group == GROUP
    ensures WQ.ItemsOf(items, GROUP) == items
    ensures forall g :: g != GROUP ==> WQ.ItemsOf(items, g) == map[]
  {
  }

  lemma Sizes()
    ensures |map[1 := Waiting(1)]| == 1 && |map[1 := Waiting(1), 2 := Waiting(2)]| == 2 && |map[2 := Waiting(2)]| == 1
  {
    assert map[1 := Waiting(1), 2 := Waiting(2)].Keys == {1, 2};
  }

  lemma FirstArrives(max: uint32)
    ensures Q.Enqueue(NothingYet(max), 1, GROUP, 0, "", map[]) == OneReady(max)
  {
    hide WQ.CalculateWeight, WQ.ItemsOf;
    var items := map[1 := Waiting(1)];
    InOneGroup(items);
    Sizes();
    assert WQ.New(max).items[1 := Waiting(1)] == items;
    assert WQ.New(max).weights[GROUP := WQ.CalculateWeight(Limit(max), 0, 1)] == Weight(max, 0, 1);
  }

  lemma SecondArrives(max: uint32)
    ensures Q.Enqueue(OneReady(max), 2, GROUP, 0, "", map[]) == TwoReady(max)
  {
    hide WQ.CalculateWeight, WQ.ItemsOf;
    var items := map[1 := Waiting(1), 2 := Waiting(2)];
    InOneGroup(items);
    Sizes();
    assert Weight(max, 0, 1)[GROUP := WQ.CalculateWeight(Limit(max), 0, 2)] == Weight(max, 0, 2);
  }

  /** With only one group, every seed picks it if it has a weight. */
  lemma OnlyGroup(s: WQ.State, mixed: nat)
    requires WQ.WellFormed(s) && s.weights.Keys == {GROUP}
    ensures WQ.Selected(s, mixed) == if s.weights[GROUP] > 0 then GROUP else ""
    ensures WQ.PeekReady(s) <==> s.weights[GROUP] > 0
  {
    LeastUnique(s.weights, GROUP);
    assert s.weights - {GROUP} == map[];
    assert Total(s.weights) == s.weights[GROUP];
    if s.weights[GROUP] > 0 { WQ.SelectedHasItem(s, mixed); }
  }

  lemma ExampleInv(max: uint32)
    ensures Inv(NothingYet(max)) && Inv(OneReady(max)) && Inv(TwoReady(max))
  {
    hide Inv, Q.Enqueue;
    QS.NewQueueInv(Configured(max));
    FirstArrives(max);
    Accepted(NothingYet(max));
    QS.EnqueueStep(NothingYet(max), 1, GROUP, 0, "", map[]);
    SecondArrives(max);
    Accepted(OneReady(max));
    QS.EnqueueStep(OneReady(max), 2, GROUP, 0, "", map[]);
  }

  lemma Accepted(q: Q.Queue)
    requires q.ready.WeightedMemory?
    ensures MF.Accepts(q.ready, GROUP)
  {
  }

  lemma FreeSlotHasWeight(max: uint32, size: nat)
    requires size > 0
    ensures WQ.CalculateWeight(Limit(max), 0, size) > 0
  {
    WQ.WeightPositiveIff(Limit(max), 0, size);
  }

  /** The pick on its own. */
  lemma FirstIsPicked(max: uint32, mixed: nat)
    ensures WQ.WellFormed(TwoReady(max).ready.wq)
    ensures WQ.Dequeue(TwoReady(max).ready.wq, false, mixed) == (Some(Waiting(1)), OneInFlight(max).ready.wq)
  {
    hide WQ.CalculateWeight, WQ.ItemsOf, WQ.WellFormed, WQ.Selected, WQ.Refreshed, First, Inv, IsFirst;
    ExampleInv(max);
    InvIsWellFormed(TwoReady(max));
    var s := TwoReady(max).ready.wq;
    FreeSlotHasWeight(max, 2);
    OnlyGroup(s, mixed);
    InOneGroup(s.items);
    FirstOfTwo();
    var rest := map[2 := Waiting(2)];
    assert s.items - {1} == rest;
    var unacked := s.unacked + multiset{GROUP};
    assert unacked == multiset{GROUP} && unacked[GROUP] == 1 && GROUP != "";
    Refiled(max, s.(items := rest, unacked := unacked));
  }

  lemma Refiled(max: uint32, s: WQ.State)
    requires s == WQ.State(map[2 := Waiting(2)], multiset{GROUP}, Limit(max), Weight(max, 0, 2))
    ensures WQ.Refreshed(s, GROUP) == OneInFlight(max).ready.wq
  {
    hide WQ.CalculateWeight, WQ.ItemsOf;
    InOneGroup(s.items);
    Sizes();
    assert s.weights[GROUP := WQ.CalculateWeight(Limit(max), 1, 1)] == Weight(max, 1, 1);
  }

  lemma InvIsWellFormed(q: Q.Queue)
    requires Inv(q) && q.ready.WeightedMemory?
    ensures WQ.WellFormed(q.ready.wq)
  {
    hide WQ.WellFormed, Consistent, AllAccepted;
  }

  lemma FirstOfTwo()
    ensures var items := map[1 := Waiting(1), 2 := Waiting(2)];
      items != map[] && Keyed(items) && First(items) == Waiting(1)
  {
    var items := map[1 := Waiting(1), 2 := Waiting(2)];
    assert 1 in items;
    FirstUnique(items, Waiting(1));
  }

  lemma FirstIsDelivered(max: uint32, mixed: nat)
    ensures Q.MemoryOk(TwoReady(max).ready)
    ensures Q.Dequeue(TwoReady(max), false, mixed, 0) == (OneInFlight(max), Ok((1, Stored(1))))
  {
    hide WQ.CalculateWeight, WQ.WellFormed, WQ.Dequeue;
    FirstIsPicked(max, mixed);
    assert 1 in TwoReady(max).ready.wq.items;
    assert map[1 := Stored(0), 2 := Stored(0)][1 := Stored(1)] == map[1 := Stored(1), 2 := Stored(0)];
  }

  lemma InFlightInv(max: uint32)
    ensures Inv(OneInFlight(max))
  {
    hide Inv, Q.Dequeue;
    ExampleInv(max);
    FirstIsDelivered(max, 0);
    QS.DequeueStep(TwoReady(max), false, 0, 0);
  }

  lemma FirstIsAcked(max: uint32)
    ensures Q.Ack(OneInFlight(max), 1).0 == OneAcked(max)
  {
    hide WQ.CalculateWeight, WQ.ItemsOf;
    var s := OneInFlight(max).ready.wq;
    InOneGroup(s.items);
    Sizes();
    assert s.unacked - multiset{GROUP} == multiset{};
    assert Weight(max, 1, 1)[GROUP := WQ.CalculateWeight(Limit(max), 0, 1)] == Weight(max, 0, 1);
    assert map[1 := Stored(1), 2 := Stored(0)] - {1} == map[2 := Stored(0)];
    assert map[1 := Item(1, 10, GROUP)] - {1} == map[];
  }
}
