/**
 * The ready queue behind its interface: one of the three kinds of queue objects. Every operation
 * takes the state of the object to the one the specification gives.
 */
module MemoryQueue {
  import opened Types
  import D = DelayedQueue
  import R = RoundRobinQueue
  import W = WeightedQueue
  import RR = RoundRobin
  import WQ = WeightedSpec
  import MF = MemoryFacts
  import Q = QueueSpec
  import Sch = Scheduling
  import Sn = Snapshot

  datatype MemoryQueue =
    | ByTime(d: D.DelayedQueue)
    | ByTurn(r: R.FairRoundRobinQueue)
    | ByWeight(w: W.FairWeightedQueue)

  ghost function Head(m: MemoryQueue): object {
    match m
    case ByTime(d) => d
    case ByTurn(r) => r
    case ByWeight(w) => w
  }

  ghost function Repr(m: MemoryQueue): set<object>
    reads Head(m)
  {
    match m
    case ByTime(d) => {d, d.queue}
    case ByTurn(r) => {r} + r.members + r.heaps
    case ByWeight(w) => w.Repr
  }

  ghost predicate Valid(m: MemoryQueue)
    reads Head(m), Repr(m)
    ensures Valid(m) ==> Head(m) in Repr(m)
  {
    match m
    case ByTime(d) => d.Valid() && d.InOrder() && d.queue.minFirst && Keyed(d.Contents())
    case ByTurn(r) => r.Valid()
    case ByWeight(w) => w.Valid()
  }

  ghost function StateOf(m: MemoryQueue): (s: Q.Memory)
    requires Valid(m)
    reads Head(m), Repr(m)
    ensures Q.MemoryOk(s)
  {
    match m
    case ByTime(d) => Q.DelayedMemory(d.Contents())
    case ByTurn(r) => Q.RoundRobinMemory(r.State())
    case ByWeight(w) => Q.WeightedMemory(w.State())
  }

  method New(config: Config) returns (m: MemoryQueue)
    ensures Valid(m) && fresh(Repr(m)) && StateOf(m) == Q.NewMemory(config)
  {
    hide R.FairRoundRobinQueue.Valid, W.FairWeightedQueue.Valid, D.DelayedQueue.Valid, D.DelayedQueue.InOrder;
    hide D.DelayedQueue.Contents, RR.New, WQ.New;
    match config.kind
    case Delayed =>
      var d := new D.DelayedQueue(true);
      m := ByTime(d);
    case Fair =>
      if config.settings.strategy == Weighted {
        var w := new W.FairWeightedQueue(config.settings.maxUnacked);
        m := ByWeight(w);
      } else {
        var r := new R.FairRoundRobinQueue(config.settings.maxUnacked);
        m := ByTurn(r);
      }
  }

  method Enqueue(m: MemoryQueue, group: string, item: Item)
    requires Valid(m) && item.group == group && item.id !in Q.Items(StateOf(m)) && MF.Accepts(StateOf(m), group)
    modifies Repr(m)
    ensures Valid(m) && fresh(Repr(m) - old(Repr(m)))
    ensures StateOf(m) == Q.MemoryEnqueue(old(StateOf(m)), group, item.id, item.priority)
  {
    hide R.FairRoundRobinQueue.Valid, W.FairWeightedQueue.Valid, RR.Enqueue, WQ.Enqueue;
    match m
    case ByTime(d) => d.Enqueue(item);
    case ByTurn(r) =>
      MF.ValidGroupNonEmpty(group);
      r.Enqueue(group, item);
    case ByWeight(w) => w.Enqueue(group, item);
  }

  method Dequeue(m: MemoryQueue, ack: bool, mixed: nat, now: int) returns (x: Option<Item>)
    requires Valid(m)
    modifies Repr(m)
    ensures Valid(m) && fresh(Repr(m) - old(Repr(m)))
    ensures (x, StateOf(m)) == Q.MemoryDequeue(old(StateOf(m)), ack, mixed, now)
  {
    hide R.FairRoundRobinQueue.Valid, W.FairWeightedQueue.Valid, RR.Dequeue, WQ.Dequeue;
    match m
    case ByTime(d) => x := d.Dequeue(now);
    case ByTurn(r) => x := r.Dequeue(ack);
    case ByWeight(w) => x := w.Dequeue(ack, mixed);
  }

  method Get(m: MemoryQueue, group: string, id: nat) returns (x: Option<Item>)
    requires Valid(m)
    ensures x == Q.MemoryGet(StateOf(m), group, id)
  {
    hide R.FairRoundRobinQueue.Valid, W.FairWeightedQueue.Valid, RR.Get, WQ.Get;
    match m
    case ByTime(d) => x := d.Get(id);
    case ByTurn(r) => x := r.Get(group, id);
    case ByWeight(w) => x := w.Get(group, id);
  }

  method Delete(m: MemoryQueue, group: string, id: nat)
    requires Valid(m)
    modifies Repr(m)
    ensures Valid(m) && fresh(Repr(m) - old(Repr(m)))
    ensures StateOf(m) == Q.MemoryDelete(old(StateOf(m)), group, id)
  {
    hide R.FairRoundRobinQueue.Valid, W.FairWeightedQueue.Valid, RR.Delete, WQ.Delete;
    match m
    case ByTime(d) => var _ := d.Delete(id);
    case ByTurn(r) => var _ := r.Delete(group, id);
    case ByWeight(w) => var _ := w.Delete(group, id);
  }

  method UpdatePriority(m: MemoryQueue, group: string, id: nat, priority: int)
    requires Valid(m)
    modifies Repr(m)
    ensures Valid(m) && fresh(Repr(m) - old(Repr(m)))
    ensures StateOf(m) == Q.MemoryUpdatePriority(old(StateOf(m)), group, id, priority)
  {
    hide R.FairRoundRobinQueue.Valid, W.FairWeightedQueue.Valid, RR.UpdatePriority, WQ.UpdatePriority;
    match m
    case ByTime(d) => d.UpdatePriority(id, priority);
    case ByTurn(r) => r.UpdatePriority(group, id, priority);
    case ByWeight(w) => w.UpdatePriority(group, id, priority);
  }

  /** Called with the group of a message in flight. */
  method UpdateWeights(m: MemoryQueue, group: string)
    requires Valid(m) && (m.ByWeight? ==> group in Q.Unacked(StateOf(m)))
    modifies Repr(m)
    ensures Valid(m) && fresh(Repr(m) - old(Repr(m)))
    ensures StateOf(m) == Q.MemoryRelease(old(StateOf(m)), group)
  {
    hide R.FairRoundRobinQueue.Valid, W.FairWeightedQueue.Valid, RR.Release, WQ.Release;
    match m
    case ByTime(_) =>
    case ByTurn(r) => r.UpdateWeights(group);
    case ByWeight(w) => w.UpdateWeights(group);
  }

  method MarkUnacked(m: MemoryQueue, group: string)
    requires Valid(m)
    modifies Repr(m)
    ensures Valid(m) && fresh(Repr(m) - old(Repr(m)))
    ensures StateOf(m) == Q.MemoryMarkUnacked(old(StateOf(m)), group)
  {
    hide R.FairRoundRobinQueue.Valid, W.FairWeightedQueue.Valid, RR.MarkUnacked, WQ.MarkUnacked;
    match m
    case ByTime(_) =>
    case ByTurn(r) => r.MarkUnacked(group);
    case ByWeight(w) => w.MarkUnacked(group);
  }

  method UpdateMaxUnacked(m: MemoryQueue, maxUnacked: uint32)
    requires Valid(m)
    modifies Repr(m)
    ensures Valid(m) && fresh(Repr(m) - old(Repr(m)))
    ensures StateOf(m) == Q.MemoryUpdateMaxUnacked(old(StateOf(m)), maxUnacked)
  {
    hide R.FairRoundRobinQueue.Valid, W.FairWeightedQueue.Valid;
    match m
    case ByTime(_) =>
    case ByTurn(r) => r.UpdateMaxUnacked(maxUnacked);
    case ByWeight(w) => w.UpdateMaxUnacked(maxUnacked);
  }

  method Len(m: MemoryQueue) returns (n: nat)
    requires Valid(m)
    ensures n == |Q.Items(StateOf(m))|
  {
    hide R.FairRoundRobinQueue.Valid, W.FairWeightedQueue.Valid;
    match m
    case ByTime(d) => n := d.Len();
    case ByTurn(r) => n := r.Len();
    case ByWeight(w) => n := w.Len();
  }

  /** The scheduling state, for queues that have one. */
  method SchedulingState(m: MemoryQueue) returns (sched: Option<seq<Sch.SchedulingNode>>)
    requires Valid(m)
    ensures sched.Some? <==> StateOf(m).RoundRobinMemory?
    ensures sched.Some? ==> Sch.Captures(StateOf(m).rr.nodes, sched.value)
  {
    hide R.FairRoundRobinQueue.Valid, W.FairWeightedQueue.Valid, Sch.Captures;
    match m
    case ByTime(_) => sched := None;
    case ByTurn(r) =>
      var nodes := r.SchedulingState();
      sched := Some(nodes);
    case ByWeight(_) => sched := None;
  }

  method RestoreSchedulingState(m: MemoryQueue, sched: seq<Sch.SchedulingNode>)
    requires Valid(m)
    modifies Repr(m)
    ensures Valid(m) && fresh(Repr(m) - old(Repr(m)))
    ensures StateOf(m) == Sn.RestoreSchedule(old(StateOf(m)), sched)
  {
    hide R.FairRoundRobinQueue.Valid, W.FairWeightedQueue.Valid, Sch.RestoreNodes;
    match m
    case ByTime(_) =>
    case ByTurn(r) => r.RestoreSchedulingState(sched);
    case ByWeight(_) =>
  }
}
