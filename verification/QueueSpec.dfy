/**
 * The queue of `pkg/queue/queue.go` on values: the stored messages, the ready queue behind the
 * MemoryQueue interface, and the ack queue of messages in flight. The branches follow the source,
 * including ones that the invariant later rules out. One case is beyond the model: an id that is already
 * queued under another group is then filed twice by the source, and a map holds it once.
 */
module QueueSpec {
  import opened Types
  import opened Order
  import RR = RoundRobin
  import WQ = WeightedSpec

  // ---------- The MemoryQueue interface ----------

  datatype Memory =
    | DelayedMemory(delayed: map<nat, Item>)
    | RoundRobinMemory(rr: RR.State)
    | WeightedMemory(wq: WQ.State)

  ghost function Items(m: Memory): map<nat, Item> {
    match m
    case DelayedMemory(items) => items
    case RoundRobinMemory(s) => s.items
    case WeightedMemory(s) => s.items
  }

  /** The unacked counters; a delayed queue keeps none. */
  ghost function Unacked(m: Memory): multiset<string> {
    match m
    case DelayedMemory(_) => multiset{}
    case RoundRobinMemory(s) => s.unacked
    case WeightedMemory(s) => s.unacked
  }

  ghost predicate MemoryOk(m: Memory) {
    match m
    case DelayedMemory(items) => Keyed(items)
    case RoundRobinMemory(s) => RR.WellFormed(s)
    case WeightedMemory(s) => WQ.WellFormed(s)
  }

  function NewMemory(config: Config): Memory {
    match config.kind
    case Delayed => DelayedMemory(map[])
    case Fair =>
      if config.settings.strategy == Weighted then WeightedMemory(WQ.New(config.settings.maxUnacked))
      else RoundRobinMemory(RR.New(config.settings.maxUnacked))
  }

  ghost function MemoryEnqueue(m: Memory, group: string, id: nat, priority: int): Memory {
    match m
    case DelayedMemory(items) => DelayedMemory(items[id := Item(id, priority, group)])
    case RoundRobinMemory(s) => RoundRobinMemory(RR.Enqueue(s, group, id, priority))
    case WeightedMemory(s) => WeightedMemory(WQ.Enqueue(s, group, id, priority))
  }

  ghost function MemoryGet(m: Memory, group: string, id: nat): Option<Item> {
    match m
    case DelayedMemory(items) => if id in items then Some(items[id]) else None
    case RoundRobinMemory(s) => RR.Get(s, group, id)
    case WeightedMemory(s) => WQ.Get(s, group, id)
  }

  ghost function MemoryDelete(m: Memory, group: string, id: nat): Memory
    requires MemoryOk(m)
  {
    match m
    case DelayedMemory(items) => DelayedMemory(items - {id})
    case RoundRobinMemory(s) => RoundRobinMemory(RR.Delete(s, group, id))
    case WeightedMemory(s) => WeightedMemory(WQ.Delete(s, group, id))
  }

  /** A delayed message is handed out from its priority, a Unix time, on. */
  ghost function DelayedDequeue(items: map<nat, Item>, now: int): (Option<Item>, map<nat, Item>)
    requires Keyed(items)
  {
    if items == map[] then (None, items)
    else
      var x := First(items);
      if x.priority > now then (None, items) else (Some(x), items - {x.id})
  }

  ghost function MemoryDequeue(m: Memory, ack: bool, mixed: nat, now: int): (Option<Item>, Memory)
    requires MemoryOk(m)
  {
    match m
    case DelayedMemory(items) =>
      var (x, rest) := DelayedDequeue(items, now); (x, DelayedMemory(rest))
    case RoundRobinMemory(s) =>
      var (x, rest) := RR.Dequeue(s, ack); (x, RoundRobinMemory(rest))
    case WeightedMemory(s) =>
      var (x, rest) := WQ.Dequeue(s, ack, mixed); (x, WeightedMemory(rest))
  }

  ghost function MemoryUpdatePriority(m: Memory, group: string, id: nat, priority: int): Memory {
    match m
    case DelayedMemory(items) =>
      if id in items then DelayedMemory(items[id := items[id].(priority := priority)]) else m
    case RoundRobinMemory(s) => RoundRobinMemory(RR.UpdatePriority(s, group, id, priority))
    case WeightedMemory(s) => WeightedMemory(WQ.UpdatePriority(s, group, id, priority))
  }

  /** `UpdateWeights`. */
  ghost function MemoryRelease(m: Memory, group: string): Memory {
    match m
    case DelayedMemory(_) => m
    case RoundRobinMemory(s) => RoundRobinMemory(RR.Release(s, group))
    case WeightedMemory(s) => WeightedMemory(WQ.Release(s, group))
  }

  ghost function MemoryMarkUnacked(m: Memory, group: string): Memory {
    match m
    case DelayedMemory(_) => m
    case RoundRobinMemory(s) => RoundRobinMemory(RR.MarkUnacked(s, group))
    case WeightedMemory(s) => WeightedMemory(WQ.MarkUnacked(s, group))
  }

  function MemoryUpdateMaxUnacked(m: Memory, maxUnacked: uint32): Memory {
    match m
    case DelayedMemory(_) => m
    case RoundRobinMemory(s) => RoundRobinMemory(RR.UpdateMaxUnacked(s, maxUnacked))
    case WeightedMemory(s) => WeightedMemory(WQ.UpdateMaxUnacked(s, maxUnacked))
  }

  // ---------- Queues ----------

  /** `ack` maps an in-flight message to its deadline (as the item's priority) and group. */
  datatype Queue = Queue(config: Config, msgs: map<nat, Message>, ready: Memory, ack: map<nat, Item>)

  predicate IsFair(q: Queue) {
    q.config.kind == Fair
  }

  ghost function ReleaseIfFair(q: Queue, m: Memory, group: string): Memory {
    if IsFair(q) then MemoryRelease(m, group) else m
  }

  ghost function Enqueue(
    q: Queue, id: nat, group: string, priority: int, content: string, metadata: map<string, string>): Queue
  {
    var g := if IsFair(q) then group else "default";
    var stored := q.(msgs := q.msgs[id := Message(g, priority, content, metadata, 0)]);
    if MemoryGet(q.ready, g, id).Some? then stored
    else stored.(ready := MemoryEnqueue(q.ready, g, id, priority))
  }

  /** The delivery counter is a uint32. */
  function Delivered(m: Message): Message {
    m.(deliveryCount := (m.deliveryCount + 1) % UINT32_SIZE)
  }

  ghost function Dequeue(q: Queue, ack: bool, mixed: nat, now: int): (Queue, Result<(nat, Message)>)
    requires MemoryOk(q.ready)
  {
    if Items(q.ready) == map[] then (q, Err(EmptyQueue))
    else
      var (x, ready) := MemoryDequeue(q.ready, ack, mixed, now);
      if x.None? then (q, Err(EmptyQueue))
      else
        var id := x.value.id;
        if id !in q.msgs then (q.(ready := ready), Err(MessageNotFound))
        else
          var msg := Delivered(q.msgs[id]);
          if ack then (q.(msgs := q.msgs - {id}, ready := ready), Ok((id, msg)))
          else
            (q.(msgs := q.msgs[id := msg], ready := ready,
                ack := q.ack[id := Item(id, now + q.config.settings.ackTimeout, msg.group)]),
             Ok((id, msg)))
  }

  ghost function Ack(q: Queue, id: nat): (Queue, Result<()>) {
    if id !in q.ack then (q, Err(MessageNotFound))
    else if IsFair(q) && id !in q.msgs then (q, Err(MessageNotFound))
    else
      var ready := if IsFair(q) then MemoryRelease(q.ready, q.msgs[id].group) else q.ready;
      (q.(msgs := q.msgs - {id}, ready := ready, ack := q.ack - {id}), Ok(()))
  }

  ghost function Delete(q: Queue, id: nat): (Queue, Result<()>)
    requires MemoryOk(q.ready)
  {
    if id !in q.msgs then (q, Err(MessageNotFound))
    else
      var group := q.msgs[id].group;
      var ready := MemoryDelete(q.ready, group, id);
      (q.(msgs := q.msgs - {id},
          ready := if id in q.ack then ReleaseIfFair(q, ready, group) else ready,
          ack := q.ack - {id}),
       Ok(()))
  }

  /** `redeliverOrDrop`; the flag says whether the message was dropped. */
  ghost function RedeliverOrDrop(q: Queue, id: nat, newPriority: int): (Queue, bool)
    requires MemoryOk(q.ready) && id in q.msgs
  {
    var msg := q.msgs[id];
    var limit := q.config.settings.deliveryLimit;
    if limit > 0 && msg.deliveryCount >= limit then (Delete(q, id).0, true)
    else
      var priority := if newPriority != 0 then newPriority else msg.priority;
      var ready := MemoryEnqueue(q.ready, msg.group, id, priority);
      (q.(ready := ReleaseIfFair(q, ready, msg.group), ack := q.ack - {id}), false)
  }

  ghost function Nack(q: Queue, id: nat, priority: int, metadata: map<string, string>): (Queue, Result<()>)
    requires MemoryOk(q.ready)
  {
    if id !in q.ack then (q, Err(MessageNotFound))
    else if id !in q.msgs then (q, Err(MessageNotFound))
    else
      var msg := q.msgs[id];
      var (q', dropped) := RedeliverOrDrop(q, id, priority);
      if !dropped && (metadata != map[] || (priority != 0 && priority != msg.priority)) then
        (q'.(msgs := q'.msgs[id := UpdatedMessage(msg, priority, metadata)]), Ok(()))
      else (q', Ok(()))
  }

  /** `Store.UpdateMessage`. */
  function UpdatedMessage(m: Message, priority: int, metadata: map<string, string>): Message {
    m.(priority := if priority != 0 then priority else m.priority,
       metadata := if metadata != map[] then metadata else m.metadata)
  }

  ghost function AckTimeout(q: Queue, id: nat): (Queue, Result<()>)
    requires MemoryOk(q.ready)
  {
    if id !in q.ack then (q, Err(MessageNotFound))
    else if id !in q.msgs then
      (q.(ready := ReleaseIfFair(q, q.ready, q.ack[id].group), ack := q.ack - {id}), Err(MessageNotFound))
    else (RedeliverOrDrop(q, id, 0).0, Ok(()))
  }

  ghost function Touch(q: Queue, id: nat, now: int): (Queue, Result<()>) {
    if id !in q.ack then (q, Err(MessageNotFound))
    else (q.(ack := q.ack[id := q.ack[id].(priority := now + q.config.settings.ackTimeout)]), Ok(()))
  }

  /** On a message in flight this overwrites the ack deadline with the new priority. */
  ghost function UpdatePriority(q: Queue, id: nat, priority: int): (Queue, Result<()>) {
    if id !in q.msgs then (q, Err(MessageNotFound))
    else
      var group := q.msgs[id].group;
      var stored := q.(msgs := q.msgs[id := q.msgs[id].(priority := priority)]);
      if MemoryGet(q.ready, group, id).Some? then
        (stored.(ready := MemoryUpdatePriority(q.ready, group, id, priority)), Ok(()))
      else if id in q.ack then
        (stored.(ready := MemoryUpdatePriority(q.ready, group, id, priority),
                 ack := q.ack[id := q.ack[id].(priority := priority)]),
         Ok(()))
      else (q, Err(MessageNotFound))
  }

  ghost function Get(q: Queue, id: nat): Result<(nat, Message)> {
    if id in q.msgs then Ok((id, q.msgs[id])) else Err(MessageNotFound)
  }

  // ---------- Restoring from a snapshot ----------

  function RestoredMessage(q: Queue, msg: Message): Message {
    if IsFair(q) then msg else msg.(group := "default")
  }

  ghost function EnqueueRestored(q: Queue, id: nat, message: Message): Queue {
    var msg := RestoredMessage(q, message);
    var stored := q.(msgs := q.msgs[id := msg]);
    if MemoryGet(q.ready, msg.group, id).Some? then stored
    else stored.(ready := MemoryEnqueue(q.ready, msg.group, id, msg.priority))
  }

  ghost function RestoreUnacked(q: Queue, id: nat, message: Message, deadline: int): Queue
    requires MemoryOk(q.ready)
  {
    var msg := RestoredMessage(q, message);
    var stored := q.(msgs := q.msgs[id := msg]);
    if id in q.ack then stored.(ack := q.ack[id := q.ack[id].(priority := deadline)])
    else
      var ready := if MemoryGet(q.ready, msg.group, id).Some? then MemoryDelete(q.ready, msg.group, id) else q.ready;
      stored.(ready := MemoryMarkUnacked(ready, msg.group),
              ack := q.ack[id := Item(id, deadline, msg.group)])
  }
}
