/** The values that travel through the queue: heap items, stored messages and queue configurations. */
module Types {

  datatype Option<+T> = None | Some(value: T)

  /** An entry of an in-memory queue: `memory.Item`. Message ids are uint64. */
  datatype Item = Item(id: nat, priority: int, group: string)

  /**
   * A stored message, under the key of its id. Metadata comes from protobuf, which does not
   * tell a nil map from an empty one, so the empty map stands for both.
   */
  datatype Message = Message(
    group: string, priority: int, content: string, metadata: map<string, string>, deliveryCount: uint32)

  datatype QueueType = Delayed | Fair

  datatype Strategy = Unspecified | RoundRobin | Weighted

  datatype Settings = Settings(
    strategy: Strategy, maxUnacked: uint32, ackTimeout: uint32, deliveryLimit: uint32)

  datatype Config = Config(kind: QueueType, settings: Settings)

  const MAX_INT64: int := 0x7fff_ffff_ffff_ffff

  const UINT32_SIZE: int := 0x1_0000_0000

  type uint32 = n: nat | n < UINT32_SIZE

  /** A group's bound on messages in flight: a positive int64. */
  type SlotLimit = n: nat | 0 < n <= MAX_INT64 witness 1

  /** A max_unacked setting of zero means no bound. */
  function Limit(maxUnacked: uint32): SlotLimit {
    if maxUnacked == 0 then MAX_INT64 else maxUnacked
  }

  /** Errors of `pkg/errors`. */
  datatype Error =
    | QueueNotFound
    | EmptyQueue
    | MessageNotFound
    | InvalidStrategy
    | InvalidAckTimeout
    | InvalidMaxUnacked
    | InvalidQueueSettings

  datatype Result<+T> = Ok(value: T) | Err(error: Error)

  /** Every item is filed under its own id. */
  ghost predicate Keyed(items: map<nat, Item>) {
    forall id :: id in items ==> items[id].id == id
  }
}
