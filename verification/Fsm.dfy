/**
 * The replicated state machine: named queues over one message store, driven by the Raft log. A log
 * entry carries its index, which seeds weighted picks, and the leader's append time in Unix seconds,
 * which is the only clock.
 */
module Fsm {
  import opened Types
  import opened Mixing
  import Q = QueueSpec
  import MF = MemoryFacts

  /** Badger: queue configurations and, per queue, messages. Queues without messages have no entry. */
  datatype Db = Db(configs: map<string, Config>, msgs: map<string, map<nat, Message>>)

  /** The part of a queue that lives in memory only. */
  datatype Loaded = Loaded(config: Config, ready: Q.Memory, ack: map<nat, Item>)

  datatype State = State(db: Db, queues: map<string, Loaded>)

  datatype Command =
    | Enqueue(queue: string, id: nat, group: string, priority: int, content: string, metadata: map<string, string>)
    | Dequeue(queue: string, ack: bool)
    | Get(queue: string, id: nat)
    | Delete(queue: string, id: nat)
    | Ack(queue: string, id: nat)
    | Nack(queue: string, id: nat, priority: int, metadata: map<string, string>)
    | Touch(queue: string, id: nat)
    | AckTimeout(queue: string, id: nat)
    | UpdatePriority(queue: string, id: nat, priority: int)
    | CreateQueue(queue: string, kind: QueueType, settings: Settings)
    | UpdateQueue(queue: string, settings: Settings)
    | DeleteQueue(queue: string)

  datatype Entry = Entry(index: nat, now: int, cmd: Command)

  /** `Crashed` is a nil dereference. */
  datatype Response = Answered(id: nat, msg: Message) | Done | Failed(error: Error) | Crashed

  const EMPTY := State(Db(map[], map[]), map[])

  // ---------- Store and memory ----------

  function MsgsOf(db: Db, name: string): map<nat, Message> {
    if name in db.msgs then db.msgs[name] else map[]
  }

  function WithMsgs(db: Db, name: string, msgs: map<nat, Message>): Db {
    db.(msgs := if msgs == map[] then db.msgs - {name} else db.msgs[name := msgs])
  }

  function QueueOf(s: State, name: string): Q.Queue
    requires name in s.queues
  {
    var q := s.queues[name];
    Q.Queue(q.config, MsgsOf(s.db, name), q.ready, q.ack)
  }

  function With(s: State, name: string, q: Q.Queue): State {
    State(WithMsgs(s.db, name, q.msgs), s.queues[name := Loaded(q.config, q.ready, q.ack)])
  }

  /** `GetQueue`: a queue known to the store but not in memory is loaded, without its messages. */
  function Load(s: State, name: string): Option<State> {
    if name in s.queues then Some(s)
    else if name in s.db.configs then
      var config := s.db.configs[name];
      Some(s.(queues := s.queues[name := Loaded(config, Q.NewMemory(config), map[])]))
    else None
  }

  // ---------- Queue settings ----------

  /** The checks of `CreateQueue`; `default` is the configured ack timeout. */
  function Validated(default: uint32, kind: QueueType, settings: Settings): Result<Settings> {
    if kind == Delayed && settings.strategy != Unspecified then Err(InvalidStrategy)
    else if kind == Delayed && settings.maxUnacked != 0 then Err(InvalidMaxUnacked)
    else if kind == Fair && settings.strategy == Unspecified then Err(InvalidStrategy)
    else WithTimeout(default, settings)
  }

  function WithTimeout(default: uint32, settings: Settings): Result<Settings> {
    if settings.ackTimeout == 0 then Ok(settings.(ackTimeout := default))
    else if settings.ackTimeout < 10 then Err(InvalidAckTimeout)
    else Ok(settings)
  }

  function Created(default: uint32, s: State, name: string, kind: QueueType, settings: Settings): (State, Result<()>) {
    if name in s.queues then (s, Ok(()))
    else
      match Validated(default, kind, settings)
      case Err(e) => (s, Err(e))
      case Ok(settings) =>
        var config := Config(kind, settings);
        (State(s.db.(configs := s.db.configs[name := config]),
               s.queues[name := Loaded(config, Q.NewMemory(config), map[])]),
         Ok(()))
  }

  function Updated(default: uint32, s: State, name: string, settings: Settings): (State, Response) {
    match Load(s, name)
    case None => (s, Crashed)
    case Some(loaded) =>
      var q := loaded.queues[name];
      if q.config.settings.strategy != settings.strategy then (s, Failed(InvalidQueueSettings))
      else
        match WithTimeout(default, settings)
        case Err(e) => (s, Failed(e))
        case Ok(settings) =>
          var config := q.config.(settings := settings);
          var ready := Q.MemoryUpdateMaxUnacked(q.ready, settings.maxUnacked);
          (State(s.db.(configs := s.db.configs[name := config]),
                 loaded.queues[name := Loaded(config, ready, q.ack)]),
           Done)
  }

  function Dropped(s: State, name: string): (State, Response) {
    if Load(s, name).None? then (s, Failed(QueueNotFound))
    else (State(Db(s.db.configs - {name}, s.db.msgs - {name}), s.queues - {name}), Done)
  }

  // ---------- Applying the log ----------

  function Outcome(r: Result<()>): Response {
    match r case Ok(_) => Done case Err(e) => Failed(e)
  }

  function Answer(r: Result<(nat, Message)>): Response {
    match r case Ok((id, m)) => Answered(id, m) case Err(e) => Failed(e)
  }

  predicate OnMessages(c: Command) {
    !c.CreateQueue? && !c.UpdateQueue? && !c.DeleteQueue?
  }

  /** A command on the messages of one queue. */
  ghost function OnQueue(q: Q.Queue, e: Entry): (Q.Queue, Response)
    requires Q.MemoryOk(q.ready) && OnMessages(e.cmd)
  {
    match e.cmd
    case Enqueue(_, id, group, priority, content, metadata) =>
      var q' := Q.Enqueue(q, id, group, priority, content, metadata); (q', Answered(id, q'.msgs[id]))
    case Dequeue(_, ack) => var (q', r) := Q.Dequeue(q, ack, Mix64(e.index), e.now); (q', Answer(r))
    case Get(_, id) => (q, Answer(Q.Get(q, id)))
    case Delete(_, id) => var (q', r) := Q.Delete(q, id); (q', Outcome(r))
    case Ack(_, id) => var (q', r) := Q.Ack(q, id); (q', Outcome(r))
    case Nack(_, id, priority, metadata) => var (q', r) := Q.Nack(q, id, priority, metadata); (q', Outcome(r))
    case Touch(_, id) => var (q', r) := Q.Touch(q, id, e.now); (q', Outcome(r))
    case AckTimeout(_, id) => var (q', r) := Q.AckTimeout(q, id); (q', Outcome(r))
    case UpdatePriority(_, id, priority) => var (q', r) := Q.UpdatePriority(q, id, priority); (q', Outcome(r))
  }

  ghost predicate MemoryOk(s: State) {
    forall name :: name in s.queues ==> Q.MemoryOk(s.queues[name].ready)
  }

  lemma LoadKeepsMemoryOk(s: State, name: string)
    requires MemoryOk(s) && Load(s, name).Some?
    ensures MemoryOk(Load(s, name).value) && name in Load(s, name).value.queues
  {
    if name !in s.queues { MF.NewMemoryFacts(s.db.configs[name]); }
  }

  /** `FSM.Apply`. */
  ghost function Apply(default: uint32, s: State, e: Entry): (State, Response)
    requires MemoryOk(s)
  {
    match e.cmd
    case CreateQueue(name, kind, settings) =>
      var (s', r) := Created(default, s, name, kind, settings); (s', Outcome(r))
    case UpdateQueue(name, settings) => Updated(default, s, name, settings)
    case DeleteQueue(name) => Dropped(s, name)
    case _ =>
      var name := e.cmd.queue;
      match Load(s, name)
      case None => (s, Failed(QueueNotFound))
      case Some(loaded) =>
        LoadKeepsMemoryOk(s, name);
        var (q', r) := OnQueue(QueueOf(loaded, name), e);
        (With(loaded, name, q'), r)
  }
}
