/**
 * A node that restarts without a snapshot replays the log from its first entry with empty memory, over
 * the database the earlier run left behind. It ends in the state of a run from an empty database.
 */
module Replay {
  import opened Types
  import opened Fsm
  import opened FsmInvariant
  import opened QueueInvariant
  import opened Changes
  import Q = QueueSpec
  import MF = MemoryFacts

  // ---------- One queue over leftover messages ----------

  /** `all` has the messages `own`, and apart from them exactly the leftovers `left`. */
  ghost predicate Covers(own: map<nat, Message>, all: map<nat, Message>, left: set<nat>) {
    && (forall id :: id in own ==> id in all && all[id] == own[id] && id !in left)
    && (forall id :: id in all && id !in own ==> id in left)
    && (forall id :: id in left ==> id in all)
  }

  lemma Found(own: map<nat, Message>, all: map<nat, Message>, left: set<nat>, id: nat)
    requires Covers(own, all, left)
    ensures id in own ==> id in all && all[id] == own[id]
    ensures id in all <==> id in own || id in left
  {
  }

  lemma Written(own: map<nat, Message>, all: map<nat, Message>, left: set<nat>, id: nat, m: Message)
    requires Covers(own, all, left)
    ensures Covers(own[id := m], all[id := m], left - {id})
    ensures id in own ==> left - {id} == left
  {
  }

  lemma Removed(own: map<nat, Message>, all: map<nat, Message>, left: set<nat>, id: nat)
    requires Covers(own, all, left)
    ensures Covers(own - {id}, all - {id}, left - {id})
    ensures id in own ==> left - {id} == left
  {
  }

  ghost predicate SameMemory(q: Q.Queue, p: Q.Queue) {
    q.config == p.config && q.ready == p.ready && q.ack == p.ack
  }

  ghost predicate Alike(q: Q.Queue, p: Q.Queue, left: set<nat>) {
    SameMemory(q, p) && Covers(q.msgs, p.msgs, left)
  }

  lemma InMemoryIsStored(q: Q.Queue, id: nat)
    requires Inv(q)
    ensures id in q.ack ==> id in q.msgs && id !in Q.Items(q.ready)
    ensures id in Q.Items(q.ready) ==> id in q.msgs
  {
    hide Q.MemoryOk, MF.SameKind, AllAccepted, Slots, Q.Items;
  }

  lemma DequeueAlike(q: Q.Queue, p: Q.Queue, left: set<nat>, ack: bool, mixed: nat, now: int)
    requires Inv(q) && Alike(q, p, left)
    ensures Q.MemoryOk(p.ready)
    ensures Alike(Q.Dequeue(q, ack, mixed, now).0, Q.Dequeue(p, ack, mixed, now).0, left)
    ensures Q.Dequeue(q, ack, mixed, now).1 == Q.Dequeue(p, ack, mixed, now).1
  {
    hide Q.MemoryOk, Q.Items, Q.MemoryDequeue, Consistent, MF.SameKind, AllAccepted, Q.Delivered, Covers, MF.Becomes;
    MF.DequeueFacts(q.ready, ack, mixed, now);
    var x := Q.MemoryDequeue(q.ready, ack, mixed, now).0;
    if x.Some? {
      var id := x.value.id;
      InMemoryIsStored(q, id);
      Found(q.msgs, p.msgs, left, id);
      Written(q.msgs, p.msgs, left, id, Q.Delivered(q.msgs[id]));
      Removed(q.msgs, p.msgs, left, id);
    }
  }

  lemma DeleteAlike(q: Q.Queue, p: Q.Queue, left: set<nat>, id: nat)
    requires Inv(q) && Alike(q, p, left)
    ensures Q.MemoryOk(p.ready)
    ensures Alike(Q.Delete(q, id).0, Q.Delete(p, id).0, left - {id})
    ensures Q.Delete(q, id).1 == Q.Delete(p, id).1 <==> id !in left
  {
    hide Q.MemoryOk, Q.Items, Q.Unacked, Q.MemoryDelete, Q.MemoryRelease, Consistent, MF.SameKind, AllAccepted, Covers;
    InMemoryIsStored(q, id);
    Found(q.msgs, p.msgs, left, id);
    NotOwn(q.msgs, p.msgs, left, id);
    Removed(q.msgs, p.msgs, left, id);
    if id in p.msgs && id !in q.msgs {
      MF.DeleteFacts(q.ready, p.msgs[id].group, id);
      assert q.ack - {id} == q.ack && q.msgs - {id} == q.msgs;
    } else if id !in p.msgs {
      assert left - {id} == left;
    }
  }

  lemma NotOwn(own: map<nat, Message>, all: map<nat, Message>, left: set<nat>, id: nat)
    requires Covers(own, all, left)
    ensures id in left ==> id !in own
  {
  }

  lemma Outcomes(a: Result<()>, b: Result<()>)
    ensures Outcome(a) == Outcome(b) <==> a == b
  {
    assert a.Ok? ==> a.value == ();
    assert b.Ok? ==> b.value == ();
  }

  lemma GetAlike(q: Q.Queue, p: Q.Queue, left: set<nat>, id: nat)
    requires Alike(q, p, left)
    ensures Q.Get(q, id) == Q.Get(p, id) <==> id !in left
  {
  }

  lemma RedeliverAlike(q: Q.Queue, p: Q.Queue, left: set<nat>, id: nat, priority: int)
    requires Inv(q) && Alike(q, p, left) && id in q.ack
    ensures Q.MemoryOk(p.ready) && id in q.msgs && id in p.msgs
    ensures Alike(Q.RedeliverOrDrop(q, id, priority).0, Q.RedeliverOrDrop(p, id, priority).0, left)
    ensures Q.RedeliverOrDrop(q, id, priority).1 == Q.RedeliverOrDrop(p, id, priority).1
  {
    hide Q.MemoryOk, Q.Items, Q.MemoryEnqueue, Q.MemoryRelease, Consistent, MF.SameKind, AllAccepted, Q.Delete, Covers;
    InMemoryIsStored(q, id);
    Found(q.msgs, p.msgs, left, id);
    NotOwn(q.msgs, p.msgs, left, id);
    DeleteAlike(q, p, left, id);
    assert left - {id} == left;
  }

  lemma NackAlike(q: Q.Queue, p: Q.Queue, left: set<nat>, id: nat, priority: int, metadata: map<string, string>)
    requires Inv(q) && Alike(q, p, left)
    ensures Q.MemoryOk(p.ready)
    ensures Alike(Q.Nack(q, id, priority, metadata).0, Q.Nack(p, id, priority, metadata).0, left)
    ensures Q.Nack(q, id, priority, metadata).1 == Q.Nack(p, id, priority, metadata).1
  {
    hide Q.MemoryOk, Q.Items, Q.RedeliverOrDrop, Consistent, MF.SameKind, AllAccepted, Covers, Q.UpdatedMessage;
    InMemoryIsStored(q, id);
    if id in q.ack {
      Found(q.msgs, p.msgs, left, id);
      NotOwn(q.msgs, p.msgs, left, id);
      RedeliverAlike(q, p, left, id, priority);
      var q', p' := Q.RedeliverOrDrop(q, id, priority).0, Q.RedeliverOrDrop(p, id, priority).0;
      Written(q'.msgs, p'.msgs, left, id, Q.UpdatedMessage(q.msgs[id], priority, metadata));
      assert left - {id} == left;
    }
  }

  lemma AckTimeoutAlike(q: Q.Queue, p: Q.Queue, left: set<nat>, id: nat)
    requires Inv(q) && Alike(q, p, left)
    ensures Q.MemoryOk(p.ready)
    ensures Alike(Q.AckTimeout(q, id).0, Q.AckTimeout(p, id).0, left)
    ensures Q.AckTimeout(q, id).1 == Q.AckTimeout(p, id).1
  {
    hide Q.MemoryOk, Q.Items, Q.RedeliverOrDrop, Consistent, MF.SameKind, AllAccepted, Q.MemoryRelease, Covers;
    InMemoryIsStored(q, id);
    if id in q.ack {
      Found(q.msgs, p.msgs, left, id);
      RedeliverAlike(q, p, left, id, 0);
    }
  }

  lemma AckAlike(q: Q.Queue, p: Q.Queue, left: set<nat>, id: nat)
    requires Inv(q) && Alike(q, p, left)
    ensures Alike(Q.Ack(q, id).0, Q.Ack(p, id).0, left) && Q.Ack(q, id).1 == Q.Ack(p, id).1
  {
    hide Q.MemoryOk, Q.Items, Consistent, MF.SameKind, AllAccepted, Q.MemoryRelease, Covers;
    InMemoryIsStored(q, id);
    Found(q.msgs, p.msgs, left, id);
    Removed(q.msgs, p.msgs, left, id);
  }

  lemma UpdatePriorityAlike(q: Q.Queue, p: Q.Queue, left: set<nat>, id: nat, priority: int)
    requires Inv(q) && Alike(q, p, left)
    ensures Alike(Q.UpdatePriority(q, id, priority).0, Q.UpdatePriority(p, id, priority).0, left)
    ensures Q.UpdatePriority(q, id, priority).1 == Q.UpdatePriority(p, id, priority).1
  {
    hide Q.MemoryOk, Q.Items, Consistent, MF.SameKind, AllAccepted, Q.MemoryGet, Q.MemoryUpdatePriority, Covers;
    InMemoryIsStored(q, id);
    Found(q.msgs, p.msgs, left, id);
    if id in q.msgs { Written(q.msgs, p.msgs, left, id, q.msgs[id].(priority := priority)); }
    if id in p.msgs { MF.GetFacts(q.ready, p.msgs[id].group, id); }
  }

  lemma EnqueueAlike(q: Q.Queue, p: Q.Queue, left: set<nat>, e: Entry)
    requires Alike(q, p, left) && e.cmd.Enqueue? && Q.MemoryOk(q.ready)
    ensures Alike(OnQueue(q, e).0, OnQueue(p, e).0, left - {e.cmd.id}) && OnQueue(q, e).1 == OnQueue(p, e).1
  {
    hide Q.MemoryOk, Q.MemoryGet, Q.MemoryEnqueue, Covers;
    var c := e.cmd;
    Written(q.msgs, p.msgs, left, c.id,
            Message(if Q.IsFair(q) then c.group else "default", c.priority, c.content, c.metadata, 0));
  }

  /** What is left over after a command: an id that is enqueued or deleted is up to date from then on. */
  function Remaining(left: set<nat>, cmd: Command): set<nat> {
    if cmd.Enqueue? || cmd.Delete? then left - {cmd.id} else left
  }

  /** Only Get and Delete look for the message in the store alone. */
  predicate Reads(cmd: Command, left: set<nat>) {
    (cmd.Get? || cmd.Delete?) && cmd.id in left
  }

  /** The answers differ exactly if a leftover is read. */
  lemma CommandAlike(q: Q.Queue, p: Q.Queue, left: set<nat>, e: Entry)
    requires Inv(q) && Enabled(q, e) && Alike(q, p, left)
    ensures Q.MemoryOk(p.ready)
    ensures Alike(OnQueue(q, e).0, OnQueue(p, e).0, Remaining(left, e.cmd))
    ensures OnQueue(q, e).1 == OnQueue(p, e).1 <==> !Reads(e.cmd, left)
  {
    hide Mixing.Mix64, Q.Dequeue, Q.Enqueue, Q.Delete, Q.Ack, Q.Nack, Q.AckTimeout, Q.UpdatePriority, Q.MemoryOk,
      Consistent, MF.SameKind, AllAccepted, MF.Accepts, Covers;
    match e.cmd
    case Enqueue(_, id, group, priority, content, metadata) => EnqueueAlike(q, p, left, e);
    case Dequeue(_, ack) => DequeueAlike(q, p, left, ack, Mixing.Mix64(e.index), e.now);
    case Get(_, id) => GetAlike(q, p, left, id);
    case Delete(_, id) =>
      DeleteAlike(q, p, left, id);
      Outcomes(Q.Delete(q, id).1, Q.Delete(p, id).1);
    case Ack(_, id) => AckAlike(q, p, left, id);
    case Nack(_, id, priority, metadata) => NackAlike(q, p, left, id, priority, metadata);
    case Touch(_, id) =>
    case AckTimeout(_, id) => AckTimeoutAlike(q, p, left, id);
    case UpdatePriority(_, id, priority) => UpdatePriorityAlike(q, p, left, id, priority);
  }

  // ---------- The whole state ----------

  /** `all` has the configurations `own`, and those of `last` for queues that did not exist so far. */
  ghost predicate ConfigsMatch(
    own: map<string, Config>, all: map<string, Config>, last: map<string, Config>, seen: set<string>)
  {
    && own.Keys <= seen
    && (forall n :: n in own ==> n in all && all[n] == own[n])
    && (forall n :: n in all && n !in own ==> n !in seen && n in last)
    && (forall n :: n in last && n !in seen ==> n in all)
  }

  /** Per queue, the ids of the messages that are left over from the earlier run. */
  type Leftovers = map<string, set<nat>>

  function LeftIn(left: Leftovers, name: string): set<nat> {
    if name in left then left[name] else {}
  }

  /** `t` replays `s` over the database `last`; `seen` are the queues that existed so far. */
  ghost predicate Matches(s: State, t: State, last: Db, seen: set<string>, left: Leftovers) {
    && t.queues == s.queues
    && ConfigsMatch(s.db.configs, t.db.configs, last.configs, seen)
    && (forall n: string :: Covers(MsgsOf(s.db, n), MsgsOf(t.db, n), LeftIn(left, n)))
    && (forall n :: n in t.db.msgs ==> t.db.msgs[n] != map[])
  }

  /** What is left over after an entry. */
  function LeftAfter(s: State, e: Entry, left: Leftovers): Leftovers {
    var name := e.cmd.queue;
    if name !in s.queues || e.cmd.CreateQueue? || e.cmd.UpdateQueue? then left
    else if e.cmd.DeleteQueue? then left[name := {}]
    else left[name := Remaining(LeftIn(left, name), e.cmd)]
  }

  lemma MatchesWith(
    s: State, t: State, last: Db, seen: set<string>, left: Leftovers, name: string, q: Q.Queue, p: Q.Queue,
    rest: set<nat>)
    requires Matches(s, t, last, seen, left) && name in s.queues && Alike(q, p, rest)
    ensures Matches(With(s, name, q), With(t, name, p), last, seen, left[name := rest])
  {
    hide Covers;
    var s', t', left' := With(s, name, q), With(t, name, p), left[name := rest];
    forall n: string ensures Covers(MsgsOf(s'.db, n), MsgsOf(t'.db, n), LeftIn(left', n)) {
      assert Covers(MsgsOf(s.db, n), MsgsOf(t.db, n), LeftIn(left, n));
    }
  }

  /** The queue of a command is in the store that is replayed over, but not in the first run's yet. */
  ghost predicate Early(cmd: Command, last: Db, seen: set<string>) {
    !cmd.CreateQueue? && cmd.queue !in seen && cmd.queue in last.configs
  }

  lemma MessagesStep(default: uint32, s: State, t: State, last: Db, seen: set<string>, left: Leftovers, e: Entry)
    requires FsmInv(default, s) && Legal(s, e) && MemoryOk(s) && MemoryOk(t) && Matches(s, t, last, seen, left)
    requires OnMessages(e.cmd) && !Early(e.cmd, last, seen)
    ensures Matches(Apply(default, s, e).0, Apply(default, t, e).0, last, seen, LeftAfter(s, e, left))
    ensures Apply(default, s, e).1 == Apply(default, t, e).1
       <==> !(e.cmd.queue in s.queues && Reads(e.cmd, LeftIn(left, e.cmd.queue)))
  {
    hide MemoryOk, Legal, Inv, OnQueue, Enabled, Covers, With;
    var name := e.cmd.queue;
    if name in s.queues {
      ApplyOnQueue(default, s, e);
      var q, p := QueueOf(s, name), QueueOf(t, name);
      assert Covers(MsgsOf(s.db, name), MsgsOf(t.db, name), LeftIn(left, name));
      CommandAlike(q, p, LeftIn(left, name), e);
      MatchesWith(s, t, last, seen, left, name, OnQueue(q, e).0, OnQueue(p, e).0, Remaining(LeftIn(left, name), e.cmd));
    } else {
      ApplyNoQueue(default, s, e);
    }
  }

  lemma CreateStep(
    default: uint32, s: State, t: State, last: Db, seen: set<string>, left: Leftovers,
    name: string, kind: QueueType, settings: Settings)
    requires FsmInv(default, s) && Matches(s, t, last, seen, left)
    ensures var (s', r) := Created(default, s, name, kind, settings);
      var (t', r') := Created(default, t, name, kind, settings);
      r == r' && Matches(s', t', last, seen + s'.queues.Keys, left)
  {
    hide QueueOk, Validated, Covers, Q.NewMemory, ConfigsMatch;
    OwnAreSeen(s, t, last, seen, left);
    var (s', r) := Created(default, s, name, kind, settings);
    if name in s.queues || r.Err? {
      assert seen + s'.queues.Keys == seen;
    } else {
      var config := s'.queues[name].config;
      OneMoreConfig(s.db.configs, t.db.configs, last.configs, seen, name, config);
      assert seen + s'.queues.Keys == seen + {name};
    }
  }

  lemma OwnAreSeen(s: State, t: State, last: Db, seen: set<string>, left: Leftovers)
    requires Matches(s, t, last, seen, left)
    ensures s.db.configs.Keys <= seen
  {
    hide Covers;
  }

  lemma OneMoreConfig(
    own: map<string, Config>, all: map<string, Config>, last: map<string, Config>, seen: set<string>,
    name: string, config: Config)
    requires ConfigsMatch(own, all, last, seen)
    ensures ConfigsMatch(own[name := config], all[name := config], last, seen + {name})
  {
  }

  lemma UpdateStep(
    default: uint32, s: State, t: State, last: Db, seen: set<string>, left: Leftovers, name: string, settings: Settings)
    requires FsmInv(default, s) && Matches(s, t, last, seen, left) && name in s.queues
    ensures var (s', r) := Updated(default, s, name, settings);
      var (t', r') := Updated(default, t, name, settings);
      r == r' && Matches(s', t', last, seen + s'.queues.Keys, left)
  {
    hide QueueOk, WithTimeout, Covers, Q.MemoryUpdateMaxUnacked, ConfigsMatch;
    OwnAreSeen(s, t, last, seen, left);
    var s' := Updated(default, s, name, settings).0;
    OneMoreConfig(s.db.configs, t.db.configs, last.configs, seen, name, s'.queues[name].config);
    assert seen + {name} == seen && seen + s'.queues.Keys == seen;
  }

  lemma DropStep(default: uint32, s: State, t: State, last: Db, seen: set<string>, left: Leftovers, name: string)
    requires FsmInv(default, s) && Matches(s, t, last, seen, left) && (name in seen || name !in last.configs)
    ensures var (s', r) := Dropped(s, name);
      var (t', r') := Dropped(t, name);
      r == r' && Matches(s', t', last, seen + s'.queues.Keys, if name in s.queues then left[name := {}] else left)
  {
    hide QueueOk, Covers, Q.NewMemory;
    NothingCovers();
    var s', t' := Dropped(s, name).0, Dropped(t, name).0;
    var left' := if name in s.queues then left[name := {}] else left;
    forall n: string ensures Covers(MsgsOf(s'.db, n), MsgsOf(t'.db, n), LeftIn(left', n)) {
      assert Covers(MsgsOf(s.db, n), MsgsOf(t.db, n), LeftIn(left, n));
    }
  }

  lemma QueuesStep(default: uint32, s: State, t: State, last: Db, seen: set<string>, left: Leftovers, e: Entry)
    requires FsmInv(default, s) && Legal(s, e) && MemoryOk(s) && MemoryOk(t) && Matches(s, t, last, seen, left)
    requires !OnMessages(e.cmd) && !Early(e.cmd, last, seen)
    ensures Matches(Apply(default, s, e).0, Apply(default, t, e).0, last, seen + Apply(default, s, e).0.queues.Keys,
                    LeftAfter(s, e, left))
    ensures Apply(default, s, e).1 == Apply(default, t, e).1
  {
    hide FsmInv, MemoryOk, Matches, Created, Updated, Dropped;
    match e.cmd
    case CreateQueue(name, kind, settings) => CreateStep(default, s, t, last, seen, left, name, kind, settings);
    case UpdateQueue(name, settings) => UpdateStep(default, s, t, last, seen, left, name, settings);
    case DeleteQueue(name) => DropStep(default, s, t, last, seen, left, name);
  }

  lemma NothingCovers()
    ensures Covers(map[], map[], {})
  {
  }

  /** The queues that existed in one of the first `n + 1` states. */
  ghost function Seen(states: seq<State>, n: nat): set<string>
    requires n < |states|
  {
    if n == 0 then states[0].queues.Keys else Seen(states, n - 1) + states[n].queues.Keys
  }

  /** What is left over of the database `last` after the first `n` entries. */
  ghost function Left(states: seq<State>, log: seq<Entry>, last: Db, n: nat): Leftovers
    requires n <= |log| < |states|
  {
    if n == 0 then map name | name in last.msgs :: last.msgs[name].Keys
    else LeftAfter(states[n - 1], log[n - 1], Left(states, log, last, n - 1))
  }

  ghost predicate EarlyAt(states: seq<State>, log: seq<Entry>, last: Db, n: nat)
    requires n < |log| < |states|
  {
    Early(log[n].cmd, last, Seen(states, n))
  }

  /** The `n`-th entry reads a message that is left over. */
  ghost predicate ReadsAt(states: seq<State>, log: seq<Entry>, last: Db, n: nat)
    requires n < |log| < |states|
  {
    log[n].cmd.queue in states[n].queues && Reads(log[n].cmd, LeftIn(Left(states, log, last, n), log[n].cmd.queue))
  }

  /** Before entry `n`, no command comes ahead of the creation of a queue that `last` has. */
  ghost predicate NoneEarly(states: seq<State>, log: seq<Entry>, last: Db, n: nat)
    requires n <= |log| < |states|
  {
    forall i :: 0 <= i < n ==> !EarlyAt(states, log, last, i)
  }

  /** The states of a replay: as a run, but with no demand on the entries. */
  ghost predicate IsTrace(default: uint32, states: seq<State>, log: seq<Entry>) {
    && |states| == |log| + 1
    && forall i :: 0 <= i < |log| ==> MemoryOk(states[i]) && states[i + 1] == Apply(default, states[i], log[i]).0
  }

  /** `states` is a run from nothing, and `replay` applies the same log over the database `last`. */
  ghost predicate IsReplay(default: uint32, states: seq<State>, log: seq<Entry>, replay: seq<State>, last: Db) {
    && DefaultOk(default) && IsRun(default, states, log) && states[0] == EMPTY
    && IsTrace(default, replay, log) && replay[0] == State(last, map[])
    && forall q :: q in last.msgs ==> last.msgs[q] != map[]
  }

  lemma StepMatches(default: uint32, s: State, t: State, last: Db, seen: set<string>, left: Leftovers, e: Entry)
    requires DefaultOk(default) && FsmInv(default, s) && Legal(s, e) && MemoryOk(t) && Matches(s, t, last, seen, left)
    requires !Early(e.cmd, last, seen)
    ensures MemoryOk(s)
    ensures Matches(Apply(default, s, e).0, Apply(default, t, e).0, last, seen + Apply(default, s, e).0.queues.Keys,
                    LeftAfter(s, e, left))
    ensures Apply(default, s, e).1 == Apply(default, t, e).1
       <==> !(e.cmd.queue in s.queues && Reads(e.cmd, LeftIn(left, e.cmd.queue)))
  {
    hide FsmInv, MemoryOk, Legal, Apply, Early, Matches;
    InvGivesMemoryOk(default, s);
    if OnMessages(e.cmd) {
      MessagesStep(default, s, t, last, seen, left, e);
      ApplyKeepsInv(default, s, e);
      SeenCovers(default, Apply(default, s, e).0, Apply(default, t, e).0, last, seen, LeftAfter(s, e, left));
    } else {
      QueuesStep(default, s, t, last, seen, left, e);
    }
  }

  lemma SeenCovers(default: uint32, s: State, t: State, last: Db, seen: set<string>, left: Leftovers)
    requires FsmInv(default, s) && Matches(s, t, last, seen, left)
    ensures seen + s.queues.Keys == seen
  {
    hide QueueOk, Covers;
  }

  /** An entry for a queue that only the replay knows fails the first time, and not for that reason again. */
  lemma EarlyDiffers(default: uint32, s: State, t: State, last: Db, seen: set<string>, left: Leftovers, e: Entry)
    requires FsmInv(default, s) && Legal(s, e) && MemoryOk(s) && MemoryOk(t) && Matches(s, t, last, seen, left)
    requires Early(e.cmd, last, seen)
    ensures Apply(default, s, e).1 == Failed(QueueNotFound) != Apply(default, t, e).1
  {
    hide MemoryOk, OnQueue, Covers, QueueOk, Q.NewMemory;
    if OnMessages(e.cmd) {
      ApplyNoQueue(default, s, e);
      LoadKeepsMemoryOk(t, e.cmd.queue);
      QueueIsFound(QueueOf(Load(t, e.cmd.queue).value, e.cmd.queue), e);
    }
  }

  lemma QueueIsFound(q: Q.Queue, e: Entry)
    requires Q.MemoryOk(q.ready) && OnMessages(e.cmd)
    ensures OnQueue(q, e).1 != Failed(QueueNotFound)
  {
    hide Q.MemoryOk, Q.MemoryDequeue, Q.Items, Mixing.Mix64, Q.MemoryGet, Q.RedeliverOrDrop;
  }

  /**
   * All along, the replay has the first run's queues in memory, and its store differs from the first
   * run's by exactly the leftovers.
   */
  lemma {:induction false} ReplayMatches(
    default: uint32, states: seq<State>, log: seq<Entry>, replay: seq<State>, last: Db, n: nat)
    requires IsReplay(default, states, log, replay, last) && n <= |log| && NoneEarly(states, log, last, n)
    ensures Matches(states[n], replay[n], last, Seen(states, n), Left(states, log, last, n))
    decreases n
  {
    hide FsmInv, MemoryOk, Legal, Apply, Matches, Early;
    if n == 0 {
      StartMatches(last);
      assert Seen(states, 0) == {};
    } else {
      ReplayMatches(default, states, log, replay, last, n - 1);
      EmptyInv(default);
      RunKeepsInv(default, states, log, n - 1);
      assert !EarlyAt(states, log, last, n - 1);
      StepMatches(default, states[n - 1], replay[n - 1], last, Seen(states, n - 1), Left(states, log, last, n - 1),
                  log[n - 1]);
    }
  }

  /** The first `n` commands in order, the answer to the next agrees exactly if it is in order and reads no leftover. */
  lemma AnswerAgreesIff(
    default: uint32, states: seq<State>, log: seq<Entry>, replay: seq<State>, last: Db, n: nat)
    requires IsReplay(default, states, log, replay, last) && n < |log| && NoneEarly(states, log, last, n)
    ensures MemoryOk(states[n]) && MemoryOk(replay[n]) && states[n].queues == replay[n].queues
    ensures Apply(default, states[n], log[n]).1 == Apply(default, replay[n], log[n]).1
       <==> !EarlyAt(states, log, last, n) && !ReadsAt(states, log, last, n)
  {
    hide FsmInv, MemoryOk, Legal, Apply, ConfigsMatch, Early, Covers;
    ReplayMatches(default, states, log, replay, last, n);
    EmptyInv(default);
    RunKeepsInv(default, states, log, n);
    var seen, left := Seen(states, n), Left(states, log, last, n);
    if EarlyAt(states, log, last, n) {
      InvGivesMemoryOk(default, states[n]);
      EarlyDiffers(default, states[n], replay[n], last, seen, left, log[n]);
    } else {
      StepMatches(default, states[n], replay[n], last, seen, left, log[n]);
    }
  }

  ghost predicate Agrees(default: uint32, states: seq<State>, log: seq<Entry>, replay: seq<State>, n: nat)
    requires n < |log| < |states| && |log| < |replay|
  {
    && MemoryOk(states[n]) && MemoryOk(replay[n])
    && Apply(default, states[n], log[n]).1 == Apply(default, replay[n], log[n]).1
  }

  /**
   * A replay gives the first run's answers, but for reads of leftovers, exactly if no command comes
   * ahead of the creation of a queue that the database has.
   */
  lemma ReplayAgreesIff(default: uint32, states: seq<State>, log: seq<Entry>, replay: seq<State>, last: Db)
    requires IsReplay(default, states, log, replay, last)
    ensures (forall n :: 0 <= n < |log| ==> Agrees(default, states, log, replay, n) || ReadsAt(states, log, last, n))
       <==> NoneEarly(states, log, last, |log|)
  {
    hide MemoryOk, Legal, Apply, Agrees, ReadsAt, EarlyAt;
    if NoneEarly(states, log, last, |log|) {
      forall n | 0 <= n < |log| ensures Agrees(default, states, log, replay, n) || ReadsAt(states, log, last, n) {
        Agreement(default, states, log, replay, last, n);
      }
    } else {
      var n := FirstEarly(states, log, last, |log|);
      Agreement(default, states, log, replay, last, n);
    }
  }

  lemma Agreement(default: uint32, states: seq<State>, log: seq<Entry>, replay: seq<State>, last: Db, n: nat)
    requires IsReplay(default, states, log, replay, last) && n < |log| && NoneEarly(states, log, last, n)
    ensures Agrees(default, states, log, replay, n)
       <==> !EarlyAt(states, log, last, n) && !ReadsAt(states, log, last, n)
    ensures EarlyAt(states, log, last, n) ==> !ReadsAt(states, log, last, n)
  {
    hide MemoryOk, Legal, Apply;
    AnswerAgreesIff(default, states, log, replay, last, n);
    EarlyReadsNothing(states, log, last, n);
  }

  lemma EarlyReadsNothing(states: seq<State>, log: seq<Entry>, last: Db, n: nat)
    requires n < |log| < |states|
    ensures EarlyAt(states, log, last, n) ==> !ReadsAt(states, log, last, n)
  {
    SeenInTheEnd(states, n);
  }

  lemma {:induction false} FirstEarly(states: seq<State>, log: seq<Entry>, last: Db, m: nat) returns (n: nat)
    requires m <= |log| < |states| && !NoneEarly(states, log, last, m)
    ensures n < m && EarlyAt(states, log, last, n) && NoneEarly(states, log, last, n)
    decreases m
  {
    hide EarlyAt;
    if NoneEarly(states, log, last, m - 1) {
      n := m - 1;
    } else {
      n := FirstEarly(states, log, last, m - 1);
    }
  }

  lemma StartMatches(last: Db)
    requires forall q :: q in last.msgs ==> last.msgs[q] != map[]
    ensures Matches(EMPTY, State(last, map[]), last, {}, map name | name in last.msgs :: last.msgs[name].Keys)
  {
  }

  lemma SeenInTheEnd(states: seq<State>, n: nat)
    requires n < |states|
    ensures states[n].queues.Keys <= Seen(states, n)
  {
  }

  lemma {:induction false} LeftShrinks(states: seq<State>, log: seq<Entry>, last: Db, n: nat, name: string)
    requires n <= |log| < |states|
    ensures LeftIn(Left(states, log, last, n), name) <= MsgsOf(last, name).Keys
  {
    if n > 0 { LeftShrinks(states, log, last, n - 1, name); }
  }

  /** Over the database of the run's own end, nothing is left over. */
  lemma NothingLeft(default: uint32, s: State, t: State, seen: set<string>, left: Leftovers)
    requires FsmInv(default, s) && Matches(s, t, s.db, seen, left) && s.queues.Keys <= seen
    requires forall n: string :: LeftIn(left, n) <= MsgsOf(s.db, n).Keys
    ensures t == s
  {
    hide QueueOk;
    forall n: string ensures MsgsOf(t.db, n) == MsgsOf(s.db, n) {
      assert Covers(MsgsOf(s.db, n), MsgsOf(t.db, n), LeftIn(left, n));
    }
    forall n ensures n in t.db.msgs <==> n in s.db.msgs {
      assert MsgsOf(t.db, n) == MsgsOf(s.db, n);
    }
    forall n | n in t.db.msgs ensures t.db.msgs[n] == s.db.msgs[n] {
      assert MsgsOf(t.db, n) == MsgsOf(s.db, n);
    }
    assert t.db.msgs == s.db.msgs;
    assert t.db.configs == s.db.configs;
  }

  /**
   * Replaying the whole log over the database it left ends in the same store and memory, delivery
   * counts included.
   */
  lemma ReplayEndsTheSame(default: uint32, states: seq<State>, log: seq<Entry>, replay: seq<State>)
    requires |states| == |log| + 1 && IsReplay(default, states, log, replay, states[|log|].db)
    requires NoneEarly(states, log, states[|log|].db, |log|)
    ensures replay[|log|] == states[|log|]
  {
    hide MemoryOk, Legal, Apply, Matches, QueueOk;
    var last := states[|log|].db;
    EmptyInv(default);
    RunKeepsInv(default, states, log, |log|);
    ReplayMatches(default, states, log, replay, last, |log|);
    SeenInTheEnd(states, |log|);
    forall n: string ensures LeftIn(Left(states, log, last, |log|), n) <= MsgsOf(last, n).Keys {
      LeftShrinks(states, log, last, |log|, n);
    }
    NothingLeft(default, states[|log|], replay[|log|], Seen(states, |log|), Left(states, log, last, |log|));
  }
}
