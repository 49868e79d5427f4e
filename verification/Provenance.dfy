/**
 * Where the fields of a message come from, over whole runs of the log: a message that is handed out has
 * the group, content, priority and metadata that the log last gave it.
 */
module Provenance {
  import opened Types
  import opened Fsm
  import opened FsmInvariant
  import opened QueueInvariant
  import opened Changes
  import opened History
  import opened Effects
  import Q = QueueSpec
  import Rd = Readiness

  /** What a client says about a message. */
  datatype Given = Given(group: string, priority: int, content: string, metadata: map<string, string>)

  /** What a successful command on the message makes of it. */
  function GivenAfter(given: Given, cmd: Command, done: bool, id: nat): Given {
    match cmd
    case UpdatePriority(_, i, priority) => if i == id && done then given.(priority := priority) else given
    case Nack(_, i, priority, metadata) =>
      if i == id && done then
        Given(given.group, if priority != 0 then priority else given.priority, given.content,
              if metadata != map[] then metadata else given.metadata)
      else given
    case _ => given
  }

  function AsGiven(m: Message): Given {
    Given(m.group, m.priority, m.content, m.metadata)
  }

  /** An Enqueue gives a message to a queue; a delayed queue has one group for all. */
  function GivenBy(cmd: Command, kind: QueueType): Given
    requires cmd.Enqueue?
  {
    Given(if kind == Fair then cmd.group else "default", cmd.priority, cmd.content, cmd.metadata)
  }

  predicate EnqueuesId(cmd: Command, id: nat) {
    cmd.Enqueue? && cmd.id == id
  }

  /** A stored message is as the command gave it, or as it was with what the command gave. */
  lemma FieldsMove(q: Q.Queue, e: Entry, id: nat)
    requires Inv(q) && Enabled(q, e)
    ensures Q.MemoryOk(q.ready)
    ensures var (q', r) := OnQueue(q, e);
      id in q'.msgs ==>
        if EnqueuesId(e.cmd, id) then AsGiven(q'.msgs[id]) == GivenBy(e.cmd, q.config.kind)
        else id in q.msgs && AsGiven(q'.msgs[id]) == GivenAfter(AsGiven(q.msgs[id]), e.cmd, r == Done, id)
  {
    hide Inv, Q.MemoryOk, Q.Items, OnQueue;
    match e.cmd
    case Enqueue(_, _, _, _, _, _) =>
      Rd.InvGivesOk(q);
      EnqueueEffect(q, e);
    case Dequeue(_, _) => DequeueEffect(q, e);
    case Get(_, _) => GetEffect(q, e);
    case Delete(_, _) => DeleteEffect(q, e);
    case Ack(_, _) => AckEffect(q, e);
    case Nack(_, _, _, _) => NackEffect(q, e);
    case Touch(_, _) => TouchEffect(q, e);
    case AckTimeout(_, _) => AckTimeoutEffect(q, e);
    case UpdatePriority(_, _, _) => UpdatePriorityEffect(q, e);
  }

  // ---------- One entry ----------

  ghost function StoredAs(s: State, name: string, id: nat): Message
    requires Stored(s, name, id)
  {
    MsgsOf(s.db, name)[id]
  }

  /** What the log has given the message so far, after one more entry. */
  ghost function GivenNext(
    default: uint32, s: State, e: Entry, name: string, id: nat, given: Option<Given>): Option<Given>
    requires MemoryOk(s)
  {
    if e.cmd.queue != name || name !in s.queues then given
    else if EnqueuesId(e.cmd, id) then Some(GivenBy(e.cmd, s.queues[name].config.kind))
    else if given.None? then None
    else Some(GivenAfter(given.value, e.cmd, Apply(default, s, e).1 == Done, id))
  }

  ghost predicate AsLastGiven(s: State, name: string, id: nat, given: Option<Given>) {
    Stored(s, name, id) ==> given == Some(AsGiven(StoredAs(s, name, id)))
  }

  lemma EntryOnMessages(default: uint32, s: State, e: Entry, name: string, id: nat, given: Option<Given>)
    requires DefaultOk(default) && FsmInv(default, s) && Legal(s, e) && MemoryOk(s) && OnMessages(e.cmd)
    requires AsLastGiven(s, name, id, given)
    ensures AsLastGiven(Apply(default, s, e).0, name, id, GivenNext(default, s, e, name, id, given))
  {
    hide FsmInv, MemoryOk, Legal, Inv, OnQueue, Enabled, Apply, GivenAfter, GivenBy, AsGiven;
    if e.cmd.queue !in s.queues {
      ApplyNoQueue(default, s, e);
    } else {
      ApplyOnQueue(default, s, e);
      var q := QueueOf(s, e.cmd.queue);
      FieldsMove(q, e, id);
      StoredIn(s, e.cmd.queue, OnQueue(q, e).0, name);
    }
  }

  lemma StoredIn(s: State, queue: string, q: Q.Queue, name: string)
    requires queue in s.queues
    ensures var s' := With(s, queue, q);
      && s'.queues.Keys == s.queues.Keys && MsgsOf(s'.db, name) == if name == queue then q.msgs else MsgsOf(s.db, name)
  {
  }

  lemma EntryOnQueues(default: uint32, s: State, e: Entry, name: string, id: nat, given: Option<Given>)
    requires DefaultOk(default) && FsmInv(default, s) && Legal(s, e) && MemoryOk(s) && !OnMessages(e.cmd)
    requires AsLastGiven(s, name, id, given)
    ensures AsLastGiven(Apply(default, s, e).0, name, id, GivenNext(default, s, e, name, id, given))
  {
    hide MemoryOk, QueueOk, Q.NewMemory, Validated, WithTimeout, AsGiven;
  }

  lemma EntryKeepsProvenance(default: uint32, s: State, e: Entry, name: string, id: nat, given: Option<Given>)
    requires DefaultOk(default) && FsmInv(default, s) && Legal(s, e) && MemoryOk(s) && AsLastGiven(s, name, id, given)
    ensures AsLastGiven(Apply(default, s, e).0, name, id, GivenNext(default, s, e, name, id, given))
  {
    hide FsmInv, MemoryOk, Legal, Apply, AsLastGiven, GivenNext;
    if OnMessages(e.cmd) {
      EntryOnMessages(default, s, e, name, id, given);
    } else {
      EntryOnQueues(default, s, e, name, id, given);
    }
  }

  /** The content and group of a stored message never change, whatever the entry. */
  lemma ContentStays(default: uint32, s: State, e: Entry, name: string, id: nat)
    requires DefaultOk(default) && FsmInv(default, s) && Legal(s, e) && MemoryOk(s)
    requires Stored(s, name, id) && Stored(Apply(default, s, e).0, name, id)
    ensures StoredAs(Apply(default, s, e).0, name, id).content == StoredAs(s, name, id).content
    ensures StoredAs(Apply(default, s, e).0, name, id).group == StoredAs(s, name, id).group
  {
    hide FsmInv, MemoryOk, Apply;
    EntryKeepsProvenance(default, s, e, name, id, Some(AsGiven(StoredAs(s, name, id))));
  }

  // ---------- Whole runs ----------

  /** What the first `n` entries of the log have given the message. */
  ghost function LastGiven(
    default: uint32, states: seq<State>, log: seq<Entry>, n: nat, name: string, id: nat): Option<Given>
    requires IsRun(default, states, log) && n <= |log|
  {
    if n == 0 then None
    else GivenNext(default, states[n - 1], log[n - 1], name, id, LastGiven(default, states, log, n - 1, name, id))
  }

  /** In every reachable state a stored message is as the log last gave it. */
  lemma {:induction false} StoredAsGiven(
    default: uint32, states: seq<State>, log: seq<Entry>, n: nat, name: string, id: nat)
    requires DefaultOk(default) && IsRun(default, states, log) && states[0] == EMPTY && n <= |log|
    ensures AsLastGiven(states[n], name, id, LastGiven(default, states, log, n, name, id))
    decreases n
  {
    hide FsmInv, MemoryOk, Legal, Apply, GivenNext;
    EmptyInv(default);
    if n > 0 {
      StoredAsGiven(default, states, log, n - 1, name, id);
      RunKeepsInv(default, states, log, n - 1);
      var given := LastGiven(default, states, log, n - 1, name, id);
      EntryKeepsProvenance(default, states[n - 1], log[n - 1], name, id, given);
    }
  }

  /** A message that is handed out has the group, priority, content and metadata that the log last gave it. */
  lemma DeliveredAsGiven(
    default: uint32, states: seq<State>, log: seq<Entry>, n: nat, name: string, id: nat)
    requires DefaultOk(default) && IsRun(default, states, log) && states[0] == EMPTY && n < |log|
    requires Delivers(default, states[n], log[n], name, id)
    ensures var m := Apply(default, states[n], log[n]).1.msg;
      LastGiven(default, states, log, n, name, id) == Some(Given(m.group, m.priority, m.content, m.metadata))
  {
    hide FsmInv, MemoryOk, Legal, Apply, GivenNext, OnQueue, Inv, Enabled, Q.Items;
    EmptyInv(default);
    RunKeepsInv(default, states, log, n);
    StoredAsGiven(default, states, log, n, name, id);
    if name in states[n].queues {
      ApplyOnQueue(default, states[n], log[n]);
      DequeueEffect(QueueOf(states[n], name), log[n]);
    } else {
      ApplyNoQueue(default, states[n], log[n]);
    }
  }
}
