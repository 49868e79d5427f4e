/**
 * Delivery history over whole runs of the log: a message is not handed out twice without a failed
 * delivery in between, and never after it was finished.
 */
module History {
  import opened Types
  import opened Fsm
  import opened FsmInvariant
  import opened QueueInvariant
  import opened QueueSteps
  import opened Changes
  import opened Snapshot
  import Q = QueueSpec
  import MF = MemoryFacts

  // ---------- One entry, seen from one queue ----------

  ghost function ViewIn(s: State, name: string): View
    requires name in s.queues
  {
    ViewOf(QueueOf(s, name))
  }

  /** What an entry does to the messages of queue `name`. */
  ghost function ChangeIn(default: uint32, s: State, e: Entry, name: string): Change
    requires FsmInv(default, s) && Legal(s, e)
  {
    if OnMessages(e.cmd) && e.cmd.queue == name && name in s.queues then
      InvGivesMemoryOk(default, s);
      ApplyOnQueue(default, s, e);
      ChangeOf(QueueOf(s, name), e)
    else NoChange
  }

  ghost predicate FollowsChange(v: View, v': View, c: Change) {
    Possible(v, c) && v' == After(v, c)
  }

  lemma OtherQueue(s: State, name: string, q: Q.Queue, other: string)
    requires other in s.queues && other != name
    ensures other in With(s, name, q).queues && QueueOf(With(s, name, q), other) == QueueOf(s, other)
  {
  }

  lemma StepOnMessages(default: uint32, s: State, e: Entry, name: string)
    requires FsmInv(default, s) && MemoryOk(s) && Legal(s, e) && OnMessages(e.cmd) && name in s.queues
    ensures name in Apply(default, s, e).0.queues
    ensures FollowsChange(ViewIn(s, name), ViewIn(Apply(default, s, e).0, name), ChangeIn(default, s, e, name))
    ensures e.cmd.queue == name ==> Reports(QueueOf(s, name), e, Apply(default, s, e).1)
  {
    hide FsmInv, Legal, MemoryOk, Inv, Apply, With, OnQueue, ChangeOf, After, QueueOf, Possible, Enabled;
    if e.cmd.queue in s.queues {
      ApplyOnQueue(default, s, e);
      var q := QueueOf(s, e.cmd.queue);
      InvParts(q);
      CommandIsChange(q, e);
      WithQueue(s, e.cmd.queue, OnQueue(q, e).0);
      InQueues(s, e.cmd.queue, OnQueue(q, e).0);
      if e.cmd.queue != name {
        OtherQueue(s, e.cmd.queue, OnQueue(q, e).0, name);
        Unmoved(ViewIn(s, name));
      }
    } else {
      ApplyNoQueue(default, s, e);
      Unmoved(ViewIn(s, name));
    }
  }

  lemma Unmoved(v: View)
    ensures FollowsChange(v, v, NoChange)
  {
  }

  lemma StepOnQueues(default: uint32, s: State, e: Entry, name: string)
    requires FsmInv(default, s) && MemoryOk(s) && Legal(s, e) && !OnMessages(e.cmd)
    requires name in s.queues && name in Apply(default, s, e).0.queues
    ensures ViewIn(Apply(default, s, e).0, name) == ViewIn(s, name)
  {
    hide QueueOk, MemoryOk, Validated, WithTimeout;
    if e.cmd.UpdateQueue? && e.cmd.queue == name {
      SameView(s.queues[name].ready, e.cmd.settings.maxUnacked);
    }
  }

  lemma SameView(m: Q.Memory, maxUnacked: uint32)
    ensures Q.Items(Q.MemoryUpdateMaxUnacked(m, maxUnacked)) == Q.Items(m)
    ensures Q.Unacked(Q.MemoryUpdateMaxUnacked(m, maxUnacked)) == Q.Unacked(m)
  {
  }

  lemma NewQueueIsEmpty(default: uint32, s: State, e: Entry, name: string)
    requires FsmInv(default, s) && MemoryOk(s) && Legal(s, e)
    requires name !in s.queues && name in Apply(default, s, e).0.queues
    ensures var v := ViewIn(Apply(default, s, e).0, name); v.msgs == map[] && v.ready == map[] && v.ack == map[]
  {
    hide QueueOk, MemoryOk, Validated, WithTimeout, OnQueue, Q.NewMemory, Q.Items;
    var s' := Apply(default, s, e).0;
    if OnMessages(e.cmd) {
      if e.cmd.queue !in s.queues { ApplyNoQueue(default, s, e); }
      assert false;
    } else if e.cmd.CreateQueue? {
      MF.NewMemoryFacts(s'.queues[name].config);
    }
  }

  /** An entry moves one message of the queue, or the queue is new, or it is gone. */
  lemma StepView(default: uint32, s: State, e: Entry, name: string)
    requires DefaultOk(default) && FsmInv(default, s) && Legal(s, e)
    ensures MemoryOk(s)
    ensures var s' := Apply(default, s, e).0;
      name in s'.queues ==>
        if name in s.queues then FollowsChange(ViewIn(s, name), ViewIn(s', name), ChangeIn(default, s, e, name))
        else var v := ViewIn(s', name); v.msgs == map[] && v.ready == map[] && v.ack == map[]
  {
    hide FsmInv, MemoryOk, Legal, Apply, ViewIn, FollowsChange;
    InvGivesMemoryOk(default, s);
    if name in Apply(default, s, e).0.queues {
      if name !in s.queues {
        NewQueueIsEmpty(default, s, e, name);
      } else if OnMessages(e.cmd) {
        StepOnMessages(default, s, e, name);
      } else {
        StepOnQueues(default, s, e, name);
        Unmoved(ViewIn(s, name));
      }
    }
  }

  lemma ViewConsistent(default: uint32, s: State, name: string)
    requires FsmInv(default, s) && name in s.queues
    ensures Consistent(ViewIn(s, name))
  {
    hide Q.MemoryOk, AllAccepted, Consistent, MF.SameKind, Restorable;
    assert QueueOk(default, s, name);
  }

  // ---------- Delivery history ----------

  ghost predicate Ready(s: State, name: string, id: nat) {
    name in s.queues && id in Q.Items(s.queues[name].ready)
  }

  ghost predicate Stored(s: State, name: string, id: nat) {
    name in s.queues && id in MsgsOf(s.db, name)
  }

  /** The entry hands out message `id` of queue `name`. */
  ghost predicate Delivers(default: uint32, s: State, e: Entry, name: string, id: nat)
    requires MemoryOk(s)
  {
    e.cmd.Dequeue? && e.cmd.queue == name && Apply(default, s, e).1.Answered? && Apply(default, s, e).1.id == id
  }

  /** The entry is a successful Nack or AckTimeout of the message. */
  ghost predicate Fails(default: uint32, s: State, e: Entry, name: string, id: nat)
    requires MemoryOk(s)
  {
    (e.cmd.Nack? || e.cmd.AckTimeout?) && e.cmd.queue == name && e.cmd.id == id && Apply(default, s, e).1 == Done
  }

  predicate Enqueues(e: Entry, name: string, id: nat) {
    e.cmd.Enqueue? && e.cmd.queue == name && e.cmd.id == id
  }

  lemma DeliveryIsHandout(default: uint32, s: State, e: Entry, name: string, id: nat)
    requires DefaultOk(default) && FsmInv(default, s) && Legal(s, e) && MemoryOk(s)
    ensures Delivers(default, s, e, name, id) <==>
              name in s.queues && ChangeIn(default, s, e, name).Handout? && ChangeIn(default, s, e, name).id == id
    ensures Delivers(default, s, e, name, id) ==> name in Apply(default, s, e).0.queues
  {
    hide FsmInv, MemoryOk, Legal, Apply, Inv, FollowsChange;
    if OnMessages(e.cmd) && e.cmd.queue == name {
      if name in s.queues {
        ApplyOnQueue(default, s, e);
        StepOnMessages(default, s, e, name);
      } else {
        ApplyNoQueue(default, s, e);
      }
    }
  }

  lemma ComebackIsFailure(default: uint32, s: State, e: Entry, name: string)
    requires DefaultOk(default) && FsmInv(default, s) && Legal(s, e) && MemoryOk(s) && name in s.queues
    ensures var c := ChangeIn(default, s, e, name);
      (c.Comeback? ==> Fails(default, s, e, name, c.id)) && (c.Arrival? ==> Enqueues(e, name, c.id))
  {
    hide FsmInv, MemoryOk, Legal, Apply, Inv, FollowsChange;
    if OnMessages(e.cmd) && e.cmd.queue == name {
      ApplyOnQueue(default, s, e);
      StepOnMessages(default, s, e, name);
    }
  }

  /** A message only becomes ready by a failed delivery or by being enqueued. */
  lemma WhyReady(default: uint32, s: State, e: Entry, name: string, id: nat)
    requires DefaultOk(default) && FsmInv(default, s) && Legal(s, e)
    ensures MemoryOk(s)
    ensures Delivers(default, s, e, name, id) ==> Ready(s, name, id) && !Ready(Apply(default, s, e).0, name, id)
    ensures !Ready(s, name, id) && Ready(Apply(default, s, e).0, name, id) ==>
              Fails(default, s, e, name, id) || Enqueues(e, name, id)
    ensures !Stored(s, name, id) && Stored(Apply(default, s, e).0, name, id) ==> Enqueues(e, name, id)
  {
    hide FsmInv, MemoryOk, Legal, Apply, Inv, ChangeIn, Fails, Delivers, After, Slots, Mirror, Partition;
    StepView(default, s, e, name);
    DeliveryIsHandout(default, s, e, name, id);
    if name in s.queues {
      ComebackIsFailure(default, s, e, name);
      ViewConsistent(default, s, name);
      if name in Apply(default, s, e).0.queues {
        ChangeMovesMessage(ViewIn(s, name), ChangeIn(default, s, e, name), id);
      }
    }
  }

  /** Without an Enqueue or a failed delivery in between, a message that is not ready is not delivered. */
  lemma {:induction false} NotReadyUntil(
    default: uint32, states: seq<State>, log: seq<Entry>, name: string, id: nat, i: nat, j: nat)
    requires DefaultOk(default) && IsRun(default, states, log) && FsmInv(default, states[0]) && i <= j < |log|
    requires !Ready(states[i], name, id) && Delivers(default, states[j], log[j], name, id)
    ensures exists k :: i <= k < j && (Fails(default, states[k], log[k], name, id) || Enqueues(log[k], name, id))
    decreases j - i
  {
    hide FsmInv, MemoryOk, Legal, Apply, Ready, Fails, Delivers, Stored;
    RunKeepsInv(default, states, log, i);
    WhyReady(default, states[i], log[i], name, id);
    if i < j && !Fails(default, states[i], log[i], name, id) && !Enqueues(log[i], name, id) {
      NotReadyUntil(default, states, log, name, id, i + 1, j);
    }
  }

  /** Between two deliveries of a message its first delivery failed, or it was enqueued anew. */
  lemma BetweenDeliveries(
    default: uint32, states: seq<State>, log: seq<Entry>, name: string, id: nat, i: nat, j: nat)
    requires DefaultOk(default) && IsRun(default, states, log) && FsmInv(default, states[0]) && i < j < |log|
    requires Delivers(default, states[i], log[i], name, id) && Delivers(default, states[j], log[j], name, id)
    ensures exists k :: i < k < j && (Fails(default, states[k], log[k], name, id) || Enqueues(log[k], name, id))
  {
    hide FsmInv, MemoryOk, Legal, Apply, Ready, Fails, Delivers, Stored;
    RunKeepsInv(default, states, log, i);
    WhyReady(default, states[i], log[i], name, id);
    NotReadyUntil(default, states, log, name, id, i + 1, j);
  }

  /** The entry takes the message out for good: Ack, auto-ack, Delete, or a drop at the delivery limit. */
  ghost predicate Finishes(default: uint32, s: State, e: Entry, name: string, id: nat)
    requires MemoryOk(s)
  {
    && e.cmd.queue == name
    && match e.cmd
       case Ack(_, i) => i == id && Apply(default, s, e).1 == Done
       case Delete(_, i) => i == id && Apply(default, s, e).1 == Done
       case Dequeue(_, ack) => ack && Delivers(default, s, e, name, id)
       case Nack(_, i, _, _) => i == id && Drops(default, s, e, name, id)
       case AckTimeout(_, i) => i == id && Drops(default, s, e, name, id)
       case _ => false
  }

  /** A failed delivery of a message whose delivery count has reached the limit. */
  ghost predicate Drops(default: uint32, s: State, e: Entry, name: string, id: nat)
    requires MemoryOk(s)
  {
    && Fails(default, s, e, name, id) && Stored(s, name, id)
    && Exhausted(QueueOf(s, name), MsgsOf(s.db, name)[id])
  }

  lemma FinishIsExit(default: uint32, s: State, e: Entry, name: string, id: nat)
    requires DefaultOk(default) && FsmInv(default, s) && Legal(s, e) && MemoryOk(s)
    requires Finishes(default, s, e, name, id)
    ensures name in s.queues && name in Apply(default, s, e).0.queues
    ensures var c := ChangeIn(default, s, e, name);
      c == Exit(id) || (c.Handout? && c.id == id && c.ack)
  {
    hide FsmInv, MemoryOk, Legal, Apply, Inv, FollowsChange, Delivers;
    if name in s.queues {
      ApplyOnQueue(default, s, e);
      StepOnMessages(default, s, e, name);
      DeliveryIsHandout(default, s, e, name, id);
    } else {
      ApplyNoQueue(default, s, e);
      DeliveryIsHandout(default, s, e, name, id);
    }
  }

  lemma FinishedIsGone(default: uint32, s: State, e: Entry, name: string, id: nat)
    requires DefaultOk(default) && FsmInv(default, s) && Legal(s, e) && MemoryOk(s)
    requires Finishes(default, s, e, name, id)
    ensures !Stored(Apply(default, s, e).0, name, id)
  {
    hide FsmInv, MemoryOk, Legal, Apply, Inv, ChangeIn, Finishes;
    FinishIsExit(default, s, e, name, id);
    StepView(default, s, e, name);
  }

  lemma {:induction false} GoneUntil(
    default: uint32, states: seq<State>, log: seq<Entry>, name: string, id: nat, i: nat, j: nat)
    requires DefaultOk(default) && IsRun(default, states, log) && FsmInv(default, states[0]) && i <= j < |log|
    requires !Stored(states[i], name, id) && Delivers(default, states[j], log[j], name, id)
    ensures exists k :: i <= k < j && Enqueues(log[k], name, id)
    decreases j - i
  {
    hide FsmInv, MemoryOk, Legal, Apply, Fails, Delivers, Stored, Ready;
    RunKeepsInv(default, states, log, i);
    WhyReady(default, states[i], log[i], name, id);
    ReadyMeansStored(default, states[i], name, id);
    if i < j && !Enqueues(log[i], name, id) {
      GoneUntil(default, states, log, name, id, i + 1, j);
    }
  }

  lemma ReadyMeansStored(default: uint32, s: State, name: string, id: nat)
    requires FsmInv(default, s)
    ensures Ready(s, name, id) ==> Stored(s, name, id)
  {
    hide Q.MemoryOk, AllAccepted, Slots, MF.SameKind, Restorable;
    if name in s.queues { assert QueueOk(default, s, name); }
  }

  /** After an Ack, an auto-ack, a Delete or a drop the message is not delivered again unless enqueued anew. */
  lemma NotDeliveredAfterFinish(
    default: uint32, states: seq<State>, log: seq<Entry>, name: string, id: nat, i: nat, j: nat)
    requires DefaultOk(default) && IsRun(default, states, log) && FsmInv(default, states[0]) && i < j < |log|
    requires Finishes(default, states[i], log[i], name, id) && Delivers(default, states[j], log[j], name, id)
    ensures exists k :: i < k < j && Enqueues(log[k], name, id)
  {
    hide FsmInv, MemoryOk, Legal, Apply, Finishes, Delivers, Stored;
    RunKeepsInv(default, states, log, i);
    FinishedIsGone(default, states[i], log[i], name, id);
    GoneUntil(default, states, log, name, id, i + 1, j);
  }
}
