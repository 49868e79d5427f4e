/**
 * Streaming consumers waiting for messages of one queue. The queue's notification channel is a generation
 * number: `notify` closes the current channel by moving to the next. A command first changes the queue
 * and notifies afterwards; consumers run at any point in between.
 */
module WakeUp {
  import opened Types
  import opened Fsm
  import opened FsmInvariant
  import opened QueueInvariant
  import opened Changes
  import opened Readiness
  import Mixing
  import Q = QueueSpec
  import QS = QueueSteps
  import WE = WeightedExample
  import Weights
  import WQ = WeightedSpec

  datatype Phase =
    | Idle
    | Holding(channel: nat)   // has the channel, is about to dequeue
    | Waiting(channel: nat)
    | Busy

  /** `owed` notifications are still to come for commands that have changed the queue already. */
  datatype State = State(queue: Q.Queue, now: int, owed: nat, generation: nat, consumers: map<nat, Phase>)

  datatype Step =
    | Run(index: nat, cmd: Command)                   // a command on messages
    | Configure(settings: Settings)                   // new settings
    | Pass(now: int)                                  // time goes on
    | Notify
    | Fetch(c: nat)                                   // the consumer fetches the channel
    | TryDequeue(c: nat, ack: bool, index: nat)
    | Wake(c: nat)                                    // the channel it waits on is closed
    | TimeOut(c: nat)                                 // the poll interval is over
    | Finish(c: nat)

  ghost predicate Can(s: State, step: Step) {
    match step
    case Run(index, cmd) => Enabled(s.queue, Entry(index, s.now, cmd))
    case Configure(settings) => settings.strategy == s.queue.config.settings.strategy
    case Pass(now) => s.now <= now
    case Notify => s.owed > 0
    case Fetch(c) => c in s.consumers && s.consumers[c] == Idle
    case TryDequeue(c, _, _) => c in s.consumers && s.consumers[c].Holding?
    case Wake(c) => c in s.consumers && s.consumers[c].Waiting? && s.consumers[c].channel < s.generation
    case TimeOut(c) => c in s.consumers && s.consumers[c].Waiting?
    case Finish(c) => c in s.consumers && s.consumers[c] == Busy
  }

  /** The queue's invariant holds and nobody has a channel of the future. */
  ghost predicate Good(s: State) {
    && Inv(s.queue)
    && (forall c :: c in s.consumers && (s.consumers[c].Holding? || s.consumers[c].Waiting?) ==>
          s.consumers[c].channel <= s.generation)
  }

  /** The step is a command that will notify. */
  ghost predicate Announcing(s: State, step: Step)
    requires Inv(s.queue)
  {
    InvGivesOk(s.queue);
    step.Run? && Announces(s.queue, step.cmd)
  }

  ghost function Reconfigured(q: Q.Queue, settings: Settings): Q.Queue {
    q.(config := q.config.(settings := settings), ready := Q.MemoryUpdateMaxUnacked(q.ready, settings.maxUnacked))
  }

  ghost function After(s: State, step: Step): State
    requires Good(s) && Can(s, step)
  {
    InvGivesOk(s.queue);
    match step
    case Run(index, cmd) =>
      s.(queue := OnQueue(s.queue, Entry(index, s.now, cmd)).0,
         owed := s.owed + if Announces(s.queue, cmd) then 1 else 0)
    case Configure(settings) => s.(queue := Reconfigured(s.queue, settings))
    case Pass(now) => s.(now := now)
    case Notify => s.(owed := s.owed - 1, generation := s.generation + 1)
    case Fetch(c) => s.(consumers := s.consumers[c := Holding(s.generation)])
    case TryDequeue(c, ack, index) =>
      var (q, r) := Q.Dequeue(s.queue, ack, Mixing.Mix64(index), s.now);
      s.(queue := q, consumers := s.consumers[c := if r.Ok? then Busy else Waiting(s.consumers[c].channel)])
    case Wake(c) => s.(consumers := s.consumers[c := Idle])
    case TimeOut(c) => s.(consumers := s.consumers[c := Idle])
    case Finish(c) => s.(consumers := s.consumers[c := Idle])
  }

  ghost predicate Deliverable(s: State) {
    Ready(s.queue.ready, s.now)
  }

  /** Some consumer waits on a channel that is still open. */
  ghost predicate WaitsOpen(s: State) {
    exists c :: c in s.consumers && s.consumers[c] == Waiting(s.generation)
  }

  /** Somebody waits for an announcement that nobody owes, while there is a message to hand out. */
  ghost predicate Lost(s: State) {
    WaitsOpen(s) && Deliverable(s) && s.owed == 0
  }

  /** The step makes the queue deliverable and will not notify. */
  ghost predicate GainsSilently(s: State, step: Step)
    requires Good(s) && Can(s, step)
  {
    !Deliverable(s) && Deliverable(After(s, step)) && !Announcing(s, step)
  }

  // ---------- One step ----------

  lemma QueueStaysGood(s: State, step: Step)
    requires Good(s) && Can(s, step)
    ensures Inv(After(s, step).queue)
  {
    hide Inv, OnQueue, Enabled, Q.Dequeue, Mixing.Mix64, Announces, QS.Moves;
    match step
    case Run(index, cmd) => OnQueueInv(s.queue, Entry(index, s.now, cmd));
    case Configure(settings) => UpdatedQueueInv(s.queue, settings);
    case TryDequeue(c, ack, index) =>
      QS.DequeueStep(s.queue, ack, Mixing.Mix64(index), s.now);
      DeliveryKeepsInv(s.queue, ack, Mixing.Mix64(index), s.now);
    case _ =>
  }

  lemma DeliveryKeepsInv(q: Q.Queue, ack: bool, mixed: nat, now: int)
    requires Inv(q)
    ensures Q.MemoryOk(q.ready) && Inv(Q.Dequeue(q, ack, mixed, now).0)
  {
    hide Q.MemoryOk, Q.Dequeue;
    QS.DequeueStep(q, ack, mixed, now);
  }

  lemma StepStaysGood(s: State, step: Step)
    requires Good(s) && Can(s, step)
    ensures Good(After(s, step))
  {
    hide Inv, OnQueue, Enabled, Q.Dequeue, Mixing.Mix64, Announces;
    QueueStaysGood(s, step);
  }

  /**
   * A wake-up is lost exactly by a step that makes the queue deliverable without notifying, while
   * somebody waits on the open channel and no other notification is to come.
   */
  lemma LosesIff(s: State, step: Step)
    requires Good(s) && Can(s, step) && !Lost(s)
    ensures Lost(After(s, step)) <==> WaitsOpen(s) && s.owed == 0 && GainsSilently(s, step)
  {
    hide Inv, OnQueue, Enabled, Q.Dequeue, Mixing.Mix64, Announces, Ready;
    if step.TryDequeue? { DequeueIffReady(s.queue, step.ack, Mixing.Mix64(step.index), s.now); }
    var t := After(s, step);
    if WaitsOpen(t) {
      var c :| c in t.consumers && t.consumers[c] == Waiting(t.generation);
      assert !step.TryDequeue? || c != step.c ==> c in s.consumers && s.consumers[c] == Waiting(t.generation);
    }
    if WaitsOpen(s) && !step.Notify? {
      var c :| c in s.consumers && s.consumers[c] == Waiting(s.generation);
      assert step.Run? || step.Configure? || step.Pass? ==> t.consumers[c] == Waiting(t.generation);
    }
  }

  /**
   * Only these steps gain silently: on a delayed queue time and changed priorities, on a fair queue new
   * settings, and acks, deletes and dropped messages that give back a slot or unblock a group.
   */
  lemma WhatGainsSilently(s: State, step: Step)
    requires Good(s) && Can(s, step) && GainsSilently(s, step)
    ensures Q.MemoryOk(s.queue.ready)
    ensures step.Run? ==> Silent(s.queue, step.cmd)
    ensures !step.Run? ==> if s.queue.ready.DelayedMemory? then step.Pass? else step.Configure?
  {
    hide Inv, OnQueue, Enabled, Q.Dequeue, Mixing.Mix64, Announces, Silent, Q.MemoryOk;
    InvGivesOk(s.queue);
    match step
    case Run(index, cmd) => CommandGains(s.queue, Entry(index, s.now, cmd));
    case Configure(settings) =>
    case Pass(_) =>
    case TryDequeue(c, ack, index) => DequeueIffReady(s.queue, ack, Mixing.Mix64(index), s.now);
    case _ =>
  }

  // ---------- Runs ----------

  ghost predicate IsRun(states: seq<State>, steps: seq<Step>) {
    && |states| == |steps| + 1
    && (forall i :: 0 <= i < |states| ==> Good(states[i]))
    && (forall i :: 0 <= i < |steps| ==> Can(states[i], steps[i]) && states[i + 1] == After(states[i], steps[i]))
  }

  /** Channels closed and still to be closed. */
  ghost function Promised(s: State): nat {
    s.generation + s.owed
  }

  lemma StepPromises(s: State, step: Step)
    requires Good(s) && Can(s, step)
    ensures Promised(After(s, step)) == Promised(s) + if Announcing(s, step) then 1 else 0
  {
    hide Inv, OnQueue, Enabled, Q.Dequeue, Mixing.Mix64, Announces;
  }

  lemma {:induction false} PromisesGrow(states: seq<State>, steps: seq<Step>, i: nat, k: nat)
    requires IsRun(states, steps) && i <= k < |states|
    ensures Promised(states[i]) <= Promised(states[k])
    ensures (exists j :: i <= j < k && Announcing(states[j], steps[j])) ==> Promised(states[i]) < Promised(states[k])
    decreases k
  {
    hide Good, Can, After, Announcing, Promised;
    if i < k {
      PromisesGrow(states, steps, i, k - 1);
      StepPromises(states[k - 1], steps[k - 1]);
    }
  }

  /**
   * Over every interleaving: a consumer that fetched its channel before a command that notifies finds
   * it closed, or a notification still to come. Slots may be freed, settings changed and time may pass
   * as they like.
   */
  lemma AnnouncedWakes(states: seq<State>, steps: seq<Step>, c: nat, i: nat, j: nat, k: nat)
    requires IsRun(states, steps) && i < j < k < |states| && steps[i] == Fetch(c) && Announcing(states[j], steps[j])
    requires c in states[k].consumers && states[k].consumers[c] == Waiting(states[i].generation)
    ensures Can(states[k], Wake(c)) || states[k].owed > 0
  {
    hide Good, After, Announcing;
    PromisesGrow(states, steps, i, j);
    PromisesGrow(states, steps, j, k);
  }

  /**
   * A consumer began to wait at step `j` and still waits on the open channel, nothing is owed and yet
   * there is a message: then the queue gained it silently in the meantime.
   */
  lemma WaitsInVain(states: seq<State>, steps: seq<Step>, c: nat, j: nat, k: nat)
    requires IsRun(states, steps) && j < k < |states| && steps[j].TryDequeue? && steps[j].c == c
    requires c in states[j + 1].consumers && states[j + 1].consumers[c] == Waiting(states[k].generation)
    requires states[k].owed == 0 && Deliverable(states[k])
    ensures exists t :: j < t < k && GainsSilently(states[t], steps[t])
  {
    hide Inv, Can, After, Announcing, Deliverable, GainsSilently;
    NothingFound(states[j], steps[j]);
    var t := FirstGain(states, steps, j + 1, k);
    PromisesGrow(states, steps, j + 1, t);
    PromisesGrow(states, steps, t, k);
    assert states[k].generation <= states[j + 1].generation;
    GainIsSilent(states[t], steps[t]);
  }

  lemma GainIsSilent(s: State, step: Step)
    requires Good(s) && Can(s, step) && !Deliverable(s) && Deliverable(After(s, step)) && !Announcing(s, step)
    ensures GainsSilently(s, step)
  {
  }

  lemma NothingFound(s: State, step: Step)
    requires Good(s) && Can(s, step) && step.TryDequeue? && After(s, step).consumers[step.c].Waiting?
    ensures !Deliverable(After(s, step))
  {
    hide Inv, Q.Dequeue, Mixing.Mix64, Ready;
    DequeueIffReady(s.queue, step.ack, Mixing.Mix64(step.index), s.now);
  }

  lemma {:induction false} FirstGain(states: seq<State>, steps: seq<Step>, i: nat, k: nat) returns (t: nat)
    requires IsRun(states, steps) && i <= k < |states| && !Deliverable(states[i]) && Deliverable(states[k])
    ensures i <= t < k && !Deliverable(states[t]) && Deliverable(states[t + 1])
    decreases k - i
  {
    hide Good, Can, After, Deliverable;
    if Deliverable(states[i + 1]) {
      t := i;
    } else {
      t := FirstGain(states, steps, i + 1, k);
    }
  }

  ghost predicate Start(s: State) {
    s.owed == 0 && forall c :: c in s.consumers ==> s.consumers[c] == Idle
  }

  /** Without silent gains no wake-up is ever lost. */
  lemma {:induction false} NoLostWakeUp(states: seq<State>, steps: seq<Step>, i: nat)
    requires IsRun(states, steps) && Start(states[0]) && i < |states|
    requires forall k :: 0 <= k < i ==> !GainsSilently(states[k], steps[k])
    ensures !Lost(states[i])
  {
    hide Good, Can, After, GainsSilently;
    if i > 0 {
      NoLostWakeUp(states, steps, i - 1);
      LosesIff(states[i - 1], steps[i - 1]);
    }
  }

  // ---------- Wake-ups that are lost ----------

  /** One consumer, in the given phase. */
  ghost function Alone(q: Q.Queue, owed: nat, generation: nat, phase: Phase): State {
    State.State(q, 0, owed, generation, map[0 := phase])
  }

  ghost predicate Fits(phase: Phase, generation: nat) {
    phase.Holding? || phase.Waiting? ==> phase.channel <= generation
  }

  lemma RunAlone(q: Q.Queue, owed: nat, generation: nat, phase: Phase, index: nat, cmd: Command, q': Q.Queue)
    requires Inv(q) && Fits(phase, generation) && Enabled(q, Entry(index, 0, cmd)) && Q.MemoryOk(q.ready)
    requires OnQueue(q, Entry(index, 0, cmd)).0 == q'
    ensures var s := Alone(q, owed, generation, phase);
      && Good(s) && Can(s, Run(index, cmd))
      && After(s, Run(index, cmd)) == Alone(q', owed + if Announces(q, cmd) then 1 else 0, generation, phase)
  {
    hide Inv, OnQueue, Enabled, Announces, Q.MemoryOk;
  }

  lemma NotifyAlone(q: Q.Queue, owed: nat, generation: nat, phase: Phase)
    requires Inv(q) && Fits(phase, generation) && owed > 0
    ensures var s := Alone(q, owed, generation, phase);
      Good(s) && Can(s, Notify) && After(s, Notify) == Alone(q, owed - 1, generation + 1, phase)
  {
    hide Inv, Q.Dequeue, OnQueue, Announces;
  }

  lemma FetchAlone(q: Q.Queue, generation: nat)
    requires Inv(q)
    ensures var s := Alone(q, 0, generation, Idle);
      Good(s) && Can(s, Fetch(0)) && After(s, Fetch(0)) == Alone(q, 0, generation, Holding(generation))
  {
    hide Inv, Q.Dequeue, OnQueue, Announces;
    assert map[0 := Idle][0 := Holding(generation)] == map[0 := Holding(generation)];
  }

  lemma FailAlone(q: Q.Queue, generation: nat, index: nat)
    requires Inv(q) && !Ready(q.ready, 0)
    ensures var s, step := Alone(q, 0, generation, Holding(generation)), TryDequeue(0, false, index);
      Good(s) && Can(s, step) && After(s, step) == Alone(q, 0, generation, Waiting(generation))
  {
    hide Inv, Q.Dequeue, OnQueue, Announces, Ready, Mixing.Mix64;
    DequeueIffReady(q, false, Mixing.Mix64(index), 0);
    assert map[0 := Holding(generation)][0 := Waiting(generation)] == map[0 := Waiting(generation)];
  }

  /** With a limit of one, a group with a message in flight has no weight. */
  lemma BlockedAndFree(now: int)
    ensures !Ready(WE.OneInFlight(1).ready, now) && Ready(WE.OneAcked(1).ready, now)
  {
    hide WQ.CalculateWeight, Inv, WQ.WellFormed, Q.Ack, Weights.Total;
    WE.InFlightInv(1);
    WE.InvIsWellFormed(WE.OneInFlight(1));
    WQ.WeightPositiveIff(1, 1, 1);
    WE.OnlyGroup(WE.OneInFlight(1).ready.wq, 0);
    AckedInv();
    WE.InvIsWellFormed(WE.OneAcked(1));
    WQ.WeightPositiveIff(1, 0, 1);
    WE.OnlyGroup(WE.OneAcked(1).ready.wq, 0);
  }

  lemma AckedInv()
    ensures Inv(WE.OneAcked(1))
  {
    hide Inv, Q.Ack;
    WE.InFlightInv(1);
    WE.FirstIsAcked(1);
    QS.AckStep(WE.OneInFlight(1), 1);
    assert 1 in WE.OneInFlight(1).ack;
  }

  function Arrival(id: nat): Command {
    Enqueue("q", id, WE.GROUP, 0, "", map[])
  }

  lemma ExampleCommands(index: nat)
    ensures var q := WE.NothingYet(1);
      Q.MemoryOk(q.ready) && OnQueue(q, Entry(index, 0, Arrival(1))).0 == WE.OneReady(1) && Announces(q, Arrival(1))
    ensures var q := WE.OneReady(1);
      Q.MemoryOk(q.ready) && OnQueue(q, Entry(index, 0, Arrival(2))).0 == WE.TwoReady(1) && Announces(q, Arrival(2))
    ensures var q := WE.TwoReady(1);
      Q.MemoryOk(q.ready) && OnQueue(q, Entry(index, 0, Dequeue("q", false))).0 == WE.OneInFlight(1)
    ensures var q := WE.OneInFlight(1);
      Q.MemoryOk(q.ready) && OnQueue(q, Entry(index, 0, Ack("q", 1))).0 == WE.OneAcked(1)
  {
    hide Q.Enqueue, Q.Dequeue, Q.Ack, Inv, Q.MemoryOk, Mixing.Mix64;
    WE.ExampleInv(1);
    WE.InFlightInv(1);
    InvGivesOk(WE.NothingYet(1));
    InvGivesOk(WE.OneReady(1));
    InvGivesOk(WE.OneInFlight(1));
    WE.FirstArrives(1);
    WE.SecondArrives(1);
    WE.FirstIsDelivered(1, Mixing.Mix64(index));
    WE.FirstIsAcked(1);
  }

  lemma ArrivalsEnabled()
    ensures Enabled(WE.NothingYet(1), Entry(1, 0, Arrival(1))) && Enabled(WE.OneReady(1), Entry(3, 0, Arrival(2)))
  {
  }

  /**
   * Limit one, two messages of one group: one is delivered, a consumer finds nothing more and waits,
   * and the ack that frees the slot wakes nobody.
   */
  lemma FreedSlotIsNotAnnounced() returns (states: seq<State>, steps: seq<Step>)
    ensures IsRun(states, steps) && Start(states[0]) && states[0].queue == WE.NothingYet(1)
    ensures |steps| > 0 && steps[|steps| - 1] == Run(8, Ack("q", 1)) && Lost(states[|steps|])
  {
    hide Inv, OnQueue, Announces, Q.MemoryOk, WE.NothingYet, WE.OneReady, WE.TwoReady, WE.OneInFlight, WE.OneAcked;
    hide Ready, Good, Can, After, Enabled;
    var q0, q1, q2, q3, q4 := WE.NothingYet(1), WE.OneReady(1), WE.TwoReady(1), WE.OneInFlight(1), WE.OneAcked(1);
    steps := [Run(1, Arrival(1)), Notify, Run(3, Arrival(2)), Notify, Run(5, Dequeue("q", false)), Fetch(0),
              TryDequeue(0, false, 7), Run(8, Ack("q", 1))];
    states := [Alone(q0, 0, 0, Idle), Alone(q1, 1, 0, Idle), Alone(q1, 0, 1, Idle), Alone(q2, 1, 1, Idle),
               Alone(q2, 0, 2, Idle), Alone(q3, 0, 2, Idle), Alone(q3, 0, 2, Holding(2)), Alone(q3, 0, 2, Waiting(2)),
               Alone(q4, 0, 2, Waiting(2))];
    FirstHalf();
    SecondHalf();
    BlockedAndFree(0);
    assert states[8].consumers[0] == Waiting(2);
  }

  lemma FirstHalf()
    ensures var q0, q1, q2 := WE.NothingYet(1), WE.OneReady(1), WE.TwoReady(1);
      && Leads(Alone(q0, 0, 0, Idle), Run(1, Arrival(1)), Alone(q1, 1, 0, Idle))
      && Leads(Alone(q1, 1, 0, Idle), Notify, Alone(q1, 0, 1, Idle))
      && Leads(Alone(q1, 0, 1, Idle), Run(3, Arrival(2)), Alone(q2, 1, 1, Idle))
      && Leads(Alone(q2, 1, 1, Idle), Notify, Alone(q2, 0, 2, Idle))
  {
    hide Inv, OnQueue, Announces, Q.MemoryOk, WE.NothingYet, WE.OneReady, WE.TwoReady, Good, Can, After, Enabled;
    WE.ExampleInv(1);
    ArrivalsEnabled();
    ExampleCommands(1);
    ExampleCommands(3);
    RunAlone(WE.NothingYet(1), 0, 0, Idle, 1, Arrival(1), WE.OneReady(1));
    NotifyAlone(WE.OneReady(1), 1, 0, Idle);
    RunAlone(WE.OneReady(1), 0, 1, Idle, 3, Arrival(2), WE.TwoReady(1));
    NotifyAlone(WE.TwoReady(1), 1, 1, Idle);
  }

  lemma SecondHalf()
    ensures var q2, q3, q4 := WE.TwoReady(1), WE.OneInFlight(1), WE.OneAcked(1);
      && Leads(Alone(q2, 0, 2, Idle), Run(5, Dequeue("q", false)), Alone(q3, 0, 2, Idle))
      && Leads(Alone(q3, 0, 2, Idle), Fetch(0), Alone(q3, 0, 2, Holding(2)))
      && Leads(Alone(q3, 0, 2, Holding(2)), TryDequeue(0, false, 7), Alone(q3, 0, 2, Waiting(2)))
      && Leads(Alone(q3, 0, 2, Waiting(2)), Run(8, Ack("q", 1)), Alone(q4, 0, 2, Waiting(2)))
      && Good(Alone(q4, 0, 2, Waiting(2)))
  {
    hide Inv, OnQueue, Q.MemoryOk, WE.TwoReady, WE.OneInFlight, WE.OneAcked, Can, After, Ready;
    WE.ExampleInv(1);
    WE.InFlightInv(1);
    AckedInv();
    BlockedAndFree(0);
    ExampleCommands(5);
    ExampleCommands(8);
    RunAlone(WE.TwoReady(1), 0, 2, Idle, 5, Dequeue("q", false), WE.OneInFlight(1));
    FetchAlone(WE.OneInFlight(1), 2);
    FailAlone(WE.OneInFlight(1), 2, 7);
    RunAlone(WE.OneInFlight(1), 0, 2, Waiting(2), 8, Ack("q", 1), WE.OneAcked(1));
  }

  ghost predicate Leads(s: State, step: Step, t: State) {
    Good(s) && Can(s, step) && After(s, step) == t
  }

  // ---------- A delayed queue ----------

  ghost function Later(): Q.Queue {
    Q.Queue(Config(Delayed, Settings(Unspecified, 0, 10, 0)), map[1 := Message("default", 100, "", map[], 0)],
            Q.DelayedMemory(map[1 := Item(1, 100, "default")]), map[])
  }

  ghost function Sooner(): Q.Queue {
    Q.Queue(Config(Delayed, Settings(Unspecified, 0, 10, 0)), map[1 := Message("default", 0, "", map[], 0)],
            Q.DelayedMemory(map[1 := Item(1, 0, "default")]), map[])
  }

  lemma LaterInv()
    ensures Inv(Later()) && !Ready(Later().ready, 0) && Ready(Later().ready, 100)
    ensures Inv(Sooner()) && Ready(Sooner().ready, 0)
  {
    assert 1 in Later().ready.delayed && 1 in Sooner().ready.delayed;
  }

  lemma MovedForward(index: nat)
    ensures Q.MemoryOk(Later().ready) && OnQueue(Later(), Entry(index, 0, UpdatePriority("q", 1, 0))).0 == Sooner()
    ensures !Announces(Later(), UpdatePriority("q", 1, 0))
  {
    var q := Later();
    assert 1 in q.msgs && 1 in q.ready.delayed;
    assert q.msgs[1 := q.msgs[1].(priority := 0)] == Sooner().msgs;
    assert q.ready.delayed[1 := q.ready.delayed[1].(priority := 0)] == Sooner().ready.delayed;
  }

  /** A consumer waits for a message that is not due. It becomes due with time, or by a new priority: nobody is woken. */
  lemma DueMessageIsNotAnnounced(last: Step) returns (states: seq<State>, steps: seq<Step>)
    requires last == Pass(100) || last == Run(3, UpdatePriority("q", 1, 0))
    ensures IsRun(states, steps) && Start(states[0]) && |steps| == 3 && steps[2] == last && Lost(states[3])
  {
    hide Inv, OnQueue, Announces, Later, Sooner, Ready, Can, After, Q.MemoryOk, Enabled;
    LaterInv();
    FetchAlone(Later(), 0);
    FailAlone(Later(), 0, 2);
    steps := [Fetch(0), TryDequeue(0, false, 2), last];
    var waiting := Alone(Later(), 0, 0, Waiting(0));
    if last.Pass? {
      TimeAlone(Later());
    } else {
      MovedForward(3);
      AnyEnabled(Later());
      RunAlone(Later(), 0, 0, Waiting(0), 3, UpdatePriority("q", 1, 0), Sooner());
    }
    states := [Alone(Later(), 0, 0, Idle), Alone(Later(), 0, 0, Holding(0)), waiting, After(waiting, last)];
    assert states[3].consumers[0] == Waiting(0);
  }

  lemma TimeAlone(q: Q.Queue)
    requires Inv(q)
    ensures var s := Alone(q, 0, 0, Waiting(0)); Good(s) && Can(s, Pass(100)) && After(s, Pass(100)) == s.(now := 100)
  {
    hide Inv;
  }

  lemma AnyEnabled(q: Q.Queue)
    ensures Enabled(q, Entry(3, 0, UpdatePriority("q", 1, 0)))
  {
  }
}
