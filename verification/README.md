# A verified model of doq

doq is a replicated message queue. Clients enqueue messages under a group and a priority, dequeue
them, and ack, nack or touch them. A Raft log carries every command to every replica, whose state
machine applies it to a store and to in-memory queues. A queue is either delayed (messages become
due at a time) or fair (groups share the deliveries, in turn or by weight, each with a limit on
messages in flight).

The model has two levels.

- *Specifications on values.* `RoundRobin`, `WeightedSpec`, `QueueSpec`, `Fsm`, `Snapshot` and
  `Scheduling` say what each operation does to the state. The properties of single steps, of whole runs
  and of snapshots are proved about them (`RoundRobinProperties`, `Fairness`, `WeightedProperties`,
  `QueueInvariant`, `QueueSteps`, `FsmInvariant`, `Changes`, `History`, `Limits`, `Restarts`, `Replay`,
  `Replicas`, `Readiness`). `Effects` and `Configurations` say field by field what each command does to
  messages and settings, `Provenance` where the fields of a delivered message come from, and
  `Proportions` how often each group is picked.
- *Objects.* `Heap`, `AvlNodes`, `LinkedList` with `LinkedRing`, `DelayedQueue`, `WeightedQueue`,
  `RoundRobinNodes` with `RoundRobinQueue`, `Store`, `Queue`, `Manager` and `Machine` are the source's
  structures with their fields updated in place. Each method is proved to take the object to the state that the
  specification gives. How a heap is laid out, how a tree was rotated or in which order nodes were
  created therefore never shows.

`WakeUp` is the hand-over between producers and waiting consumers as a state machine over all
interleavings, `Storage` the keys and the framing of snapshots, `Weights` and `Avl` the sampling tree,
`Doubles` and `Shares` the rounding in the weight formula.
`Limitations` collects what one might expect and what does not hold, each with a concrete failure and
the exact condition under which it does hold. `Starvation` (on `FlatTrees`) and `StaleWeights` (on
`WeightedExample`) give whole runs for two of them.

## How the source is read

- A log entry carries its index, which seeds weighted picks, and the time at which the leader appended
  it. That time, in seconds, is the only clock.
- The invariant of a queue: ready and in-flight messages partition the stored ones, memory repeats what
  is stored, and each group's unacked counter counts its messages in flight.
- A legal log never enqueues an id that is stored, gives fair queues groups they can serve (non-empty,
  for round robin with non-empty segments), updates only queues that exist and gives a delayed queue no
  unacked limit. What happens otherwise is in `Limitations` (`ReEnqueueReadyIff`, `ReEnqueueInFlight`,
  `EnqueueMirrorsIff`, `UngroupedMessageStarves`, `CrashesIff`, `UpdatedIsRestorableIff`).
- The delivery counter wraps at 2^32, `maxUnacked + 1` at 2^63 and `mix64` at 2^64, as in the source.
  Message ids and times do not wrap.
- The nodes of the round-robin tree hold their children list as the sequence of its names and the cursor
  as a name. That the linked list and pointer of the source take the same steps on that ring is proved in
  `LinkedRing`.
- The weight formula is computed in doubles, as in the source: to 53 bits, to nearest, ties to even.
- The comment at `pkg/queue/queue.go:158-162` promises that a sweep hands over every message whose
  deadline has passed. The ack queue is max-first, so the code hands over all or none (`ExpireAcks`).
- The comment at `pkg/queue/memory/fair_weighted_queue.go:129-132` promises a positive weight to every
  group under its limit. The code computes otherwise (`UnderLimitWithoutWeight`); the model follows the
  code.

## Model

| member | source | states |
|---|---|---|
| FsmInvariant.ApplyKeepsInv | pkg/raft/fsm.go:43-92 | one legal log entry keeps the invariant of every queue and meets no nil dereference; it also keeps all weights up to date unless it changes a weighted queue's limit |
| FsmInvariant.RunKeepsInv | pkg/raft/fsm.go:43-92 | the invariant holds after every prefix of every legal log |
| FsmInvariant.ReachableStatesConsistent | pkg/queue/queue.go:367-454 | in every reachable state and every queue: ready and in-flight messages are disjoint and together exactly the stored ones, memory repeats the stored group and priority, and each group's unacked counter is the number of its messages in flight |
| History.WhyReady | pkg/queue/queue.go:606-670 | a delivery takes a ready message out; a message only becomes ready by an enqueue, a nack or an ack timeout, and only becomes stored by an enqueue |
| History.BetweenDeliveries | pkg/queue/queue.go:417-454 | over every run: between two deliveries of a message there is a nack, an ack timeout or a new enqueue of it |
| History.NotDeliveredAfterFinish | pkg/queue/queue.go:535-566 | over every run: after an ack, an auto-ack, a delete or a drop the message is not delivered again unless it is enqueued anew |
| Limits.RunKeepsLimit | pkg/queue/queue.go:606-670 | over every run with a fixed delivery limit: no stored count exceeds it, and a ready message has deliveries left |
| Restarts.DeliveredAtMostLimit | pkg/queue/queue.go:606-670 | over every history of log entries and restores from snapshots, from any consistent state and with a fixed limit: a message that is enqueued once has at most as many further deliveries as the limit leaves it at the start |
| Restarts.RebuildKeeps | pkg/raft/fsm.go:608-721 | a restore keeps the store with its delivery counts, the invariant and the delivery limit |
| Limits.RunKeepsCap | pkg/queue/memory/fair_weighted_queue.go:80-119 | over every run that lowers no unacked limit: no group of any fair queue ever has more messages in flight than its limit, and none at its limit has a weight |
| Replay.ReplayMatches | pkg/raft/fsm.go:43-92 | replaying a log over any database goes through the first run's memory states, and the stores differ by exactly the leftovers: configurations of queues not created so far, and messages not enqueued or deleted so far; until a command comes ahead of the creation of its queue |
| Replay.AnswerAgreesIff | pkg/raft/fsm.go:43-92 | the answer to an entry agrees exactly if the entry does not come ahead of the creation of a queue that the database has, and is no Get or Delete of a leftover |
| Replay.ReplayAgreesIff | pkg/raft/fsm.go:43-92 | all answers of a replay but reads of leftovers agree exactly if no command comes ahead of the creation of a queue that the database has |
| Replay.ReplayEndsTheSame | pkg/raft/fsm_determinism_test.go:20-30 | replaying the whole log over the database it left ends in the same store and memory, delivery counts included, if no command comes ahead of the creation of a queue that this database has |
| Replicas.RestoredReplicaAgrees | pkg/raft/fsm.go:608-721 | snapshot after n entries, restore on a replica in any state, apply the rest of the log: the same states as the replica that applied everything exactly if all weights were up to date at the snapshot, and then the same responses |
| StaleWeights.RestoredReplicaDiffers | pkg/queue/memory/fair_weighted_queue.go:52-62 | a legal log (a weighted queue whose limit is lowered, a snapshot, a Dequeue) at whose end the running replica delivers a message and the restored one answers that the queue is empty |
| Machine.ApplyToReplicas | pkg/raft/fsm_determinism_test.go:20-30 | two replicas in the same state but with unrelated heap layouts, tree shapes and counters answer an entry alike and stay in the same state |
| Changes.CommandIsChange | pkg/raft/fsm.go:114-480 | each command on messages makes exactly one of seven changes to at most one message, and its response tells which |
| Changes.ChangeMovesMessage | pkg/queue/queue.go:367-670 | where each kind of change leaves a message: stored, ready, in flight |
| Provenance.DeliveredAsGiven | pkg/raft/fsm.go:162-204 | over every run: a message that is handed out has the group, priority, content and metadata that its Enqueue gave it, with priority and metadata as last given by a Nack or UpdatePriority that succeeded |
| Provenance.StoredAsGiven | pkg/storage/badger_store.go:186-423 | over every run: the same of every stored message in every reachable state |
| Provenance.ContentStays | pkg/storage/badger_store.go:216-423 | no entry changes the content or group of a message while it stays stored |
| Effects.EnqueueEffect | pkg/raft/fsm.go:114-160 | a message is stored as given, in a delayed queue under the group "default", with no deliveries, and is ready |
| Effects.DequeueEffect | pkg/raft/fsm.go:162-204 | the message handed out was ready and stored; of its fields only the delivery counter changes, by one modulo 2^32; it is in flight until now plus the ack timeout, or gone if auto-acked; it is due, and nothing ready in its group (in a delayed queue: nothing ready) has a lower priority, or the same priority and a lower id |
| Effects.NackEffect | pkg/raft/fsm.go:359-395 | a message in flight is dropped if its deliveries are used up; otherwise it is ready with the given priority and metadata where they are given (metadata replaces, it is not merged), and the rest of its fields stay |
| Effects.AckTimeoutEffect | pkg/raft/fsm.go:320-357 | as a nack that gives neither priority nor metadata |
| Effects.AckEffect | pkg/raft/fsm.go:283-318 | a message in flight is gone; otherwise nothing changes |
| Effects.DeleteEffect | pkg/raft/fsm.go:248-281 | a stored message is gone from store, ready queue and ack queue; otherwise nothing changes |
| Effects.TouchEffect | pkg/raft/fsm.go:397-432 | the deadline of a message in flight moves to now plus the ack timeout, and nothing else changes |
| Effects.UpdatePriorityEffect | pkg/raft/fsm.go:434-480 | only the priority of the stored message changes, and with it its place among the ready messages or, in flight, its deadline |
| Effects.GetEffect | pkg/raft/fsm.go:206-246 | a lookup answers the stored message and changes nothing |
| Configurations.CreateQueueEffect | pkg/queue/queue.go:259-293 | exactly which settings are accepted and which error the others get; the new queue has the given settings, a zero timeout replaced by the default, in store and memory, is empty, of the right kind and with the right limit; an existing queue and all others stay |
| Configurations.UpdateQueueEffect | pkg/queue/queue.go:295-317 | new settings are accepted exactly if they keep the strategy and the timeout is zero or at least ten; then all of them hold in store and memory, and kind, messages, deadlines, counters and other queues stay; otherwise nothing changes |
| Configurations.DeleteQueueEffect | pkg/queue/manager.go:138-156 | a deleted queue is gone with its messages and no other queue notices; a missing one is not found |
| Configurations.MessageCommandEffect | pkg/raft/fsm.go:114-480 | a command on messages changes its own queue only; without a queue it fails and changes nothing |
| Proportions.HandsOutIff | pkg/queue/memory/fair_weighted_queue.go:80-119 | a weighted queue hands out a message of a group exactly if the seed modulo the total weight falls into the stretch of the group |
| Proportions.DequeuesAreProportional | pkg/weighted_avl/weighted_avl.go:233-242 | of any total-weight many consecutive seeds exactly weight(g) hand out group g |
| Proportions.CongruentSeedsAgree | pkg/weighted_avl/weighted_avl.go:233-242 | seeds that are equal modulo the total weight make the same dequeue |
| Proportions.EntryPicksByIndex | pkg/raft/fsm.go:162-204 | a Dequeue of the log hands out the group in whose stretch the mixed log index falls |
| Mixing.FirstMixes | pkg/weighted_avl/weighted_avl.go:244-254 | the first three outputs of splitmix64 from state zero |
| WeightedSpec.UnlimitedWeightIs | pkg/queue/memory/fair_weighted_queue.go:22-41 | without a limit a group with a message has weight ten |
| WeightedSpec.SizeDoesNotMatter | pkg/queue/memory/fair_weighted_queue.go:22-41 | a weight depends on the number of ready messages only in being zero without any |
| Snapshot.RestoreGivesRenewed | pkg/raft/fsm.go:608-721 | restoring any snapshot of a consistent state, over any previous state and with the queues in any order, gives that state with its weights recomputed |
| Snapshot.RestoreIsExactIff | pkg/raft/fsm.go:608-721 | the restored state is the original exactly when every weight is the one the current limit gives |
| Snapshot.MemoryIsDetermined | pkg/queue/queue.go:774-835 | in two consistent queues the same stored messages, messages in flight and configuration mean the same ready messages and counters, and with up-to-date weights the same memory but for the turn order of the groups |
| Scheduling.RestoresWhatWasCaptured | pkg/queue/memory/fair_round_robin_queue.go:442-520 | whatever order the children were created in, restoring the scheduling state captured from a tree over the same messages gives that tree, cursors included |
| Scheduling.ReorderedOk | pkg/queue/memory/fair_round_robin_queue.go:475-520 | reordering by any list keeps a ring that lists exactly the same children, each once |
| Scheduling.Order | pkg/queue/memory/fair_round_robin_queue.go:479-520 | the loop keeps the listed children that exist, each once, and appends the others in their old order |
| Scheduling.Locate | pkg/queue/memory/fair_round_robin_queue.go:479-520 | the cursor is the named child if it is listed, else unset |
| GroupPath.KeyIsJoinIff | pkg/queue/memory/fair_round_robin_queue.go:105-113 | the key that is built level by level is the dot-joined path exactly if the path does not start with an empty segment |
| GroupPath.LeadingDotShares | pkg/queue/memory/fair_round_robin_queue.go:105-113 | so the group .a shares its unacked counter with the group a |
| GroupPath.JoinSplit | pkg/queue/memory/fair_round_robin_queue.go:87-142 | joining the segments of a split group gives the group back |
| GroupPath.SplitJoin | pkg/queue/memory/fair_round_robin_queue.go:203-207 | splitting a joined path of dot-free segments gives the path back |
| GroupPath.JoinInjective | pkg/queue/memory/fair_round_robin_queue.go:203-207 | distinct nodes of the tree have distinct group keys |
| RoundRobinProperties.EnqueueWellFormed | pkg/queue/memory/fair_round_robin_queue.go:87-142 | an enqueue keeps the tree to exactly the prefixes of the queued groups, and every ring to its children, each once |
| RoundRobinProperties.DeleteWellFormed | pkg/queue/memory/fair_round_robin_queue.go:356-381 | so does a delete, which prunes exactly the nodes without messages below |
| RoundRobinProperties.DequeueWellFormed | pkg/queue/memory/fair_round_robin_queue.go:280-314 | so does a dequeue |
| RoundRobinProperties.DequeueEffect | pkg/queue/memory/fair_round_robin_queue.go:280-314 | a dequeue hands out one queued item and takes one slot of its group, or changes nothing at all |
| RoundRobinProperties.DequeueUnderLimit | pkg/queue/memory/fair_round_robin_queue.go:144-201 | the item comes from a group with a free slot |
| RoundRobinProperties.FitsDeterminesShape | pkg/queue/memory/fair_round_robin_queue.go:12-39 | which nodes exist and which children each lists follows from the queued items alone |
| RoundRobinProperties.DequeueIffHasReady | pkg/queue/memory/fair_round_robin_queue.go:316-333 | the walk returns an item exactly when hasReadyNode says so, which is exactly when some leaf with a message has no blocked node on its path |
| RoundRobinProperties.DequeueImpliesPeekReady | pkg/queue/memory/fair_round_robin_queue.go:335-344 | the counter of ready leaves never misses a deliverable message |
| RoundRobinProperties.PeekReadyIffDequeue | pkg/queue/memory/fair_round_robin_queue.go:335-344 | without a group in use that is a dotted prefix of another, PeekReady is exact |
| Fairness.StepMovesTurn | pkg/queue/memory/fair_round_robin_queue.go:239-278 | over all seven operations: a serving brings a waiting child at least one turn nearer, a sibling created while it is before the cursor takes it one turn back, and nothing else delays it; a deletion at the cursor must be at the first or last place |
| Fairness.AppendedAfterIff | pkg/queue/memory/fair_round_robin_queue.go:115-118 | a new child comes after a waiting one, and leaves its turn alone, exactly if the waiting one is not before the cursor |
| Fairness.BoundedWait | pkg/queue/memory/fair_round_robin_queue.go:144-201 | over every run: before a waiting child is served, its siblings are served at most as often as its place in the rotation says plus the number of siblings created while it is before the cursor |
| Fairness.ServedInBetween | pkg/queue/memory/fair_round_robin_queue.go:144-201 | over every run: between two servings of a child, a sibling that stays deliverable is served, even if the child runs empty and leaves in between, unless it comes back while the sibling is before the cursor |
| Fairness.ServedExactlyOnce | pkg/queue/memory/fair_round_robin_queue.go:144-201 | between two consecutive servings of a child, a sibling is served exactly once while both stay deliverable |
| Fairness.DequeuesAlternate | pkg/queue/memory/fair_round_robin_queue.go:144-201 | while messages are only taken out: a child that is still deliverable at the second of two consecutive servings of a sibling was served exactly once in between |
| Starvation.WaitsForEver | pkg/queue/memory/fair_round_robin_queue.go:239-278 | for any three groups and any length: a run without deletions in which one child is deliverable all the time and never served, while the two others run empty, are refilled and are served in turn |
| Starvation.DeletingTheNextServesTwice | pkg/queue/memory/fair_round_robin_queue.go:239-278 | a run in which a child is served, the next is deleted, and the same child is served again while a third waits |
| Fairness.ServedBeforeDeliverable | pkg/queue/memory/fair_round_robin_queue.go:144-201 | the child that is served comes no later in the rotation than any deliverable sibling |
| RoundRobinQueue.FairRoundRobinQueue.constructor | pkg/queue/memory/fair_round_robin_queue.go:57-67 | a new tree is empty with its cached numbers exact |
| RoundRobinQueue.FairRoundRobinQueue.RefreshLeafReady | pkg/queue/memory/fair_round_robin_queue.go:209-237 | the node's ready flag becomes exact and the counter follows it; nothing else changes |
| RoundRobinQueue.FairRoundRobinQueue.Enqueue | pkg/queue/memory/fair_round_robin_queue.go:87-142 | the new tree, counters, message counts and ready flags are those of the specification; counts and flags stay exact |
| RoundRobinQueue.FairRoundRobinQueue.DequeueFromNode | pkg/queue/memory/fair_round_robin_queue.go:144-201 | the recursive walk pops at the leaf that the specification walks to and advances exactly the cursors on the way |
| RoundRobinQueue.FairRoundRobinQueue.RemoveEmptyChild | pkg/queue/memory/fair_round_robin_queue.go:239-278 | pruning upwards removes exactly the empty nodes, and resets the cursor as the code does |
| RoundRobinQueue.FairRoundRobinQueue.Dequeue | pkg/queue/memory/fair_round_robin_queue.go:280-314 | the item and the new state are those of the specification; message counts and the number of ready leaves stay exact |
| RoundRobinQueue.FairRoundRobinQueue.Delete | pkg/queue/memory/fair_round_robin_queue.go:356-381 | the same for a delete; nothing happens if the group has no such message |
| RoundRobinQueue.FairRoundRobinQueue.Get | pkg/queue/memory/fair_round_robin_queue.go:346-354 | the queued item of that group with that id, if any |
| RoundRobinQueue.FairRoundRobinQueue.UpdatePriority | pkg/queue/memory/fair_round_robin_queue.go:383-390 | the item's priority changes and its heap stays in order; the tree is untouched |
| RoundRobinQueue.FairRoundRobinQueue.UpdateWeights | pkg/queue/memory/fair_round_robin_queue.go:398-419 | one slot of the group is given back if it holds any; ready flags stay exact |
| RoundRobinQueue.FairRoundRobinQueue.MarkUnacked | pkg/queue/memory/fair_round_robin_queue.go:421-431 | one slot of the group is taken; ready flags stay exact |
| RoundRobinQueue.FairRoundRobinQueue.UpdateMaxUnacked | pkg/queue/memory/fair_round_robin_queue.go:69-85 | the limit changes and every leaf's flag is exact under the new one |
| RoundRobinQueue.FairRoundRobinQueue.PeekReady | pkg/queue/memory/fair_round_robin_queue.go:335-344 | the constant-time counter answers whether any leaf is ready |
| RoundRobinQueue.FairRoundRobinQueue.HasReadyNode | pkg/queue/memory/fair_round_robin_queue.go:316-333 | the recursive search, children in any order, answers whether the walk finds an item |
| RoundRobinQueue.FairRoundRobinQueue.SchedulingState | pkg/queue/memory/fair_round_robin_queue.go:442-473 | what is captured are exactly the inner nodes, each with its child order and cursor |
| RoundRobinQueue.FairRoundRobinQueue.RestoreSchedulingState | pkg/queue/memory/fair_round_robin_queue.go:475-520 | the tree becomes the one the captured nodes describe; unknown nodes and children are skipped |
| LinkedRing.ChildRing.Append | pkg/queue/memory/linked_list.go:28-39 | appending a node to the linked list appends the name to the ring and keeps the cursor |
| LinkedRing.ChildRing.Remove | pkg/queue/memory/fair_round_robin_queue.go:248-270 | finding and unlinking a child, with a cursor on it sent to the head, drops the name from the ring |
| LinkedRing.ChildRing.TakeTurn | pkg/queue/memory/fair_round_robin_queue.go:155-201 | the loop over the linked list serves the first child in the rotation that gives something and leaves the cursor after it; if none does, the cursor is back where it was |
| WeightedSpec.CalculateWeight | pkg/queue/memory/fair_weighted_queue.go:22-41 | a weight is never negative, and positive only with a message and below the limit |
| WeightedSpec.WeightPositiveIff | pkg/queue/memory/fair_weighted_queue.go:22-41 | exactly when a weight is positive: a message, below the limit, and less than nine tenths of limit + 1 in flight (no such zone without a limit) |
| WeightedSpec.WeightIs | pkg/queue/memory/fair_weighted_queue.go:35-40 | in double arithmetic the weight is the free tenths of limit + 1 rounded down, one less where exactly one or two tenths are free |
| Shares.ShareIs | pkg/queue/memory/fair_weighted_queue.go:35-40 | the three roundings to 53 bits computed out: they change the result exactly at eight and nine tenths |
| WeightedProperties.RefreshedOk | pkg/queue/memory/fair_weighted_queue.go:80-119 | refiling the changed group keeps weights for exactly the groups in use, non-negative, and positive only where there is a message |
| WeightedProperties.DequeueWellFormed | pkg/queue/memory/fair_weighted_queue.go:80-119 | a dequeue keeps the invariant of the weights, and keeps them up to date |
| WeightedProperties.PeekReadyIffDequeue | pkg/queue/memory/fair_weighted_queue.go:121-134 | a positive total means that a dequeue returns a message for every seed, and a zero total that it never does, unless the group with the empty name is due (see Limitations.PeekIsExactIff) |
| WeightedProperties.PickedIsUnderLimit | pkg/queue/memory/fair_weighted_queue.go:80-119 | as long as no group at its limit has a weight, only a group under its limit is ever picked |
| WeightedProperties.UpToDateIsGated | pkg/queue/memory/fair_weighted_queue.go:80-119 | weights that the current limit gives keep a group at its limit without weight |
| WeightedProperties.UpToDateIsDetermined | pkg/queue/memory/fair_weighted_queue.go:199-241 | up-to-date weights are determined by messages, counters and limit |
| Weights.PickIsProportional | pkg/weighted_avl/weighted_avl.go:163-175 | of the Sum values that the random number can take, exactly weight(k) pick k, so a key of weight zero never is |
| Weights.PickStretch | pkg/weighted_avl/weighted_avl.go:163-175 | r picks k exactly when it falls into the stretch of length weight(k) after the smaller keys |
| Avl.InsertOk | pkg/weighted_avl/weighted_avl.go:71-108 | inserting acts as a map update and keeps the tree ordered, balanced and its cached heights and sums exact |
| Avl.DeleteOk | pkg/weighted_avl/weighted_avl.go:118-161 | deleting acts as map removal and keeps the same |
| Avl.InsertCaseIsDeleteCase | pkg/weighted_avl/weighted_avl.go:71-108 | choosing the rotation by the inserted key gives the same as choosing it by the child's balance |
| Avl.GetIsLookup | pkg/weighted_avl/weighted_avl.go:177-188 | lookup is lookup in the map |
| Avl.SumIsTotal | pkg/weighted_avl/weighted_avl.go:265-273 | the cached sum is the total weight |
| Avl.SampleIsPick | pkg/weighted_avl/weighted_avl.go:163-175 | sampling depends on the contents only, not on the shape of the tree |
| Avl.HeightIsLogarithmic | pkg/weighted_avl/weighted_avl.go:30-108 | a tree of height h has at least Fib(h + 2) - 1 nodes |
| AvlNodes.WeightedAVL.Update | pkg/weighted_avl/weighted_avl.go:208-213 | the linked nodes hold the map with that key updated, and stay a balanced search tree with exact sums |
| AvlNodes.WeightedAVL.Remove | pkg/weighted_avl/weighted_avl.go:215-220 | the linked nodes hold the map without the key |
| AvlNodes.WeightedAVL.Get | pkg/weighted_avl/weighted_avl.go:222-226 | lookup in the map |
| AvlNodes.WeightedAVL.Increment | pkg/weighted_avl/weighted_avl.go:254-263 | the weight of the key grows by delta, from zero if absent |
| AvlNodes.WeightedAVL.TotalWeight | pkg/weighted_avl/weighted_avl.go:265-273 | the total weight |
| AvlNodes.WeightedAVL.Sample | pkg/weighted_avl/weighted_avl.go:232-242 | the key whose stretch of the running total contains mix64(seed) modulo the total, or none |
| AvlNodes.RotateRight | pkg/weighted_avl/weighted_avl.go:38-49 | the links after an in-place rotation form the tree of the rotation on values, over the same nodes |
| AvlNodes.Insert | pkg/weighted_avl/weighted_avl.go:71-108 | recursive insertion into linked nodes gives the tree of insertion on values |
| AvlNodes.Delete | pkg/weighted_avl/weighted_avl.go:118-161 | recursive deletion from linked nodes gives the tree of deletion on values |
| WeightedQueue.FairWeightedQueue.constructor | pkg/queue/memory/fair_weighted_queue.go:43-50 | a new queue is empty |
| WeightedQueue.FairWeightedQueue.Enqueue | pkg/queue/memory/fair_weighted_queue.go:64-78 | heaps, counters and weight tree together are in the state of the specification |
| WeightedQueue.FairWeightedQueue.Dequeue | pkg/queue/memory/fair_weighted_queue.go:80-119 | picks the group by the mixed seed, pops its first message by (priority, id), counts it, and refiles or forgets the group as the specification does |
| WeightedQueue.FairWeightedQueue.PeekReady | pkg/queue/memory/fair_weighted_queue.go:121-134 | the root sum answers whether the total weight is positive |
| WeightedQueue.FairWeightedQueue.Get | pkg/queue/memory/fair_weighted_queue.go:136-145 | the queued item of that group with that id, if any |
| WeightedQueue.FairWeightedQueue.Delete | pkg/queue/memory/fair_weighted_queue.go:147-175 | the item leaves, and the group is refiled or forgotten |
| WeightedQueue.FairWeightedQueue.UpdatePriority | pkg/queue/memory/fair_weighted_queue.go:177-186 | the item's priority changes; weights do not |
| WeightedQueue.FairWeightedQueue.Len | pkg/queue/memory/fair_weighted_queue.go:188-197 | the sum of the heap sizes is the number of queued messages |
| WeightedQueue.FairWeightedQueue.UpdateWeights | pkg/queue/memory/fair_weighted_queue.go:199-224 | one slot of the group is given back if it holds any, and the group is refiled or forgotten |
| WeightedQueue.FairWeightedQueue.MarkUnacked | pkg/queue/memory/fair_weighted_queue.go:226-241 | one slot is taken, and the group's weight refiled |
| WeightedQueue.FairWeightedQueue.UpdateMaxUnacked | pkg/queue/memory/fair_weighted_queue.go:52-62 | only the limit changes: weights stay as they were filed |
| Heap.PriorityMemoryQueue.Push | pkg/queue/memory/priority_memory_queue.go:57-62 | the item is added and the order kept |
| Heap.PriorityMemoryQueue.Pop | pkg/queue/memory/priority_memory_queue.go:68-87 | the first item by (priority, id) is taken out and the order kept |
| Heap.PriorityMemoryQueue.Delete | pkg/queue/memory/priority_memory_queue.go:97-107 | the item with that id is taken out, wherever it is, and the order kept |
| Heap.PriorityMemoryQueue.UpdatePriority | pkg/queue/memory/priority_memory_queue.go:109-117 | the priority changes and the order is restored |
| Heap.PriorityMemoryQueue.Get | pkg/queue/memory/priority_memory_queue.go:89-95 | the item with that id, if any |
| Heap.PriorityMemoryQueue.SetPriority | pkg/queue/memory/priority_memory_queue.go:14-16 | a priority written through a shared item: contents follow, the order may not |
| Heap.RootIsFirst | pkg/queue/memory/priority_memory_queue.go:34-47 | the item at index 0 comes first by (priority, id), or last in a max-first heap |
| Heap.PriorityMemoryQueue.Drain | pkg/queue/memory/priority_memory_queue.go:64-87 | popping a heap object until it is empty gives the drained sequence of its contents |
| Heap.DrainedInOrder | pkg/queue/memory/priority_memory_queue.go:34-87 | draining yields every item exactly once in (priority, id) order, whatever the insertion order |
| DelayedQueue.DelayedQueue.Enqueue | pkg/queue/memory/delayed_queue.go:24-29 | the item is added |
| DelayedQueue.DelayedQueue.Dequeue | pkg/queue/memory/delayed_queue.go:31-48 | the first item by (due time, id), but only if it is due |
| DelayedQueue.DelayedQueue.PeekReady | pkg/queue/memory/delayed_queue.go:53-67 | whether a dequeue at that time returns a message, and otherwise how long until one does |
| DelayedQueue.DelayedQueue.Delete | pkg/queue/memory/delayed_queue.go:94-99 | the item with that id is taken out |
| DelayedQueue.DelayedQueue.UpdatePriority | pkg/queue/memory/delayed_queue.go:101-106 | the due time changes |
| MemoryQueue.Dequeue | pkg/queue/memory/memory_queue.go:7-24 | whichever of the three kinds of queue is behind the interface, the item and the new state are those of the specification |
| MemoryQueue.Enqueue | pkg/queue/memory/memory_queue.go:7-24 | the same for an enqueue |
| DelayedQueue.DelayedQueue.PeekReadyItem | pkg/queue/memory/delayed_queue.go:69-85 | the head if its time has come: in a min-first queue exactly once some item is due, in the max-first ack queue only once all are |
| DelayedQueue.LateDeadlineHidesExpired | pkg/queue/queue.go:158-187 | for any early and late deadline around the present, the sweep over both hands over neither |
| DelayedQueue.DelayedQueue.ExpireAcks | pkg/queue/queue.go:158-187 | the sweep hands over all messages in flight or none; every expired one exactly if none or all have expired |
| QueueSteps.NewQueueInv | pkg/queue/queue.go:77-112 | a new queue satisfies the invariant |
| QueueSteps.EnqueueStep | pkg/queue/queue.go:367-410 | keeps the invariant; the message becomes stored and ready |
| QueueSteps.DequeueStep | pkg/queue/queue.go:417-454 | keeps the invariant; the first ready message is counted as delivered and goes in flight, or leaves with auto-ack; its group takes a slot; with nothing to deliver nothing changes |
| QueueSteps.AckStep | pkg/queue/queue.go:535-566 | keeps the invariant; a message in flight is removed from store and ack queue and its slot given back; otherwise an error and no change |
| QueueSteps.DeleteStep | pkg/queue/queue.go:469-485 | keeps the invariant; a stored message disappears from wherever it is, and a slot is given back only if it was in flight |
| QueueSteps.NackStep | pkg/queue/queue.go:568-604 | keeps the invariant; a message in flight goes back to ready with its new priority and replaced metadata, or is dropped once its deliveries are used up; its slot is given back |
| QueueSteps.AckTimeoutStep | pkg/queue/queue.go:192-228 | keeps the invariant; the same after a timeout |
| QueueSteps.TouchStep | pkg/queue/queue.go:515-533 | keeps the invariant; only the deadline of a message in flight changes |
| QueueSteps.UpdatePriorityStep | pkg/queue/queue.go:487-513 | keeps the invariant; a ready message changes its priority in store and memory; one in flight has its deadline overwritten too |
| QueueSteps.EnqueueRestoredStep | pkg/queue/queue.go:774-799 | keeps the invariant; a restored message becomes ready and keeps its delivery count |
| QueueSteps.RestoreUnackedStep | pkg/queue/queue.go:805-835 | keeps the invariant; a restored message goes in flight with its deadline and takes its slot |
| Queue.Queue.Enqueue | pkg/queue/queue.go:367-410 | store, ready queue and ack queue objects together move to the state the specification gives, with its result; other queues' messages are untouched; a consistent queue stays consistent |
| Queue.Queue.Dequeue | pkg/queue/queue.go:417-454 | store, ready queue and ack queue objects together move to the state the specification gives, with its result; other queues' messages are untouched; a consistent queue stays consistent |
| Queue.Queue.Ack | pkg/queue/queue.go:535-566 | store, ready queue and ack queue objects together move to the state the specification gives, with its result; other queues' messages are untouched; a consistent queue stays consistent |
| Queue.Queue.Delete | pkg/queue/queue.go:469-485 | store, ready queue and ack queue objects together move to the state the specification gives, with its result; other queues' messages are untouched; a consistent queue stays consistent |
| Queue.Queue.Nack | pkg/queue/queue.go:568-604 | store, ready queue and ack queue objects together move to the state the specification gives, with its result; other queues' messages are untouched; a consistent queue stays consistent |
| Queue.Queue.AckTimeout | pkg/queue/queue.go:192-228 | store, ready queue and ack queue objects together move to the state the specification gives, with its result; other queues' messages are untouched; a consistent queue stays consistent |
| Queue.Queue.Touch | pkg/queue/queue.go:517-533 | store, ready queue and ack queue objects together move to the state the specification gives, with its result; other queues' messages are untouched; a consistent queue stays consistent |
| Queue.Queue.UpdatePriority | pkg/queue/queue.go:487-513 | store, ready queue and ack queue objects together move to the state the specification gives, with its result; other queues' messages are untouched; a consistent queue stays consistent |
| Queue.Queue.RedeliverOrDrop | pkg/queue/queue.go:606-670 | back to ready or dropped, as the delivery limit says, with the slot given back |
| Queue.Queue.UpdateQueue | pkg/queue/queue.go:295-317 | the strategy is fixed, the timeout validated, the configuration stored and the new limit passed on, or an error and no change |
| Queue.Queue.EnqueueRestored | pkg/queue/queue.go:767-799 | the object ends in the state the specification gives |
| Queue.Queue.RestoreUnacked | pkg/queue/queue.go:800-835 | the object ends in the state the specification gives |
| Queue.Queue.RestoreRoundRobinState | pkg/queue/queue.go:748-765 | a round-robin queue takes over the captured turn order; others ignore it |
| Queue.Queue.UnackedSnapshot | pkg/queue/queue.go:676-687 | one marker per message in flight with its deadline, by increasing id |
| Queue.Queue.PersistSnapshot | pkg/queue/queue.go:724-746 | configuration, unacked markers, messages by increasing id, then the schedule |
| Store.BadgerStore.Dequeue | pkg/storage/badger_store.go:216-257 | the delivery is counted, modulo 2^32, and the message removed with auto-ack |
| Store.BadgerStore.Delete | pkg/storage/badger_store.go:283-322 | the message is removed, or an error and no change |
| Store.BadgerStore.UpdatePriority | pkg/storage/badger_store.go:340-377 | only the priority changes, or an error and no change |
| Store.BadgerStore.UpdateMessage | pkg/storage/badger_store.go:379-420 | a non-zero priority and a non-empty metadata map replace the stored ones; everything else stays |
| Storage.BigEndianOrder | pkg/storage/utils.go:9-14 | big-endian byte strings of equal length sort as the numbers do |
| Storage.KeysSortById | pkg/storage/badger_store.go:110-112 | within a queue, keys sort by message id |
| Storage.ScanMeets | pkg/storage/badger_store.go:102-112 | exactly which keys a prefix scan for a queue meets |
| Storage.ScanIsExact | pkg/storage/badger_store.go:149-178 | queues whose names have no colon never meet each other's messages |
| Storage.ScanMeetsOthers | pkg/storage/badger_store.go:149-178 | a scan for queue a meets every message of queue a:b |
| Storage.FrameRoundTrip | pkg/storage/snapshot.go:13-65 | an item is read back with the rest of the stream intact exactly if its length fits 32 bits |
| Storage.StreamRoundTrip | pkg/storage/snapshot.go:13-65 | a whole stream of items is read back |
| Storage.CutStream | pkg/storage/snapshot.go:36-65 | a stream cut anywhere gives the whole items before the cut, and the cut is noticed unless it falls between items |
| Manager.QueueManager.GetQueue | pkg/queue/manager.go:158-175 | the queue in memory, or one loaded from the store, empty of messages |
| Manager.QueueManager.CreateQueue | pkg/queue/manager.go:97-116 | an existing queue is left alone; a new one is validated, stored and empty |
| Manager.QueueManager.UpdateQueue | pkg/queue/manager.go:118-136 | the settings change in store and memory, or an error and no change |
| Manager.QueueManager.DeleteQueue | pkg/queue/manager.go:138-156 | the queue disappears from store and memory |
| Manager.QueueManager.Reset | pkg/queue/manager.go:82-95 | nothing is left in store and memory |
| Manager.QueueManager.PersistSnapshot | pkg/queue/manager.go:65-80 | one block per queue, each queue once |
| Machine.FSM.Apply | pkg/raft/fsm.go:43-92 | response and new state of the objects are those of the specification for every command, and the invariant holds again |
| Machine.FSM.Persist | pkg/raft/fsm.go:731-757 | what is written is a snapshot of the current state |
| Machine.FSM.ReadItem | pkg/raft/fsm.go:608-721 | one snapshot item has the effect the specification gives |
| Machine.FSM.Restore | pkg/raft/fsm.go:608-721 | the objects end in the restored state; a snapshot of a consistent state gives that state back with its weights recomputed |
| Readiness.DequeueIffReady | pkg/queue/queue.go:417-454 | a dequeue succeeds exactly if the queue is ready, with or without ack and for every seed; otherwise it changes nothing |
| Readiness.CommandGains | pkg/queue/queue.go:239-257 | a command that makes a queue ready notifies, or is a priority change of a delayed queue, or an ack, a delete or a dropped message of a fair queue |
| WakeUp.AnnouncedWakes | pkg/grpc/server.go:361-398 | over every interleaving, whatever slots are freed, settings changed or time passes: a consumer that fetched its channel before a command that notifies finds it closed, or a notification still to come |
| WakeUp.LosesIff | pkg/queue/queue.go:239-257 | a wake-up is lost exactly by a step that makes the queue deliverable without notifying, while a consumer waits on the open channel and no notification is to come |
| WakeUp.WhatGainsSilently | pkg/queue/queue.go:239-257 | only time and priority changes on a delayed queue, and new settings, acks, deletes and drops on a fair one, make a queue deliverable without notifying |
| WakeUp.WaitsInVain | pkg/grpc/server.go:361-398 | a consumer that waits on an open channel with a message deliverable and nothing owed does so because of such a step since it began to wait |
| WakeUp.NoLostWakeUp | pkg/grpc/server.go:361-398 | without such steps no wake-up is lost |
| WakeUp.StepStaysGood | pkg/queue/queue.go:253-257 | every step keeps the invariant of the queue, and nobody has a channel of the future |
| WakeUp.FreedSlotIsNotAnnounced | pkg/queue/queue.go:535-566 | a run of commands: limit one, two messages of one group, a delivery, a failed dequeue, and an ack that wakes nobody |
| WakeUp.DueMessageIsNotAnnounced | pkg/queue/queue.go:487-513 | a run in which a delayed message becomes due with time, or by a new priority, and wakes nobody |
| Limitations.RemovalKeepsTurnsIff | pkg/queue/memory/fair_round_robin_queue.go:239-278 | removing a child keeps everyone else's turn exactly if it was not its turn, or it was first or last in the list |
| Limitations.UnderLimitWithoutWeight | pkg/queue/memory/fair_weighted_queue.go:129-132 | 29 of 30 slots used: weight zero although under the limit, against the comment in the code |
| Limitations.WeightIsExactIff | pkg/queue/memory/fair_weighted_queue.go:35-40 | doubles give the free tenths rounded down exactly if eight and nine tenths of limit + 1 are not what is in flight |
| Limitations.LastTenthIsLost | pkg/queue/memory/fair_weighted_queue.go:35-40 | 18 of 19 slots used: weight zero instead of one; 8 of 9: one instead of two |
| Limitations.PicksUnderLimitIff | pkg/queue/memory/fair_weighted_queue.go:52-62 | every pick is under the limit exactly if no group at its limit kept a positive weight |
| Limitations.LoweredLimitIsOverrun | pkg/queue/memory/fair_weighted_queue.go:52-62 | a lowered limit leaves the weights, so a group at its limit is still picked |
| Limitations.PeekIsExactIff | pkg/queue/memory/fair_weighted_queue.go:80-134 | PeekReady is exact for all seeds exactly if the group with the empty name has no weight |
| Limitations.UngroupedMessageStarves | pkg/queue/memory/fair_weighted_queue.go:88-94 | a weighted queue whose only message has the empty group is ready for ever and serves nothing |
| Limitations.EnqueueMirrorsIff | pkg/queue/memory/fair_round_robin_queue.go:91-97 | a round-robin queue files a message under the group it is stored with exactly if that is not empty |
| Limitations.SlotComesBackIff | pkg/queue/memory/fair_round_robin_queue.go:398-431 | after enqueue, delivery and ack of a message of a round-robin queue the counters are back to what they were exactly if it has a group |
| Limitations.UnsetCursorRestoredIff | pkg/queue/memory/fair_round_robin_queue.go:475-520 | an unset cursor survives a snapshot exactly if no other child has the empty name |
| Limitations.CreatedIsRestorableIff | pkg/queue/queue.go:259-293 | a created queue can be created again from a snapshot exactly if its timeout was given or the default is long enough |
| Limitations.UpdatedIsRestorableIff | pkg/queue/queue.go:295-317 | the same after new settings, which must also leave a delayed queue without an unacked limit |
| Limitations.UnrestorableCrashes | pkg/raft/fsm.go:608-721 | a message of a queue that could not be created again is restored into a nil queue |
| Limitations.CrashesIff | pkg/queue/manager.go:118-136 | in a consistent state a command ends in the one nil dereference that the specification has exactly if it updates a queue that does not exist |
| Limitations.ReEnqueueReadyIff | pkg/queue/queue.go:367-410 | enqueueing a ready id again finds it and keeps memory and store in step exactly under the same group and priority |
| Limitations.ReEnqueueInFlight | pkg/queue/queue.go:367-410 | enqueueing an id that is in flight makes it ready and in flight at once |
| Limitations.FreedSlotMakesReady | pkg/queue/memory/fair_round_robin_queue.go:398-419 | giving back a slot can make a blocked leaf ready |
| Limitations.PeekReadyMisleadsIff | pkg/queue/memory/fair_round_robin_queue.go:335-344 | PeekReady and the walk disagree exactly if there are ready leaves and each has a blocked node above it |
| Limitations.BlockedByPrefix | pkg/queue/memory/fair_round_robin_queue.go:144-201 | a full group that is a dotted prefix of the only queued group blocks it while PeekReady stays true |
| Limitations.LookupReplaysDifferently | pkg/raft/fsm.go:206-246 | a message looked up before it is enqueued is not found the first time and found on the replay |
| Limitations.EarlyCommandReplaysDifferently | pkg/raft/fsm.go:43-92 | a command logged before its queue was created fails the first time and succeeds on a replay |

## Left out

- Replay.ReplayEndsTheSame: the condition is exact for the answers (`Replay.ReplayAgreesIff`), not for the end state, which an early command that fails both times leaves alone.
- WeightedSpec.WeightPositiveIff: for the limits that a uint32 setting can give, and no limit.
- WeightedSpec.UnlimitedWeightIs: for up to 2^59 messages of the group in flight; beyond, the weight creeps up because `maxUnacked + 1` wraps.
- WeightedQueue.FairWeightedQueue.UpdateWeights: asks that a group with a counter holds a slot; the source would count below zero, which no queue object leads to.
- Mixing.FirstMixes: fixes `mix64` on three inputs only; that it spreads the log indices evenly is not proved.
- LinkedRing.ChildRing.TakeTurn: the tree nodes of `RoundRobinQueue` hold the ring by value, so the linked form is proved per node and not inside the tree.
- Limitations.CrashesIff: only the missing configuration of an updated queue is an outcome of the specification; that nothing else is nil is what the object methods are proved to keep.
- Limitations.ReEnqueueReadyIff: an id queued under another group is then held by two heaps in the source; the model's map from id to item holds it once.
- Machine.FSM.Persist: capture and writing are one step; the source captures markers and schedules first and writes configuration and messages later from a read transaction.
- Raft itself, leader configuration commands, and the HTTP and gRPC servers but for the consumer loop.
- The protobuf encoding of commands and of snapshot items; snapshot items are values, framing is on bytes.
- Badger: messages per queue are a map. That is exact for queue names without colon (`Storage.ScanIsExact`); failures other than a missing key do not occur.
- Locks: each method that holds the queue's or manager's lock is one atomic step.
- DelayedQueue.DelayedQueue.ExpireAcks: the handler is taken to have every timeout applied at once and the clock not to move during a sweep; the monitor that starts sweeps is left out, and so is a heap whose order `UpdatePriority` on a message in flight has disturbed.
- In place of a nil metadata map the model has the empty map.
- GroupPath.KeyIsJoinIff: groups with empty segments are outside the round-robin model beyond this lemma; their counters are keyed by the joined path.
- Statistics, metrics, listings (`GetQueues`, `GetMessages`, `ListQueues`, `Items`) and logging.
- Queue types other than "delayed" and "fair", which the servers do not admit.
