/**
 * What a weighted queue hands out for which seed: the groups share the seeds in proportion to their
 * weights, over every stretch of consecutive seeds as long as the total weight.
 */
module Proportions {
  import opened Types
  import opened Weights
  import opened Fsm
  import opened QueueInvariant
  import opened Mixing
  import Q = QueueSpec
  import QS = QueueSteps
  import Rd = Readiness
  import WQ = WeightedSpec

  /** The weights of a weighted queue. */
  ghost function WeightsOf(q: Q.Queue): WeightMap
    requires q.ready.WeightedMemory?
  {
    q.ready.wq.weights
  }

  /** With this seed a dequeue hands out a message of group `g`. */
  ghost predicate Hands(q: Q.Queue, ack: bool, seed: nat, now: int, g: string)
    requires Q.MemoryOk(q.ready)
  {
    var r := Q.Dequeue(q, ack, seed, now).1;
    r.Ok? && r.value.1.group == g
  }

  /** The remainder of the seed falls into the stretch of the group, as long as its weight. */
  ghost predicate InStretch(weights: WeightMap, seed: nat, g: string) {
    && Total(weights) > 0 && g in weights
    && Total(Below(weights, g)) <= seed % Total(weights) < Total(Below(weights, g)) + weights[g]
  }

  lemma WeightsNonNegative(s: WQ.State)
    requires WQ.WellFormed(s)
    ensures NonNegative(s.weights)
  {
    forall g | g in s.weights ensures s.weights[g] >= 0 {
      assert WQ.GroupOk(s, g);
    }
  }

  lemma PicksInStretch(s: WQ.State, ack: bool, seed: nat, g: string)
    requires WQ.WellFormed(s) && "" !in s.weights
    ensures var x := WQ.Dequeue(s, ack, seed).0; x.Some? && x.value.group == g <==> InStretch(s.weights, seed, g)
    ensures var x := WQ.Dequeue(s, ack, seed).0; x.Some? ==> x.value.id in s.items && s.items[x.value.id] == x.value
  {
    hide WQ.CalculateWeight;
    WeightsNonNegative(s);
    if Total(s.weights) > 0 {
      PickStretch(s.weights, seed % Total(s.weights), g);
      WQ.SelectedHasItem(s, seed);
    }
  }

  /** A message of a group is handed out exactly for the seeds in its stretch. */
  lemma HandsOutIff(q: Q.Queue, ack: bool, seed: nat, now: int, g: string)
    requires Inv(q) && q.ready.WeightedMemory?
    ensures Q.MemoryOk(q.ready) && (Hands(q, ack, seed, now, g) <==> InStretch(WeightsOf(q), seed, g))
  {
    hide WQ.WellFormed, WQ.Dequeue, InStretch, Consistent, AllAccepted;
    Rd.NoEmptyName(q);
    PicksInStretch(q.ready.wq, ack, seed, g);
    var x := WQ.Dequeue(q.ready.wq, ack, seed).0;
    if x.Some? { QS.ReadyIsStored(ViewOf(q), x.value.id); }
  }

  // ---------- Counting seeds ----------

  function Remainder(i: nat, total: nat): nat
    requires total > 0
  {
    i % total
  }

  /** Those of the `total` seeds from `n` on whose remainder lies from `lo` up to `hi`. */
  ghost function Remainders(n: nat, total: nat, lo: int, hi: int): set<nat>
    requires total > 0
  {
    set i | n <= i < n + total && Chosen(i, total, lo, hi)
  }

  lemma {:induction false} CountRemainders(n: nat, total: nat, lo: int, hi: int)
    requires 0 <= lo <= hi <= total && total > 0
    ensures |Remainders(n, total, lo, hi)| == hi - lo
  {
    hide Remainders, Remainder;
    if n == 0 {
      CountFirst(total, lo, hi);
    } else {
      CountRemainders(n - 1, total, lo, hi);
      NextRemainders(n - 1, total, lo, hi);
    }
  }

  ghost predicate Chosen(i: nat, total: nat, lo: int, hi: int)
    requires total > 0
  {
    lo <= Remainder(i, total) < hi
  }

  /** One seed further: the one that leaves and the one that comes have the same remainder. */
  lemma NextRemainders(n: nat, total: nat, lo: int, hi: int)
    requires total > 0
    ensures |Remainders(n + 1, total, lo, hi)| == |Remainders(n, total, lo, hi)|
  {
    hide Chosen;
    var before, after := Remainders(n, total, lo, hi), Remainders(n + 1, total, lo, hi);
    SameChoice(n, total, lo, hi);
    var last := n + total;
    if Chosen(n, total, lo, hi) {
      Exchanged(before, after, n, last);
    } else {
      assert after == before;
    }
  }

  lemma Exchanged(before: set<nat>, after: set<nat>, first: nat, last: nat)
    requires first in before && first !in after && last in after && last !in before
    requires forall i :: i != first && i != last ==> (i in before <==> i in after)
    ensures |after| == |before|
  {
    var kept := before - {first};
    assert before == kept + {first};
    assert after == kept + {last};
  }

  lemma SameChoice(i: nat, total: nat, lo: int, hi: int)
    requires total > 0
    ensures Chosen(i + total, total, lo, hi) <==> Chosen(i, total, lo, hi)
  {
    hide Remainder;
    SameRemainder(i, total);
  }

  lemma SameRemainder(i: nat, total: nat)
    requires total > 0
    ensures Remainder(i + total, total) == Remainder(i, total)
  {
    var k, r := i / total, i % total;
    assert i == k * total + r;
    assert (k + 1) * total == k * total + total;
    RemainderIs(i + total, total, k + 1, r);
  }

  lemma RemainderIs(x: nat, total: nat, k: nat, r: nat)
    requires r < total && x == k * total + r
    ensures x % total == r
  {
    var k' := x / total;
    assert x == k' * total + x % total;
    if k' > k {
      Apart(k, k', total);
    } else if k' < k {
      Apart(k', k, total);
    }
  }

  lemma {:induction false} Apart(k: nat, k': nat, total: nat)
    requires k < k'
    ensures k' * total >= k * total + total
    decreases k'
  {
    assert k' * total == (k' - 1) * total + total;
    if k + 1 < k' { Apart(k, k' - 1, total); }
  }

  lemma {:induction false} CountFirst(total: nat, lo: int, hi: int)
    requires 0 <= lo <= hi <= total && total > 0
    ensures |Remainders(0, total, lo, hi)| == hi - lo
    decreases hi - lo
  {
    hide Remainder;
    if lo == hi {
      assert Remainders(0, total, lo, hi) == {};
    } else {
      CountFirst(total, lo, hi - 1);
      forall i | 0 <= i < total ensures Remainder(i, total) == i {
        SmallRemainder(i, total);
      }
      assert Remainders(0, total, lo, hi) == Remainders(0, total, lo, hi - 1) + {hi - 1};
    }
  }

  lemma SmallRemainder(i: nat, total: nat)
    requires i < total
    ensures Remainder(i, total) == i
  {
  }

  ghost function HandingSeeds(q: Q.Queue, ack: bool, now: int, g: string, n: nat): set<nat>
    requires Inv(q) && q.ready.WeightedMemory?
  {
    Rd.InvGivesOk(q);
    set i | n <= i < n + Total(WeightsOf(q)) && Hands(q, ack, i, now, g)
  }

  /**
   * Among any consecutive seeds as many as the total weight, exactly as many hand out a message of a
   * group as the group has weight.
   */
  lemma DequeuesAreProportional(q: Q.Queue, ack: bool, now: int, g: string, n: nat)
    requires Inv(q) && q.ready.WeightedMemory? && g in WeightsOf(q)
    ensures |HandingSeeds(q, ack, now, g, n)| == WeightsOf(q)[g]
  {
    hide Inv, Hands, Q.MemoryOk, WQ.WellFormed;
    var w := WeightsOf(q);
    Rd.InvGivesOk(q);
    WellWeighted(q);
    BelowPlusOwn(w, g);
    forall i: nat ensures Hands(q, ack, i, now, g) <==> InStretch(w, i, g) {
      HandsOutIff(q, ack, i, now, g);
    }
    if Total(w) > 0 {
      var lo := Total(Below(w, g));
      CountRemainders(n, Total(w), lo, lo + w[g]);
      assert HandingSeeds(q, ack, now, g, n) == Remainders(n, Total(w), lo, lo + w[g]);
    } else {
      assert HandingSeeds(q, ack, now, g, n) == {};
    }
  }

  lemma WellWeighted(q: Q.Queue)
    requires Inv(q) && q.ready.WeightedMemory?
    ensures NonNegative(WeightsOf(q))
  {
    hide Consistent, AllAccepted, WQ.WellFormed;
    WeightsNonNegative(q.ready.wq);
  }

  /** Seeds with the same remainder hand out the same message and leave the same queue. */
  lemma CongruentSeedsAgree(q: Q.Queue, ack: bool, now: int, i: nat, j: nat)
    requires Inv(q) && q.ready.WeightedMemory?
    requires Total(WeightsOf(q)) > 0 ==> i % Total(WeightsOf(q)) == j % Total(WeightsOf(q))
    ensures Q.MemoryOk(q.ready) && Q.Dequeue(q, ack, i, now) == Q.Dequeue(q, ack, j, now)
  {
    hide Consistent, AllAccepted, WQ.WellFormed;
  }

  /** An entry of the log picks by its mixed index. */
  lemma EntryPicksByIndex(q: Q.Queue, e: Entry, g: string)
    requires Inv(q) && q.ready.WeightedMemory? && e.cmd.Dequeue?
    ensures Q.MemoryOk(q.ready)
    ensures var r := OnQueue(q, e).1;
      r.Answered? && r.msg.group == g <==> InStretch(WeightsOf(q), Mix64(e.index), g)
  {
    hide Inv, InStretch, Q.Dequeue, Mix64, Q.MemoryOk;
    HandsOutIff(q, e.cmd.ack, Mix64(e.index), e.now, g);
  }
}
