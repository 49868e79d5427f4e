/**
 * `PriorityMemoryQueue`: a binary heap of items with an index from id to position, driven by Go's
 * container/heap. Its contents are a map from id to item; popping returns the first item by
 * (priority, id), or the last for a heap that is max-first.
 */
module Heap {
  import opened Types
  import opened Order

  predicate Less(minFirst: bool, a: Item, b: Item) {
    if minFirst then Before(a, b) else Before(b, a)
  }

  // ---------- Heap order on a sequence ----------

  /** The item at `k` does not come before its parent. */
  predicate Above(minFirst: bool, s: seq<Item>, k: int)
    requires 1 <= k < |s|
  {
    !Less(minFirst, s[k], s[(k - 1) / 2])
  }

  /** Heap order among the first `n` items. */
  ghost predicate Ordered(minFirst: bool, s: seq<Item>, n: int)
    requires n <= |s|
  {
    forall k :: 1 <= k < n ==> Above(minFirst, s, k)
  }

  /** Heap order except at `i`: its parent and its children may disagree with it, but not with each other. */
  ghost predicate OrderedBut(minFirst: bool, s: seq<Item>, n: int, i: int)
    requires n <= |s|
  {
    && (forall k :: 1 <= k < n && k != i && (k - 1) / 2 != i ==> Above(minFirst, s, k))
    && (forall k :: 1 <= i && 1 <= k < n && (k - 1) / 2 == i ==> !Less(minFirst, s[k], s[(i - 1) / 2]))
  }

  /** The children of `i` do not come before it. */
  ghost predicate ChildrenAbove(minFirst: bool, s: seq<Item>, n: int, i: int)
    requires n <= |s|
  {
    forall k :: 1 <= k < n && (k - 1) / 2 == i ==> Above(minFirst, s, k)
  }

  lemma {:induction false} RootIsFirst(minFirst: bool, s: seq<Item>, k: nat)
    requires k < |s| && Ordered(minFirst, s, |s|)
    ensures !Less(minFirst, s[k], s[0])
    decreases k
  {
    if k > 0 {
      assert Above(minFirst, s, k);
      RootIsFirst(minFirst, s, (k - 1) / 2);
    }
  }

  function Swapped(s: seq<Item>, i: int, j: int): seq<Item>
    requires 0 <= i < |s| && 0 <= j < |s|
  {
    s[i := s[j]][j := s[i]]
  }

  /** One step of `up`: the hole in the order moves to the parent. */
  lemma SwapUp(minFirst: bool, s: seq<Item>, n: int, j: int)
    requires 0 < j < n <= |s| && OrderedBut(minFirst, s, n, j) && ChildrenAbove(minFirst, s, n, j)
    requires Less(minFirst, s[j], s[(j - 1) / 2])
    ensures var i := (j - 1) / 2; var t := Swapped(s, i, j);
      OrderedBut(minFirst, t, n, i) && ChildrenAbove(minFirst, t, n, i)
  {
    var i := (j - 1) / 2;
    var t := Swapped(s, i, j);
    forall k | 1 <= k < n && k != i && (k - 1) / 2 != i ensures Above(minFirst, t, k) {
      assert (k - 1) / 2 != j ==> Above(minFirst, s, k);
    }
    if i >= 1 { assert Above(minFirst, s, i); }
    forall k | 1 <= k < n && (k - 1) / 2 == i
      ensures Above(minFirst, t, k)
      ensures i >= 1 ==> !Less(minFirst, t[k], t[(i - 1) / 2])
    {
      assert k != j ==> Above(minFirst, s, k);
    }
  }

  /** One step of `down`: the hole moves to the child that comes first. */
  lemma SwapDown(minFirst: bool, s: seq<Item>, n: int, i: int, j: int)
    requires 0 <= i && 1 <= j < n <= |s| && (j - 1) / 2 == i && OrderedBut(minFirst, s, n, i)
    requires Less(minFirst, s[j], s[i])
    requires forall k :: 1 <= k < n && (k - 1) / 2 == i ==> !Less(minFirst, s[k], s[j])
    ensures OrderedBut(minFirst, Swapped(s, i, j), n, j) && Above(minFirst, Swapped(s, i, j), j)
  {
    var t := Swapped(s, i, j);
    forall k | 1 <= k < n && k != j && (k - 1) / 2 != j ensures Above(minFirst, t, k) {
      assert k != i && (k - 1) / 2 != i ==> Above(minFirst, s, k);
    }
    forall k | 1 <= k < n && (k - 1) / 2 == j ensures !Less(minFirst, t[k], t[(j - 1) / 2]) {
      assert Above(minFirst, s, k);
    }
  }

  /** The child of `i` that comes first. */
  function FirstChild(minFirst: bool, s: seq<Item>, n: int, i: int): (j: int)
    requires 0 <= i && 2 * i + 1 < n <= |s|
    ensures 1 <= j < n && (j - 1) / 2 == i
    ensures forall k :: 1 <= k < n && (k - 1) / 2 == i ==> !Less(minFirst, s[k], s[j])
  {
    var j := 2 * i + 1;
    if j + 1 < n && Less(minFirst, s[j + 1], s[j]) then j + 1 else j
  }

  lemma NoChildren(minFirst: bool, s: seq<Item>, n: int, i: int)
    requires 0 <= i && n <= |s| && 2 * i + 1 >= n
    ensures ChildrenAbove(minFirst, s, n, i)
  {
  }

  lemma FirstChildAbove(minFirst: bool, s: seq<Item>, n: int, i: int)
    requires 0 <= i && 2 * i + 1 < n <= |s| && !Less(minFirst, s[FirstChild(minFirst, s, n, i)], s[i])
    ensures ChildrenAbove(minFirst, s, n, i)
  {
  }

  /** With the last hole closed the order is whole. */
  lemma HoleClosed(minFirst: bool, s: seq<Item>, n: int, i: int)
    requires 0 <= i && n <= |s| && OrderedBut(minFirst, s, n, i) && ChildrenAbove(minFirst, s, n, i)
    requires 1 <= i < n ==> Above(minFirst, s, i)
    ensures Ordered(minFirst, s, n)
  {
  }

  lemma NotBefore(minFirst: bool, s: seq<Item>, n: int, j: int)
    requires 0 <= j < n <= |s| && !(j > 0 && Less(minFirst, s[j], s[(j - 1) / 2]))
    ensures 1 <= j < n ==> Above(minFirst, s, j)
  {
  }

  lemma AppendedHole(minFirst: bool, s: seq<Item>, x: Item)
    requires Ordered(minFirst, s, |s|)
    ensures var t := s + [x]; OrderedBut(minFirst, t, |t|, |s|) && ChildrenAbove(minFirst, t, |t|, |s|)
  {
    var t := s + [x];
    forall k | 1 <= k < |s| ensures Above(minFirst, t, k) {
      assert Above(minFirst, s, k);
    }
  }

  /** Replacing the item at `i` leaves a hole there. */
  lemma ReplacedHole(minFirst: bool, s: seq<Item>, t: seq<Item>, n: int, i: int)
    requires 0 <= i < n <= |s| == |t| && Ordered(minFirst, s, n)
    requires forall k :: 0 <= k < n && k != i ==> t[k] == s[k]
    ensures OrderedBut(minFirst, t, n, i)
  {
    forall k | 1 <= k < n && k != i && (k - 1) / 2 != i ensures Above(minFirst, t, k) {
      assert Above(minFirst, s, k);
    }
    if i >= 1 { assert Above(minFirst, s, i); }
    forall k | 1 <= i && 1 <= k < n && (k - 1) / 2 == i ensures !Less(minFirst, t[k], t[(i - 1) / 2]) {
      assert Above(minFirst, s, k);
    }
  }

  lemma OrderedPrefix(minFirst: bool, s: seq<Item>, n: nat, m: nat)
    requires n <= m <= |s| && Ordered(minFirst, s, m)
    ensures Ordered(minFirst, s[..n], n)
  {
    forall k | 1 <= k < n ensures Above(minFirst, s[..n], k) {
      assert Above(minFirst, s, k);
    }
  }

  class PriorityMemoryQueue {
    const minFirst: bool
    var items: seq<Item>
    var idToIndex: map<nat, int>

    /** The index finds every item, and only those. */
    ghost predicate Valid()
      reads this
    {
      && (forall i :: 0 <= i < |items| ==> items[i].id in idToIndex && idToIndex[items[i].id] == i)
      && (forall id :: id in idToIndex ==> 0 <= idToIndex[id] < |items| && items[idToIndex[id]].id == id)
    }

    ghost function Contents(): (m: map<nat, Item>)
      requires Valid()
      reads this
    {
      map id | id in idToIndex :: items[idToIndex[id]]
    }

    ghost predicate InOrder()
      reads this
    {
      Ordered(minFirst, items, |items|)
    }

    constructor (minFirst: bool)
      ensures Valid() && InOrder() && Contents() == map[] && this.minFirst == minFirst
    {
      this.minFirst := minFirst;
      items := [];
      idToIndex := map[];
    }

    method Swap(i: int, j: int)
      requires Valid() && 0 <= i < |items| && 0 <= j < |items|
      modifies this
      ensures Valid() && Contents() == old(Contents())
      ensures items == old(items)[i := old(items)[j]][j := old(items)[i]]
    {
      items := items[i := items[j]][j := items[i]];
      idToIndex := idToIndex[items[i].id := i][items[j].id := j];
    }

    /**
     * container/heap's `up`. `ord` says that the order of the first `n` items is intact but for the
     * one at `j0`.
     */
    method Up(j0: int, ghost n: int, ghost ord: bool)
      requires Valid() && 0 <= j0 < n <= |items|
      requires ord ==> OrderedBut(minFirst, items, n, j0) && ChildrenAbove(minFirst, items, n, j0)
      modifies this
      ensures Valid() && Contents() == old(Contents()) && |items| == old(|items|)
      ensures items[n..] == old(items)[n..]
      ensures ord ==> Ordered(minFirst, items, n)
    {
      hide Less, Above, OrderedBut, ChildrenAbove, Ordered;
      var j := j0;
      while j > 0 && Less(minFirst, items[j], items[(j - 1) / 2])
        invariant Valid() && Contents() == old(Contents()) && 0 <= j < n <= |items| == old(|items|)
        invariant items[n..] == old(items)[n..]
        invariant ord ==> OrderedBut(minFirst, items, n, j) && ChildrenAbove(minFirst, items, n, j)
      {
        var i := (j - 1) / 2;
        if ord { SwapUp(minFirst, items, n, j); }
        Swap(i, j);
        j := i;
      }
      if ord {
        NotBefore(minFirst, items, n, j);
        HoleClosed(minFirst, items, n, j);
      }
    }

    /** container/heap's `down` on the first `n` items. */
    method Down(i0: int, n: int, ghost ord: bool) returns (moved: bool)
      requires Valid() && 0 <= i0 && n <= |items| && (i0 < n || n == 0)
      requires ord ==> OrderedBut(minFirst, items, n, i0)
      modifies this
      ensures Valid() && Contents() == old(Contents()) && |items| == old(|items|)
      ensures items[n..] == old(items)[n..]
      ensures ord && moved ==> Ordered(minFirst, items, n)
      ensures !moved ==> items == old(items)
      ensures ord && !moved ==> ChildrenAbove(minFirst, items, n, i0)
    {
      hide Less, Above, OrderedBut, ChildrenAbove, Ordered, FirstChild;
      var i := i0;
      while 2 * i + 1 < n
        invariant Valid() && Contents() == old(Contents()) && |items| == old(|items|)
        invariant i0 <= i && (i < n || i == i0)
        invariant items[n..] == old(items)[n..]
        invariant i == i0 ==> items == old(items)
        invariant ord ==> OrderedBut(minFirst, items, n, i)
        invariant ord && i != i0 ==> Above(minFirst, items, i)
      {
        var j := FirstChild(minFirst, items, n, i);
        if !Less(minFirst, items[j], items[i]) {
          FirstChildAbove(minFirst, items, n, i);
          if ord && i != i0 { HoleClosed(minFirst, items, n, i); }
          return i > i0;
        }
        if ord { SwapDown(minFirst, items, n, i, j); }
        Swap(i, j);
        i := j;
      }
      NoChildren(minFirst, items, n, i);
      if ord && i != i0 { HoleClosed(minFirst, items, n, i); }
      moved := i > i0;
    }

    /** `heap.Push`. */
    method Push(x: Item)
      requires Valid() && x.id !in Contents()
      modifies this
      ensures Valid() && Contents() == old(Contents())[x.id := x]
      ensures old(InOrder()) ==> InOrder()
    {
      hide Less, Above, OrderedBut, ChildrenAbove, Ordered;
      ghost var ord := InOrder();
      if ord { AppendedHole(minFirst, items, x); }
      idToIndex := idToIndex[x.id := |items|];
      items := items + [x];
      assert Contents() == old(Contents())[x.id := x];
      Up(|items| - 1, |items|, ord);
    }

    /** `Pop` of the heap interface: takes off the last item. */
    method TakeLast() returns (x: Item)
      requires Valid() && |items| > 0
      modifies this
      ensures x == old(items)[|old(items)| - 1] && items == old(items)[..|old(items)| - 1]
      ensures Valid() && x.id in old(Contents()) && old(Contents())[x.id] == x && Contents() == old(Contents()) - {x.id}
    {
      x := items[|items| - 1];
      items := items[..|items| - 1];
      idToIndex := idToIndex - {x.id};
      if |items| == 0 {
        items := [];
        idToIndex := map[];
      }
    }

    /** `heap.Pop`. */
    method Pop() returns (x: Item)
      requires Valid() && |items| > 0
      modifies this
      ensures x == old(items)[0]
      ensures Valid() && x.id in old(Contents()) && old(Contents())[x.id] == x && Contents() == old(Contents()) - {x.id}
      ensures old(InOrder()) ==> InOrder()
      ensures old(InOrder()) && minFirst ==> IsFirst(old(Contents()), x)
    {
      ghost var ord := InOrder();
      if ord && minFirst { HeadIsFirst(); }
      var n := |items| - 1;
      Swap(0, n);
      if ord { FirstReplaced(minFirst, old(items), items, n); }
      var _ := Down(0, n, ord && n > 0);
      if ord && n > 0 && !Ordered(minFirst, items, n) { HoleClosed(minFirst, items, n, 0); }
      if ord { OrderedPrefix(minFirst, items, n, n); }
      x := TakeLast();
    }

    /** Pops until the heap is empty. */
    method Drain() returns (out: seq<Item>)
      requires Valid() && InOrder() && minFirst && Keyed(Contents())
      modifies this
      ensures Valid() && Contents() == map[] && out == Drained(old(Contents()))
    {
      hide Ordered, PriorityMemoryQueue.Valid, PriorityMemoryQueue.Contents, PriorityMemoryQueue.InOrder, Drained, First;
      out := [];
      ghost var all := Contents();
      while |items| > 0
        invariant Valid() && InOrder() && Keyed(Contents()) && Keyed(all)
        invariant out + Drained(Contents()) == Drained(all)
        decreases |items|
      {
        SizeOfContents();
        ghost var before := Contents();
        var x := Pop();
        DrainedNext(before, x);
        SizeOfContents();
        out := out + [x];
      }
      SizeOfContents();
      DrainedNothing(Contents());
    }

    function Len(): (n: nat)
      requires Valid()
      reads this
      ensures n == |Contents()|
    {
      SizeOfContents();
      |items|
    }

    lemma SizeOfContents()
      requires Valid()
      ensures |Contents()| == |items|
    {
      assert Contents().Keys == Ids(items);
      DistinctIds(items);
    }

    method Get(id: nat) returns (x: Option<Item>)
      requires Valid()
      ensures x == if id in Contents() then Some(Contents()[id]) else None
    {
      x := if id in idToIndex then Some(items[idToIndex[id]]) else None;
    }

    /** Moves the item at `i` to where its priority belongs: `down`, and `up` if that did nothing. */
    method Settle(i: int, n: int, ghost ord: bool)
      requires Valid() && 0 <= i < n <= |items|
      requires ord ==> OrderedBut(minFirst, items, n, i)
      modifies this
      ensures Valid() && Contents() == old(Contents()) && |items| == old(|items|)
      ensures items[n..] == old(items)[n..]
      ensures ord ==> Ordered(minFirst, items, n)
    {
      hide Less, Above, OrderedBut, ChildrenAbove, Ordered;
      var moved := Down(i, n, ord);
      if !moved {
        Up(i, n, ord);
      }
    }

    /** `heap.Remove`. */
    method Remove(i: int) returns (x: Item)
      requires Valid() && 0 <= i < |items|
      modifies this
      ensures x == old(items)[i]
      ensures Valid() && x.id in old(Contents()) && Contents() == old(Contents()) - {x.id}
      ensures old(InOrder()) ==> InOrder()
    {
      hide Less, Above, OrderedBut, ChildrenAbove, Ordered;
      ghost var ord := InOrder();
      var n := |items| - 1;
      if i != n {
        Swap(i, n);
        assert items[n..] == [old(items)[i]];
        if ord { HoleAfterSwap(minFirst, old(items), items, i, n); }
        Settle(i, n, ord);
        assert items[n] == items[n..][0];
      } else if ord {
        OrderedPart(minFirst, items, n);
      }
      if ord { OrderedPrefix(minFirst, items, n, n); }
      x := TakeLast();
    }

    /** Removes an item by id. */
    method Delete(id: nat) returns (x: Option<Item>)
      requires Valid()
      modifies this
      ensures Valid() && Contents() == old(Contents()) - {id}
      ensures x == if id in old(Contents()) then Some(old(Contents())[id]) else None
      ensures old(InOrder()) ==> InOrder()
    {
      hide Ordered;
      if id !in idToIndex {
        assert Contents() - {id} == Contents();
        return None;
      }
      var removed := Remove(idToIndex[id]);
      x := Some(removed);
    }

    /** Changes a priority and restores the order: `heap.Fix`. */
    method UpdatePriority(id: nat, priority: int)
      requires Valid()
      modifies this
      ensures Valid()
      ensures Contents() == if id in old(Contents()) then old(Contents())[id := old(Contents())[id].(priority := priority)]
                            else old(Contents())
      ensures old(InOrder()) ==> InOrder()
    {
      hide Less, Above, OrderedBut, ChildrenAbove, Ordered;
      if id in idToIndex {
        ghost var ord := InOrder();
        var i := idToIndex[id];
        SetPriority(id, priority);
        if ord { ReplacedHole(minFirst, old(items), items, |items|, i); }
        Settle(i, |items|, ord);
      }
    }

    /** Changes a priority in place, as through a shared item, without restoring the order. */
    method SetPriority(id: nat, priority: int)
      requires Valid() && id in Contents()
      modifies this
      ensures Valid() && Contents() == old(Contents())[id := old(Contents())[id].(priority := priority)]
      ensures idToIndex == old(idToIndex)
      ensures items == old(items)[old(idToIndex)[id] := old(items)[old(idToIndex)[id]].(priority := priority)]
    {
      var i := idToIndex[id];
      items := items[i := items[i].(priority := priority)];
    }

    /** The head of an ordered heap comes before every other item. */
    lemma HeadIsFirst()
      requires Valid() && |items| > 0 && InOrder() && minFirst
      ensures IsFirst(Contents(), items[0])
    {
      forall id | id in Contents() && id != items[0].id ensures Before(items[0], Contents()[id]) {
        RootIsFirst(minFirst, items, idToIndex[id]);
      }
    }

    /** The head of an ordered max-first heap has the highest priority. */
    lemma HeadIsLast()
      requires Valid() && |items| > 0 && InOrder() && !minFirst
      ensures items[0].id in Contents() && Contents()[items[0].id] == items[0]
      ensures forall id :: id in Contents() ==> Contents()[id].priority <= items[0].priority
    {
      forall id | id in Contents() ensures Contents()[id].priority <= items[0].priority {
        if idToIndex[id] != 0 { RootIsFirst(minFirst, items, idToIndex[id]); }
      }
    }
  }

  ghost function Ids(s: seq<Item>): set<nat> {
    set x | x in s :: x.id
  }

  lemma {:induction false} DistinctIds(s: seq<Item>)
    requires forall i, j :: 0 <= i < j < |s| ==> s[i].id != s[j].id
    ensures |Ids(s)| == |s|
  {
    if s != [] {
      var front, x := s[..|s| - 1], s[|s| - 1];
      DistinctIds(front);
      assert s == front + [x];
      assert Ids(s) == Ids(front) + {x.id};
      assert x.id !in Ids(front);
    }
  }

  lemma HoleAfterSwap(minFirst: bool, s: seq<Item>, t: seq<Item>, i: int, n: int)
    requires 0 <= i < n == |s| - 1 && t == Swapped(s, i, n) && Ordered(minFirst, s, |s|)
    ensures OrderedBut(minFirst, t, n, i)
  {
    ReplacedHole(minFirst, s, t, n, i);
  }

  lemma OrderedPart(minFirst: bool, s: seq<Item>, n: int)
    requires 0 <= n <= |s| && Ordered(minFirst, s, |s|)
    ensures Ordered(minFirst, s, n)
  {
  }

  // ---------- Draining ----------

  /** The items in the order in which a min-first heap hands them out. */
  ghost function Drained(items: map<nat, Item>): seq<Item>
    requires Keyed(items)
    decreases |items|
  {
    if items == map[] then [] else [First(items)] + Drained(items - {First(items).id})
  }

  lemma DrainedNext(items: map<nat, Item>, x: Item)
    requires Keyed(items) && IsFirst(items, x)
    ensures var rest := items - {x.id}; Keyed(rest) && Drained(items) == [x] + Drained(rest) && |rest| == |items| - 1
  {
    FirstUnique(items, x);
    assert items.Keys == (items - {x.id}).Keys + {x.id};
  }

  lemma DrainedNothing(items: map<nat, Item>)
    requires |items| == 0
    ensures items == map[] && Keyed(items) && Drained(items) == []
  {
  }

  /** Draining yields every item once, in (priority, id) order, whatever order they were inserted in. */
  lemma {:induction false} DrainedInOrder(items: map<nat, Item>)
    requires Keyed(items)
    ensures forall x :: x in Drained(items) <==> x.id in items && items[x.id] == x
    ensures forall i, j :: 0 <= i < j < |Drained(items)| ==> Before(Drained(items)[i], Drained(items)[j])
    decreases |items|
  {
    if items != map[] {
      var x := First(items);
      var rest := items - {x.id};
      DrainedInOrder(rest);
      assert forall y :: y in Drained(rest) ==> y.id in rest && Before(x, items[y.id]);
    }
  }

  lemma FirstReplaced(minFirst: bool, s: seq<Item>, t: seq<Item>, n: int)
    requires 0 <= n == |s| - 1 && t == Swapped(s, 0, n) && Ordered(minFirst, s, |s|)
    ensures n > 0 ==> OrderedBut(minFirst, t, n, 0)
    ensures n == 0 ==> Ordered(minFirst, t, n)
  {
    if n > 0 { ReplacedHole(minFirst, s, t, n, 0); }
  }
}
