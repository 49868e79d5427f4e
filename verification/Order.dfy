/** The two total orders the queues rely on: items by (priority, id) and group names byte by byte. */
module Order {
  import opened Types

  // ---------- Items ----------

  /** `Less` of a min-first heap: by priority, then by id. A max-first heap uses it backwards. */
  predicate Before(a: Item, b: Item) {
    a.priority < b.priority || (a.priority == b.priority && a.id < b.id)
  }

  /** `x` is the item of `items` that every other one comes after. */
  ghost predicate IsFirst(items: map<nat, Item>, x: Item) {
    && x.id in items && items[x.id] == x
    && forall id :: id in items && id != x.id ==> Before(x, items[id])
  }

  lemma {:induction false} FirstExists(items: map<nat, Item>)
    requires items != map[] && Keyed(items)
    ensures exists x :: IsFirst(items, x)
    decreases |items|
  {
    var id :| id in items;
    var rest := items - {id};
    assert items.Keys == rest.Keys + {id};
    if rest == map[] {
      assert IsFirst(items, items[id]);
    } else {
      FirstExists(rest);
      var x :| IsFirst(rest, x);
      if Before(x, items[id]) {
        assert IsFirst(items, x);
      } else {
        assert IsFirst(items, items[id]);
      }
    }
  }

  /** The next item a min-first heap with these contents pops. */
  ghost function First(items: map<nat, Item>): (x: Item)
    requires items != map[] && Keyed(items)
    ensures IsFirst(items, x)
  {
    FirstExists(items);
    var x :| IsFirst(items, x);
    x
  }

  lemma FirstUnique(items: map<nat, Item>, x: Item)
    requires items != map[] && Keyed(items) && IsFirst(items, x)
    ensures x == First(items)
  {
    var y := First(items);
    assert x.id == y.id || Before(x, y);
  }

  // ---------- Group names ----------

  /** Go's `<` on strings. */
  predicate LexLess(a: string, b: string) {
    if b == "" then false
    else if a == "" then true
    else if a[0] == b[0] then LexLess(a[1..], b[1..])
    else a[0] < b[0]
  }

  lemma LexTotal(a: string, b: string)
    ensures a == b || LexLess(a, b) || LexLess(b, a)
    ensures !(LexLess(a, b) && LexLess(b, a))
    ensures !LexLess(a, a)
  {
    if a != "" && b != "" {
      assert a == [a[0]] + a[1..] && b == [b[0]] + b[1..];
      LexTotal(a[1..], b[1..]);
      LexTotal(a[1..], a[1..]);
    } else if a != "" {
      LexTotal(a[1..], a[1..]);
    }
  }

  lemma {:induction false} LexTransitive(a: string, b: string, c: string)
    requires LexLess(a, b) && LexLess(b, c)
    ensures LexLess(a, c)
  {
    if a != "" && a[0] == b[0] && b[0] == c[0] {
      LexTransitive(a[1..], b[1..], c[1..]);
    }
  }
}
