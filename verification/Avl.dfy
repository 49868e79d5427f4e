/**
 * The weight tree of `pkg/weighted_avl` on values: an AVL tree that caches heights and weight sums.
 * Inserting and deleting keep it ordered, balanced and exact, and act on its contents as on a map.
 */
module Avl {
  import opened Types
  import opened Order
  import opened Weights

  datatype Tree =
    | Nil
    | Node(key: string, weight: int, sum: int, height: int, left: Tree, right: Tree)

  function Height(t: Tree): int {
    if t.Nil? then 0 else t.height
  }

  function Sum(t: Tree): int {
    if t.Nil? then 0 else t.sum
  }

  function Max(a: int, b: int): int {
    if a > b then a else b
  }

  function Update(t: Tree): Tree
    requires t.Node?
  {
    t.(height := 1 + Max(Height(t.left), Height(t.right)), sum := t.weight + Sum(t.left) + Sum(t.right))
  }

  function RotateRight(y: Tree): Tree
    requires y.Node? && y.left.Node?
  {
    Update(y.left.(right := Update(y.(left := y.left.right))))
  }

  function RotateLeft(x: Tree): Tree
    requires x.Node? && x.right.Node?
  {
    Update(x.right.(left := Update(x.(right := x.right.left))))
  }

  function Balance(t: Tree): int {
    if t.Nil? then 0 else Height(t.left) - Height(t.right)
  }

  // ---------- Insert ----------

  /** The four cases after an insertion below `n`. */
  function RebalanceInsert(n: Tree, key: string): Tree
    requires n.Node?
  {
    var balance := Balance(n);
    if balance > 1 && n.left.Node? && LexLess(key, n.left.key) then RotateRight(n)
    else if balance < -1 && n.right.Node? && LexLess(n.right.key, key) then RotateLeft(n)
    else if balance > 1 && n.left.Node? && LexLess(n.left.key, key) && n.left.right.Node? then
      RotateRight(n.(left := RotateLeft(n.left)))
    else if balance < -1 && n.right.Node? && LexLess(key, n.right.key) && n.right.left.Node? then
      RotateLeft(n.(right := RotateRight(n.right)))
    else n
  }

  function Insert(n: Tree, key: string, weight: int): (r: Tree)
    ensures r.Node?
  {
    if n.Nil? then Node(key, weight, weight, 1, Nil, Nil)
    else if LexLess(key, n.key) then RebalanceInsert(Update(n.(left := Insert(n.left, key, weight))), key)
    else if LexLess(n.key, key) then RebalanceInsert(Update(n.(right := Insert(n.right, key, weight))), key)
    else Update(n.(weight := weight))
  }

  // ---------- Delete ----------

  function MinNode(n: Tree): (m: Tree)
    requires n.Node?
    ensures m.Node?
  {
    if n.left.Nil? then n else MinNode(n.left)
  }

  function RebalanceDelete(n: Tree): Tree
    requires n.Node?
  {
    var balance := Balance(n);
    if balance > 1 && n.left.Node? && Balance(n.left) >= 0 then RotateRight(n)
    else if balance > 1 && n.left.Node? && Balance(n.left) < 0 && n.left.right.Node? then
      RotateRight(n.(left := RotateLeft(n.left)))
    else if balance < -1 && n.right.Node? && Balance(n.right) <= 0 then RotateLeft(n)
    else if balance < -1 && n.right.Node? && Balance(n.right) > 0 && n.right.left.Node? then
      RotateLeft(n.(right := RotateRight(n.right)))
    else n
  }

  function Delete(n: Tree, key: string): Tree
    decreases n
  {
    if n.Nil? then Nil
    else if LexLess(key, n.key) then RebalanceDelete(Update(n.(left := Delete(n.left, key))))
    else if LexLess(n.key, key) then RebalanceDelete(Update(n.(right := Delete(n.right, key))))
    else if n.left.Nil? || n.right.Nil? then (if n.left.Node? then n.left else n.right)
    else
      var m := MinNode(n.right);
      RebalanceDelete(Update(n.(key := m.key, weight := m.weight, right := Delete(n.right, m.key))))
  }

  // ---------- Lookup and sampling ----------

  function Get(n: Tree, key: string): Option<int> {
    if n.Nil? then None
    else if LexLess(key, n.key) then Get(n.left, key)
    else if LexLess(n.key, key) then Get(n.right, key)
    else Some(n.weight)
  }

  function Sample(n: Tree, r: int): string {
    if n.Nil? then ""
    else if r < Sum(n.left) then Sample(n.left, r)
    else if r < Sum(n.left) + n.weight then n.key
    else Sample(n.right, r - Sum(n.left) - n.weight)
  }

  // ---------- The invariant ----------

  ghost function Contents(t: Tree): WeightMap {
    if t.Nil? then map[] else Contents(t.left) + map[t.key := t.weight] + Contents(t.right)
  }

  ghost predicate KeysLess(t: Tree, key: string) {
    forall k :: k in Contents(t) ==> LexLess(k, key)
  }

  ghost predicate KeysGreater(t: Tree, key: string) {
    forall k :: k in Contents(t) ==> LexLess(key, k)
  }

  /** Search order. */
  ghost predicate Sorted(t: Tree) {
    t.Node? ==> Sorted(t.left) && Sorted(t.right) && KeysLess(t.left, t.key) && KeysGreater(t.right, t.key)
  }

  /** The cached height and sum are those of the subtrees. */
  ghost predicate Exact(t: Tree) {
    t.Node? ==>
      && Exact(t.left) && Exact(t.right)
      && t.height == 1 + Max(Height(t.left), Height(t.right))
      && t.sum == t.weight + Sum(t.left) + Sum(t.right)
  }

  ghost predicate Balanced(t: Tree) {
    t.Node? ==> Balanced(t.left) && Balanced(t.right) && -1 <= Balance(t) <= 1
  }

  ghost predicate Valid(t: Tree) {
    Sorted(t) && Exact(t) && Balanced(t)
  }

  lemma HeightPositive(t: Tree)
    requires Exact(t)
    ensures Height(t) >= 0 && (Height(t) == 0 <==> t.Nil?)
  {
  }

  // ---------- Rotations ----------

  lemma UnionAssociates(a: WeightMap, b: WeightMap, c: WeightMap, d: WeightMap, e: WeightMap)
    ensures a + b + (c + d + e) == (a + b + c) + d + e
  {
  }

  lemma KeysOf(t: Tree)
    requires t.Node?
    ensures forall k :: k in Contents(t) <==> k in Contents(t.left) || k == t.key || k in Contents(t.right)
  {
  }

  lemma RotateRightKeeps(y: Tree)
    requires y.Node? && y.left.Node? && Sorted(y)
    ensures Contents(RotateRight(y)) == Contents(y) && Sorted(RotateRight(y))
  {
    hide LexLess;
    var x := y.left;
    var y' := Update(y.(left := x.right));
    KeysOf(x);
    KeysOf(y');
    UnionAssociates(Contents(x.left), map[x.key := x.weight], Contents(x.right), map[y.key := y.weight], Contents(y.right));
    forall k | k in Contents(y') ensures LexLess(x.key, k) {
      if k in Contents(y.right) { LexTransitive(x.key, y.key, k); }
    }
  }

  lemma RotateLeftKeeps(x: Tree)
    requires x.Node? && x.right.Node? && Sorted(x)
    ensures Contents(RotateLeft(x)) == Contents(x) && Sorted(RotateLeft(x))
  {
    hide LexLess;
    var y := x.right;
    var x' := Update(x.(right := y.left));
    KeysOf(y);
    KeysOf(x');
    UnionAssociates(Contents(x.left), map[x.key := x.weight], Contents(y.left), map[y.key := y.weight], Contents(y.right));
    forall k | k in Contents(x') ensures LexLess(k, y.key) {
      if k in Contents(x.left) { LexTransitive(k, x.key, y.key); }
    }
  }

  // ---------- Rebalancing ----------

  /** A node whose subtrees are in order and differ in height by at most two. */
  ghost predicate NearlyBalanced(n: Tree) {
    n.Node? && Exact(n) && Balanced(n.left) && Balanced(n.right) && -2 <= Balance(n) <= 2
  }

  lemma RotateRightBalances(n: Tree)
    requires NearlyBalanced(n) && Balance(n) == 2
    ensures n.left.Node?
    ensures Balance(n.left) >= 0 ==>
      && Exact(RotateRight(n)) && Balanced(RotateRight(n))
      && Height(RotateRight(n)) == Height(n) - if Balance(n.left) == 1 then 1 else 0
  {
    HeightPositive(n.left);
    HeightPositive(n.right);
  }

  lemma RotateLeftBalances(n: Tree)
    requires NearlyBalanced(n) && Balance(n) == -2
    ensures n.right.Node?
    ensures Balance(n.right) <= 0 ==>
      && Exact(RotateLeft(n)) && Balanced(RotateLeft(n))
      && Height(RotateLeft(n)) == Height(n) - if Balance(n.right) == -1 then 1 else 0
  {
    HeightPositive(n.left);
    HeightPositive(n.right);
  }

  lemma LeftRightBalances(n: Tree)
    requires NearlyBalanced(n) && Balance(n) == 2 && n.left.Node? && Balance(n.left) == -1
    ensures n.left.right.Node?
    ensures var r := RotateRight(n.(left := RotateLeft(n.left)));
      Exact(r) && Balanced(r) && Height(r) == Height(n) - 1
  {
    ExactParts(n);
    ExactParts(n.left);
    HeightPositive(n.right);
    HeightPositive(n.left.left);
    HeightPositive(n.left.right);
    ExactParts(n.left.right);
    var m := n.left.right;
    assert Balanced(m) && Balanced(m.left) && Balanced(m.right);
    var r := RotateRight(n.(left := RotateLeft(n.left)));
    assert r.left == Update(n.left.(right := m.left)) && r.right == Update(n.(left := m.right));
    assert Balanced(r.left) && Balanced(r.right);
  }

  lemma RightLeftBalances(n: Tree)
    requires NearlyBalanced(n) && Balance(n) == -2 && n.right.Node? && Balance(n.right) == 1
    ensures n.right.left.Node?
    ensures var r := RotateLeft(n.(right := RotateRight(n.right)));
      Exact(r) && Balanced(r) && Height(r) == Height(n) - 1
  {
    ExactParts(n);
    ExactParts(n.right);
    HeightPositive(n.left);
    HeightPositive(n.right.right);
    HeightPositive(n.right.left);
    ExactParts(n.right.left);
    var m := n.right.left;
    assert Balanced(m) && Balanced(m.left) && Balanced(m.right);
    var r := RotateLeft(n.(right := RotateRight(n.right)));
    assert r.left == Update(n.(right := m.left)) && r.right == Update(n.right.(left := m.right));
    assert Balanced(r.left) && Balanced(r.right);
  }

  lemma LeftRightKeeps(n: Tree)
    requires n.Node? && n.left.Node? && n.left.right.Node? && Sorted(n)
    ensures var r := RotateRight(n.(left := RotateLeft(n.left))); Contents(r) == Contents(n) && Sorted(r)
  {
    hide LexLess, RotateRight;
    RotateLeftKeeps(n.left);
    var m := n.(left := RotateLeft(n.left));
    assert Contents(m) == Contents(n) && Sorted(m);
    RotateRightKeeps(m);
  }

  lemma RightLeftKeeps(n: Tree)
    requires n.Node? && n.right.Node? && n.right.left.Node? && Sorted(n)
    ensures var r := RotateLeft(n.(right := RotateRight(n.right))); Contents(r) == Contents(n) && Sorted(r)
  {
    hide LexLess, RotateLeft;
    RotateRightKeeps(n.right);
    var m := n.(right := RotateRight(n.right));
    assert Contents(m) == Contents(n) && Sorted(m);
    RotateLeftKeeps(m);
  }

  lemma RebalanceDeleteOk(n: Tree)
    requires NearlyBalanced(n) && Sorted(n)
    ensures var r := RebalanceDelete(n);
      && Valid(r) && Contents(r) == Contents(n) && Height(n) - 1 <= Height(r) <= Height(n)
      && (-1 <= Balance(n) <= 1 ==> r == n)
      && (Balance(n) == 2 && n.left.Node? && Balance(n.left) != 0 ==> Height(r) == Height(n) - 1)
      && (Balance(n) == -2 && n.right.Node? && Balance(n.right) != 0 ==> Height(r) == Height(n) - 1)
  {
    hide Contents, Sorted, Exact, RotateLeft, RotateRight;
    ExactParts(n);
    if Balance(n) == 2 {
      RotateRightBalances(n);
      if Balance(n.left) >= 0 {
        RotateRightKeeps(n);
      } else {
        LeftRightBalances(n);
        LeftRightKeeps(n);
      }
    } else if Balance(n) == -2 {
      RotateLeftBalances(n);
      if Balance(n.right) <= 0 {
        RotateLeftKeeps(n);
      } else {
        RightLeftBalances(n);
        RightLeftKeeps(n);
      }
    }
  }

  lemma ExactParts(n: Tree)
    requires n.Node? && Exact(n)
    ensures Exact(n.left) && Exact(n.right) && n.height == 1 + Max(Height(n.left), Height(n.right))
  {
  }

  // ---------- Insert ----------

  /** How an insertion of `key` may change the height: at most by one, and then towards the key. */
  ghost predicate GrowsTowards(t: Tree, t': Tree, key: string) {
    || Height(t') == Height(t)
    || (t.Nil? && Height(t') == 1)
    || (t.Node? && t'.Node? && Height(t') == Height(t) + 1 && t'.key == t.key
        && LeansTowards(t', key))
  }

  ghost predicate LeansTowards(t: Tree, key: string) {
    t.Node? && ((LexLess(key, t.key) && Balance(t) == 1) || (LexLess(t.key, key) && Balance(t) == -1))
  }

  /** After an insertion the key's side tells which rotation is due, as the balance does. */
  lemma InsertCaseIsDeleteCase(n: Tree, key: string)
    requires NearlyBalanced(n)
    requires Balance(n) == 2 ==> LeansTowards(n.left, key)
    requires Balance(n) == -2 ==> LeansTowards(n.right, key)
    ensures RebalanceInsert(n, key) == RebalanceDelete(n)
  {
    hide LexLess, RotateLeft, RotateRight, Exact, Balanced;
    if n.left.Node? { LexTotal(key, n.left.key); }
    if n.right.Node? { LexTotal(key, n.right.key); }
  }

  lemma {:induction false} InsertOk(t: Tree, key: string, weight: int)
    requires Valid(t)
    ensures Valid(Insert(t, key, weight)) && Contents(Insert(t, key, weight)) == Contents(t)[key := weight]
    ensures GrowsTowards(t, Insert(t, key, weight), key)
  {
    hide LexLess, RebalanceInsert, RebalanceDelete;
    if t.Node? {
      LexTotal(key, t.key);
      if LexLess(key, t.key) {
        InsertOk(t.left, key, weight);
        InsertLeft(t, Insert(t.left, key, weight), key, weight);
      } else if LexLess(t.key, key) {
        InsertOk(t.right, key, weight);
        InsertRight(t, Insert(t.right, key, weight), key, weight);
      } else {
        InsertHere(t, weight);
      }
    }
  }

  lemma PutHere(a: WeightMap, k: string, w: int, c: WeightMap, w': int)
    requires k !in c
    ensures a + map[k := w'] + c == (a + map[k := w] + c)[k := w']
  {
  }

  lemma PutLeft(a: WeightMap, k: string, w: int, c: WeightMap, key: string, weight: int)
    requires key != k && key !in c
    ensures a[key := weight] + map[k := w] + c == (a + map[k := w] + c)[key := weight]
  {
  }

  lemma PutRight(a: WeightMap, k: string, w: int, c: WeightMap, key: string, weight: int)
    ensures a + map[k := w] + c[key := weight] == (a + map[k := w] + c)[key := weight]
  {
  }

  lemma OwnKey(t: Tree)
    requires t.Node? && Sorted(t)
    ensures t.key !in Contents(t.left) && t.key !in Contents(t.right)
  {
    hide LexLess;
    LexTotal(t.key, t.key);
  }

  lemma InsertHere(t: Tree, weight: int)
    requires Valid(t) && t.Node?
    ensures var n := Update(t.(weight := weight)); Valid(n) && Contents(n) == Contents(t)[t.key := weight] && Height(n) == Height(t)
  {
    hide LexLess;
    OwnKey(t);
    PutHere(Contents(t.left), t.key, t.weight, Contents(t.right), weight);
  }

  lemma NotInRight(t: Tree, key: string)
    requires t.Node? && Sorted(t) && LexLess(key, t.key)
    ensures key !in Contents(t.right) && key != t.key
  {
    hide LexLess;
    LexTotal(key, t.key);
  }

  lemma SortedPut(t: Tree, l: Tree, key: string, weight: int, left: bool)
    requires t.Node? && Sorted(t) && Sorted(l)
    requires left ==> LexLess(key, t.key) && Contents(l) == Contents(t.left)[key := weight]
    requires !left ==> LexLess(t.key, key) && Contents(l) == Contents(t.right)[key := weight]
    ensures var n := Update(if left then t.(left := l) else t.(right := l));
      Sorted(n) && Contents(n) == Contents(t)[key := weight]
  {
    hide LexLess;
    if left {
      NotInRight(t, key);
      PutLeft(Contents(t.left), t.key, t.weight, Contents(t.right), key, weight);
    } else {
      PutRight(Contents(t.left), t.key, t.weight, Contents(t.right), key, weight);
    }
  }

  lemma InsertLeft(t: Tree, l: Tree, key: string, weight: int)
    requires Valid(t) && t.Node? && LexLess(key, t.key)
    requires Valid(l) && Contents(l) == Contents(t.left)[key := weight] && GrowsTowards(t.left, l, key)
    ensures var r := RebalanceInsert(Update(t.(left := l)), key);
      Valid(r) && Contents(r) == Contents(t)[key := weight] && GrowsTowards(t, r, key)
  {
    hide LexLess, RebalanceInsert, RebalanceDelete, Contents, Sorted;
    SortedParts(t);
    HeightPositive(t.left);
    HeightPositive(t.right);
    SortedPut(t, l, key, weight, true);
    var n := Update(t.(left := l));
    InsertCaseIsDeleteCase(n, key);
    RebalanceDeleteOk(n);
  }

  lemma SortedParts(t: Tree)
    requires t.Node? && Sorted(t)
    ensures Sorted(t.left) && Sorted(t.right)
  {
  }

  lemma InsertRight(t: Tree, r: Tree, key: string, weight: int)
    requires Valid(t) && t.Node? && LexLess(t.key, key)
    requires Valid(r) && Contents(r) == Contents(t.right)[key := weight] && GrowsTowards(t.right, r, key)
    ensures var n := RebalanceInsert(Update(t.(right := r)), key);
      Valid(n) && Contents(n) == Contents(t)[key := weight] && GrowsTowards(t, n, key)
  {
    hide LexLess, RebalanceInsert, RebalanceDelete, Contents, Sorted;
    SortedParts(t);
    HeightPositive(t.left);
    HeightPositive(t.right);
    SortedPut(t, r, key, weight, false);
    var n := Update(t.(right := r));
    InsertCaseIsDeleteCase(n, key);
    RebalanceDeleteOk(n);
  }

  // ---------- Delete ----------

  lemma {:induction false} MinNodeIsLeast(t: Tree)
    requires t.Node? && Sorted(t)
    ensures var m := MinNode(t); m.key in Contents(t) && Contents(t)[m.key] == m.weight && IsLeast(Contents(t), m.key)
  {
    hide LexLess;
    KeysOf(t);
    OwnKey(t);
    if t.left.Node? {
      MinNodeIsLeast(t.left);
      var m := MinNode(t.left);
      forall k | k in Contents(t) && k != m.key ensures LexLess(m.key, k) {
        if k in Contents(t.right) { LexTransitive(m.key, t.key, k); }
      }
      NotInRight(t, m.key);
    }
  }

  lemma CutLeft(a: WeightMap, k: string, w: int, c: WeightMap, key: string)
    requires key != k && key !in c
    ensures (a - {key}) + map[k := w] + c == (a + map[k := w] + c) - {key}
  {
  }

  lemma CutRight(a: WeightMap, k: string, w: int, c: WeightMap, key: string)
    requires key != k && key !in a
    ensures a + map[k := w] + (c - {key}) == (a + map[k := w] + c) - {key}
  {
  }

  /** Replacing the root by the least key on its right. */
  lemma CutRoot(a: WeightMap, k: string, w: int, c: WeightMap, m: string)
    requires k !in a && k !in c && m in c
    ensures a + map[m := c[m]] + (c - {m}) == (a + map[k := w] + c) - {k}
  {
  }

  lemma NotInLeft(t: Tree, key: string)
    requires t.Node? && Sorted(t) && LexLess(t.key, key)
    ensures key !in Contents(t.left) && key != t.key
  {
    hide LexLess;
    LexTotal(key, t.key);
  }

  /** A subtree that lost one key. */
  ghost predicate Shrinks(t: Tree, t': Tree, key: string) {
    Valid(t') && Contents(t') == Contents(t) - {key} && Height(t) - 1 <= Height(t') <= Height(t)
  }

  lemma DeleteLeft(t: Tree, l: Tree, key: string)
    requires Valid(t) && t.Node? && LexLess(key, t.key) && Shrinks(t.left, l, key)
    ensures Shrinks(t, RebalanceDelete(Update(t.(left := l))), key)
  {
    hide LexLess, RebalanceDelete;
    NotInRight(t, key);
    CutLeft(Contents(t.left), t.key, t.weight, Contents(t.right), key);
    RebalanceDeleteOk(Update(t.(left := l)));
  }

  lemma DeleteRight(t: Tree, r: Tree, key: string)
    requires Valid(t) && t.Node? && LexLess(t.key, key) && Shrinks(t.right, r, key)
    ensures Shrinks(t, RebalanceDelete(Update(t.(right := r))), key)
  {
    hide LexLess, RebalanceDelete;
    NotInLeft(t, key);
    CutRight(Contents(t.left), t.key, t.weight, Contents(t.right), key);
    RebalanceDeleteOk(Update(t.(right := r)));
  }

  lemma DeleteRoot(t: Tree, r: Tree)
    requires Valid(t) && t.Node? && t.right.Node? && Shrinks(t.right, r, MinNode(t.right).key)
    ensures var m := MinNode(t.right);
      Shrinks(t, RebalanceDelete(Update(t.(key := m.key, weight := m.weight, right := r))), t.key)
  {
    hide LexLess, RebalanceDelete, MinNode;
    var m := MinNode(t.right);
    MinNodeIsLeast(t.right);
    OwnKey(t);
    CutRoot(Contents(t.left), t.key, t.weight, Contents(t.right), m.key);
    var n := Update(t.(key := m.key, weight := m.weight, right := r));
    forall k | k in Contents(t.left) ensures LexLess(k, m.key) {
      LexTransitive(k, t.key, m.key);
    }
    RebalanceDeleteOk(n);
  }

  lemma DeleteOnlyChild(t: Tree)
    requires Valid(t) && t.Node? && (t.left.Nil? || t.right.Nil?)
    ensures Shrinks(t, if t.left.Node? then t.left else t.right, t.key)
  {
    hide LexLess;
    OwnKey(t);
    HeightPositive(t.left);
    HeightPositive(t.right);
  }

  /** Deleting acts as removal from the map and keeps the tree ordered, balanced and exact. */
  lemma {:induction false} DeleteOk(t: Tree, key: string)
    requires Valid(t)
    ensures Shrinks(t, Delete(t, key), key)
  {
    hide LexLess, RebalanceDelete, Shrinks;
    if t.Nil? {
      NothingToDelete(key);
    } else {
      ValidParts(t);
      LexTotal(key, t.key);
      if LexLess(key, t.key) {
        DeleteOk(t.left, key);
        DeleteLeft(t, Delete(t.left, key), key);
      } else if LexLess(t.key, key) {
        DeleteOk(t.right, key);
        DeleteRight(t, Delete(t.right, key), key);
      } else if t.left.Nil? || t.right.Nil? {
        DeleteOnlyChild(t);
      } else {
        DeleteOk(t.right, MinNode(t.right).key);
        DeleteRoot(t, Delete(t.right, MinNode(t.right).key));
      }
    }
  }

  lemma NothingToDelete(key: string)
    ensures Shrinks(Nil, Nil, key)
  {
  }

  lemma ValidParts(t: Tree)
    requires t.Node? && Valid(t)
    ensures Valid(t.left) && Valid(t.right)
  {
  }

  // ---------- Reading ----------

  lemma {:induction false} GetIsLookup(t: Tree, key: string)
    requires Sorted(t)
    ensures Get(t, key) == if key in Contents(t) then Some(Contents(t)[key]) else None
  {
    hide LexLess;
    if t.Node? {
      LexTotal(key, t.key);
      GetIsLookup(t.left, key);
      GetIsLookup(t.right, key);
      OwnKey(t);
      if LexLess(key, t.key) { NotInRight(t, key); }
      if LexLess(t.key, key) { NotInLeft(t, key); }
    }
  }

  lemma PartsInOrder(t: Tree)
    requires t.Node? && Sorted(t)
    ensures KeysBelow(Contents(t.left), map[t.key := t.weight] + Contents(t.right))
    ensures KeysBelow(map[t.key := t.weight], Contents(t.right))
    ensures Contents(t) == Contents(t.left) + (map[t.key := t.weight] + Contents(t.right))
  {
    hide LexLess;
    forall a, b | a in Contents(t.left) && b in Contents(t.right) ensures LexLess(a, b) {
      LexTransitive(a, t.key, b);
    }
  }

  lemma OneKey(key: string, weight: int, r: int)
    ensures Total(map[key := weight]) == weight
    ensures Pick(map[key := weight], r) == if r < weight then key else ""
  {
    LeastUnique(map[key := weight], key);
    assert map[key := weight] - {key} == map[];
  }

  /** The cached sum is the total weight. */
  lemma {:induction false} SumIsTotal(t: Tree)
    requires Sorted(t) && Exact(t)
    ensures Sum(t) == Total(Contents(t))
  {
    if t.Node? {
      hide LexLess;
      SumIsTotal(t.left);
      SumIsTotal(t.right);
      PartsInOrder(t);
      OneKey(t.key, t.weight, 0);
      TotalOfUnion(Contents(t.left), map[t.key := t.weight] + Contents(t.right));
      TotalOfUnion(map[t.key := t.weight], Contents(t.right));
    }
  }

  /**
   * Sampling depends on the contents only, not on the tree's shape: it is the key whose stretch of
   * the running total, in sorted key order, contains r.
   */
  lemma {:induction false} SampleIsPick(t: Tree, r: int)
    requires Sorted(t) && Exact(t) && NonNegative(Contents(t)) && 0 <= r
    ensures Sample(t, r) == Pick(Contents(t), r)
  {
    hide LexLess, KeysBelow, Pick, Total, Contents, Sorted, Exact, NonNegative;
    if t.Node? {
      PartsSound(t);
      PartsNonNegative(t);
      SumIsTotal(t.left);
      PartsInOrder(t);
      OneKey(t.key, t.weight, r - Sum(t.left));
      PickOfUnion(Contents(t.left), map[t.key := t.weight] + Contents(t.right), r);
      if r < Sum(t.left) {
        SampleIsPick(t.left, r);
      } else {
        PickOfUnion(map[t.key := t.weight], Contents(t.right), r - Sum(t.left));
        if r - Sum(t.left) >= t.weight { SampleIsPick(t.right, r - Sum(t.left) - t.weight); }
      }
    } else {
      PickNothing(t, r);
    }
  }

  lemma PickNothing(t: Tree, r: int)
    requires t.Nil?
    ensures Pick(Contents(t), r) == ""
  {
  }

  lemma PartsSound(t: Tree)
    requires t.Node? && Sorted(t) && Exact(t)
    ensures Sorted(t.left) && Exact(t.left) && Sorted(t.right) && Exact(t.right)
  {
  }

  lemma PartsNonNegative(t: Tree)
    requires t.Node? && Sorted(t) && NonNegative(Contents(t))
    ensures NonNegative(Contents(t.left)) && NonNegative(Contents(t.right)) && t.weight >= 0
    ensures NonNegative(map[t.key := t.weight])
  {
    hide LexLess;
    OwnKey(t);
    forall k | k in Contents(t.left) ensures Contents(t.left)[k] >= 0 {
      InLeft(t, k);
    }
    assert Contents(t)[t.key] == t.weight;
    assert forall k :: k in Contents(t.right) ==> Contents(t)[k] == Contents(t.right)[k];
  }

  lemma InLeft(t: Tree, k: string)
    requires t.Node? && Sorted(t) && k in Contents(t.left)
    ensures Contents(t)[k] == Contents(t.left)[k]
  {
    hide LexLess;
    NotInRight(t, k);
  }

  // ---------- The height bound ----------

  function Size(t: Tree): nat {
    if t.Nil? then 0 else 1 + Size(t.left) + Size(t.right)
  }

  function Fib(n: nat): nat {
    if n < 2 then n else Fib(n - 1) + Fib(n - 2)
  }

  lemma {:induction false} FibGrows(n: nat)
    ensures Fib(n) <= Fib(n + 1)
  {
    if n > 0 { FibGrows(n - 1); }
  }

  lemma FibAtTwo()
    ensures Fib(2) == 1
  {
  }

  /** A tree of height h has at least Fib(h + 2) - 1 nodes, so its height is logarithmic in its size. */
  lemma {:induction false} HeightIsLogarithmic(t: Tree)
    requires Exact(t) && Balanced(t)
    ensures Height(t) >= 0 && Size(t) >= Fib(Height(t) + 2) - 1
  {
    hide Fib;
    FibAtTwo();
    if t.Node? {
      HeightIsLogarithmic(t.left);
      HeightIsLogarithmic(t.right);
      HeightPositive(t.left);
      HeightPositive(t.right);
      FibAtHeight(Height(t.left), Height(t.right));
    }
  }

  /** Two subtrees of heights at most one apart have enough nodes for the next height. */
  lemma FibAtHeight(l: nat, r: nat)
    requires -1 <= l - r <= 1
    ensures Fib(Max(l, r) + 3) <= Fib(l + 2) + Fib(r + 2)
  {
    var h := Max(l, r);
    assert Fib(h + 3) == Fib(h + 2) + Fib(h + 1);
    FibGrows(h + 1);
  }
}
