/**
 * The weight tree as linked nodes that are updated in place. Every operation leaves the nodes in the
 * shape that its counterpart on values computes.
 */
module AvlNodes {
  import opened Types
  import opened Order
  import opened Weights
  import A = Avl

  class Node {
    var key: string
    var weight: int
    var sum: int
    var height: int
    var left: Node?
    var right: Node?
    /** The subtree below this node as a value, and the nodes it is made of. */
    ghost var tree: A.Tree
    ghost var Repr: set<Node>

    ghost predicate Valid()
      reads this, Repr
      decreases Repr
    {
      && this in Repr
      && (left != null ==> left in Repr && left.Repr < Repr && this !in left.Repr && left.Valid())
      && (right != null ==> right in Repr && right.Repr < Repr && this !in right.Repr && right.Valid())
      && ReprOf(left) !! ReprOf(right) && Repr == {this} + ReprOf(left) + ReprOf(right)
      && tree == A.Node(key, weight, sum, height, TreeOf(left), TreeOf(right))
    }

    constructor (key: string, weight: int)
      ensures Valid() && fresh(Repr) && tree == A.Insert(A.Nil, key, weight)
    {
      this.key, this.weight, this.sum, this.height := key, weight, weight, 1;
      left, right := null, null;
      tree := A.Node(key, weight, weight, 1, A.Nil, A.Nil);
      Repr := {this};
    }
  }

  ghost function TreeOf(n: Node?): A.Tree
    reads n
  {
    if n == null then A.Nil else n.tree
  }

  ghost function ReprOf(n: Node?): set<Node>
    reads n
  {
    if n == null then {} else n.Repr
  }

  ghost predicate Intact(n: Node?)
    reads n, ReprOf(n)
  {
    n != null ==> n in n.Repr && n.tree.Node? && n.Valid()
  }

  function Height(n: Node?): (h: int)
    requires Intact(n)
    reads n, ReprOf(n)
    ensures h == A.Height(TreeOf(n))
  {
    if n == null then 0 else n.height
  }

  function Sum(n: Node?): (s: int)
    requires Intact(n)
    reads n, ReprOf(n)
    ensures s == A.Sum(TreeOf(n))
  {
    if n == null then 0 else n.sum
  }

  function Balance(n: Node?): (b: int)
    requires Intact(n)
    reads n, ReprOf(n)
    ensures b == A.Balance(TreeOf(n))
  {
    if n == null then 0 else Height(n.left) - Height(n.right)
  }

  /** What validity says about a node's subtrees. */
  ghost predicate Parted(n: Node, l: Node?, r: Node?)
    reads n, l, r, ReprOf(l), ReprOf(r)
  {
    Intact(l) && Intact(r) && n !in ReprOf(l) && n !in ReprOf(r) && ReprOf(l) !! ReprOf(r)
  }

  lemma Parts(n: Node)
    requires n.Valid()
    ensures Intact(n) && Parted(n, n.left, n.right) && n.Repr == {n} + ReprOf(n.left) + ReprOf(n.right)
    ensures n.tree == A.Node(n.key, n.weight, n.sum, n.height, TreeOf(n.left), TreeOf(n.right))
  {
  }

  lemma Whole(n: Node)
    requires Parted(n, n.left, n.right) && n.Repr == {n} + ReprOf(n.left) + ReprOf(n.right)
    requires n.tree == A.Node(n.key, n.weight, n.sum, n.height, TreeOf(n.left), TreeOf(n.right))
    ensures Intact(n)
  {
  }

  /** Assigns the two links of a node. */
  method Hang(n: Node, l: Node?, r: Node?)
    requires Parted(n, l, r)
    modifies n
    ensures Intact(n) && n.left == l && n.right == r && Parted(n, l, r)
    ensures n.Repr == {n} + ReprOf(l) + ReprOf(r)
    ensures n.tree == A.Node(old(n.key), old(n.weight), old(n.sum), old(n.height), TreeOf(l), TreeOf(r))
  {
    hide Node.Valid;
    n.left, n.right := l, r;
    n.tree := A.Node(n.key, n.weight, n.sum, n.height, TreeOf(l), TreeOf(r));
    n.Repr := {n} + ReprOf(l) + ReprOf(r);
    Whole(n);
  }

  /** `update`: recomputes the cached height and sum. */
  method Update(n: Node)
    requires Intact(n)
    modifies n
    ensures Intact(n) && n.Repr == old(n.Repr) && n.left == old(n.left) && n.right == old(n.right)
    ensures n.tree == A.Update(old(n.tree))
  {
    hide Node.Valid;
    Parts(n);
    var hl, hr := Height(n.left), Height(n.right);
    var sl, sr := Sum(n.left), Sum(n.right);
    n.height := 1 + A.Max(hl, hr);
    n.sum := n.weight + sl + sr;
    n.tree := A.Node(n.key, n.weight, n.sum, n.height, TreeOf(n.left), TreeOf(n.right));
    Whole(n);
  }

  method RotateRight(y: Node) returns (x: Node)
    requires Intact(y) && y.tree.left.Node?
    modifies y.Repr
    ensures Intact(x) && x.Repr == old(y.Repr) && x.tree == A.RotateRight(old(y.tree))
  {
    hide Node.Valid;
    Parts(y);
    x := y.left;
    Parts(x);
    Hang(y, x.right, y.right);
    Update(y);
    Hang(x, x.left, y);
    Update(x);
  }

  method RotateLeft(x: Node) returns (y: Node)
    requires Intact(x) && x.tree.right.Node?
    modifies x.Repr
    ensures Intact(y) && y.Repr == old(x.Repr) && y.tree == A.RotateLeft(old(x.tree))
  {
    hide Node.Valid;
    Parts(x);
    y := x.right;
    Parts(y);
    Hang(x, x.left, y.left);
    Update(x);
    Hang(y, x, y.right);
    Update(y);
  }

  // ---------- Insert ----------

  method RebalanceInsert(n: Node, key: string) returns (r: Node)
    requires Intact(n)
    modifies n.Repr
    ensures Intact(r) && r.Repr == old(n.Repr) && r.tree == A.RebalanceInsert(old(n.tree), key)
  {
    hide Node.Valid, LexLess, A.RotateLeft, A.RotateRight;
    Parts(n);
    var balance := Balance(n);
    if n.left != null { Parts(n.left); }
    if n.right != null { Parts(n.right); }
    if balance > 1 && n.left != null && LexLess(key, n.left.key) {
      r := RotateRight(n);
    } else if balance < -1 && n.right != null && LexLess(n.right.key, key) {
      r := RotateLeft(n);
    } else if balance > 1 && n.left != null && LexLess(n.left.key, key) && n.left.right != null {
      var l := RotateLeft(n.left);
      Hang(n, l, n.right);
      r := RotateRight(n);
    } else if balance < -1 && n.right != null && LexLess(key, n.right.key) && n.right.left != null {
      var l := RotateRight(n.right);
      Hang(n, n.left, l);
      r := RotateLeft(n);
    } else {
      r := n;
    }
  }

  method Insert(n: Node?, key: string, weight: int) returns (r: Node)
    requires Intact(n)
    modifies ReprOf(n)
    ensures Intact(r) && fresh(r.Repr - old(ReprOf(n))) && r.tree == A.Insert(old(TreeOf(n)), key, weight)
    decreases TreeOf(n)
  {
    hide Node.Valid, LexLess, A.RebalanceInsert;
    if n == null {
      r := new Node(key, weight);
      ValidIsIntact(r);
      return;
    }
    Parts(n);
    if LexLess(key, n.key) {
      var l := Insert(n.left, key, weight);
      Hang(n, l, n.right);
      Update(n);
      r := RebalanceInsert(n, key);
    } else if LexLess(n.key, key) {
      var l := Insert(n.right, key, weight);
      Hang(n, n.left, l);
      Update(n);
      r := RebalanceInsert(n, key);
    } else {
      n.weight := weight;
      Hang(n, n.left, n.right);
      Update(n);
      r := n;
    }
  }

  lemma ValidIsIntact(n: Node)
    requires n.Valid()
    ensures Intact(n)
  {
  }

  // ---------- Delete ----------

  method MinValueNode(n: Node) returns (m: Node)
    requires Intact(n)
    ensures m in n.Repr && m.key == A.MinNode(n.tree).key && m.weight == A.MinNode(n.tree).weight
  {
    hide Node.Valid;
    m := n;
    Parts(m);
    while m.left != null
      invariant Intact(m) && m.Repr <= n.Repr && A.MinNode(m.tree) == A.MinNode(n.tree)
      invariant m.tree == A.Node(m.key, m.weight, m.sum, m.height, TreeOf(m.left), TreeOf(m.right))
      decreases m.tree
    {
      Parts(m);
      m := m.left;
      Parts(m);
    }
  }

  method RebalanceDelete(n: Node) returns (r: Node)
    requires Intact(n)
    modifies n.Repr
    ensures Intact(r) && r.Repr == old(n.Repr) && r.tree == A.RebalanceDelete(old(n.tree))
  {
    hide Node.Valid, A.RotateLeft, A.RotateRight;
    Parts(n);
    var balance, bl, br := Balance(n), Balance(n.left), Balance(n.right);
    if n.left != null { Parts(n.left); }
    if n.right != null { Parts(n.right); }
    if balance > 1 && n.left != null && bl >= 0 {
      r := RotateRight(n);
    } else if balance > 1 && n.left != null && bl < 0 && n.left.right != null {
      var l := RotateLeft(n.left);
      Hang(n, l, n.right);
      r := RotateRight(n);
    } else if balance < -1 && n.right != null && br <= 0 {
      r := RotateLeft(n);
    } else if balance < -1 && n.right != null && br > 0 && n.right.left != null {
      var l := RotateRight(n.right);
      Hang(n, n.left, l);
      r := RotateLeft(n);
    } else {
      r := n;
    }
  }

  method Delete(n: Node?, key: string) returns (r: Node?)
    requires Intact(n)
    modifies ReprOf(n)
    ensures Intact(r) && fresh(ReprOf(r) - old(ReprOf(n))) && TreeOf(r) == A.Delete(old(TreeOf(n)), key)
    decreases TreeOf(n)
  {
    hide Node.Valid, LexLess, A.RebalanceDelete, A.MinNode;
    if n == null {
      return null;
    }
    Parts(n);
    if LexLess(key, n.key) {
      var l := Delete(n.left, key);
      Hang(n, l, n.right);
    } else if LexLess(n.key, key) {
      var l := Delete(n.right, key);
      Hang(n, n.left, l);
    } else if n.left == null || n.right == null {
      return if n.left != null then n.left else n.right;
    } else {
      var m := MinValueNode(n.right);
      var minKey, minWeight := m.key, m.weight;
      var l := Delete(n.right, minKey);
      n.key, n.weight := minKey, minWeight;
      Hang(n, n.left, l);
    }
    Update(n);
    r := RebalanceDelete(n);
  }

  // ---------- Reading ----------

  method Lookup(n: Node?, key: string) returns (w: Option<int>)
    requires Intact(n)
    ensures w == A.Get(TreeOf(n), key)
    decreases TreeOf(n)
  {
    hide Node.Valid, LexLess;
    if n == null {
      return None;
    }
    Parts(n);
    if LexLess(key, n.key) {
      w := Lookup(n.left, key);
    } else if LexLess(n.key, key) {
      w := Lookup(n.right, key);
    } else {
      w := Some(n.weight);
    }
  }

  method SampleAt(n: Node?, r: int) returns (key: string)
    requires Intact(n)
    ensures key == A.Sample(TreeOf(n), r)
    decreases TreeOf(n)
  {
    hide Node.Valid;
    if n == null {
      return "";
    }
    Parts(n);
    var leftSum := Sum(n.left);
    if r < leftSum {
      key := SampleAt(n.left, r);
    } else if r < leftSum + n.weight {
      key := n.key;
    } else {
      key := SampleAt(n.right, r - leftSum - n.weight);
    }
  }

  // ---------- The tree ----------

  class WeightedAVL {
    var root: Node?
    ghost var Repr: set<object>

    ghost predicate Valid()
      reads this, Repr
      ensures Valid() ==> this in Repr
    {
      && this in Repr
      && (root != null ==> root in Repr && root.Repr <= Repr)
      && Intact(root) && A.Valid(TreeOf(root))
    }

    /** The weight of every key. */
    ghost function Weights(): WeightMap
      requires Valid()
      reads this, Repr
    {
      A.Contents(TreeOf(root))
    }

    constructor ()
      ensures Valid() && fresh(Repr) && Weights() == map[]
    {
      root := null;
      Repr := {this};
    }

    method Update(key: string, weight: int)
      requires Valid()
      modifies Repr
      ensures Valid() && fresh(Repr - old(Repr)) && Weights() == old(Weights())[key := weight]
    {
      hide Node.Valid, A.Insert, A.Valid, A.Contents;
      A.InsertOk(TreeOf(root), key, weight);
      root := Insert(root, key, weight);
      Repr := {this} + root.Repr;
    }

    method Remove(key: string)
      requires Valid()
      modifies Repr
      ensures Valid() && fresh(Repr - old(Repr)) && Weights() == old(Weights()) - {key}
    {
      hide Node.Valid, A.Delete, A.Valid, A.Contents;
      A.DeleteOk(TreeOf(root), key);
      root := Delete(root, key);
      Repr := {this} + ReprOf(root);
    }

    method Get(key: string) returns (w: Option<int>)
      requires Valid()
      ensures w == if key in Weights() then Some(Weights()[key]) else None
    {
      hide Node.Valid;
      A.GetIsLookup(TreeOf(root), key);
      w := Lookup(root, key);
    }

    method Increment(key: string, delta: int)
      requires Valid()
      modifies Repr
      ensures Valid() && fresh(Repr - old(Repr))
      ensures Weights() == old(Weights())[key := delta + if key in old(Weights()) then old(Weights())[key] else 0]
    {
      hide Node.Valid, A.Valid, A.Contents;
      var w := Get(key);
      Update(key, delta + if w.Some? then w.value else 0);
    }

    method TotalWeight() returns (sum: int)
      requires Valid()
      ensures sum == Total(Weights())
    {
      hide Node.Valid;
      A.SumIsTotal(TreeOf(root));
      sum := Sum(root);
    }

    /** `Sample` for an already mixed seed: a pure function of the seed and the weights. */
    method Sample(mixed: nat) returns (key: string)
      requires Valid() && NonNegative(Weights())
      ensures key == if Total(Weights()) == 0 then "" else Pick(Weights(), mixed % Total(Weights()))
    {
      hide Node.Valid, A.Sample, Pick, Total;
      A.SumIsTotal(TreeOf(root));
      TotalNonNegative(Weights());
      var sum := Sum(root);
      if sum == 0 {
        return "";
      }
      A.SampleIsPick(TreeOf(root), mixed % sum);
      key := SampleAt(root, mixed % sum);
    }
  }
}
