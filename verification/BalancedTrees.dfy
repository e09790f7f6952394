/**
  The shape arguments behind core/src/store/order.rs: weight-balanced trees with
  parameters <3, 2> under insertion. A tree here records, at every node, which
  arena slot holds it.
 */
module BalancedTrees {
  import opened Items
  import opened Reconcile
  import opened Geometry

  const DELTA: nat := 3
  const GAMMA: nat := 2

  datatype Tree = Leaf | Branch(left: Tree, slot: nat, item: Item, right: Tree)

  function InOrder(t: Tree): seq<Item> {
    match t
    case Leaf => []
    case Branch(l, _, x, r) => InOrder(l) + [x] + InOrder(r)
  }

  function Size(t: Tree): (n: nat)
    ensures n == |InOrder(t)|
  {
    match t
    case Leaf => 0
    case Branch(l, _, _, r) => Size(l) + 1 + Size(r)
  }

  /** Subtree size plus one, so that an empty subtree weighs one. */
  function Weight(t: Tree): nat {
    Size(t) + 1
  }

  predicate EvenWeights(w: nat, v: nat) {
    v <= DELTA * w && w <= DELTA * v
  }

  predicate Even(l: Tree, r: Tree) {
    EvenWeights(Weight(l), Weight(r))
  }

  /** The balance condition at every node. */
  predicate Balanced(t: Tree) {
    t.Branch? ==> Even(t.left, t.right) && Balanced(t.left) && Balanced(t.right)
  }

  function RotateLeft(t: Tree): Tree
    requires t.Branch? && t.right.Branch?
  {
    var r := t.right;
    Branch(Branch(t.left, t.slot, t.item, r.left), r.slot, r.item, r.right)
  }

  function RotateRight(t: Tree): Tree
    requires t.Branch? && t.left.Branch?
  {
    var l := t.left;
    Branch(l.left, l.slot, l.item, Branch(l.right, t.slot, t.item, t.right))
  }

  /** One rebalancing step at a node whose subtrees are already balanced. */
  function Balance(t: Tree): Tree
    requires t.Branch?
  {
    if Weight(t.left) * DELTA < Weight(t.right) then
      var r := t.right;
      if r.Branch? && Weight(r.left) < GAMMA * Weight(r.right) then RotateLeft(t)
      else if r.Branch? && r.left.Branch? then RotateLeft(t.(right := RotateRight(r)))
      else t
    else if Weight(t.right) * DELTA < Weight(t.left) then
      var l := t.left;
      if l.Branch? && Weight(l.right) < GAMMA * Weight(l.left) then RotateRight(t)
      else if l.Branch? && l.right.Branch? then RotateRight(t.(left := RotateLeft(l)))
      else t
    else t
  }

  lemma Regroup(a: seq<Item>, x: Item, b: seq<Item>, y: Item, c: seq<Item>)
    ensures (a + [x] + b) + [y] + c == a + [x] + (b + [y] + c)
  {
  }

  lemma RotateLeftInOrder(t: Tree)
    requires t.Branch? && t.right.Branch?
    ensures InOrder(RotateLeft(t)) == InOrder(t)
  {
    Regroup(InOrder(t.left), t.item, InOrder(t.right.left), t.right.item, InOrder(t.right.right));
  }

  lemma RotateRightInOrder(t: Tree)
    requires t.Branch? && t.left.Branch?
    ensures InOrder(RotateRight(t)) == InOrder(t)
  {
    Regroup(InOrder(t.left.left), t.left.item, InOrder(t.left.right), t.item, InOrder(t.right));
  }

  /** Rebalancing never changes the sequence of items. */
  lemma BalanceInOrder(t: Tree)
    requires t.Branch?
    ensures InOrder(Balance(t)) == InOrder(t)
  {
    if Weight(t.left) * DELTA < Weight(t.right) {
      var r := t.right;
      if Weight(r.left) < GAMMA * Weight(r.right) {
        RotateLeftInOrder(t);
      } else if r.left.Branch? {
        RotateRightInOrder(r);
        RotateLeftInOrder(t.(right := RotateRight(r)));
      }
    } else if Weight(t.right) * DELTA < Weight(t.left) {
      var l := t.left;
      if Weight(l.right) < GAMMA * Weight(l.left) {
        RotateRightInOrder(t);
      } else if l.right.Branch? {
        RotateLeftInOrder(l);
        RotateRightInOrder(t.(left := RotateLeft(l)));
      }
    }
  }

  /** Within one item of being even: what an insertion below can cause. */
  predicate NearlyEven(l: Tree, r: Tree) {
    Weight(r) <= DELTA * Weight(l) + 1 && Weight(l) <= DELTA * Weight(r) + 1
  }

  /** One insertion below a node is always repaired by one step at the node. */
  lemma BalanceRestores(t: Tree)
    requires t.Branch? && Balanced(t.left) && Balanced(t.right) && NearlyEven(t.left, t.right)
    ensures Balanced(Balance(t))
  {
    hide InOrder;
    if Weight(t.left) * DELTA < Weight(t.right) {
      HeavyRight(t);
    } else if Weight(t.right) * DELTA < Weight(t.left) {
      HeavyLeft(t);
    }
  }

  /** The light side weighs `w`; the heavy child's parts weigh `p` inside, `q` outside. */
  lemma SingleRotation(w: nat, p: nat, q: nat)
    requires w > 0 && p + q == 3 * w + 1 && EvenWeights(p, q) && p < 2 * q
    ensures EvenWeights(w, p) && EvenWeights(w + p, q)
  {
  }

  lemma DoubleRotation(w: nat, u: nat, v: nat, q: nat)
    requires w > 0 && u > 0 && v > 0 && q > 0 && u + v + q == 3 * w + 1
    requires EvenWeights(u, v) && EvenWeights(u + v, q) && u + v >= 2 * q
    ensures EvenWeights(w, u) && EvenWeights(v, q) && EvenWeights(w + u, v + q)
    ensures EvenWeights(u, w) && EvenWeights(q, v) && EvenWeights(v + q, w + u)
  {
  }

  /** A node over balanced, even subtrees is balanced; its weight is their sum. */
  lemma Join(l: Tree, slot: nat, x: Item, r: Tree)
    requires Balanced(l) && Balanced(r) && Even(l, r)
    ensures Balanced(Branch(l, slot, x, r)) && Weight(Branch(l, slot, x, r)) == Weight(l) + Weight(r)
  {
  }

  lemma Parts(t: Tree)
    requires Balanced(t) && Weight(t) > 1
    ensures t.Branch? && Balanced(t.left) && Balanced(t.right) && Even(t.left, t.right)
    ensures Weight(t) == Weight(t.left) + Weight(t.right)
  {
  }

  lemma HeavyRight(t: Tree)
    requires t.Branch? && Balanced(t.left) && Balanced(t.right)
    requires Weight(t.right) == DELTA * Weight(t.left) + 1
    ensures Balanced(Balance(t))
    ensures t.right.Branch?
    ensures Weight(t.right.left) >= GAMMA * Weight(t.right.right) ==> t.right.left.Branch?
  {
    hide InOrder, Balanced, Size;
    var l, r := t.left, t.right;
    Parts(r);
    if Weight(r.left) < GAMMA * Weight(r.right) {
      SingleRotation(Weight(l), Weight(r.left), Weight(r.right));
      Join(l, t.slot, t.item, r.left);
      Join(RotateLeft(t).left, r.slot, r.item, r.right);
    } else {
      var m := r.left;
      Parts(m);
      DoubleRotation(Weight(l), Weight(m.left), Weight(m.right), Weight(r.right));
      Join(l, t.slot, t.item, m.left);
      Join(m.right, r.slot, r.item, r.right);
      Join(Branch(l, t.slot, t.item, m.left), m.slot, m.item, Branch(m.right, r.slot, r.item, r.right));
    }
  }

  lemma HeavyLeft(t: Tree)
    requires t.Branch? && Balanced(t.left) && Balanced(t.right)
    requires Weight(t.left) == DELTA * Weight(t.right) + 1
    ensures Balanced(Balance(t))
    ensures t.left.Branch?
    ensures Weight(t.left.right) >= GAMMA * Weight(t.left.left) ==> t.left.right.Branch?
  {
    hide InOrder, Balanced, Size;
    var l, r := t.left, t.right;
    Parts(l);
    if Weight(l.right) < GAMMA * Weight(l.left) {
      SingleRotation(Weight(r), Weight(l.right), Weight(l.left));
      Join(l.right, t.slot, t.item, r);
      Join(l.left, l.slot, l.item, RotateRight(t).right);
    } else {
      var m := l.right;
      Parts(m);
      DoubleRotation(Weight(r), Weight(m.right), Weight(m.left), Weight(l.left));
      Join(l.left, l.slot, l.item, m.left);
      Join(m.right, t.slot, t.item, r);
      Join(Branch(l.left, l.slot, l.item, m.left), m.slot, m.item, Branch(m.right, t.slot, t.item, r));
    }
  }

  /** Insertion along the search path, rebalancing on the way back. */
  function Insert(t: Tree, x: Item, slot: nat): Tree {
    match t
    case Leaf => Branch(Leaf, slot, x, Leaf)
    case Branch(l, i, y, r) =>
      if x == y then t
      else if ItemLess(x, y) then
        var l' := Insert(l, x, slot);
        if l' == l then t else Balance(Branch(l', i, y, r))
      else
        var r' := Insert(r, x, slot);
        if r' == r then t else Balance(Branch(l, i, y, r'))
  }

  /** Where `x` belongs in a sorted sequence, and the sequence with it there. */
  function Inserted(s: seq<Item>, x: Item): seq<Item> {
    var k := Rank(s, Key(x));
    if x in s then s else s[..k] + [x] + s[k..]
  }

  lemma RankInBranch(l: seq<Item>, y: Item, r: seq<Item>, pos: nat)
    requires Sorted(l + [y] + r)
    ensures Sorted(l) && Sorted(r)
    ensures Rank(l + [y] + r, pos) == if Key(y) < pos then |l| + 1 + Rank(r, pos) else Rank(l, pos)
  {
    hide Key, LowerBoundAt;
    SortedParts(l, y, r);
    if Key(y) < pos {
      RankBeyond(l, y, r, pos);
    } else {
      RankWithin(l, y, r, pos);
    }
  }

  lemma RankBeyond(l: seq<Item>, y: Item, r: seq<Item>, pos: nat)
    requires Sorted(l + [y] + r) && Sorted(r) && Key(y) < pos
    ensures Rank(l + [y] + r, pos) == |l| + 1 + Rank(r, pos)
  {
    hide Key, LowerBoundAt;
    var s, k := l + [y] + r, Rank(r, pos);
    BranchAt(l, y, r);
    if k > 0 {
      assert s[|l| + k] == r[k - 1];
    }
    if k < |r| {
      assert s[|l| + 1 + k] == r[k];
    }
    RankUnique(s, pos, |l| + 1 + k);
  }

  lemma RankWithin(l: seq<Item>, y: Item, r: seq<Item>, pos: nat)
    requires Sorted(l + [y] + r) && Sorted(l) && pos <= Key(y)
    ensures Rank(l + [y] + r, pos) == Rank(l, pos)
  {
    hide Key, LowerBoundAt;
    var s, k := l + [y] + r, Rank(l, pos);
    BranchAt(l, y, r);
    if k > 0 {
      assert s[k - 1] == l[k - 1];
    }
    if k < |l| {
      assert s[k] == l[k];
    }
    RankUnique(s, pos, k);
  }

  lemma BranchAt(l: seq<Item>, y: Item, r: seq<Item>)
    ensures (l + [y] + r)[|l|] == y && |l + [y] + r| == |l| + 1 + |r|
  {
  }

  lemma SortedParts(l: seq<Item>, y: Item, r: seq<Item>)
    requires Sorted(l + [y] + r)
    ensures Sorted(l) && Sorted(r)
    ensures forall x :: x in l ==> Key(x) < Key(y)
    ensures forall x :: x in r ==> Key(y) < Key(x)
  {
    hide Key;
    var s := l + [y] + r;
    assert s[|l|] == y;
    forall i | 0 <= i < |l| ensures s[i] == l[i] && Key(l[i]) < Key(y) {
    }
    forall i | 0 <= i < |r| ensures s[|l| + 1 + i] == r[i] && Key(y) < Key(r[i]) {
    }
  }

  lemma InsertedLeft(l: seq<Item>, y: Item, r: seq<Item>, x: Item)
    requires Sorted(l + [y] + r) && Key(x) < Key(y)
    ensures Inserted(l + [y] + r, x) == Inserted(l, x) + [y] + r
    ensures Sorted(l) && Sorted(r)
  {
    hide Key, Rank, Sorted;
    SortedParts(l, y, r);
    RankInBranch(l, y, r, Key(x));
    assert x in l + [y] + r <==> x in l;
    CutLeft(l, y, r, Rank(l, Key(x)));
    Respell(l[..Rank(l, Key(x))], x, l[Rank(l, Key(x))..], [y], r);
  }

  lemma CutLeft(l: seq<Item>, y: Item, r: seq<Item>, k: nat)
    requires k <= |l|
    ensures var s := l + [y] + r; s[..k] == l[..k] && s[k..] == l[k..] + [y] + r
  {
  }

  lemma Respell(a: seq<Item>, x: Item, b: seq<Item>, c: seq<Item>, d: seq<Item>)
    ensures a + [x] + (b + c + d) == (a + [x] + b) + c + d
    ensures (b + c + a) + [x] + d == b + c + (a + [x] + d)
  {
  }

  lemma CutRight(l: seq<Item>, y: Item, r: seq<Item>, k: nat)
    requires k <= |r|
    ensures var s := l + [y] + r; s[..|l| + 1 + k] == l + [y] + r[..k] && s[|l| + 1 + k..] == r[k..]
  {
  }

  lemma InsertedRight(l: seq<Item>, y: Item, r: seq<Item>, x: Item)
    requires Sorted(l + [y] + r) && Key(y) < Key(x)
    ensures Inserted(l + [y] + r, x) == l + [y] + Inserted(r, x)
    ensures Sorted(l) && Sorted(r)
  {
    hide Key, Rank, Sorted;
    SortedParts(l, y, r);
    RankInBranch(l, y, r, Key(x));
    var k := Rank(r, Key(x));
    assert x in l + [y] + r <==> x in r;
    CutRight(l, y, r, k);
    Respell(r[..k], x, l, [y], r[k..]);
  }

  lemma InsertedMembers(s: seq<Item>, x: Item)
    ensures forall y :: y in Inserted(s, x) <==> y in s || y == x
    ensures |Inserted(s, x)| == |s| + if x in s then 0 else 1
  {
    hide Key, LowerBoundAt;
    var k := Rank(s, Key(x));
    assert s == s[..k] + s[k..];
  }

  lemma InsertedSorted(s: seq<Item>, x: Item)
    requires Sorted(s)
    ensures Sorted(Inserted(s, x))
    ensures |Inserted(s, x)| == |s| + if x in s then 0 else 1
  {
    hide Key, LowerBoundAt;
    var k, p := Rank(s, Key(x)), Inserted(s, x);
    if x !in s {
      assert k < |s| ==> Key(x) < Key(s[k]) by {
        if k < |s| {
          KeyOrder(x, s[k]);
        }
      }
      assert forall i :: 0 <= i < |p| ==> p[i] == if i < k then s[i] else if i == k then x else s[i - 1];
      forall i, j | 0 <= i < j < |p| ensures Key(p[i]) < Key(p[j]) {
        if i == k && k < |s| {
          assert k == j - 1 || Key(s[k]) < Key(s[j - 1]);
        }
      }
    }
  }

  /**
    Inserting keeps the tree balanced and places the item in the sorted
    sequence; inserting an item already held returns the same tree.
   */
  lemma {:induction false} InsertSpec(t: Tree, x: Item, slot: nat)
    requires Balanced(t) && Sorted(InOrder(t))
    ensures Balanced(Insert(t, x, slot))
    ensures InOrder(Insert(t, x, slot)) == Inserted(InOrder(t), x)
    ensures x in InOrder(t) <==> Insert(t, x, slot) == t
  {
    hide Key, Rank, Inserted, Balance;
    match t
    case Leaf =>
      InsertedEmpty(x);
    case Branch(l, i, y, r) =>
      KeyOrder(x, y);
      if x == y {
        InsertedHeld(InOrder(t), x);
      } else if ItemLess(x, y) {
        InsertedLeft(InOrder(l), y, InOrder(r), x);
        InsertSpec(l, x, slot);
        SortedParts(InOrder(l), y, InOrder(r));
        InsertLeft(t, x, slot);
      } else {
        KeyOrder(y, x);
        InsertedRight(InOrder(l), y, InOrder(r), x);
        InsertSpec(r, x, slot);
        SortedParts(InOrder(l), y, InOrder(r));
        InsertRight(t, x, slot);
      }
  }

  lemma InsertedEmpty(x: Item)
    ensures Inserted([], x) == [x]
  {
  }

  lemma InsertedHeld(s: seq<Item>, x: Item)
    requires x in s
    ensures Inserted(s, x) == s
  {
  }

  lemma InsertLeft(t: Tree, x: Item, slot: nat)
    requires t.Branch? && Balanced(t) && Sorted(InOrder(t)) && ItemLess(x, t.item) && x != t.item
    requires Sorted(InOrder(t.left)) && x !in [t.item] && x !in InOrder(t.right)
    requires Balanced(Insert(t.left, x, slot))
    requires InOrder(Insert(t.left, x, slot)) == Inserted(InOrder(t.left), x)
    requires x in InOrder(t.left) <==> Insert(t.left, x, slot) == t.left
    requires Inserted(InOrder(t), x) == Inserted(InOrder(t.left), x) + [t.item] + InOrder(t.right)
    ensures Balanced(Insert(t, x, slot))
    ensures InOrder(Insert(t, x, slot)) == Inserted(InOrder(t), x)
    ensures x in InOrder(t) <==> Insert(t, x, slot) == t
  {
    hide Key, Rank, Inserted, Balance;
    var l' := Insert(t.left, x, slot);
    if l' != t.left {
      var t' := Branch(l', t.slot, t.item, t.right);
      InsertedSorted(InOrder(t.left), x);
      BalanceRestores(t');
      BalanceInOrder(t');
      assert |InOrder(Balance(t'))| == |InOrder(t)| + 1;
    } else {
      InsertedHeld(InOrder(t.left), x);
    }
  }

  lemma InsertRight(t: Tree, x: Item, slot: nat)
    requires t.Branch? && Balanced(t) && Sorted(InOrder(t)) && !ItemLess(x, t.item) && x != t.item
    requires Sorted(InOrder(t.right)) && x !in InOrder(t.left) && x !in [t.item]
    requires Balanced(Insert(t.right, x, slot))
    requires InOrder(Insert(t.right, x, slot)) == Inserted(InOrder(t.right), x)
    requires x in InOrder(t.right) <==> Insert(t.right, x, slot) == t.right
    requires Inserted(InOrder(t), x) == InOrder(t.left) + [t.item] + Inserted(InOrder(t.right), x)
    ensures Balanced(Insert(t, x, slot))
    ensures InOrder(Insert(t, x, slot)) == Inserted(InOrder(t), x)
    ensures x in InOrder(t) <==> Insert(t, x, slot) == t
  {
    hide Key, Rank, Inserted, Balance;
    var r' := Insert(t.right, x, slot);
    if r' != t.right {
      var t' := Branch(t.left, t.slot, t.item, r');
      InsertedSorted(InOrder(t.right), x);
      BalanceRestores(t');
      BalanceInOrder(t');
      assert |InOrder(Balance(t'))| == |InOrder(t)| + 1;
    } else {
      InsertedHeld(InOrder(t.right), x);
    }
  }

  function Height(t: Tree): nat {
    match t
    case Leaf => 0
    case Branch(l, _, _, r) => 1 + if Height(l) < Height(r) then Height(r) else Height(l)
  }

  function Pow(b: nat, k: nat): nat {
    if k == 0 then 1 else b * Pow(b, k - 1)
  }

  /** Four to the height is at most three to the height times the weight. */
  lemma {:induction false} HeightBound(t: Tree)
    requires Balanced(t)
    ensures Pow(4, Height(t)) <= Pow(3, Height(t)) * Weight(t)
  {
    hide InOrder;
    if t.Branch? {
      var c := if Height(t.left) < Height(t.right) then t.right else t.left;
      HeightBound(c);
      assert Weight(t.left) + Weight(t.right) == Weight(t);
      assert 4 * Weight(c) <= 3 * Weight(t);
      HeightStep(Pow(4, Height(c)), Pow(3, Height(c)), Weight(c), Weight(t));
    }
  }

  lemma HeightStep(p: nat, q: nat, w: nat, v: nat)
    requires p <= q * w && 4 * w <= 3 * v
    ensures 4 * p <= (3 * q) * v
  {
    calc {
      4 * p;
    <=
      4 * (q * w);
      q * (4 * w);
    <=
      q * (3 * v);
      (3 * q) * v;
    }
  }
}
