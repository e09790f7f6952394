/**
  The order-statistics index of core/src/store/order.rs: a weight-balanced tree
  in an arena, every node summarising its subtree by item count and id sum.
 */
module OrderIndexes {
  import opened Base
  import opened Items
  import opened IdSums
  import opened Reconcile
  import opened Geometry
  import opened BalancedTrees

  /** "No child". */
  const NIL: int := 0xFFFF_FFFF

  datatype Node = Node(item: Item, left: int, right: int, count: nat, sum: Limbs)

  /** The arena slots a tree occupies. */
  function Slots(t: Tree): set<nat> {
    match t
    case Leaf => {}
    case Branch(l, i, _, r) => Slots(l) + {i} + Slots(r)
  }

  /** The summary of a node is exact for its subtree. */
  predicate Summarised(n: Node, t: Tree) {
    n.count == Size(t) && Value(n.sum) == SumIds(InOrder(t)) % MODULUS
  }

  /** Slot `i` links to subtrees held in slots of their own. */
  predicate Linked(nodes: seq<Node>, i: int, t: Tree)
    requires t.Branch?
    decreases t, 0
  {
    && i == t.slot && 0 <= i < |nodes| && i < NIL && nodes[i].item == t.item
    && Held(nodes, nodes[i].left, t.left) && Held(nodes, nodes[i].right, t.right)
    && i !in Slots(t.left) && i !in Slots(t.right) && Slots(t.left) !! Slots(t.right)
  }

  /** The arena holds `t`, rooted at `idx`, unshared and with exact summaries. */
  predicate Held(nodes: seq<Node>, idx: int, t: Tree)
    decreases t, 1
  {
    match t
    case Leaf => idx == NIL
    case Branch(_, _, _, _) => Linked(nodes, idx, t) && Summarised(nodes[idx], t)
  }

  /** `later` differs from `earlier` only in the slots of `t` and in new slots. */
  ghost predicate OnlyTouches(earlier: seq<Node>, later: seq<Node>, slots: set<nat>) {
    |earlier| <= |later| && forall j :: 0 <= j < |earlier| && j !in slots ==> later[j] == earlier[j]
  }

  /** A tree survives changes to other slots. */
  lemma {:induction false} HeldFrame(nodes: seq<Node>, nodes': seq<Node>, idx: int, t: Tree)
    requires Held(nodes, idx, t) && |nodes| <= |nodes'|
    requires forall j :: j in Slots(t) && j < |nodes| ==> nodes'[j] == nodes[j]
    ensures Held(nodes', idx, t)
    decreases t
  {
    if t.Branch? {
      assert t.slot in Slots(t);
      HeldFrame(nodes, nodes', nodes[t.slot].left, t.left);
      HeldFrame(nodes, nodes', nodes[t.slot].right, t.right);
    }
  }

  lemma {:induction false} SlotsInArena(nodes: seq<Node>, idx: int, t: Tree)
    requires Held(nodes, idx, t)
    ensures forall j :: j in Slots(t) ==> j < |nodes|
    decreases t
  {
    if t.Branch? {
      SlotsInArena(nodes, nodes[t.slot].left, t.left);
      SlotsInArena(nodes, nodes[t.slot].right, t.right);
    }
  }

  /** What an index tells about the subtree behind it. */
  lemma HeldIndex(nodes: seq<Node>, idx: int, t: Tree)
    requires Held(nodes, idx, t)
    ensures idx == NIL <==> t.Leaf?
    ensures t.Branch? ==> 0 <= idx < |nodes| && idx == t.slot && nodes[idx].item == t.item && Summarised(nodes[idx], t)
    ensures t.Branch? ==> Held(nodes, nodes[idx].left, t.left) && Held(nodes, nodes[idx].right, t.right)
    ensures t.Branch? ==> Linked(nodes, idx, t)
  {
  }

  lemma RotateLeftSlots(t: Tree)
    requires t.Branch? && t.right.Branch?
    ensures Slots(RotateLeft(t)) == Slots(t)
  {
  }

  lemma RotateRightSlots(t: Tree)
    requires t.Branch? && t.left.Branch?
    ensures Slots(RotateRight(t)) == Slots(t)
  {
  }

  lemma SummaryOfBranch(t: Tree)
    requires t.Branch?
    ensures SumIds(InOrder(t)) == SumIds(InOrder(t.left)) + LittleEndian(t.item.id) + SumIds(InOrder(t.right))
  {
    hide LittleEndian, InOrder;
    assert InOrder(t) == InOrder(t.left) + [t.item] + InOrder(t.right) by {
      InOrderUnfold(t);
    }
    SumIdsConcat(InOrder(t.left) + [t.item], InOrder(t.right));
    SumIdsConcat(InOrder(t.left), [t.item]);
    assert SumIds([t.item]) == LittleEndian(t.item.id) by {
      assert [t.item][..0] == [];
    }
  }

  lemma InOrderUnfold(t: Tree)
    requires t.Branch?
    ensures InOrder(t) == InOrder(t.left) + [t.item] + InOrder(t.right)
  {
  }

  /** Adding one child's sum after another stays exact modulo 2^256. */
  lemma AddChild(acc: nat, total: nat, child: nat)
    requires acc == total % MODULUS
    ensures (acc + child % MODULUS) % MODULUS == (total + child) % MODULUS
  {
    ModAdd(total, child);
  }

  lemma LinkedRight(nodes: seq<Node>, idx: int, t: Tree)
    requires t.Branch? && t.right.Branch? && Linked(nodes, idx, t)
    ensures var right := nodes[idx].right;
            right == t.right.slot && right != idx && Linked(nodes, right, t.right)
    ensures idx !in Slots(t.right.left) && idx !in Slots(t.right.right) && t.right.slot !in Slots(t.left)
    ensures Slots(t.left) !! Slots(t.right.left) && Slots(t.left) !! Slots(t.right.right)
  {
    hide Held, Slots;
    HeldIndex(nodes, nodes[idx].right, t.right);
    SlotsOfBranch(t.right);
  }

  lemma LinkedLeft(nodes: seq<Node>, idx: int, t: Tree)
    requires t.Branch? && t.left.Branch? && Linked(nodes, idx, t)
    ensures var left := nodes[idx].left;
            left == t.left.slot && left != idx && Linked(nodes, left, t.left)
    ensures idx !in Slots(t.left.left) && idx !in Slots(t.left.right) && t.left.slot !in Slots(t.right)
    ensures Slots(t.right) !! Slots(t.left.left) && Slots(t.right) !! Slots(t.left.right)
  {
    hide Held, Slots;
    HeldIndex(nodes, nodes[idx].left, t.left);
    SlotsOfBranch(t.left);
  }

  /** A rewritten right subtree can be linked back in its parent. */
  lemma AdoptRight(before: seq<Node>, nodes: seq<Node>, idx: int, t: Tree, right: int, r': Tree)
    requires t.Branch? && Linked(before, idx, t) && OnlyTouches(before, nodes, Slots(t.right))
    requires Held(nodes, right, r') && forall j :: j in Slots(r') ==> j in Slots(t.right) || j >= |before|
    ensures nodes[idx] == before[idx]
    ensures Linked(nodes[idx := nodes[idx].(right := right)], idx, t.(right := r'))
  {
    hide Held, Slots;
    var n := nodes[idx := nodes[idx].(right := right)];
    SlotsInArena(before, before[idx].left, t.left);
    HeldFrame(before, n, before[idx].left, t.left);
    HeldFrame(nodes, n, right, r');
  }

  lemma AdoptLeft(before: seq<Node>, nodes: seq<Node>, idx: int, t: Tree, left: int, l': Tree)
    requires t.Branch? && Linked(before, idx, t) && OnlyTouches(before, nodes, Slots(t.left))
    requires Held(nodes, left, l') && forall j :: j in Slots(l') ==> j in Slots(t.left) || j >= |before|
    ensures nodes[idx] == before[idx]
    ensures Linked(nodes[idx := nodes[idx].(left := left)], idx, t.(left := l'))
  {
    hide Held, Slots;
    var n := nodes[idx := nodes[idx].(left := left)];
    SlotsInArena(before, before[idx].right, t.right);
    HeldFrame(before, n, before[idx].right, t.right);
    HeldFrame(nodes, n, left, l');
  }

  /** The arena after redirecting the two links of a left rotation. */
  function RelinkedLeft(nodes: seq<Node>, idx: int, right: int): seq<Node>
    requires 0 <= idx < |nodes| && 0 <= right < |nodes|
  {
    var n1 := nodes[idx := nodes[idx].(right := nodes[right].left)];
    n1[right := n1[right].(left := idx)]
  }

  lemma RelinkLeft(nodes: seq<Node>, idx: int, t: Tree)
    requires t.Branch? && t.right.Branch? && Linked(nodes, idx, t)
    ensures 0 <= t.right.slot < |nodes|
    ensures var n2 := RelinkedLeft(nodes, idx, t.right.slot);
            && Linked(n2, idx, RotateLeft(t).left)
            && Held(n2, n2[t.right.slot].right, t.right.right)
  {
    hide Held, Slots;
    LinkedRight(nodes, idx, t);
    var r := t.right;
    var n2 := RelinkedLeft(nodes, idx, r.slot);
    HeldFrame(nodes, n2, nodes[idx].left, t.left);
    HeldFrame(nodes, n2, nodes[r.slot].left, r.left);
    HeldFrame(nodes, n2, nodes[r.slot].right, r.right);
  }

  lemma SlotsOfBranch(t: Tree)
    requires t.Branch?
    ensures Slots(t) == Slots(t.left) + {t.slot} + Slots(t.right)
  {
  }

  /** Once the inner node is summarised, the new top links to both parts. */
  lemma LinkLeftTop(mid: seq<Node>, nodes: seq<Node>, idx: int, t: Tree)
    requires t.Branch? && t.right.Branch? && t.right.slot < |mid| && t.right.slot < NIL && idx == t.slot
    requires OnlyTouches(mid, nodes, {idx}) && |nodes| == |mid| && t.right.slot != idx
    requires Held(nodes, idx, RotateLeft(t).left) && Held(mid, mid[t.right.slot].right, t.right.right)
    requires mid[t.right.slot].left == idx && mid[t.right.slot].item == t.right.item
    requires idx !in Slots(t.right.right) && t.right.slot !in Slots(t.left)
    requires t.right.slot !in Slots(t.right.left) && t.right.slot !in Slots(t.right.right)
    requires Slots(t.left) !! Slots(t.right.right) && Slots(t.right.left) !! Slots(t.right.right)
    ensures Linked(nodes, t.right.slot, RotateLeft(t))
  {
    hide Held, Slots;
    HeldFrame(mid, nodes, mid[t.right.slot].right, t.right.right);
    SlotsOfBranch(RotateLeft(t).left);
  }

  function RelinkedRight(nodes: seq<Node>, idx: int, left: int): seq<Node>
    requires 0 <= idx < |nodes| && 0 <= left < |nodes|
  {
    var n1 := nodes[idx := nodes[idx].(left := nodes[left].right)];
    n1[left := n1[left].(right := idx)]
  }

  lemma RelinkRight(nodes: seq<Node>, idx: int, t: Tree)
    requires t.Branch? && t.left.Branch? && Linked(nodes, idx, t)
    ensures 0 <= t.left.slot < |nodes|
    ensures var n2 := RelinkedRight(nodes, idx, t.left.slot);
            && Linked(n2, idx, RotateRight(t).right)
            && Held(n2, n2[t.left.slot].left, t.left.left)
  {
    hide Held, Slots;
    LinkedLeft(nodes, idx, t);
    var l := t.left;
    var n2 := RelinkedRight(nodes, idx, l.slot);
    HeldFrame(nodes, n2, nodes[idx].right, t.right);
    HeldFrame(nodes, n2, nodes[l.slot].left, l.left);
    HeldFrame(nodes, n2, nodes[l.slot].right, l.right);
  }

  lemma LinkRightTop(mid: seq<Node>, nodes: seq<Node>, idx: int, t: Tree)
    requires t.Branch? && t.left.Branch? && t.left.slot < |mid| && t.left.slot < NIL && idx == t.slot
    requires OnlyTouches(mid, nodes, {idx}) && |nodes| == |mid| && t.left.slot != idx
    requires Held(nodes, idx, RotateRight(t).right) && Held(mid, mid[t.left.slot].left, t.left.left)
    requires mid[t.left.slot].right == idx && mid[t.left.slot].item == t.left.item
    requires idx !in Slots(t.left.left) && t.left.slot !in Slots(t.right)
    requires t.left.slot !in Slots(t.left.left) && t.left.slot !in Slots(t.left.right)
    requires Slots(t.right) !! Slots(t.left.left) && Slots(t.left.left) !! Slots(t.left.right)
    ensures Linked(nodes, t.left.slot, RotateRight(t))
  {
    hide Held, Slots;
    HeldFrame(mid, nodes, mid[t.left.slot].left, t.left.left);
    SlotsOfBranch(RotateRight(t).right);
  }

  lemma BalanceIsRight(t: Tree)
    requires t.Branch? && t.right.Branch? && Weight(t.left) * DELTA < Weight(t.right)
    requires Weight(t.right.left) >= GAMMA * Weight(t.right.right) ==> t.right.left.Branch?
    ensures Balance(t) == if Weight(t.right.left) < GAMMA * Weight(t.right.right) then RotateLeft(t)
                          else RotateLeft(t.(right := RotateRight(t.right)))
  {
  }

  lemma BalanceIsLeft(t: Tree)
    requires t.Branch? && t.left.Branch? && Weight(t.right) * DELTA < Weight(t.left)
    requires Weight(t.left.right) >= GAMMA * Weight(t.left.left) ==> t.left.right.Branch?
    ensures Balance(t) == if Weight(t.left.right) < GAMMA * Weight(t.left.left) then RotateRight(t)
                          else RotateRight(t.(left := RotateLeft(t.left)))
  {
  }

  lemma BalanceSlots(t: Tree)
    requires t.Branch?
    ensures Slots(Balance(t)) == Slots(t)
  {
  }

  lemma {:induction false} InsertSlots(t: Tree, x: Item, slot: nat)
    ensures BalancedTrees.Insert(t, x, slot) == t || Slots(BalancedTrees.Insert(t, x, slot)) == Slots(t) + {slot}
  {
    hide Balance;
    if t.Branch? && x != t.item {
      if ItemLess(x, t.item) {
        InsertSlots(t.left, x, slot);
        BalanceSlots(t.(left := BalancedTrees.Insert(t.left, x, slot)));
      } else {
        InsertSlots(t.right, x, slot);
        BalanceSlots(t.(right := BalancedTrees.Insert(t.right, x, slot)));
      }
    }
  }

  /** Both halves of a sorted tree are sorted, and the root separates them. */
  lemma PartsOf(t: Tree)
    requires t.Branch? && Sorted(InOrder(t))
    ensures Sorted(InOrder(t.left)) && Sorted(InOrder(t.right))
    ensures forall x :: x in InOrder(t) <==> x in InOrder(t.left) || x == t.item || x in InOrder(t.right)
    ensures forall x :: x in InOrder(t.left) ==> Key(x) < Key(t.item)
    ensures forall x :: x in InOrder(t.right) ==> Key(t.item) < Key(x)
  {
    hide Key;
    SortedParts(InOrder(t.left), t.item, InOrder(t.right));
  }

  /** A smaller item can only be in the left subtree. */
  lemma SearchLeft(t: Tree, x: Item)
    requires t.Branch? && Balanced(t) && Sorted(InOrder(t)) && ItemLess(x, t.item) && x != t.item
    ensures Sorted(InOrder(t.left)) && Balanced(t.left) && Balanced(t.right)
    ensures x in InOrder(t) <==> x in InOrder(t.left)
  {
    hide Key, Sorted;
    PartsOf(t);
    KeyOrder(x, t.item);
  }

  lemma SearchRight(t: Tree, x: Item)
    requires t.Branch? && Balanced(t) && Sorted(InOrder(t)) && !ItemLess(x, t.item) && x != t.item
    ensures Sorted(InOrder(t.right)) && Balanced(t.left) && Balanced(t.right)
    ensures x in InOrder(t) <==> x in InOrder(t.right)
  {
    hide Key, Sorted;
    PartsOf(t);
    KeyOrder(x, t.item);
    KeyOrder(t.item, x);
  }

  /** An insertion into the left subtree leaves the node nearly even. */
  lemma GrowLeft(t: Tree, x: Item, slot: nat)
    requires t.Branch? && Balanced(t) && Sorted(InOrder(t)) && ItemLess(x, t.item) && x !in InOrder(t.left)
    ensures var l' := BalancedTrees.Insert(t.left, x, slot);
            && Balanced(l') && NearlyEven(l', t.right) && Slots(l') == Slots(t.left) + {slot} && l' != t.left
            && BalancedTrees.Insert(t, x, slot) == Balance(t.(left := l')) && x !in InOrder(t)
  {
    hide Key, Balance, Slots;
    PartsOf(t);
    KeyOrder(x, t.item);
    InsertSpec(t.left, x, slot);
    InsertSlots(t.left, x, slot);
    InsertedSorted(InOrder(t.left), x);
  }

  lemma GrowRight(t: Tree, x: Item, slot: nat)
    requires t.Branch? && Balanced(t) && Sorted(InOrder(t)) && x != t.item && !ItemLess(x, t.item) && x !in InOrder(t.right)
    ensures var r' := BalancedTrees.Insert(t.right, x, slot);
            && Balanced(r') && NearlyEven(t.left, r') && Slots(r') == Slots(t.right) + {slot} && r' != t.right
            && BalancedTrees.Insert(t, x, slot) == Balance(t.(right := r')) && x !in InOrder(t)
  {
    hide Key, Balance, Slots;
    PartsOf(t);
    KeyOrder(x, t.item);
    KeyOrder(t.item, x);
    InsertSpec(t.right, x, slot);
    InsertSlots(t.right, x, slot);
    InsertedSorted(InOrder(t.right), x);
  }

  /** A fresh leaf holds one item. */
  lemma NewNode(nodes: seq<Node>, item: Item, sum: Limbs)
    requires |nodes| < NIL && Value(sum) == (Value([0, 0, 0, 0]) + LittleEndian(item.id)) % MODULUS
    ensures Held(nodes + [Node(item, NIL, NIL, 1, sum)], |nodes|, Branch(Leaf, |nodes|, item, Leaf))
  {
    hide LittleEndian, SumIds, InOrder;
    var t, n := Branch(Leaf, |nodes|, item, Leaf), nodes + [Node(item, NIL, NIL, 1, sum)];
    SummaryOfBranch(t);
    EmptySummary();
    assert n[|nodes|] == Node(item, NIL, NIL, 1, sum);
    assert Summarised(n[|nodes|], t);
    assert Held(n, NIL, Leaf) && Linked(n, |nodes|, t);
  }

  lemma PrefixOfBranch(t: Tree, n: nat)
    requires t.Branch? && n <= |InOrder(t)|
    ensures n <= Size(t.left) ==> InOrder(t)[..n] == InOrder(t.left)[..n]
    ensures n > Size(t.left) ==>
              InOrder(t)[..n] == InOrder(t.left) + [t.item] + InOrder(t.right)[..n - Size(t.left) - 1]
  {
  }

  lemma SumThree(pre: seq<Item>, l: seq<Item>, x: Item)
    ensures SumIds(pre + l + [x]) == SumIds(pre) + SumIds(l) + LittleEndian(x.id)
  {
    hide LittleEndian;
    SumIdsConcat(pre + l, [x]);
    SumIdsConcat(pre, l);
    assert [x][..0] == [];
    assert SumIds([x]) == LittleEndian(x.id);
  }

  /** Subtracting by adding the negation is exact modulo 2^256. */
  lemma ModDifference(a: nat, b: nat)
    ensures ((a + b) % MODULUS + (MODULUS - a % MODULUS) % MODULUS) % MODULUS == b % MODULUS
  {
    var r := a % MODULUS;
    ModAdd(a + b, MODULUS - r);
    var q := a / MODULUS;
    assert a + b + (MODULUS - r) == MODULUS * (q + 1) + b;
    ModUnique(MODULUS * (q + 1) + b, MODULUS, q + 1 + b / MODULUS, b % MODULUS);
  }

  lemma EmptySummary()
    ensures InOrder(Leaf) == [] && SumIds([]) == 0 && Value([0, 0, 0, 0]) == 0
  {
  }

  class OrderIndex {
    var nodes: seq<Node>
    var root: int
    ghost var tree: Tree

    ghost predicate Valid()
      reads this
    {
      && |nodes| == |InOrder(tree)| <= NIL
      && Held(nodes, root, tree)
      && (forall j: nat :: j in Slots(tree) <==> j < |nodes|)
      && Balanced(tree)
      && Sorted(InOrder(tree))
    }

    /** The items held, in order. */
    ghost function Contents(): seq<Item>
      reads this
    {
      InOrder(tree)
    }

    constructor ()
      ensures Valid() && Contents() == []
    {
      nodes, root, tree := [], NIL, Leaf;
    }

    function SubtreeCount(idx: int): nat
      requires idx == NIL || 0 <= idx < |nodes|
      reads this
    {
      if idx == NIL then 0 else nodes[idx].count
    }

    function WeightOf(idx: int): nat
      requires idx == NIL || 0 <= idx < |nodes|
      reads this
    {
      SubtreeCount(idx) + 1
    }

    /** The exact summary of a node, from its children's. */
    method Summarise(idx: int, ghost t: Tree) returns (count: nat, sum: Limbs)
      requires t.Branch? && Linked(nodes, idx, t)
      ensures count == Size(t) && Value(sum) == SumIds(InOrder(t)) % MODULUS
    {
      hide Held, SumIds, LittleEndian, InOrder;
      var node := nodes[idx];
      ghost var own, lower := LittleEndian(t.item.id), SumIds(InOrder(t.left));
      HeldIndex(nodes, node.left, t.left);
      HeldIndex(nodes, node.right, t.right);
      SummaryOfBranch(t);
      EmptySummary();
      count := 1;
      sum := AddId([0, 0, 0, 0], node.item.id);
      if node.left != NIL {
        count := count + nodes[node.left].count;
        AddChild(Value(sum), own, lower);
        sum := AddLimbs(sum, nodes[node.left].sum);
      }
      assert Value(sum) == (own + lower) % MODULUS;
      if node.right != NIL {
        count := count + nodes[node.right].count;
        AddChild(Value(sum), own + lower, SumIds(InOrder(t.right)));
        sum := AddLimbs(sum, nodes[node.right].sum);
      }
    }

    /** Recomputes a node's summary in place. */
    method PullUp(idx: int, ghost t: Tree)
      requires t.Branch? && Linked(nodes, idx, t)
      modifies `nodes
      ensures Held(nodes, idx, t)
      ensures OnlyTouches(old(nodes), nodes, {idx}) && |nodes| == |old(nodes)|
      ensures nodes[idx].left == old(nodes[idx].left) && nodes[idx].right == old(nodes[idx].right)
    {
      var count, sum := Summarise(idx, t);
      ghost var before := nodes;
      nodes := nodes[idx := nodes[idx].(count := count, sum := sum)];
      HeldFrame(before, nodes, before[idx].left, t.left);
      HeldFrame(before, nodes, before[idx].right, t.right);
    }

    /** Rotates the right child above; returns the new subtree root. */
    method RotateLeftAt(idx: int, ghost t: Tree) returns (top: int)
      requires t.Branch? && t.right.Branch? && Linked(nodes, idx, t)
      modifies `nodes
      ensures Held(nodes, top, RotateLeft(t)) && top == t.right.slot
      ensures OnlyTouches(old(nodes), nodes, {t.slot, t.right.slot}) && |nodes| == |old(nodes)|
    {
      hide Held, InOrder, Slots;
      LinkedRight(nodes, idx, t);
      var right := nodes[idx].right;
      var rightLeft := nodes[right].left;
      nodes := nodes[idx := nodes[idx].(right := rightLeft)];
      nodes := nodes[right := nodes[right].(left := idx)];
      ghost var mid, inner := nodes, RotateLeft(t).left;
      RelinkLeft(old(nodes), idx, t);
      PullUp(idx, inner);
      LinkLeftTop(mid, nodes, idx, t);
      PullUp(right, RotateLeft(t));
      top := right;
    }

    /** Rotates the left child above; returns the new subtree root. */
    method RotateRightAt(idx: int, ghost t: Tree) returns (top: int)
      requires t.Branch? && t.left.Branch? && Linked(nodes, idx, t)
      modifies `nodes
      ensures Held(nodes, top, RotateRight(t)) && top == t.left.slot
      ensures OnlyTouches(old(nodes), nodes, {t.slot, t.left.slot}) && |nodes| == |old(nodes)|
    {
      hide Held, InOrder, Slots;
      LinkedLeft(nodes, idx, t);
      var left := nodes[idx].left;
      var leftRight := nodes[left].right;
      nodes := nodes[idx := nodes[idx].(left := leftRight)];
      nodes := nodes[left := nodes[left].(right := idx)];
      ghost var mid, inner := nodes, RotateRight(t).right;
      RelinkRight(old(nodes), idx, t);
      PullUp(idx, inner);
      LinkRightTop(mid, nodes, idx, t);
      PullUp(left, RotateRight(t));
      top := left;
    }

    /** Restores the balance condition at `idx` after one insertion below it. */
    method BalanceAt(idx: int, ghost t: Tree) returns (top: int)
      requires t.Branch? && Held(nodes, idx, t)
      requires Balanced(t.left) && Balanced(t.right) && NearlyEven(t.left, t.right)
      modifies `nodes
      ensures Held(nodes, top, Balance(t))
      ensures OnlyTouches(old(nodes), nodes, Slots(t)) && |nodes| == |old(nodes)|
    {
      hide Held, InOrder, Balanced, Slots, Linked;
      HeldIndex(nodes, idx, t);
      var left, right := nodes[idx].left, nodes[idx].right;
      HeldIndex(nodes, left, t.left);
      HeldIndex(nodes, right, t.right);
      if WeightOf(left) * DELTA < WeightOf(right) {
        HeavyRight(t);
        top := BalanceRight(idx, t);
      } else if WeightOf(right) * DELTA < WeightOf(left) {
        HeavyLeft(t);
        top := BalanceLeft(idx, t);
      } else {
        top := idx;
      }
    }

    method BalanceRight(idx: int, ghost t: Tree) returns (top: int)
      requires t.Branch? && Held(nodes, idx, t) && t.right.Branch?
      requires Weight(t.left) * DELTA < Weight(t.right)
      requires Weight(t.right.left) >= GAMMA * Weight(t.right.right) ==> t.right.left.Branch?
      modifies `nodes
      ensures Held(nodes, top, Balance(t))
      ensures OnlyTouches(old(nodes), nodes, Slots(t)) && |nodes| == |old(nodes)|
    {
      hide Held, InOrder, Slots, Balance, Linked;
      HeldIndex(nodes, idx, t);
      var right := nodes[idx].right;
      HeldIndex(nodes, right, t.right);
      var rl, rr := nodes[right].left, nodes[right].right;
      HeldIndex(nodes, rl, t.right.left);
      HeldIndex(nodes, rr, t.right.right);
      SlotsOfBranch(t);
      SlotsOfBranch(t.right);
      if WeightOf(rl) < GAMMA * WeightOf(rr) {
        top := RotateLeftAt(idx, t);
      } else {
        top := RotateRightThenLeft(idx, t);
      }
      BalanceIsRight(t);
    }

    /** The double rotation of a right-heavy node. */
    method RotateRightThenLeft(idx: int, ghost t: Tree) returns (top: int)
      requires t.Branch? && Linked(nodes, idx, t) && t.right.Branch? && t.right.left.Branch?
      modifies `nodes
      ensures Held(nodes, top, RotateLeft(t.(right := RotateRight(t.right))))
      ensures OnlyTouches(old(nodes), nodes, Slots(t)) && |nodes| == |old(nodes)|
    {
      hide Held, InOrder, Size, Slots;
      LinkedRight(nodes, idx, t);
      SlotsOfBranch(t);
      SlotsOfBranch(t.right);
      RotateRightSlots(t.right);
      SlotsOfBranch(t.right.left);
      ghost var before, t' := nodes, t.(right := RotateRight(t.right));
      var newRight := RotateRightAt(nodes[idx].right, t.right);
      AdoptRight(before, nodes, idx, t, newRight, t'.right);
      nodes := nodes[idx := nodes[idx].(right := newRight)];
      PullUp(idx, t');
      HeldIndex(nodes, idx, t');
      top := RotateLeftAt(idx, t');
    }

    method BalanceLeft(idx: int, ghost t: Tree) returns (top: int)
      requires t.Branch? && Held(nodes, idx, t) && t.left.Branch?
      requires !(Weight(t.left) * DELTA < Weight(t.right)) && Weight(t.right) * DELTA < Weight(t.left)
      requires Weight(t.left.right) >= GAMMA * Weight(t.left.left) ==> t.left.right.Branch?
      modifies `nodes
      ensures Held(nodes, top, Balance(t))
      ensures OnlyTouches(old(nodes), nodes, Slots(t)) && |nodes| == |old(nodes)|
    {
      hide Held, InOrder, Slots, Balance, Linked;
      HeldIndex(nodes, idx, t);
      var left := nodes[idx].left;
      HeldIndex(nodes, left, t.left);
      var ll, lr := nodes[left].left, nodes[left].right;
      HeldIndex(nodes, ll, t.left.left);
      HeldIndex(nodes, lr, t.left.right);
      SlotsOfBranch(t);
      SlotsOfBranch(t.left);
      if WeightOf(lr) < GAMMA * WeightOf(ll) {
        top := RotateRightAt(idx, t);
      } else {
        top := RotateLeftThenRight(idx, t);
      }
      BalanceIsLeft(t);
    }

    /** The double rotation of a left-heavy node. */
    method RotateLeftThenRight(idx: int, ghost t: Tree) returns (top: int)
      requires t.Branch? && Linked(nodes, idx, t) && t.left.Branch? && t.left.right.Branch?
      modifies `nodes
      ensures Held(nodes, top, RotateRight(t.(left := RotateLeft(t.left))))
      ensures OnlyTouches(old(nodes), nodes, Slots(t)) && |nodes| == |old(nodes)|
    {
      hide Held, InOrder, Size, Slots;
      LinkedLeft(nodes, idx, t);
      SlotsOfBranch(t);
      SlotsOfBranch(t.left);
      RotateLeftSlots(t.left);
      SlotsOfBranch(t.left.right);
      ghost var before, t' := nodes, t.(left := RotateLeft(t.left));
      var newLeft := RotateLeftAt(nodes[idx].left, t.left);
      AdoptLeft(before, nodes, idx, t, newLeft, t'.left);
      nodes := nodes[idx := nodes[idx].(left := newLeft)];
      PullUp(idx, t');
      HeldIndex(nodes, idx, t');
      top := RotateRightAt(idx, t');
    }

    /** Inserts below `idx`, rebalancing on the way up. */
    method InsertAt(idx: int, item: Item, ghost t: Tree) returns (top: int, inserted: bool)
      requires Held(nodes, idx, t) && Balanced(t) && Sorted(InOrder(t)) && |nodes| < NIL
      modifies `nodes
      ensures inserted <==> item !in InOrder(t)
      ensures !inserted ==> nodes == old(nodes) && top == idx
      ensures inserted ==> Held(nodes, top, BalancedTrees.Insert(t, item, |old(nodes)|))
      ensures inserted ==> OnlyTouches(old(nodes), nodes, Slots(t)) && |nodes| == |old(nodes)| + 1
      decreases t, 1
    {
      hide Held, Key, Balance, Sorted;
      HeldIndex(nodes, idx, t);
      if idx == NIL {
        var sum := AddId([0, 0, 0, 0], item.id);
        NewNode(nodes, item, sum);
        nodes := nodes + [Node(item, NIL, NIL, 1, sum)];
        top, inserted := |nodes| - 1, true;
      } else if item == nodes[idx].item {
        PartsOf(t);
        top, inserted := idx, false;
      } else if ItemLess(item, nodes[idx].item) {
        top, inserted := InsertLeftOf(idx, item, t);
      } else {
        top, inserted := InsertRightOf(idx, item, t);
      }
    }

    method InsertLeftOf(idx: int, item: Item, ghost t: Tree) returns (top: int, inserted: bool)
      requires t.Branch? && Held(nodes, idx, t) && Balanced(t) && Sorted(InOrder(t)) && |nodes| < NIL
      requires item != t.item && ItemLess(item, t.item)
      modifies `nodes
      ensures inserted <==> item !in InOrder(t)
      ensures !inserted ==> nodes == old(nodes) && top == idx
      ensures inserted ==> Held(nodes, top, BalancedTrees.Insert(t, item, |old(nodes)|))
      ensures inserted ==> OnlyTouches(old(nodes), nodes, Slots(t)) && |nodes| == |old(nodes)| + 1
      decreases t, 0
    {
      hide Held, Key, Balance, Balanced, Sorted, Slots, InOrder, BalancedTrees.Insert, ItemLess, Linked;
      SearchLeft(t, item);
      HeldIndex(nodes, idx, t);
      var child;
      child, inserted := InsertAt(nodes[idx].left, item, t.left);
      if inserted {
        GrowLeft(t, item, |old(nodes)|);
        top := AttachLeft(idx, child, old(nodes), t, BalancedTrees.Insert(t.left, item, |old(nodes)|));
      } else {
        top := idx;
      }
    }

    /** Links a grown left child, then summarises and rebalances the node. */
    method AttachLeft(idx: int, child: int, ghost before: seq<Node>, ghost t: Tree, ghost grown: Tree) returns (top: int)
      requires t.Branch? && Linked(before, idx, t) && OnlyTouches(before, nodes, Slots(t.left))
      requires Held(nodes, child, grown) && Slots(grown) == Slots(t.left) + {|before|} && |nodes| == |before| + 1
      requires Balanced(grown) && Balanced(t.right) && NearlyEven(t.(left := grown).left, t.(left := grown).right)
      modifies `nodes
      ensures Held(nodes, top, Balance(t.(left := grown)))
      ensures OnlyTouches(before, nodes, Slots(t)) && |nodes| == |before| + 1
    {
      hide Held, Balance, Balanced, Slots, InOrder, NearlyEven;
      ghost var t' := t.(left := grown);
      SlotsOfBranch(t);
      SlotsOfBranch(t');
      AdoptLeft(before, nodes, idx, t, child, grown);
      nodes := nodes[idx := nodes[idx].(left := child)];
      PullUp(idx, t');
      top := BalanceAt(idx, t');
    }

    method InsertRightOf(idx: int, item: Item, ghost t: Tree) returns (top: int, inserted: bool)
      requires t.Branch? && Held(nodes, idx, t) && Balanced(t) && Sorted(InOrder(t)) && |nodes| < NIL
      requires item != t.item && !ItemLess(item, t.item)
      modifies `nodes
      ensures inserted <==> item !in InOrder(t)
      ensures !inserted ==> nodes == old(nodes) && top == idx
      ensures inserted ==> Held(nodes, top, BalancedTrees.Insert(t, item, |old(nodes)|))
      ensures inserted ==> OnlyTouches(old(nodes), nodes, Slots(t)) && |nodes| == |old(nodes)| + 1
      decreases t, 0
    {
      hide Held, Key, Balance, Balanced, Sorted, Slots, InOrder, BalancedTrees.Insert, ItemLess, Linked;
      SearchRight(t, item);
      HeldIndex(nodes, idx, t);
      var child;
      child, inserted := InsertAt(nodes[idx].right, item, t.right);
      if inserted {
        GrowRight(t, item, |old(nodes)|);
        top := AttachRight(idx, child, old(nodes), t, BalancedTrees.Insert(t.right, item, |old(nodes)|));
      } else {
        top := idx;
      }
    }

    /** Links a grown right child, then summarises and rebalances the node. */
    method AttachRight(idx: int, child: int, ghost before: seq<Node>, ghost t: Tree, ghost grown: Tree) returns (top: int)
      requires t.Branch? && Linked(before, idx, t) && OnlyTouches(before, nodes, Slots(t.right))
      requires Held(nodes, child, grown) && Slots(grown) == Slots(t.right) + {|before|} && |nodes| == |before| + 1
      requires Balanced(grown) && Balanced(t.left) && NearlyEven(t.(right := grown).left, t.(right := grown).right)
      modifies `nodes
      ensures Held(nodes, top, Balance(t.(right := grown)))
      ensures OnlyTouches(before, nodes, Slots(t)) && |nodes| == |before| + 1
    {
      hide Held, Balance, Balanced, Slots, InOrder, NearlyEven;
      ghost var t' := t.(right := grown);
      SlotsOfBranch(t);
      SlotsOfBranch(t');
      AdoptRight(before, nodes, idx, t, child, grown);
      nodes := nodes[idx := nodes[idx].(right := child)];
      PullUp(idx, t');
      top := BalanceAt(idx, t');
    }

    /** Inserts an item; returns false, and changes nothing, if it is held already. */
    method Insert(item: Item) returns (inserted: bool)
      requires Valid() && |Contents()| < NIL
      modifies this
      ensures Valid()
      ensures inserted <==> item !in old(Contents())
      ensures Contents() == Inserted(old(Contents()), item)
      ensures !inserted ==> nodes == old(nodes) && root == old(root) && tree == old(tree)
    {
      hide Held, Key, Balanced, Inserted, BalancedTrees.Insert;
      InsertSpec(tree, item, |nodes|);
      InsertSlots(tree, item, |nodes|);
      InsertedSorted(Contents(), item);
      var top;
      top, inserted := InsertAt(root, item, tree);
      root := top;
      if inserted {
        tree := BalancedTrees.Insert(tree, item, |old(nodes)|);
      }
    }

    method Len() returns (n: nat)
      requires Valid()
      ensures n == |Contents()|
    {
      HeldIndex(nodes, root, tree);
      n := SubtreeCount(root);
    }

    /** The item at `rank`, by descending with subtree counts. */
    method ItemAt(rank: nat) returns (item: Item)
      requires Valid() && rank < |Contents()|
      ensures item == Contents()[rank]
    {
      hide Held, Balanced, Slots, Sorted;
      var k: nat := rank;
      var idx := root;
      ghost var t := tree;
      while true
        invariant Held(nodes, idx, t) && k < |InOrder(t)| && InOrder(t)[k] == Contents()[rank]
        decreases t
      {
        HeldIndex(nodes, idx, t);
        var node := nodes[idx];
        HeldIndex(nodes, node.left, t.left);
        var left := SubtreeCount(node.left);
        if k < left {
          idx, t := node.left, t.left;
        } else if k == left {
          return node.item;
        } else {
          k, idx, t := k - (left + 1), node.right, t.right;
        }
      }
    }

    /** The first rank whose item is at or after `bound`. */
    method LowerBoundOf(bound: Item) returns (r: nat)
      requires Valid()
      ensures r == Rank(Contents(), Key(bound))
    {
      hide Held, Balanced, Slots, Key, Rank, Sorted;
      r := 0;
      var idx := root;
      ghost var t := tree;
      while idx != NIL
        invariant Held(nodes, idx, t) && Sorted(InOrder(t))
        invariant r + Rank(InOrder(t), Key(bound)) == Rank(Contents(), Key(bound))
        decreases t
      {
        HeldIndex(nodes, idx, t);
        var node := nodes[idx];
        HeldIndex(nodes, node.left, t.left);
        RankInBranch(InOrder(t.left), t.item, InOrder(t.right), Key(bound));
        KeyOrder(node.item, bound);
        if ItemLess(node.item, bound) {
          r := r + SubtreeCount(node.left) + 1;
          idx, t := node.right, t.right;
        } else {
          idx, t := node.left, t.left;
        }
      }
      HeldIndex(nodes, idx, t);
    }

    /** Count and id sum of the first `k` items. */
    method PrefixSummary(k: nat) returns (count: nat, sum: Limbs)
      requires Valid() && k <= |Contents()|
      ensures count == k && Value(sum) == SumIds(Contents()[..k]) % MODULUS
    {
      hide Held, Balanced, Slots, Sorted, SumIds, LittleEndian, Value;
      var remaining: nat := k;
      count := 0;
      sum := [0, 0, 0, 0];
      EmptySummary();
      var idx := root;
      ghost var t, pre := tree, [];
      while idx != NIL && remaining > 0
        invariant Held(nodes, idx, t) && remaining <= |InOrder(t)|
        invariant count == |pre| && Value(sum) == SumIds(pre) % MODULUS
        invariant pre + InOrder(t)[..remaining] == Contents()[..k]
        decreases t
      {
        HeldIndex(nodes, idx, t);
        var node := nodes[idx];
        HeldIndex(nodes, node.left, t.left);
        var left := SubtreeCount(node.left);
        PrefixOfBranch(t, remaining);
        if remaining <= left {
          idx, t := node.left, t.left;
        } else {
          count, sum := TakeUpTo(idx, count, sum, t, pre);
          remaining := remaining - (left + 1);
          pre := pre + InOrder(t.left) + [t.item];
          idx, t := node.right, t.right;
        }
      }
      HeldIndex(nodes, idx, t);
      assert pre == Contents()[..k];
    }

    /** Adds a node and everything left of it to a running count and sum. */
    method TakeUpTo(idx: int, count0: nat, sum0: Limbs, ghost t: Tree, ghost pre: seq<Item>) returns (count: nat, sum: Limbs)
      requires idx != NIL && Held(nodes, idx, t) && t.Branch?
      requires count0 == |pre| && Value(sum0) == SumIds(pre) % MODULUS
      ensures count == |pre + InOrder(t.left) + [t.item]|
      ensures Value(sum) == SumIds(pre + InOrder(t.left) + [t.item]) % MODULUS
    {
      hide Held, SumIds, LittleEndian, Value;
      HeldIndex(nodes, idx, t);
      var node := nodes[idx];
      HeldIndex(nodes, node.left, t.left);
      ghost var before := SumIds(pre);
      EmptySummary();
      count, sum := count0, sum0;
      if node.left != NIL {
        var l := nodes[node.left];
        count := count + l.count;
        AddChild(Value(sum), before, SumIds(InOrder(t.left)));
        sum := AddLimbs(sum, l.sum);
      }
      assert Value(sum) == (before + SumIds(InOrder(t.left))) % MODULUS;
      count := count + 1;
      ModAdd(before + SumIds(InOrder(t.left)), LittleEndian(node.item.id));
      sum := AddId(sum, node.item.id);
      SumThree(pre, InOrder(t.left), t.item);
    }

    /** Count and id sum of the items at ranks `lo..hi`, as a difference of prefixes. */
    method Summary(lo: nat, hi: nat) returns (count: nat, sum: Limbs)
      requires Valid() && lo <= hi <= |Contents()|
      ensures count == hi - lo && Value(sum) == SumIds(Contents()[lo..hi]) % MODULUS
    {
      hide Held, Balanced, Slots, Sorted, SumIds, LittleEndian, Value;
      var hiCount, hiSum := PrefixSummary(hi);
      var loCount, loSum := PrefixSummary(lo);
      loSum := Negate(loSum);
      sum := AddLimbs(hiSum, loSum);
      count := hiCount - loCount;
      ghost var c := Contents();
      assert c[..hi] == c[..lo] + c[lo..hi];
      SumIdsConcat(c[..lo], c[lo..hi]);
      ModDifference(SumIds(c[..lo]), SumIds(c[lo..hi]));
    }

    /** The fingerprint of the items at ranks `lo..hi`. */
    method RangeFingerprint(hash: Hash, lo: nat, hi: nat) returns (fp: seq<byte>)
      requires Valid() && lo <= hi <= |Contents()|
      ensures fp == FingerprintOf(hash, Contents()[lo..hi])
    {
      hide Held, Balanced, Slots, Sorted, SumIds, LittleEndian, Value;
      var count, sum := Summary(lo, hi);
      FingerprintIsOf(hash, sum, Contents()[lo..hi]);
      fp := IdSums.Fingerprint(hash, sum, count);
    }
  }

  /** What a stack of subtrees still has to yield: each node, then its right side. */
  ghost function Pending(trees: seq<Tree>): seq<Item> {
    if trees == [] then []
    else
      var t := trees[|trees| - 1];
      (if t.Branch? then [t.item] + InOrder(t.right) else []) + Pending(trees[..|trees| - 1])
  }

  lemma PendingPush(trees: seq<Tree>, t: Tree)
    requires t.Branch?
    ensures Pending(trees + [t]) == [t.item] + InOrder(t.right) + Pending(trees)
  {
    assert (trees + [t])[..|trees|] == trees;
  }

  lemma SuffixLeft(l: seq<Item>, x: Item, r: seq<Item>, k: nat, rest: seq<Item>)
    requires k <= |l|
    ensures (l + [x] + r)[k..] + rest == l[k..] + ([x] + r + rest)
  {
    assert (l + [x] + r)[k..] == l[k..] + ([x] + r);
  }

  lemma SuffixRight(l: seq<Item>, x: Item, r: seq<Item>, k: nat)
    requires |l| < k <= |l| + 1 + |r|
    ensures (l + [x] + r)[k..] == r[k - |l| - 1..]
  {
  }

  /** The items of a branch from rank `k` on. */
  lemma SuffixOfBranch(t: Tree, k: nat, rest: seq<Item>)
    requires t.Branch? && k <= |InOrder(t)|
    ensures |InOrder(t)| == Size(t.left) + 1 + |InOrder(t.right)|
    ensures k <= Size(t.left) ==> InOrder(t)[k..] + rest == InOrder(t.left)[k..] + ([t.item] + InOrder(t.right) + rest)
    ensures k > Size(t.left) ==> InOrder(t)[k..] == InOrder(t.right)[k - Size(t.left) - 1..]
  {
    InOrderUnfold(t);
    hide InOrder;
    if k <= Size(t.left) {
      SuffixLeft(InOrder(t.left), t.item, InOrder(t.right), k, rest);
    } else {
      SuffixRight(InOrder(t.left), t.item, InOrder(t.right), k);
    }
  }

  /** In-order iterator over a range of ranks. */
  class RangeIter {
    const index: OrderIndex
    var stack: seq<int>
    var remaining: nat
    ghost var trees: seq<Tree>

    ghost predicate Stacked()
      reads this, index
    {
      && |trees| == |stack|
      && forall k :: 0 <= k < |stack| ==> trees[k].Branch? && Held(index.nodes, stack[k], trees[k])
    }

    ghost predicate Valid()
      reads this, index
    {
      Stacked() && remaining <= |Pending(trees)|
    }

    /** The items still to come. */
    ghost function Rest(): seq<Item>
      reads this
      requires remaining <= |Pending(trees)|
    {
      Pending(trees)[..remaining]
    }

    constructor (index: OrderIndex, lo: nat, hi: nat)
      requires index.Valid() && lo <= hi <= |index.Contents()|
      ensures this.index == index && Valid() && Rest() == index.Contents()[lo..hi]
    {
      hide Held, Balanced, Slots, Sorted, Pending, InOrder;
      this.index := index;
      stack, remaining, trees := [], hi - lo, [];
      new;
      Seed(lo);
      assert index.Contents()[lo..][..hi - lo] == index.Contents()[lo..hi];
    }

    /** Stacks the ancestors still to be yielded on the way to rank `lo`. */
    method Seed(lo: nat)
      requires index.Valid() && lo <= |index.Contents()| && stack == [] && trees == []
      modifies `stack, `trees
      ensures Stacked() && Pending(trees) == index.Contents()[lo..]
    {
      hide Held, Balanced, Slots, Sorted, Pending, InOrder;
      var rank: nat := lo;
      var idx := index.root;
      ghost var t := index.tree;
      PendingNil();
      while idx != NIL
        invariant Held(index.nodes, idx, t) && rank <= |InOrder(t)| && Stacked()
        invariant InOrder(t)[rank..] + Pending(trees) == index.Contents()[lo..]
        decreases t
      {
        HeldIndex(index.nodes, idx, t);
        var node := index.nodes[idx];
        HeldIndex(index.nodes, node.left, t.left);
        InOrderLeaf();
        var left := index.SubtreeCount(node.left);
        SuffixOfBranch(t, rank, Pending(trees));
        PendingPush(trees, t);
        if rank < left {
          stack, trees := stack + [idx], trees + [t];
          idx, t := node.left, t.left;
        } else if rank == left {
          stack, trees := stack + [idx], trees + [t];
          assert InOrder(t.left)[rank..] == [];
          rank, t := 0, Leaf;
          break;
        } else {
          rank, idx, t := rank - (left + 1), node.right, t.right;
        }
      }
      if t.Branch? {
        HeldIndex(index.nodes, idx, t);
      }
      InOrderLeaf();
    }

    method Next() returns (item: Option<Item>)
      requires Valid()
      modifies this
      ensures Valid()
      ensures old(Rest()) == [] ==> item == None && Rest() == []
      ensures old(Rest()) != [] ==> item == Some(old(Rest())[0]) && Rest() == old(Rest())[1..]
    {
      hide Held, Balanced, Slots, Sorted, Pending;
      if remaining == 0 {
        return None;
      }
      PendingNil();
      ghost var before := Pending(trees);
      var n := |stack| - 1;
      var idx := stack[n];
      ghost var top := trees[n];
      HeldIndex(index.nodes, idx, top);
      assert trees == trees[..n] + [top];
      PendingPush(trees[..n], top);
      stack, trees := stack[..n], trees[..n];
      var node := index.nodes[idx];
      var child := node.right;
      ghost var t := top.right;
      while child != NIL
        invariant Stacked() && Held(index.nodes, child, t)
        invariant InOrder(t) + Pending(trees) == before[1..]
        invariant remaining == old(remaining)
        decreases t
      {
        HeldIndex(index.nodes, child, t);
        PendingPush(trees, t);
        SuffixOfBranch(t, 0, Pending(trees));
        stack, trees := stack + [child], trees + [t];
        child, t := index.nodes[child].left, t.left;
      }
      HeldIndex(index.nodes, child, t);
      assert Pending(trees) == before[1..];
      remaining := remaining - 1;
      item := Some(node.item);
    }
  }

  lemma InOrderLeaf()
    ensures InOrder(Leaf) == []
  {
  }

  lemma PendingNil()
    ensures Pending([]) == []
  {
  }

  /** Every item of a range, by iterating. */
  method CollectRange(index: OrderIndex, lo: nat, hi: nat) returns (items: seq<Item>)
    requires index.Valid() && lo <= hi <= |index.Contents()|
    ensures items == index.Contents()[lo..hi]
  {
    hide Held, Balanced, Slots, Sorted, Pending;
    items := [];
    var iter := new RangeIter(index, lo, hi);
    var next := iter.Next();
    while next.Some?
      invariant iter.Valid() && iter.index == index
      invariant items + (if next.Some? then [next.value] else []) + iter.Rest() == index.Contents()[lo..hi]
      invariant next.None? ==> iter.Rest() == []
      decreases |iter.Rest()|, next.Some?
    {
      items := items + [next.value];
      next := iter.Next();
    }
  }

  /**
    Any sequence of insertions: the index holds exactly the items inserted, in
    order and once each, and its tree is shallow.
   */
  method Build(items: seq<Item>) returns (index: OrderIndex)
    requires |items| <= NIL
    ensures index.Valid() && fresh(index)
    ensures Sorted(index.Contents()) && forall x :: x in index.Contents() <==> x in items
    ensures Pow(4, Height(index.tree)) <= Pow(3, Height(index.tree)) * (|index.Contents()| + 1)
  {
    hide Held, Key, Balanced, Inserted, Height, Pow, Slots;
    index := new OrderIndex();
    for i := 0 to |items|
      invariant index.Valid() && fresh(index) && |index.Contents()| <= i
      invariant forall x :: x in index.Contents() <==> x in items[..i]
    {
      InsertedMembers(index.Contents(), items[i]);
      var _ := index.Insert(items[i]);
      assert items[..i + 1] == items[..i] + [items[i]];
    }
    assert items[..|items|] == items;
    Shallow(index.tree);
  }

  lemma Shallow(t: Tree)
    requires Balanced(t)
    ensures Pow(4, Height(t)) <= Pow(3, Height(t)) * (|InOrder(t)| + 1)
  {
    hide Height, Pow;
    HeightBound(t);
  }
}
