/**
  What a reconciliation engine works over (core/src/sync/negentropy/store.rs): a
  sealed sorted vector, or the live order index. Both answer every query exactly
  as the plain sorted sequence would.
 */
module Stores {
  import opened Base
  import opened Items
  import opened Bounds
  import opened IdSums
  import opened Reconcile
  import opened Geometry
  import opened BalancedTrees
  import opened OrderIndexes

  /** Sorts an item set and drops exact duplicates. */
  method Seal(items: seq<Item>) returns (sealed: seq<Item>)
    ensures Sorted(sealed)
    ensures forall x :: x in sealed <==> x in items
    ensures |sealed| <= |items|
  {
    hide Inserted, Key;
    sealed := [];
    for i := 0 to |items|
      invariant Sorted(sealed) && |sealed| <= i
      invariant forall x :: x in sealed <==> x in items[..i]
    {
      InsertedSorted(sealed, items[i]);
      InsertedMembers(sealed, items[i]);
      sealed := Inserted(sealed, items[i]);
      assert items[..i + 1] == items[..i] + [items[i]];
    }
    assert items[..|items|] == items;
  }

  /** Clamping the global lower bound searches the given ranks. */
  lemma ClampedLowerBound(s: seq<Item>, lo: nat, hi: nat, pos: nat)
    requires Sorted(s) && lo <= hi <= |s|
    ensures LowerBoundAt(s, lo, hi, pos) ==
            if Rank(s, pos) < lo then lo else if Rank(s, pos) > hi then hi else Rank(s, pos)
  {
    hide Key;
  }

  datatype Store = Sealed(items: seq<Item>) | Live(index: OrderIndex) {

    ghost predicate Valid()
      reads if Live? then {index} else {}
    {
      if Sealed? then Sorted(items) else index.Valid()
    }

    /** The sorted sequence the store presents. */
    ghost function View(): seq<Item>
      reads if Live? then {index} else {}
    {
      if Sealed? then items else index.Contents()
    }

    method Len() returns (n: nat)
      requires Valid()
      ensures n == |View()|
    {
      if Sealed? {
        n := |items|;
      } else {
        n := index.Len();
      }
    }

    method ItemAt(rank: nat) returns (item: Item)
      requires Valid() && rank < |View()|
      ensures item == View()[rank]
    {
      if Sealed? {
        item := items[rank];
      } else {
        item := index.ItemAt(rank);
      }
    }

    method LowerBound(lo: nat, hi: nat, bound: Bound) returns (rank: nat)
      requires Valid() && lo <= hi <= |View()|
      ensures rank == Reconcile.LowerBound(View(), lo, hi, bound)
    {
      hide Key;
      if Sealed? {
        rank := Reconcile.LowerBound(items, lo, hi, bound);
      } else {
        var r := index.LowerBoundOf(AsItem(bound));
        ClampedLowerBound(index.Contents(), lo, hi, Pos(bound));
        rank := if r < lo then lo else if r > hi then hi else r;
      }
    }

    method Fingerprint(hash: Hash, lo: nat, hi: nat) returns (fp: seq<byte>)
      requires Valid() && lo <= hi <= |View()|
      ensures fp == FingerprintOf(hash, View()[lo..hi])
    {
      if Sealed? {
        fp := SealedFingerprint(hash, items[lo..hi]);
      } else {
        fp := index.RangeFingerprint(hash, lo, hi);
      }
    }

    /** The items at ranks `lo..hi`, in order. */
    method Visit(lo: nat, hi: nat) returns (visited: seq<Item>)
      requires Valid() && lo <= hi <= |View()|
      ensures visited == View()[lo..hi]
    {
      if Sealed? {
        visited := items[lo..hi];
      } else {
        visited := CollectRange(index, lo, hi);
      }
    }
  }

  /** Adds the ids of a range one by one, then hashes. */
  method SealedFingerprint(hash: Hash, range: seq<Item>) returns (fp: seq<byte>)
    ensures fp == FingerprintOf(hash, range)
  {
    hide SumIds, LittleEndian, Value, FingerprintOf;
    EmptySummary();
    var sum: Limbs := [0, 0, 0, 0];
    assert range[..0] == [];
    for i := 0 to |range|
      invariant Value(sum) == SumIds(range[..i]) % MODULUS
    {
      SumThree(range[..i], [], range[i]);
      assert range[..i + 1] == range[..i] + [] + [range[i]];
      ModAdd(SumIds(range[..i]), LittleEndian(range[i].id));
      sum := AddId(sum, range[i].id);
    }
    assert range[..|range|] == range;
    FingerprintIsOf(hash, sum, range);
    fp := IdSums.Fingerprint(hash, sum, |range|);
  }
}
