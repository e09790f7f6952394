/**
  The reconciliation order of core/src/store/item.rs: ascending sort key, ties
  broken by ascending bytewise id comparison. Every item and every range bound
  is also given a natural number, its position, and the two views are proved to
  agree; protocol arguments then live on plain intervals of naturals.
 */
module Items {
  import opened Base

  const ID_SIZE: nat := 32

  /** An entry id: 32 octets. */
  type Id = s: seq<byte> | |s| == 32 witness seq(32, _ => 0)

  datatype Item = Item(sortKey: u64, id: Id)

  /** Bytewise lexicographic comparison of equally long octet strings. */
  predicate LexLess(a: seq<nat>, b: seq<nat>)
    requires |a| == |b|
  {
    |a| > 0 && (a[0] < b[0] || (a[0] == b[0] && LexLess(a[1..], b[1..])))
  }

  /** The derived `Ord` of `Item`: sort key first, id second. */
  predicate ItemLess(x: Item, y: Item) {
    x.sortKey < y.sortKey || (x.sortKey == y.sortKey && LexLess(x.id, y.id))
  }

  /** Big-endian base-256 value; the first digit may be any natural. */
  function BigEndian(digits: seq<nat>): nat {
    if digits == [] then 0 else BigEndian(digits[..|digits| - 1]) * 256 + digits[|digits| - 1]
  }

  /** The position of an item in the total order. */
  function Key(x: Item): nat {
    BigEndian([x.sortKey] + x.id)
  }

  /** Digits that compare lexicographically as they do numerically. */
  ghost predicate Digits(s: seq<nat>) {
    forall i :: 1 <= i < |s| ==> s[i] < 256
  }

  lemma {:induction false} LexLessSnoc(a: seq<nat>, b: seq<nat>, x: nat, y: nat)
    requires |a| == |b|
    ensures LexLess(a + [x], b + [y]) <==> LexLess(a, b) || (a == b && x < y)
  {
    var ax, bz := a + [x], b + [y];
    if a == [] {
      assert ax[1..] == [] && bz[1..] == [];
    } else {
      assert ax[1..] == a[1..] + [x] && bz[1..] == b[1..] + [y];
      assert a == [a[0]] + a[1..] && b == [b[0]] + b[1..];
      LexLessSnoc(a[1..], b[1..], x, y);
    }
  }

  /** Numeric and lexicographic order agree, and the value fixes the digits. */
  lemma {:induction false} BigEndianOrder(a: seq<nat>, b: seq<nat>)
    requires |a| == |b| && Digits(a) && Digits(b)
    ensures BigEndian(a) < BigEndian(b) <==> LexLess(a, b)
    ensures BigEndian(a) == BigEndian(b) <==> a == b
  {
    if a != [] {
      var n := |a| - 1;
      var a', b' := a[..n], b[..n];
      assert a == a' + [a[n]] && b == b' + [b[n]];
      BigEndianOrder(a', b');
      LexLessSnoc(a', b', a[n], b[n]);
      if n == 0 {
        assert a' == [] && b' == [];
      }
    }
  }

  /** The source's item order is exactly the order of positions. */
  lemma KeyOrder(x: Item, y: Item)
    ensures ItemLess(x, y) <==> Key(x) < Key(y)
    ensures Key(x) == Key(y) <==> x == y
  {
    var a: seq<nat>, b: seq<nat> := [x.sortKey] + x.id, [y.sortKey] + y.id;
    assert a[1..] == x.id && b[1..] == y.id;
    assert a == b <==> x == y by {
      if a == b { assert a[0] == b[0]; }
    }
    BigEndianOrder(a, b);
  }

  /** A sealed set: strictly ascending, hence duplicate-free. */
  ghost predicate Sorted(s: seq<Item>) {
    forall i, j :: 0 <= i < j < |s| ==> Key(s[i]) < Key(s[j])
  }

  function IdsOf(s: seq<Item>): (ids: seq<Id>)
    ensures |ids| == |s|
    ensures forall i :: 0 <= i < |s| ==> ids[i] == s[i].id
  {
    seq(|s|, i requires 0 <= i < |s| => s[i].id)
  }
}
