/**
  What an entry store holds (core/src/store/mod.rs), as a value: the entries by
  id and the reconciliation order over them.
 */
module Vaults {
  import opened Base
  import opened Items
  import opened Bounds
  import opened Geometry
  import opened BalancedTrees
  import opened Entries
  import opened Journals

  datatype Vault = Vault(entries: map<Id, Entry>, order: seq<Item>)

  /** The reconciliation item of an entry. */
  function ItemOf(c: Crypto, e: Entry): Item {
    Item(e.sortKey, IdOf(c, e))
  }

  /** The item the vault keeps for an id it holds. */
  function ItemAt(v: Vault, id: Id): Item
    requires id in v.entries
  {
    Item(v.entries[id].sortKey, id)
  }

  /** Entries are verified and filed under their own id, and the order lists exactly them. */
  ghost predicate Sound(c: Crypto, v: Vault) {
    && Sorted(v.order)
    && |v.order| == |v.entries|
    && (forall id :: id in v.entries ==> Filed(c, v, id))
    && (forall x :: x in v.order <==> x.id in v.entries && x == ItemAt(v, x.id))
  }

  ghost predicate Filed(c: Crypto, v: Vault, id: Id)
    requires id in v.entries
  {
    var e := v.entries[id];
    IdOf(c, e) == id && c.verifies(e) && e.sortKey < U64_MAX
  }

  /** `EntryStore::insert` on an in-memory store. */
  function Insert(c: Crypto, v: Vault, e: Entry): Result<(Vault, bool), StoreError> {
    if e.sortKey == U64_MAX then Err(SortKeyReserved)
    else if !c.verifies(e) then Err(BadSignature)
    else if IdOf(c, e) in v.entries then Ok((v, false))
    else Ok((Vault(v.entries[IdOf(c, e) := e], Inserted(v.order, ItemOf(c, e))), true))
  }

  const EMPTY: Vault := Vault(map[], [])

  /** Insertion keeps the store sound, never drops an entry, and adds only `e`. */
  lemma InsertSound(c: Crypto, v: Vault, e: Entry)
    requires Sound(c, v) && Insert(c, v, e).Ok?
    ensures var (v', added) := Insert(c, v, e).value;
            && Sound(c, v')
            && IdOf(c, e) in v'.entries
            && v'.entries.Keys == v.entries.Keys + {IdOf(c, e)}
            && (forall id :: id in v.entries ==> v'.entries[id] == v.entries[id])
            && (added <==> IdOf(c, e) !in v.entries)
            && (added ==> v'.entries[IdOf(c, e)] == e)
  {
    hide Inserted, IdOf, Key;
    if IdOf(c, e) !in v.entries {
      var x := ItemOf(c, e);
      InsertedMembers(v.order, x);
      InsertedSorted(v.order, x);
      var v' := Insert(c, v, e).value.0;
      assert forall y :: y in v'.order <==> y in v.order || y == x;
      assert v'.entries.Keys == v.entries.Keys + {x.id};
    }
  }

  /** The position where sort keys from `ts` on begin. */
  function From(ts: u64): Item {
    Item(ts, seq(32, _ => 0))
  }

  lemma {:induction false} NothingBelowZero(a: seq<nat>, z: seq<nat>)
    requires |a| == |z| && forall i :: 0 <= i < |z| ==> z[i] == 0
    ensures !LexLess(a, z)
  {
    if a != [] {
      NothingBelowZero(a[1..], z[1..]);
    }
  }

  lemma FromSplits(ts: u64, x: Item)
    ensures Key(From(ts)) <= Key(x) <==> ts <= x.sortKey
  {
    hide Key;
    KeyOrder(x, From(ts));
    NothingBelowZero(x.id, From(ts).id);
  }

  /** `EntryStore::snapshot`: the items with `since <= sort key < until`. */
  function Window(order: seq<Item>, since: u64, until: u64): seq<Item> {
    var lo, hi := Rank(order, Key(From(since))), Rank(order, Key(From(until)));
    order[lo..if hi < lo then lo else hi]
  }

  /** The snapshot is sorted and holds exactly the items of the window, even an inverted one. */
  lemma WindowExact(order: seq<Item>, since: u64, until: u64)
    requires Sorted(order)
    ensures Sorted(Window(order, since, until))
    ensures forall x :: x in Window(order, since, until) <==> x in order && since <= x.sortKey < until
  {
    hide Key, Rank;
    var w := Window(order, since, until);
    var lo, hi := Rank(order, Key(From(since))), Rank(order, Key(From(until)));
    forall x ensures x in w <==> x in order && since <= x.sortKey < until {
      FromSplits(since, x);
      FromSplits(until, x);
      if x in order && since <= x.sortKey < until {
        var i :| 0 <= i < |order| && order[i] == x;
        assert lo <= i < hi;
        assert w[i - lo] == x;
      }
    }
  }

  /** The window that takes everything an entry store can hold. */
  lemma FullWindow(c: Crypto, v: Vault)
    requires Sound(c, v)
    ensures Window(v.order, 0, U64_MAX) == v.order
  {
    hide Key, Rank, IdOf;
    var n := |v.order|;
    if n > 0 {
      assert v.order[0] in v.order && v.order[n - 1] in v.order;
      assert Filed(c, v, v.order[n - 1].id);
      FromSplits(0, v.order[0]);
      FromSplits(U64_MAX, v.order[n - 1]);
    }
    RankUnique(v.order, Key(From(0)), 0);
    RankUnique(v.order, Key(From(U64_MAX)), n);
  }
}
