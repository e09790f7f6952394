/**
  What a message says, independently of how it was produced: its ranges tile an
  initial interval of positions, each range is active or skipped, and a range is
  honest when its payload describes the sender's items at those positions.
 */
module Geometry {
  import opened Items
  import opened Bounds
  import opened Ranges
  import opened IdSums
  import opened Reconcile

  /** How many items lie before a position. */
  function Rank(s: seq<Item>, pos: nat): (r: nat)
    ensures r <= |s|
    ensures forall i :: 0 <= i < r ==> Key(s[i]) < pos
    ensures r < |s| ==> pos <= Key(s[r])
  {
    LowerBoundAt(s, 0, |s|, pos)
  }

  lemma RankUnique(s: seq<Item>, pos: nat, r: nat)
    requires Sorted(s) && r <= |s|
    requires r > 0 ==> Key(s[r - 1]) < pos
    requires r < |s| ==> pos <= Key(s[r])
    ensures Rank(s, pos) == r
  {
    hide Pos, Key;
  }

  lemma RankMonotone(s: seq<Item>, lo: nat, hi: nat)
    requires Sorted(s) && lo <= hi
    ensures Rank(s, lo) <= Rank(s, hi)
  {
    hide Pos, Key;
  }

  /** Searching from an earlier rank finds the same place. */
  lemma LowerBoundIsRank(s: seq<Item>, lo: nat, b: Bound)
    requires Sorted(s) && lo <= Pos(b)
    ensures Rank(s, lo) <= Rank(s, Pos(b))
    ensures LowerBound(s, Rank(s, lo), |s|, b) == Rank(s, Pos(b))
  {
    hide Pos, Key;
    RankMonotone(s, lo, Pos(b));
    var r := LowerBound(s, Rank(s, lo), |s|, b);
    RankUnique(s, Pos(b), r);
  }

  /** The items at positions `lo <= k < hi`. */
  function Slice(s: seq<Item>, lo: nat, hi: nat): seq<Item>
    requires Sorted(s) && lo <= hi
  {
    RankMonotone(s, lo, hi);
    s[Rank(s, lo)..Rank(s, hi)]
  }

  lemma SliceMembers(s: seq<Item>, lo: nat, hi: nat, x: Item)
    requires Sorted(s) && lo <= hi
    ensures x in Slice(s, lo, hi) <==> x in s && lo <= Key(x) < hi
  {
    hide Pos, Key;
    RankMonotone(s, lo, hi);
    if x in s && lo <= Key(x) < hi {
      var i :| 0 <= i < |s| && s[i] == x;
      assert Slice(s, lo, hi)[i - Rank(s, lo)] == x;
    }
  }

  /** A sorted sequence is determined by its members. */
  lemma {:induction false} SameOrder(s: seq<Item>, t: seq<Item>)
    requires Sorted(s) && Sorted(t) && forall x :: x in s <==> x in t
    ensures s == t
  {
    hide Key;
    if s == [] {
      if t != [] {
        SomethingIn(t);
      }
    } else {
      assert s[|s| - 1] in t;
      var x, y := s[|s| - 1], t[|t| - 1];
      assert y in s;
      LastIsMost(s, y);
      LastIsMost(t, x);
      KeyOrder(x, y);
      var s', t' := s[..|s| - 1], t[..|t| - 1];
      forall z ensures z in s' <==> z in t' {
        WithoutLast(s, z);
        WithoutLast(t, z);
      }
      SameOrder(s', t');
    }
  }

  lemma SomethingIn<T>(t: seq<T>)
    requires t != []
    ensures exists x :: x in t
  {
    assert t[0] in t;
  }

  lemma LastIsMost(s: seq<Item>, x: Item)
    requires Sorted(s) && x in s
    ensures Key(x) <= Key(s[|s| - 1])
  {
    hide Key;
  }

  lemma WithoutLast(s: seq<Item>, z: Item)
    requires Sorted(s) && s != []
    ensures z in s[..|s| - 1] <==> z in s && z != s[|s| - 1]
  {
    hide Key;
    assert s == s[..|s| - 1] + [s[|s| - 1]];
  }

  /** Where range `i` begins, when the first one begins at `lo`. */
  function LoFrom(lo: nat, rs: seq<Range>, i: nat): nat
    requires i <= |rs|
  {
    if i == 0 then lo else Pos(rs[i - 1].bound)
  }

  function End(lo: nat, rs: seq<Range>): nat {
    LoFrom(lo, rs, |rs|)
  }

  ghost predicate Ordered(lo: nat, rs: seq<Range>) {
    forall i :: 0 <= i < |rs| ==> LoFrom(lo, rs, i) <= Pos(rs[i].bound)
  }

  /** Position `k` falls in a range that is still being worked on. */
  ghost predicate Active(lo: nat, rs: seq<Range>, k: nat) {
    exists i :: 0 <= i < |rs| && !rs[i].payload.Skip? && LoFrom(lo, rs, i) <= k < Pos(rs[i].bound)
  }

  /** The id lists of the message are the sender's. */
  ghost predicate HonestIds(s: seq<Item>, lo: nat, rs: seq<Range>)
    requires Sorted(s)
  {
    && Ordered(lo, rs)
    && forall i :: 0 <= i < |rs| && rs[i].payload.IdList? ==>
                     rs[i].payload.ids == IdsOf(Slice(s, LoFrom(lo, rs, i), Pos(rs[i].bound)))
  }

  /** Its fingerprints are, too. */
  ghost predicate HonestFps(hash: Hash, s: seq<Item>, lo: nat, rs: seq<Range>)
    requires Sorted(s) && Ordered(lo, rs)
  {
    forall i :: 0 <= i < |rs| && rs[i].payload.Fingerprint? ==>
                  rs[i].payload.fp == FingerprintOf(hash, Slice(s, LoFrom(lo, rs, i), Pos(rs[i].bound)))
  }

  ghost predicate Honest(hash: Hash, s: seq<Item>, lo: nat, rs: seq<Range>)
    requires Sorted(s)
  {
    HonestIds(s, lo, rs) && HonestFps(hash, s, lo, rs)
  }

  lemma {:induction false} OrderedMonotone(lo: nat, rs: seq<Range>, i: nat, j: nat)
    requires Ordered(lo, rs) && i <= j <= |rs|
    ensures LoFrom(lo, rs, i) <= LoFrom(lo, rs, j)
    decreases j - i
  {
    hide Pos, Key;
    if i < j {
      OrderedMonotone(lo, rs, i, j - 1);
    }
  }

  /** Inside range `i` only range `i` decides. */
  lemma ActiveInside(lo: nat, rs: seq<Range>, i: nat, k: nat)
    requires Ordered(lo, rs) && i < |rs| && LoFrom(lo, rs, i) <= k < Pos(rs[i].bound)
    ensures Active(lo, rs, k) <==> !rs[i].payload.Skip?
  {
    hide Pos, Key;
    forall j | 0 <= j < |rs| && LoFrom(lo, rs, j) <= k < Pos(rs[j].bound) ensures j == i {
      if j < i {
        OrderedMonotone(lo, rs, j + 1, i);
      } else if i < j {
        OrderedMonotone(lo, rs, i + 1, j);
      }
    }
  }

  lemma ActiveBelowEnd(lo: nat, rs: seq<Range>, k: nat)
    requires Ordered(lo, rs) && Active(lo, rs, k)
    ensures lo <= k < End(lo, rs)
  {
    hide Pos, Key;
    var i :| 0 <= i < |rs| && !rs[i].payload.Skip? && LoFrom(lo, rs, i) <= k < Pos(rs[i].bound);
    OrderedMonotone(lo, rs, i + 1, |rs|);
    OrderedMonotone(lo, rs, 0, i);
  }

  lemma ConcatLo(lo: nat, a: seq<Range>, b: seq<Range>)
    ensures forall i :: 0 <= i <= |a| ==> LoFrom(lo, a + b, i) == LoFrom(lo, a, i)
    ensures forall i :: 0 <= i <= |b| ==> LoFrom(lo, a + b, |a| + i) == LoFrom(End(lo, a), b, i)
    ensures End(lo, a + b) == End(End(lo, a), b)
  {
    hide Pos, Key;
  }

  lemma OrderedConcat(lo: nat, a: seq<Range>, b: seq<Range>)
    requires Ordered(lo, a) && Ordered(End(lo, a), b)
    ensures Ordered(lo, a + b)
  {
    hide Pos, Key;
    ConcatLo(lo, a, b);
    forall i | 0 <= i < |a + b| ensures LoFrom(lo, a + b, i) <= Pos((a + b)[i].bound) {
      if i >= |a| {
        assert LoFrom(End(lo, a), b, i - |a|) <= Pos(b[i - |a|].bound);
      }
    }
  }

  lemma ActiveConcat(lo: nat, a: seq<Range>, b: seq<Range>, k: nat)
    ensures Active(lo, a + b, k) <==> Active(lo, a, k) || Active(End(lo, a), b, k)
  {
    hide Pos, Key;
    ConcatLo(lo, a, b);
    if Active(lo, a, k) {
      var i :| 0 <= i < |a| && !a[i].payload.Skip? && LoFrom(lo, a, i) <= k < Pos(a[i].bound);
      assert (a + b)[i] == a[i] && LoFrom(lo, a + b, i) <= k;
    }
    if Active(End(lo, a), b, k) {
      var i :| 0 <= i < |b| && !b[i].payload.Skip? && LoFrom(End(lo, a), b, i) <= k < Pos(b[i].bound);
      assert (a + b)[|a| + i] == b[i] && LoFrom(lo, a + b, |a| + i) <= k;
    }
    if Active(lo, a + b, k) {
      var i :| 0 <= i < |a + b| && !(a + b)[i].payload.Skip? && LoFrom(lo, a + b, i) <= k < Pos((a + b)[i].bound);
      if i < |a| {
        assert LoFrom(lo, a, i) <= k;
      } else {
        assert LoFrom(End(lo, a), b, i - |a|) <= k < Pos(b[i - |a|].bound);
      }
    }
  }

  lemma HonestIdsConcat(s: seq<Item>, lo: nat, a: seq<Range>, b: seq<Range>)
    requires Sorted(s) && HonestIds(s, lo, a) && HonestIds(s, End(lo, a), b)
    ensures HonestIds(s, lo, a + b)
  {
    hide Pos, Key;
    ConcatLo(lo, a, b);
    OrderedConcat(lo, a, b);
    var c := a + b;
    forall i | 0 <= i < |c| && c[i].payload.IdList?
      ensures c[i].payload.ids == IdsOf(Slice(s, LoFrom(lo, c, i), Pos(c[i].bound)))
    {
      if i >= |a| {
        assert b[i - |a|] == c[i];
      }
    }
  }

  lemma HonestConcat(hash: Hash, s: seq<Item>, lo: nat, a: seq<Range>, b: seq<Range>)
    requires Sorted(s) && Honest(hash, s, lo, a) && Honest(hash, s, End(lo, a), b)
    ensures Honest(hash, s, lo, a + b)
  {
    hide Pos, Key;
    ConcatLo(lo, a, b);
    HonestIdsConcat(s, lo, a, b);
    var c := a + b;
    forall i | 0 <= i < |c| && c[i].payload.Fingerprint?
      ensures c[i].payload.fp == FingerprintOf(hash, Slice(s, LoFrom(lo, c, i), Pos(c[i].bound)))
    {
      if i >= |a| {
        assert b[i - |a|] == c[i];
      }
    }
  }

  /** A run of unskipped ranges covers its interval without gaps. */
  lemma {:induction false} Covers(lo: nat, rs: seq<Range>, k: nat)
    requires Ordered(lo, rs) && forall i :: 0 <= i < |rs| ==> !rs[i].payload.Skip?
    requires lo <= k < End(lo, rs)
    ensures Active(lo, rs, k)
  {
    hide Pos, Key;
    var n := |rs| - 1;
    if k >= LoFrom(lo, rs, n) {
      assert LoFrom(lo, rs, n) <= k < Pos(rs[n].bound);
    } else {
      var front := rs[..n];
      assert forall i :: 0 <= i <= n ==> LoFrom(lo, front, i) == LoFrom(lo, rs, i);
      assert Ordered(lo, front) by {
        forall i | 0 <= i < n ensures LoFrom(lo, front, i) <= Pos(front[i].bound) {
          assert LoFrom(lo, rs, i) <= Pos(rs[i].bound);
        }
      }
      Covers(lo, front, k);
      assert rs == front + rs[n..];
      ActiveConcat(lo, front, rs[n..], k);
    }
  }

  /** The bound of bucket `i` sits exactly between the buckets. */
  lemma BucketBound(p: Party, lower: nat, upper: nat, ub: Bound, i: nat)
    requires Sorted(p.items) && lower + ID_LIST_THRESHOLD <= upper <= |p.items| && i < BUCKETS
    requires upper == Rank(p.items, Pos(ub))
    ensures var to := Edge(lower, upper - lower, i + 1);
            lower < to <= upper
            && Rank(p.items, Pos(Bucket(p, lower, upper, ub, i).bound)) == to
            && (to == upper <==> i == BUCKETS - 1)
            && (to == upper ==> Bucket(p, lower, upper, ub, i).bound == ub)
  {
    hide Pos, Key, Edge, FingerprintOf, MinSeparating;
    var n := upper - lower;
    var to := Edge(lower, n, i + 1);
    EdgeMonotone(lower, n, 0, i + 1);
    EdgeMonotone(lower, n, i + 1, BUCKETS);
    EdgeSteps(lower, n, 0);
    if to < upper {
      KeyOrder(p.items[to - 1], p.items[to]);
      MinSeparatingSeparates(p.items[to - 1], p.items[to]);
      RankUnique(p.items, Pos(MinSeparating(p.items[to - 1], p.items[to])), to);
    }
  }

  /** Positions with different ranks are ordered as their ranks are. */
  lemma RankOrders(s: seq<Item>, lo: nat, hi: nat)
    requires Sorted(s) && Rank(s, lo) < Rank(s, hi)
    ensures lo < hi
  {
    hide Key;
    if hi <= lo {
      RankMonotone(s, hi, lo);
    }
  }

  /** Bucket `i` runs from one edge to the next, in ranks. */
  lemma BucketRanks(p: Party, lower: nat, upper: nat, ub: Bound, lo: nat, i: nat)
    requires Sorted(p.items) && lower + ID_LIST_THRESHOLD <= upper <= |p.items| && i < BUCKETS
    requires lower == Rank(p.items, lo) && upper == Rank(p.items, Pos(ub))
    ensures var rs, n := SplitRange(p, lower, upper, ub), upper - lower;
            && rs[i] == Bucket(p, lower, upper, ub, i)
            && Rank(p.items, LoFrom(lo, rs, i)) == Edge(lower, n, i)
            && Rank(p.items, Pos(rs[i].bound)) == Edge(lower, n, i + 1)
            && Edge(lower, n, i) < Edge(lower, n, i + 1) <= upper
            && Edge(lower, n, i + 1) - Edge(lower, n, i) <= (n + 15) / 16
            && LoFrom(lo, rs, i) < Pos(rs[i].bound)
  {
    hide Pos, Key, Edge, Bucket, LowerBoundAt;
    var rs, n := SplitRange(p, lower, upper, ub), upper - lower;
    BucketBound(p, lower, upper, ub, i);
    EdgeSteps(lower, n, i);
    EdgeMonotone(lower, n, i, i + 1);
    if i > 0 {
      BucketBound(p, lower, upper, ub, i - 1);
    }
    RankOrders(p.items, LoFrom(lo, rs, i), Pos(rs[i].bound));
  }

  lemma BucketCell(p: Party, lower: nat, upper: nat, ub: Bound, lo: nat, i: nat)
    requires Sorted(p.items) && lower + ID_LIST_THRESHOLD <= upper <= |p.items| && i < BUCKETS
    requires lower == Rank(p.items, lo) && upper == Rank(p.items, Pos(ub))
    ensures var rs := SplitRange(p, lower, upper, ub);
            && LoFrom(lo, rs, i) <= Pos(rs[i].bound)
            && rs[i].payload == Fingerprint(FingerprintOf(p.hash, Slice(p.items, LoFrom(lo, rs, i), Pos(rs[i].bound))))
  {
    hide Pos, Key, Edge, FingerprintOf, MinSeparating, Rank, SplitRange, LoFrom;
    BucketRanks(p, lower, upper, ub, lo, i);
  }

  lemma SplitSmall(p: Party, lower: nat, upper: nat, ub: Bound, lo: nat)
    requires Sorted(p.items) && lower <= upper <= |p.items| && upper - lower < ID_LIST_THRESHOLD
    requires lower == Rank(p.items, lo) && upper == Rank(p.items, Pos(ub)) && lo <= Pos(ub)
    ensures var rs := SplitRange(p, lower, upper, ub);
            Honest(p.hash, p.items, lo, rs) && End(lo, rs) == Pos(ub) && rs[0].payload.IdList?
  {
    hide Pos, Key, LowerBoundAt;
  }

  lemma SplitLast(p: Party, lower: nat, upper: nat, ub: Bound)
    requires Sorted(p.items) && lower + ID_LIST_THRESHOLD <= upper <= |p.items|
    requires upper == Rank(p.items, Pos(ub))
    ensures SplitRange(p, lower, upper, ub)[BUCKETS - 1].bound == ub
  {
    hide Pos, Key, Rank, Bucket, Edge;
    BucketBound(p, lower, upper, ub, BUCKETS - 1);
  }

  lemma SplitLarge(p: Party, lower: nat, upper: nat, ub: Bound, lo: nat)
    requires Sorted(p.items) && lower + ID_LIST_THRESHOLD <= upper <= |p.items|
    requires lower == Rank(p.items, lo) && upper == Rank(p.items, Pos(ub))
    ensures var rs := SplitRange(p, lower, upper, ub);
            && Honest(p.hash, p.items, lo, rs)
            && End(lo, rs) == Pos(ub)
            && forall i :: 0 <= i < |rs| ==> rs[i].payload.Fingerprint?
  {
    hide Pos, Key, SplitRange, Rank, Slice, FingerprintOf;
    var rs := SplitRange(p, lower, upper, ub);
    SplitLast(p, lower, upper, ub);
    forall i | 0 <= i < |rs|
      ensures LoFrom(lo, rs, i) <= Pos(rs[i].bound)
      ensures rs[i].payload == Fingerprint(FingerprintOf(p.hash, Slice(p.items, LoFrom(lo, rs, i), Pos(rs[i].bound))))
    {
      BucketCell(p, lower, upper, ub, lo, i);
    }
  }

  /** Splitting a range describes exactly that range. */
  lemma SplitHonest(p: Party, lower: nat, upper: nat, ub: Bound, lo: nat)
    requires Sorted(p.items) && lower <= upper <= |p.items|
    requires lower == Rank(p.items, lo) && upper == Rank(p.items, Pos(ub)) && lo <= Pos(ub)
    ensures var rs := SplitRange(p, lower, upper, ub);
            && Honest(p.hash, p.items, lo, rs)
            && End(lo, rs) == Pos(ub)
            && forall k: nat :: Active(lo, rs, k) <==> lo <= k < Pos(ub)
  {
    hide Pos, Key, SplitRange, Rank;
    if upper - lower < ID_LIST_THRESHOLD {
      SplitSmall(p, lower, upper, ub, lo);
    } else {
      SplitLarge(p, lower, upper, ub, lo);
    }
    var rs := SplitRange(p, lower, upper, ub);
    forall k: nat ensures Active(lo, rs, k) <==> lo <= k < Pos(ub) {
      if lo <= k < Pos(ub) {
        Covers(lo, rs, k);
      }
      if Active(lo, rs, k) {
        ActiveBelowEnd(lo, rs, k);
      }
    }
  }
}
