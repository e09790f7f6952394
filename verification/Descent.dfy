/**
  Why an unlimited session ends (core/src/sync/negentropy/mod.rs): every reply is
  closer to being settled than the range it answers, and sixteen-way splitting
  makes the distance logarithmic in the size of the sets.
 */
module Descent {
  import opened Base
  import opened Items
  import opened Bounds
  import opened Ranges
  import opened IdSums
  import opened Reconcile
  import opened Geometry
  import opened Exactness

  /** How often `n` items can be split sixteen ways before an id list results. */
  function Depth(n: nat): nat {
    if n < ID_LIST_THRESHOLD then 0 else 1 + Depth((n + 15) / 16)
  }

  lemma {:induction false} DepthMonotone(m: nat, n: nat)
    requires m <= n
    ensures Depth(m) <= Depth(n)
    decreases n
  {
    if m >= ID_LIST_THRESHOLD {
      DepthMonotone((m + 15) / 16, (n + 15) / 16);
    }
  }

  /** Sixteen to the depth stays within a constant of the size: the depth is logarithmic. */
  lemma {:induction false} DepthLogarithmic(n: nat)
    requires n > 0
    ensures Pow16(Depth(n)) <= n
  {
    if n >= ID_LIST_THRESHOLD {
      var m := (n + 15) / 16;
      DepthLogarithmic(m);
      DepthStep(m);
    }
  }

  function Pow16(k: nat): nat {
    if k == 0 then 1 else 16 * Pow16(k - 1)
  }

  /** A count that still splits leaves room for the rounding up. */
  lemma {:induction false} DepthStep(m: nat)
    requires m >= 2
    ensures 16 * Pow16(Depth(m)) <= 16 * (m - 1)
  {
    if m >= ID_LIST_THRESHOLD {
      DepthStep((m + 15) / 16);
    }
  }

  /** How far a range is from being settled; `toInitiator` says who hears it. */
  function RangeRank(s: seq<Item>, t: seq<Item>, toInitiator: bool, lo: nat, r: Range): nat
    requires Sorted(s) && Sorted(t) && lo <= Pos(r.bound)
  {
    match r.payload
    case Skip => 0
    case IdList(_) => if toInitiator then 1 else 2
    case Fingerprint(_) => 3 + Depth(|Slice(s, lo, Pos(r.bound))|) + Depth(|Slice(t, lo, Pos(r.bound))|)
  }

  ghost predicate RankAtMost(s: seq<Item>, t: seq<Item>, toInitiator: bool, lo: nat, rs: seq<Range>, d: nat)
    requires Sorted(s) && Sorted(t) && Ordered(lo, rs)
  {
    forall i :: 0 <= i < |rs| ==> RangeRank(s, t, toInitiator, LoFrom(lo, rs, i), rs[i]) <= d
  }

  lemma RankConcat(s: seq<Item>, t: seq<Item>, toInitiator: bool, lo: nat, a: seq<Range>, b: seq<Range>, d: nat)
    requires Sorted(s) && Sorted(t) && Ordered(lo, a) && Ordered(End(lo, a), b) && Ordered(lo, a + b)
    requires RankAtMost(s, t, toInitiator, lo, a, d) && RankAtMost(s, t, toInitiator, End(lo, a), b, d)
    ensures RankAtMost(s, t, toInitiator, lo, a + b, d)
  {
    hide Pos, RangeRank;
    ConcatLo(lo, a, b);
    var c := a + b;
    forall i | 0 <= i < |c| ensures RangeRank(s, t, toInitiator, LoFrom(lo, c, i), c[i]) <= d {
      if i >= |a| {
        assert b[i - |a|] == c[i];
      }
    }
  }

  lemma SliceShrinks(s: seq<Item>, lo: nat, lo': nat, hi': nat, hi: nat)
    requires Sorted(s) && lo <= lo' <= hi' <= hi
    ensures |Slice(s, lo', hi')| <= |Slice(s, lo, hi)|
  {
    hide Key, Rank;
    RankMonotone(s, lo, lo');
    RankMonotone(s, lo', hi');
    RankMonotone(s, hi', hi);
  }

  lemma DepthSplit(n: nat, m: nat)
    requires n >= ID_LIST_THRESHOLD && m <= (n + 15) / 16
    ensures Depth(m) < Depth(n)
  {
    DepthMonotone(m, (n + 15) / 16);
  }

  /** A bucket holds at most a sixteenth of the splitter's items, rounded up. */
  lemma BucketRank(p: Party, peer: seq<Item>, lo: nat, ub: Bound, i: nat, toInitiator: bool)
    requires Sorted(p.items) && Sorted(peer) && lo <= Pos(ub)
    requires Rank(p.items, lo) + ID_LIST_THRESHOLD <= Rank(p.items, Pos(ub)) && i < BUCKETS
    ensures var rs := SplitRange(p, Rank(p.items, lo), Rank(p.items, Pos(ub)), ub);
            && LoFrom(lo, rs, i) <= Pos(rs[i].bound)
            && RangeRank(p.items, peer, toInitiator, LoFrom(lo, rs, i), rs[i])
               < 3 + Depth(|Slice(p.items, lo, Pos(ub))|) + Depth(|Slice(peer, lo, Pos(ub))|)
  {
    hide Pos, Key, SplitRange, LowerBoundAt, FingerprintOf, Edge, Depth, Bucket, MinSeparating;
    var lower, upper := Rank(p.items, lo), Rank(p.items, Pos(ub));
    var rs := SplitRange(p, lower, upper, ub);
    BucketRanks(p, lower, upper, ub, lo, i);
    BucketInside(p, lo, ub, i);
    var from, to := LoFrom(lo, rs, i), Pos(rs[i].bound);
    SliceShrinks(peer, lo, from, to, Pos(ub));
    DepthMonotone(|Slice(peer, from, to)|, |Slice(peer, lo, Pos(ub))|);
    DepthSplit(upper - lower, |Slice(p.items, from, to)|);
  }

  lemma BucketInside(p: Party, lo: nat, ub: Bound, i: nat)
    requires Sorted(p.items) && lo <= Pos(ub)
    requires Rank(p.items, lo) + ID_LIST_THRESHOLD <= Rank(p.items, Pos(ub)) && i < BUCKETS
    ensures var rs := SplitRange(p, Rank(p.items, lo), Rank(p.items, Pos(ub)), ub);
            && lo <= LoFrom(lo, rs, i) <= Pos(rs[i].bound) <= Pos(ub)
            && rs[i].payload.Fingerprint?
  {
    hide Pos, Key, SplitRange, Rank, HonestFps, HonestIds;
    var rs := SplitRange(p, Rank(p.items, lo), Rank(p.items, Pos(ub)), ub);
    SplitLarge(p, Rank(p.items, lo), Rank(p.items, Pos(ub)), ub, lo);
    assert Ordered(lo, rs) by {
      assert HonestIds(p.items, lo, rs);
      OrderedOfHonest(p.items, lo, rs);
    }
    OrderedMonotone(lo, rs, 0, i);
    OrderedMonotone(lo, rs, i, i + 1);
    OrderedMonotone(lo, rs, i + 1, |rs|);
  }

  lemma OrderedOfHonest(s: seq<Item>, lo: nat, rs: seq<Range>)
    requires Sorted(s) && HonestIds(s, lo, rs)
    ensures Ordered(lo, rs)
  {
  }

  /** Splitting a range, in either form, brings every part closer to settled. */
  lemma SplitRank(p: Party, peer: seq<Item>, lo: nat, ub: Bound, toInitiator: bool)
    requires Sorted(p.items) && Sorted(peer) && lo <= Pos(ub)
    requires Rank(p.items, lo) <= Rank(p.items, Pos(ub))
    ensures var rs := SplitRange(p, Rank(p.items, lo), Rank(p.items, Pos(ub)), ub);
            && Ordered(lo, rs)
            && RankAtMost(p.items, peer, toInitiator, lo, rs,
                          2 + Depth(|Slice(p.items, lo, Pos(ub))|) + Depth(|Slice(peer, lo, Pos(ub))|))
  {
    hide Pos, Key, LowerBoundAt, FingerprintOf, Slice, Depth, Bucket;
    var lower, upper := Rank(p.items, lo), Rank(p.items, Pos(ub));
    SplitHonest(p, lower, upper, ub, lo);
    var rs := SplitRange(p, lower, upper, ub);
    if upper - lower < ID_LIST_THRESHOLD {
      assert rs[0].payload.IdList?;
    } else {
      forall i | 0 <= i < |rs|
        ensures RangeRank(p.items, peer, toInitiator, LoFrom(lo, rs, i), rs[i])
                <= 2 + Depth(|Slice(p.items, lo, Pos(ub))|) + Depth(|Slice(peer, lo, Pos(ub))|)
      {
        BucketRank(p, peer, lo, ub, i, toInitiator);
      }
    }
  }

  lemma ReplyRank(p: Party, peer: seq<Item>, st: State, r: Range, d: nat)
    requires Ready(p) && Sorted(peer) && Placed(p, st) && Pos(st.bound) <= Pos(r.bound)
    requires Replies(p, st, r)
    requires RangeRank(p.items, peer, p.initiator, Pos(st.bound), r) <= d
    ensures d > 0 && Ordered(Pos(st.bound), Reply(p, st, r))
    ensures RankAtMost(p.items, peer, !p.initiator, Pos(st.bound), Reply(p, st, r), d - 1)
  {
    hide Pos, Key, FingerprintOf, Slice, Depth, SplitRange, Rank;
    var lo, o := Pos(st.bound), Reply(p, st, r);
    RankMonotone(p.items, lo, Pos(r.bound));
    if r.payload.IdList? {
      assert LoFrom(lo, o, 0) == lo;
    } else {
      SplitRank(p, peer, lo, r.bound, !p.initiator);
    }
  }

  lemma StepReplyRank(p: Party, peer: seq<Item>, st: State, r: Range, d: nat)
    requires Ready(p) && Sorted(peer) && Placed(p, st) && Pos(st.bound) <= Pos(r.bound) && Replies(p, st, r)
    requires RangeRank(p.items, peer, p.initiator, Pos(st.bound), r) <= d + 1
    requires RankAtMost(p.items, peer, !p.initiator, 0, st.out, d)
    ensures var out := st.out + (Flush(st) + Reply(p, st, r));
            Ordered(0, out) && RankAtMost(p.items, peer, !p.initiator, 0, out, d)
  {
    hide Pos, Key, FingerprintOf, Slice, Reply, Rank, RankAtMost, RangeRank, Flush, Ordered, Replies;
    FlushPlaces(p, st);
    FlushRank(p, peer, st, d);
    ReplyRank(p, peer, st, r, d + 1);
    var front, o := st.out + Flush(st), Reply(p, st, r);
    assert st.out + (Flush(st) + o) == front + o;
    OrderedConcat(0, front, o);
    RankConcat(p.items, peer, !p.initiator, 0, front, o, d);
  }

  lemma StepRank(p: Party, peer: seq<Item>, st: State, r: Range, d: nat)
    requires Ready(p) && p.limit.None? && Sorted(peer) && Placed(p, st) && Pos(st.bound) <= Pos(r.bound)
    requires RangeRank(p.items, peer, p.initiator, Pos(st.bound), r) <= d
    requires RankAtMost(p.items, peer, !p.initiator, 0, st.out, if d == 0 then 0 else d - 1)
    ensures Ordered(0, Step(p, st, r).out)
    ensures RankAtMost(p.items, peer, !p.initiator, 0, Step(p, st, r).out, if d == 0 then 0 else d - 1)
    ensures d == 0 ==> Step(p, st, r).out == st.out
  {
    hide Pos, Key, FingerprintOf, Slice, Step, Reply, Rank, RankAtMost, Flush;
    StepShape(p, st, r);
    if Replies(p, st, r) {
      ReplyRank(p, peer, st, r, d);
      StepReplyRank(p, peer, st, r, d - 1);
    }
  }

  lemma FlushRank(p: Party, peer: seq<Item>, st: State, d: nat)
    requires Sorted(p.items) && Sorted(peer) && Placed(p, st) && Ordered(0, st.out + Flush(st))
    requires RankAtMost(p.items, peer, !p.initiator, 0, st.out, d)
    ensures RankAtMost(p.items, peer, !p.initiator, 0, st.out + Flush(st), d)
  {
    hide Pos, Key, Depth, Slice, Rank;
    var f, lo := Flush(st), End(0, st.out);
    if st.skip {
      assert LoFrom(lo, f, 0) == lo;
      RankConcat(p.items, peer, !p.initiator, 0, st.out, f, d);
    } else {
      assert st.out + f == st.out;
    }
  }

  lemma {:induction false} ProcessRank(p: Party, peer: seq<Item>, rs: seq<Range>, i: nat, st: State, d: nat)
    requires Ready(p) && p.limit.None? && Sorted(peer) && Ordered(0, rs) && i <= |rs|
    requires Placed(p, st) && Pos(st.bound) == LoFrom(0, rs, i) && Honest(p.hash, p.items, 0, st.out)
    requires RankAtMost(p.items, peer, p.initiator, 0, rs, d)
    requires RankAtMost(p.items, peer, !p.initiator, 0, st.out, if d == 0 then 0 else d - 1)
    ensures var out := Process(p, st, rs[i..]).out;
            && Ordered(0, out)
            && RankAtMost(p.items, peer, !p.initiator, 0, out, if d == 0 then 0 else d - 1)
            && (d == 0 ==> out == st.out)
    decreases |rs| - i
  {
    hide Pos, Key, FingerprintOf, Slice, Step, Rank, RangeRank;
    if i < |rs| {
      StepRank(p, peer, st, rs[i], d);
      StepKeeps(p, st, rs[i]);
      StepShape(p, st, rs[i]);
      assert rs[i..][1..] == rs[i + 1..];
      ProcessRank(p, peer, rs, i + 1, Step(p, st, rs[i]), d);
    }
  }

  /** A round brings the whole conversation one step closer, or empties it. */
  lemma RoundRank(p: Party, peer: seq<Item>, rs: seq<Range>, d: nat)
    requires Ready(p) && p.limit.None? && Sorted(peer) && Ordered(0, rs)
    requires RankAtMost(p.items, peer, p.initiator, 0, rs, d)
    ensures var out := Process(p, Start(), rs).out;
            && Ordered(0, out)
            && RankAtMost(p.items, peer, !p.initiator, 0, out, if d == 0 then 0 else d - 1)
            && (d == 0 ==> out == [])
  {
    hide Pos, Key, FingerprintOf, Slice, Step, Rank, RangeRank;
    PlacedStart(p);
    assert rs[0..] == rs;
    ProcessRank(p, peer, rs, 0, Start(), d);
  }
}
