/**
  One round under any frame limit (core/src/sync/negentropy/mod.rs): id lists
  stay accurate even when truncated, so nothing is ever reported wrongly.
 */
module Soundness {
  import opened Items
  import opened Bounds
  import opened Ranges
  import opened IdSums
  import opened Reconcile
  import opened Geometry
  import opened Exactness
  import opened Totality

  /** No bound lies beyond infinity. */
  ghost predicate Within(rs: seq<Range>) {
    forall i :: 0 <= i < |rs| ==> Pos(rs[i].bound) <= Pos(Infinity())
  }

  /** A message whose order and id lists can be trusted. */
  ghost predicate Trusty(s: seq<Item>, rs: seq<Range>)
    requires Sorted(s)
  {
    HonestIds(s, 0, rs) && Within(rs)
  }

  lemma ContinuationTrusty(p: Party, out: seq<Range>, upper: nat)
    requires Sorted(p.items) && Trusty(p.items, out) && upper <= |p.items|
    ensures Trusty(p.items, out + [Continuation(p, upper)])
  {
    hide Key, Pos, FingerprintOf, Slice;
    var o := [Continuation(p, upper)];
    var lo := End(0, out);
    assert lo <= Pos(Infinity());
    assert LoFrom(lo, o, 0) == lo;
    assert HonestIds(p.items, lo, o);
    HonestIdsConcat(p.items, 0, out, o);
  }

  lemma FlushTrusty(p: Party, st: State)
    requires Sorted(p.items) && Placed(p, st) && Trusty(p.items, st.out) && Pos(st.bound) <= Pos(Infinity())
    ensures Trusty(p.items, st.out + Flush(st)) && End(0, st.out + Flush(st)) == Pos(st.bound)
  {
    hide Key, Pos, Slice, Rank;
    FlushPlaces(p, st);
  }

  lemma WithinConcat(lo: nat, a: seq<Range>, b: seq<Range>)
    requires Within(a) && Ordered(lo, b) && End(lo, b) <= Pos(Infinity())
    ensures Within(a + b)
  {
    hide Key, Pos;
    var c := a + b;
    forall i | 0 <= i < |c| ensures Pos(c[i].bound) <= Pos(Infinity()) {
      if i >= |a| {
        OrderedMonotone(lo, b, i - |a| + 1, |b|);
      }
    }
  }

  lemma ReplyTrusty(p: Party, st: State, o: seq<Range>)
    requires Sorted(p.items) && Placed(p, st) && Trusty(p.items, st.out) && Pos(st.bound) <= Pos(Infinity())
    requires HonestIds(p.items, Pos(st.bound), o) && End(Pos(st.bound), o) <= Pos(Infinity())
    ensures Trusty(p.items, st.out + (Flush(st) + o))
    ensures End(0, st.out + (Flush(st) + o)) == End(Pos(st.bound), o)
  {
    hide Key, Pos, Slice, Rank, Flush, Ordered, Within, Placed, LoFrom;
    var front := st.out + Flush(st);
    FlushTrusty(p, st);
    assert st.out + (Flush(st) + o) == front + o;
    HonestIdsConcat(p.items, 0, front, o);
    ConcatLo(0, front, o);
    WithinConcat(Pos(st.bound), front, o);
  }

  /** What a step leaves behind, stopped or not. */
  ghost predicate StepLeaves(p: Party, st: State, b: Bound)
    requires Sorted(p.items)
  {
    Trusty(p.items, st.out) && (!st.stopped ==> Placed(p, st) && st.bound == b)
  }

  lemma FinishLeaves(p: Party, st: State, o: seq<Range>, upper: nat, b: Bound)
    requires Sorted(p.items) && upper == Rank(p.items, Pos(b)) && !st.stopped
    requires Trusty(p.items, st.out) && Trusty(p.items, st.out + o)
    requires End(0, st.out + o) <= Pos(b) && (!st.skip ==> End(0, st.out + o) == Pos(b))
    ensures StepLeaves(p, Finish(p, st, o, upper, b), b)
  {
    hide Key, Pos, Slice, Rank, FullLen, FingerprintOf;
    ContinuationTrusty(p, st.out, upper);
  }

  lemma AtItemPos(x: Item)
    ensures Pos(AtItem(x)) == Key(x)
  {
    assert AsItem(AtItem(x)) == x;
  }

  /** An id list cut short ends exactly at the first id it leaves out. */
  lemma CutList(p: Party, lo: nat, b: Bound, n: nat)
    requires Sorted(p.items) && lo <= Pos(b)
    requires Rank(p.items, lo) + n <= Rank(p.items, Pos(b))
    ensures var ours := Slice(p.items, lo, Pos(b));
            var end := if n < |ours| then AtItem(ours[n]) else b;
            && HonestIds(p.items, lo, [Range(end, IdList(IdsOf(ours[..n])))])
            && Pos(end) <= Pos(b) && (n == |ours| ==> Pos(end) == Pos(b))
            && Rank(p.items, Pos(end)) == Rank(p.items, lo) + n
  {
    hide Key, Pos;
    var ours := Slice(p.items, lo, Pos(b));
    RankMonotone(p.items, lo, Pos(b));
    var end := if n < |ours| then AtItem(ours[n]) else b;
    var o := [Range(end, IdList(IdsOf(ours[..n])))];
    assert LoFrom(lo, o, 0) == lo;
    if n < |ours| {
      var j := Rank(p.items, lo) + n;
      assert ours[n] == p.items[j];
      AtItemPos(ours[n]);
      RankUnique(p.items, Key(p.items[j]), j);
    }
    assert Rank(p.items, Pos(end)) == Rank(p.items, lo) + n;
    assert lo <= Pos(end);
    assert Slice(p.items, lo, Pos(end)) == ours[..n];
  }

  lemma ListReplyTrusty(p: Party, st: State, b: Bound, n: nat)
    requires Ready(p) && Placed(p, st) && Trusty(p.items, st.out)
    requires Pos(st.bound) <= Pos(b) <= Pos(Infinity())
    requires st.rank + n <= Rank(p.items, Pos(b))
    ensures var upper := Rank(p.items, Pos(b));
            var out := st.out + ListReply(p, st, b, upper, n);
            && Trusty(p.items, out)
            && (n == upper - st.rank ==> End(0, out) == Pos(b))
  {
    hide Key, Pos, Flush, LowerBoundAt;
    var lo := Pos(st.bound);
    var ours := Slice(p.items, lo, Pos(b));
    var list := [Range(if n < |ours| then AtItem(ours[n]) else b, IdList(IdsOf(ours[..n])))];
    CutList(p, lo, b, n);
    ReplyTrusty(p, st, list);
  }

  lemma StepListLeaves(p: Party, st: State, b: Bound, ids: seq<Id>)
    requires Ready(p) && !p.initiator && Placed(p, st) && Trusty(p.items, st.out)
    requires Pos(st.bound) <= Pos(b) <= Pos(Infinity())
    requires Rank(p.items, Pos(st.bound)) <= Rank(p.items, Pos(b))
    ensures StepLeaves(p, StepIdList(p, st, b, ids, Rank(p.items, Pos(b))), b)
  {
    hide Key, Pos, EncodeRanges, FullLen, FingerprintOf, Flush, Rank, Trusty, Ordered;
    var upper := Rank(p.items, Pos(b));
    var n := Fit(p.limit, FullLen(st.out), 0, upper - st.rank);
    var reply := ListReply(p, st, b, upper, n);
    var st1 := st.(skip := false, out := st.out + reply);
    ListReplyTrusty(p, st, b, n);
    assert StepIdList(p, st, b, ids, upper) == Finish(p, st1, [], st.rank + n, b);
    assert st1.out + [] == st1.out;
    if n < upper - st.rank {
      ListTruncated(p, st, reply, n);
      ContinuationTrusty(p, st1.out, st.rank + n);
    } else {
      FinishLeaves(p, st1, [], upper, b);
    }
  }

  lemma SplitTrusty(p: Party, st: State, b: Bound)
    requires Ready(p) && Placed(p, st) && Trusty(p.items, st.out)
    requires Pos(st.bound) <= Pos(b) <= Pos(Infinity())
    requires Rank(p.items, Pos(st.bound)) <= Rank(p.items, Pos(b))
    ensures var out := st.out + (Flush(st) + SplitRange(p, st.rank, Rank(p.items, Pos(b)), b));
            Trusty(p.items, out) && End(0, out) == Pos(b)
  {
    hide Key, Pos, Slice, Rank, Flush, SplitRange;
    SplitHonest(p, st.rank, Rank(p.items, Pos(b)), b, Pos(st.bound));
    ReplyTrusty(p, st, SplitRange(p, st.rank, Rank(p.items, Pos(b)), b));
  }

  /** Under any limit, a step keeps the output's order and id lists accurate. */
  lemma StepTrusty(p: Party, st: State, r: Range)
    requires Ready(p) && Placed(p, st) && Trusty(p.items, st.out)
    requires Pos(st.bound) <= Pos(r.bound) <= Pos(Infinity())
    ensures StepLeaves(p, Step(p, st, r), r.bound)
  {
    hide Key, Pos, Slice, Rank, Flush, SplitRange, FullLen, FingerprintOf, Finish, Unmatched, Without, Dedup, LowerBound,
         Trusty, StepLeaves;
    var upper := Rank(p.items, Pos(r.bound));
    LowerBoundIsRank(p.items, Pos(st.bound), r.bound);
    assert st.out + [] == st.out;
    match r.payload
    case Skip =>
      FinishLeaves(p, st.(skip := true), [], upper, r.bound);
    case Fingerprint(fp) =>
      if fp != FingerprintOf(p.hash, p.items[st.rank..upper]) {
        SplitTrusty(p, st, r.bound);
        FinishLeaves(p, st.(skip := false), Flush(st) + SplitRange(p, st.rank, upper, r.bound), upper, r.bound);
      } else {
        FinishLeaves(p, st.(skip := true), [], upper, r.bound);
      }
    case IdList(ids) =>
      if p.initiator {
        var ours := p.items[st.rank..upper];
        var st1 := st.(skip := true, have := st.have + Unmatched(ours, set i | 0 <= i < |ids| :: ids[i]),
                       need := st.need + Without(Dedup(ids), IdSet(ours)));
        FinishLeaves(p, st1, [], upper, r.bound);
      } else {
        StepListLeaves(p, st, r.bound, ids);
      }
  }

  /** Every id names an item of `s` that `t` lacks. */
  ghost predicate OnlyIn(s: seq<Item>, t: seq<Item>, ids: seq<Id>) {
    forall id :: id in ids ==> id in IdSet(s) && id !in IdSet(t)
  }

  lemma AddsOnly(s: seq<Item>, t: seq<Item>, lo: nat, hi: nat, ids: seq<Id>)
    requires Sorted(s) && lo <= hi && IdsFixItems(s, t) && Adds(s, t, lo, hi, true, ids)
    ensures OnlyIn(s, t, ids)
  {
    hide Key, Slice;
    forall id | id in ids ensures id in IdSet(s) && id !in IdSet(t) {
      IdSetMember(Slice(s, lo, hi), id);
      var y :| y in Slice(s, lo, hi) && y.id == id;
      SliceMembers(s, lo, hi, y);
      MemberIdSet(s, y);
      ForeignId(s, t, y);
    }
  }

  lemma ForeignId(s: seq<Item>, t: seq<Item>, y: Item)
    requires IdsFixItems(s, t) && y in s && y !in t
    ensures y.id !in IdSet(t)
  {
    forall i | 0 <= i < |t| ensures t[i].id != y.id {
      assert t[i] in t;
    }
  }

  lemma StepReportsSoundly(p: Party, peer: seq<Item>, st: State, r: Range)
    requires Ready(p) && Sorted(peer) && IdsFixItems(p.items, peer)
    requires Placed(p, st) && Pos(st.bound) <= Pos(r.bound)
    requires r.payload.IdList? ==> r.payload.ids == IdsOf(Slice(peer, Pos(st.bound), Pos(r.bound)))
    requires OnlyIn(p.items, peer, st.have) && OnlyIn(peer, p.items, st.need)
    ensures OnlyIn(p.items, peer, Step(p, st, r).have) && OnlyIn(peer, p.items, Step(p, st, r).need)
  {
    hide Key, Pos, Rank, Flush, SplitRange, FullLen, FingerprintOf, Unmatched, Without, Dedup, LowerBound, IdSet, IdsOf;
    var lo, hi := Pos(st.bound), Pos(r.bound);
    LowerBoundIsRank(p.items, lo, r.bound);
    if r.payload.IdList? && p.initiator {
      var ours, theirs := Slice(p.items, lo, hi), IdsOf(Slice(peer, lo, hi));
      ListsAdd(p.items, peer, lo, hi);
      AddsOnly(p.items, peer, lo, hi, Unmatched(ours, set i | 0 <= i < |theirs| :: theirs[i]));
      AddsOnly(peer, p.items, lo, hi, Without(Dedup(theirs), IdSet(ours)));
    }
  }

  ghost predicate SoundInv(p: Party, peer: seq<Item>, rs: seq<Range>, i: nat, st: State)
    requires Sorted(p.items) && i <= |rs|
  {
    && Trusty(p.items, st.out)
    && (!st.stopped ==> Placed(p, st) && Pos(st.bound) == LoFrom(0, rs, i))
    && OnlyIn(p.items, peer, st.have) && OnlyIn(peer, p.items, st.need)
  }

  lemma {:induction false} ProcessSound(p: Party, peer: seq<Item>, rs: seq<Range>, i: nat, st: State)
    requires Ready(p) && Sorted(peer) && IdsFixItems(p.items, peer) && Trusty(peer, rs)
    requires i <= |rs| && SoundInv(p, peer, rs, i, st)
    ensures SoundInv(p, peer, rs, |rs|, Process(p, st, rs[i..]))
    decreases |rs| - i
  {
    hide Key, Pos, Rank, Slice, Step, OnlyIn, IdsOf;
    if i < |rs| && !st.stopped {
      var r, st' := rs[i], Step(p, st, rs[i]);
      StepTrusty(p, st, r);
      StepReportsSoundly(p, peer, st, r);
      assert rs[i..][1..] == rs[i + 1..];
      if st'.stopped {
        assert Process(p, st', rs[i + 1..]) == st';
      } else {
        ProcessSound(p, peer, rs, i + 1, st');
      }
    }
  }

  /**
    Soundness of one round: under any frame limit, from a message with accurate
    id lists, everything reported is a real difference and the reply's id lists
    are accurate again.
   */
  lemma RoundSound(p: Party, peer: seq<Item>, rs: seq<Range>)
    requires Ready(p) && Sorted(peer) && IdsFixItems(p.items, peer) && Trusty(peer, rs)
    ensures var st := Process(p, Start(), rs);
            && Trusty(p.items, st.out)
            && OnlyIn(p.items, peer, st.have) && OnlyIn(peer, p.items, st.need)
  {
    hide Key, Pos, Rank, Step;
    assert rs[0..] == rs;
    PlacedStart(p);
    ProcessSound(p, peer, rs, 0, Start());
  }
}
