/**
  One round under a frame limit (core/src/sync/negentropy/mod.rs): which answers
  are cut short or dropped, exactly when the peer is misled by a dropped one, and
  why every difference otherwise stays reported or open.
 */
module Limits {
  import opened Items
  import opened Bounds
  import opened Ranges
  import opened IdSums
  import opened Reconcile
  import opened Geometry
  import opened Exactness
  import opened Totality
  import opened Soundness
  import opened Sessions

  /** Ready for the next range, with room left in the frame. */
  ghost predicate Steady(p: Party, st: State)
    requires Sorted(p.items)
  {
    Sane(p, st) && Placed(p, st)
  }

  /** The answer to a mismatched fingerprint no longer fits: it is dropped. */
  ghost predicate Drops(p: Party, st: State, r: Range)
    requires Sorted(p.items) && Pos(st.bound) <= Pos(r.bound)
  {
    && r.payload.Fingerprint? && Replies(p, st, r)
    && Exceeds(p.limit, FullLen(st.out + (Flush(st) + Reply(p, st, r))))
  }

  /** How many ids of the range fit, and the id list that carries them. */
  ghost function Listed(p: Party, st: State, r: Range): (n: nat)
    requires Sorted(p.items) && Pos(st.bound) <= Pos(r.bound)
    ensures n <= |Slice(p.items, Pos(st.bound), Pos(r.bound))|
  {
    Fit(p.limit, FullLen(st.out), 0, |Slice(p.items, Pos(st.bound), Pos(r.bound))|)
  }

  ghost function Cut(p: Party, st: State, r: Range): seq<Range>
    requires Sorted(p.items) && Pos(st.bound) <= Pos(r.bound)
  {
    var ours, n := Slice(p.items, Pos(st.bound), Pos(r.bound)), Listed(p, st, r);
    [Range(if n < |ours| then AtItem(ours[n]) else r.bound, IdList(IdsOf(ours[..n])))]
  }

  /** A responder's id list uses the frame up: it is cut where the frame ends. */
  ghost predicate Cuts(p: Party, st: State, r: Range)
    requires Sorted(p.items) && Pos(st.bound) <= Pos(r.bound)
  {
    && r.payload.IdList? && Replies(p, st, r)
    && Exceeds(p.limit, FullLen(st.out + (Flush(st) + Cut(p, st, r))))
  }

  lemma StepDrop(p: Party, st: State, r: Range)
    requires Ready(p) && Steady(p, st) && Pos(st.bound) <= Pos(r.bound) && r.payload.Fingerprint? && Replies(p, st, r)
    ensures Step(p, st, r) ==
            if Drops(p, st, r) then
              st.(skip := false, out := st.out + [Continuation(p, Rank(p.items, Pos(r.bound)))], stopped := true)
            else
              st.(skip := false, out := st.out + (Flush(st) + Reply(p, st, r)), rank := Rank(p.items, Pos(r.bound)), bound := r.bound)
  {
    hide Key, Pos, FingerprintOf, SplitRange, FullLen, Sane, Flush;
    LowerBoundIsRank(p.items, Pos(st.bound), r.bound);
  }

  lemma StepCut(p: Party, st: State, r: Range)
    requires Ready(p) && Steady(p, st) && Pos(st.bound) <= Pos(r.bound) && r.payload.IdList? && Replies(p, st, r)
    ensures st.rank + Listed(p, st, r) <= |p.items|
    ensures Step(p, st, r) ==
            if Cuts(p, st, r) then
              st.(skip := false, out := st.out + (Flush(st) + Cut(p, st, r)) + [Continuation(p, st.rank + Listed(p, st, r))], stopped := true)
            else
              st.(skip := false, out := st.out + (Flush(st) + Reply(p, st, r)), rank := Rank(p.items, Pos(r.bound)), bound := r.bound)
    ensures !Cuts(p, st, r) ==> Cut(p, st, r) == Reply(p, st, r)
  {
    hide Key, Pos, FingerprintOf, FullLen, Sane, Flush;
    LowerBoundIsRank(p.items, Pos(st.bound), r.bound);
    var ours, n := Slice(p.items, Pos(st.bound), Pos(r.bound)), Listed(p, st, r);
    var cut := Flush(st) + Cut(p, st, r);
    assert (st.out + cut) + [] == st.out + cut;
    if n < |ours| {
      ListTruncated(p, st, cut, n);
    } else {
      assert ours[..n] == ours;
    }
  }

  /** What is neither answered, cut nor dropped is passed over, and compared if it is a list. */
  lemma StepPass(p: Party, st: State, r: Range)
    requires Ready(p) && Steady(p, st) && Pos(st.bound) <= Pos(r.bound) && !Replies(p, st, r)
    ensures var st' := Step(p, st, r);
            && !st'.stopped && st'.skip && st'.out == st.out && st'.bound == r.bound && st'.rank == Rank(p.items, Pos(r.bound))
            && (if r.payload.IdList? then
                  var ours := Slice(p.items, Pos(st.bound), Pos(r.bound));
                  && st'.have == st.have + Unmatched(ours, set i | 0 <= i < |r.payload.ids| :: r.payload.ids[i])
                  && st'.need == st.need + Without(Dedup(r.payload.ids), IdSet(ours))
                else st'.have == st.have && st'.need == st.need)
  {
    hide Key, Pos, FingerprintOf, FullLen, SplitRange, Flush, Unmatched, Without, Dedup, IdSet;
    LowerBoundIsRank(p.items, Pos(st.bound), r.bound);
    assert st.out + [] == st.out;
  }

  /** The next state is steady unless the step stopped. */
  lemma StepSteady(p: Party, st: State, r: Range)
    requires Ready(p) && Steady(p, st) && Trusty(p.items, st.out)
    requires Pos(st.bound) <= Pos(r.bound) <= Pos(Infinity())
    ensures var st' := Step(p, st, r);
            Trusty(p.items, st'.out) && (!st'.stopped ==> Steady(p, st') && st'.bound == r.bound)
  {
    hide Key, Pos, Step, Sane, Placed, Trusty;
    BoundTs(st.bound, r.bound);
    StepTrusty(p, st, r);
    StepDelivers(p, st, r);
  }

  lemma BoundTs(b: Bound, b': Bound)
    requires Pos(b) <= Pos(b')
    ensures b.ts <= b'.ts
  {
    hide Key;
    KeyTs(AsItem(b), AsItem(b'));
  }

  /* ----- what a dropped answer tells the peer ----- */

  /** Fingerprints tell any stretch of one side's items from any stretch of the other's. */
  ghost predicate Distinct(hash: Hash, s: seq<Item>, t: seq<Item>)
    requires Sorted(s) && Sorted(t)
  {
    forall lo: nat, hi: nat, lo': nat, hi': nat :: lo <= hi && lo' <= hi'
      && FingerprintOf(hash, Slice(s, lo, hi)) == FingerprintOf(hash, Slice(t, lo', hi'))
      ==> Slice(s, lo, hi) == Slice(t, lo', hi')
  }

  lemma DistinctBothWays(hash: Hash, s: seq<Item>, t: seq<Item>)
    requires Sorted(s) && Sorted(t) && Distinct(hash, s, t)
    ensures Distinct(hash, t, s) && CollisionFree(hash, s, t)
  {
    hide Slice, FingerprintOf;
  }

  lemma SliceSplit(s: seq<Item>, lo: nat, mid: nat, hi: nat)
    requires Sorted(s) && lo <= mid <= hi
    ensures Slice(s, lo, hi) == Slice(s, lo, mid) + Slice(s, mid, hi)
  {
    hide Key, Rank;
    RankMonotone(s, lo, mid);
    RankMonotone(s, mid, hi);
  }

  lemma SliceApart(s: seq<Item>, t: seq<Item>, lo: nat, mid: nat, hi: nat)
    requires Sorted(s) && Sorted(t) && lo <= mid <= hi
    ensures Slice(s, mid, hi) == Slice(t, lo, hi) <==> Slice(t, lo, mid) == [] && Slice(t, mid, hi) == Slice(s, mid, hi)
  {
    hide Key, Slice;
    SliceSplit(t, lo, mid, hi);
    if Slice(s, mid, hi) == Slice(t, lo, hi) && Slice(t, lo, mid) != [] {
      var x := Slice(t, lo, mid)[0];
      assert x in Slice(t, lo, mid) && Slice(t, lo, hi)[0] == x && x in Slice(s, mid, hi);
      SliceMembers(t, lo, mid, x);
      SliceMembers(s, mid, hi, x);
    }
  }

  /** The continuation fingerprints the items from the bound on. */
  lemma ContinuationSays(p: Party, pos: nat)
    requires Sorted(p.items) && Storable(p.items) && pos <= Pos(Infinity())
    ensures Continuation(p, Rank(p.items, pos)) ==
            Range(Infinity(), Fingerprint(FingerprintOf(p.hash, Slice(p.items, pos, Pos(Infinity())))))
  {
    hide Key, Pos, Rank, FingerprintOf;
    RankAtInfinity(p.items);
    assert p.items[Rank(p.items, pos)..] == Slice(p.items, pos, Pos(Infinity()));
  }

  /**
    When a dropped answer is taken for agreement. The message then ends in one
    fingerprint, of the items after the dropped range, for everything after the
    last answer sent. The peer lets it pass although the two differ there exactly
    when the peer has nothing up to the end of the dropped range, the same items
    as the engine after it, and the engine does have something before it.
   */
  lemma DroppedAnswerMisleads(p: Party, peer: Party, st: State, r: Range)
    requires Ready(p) && Ready(peer) && p.hash == peer.hash && Storable(p.items) && Steady(p, st)
    requires Distinct(p.hash, p.items, peer.items)
    requires Pos(st.bound) <= Pos(r.bound) <= Pos(Infinity()) && Drops(p, st, r)
    ensures var last, from, to, inf := Continuation(p, Rank(p.items, Pos(r.bound))), End(0, st.out), Pos(r.bound), Pos(Infinity());
            && Step(p, st, r).stopped && Step(p, st, r).out == st.out + [last]
            && from <= to && Pos(last.bound) == inf
            && (!Answers(peer, from, last) && Slice(p.items, from, inf) != Slice(peer.items, from, inf)
                <==> && Slice(peer.items, from, to) == []
                     && Slice(peer.items, to, inf) == Slice(p.items, to, inf)
                     && Slice(p.items, from, to) != [])
  {
    hide Key, Pos, Slice, FingerprintOf, Rank, Step, Sane, Reply, Flush, FullLen, Ordered;
    StepDrop(p, st, r);
    ContinuationSays(p, Pos(r.bound));
    var from, to, inf := End(0, st.out), Pos(r.bound), Pos(Infinity());
    SliceApart(p.items, peer.items, from, to, inf);
    SliceSplit(p.items, from, to, inf);
    SliceSplit(peer.items, from, to, inf);
  }

  /** So only a dropped answer to a fingerprint of no items can mislead an honest peer. */
  lemma OnlyNothingMisleads(p: Party, peer: Party, st: State, r: Range)
    requires Ready(p) && Ready(peer) && p.hash == peer.hash && Storable(p.items) && Steady(p, st)
    requires Distinct(p.hash, p.items, peer.items)
    requires Pos(st.bound) <= Pos(r.bound) <= Pos(Infinity()) && Drops(p, st, r)
    requires r.payload.fp == FingerprintOf(p.hash, Slice(peer.items, Pos(st.bound), Pos(r.bound)))
    ensures var last, from, inf := Continuation(p, Rank(p.items, Pos(r.bound))), End(0, st.out), Pos(Infinity());
            && from <= Pos(last.bound)
            && (!Answers(peer, from, last) && Slice(p.items, from, inf) != Slice(peer.items, from, inf)
                ==> r.payload.fp == FingerprintOf(p.hash, []))
  {
    hide Key, Pos, Slice, FingerprintOf, Rank, Step, Sane, Reply, Flush, FullLen, Ordered, Answers;
    DroppedAnswerMisleads(p, peer, st, r);
    SliceSplit(peer.items, End(0, st.out), Pos(st.bound), Pos(r.bound));
  }

  /* ----- a round in which no such answer is dropped ----- */

  /** A fingerprint of the sender's later items that the hearer cannot match: it holds an earlier one. */
  ghost predicate Stale(hash: Hash, s: seq<Item>, t: seq<Item>, lo: nat, r: Range, from: nat)
    requires Sorted(s) && Sorted(t)
  {
    && r.bound == Infinity() && lo <= from <= Pos(Infinity()) && Slice(t, lo, from) != []
    && r.payload == Fingerprint(FingerprintOf(hash, Slice(s, from, Pos(Infinity()))))
  }

  /** A fingerprint that describes the sender's items, or at least will not be taken for agreement. */
  ghost predicate FairPrint(hash: Hash, s: seq<Item>, t: seq<Item>, lo: nat, r: Range)
    requires Sorted(s) && Sorted(t) && lo <= Pos(r.bound)
  {
    || r.payload == Fingerprint(FingerprintOf(hash, Slice(s, lo, Pos(r.bound))))
    || exists from: nat :: Stale(hash, s, t, lo, r, from)
  }

  ghost predicate FairPrints(hash: Hash, s: seq<Item>, t: seq<Item>, lo: nat, rs: seq<Range>)
    requires Sorted(s) && Sorted(t) && Ordered(lo, rs)
  {
    forall i :: 0 <= i < |rs| && rs[i].payload.Fingerprint? ==> FairPrint(hash, s, t, LoFrom(lo, rs, i), rs[i])
  }

  /** A message of the holder of `s` that cannot mislead the holder of `t`. */
  ghost predicate Fair(hash: Hash, s: seq<Item>, t: seq<Item>, rs: seq<Range>)
    requires Sorted(s) && Sorted(t)
  {
    Trusty(s, rs) && FairPrints(hash, s, t, 0, rs)
  }

  lemma HonestIsFair(hash: Hash, s: seq<Item>, t: seq<Item>, rs: seq<Range>)
    requires Sorted(s) && Sorted(t) && Honest(hash, s, 0, rs) && Within(rs)
    ensures Fair(hash, s, t, rs)
  {
    hide Key, Pos, Slice, FingerprintOf;
  }

  lemma FairConcat(hash: Hash, s: seq<Item>, t: seq<Item>, lo: nat, a: seq<Range>, b: seq<Range>)
    requires Sorted(s) && Sorted(t) && Ordered(lo, a) && Ordered(End(lo, a), b) && Ordered(lo, a + b)
    requires FairPrints(hash, s, t, lo, a) && FairPrints(hash, s, t, End(lo, a), b)
    ensures FairPrints(hash, s, t, lo, a + b)
  {
    hide Key, Pos, Slice, FairPrint;
    ConcatLo(lo, a, b);
    var c := a + b;
    forall i | 0 <= i < |c| && c[i].payload.Fingerprint? ensures FairPrint(hash, s, t, LoFrom(lo, c, i), c[i]) {
      if i >= |a| {
        assert b[i - |a|] == c[i];
      }
    }
  }

  lemma FairOne(hash: Hash, s: seq<Item>, t: seq<Item>, lo: nat, r: Range)
    requires Sorted(s) && Sorted(t) && lo <= Pos(r.bound)
    requires r.payload.Fingerprint? ==> FairPrint(hash, s, t, lo, r)
    ensures Ordered(lo, [r]) && FairPrints(hash, s, t, lo, [r])
  {
    hide Key, Pos, Slice, FairPrint;
    assert LoFrom(lo, [r], 0) == lo;
  }

  /** A fair fingerprint is matched only where the two sides agree. */
  lemma MatchedAgree(hash: Hash, s: seq<Item>, t: seq<Item>, lo: nat, r: Range)
    requires Sorted(s) && Sorted(t) && lo <= Pos(r.bound) && Distinct(hash, s, t)
    requires FairPrint(hash, s, t, lo, r)
    requires r.payload == Fingerprint(FingerprintOf(hash, Slice(t, lo, Pos(r.bound))))
    ensures Slice(s, lo, Pos(r.bound)) == Slice(t, lo, Pos(r.bound))
  {
    hide Key, Pos, Slice, FingerprintOf;
    if r.payload != Fingerprint(FingerprintOf(hash, Slice(s, lo, Pos(r.bound)))) {
      var from: nat :| Stale(hash, s, t, lo, r, from);
      SliceApart(s, t, lo, from, Pos(Infinity()));
    }
  }

  /** A fair fingerprint of something is a fingerprint over some item of the sender. */
  lemma FairHasItem(hash: Hash, s: seq<Item>, t: seq<Item>, lo: nat, r: Range)
    requires Sorted(s) && Sorted(t) && lo <= Pos(r.bound)
    requires FairPrint(hash, s, t, lo, r) && r.payload != Fingerprint(FingerprintOf(hash, []))
    ensures Slice(s, lo, Pos(r.bound)) != []
  {
    hide Key, Pos, Slice, FingerprintOf;
    if r.payload != Fingerprint(FingerprintOf(hash, Slice(s, lo, Pos(r.bound)))) {
      var from: nat :| Stale(hash, s, t, lo, r, from);
      SliceSplit(s, lo, from, Pos(Infinity()));
    }
  }

  /** Every item of `s` missing from `t` up to `upto` that was open is still open or named. */
  ghost predicate Told(s: seq<Item>, t: seq<Item>, rs: seq<Range>, out: seq<Range>, upto: nat, ids: seq<Id>) {
    forall x :: x in s && x !in t && Closed(rs, out, upto, Key(x)) ==> x.id in ids
  }

  /** What holds after `i` ranges of a fair message. */
  ghost predicate Carried(p: Party, peer: seq<Item>, rs: seq<Range>, i: nat, st: State)
    requires Sorted(p.items) && Sorted(peer) && i <= |rs|
  {
    && Fair(p.hash, p.items, peer, st.out)
    && (!st.stopped ==> Steady(p, st) && Pos(st.bound) == LoFrom(0, rs, i))
    && var upto := if st.stopped then Pos(Infinity()) else LoFrom(0, rs, i);
       Told(p.items, peer, rs, st.out, upto, st.have) && Told(peer, p.items, rs, st.out, upto, st.need)
  }

  /** What the two sides agree on before a limited round. */
  ghost predicate Ground(p: Party, peer: seq<Item>, rs: seq<Range>) {
    && Ready(p) && Sorted(peer) && Storable(p.items) && Storable(peer)
    && IdsFixItems(p.items, peer) && Distinct(p.hash, p.items, peer)
    && Fair(p.hash, peer, p.items, rs)
  }

  /** A step that stops at a fingerprint of no items: its answer is dropped. */
  ghost predicate DropsNothing(p: Party, st: State, r: Range)
    requires Ready(p) && st.rank <= |p.items|
  {
    Step(p, st, r).stopped && r.payload == Fingerprint(FingerprintOf(p.hash, []))
  }

  /** No step of the round does that. */
  ghost predicate Spares(p: Party, st: State, rs: seq<Range>)
    requires Ready(p) && (!st.stopped ==> st.rank <= |p.items|)
    decreases |rs|
  {
    st.stopped || rs == [] || (!DropsNothing(p, st, rs[0]) && Spares(p, Step(p, st, rs[0]), rs[1..]))
  }

  /** Told up to `lo`, and what lies beyond is still open: told up to `hi`. */
  lemma ToldMore(s: seq<Item>, t: seq<Item>, rs: seq<Range>, out: seq<Range>, more: seq<Range>, lo: nat, hi: nat, ids: seq<Id>)
    requires Told(s, t, rs, out, lo, ids)
    requires forall k: nat :: lo <= k < hi ==> Active(End(0, out), more, k)
    ensures Told(s, t, rs, out + more, hi, ids)
  {
    hide Key, Pos, Active;
    forall x | x in s && x !in t && Closed(rs, out + more, hi, Key(x)) ensures x.id in ids {
      ActiveConcat(0, out, more, Key(x));
    }
  }

  /** Told up to range `i`, which reports what it settles: told up to its end. */
  lemma ToldRange(s: seq<Item>, t: seq<Item>, rs: seq<Range>, i: nat, out: seq<Range>, ids: seq<Id>, added: seq<Id>)
    requires Sorted(s) && Ordered(0, rs) && i < |rs| && Told(s, t, rs, out, LoFrom(0, rs, i), ids)
    requires !rs[i].payload.Skip? ==>
               forall x :: x in Slice(s, LoFrom(0, rs, i), Pos(rs[i].bound)) && x !in t ==> x.id in added
    ensures Told(s, t, rs, out, Pos(rs[i].bound), ids + added)
  {
    hide Key, Pos, Active, Slice;
    forall x | x in s && x !in t && Closed(rs, out, Pos(rs[i].bound), Key(x)) ensures x.id in ids + added {
      if LoFrom(0, rs, i) <= Key(x) {
        ActiveInside(0, rs, i, Key(x));
        SliceMembers(s, LoFrom(0, rs, i), Pos(rs[i].bound), x);
      }
    }
  }

  lemma PassCarries(p: Party, peer: seq<Item>, rs: seq<Range>, i: nat, st: State)
    requires Ground(p, peer, rs) && i < |rs| && !st.stopped && Carried(p, peer, rs, i, st)
    requires Pos(st.bound) <= Pos(rs[i].bound) && !Replies(p, st, rs[i])
    ensures var st', hi := Step(p, st, rs[i]), Pos(rs[i].bound);
            Told(p.items, peer, rs, st'.out, hi, st'.have) && Told(peer, p.items, rs, st'.out, hi, st'.need)
  {
    hide Key, Pos, Step, Slice, Rank, FingerprintOf, Told, Sane, Unmatched, Without, Dedup, IdSet, IdsOf, Distinct, IdsFixItems, Storable, Sorted;
    var r, st', lo, hi := rs[i], Step(p, st, rs[i]), Pos(st.bound), Pos(rs[i].bound);
    StepPass(p, st, r);
    PassReports(p, peer, rs, i);
    var moreHave, moreNeed := st'.have[|st.have|..], st'.need[|st.need|..];
    assert st'.have == st.have + moreHave && st'.need == st.need + moreNeed;
    ToldRange(p.items, peer, rs, i, st.out, st.have, moreHave);
    ToldRange(peer, p.items, rs, i, st.out, st.need, moreNeed);
  }

  /** A range without an answer is matched, hence agreed on, or compared. */
  lemma PassReports(p: Party, peer: seq<Item>, rs: seq<Range>, i: nat)
    requires Ground(p, peer, rs) && i < |rs| && LoFrom(0, rs, i) <= Pos(rs[i].bound) && !Answers(p, LoFrom(0, rs, i), rs[i])
    ensures var lo, hi := LoFrom(0, rs, i), Pos(rs[i].bound);
            var ours, theirs := Slice(p.items, lo, hi), Slice(peer, lo, hi);
            match rs[i].payload
            case Skip => true
            case Fingerprint(_) => ours == theirs && (forall x :: x in ours ==> x in peer) && (forall x :: x in theirs ==> x in p.items)
            case IdList(ids) =>
              && (forall x :: x in ours && x !in peer ==> x.id in Unmatched(ours, set j | 0 <= j < |ids| :: ids[j]))
              && (forall x :: x in theirs && x !in p.items ==> x.id in Without(Dedup(ids), IdSet(ours)))
  {
    hide Key, Pos, Slice, FingerprintOf, Unmatched, Without, Dedup, IdSet, IdsOf, FairPrint;
    var r, lo, hi := rs[i], LoFrom(0, rs, i), Pos(rs[i].bound);
    if r.payload.Fingerprint? {
      DistinctBothWays(p.hash, p.items, peer);
      MatchedAgree(p.hash, peer, p.items, lo, r);
      forall x | x in Slice(p.items, lo, hi) ensures x in peer && x in p.items {
        SliceMembers(p.items, lo, hi, x);
        SliceMembers(peer, lo, hi, x);
      }
    } else if r.payload.IdList? {
      ListsAdd(p.items, peer, lo, hi);
    }
  }

  /** Fair ranges that leave nothing open behind carry the round on. */
  lemma AnswerCarries(p: Party, peer: seq<Item>, rs: seq<Range>, i: nat, st: State, gap: seq<Range>, o: seq<Range>, hi: nat)
    requires Ground(p, peer, rs) && i < |rs| && !st.stopped && Carried(p, peer, rs, i, st)
    requires Ordered(End(0, st.out), gap) && FairPrints(p.hash, p.items, peer, End(0, st.out), gap)
    requires var from := End(End(0, st.out), gap);
             Ordered(from, o) && FairPrints(p.hash, p.items, peer, from, o)
             && forall k: nat :: Pos(st.bound) <= k < hi ==> Active(from, o, k)
    requires Trusty(p.items, st.out + (gap + o))
    ensures var out := st.out + (gap + o);
            && Fair(p.hash, p.items, peer, out)
            && Told(p.items, peer, rs, out, hi, st.have) && Told(peer, p.items, rs, out, hi, st.need)
  {
    hide Key, Pos, Slice, FingerprintOf, Told, Steady, Active, FairPrints;
    var from, more := End(0, st.out), gap + o;
    OrderedConcat(from, gap, o);
    FairConcat(p.hash, p.items, peer, from, gap, o);
    FairConcat(p.hash, p.items, peer, 0, st.out, more);
    forall k: nat | Pos(st.bound) <= k < hi ensures Active(from, more, k) {
      ActiveConcat(from, gap, o, k);
    }
    ToldMore(p.items, peer, rs, st.out, more, Pos(st.bound), hi, st.have);
    ToldMore(peer, p.items, rs, st.out, more, Pos(st.bound), hi, st.need);
  }

  lemma FlushFair(p: Party, peer: seq<Item>, st: State)
    requires Sorted(p.items) && Sorted(peer) && Placed(p, st)
    ensures Ordered(End(0, st.out), Flush(st)) && End(End(0, st.out), Flush(st)) == Pos(st.bound)
    ensures FairPrints(p.hash, p.items, peer, End(0, st.out), Flush(st))
  {
    hide Key, Pos, Rank, Slice;
  }

  lemma ReplyCarries(p: Party, peer: seq<Item>, rs: seq<Range>, i: nat, st: State)
    requires Ground(p, peer, rs) && i < |rs| && !st.stopped && Carried(p, peer, rs, i, st)
    requires Pos(st.bound) <= Pos(rs[i].bound) && Replies(p, st, rs[i])
    requires Trusty(p.items, st.out + (Flush(st) + Reply(p, st, rs[i])))
    ensures var out, hi := st.out + (Flush(st) + Reply(p, st, rs[i])), Pos(rs[i].bound);
            && Fair(p.hash, p.items, peer, out)
            && Told(p.items, peer, rs, out, hi, st.have) && Told(peer, p.items, rs, out, hi, st.need)
  {
    hide Key, Pos, Slice, FingerprintOf, Told, Sane, Active, Reply, Trusty, Rank;
    var o := Reply(p, st, rs[i]);
    ReplyHonest(p, st, rs[i]);
    FlushFair(p, peer, st);
    assert FairPrints(p.hash, p.items, peer, Pos(st.bound), o);
    AnswerCarries(p, peer, rs, i, st, Flush(st), o, Pos(rs[i].bound));
  }

  /** A cut list ends where the continuation takes over, so both are accurate. */
  lemma CutFair(p: Party, peer: seq<Item>, st: State, r: Range)
    requires Ready(p) && Storable(p.items) && Sorted(peer) && Placed(p, st)
    requires Pos(st.bound) <= Pos(r.bound) <= Pos(Infinity())
    requires st.rank + Listed(p, st, r) <= |p.items|
    ensures var o := Cut(p, st, r) + [Continuation(p, st.rank + Listed(p, st, r))];
            && Ordered(Pos(st.bound), o) && FairPrints(p.hash, p.items, peer, Pos(st.bound), o)
            && forall k: nat :: Pos(st.bound) <= k < Pos(Infinity()) ==> Active(Pos(st.bound), o, k)
  {
    hide Key, Pos, FingerprintOf, Fit, Rank, FullLen;
    var n, lo := Listed(p, st, r), Pos(st.bound);
    RankMonotone(p.items, lo, Pos(r.bound));
    var cut, last := Cut(p, st, r), Continuation(p, st.rank + n);
    CutList(p, lo, r.bound, n);
    var end := cut[0].bound;
    ContinuationSays(p, Pos(end));
    FairOne(p.hash, p.items, peer, lo, cut[0]);
    FairOne(p.hash, p.items, peer, Pos(end), last);
    assert cut == [cut[0]];
    OrderedConcat(lo, cut, [last]);
    FairConcat(p.hash, p.items, peer, lo, cut, [last]);
    forall k: nat | lo <= k < Pos(Infinity()) ensures Active(lo, cut + [last], k) {
      Covers(lo, cut + [last], k);
    }
  }

  lemma CutCarries(p: Party, peer: seq<Item>, rs: seq<Range>, i: nat, st: State)
    requires Ground(p, peer, rs) && i < |rs| && !st.stopped && Carried(p, peer, rs, i, st)
    requires Pos(st.bound) <= Pos(rs[i].bound) <= Pos(Infinity()) && Cuts(p, st, rs[i]) && Trusty(p.items, Step(p, st, rs[i]).out)
    ensures var st', inf := Step(p, st, rs[i]), Pos(Infinity());
            && st'.stopped && Fair(p.hash, p.items, peer, st'.out)
            && Told(p.items, peer, rs, st'.out, inf, st'.have) && Told(peer, p.items, rs, st'.out, inf, st'.need)
  {
    hide Key, Pos, Slice, FingerprintOf, Told, Sane, Active, Trusty, Rank, Step, Cut, Listed, FullLen, Flush, Ordered;
    var r := rs[i];
    StepCut(p, st, r);
    CutFair(p, peer, st, r);
    FlushFair(p, peer, st);
    var cut, last := Cut(p, st, r), [Continuation(p, st.rank + Listed(p, st, r))];
    assert st.out + (Flush(st) + cut) + last == st.out + (Flush(st) + (cut + last));
    AnswerCarries(p, peer, rs, i, st, Flush(st), cut + last, Pos(Infinity()));
  }

  /** A dropped answer to a fingerprint of something leaves a fingerprint the peer cannot match. */
  lemma DropFair(p: Party, peer: seq<Item>, st: State, r: Range)
    requires Ready(p) && Storable(p.items) && Sorted(peer) && Placed(p, st)
    requires Pos(st.bound) <= Pos(r.bound) <= Pos(Infinity())
    requires Slice(peer, Pos(st.bound), Pos(r.bound)) != []
    ensures var from, o := End(0, st.out), [Continuation(p, Rank(p.items, Pos(r.bound)))];
            && Ordered(from, o) && FairPrints(p.hash, p.items, peer, from, o)
            && forall k: nat :: Pos(st.bound) <= k < Pos(Infinity()) ==> Active(from, o, k)
  {
    hide Key, Pos, FingerprintOf, Rank, Slice;
    var from, last := End(0, st.out), Continuation(p, Rank(p.items, Pos(r.bound)));
    ContinuationSays(p, Pos(r.bound));
    SliceSplit(peer, from, Pos(st.bound), Pos(r.bound));
    assert Stale(p.hash, p.items, peer, from, last, Pos(r.bound));
    FairOne(p.hash, p.items, peer, from, last);
    forall k: nat | Pos(st.bound) <= k < Pos(Infinity()) ensures Active(from, [last], k) {
      Covers(from, [last], k);
    }
  }

  lemma DropCarries(p: Party, peer: seq<Item>, rs: seq<Range>, i: nat, st: State)
    requires Ground(p, peer, rs) && i < |rs| && !st.stopped && Carried(p, peer, rs, i, st)
    requires Pos(st.bound) <= Pos(rs[i].bound) <= Pos(Infinity()) && Drops(p, st, rs[i]) && Trusty(p.items, Step(p, st, rs[i]).out)
    requires rs[i].payload != Fingerprint(FingerprintOf(p.hash, []))
    ensures var st', inf := Step(p, st, rs[i]), Pos(Infinity());
            && st'.stopped && Fair(p.hash, p.items, peer, st'.out)
            && Told(p.items, peer, rs, st'.out, inf, st'.have) && Told(peer, p.items, rs, st'.out, inf, st'.need)
  {
    hide Key, Pos, Slice, FingerprintOf, Told, Sane, Active, Trusty, Rank, Step, FullLen, Flush, Reply, FairPrint;
    var r := rs[i];
    StepDrop(p, st, r);
    FairHasItem(p.hash, peer, p.items, Pos(st.bound), r);
    DropFair(p, peer, st, r);
    var last := [Continuation(p, Rank(p.items, Pos(r.bound)))];
    assert [] + last == last;
    AnswerCarries(p, peer, rs, i, st, [], last, Pos(Infinity()));
  }

  /** Every step keeps each difference reported or open, unless it drops an answer to a fingerprint of nothing. */
  lemma StepCarries(p: Party, peer: seq<Item>, rs: seq<Range>, i: nat, st: State)
    requires Ground(p, peer, rs) && i < |rs| && !st.stopped && Carried(p, peer, rs, i, st)
    requires st.rank <= |p.items| && !DropsNothing(p, st, rs[i])
    ensures Carried(p, peer, rs, i + 1, Step(p, st, rs[i]))
  {
    hide Key, Pos, Slice, FingerprintOf, Told, Sane, Placed, Active, Rank, Step, Reply, Cut, Flush, FullLen, FairPrints, HonestIds,
         Sorted, Storable, IdsFixItems, Distinct;
    var r := rs[i];
    assert Pos(st.bound) <= Pos(r.bound) <= Pos(Infinity()) by { InOrder(peer, rs, i); }
    StepSteady(p, st, r);
    if !Replies(p, st, r) {
      StepPass(p, st, r);
      PassCarries(p, peer, rs, i, st);
    } else if r.payload.IdList? {
      StepCut(p, st, r);
      if Cuts(p, st, r) {
        CutCarries(p, peer, rs, i, st);
      } else {
        ReplyCarries(p, peer, rs, i, st);
      }
    } else {
      StepDrop(p, st, r);
      if Drops(p, st, r) {
        DropCarries(p, peer, rs, i, st);
      } else {
        ReplyCarries(p, peer, rs, i, st);
      }
    }
  }

  lemma InOrder(s: seq<Item>, rs: seq<Range>, i: nat)
    requires Sorted(s) && Trusty(s, rs) && i < |rs|
    ensures LoFrom(0, rs, i) <= Pos(rs[i].bound) <= Pos(Infinity())
  {
    hide Key, Pos;
  }

  lemma {:induction false} ProcessCarries(p: Party, peer: seq<Item>, rs: seq<Range>, i: nat, st: State)
    requires Ground(p, peer, rs) && i <= |rs| && Carried(p, peer, rs, i, st)
    requires !st.stopped ==> st.rank <= |p.items|
    requires Spares(p, st, rs[i..])
    ensures var st' := Process(p, st, rs[i..]);
            && Fair(p.hash, p.items, peer, st'.out)
            && Told(p.items, peer, rs, st'.out, End(0, rs), st'.have) && Told(peer, p.items, rs, st'.out, End(0, rs), st'.need)
    decreases |rs| - i
  {
    hide Key, Pos, Step, Rank, Fair, Told, Active, Distinct, IdsFixItems, Storable, Sorted, DropsNothing, Steady;
    if st.stopped {
      assert End(0, rs) <= Pos(Infinity()) by { EndWithin(p, peer, rs); }
      ToldLess(p.items, peer, rs, st.out, Pos(Infinity()), End(0, rs), st.have);
      ToldLess(peer, p.items, rs, st.out, Pos(Infinity()), End(0, rs), st.need);
    } else if i < |rs| {
      assert rs[i..][0] == rs[i] && rs[i..][1..] == rs[i + 1..];
      StepCarries(p, peer, rs, i, st);
      ProcessCarries(p, peer, rs, i + 1, Step(p, st, rs[i]));
    }
  }

  lemma EndWithin(p: Party, peer: seq<Item>, rs: seq<Range>)
    requires Ground(p, peer, rs)
    ensures End(0, rs) <= Pos(Infinity())
  {
    hide Key, Pos, Distinct, Storable, IdsFixItems, FairPrints;
  }

  lemma ToldLess(s: seq<Item>, t: seq<Item>, rs: seq<Range>, out: seq<Range>, upto: nat, upto': nat, ids: seq<Id>)
    requires Told(s, t, rs, out, upto, ids) && upto' <= upto
    ensures Told(s, t, rs, out, upto', ids)
  {
    hide Key, Active;
  }

  /**
    One limited round: unless an answer to a fingerprint of no items is dropped,
    every difference the message left open is reported or still open in the
    reply, and the reply cannot mislead the peer.
   */
  lemma RoundCarries(p: Party, peer: seq<Item>, rs: seq<Range>)
    requires Ground(p, peer, rs) && Spares(p, Start(), rs)
    ensures var st := Process(p, Start(), rs);
            && Fair(p.hash, p.items, peer, st.out)
            && Told(p.items, peer, rs, st.out, End(0, rs), st.have) && Told(peer, p.items, rs, st.out, End(0, rs), st.need)
  {
    hide Key, Pos, Step, Rank, Active, Process, Spares;
    PlacedStart(p);
    StartDelivers(p);
    assert rs[0..] == rs;
    ProcessCarries(p, peer, rs, 0, Start());
  }
}
