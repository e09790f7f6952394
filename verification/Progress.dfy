/**
  Why a session ends under any frame limits (core/src/sync/negentropy/mod.rs).
  Every reply begins with the answer to the first range that needs one, so from
  one delivery to the next either that range gets closer to being settled or
  everything before some further item already is.
 */
module Progress {
  import opened Base
  import opened Items
  import opened Bounds
  import opened Ranges
  import opened IdSums
  import opened Reconcile
  import opened Geometry
  import opened Exactness
  import opened Totality
  import opened Soundness
  import opened Descent
  import opened Sessions
  import opened Limits

  /** How many items of either side lie at or after a position. */
  function Weight(s: seq<Item>, t: seq<Item>, lo: nat): nat
    requires Sorted(s) && Sorted(t)
  {
    |s| - Rank(s, lo) + |t| - Rank(t, lo)
  }

  /** No range is further than this from being settled. */
  function Deepest(s: seq<Item>, t: seq<Item>): nat {
    3 + Depth(|s|) + Depth(|t|)
  }

  lemma RankBelowDeepest(s: seq<Item>, t: seq<Item>, toInitiator: bool, lo: nat, r: Range)
    requires Sorted(s) && Sorted(t) && lo <= Pos(r.bound)
    ensures RangeRank(s, t, toInitiator, lo, r) <= Deepest(s, t)
    ensures RangeRank(s, t, toInitiator, lo, r) == RangeRank(t, s, toInitiator, lo, r)
    ensures !r.payload.Skip? ==> RangeRank(s, t, toInitiator, lo, r) > 0
  {
    hide Key, Pos, Depth, Rank;
    RankMonotone(s, lo, Pos(r.bound));
    RankMonotone(t, lo, Pos(r.bound));
    DepthMonotone(|Slice(s, lo, Pos(r.bound))|, |s|);
    DepthMonotone(|Slice(t, lo, Pos(r.bound))|, |t|);
  }

  /** Deliveries the items from `lo` on can still take, plus `d` for a range that starts there. */
  function Toll(s: seq<Item>, t: seq<Item>, lo: nat, d: nat): int
    requires Sorted(s) && Sorted(t)
  {
    Weight(s, t, lo) * (Deepest(s, t) + 1) + d
  }

  lemma Distribute(x: nat, y: nat, d: nat)
    ensures (x + y) * d == x * d + y * d
  {
  }

  lemma AtLeastOnce(x: nat, d: nat)
    ensures x > 0 ==> x * d >= d
    ensures x * d >= 0
  {
  }

  lemma Times(w: nat, w': nat, d: nat)
    ensures w' <= w ==> w' * (d + 1) <= w * (d + 1)
    ensures w' < w ==> w' * (d + 1) + d < w * (d + 1)
  {
    if w' <= w {
      Distribute(w', w - w', d + 1);
      AtLeastOnce(w - w', d + 1);
    }
  }

  /** Later positions cost less; past an item, by more than any range can cost. */
  lemma TollFalls(s: seq<Item>, t: seq<Item>, lo: nat, hi: nat, d: nat)
    requires Sorted(s) && Sorted(t) && lo <= hi
    ensures Toll(s, t, hi, d) <= Toll(s, t, lo, d)
    ensures Slice(s, lo, hi) != [] || Slice(t, lo, hi) != [] ==> Toll(s, t, hi, Deepest(s, t)) < Toll(s, t, lo, 0)
  {
    hide Key, Rank, Depth;
    RankMonotone(s, lo, hi);
    RankMonotone(t, lo, hi);
    Times(Weight(s, t, lo), Weight(s, t, hi), Deepest(s, t));
  }

  /** A range that, if it is answered at all, spans positions and an item, or runs to the end. */
  ghost predicate SolidRange(hash: Hash, s: seq<Item>, t: seq<Item>, lo: nat, r: Range)
    requires Sorted(s) && Sorted(t) && lo <= Pos(r.bound)
  {
    || r.payload.Skip?
    || r.payload == Fingerprint(FingerprintOf(hash, []))
    || (&& lo < Pos(r.bound)
        && (r.bound == Infinity() || Slice(s, lo, Pos(r.bound)) != [] || Slice(t, lo, Pos(r.bound)) != []))
  }

  ghost predicate Solid(hash: Hash, s: seq<Item>, t: seq<Item>, lo: nat, rs: seq<Range>)
    requires Sorted(s) && Sorted(t) && Ordered(lo, rs)
  {
    forall i :: 0 <= i < |rs| ==> SolidRange(hash, s, t, LoFrom(lo, rs, i), rs[i])
  }

  /** Every range `q` will answer is within `d` of the end of the session. */
  ghost predicate Near(q: Party, s: seq<Item>, lo: nat, rs: seq<Range>, d: int)
    requires Sorted(q.items) && Sorted(s) && Ordered(lo, rs)
  {
    forall i :: 0 <= i < |rs| && Answers(q, LoFrom(lo, rs, i), rs[i]) ==>
                  Toll(s, q.items, LoFrom(lo, rs, i), RangeRank(s, q.items, q.initiator, LoFrom(lo, rs, i), rs[i])) <= d
  }

  /** What a message keeps: solid ranges, each near enough to the end. */
  ghost predicate Closing(q: Party, s: seq<Item>, lo: nat, rs: seq<Range>, d: int)
    requires Sorted(q.items) && Sorted(s)
  {
    Ordered(lo, rs) && Solid(q.hash, s, q.items, lo, rs) && Near(q, s, lo, rs, d)
  }

  lemma ClosingConcat(q: Party, s: seq<Item>, lo: nat, a: seq<Range>, b: seq<Range>, d: int)
    requires Sorted(q.items) && Sorted(s) && Closing(q, s, lo, a, d) && Closing(q, s, End(lo, a), b, d)
    ensures Closing(q, s, lo, a + b, d)
  {
    hide Key, Pos, Slice, Answers, SolidRange, Toll, RangeRank;
    ConcatLo(lo, a, b);
    OrderedConcat(lo, a, b);
    var c := a + b;
    forall i | 0 <= i < |c|
      ensures SolidRange(q.hash, s, q.items, LoFrom(lo, c, i), c[i])
      ensures Answers(q, LoFrom(lo, c, i), c[i]) ==>
                Toll(s, q.items, LoFrom(lo, c, i), RangeRank(s, q.items, q.initiator, LoFrom(lo, c, i), c[i])) <= d
    {
      if i >= |a| {
        assert b[i - |a|] == c[i];
      }
    }
  }

  /** A Skip is never answered. */
  lemma SkipCloses(q: Party, s: seq<Item>, lo: nat, b: Bound, d: int)
    requires Sorted(q.items) && Sorted(s) && lo <= Pos(b)
    ensures Closing(q, s, lo, [Range(b, Skip)], d)
  {
    hide Key, Pos, Slice, Toll;
    assert LoFrom(lo, [Range(b, Skip)], 0) == lo;
  }

  /** An answered solid range is a real one. */
  lemma AnsweredIsSolid(p: Party, s: seq<Item>, lo: nat, r: Range)
    requires Sorted(p.items) && Sorted(s) && lo <= Pos(r.bound) && Answers(p, lo, r)
    requires SolidRange(p.hash, s, p.items, lo, r)
    ensures lo < Pos(r.bound)
    ensures r.bound == Infinity() || Slice(s, lo, Pos(r.bound)) != [] || Slice(p.items, lo, Pos(r.bound)) != []
  {
    hide Key, Pos, Rank, FingerprintOf;
    if r.payload == Fingerprint(FingerprintOf(p.hash, [])) {
      assert Slice(p.items, lo, Pos(r.bound)) != [];
    }
  }

  /** The parts of a split are solid: a list spans the whole range, and no bucket is empty. */
  lemma SplitSolid(p: Party, t: seq<Item>, lo: nat, ub: Bound)
    requires Sorted(p.items) && Sorted(t) && lo < Pos(ub) && Rank(p.items, lo) <= Rank(p.items, Pos(ub))
    requires ub == Infinity() || Slice(t, lo, Pos(ub)) != [] || Slice(p.items, lo, Pos(ub)) != []
    ensures var rs := SplitRange(p, Rank(p.items, lo), Rank(p.items, Pos(ub)), ub);
            Ordered(lo, rs) && Solid(p.hash, p.items, t, lo, rs)
  {
    hide Key, Pos, FingerprintOf, LowerBoundAt, SplitRange, Bucket, Edge;
    var lower, upper := Rank(p.items, lo), Rank(p.items, Pos(ub));
    SplitHonest(p, lower, upper, ub, lo);
    var rs := SplitRange(p, lower, upper, ub);
    if upper - lower < ID_LIST_THRESHOLD {
      SplitSmall(p, lower, upper, ub, lo);
      SplitOne(p, lower, upper, ub);
    } else {
      forall i | 0 <= i < |rs| ensures SolidRange(p.hash, p.items, t, LoFrom(lo, rs, i), rs[i]) {
        BucketRanks(p, lower, upper, ub, lo, i);
      }
    }
  }

  lemma SplitOne(p: Party, lower: nat, upper: nat, ub: Bound)
    requires Sorted(p.items) && lower <= upper <= |p.items| && upper - lower < ID_LIST_THRESHOLD
    ensures SplitRange(p, lower, upper, ub) == [Range(ub, IdList(IdsOf(p.items[lower..upper])))]
  {
  }

  /** A complete answer is solid again and one delivery closer. */
  lemma ReplyCloses(p: Party, peer: Party, st: State, r: Range, d: int)
    requires Ready(p) && Ready(peer) && p.hash == peer.hash && p.initiator == !peer.initiator && Placed(p, st)
    requires Pos(st.bound) <= Pos(r.bound) && Replies(p, st, r)
    requires SolidRange(p.hash, peer.items, p.items, Pos(st.bound), r)
    requires Toll(peer.items, p.items, Pos(st.bound), RangeRank(peer.items, p.items, p.initiator, Pos(st.bound), r)) <= d + 1
    ensures Closing(peer, p.items, Pos(st.bound), Reply(p, st, r), d)
  {
    hide Key, Pos, FingerprintOf, Rank, Slice, Reply, RangeRank, SolidRange, Toll;
    var lo, o := Pos(st.bound), Reply(p, st, r);
    ReplySolid(p, peer.items, st, r);
    RankBelowDeepest(peer.items, p.items, p.initiator, lo, r);
    var rank := RangeRank(p.items, peer.items, p.initiator, lo, r);
    ReplyRank(p, peer.items, st, r, rank);
    forall i | 0 <= i < |o|
      ensures Toll(p.items, peer.items, LoFrom(lo, o, i), RangeRank(p.items, peer.items, peer.initiator, LoFrom(lo, o, i), o[i])) <= d
    {
      OrderedMonotone(lo, o, 0, i);
      TollSteps(p.items, peer.items, lo, LoFrom(lo, o, i), rank, RangeRank(p.items, peer.items, peer.initiator, LoFrom(lo, o, i), o[i]));
    }
  }

  lemma TollSteps(s: seq<Item>, t: seq<Item>, lo: nat, lo': nat, d: nat, d': nat)
    requires Sorted(s) && Sorted(t) && lo <= lo' && d' < d
    ensures Toll(s, t, lo', d') < Toll(t, s, lo, d)
  {
    hide Key, Rank, Depth, Slice;
    TollFalls(s, t, lo, lo', d');
  }

  lemma ReplySolid(p: Party, t: seq<Item>, st: State, r: Range)
    requires Ready(p) && Sorted(t) && Placed(p, st) && Pos(st.bound) <= Pos(r.bound) && Replies(p, st, r)
    requires SolidRange(p.hash, t, p.items, Pos(st.bound), r)
    ensures Ordered(Pos(st.bound), Reply(p, st, r)) && Solid(p.hash, p.items, t, Pos(st.bound), Reply(p, st, r))
  {
    hide Key, Pos, FingerprintOf, Rank, Slice, SplitRange;
    var lo, o := Pos(st.bound), Reply(p, st, r);
    AnsweredIsSolid(p, t, lo, r);
    RankMonotone(p.items, lo, Pos(r.bound));
    if r.payload.IdList? {
      assert LoFrom(lo, o, 0) == lo;
    } else {
      SplitSolid(p, t, lo, r.bound);
    }
  }

  /** Two engines that talk to each other. */
  ghost predicate Peers(p: Party, peer: Party) {
    && Ready(p) && Ready(peer) && p.hash == peer.hash && p.initiator == !peer.initiator
    && Storable(p.items) && Storable(peer.items)
  }

  /** Whatever starts at or after `pos` is within `d` of the end. */
  ghost predicate Beyond(p: Party, peer: Party, pos: nat, d: int)
    requires Sorted(p.items) && Sorted(peer.items)
  {
    pos < Pos(Infinity()) ==> Toll(p.items, peer.items, pos, Deepest(p.items, peer.items)) <= d
  }

  /** An answer up to `end` that passes an item leaves less than it cost. */
  lemma AnswerPasses(p: Party, peer: Party, lo: nat, end: nat, r: Range, d: int)
    requires Peers(p, peer) && lo <= Pos(r.bound) && lo <= end
    requires Toll(peer.items, p.items, lo, RangeRank(peer.items, p.items, p.initiator, lo, r)) <= d + 1
    requires Slice(p.items, lo, end) != [] || Slice(peer.items, lo, end) != []
    ensures Beyond(p, peer, end, d)
  {
    hide Key, Pos, Slice, Rank, RangeRank, Depth;
    TollFalls(p.items, peer.items, lo, end, 0);
  }

  /** A continuation is solid and, past an answered item, near enough to the end. */
  lemma ContinuationCloses(p: Party, peer: Party, lo: nat, from: nat, d: int)
    requires Peers(p, peer) && lo <= from <= Pos(Infinity()) && Beyond(p, peer, lo, d)
    requires lo == from || lo < Pos(Infinity())
    ensures Closing(peer, p.items, lo, [Continuation(p, Rank(p.items, from))], d)
  {
    hide Key, Pos, Rank, FingerprintOf, RangeRank, Depth;
    var last := Continuation(p, Rank(p.items, from));
    ContinuationSays(p, from);
    assert LoFrom(lo, [last], 0) == lo;
    RankBelowDeepest(p.items, peer.items, peer.initiator, lo, last);
    if lo == Pos(Infinity()) {
      assert Slice(p.items, lo, lo) == [] && Slice(peer.items, lo, lo) == [];
    }
  }

  /** Where a round stands: its output is closing, and so is whatever it appends next. */
  ghost predicate Moving(p: Party, peer: Party, st: State, d: int)
    requires Sorted(p.items) && Sorted(peer.items)
  {
    && Closing(peer, p.items, 0, st.out, d) && Trusty(p.items, st.out)
    && (!st.stopped ==> Steady(p, st) && (st.out != [] ==> Beyond(p, peer, End(0, st.out), d)))
  }

  /** The range about to be processed came in a closing message. */
  ghost predicate Due(p: Party, peer: Party, lo: nat, r: Range, d: int)
    requires Sorted(p.items) && Sorted(peer.items)
  {
    && lo <= Pos(r.bound) <= Pos(Infinity())
    && SolidRange(p.hash, peer.items, p.items, lo, r)
    && (Answers(p, lo, r) ==> Toll(peer.items, p.items, lo, RangeRank(peer.items, p.items, p.initiator, lo, r)) <= d + 1)
  }

  lemma FlushCloses(p: Party, peer: Party, st: State, d: int)
    requires Peers(p, peer) && Placed(p, st)
    ensures Closing(peer, p.items, End(0, st.out), Flush(st), d) && End(End(0, st.out), Flush(st)) == Pos(st.bound)
  {
    hide Key, Pos, Rank, Toll;
    if st.skip {
      SkipCloses(peer, p.items, End(0, st.out), st.bound, d);
    }
  }

  lemma AppendCloses(p: Party, peer: Party, st: State, o: seq<Range>, d: int)
    requires Peers(p, peer) && Placed(p, st) && Closing(peer, p.items, 0, st.out, d) && Closing(peer, p.items, Pos(st.bound), o, d)
    ensures Closing(peer, p.items, 0, st.out + (Flush(st) + o), d) && End(0, st.out + (Flush(st) + o)) == End(Pos(st.bound), o)
  {
    hide Key, Pos, Rank, Toll, Closing, Flush, LoFrom;
    FlushCloses(p, peer, st, d);
    ClosingConcat(peer, p.items, End(0, st.out), Flush(st), o, d);
    ClosingConcat(peer, p.items, 0, st.out, Flush(st) + o, d);
    ConcatLo(End(0, st.out), Flush(st), o);
    ConcatLo(0, st.out, Flush(st) + o);
  }

  lemma ReplyMoves(p: Party, peer: Party, st: State, r: Range, d: int)
    requires Peers(p, peer) && !st.stopped && Moving(p, peer, st, d) && Due(p, peer, Pos(st.bound), r, d) && Replies(p, st, r)
    ensures var out := st.out + (Flush(st) + Reply(p, st, r));
            Closing(peer, p.items, 0, out, d) && Beyond(p, peer, End(0, out), d)
  {
    hide Key, Pos, Rank, Toll, Closing, Flush, LoFrom, Reply, Slice, FingerprintOf, RangeRank, Storable, Sorted, Sane;
    var lo := Pos(st.bound);
    ReplyCloses(p, peer, st, r, d);
    AppendCloses(p, peer, st, Reply(p, st, r), d);
    ReplyHonest(p, st, r);
    AnsweredIsSolid(p, peer.items, lo, r);
    if r.bound != Infinity() {
      AnswerPasses(p, peer, lo, Pos(r.bound), r, d);
    }
  }

  lemma DropMoves(p: Party, peer: Party, st: State, r: Range, d: int)
    requires Peers(p, peer) && !st.stopped && Moving(p, peer, st, d) && Due(p, peer, Pos(st.bound), r, d) && Drops(p, st, r)
    requires st.out != []
    ensures Closing(peer, p.items, 0, st.out + [Continuation(p, Rank(p.items, Pos(r.bound)))], d)
  {
    hide Key, Pos, Rank, Toll, Closing, Flush, Reply, Slice, FingerprintOf, RangeRank, Storable, Sorted, Sane, FullLen, Ordered;
    AnsweredIsSolid(p, peer.items, Pos(st.bound), r);
    ContinuationCloses(p, peer, End(0, st.out), Pos(r.bound), d);
    ClosingConcat(peer, p.items, 0, st.out, [Continuation(p, Rank(p.items, Pos(r.bound)))], d);
  }

  /** A cut list lists something, or the whole of a range that spans an item. */
  lemma CutMoves(p: Party, peer: Party, st: State, r: Range, d: int)
    requires Peers(p, peer) && !st.stopped && Moving(p, peer, st, d) && Due(p, peer, Pos(st.bound), r, d) && Cuts(p, st, r)
    requires st.rank + Listed(p, st, r) <= |p.items|
    ensures Closing(peer, p.items, 0, st.out + (Flush(st) + Cut(p, st, r)) + [Continuation(p, st.rank + Listed(p, st, r))], d)
  {
    hide Key, Pos, Rank, Toll, Closing, Flush, Slice, FingerprintOf, RangeRank, Storable, Sorted, Sane, FullLen, Ordered;
    var lo, cut, last := Pos(st.bound), Cut(p, st, r), [Continuation(p, st.rank + Listed(p, st, r))];
    CutCloses(p, peer, st, r, d);
    ClosingConcat(peer, p.items, lo, cut, last, d);
    AppendCloses(p, peer, st, cut + last, d);
    assert st.out + (Flush(st) + cut) + last == st.out + (Flush(st) + (cut + last));
  }

  lemma CutCloses(p: Party, peer: Party, st: State, r: Range, d: int)
    requires Peers(p, peer) && Steady(p, st) && Due(p, peer, Pos(st.bound), r, d) && Cuts(p, st, r)
    requires st.rank + Listed(p, st, r) <= |p.items|
    ensures Closing(peer, p.items, Pos(st.bound), Cut(p, st, r), d)
    ensures Closing(peer, p.items, End(Pos(st.bound), Cut(p, st, r)), [Continuation(p, st.rank + Listed(p, st, r))], d)
  {
    hide Key, Pos, Rank, Toll, Closing, Flush, FingerprintOf, RangeRank, Storable, FullLen, Ordered;
    var lo, hi, n, cut := Pos(st.bound), Pos(r.bound), Listed(p, st, r), Cut(p, st, r);
    RankMonotone(p.items, lo, hi);
    CutList(p, lo, r.bound, n);
    var end := cut[0].bound;
    AnsweredIsSolid(p, peer.items, lo, r);
    CutSpans(p, peer, st, r);
    if Pos(end) < Pos(Infinity()) {
      AnswerPasses(p, peer, lo, Pos(end), r, d);
    }
    ListCloses(p, peer, lo, cut[0], d);
    ContinuationCloses(p, peer, Pos(end), Pos(end), d);
  }

  /** An initiator answers no list. */
  lemma ListCloses(p: Party, peer: Party, lo: nat, r: Range, d: int)
    requires Peers(p, peer) && !p.initiator && r.payload.IdList? && lo < Pos(r.bound)
    requires r.bound == Infinity() || Slice(p.items, lo, Pos(r.bound)) != [] || Slice(peer.items, lo, Pos(r.bound)) != []
    ensures Closing(peer, p.items, lo, [r], d)
  {
    hide Key, Pos, Slice, Toll, RangeRank;
    assert LoFrom(lo, [r], 0) == lo;
  }

  lemma CutSpans(p: Party, peer: Party, st: State, r: Range)
    requires Peers(p, peer) && Steady(p, st) && Pos(st.bound) < Pos(r.bound) && Cuts(p, st, r)
    requires r.bound == Infinity() || Slice(peer.items, Pos(st.bound), Pos(r.bound)) != [] || Slice(p.items, Pos(st.bound), Pos(r.bound)) != []
    requires var lo, end := Pos(st.bound), Cut(p, st, r)[0].bound;
             lo <= Pos(end) && Rank(p.items, Pos(end)) == Rank(p.items, lo) + Listed(p, st, r)
    ensures var lo, end := Pos(st.bound), Cut(p, st, r)[0].bound;
            && lo < Pos(end)
            && (end == Infinity() || Slice(p.items, lo, Pos(end)) != [] || Slice(peer.items, lo, Pos(end)) != [])
  {
    hide Key, Pos, Rank, Flush, FingerprintOf, FullLen;
    var lo, n, end := Pos(st.bound), Listed(p, st, r), Cut(p, st, r)[0].bound;
    if n < |Slice(p.items, lo, Pos(r.bound))| {
      assert n > 0;
      assert Slice(p.items, lo, Pos(end)) != [];
    }
  }

  /** A first answer is never dropped. */
  lemma FirstFits(p: Party, st: State, r: Range)
    requires Ready(p) && Steady(p, st) && Pos(st.bound) <= Pos(r.bound) && Drops(p, st, r)
    ensures st.out != []
  {
    hide Key, Pos, Rank, Flush, FingerprintOf, FullLen, SplitRange, Sane, Placed;
    if st.out == [] {
      BoundTs(st.bound, r.bound);
      StepDrop(p, st, r);
      LowerBoundIsRank(p.items, Pos(st.bound), r.bound);
      FirstMismatchFits(p, st, r);
    }
  }

  lemma StepMoves(p: Party, peer: Party, st: State, r: Range, d: int)
    requires Peers(p, peer) && !st.stopped && Moving(p, peer, st, d) && Due(p, peer, Pos(st.bound), r, d)
    requires st.rank <= |p.items|
    ensures Moving(p, peer, Step(p, st, r), d)
    ensures !Answers(p, Pos(st.bound), r) ==> Step(p, st, r).out == st.out
    ensures !Step(p, st, r).stopped ==> Step(p, st, r).bound == r.bound
  {
    hide Key, Pos, Rank, Toll, Closing, Flush, Slice, FingerprintOf, RangeRank, Storable, Sorted, Sane, FullLen, Step, Reply, Cut,
         Trusty, Beyond, Placed, Listed;
    StepSteady(p, st, r);
    if !Replies(p, st, r) {
      StepPass(p, st, r);
    } else if r.payload.IdList? {
      StepCut(p, st, r);
      if Cuts(p, st, r) {
        CutMoves(p, peer, st, r, d);
      } else {
        ReplyMoves(p, peer, st, r, d);
      }
    } else {
      StepDrop(p, st, r);
      if Drops(p, st, r) {
        FirstFits(p, st, r);
        DropMoves(p, peer, st, r, d);
      } else {
        ReplyMoves(p, peer, st, r, d);
      }
    }
  }

  lemma DueFrom(p: Party, peer: Party, rs: seq<Range>, i: nat, d: int)
    requires Peers(p, peer) && Closing(p, peer.items, 0, rs, d + 1) && Trusty(peer.items, rs) && i < |rs|
    ensures Due(p, peer, LoFrom(0, rs, i), rs[i], d)
  {
    hide Key, Pos, Slice, FingerprintOf, Toll, RangeRank, Storable, SolidRange;
  }

  lemma {:induction false} ProcessMoves(p: Party, peer: Party, rs: seq<Range>, i: nat, st: State, d: int)
    requires Peers(p, peer) && Closing(p, peer.items, 0, rs, d + 1) && Trusty(peer.items, rs) && i <= |rs|
    requires Moving(p, peer, st, d) && (!st.stopped ==> st.rank <= |p.items| && Pos(st.bound) == LoFrom(0, rs, i))
    ensures Moving(p, peer, Process(p, st, rs[i..]), d)
    ensures d < 0 && !st.stopped ==> Process(p, st, rs[i..]).out == st.out
    decreases |rs| - i
  {
    hide Key, Pos, Slice, FingerprintOf, Toll, RangeRank, Storable, Step, Closing, Trusty, Beyond, Sorted;
    if i < |rs| && !st.stopped {
      assert rs[i..][0] == rs[i] && rs[i..][1..] == rs[i + 1..];
      DueFrom(p, peer, rs, i, d);
      StepMoves(p, peer, st, rs[i], d);
      if d < 0 {
        NothingDue(p, peer, Pos(st.bound), rs[i], d);
        StepPass(p, st, rs[i]);
      }
      ProcessMoves(p, peer, rs, i + 1, Step(p, st, rs[i]), d);
    }
  }

  /** At distance zero nothing is left to answer. */
  lemma NothingDue(p: Party, peer: Party, lo: nat, r: Range, d: int)
    requires Peers(p, peer) && Due(p, peer, lo, r, d) && d < 0
    ensures !Answers(p, lo, r)
  {
    hide Key, Pos, Slice, FingerprintOf, RangeRank, Storable, Rank, Depth;
    RankBelowDeepest(peer.items, p.items, p.initiator, lo, r);
    Times(Weight(peer.items, p.items, lo), 0, Deepest(peer.items, p.items));
  }

  /**
    Every limited round makes progress: what the reply still asks is one
    delivery closer to the end, and at the end there is no reply.
   */
  lemma RoundMoves(p: Party, peer: Party, rs: seq<Range>, d: int)
    requires Peers(p, peer) && Closing(p, peer.items, 0, rs, d + 1) && Trusty(peer.items, rs)
    ensures var out := Process(p, Start(), rs).out;
            Closing(peer, p.items, 0, out, d) && Trusty(p.items, out) && (d < 0 ==> out == [])
  {
    hide Key, Pos, Slice, FingerprintOf, Toll, RangeRank, Storable, Step, Process;
    PlacedStart(p);
    StartDelivers(p);
    assert rs[0..] == rs;
    ProcessMoves(p, peer, rs, 0, Start(), d);
  }

  /* ----- the first answer of a round is always sent ----- */

  lemma {:induction false} ProcessGrows(p: Party, st: State, rs: seq<Range>)
    requires Ready(p) && (!st.stopped ==> st.rank <= |p.items|)
    ensures st.out <= Process(p, st, rs).out
    decreases |rs|
  {
    hide Key, Pos, FingerprintOf, FullLen, SplitRange, Flush;
    if !st.stopped && rs != [] {
      StepGrows(p, st, rs[0]);
      ProcessGrows(p, Step(p, st, rs[0]), rs[1..]);
    }
  }

  lemma StepGrows(p: Party, st: State, r: Range)
    requires Ready(p) && st.rank <= |p.items|
    ensures st.out <= Step(p, st, r).out
  {
    hide Key, Pos, FingerprintOf, FullLen, SplitRange, Flush;
  }

  /** A round may be watched from any range on; until it stops, it has come exactly that far. */
  lemma {:induction false} ProcessFrom(p: Party, st: State, rs: seq<Range>, i: nat)
    requires Ready(p) && Delivered(p, st) && AllEncodable(st.bound.ts, rs) && i <= |rs|
    ensures var mid := Process(p, st, rs[..i]);
            && Delivered(p, mid)
            && Process(p, st, rs) == Process(p, mid, rs[i..])
            && (!st.stopped && !mid.stopped ==> mid.bound.ts == LastTs(st.bound.ts, rs[..i]))
    decreases i
  {
    hide Key, Pos, Step, AllEncodable, FullLen;
    if i == 0 {
      assert rs[..0] == [] && rs[0..] == rs;
    } else if !st.stopped {
      AllEncodableTail(st.bound.ts, rs);
      var st', rest := Step(p, st, rs[0]), rs[1..];
      StepDelivers(p, st, rs[0]);
      assert rs[..i][1..] == rest[..i - 1] && rest[i - 1..] == rs[i..];
      if st'.stopped {
        assert Process(p, st', rest[..i - 1]) == st' && Process(p, st', rest) == st';
      } else {
        ProcessFrom(p, st', rest, i - 1);
        assert LastTs(st.bound.ts, rs[..i]) == LastTs(st'.bound.ts, rest[..i - 1]);
      }
    }
  }

  /** These ranges begin with the answer, if there is one, to a range heard with an empty output. */
  ghost predicate BeginsWithAnswer(p: Party, st: State, r: Range, out: seq<Range>)
    requires Ready(p) && st.rank <= |p.items|
  {
    var upper := LowerBound(p.items, st.rank, |p.items|, r.bound);
    match r.payload
    case Skip => true
    case Fingerprint(fp) =>
      fp != FingerprintOf(p.hash, p.items[st.rank..upper]) ==> Flush(st) + SplitRange(p, st.rank, upper, r.bound) <= out
    case IdList(_) =>
      !p.initiator ==> exists n: nat :: n <= upper - st.rank && (n == upper - st.rank || n >= 100)
                                        && ListReply(p, st, r.bound, upper, n) <= out
  }

  lemma FirstAnswerSent(p: Party, st: State, r: Range, out: seq<Range>)
    requires Ready(p) && Sane(p, st) && st.out == [] && st.bound.ts <= r.bound.ts && Step(p, st, r).out <= out
    ensures BeginsWithAnswer(p, st, r, out)
  {
    hide Key, Pos, Step, FingerprintOf, Flush, SplitRange, LowerBound, FullLen, AllEncodable, Fit, ListReply;
    if r.payload.Fingerprint? && r.payload.fp != FingerprintOf(p.hash, p.items[st.rank..LowerBound(p.items, st.rank, |p.items|, r.bound)]) {
      FirstMismatchFits(p, st, r);
    } else if r.payload.IdList? && !p.initiator {
      FirstListSent(p, st, r);
    }
  }

  /**
    The reply to any message begins with the answer to the first range that
    needs one: complete if it was a fingerprint, with every id of the range or at
    least a hundred if it was an id list.
   */
  lemma ReplyBeginsWithFirstAnswer(p: Party, rs: seq<Range>, i: nat)
    requires Ready(p) && AllEncodable(0, rs) && i < |rs|
    requires !Process(p, Start(), rs[..i]).stopped && Process(p, Start(), rs[..i]).out == []
    ensures var st, all := Process(p, Start(), rs[..i]), Process(p, Start(), rs);
            && st.rank <= |p.items| && BeginsWithAnswer(p, st, rs[i], all.out)
            && ReconcileSpec(p, EncodeMessage(rs)) == Ok(Outcome(p, all))
  {
    hide Key, Pos, Step, Process, EncodeRanges, ReconcileSpec, BeginsWithAnswer, FullLen;
    StartDelivers(p);
    ProcessFrom(p, Start(), rs, i);
    var st, r := Process(p, Start(), rs[..i]), rs[i];
    assert rs[i..][0] == r;
    ProcessStep(p, st, rs[i..]);
    StepDelivers(p, st, r);
    ProcessGrows(p, Step(p, st, r), rs[i..][1..]);
    ProcessEncodable(p, rs);
    FirstAnswerSent(p, st, r, Process(p, Start(), rs).out);
  }

  lemma ProcessStep(p: Party, st: State, rs: seq<Range>)
    requires Ready(p) && Sane(p, st) && rs != []
    ensures Process(p, st, rs) == Process(p, Step(p, st, rs[0]), rs[1..])
  {
  }

  lemma FirstListSent(p: Party, st: State, r: Range)
    requires Ready(p) && Sane(p, st) && st.bound.ts <= r.bound.ts
    requires st.out == [] && r.payload.IdList? && !p.initiator
    ensures var upper := LowerBound(p.items, st.rank, |p.items|, r.bound);
            var n := Fit(p.limit, FullLen(st.out), 0, upper - st.rank);
            (n == upper - st.rank || n >= 100) && ListReply(p, st, r.bound, upper, n) <= Step(p, st, r).out
  {
    hide Key, Pos, FingerprintOf, LowerBound, FullLen, Fit, Flush;
    FirstListProgress(p, st, r);
  }
}
