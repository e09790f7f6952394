/**
  `reconcile` on arbitrary bytes (core/src/sync/negentropy/mod.rs): whatever the
  peer sends, the ranges sent back can be read by any decoder, and a reply never
  exceeds the frame limit.
 */
module Totality {
  import opened Base
  import opened Items
  import opened Bounds
  import opened Ranges
  import opened IdSums
  import opened Reconcile

  /** The loop invariant on arbitrary input. */
  ghost predicate Sane(p: Party, st: State) {
    && !st.stopped
    && st.rank <= |p.items|
    && (st.rank < |p.items| ==> Pos(st.bound) <= Key(p.items[st.rank]))
    && AllEncodable(0, st.out)
    && LastTs(0, st.out) <= st.bound.ts
    && !Exceeds(p.limit, FullLen(st.out))
  }

  /** Positions never run ahead of timestamps. */
  lemma KeyTs(x: Item, y: Item)
    requires Key(x) <= Key(y)
    ensures x.sortKey <= y.sortKey
  {
    hide Key;
    KeyOrder(y, x);
  }

  lemma AllEncodableConcat(last: u64, a: seq<Range>, b: seq<Range>)
    requires AllEncodable(last, a) && AllEncodable(LastTs(last, a), b)
    ensures AllEncodable(last, a + b)
    ensures LastTs(last, a + b) == LastTs(LastTs(last, a), b)
  {
    var c := a + b;
    forall i | 0 <= i < |c| ensures Encodable(LastTs(last, c[..i]), c[i]) {
      if i < |a| {
        assert c[..i] == a[..i];
      } else {
        var j := i - |a|;
        assert c[..i] == a + b[..j];
        assert LastTs(last, c[..i]) == LastTs(LastTs(last, a), b[..j]);
        assert c[i] == b[j];
      }
    }
  }

  lemma OneEncodable(last: u64, r: Range)
    requires Encodable(last, r)
    ensures AllEncodable(last, [r]) && LastTs(last, [r]) == r.bound.ts
  {
    assert [r][..0] == [];
  }

  /** The items of a processed range lie between its bounds' timestamps. */
  lemma RangeTimestamps(p: Party, st: State, r: Range, i: nat)
    requires Ready(p) && st.rank <= |p.items|
    requires st.rank < |p.items| ==> Pos(st.bound) <= Key(p.items[st.rank])
    requires st.rank <= i < LowerBound(p.items, st.rank, |p.items|, r.bound)
    ensures st.bound.ts <= p.items[i].sortKey <= r.bound.ts
  {
    assert Pos(st.bound) <= Key(p.items[st.rank]) <= Key(p.items[i]) < Pos(r.bound);
    KeyTs(AsItem(st.bound), p.items[i]);
    KeyTs(p.items[i], AsItem(r.bound));
  }

  lemma BucketTs(p: Party, lower: nat, upper: nat, ub: Bound, i: nat)
    requires Sorted(p.items) && lower + ID_LIST_THRESHOLD <= upper <= |p.items| && i < BUCKETS
    ensures var to, b := Edge(lower, upper - lower, i + 1), Bucket(p, lower, upper, ub, i);
            && lower < to <= upper
            && (to == upper <==> i == BUCKETS - 1)
            && b.payload.Fingerprint? && |b.payload.fp| == 16
            && b.bound.ts == if to == upper then ub.ts else p.items[to].sortKey
  {
    hide Pos, Key, Edge, FingerprintOf;
    var n := upper - lower;
    EdgeMonotone(lower, n, 0, i + 1);
    EdgeMonotone(lower, n, i + 1, BUCKETS);
    EdgeSteps(lower, n, 0);
  }

  lemma SplitEncodable(p: Party, lower: nat, upper: nat, ub: Bound, last: u64)
    requires Ready(p) && lower <= upper <= |p.items| && last <= ub.ts
    requires forall i :: lower <= i < upper ==> last <= p.items[i].sortKey <= ub.ts
    ensures AllEncodable(last, SplitRange(p, lower, upper, ub))
    ensures LastTs(last, SplitRange(p, lower, upper, ub)) == ub.ts
  {
    hide Pos, Key, Edge, Bucket;
    var rs := SplitRange(p, lower, upper, ub);
    if upper - lower < ID_LIST_THRESHOLD {
      OneEncodable(last, rs[0]);
    } else {
      BucketTs(p, lower, upper, ub, BUCKETS - 1);
      assert rs[BUCKETS - 1] == Bucket(p, lower, upper, ub, BUCKETS - 1);
      forall i | 0 <= i < |rs| ensures Encodable(LastTs(last, rs[..i]), rs[i]) {
        BucketStep(p, lower, upper, ub, last, i);
      }
    }
  }

  lemma BucketStep(p: Party, lower: nat, upper: nat, ub: Bound, last: u64, i: nat)
    requires Ready(p) && lower + ID_LIST_THRESHOLD <= upper <= |p.items| && last <= ub.ts
    requires forall j :: lower <= j < upper ==> last <= p.items[j].sortKey <= ub.ts
    requires i < BUCKETS
    ensures var rs := SplitRange(p, lower, upper, ub);
            Encodable(LastTs(last, rs[..i]), rs[i])
  {
    hide Pos, Key, Edge, Bucket;
    var rs := SplitRange(p, lower, upper, ub);
    var n := upper - lower;
    BucketTs(p, lower, upper, ub, i);
    assert rs[i] == Bucket(p, lower, upper, ub, i);
    if i > 0 {
      BucketTs(p, lower, upper, ub, i - 1);
      assert rs[i - 1] == Bucket(p, lower, upper, ub, i - 1);
      EdgeMonotone(lower, n, i, i + 1);
      var from, to := Edge(lower, n, i), Edge(lower, n, i + 1);
      if to < upper {
        KeyTs(p.items[from], p.items[to]);
      }
    }
  }

  lemma {:induction false} EncodedLength(last: u64, rs: seq<Range>, c: nat)
    requires forall i, l: u64 :: 0 <= i < |rs| ==> |EncodeRange(l, rs[i])| <= c
    ensures |EncodeRanges(last, rs)| <= c * |rs|
    decreases |rs|
  {
    hide EncodeRange;
    if rs != [] {
      EncodedLength(rs[0].bound.ts, rs[1..], c);
      assert c * |rs| == c + c * |rs[1..]|;
    }
  }

  /** A split takes at most 1037 bytes. */
  lemma SplitLength(p: Party, lower: nat, upper: nat, ub: Bound, last: u64)
    requires Ready(p) && lower <= upper <= |p.items|
    ensures |EncodeRanges(last, SplitRange(p, lower, upper, ub))| <= 1037
    ensures ub == Infinity() ==> |EncodeRanges(last, SplitRange(p, lower, upper, ub))| <= 996
  {
    hide Pos, Key, Edge, Bucket, EncodeRange;
    var rs := SplitRange(p, lower, upper, ub);
    if upper - lower < ID_LIST_THRESHOLD {
      EncodeRangesOne(last, rs[0]);
      RangeLength(last, rs[0]);
    } else {
      forall i, l: u64 | 0 <= i < |rs| ensures |EncodeRange(l, rs[i])| <= 60 {
        BucketTs(p, lower, upper, ub, i);
        assert rs[i] == Bucket(p, lower, upper, ub, i);
        RangeLength(l, rs[i]);
      }
      EncodedLength(last, rs, 60);
    }
  }

  lemma FullLenConcat(a: seq<Range>, b: seq<Range>)
    ensures FullLen(a + b) == FullLen(a) + |EncodeRanges(LastTs(0, a), b)|
  {
    EncodeRangesConcat(0, a, b);
  }

  lemma FlushEncodable(p: Party, st: State)
    requires Sane(p, st)
    ensures var out := st.out + Flush(st);
            AllEncodable(0, out) && LastTs(0, out) <= st.bound.ts && FullLen(out) <= FullLen(st.out) + 44
  {
    hide Pos, Key, EncodeRange, FullLen;
    var last := LastTs(0, st.out);
    if st.skip {
      var r := Range(st.bound, Skip);
      OneEncodable(last, r);
      AllEncodableConcat(0, st.out, [r]);
      FullLenConcat(st.out, [r]);
      EncodeRangesOne(last, r);
      RangeLength(last, r);
    } else {
      assert st.out + Flush(st) == st.out;
    }
  }

  lemma ContinuationFits(p: Party, out: seq<Range>, upper: nat)
    requires Ready(p) && upper <= |p.items| && AllEncodable(0, out)
    ensures var full := out + [Continuation(p, upper)];
            AllEncodable(0, full) && FullLen(full) == FullLen(out) + 19
  {
    hide Pos, Key, EncodeRange, FullLen, FingerprintOf;
    var last, r := LastTs(0, out), Continuation(p, upper);
    OneEncodable(last, r);
    AllEncodableConcat(0, out, [r]);
    FullLenConcat(out, [r]);
    EncodeRangesOne(last, r);
    RangeLength(last, r);
  }

  /** What every step guarantees about its output, stopped or not. */
  ghost predicate Delivered(p: Party, st: State) {
    && AllEncodable(0, st.out)
    && (!st.stopped ==> Sane(p, st))
    && (st.stopped ==> p.limit.Some? && FullLen(st.out) <= p.limit.value)
  }

  lemma FinishDelivers(p: Party, st: State, o: seq<Range>, upper: nat, b: Bound)
    requires Ready(p) && upper <= |p.items| && !st.stopped
    requires upper < |p.items| ==> Pos(b) <= Key(p.items[upper])
    requires AllEncodable(0, st.out) && AllEncodable(0, st.out + o) && LastTs(0, st.out + o) <= b.ts
    requires p.limit.Some? ==> FullLen(st.out) + 19 <= p.limit.value
    ensures Delivered(p, Finish(p, st, o, upper, b))
  {
    hide Pos, Key, EncodeRange, FullLen, FingerprintOf;
    ContinuationFits(p, st.out, upper);
  }

  lemma LowerBoundLands(p: Party, st: State, b: Bound)
    requires st.rank <= |p.items|
    ensures var upper := LowerBound(p.items, st.rank, |p.items|, b);
            upper < |p.items| ==> Pos(b) <= Key(p.items[upper])
  {
    hide Pos, Key;
  }

  lemma StepFingerprint(p: Party, st: State, r: Range)
    requires Ready(p) && Sane(p, st) && st.bound.ts <= r.bound.ts
    ensures var upper := LowerBound(p.items, st.rank, |p.items|, r.bound);
            var o := Flush(st) + SplitRange(p, st.rank, upper, r.bound);
            && AllEncodable(0, st.out + o)
            && LastTs(0, st.out + o) == r.bound.ts
            && FullLen(st.out + o) <= FullLen(st.out) + 1081
  {
    hide Pos, Key, EncodeRange, FullLen, SplitRange, LowerBound, Flush;
    var upper := LowerBound(p.items, st.rank, |p.items|, r.bound);
    var front, split := st.out + Flush(st), SplitRange(p, st.rank, upper, r.bound);
    assert st.out + (Flush(st) + split) == front + split;
    FlushEncodable(p, st);
    var last := LastTs(0, front);
    forall i | st.rank <= i < upper ensures last <= p.items[i].sortKey <= r.bound.ts {
      RangeTimestamps(p, st, r, i);
    }
    SplitEncodable(p, st.rank, upper, r.bound, last);
    SplitLength(p, st.rank, upper, r.bound, last);
    AllEncodableConcat(0, front, split);
    FullLenConcat(front, split);
  }

  /** The id list a responder answers with, after its pending Skip. */
  function ListReply(p: Party, st: State, b: Bound, upper: nat, n: nat): seq<Range>
    requires st.rank <= st.rank + n <= upper <= |p.items|
  {
    var ours := p.items[st.rank..upper];
    Flush(st) + [Range(if n < |ours| then AtItem(ours[n]) else b, IdList(IdsOf(ours[..n])))]
  }

  lemma ListLength(front: seq<Range>, b: Bound, ids: seq<Id>)
    requires |ids| < U64_LIMIT
    ensures FullLen(front + [Range(b, IdList(ids))]) <= FullLen(front) + 54 + 32 * |ids|
  {
    hide EncodeRange, FullLen;
    var list := Range(b, IdList(ids));
    FullLenConcat(front, [list]);
    EncodeRangesOne(LastTs(0, front), list);
    RangeLength(LastTs(0, front), list);
  }

  lemma ListEncodable(front: seq<Range>, b: Bound, ids: seq<Id>)
    requires AllEncodable(0, front) && LastTs(0, front) <= b.ts && |ids| < U64_LIMIT
    ensures AllEncodable(0, front + [Range(b, IdList(ids))])
    ensures LastTs(0, front + [Range(b, IdList(ids))]) == b.ts
  {
    OneEncodable(LastTs(0, front), Range(b, IdList(ids)));
    AllEncodableConcat(0, front, [Range(b, IdList(ids))]);
  }

  lemma StepListReply(p: Party, st: State, r: Range, n: nat)
    requires Ready(p) && Sane(p, st) && st.bound.ts <= r.bound.ts
    requires st.rank + n <= LowerBound(p.items, st.rank, |p.items|, r.bound)
    ensures var out := st.out + ListReply(p, st, r.bound, LowerBound(p.items, st.rank, |p.items|, r.bound), n);
            && AllEncodable(0, out)
            && LastTs(0, out) <= r.bound.ts
            && FullLen(out) <= FullLen(st.out) + 98 + 32 * n
  {
    hide Pos, Key, EncodeRange, FullLen, LowerBound, Flush, AllEncodable;
    var upper := LowerBound(p.items, st.rank, |p.items|, r.bound);
    var ours := p.items[st.rank..upper];
    var end := if n < |ours| then AtItem(ours[n]) else r.bound;
    if n < |ours| {
      RangeTimestamps(p, st, r, st.rank + n);
    }
    var front, ids := st.out + Flush(st), IdsOf(ours[..n]);
    assert st.out + (Flush(st) + [Range(end, IdList(ids))]) == front + [Range(end, IdList(ids))];
    FlushEncodable(p, st);
    ListEncodable(front, end, ids);
    ListLength(front, end, ids);
  }

  lemma FitBudget(limit: Option<nat>, full: nat, m: nat)
    requires limit.Some? ==> limit.value >= FRAME_LIMIT_FLOOR
    requires !Exceeds(limit, full)
    ensures limit.Some? ==> full + 32 * Fit(limit, full, 0, m) <= limit.value - FRAME_MARGIN + 32
  {
    var n := Fit(limit, full, 0, m);
    if n > 0 {
      assert !Exceeds(limit, full + 32 * (n - 1));
    }
  }

  lemma ListBudget(p: Party, st: State, r: Range)
    requires Ready(p) && Sane(p, st) && st.bound.ts <= r.bound.ts
    ensures var upper := LowerBound(p.items, st.rank, |p.items|, r.bound);
            var n := Fit(p.limit, FullLen(st.out), 0, upper - st.rank);
            var out := st.out + ListReply(p, st, r.bound, upper, n);
            && AllEncodable(0, out) && LastTs(0, out) <= r.bound.ts
            && (p.limit.Some? ==> FullLen(out) + 19 <= p.limit.value)
            && (n < upper - st.rank ==> Exceeds(p.limit, FullLen(out)))
  {
    hide Pos, Key, EncodeRange, FullLen, LowerBound, Flush, AllEncodable;
    var upper := LowerBound(p.items, st.rank, |p.items|, r.bound);
    var n := Fit(p.limit, FullLen(st.out), 0, upper - st.rank);
    StepListReply(p, st, r, n);
    FitBudget(p.limit, FullLen(st.out), upper - st.rank);
    if n < upper - st.rank {
      ListTruncated(p, st, ListReply(p, st, r.bound, upper, n), n);
    }
  }

  lemma StepListDelivers(p: Party, st: State, r: Range)
    requires Ready(p) && Sane(p, st) && st.bound.ts <= r.bound.ts && r.payload.IdList? && !p.initiator
    ensures Delivered(p, Step(p, st, r))
  {
    hide Pos, Key, EncodeRange, FullLen, LowerBound, Flush, FingerprintOf, Fit, AllEncodable, Delivered;
    var upper := LowerBound(p.items, st.rank, |p.items|, r.bound);
    var n := Fit(p.limit, FullLen(st.out), 0, upper - st.rank);
    ListBudget(p, st, r);
    var st1 := st.(skip := false, out := st.out + ListReply(p, st, r.bound, upper, n));
    assert st1.out + [] == st1.out;
    assert Step(p, st, r) == Finish(p, st1, [], st.rank + n, r.bound);
    ListFinish(p, st, st1, r, upper, n);
  }

  lemma ListFinish(p: Party, st: State, st1: State, r: Range, upper: nat, n: nat)
    requires Ready(p) && Sane(p, st) && upper == LowerBound(p.items, st.rank, |p.items|, r.bound)
    requires st.rank + n <= upper && !st1.stopped && st1.out + [] == st1.out
    requires AllEncodable(0, st1.out) && LastTs(0, st1.out) <= r.bound.ts
    requires p.limit.Some? ==> FullLen(st1.out) + 19 <= p.limit.value
    requires n < upper - st.rank ==> Exceeds(p.limit, FullLen(st1.out))
    ensures Delivered(p, Finish(p, st1, [], st.rank + n, r.bound))
  {
    hide Pos, Key, EncodeRange, FullLen, LowerBound, FingerprintOf, AllEncodable;
    LowerBoundLands(p, st, r.bound);
    if n < upper - st.rank {
      ContinuationFits(p, st1.out, st.rank + n);
    } else {
      FinishDelivers(p, st1, [], upper, r.bound);
    }
  }

  /** A truncated id list is always the last thing before the continuation. */
  lemma ListTruncated(p: Party, st: State, reply: seq<Range>, n: nat)
    requires reply != [] && reply[|reply| - 1].payload.IdList? && |reply[|reply| - 1].payload.ids| == n
    requires Exceeds(p.limit, FullLen(st.out) + 32 * n)
    ensures Exceeds(p.limit, FullLen(st.out + reply))
  {
    hide EncodeRange;
    var k := |reply| - 1;
    var front, last := st.out + reply[..k], reply[k];
    assert st.out + reply == front + [last];
    FullLenConcat(front, [last]);
    FullLenConcat(st.out, reply[..k]);
    EncodeRangesOne(LastTs(0, front), last);
    ListAtLeast(LastTs(0, front), last);
  }

  lemma ListAtLeast(last: u64, r: Range)
    requires r.payload.IdList?
    ensures |EncodeRange(last, r)| >= 32 * |r.payload.ids|
  {
  }

  /** Every step on every input keeps the invariant or stops within the limit. */
  lemma StepDelivers(p: Party, st: State, r: Range)
    requires Ready(p) && Sane(p, st) && st.bound.ts <= r.bound.ts
    ensures Delivered(p, Step(p, st, r))
    ensures !Step(p, st, r).stopped ==> Step(p, st, r).bound == r.bound
  {
    hide Pos, Key, EncodeRange, FullLen, LowerBound, Flush, FingerprintOf, Delivered, Sane, Unmatched, Without, Dedup;
    if r.payload.IdList? && !p.initiator {
      StepListDelivers(p, st, r);
    } else {
      StepOtherDelivers(p, st, r);
    }
  }

  lemma StepOtherDelivers(p: Party, st: State, r: Range)
    requires Ready(p) && Sane(p, st) && st.bound.ts <= r.bound.ts && (r.payload.IdList? ==> p.initiator)
    ensures Delivered(p, Step(p, st, r))
  {
    hide Pos, Key, EncodeRange, FullLen, LowerBound, Flush, FingerprintOf, Delivered, Unmatched, Without, Dedup, Finish;
    var upper := LowerBound(p.items, st.rank, |p.items|, r.bound);
    LowerBoundLands(p, st, r.bound);
    assert st.out + [] == st.out;
    if r.payload.Fingerprint? && r.payload.fp != FingerprintOf(p.hash, p.items[st.rank..upper]) {
      StepFingerprint(p, st, r);
      FinishDelivers(p, st.(skip := false), Flush(st) + SplitRange(p, st.rank, upper, r.bound), upper, r.bound);
    } else if r.payload.IdList? {
      var ours := p.items[st.rank..upper];
      var theirs := set i | 0 <= i < |r.payload.ids| :: r.payload.ids[i];
      var st1 := st.(skip := true, have := st.have + Unmatched(ours, theirs),
                     need := st.need + Without(Dedup(r.payload.ids), IdSet(ours)));
      FinishDelivers(p, st1, [], upper, r.bound);
    } else {
      FinishDelivers(p, st.(skip := true), [], upper, r.bound);
    }
  }

  lemma {:induction false} ProcessBytesDelivers(p: Party, st: State, input: seq<byte>)
    requires Ready(p) && Delivered(p, st)
    ensures var r := ProcessBytes(p, st, st.bound.ts, input);
            r.Ok? ==> Delivered(p, r.value)
    decreases |input|
  {
    hide Pos, Key, EncodeRange, FullLen, LowerBound, Step, DecodeRange, AllEncodable;
    if !st.stopped && input != [] {
      var d := DecodeRange(st.bound.ts, input);
      if d.Ok? {
        var (r, rest) := d.value;
        StepDelivers(p, st, r);
        var st' := Step(p, st, r);
        if !st'.stopped {
          ProcessBytesDelivers(p, st', rest);
        }
      }
    }
  }

  lemma StartDelivers(p: Party)
    requires Ready(p)
    ensures Delivered(p, Start())
  {
    PosZero();
    hide Key, Pos;
  }

  /**
    For every store and every byte string: a reply keeps within the frame limit,
    and its ranges, in order of nondecreasing timestamps, decode to themselves.
   */
  lemma ReplyDecodesWithinLimit(p: Party, msg: seq<byte>)
    requires Ready(p)
    ensures var r := ReconcileSpec(p, msg);
            r.Ok? && r.value.reply.Some? ==>
              var reply := r.value.reply.value;
              && (p.limit.Some? ==> |reply| <= p.limit.value)
              && reply != [] && reply[0] == PROTOCOL_VERSION
              && exists out :: AllEncodable(0, out) && reply == EncodeMessage(out)
                               && DecodeRanges(0, reply[1..]) == Ok(out)
  {
    hide Pos, Key, EncodeRange, EncodeRanges, LowerBound, Step, DecodeRange, DecodeRanges, AllEncodable, ProcessBytes;
    StartDelivers(p);
    if msg != [] && msg[0] == PROTOCOL_VERSION {
      ProcessBytesDelivers(p, Start(), msg[1..]);
      var r := ProcessBytes(p, Start(), 0, msg[1..]);
      if r.Ok? {
        RangesRoundTrip(0, r.value.out);
        assert EncodeMessage(r.value.out)[1..] == EncodeRanges(0, r.value.out);
      }
    } else {
      EmptyMessage();
    }
  }

  lemma EmptyMessage()
    ensures AllEncodable(0, []) && EncodeMessage([]) == [PROTOCOL_VERSION] && DecodeRanges(0, EncodeMessage([])[1..]) == Ok([])
  {
  }

  /** The opening message never exceeds 997 bytes and decodes to its ranges. */
  lemma InitiateSmall(p: Party)
    requires Ready(p)
    ensures |EncodeMessage(InitiateSpec(p))| <= 997
    ensures AllEncodable(0, InitiateSpec(p))
    ensures DecodeRanges(0, EncodeMessage(InitiateSpec(p))[1..]) == Ok(InitiateSpec(p))
  {
    hide Pos, Key, EncodeRange, EncodeRanges, SplitRange, AllEncodable, DecodeRanges;
    SplitLength(p, 0, |p.items|, Infinity(), 0);
    SplitEncodable(p, 0, |p.items|, Infinity(), 0);
    RangesRoundTrip(0, InitiateSpec(p));
    assert EncodeMessage(InitiateSpec(p))[1..] == EncodeRanges(0, InitiateSpec(p));
  }

  /**
    Progress under a limit: the complete answer to the first mismatched range
    always fits, so it is sent and the engine goes on.
   */
  lemma FirstMismatchFits(p: Party, st: State, r: Range)
    requires Ready(p) && Sane(p, st) && st.bound.ts <= r.bound.ts
    requires st.out == [] && r.payload.Fingerprint?
    requires r.payload.fp != FingerprintOf(p.hash, p.items[st.rank..LowerBound(p.items, st.rank, |p.items|, r.bound)])
    ensures var st', upper := Step(p, st, r), LowerBound(p.items, st.rank, |p.items|, r.bound);
            !st'.stopped && st'.out == Flush(st) + SplitRange(p, st.rank, upper, r.bound)
  {
    hide Pos, Key, EncodeRange, FingerprintOf, LowerBound, Flush, SplitRange;
    StepFingerprint(p, st, r);
    assert FullLen(st.out) == 1;
  }

  /** A first id list carries every id of the range, or at least a hundred. */
  lemma FirstListProgress(p: Party, st: State, r: Range)
    requires Ready(p) && Sane(p, st) && st.bound.ts <= r.bound.ts
    requires st.out == [] && r.payload.IdList? && !p.initiator
    ensures var upper := LowerBound(p.items, st.rank, |p.items|, r.bound);
            var n := Fit(p.limit, FullLen(st.out), 0, upper - st.rank);
            n == upper - st.rank || n >= 100
  {
    hide Pos, Key, EncodeRange, LowerBound;
    assert FullLen(st.out) == 1;
  }
}
