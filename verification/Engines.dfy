/**
  The Negentropy engine of core/src/sync/negentropy/mod.rs, on bytes: a cursor
  over the incoming message, an output buffer, and the loop state of `reconcile`,
  proved to compute `ReconcileSpec` over whatever store it is given.
 */
module Engines {
  import opened Base
  import opened Items
  import opened Bounds
  import opened Ranges
  import opened IdSums
  import opened Reconcile
  import opened Stores
  import Varint

  method ReadIds(input: seq<byte>, n: nat) returns (ids: seq<Id>, rest: seq<byte>)
    requires 32 * n <= |input|
    ensures ids == TakeIds(input, n) && rest == input[32 * n..]
  {
    ids, rest := [], input;
    for i := 0 to n
      invariant 32 * (n - i) <= |rest| && rest == input[32 * i..]
      invariant TakeIds(input, n) == ids + TakeIds(rest, n - i)
    {
      var id: Id := rest[..32];
      ghost var tail := TakeIds(rest[32..], n - i - 1);
      assert TakeIds(rest, n - i) == [id] + tail;
      assert ids + ([id] + tail) == (ids + [id]) + tail;
      ids, rest := ids + [id], rest[32..];
    }
  }

  /** The payload after a bound. */
  method ReadPayload(input: seq<byte>) returns (r: Result<(Payload, seq<byte>), SyncError>)
    ensures r == DecodePayload(input)
  {
    var head := Varint.Read(input);
    if head.Err? {
      return Err(head.error);
    }
    var (mode, rest) := head.value;
    if mode == MODE_SKIP {
      return Ok((Skip, rest));
    } else if mode == MODE_FINGERPRINT {
      if |rest| < FINGERPRINT_SIZE {
        return Err(Malformed("fingerprint ends prematurely"));
      }
      return Ok((Ranges.Fingerprint(rest[..FINGERPRINT_SIZE]), rest[FINGERPRINT_SIZE..]));
    } else if mode == MODE_ID_LIST {
      var count := Varint.Read(rest);
      if count.Err? {
        return Err(count.error);
      }
      var (n, rest') := count.value;
      if n > |rest'| / ID_SIZE {
        return Err(Malformed("id list longer than the message"));
      }
      var ids, rest'' := ReadIds(rest', n);
      return Ok((IdList(ids), rest''));
    } else {
      return Err(Malformed("unknown range mode"));
    }
  }

  /** One range off the cursor. */
  method ReadRange(codec: BoundCodec, input: seq<byte>) returns (r: Result<(Range, seq<byte>), SyncError>)
    modifies codec
    ensures r == DecodeRange(old(codec.lastTsIn), input)
    ensures r.Ok? ==> codec.lastTsIn == r.value.0.bound.ts
    ensures codec.lastTsOut == old(codec.lastTsOut)
  {
    hide DecodeBound, DecodePayload;
    var b := codec.Decode(input);
    if b.Err? {
      return Err(b.error);
    }
    var p := ReadPayload(b.value.1);
    if p.Err? {
      return Err(p.error);
    }
    return Ok((Range(b.value.0, p.value.0), p.value.1));
  }

  /** The listed ids in order of first appearance, and as a set. */
  method Distinct(ids: seq<Id>) returns (order: seq<Id>, theirs: set<Id>)
    ensures order == Dedup(ids)
    ensures theirs == (set i | 0 <= i < |ids| :: ids[i])
    ensures forall id :: id in theirs <==> id in order
  {
    order, theirs := [], {};
    for i := 0 to |ids|
      invariant order == Dedup(ids[..i])
      invariant theirs == (set j | 0 <= j < i :: ids[j])
      invariant forall id :: id in theirs <==> id in order
    {
      assert ids[..i + 1][..i] == ids[..i];
      if ids[i] !in theirs {
        order := order + [ids[i]];
      }
      theirs := theirs + {ids[i]};
    }
    assert ids[..|ids|] == ids;
  }

  /** Matches our items against the peer's ids, each id once. */
  method MatchIds(items: seq<Item>, order: seq<Id>, listed: set<Id>) returns (have: seq<Id>, need: seq<Id>)
    requires forall id :: id in listed <==> id in order
    ensures have == Unmatched(items, listed)
    ensures need == Without(order, IdSet(items))
  {
    have := [];
    var theirs := listed;
    for i := 0 to |items|
      invariant Unmatched(items, listed) == have + Unmatched(items[i..], theirs)
      invariant theirs == listed - IdSet(items[..i])
    {
      var id := items[i].id;
      assert items[i..][0] == items[i] && items[i..][1..] == items[i + 1..];
      assert IdSet(items[..i + 1]) == IdSet(items[..i]) + {id};
      if id in theirs {
        theirs := theirs - {id};
      } else {
        have := have + [id];
      }
    }
    assert items[..|items|] == items;
    need := [];
    for i := 0 to |order|
      invariant need == Without(order[..i], IdSet(items))
    {
      assert order[..i + 1][..i] == order[..i];
      if order[i] in theirs {
        need := need + [order[i]];
      }
    }
    assert order[..|order|] == order;
  }

  lemma EncodeOneMore(last: u64, rs: seq<Range>, r: Range)
    ensures EncodeRanges(last, rs + [r]) == EncodeRanges(last, rs) + EncodeRange(LastTs(last, rs), r)
    ensures LastTs(last, rs + [r]) == r.bound.ts
  {
    EncodeRangesConcat(last, rs, [r]);
    EncodeRangesOne(LastTs(last, rs), r);
  }

  /** Appends one range to the output. */
  method EmitRange(r: Range, codec: BoundCodec, out: seq<byte>) returns (written: seq<byte>)
    requires r.payload.IdList? ==> |r.payload.ids| < U64_LIMIT
    modifies codec
    ensures written == out + EncodeRange(old(codec.lastTsOut), r)
    ensures codec.lastTsOut == r.bound.ts && codec.lastTsIn == old(codec.lastTsIn)
  {
    hide EncodeBound, Varint.Encode;
    written := codec.Encode(r.bound, out);
    match r.payload
    case Skip =>
      written := Varint.Write(MODE_SKIP, written);
    case Fingerprint(fp) =>
      written := Varint.Write(MODE_FINGERPRINT, written);
      written := written + fp;
    case IdList(ids) =>
      written := Varint.Write(MODE_ID_LIST, written);
      written := Varint.Write(|ids|, written);
      written := AppendIds(ids, written);
  }

  method AppendIds(ids: seq<Id>, out: seq<byte>) returns (written: seq<byte>)
    ensures written == out + Flat(ids)
  {
    written := out;
    for i := 0 to |ids|
      invariant written == out + Flat(ids[..i])
    {
      FlatSnoc(ids[..i], ids[i]);
      assert ids[..i + 1] == ids[..i] + [ids[i]];
      written := written + ids[i];
    }
    assert ids[..|ids|] == ids;
  }

  lemma {:induction false} FlatSnoc(ids: seq<Id>, id: Id)
    ensures Flat(ids + [id]) == Flat(ids) + id
  {
    if ids == [] {
      assert ids + [id] == [id] && [id][1..] == [];
    } else {
      assert (ids + [id])[1..] == ids[1..] + [id];
      FlatSnoc(ids[1..], id);
    }
  }

  /** The concrete loop state: the output as bytes. */
  datatype Loop = Loop(full: seq<byte>, rank: nat, bound: Bound, skip: bool, have: seq<Id>, need: seq<Id>, stopped: bool)

  /** The concrete state stands for a specification state. */
  ghost predicate StandsFor(loop: Loop, st: State) {
    && loop.full == EncodeMessage(st.out)
    && loop.rank == st.rank && loop.bound == st.bound && loop.skip == st.skip
    && loop.have == st.have && loop.need == st.need && loop.stopped == st.stopped
  }

  lemma FullLenIs(out: seq<Range>)
    ensures |EncodeMessage(out)| == FullLen(out)
  {
  }

  lemma EncodeMessageConcat(a: seq<Range>, b: seq<Range>)
    ensures EncodeMessage(a + b) == EncodeMessage(a) + EncodeRanges(LastTs(0, a), b)
  {
    hide EncodeRanges;
    EncodeRangesConcat(0, a, b);
  }

  /** The infinite bound is encoded without reference to what came before. */
  lemma InfinityIgnoresLast(last: u64, last': u64, p: Payload)
    ensures EncodeRange(last, Range(Infinity(), p)) == EncodeRange(last', Range(Infinity(), p))
  {
  }

  class Negentropy {
    const hash: Hash
    const store: Store
    const limit: Option<nat>
    var isInitiator: bool

    ghost predicate Valid()
      reads this, if store.Live? then {store.index} else {}
    {
      store.Valid() && Ready(Self())
    }

    /** This engine as the specification sees it. */
    ghost function Self(): Party
      reads this, if store.Live? then {store.index} else {}
    {
      Party(hash, store.View(), limit, isInitiator)
    }

    constructor (hash: Hash, store: Store, limit: Option<nat>)
      requires store.Valid() && |store.View()| < U64_LIMIT
      requires limit.Some? ==> limit.value >= FRAME_LIMIT_FLOOR
      ensures Valid() && Self() == Party(hash, store.View(), limit, false)
      ensures this.store == store
    {
      this.hash, this.store, this.limit, this.isInitiator := hash, store, limit, false;
    }

    /** Emits the pending coalesced Skip, if any. */
    method FlushSkip(loop: Loop, codec: BoundCodec, out: seq<byte>, ghost st: State) returns (written: seq<byte>)
      requires loop.skip == st.skip && loop.bound == st.bound
      modifies codec
      ensures written == out + EncodeRanges(old(codec.lastTsOut), Flush(st))
      ensures codec.lastTsOut == LastTs(old(codec.lastTsOut), Flush(st)) && codec.lastTsIn == old(codec.lastTsIn)
    {
      if loop.skip {
        EncodeRangesOne(codec.lastTsOut, Range(loop.bound, Skip));
        written := EmitRange(Range(loop.bound, Skip), codec, out);
      } else {
        written := out;
      }
    }

    /** Covers `lower..upper` in the output. */
    method EmitSplit(lower: nat, upper: nat, ub: Bound, codec: BoundCodec, out: seq<byte>) returns (written: seq<byte>)
      requires Valid() && lower <= upper <= |store.View()|
      modifies codec
      ensures written == out + EncodeRanges(old(codec.lastTsOut), SplitRange(Self(), lower, upper, ub))
      ensures codec.lastTsOut == LastTs(old(codec.lastTsOut), SplitRange(Self(), lower, upper, ub))
      ensures codec.lastTsIn == old(codec.lastTsIn)
    {
      hide Key, Pos, EncodeRange, Edge, Bucket, EncodeRanges, FingerprintOf, Sorted, Store.Valid, Store.View;
      if upper - lower < ID_LIST_THRESHOLD {
        var items := store.Visit(lower, upper);
        EncodeRangesOne(codec.lastTsOut, Range(ub, IdList(IdsOf(items))));
        written := EmitRange(Range(ub, IdList(IdsOf(items))), codec, out);
      } else {
        written := EmitBuckets(lower, upper, ub, codec, out);
      }
    }

    method EmitBuckets(lower: nat, upper: nat, ub: Bound, codec: BoundCodec, out: seq<byte>) returns (written: seq<byte>)
      requires Valid() && lower + ID_LIST_THRESHOLD <= upper <= |store.View()|
      modifies codec
      ensures written == out + EncodeRanges(old(codec.lastTsOut), SplitRange(Self(), lower, upper, ub))
      ensures codec.lastTsOut == LastTs(old(codec.lastTsOut), SplitRange(Self(), lower, upper, ub))
      ensures codec.lastTsIn == old(codec.lastTsIn)
    {
      hide Key, Pos, EncodeRange, Edge, Bucket, EncodeRanges, FingerprintOf, Sorted, LastTs, Store.Valid, Store.View;
      ghost var rs, last := SplitRange(Self(), lower, upper, ub), codec.lastTsOut;
      var numElems := upper - lower;
      var perBucket, extra := numElems / BUCKETS, numElems % BUCKETS;
      var curr := lower;
      written := out;
      EdgeSteps(lower, numElems, 0);
      NothingYet(last, rs);
      for i := 0 to BUCKETS
        invariant curr == Edge(lower, numElems, i)
        invariant written == out + EncodeRanges(last, rs[..i]) && codec.lastTsOut == LastTs(last, rs[..i])
        invariant codec.lastTsIn == old(codec.lastTsIn)
      {
        EdgeSteps(lower, numElems, i);
        EdgeMonotone(lower, numElems, i, i + 1);
        var size := perBucket + if i < extra then 1 else 0;
        var r := NextBucket(curr, curr + size, lower, upper, ub, i);
        curr := curr + size;
        written := EmitRange(r, codec, written);
        EncodeOneMore(last, rs[..i], rs[i]);
        assert rs[..i + 1] == rs[..i] + [rs[i]];
      }
      assert rs[..BUCKETS] == rs;
    }

    /** Fingerprint and upper bound of one bucket. */
    method NextBucket(from: nat, to: nat, lower: nat, upper: nat, ub: Bound, ghost i: nat) returns (r: Range)
      requires Valid() && lower + ID_LIST_THRESHOLD <= upper <= |store.View()| && i < BUCKETS
      requires from == Edge(lower, upper - lower, i) && to == Edge(lower, upper - lower, i + 1)
      ensures r == Bucket(Self(), lower, upper, ub, i)
      ensures r.payload.Fingerprint?
    {
      hide Key, Pos, FingerprintOf, MinSeparating, Edge, Bucket, Ready, LowerBoundAt, Store.Valid, Store.View;
      BucketIs(Self(), lower, upper, ub, i);
      var fp := store.Fingerprint(hash, from, to);
      if to == upper {
        r := Range(ub, Ranges.Fingerprint(fp));
      } else {
        var prev := store.ItemAt(to - 1);
        var next := store.ItemAt(to);
        r := Range(MinSeparating(prev, next), Ranges.Fingerprint(fp));
      }
    }

    /** Appends the reply, or stops with a continuation when over budget. */
    method FinishRange(loop: Loop, o: seq<byte>, upper: nat, b: Bound, codec: BoundCodec,
                       ghost st: State, ghost ro: seq<Range>) returns (next: Loop)
      requires Valid() && upper <= |store.View()| && StandsFor(loop, st)
      requires o == EncodeRanges(LastTs(0, st.out), ro)
      requires codec.lastTsOut == LastTs(0, st.out + ro)
      modifies codec
      ensures StandsFor(next, Finish(Self(), st, ro, upper, b))
      ensures var st' := Finish(Self(), st, ro, upper, b);
              !st'.stopped ==> codec.lastTsOut == LastTs(0, st'.out)
      ensures codec.lastTsIn == old(codec.lastTsIn)
    {
      hide Key, Pos, EncodeRange, EncodeRanges, FingerprintOf, Sorted, LastTs, Store.Valid, Store.View;
      EncodeMessageConcat(st.out, ro);
      FullLenIs(st.out + ro);
      if ExceedsLimit(|loop.full| + |o|) {
        var n := store.Len();
        var fp := store.Fingerprint(hash, upper, n);
        assert store.View()[upper..n] == store.View()[upper..];
        ghost var cont := Continuation(Self(), upper);
        ContinuationBytes(codec.lastTsOut, st.out, cont);
        var full := EmitRange(Range(Infinity(), Ranges.Fingerprint(fp)), codec, loop.full);
        next := loop.(full := full, stopped := true);
      } else {
        next := loop.(full := loop.full + o, rank := upper, bound := b);
      }
    }

    /** The same when the range adds no bytes of its own. */
    method FinishSilently(loop: Loop, upper: nat, b: Bound, codec: BoundCodec, ghost st: State) returns (next: Loop)
      requires Valid() && upper <= |store.View()| && StandsFor(loop, st) && codec.lastTsOut == LastTs(0, st.out)
      modifies codec
      ensures StandsFor(next, Finish(Self(), st, [], upper, b))
      ensures !next.stopped ==> codec.lastTsOut == LastTs(0, Finish(Self(), st, [], upper, b).out)
      ensures codec.lastTsIn == old(codec.lastTsIn)
    {
      hide Key, Pos, EncodeRange, EncodeRanges, FingerprintOf, Sorted, LastTs, Finish, EncodeMessage, Ready, Store.Valid, Store.View;
      assert st.out + [] == st.out;
      NothingYet(LastTs(0, st.out), []);
      next := FinishRange(loop, [], upper, b, codec, st, []);
    }

    predicate ExceedsLimit(len: nat) {
      Exceeds(limit, len)
    }

    /** Our ids for a listed range, as many as the frame budget takes. */
    method FittingIds(items: seq<Item>, full: nat) returns (n: nat)
      ensures n == Fit(limit, full, 0, |items|)
    {
      n := 0;
      while n < |items| && !ExceedsLimit(full + 32 * n)
        invariant n <= |items| && Fit(limit, full, n, |items|) == Fit(limit, full, 0, |items|)
      {
        n := n + 1;
      }
    }

    /** Appends the pending Skip and our id list to the output. */
    method EmitListReply(loop: Loop, list: Range, codec: BoundCodec, ghost st: State) returns (full: seq<byte>)
      requires StandsFor(loop, st) && list.payload.IdList? && |list.payload.ids| < U64_LIMIT
      requires codec.lastTsOut == LastTs(0, st.out)
      modifies codec
      ensures full == EncodeMessage(st.out + (Flush(st) + [list]))
      ensures codec.lastTsOut == LastTs(0, st.out + (Flush(st) + [list])) && codec.lastTsIn == old(codec.lastTsIn)
    {
      hide EncodeRange, EncodeRanges, LastTs, EncodeMessage, Flush, Store.Valid, Store.View;
      var o := FlushSkip(loop, codec, [], st);
      o := EmitRange(list, codec, o);
      ReplyBytes(st, list);
      full := loop.full + o;
    }

    /** A responder's answer to an id list. */
    method AnswerList(loop: Loop, b: Bound, ids: seq<Id>, upper: nat, codec: BoundCodec, ghost st: State) returns (next: Loop)
      requires Valid() && StandsFor(loop, st) && !st.stopped && st.rank <= upper <= |store.View()| && !isInitiator
      requires codec.lastTsOut == LastTs(0, st.out)
      modifies codec
      ensures StandsFor(next, StepIdList(Self(), st, b, ids, upper))
      ensures var st' := StepIdList(Self(), st, b, ids, upper);
              !st'.stopped ==> codec.lastTsOut == LastTs(0, st'.out)
      ensures codec.lastTsIn == old(codec.lastTsIn)
    {
      hide Key, Pos, EncodeRange, EncodeRanges, Ready, FullLen, Finish, StepIdList, LastTs, EncodeMessage, Flush, Store.Valid, Store.View;
      var list, n := ListFor(loop, b, upper, ids, st);
      var full := EmitListReply(loop, list, codec, st);
      ghost var st1 := st.(skip := false, out := st.out + (Flush(st) + [list]));
      next := FinishSilently(loop.(skip := false, full := full), loop.rank + n, b, codec, st1);
    }

    /** The id list of the answer, cut where the frame budget ends. */
    method ListFor(loop: Loop, b: Bound, upper: nat, ghost ids: seq<Id>, ghost st: State) returns (list: Range, n: nat)
      requires Valid() && StandsFor(loop, st) && st.rank <= upper <= |store.View()| && !isInitiator
      ensures list.payload.IdList? && |list.payload.ids| < U64_LIMIT && st.rank + n <= upper
      ensures StepIdList(Self(), st, b, ids, upper)
              == Finish(Self(), st.(skip := false, out := st.out + (Flush(st) + [list])), [], st.rank + n, b)
    {
      hide Key, Pos, EncodeRange, EncodeRanges, Ready, FullLen, Fit, Finish, StepIdList, EncodeMessage, Flush, Exceeds, ListOf, Store.Valid, Store.View;
      ListAnswerIs(Self(), st, b, ids, upper);
      var items := store.Visit(loop.rank, upper);
      FullLenIs(st.out);
      n := FittingIds(items, |loop.full|);
      list := ListOf(items, n, b);
    }

    /** One incoming range. */
    method HandleRange(loop: Loop, r: Range, codec: BoundCodec, ghost st: State) returns (next: Loop)
      requires Valid() && StandsFor(loop, st) && !st.stopped && st.rank <= |store.View()|
      requires codec.lastTsOut == LastTs(0, st.out)
      modifies codec
      ensures StandsFor(next, Step(Self(), st, r))
      ensures !next.stopped ==> codec.lastTsOut == LastTs(0, Step(Self(), st, r).out)
      ensures codec.lastTsIn == old(codec.lastTsIn)
    {
      hide Key, Pos, EncodeRange, EncodeRanges, FingerprintOf, Sorted, Finish, LowerBound, SplitRange, LastTs,
           Unmatched, Without, Dedup, Store.Valid, Store.View;
      var n := store.Len();
      var upper := store.LowerBound(loop.rank, n, r.bound);
      match r.payload
      case Skip =>
        next := FinishSilently(loop.(skip := true), upper, r.bound, codec, st.(skip := true));
      case Fingerprint(theirs) =>
        var ours := store.Fingerprint(hash, loop.rank, upper);
        if theirs != ours {
          next := AnswerMismatch(loop, upper, r.bound, codec, st);
        } else {
          next := FinishSilently(loop.(skip := true), upper, r.bound, codec, st.(skip := true));
        }
      case IdList(ids) =>
        if isInitiator {
          var items := store.Visit(loop.rank, upper);
          var order, theirs := Distinct(ids);
          var have, need := MatchIds(items, order, theirs);
          ghost var st1 := st.(skip := true, have := st.have + have, need := st.need + need);
          next := FinishSilently(loop.(skip := true, have := loop.have + have, need := loop.need + need), upper, r.bound,
                                 codec, st1);
        } else {
          next := AnswerList(loop, r.bound, ids, upper, codec, st);
        }
    }

    /** Splits a range whose fingerprints differ. */
    method AnswerMismatch(loop: Loop, upper: nat, b: Bound, codec: BoundCodec, ghost st: State) returns (next: Loop)
      requires Valid() && StandsFor(loop, st) && !st.stopped && st.rank <= upper <= |store.View()|
      requires codec.lastTsOut == LastTs(0, st.out)
      modifies codec
      ensures var st' := Finish(Self(), st.(skip := false), Flush(st) + SplitRange(Self(), st.rank, upper, b), upper, b);
              StandsFor(next, st') && (!st'.stopped ==> codec.lastTsOut == LastTs(0, st'.out))
      ensures codec.lastTsIn == old(codec.lastTsIn)
    {
      hide Key, Pos, EncodeRange, EncodeRanges, FingerprintOf, Sorted, Finish, SplitRange, Flush, Store.Valid, Store.View;
      var o := FlushSkip(loop, codec, [], st);
      o := EmitSplit(loop.rank, upper, b, codec, o);
      ghost var split := SplitRange(Self(), st.rank, upper, b);
      EncodeRangesConcat(LastTs(0, st.out), Flush(st), split);
      next := FinishRange(loop.(skip := false), o, upper, b, codec, st.(skip := false), Flush(st) + split);
    }

    /** Opens reconciliation and returns the first message. */
    method Initiate() returns (r: Result<seq<byte>, SyncError>)
      requires Valid()
      modifies this
      ensures Valid() && isInitiator && Self() == old(Self()).(initiator := true)
      ensures r == if old(isInitiator) then Err(AlreadyInitiated) else Ok(EncodeMessage(InitiateSpec(Self())))
    {
      hide Key, Pos, EncodeRange, EncodeRanges, FingerprintOf, Sorted, SplitRange, Store.Valid, Store.View;
      if isInitiator {
        return Err(AlreadyInitiated);
      }
      isInitiator := true;
      var codec := new BoundCodec();
      var n := store.Len();
      var out := EmitSplit(0, n, Infinity(), codec, [PROTOCOL_VERSION]);
      r := Ok(out);
    }

    /** Processes one incoming message. */
    method Reconcile(msg: seq<byte>) returns (r: Result<Round, SyncError>)
      requires Valid()
      ensures r == ReconcileSpec(Self(), msg)
    {
      hide Key, Pos, EncodeRange, EncodeRanges, FingerprintOf, Sorted, Step, DecodeRange, Store.Valid, Store.View;
      if msg == [] {
        return Err(Malformed("empty message"));
      }
      var version := msg[0];
      if !(0x60 <= version <= 0x6F) {
        return Err(Malformed("invalid protocol version byte"));
      }
      if version != PROTOCOL_VERSION {
        if isInitiator {
          return Err(UnsupportedVersion(version));
        }
        return Ok(Round(Some([PROTOCOL_VERSION]), [], []));
      }
      var cursor := msg[1..];
      var codec := new BoundCodec();
      var loop := Loop([PROTOCOL_VERSION], 0, FromTs(0), false, [], [], false);
      ghost var st := Start();
      NothingYet(0, []);
      while cursor != [] && !loop.stopped
        invariant Valid() && StandsFor(loop, st)
        invariant !st.stopped ==> st.rank <= |store.View()| && codec.lastTsOut == LastTs(0, st.out)
        invariant ProcessBytes(Self(), Start(), 0, msg[1..]) == ProcessBytes(Self(), st, codec.lastTsIn, cursor)
        decreases |cursor|
      {
        var decoded := ReadRange(codec, cursor);
        if decoded.Err? {
          return Err(decoded.error);
        }
        var (range, rest) := decoded.value;
        loop := HandleRange(loop, range, codec, st);
        st := Step(Self(), st, range);
        cursor := rest;
      }
      FullLenIs(st.out);
      SomeBytes(st.out);
      var reply := if isInitiator && |loop.full| == 1 then None else Some(loop.full);
      r := Ok(Round(reply, loop.have, loop.need));
    }
  }

  lemma BucketIs(p: Party, lower: nat, upper: nat, ub: Bound, i: nat)
    requires Ready(p) && lower + ID_LIST_THRESHOLD <= upper <= |p.items| && i < BUCKETS
    ensures var from, to := Edge(lower, upper - lower, i), Edge(lower, upper - lower, i + 1);
            && from < to <= upper
            && (to < upper ==> ItemLess(p.items[to - 1], p.items[to]))
            && Bucket(p, lower, upper, ub, i)
               == Range(if to == upper then ub else MinSeparating(p.items[to - 1], p.items[to]),
                        Ranges.Fingerprint(FingerprintOf(p.hash, p.items[from..to])))
  {
    hide Key, Pos, FingerprintOf, MinSeparating, Edge;
    EdgeMonotone(lower, upper - lower, i, i + 1);
    EdgeSteps(lower, upper - lower, i);
    var to := Edge(lower, upper - lower, i + 1);
    EdgeMonotone(lower, upper - lower, i + 1, BUCKETS);
    if to < upper {
      KeyOrder(p.items[to - 1], p.items[to]);
    }
  }

  /** The first `n` ids of a range, up to where the next item begins. */
  function ListOf(items: seq<Item>, n: nat, b: Bound): Range
    requires n <= |items|
  {
    Range(if n < |items| then AtItem(items[n]) else b, IdList(IdsOf(items[..n])))
  }

  lemma ListAnswerIs(p: Party, st: State, b: Bound, ids: seq<Id>, upper: nat)
    requires Ready(p) && st.rank <= upper <= |p.items| && !p.initiator
    ensures var ours := p.items[st.rank..upper];
            var n := Fit(p.limit, FullLen(st.out), 0, |ours|);
            var list := ListOf(ours, n, b);
            && list.payload.IdList? && |list.payload.ids| < U64_LIMIT
            && StepIdList(p, st, b, ids, upper)
               == Finish(p, st.(skip := false, out := st.out + (Flush(st) + [list])), [], st.rank + n, b)
  {
    hide Key, Pos, FullLen, Finish;
  }

  /** An empty message is exactly the version byte. */
  lemma SomeBytes(out: seq<Range>)
    ensures |EncodeMessage(out)| == 1 <==> out == []
  {
    hide EncodeRange;
    if out != [] {
      RangeLength(0, out[0]);
    }
  }

  lemma ReplyBytes(st: State, list: Range)
    ensures var reply := Flush(st) + [list];
            var last := LastTs(0, st.out);
            && EncodeRanges(last, Flush(st)) + EncodeRange(LastTs(last, Flush(st)), list) == EncodeRanges(last, reply)
            && EncodeMessage(st.out + reply) == EncodeMessage(st.out) + EncodeRanges(last, reply)
            && LastTs(0, st.out + reply) == list.bound.ts
  {
    hide EncodeRange, EncodeRanges;
    EncodeOneMore(LastTs(0, st.out), Flush(st), list);
    EncodeMessageConcat(st.out, Flush(st) + [list]);
  }

  lemma ContinuationBytes(last: u64, out: seq<Range>, cont: Range)
    requires cont.bound == Infinity()
    ensures EncodeMessage(out + [cont]) == EncodeMessage(out) + EncodeRange(last, cont)
  {
    hide EncodeRange, EncodeRanges;
    EncodeMessageConcat(out, [cont]);
    EncodeRangesOne(LastTs(0, out), cont);
    InfinityIgnoresLast(last, LastTs(0, out), cont.payload);
  }

  lemma NothingYet(last: u64, rs: seq<Range>)
    ensures EncodeRanges(last, rs[..0]) == [] && LastTs(last, rs[..0]) == last
  {
  }

  /** Creates an engine; a frame limit below the floor is refused. */
  method NewEngine(hash: Hash, store: Store, limit: Option<nat>) returns (r: Result<Negentropy, SyncError>)
    requires store.Valid() && |store.View()| < U64_LIMIT
    ensures r.Err? <==> limit.Some? && limit.value < FRAME_LIMIT_FLOOR
    ensures r.Err? ==> r.error == FrameLimitTooSmall(FRAME_LIMIT_FLOOR)
    ensures r.Ok? ==> r.value.Valid() && r.value.store == store && fresh(r.value)
    ensures r.Ok? ==> r.value.Self() == Party(hash, store.View(), limit, false)
  {
    if limit.Some? && limit.value < FRAME_LIMIT_FLOOR {
      return Err(FrameLimitTooSmall(FRAME_LIMIT_FLOOR));
    }
    var engine := new Negentropy(hash, store, limit);
    r := Ok(engine);
  }
}
