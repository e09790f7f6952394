/**
  The body of a Negentropy message: consecutive ranges, each an upper bound and
  a payload that says what the sender knows about the range
  (core/src/sync/negentropy/mod.rs).
 */
module Ranges {
  import opened Base
  import opened Items
  import opened Bounds
  import Varint

  const FINGERPRINT_SIZE: nat := 16
  const MODE_SKIP: u64 := 0
  const MODE_FINGERPRINT: u64 := 1
  const MODE_ID_LIST: u64 := 2

  datatype Payload =
    | Skip
    | Fingerprint(fp: seq<byte>)
    | IdList(ids: seq<Id>)

  datatype Range = Range(bound: Bound, payload: Payload)

  function Flat(ids: seq<Id>): (s: seq<byte>)
    ensures |s| == 32 * |ids|
  {
    if ids == [] then [] else ids[0] + Flat(ids[1..])
  }

  function TakeIds(input: seq<byte>, n: nat): (ids: seq<Id>)
    requires 32 * n <= |input|
    ensures |ids| == n
  {
    if n == 0 then [] else [input[..32]] + TakeIds(input[32..], n - 1)
  }

  function EncodePayload(p: Payload): seq<byte> {
    match p
    case Skip => Varint.Encode(MODE_SKIP)
    case Fingerprint(fp) => Varint.Encode(MODE_FINGERPRINT) + fp
    case IdList(ids) => Varint.Encode(MODE_ID_LIST) + Varint.Encode(|ids|) + Flat(ids)
  }

  function EncodeRange(last: u64, r: Range): seq<byte> {
    EncodeBound(last, r.bound) + EncodePayload(r.payload)
  }

  function EncodeRanges(last: u64, rs: seq<Range>): seq<byte>
    decreases |rs|
  {
    if rs == [] then [] else EncodeRange(last, rs[0]) + EncodeRanges(rs[0].bound.ts, rs[1..])
  }

  /** The timestamp the next bound is encoded against. */
  function LastTs(last: u64, rs: seq<Range>): u64 {
    if rs == [] then last else rs[|rs| - 1].bound.ts
  }

  lemma {:induction false} EncodeRangesConcat(last: u64, a: seq<Range>, b: seq<Range>)
    ensures EncodeRanges(last, a + b) == EncodeRanges(last, a) + EncodeRanges(LastTs(last, a), b)
    decreases |a|
  {
    if a == [] {
      assert a + b == b;
    } else {
      assert (a + b)[1..] == a[1..] + b;
      EncodeRangesConcat(a[0].bound.ts, a[1..], b);
    }
  }

  lemma EncodeRangesOne(last: u64, r: Range)
    ensures EncodeRanges(last, [r]) == EncodeRange(last, r)
  {
    assert EncodeRanges(r.bound.ts, [r][1..]) == [];
  }

  function DecodePayload(input: seq<byte>): (r: Result<(Payload, seq<byte>), SyncError>)
    ensures r.Ok? ==> |r.value.1| < |input|
    ensures r.Ok? && r.value.0.Fingerprint? ==> |r.value.0.fp| == FINGERPRINT_SIZE
  {
    var (mode, rest) :- Varint.ReadSpec(input);
    if mode == MODE_SKIP then Ok((Skip, rest))
    else if mode == MODE_FINGERPRINT then
      if |rest| < FINGERPRINT_SIZE then Err(Malformed("fingerprint ends prematurely"))
      else Ok((Fingerprint(rest[..FINGERPRINT_SIZE]), rest[FINGERPRINT_SIZE..]))
    else if mode == MODE_ID_LIST then
      var (n, rest') :- Varint.ReadSpec(rest);
      if n > |rest'| / ID_SIZE then Err(Malformed("id list longer than the message"))
      else Ok((IdList(TakeIds(rest', n)), rest'[32 * n..]))
    else Err(Malformed("unknown range mode"))
  }

  /** One range off the front of a message body. */
  function DecodeRange(last: u64, input: seq<byte>): (r: Result<(Range, seq<byte>), SyncError>)
    ensures r.Ok? ==> |r.value.1| < |input| && r.value.0.bound.ts >= last
    ensures r.Ok? && r.value.0.payload.Fingerprint? ==> |r.value.0.payload.fp| == FINGERPRINT_SIZE
  {
    hide DecodeBound, DecodePayload;
    var (bound, rest) :- DecodeBound(last, input);
    var (payload, rest') :- DecodePayload(rest);
    Ok((Range(bound, payload), rest'))
  }

  /** What an encoder must respect for its ranges to be read back. */
  predicate Encodable(last: u64, r: Range) {
    && last <= r.bound.ts
    && (r.payload.Fingerprint? ==> |r.payload.fp| == FINGERPRINT_SIZE)
    && (r.payload.IdList? ==> |r.payload.ids| < U64_LIMIT)
  }

  ghost predicate AllEncodable(last: u64, rs: seq<Range>) {
    forall i :: 0 <= i < |rs| ==> Encodable(LastTs(last, rs[..i]), rs[i])
  }

  lemma {:induction false} TakeFlat(ids: seq<Id>, rest: seq<byte>)
    ensures TakeIds(Flat(ids) + rest, |ids|) == ids
  {
    if ids != [] {
      var s := Flat(ids) + rest;
      assert s == ids[0] + (Flat(ids[1..]) + rest);
      assert s[..32] == ids[0] && s[32..] == Flat(ids[1..]) + rest;
      TakeFlat(ids[1..], rest);
    }
  }

  lemma PayloadRoundTrip(p: Payload, rest: seq<byte>)
    requires p.Fingerprint? ==> |p.fp| == FINGERPRINT_SIZE
    requires p.IdList? ==> |p.ids| < U64_LIMIT
    ensures DecodePayload(EncodePayload(p) + rest) == Ok((p, rest))
  {
    match p
    case Skip =>
      Varint.RoundTrip(MODE_SKIP, rest);
    case Fingerprint(fp) =>
      var tail := fp + rest;
      assert EncodePayload(p) + rest == Varint.Encode(MODE_FINGERPRINT) + tail;
      Varint.RoundTrip(MODE_FINGERPRINT, tail);
      assert tail[..16] == fp && tail[16..] == rest;
    case IdList(ids) =>
      var tail := Flat(ids) + rest;
      var n := Varint.Encode(|ids|);
      Concat4(Varint.Encode(MODE_ID_LIST), n, Flat(ids), rest);
      Varint.RoundTrip(MODE_ID_LIST, n + tail);
      Varint.RoundTrip(|ids|, tail);
      TakeFlat(ids, rest);
      assert tail[32 * |ids|..] == rest;
  }

  /** An encoded range decodes to itself and leaves what followed. */
  lemma RangeRoundTrip(last: u64, r: Range, rest: seq<byte>)
    requires Encodable(last, r)
    ensures DecodeRange(last, EncodeRange(last, r) + rest) == Ok((r, rest))
  {
    var tail := EncodePayload(r.payload) + rest;
    assert EncodeRange(last, r) + rest == EncodeBound(last, r.bound) + tail;
    BoundRoundTrip(last, r.bound, tail);
    PayloadRoundTrip(r.payload, rest);
  }

  /** Every range of a message, front to back. */
  function DecodeRanges(last: u64, input: seq<byte>): Result<seq<Range>, SyncError>
    decreases |input|
  {
    if input == [] then Ok([])
    else
      var (r, rest) :- DecodeRange(last, input);
      var rs :- DecodeRanges(r.bound.ts, rest);
      Ok([r] + rs)
  }

  lemma AllEncodableTail(last: u64, rs: seq<Range>)
    requires rs != [] && AllEncodable(last, rs)
    ensures Encodable(last, rs[0]) && AllEncodable(rs[0].bound.ts, rs[1..])
  {
    assert rs[..0] == [];
    forall i | 0 <= i < |rs| - 1 ensures Encodable(LastTs(rs[0].bound.ts, rs[1..][..i]), rs[1..][i]) {
      assert Encodable(LastTs(last, rs[..i + 1]), rs[i + 1]);
    }
  }

  /** A whole encodable message is read back exactly. */
  lemma {:induction false} RangesRoundTrip(last: u64, rs: seq<Range>)
    requires AllEncodable(last, rs)
    ensures DecodeRanges(last, EncodeRanges(last, rs)) == Ok(rs)
    decreases |rs|
  {
    if rs != [] {
      AllEncodableTail(last, rs);
      var tail := EncodeRanges(rs[0].bound.ts, rs[1..]);
      RangeRoundTrip(last, rs[0], tail);
      BoundLength(last, rs[0].bound);
      RangesRoundTrip(rs[0].bound.ts, rs[1..]);
      assert rs == [rs[0]] + rs[1..];
    }
  }

  /** Bytes taken by one range. */
  lemma RangeLength(last: u64, r: Range)
    ensures 3 <= |EncodeRange(last, r)|
    ensures r.payload.Skip? ==> |EncodeRange(last, r)| <= 44
    ensures r.payload.Fingerprint? && |r.payload.fp| == 16 ==> |EncodeRange(last, r)| <= 60
    ensures r.payload.Fingerprint? && |r.payload.fp| == 16 && r.bound == Infinity() ==> |EncodeRange(last, r)| == 19
    ensures r.payload.IdList? && |r.payload.ids| < U64_LIMIT ==> |EncodeRange(last, r)| <= 54 + 32 * |r.payload.ids|
    ensures r.payload.IdList? && |r.payload.ids| < 128 ==> |EncodeRange(last, r)| <= 45 + 32 * |r.payload.ids|
    ensures r.payload.IdList? && |r.payload.ids| < 128 && r.bound == Infinity() ==> |EncodeRange(last, r)| == 4 + 32 * |r.payload.ids|
  {
    BoundLength(last, r.bound);
    Varint.EncodeLength(0);
    Varint.EncodeLength(1);
    Varint.EncodeLength(2);
    if r.payload.IdList? {
      Varint.EncodeLength(|r.payload.ids|);
      if |r.payload.ids| < U64_LIMIT {
        Varint.U64Length(|r.payload.ids|);
      }
    }
  }
}
