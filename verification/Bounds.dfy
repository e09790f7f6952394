/**
  Range bounds and their codec (core/src/sync/negentropy/bound.rs). A bound is
  a timestamp and an id prefix read as if zero-padded to full width; inside one
  message timestamps travel as differences from the previous one.
 */
module Bounds {
  import opened Base
  import opened Items
  import Varint

  const TS_INFINITY: u64 := 0xFFFF_FFFF_FFFF_FFFF

  type Prefix = p: seq<byte> | |p| <= 32 witness []

  datatype Bound = Bound(ts: u64, prefix: Prefix)

  function FromTs(ts: u64): Bound {
    Bound(ts, [])
  }

  function Infinity(): Bound {
    FromTs(TS_INFINITY)
  }

  function AtItem(x: Item): Bound {
    Bound(x.sortKey, x.id)
  }

  function PaddedId(b: Bound): Id {
    b.prefix + seq(32 - |b.prefix|, _ => 0)
  }

  /** The item that compares to other items as the bound does. */
  function AsItem(b: Bound): Item {
    Item(b.ts, PaddedId(b))
  }

  /** The position a bound names. */
  function Pos(b: Bound): nat {
    Key(AsItem(b))
  }

  predicate ItemIsBefore(b: Bound, x: Item) {
    if x.sortKey != b.ts then x.sortKey < b.ts else LexLess(x.id, PaddedId(b))
  }

  /** "Sorts strictly before the bound" is comparison of positions. */
  lemma BeforeIsBelow(b: Bound, x: Item)
    ensures ItemIsBefore(b, x) <==> Key(x) < Pos(b)
  {
    KeyOrder(x, AsItem(b));
  }

  /** The default lower bound is before every item. */
  lemma PosZero()
    ensures Pos(FromTs(0)) == 0
  {
    var z: seq<nat> := [0] + PaddedId(FromTs(0));
    ZeroDigits(z);
  }

  lemma {:induction false} ZeroDigits(z: seq<nat>)
    requires forall i :: 0 <= i < |z| ==> z[i] == 0
    ensures BigEndian(z) == 0
  {
    if z != [] {
      ZeroDigits(z[..|z| - 1]);
    }
  }

  /** Length of the common prefix. */
  function Shared(a: seq<byte>, b: seq<byte>): (k: nat)
    requires |a| == |b|
    ensures k <= |a| && forall i :: 0 <= i < k ==> a[i] == b[i]
    ensures k < |a| ==> a[k] != b[k]
  {
    if a == [] || a[0] != b[0] then 0
    else
      var k' := Shared(a[1..], b[1..]);
      assert forall i :: 0 < i < k' + 1 ==> a[i] == a[1..][i - 1] && b[i] == b[1..][i - 1];
      k' + 1
  }

  /** The first differing octet decides. */
  lemma {:induction false} LexByFirstDifference(a: seq<byte>, b: seq<byte>)
    requires |a| == |b|
    ensures var k := Shared(a, b);
            if k == |a| then a == b && !LexLess(a, b) else (LexLess(a, b) <==> a[k] < b[k])
  {
    if a == [] {
    } else if a[0] == b[0] {
      LexByFirstDifference(a[1..], b[1..]);
      assert a == [a[0]] + a[1..] && b == [b[0]] + b[1..];
    }
  }

  function MinSeparating(prev: Item, curr: Item): Bound
    requires ItemLess(prev, curr)
  {
    if curr.sortKey != prev.sortKey then FromTs(curr.sortKey)
    else
      var shared := Shared(prev.id, curr.id);
      LexByFirstDifference(prev.id, curr.id);
      Bound(curr.sortKey, curr.id[..shared + 1])
  }

  /** The bound falls strictly after one neighbour and at or before the other. */
  lemma MinSeparatingSeparates(prev: Item, curr: Item)
    requires ItemLess(prev, curr)
    ensures Key(prev) < Pos(MinSeparating(prev, curr)) <= Key(curr)
  {
    var b := AsItem(MinSeparating(prev, curr));
    KeyOrder(prev, b);
    KeyOrder(curr, b);
    LexByFirstDifference(curr.id, b.id);
    if curr.sortKey == prev.sortKey {
      var k := Shared(prev.id, curr.id);
      LexByFirstDifference(prev.id, curr.id);
      LexByFirstDifference(prev.id, b.id);
      var j := Shared(prev.id, b.id);
      assert forall i :: 0 <= i <= k ==> b.id[i] == curr.id[i];
      assert j == k;
    }
  }

  /** No bound that separates the two items has a shorter prefix. */
  lemma MinSeparatingIsShortest(prev: Item, curr: Item, b: Bound)
    requires ItemLess(prev, curr)
    requires Key(prev) < Pos(b) <= Key(curr)
    ensures |b.prefix| >= |MinSeparating(prev, curr).prefix|
  {
    var x := AsItem(b);
    KeyOrder(prev, x);
    KeyOrder(curr, x);
    if curr.sortKey == prev.sortKey {
      var k := Shared(prev.id, curr.id);
      LexByFirstDifference(prev.id, curr.id);
      LexByFirstDifference(prev.id, x.id);
      LexByFirstDifference(curr.id, x.id);
      var j := Shared(prev.id, x.id);
      assert j < |b.prefix|;
      assert Shared(curr.id, x.id) >= if j < k then j else k;
    }
  }

  function EncodeTs(lastOut: u64, ts: u64): seq<byte> {
    if ts == TS_INFINITY then Varint.Encode(0)
    else Varint.Encode((if ts < lastOut then 0 else ts - lastOut) + 1)
  }

  function EncodeBound(lastOut: u64, b: Bound): seq<byte> {
    EncodeTs(lastOut, b.ts) + Varint.Encode(|b.prefix|) + b.prefix
  }

  function DecodeTs(lastIn: u64, raw: u64): u64 {
    if raw == 0 || lastIn == TS_INFINITY then TS_INFINITY
    else if raw - 1 + lastIn > TS_INFINITY then TS_INFINITY
    else raw - 1 + lastIn
  }

  function DecodeBound(lastIn: u64, input: seq<byte>): (r: Result<(Bound, seq<byte>), SyncError>)
    ensures r.Ok? ==> |r.value.1| < |input| && r.value.0.ts >= lastIn
  {
    var (raw, rest) :- Varint.ReadSpec(input);
    var (len, rest') :- Varint.ReadSpec(rest);
    if len > 32 then Err(Malformed("bound prefix longer than an id"))
    else if |rest'| < len then Err(Malformed("bound prefix ends prematurely"))
    else Ok((Bound(DecodeTs(lastIn, raw), rest'[..len]), rest'[len..]))
  }

  /** A bound whose timestamp is not below the previous one survives the wire. */
  lemma BoundRoundTrip(last: u64, b: Bound, rest: seq<byte>)
    requires last <= b.ts
    ensures DecodeBound(last, EncodeBound(last, b) + rest) == Ok((b, rest))
  {
    var tail := b.prefix + rest;
    var len := Varint.Encode(|b.prefix|);
    var raw: u64 := if b.ts == TS_INFINITY then 0 else b.ts - last + 1;
    var head := Varint.Encode(raw);
    Concat4(head, len, b.prefix, rest);
    Varint.RoundTrip(raw, len + tail);
    Varint.RoundTrip(|b.prefix|, tail);
    assert tail[..|b.prefix|] == b.prefix && tail[|b.prefix|..] == rest;
  }

  lemma Concat4(a: seq<byte>, b: seq<byte>, c: seq<byte>, d: seq<byte>)
    ensures a + b + c + d == a + (b + (c + d))
  {
  }

  /** An encoded bound takes between two and 43 bytes; the infinite one takes two. */
  lemma BoundLength(last: u64, b: Bound)
    ensures 2 <= |EncodeBound(last, b)| <= 43
    ensures b == Infinity() ==> |EncodeBound(last, b)| == 2
  {
    if b.ts != TS_INFINITY {
      Varint.U64Length((if b.ts < last then 0 else b.ts - last) + 1);
    }
    Varint.EncodeLength(0);
    Varint.EncodeLength(|b.prefix|);
  }

  /** The per-message codec: it remembers the last timestamp in each direction. */
  class BoundCodec {
    var lastTsIn: u64
    var lastTsOut: u64

    constructor ()
      ensures lastTsIn == 0 && lastTsOut == 0
    {
      lastTsIn, lastTsOut := 0, 0;
    }

    method Encode(b: Bound, out: seq<byte>) returns (written: seq<byte>)
      modifies this
      ensures written == out + EncodeBound(old(lastTsOut), b)
      ensures lastTsOut == b.ts && lastTsIn == old(lastTsIn)
    {
      if b.ts == TS_INFINITY {
        lastTsOut := TS_INFINITY;
        written := Varint.Write(0, out);
      } else {
        var delta := if b.ts < lastTsOut then 0 else b.ts - lastTsOut;
        lastTsOut := b.ts;
        written := Varint.Write(delta + 1, out);
      }
      written := Varint.Write(|b.prefix|, written);
      written := written + b.prefix;
    }

    method Decode(input: seq<byte>) returns (r: Result<(Bound, seq<byte>), SyncError>)
      modifies this
      ensures r == DecodeBound(old(lastTsIn), input)
      ensures r.Ok? ==> lastTsIn == r.value.0.ts
      ensures lastTsOut == old(lastTsOut)
    {
      var head := Varint.Read(input);
      if head.Err? {
        return Err(head.error);
      }
      var (raw, rest) := head.value;
      var ts: u64;
      if raw == 0 || lastTsIn == TS_INFINITY {
        ts := TS_INFINITY;
      } else {
        ts := if raw - 1 + lastTsIn > TS_INFINITY then TS_INFINITY else raw - 1 + lastTsIn;
      }
      lastTsIn := ts;
      var length := Varint.Read(rest);
      if length.Err? {
        return Err(length.error);
      }
      var (len, rest') := length.value;
      if len > 32 {
        return Err(Malformed("bound prefix longer than an id"));
      }
      if |rest'| < len {
        return Err(Malformed("bound prefix ends prematurely"));
      }
      r := Ok((Bound(ts, rest'[..len]), rest'[len..]));
    }
  }
}
