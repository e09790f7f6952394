/**
  Wire messages, padding and framing (core/src/wire/msg.rs, core/src/wire/pad.rs,
  core/src/wire/frame.rs, core/src/wire/payload.rs). Payloads are encoded here
  with shortest-form heads as section 4.2.1 of RFC 8949 requires; the tolerant
  payload decoder is a parameter.
 */
module Wires {
  import opened Base
  import opened Entries

  const HEADER_SIZE: nat := 3
  const MAX_PADDED: nat := 63_488
  const BLOCK: nat := 2048

  datatype Wire =
    | Hello(versions: seq<u64>, features: u64, transports: seq<u64>)
    | Handshake(msg: Blob)
    | Error(code: u64)
    | Push(entries: seq<Entry>, ttl: u64)
    | Init(sid: u64, since: u64, until: u64, first: Blob)
    | Recon(sid: u64, round: Blob)
    | Done(sid: u64)

  datatype WireError = BadFrameLength | BadPayloadLength | UnknownType | Undecodable | TrailingBytes | Schema | TooLarge

  function TypeOf(m: Wire): byte {
    match m
    case Hello(_, _, _) => 0x01
    case Handshake(_) => 0x02
    case Push(_, _) => 0x10
    case Init(_, _, _, _) => 0x20
    case Recon(_, _) => 0x21
    case Done(_) => 0x22
    case Error(_) => 0x70
  }

  predicate KnownType(t: byte) {
    t in {0x01, 0x02, 0x10, 0x20, 0x21, 0x22, 0x70}
  }

  /* ----- payloads ----- */

  function Uint(n: u64): seq<byte> {
    Head(MAJOR_UINT, n)
  }

  const MAJOR_ARRAY: nat := 4

  /** A count as a CBOR array head; counts are below 2^64. */
  function ArrayHead(n: nat): seq<byte> {
    if n < U64_LIMIT then Head(MAJOR_ARRAY, n) else []
  }

  function Uints(ns: seq<u64>): seq<byte> {
    if ns == [] then [] else Uints(ns[..|ns| - 1]) + Uint(ns[|ns| - 1])
  }

  function EncodeAll(es: seq<Entry>): seq<byte> {
    if es == [] then [] else EncodeAll(es[..|es| - 1]) + Encode(es[|es| - 1])
  }

  /** The CBOR payload: a map with ascending small keys. */
  function Payload(m: Wire): seq<byte> {
    match m
    case Hello(versions, features, transports) =>
      [0xA3, 0x00] + ArrayHead(|versions|) + Uints(versions) + [0x01] + Uint(features)
      + [0x02] + ArrayHead(|transports|) + Uints(transports)
    case Handshake(msg) => [0xA1, 0x00] + BytesItem(msg)
    case Error(code) => [0xA1, 0x00] + Uint(code)
    case Push(entries, ttl) => [0xA2, 0x00] + ArrayHead(|entries|) + EncodeAll(entries) + [0x01] + Uint(ttl)
    case Init(sid, since, until, first) =>
      [0xA3, 0x00] + Uint(sid) + [0x01, 0x82] + Uint(since) + Uint(until) + [0x02] + BytesItem(first)
    case Recon(sid, round) => [0xA2, 0x00] + Uint(sid) + [0x01] + BytesItem(round)
    case Done(sid) => [0xA1, 0x00] + Uint(sid)
  }

  /** A tolerant payload decoder: the message and how many octets it took. */
  type Parser = (byte, seq<byte>) -> Option<(Wire, nat)>

  /** The decoder reads back what the encoder writes. */
  ghost predicate Reads(parse: Parser) {
    forall m :: EncodeMessage(m).Ok? ==> parse(TypeOf(m), Payload(m)) == Some((m, |Payload(m)|))
  }

  /* ----- padding ----- */

  function PaddedLen(unpadded: nat): Option<nat> {
    if unpadded > MAX_PADDED then None
    else if unpadded <= 256 then Some(256)
    else if unpadded <= 512 then Some(512)
    else if unpadded <= 1024 then Some(1024)
    else if unpadded <= BLOCK then Some(BLOCK)
    else
      var padded := (unpadded + BLOCK - 1) / BLOCK * BLOCK;
      if padded <= MAX_PADDED then Some(padded) else None
  }

  predicate IsPaddedLen(n: nat) {
    PaddedLen(n) == Some(n)
  }

  /** The permitted lengths: three small blocks, and the multiples of the largest up to 31. */
  predicate Permitted(n: nat) {
    n == 256 || n == 512 || n == 1024 || (n % 2048 == 0 && 0 < n <= 31 * 2048)
  }

  /** Padding picks the smallest permitted length that fits, and fails only when none does. */
  lemma PaddingExact(u: nat, p: nat)
    ensures PaddedLen(u) == Some(p) <==> Permitted(p) && u <= p && forall q: nat :: Permitted(q) && u <= q ==> p <= q
    ensures PaddedLen(u).None? <==> u > MAX_PADDED
    ensures IsPaddedLen(p) <==> Permitted(p)
  {
    PaddingFits(u);
    PaddingFits(p);
    if PaddedLen(u).Some? {
      var least := PaddedLen(u).value;
      assert Permitted(least) && u <= least;
    }
  }

  lemma PaddingFits(u: nat)
    ensures PaddedLen(u).Some? <==> u <= MAX_PADDED
    ensures PaddedLen(u).Some? ==> Permitted(PaddedLen(u).value) && u <= PaddedLen(u).value
                                   && forall q: nat :: Permitted(q) && u <= q ==> PaddedLen(u).value <= q
    ensures Permitted(u) ==> PaddedLen(u) == Some(u)
  {
    var k := (u + BLOCK - 1) / BLOCK;
    assert u <= k * BLOCK < u + BLOCK;
  }

  /* ----- inner messages ----- */

  /** Two octets as a big-endian number. */
  function Be16(hi: int, lo: int): nat
    requires 0 <= hi && 0 <= lo
  {
    hi * 256 + lo
  }

  predicate Invalid(m: Wire) {
    (m.Hello? && m.versions == []) || (m.Push? && m.entries == [])
  }

  /** Header, payload, zeros up to the block boundary. */
  function EncodeMessage(m: Wire): Result<seq<byte>, WireError> {
    if Invalid(m) then Err(Schema)
    else
      var payload := Payload(m);
      var unpadded := HEADER_SIZE + |payload|;
      match PaddedLen(unpadded)
      case None => Err(TooLarge)
      case Some(padded) =>
        PaddingFits(unpadded);
        Ok([TypeOf(m), |payload| / 256, |payload| % 256] + payload + seq(padded - unpadded, _ => 0))
  }

  function DecodeMessage(parse: Parser, body: seq<byte>): Result<Wire, WireError> {
    if |body| < 256 then Err(BadFrameLength)
    else
      var size := Be16(body[1], body[2]);
      if PaddedLen(HEADER_SIZE + size) != Some(|body|) then Err(BadPayloadLength)
      else if !KnownType(body[0]) then Err(UnknownType)
      else
        PaddingFits(HEADER_SIZE + size);
        match parse(body[0], body[HEADER_SIZE..HEADER_SIZE + size])
        case None => Err(Undecodable)
        case Some((m, taken)) =>
          if taken != size then Err(TrailingBytes) else if Invalid(m) then Err(Schema) else Ok(m)
  }

  /** What is encoded has a permitted length and decodes to itself. */
  lemma MessageRoundTrip(parse: Parser, m: Wire)
    requires Reads(parse) && EncodeMessage(m).Ok?
    ensures Permitted(|EncodeMessage(m).value|) && DecodeMessage(parse, EncodeMessage(m).value) == Ok(m)
  {
    hide Payload;
    var payload := Payload(m);
    PaddingFits(HEADER_SIZE + |payload|);
    var body := EncodeMessage(m).value;
    assert Be16(body[1], body[2]) == |payload|;
    assert body[HEADER_SIZE..HEADER_SIZE + |payload|] == payload;
  }

  /** Exactly the valid messages of bounded payload encode. */
  lemma EncodesExactly(m: Wire)
    ensures EncodeMessage(m).Ok? <==> !Invalid(m) && |Payload(m)| <= MAX_PADDED - HEADER_SIZE
    ensures EncodeMessage(m).Ok? ==> Permitted(|EncodeMessage(m).value|)
  {
    hide Payload;
    PaddingFits(HEADER_SIZE + |Payload(m)|);
  }

  /** An accepted body has exactly the length its declared payload needs: no over-padding. */
  lemma AcceptedIsTight(parse: Parser, body: seq<byte>)
    requires DecodeMessage(parse, body).Ok?
    ensures Permitted(|body|) && |body| >= 256
    ensures PaddedLen(HEADER_SIZE + Be16(body[1], body[2])) == Some(|body|)
  {
    PaddingFits(HEADER_SIZE + Be16(body[1], body[2]));
  }

  /* ----- frames ----- */

  /** A frame: a two-octet length, then the body. */
  function Frame(body: seq<byte>): seq<byte>
    requires |body| < 0x1_0000
  {
    [|body| / 256, |body| % 256] + body
  }

  /** The next complete body and what follows it. */
  function NextBody(buf: seq<byte>): (r: Option<(seq<byte>, seq<byte>)>)
    ensures r.Some? ==> |r.value.1| < |buf|
  {
    if |buf| < 2 then None
    else
      var len := Be16(buf[0], buf[1]);
      if |buf| < 2 + len then None else Some((buf[2..2 + len], buf[2 + len..]))
  }

  class FrameDecoder {
    var buf: seq<byte>

    constructor ()
      ensures buf == []
    {
      buf := [];
    }

    method Push(bytes: seq<byte>)
      modifies this
      ensures buf == old(buf) + bytes
    {
      buf := buf + bytes;
    }

    method Next() returns (body: Option<seq<byte>>)
      modifies this
      ensures match NextBody(old(buf))
              case None => body == None && buf == old(buf)
              case Some((b, rest)) => body == Some(b) && buf == rest
    {
      if |buf| < 2 {
        return None;
      }
      var len := Be16(buf[0], buf[1]);
      if |buf| < 2 + len {
        return None;
      }
      body := Some(buf[2..2 + len]);
      buf := buf[2 + len..];
    }
  }

  /** All complete bodies, and the incomplete rest. */
  function Bodies(buf: seq<byte>): (r: (seq<seq<byte>>, seq<byte>))
    ensures NextBody(r.1).None?
    decreases |buf|
  {
    match NextBody(buf)
    case None => ([], buf)
    case Some((body, rest)) => ([body] + Bodies(rest).0, Bodies(rest).1)
  }

  lemma NextBodyMore(buf: seq<byte>, more: seq<byte>)
    ensures NextBody(buf).Some? ==> NextBody(buf + more) == Some((NextBody(buf).value.0, NextBody(buf).value.1 + more))
  {
    if NextBody(buf).Some? {
      var len := Be16(buf[0], buf[1]);
      assert (buf + more)[2..2 + len] == buf[2..2 + len];
      assert (buf + more)[2 + len..] == buf[2 + len..] + more;
    }
  }

  /** Cutting the stream anywhere yields the same bodies and leaves the same rest. */
  lemma {:induction false} BodiesSplit(buf: seq<byte>, more: seq<byte>)
    ensures Bodies(buf + more) == (Bodies(buf).0 + Bodies(Bodies(buf).1 + more).0, Bodies(Bodies(buf).1 + more).1)
    decreases |buf|
  {
    hide NextBody;
    NextBodyMore(buf, more);
    if NextBody(buf).Some? {
      var (body, rest) := NextBody(buf).value;
      BodiesSplit(rest, more);
      assert [body] + (Bodies(rest).0 + Bodies(Bodies(rest).1 + more).0) == ([body] + Bodies(rest).0) + Bodies(Bodies(rest).1 + more).0;
    } else {
      assert [] + Bodies(buf + more).0 == Bodies(buf + more).0;
    }
  }

  function Flatten(chunks: seq<seq<byte>>): seq<byte> {
    if chunks == [] then [] else Flatten(chunks[..|chunks| - 1]) + chunks[|chunks| - 1]
  }

  /** Feeding chunks one by one: bodies found so far, and the buffer. */
  function Feed(buf: seq<byte>, chunks: seq<seq<byte>>): (seq<seq<byte>>, seq<byte>) {
    if chunks == [] then Bodies(buf)
    else
      var (found, rest) := Feed(buf, chunks[..|chunks| - 1]);
      var (more, rest') := Bodies(rest + chunks[|chunks| - 1]);
      (found + more, rest')
  }

  /** Any segmentation of a stream gives the same bodies. */
  lemma {:induction false} SegmentationInvariant(buf: seq<byte>, chunks: seq<seq<byte>>)
    ensures Feed(buf, chunks) == Bodies(buf + Flatten(chunks))
  {
    hide Bodies;
    if chunks == [] {
      assert buf + [] == buf;
    } else {
      var n := |chunks| - 1;
      SegmentationInvariant(buf, chunks[..n]);
      BodiesSplit(buf + Flatten(chunks[..n]), chunks[n]);
      assert buf + Flatten(chunks) == buf + Flatten(chunks[..n]) + chunks[n];
    }
  }

  lemma FrameReads(body: seq<byte>, rest: seq<byte>)
    requires |body| < 0x1_0000
    ensures NextBody(Frame(body) + rest) == Some((body, rest))
  {
    var s := Frame(body) + rest;
    assert s[0] == |body| / 256 && s[1] == |body| % 256;
    assert s[2..2 + |body|] == body && s[2 + |body|..] == rest;
  }
}
