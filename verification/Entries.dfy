/**
  Signed entries and their canonical encoding (core/src/wire/entry.rs): a
  five-element CBOR array with shortest-form heads, as section 4.2.1 of RFC 8949
  requires. The entry id is the hash of that encoding.
 */
module Entries {
  import opened Base
  import opened Items
  import opened IdSums

  type Sig = s: seq<byte> | |s| == 64 witness seq(64, _ => 0)
  type Blob = s: seq<byte> | |s| < 0x1_0000_0000_0000_0000 witness []

  datatype Entry = Entry(author: Id, sortKey: u64, kind: u64, payload: Blob, sig: Sig)

  const MAJOR_UINT: nat := 0
  const MAJOR_BYTES: nat := 2

  /** `k` big-endian octets of `n`. */
  function BeBytes(n: nat, k: nat): (s: seq<byte>)
    ensures |s| == k
    decreases n, k
  {
    if k == 0 then [] else BeBytes(n / 256, k - 1) + [n % 256]
  }

  /** A big-endian octet string as an integer. */
  function BeValue(s: seq<byte>): nat {
    if s == [] then 0 else BeValue(s[..|s| - 1]) * 256 + s[|s| - 1]
  }

  lemma {:induction false} BeRoundTrip(n: nat, k: nat)
    requires n < Pow256(k)
    ensures BeValue(BeBytes(n, k)) == n
  {
    if k > 0 {
      BeRoundTrip(n / 256, k - 1);
      assert BeBytes(n, k)[..k - 1] == BeBytes(n / 256, k - 1);
    }
  }

  lemma {:induction false} BeBound(s: seq<byte>)
    ensures BeValue(s) < Pow256(|s|)
  {
    if s != [] {
      BeBound(s[..|s| - 1]);
    }
  }

  /** How many octets follow the initial octet of a shortest-form head. */
  function Width(n: u64): nat {
    if n < 24 then 0 else if n < 0x100 then 1 else if n < 0x1_0000 then 2 else if n < 0x1_0000_0000 then 4 else 8
  }

  /** The additional-information value that announces a width. */
  function Info(width: nat): nat {
    if width == 1 then 24 else if width == 2 then 25 else if width == 4 then 26 else 27
  }

  /** A shortest-form CBOR head. */
  function Head(major: nat, n: u64): (s: seq<byte>)
    requires major < 8
    ensures |s| == 1 + Width(n)
  {
    if n < 24 then [major * 32 + n] else [major * 32 + Info(Width(n))] + BeBytes(n, Width(n))
  }

  function BytesItem(b: Blob): seq<byte> {
    Head(MAJOR_BYTES, |b|) + b
  }

  /** The canonical encoding of an entry. */
  function Encode(e: Entry): seq<byte> {
    [0x85] + (BytesItem(e.author) + (Head(MAJOR_UINT, e.sortKey) + (Head(MAJOR_UINT, e.kind) + (BytesItem(e.payload) + BytesItem(e.sig)))))
  }

  /** A head of any width, as a tolerant decoder reads it. */
  function ReadHead(major: nat, input: seq<byte>): (r: Option<(u64, seq<byte>)>)
    requires major < 8
    ensures r.Some? ==> |r.value.1| < |input|
  {
    if input == [] || input[0] / 32 != major then None
    else
      var info := input[0] % 32;
      if info < 24 then Some((info, input[1..]))
      else if info > 27 then None
      else
        var w := if info == 24 then 1 else if info == 25 then 2 else if info == 26 then 4 else 8;
        if |input| < 1 + w then None
        else
          WidthFits(input[1..1 + w]);
          Some((BeValue(input[1..1 + w]), input[1 + w..]))
  }

  lemma WidthFits(s: seq<byte>)
    requires |s| == 1 || |s| == 2 || |s| == 4 || |s| == 8
    ensures BeValue(s) < U64_LIMIT
  {
    BeBound(s);
    assert Pow256(1) == 256 && Pow256(2) == 0x1_0000 && Pow256(4) == 0x1_0000_0000 && Pow256(8) == U64_LIMIT;
  }

  function ReadBytes(input: seq<byte>): (r: Option<(Blob, seq<byte>)>)
    ensures r.Some? ==> |r.value.1| < |input|
  {
    match ReadHead(MAJOR_BYTES, input)
    case None => None
    case Some((n, rest)) => if |rest| < n then None else Some((rest[..n], rest[n..]))
  }

  /** A tolerant decoder for one entry; the arity must be exactly five. */
  function ReadEntry(input: seq<byte>): Option<(Entry, seq<byte>)> {
    if input == [] || input[0] != 0x85 then None
    else
      match ReadBytes(input[1..])
      case None => None
      case Some((author, r1)) =>
        if |author| != 32 then None
        else
          match ReadHead(MAJOR_UINT, r1)
          case None => None
          case Some((sortKey, r2)) =>
            match ReadHead(MAJOR_UINT, r2)
            case None => None
            case Some((kind, r3)) =>
              match ReadBytes(r3)
              case None => None
              case Some((payload, r4)) =>
                match ReadBytes(r4)
                case None => None
                case Some((sig, r5)) =>
                  if |sig| != 64 then None else Some((Entry(author, sortKey, kind, payload, sig), r5))
  }

  /** The initial octet of a head carries the major type and the additional information. */
  lemma InitialOctet(major: nat, info: nat)
    requires major < 8 && info < 32
    ensures (major * 32 + info) / 32 == major && (major * 32 + info) % 32 == info
  {
  }

  lemma HeadRoundTrip(major: nat, n: u64, rest: seq<byte>)
    requires major < 8
    ensures ReadHead(major, Head(major, n) + rest) == Some((n, rest))
  {
    if n < 24 {
      InitialOctet(major, n);
      SmallHead(major, n, rest);
    } else {
      WideHead(major, n, rest);
    }
  }

  lemma SmallHead(major: nat, n: u64, rest: seq<byte>)
    requires major < 8 && n < 24
    ensures ReadHead(major, Head(major, n) + rest) == Some((n, rest))
  {
    hide BeBytes, BeValue;
    var s := Head(major, n) + rest;
    InitialOctet(major, n);
    assert s[0] == major * 32 + n && s[1..] == rest;
  }

  lemma WideHead(major: nat, n: u64, rest: seq<byte>)
    requires major < 8 && n >= 24
    ensures ReadHead(major, Head(major, n) + rest) == Some((n, rest))
  {
    hide BeBytes, BeValue;
    var w := Width(n);
    var s := Head(major, n) + rest;
    InitialOctet(major, Info(w));
    WidthHolds(n);
    BeRoundTrip(n, w);
    WideSlices([major * 32 + Info(w)], BeBytes(n, w), rest);
  }

  lemma WideSlices(first: seq<byte>, digits: seq<byte>, rest: seq<byte>)
    requires |first| == 1
    ensures var s := first + digits + rest;
            && s[0] == first[0] && s[1..1 + |digits|] == digits && s[1 + |digits|..] == rest
  {
  }

  lemma WidthHolds(n: u64)
    requires n >= 24
    ensures n < Pow256(Width(n))
  {
    assert Pow256(1) == 256 && Pow256(2) == 0x1_0000 && Pow256(4) == 0x1_0000_0000 && Pow256(8) == U64_LIMIT;
  }

  lemma BytesRoundTrip(b: Blob, rest: seq<byte>)
    ensures ReadBytes(BytesItem(b) + rest) == Some((b, rest))
  {
    hide ReadHead, Head;
    assert BytesItem(b) + rest == Head(MAJOR_BYTES, |b|) + (b + rest);
    HeadRoundTrip(MAJOR_BYTES, |b|, b + rest);
    assert (b + rest)[..|b|] == b && (b + rest)[|b|..] == rest;
  }

  /** Decoding an encoded entry gives it back and leaves what followed. */
  lemma RoundTrip(e: Entry, rest: seq<byte>)
    ensures ReadEntry(Encode(e) + rest) == Some((e, rest))
  {
    hide ReadHead, ReadBytes, Head, BytesItem;
    var a, k, d, p, g := BytesItem(e.author), Head(MAJOR_UINT, e.sortKey), Head(MAJOR_UINT, e.kind), BytesItem(e.payload), BytesItem(e.sig);
    var t4 := g + rest;
    var t3 := p + t4;
    var t2 := d + t3;
    var t1 := k + t2;
    Nest(a, k, d, p, g, rest);
    BytesRoundTrip(e.author, t1);
    HeadRoundTrip(MAJOR_UINT, e.sortKey, t2);
    HeadRoundTrip(MAJOR_UINT, e.kind, t3);
    BytesRoundTrip(e.payload, t4);
    BytesRoundTrip(e.sig, rest);
  }

  lemma Nest(a: seq<byte>, k: seq<byte>, d: seq<byte>, p: seq<byte>, g: seq<byte>, rest: seq<byte>)
    ensures var s := [0x85] + (a + (k + (d + (p + g)))) + rest;
            s[0] == 0x85 && s[1..] == a + (k + (d + (p + (g + rest))))
  {
  }

  /** Different entries have different encodings. */
  lemma EncodeInjective(e: Entry, f: Entry)
    requires Encode(e) == Encode(f)
    ensures e == f
  {
    hide Encode, ReadEntry;
    assert Encode(e) + [] == Encode(f) + [];
    RoundTrip(e, []);
    RoundTrip(f, []);
  }

  /** What a store accepts as one record: the canonical bytes of an entry. */
  function ReadCanonical(bytes: seq<byte>): Option<Entry> {
    match ReadEntry(bytes)
    case None => None
    case Some((e, _)) => if Encode(e) == bytes then Some(e) else None
  }

  lemma CanonicalExactly(bytes: seq<byte>, e: Entry)
    ensures ReadCanonical(bytes) == Some(e) <==> bytes == Encode(e)
  {
    hide Encode, ReadEntry;
    if bytes == Encode(e) {
      RoundTrip(e, []);
      assert bytes + [] == bytes;
    }
  }

  /** Hashing and signature checking, kept abstract. */
  datatype Crypto = Crypto(sha: Hash, verifies: Entry -> bool)

  function IdOf(c: Crypto, e: Entry): Id {
    c.sha(Encode(e))
  }

  /** Bytes of an encoded entry: the payload plus at most 128. */
  lemma EncodedSize(e: Entry)
    ensures 104 + |e.payload| <= |Encode(e)| <= 128 + |e.payload|
    ensures |e.payload| < 0x1_0000 ==> |Encode(e)| <= 122 + |e.payload|
  {
    hide Head;
  }
}
