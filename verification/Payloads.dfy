/**
  A reader of message payloads (core/src/wire/payload.rs, core/src/wire/msg.rs):
  every payload laid out as the encoder lays it out, with heads of any width, is
  read back. It shows that what is assumed of the payload decoder can be met,
  and that the encoder's payloads determine their messages.
 */
module Payloads {
  import opened Base
  import opened IdSums
  import opened Entries
  import opened Wires
  import S = Syncers
  import PushFrames

  /* ----- fields: fixed octets, then a value ----- */

  function After(mark: seq<byte>, input: seq<byte>): Option<seq<byte>> {
    if |mark| <= |input| && input[..|mark|] == mark then Some(input[|mark|..]) else None
  }

  function ReadUint(mark: seq<byte>, input: seq<byte>): Option<(u64, seq<byte>)> {
    match After(mark, input)
    case None => None
    case Some(rest) => ReadHead(MAJOR_UINT, rest)
  }

  function ReadBlob(mark: seq<byte>, input: seq<byte>): Option<(Blob, seq<byte>)> {
    match After(mark, input)
    case None => None
    case Some(rest) => ReadBytes(rest)
  }

  function ReadCount(mark: seq<byte>, input: seq<byte>): Option<(u64, seq<byte>)> {
    match After(mark, input)
    case None => None
    case Some(rest) => ReadHead(MAJOR_ARRAY, rest)
  }

  function TakeUints(n: nat, input: seq<byte>): Option<(seq<u64>, seq<byte>)> {
    if n == 0 then Some(([], input))
    else
      match TakeUints(n - 1, input)
      case None => None
      case Some((ns, rest)) =>
        match ReadHead(MAJOR_UINT, rest)
        case None => None
        case Some((k, rest')) => Some((ns + [k], rest'))
  }

  function TakeEntries(n: nat, input: seq<byte>): Option<(seq<Entry>, seq<byte>)> {
    if n == 0 then Some(([], input))
    else
      match TakeEntries(n - 1, input)
      case None => None
      case Some((es, rest)) =>
        match ReadEntry(rest)
        case None => None
        case Some((e, rest')) => Some((es + [e], rest'))
  }

  function ReadUints(mark: seq<byte>, input: seq<byte>): Option<(seq<u64>, seq<byte>)> {
    match ReadCount(mark, input)
    case None => None
    case Some((n, rest)) => TakeUints(n, rest)
  }

  function ReadEntries(mark: seq<byte>, input: seq<byte>): Option<(seq<Entry>, seq<byte>)> {
    match ReadCount(mark, input)
    case None => None
    case Some((n, rest)) => TakeEntries(n, rest)
  }

  /* ----- messages ----- */

  function ReadHello(x: seq<byte>): Option<(Wire, seq<byte>)> {
    match ReadUints([0xA3, 0x00], x)
    case None => None
    case Some((versions, r1)) =>
      match ReadUint([0x01], r1)
      case None => None
      case Some((features, r2)) =>
        match ReadUints([0x02], r2)
        case None => None
        case Some((transports, r3)) => Some((Hello(versions, features, transports), r3))
  }

  function ReadPush(x: seq<byte>): Option<(Wire, seq<byte>)> {
    match ReadEntries([0xA2, 0x00], x)
    case None => None
    case Some((es, r1)) =>
      match ReadUint([0x01], r1)
      case None => None
      case Some((ttl, r2)) => Some((Push(es, ttl), r2))
  }

  function ReadInit(x: seq<byte>): Option<(Wire, seq<byte>)> {
    match ReadUint([0xA3, 0x00], x)
    case None => None
    case Some((sid, r1)) =>
      match ReadUint([0x01, 0x82], r1)
      case None => None
      case Some((since, r2)) =>
        match ReadUint([], r2)
        case None => None
        case Some((until, r3)) =>
          match ReadBlob([0x02], r3)
          case None => None
          case Some((first, r4)) => Some((Init(sid, since, until, first), r4))
  }

  function ReadRecon(x: seq<byte>): Option<(Wire, seq<byte>)> {
    match ReadUint([0xA2, 0x00], x)
    case None => None
    case Some((sid, r1)) =>
      match ReadBlob([0x01], r1)
      case None => None
      case Some((round, r2)) => Some((Recon(sid, round), r2))
  }

  function ReadMessage(t: byte, x: seq<byte>): Option<(Wire, seq<byte>)> {
    match t
    case 0x01 => ReadHello(x)
    case 0x02 => (match ReadBlob([0xA1, 0x00], x) case None => None case Some((msg, r)) => Some((Handshake(msg), r)))
    case 0x10 => ReadPush(x)
    case 0x20 => ReadInit(x)
    case 0x21 => ReadRecon(x)
    case 0x22 => (match ReadUint([0xA1, 0x00], x) case None => None case Some((sid, r)) => Some((Done(sid), r)))
    case 0x70 => (match ReadUint([0xA1, 0x00], x) case None => None case Some((code, r)) => Some((Error(code), r)))
    case _ => None
  }

  function ReadPayload(t: byte, x: seq<byte>): Option<(Wire, nat)> {
    match ReadMessage(t, x)
    case None => None
    case Some((m, rest)) => if |rest| <= |x| then Some((m, |x| - |rest|)) else None
  }

  /* ----- reading back ----- */

  lemma AfterMark(mark: seq<byte>, rest: seq<byte>)
    ensures After(mark, mark + rest) == Some(rest)
  {
  }

  lemma UintBack(mark: seq<byte>, n: u64, rest: seq<byte>)
    ensures ReadUint(mark, mark + Uint(n) + rest) == Some((n, rest))
  {
    hide ReadHead, Head, After;
    assert mark + Uint(n) + rest == mark + (Uint(n) + rest);
    AfterMark(mark, Uint(n) + rest);
    HeadRoundTrip(MAJOR_UINT, n, rest);
  }

  lemma BlobBack(mark: seq<byte>, b: Blob, rest: seq<byte>)
    ensures ReadBlob(mark, mark + BytesItem(b) + rest) == Some((b, rest))
  {
    hide ReadBytes, BytesItem, After;
    assert mark + BytesItem(b) + rest == mark + (BytesItem(b) + rest);
    AfterMark(mark, BytesItem(b) + rest);
    BytesRoundTrip(b, rest);
  }

  lemma {:induction false} TakeUintsBack(ns: seq<u64>, rest: seq<byte>)
    ensures TakeUints(|ns|, Uints(ns) + rest) == Some((ns, rest))
  {
    hide ReadHead, Head;
    if ns == [] {
      assert [] + rest == rest;
    } else {
      var n := |ns| - 1;
      TakeUintsBack(ns[..n], Uint(ns[n]) + rest);
      assert Uints(ns) + rest == Uints(ns[..n]) + (Uint(ns[n]) + rest);
      HeadRoundTrip(MAJOR_UINT, ns[n], rest);
      assert ns == ns[..n] + [ns[n]];
    }
  }

  lemma {:induction false} TakeEntriesBack(es: seq<Entry>, rest: seq<byte>)
    ensures TakeEntries(|es|, EncodeAll(es) + rest) == Some((es, rest))
  {
    hide ReadEntry, Encode;
    if es == [] {
      assert [] + rest == rest;
    } else {
      var n := |es| - 1;
      TakeEntriesBack(es[..n], Encode(es[n]) + rest);
      assert EncodeAll(es) + rest == EncodeAll(es[..n]) + (Encode(es[n]) + rest);
      RoundTrip(es[n], rest);
      assert es == es[..n] + [es[n]];
    }
  }

  lemma CountBack(mark: seq<byte>, n: nat, rest: seq<byte>)
    requires n < U64_LIMIT
    ensures ReadCount(mark, mark + ArrayHead(n) + rest) == Some((n, rest))
  {
    hide ReadHead, Head, After;
    assert mark + ArrayHead(n) + rest == mark + (ArrayHead(n) + rest);
    AfterMark(mark, ArrayHead(n) + rest);
    HeadRoundTrip(MAJOR_ARRAY, n, rest);
  }

  lemma UintsBack(mark: seq<byte>, ns: seq<u64>, rest: seq<byte>)
    requires |ns| < U64_LIMIT
    ensures ReadUints(mark, mark + ArrayHead(|ns|) + Uints(ns) + rest) == Some((ns, rest))
  {
    hide ReadCount, ArrayHead, Uints, TakeUints;
    assert mark + ArrayHead(|ns|) + Uints(ns) + rest == mark + ArrayHead(|ns|) + (Uints(ns) + rest);
    CountBack(mark, |ns|, Uints(ns) + rest);
    TakeUintsBack(ns, rest);
  }

  lemma EntriesBack(mark: seq<byte>, es: seq<Entry>, rest: seq<byte>)
    requires |es| < U64_LIMIT
    ensures ReadEntries(mark, mark + ArrayHead(|es|) + EncodeAll(es) + rest) == Some((es, rest))
  {
    hide ReadCount, ArrayHead, EncodeAll, TakeEntries;
    assert mark + ArrayHead(|es|) + EncodeAll(es) + rest == mark + ArrayHead(|es|) + (EncodeAll(es) + rest);
    CountBack(mark, |es|, EncodeAll(es) + rest);
    TakeEntriesBack(es, rest);
  }

  lemma HelloBack(versions: seq<u64>, features: u64, transports: seq<u64>)
    requires |versions| < U64_LIMIT && |transports| < U64_LIMIT
    ensures ReadHello(Payload(Hello(versions, features, transports))) == Some((Hello(versions, features, transports), []))
  {
    hide ReadUints, ReadUint, ArrayHead, Uints, Uint;
    var r2 := [0x02] + ArrayHead(|transports|) + Uints(transports);
    var r1 := [0x01] + Uint(features) + r2;
    assert Payload(Hello(versions, features, transports)) == [0xA3, 0x00] + ArrayHead(|versions|) + Uints(versions) + r1;
    UintsBack([0xA3, 0x00], versions, r1);
    UintBack([0x01], features, r2);
    assert r2 + [] == r2;
    UintsBack([0x02], transports, []);
  }

  lemma PushBack(es: seq<Entry>, ttl: u64)
    requires |es| < U64_LIMIT
    ensures ReadPush(Payload(Push(es, ttl))) == Some((Push(es, ttl), []))
  {
    hide ReadEntries, ReadUint, ArrayHead, EncodeAll, Uint;
    var r1 := [0x01] + Uint(ttl);
    assert Payload(Push(es, ttl)) == [0xA2, 0x00] + ArrayHead(|es|) + EncodeAll(es) + r1;
    EntriesBack([0xA2, 0x00], es, r1);
    assert r1 + [] == r1;
    UintBack([0x01], ttl, []);
  }

  lemma InitBack(sid: u64, since: u64, until: u64, first: Blob)
    ensures ReadInit(Payload(Init(sid, since, until, first))) == Some((Init(sid, since, until, first), []))
  {
    hide ReadUint, ReadBlob, BytesItem, Uint;
    var r3 := [0x02] + BytesItem(first);
    var r2 := Uint(until) + r3;
    var r1 := [0x01, 0x82] + Uint(since) + r2;
    InitLayout(Uint(sid), Uint(since), Uint(until), BytesItem(first));
    UintBack([0xA3, 0x00], sid, r1);
    UintBack([0x01, 0x82], since, r2);
    assert [] + Uint(until) + r3 == r2;
    UintBack([], until, r3);
    assert r3 + [] == r3;
    BlobBack([0x02], first, []);
  }

  lemma InitLayout(sid: seq<byte>, since: seq<byte>, until: seq<byte>, first: seq<byte>)
    ensures [0xA3, 0x00] + sid + [0x01, 0x82] + since + until + [0x02] + first
         == [0xA3, 0x00] + sid + ([0x01, 0x82] + since + (until + ([0x02] + first)))
  {
    var window, tail := [0x01, 0x82] + since, [0x02] + first;
    assert since + until + [0x02] + first == since + (until + tail);
    assert [0xA3, 0x00] + sid + [0x01, 0x82] + since == [0xA3, 0x00] + sid + window;
  }

  lemma ReconBack(sid: u64, round: Blob)
    ensures ReadRecon(Payload(Recon(sid, round))) == Some((Recon(sid, round), []))
  {
    hide ReadUint, ReadBlob, BytesItem, Uint;
    var r1 := [0x01] + BytesItem(round);
    assert Payload(Recon(sid, round)) == [0xA2, 0x00] + Uint(sid) + r1;
    UintBack([0xA2, 0x00], sid, r1);
    assert r1 + [] == r1;
    BlobBack([0x01], round, []);
  }

  lemma ShortBack(n: u64, b: Blob)
    ensures ReadUint([0xA1, 0x00], [0xA1, 0x00] + Uint(n)) == Some((n, []))
    ensures ReadBlob([0xA1, 0x00], [0xA1, 0x00] + BytesItem(b)) == Some((b, []))
  {
    hide ReadUint, ReadBlob, BytesItem, Uint;
    assert [0xA1, 0x00] + Uint(n) + [] == [0xA1, 0x00] + Uint(n);
    UintBack([0xA1, 0x00], n, []);
    assert [0xA1, 0x00] + BytesItem(b) + [] == [0xA1, 0x00] + BytesItem(b);
    BlobBack([0xA1, 0x00], b, []);
  }

  lemma {:induction false} UintsSize(ns: seq<u64>)
    ensures |ns| <= |Uints(ns)|
  {
    if ns != [] {
      UintsSize(ns[..|ns| - 1]);
    }
  }

  lemma {:induction false} EntriesSize(es: seq<Entry>)
    ensures |es| <= |EncodeAll(es)|
  {
    if es != [] {
      EntriesSize(es[..|es| - 1]);
    }
  }

  /** Whatever encodes has lists short enough for a head. */
  lemma CountsFit(m: Wire)
    requires EncodeMessage(m).Ok?
    ensures m.Hello? ==> |m.versions| < U64_LIMIT && |m.transports| < U64_LIMIT
    ensures m.Push? ==> |m.entries| < U64_LIMIT
  {
    hide EncodeMessage, Uints, EncodeAll, Uint, ArrayHead;
    EncodesExactly(m);
    match m
    case Hello(versions, _, transports) =>
      UintsSize(versions);
      UintsSize(transports);
    case Push(entries, _) =>
      EntriesSize(entries);
    case _ =>
  }

  /** Every message that can be sent is read back from its payload, whole. */
  lemma MessageBack(m: Wire)
    requires EncodeMessage(m).Ok?
    ensures ReadMessage(TypeOf(m), Payload(m)) == Some((m, []))
  {
    hide EncodeMessage, ReadHello, ReadPush, ReadInit, ReadRecon, ReadUint, ReadBlob, BytesItem, Uint, ArrayHead, Uints, EncodeAll;
    CountsFit(m);
    match m
    case Hello(versions, features, transports) => HelloBack(versions, features, transports);
    case Handshake(msg) => ShortBack(0, msg);
    case Error(code) => ShortBack(code, []);
    case Push(entries, ttl) => PushBack(entries, ttl);
    case Init(sid, since, until, first) => InitBack(sid, since, until, first);
    case Recon(sid, round) => ReconBack(sid, round);
    case Done(sid) => ShortBack(sid, []);
  }

  /** The reader is a payload decoder as the links need one. */
  lemma ReadsBack()
    ensures Reads(ReadPayload)
  {
    hide EncodeMessage, ReadMessage, Payload;
    forall m | EncodeMessage(m).Ok? ensures ReadPayload(TypeOf(m), Payload(m)) == Some((m, |Payload(m)|)) {
      MessageBack(m);
    }
  }

  /** Messages of one type with the same payload are the same. */
  lemma PayloadInjective(m: Wire, n: Wire)
    requires EncodeMessage(m).Ok? && EncodeMessage(n).Ok? && TypeOf(m) == TypeOf(n) && Payload(m) == Payload(n)
    ensures m == n
  {
    hide EncodeMessage, ReadMessage, Payload;
    MessageBack(m);
    MessageBack(n);
  }

  /* ----- what reading takes ----- */

  lemma HeadSpends(major: nat, input: seq<byte>)
    requires major < 8 && ReadHead(major, input).Some?
    ensures |input| - |ReadHead(major, input).value.1| >= 1 + Width(ReadHead(major, input).value.0)
  {
    hide BeValue;
    var info := input[0] % 32;
    if 24 <= info <= 27 {
      var w := if info == 24 then 1 else if info == 25 then 2 else if info == 26 then 4 else 8;
      BeBound(input[1..1 + w]);
      assert Pow256(1) == 256 && Pow256(2) == 0x1_0000 && Pow256(4) == 0x1_0000_0000;
    }
  }

  lemma BytesSpend(input: seq<byte>)
    requires ReadBytes(input).Some?
    ensures |input| - |ReadBytes(input).value.1| >= |BytesItem(ReadBytes(input).value.0)|
  {
    hide ReadHead, Head;
    HeadSpends(MAJOR_BYTES, input);
  }

  lemma EntrySpends(input: seq<byte>)
    requires ReadEntry(input).Some?
    ensures |input| - |ReadEntry(input).value.1| >= |Encode(ReadEntry(input).value.0)|
  {
    hide ReadHead, ReadBytes, Head, BytesItem;
    BytesSpend(input[1..]);
    var r1 := ReadBytes(input[1..]).value.1;
    HeadSpends(MAJOR_UINT, r1);
    var r2 := ReadHead(MAJOR_UINT, r1).value.1;
    HeadSpends(MAJOR_UINT, r2);
    var r3 := ReadHead(MAJOR_UINT, r2).value.1;
    BytesSpend(r3);
    BytesSpend(ReadBytes(r3).value.1);
  }

  lemma {:induction false} EntriesSpend(n: nat, input: seq<byte>)
    requires TakeEntries(n, input).Some?
    ensures |input| - |TakeEntries(n, input).value.1| >= S.TotalSize(TakeEntries(n, input).value.0)
  {
    hide ReadEntry, Encode;
    if n > 0 {
      EntriesSpend(n - 1, input);
      var (es, rest) := TakeEntries(n - 1, input).value;
      EntrySpends(rest);
      S.TotalSizeSnoc(es, ReadEntry(rest).value.0);
    }
  }

  lemma PushSpends(x: seq<byte>)
    requires ReadPush(x).Some?
    ensures 5 + S.TotalSize(ReadPush(x).value.0.entries) <= |x| - |ReadPush(x).value.1|
  {
    hide ReadHead, TakeEntries, S.TotalSize;
    var r0 := After([0xA2, 0x00], x).value;
    var (n, r1) := ReadHead(MAJOR_ARRAY, r0).value;
    EntriesSpend(n, r1);
  }

  /** The reader never takes less for a push than its canonical octets. */
  lemma SpendsEnough()
    ensures PushFrames.Spends(ReadPayload)
  {
    hide ReadPush, S.TotalSize;
    forall t: byte, x | ReadPayload(t, x).Some? && ReadPayload(t, x).value.0.Push?
      ensures 5 + S.TotalSize(ReadPayload(t, x).value.0.entries) <= ReadPayload(t, x).value.1
    {
      OnlyPush(t, x);
      PushSpends(x);
    }
  }

  lemma OnlyPush(t: byte, x: seq<byte>)
    requires ReadMessage(t, x).Some? && ReadMessage(t, x).value.0.Push?
    ensures t == 0x10 && ReadMessage(t, x) == ReadPush(x)
  {
  }
}
