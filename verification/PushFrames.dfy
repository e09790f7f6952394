/**
  Every stored entry can be sent on: batches of pushes always encode, and their
  sealed frames pass the receiver's length gate (core/src/sync/session.rs,
  core/src/wire/msg.rs, core/src/wire/pad.rs, core/src/link/driver.rs).
 */
module PushFrames {
  import opened Base
  import opened Items
  import opened Entries
  import opened Vaults
  import opened Wires
  import C = Ciphers
  import S = Syncers

  /**
    What is assumed of the payload decoder: an accepted push takes at least the
    canonical octets of its entries and five more, for the map, its two keys, the
    array and the hop budget.
   */
  ghost predicate Spends(parse: Parser) {
    forall t, x :: parse(t, x).Some? && parse(t, x).value.0.Push? ==>
                     5 + S.TotalSize(parse(t, x).value.0.entries) <= parse(t, x).value.1
  }

  /** The entry fits alone in one push that must not be relayed. */
  predicate FitsAlone(e: Entry) {
    EncodeMessage(Push([e], 0)).Ok?
  }

  ghost predicate AllFit(v: Vault) {
    forall id :: id in v.entries ==> FitsAlone(v.entries[id])
  }

  lemma {:induction false} EncodeAllSize(es: seq<Entry>)
    ensures |EncodeAll(es)| == S.TotalSize(es)
    ensures forall e :: e in es ==> |Encode(e)| <= S.TotalSize(es)
  {
    hide Encode;
    if es != [] {
      EncodeAllSize(es[..|es| - 1]);
      assert es == es[..|es| - 1] + [es[|es| - 1]];
    }
  }

  /** The size of a push payload. */
  lemma PushSize(es: seq<Entry>, ttl: u64)
    ensures |Payload(Push(es, ttl))| == 3 + |ArrayHead(|es|)| + S.TotalSize(es) + |Uint(ttl)|
    ensures 1 <= |Uint(ttl)| <= 9 && |ArrayHead(|es|)| <= 9 && |Uint(0)| == 1
    ensures 0 < |es| ==> |es| >= U64_LIMIT || 1 <= |ArrayHead(|es|)|
  {
    hide Encode, EncodeAll, S.TotalSize;
    EncodeAllSize(es);
  }

  lemma OneSize(e: Entry)
    ensures S.TotalSize([e]) == |Encode(e)| && |ArrayHead(1)| == 1
  {
    hide Encode;
    assert [e][..0] == [];
  }

  /** Fitting alone is a bound on the encoded size. */
  lemma FitsAloneExactly(e: Entry)
    ensures FitsAlone(e) <==> |Encode(e)| <= MAX_PADDED - HEADER_SIZE - 5
  {
    hide Encode, Payload;
    EncodesExactly(Push([e], 0));
    PushSize([e], 0);
    OneSize(e);
  }

  /** A batch is one entry that fits, or several within the budget: it encodes. */
  lemma BatchEncodes(b: seq<Entry>)
    requires S.Sendable(b) && forall e :: e in b ==> FitsAlone(e)
    ensures EncodeMessage(Push(b, 0)).Ok?
  {
    hide Encode, Payload, FitsAlone, S.TotalSize;
    if |b| == 1 {
      assert b == [b[0]] && b[0] in b;
      FitsIs(b[0]);
    } else {
      EncodesExactly(Push(b, 0));
      PushSize(b, 0);
    }
  }

  lemma FitsIs(e: Entry)
    ensures FitsAlone(e) <==> EncodeMessage(Push([e], 0)).Ok?
  {
  }

  /** Every batch of requested entries is sendable as one frame body of permitted length. */
  lemma BatchesEncode(v: Vault, ids: seq<Id>)
    requires AllFit(v)
    ensures var bs := S.Batches(S.Lookup(v.entries, ids));
            && S.Flatten(bs) == S.Lookup(v.entries, ids)
            && forall i :: 0 <= i < |bs| ==> EncodeMessage(Push(bs[i], 0)).Ok?
  {
    hide Encode, FitsAlone, S.Batches, S.Lookup, S.Flatten, S.Sendable, EncodeMessage;
    var es := S.Lookup(v.entries, ids);
    var bs := S.Batches(es);
    S.BatchesExact(es);
    S.LookupSpec(v.entries, ids);
    forall i | 0 <= i < |bs| ensures EncodeMessage(Push(bs[i], 0)).Ok? {
      forall e | e in bs[i] ensures FitsAlone(e) {
        S.FlattenMember(bs, e);
      }
      BatchEncodes(bs[i]);
    }
  }

  /** What arrives in an accepted push can be pushed on. */
  lemma ReceivedFits(parse: Parser, body: seq<byte>, e: Entry)
    requires Spends(parse) && DecodeMessage(parse, body).Ok?
    requires DecodeMessage(parse, body).value.Push? && e in DecodeMessage(parse, body).value.entries
    ensures FitsAlone(e)
  {
    hide Encode, Payload, FitsAlone, S.TotalSize, PaddedLen, ArrayHead, Uint;
    var m := DecodeMessage(parse, body).value;
    var size := Be16(body[1], body[2]);
    PaddingFits(HEADER_SIZE + size);
    var x := body[HEADER_SIZE..HEADER_SIZE + size];
    assert parse(body[0], x) == Some((m, size));
    EncodeAllSize(m.entries);
    FitsAloneExactly(e);
  }

  /** Accepting a push keeps every stored entry sendable. */
  lemma AbsorbKeepsFit(c: Crypto, v: Vault, parse: Parser, body: seq<byte>)
    requires Sound(c, v) && AllFit(v) && Spends(parse) && DecodeMessage(parse, body).Ok? && DecodeMessage(parse, body).value.Push?
    ensures AllFit(S.Absorb(c, v, DecodeMessage(parse, body).value.entries).vault)
  {
    hide FitsAlone, Sound, DecodeMessage, S.Absorb, Spends;
    var es := DecodeMessage(parse, body).value.entries;
    S.AbsorbSound(c, v, es);
    forall e | e in es ensures FitsAlone(e) {
      ReceivedFits(parse, body, e);
    }
  }

  lemma PermittedSmall(body: seq<byte>)
    requires Permitted(|body|)
    ensures |body| <= MAX_PADDED
  {
  }

  /** A sealed body passes the gate: a permitted length plus the tag, within two octets of length. */
  lemma SealedPassesGate(c: C.Suite, m: Wire, k: C.Key, n: u64)
    requires C.Aead(c) && EncodeMessage(m).Ok?
    ensures var x := c.seal(k, n, [], EncodeMessage(m).value);
            C.TAG_SIZE <= |x| < 0x1_0000 && IsPaddedLen(|x| - C.TAG_SIZE)
  {
    hide EncodeMessage, IsPaddedLen, PaddedLen, Permitted;
    EncodesExactly(m);
    PermittedSmall(EncodeMessage(m).value);
    var body := EncodeMessage(m).value;
    PaddingExact(0, |body|);
    assert |c.seal(k, n, [], body)| == |body| + C.TAG_SIZE;
  }

  /** What can put entries into a node's store. */
  datatype Arrival = Created(e: Entry) | Delivered(body: seq<byte>)

  /** `create_entry` refuses what does not fit alone; a push is absorbed as far as it goes. */
  function Store(c: Crypto, v: Vault, parse: Parser, a: Arrival): Vault {
    match a
    case Created(e) =>
      if !FitsAlone(e) then v else (match Vaults.Insert(c, v, e) case Err(_) => v case Ok((v', _)) => v')
    case Delivered(body) =>
      match DecodeMessage(parse, body)
      case Err(_) => v
      case Ok(m) => if m.Push? then S.Absorb(c, v, m.entries).vault else v
  }

  function StoreAll(c: Crypto, parse: Parser, arrivals: seq<Arrival>): Vault {
    if arrivals == [] then EMPTY else Store(c, StoreAll(c, parse, arrivals[..|arrivals| - 1]), parse, arrivals[|arrivals| - 1])
  }

  lemma StoreKeepsFit(c: Crypto, v: Vault, parse: Parser, a: Arrival)
    requires Sound(c, v) && AllFit(v) && Spends(parse)
    ensures Sound(c, Store(c, v, parse, a)) && AllFit(Store(c, v, parse, a))
  {
    hide FitsAlone, Sound, DecodeMessage, S.Absorb, Spends, Vaults.Insert, IdOf;
    match a
    case Created(e) =>
      if Vaults.Insert(c, v, e).Ok? {
        InsertSound(c, v, e);
      }
    case Delivered(body) =>
      if DecodeMessage(parse, body).Ok? && DecodeMessage(parse, body).value.Push? {
        S.AbsorbSound(c, v, DecodeMessage(parse, body).value.entries);
        AbsorbKeepsFit(c, v, parse, body);
      }
  }

  /** In every reachable store each entry fits alone in one push, so every batch of any ids can be sent. */
  lemma {:induction false} ReachableFits(c: Crypto, parse: Parser, arrivals: seq<Arrival>, ids: seq<Id>)
    requires Spends(parse)
    ensures var v := StoreAll(c, parse, arrivals);
            && Sound(c, v) && AllFit(v)
            && forall i :: 0 <= i < |S.Batches(S.Lookup(v.entries, ids))| ==>
                             EncodeMessage(Push(S.Batches(S.Lookup(v.entries, ids))[i], 0)).Ok?
    decreases |arrivals|
  {
    hide Sound, FitsAlone, Spends, Store, EncodeMessage, S.Batches, S.Lookup;
    if arrivals == [] {
      EmptySound(c);
    } else {
      ReachableFits(c, parse, arrivals[..|arrivals| - 1], ids);
      StoreKeepsFit(c, StoreAll(c, parse, arrivals[..|arrivals| - 1]), parse, arrivals[|arrivals| - 1]);
    }
    BatchesEncode(StoreAll(c, parse, arrivals), ids);
  }

  lemma EmptySound(c: Crypto)
    ensures Sound(c, EMPTY)
  {
  }
}
