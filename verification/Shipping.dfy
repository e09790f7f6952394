/**
  Sync messages as wire messages (core/src/sync/session.rs, core/src/wire/msg.rs):
  with a frame limit the wire can carry, everything two honest session managers
  ever say to each other encodes.
 */
module Shipping {
  import opened Base
  import opened Items
  import opened Entries
  import opened Vaults
  import opened Wires
  import opened PushFrames
  import Reconcile
  import Totality
  import S = Syncers

  type Message = S.Message

  /** The longest reconciliation message that fits a frame in every encoding of its session id. */
  const CARRIED_LIMIT: nat := MAX_PADDED - HEADER_SIZE - 21

  predicate Wirable(m: Message) {
    match m
    case Push(_, _) => true
    case Init(sid, _, _, msg) => sid < U64_LIMIT && |msg| < U64_LIMIT
    case Recon(sid, msg) => sid < U64_LIMIT && |msg| < U64_LIMIT
    case Close(sid) => sid < U64_LIMIT
    case Foreign => false
  }

  /** The wire form of a sync message; what has none becomes an error. */
  function ToWire(m: Message): Wire {
    if !Wirable(m) then Error(0)
    else
      match m
      case Push(es, ttl) => Wire.Push(es, ttl)
      case Init(sid, since, until, msg) => Wire.Init(sid, since, until, msg)
      case Recon(sid, msg) => Wire.Recon(sid, msg)
      case Close(sid) => Done(sid)
      case Foreign => Error(0)
  }

  function FromWire(m: Wire): Message {
    match m
    case Push(es, ttl) => S.Message.Push(es, ttl)
    case Init(sid, since, until, first) => S.Message.Init(sid, since, until, first)
    case Recon(sid, round) => S.Message.Recon(sid, round)
    case Done(sid) => S.Close(sid)
    case _ => S.Foreign
  }

  function ToWires(ms: seq<Message>): (ws: seq<Wire>)
    ensures |ws| == |ms| && forall i :: 0 <= i < |ms| ==> ws[i] == ToWire(ms[i])
  {
    seq(|ms|, i requires 0 <= i < |ms| => ToWire(ms[i]))
  }

  /** The message travels: it has a wire form, and that encodes. */
  predicate Carriable(m: Message) {
    Wirable(m) && EncodeMessage(ToWire(m)).Ok?
  }

  ghost predicate AllCarriable(ms: seq<Message>) {
    forall i :: 0 <= i < |ms| ==> Carriable(ms[i])
  }

  lemma WireForm(m: Message)
    requires Wirable(m)
    ensures var x := ToWire(m);
            FromWire(x) == m && !x.Hello? && !x.Handshake? && !x.Error?
  {
  }

  lemma BytesItemSize(b: Blob)
    ensures |BytesItem(b)| <= 9 + |b|
  {
  }

  lemma UintSize(n: u64)
    ensures 1 <= |Uint(n)| <= 9
  {
  }

  lemma ReconCarriable(sid: u64, msg: seq<byte>)
    requires |msg| <= CARRIED_LIMIT
    ensures Carriable(S.Message.Recon(sid, msg))
  {
    hide BytesItem, Uint;
    BytesItemSize(msg);
    UintSize(sid);
    EncodesExactly(Wire.Recon(sid, msg));
  }

  lemma InitCarriable(sid: u64, since: u64, until: u64, msg: seq<byte>)
    requires |msg| <= 997
    ensures Carriable(S.Message.Init(sid, since, until, msg))
  {
    hide BytesItem, Uint;
    BytesItemSize(msg);
    UintSize(sid);
    UintSize(since);
    UintSize(until);
    EncodesExactly(Wire.Init(sid, since, until, msg));
  }

  lemma CloseCarriable(sid: u64)
    ensures Carriable(S.Close(sid))
  {
    hide Uint;
    UintSize(sid);
    EncodesExactly(Done(sid));
  }

  lemma PushesCarriable(v: Vault, ids: seq<Id>)
    requires AllFit(v)
    ensures AllCarriable(S.Pushes(S.Batches(S.Lookup(v.entries, ids)), 0))
  {
    hide S.Batches, S.Lookup, EncodeMessage, AllFit;
    BatchesEncode(v, ids);
  }

  lemma {:induction false} TotalAtLeast(es: seq<Entry>)
    ensures S.TotalSize(es) >= |es|
  {
    if es != [] {
      TotalAtLeast(es[..|es| - 1]);
    }
  }

  /** What arrives in a push that could be carried can be pushed on. */
  lemma CarriedFits(es: seq<Entry>, ttl: u64, e: Entry)
    requires Carriable(S.Message.Push(es, ttl)) && e in es
    ensures FitsAlone(e)
  {
    hide Encode, EncodeMessage, Payload, FitsAlone, S.TotalSize, ArrayHead, Uint;
    EncodesExactly(Wire.Push(es, ttl));
    PushSize(es, ttl);
    EncodeAllSize(es);
    TotalAtLeast(es);
    FitsAloneExactly(e);
  }

  /* ----- what session managers say ----- */

  /** A session manager whose every reply the wire can carry. */
  ghost predicate Modest(s: S.SyncState) {
    && s.config.ttl == 0 && s.config.frameLimit.Some? && s.config.frameLimit.value <= CARRIED_LIMIT
    && forall k :: k in s.sessions ==> s.sessions[k].party.limit == s.config.frameLimit
  }

  lemma AbsorbFits(c: Crypto, v: Vault, es: seq<Entry>, ttl: u64)
    requires Sound(c, v) && AllFit(v) && Carriable(S.Message.Push(es, ttl))
    ensures Sound(c, S.Absorb(c, v, es).vault) && AllFit(S.Absorb(c, v, es).vault)
  {
    hide Sound, FitsAlone, S.Absorb, Carriable;
    S.AbsorbSound(c, v, es);
    forall e | e in es ensures FitsAlone(e) {
      CarriedFits(es, ttl, e);
    }
  }

  /** A reply of an engine with a carried limit is carried. */
  lemma ReplyCarriable(p: Reconcile.Party, sid: nat, msg: seq<byte>)
    requires Reconcile.Ready(p) && p.limit.Some? && p.limit.value <= CARRIED_LIMIT && sid < U64_LIMIT
    requires Reconcile.ReconcileSpec(p, msg).Ok? && Reconcile.ReconcileSpec(p, msg).value.reply.Some?
    ensures Carriable(S.Message.Recon(sid, Reconcile.ReconcileSpec(p, msg).value.reply.value))
  {
    hide Reconcile.ReconcileSpec, Carriable, Reconcile.EncodeMessage;
    Totality.ReplyDecodesWithinLimit(p, msg);
    ReconCarriable(sid, Reconcile.ReconcileSpec(p, msg).value.reply.value);
  }

  lemma RoundShips(s: S.SyncState, v: Vault, sid: nat, round: Reconcile.Round)
    requires Modest(s) && AllFit(v) && sid < U64_LIMIT && S.SessionKey(s, sid) in s.sessions
    requires round.reply.Some? ==> Carriable(S.Message.Recon(sid, round.reply.value))
    ensures var (s', out) := S.Concluded(s, v.entries, sid, round);
            Modest(s') && AllCarriable(out.replies)
  {
    hide Carriable, S.Unseen, S.Lookup, S.Batches, AllFit;
    var session := s.sessions[S.SessionKey(s, sid)];
    PushesCarriable(v, S.Unseen(round.have, session.pushed));
    CloseCarriable(sid);
  }

  /** Whatever a modest session manager accepts, its replies can be carried, and it stays modest. */
  lemma HandleShips(c: Crypto, s: S.SyncState, v: Vault, m: Message)
    requires S.Operable(s, v) && Sound(c, v) && Modest(s) && AllFit(v) && Carriable(m)
    requires S.Handle(c, s, v, m).error.None?
    ensures var h := S.Handle(c, s, v, m);
            Modest(h.state) && Sound(c, h.vault) && AllFit(h.vault) && AllCarriable(h.output.replies)
  {
    hide Sound, AllFit, EncodeMessage, S.Absorb, Reconcile.ReconcileSpec, S.Concluded, Reconcile.Ready, Sorted, Window;
    match m
    case Push(es, ttl) =>
      AbsorbFits(c, v, es, ttl);
    case Init(sid, since, until, msg) =>
      InitShips(c, s, v, sid, since, until, msg);
    case Recon(sid, msg) =>
      var p := s.sessions[S.SessionKey(s, sid)].party;
      if Reconcile.ReconcileSpec(p, msg).value.reply.Some? {
        ReplyCarriable(p, sid, msg);
      }
      RoundShips(s, v, sid, Reconcile.ReconcileSpec(p, msg).value);
    case Close(sid) =>
  }

  lemma InitShips(c: Crypto, s: S.SyncState, v: Vault, sid: nat, since: u64, until: u64, msg: seq<byte>)
    requires S.Operable(s, v) && Modest(s) && sid < U64_LIMIT && S.HandleInit(c, s, v, sid, since, until, msg).Ok?
    ensures var (s', out) := S.HandleInit(c, s, v, sid, since, until, msg).value;
            Modest(s') && AllCarriable(out.replies)
  {
    hide Carriable, Reconcile.ReconcileSpec, Window, Sorted;
    var p := S.Engine(c, s, v, since, until, false).value;
    S.ResponderReplies(p, msg);
    ReplyCarriable(p, sid, msg);
  }

  /** Opening a session is carried, too. */
  lemma OpenShips(c: Crypto, s: S.SyncState, v: Vault, since: u64, until: u64)
    requires S.Operable(s, v) && Modest(s) && s.nextSid < U64_LIMIT && S.Open(c, s, v, since, until).Ok?
    ensures var (s', m) := S.Open(c, s, v, since, until).value;
            Modest(s') && Carriable(m) && m.Init? && m.sid == s.nextSid
  {
    hide Carriable, Reconcile.EncodeMessage, Reconcile.InitiateSpec, Window, Sorted;
    var p := S.Engine(c, s, v, since, until, true).value;
    Totality.InitiateSmall(p);
    InitCarriable(s.nextSid, since, until, Reconcile.EncodeMessage(Reconcile.InitiateSpec(p)));
  }
}
