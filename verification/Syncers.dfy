/**
  Reconciliation sessions over wire messages (core/src/sync/session.rs), as a
  function of the session table, the store and the incoming message.
 */
module Syncers {
  import opened Base
  import opened Items
  import opened Reconcile
  import opened Entries
  import opened Vaults
  import J = Journals

  const PUSH_BATCH_BUDGET: nat := 32 * 1024

  datatype Message =
    | Push(entries: seq<Entry>, ttl: u64)
    | Init(sid: nat, since: u64, until: u64, msg: seq<byte>)
    | Recon(sid: nat, msg: seq<byte>)
    | Close(sid: nat)
    | Foreign

  datatype Event =
    | Stored(id: Id)
    | DuplicateIgnored(id: Id)
    | Reconciled(sid: nat, have: seq<Id>, need: seq<Id>)
    | SessionClosed(sid: nat, byUs: bool)

  datatype Output = Output(replies: seq<Message>, events: seq<Event>)

  /** One open session: its engine and the ids already pushed. */
  datatype Session = Session(party: Party, pushed: set<Id>)

  datatype Config = Config(frameLimit: Option<nat>, ttl: u64, maxSessions: nat)

  /** Sessions are keyed by whether we opened them and by their id. */
  datatype SyncState = SyncState(initiator: bool, config: Config, sessions: map<(bool, nat), Session>, nextSid: nat)

  function Parity(initiator: bool): nat {
    if initiator then 0 else 1
  }

  /** Who opened a session is recovered from its id. */
  function SessionKey(s: SyncState, sid: nat): (bool, nat) {
    (sid % 2 == Parity(s.initiator), sid)
  }

  function NewSyncer(initiator: bool, config: Config): SyncState {
    SyncState(initiator, config, map[], Parity(initiator))
  }

  /** The engines are usable and the store can be snapshotted. */
  ghost predicate Operable(s: SyncState, v: Vault) {
    && Sorted(v.order) && |v.order| < U64_LIMIT
    && forall k :: k in s.sessions ==> Ready(s.sessions[k].party)
  }

  /** A session over a sealed copy of a window of the store. */
  function Engine(c: Crypto, s: SyncState, v: Vault, since: u64, until: u64, opener: bool): (r: Result<Party, SyncError>)
    requires Operable(s, v)
    ensures r.Ok? ==> Ready(r.value) && r.value == Party(c.sha, Window(v.order, since, until), s.config.frameLimit, opener)
    ensures r.Ok? <==> s.config.frameLimit.None? || s.config.frameLimit.value >= FRAME_LIMIT_FLOOR
  {
    WindowExact(v.order, since, until);
    if s.config.frameLimit.Some? && s.config.frameLimit.value < FRAME_LIMIT_FLOOR then Err(FrameLimitTooSmall(FRAME_LIMIT_FLOOR))
    else Ok(Party(c.sha, Window(v.order, since, until), s.config.frameLimit, opener))
  }

  /** Opens a session over a window. */
  function Open(c: Crypto, s: SyncState, v: Vault, since: u64, until: u64): Result<(SyncState, Message), SyncError>
    requires Operable(s, v)
  {
    if |s.sessions| >= s.config.maxSessions then Err(ResourceLimit)
    else
      var p :- Engine(c, s, v, since, until, true);
      var sid := s.nextSid;
      Ok((s.(sessions := s.sessions[(true, sid) := Session(p, {})], nextSid := sid + 2),
          Init(sid, since, until, EncodeMessage(InitiateSpec(p)))))
  }

  /** Ends a session of ours before it completes. */
  function Abort(s: SyncState, sid: nat): Option<(SyncState, Message)> {
    if (true, sid) in s.sessions then Some((s.(sessions := s.sessions - {(true, sid)}), Close(sid))) else None
  }

  /* ----- pushes ----- */

  function Rejection(e: J.StoreError): SyncError {
    match e
    case Storage(_) => SyncError.Storage
    case Capacity => ResourceLimit
    case BadSignature => Violation("pushed entry signature invalid")
    case SortKeyReserved => Violation("pushed entry uses the reserved sort key")
  }

  datatype Absorbed = Absorbed(vault: Vault, events: seq<Event>, error: Option<SyncError>)

  /** Inserts pushed entries in order; what was stored before an error stays. */
  function Absorb(c: Crypto, v: Vault, es: seq<Entry>): Absorbed {
    if es == [] then Absorbed(v, [], None)
    else
      var before := Absorb(c, v, es[..|es| - 1]);
      if before.error.Some? then before
      else
        var e := es[|es| - 1];
        match Vaults.Insert(c, before.vault, e)
        case Err(why) => before.(error := Some(Rejection(why)))
        case Ok((v', added)) =>
          Absorbed(v', before.events + [if added then Stored(IdOf(c, e)) else DuplicateIgnored(IdOf(c, e))], None)
  }

  /** First occurrences of ids not seen before. */
  function Unseen(ids: seq<Id>, seen: set<Id>): seq<Id> {
    if ids == [] then []
    else
      var rest := Unseen(ids[..|ids| - 1], seen);
      var id := ids[|ids| - 1];
      if id in seen || id in rest then rest else rest + [id]
  }

  /** The entries behind ids, in order; an unknown id is passed over. */
  function Lookup(entries: map<Id, Entry>, ids: seq<Id>): seq<Entry> {
    if ids == [] then []
    else
      var rest := Lookup(entries, ids[..|ids| - 1]);
      if ids[|ids| - 1] in entries then rest + [entries[ids[|ids| - 1]]] else rest
  }

  function TotalSize(es: seq<Entry>): nat {
    if es == [] then 0 else TotalSize(es[..|es| - 1]) + |Encode(es[|es| - 1])|
  }

  /** The batches completed so far and the one being filled. */
  datatype Packing = Packing(full: seq<seq<Entry>>, batch: seq<Entry>)

  /** Packs entries in order, starting a new batch when the budget would be exceeded. */
  function Pack(es: seq<Entry>): Packing {
    if es == [] then Packing([], []) else Place(Pack(es[..|es| - 1]), es[|es| - 1])
  }

  function Place(p: Packing, e: Entry): Packing {
    if p.batch != [] && TotalSize(p.batch) + |Encode(e)| > PUSH_BATCH_BUDGET then Packing(p.full + [p.batch], [e])
    else Packing(p.full, p.batch + [e])
  }

  function Batches(es: seq<Entry>): seq<seq<Entry>> {
    var p := Pack(es);
    if p.batch == [] then p.full else p.full + [p.batch]
  }

  function Flatten(bs: seq<seq<Entry>>): seq<Entry> {
    if bs == [] then [] else Flatten(bs[..|bs| - 1]) + bs[|bs| - 1]
  }

  function Pushes(bs: seq<seq<Entry>>, ttl: u64): (ms: seq<Message>)
    ensures |ms| == |bs| && forall i :: 0 <= i < |bs| ==> ms[i] == Push(bs[i], ttl)
  {
    seq(|bs|, i requires 0 <= i < |bs| => Push(bs[i], ttl))
  }

  /** A batch may leave as one message. */
  ghost predicate Sendable(b: seq<Entry>) {
    |b| == 1 || (|b| > 1 && TotalSize(b) <= 32 * 1024)
  }

  /** The first entry of the next batch would not have fitted in this one. */
  ghost predicate Overflows(b: seq<Entry>, next: seq<Entry>) {
    next != [] && TotalSize(b) + |Encode(next[0])| > 32 * 1024
  }

  lemma FlattenSnoc(bs: seq<seq<Entry>>, b: seq<Entry>)
    ensures Flatten(bs + [b]) == Flatten(bs) + b
  {
    assert (bs + [b])[..|bs|] == bs;
  }

  lemma TotalSizeSnoc(es: seq<Entry>, e: Entry)
    ensures TotalSize(es + [e]) == TotalSize(es) + |Encode(e)|
  {
    assert (es + [e])[..|es|] == es;
  }

  ghost predicate Packed(p: Packing, es: seq<Entry>) {
    && Flatten(p.full) + p.batch == es
    && (forall i :: 0 <= i < |p.full| ==> Sendable(p.full[i]))
    && (p.batch != [] ==> Sendable(p.batch))
    && (forall i :: 0 < i < |p.full| ==> Overflows(p.full[i - 1], p.full[i]))
    && (p.full != [] ==> Overflows(p.full[|p.full| - 1], p.batch))
  }

  lemma PlaceKeeps(p: Packing, es: seq<Entry>, e: Entry)
    requires Packed(p, es)
    ensures Packed(Place(p, e), es + [e])
  {
    hide Encode, Flatten, TotalSize;
    FlattenSnoc(p.full, p.batch);
    TotalSizeSnoc(p.batch, e);
    if p.batch != [] && TotalSize(p.batch) + |Encode(e)| > PUSH_BATCH_BUDGET {
      assert Flatten(p.full + [p.batch]) + [e] == es + [e];
    } else {
      assert Flatten(p.full) + (p.batch + [e]) == es + [e];
    }
  }

  lemma {:induction false} PackSpec(es: seq<Entry>)
    ensures Packed(Pack(es), es)
  {
    hide Packed, Place;
    if es == [] {
      NothingPacked();
    } else {
      var n := |es| - 1;
      PackSpec(es[..n]);
      PlaceKeeps(Pack(es[..n]), es[..n], es[n]);
      assert es == es[..n] + [es[n]];
    }
  }

  lemma NothingPacked()
    ensures Packed(Packing([], []), [])
  {
  }

  /** The batches are the requested entries in order, none empty, none over budget with company, none ended early. */
  lemma BatchesExact(es: seq<Entry>)
    ensures Flatten(Batches(es)) == es
    ensures forall i :: 0 <= i < |Batches(es)| ==> Sendable(Batches(es)[i])
    ensures forall i :: 0 < i < |Batches(es)| ==> Overflows(Batches(es)[i - 1], Batches(es)[i])
  {
    hide Pack, Sendable, Flatten, TotalSize, Encode;
    PackSpec(es);
    var p := Pack(es);
    FlattenSnoc(p.full, p.batch);
  }

  /* ----- handling ----- */

  /** RECON_INIT: opens the peer's session and answers its first message. */
  function HandleInit(c: Crypto, s: SyncState, v: Vault, sid: nat, since: u64, until: u64, msg: seq<byte>): Result<(SyncState, Output), SyncError>
    requires Operable(s, v)
  {
    if sid % 2 != 1 - Parity(s.initiator) then Err(Violation("session id has the sender's parity"))
    else if (false, sid) in s.sessions then Err(Violation("session id already open"))
    else if |s.sessions| >= s.config.maxSessions then Err(ResourceLimit)
    else
      var p :- Engine(c, s, v, since, until, false);
      var round :- ReconcileSpec(p, msg);
      ResponderReplies(p, msg);
      Ok((s.(sessions := s.sessions[(false, sid) := Session(p, {})]), Output([Recon(sid, round.reply.value)], [])))
  }

  /** An engine that did not initiate always has a reply. */
  lemma ResponderReplies(p: Party, msg: seq<byte>)
    requires Ready(p) && !p.initiator && ReconcileSpec(p, msg).Ok?
    ensures ReconcileSpec(p, msg).value.reply.Some?
  {
    hide ProcessBytes, EncodeMessage;
  }

  /** RECON_MSG: one round of an open session. */
  function HandleRecon(s: SyncState, v: Vault, sid: nat, msg: seq<byte>): Result<(SyncState, Output), SyncError>
    requires Operable(s, v)
  {
    var key := SessionKey(s, sid);
    if key !in s.sessions then Err(Violation("no open session with this id"))
    else
      var session := s.sessions[key];
      var round :- ReconcileSpec(session.party, msg);
      Ok(Concluded(s, v.entries, sid, round))
  }

  /** What one round of an open session leads to: pushes for what the peer lacks, then a reply or the end. */
  function Concluded(s: SyncState, entries: map<Id, Entry>, sid: nat, round: Round): (SyncState, Output)
    requires SessionKey(s, sid) in s.sessions
  {
    var key := SessionKey(s, sid);
    var session := s.sessions[key];
    var have, need := Unseen(round.have, session.pushed), Unseen(round.need, {});
    var learned := if have == [] && need == [] then [] else [Reconciled(sid, have, need)];
    var pushes := Pushes(Batches(Lookup(entries, have)), s.config.ttl);
    match round.reply
    case Some(reply) =>
      var session' := session.(pushed := session.pushed + set id | id in have);
      (s.(sessions := s.sessions[key := session']), Output(pushes + [Recon(sid, reply)], learned))
    case None =>
      (s.(sessions := s.sessions - {key}), Output(pushes + [Close(sid)], learned + [SessionClosed(sid, key.0)]))
  }

  /** RECON_DONE. */
  function HandleDone(s: SyncState, sid: nat): Result<(SyncState, Output), SyncError> {
    var key := SessionKey(s, sid);
    if key !in s.sessions then Err(Violation("no open session with this id"))
    else Ok((s.(sessions := s.sessions - {key}), Output([], [SessionClosed(sid, key.0)])))
  }

  datatype Handled = Handled(state: SyncState, vault: Vault, output: Output, error: Option<SyncError>)

  function Settle(s: SyncState, v: Vault, r: Result<(SyncState, Output), SyncError>): Handled {
    match r
    case Err(e) => Handled(s, v, Output([], []), Some(e))
    case Ok((s', out)) => Handled(s', v, out, None)
  }

  /** One incoming message, with everything it leaves behind even on failure. */
  function Handle(c: Crypto, s: SyncState, v: Vault, m: Message): Handled
    requires Operable(s, v)
  {
    match m
    case Push(es, _) =>
      var a := Absorb(c, v, es);
      Handled(s, a.vault, Output([], a.events), a.error)
    case Init(sid, since, until, msg) => Settle(s, v, HandleInit(c, s, v, sid, since, until, msg))
    case Recon(sid, msg) => Settle(s, v, HandleRecon(s, v, sid, msg))
    case Close(sid) => Settle(s, v, HandleDone(s, sid))
    case Foreign => Handled(s, v, Output([], []), Some(Violation("message type not for the sync layer")))
  }

  /** `w` has everything `v` has, and otherwise only entries from `es`. */
  ghost predicate Grows(v: Vault, w: Vault, es: seq<Entry>) {
    && (forall id :: id in v.entries ==> id in w.entries && w.entries[id] == v.entries[id])
    && (forall id :: id in w.entries && id !in v.entries ==> w.entries[id] in es)
  }

  lemma GrowsByInsert(c: Crypto, v: Vault, w: Vault, es: seq<Entry>, e: Entry)
    requires Sound(c, w) && Grows(v, w, es) && Vaults.Insert(c, w, e).Ok?
    ensures Grows(v, Vaults.Insert(c, w, e).value.0, es + [e])
  {
    hide IdOf, Sound, Vaults.Insert;
    InsertSound(c, w, e);
  }

  /** Handling keeps the store sound, whatever arrives, and never drops an entry. */
  lemma {:induction false} AbsorbSound(c: Crypto, v: Vault, es: seq<Entry>)
    requires Sound(c, v)
    ensures var a := Absorb(c, v, es);
            && Sound(c, a.vault) && Grows(v, a.vault, es)
            && (a.error.None? ==> forall e :: e in es ==> IdOf(c, e) in a.vault.entries)
  {
    hide IdOf, Sound, Vaults.Insert, Grows;
    if es == [] {
      GrowsNot(v);
    } else {
      var n := |es| - 1;
      AbsorbSound(c, v, es[..n]);
      var before := Absorb(c, v, es[..n]);
      assert es == es[..n] + [es[n]];
      if before.error.None? && Vaults.Insert(c, before.vault, es[n]).Ok? {
        GrowsByInsert(c, v, before.vault, es[..n], es[n]);
        InsertSound(c, before.vault, es[n]);
      } else {
        GrowsMore(v, before.vault, es[..n], es);
      }
    }
  }

  lemma GrowsNot(v: Vault)
    ensures Grows(v, v, [])
  {
  }

  lemma GrowsMore(v: Vault, w: Vault, es: seq<Entry>, fs: seq<Entry>)
    requires Grows(v, w, es) && forall e :: e in es ==> e in fs
    ensures Grows(v, w, fs)
  {
  }

  lemma {:induction false} UnseenSpec(ids: seq<Id>, seen: set<Id>)
    ensures NoDup(Unseen(ids, seen))
    ensures forall id :: id in Unseen(ids, seen) <==> id in ids && id !in seen
  {
    if ids != [] {
      UnseenSpec(ids[..|ids| - 1], seen);
      assert ids == ids[..|ids| - 1] + [ids[|ids| - 1]];
    }
  }

  lemma {:induction false} LookupSpec(entries: map<Id, Entry>, ids: seq<Id>)
    ensures forall id :: id in ids && id in entries ==> entries[id] in Lookup(entries, ids)
    ensures forall e :: e in Lookup(entries, ids) ==> exists id :: id in ids && id in entries && entries[id] == e
  {
    if ids != [] {
      var n := |ids| - 1;
      LookupSpec(entries, ids[..n]);
      assert ids == ids[..n] + [ids[n]];
      var rest, all := Lookup(entries, ids[..n]), Lookup(entries, ids);
      forall e | e in all ensures exists id :: id in ids && id in entries && entries[id] == e {
        if e in rest {
          var id :| id in ids[..n] && id in entries && entries[id] == e;
          assert id in ids;
        } else {
          assert ids[n] in ids && entries[ids[n]] == e;
        }
      }
    }
  }

  /** Without duplicates and unknown ids, the lookup answers id by id. */
  lemma {:induction false} LookupInOrder(entries: map<Id, Entry>, ids: seq<Id>)
    requires forall id :: id in ids ==> id in entries
    ensures |Lookup(entries, ids)| == |ids|
    ensures forall i :: 0 <= i < |ids| ==> Lookup(entries, ids)[i] == entries[ids[i]]
  {
    if ids != [] {
      LookupInOrder(entries, ids[..|ids| - 1]);
    }
  }

  lemma {:induction false} PackCount(es: seq<Entry>)
    ensures |Pack(es).full| + (if Pack(es).batch == [] then 0 else 1) <= |es|
    ensures es != [] ==> Pack(es).batch != []
  {
    hide Encode, TotalSize;
    if es != [] {
      PackCount(es[..|es| - 1]);
    }
  }

  lemma {:induction false} FlattenMember(bs: seq<seq<Entry>>, e: Entry)
    ensures e in Flatten(bs) <==> exists i :: 0 <= i < |bs| && e in bs[i]
  {
    if bs != [] {
      var n := |bs| - 1;
      FlattenMember(bs[..n], e);
      if i :| 0 <= i < |bs| && e in bs[i] {
        if i < n {
          assert bs[..n][i] == bs[i];
        }
      }
      if j :| 0 <= j < n && e in bs[..n][j] {
        assert e in bs[j];
      }
    }
  }
}
