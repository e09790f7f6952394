/**
  The session manager of one link (core/src/sync/session.rs) as an object over a
  mutable entry store, proved to compute what the pure description says.
 */
module SyncSessions {
  import opened Base
  import opened Items
  import opened Geometry
  import opened Reconcile
  import opened Entries
  import opened OrderIndexes
  import opened Stores
  import opened Engines
  import opened Vaults
  import opened EntryStores
  import opened Syncers
  import J = Journals

  /** An open session: its engine and the ids already pushed. */
  datatype OpenSession = OpenSession(engine: Negentropy, pushed: set<Id>)

  /** Splits the entries behind ids into push messages under the byte budget. */
  method PushBatches(entries: map<Id, Entry>, ids: seq<Id>, ttl: u64) returns (messages: seq<Message>)
    ensures messages == Pushes(Batches(Lookup(entries, ids)), ttl)
  {
    hide Encode, TotalSize;
    messages := [];
    var batch: seq<Entry>, batchBytes := [], 0;
    EmptySize();
    for i := 0 to |ids|
      invariant var p := Pack(Lookup(entries, ids[..i]));
                messages == Pushes(p.full, ttl) && batch == p.batch && batchBytes == TotalSize(batch)
    {
      LookupNext(entries, ids, i);
      if ids[i] in entries {
        var entry := entries[ids[i]];
        var size := |Encode(entry)|;
        PackNext(Lookup(entries, ids[..i]), entry);
        if batch != [] && batchBytes + size > PUSH_BATCH_BUDGET {
          messages := messages + [Push(batch, ttl)];
          batch, batchBytes := [], 0;
        }
        TotalSizeSnoc(batch, entry);
        EmptySize();
        batch := batch + [entry];
        batchBytes := batchBytes + size;
      }
    }
    assert ids[..|ids|] == ids;
    if batch != [] {
      messages := messages + [Push(batch, ttl)];
    }
  }

  lemma EmptySize()
    ensures TotalSize([]) == 0
  {
  }

  lemma LookupNext(entries: map<Id, Entry>, ids: seq<Id>, i: nat)
    requires i < |ids|
    ensures Lookup(entries, ids[..i + 1]) ==
            if ids[i] in entries then Lookup(entries, ids[..i]) + [entries[ids[i]]] else Lookup(entries, ids[..i])
  {
    assert ids[..i + 1][..i] == ids[..i];
  }

  lemma PackNext(es: seq<Entry>, e: Entry)
    ensures Pack(es + [e]) == Place(Pack(es), e)
  {
    assert (es + [e])[..|es|] == es;
  }

  /** A session object and its description. */
  ghost predicate Stands(o: OpenSession, s: Session)
    reads o.engine
  {
    o.engine.store.Sealed? && o.engine.Valid() && s == Session(o.engine.Self(), o.pushed)
  }

  lemma Standing(o: OpenSession, s: Session)
    ensures Stands(o, s) <==> o.engine.store.Sealed? && o.engine.Valid() && s == Session(o.engine.Self(), o.pushed)
  {
  }

  class Syncer {
    const crypto: Crypto
    const initiator: bool
    const config: Config
    var sessions: map<(bool, nat), OpenSession>
    var nextSid: nat

    /** The engines of the open sessions; they are never changed again. */
    ghost var engines: set<Negentropy>
    /** The manager as the pure description sees it. */
    ghost var state: SyncState

    ghost predicate Valid()
      reads this, engines
    {
      && state.initiator == initiator && state.config == config && state.nextSid == nextSid
      && state.sessions.Keys == sessions.Keys
      && (forall k :: k in sessions ==> sessions[k].engine in engines && Stands(sessions[k], state.sessions[k]))
    }

    constructor (crypto: Crypto, initiator: bool, config: Config)
      ensures Valid() && state == NewSyncer(initiator, config) && this.crypto == crypto
    {
      this.crypto, this.initiator, this.config := crypto, initiator, config;
      sessions := map[];
      nextSid := if initiator then 0 else 1;
      engines := {};
      state := NewSyncer(initiator, config);
    }

    lemma StateOperable(v: Vault)
      requires Valid() && Sorted(v.order) && |v.order| < U64_LIMIT
      ensures Operable(state, v) && |state.sessions| == |sessions|
    {
      hide Sorted;
      assert |state.sessions| == |state.sessions.Keys| && |sessions| == |sessions.Keys|;
    }

    /** An engine over a sealed copy of a window. */
    method Engine(store: EntryStore, since: u64, until: u64) returns (r: Result<Negentropy, SyncError>)
      requires Valid() && store.Valid() && store.crypto == crypto && |store.order.Contents()| < U64_LIMIT
      ensures Operable(state, store.View())
      ensures var spec := Syncers.Engine(crypto, state, store.View(), since, until, false);
              && (r.Ok? <==> spec.Ok?)
              && (r.Ok? ==> r.value.Valid() && r.value.store.Sealed? && fresh(r.value) && r.value.Self() == spec.value)
              && (r.Err? ==> r.error == spec.error)
    {
      hide Window, Sorted, Key, Sound;
      SoundOrder(crypto, store.View());
      StateOperable(store.View());
      var items := store.Snapshot(since, until);
      var sealed := Seal(items);
      SameOrder(sealed, items);
      WindowShort(store.order.Contents(), since, until);
      r := NewEngine(crypto.sha, Store.Sealed(sealed), config.frameLimit);
    }

    /** Opens a session over a window of the store. */
    method Open(store: EntryStore, since: u64, until: u64) returns (r: Result<(nat, Message), SyncError>)
      requires Valid() && store.Valid() && store.crypto == crypto && |store.order.Contents()| < U64_LIMIT
      modifies this
      ensures Valid()
      ensures Operable(old(state), old(store.View()))
      ensures var spec := Syncers.Open(crypto, old(state), old(store.View()), since, until);
              && (r.Err? ==> spec == Err(r.error) && state == old(state))
              && (r.Ok? ==> spec == Ok((state, r.value.1)) && r.value.0 == old(nextSid))
    {
      hide Window, Sorted, Sound, Ready, InitiateSpec, EncodeMessage, Operable, Durable, Stands;
      SoundOrder(crypto, store.View());
      StateOperable(store.View());
      if |sessions| >= config.maxSessions {
        return Err(ResourceLimit);
      }
      var made := Engine(store, since, until);
      if made.Err? {
        return Err(made.error);
      }
      var engine := made.value;
      var msg := engine.Initiate();
      var sid := nextSid;
      Put((true, sid), engine, {});
      Advance();
      r := Ok((sid, Init(sid, since, until, msg.value)));
    }

    /** Ends a session of ours before it completes. */
    method Abort(sid: nat) returns (r: Option<Message>)
      requires Valid()
      modifies this
      ensures Valid()
      ensures match Syncers.Abort(old(state), sid)
              case None => r == None && state == old(state)
              case Some((s, m)) => r == Some(m) && state == s
    {
      hide Ready;
      if (true, sid) !in sessions {
        return None;
      }
      Remove((true, sid));
      r := Some(Close(sid));
    }

    /** Files a session under its key. */
    method Put(key: (bool, nat), engine: Negentropy, pushed: set<Id>)
      requires Valid() && engine.Valid() && engine.store.Sealed?
      modifies this`sessions, this`engines, this`state
      ensures Valid()
      ensures state == old(state).(sessions := old(state).sessions[key := Session(engine.Self(), pushed)])
    {
      hide Stands;
      Standing(OpenSession(engine, pushed), Session(engine.Self(), pushed));
      sessions := sessions[key := OpenSession(engine, pushed)];
      engines := engines + {engine};
      state := state.(sessions := state.sessions[key := Session(engine.Self(), pushed)]);
    }

    method Remove(key: (bool, nat))
      requires Valid()
      modifies this`sessions, this`state
      ensures Valid() && state == old(state).(sessions := old(state).sessions - {key})
    {
      hide Stands;
      sessions := sessions - {key};
      state := state.(sessions := state.sessions - {key});
    }

    method Advance()
      requires Valid()
      modifies this`nextSid, this`state
      ensures Valid() && state == old(state).(nextSid := old(nextSid) + 2)
    {
      nextSid := nextSid + 2;
      state := state.(nextSid := nextSid);
    }

    function Key(sid: nat): (bool, nat) {
      (sid % 2 == Parity(initiator), sid)
    }

    /** RECON_INIT. */
    method HandleInit(store: EntryStore, sid: nat, since: u64, until: u64, msg: seq<byte>) returns (r: Result<Output, SyncError>)
      requires Valid() && store.Valid() && store.crypto == crypto && |store.order.Contents()| < U64_LIMIT
      modifies this
      ensures Valid()
      ensures Operable(old(state), old(store.View()))
      ensures var spec := Syncers.HandleInit(crypto, old(state), old(store.View()), sid, since, until, msg);
              && (r.Err? ==> spec == Err(r.error) && state == old(state))
              && (r.Ok? ==> spec == Ok((state, r.value)))
    {
      hide Window, Sorted, Sound, Ready, ReconcileSpec, Operable, Durable, Stands;
      SoundOrder(crypto, store.View());
      StateOperable(store.View());
      if sid % 2 != 1 - Parity(initiator) {
        return Err(Violation("session id has the sender's parity"));
      }
      if (false, sid) in sessions {
        return Err(Violation("session id already open"));
      }
      if |sessions| >= config.maxSessions {
        return Err(ResourceLimit);
      }
      var made := Engine(store, since, until);
      if made.Err? {
        return Err(made.error);
      }
      var engine := made.value;
      var round := engine.Reconcile(msg);
      if round.Err? {
        return Err(round.error);
      }
      ResponderReplies(engine.Self(), msg);
      var reply := round.value.reply.value;
      Put((false, sid), engine, {});
      r := Ok(Output([Recon(sid, reply)], []));
    }

    /** RECON_MSG. */
    method HandleRecon(store: EntryStore, sid: nat, msg: seq<byte>) returns (r: Result<Output, SyncError>)
      requires Valid() && store.Valid() && store.crypto == crypto && |store.order.Contents()| < U64_LIMIT
      modifies this
      ensures Valid()
      ensures Operable(old(state), old(store.View()))
      ensures var spec := Syncers.HandleRecon(old(state), old(store.View()), sid, msg);
              && (r.Err? ==> spec == Err(r.error) && state == old(state))
              && (r.Ok? ==> spec == Ok((state, r.value)))
    {
      hide Sorted, Sound, Ready, ReconcileSpec, Concluded, Operable, Durable, Stands;
      SoundOrder(crypto, store.View());
      StateOperable(store.View());
      var key := Key(sid);
      if key !in sessions {
        return Err(Violation("no open session with this id"));
      }
      var session := sessions[key];
      Standing(session, state.sessions[key]);
      var round := session.engine.Reconcile(msg);
      if round.Err? {
        return Err(round.error);
      }
      var out := Conclude(sid, session, round.value, store.entries);
      r := Ok(out);
    }

    /** What one round of an open session leads to. */
    method Conclude(sid: nat, session: OpenSession, round: Round, entries: map<Id, Entry>) returns (out: Output)
      requires Valid() && Key(sid) in sessions && sessions[Key(sid)] == session
      modifies this
      ensures Valid() && (state, out) == Concluded(old(state), entries, sid, round)
    {
      hide Unseen, Batches, Lookup, Stands;
      var key := Key(sid);
      Standing(session, state.sessions[key]);
      var have, pushed := KeepUnseen(round.have, session.pushed);
      var need, _ := KeepUnseen(round.need, {});
      var events: seq<Event> := if have == [] && need == [] then [] else [Reconciled(sid, have, need)];
      var replies := PushBatches(entries, have, config.ttl);
      if round.reply.Some? {
        Put(key, session.engine, pushed);
        replies := replies + [Recon(sid, round.reply.value)];
      } else {
        Remove(key);
        replies := replies + [Close(sid)];
        events := events + [SessionClosed(sid, key.0)];
      }
      out := Output(replies, events);
    }

    /** RECON_DONE. */
    method HandleDone(sid: nat) returns (r: Result<Output, SyncError>)
      requires Valid()
      modifies this
      ensures Valid()
      ensures var spec := Syncers.HandleDone(old(state), sid);
              && (r.Err? ==> spec == Err(r.error) && state == old(state))
              && (r.Ok? ==> spec == Ok((state, r.value)))
    {
      hide Ready;
      var key := Key(sid);
      if key !in sessions {
        return Err(Violation("no open session with this id"));
      }
      Remove(key);
      r := Ok(Output([], [SessionClosed(sid, key.0)]));
    }
  }

  /** How many entries a message may add to a store. */
  function Load(m: Message): nat {
    if m.Push? then |m.entries| else 0
  }

  /** Any incoming message; over an in-memory store, exactly what the description says. */
  method HandleMessage(syncer: Syncer, store: EntryStore, m: Message, faults: nat -> J.Fault) returns (out: Output, error: Option<SyncError>)
    requires syncer.Valid() && store.Valid() && store.crypto == syncer.crypto && |store.entries| + Load(m) < NIL
    modifies syncer, store.Repr()
    ensures syncer.Valid() && store.Valid() && store.journal == old(store.journal)
    ensures Operable(old(syncer.state), old(store.View()))
    ensures store.journal == null || !m.Push? ==>
              Handle(syncer.crypto, old(syncer.state), old(store.View()), m) == Handled(syncer.state, store.View(), out, error)
    ensures m.Push? ==> syncer.state == old(syncer.state) && out.replies == []
                        && exists n: nat :: n <= |m.entries| && Absorb(store.crypto, old(store.View()), m.entries[..n]) == Absorbed(store.View(), out.events, None)
  {
    hide Stands, Sound, Ready, Operable, Absorb, Durable, Syncers.HandleInit, Syncers.HandleRecon, Sorted;
    SoundOrder(store.crypto, store.View());
    SoundSize(store.crypto, store.View());
    syncer.StateOperable(store.View());
    out, error := Output([], []), None;
    var r: Result<Output, SyncError>;
    match m {
      case Push(es, _) =>
        ghost var n;
        var events;
        events, error, n := HandlePush(store, es, faults);
        out := Output([], events);
        assert Absorb(store.crypto, old(store.View()), es[..n]) == Absorbed(store.View(), out.events, None);
        return;
      case Init(sid, since, until, msg) =>
        r := syncer.HandleInit(store, sid, since, until, msg);
      case Recon(sid, msg) =>
        r := syncer.HandleRecon(store, sid, msg);
      case Close(sid) =>
        r := syncer.HandleDone(sid);
      case Foreign =>
        r := Err(Violation("message type not for the sync layer"));
    }
    if r.Ok? {
      out := r.value;
    } else {
      error := Some(r.error);
    }
  }

  lemma SoundSize(c: Crypto, v: Vault)
    requires Sound(c, v)
    ensures |v.order| == |v.entries|
  {
  }

  /** Ids not seen before, and the set of all seen after. */
  method KeepUnseen(ids: seq<Id>, seen: set<Id>) returns (kept: seq<Id>, all: set<Id>)
    ensures kept == Unseen(ids, seen)
    ensures all == seen + set id | id in kept
  {
    kept, all := [], seen;
    for i := 0 to |ids|
      invariant kept == Unseen(ids[..i], seen) && all == seen + set id | id in kept
    {
      assert ids[..i + 1][..i] == ids[..i];
      if ids[i] !in all {
        kept := kept + [ids[i]];
        all := all + {ids[i]};
      }
    }
    assert ids[..|ids|] == ids;
  }

  lemma SoundOrder(c: Crypto, v: Vault)
    requires Sound(c, v)
    ensures Sorted(v.order)
  {
  }

  lemma WindowShort(order: seq<Item>, since: u64, until: u64)
    ensures |Window(order, since, until)| <= |order|
  {
    hide Rank;
  }

  /** Why an entry is not stored: the store rejects it, or its journal has no room for it or fails. */
  ghost predicate Refused(store: EntryStore, e: Entry, fault: J.Fault)
    reads store, store.order, store.journal
  {
    || Vaults.Insert(store.crypto, store.View(), e).Err?
    || (&& store.journal != null && IdOf(store.crypto, e) !in store.entries
        && !(|store.entries| < J.MAX_ENTRIES && Fits(store.journal.len, e) && fault.NoFault?))
  }

  /** Stores one pushed entry. */
  method StoreOne(store: EntryStore, e: Entry, fault: J.Fault) returns (r: Result<Event, SyncError>)
    requires store.Valid() && |store.entries| < NIL
    modifies store.Repr()
    ensures store.Valid() && store.journal == old(store.journal) && |store.entries| <= |old(store.entries)| + 1
    ensures var spec := Vaults.Insert(store.crypto, old(store.View()), e);
            && (r.Err? ==> store.View() == old(store.View()))
            && (r.Ok? ==> spec.Ok? && store.View() == spec.value.0
                          && r.value == if spec.value.1 then Stored(IdOf(store.crypto, e)) else DuplicateIgnored(IdOf(store.crypto, e)))
            && (spec.Err? ==> r == Err(Rejection(spec.error)))
            && (store.journal == null ==> (r.Ok? <==> spec.Ok?))
    ensures r.Err? <==> old(Refused(store, e, fault))
    ensures r.Err? ==> Refused(store, e, fault)
  {
    hide Sound, IdOf, Vaults.Insert, Fits, Durable;
    InsertNovel(store.crypto, store.View(), e);
    InsertSizes(store.crypto, store.View(), e);
    var id := IdOf(store.crypto, e);
    var stored := store.Insert(e, fault);
    match stored
    case Err(why) => r := Err(Rejection(why));
    case Ok(added) => r := Ok(if added then Stored(id) else DuplicateIgnored(id));
  }

  /**
    GOSSIP_PUSH: stores entries in order. Whatever goes wrong, a prefix of the
    push has been stored and reported, exactly as if only that prefix had come;
    the entry after it is one the store refuses.
   */
  method HandlePush(store: EntryStore, es: seq<Entry>, faults: nat -> J.Fault) returns (events: seq<Event>, error: Option<SyncError>, ghost n: nat)
    requires store.Valid() && |store.entries| + |es| < NIL
    modifies store.Repr()
    ensures store.Valid() && n <= |es| && store.journal == old(store.journal)
    ensures Absorb(store.crypto, old(store.View()), es[..n]) == Absorbed(store.View(), events, None)
    ensures error.None? <==> n == |es|
    ensures error.Some? ==> Refused(store, es[n], faults(n))
    ensures store.journal == null ==> Absorb(store.crypto, old(store.View()), es) == Absorbed(store.View(), events, error)
  {
    hide Sound, IdOf, Vaults.Insert, Durable, Absorb, Refused;
    events, error, n := [], None, 0;
    NothingAbsorbed(store.crypto, store.View());
    ghost var v := store.View();
    for i := 0 to |es|
      invariant store.Valid() && store.journal == old(store.journal) && |store.entries| <= |v.entries| + i
      invariant Absorb(store.crypto, v, es[..i]) == Absorbed(store.View(), events, None)
      invariant n == i && error == None
    {
      AbsorbNext(store.crypto, v, es, i);
      var stored := StoreOne(store, es[i], faults(i));
      match stored
      case Err(why) =>
        error := Some(why);
        if store.journal == null {
          AbsorbStops(store.crypto, v, es, i + 1);
        }
        return;
      case Ok(event) =>
        events := events + [event];
        n := i + 1;
    }
    assert es[..|es|] == es;
  }

  lemma NothingAbsorbed(c: Crypto, v: Vault)
    ensures Absorb(c, v, []) == Absorbed(v, [], None)
  {
  }

  lemma AbsorbNext(c: Crypto, v: Vault, es: seq<Entry>, i: nat)
    requires i < |es|
    ensures var before := Absorb(c, v, es[..i]);
            before.error.None? ==>
              Absorb(c, v, es[..i + 1]) ==
              match Vaults.Insert(c, before.vault, es[i])
              case Err(why) => before.(error := Some(Rejection(why)))
              case Ok((v', added)) =>
                Absorbed(v', before.events + [if added then Stored(IdOf(c, es[i])) else DuplicateIgnored(IdOf(c, es[i]))], None)
  {
    hide IdOf, Vaults.Insert;
    assert es[..i + 1][..i] == es[..i];
  }

  /** After an error nothing more of the push is looked at. */
  lemma {:induction false} AbsorbStops(c: Crypto, v: Vault, es: seq<Entry>, i: nat)
    requires i <= |es| && Absorb(c, v, es[..i]).error.Some?
    ensures Absorb(c, v, es) == Absorb(c, v, es[..i])
    decreases |es| - i
  {
    hide IdOf, Vaults.Insert;
    if i == |es| {
      assert es[..i] == es;
    } else {
      assert es[..i + 1][..i] == es[..i];
      AbsorbStops(c, v, es, i + 1);
    }
  }

  lemma InsertNovel(c: Crypto, v: Vault, e: Entry)
    ensures Vaults.Insert(c, v, e).Ok? ==> (Vaults.Insert(c, v, e).value.1 <==> IdOf(c, e) !in v.entries)
  {
  }

  lemma InsertSizes(c: Crypto, v: Vault, e: Entry)
    ensures Vaults.Insert(c, v, e).Ok? ==> |Vaults.Insert(c, v, e).value.0.entries| <= |v.entries| + 1
  {
    hide IdOf;
    var id := IdOf(c, e);
    assert v.entries[id := e].Keys == v.entries.Keys + {id};
    assert |v.entries[id := e]| == |v.entries[id := e].Keys| && |v.entries| == |v.entries.Keys|;
  }
}
