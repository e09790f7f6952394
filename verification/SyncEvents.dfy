/**
  What the session layer reports (core/src/sync/session.rs): one event per
  pushed entry, the engine's findings as it reported them, and for a session that
  ends who had opened it. The reports are read against whole runs of the layer
  over any messages, local openings and aborts.
 */
module SyncEvents {
  import opened Base
  import opened Items
  import opened Reconcile
  import opened Entries
  import opened Vaults
  import opened Syncers

  /* ----- pushed entries ----- */

  /** What the `i`-th of these entries is reported as, against the store they arrived at. */
  ghost predicate Tells(c: Crypto, v: Vault, es: seq<Entry>, i: nat, event: Event)
    requires i < |es|
  {
    var known := IdOf(c, es[i]) in v.entries || exists j :: 0 <= j < i && IdOf(c, es[j]) == IdOf(c, es[i]);
    event == if known then DuplicateIgnored(IdOf(c, es[i])) else Stored(IdOf(c, es[i]))
  }

  /** The store after these entries holds what it held and these. */
  ghost predicate Holds(c: Crypto, v: Vault, w: Vault, es: seq<Entry>) {
    forall id :: id in w.entries <==> id in v.entries || exists j :: 0 <= j < |es| && IdOf(c, es[j]) == id
  }

  /** The reports of a push, and the store it leaves. */
  ghost predicate Told(c: Crypto, v: Vault, es: seq<Entry>, a: Absorbed) {
    && |a.events| <= |es| && (a.error.None? <==> |a.events| == |es|)
    && (forall i :: 0 <= i < |a.events| ==> Tells(c, v, es, i, a.events[i]))
    && Holds(c, v, a.vault, es[..|a.events|])
  }

  /**
    Every pushed entry up to the first refused one is reported, in order, as
    stored exactly when neither the store nor an earlier entry of the push had
    it, and the store then holds exactly what it held and these.
   */
  lemma {:induction false} PushTells(c: Crypto, v: Vault, es: seq<Entry>)
    requires Sound(c, v)
    ensures Told(c, v, es, Absorb(c, v, es))
  {
    hide IdOf, Sound, Vaults.Insert, Told;
    if es == [] {
      NothingTold(c, v);
    } else {
      var n := |es| - 1;
      var before, a := Absorb(c, v, es[..n]), Absorb(c, v, es);
      PushTells(c, v, es[..n]);
      AbsorbSound(c, v, es[..n]);
      if before.error.None? && Vaults.Insert(c, before.vault, es[n]).Ok? {
        ToldAll(c, v, es, before);
        OneMore(c, v, before.vault, es);
        TellsOneMore(c, v, es, before, a);
      } else {
        StillTold(c, v, es, before, a);
      }
    }
  }

  lemma NothingTold(c: Crypto, v: Vault)
    ensures Told(c, v, [], Absorbed(v, [], None))
  {
  }

  lemma ToldAll(c: Crypto, v: Vault, es: seq<Entry>, before: Absorbed)
    requires es != [] && Told(c, v, es[..|es| - 1], before) && before.error.None?
    ensures Holds(c, v, before.vault, es[..|es| - 1]) && |before.events| == |es| - 1
  {
    hide Holds, Tells;
    assert es[..|es| - 1][..|before.events|] == es[..|es| - 1];
  }

  lemma StillTold(c: Crypto, v: Vault, es: seq<Entry>, before: Absorbed, a: Absorbed)
    requires es != [] && Told(c, v, es[..|es| - 1], before)
    requires a.vault == before.vault && a.events == before.events && a.error.Some?
    ensures Told(c, v, es, a)
  {
    hide Holds, Tells;
    assert es[..|es| - 1][..|before.events|] == es[..|before.events|];
    forall i | 0 <= i < |a.events| ensures Tells(c, v, es, i, a.events[i]) {
      TellsLonger(c, v, es, |es| - 1, i, a.events[i]);
    }
  }

  lemma TellsOneMore(c: Crypto, v: Vault, es: seq<Entry>, before: Absorbed, a: Absorbed)
    requires es != [] && Told(c, v, es[..|es| - 1], before) && before.error.None? && a.error.None?
    requires |a.events| == |es| && a.events[..|es| - 1] == before.events
    requires Tells(c, v, es, |es| - 1, a.events[|es| - 1]) && Holds(c, v, a.vault, es)
    ensures Told(c, v, es, a)
  {
    hide Holds, Tells;
    assert es[..|es|] == es;
    forall i | 0 <= i < |es| ensures Tells(c, v, es, i, a.events[i]) {
      if i < |es| - 1 {
        assert a.events[i] == before.events[i];
        TellsLonger(c, v, es, |es| - 1, i, a.events[i]);
      }
    }
  }

  /** An entry a store takes: signed by its author, its sort key not the reserved one. */
  predicate Acceptable(c: Crypto, e: Entry) {
    c.verifies(e) && e.sortKey != 0xFFFF_FFFF_FFFF_FFFF
  }

  /** A push goes on exactly to the first entry that is not acceptable. */
  lemma {:induction false} PushStops(c: Crypto, v: Vault, es: seq<Entry>)
    ensures var a := Absorb(c, v, es);
            && |a.events| <= |es| && (forall i :: 0 <= i < |a.events| ==> Acceptable(c, es[i]))
            && (a.error.None? <==> |a.events| == |es|)
            && (a.error.Some? ==> !Acceptable(c, es[|a.events|]))
  {
    hide IdOf;
    if es != [] {
      PushStops(c, v, es[..|es| - 1]);
    }
  }

  lemma OneMore(c: Crypto, v: Vault, w: Vault, es: seq<Entry>)
    requires es != [] && Holds(c, v, w, es[..|es| - 1]) && Sound(c, w) && Vaults.Insert(c, w, es[|es| - 1]).Ok?
    ensures var (w', added) := Vaults.Insert(c, w, es[|es| - 1]).value;
            var id := IdOf(c, es[|es| - 1]);
            Holds(c, v, w', es) && Tells(c, v, es, |es| - 1, if added then Stored(id) else DuplicateIgnored(id))
  {
    hide IdOf, Sound, Vaults.Insert, Holds, Tells;
    InsertSound(c, w, es[|es| - 1]);
    HoldsOne(c, v, w, Vaults.Insert(c, w, es[|es| - 1]).value.0, es);
  }

  lemma TellsLonger(c: Crypto, v: Vault, es: seq<Entry>, n: nat, i: nat, event: Event)
    requires i < n <= |es| && Tells(c, v, es[..n], i, event)
    ensures Tells(c, v, es, i, event)
  {
    hide IdOf;
    assert forall j :: 0 <= j < n ==> es[..n][j] == es[j];
  }

  lemma HoldsOne(c: Crypto, v: Vault, w: Vault, w': Vault, es: seq<Entry>)
    requires es != [] && Holds(c, v, w, es[..|es| - 1])
    requires var id := IdOf(c, es[|es| - 1]); forall x :: x in w'.entries <==> x in w.entries || x == id
    ensures Holds(c, v, w', es)
    ensures var id := IdOf(c, es[|es| - 1]);
            Tells(c, v, es, |es| - 1, if id in w.entries then DuplicateIgnored(id) else Stored(id))
  {
    hide IdOf;
    assert forall j :: 0 <= j < |es| - 1 ==> es[..|es| - 1][j] == es[j];
  }

  /* ----- the engine's findings ----- */

  /**
    A round of an open session is reported with the ids the engine found:
    those to send that were not sent before on this session, and those to
    receive, each once; a round that found nothing is not reported.
   */
  lemma RoundTells(s: SyncState, v: Vault, sid: nat, msg: seq<byte>)
    requires Operable(s, v) && HandleRecon(s, v, sid, msg).Ok?
    ensures var session := s.sessions[SessionKey(s, sid)];
            var round := ReconcileSpec(session.party, msg).value;
            var events := HandleRecon(s, v, sid, msg).value.1.events;
            && (forall e :: e in events && e.Reconciled? ==>
                  && e == events[0] && e.sid == sid
                  && NoDup(e.have) && (forall id :: id in e.have <==> id in round.have && id !in session.pushed)
                  && NoDup(e.need) && (forall id :: id in e.need <==> id in round.need))
            && ((exists e :: e in events && e.Reconciled?) <==>
                  round.need != [] || exists id :: id in round.have && id !in session.pushed)
  {
    hide ReconcileSpec, Unseen, Batches, Lookup, Pushes;
    var session := s.sessions[SessionKey(s, sid)];
    var round := ReconcileSpec(session.party, msg).value;
    FindingsTell(sid, round.have, round.need, session.pushed, HandleRecon(s, v, sid, msg).value.1.events);
  }

  lemma FindingsTell(sid: nat, found: seq<Id>, lacking: seq<Id>, pushed: set<Id>, events: seq<Event>)
    requires var have, need := Unseen(found, pushed), Unseen(lacking, {});
             var learned := if have == [] && need == [] then [] else [Reconciled(sid, have, need)];
             events == learned || exists byUs :: events == learned + [SessionClosed(sid, byUs)]
    ensures forall e :: e in events && e.Reconciled? ==>
              && e == events[0] && e.sid == sid
              && NoDup(e.have) && (forall id :: id in e.have <==> id in found && id !in pushed)
              && NoDup(e.need) && (forall id :: id in e.need <==> id in lacking)
    ensures (exists e :: e in events && e.Reconciled?) <==> lacking != [] || exists id :: id in found && id !in pushed
  {
    hide Unseen;
    UnseenSpec(found, pushed);
    UnseenSpec(lacking, {});
    var have, need := Unseen(found, pushed), Unseen(lacking, {});
    assert lacking != [] ==> lacking[0] in need;
    if have != [] || need != [] {
      assert events[0] == Reconciled(sid, have, need);
      if have != [] {
        assert have[0] in found && have[0] !in pushed;
      } else {
        assert need[0] in lacking;
      }
    }
  }

  /* ----- the ends of sessions ----- */

  /** One thing that happens to the session layer, over whatever the store is then. */
  datatype Act =
    | Begin(store: Vault, since: u64, until: u64)
    | Take(store: Vault, message: Message)
    | Stop(sid: nat)

  ghost predicate Step(c: Crypto, s: SyncState, act: Act, s': SyncState, events: seq<Event>) {
    match act
    case Begin(v, since, until) =>
      && Operable(s, v) && events == []
      && s' == (match Open(c, s, v, since, until) case Ok((t, _)) => t case Err(_) => s)
    case Take(v, m) =>
      && Operable(s, v)
      && var h := Handle(c, s, v, m); s' == h.state && events == h.output.events
    case Stop(sid) =>
      && events == []
      && s' == (match Abort(s, sid) case Some((t, _)) => t case None => s)
  }

  /** A run of the layer: its states, what happened, and what it reported. */
  ghost predicate Run(c: Crypto, initiator: bool, config: Config, states: seq<SyncState>, acts: seq<Act>, reports: seq<seq<Event>>) {
    && |states| == |acts| + 1 && |reports| == |acts| && states[0] == NewSyncer(initiator, config)
    && forall i :: 0 <= i < |acts| ==> Step(c, states[i], acts[i], states[i + 1], reports[i])
  }

  /** The act opened this session for us. */
  ghost predicate WeOpened(c: Crypto, s: SyncState, act: Act, sid: nat) {
    && act.Begin? && Operable(s, act.store)
    && var r := Open(c, s, act.store, act.since, act.until);
    r.Ok? && r.value.1.sid == sid
  }

  /** The act accepted this session from the peer. */
  ghost predicate PeerOpened(c: Crypto, s: SyncState, act: Act, sid: nat) {
    && act.Take? && Operable(s, act.store) && act.message.Init? && act.message.sid == sid
    && Handle(c, s, act.store, act.message).error.None?
  }

  ghost predicate Earlier(c: Crypto, states: seq<SyncState>, acts: seq<Act>, n: nat, ours: bool, sid: nat)
    requires n <= |acts| <= |states|
  {
    exists j :: 0 <= j < n && if ours then WeOpened(c, states[j], acts[j], sid) else PeerOpened(c, states[j], acts[j], sid)
  }

  /** The table read by what happened: each session is under the side that opened it, and our ids are ours alone. */
  ghost predicate TableTells(c: Crypto, initiator: bool, config: Config, states: seq<SyncState>, acts: seq<Act>, n: nat)
    requires n <= |acts| < |states|
  {
    var s, ours := states[n], if initiator then 0 else 1;
    && s.initiator == initiator && s.config == config && s.nextSid % 2 == ours
    && |s.sessions| <= config.maxSessions
    && (forall key :: key in s.sessions ==> key.0 == (key.1 % 2 == ours) && Earlier(c, states, acts, n, key.0, key.1))
    && (forall key :: key in s.sessions && key.0 ==> key.1 < s.nextSid)
  }

  /** What any act does to the table, and which ends it may report. */
  ghost predicate Accounted(c: Crypto, s: SyncState, act: Act, s': SyncState, events: seq<Event>) {
    && s'.initiator == s.initiator && s'.config == s.config && s'.nextSid % 2 == s.nextSid % 2 && s'.nextSid >= s.nextSid
    && (|s.sessions| <= s.config.maxSessions ==> |s'.sessions| <= s.config.maxSessions)
    && (forall key :: key in s'.sessions && key !in s.sessions ==>
          if key.0 then WeOpened(c, s, act, key.1) && key.1 == s.nextSid < s'.nextSid
          else PeerOpened(c, s, act, key.1) && key.1 % 2 == 1 - (if s.initiator then 0 else 1))
    && (forall event :: event in events && event.SessionClosed? ==>
          var key := (event.byUs, event.sid);
          key in s.sessions && key !in s'.sessions && event.byUs == (event.sid % 2 == if s.initiator then 0 else 1))
  }

  lemma Unchanged(c: Crypto, s: SyncState, act: Act, events: seq<Event>)
    requires forall event :: event in events ==> !event.SessionClosed?
    ensures Accounted(c, s, act, s, events)
  {
    hide WeOpened, PeerOpened;
  }

  /** A session put in the table below its limit. */
  lemma Added(c: Crypto, s: SyncState, act: Act, s': SyncState, key: (bool, nat))
    requires |s.sessions| < s.config.maxSessions && key in s'.sessions
    requires s' == s.(sessions := s.sessions[key := s'.sessions[key]], nextSid := if key.0 then s.nextSid + 2 else s.nextSid)
    requires if key.0 then WeOpened(c, s, act, key.1) && key.1 == s.nextSid
             else PeerOpened(c, s, act, key.1) && key.1 % 2 == 1 - (if s.initiator then 0 else 1)
    ensures Accounted(c, s, act, s', [])
  {
    hide WeOpened, PeerOpened;
    assert s'.sessions.Keys == s.sessions.Keys + {key};
    assert |s'.sessions| == |s'.sessions.Keys| && |s.sessions| == |s.sessions.Keys|;
  }

  lemma BeginTells(c: Crypto, s: SyncState, act: Act, s': SyncState)
    requires act.Begin? && Step(c, s, act, s', [])
    ensures Accounted(c, s, act, s', [])
  {
    hide Operable, PeerOpened, InitiateSpec, EncodeMessage, Engine, Accounted;
    if Open(c, s, act.store, act.since, act.until).Ok? {
      Added(c, s, act, s', (true, s.nextSid));
    } else {
      Unchanged(c, s, act, []);
    }
  }

  lemma InitTells(c: Crypto, s: SyncState, act: Act, s': SyncState, events: seq<Event>)
    requires act.Take? && act.message.Init? && Step(c, s, act, s', events)
    ensures Accounted(c, s, act, s', events)
  {
    hide Operable, WeOpened, Engine, ReconcileSpec, Accounted;
    if Handle(c, s, act.store, act.message).error.None? {
      Added(c, s, act, s', (false, act.message.sid));
    } else {
      Unchanged(c, s, act, []);
    }
  }

  lemma ReconTells(c: Crypto, s: SyncState, v: Vault, sid: nat, msg: seq<byte>, act: Act)
    requires Operable(s, v) && HandleRecon(s, v, sid, msg).Ok?
    ensures var (s', out) := HandleRecon(s, v, sid, msg).value; Accounted(c, s, act, s', out.events)
  {
    hide Operable, WeOpened, PeerOpened, ReconcileSpec, Batches, Lookup, Unseen, Pushes;
  }

  lemma DoneTells(c: Crypto, s: SyncState, sid: nat, act: Act)
    requires HandleDone(s, sid).Ok?
    ensures var (s', out) := HandleDone(s, sid).value; Accounted(c, s, act, s', out.events)
  {
    hide WeOpened, PeerOpened;
  }

  lemma StopTells(c: Crypto, s: SyncState, act: Act, s': SyncState)
    requires act.Stop? && Step(c, s, act, s', [])
    ensures Accounted(c, s, act, s', [])
  {
    hide WeOpened, PeerOpened;
  }

  lemma StepTells(c: Crypto, s: SyncState, act: Act, s': SyncState, events: seq<Event>)
    requires Step(c, s, act, s', events)
    ensures Accounted(c, s, act, s', events)
  {
    hide Accounted, Operable, HandleRecon, HandleDone, HandleInit, Absorb, Open, Abort;
    match act
    case Begin(v, since, until) => BeginTells(c, s, act, s');
    case Stop(sid) => StopTells(c, s, act, s');
    case Take(v, m) =>
      match m
      case Push(es, _) =>
        PushReports(c, v, es);
        Unchanged(c, s, act, events);
      case Init(_, _, _, _) => InitTells(c, s, act, s', events);
      case Recon(sid, msg) =>
        if HandleRecon(s, v, sid, msg).Ok? {
          ReconTells(c, s, v, sid, msg, act);
        } else {
          Unchanged(c, s, act, events);
        }
      case Close(sid) =>
        if HandleDone(s, sid).Ok? {
          DoneTells(c, s, sid, act);
        } else {
          Unchanged(c, s, act, events);
        }
      case Foreign => Unchanged(c, s, act, events);
  }

  lemma {:induction false} PushReports(c: Crypto, v: Vault, es: seq<Entry>)
    ensures forall e :: e in Absorb(c, v, es).events ==> e.Stored? || e.DuplicateIgnored?
  {
    hide IdOf, Vaults.Insert;
    if es != [] {
      PushReports(c, v, es[..|es| - 1]);
    }
  }

  lemma {:induction false} RunTells(c: Crypto, initiator: bool, config: Config, states: seq<SyncState>, acts: seq<Act>, reports: seq<seq<Event>>, n: nat)
    requires Run(c, initiator, config, states, acts, reports) && n <= |acts|
    ensures TableTells(c, initiator, config, states, acts, n)
    decreases n
  {
    hide Step, WeOpened, PeerOpened;
    if n > 0 {
      RunTells(c, initiator, config, states, acts, reports, n - 1);
      var s, s' := states[n - 1], states[n];
      StepTells(c, s, acts[n - 1], s', reports[n - 1]);
      forall key | key in s'.sessions
        ensures key.0 == (key.1 % 2 == if initiator then 0 else 1) && Earlier(c, states, acts, n, key.0, key.1)
      {
        if key !in s.sessions {
          assert if key.0 then WeOpened(c, states[n - 1], acts[n - 1], key.1) else PeerOpened(c, states[n - 1], acts[n - 1], key.1);
        }
      }
    }
  }

  /** The ids we open are of our parity. */
  lemma OpenedIsOurs(c: Crypto, initiator: bool, config: Config, states: seq<SyncState>, acts: seq<Act>, reports: seq<seq<Event>>, j: nat, sid: nat)
    requires Run(c, initiator, config, states, acts, reports) && j < |acts| && WeOpened(c, states[j], acts[j], sid)
    ensures sid % 2 == if initiator then 0 else 1
  {
    hide Step, Earlier;
    RunTells(c, initiator, config, states, acts, reports, j);
  }

  /**
    In every run, whatever the peer sends: the table never exceeds its limit,
    and a session reported as ended was open until then and is reported as ours
    exactly if an earlier act of ours opened that id; otherwise the peer had.
   */
  lemma ClosingsTell(c: Crypto, initiator: bool, config: Config, states: seq<SyncState>, acts: seq<Act>, reports: seq<seq<Event>>, i: nat)
    requires Run(c, initiator, config, states, acts, reports) && i < |acts|
    ensures |states[i].sessions| <= config.maxSessions
    ensures forall event :: event in reports[i] && event.SessionClosed? ==>
              && (event.byUs, event.sid) in states[i].sessions && (event.byUs, event.sid) !in states[i + 1].sessions
              && (event.byUs <==> exists j :: 0 <= j < i && WeOpened(c, states[j], acts[j], event.sid))
              && (!event.byUs ==> exists j :: 0 <= j < i && PeerOpened(c, states[j], acts[j], event.sid))
  {
    hide Step, WeOpened, PeerOpened;
    RunTells(c, initiator, config, states, acts, reports, i);
    StepTells(c, states[i], acts[i], states[i + 1], reports[i]);
    forall event | event in reports[i] && event.SessionClosed?
      ensures event.byUs <==> exists j :: 0 <= j < i && WeOpened(c, states[j], acts[j], event.sid)
      ensures !event.byUs ==> exists j :: 0 <= j < i && PeerOpened(c, states[j], acts[j], event.sid)
    {
      assert Earlier(c, states, acts, i, event.byUs, event.sid);
      if j :| 0 <= j < i && WeOpened(c, states[j], acts[j], event.sid) {
        OpenedIsOurs(c, initiator, config, states, acts, reports, j, event.sid);
      }
    }
  }
}
