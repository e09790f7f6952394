/**
  Two honest session managers on one link converge (core/src/sync/session.rs):
  under every interleaving of openings and deliveries no message is ever
  refused, the link falls silent after a bounded number of deliveries, and the
  two stores have then become equal.
 */
module Convergence {
  import opened Base
  import opened Items
  import opened Ranges
  import opened Reconcile
  import opened Exactness
  import opened Descent
  import opened Soundness
  import opened Sessions
  import opened LimitedSessions
  import opened SessionRuns
  import opened Entries
  import opened Vaults
  import opened Syncers
  import opened Ledgers
  import opened Links

  /* ----- what one delivery does to a session ----- */

  /** While a session runs, everything learnt is the opener's own. */
  lemma LearntOwn(a: Party, b: Party, n: nat)
    requires Pair(a, b)
    ensures !After(a, b, n).Failed? && forall id :: id in After(a, b, n).have ==> id in IdSet(a.items)
  {
    hide After, IdSet, Pair, SoundWire;
    PairReady(a, b);
    SessionSound(a, b, n);
  }

  /** A responder's round always has a reply and learns nothing. */
  lemma ResponderRound(a: Party, b: Party, n: nat)
    requires Pair(a, b) && After(a, b, n).Flight? && !After(a, b, n).toInitiator
    ensures var w, r := After(a, b, n), ReconcileSpec(b, After(a, b, n).msg);
            && r.Ok? && r.value.reply.Some? && r.value.have == [] && r.value.need == []
            && After(a, b, n + 1) == Flight(true, r.value.reply.value, w.have, w.need)
  {
    hide SoundFlight, Process, ReconcileSpec, Pair, OnlyIn;
    PairReady(a, b);
    SessionSound(a, b, n);
    var w := After(a, b, n);
    var rs :| SoundFlight(a, b, w, rs);
    SoundQuiet(a, b, w, rs);
    DeliverIs(a, b, w);
    ResponderReplies(b, w.msg);
    assert w.have + [] == w.have && w.need + [] == w.need;
  }

  lemma SoundQuiet(a: Party, b: Party, w: Wire, rs: seq<Range>)
    requires Pair(a, b) && SoundFlight(a, b, w, rs) && !w.toInitiator
    ensures var r := ReconcileSpec(b, w.msg);
            r.Ok? && r.value.have == [] && r.value.need == []
  {
    hide Trusty, AllEncodable, EncodeMessage, ReconcileSpec, Process, OnlyIn;
    ProcessEncodable(b, rs);
    ResponderLearnsNothing(b, rs);
  }

  /** An opener's round: only its own ids are learnt; without a reply a clean session has learnt them all. */
  lemma OpenerRound(a: Party, b: Party, n: nat)
    requires Pair(a, b) && After(a, b, n).Flight? && After(a, b, n).toInitiator
    ensures var w, r := After(a, b, n), ReconcileSpec(a, After(a, b, n).msg);
            && r.Ok?
            && (forall id :: id in w.have + r.value.have ==> id in IdSet(a.items))
            && (if r.value.reply.Some? then
                  After(a, b, n + 1) == Flight(false, r.value.reply.value, w.have + r.value.have, w.need + r.value.need)
                else Clean(a, b) ==> WholeDifference(a.items, b.items, w.have + r.value.have))
  {
    hide ReconcileSpec, Pair, IdSet, Clean, WholeDifference;
    PairReady(a, b);
    DeliverIs(a, b, After(a, b, n));
    LearntOwn(a, b, n + 1);
    if After(a, b, n + 1).Done? && Clean(a, b) {
      CleanSessionExact(a, b, n + 1);
    }
  }

  /* ----- how much can still happen ----- */

  /** No session takes more deliveries than this: logarithmically many when it is clean and free of limits. */
  function Limit(w: World): nat {
    var deepest := 3 + Depth(|w.entries|) + Depth(|w.entries|);
    if w.clean && w.free then deepest else (|w.entries| + |w.entries| + 1) * (deepest + 1) + 1
  }

  /** Deliveries a session can still cause, its pushes included. */
  function Potential(w: World, t: Track): int {
    match t.stage
    case Opening(_) => Limit(w) + 4 + |w.entries|
    case Running(_, n, _, _, have, _) => Limit(w) + 4 - n + |w.entries| - |set id | id in have|
    case Closing(_) => 1
    case Closed => 0
  }

  function Total(w: World, ts: seq<Track>): int {
    if ts == [] then 0 else Total(w, ts[..|ts| - 1]) + Potential(w, ts[|ts| - 1])
  }

  function PushCount(ch: seq<Message>): int {
    |ch| - |Tokens(ch)|
  }

  /** Deliveries the whole link can still see. */
  function Phi(w: World, k: Link, l: Ledger): int {
    Total(w, l.even) + Total(w, l.odd) + PushCount(k.xy) + PushCount(k.yx)
  }

  lemma {:induction false} TotalUpdate(w: World, ts: seq<Track>, i: nat, t: Track)
    requires i < |ts|
    ensures Total(w, ts[i := t]) == Total(w, ts) - Potential(w, ts[i]) + Potential(w, t)
  {
    hide Potential;
    var n := |ts| - 1;
    if i == n {
      assert ts[i := t][..n] == ts[..n];
    } else {
      TotalUpdate(w, ts[..n], i, t);
      assert ts[i := t][..n] == ts[..n][i := t];
    }
  }

  lemma PhiUpdate(w: World, l: Ledger, sid: nat, t: Track)
    requires Known(l, sid)
    ensures var l' := Update(l, sid, t);
            Total(w, l'.even) + Total(w, l'.odd) == Total(w, l.even) + Total(w, l.odd) - Potential(w, Look(l, sid)) + Potential(w, t)
  {
    hide Potential, Total;
    TotalUpdate(w, Side(l, sid % 2), sid / 2, t);
  }

  /** The sessions are the same ones, over the same windows. */
  ghost predicate SameSessions(l: Ledger, l': Ledger) {
    && Opens(l') == Opens(l)
    && forall s: nat :: Known(l, s) ==> Known(l', s) && Look(l', s).since == Look(l, s).since && Look(l', s).until == Look(l, s).until
  }

  /** A delivery that is accepted, keeps the invariant, and uses up potential. */
  ghost predicate Advanced(w: World, par: nat, k: Link, l: Ledger, l': Ledger)
    requires k.xy != [] && Operable(k.y.sync, k.y.vault)
  {
    && Refusal(w.c, k).None?
    && Inv(w, par, DeliverTo(w.c, k), l')
    && Phi(w, DeliverTo(w.c, k), l') < Phi(w, k, l)
    && SameSessions(l, l')
  }

  /* ----- one delivery, from `x` to `y` ----- */

  lemma InvOperable(w: World, par: nat, k: Link, l: Ledger)
    requires Inv(w, par, k, l)
    ensures Operable(k.x.sync, k.x.vault) && Operable(k.y.sync, k.y.vault)
  {
    hide NodeOk, ChannelOk, TracksOk;
    NodeOperable(w, par, k.x, k.y, k.xy, k.yx, l);
    NodeOperable(w, 1 - par, k.y, k.x, k.yx, k.xy, l);
  }

  lemma NodeOperable(w: World, par: nat, m: Node, peer: Node, ch: seq<Message>, back: seq<Message>, l: Ledger)
    requires (par == 0 || par == 1) && |w.entries| < U64_LIMIT && NodeOk(w, par, m, l)
    requires TracksOk(w, par, m.vault, peer.vault, ch, l) && TracksOk(w, 1 - par, peer.vault, m.vault, back, l)
    ensures Operable(m.sync, m.vault)
  {
    hide Ready, After, Clean, Arriving, IdSet, InitiateSpec, EncodeMessage, IdOf, Known, Look;
    WindowParty(w, m.vault, m.sync.config.frameLimit, 0, 0, true);
    forall k | k in m.sync.sessions ensures Ready(m.sync.sessions[k].party) {
      assert Listed(l, par, k);
      var t := Look(l, k.1);
      if k.0 {
        assert TrackOk(w, par, m.vault, peer.vault, ch, t);
      } else {
        assert TrackOk(w, 1 - par, peer.vault, m.vault, back, t);
      }
    }
  }

  /** Delivers the oldest message of `xy`. */
  function DeliverTo(c: Crypto, k: Link): Link
    requires k.xy != [] && Operable(k.y.sync, k.y.vault)
  {
    var h := Handle(c, k.y.sync, k.y.vault, k.xy[0]);
    Link(k.x, Node(h.state, h.vault), k.xy[1..], k.yx + h.output.replies)
  }

  function Refusal(c: Crypto, k: Link): Option<SyncError>
    requires k.xy != [] && Operable(k.y.sync, k.y.vault)
  {
    Handle(c, k.y.sync, k.y.vault, k.xy[0]).error
  }

  lemma {:induction false} AbsorbAccepts(c: Crypto, v: Vault, es: seq<Entry>)
    requires forall e :: e in es ==> e.sortKey < U64_MAX && c.verifies(e)
    ensures Absorb(c, v, es).error.None?
  {
    hide IdOf;
    if es != [] {
      AbsorbAccepts(c, v, es[..|es| - 1]);
      assert es[|es| - 1] in es;
    }
  }

  /** Pushed entries are ones of the world, so the receiving store stays inside it. */
  lemma LandInside(w: World, mine: Vault, theirs: Vault, es: seq<Entry>)
    requires Sound(w.c, mine) && Inside(w, mine) && Sound(w.c, theirs) && Inside(w, theirs)
    requires forall e :: e in es ==> IdOf(w.c, e) in mine.entries && mine.entries[IdOf(w.c, e)] == e
    ensures var r := Absorb(w.c, theirs, es);
            && r.error.None? && Sound(w.c, r.vault) && Inside(w, r.vault) && Extends(theirs, r.vault)
            && forall e :: e in es ==> IdOf(w.c, e) in r.vault.entries
  {
    hide IdOf, Absorb, Sorted;
    forall e | e in es ensures e.sortKey < U64_MAX && w.c.verifies(e) {
      assert Filed(w.c, mine, IdOf(w.c, e));
    }
    AbsorbAccepts(w.c, theirs, es);
    AbsorbSound(w.c, theirs, es);
    var v := Absorb(w.c, theirs, es).vault;
    forall id | id in v.entries ensures id in w.entries && w.entries[id] == v.entries[id] {
      if id !in theirs.entries {
        assert Filed(w.c, v, id);
      }
    }
  }

  lemma PushesPop(c: Crypto, v: Vault, ch: seq<Message>)
    requires ch != [] && PushesHeld(c, v, ch)
    ensures PushesHeld(c, v, ch[1..])
  {
    hide IdOf;
    forall i, e | 0 <= i < |ch[1..]| && ch[1..][i].Push? && e in ch[1..][i].entries
      ensures IdOf(c, e) in v.entries && v.entries[IdOf(c, e)] == e
    {
      assert ch[i + 1] == ch[1..][i];
    }
  }

  lemma PushesGrow(c: Crypto, v: Vault, v': Vault, ch: seq<Message>)
    requires PushesHeld(c, v, ch) && Extends(v, v')
    ensures PushesHeld(c, v', ch)
  {
    hide IdOf;
  }

  lemma PushesAppend(c: Crypto, v: Vault, ch: seq<Message>, more: seq<Message>)
    requires PushesHeld(c, v, ch) && PushesHeld(c, v, more)
    ensures PushesHeld(c, v, ch + more)
  {
    hide IdOf;
  }

  lemma PushedAreHeld(c: Crypto, v: Vault, ch: seq<Message>)
    requires PushesHeld(c, v, ch) && ch != [] && ch[0].Push?
    ensures forall e :: e in ch[0].entries ==> IdOf(c, e) in v.entries && v.entries[IdOf(c, e)] == e
  {
    hide IdOf;
  }

  lemma DeliverPush(w: World, par: nat, k: Link, l: Ledger)
    requires Inv(w, par, k, l) && k.xy != [] && k.xy[0].Push? && Operable(k.y.sync, k.y.vault)
    ensures Advanced(w, par, k, l, l)
  {
    hide Total, Sound, Inside, Tabled, Carries, PushesHeld, TrackOk, TracksOk, Extends, KeepsArriving, Operable, IdOf, Absorb, Tokens;
    var es := k.xy[0].entries;
    PushedAreHeld(w.c, k.x.vault, k.xy);
    LandInside(w, k.x.vault, k.y.vault, es);
    var v := Absorb(w.c, k.y.vault, es).vault;
    assert k.yx + [] == k.yx;
    TokensHead(k.xy);
    assert [] + Tokens(k.xy[1..]) == Tokens(k.xy[1..]);
    PushesPop(w.c, k.x.vault, k.xy);
    PushesGrow(w.c, k.y.vault, v, k.yx);
    ArrivingLanded(w.c, k.y.vault, v, k.xy);
    ExtendsSelf(k.x.vault);
    TracksStay(w, par, k.x.vault, k.y.vault, k.xy, k.x.vault, v, k.xy[1..], l);
    ArrivingMore(w.c, k.x.vault, k.yx, []);
    TracksStay(w, 1 - par, k.y.vault, k.x.vault, k.yx, v, k.x.vault, k.yx, l);
    KeysGrow(Origin(w, 1 - par), k.y.vault, v);
  }

  lemma KeysGrow(ids: set<Id>, v: Vault, v': Vault)
    requires ids <= v.entries.Keys && Extends(v, v')
    ensures ids <= v'.entries.Keys
  {
  }

  /** The head of a channel that is not a push is the token of its session. */
  lemma HeadToken(w: World, par: nat, k: Link, l: Ledger)
    requires Inv(w, par, k, l) && k.xy != [] && !k.xy[0].Push?
    ensures OnDuty(l, par, k.xy[0]) && Tokens(k.xy) == [k.xy[0]] + Tokens(k.xy[1..])
    ensures !Owes(l, SidOf(k.xy[0]), 1 - par)
  {
    hide NodeOk, TracksOk, PushesHeld, TokenOf, Look, Known, Tokens;
    TokensHead(k.xy);
    assert Tokens(k.xy)[0] == k.xy[0];
  }

  /** A session moves on: its token leaves `xy` and its next one, if any, joins `yx`. */
  ghost predicate MayMoveOn(w: World, par: nat, k: Link, l: Ledger, t: Track, s: SyncState, replies: seq<Message>)
    requires (par == 0 || par == 1) && k.xy != [] && Known(l, SidOf(k.xy[0]))
  {
    var sid := SidOf(k.xy[0]);
    var l' := Update(l, sid, t);
    && !Owes(l', sid, par)
    && Tokens(replies) == (if Owes(l', sid, 1 - par) then [TokenOf(sid, t).value.msg] else [])
    && PushesHeld(w.c, k.y.vault, replies)
    && Tabled(l', par, k.x.sync) && Tabled(l', 1 - par, s) && s.config == k.y.sync.config
    && (sid % 2 == par ==> TrackOk(w, par, k.x.vault, k.y.vault, k.xy[1..], t))
    && (sid % 2 != par ==> TrackOk(w, 1 - par, k.y.vault, k.x.vault, k.yx + replies, t))
  }

  lemma MoveOn(w: World, par: nat, k: Link, l: Ledger, t: Track, s: SyncState, replies: seq<Message>)
    requires Inv(w, par, k, l) && k.xy != [] && !k.xy[0].Push? && Known(l, SidOf(k.xy[0]))
    requires MayMoveOn(w, par, k, l, t, s, replies)
    ensures Inv(w, par, Link(k.x, Node(s, k.y.vault), k.xy[1..], k.yx + replies), Update(l, SidOf(k.xy[0]), t))
  {
    hide Sound, Inside, Tabled, Carries, PushesHeld, TrackOk, TracksOk, Extends, KeepsArriving, IdOf, Tokens, TokenOf, Look, Known, Update, Opens, Owes;
    var sid := SidOf(k.xy[0]);
    HeadToken(w, par, k, l);
    PopToken(l, par, Tokens(k.xy), t);
    assert Tokens(k.xy)[1..] == Tokens(k.xy[1..]);
    TokensConcat(k.yx, replies);
    if Owes(Update(l, sid, t), sid, 1 - par) {
      PushToken(l, 1 - par, Tokens(k.yx), sid, t);
    } else {
      IdleToken(l, 1 - par, Tokens(k.yx), sid, t);
      assert Tokens(k.yx) + [] == Tokens(k.yx);
    }
    PushesPop(w.c, k.x.vault, k.xy);
    PushesAppend(w.c, k.y.vault, k.yx, replies);
    ExtendsSelf(k.x.vault);
    ExtendsSelf(k.y.vault);
    ArrivingPop(w.c, k.y.vault, k.xy);
    TracksStay(w, par, k.x.vault, k.y.vault, k.xy, k.x.vault, k.y.vault, k.xy[1..], l);
    TracksUpdate(w, par, k.x.vault, k.y.vault, k.xy[1..], l, sid, t);
    ArrivingMore(w.c, k.x.vault, k.yx, replies);
    TracksStay(w, 1 - par, k.y.vault, k.x.vault, k.yx, k.y.vault, k.x.vault, k.yx + replies, l);
    TracksUpdate(w, 1 - par, k.y.vault, k.x.vault, k.yx + replies, l, sid, t);
  }

  /** Such a step is an advance when the session's potential pays for its pushes. */
  lemma MoveAdvances(w: World, par: nat, k: Link, l: Ledger, t: Track, s: SyncState, replies: seq<Message>)
    requires Inv(w, par, k, l) && k.xy != [] && !k.xy[0].Push? && Known(l, SidOf(k.xy[0])) && Operable(k.y.sync, k.y.vault)
    requires MayMoveOn(w, par, k, l, t, s, replies)
    requires Refusal(w.c, k).None? && DeliverTo(w.c, k) == Link(k.x, Node(s, k.y.vault), k.xy[1..], k.yx + replies)
    requires var u := Look(l, SidOf(k.xy[0]));
             u.since == t.since && u.until == t.until && Potential(w, t) + PushCount(replies) < Potential(w, u)
    ensures Advanced(w, par, k, l, Update(l, SidOf(k.xy[0]), t))
  {
    hide Inv, MayMoveOn, Operable, Tokens, Potential, Total, Look, Known, Update, DeliverTo, Refusal, Opens;
    MoveOn(w, par, k, l, t, s, replies);
    HeadToken(w, par, k, l);
    PhiUpdate(w, l, SidOf(k.xy[0]), t);
    TokensConcat(k.yx, replies);
  }

  /** The session the head of `xy` belongs to, and which side opened it. */
  lemma HeadTrack(w: World, par: nat, k: Link, l: Ledger)
    requires Inv(w, par, k, l) && k.xy != [] && !k.xy[0].Push?
    ensures Known(l, SidOf(k.xy[0]))
    ensures var sid := SidOf(k.xy[0]);
            var t := Look(l, sid);
            && TokenOf(sid, t) == Some(Token(sid % 2 == par, k.xy[0]))
            && (sid % 2 == par ==> TrackOk(w, par, k.x.vault, k.y.vault, k.xy, t))
            && (sid % 2 != par ==> TrackOk(w, 1 - par, k.y.vault, k.x.vault, k.yx, t))
  {
    hide NodeOk, ChannelOk, TrackOk, TokenOf, Look, Known, Tokens;
    HeadToken(w, par, k, l);
  }

  /** The receiver's table entry for that session. */
  lemma HeadSession(w: World, par: nat, k: Link, l: Ledger, sid: nat)
    requires Inv(w, par, k, l) && Known(l, sid)
    ensures var key := SessionKey(k.y.sync, sid);
            && key == (sid % 2 != par, sid)
            && (key in k.y.sync.sessions <==> OpenAt(Look(l, sid), key.0))
            && (key in k.y.sync.sessions ==> k.y.sync.sessions[key] == SessionAt(Look(l, sid), key.0))
            && Parity(k.y.sync.initiator) == 1 - par
  {
    hide ChannelOk, TracksOk, OpenAt, SessionAt, Look, Known, Sound, Inside;
    var key := SessionKey(k.y.sync, sid);
    assert key in k.y.sync.sessions <==> Listed(l, 1 - par, key);
  }

  lemma Untabled(w: World, par: nat, k: Link, l: Ledger)
    requires Inv(w, par, k, l)
    ensures Tabled(l, par, k.x.sync) && Tabled(l, 1 - par, k.y.sync)
    ensures Opens(l) <= w.maxOpens <= k.y.sync.config.maxSessions && LimitOk(w, k.y.sync.config.frameLimit)
    ensures Sound(w.c, k.x.vault) && Inside(w, k.x.vault) && Sound(w.c, k.y.vault) && Inside(w, k.y.vault)
  {
    hide Tabled, ChannelOk, TracksOk, Sound, Inside;
  }

  lemma ClosedArrives(w: World, par: nat, mine: Vault, theirs: Vault, ch: seq<Message>, t: Track)
    requires TrackOk(w, par, mine, theirs, ch, t) && t.stage.Closing? && ch != [] && !ch[0].Push?
    ensures TrackOk(w, par, mine, theirs, ch[1..], t.(stage := Closed))
  {
    hide PartyOk, Arriving, Ready, IdSet, InitiateSpec, EncodeMessage;
    ExtendsSelf(mine);
    ExtendsSelf(theirs);
    ArrivingPop(w.c, theirs, ch);
    TrackStays(w, par, mine, theirs, ch, mine, theirs, ch[1..], t);
    PartyReady(w, mine, t.a, true);
  }

  /** RECON_DONE always finds its session and closes it. */
  lemma DeliverClose(w: World, par: nat, k: Link, l: Ledger) returns (l': Ledger)
    requires Inv(w, par, k, l) && k.xy != [] && k.xy[0].Close? && Operable(k.y.sync, k.y.vault)
    ensures Advanced(w, par, k, l, l')
  {
    hide Inv, Advanced, TrackOk, Tabled, Operable, Look, Known, Update, OnDuty, PushesHeld, Tokens;
    var sid := k.xy[0].sid;
    HeadTrack(w, par, k, l);
    HeadSession(w, par, k, l, sid);
    Untabled(w, par, k, l);
    ParityOf(w, par, k, l);
    var t := Look(l, sid);
    var t' := t.(stage := Closed);
    ClosedArrives(w, par, k.x.vault, k.y.vault, k.xy, t);
    TableStays(l, par, k.x.sync, sid, t');
    TableFollows(l, 1 - par, k.y.sync, sid, t');
    NoPushes(w.c, k.y.vault);
    MoveAdvances(w, par, k, l, t', Reflect(k.y.sync, 1 - par, sid, t'), []);
    l' := Update(l, sid, t');
  }

  lemma ParityOf(w: World, par: nat, k: Link, l: Ledger)
    requires Inv(w, par, k, l)
    ensures par == 0 || par == 1
  {
  }

  lemma NoPushes(c: Crypto, v: Vault)
    ensures PushesHeld(c, v, []) && Tokens([]) == []
  {
  }

  /** The responder's engine for a session over this window. */
  function Responding(c: Crypto, m: Node, since: u64, until: u64): Party {
    Party(c.sha, Window(m.vault.order, since, until), m.sync.config.frameLimit, false)
  }

  /** If the next delivery to `y` begins a session, the session is a clean one. */
  ghost predicate Clear(c: Crypto, k: Link) {
    k.xy != [] && k.xy[0].Init? && (true, k.xy[0].sid) in k.x.sync.sessions ==>
      var a := k.x.sync.sessions[(true, k.xy[0].sid)].party;
      var b := Responding(c, k.y, k.xy[0].since, k.xy[0].until);
      Ready(a) && Ready(b) ==> Clean(a, b)
  }

  lemma OpenerSession(w: World, par: nat, k: Link, l: Ledger, sid: nat)
    requires Inv(w, par, k, l) && Known(l, sid) && sid % 2 == par && OpenAt(Look(l, sid), true)
    ensures (true, sid) in k.x.sync.sessions && k.x.sync.sessions[(true, sid)] == SessionAt(Look(l, sid), true)
  {
    hide ChannelOk, TracksOk, OpenAt, SessionAt, Look, Known, Sound, Inside;
    assert Listed(l, par, (true, sid));
  }

  /** Where a session stands after the first reply. */
  function Answered(t: Track, b: Party, reply: seq<byte>): Track {
    t.(stage := Running(b, 1, true, reply, [], []))
  }

  lemma BeginTrack(w: World, par: nat, mine: Vault, y: Node, ch: seq<Message>, t: Track)
    requires TrackOk(w, par, mine, y.vault, ch, t) && t.stage.Opening? && ch != [] && !ch[0].Push?
    requires Sound(w.c, mine) && Inside(w, mine) && Sound(w.c, y.vault) && Inside(w, y.vault) && |w.entries| < U64_LIMIT
    requires LimitOk(w, y.sync.config.frameLimit)
    requires var b := Responding(w.c, y, t.since, t.until);
             w.clean && Ready(t.a) && Ready(b) ==> Clean(t.a, b)
    ensures var b := Responding(w.c, y, t.since, t.until);
            && Ready(b)
            && var r := ReconcileSpec(b, t.stage.first);
            && r.Ok? && r.value.reply.Some?
            && TrackOk(w, par, mine, y.vault, ch[1..], Answered(t, b, r.value.reply.value))
  {
    hide ReconcileSpec, Clean, Arriving, IdSet, EncodeMessage, Inside, Sound, IdOf, Window, Sorted, IdsFixItems, Storable, Deliver;
    var b := Responding(w.c, y, t.since, t.until);
    WindowParty(w, y.vault, y.sync.config.frameLimit, t.since, t.until, false);
    PartiesPair(w, mine, y.vault, t.a, b);
    ResponderRound(t.a, b, 0);
  }

  /** RECON_INIT is always accepted. */
  lemma DeliverInit(w: World, par: nat, k: Link, l: Ledger) returns (l': Ledger)
    requires Inv(w, par, k, l) && k.xy != [] && k.xy[0].Init? && Operable(k.y.sync, k.y.vault) && (w.clean ==> Clear(w.c, k))
    ensures Advanced(w, par, k, l, l')
  {
    hide Inv, Advanced, TrackOk, Tabled, Operable, Look, Known, Update, OnDuty, PushesHeld, ReconcileSpec, Clean, Ready, Sorted, Window, Tokens, Depth, Limit;
    var m := k.xy[0];
    var sid := m.sid;
    HeadTrack(w, par, k, l);
    HeadSession(w, par, k, l, sid);
    Untabled(w, par, k, l);
    ParityOf(w, par, k, l);
    WorldSize(w, par, k, l);
    var t := Look(l, sid);
    OpenerSession(w, par, k, l, sid);
    BeginTrack(w, par, k.x.vault, k.y, k.xy, t);
    var b := Responding(w.c, k.y, m.since, m.until);
    var reply := ReconcileSpec(b, m.msg).value.reply.value;
    var t' := Answered(t, b, reply);
    NotYetOpen(l, par, k.y.sync, sid);
    TableStays(l, par, k.x.sync, sid, t');
    TableFollows(l, 1 - par, k.y.sync, sid, t');
    OneReply(w.c, k.y.vault, Recon(sid, reply));
    MoveAdvances(w, par, k, l, t', Reflect(k.y.sync, 1 - par, sid, t'), [Recon(sid, reply)]);
    l' := Update(l, sid, t');
  }

  lemma WorldSize(w: World, par: nat, k: Link, l: Ledger)
    requires Inv(w, par, k, l)
    ensures |w.entries| < U64_LIMIT
  {
  }

  lemma OneReply(c: Crypto, v: Vault, m: Message)
    requires !m.Push?
    ensures PushesHeld(c, v, [m]) && Tokens([m]) == [m]
  {
    TokensSnoc([], m);
    assert [] + [m] == [m];
  }

  /** A responder has room for a session it does not know yet. */
  lemma NotYetOpen(l: Ledger, par: nat, s: SyncState, sid: nat)
    requires (par == 0 || par == 1) && Tabled(l, 1 - par, s) && Known(l, sid) && Look(l, sid).stage.Opening? && sid % 2 == par
    ensures |s.sessions| < Opens(l)
  {
    forall b ensures (b, sid) !in s.sessions {
      assert !Listed(l, 1 - par, (b, sid));
    }
    TableSize(l, 1 - par, s, sid);
  }

  /* ----- later rounds ----- */

  lemma NothingToPush(v: Vault, seen: set<Id>, ttl: u64)
    ensures Unseen([], seen) == [] && Pushes(Batches(Lookup(v.entries, [])), ttl) == []
  {
  }

  /** A responder's round in terms of its session. */
  lemma AnswerTrack(w: World, par: nat, mine: Vault, theirs: Vault, ch: seq<Message>, t: Track)
    requires TrackOk(w, par, mine, theirs, ch, t) && t.stage.Running? && !t.stage.toOpener && ch != [] && !ch[0].Push?
    requires Sound(w.c, mine) && Inside(w, mine) && Sound(w.c, theirs) && Inside(w, theirs)
    ensures Ready(t.stage.b)
    ensures var r := ReconcileSpec(t.stage.b, t.stage.msg);
            && r.Ok? && r.value.reply.Some? && r.value.have == [] && r.value.need == []
            && TrackOk(w, par, mine, theirs, ch[1..],
                       t.(stage := t.stage.(n := t.stage.n + 1, toOpener := true, msg := r.value.reply.value)))
  {
    hide ReconcileSpec, Clean, Arriving, IdSet, EncodeMessage, Inside, Sound, IdOf, Sorted, IdsFixItems, Storable, Deliver, InitiateSpec, After, KeepsArriving;
    var b := t.stage.b;
    PartiesPair(w, mine, theirs, t.a, b);
    ResponderRound(t.a, b, t.stage.n);
    ExtendsSelf(mine);
    ExtendsSelf(theirs);
    ArrivingPop(w.c, theirs, ch);
    TrackStays(w, par, mine, theirs, ch, mine, theirs, ch[1..], t);
  }

  /** A responder answers every further message of a session. */
  lemma DeliverToAnswerer(w: World, par: nat, k: Link, l: Ledger) returns (l': Ledger)
    requires Inv(w, par, k, l) && k.xy != [] && k.xy[0].Recon? && k.xy[0].sid % 2 == par && Operable(k.y.sync, k.y.vault)
    ensures Advanced(w, par, k, l, l')
  {
    hide Inv, Advanced, TrackOk, Tabled, Operable, Look, Known, Update, OnDuty, PushesHeld, ReconcileSpec, Ready, Tokens, Unseen, Batches, Lookup, Depth, Limit;
    var m := k.xy[0];
    var sid := m.sid;
    HeadTrack(w, par, k, l);
    HeadSession(w, par, k, l, sid);
    Untabled(w, par, k, l);
    ParityOf(w, par, k, l);
    var t := Look(l, sid);
    AnswerTrack(w, par, k.x.vault, k.y.vault, k.xy, t);
    var reply := ReconcileSpec(t.stage.b, m.msg).value.reply.value;
    var t' := t.(stage := t.stage.(n := t.stage.n + 1, toOpener := true, msg := reply));
    NothingToPush(k.y.vault, {}, k.y.sync.config.ttl);
    assert [] + [Recon(sid, reply)] == [Recon(sid, reply)];
    assert {} + (set id: Id | id in []) == {};
    TableStays(l, par, k.x.sync, sid, t');
    TableFollows(l, 1 - par, k.y.sync, sid, t');
    OneReply(w.c, k.y.vault, Recon(sid, reply));
    MoveAdvances(w, par, k, l, t', Reflect(k.y.sync, 1 - par, sid, t'), [Recon(sid, reply)]);
    l' := Update(l, sid, t');
  }

  /** The pushes for ids the sender holds: at most one each, and every id is on its way. */
  lemma PushesOf(c: Crypto, v: Vault, ids: seq<Id>, ttl: u64)
    requires Sound(c, v) && forall id :: id in ids ==> id in v.entries
    ensures var ms := Pushes(Batches(Lookup(v.entries, ids)), ttl);
            && |ms| <= |ids| && Tokens(ms) == [] && PushesHeld(c, v, ms)
            && forall id :: id in ids ==> exists i, e :: 0 <= i < |ms| && ms[i].Push? && e in ms[i].entries && IdOf(c, e) == id
  {
    hide IdOf, Sorted, Lookup, Pack, Flatten, Tokens;
    var es := Lookup(v.entries, ids);
    var bs := Batches(es);
    var ms := Pushes(bs, ttl);
    LookupInOrder(v.entries, ids);
    PackCount(es);
    BatchesExact(es);
    TokensOfPushes(ms);
    forall i, e | 0 <= i < |ms| && ms[i].Push? && e in ms[i].entries ensures IdOf(c, e) in v.entries && v.entries[IdOf(c, e)] == e {
      assert e in bs[i];
      FlattenMember(bs, e);
      var j :| 0 <= j < |es| && es[j] == e;
      assert ids[j] in ids && Filed(c, v, ids[j]);
    }
    forall id | id in ids ensures exists i, e :: 0 <= i < |ms| && ms[i].Push? && e in ms[i].entries && IdOf(c, e) == id {
      var j :| 0 <= j < |ids| && ids[j] == id;
      assert es[j] == v.entries[id] && Filed(c, v, id);
      FlattenMember(bs, es[j]);
      var i :| 0 <= i < |bs| && es[j] in bs[i];
      assert ms[i] == Push(bs[i], ttl);
    }
  }

  /** Where a session stands after the opener has heard `round`. */
  function Learnt(t: Track, round: Round): Track
    requires t.stage.Running?
  {
    var s := t.stage;
    t.(stage := match round.reply
                case Some(reply) => Running(s.b, s.n + 1, false, reply, s.have + round.have, s.need + round.need)
                case None => Closing(s.b))
  }

  /** The ids an opener pushes after a round: those it had not pushed before. */
  function Fresh(t: Track, round: Round): seq<Id>
    requires t.stage.Running?
  {
    Unseen(round.have, set id | id in t.stage.have)
  }

  /** Between them, what was pushed and what is fresh is everything learnt, each id counted once. */
  lemma FreshCount(have: seq<Id>, more: seq<Id>)
    ensures var seen := set id | id in have;
            var ids := Unseen(more, seen);
            && seen + (set id | id in ids) == (set id | id in have + more)
            && |set id | id in have + more| == |seen| + |ids|
            && forall id :: id in ids ==> id in more
  {
    hide Unseen;
    var seen := set id | id in have;
    UnseenSpec(more, seen);
    var ids := Unseen(more, seen);
    assert seen + (set id | id in ids) == set id | id in have + more;
    SetOfNoDup(ids);
    assert seen !! (set id | id in ids);
  }

  lemma {:induction false} SetOfNoDup<T>(ids: seq<T>)
    requires NoDup(ids)
    ensures |set id | id in ids| == |ids|
  {
    if ids != [] {
      var n := |ids| - 1;
      assert ids == ids[..n] + [ids[n]];
      SetOfNoDup(ids[..n]);
      assert (set id | id in ids) == (set id | id in ids[..n]) + {ids[n]};
    }
  }

  /** An opener's round in terms of its session. */
  lemma LearnTrack(w: World, par: nat, mine: Vault, theirs: Vault, ch: seq<Message>, t: Track, ttl: u64)
    requires TrackOk(w, par, mine, theirs, ch, t) && t.stage.Running? && t.stage.toOpener
    requires Sound(w.c, mine) && Inside(w, mine) && Sound(w.c, theirs) && Inside(w, theirs)
    ensures Ready(t.a)
    ensures var r := ReconcileSpec(t.a, t.stage.msg);
            && r.Ok?
            && var ms := Pushes(Batches(Lookup(mine.entries, Fresh(t, r.value))), ttl);
            && Tokens(ms) == [] && PushesHeld(w.c, mine, ms)
            && Potential(w, Learnt(t, r.value)) + |ms| < Potential(w, t)
            && forall last :: TrackOk(w, par, mine, theirs, ch + (ms + [last]), Learnt(t, r.value))
  {
    hide ReconcileSpec, Clean, Arriving, IdSet, Inside, Sound, IdOf, Sorted, IdsFixItems, Storable, After, KeepsArriving, TrackOk, Unseen, Batches, Lookup, Tokens, PushesHeld, WholeDifference, Limit;
    TrackParts(w, par, mine, theirs, ch, t);
    var a, b, s := t.a, t.stage.b, t.stage;
    PartiesPair(w, mine, theirs, a, b);
    OpenerRound(a, b, s.n);
    var round := ReconcileSpec(a, s.msg).value;
    FreshCount(s.have, round.have);
    PartySize(w, mine, a, true);
    PartySize(w, theirs, b, false);
    StillWithin(w, a, b, s.n);
    PushesOf(w.c, mine, Fresh(t, round), ttl);
    SubsetSize((set id | id in s.have + round.have), w.entries.Keys);
    var ms := Pushes(Batches(Lookup(mine.entries, Fresh(t, round))), ttl);
    forall last ensures TrackOk(w, par, mine, theirs, ch + (ms + [last]), Learnt(t, round)) {
      LearntArrives(w, par, mine, theirs, ch, t, round, ms, last);
    }
  }

  lemma TrackParts(w: World, par: nat, mine: Vault, theirs: Vault, ch: seq<Message>, t: Track)
    requires TrackOk(w, par, mine, theirs, ch, t) && t.stage.Running?
    ensures PartyOk(w, mine, t.a, true) && PartyOk(w, theirs, t.stage.b, false)
    ensures Ready(t.a) && Ready(t.stage.b) && (w.clean ==> Clean(t.a, t.stage.b))
    ensures var s := t.stage; After(t.a, s.b, s.n) == Flight(s.toOpener, s.msg, s.have, s.need)
  {
    hide Clean, Arriving, After, Ready;
  }

  /** A session that still runs is not past the bound. */
  lemma StillWithin(w: World, a: Party, b: Party, n: nat)
    requires Pair(a, b) && After(a, b, n).Flight? && |a.items| <= |w.entries| && |b.items| <= |w.entries|
    requires w.free ==> a.limit.None? && b.limit.None?
    requires w.clean ==> Clean(a, b)
    ensures n <= Limit(w) + 1
  {
    hide Depth, After, IdsFixItems, Storable, CollisionFree, SparesAt;
    SessionBounded(a, b, n);
    DepthMonotone(|a.items|, |w.entries|);
    DepthMonotone(|b.items|, |w.entries|);
    var deepest := 3 + Depth(|w.entries|) + Depth(|w.entries|);
    Products(|a.items| + |b.items| + 1, |w.entries| + |w.entries| + 1, Budget(a, b) + 1, deepest + 1);
  }

  lemma Products(x: nat, x': nat, y: nat, y': nat)
    requires x <= x' && y <= y'
    ensures x * y <= x' * y'
  {
    assert x * y <= x' * y;
    assert x' * y <= x' * y';
  }

  /** What the opener learnt is on its way once the pushes are sent. */
  lemma LearntArrives(w: World, par: nat, mine: Vault, theirs: Vault, ch: seq<Message>, t: Track, round: Round, ms: seq<Message>, last: Message)
    requires TrackOk(w, par, mine, theirs, ch, t) && t.stage.Running?
    requires forall id :: id in Fresh(t, round) ==> exists i, e :: 0 <= i < |ms| && ms[i].Push? && e in ms[i].entries && IdOf(w.c, e) == id
    requires var s := t.stage;
             if round.reply.Some? then
               Ready(t.a) && Ready(s.b) &&
               After(t.a, s.b, s.n + 1) == Flight(false, round.reply.value, s.have + round.have, s.need + round.need)
             else w.clean ==> WholeDifference(t.a.items, s.b.items, s.have + round.have)
    ensures TrackOk(w, par, mine, theirs, ch + (ms + [last]), Learnt(t, round))
  {
    hide Clean, Arriving, After, Ready, IdSet, IdOf, KeepsArriving, Extends, Unseen;
    var ch' := ch + (ms + [last]);
    ExtendsSelf(mine);
    ExtendsSelf(theirs);
    ArrivingMore(w.c, theirs, ch, ms + [last]);
    TrackStays(w, par, mine, theirs, ch, mine, theirs, ch', t);
    UnseenSpec(round.have, set id | id in t.stage.have);
    forall id | id in t.stage.have + round.have ensures Arriving(w.c, id, theirs, ch') {
      if id in Fresh(t, round) {
        InPushes(w.c, id, theirs, ch, ms, last);
      }
    }
    if round.reply.None? && w.clean {
      forall id | id in IdSet(t.a.items) ensures Arriving(w.c, id, theirs, ch') {
        if id in IdSet(t.stage.b.items) {
          PartyHolds(w, theirs, t.stage.b, false, id);
          HeldArrives(w.c, id, theirs, ch');
        }
      }
    }
  }

  lemma PartyHolds(w: World, v: Vault, p: Party, opener: bool, id: Id)
    requires PartyOk(w, v, p, opener) && id in IdSet(p.items)
    ensures id in v.entries
  {
    hide Ready;
    IdSetMember(p.items, id);
  }

  lemma HeldArrives(c: Crypto, id: Id, v: Vault, ch: seq<Message>)
    requires id in v.entries
    ensures Arriving(c, id, v, ch)
  {
  }

  lemma InPushes(c: Crypto, id: Id, v: Vault, ch: seq<Message>, ms: seq<Message>, last: Message)
    requires exists i, e :: 0 <= i < |ms| && ms[i].Push? && e in ms[i].entries && IdOf(c, e) == id
    ensures Arriving(c, id, v, ch + (ms + [last]))
  {
    hide IdOf;
    var i, e :| 0 <= i < |ms| && ms[i].Push? && e in ms[i].entries && IdOf(c, e) == id;
    assert (ch + (ms + [last]))[|ch| + i] == ms[i];
  }

  /** What an opener's session manager does with a reply. */
  lemma OpenerHandles(c: Crypto, s: SyncState, v: Vault, par: nat, sid: nat, msg: seq<byte>, t: Track)
    requires Operable(s, v) && sid % 2 == par && Parity(s.initiator) == par && (true, sid) in s.sessions
    requires t.stage.Running? && s.sessions[(true, sid)] == SessionAt(t, true) && Ready(t.a) && ReconcileSpec(t.a, msg).Ok?
    ensures var h, round := Handle(c, s, v, Recon(sid, msg)), ReconcileSpec(t.a, msg).value;
            && h.error.None? && h.vault == v && h.state == Reflect(s, par, sid, Learnt(t, round))
            && h.output.replies == Pushes(Batches(Lookup(v.entries, Fresh(t, round))), s.config.ttl)
                                   + [if round.reply.Some? then Recon(sid, round.reply.value) else Close(sid)]
  {
    hide Operable, ReconcileSpec, Ready, Unseen, Batches, Lookup, Pushes;
    FreshCount(t.stage.have, ReconcileSpec(t.a, msg).value.have);
  }

  /** An opener accepts every reply, pushes what it learnt, and goes on or closes. */
  lemma DeliverToOpener(w: World, par: nat, k: Link, l: Ledger) returns (l': Ledger)
    requires Inv(w, par, k, l) && k.xy != [] && k.xy[0].Recon? && k.xy[0].sid % 2 != par && Operable(k.y.sync, k.y.vault)
    ensures Advanced(w, par, k, l, l')
  {
    hide Inv, Advanced, TrackOk, Tabled, Operable, Look, Known, Update, OnDuty, PushesHeld, ReconcileSpec, Ready, Tokens, Fresh, Batches, Lookup, Depth, Potential, Pushes, Handle, Reflect;
    var m := k.xy[0];
    var sid := m.sid;
    HeadTrack(w, par, k, l);
    HeadSession(w, par, k, l, sid);
    Untabled(w, par, k, l);
    ParityOf(w, par, k, l);
    var t := Look(l, sid);
    LearnTrack(w, 1 - par, k.y.vault, k.x.vault, k.yx, t, k.y.sync.config.ttl);
    OpenerHandles(w.c, k.y.sync, k.y.vault, 1 - par, sid, m.msg, t);
    var round := ReconcileSpec(t.a, m.msg).value;
    var t', ms := Learnt(t, round), Pushes(Batches(Lookup(k.y.vault.entries, Fresh(t, round))), k.y.sync.config.ttl);
    var last := if round.reply.Some? then Recon(sid, round.reply.value) else Close(sid);
    TableStays(l, par, k.x.sync, sid, t');
    TableFollows(l, 1 - par, k.y.sync, sid, t');
    ReflectKeepsConfig(k.y.sync, 1 - par, sid, t');
    LastReply(w.c, k.y.vault, ms, last);
    MoveAdvances(w, par, k, l, t', Reflect(k.y.sync, 1 - par, sid, t'), ms + [last]);
    l' := Update(l, sid, t');
  }

  lemma ReflectKeepsConfig(s: SyncState, par: nat, sid: nat, t: Track)
    ensures Reflect(s, par, sid, t).config == s.config
  {
  }

  lemma LastReply(c: Crypto, v: Vault, ms: seq<Message>, last: Message)
    requires Tokens(ms) == [] && PushesHeld(c, v, ms) && !last.Push?
    ensures Tokens(ms + [last]) == [last] && PushesHeld(c, v, ms + [last]) && PushCount(ms + [last]) == |ms|
  {
    hide IdOf;
    OneReply(c, v, last);
    TokensSnoc(ms, last);
    PushesAppend(c, v, ms, [last]);
  }

  /** Whatever is at the head of a channel is accepted and advances the link. */
  lemma DeliverOne(w: World, par: nat, k: Link, l: Ledger) returns (l': Ledger)
    requires Inv(w, par, k, l) && k.xy != [] && (w.clean ==> Clear(w.c, k))
    ensures Operable(k.y.sync, k.y.vault)
    ensures Advanced(w, par, k, l, l')
  {
    hide Inv, Advanced, Operable, TrackOk, Look, Known, Clear;
    InvOperable(w, par, k, l);
    match k.xy[0]
    case Push(_, _) =>
      DeliverPush(w, par, k, l);
      l' := l;
    case Init(_, _, _, _) =>
      l' := DeliverInit(w, par, k, l);
    case Recon(sid, _) =>
      if sid % 2 == par {
        l' := DeliverToAnswerer(w, par, k, l);
      } else {
        l' := DeliverToOpener(w, par, k, l);
      }
    case Close(_) =>
      l' := DeliverClose(w, par, k, l);
    case Foreign =>
      HeadTrack(w, par, k, l);
      assert false;
  }

  /* ----- opening ----- */

  /** `x` opens a session. */
  function OpenFrom(c: Crypto, k: Link, since: u64, until: u64): Result<Link, SyncError>
    requires Operable(k.x.sync, k.x.vault)
  {
    var (s, m) :- Syncers.Open(c, k.x.sync, k.x.vault, since, until);
    Ok(Link(Node(s, k.x.vault), k.y, k.xy + [m], k.yx))
  }

  function Entered(w: World, m: Node, since: u64, until: u64): Track
    requires Ready(Party(w.c.sha, Window(m.vault.order, since, until), m.sync.config.frameLimit, true))
  {
    var a := Party(w.c.sha, Window(m.vault.order, since, until), m.sync.config.frameLimit, true);
    Track(since, until, a, Opening(EncodeMessage(InitiateSpec(a))))
  }

  lemma EnteredOk(w: World, par: nat, m: Node, theirs: Vault, ch: seq<Message>, since: u64, until: u64)
    requires Sound(w.c, m.vault) && Inside(w, m.vault) && |w.entries| < U64_LIMIT && Origin(w, par) <= m.vault.entries.Keys
    requires LimitOk(w, m.sync.config.frameLimit)
    ensures Ready(Party(w.c.sha, Window(m.vault.order, since, until), m.sync.config.frameLimit, true))
    ensures TrackOk(w, par, m.vault, theirs, ch, Entered(w, m, since, until))
  {
    hide Sound, Inside, Ready, Window, InitiateSpec, EncodeMessage, IdSet;
    WindowParty(w, m.vault, m.sync.config.frameLimit, since, until, true);
  }

  /** The state after opening satisfies the invariant. */
  lemma OpenOne(w: World, par: nat, k: Link, l: Ledger, since: u64, until: u64) returns (t: Track)
    requires Inv(w, par, k, l) && Opens(l) < w.maxOpens
    ensures Operable(k.x.sync, k.x.vault) && OpenFrom(w.c, k, since, until).Ok?
    ensures Inv(w, par, OpenFrom(w.c, k, since, until).value, Enter(l, par, t))
    ensures t.since == since && t.until == until && t.stage.Opening?
    ensures Tokens(OpenFrom(w.c, k, since, until).value.xy) == Tokens(k.xy) + [Init(NextSid(l, par), since, until, t.stage.first)]
    ensures |OpenFrom(w.c, k, since, until).value.xy| == |k.xy| + 1 && OpenFrom(w.c, k, since, until).value.yx == k.yx
  {
    hide Sound, Inside, Tabled, Carries, PushesHeld, TrackOk, TracksOk, Extends, KeepsArriving, IdOf, Tokens, Operable, Enter, Opens, NextSid, Ready, Window, InitiateSpec, EncodeMessage;
    InvOperable(w, par, k, l);
    EnteredOk(w, par, k.x, k.y.vault, k.xy, since, until);
    t := Entered(w, k.x, since, until);
    TableSmall(l, par, k.x.sync);
    SidIsNext(l, par, k.x.sync);
    var m := Init(NextSid(l, par), since, until, t.stage.first);
    TableEnters(l, par, k.x.sync, t);
    TableElsewhere(l, par, k.y.sync, t);
    TokensSnoc(k.xy, m);
    EnterToken(l, par, Tokens(k.xy), t);
    EnterElsewhere(l, par, Tokens(k.yx), t);
    OneReply(w.c, k.x.vault, m);
    PushesAppend(w.c, k.x.vault, k.xy, [m]);
    ExtendsSelf(k.x.vault);
    ExtendsSelf(k.y.vault);
    ArrivingMore(w.c, k.y.vault, k.xy, [m]);
    TracksStay(w, par, k.x.vault, k.y.vault, k.xy, k.x.vault, k.y.vault, k.xy + [m], l);
    EnteredOk(w, par, k.x, k.y.vault, k.xy + [m], since, until);
    TracksEnter(w, par, par, k.x.vault, k.y.vault, k.xy + [m], l, t);
    TracksEnter(w, 1 - par, par, k.y.vault, k.x.vault, k.yx, l, t);
  }

  lemma SidIsNext(l: Ledger, par: nat, s: SyncState)
    requires Tabled(l, par, s)
    ensures s.nextSid == NextSid(l, par)
  {
  }
}
