/**
  The convergence theorem over whole runs of a link (core/src/sync/session.rs).
 */
module LinkRuns {
  import opened Base
  import opened Items
  import opened Reconcile
  import opened Geometry
  import opened Descent
  import opened Sessions
  import opened LimitedSessions
  import opened Entries
  import opened Vaults
  import opened Syncers
  import opened Ledgers
  import opened Links
  import opened Convergence

  /** What can happen next on a link. */
  datatype Move =
    | DeliverXY
    | DeliverYX
    | OpenX(since: u64, until: u64)
    | OpenY(since: u64, until: u64)

  predicate Enabled(k: Link, mv: Move) {
    match mv
    case DeliverXY => k.xy != []
    case DeliverYX => k.yx != []
    case _ => true
  }

  /** The state after a move; none when a message or an opening is refused. */
  ghost function Next(c: Crypto, k: Link, mv: Move): Option<Link>
    requires Enabled(k, mv)
  {
    match mv
    case DeliverXY => Arrive(c, k)
    case DeliverYX => (match Arrive(c, Flip(k)) case None => None case Some(k') => Some(Flip(k')))
    case OpenX(since, until) => Begin(c, k, since, until)
    case OpenY(since, until) => (match Begin(c, Flip(k), since, until) case None => None case Some(k') => Some(Flip(k')))
  }

  ghost function Arrive(c: Crypto, k: Link): Option<Link>
    requires k.xy != []
  {
    if Operable(k.y.sync, k.y.vault) && Refusal(c, k).None? then Some(DeliverTo(c, k)) else None
  }

  ghost function Begin(c: Crypto, k: Link, since: u64, until: u64): Option<Link> {
    if Operable(k.x.sync, k.x.vault) && OpenFrom(c, k, since, until).Ok? then Some(OpenFrom(c, k, since, until).value) else None
  }

  /** The state a sequence of moves leads to. */
  ghost function Run(c: Crypto, k: Link, moves: seq<Move>): Option<Link> {
    if moves == [] then Some(k)
    else
      match Run(c, k, moves[..|moves| - 1])
      case None => None
      case Some(k') => if Enabled(k', moves[|moves| - 1]) then Next(c, k', moves[|moves| - 1]) else None
  }

  function Opened(moves: seq<Move>): nat {
    if moves == [] then 0
    else Opened(moves[..|moves| - 1]) + if moves[|moves| - 1].OpenX? || moves[|moves| - 1].OpenY? then 1 else 0
  }

  /** Every delivery takes an existing message. */
  ghost predicate Admissible(c: Crypto, k: Link, moves: seq<Move>) {
    forall i :: 0 <= i < |moves| && Run(c, k, moves[..i]).Some? ==> Enabled(Run(c, k, moves[..i]).value, moves[i])
  }

  /** Every session that begins is a clean one. */
  ghost predicate Faithful(c: Crypto, k: Link, moves: seq<Move>) {
    forall i :: 0 <= i < |moves| && Run(c, k, moves[..i]).Some? ==> BeginsClean(c, Run(c, k, moves[..i]).value, moves[i])
  }

  ghost predicate BeginsClean(c: Crypto, k: Link, mv: Move) {
    (mv.DeliverXY? ==> Clear(c, k)) && (mv.DeliverYX? ==> Clear(c, Flip(k)))
  }

  ghost predicate MayHappen(w: World, k: Link, mv: Move) {
    Enabled(k, mv) && (w.clean ==> BeginsClean(w.c, k, mv))
  }

  /** Two fresh honest nodes over sound stores that agree on the entries they share. */
  ghost predicate Start(w: World, k: Link) {
    && k.xy == [] && k.yx == []
    && k.x.sync == NewSyncer(true, k.x.sync.config) && k.y.sync == NewSyncer(false, k.y.sync.config)
    && LimitOk(w, k.x.sync.config.frameLimit) && LimitOk(w, k.y.sync.config.frameLimit)
    && k.x.sync.config.maxSessions >= w.maxOpens && k.y.sync.config.maxSessions >= w.maxOpens
    && Sound(w.c, k.x.vault) && Sound(w.c, k.y.vault)
    && (forall id :: id in k.x.vault.entries && id in k.y.vault.entries ==> k.x.vault.entries[id] == k.y.vault.entries[id])
    && w.entries == k.x.vault.entries + k.y.vault.entries && |w.entries| < U64_LIMIT
    && w.even == k.x.vault.entries.Keys && w.odd == k.y.vault.entries.Keys
  }

  lemma FreshTable(l: Ledger, par: nat, s: SyncState)
    requires l == Ledger([], []) && (par == 0 || par == 1) && s == NewSyncer(par == 0, s.config)
    ensures Tabled(l, par, s)
  {
  }

  lemma FreshChannel(w: World, par: nat, m: Node, l: Ledger)
    requires l == Ledger([], [])
    ensures ChannelOk(w, par, m, [], l)
  {
  }

  lemma FreshTracks(w: World, par: nat, v: Vault, v': Vault, l: Ledger)
    requires l == Ledger([], [])
    ensures TracksOk(w, par, v, v', [], l)
  {
    hide TrackOk;
  }

  lemma InsideUnion(w: World, v: Vault, v': Vault)
    requires w.entries == v.entries + v'.entries
    requires forall id :: id in v.entries && id in v'.entries ==> v.entries[id] == v'.entries[id]
    ensures Inside(w, v) && Inside(w, v')
  {
  }

  lemma PhiAtRest(w: World, k: Link)
    requires k.xy == [] && k.yx == []
    ensures Phi(w, k, Ledger([], [])) == 0
  {
  }

  lemma StartInv(w: World, k: Link)
    requires Start(w, k)
    ensures Inv(w, 0, k, Ledger([], []))
    ensures Phi(w, k, Ledger([], [])) == 0
  {
    hide Sound, Inside, Tabled, ChannelOk, TracksOk, Phi;
    var l := Ledger([], []);
    PhiAtRest(w, k);
    NoOpens();
    InsideUnion(w, k.x.vault, k.y.vault);
    FreshTable(l, 0, k.x.sync);
    FreshTable(l, 1, k.y.sync);
    FreshChannel(w, 0, k.x, l);
    FreshChannel(w, 1, k.y, l);
    FreshTracks(w, 0, k.x.vault, k.y.vault, l);
    FreshTracks(w, 1, k.y.vault, k.x.vault, l);
  }

  /* ----- silence ----- */

  lemma QuietClosed(w: World, par: nat, k: Link, l: Ledger, sid: nat)
    requires Inv(w, par, k, l) && k.xy == [] && k.yx == [] && Known(l, sid)
    ensures Look(l, sid).stage.Closed?
  {
    hide NodeOk, TracksOk, PushesHeld;
    NoPushes(w.c, k.x.vault);
    assert !Owes(l, sid, par) && !Owes(l, sid, 1 - par);
  }

  /** On a silent link no session is open on either side. */
  lemma QuietIdle(w: World, par: nat, k: Link, l: Ledger)
    requires Inv(w, par, k, l) && k.xy == [] && k.yx == []
    ensures k.x.sync.sessions == map[] && k.y.sync.sessions == map[]
  {
    hide ChannelOk, TracksOk, Sound, Inside, Look, Known;
    forall key ensures key !in k.x.sync.sessions && key !in k.y.sync.sessions {
      if key in k.x.sync.sessions {
        assert Listed(l, par, key);
        QuietClosed(w, par, k, l, key.1);
        assert false;
      }
      if key in k.y.sync.sessions {
        assert Listed(l, 1 - par, key);
        QuietClosed(w, par, k, l, key.1);
        assert false;
      }
    }
    assert k.x.sync.sessions.Keys == {} && k.y.sync.sessions.Keys == {};
  }

  /** Side `par` begun a session over everything. */
  ghost predicate OpenedFull(l: Ledger, par: nat) {
    exists sid: nat :: Known(l, sid) && sid % 2 == par && Look(l, sid).since == 0 && Look(l, sid).until == U64_MAX
  }

  /** A clean full session has carried everything its opener started with to the other side. */
  lemma QuietDelivered(w: World, par: nat, k: Link, l: Ledger)
    requires Inv(w, par, k, l) && w.clean && k.xy == [] && k.yx == [] && OpenedFull(l, par)
    ensures Origin(w, par) <= k.y.vault.entries.Keys
  {
    hide NodeOk, ChannelOk, PartyOk, Known, Look, Ready, IdSet, InitiateSpec, EncodeMessage, After, Clean, IdOf;
    var sid: nat :| Known(l, sid) && sid % 2 == par && Look(l, sid).since == 0 && Look(l, sid).until == U64_MAX;
    QuietClosed(w, par, k, l, sid);
    var t := Look(l, sid);
    assert TrackOk(w, par, k.x.vault, k.y.vault, k.xy, t);
    PartyReady(w, k.x.vault, t.a, true);
    forall id | id in Origin(w, par) ensures id in k.y.vault.entries {
      assert Arriving(w.c, id, k.y.vault, k.xy);
    }
  }

  /** Both stores hold the world: the same entries in the same order. */
  lemma SameStores(w: World, v: Vault, v': Vault)
    requires Sound(w.c, v) && Sound(w.c, v') && Inside(w, v) && Inside(w, v')
    requires w.entries.Keys <= v.entries.Keys && w.entries.Keys <= v'.entries.Keys
    ensures v.entries == w.entries && v' == v
  {
    hide IdOf;
    assert v.entries.Keys == w.entries.Keys && v'.entries.Keys == w.entries.Keys;
    assert v.entries == w.entries && v'.entries == w.entries;
    SameOrder(v.order, v'.order);
  }

  /* ----- bounds ----- */

  lemma TrackPotential(w: World, par: nat, mine: Vault, theirs: Vault, ch: seq<Message>, t: Track)
    requires TrackOk(w, par, mine, theirs, ch, t) && Sound(w.c, mine) && Inside(w, mine) && Sound(w.c, theirs) && Inside(w, theirs)
    ensures Potential(w, t) >= 0
  {
    hide Sound, Inside, After, Clean, Pair, IdSet, TrackOk, Limit;
    if t.stage.Running? {
      TrackParts(w, par, mine, theirs, ch, t);
      PartiesPair(w, mine, theirs, t.a, t.stage.b);
      LearntOwn(t.a, t.stage.b, t.stage.n);
      PartySize(w, mine, t.a, true);
      PartySize(w, theirs, t.stage.b, false);
      StillWithin(w, t.a, t.stage.b, t.stage.n);
      SubsetSize((set id | id in t.stage.have), w.entries.Keys);
    }
  }

  lemma {:induction false} TotalNonnegative(w: World, ts: seq<Track>)
    requires forall i :: 0 <= i < |ts| ==> Potential(w, ts[i]) >= 0
    ensures Total(w, ts) >= 0
  {
    hide Potential;
    if ts != [] {
      TotalNonnegative(w, ts[..|ts| - 1]);
    }
  }

  lemma {:induction false} TokensShort(ch: seq<Message>)
    ensures PushCount(ch) >= 0
  {
    if ch != [] {
      TokensShort(ch[..|ch| - 1]);
    }
  }

  lemma SidePotential(w: World, par: nat, m: Node, peer: Node, ch: seq<Message>, l: Ledger)
    requires (par == 0 || par == 1) && TracksOk(w, par, m.vault, peer.vault, ch, l)
    requires Sound(w.c, m.vault) && Inside(w, m.vault) && Sound(w.c, peer.vault) && Inside(w, peer.vault)
    ensures Total(w, Side(l, par)) >= 0
  {
    hide TrackOk, Sound, Inside, Potential;
    forall i | 0 <= i < |Side(l, par)| ensures Potential(w, Side(l, par)[i]) >= 0 {
      var sid := 2 * i + par;
      assert Known(l, sid) && sid % 2 == par && Look(l, sid) == Side(l, par)[i];
      TrackPotential(w, par, m.vault, peer.vault, ch, Look(l, sid));
    }
    TotalNonnegative(w, Side(l, par));
  }

  lemma PhiNonnegative(w: World, par: nat, k: Link, l: Ledger)
    requires Inv(w, par, k, l)
    ensures Phi(w, k, l) >= 0
  {
    hide TracksOk, ChannelOk, Sound, Inside, Tabled, PushCount, Total;
    SidePotential(w, par, k.x, k.y, k.xy, l);
    SidePotential(w, 1 - par, k.y, k.x, k.yx, l);
    TokensShort(k.xy);
    TokensShort(k.yx);
  }

  lemma TotalSnoc(w: World, ts: seq<Track>, t: Track)
    ensures Total(w, ts + [t]) == Total(w, ts) + Potential(w, t)
  {
    assert (ts + [t])[..|ts|] == ts;
  }

  /** What one opening adds, the opening itself included. */
  function Allowance(w: World): nat {
    Limit(w) + 5 + |w.entries|
  }

  /* ----- runs ----- */

  /** The history of a run: which sessions exist, and how many moves are paid for. */
  ghost predicate Recorded(w: World, k: Link, l: Ledger, begun: nat, length: nat) {
    && Inv(w, 0, k, l) && Opens(l) == begun
    && length + Phi(w, k, l) <= begun * Allowance(w)
  }

  ghost predicate Kept(l: Ledger, l': Ledger) {
    forall s: nat :: Known(l, s) ==> Known(l', s) && Look(l', s).since == Look(l, s).since && Look(l', s).until == Look(l, s).until
  }

  lemma PhiFlips(w: World, k: Link, l: Ledger)
    ensures Phi(w, Flip(k), l) == Phi(w, k, l)
  {
  }

  lemma RecordDelivery(w: World, k: Link, l: Ledger, begun: nat, length: nat, mv: Move) returns (l': Ledger)
    requires Recorded(w, k, l, begun, length) && MayHappen(w, k, mv) && (mv.DeliverXY? || mv.DeliverYX?)
    ensures Next(w.c, k, mv).Some? && Recorded(w, Next(w.c, k, mv).value, l', begun, length + 1) && Kept(l, l')
  {
    hide Inv, Clear, Operable, DeliverTo, Refusal, Phi, Opens, Look, Known, Allowance;
    if mv.DeliverXY? {
      l' := DeliverOne(w, 0, k, l);
    } else {
      InvFlips(w, 0, k, l);
      l' := DeliverOne(w, 1, Flip(k), l);
      InvFlips(w, 1, DeliverTo(w.c, Flip(k)), l');
      PhiFlips(w, k, l);
      PhiFlips(w, DeliverTo(w.c, Flip(k)), l');
    }
  }

  lemma PhiEnters(w: World, k: Link, k': Link, l: Ledger, par: nat, t: Track)
    requires (par == 0 || par == 1) && t.stage.Opening?
    requires |k'.xy| == |k.xy| + 1 && |Tokens(k'.xy)| == |Tokens(k.xy)| + 1 && k'.yx == k.yx
    ensures Phi(w, k', Enter(l, par, t)) == Phi(w, k, l) + Allowance(w) - 1
  {
    hide Tokens, Depth, Total;
    TotalSnoc(w, Side(l, par), t);
  }

  lemma RecordOpening(w: World, k: Link, l: Ledger, begun: nat, length: nat, mv: Move) returns (l': Ledger)
    requires Recorded(w, k, l, begun, length) && (mv.OpenX? || mv.OpenY?) && begun < w.maxOpens
    ensures Next(w.c, k, mv).Some? && Recorded(w, Next(w.c, k, mv).value, l', begun + 1, length + 1) && Kept(l, l')
    ensures mv.since == 0 && mv.until == U64_MAX ==> OpenedFull(l', if mv.OpenX? then 0 else 1)
  {
    hide Inv, Clear, Operable, OpenFrom, Phi, Opens, Look, Known, Allowance, Enter, NextSid, Tokens;
    var par := if mv.OpenX? then 0 else 1;
    if mv.OpenX? {
      var t := OpenOne(w, 0, k, l, mv.since, mv.until);
      l' := Enter(l, 0, t);
      PhiEnters(w, k, OpenFrom(w.c, k, mv.since, mv.until).value, l, 0, t);
    } else {
      InvFlips(w, 0, k, l);
      var t := OpenOne(w, 1, Flip(k), l, mv.since, mv.until);
      l' := Enter(l, 1, t);
      var k' := OpenFrom(w.c, Flip(k), mv.since, mv.until).value;
      PhiEnters(w, Flip(k), k', l, 1, t);
      InvFlips(w, 1, k', l');
      PhiFlips(w, k, l);
      PhiFlips(w, k', l');
    }
    SidParity(l, par);
    assert begun * Allowance(w) + Allowance(w) == (begun + 1) * Allowance(w);
  }

  lemma SidParity(l: Ledger, par: nat)
    requires par == 0 || par == 1
    ensures NextSid(l, par) % 2 == par
  {
  }

  lemma FullStays(l: Ledger, l': Ledger, par: nat)
    requires OpenedFull(l, par) && Kept(l, l')
    ensures OpenedFull(l', par)
  {
    hide Known, Look;
    var sid: nat :| Known(l, sid) && sid % 2 == par && Look(l, sid).since == 0 && Look(l, sid).until == U64_MAX;
    assert Known(l', sid);
  }

  function Opening(mv: Move): nat {
    if mv.OpenX? || mv.OpenY? then 1 else 0
  }

  /** Full sessions opened so far, as the moves tell. */
  ghost predicate FullNoted(moves: seq<Move>, l: Ledger) {
    && (OpenX(0, U64_MAX) in moves ==> OpenedFull(l, 0))
    && (OpenY(0, U64_MAX) in moves ==> OpenedFull(l, 1))
  }

  /** One move of a run. */
  lemma RecordMove(w: World, k: Link, l: Ledger, moves: seq<Move>, mv: Move) returns (l': Ledger)
    requires Recorded(w, k, l, Opened(moves), |moves|) && FullNoted(moves, l) && MayHappen(w, k, mv)
    requires Opened(moves) + Opening(mv) <= w.maxOpens
    ensures Enabled(k, mv) && Next(w.c, k, mv).Some?
    ensures Recorded(w, Next(w.c, k, mv).value, l', Opened(moves) + Opening(mv), |moves| + 1) && FullNoted(moves + [mv], l')
  {
    hide Recorded, OpenedFull, MayHappen, Next, Kept, Opened;
    MayIsEnabled(w, k, mv);
    if mv.OpenX? || mv.OpenY? {
      l' := RecordOpening(w, k, l, Opened(moves), |moves|, mv);
    } else {
      l' := RecordDelivery(w, k, l, Opened(moves), |moves|, mv);
    }
    if OpenedFull(l, 0) { FullStays(l, l', 0); }
    if OpenedFull(l, 1) { FullStays(l, l', 1); }
  }

  lemma {:induction false} RunRecorded(w: World, k: Link, moves: seq<Move>) returns (l: Ledger)
    requires Start(w, k) && Opened(moves) <= w.maxOpens && Admissible(w.c, k, moves) && (w.clean ==> Faithful(w.c, k, moves))
    ensures Run(w.c, k, moves).Some? && Recorded(w, Run(w.c, k, moves).value, l, Opened(moves), |moves|)
    ensures FullNoted(moves, l)
  {
    hide Recorded, Start, FullNoted, MayHappen, Next, Enabled;
    if moves == [] {
      l := Ledger([], []);
      NothingRecorded(w, k);
    } else {
      var n := |moves| - 1;
      var before, mv := moves[..n], moves[n];
      RunPrefix(w, k, moves);
      var l0 := RunRecorded(w, k, before);
      l := RecordMove(w, Run(w.c, k, before).value, l0, before, mv);
      assert moves == before + [mv];
    }
  }

  lemma RunPrefix(w: World, k: Link, moves: seq<Move>)
    requires Admissible(w.c, k, moves) && (w.clean ==> Faithful(w.c, k, moves)) && moves != []
    ensures var before := moves[..|moves| - 1];
            && Admissible(w.c, k, before) && (w.clean ==> Faithful(w.c, k, before))
            && (Run(w.c, k, before).Some? ==> MayHappen(w, Run(w.c, k, before).value, moves[|moves| - 1]))
  {
    hide Run, Enabled, BeginsClean;
    var before := moves[..|moves| - 1];
    assert forall i :: 0 <= i < |before| ==> before[..i] == moves[..i];
  }

  lemma NothingRecorded(w: World, k: Link)
    requires Start(w, k)
    ensures Recorded(w, k, Ledger([], []), 0, 0) && FullNoted([], Ledger([], []))
  {
    hide Start, Inv, Phi, OpenedFull, Allowance;
    StartInv(w, k);
    NoOpens();
  }

  lemma MayIsEnabled(w: World, k: Link, mv: Move)
    requires MayHappen(w, k, mv)
    ensures Enabled(k, mv)
  {
  }

  lemma NoOpens()
    ensures Opens(Ledger([], [])) == 0
  {
  }

  /**
    The convergence theorem. From two honest nodes with any frame limits, every
    run, in any interleaving, is accepted throughout and is short: at most a
    fixed allowance of moves per begun session, a logarithmic one if there are no
    limits and the sessions are clean. When nothing is in flight any more, no
    session is open; and if every session was clean and each side begun one over
    everything, both stores hold exactly the union of what they held at the
    start, in the same order.
   */
  lemma RunConverges(w: World, k: Link, moves: seq<Move>)
    requires Start(w, k) && Opened(moves) <= w.maxOpens && Admissible(w.c, k, moves)
    requires w.clean ==> Faithful(w.c, k, moves)
    ensures Run(w.c, k, moves).Some?
    ensures |moves| <= Opened(moves) * Allowance(w)
    ensures var k' := Run(w.c, k, moves).value;
            k'.xy == [] && k'.yx == [] ==>
              && k'.x.sync.sessions == map[] && k'.y.sync.sessions == map[]
              && (w.clean && OpenX(0, U64_MAX) in moves && OpenY(0, U64_MAX) in moves ==>
                    k'.x.vault.entries == k.x.vault.entries + k.y.vault.entries && k'.y.vault == k'.x.vault)
  {
    hide Run, Opened, Admissible, Faithful, Phi, Allowance, Origin, Sound, Inside, OpenedFull, Tabled, ChannelOk, TracksOk;
    var l := RunRecorded(w, k, moves);
    var k' := Run(w.c, k, moves).value;
    PhiNonnegative(w, 0, k', l);
    if k'.xy == [] && k'.yx == [] {
      QuietIdle(w, 0, k', l);
      if w.clean && OpenX(0, U64_MAX) in moves && OpenY(0, U64_MAX) in moves {
        Converged(w, k', l);
      }
    }
  }

  lemma Converged(w: World, k: Link, l: Ledger)
    requires Inv(w, 0, k, l) && w.clean && k.xy == [] && k.yx == [] && OpenedFull(l, 0) && OpenedFull(l, 1)
    requires w.entries.Keys <= w.even + w.odd
    ensures k.x.vault.entries == w.entries && k.y.vault == k.x.vault
  {
    hide OpenedFull, Tabled, ChannelOk, TracksOk, Sound, Inside;
    InvFlips(w, 0, k, l);
    QuietDelivered(w, 0, k, l);
    QuietDelivered(w, 1, Flip(k), l);
    SameStores(w, k.x.vault, k.y.vault);
  }
}
