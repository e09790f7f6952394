/**
  Two nodes on one link (core/src/sync/session.rs): two session managers with
  their stores, and a first-in first-out channel each way. This module states
  what every reachable state satisfies.
 */
module Links {
  import opened Base
  import opened Items
  import opened Geometry
  import opened Reconcile
  import opened Exactness
  import opened Sessions
  import opened LimitedSessions
  import opened Entries
  import opened Vaults
  import opened Syncers
  import opened Ledgers

  datatype Node = Node(sync: SyncState, vault: Vault)

  /** Node `x` writes channel `xy`, node `y` writes `yx`. */
  datatype Link = Link(x: Node, y: Node, xy: seq<Message>, yx: seq<Message>)

  function Flip(k: Link): Link {
    Link(k.y, k.x, k.yx, k.xy)
  }

  /**
    What is fixed over a run: the entries the two stores hold between them, what
    the even and the odd side held at the start, how many sessions may be opened,
    whether every session that begins is clean, and whether there are no frame limits.
   */
  datatype World = World(c: Crypto, entries: map<Id, Entry>, even: set<Id>, odd: set<Id>, maxOpens: nat, clean: bool, free: bool)

  function Origin(w: World, par: nat): set<Id> {
    if par == 0 then w.even else w.odd
  }

  /** The store holds only entries of the world. */
  ghost predicate Inside(w: World, v: Vault) {
    forall id :: id in v.entries ==> id in w.entries && w.entries[id] == v.entries[id]
  }

  /** A frame limit the engine accepts. */
  ghost predicate LimitOk(w: World, limit: Option<nat>) {
    (limit.Some? ==> limit.value >= FRAME_LIMIT_FLOOR) && (w.free ==> limit.None?)
  }

  ghost predicate NodeOk(w: World, par: nat, m: Node, l: Ledger) {
    && Sound(w.c, m.vault) && Inside(w, m.vault) && Origin(w, par) <= m.vault.entries.Keys
    && Tabled(l, par, m.sync)
    && LimitOk(w, m.sync.config.frameLimit) && m.sync.config.maxSessions >= w.maxOpens
  }

  /** Pushes carry entries the sender holds. */
  ghost predicate PushesHeld(c: Crypto, v: Vault, ch: seq<Message>) {
    forall i, e :: 0 <= i < |ch| && ch[i].Push? && e in ch[i].entries ==> IdOf(c, e) in v.entries && v.entries[IdOf(c, e)] == e
  }

  ghost predicate ChannelOk(w: World, par: nat, m: Node, ch: seq<Message>, l: Ledger) {
    Carries(l, par, Tokens(ch)) && PushesHeld(w.c, m.vault, ch)
  }

  /** An id is in the store or in a push on its way there. */
  ghost predicate Arriving(c: Crypto, id: Id, v: Vault, ch: seq<Message>) {
    id in v.entries || exists i, e :: 0 <= i < |ch| && ch[i].Push? && e in ch[i].entries && IdOf(c, e) == id
  }

  ghost predicate AllArriving(c: Crypto, ids: set<Id>, v: Vault, ch: seq<Message>) {
    forall id :: id in ids ==> Arriving(c, id, v, ch)
  }

  /** A session engine over items of this store. */
  ghost predicate PartyOk(w: World, v: Vault, p: Party, opener: bool) {
    && Ready(p) && p.hash == w.c.sha && (w.free ==> p.limit.None?) && p.initiator == opener
    && forall x :: x in p.items ==> x.id in v.entries && x == ItemAt(v, x.id)
  }

  ghost predicate StageOk(w: World, theirs: Vault, ch: seq<Message>, a: Party, s: Stage)
    requires Ready(a)
  {
    match s
    case Opening(first) => first == EncodeMessage(InitiateSpec(a))
    case Running(b, n, toOpener, msg, have, need) =>
      && PartyOk(w, theirs, b, false) && (w.clean ==> Clean(a, b))
      && n >= 1 && After(a, b, n) == Flight(toOpener, msg, have, need)
      && AllArriving(w.c, (set id | id in have), theirs, ch)
    case Closing(b) => Ready(b) && (w.clean ==> AllArriving(w.c, IdSet(a.items), theirs, ch))
    case Closed => w.clean ==> AllArriving(w.c, IdSet(a.items), theirs, ch)
  }

  /** A session opened by the side holding `mine`, writing `ch`, towards `theirs`. */
  ghost predicate TrackOk(w: World, par: nat, mine: Vault, theirs: Vault, ch: seq<Message>, t: Track) {
    && PartyOk(w, mine, t.a, true)
    && (t.since == 0 && t.until == U64_MAX ==> Origin(w, par) <= IdSet(t.a.items))
    && StageOk(w, theirs, ch, t.a, t.stage)
  }

  ghost predicate TracksOk(w: World, par: nat, mine: Vault, theirs: Vault, ch: seq<Message>, l: Ledger) {
    forall s: nat :: Known(l, s) && s % 2 == par ==> TrackOk(w, par, mine, theirs, ch, Look(l, s))
  }

  /** What every reachable state satisfies; `par` is the parity of `k.x`. */
  ghost predicate Inv(w: World, par: nat, k: Link, l: Ledger) {
    && (par == 0 || par == 1)
    && |w.entries| < U64_LIMIT && Opens(l) <= w.maxOpens
    && NodeOk(w, par, k.x, l) && NodeOk(w, 1 - par, k.y, l)
    && ChannelOk(w, par, k.x, k.xy, l) && ChannelOk(w, 1 - par, k.y, k.yx, l)
    && TracksOk(w, par, k.x.vault, k.y.vault, k.xy, l)
    && TracksOk(w, 1 - par, k.y.vault, k.x.vault, k.yx, l)
  }

  lemma InvFlips(w: World, par: nat, k: Link, l: Ledger)
    requires Inv(w, par, k, l)
    ensures Inv(w, 1 - par, Flip(k), l)
  {
    hide NodeOk, ChannelOk, TracksOk;
  }

  /** `v'` has everything `v` has. */
  ghost predicate Extends(v: Vault, v': Vault) {
    forall id :: id in v.entries ==> id in v'.entries && v'.entries[id] == v.entries[id]
  }

  /** Whatever was arriving still is. */
  ghost predicate KeepsArriving(c: Crypto, v: Vault, ch: seq<Message>, v': Vault, ch': seq<Message>) {
    forall id :: Arriving(c, id, v, ch) ==> Arriving(c, id, v', ch')
  }

  lemma PartyStays(w: World, v: Vault, v': Vault, p: Party, opener: bool)
    requires PartyOk(w, v, p, opener) && Extends(v, v')
    ensures PartyOk(w, v', p, opener)
  {
    hide Ready;
  }

  lemma TrackStays(w: World, par: nat, mine: Vault, theirs: Vault, ch: seq<Message>, mine': Vault, theirs': Vault, ch': seq<Message>, t: Track)
    requires TrackOk(w, par, mine, theirs, ch, t)
    requires Extends(mine, mine') && Extends(theirs, theirs') && KeepsArriving(w.c, theirs, ch, theirs', ch')
    ensures TrackOk(w, par, mine', theirs', ch', t)
  {
    hide Ready, After, Clean, Arriving, Extends, PartyOk, IdSet, InitiateSpec, EncodeMessage;
    PartyStays(w, mine, mine', t.a, true);
    PartyReady(w, mine, t.a, true);
    if t.stage.Running? {
      PartyStays(w, theirs, theirs', t.stage.b, false);
      PartyReady(w, theirs, t.stage.b, false);
    }
  }

  lemma PartyReady(w: World, v: Vault, p: Party, opener: bool)
    requires PartyOk(w, v, p, opener)
    ensures Ready(p)
  {
  }

  /** Sessions not concerned by a step keep their state. */
  lemma TracksStay(w: World, par: nat, mine: Vault, theirs: Vault, ch: seq<Message>, mine': Vault, theirs': Vault, ch': seq<Message>, l: Ledger)
    requires TracksOk(w, par, mine, theirs, ch, l)
    requires Extends(mine, mine') && Extends(theirs, theirs') && KeepsArriving(w.c, theirs, ch, theirs', ch')
    ensures TracksOk(w, par, mine', theirs', ch', l)
  {
    hide TrackOk, Extends, KeepsArriving, Look, Known;
    forall s: nat | Known(l, s) && s % 2 == par ensures TrackOk(w, par, mine', theirs', ch', Look(l, s)) {
      TrackStays(w, par, mine, theirs, ch, mine', theirs', ch', Look(l, s));
    }
  }

  lemma TracksUpdate(w: World, par: nat, mine: Vault, theirs: Vault, ch: seq<Message>, l: Ledger, sid: nat, t: Track)
    requires TracksOk(w, par, mine, theirs, ch, l) && Known(l, sid)
    requires sid % 2 == par ==> TrackOk(w, par, mine, theirs, ch, t)
    ensures TracksOk(w, par, mine, theirs, ch, Update(l, sid, t))
  {
    hide TrackOk, Look, Known, Update;
  }

  lemma TracksEnter(w: World, par: nat, who: nat, mine: Vault, theirs: Vault, ch: seq<Message>, l: Ledger, t: Track)
    requires TracksOk(w, par, mine, theirs, ch, l) && (who == 0 || who == 1) && (par == 0 || par == 1)
    requires who == par ==> TrackOk(w, par, mine, theirs, ch, t)
    ensures TracksOk(w, par, mine, theirs, ch, Enter(l, who, t))
  {
    hide TrackOk, Look, Known, Enter;
    var l' := Enter(l, who, t);
    forall s: nat | Known(l', s) && s % 2 == par ensures TrackOk(w, par, mine, theirs, ch, Look(l', s)) {
      assert s == NextSid(l, who) ==> s % 2 == who;
    }
  }

  lemma ArrivingMore(c: Crypto, v: Vault, ch: seq<Message>, more: seq<Message>)
    ensures KeepsArriving(c, v, ch, v, ch + more)
  {
    hide IdOf;
    var ch' := ch + more;
    forall id | Arriving(c, id, v, ch) ensures Arriving(c, id, v, ch') {
      if id !in v.entries {
        var i, e :| 0 <= i < |ch| && ch[i].Push? && e in ch[i].entries && IdOf(c, e) == id;
        assert ch'[i] == ch[i];
      }
    }
  }

  lemma ArrivingPop(c: Crypto, v: Vault, ch: seq<Message>)
    requires ch != [] && !ch[0].Push?
    ensures KeepsArriving(c, v, ch, v, ch[1..])
  {
    hide IdOf;
    forall id | Arriving(c, id, v, ch) ensures Arriving(c, id, v, ch[1..]) {
      if id !in v.entries {
        var i, e :| 0 <= i < |ch| && ch[i].Push? && e in ch[i].entries && IdOf(c, e) == id;
        assert ch[1..][i - 1] == ch[i];
      }
    }
  }

  lemma ArrivingLanded(c: Crypto, v: Vault, v': Vault, ch: seq<Message>)
    requires ch != [] && ch[0].Push? && Extends(v, v')
    requires forall e :: e in ch[0].entries ==> IdOf(c, e) in v'.entries
    ensures KeepsArriving(c, v, ch, v', ch[1..])
  {
    hide IdOf;
    forall id | Arriving(c, id, v, ch) ensures Arriving(c, id, v', ch[1..]) {
      if id !in v'.entries {
        var i, e :| 0 <= i < |ch| && ch[i].Push? && e in ch[i].entries && IdOf(c, e) == id;
        assert ch[1..][i - 1] == ch[i];
      }
    }
  }

  lemma ExtendsSelf(v: Vault)
    ensures Extends(v, v)
  {
  }

  /* ----- the two engines of a session ----- */

  lemma PartiesPair(w: World, mine: Vault, theirs: Vault, a: Party, b: Party)
    requires Sound(w.c, mine) && Sound(w.c, theirs) && Inside(w, mine) && Inside(w, theirs)
    requires PartyOk(w, mine, a, true) && PartyOk(w, theirs, b, false)
    ensures Pair(a, b)
  {
    hide IdOf, Sorted;
    InWorld(w, mine, a, true);
    InWorld(w, theirs, b, false);
    forall x, y | (x in a.items || x in b.items) && (y in a.items || y in b.items) && x.id == y.id ensures x == y {
      assert x.sortKey == w.entries[x.id].sortKey == y.sortKey;
    }
  }

  lemma InWorld(w: World, v: Vault, p: Party, opener: bool)
    requires Sound(w.c, v) && Inside(w, v) && PartyOk(w, v, p, opener)
    ensures forall x :: x in p.items ==> x.id in w.entries && x.sortKey == w.entries[x.id].sortKey
    ensures Storable(p.items)
  {
    hide IdOf, Sorted, Ready;
    forall x | x in p.items ensures x.id in w.entries && x.sortKey == w.entries[x.id].sortKey && x.sortKey < U64_MAX {
      assert x.id in v.entries && x == ItemAt(v, x.id) && Filed(w.c, v, x.id);
    }
  }

  /** A window of a sound store makes a usable engine. */
  lemma WindowParty(w: World, v: Vault, limit: Option<nat>, since: u64, until: u64, opener: bool)
    requires Sound(w.c, v) && Inside(w, v) && |w.entries| < U64_LIMIT && LimitOk(w, limit)
    ensures PartyOk(w, v, Party(w.c.sha, Window(v.order, since, until), limit, opener), opener)
    ensures |v.order| < U64_LIMIT
    ensures since == 0 && until == U64_MAX ==> IdSet(Window(v.order, since, until)) == v.entries.Keys
  {
    hide IdOf, Sorted, Window, Rank;
    WindowExact(v.order, since, until);
    SubsetSize(v.entries.Keys, w.entries.Keys);
    WindowSize(v.order, since, until);
    if since == 0 && until == U64_MAX {
      FullWindow(w.c, v);
      OrderIds(w.c, v);
    }
  }

  lemma WindowSize(order: seq<Item>, since: u64, until: u64)
    ensures |Window(order, since, until)| <= |order|
  {
    hide Rank;
  }

  lemma OrderIds(c: Crypto, v: Vault)
    requires Sound(c, v)
    ensures IdSet(v.order) == v.entries.Keys
  {
    hide IdOf, Sorted;
    forall id ensures id in IdSet(v.order) <==> id in v.entries {
      if id in v.entries {
        assert ItemAt(v, id) in v.order;
        MemberIdSet(v.order, ItemAt(v, id));
      }
    }
  }

  lemma SubsetSize<T>(s: set<T>, t: set<T>)
    requires s <= t
    ensures |s| <= |t|
  {
    assert t == s + (t - s);
  }

  lemma {:induction false} NoDupSize<T>(ids: seq<T>, s: set<T>)
    requires NoDup(ids) && forall id :: id in ids ==> id in s
    ensures |ids| <= |s|
  {
    if ids != [] {
      var n := |ids| - 1;
      assert ids == ids[..n] + [ids[n]];
      NoDupSize(ids[..n], s - {ids[n]});
    }
  }

  /** No engine works over more items than the world has entries. */
  lemma PartySize(w: World, v: Vault, p: Party, opener: bool)
    requires Inside(w, v) && PartyOk(w, v, p, opener)
    ensures |p.items| <= |w.entries|
    ensures forall id :: id in IdSet(p.items) ==> id in v.entries && id in w.entries
  {
    hide Key;
    var ids := IdsOf(p.items);
    forall i, j | 0 <= i < j < |ids| ensures ids[i] != ids[j] {
      assert p.items[i] in p.items && p.items[j] in p.items;
    }
    forall id | id in ids ensures id in w.entries.Keys {
      var i :| 0 <= i < |ids| && ids[i] == id;
      assert p.items[i] in p.items;
    }
    NoDupSize(ids, w.entries.Keys);
  }
}
