/**
  A device with all its links (core/src/api/node.rs): which limiter tickets are
  held by which links, and when a link is reported closed. The invariant is kept
  by every operation, so it holds in every reachable state.
 */
module Nodes {
  import opened Base
  import opened Wires
  import opened Ciphers
  import opened Drivers
  import opened DriverRuns
  import opened Deadlines
  import L = Limiters

  /** A live link and the limiter ticket it holds until it is established. */
  datatype LinkRecord<Y> = LinkRecord(driver: Driver<Y>, ticket: Option<nat>)

  datatype NodeEvent =
    | FromLink(id: nat, event: LinkEvent)
    | TransportClosed(id: nat)
    | TimedOut(id: nat)

  /** Why a device refuses to start a session. */
  datatype ApiError = UnknownLink | NotEstablished | SyncRefused(why: SyncError)

  predicate ReportsClosed(e: NodeEvent) {
    e.TransportClosed? || e.TimedOut? || e.event.Closed?
  }

  /** The links reported closed, in order. */
  function ClosedIds(events: seq<NodeEvent>): seq<nat> {
    if events == [] then []
    else
      var rest, e := ClosedIds(events[..|events| - 1]), events[|events| - 1];
      if ReportsClosed(e) then rest + [e.id] else rest
  }

  function Tagged(id: nat, events: seq<LinkEvent>): (es: seq<NodeEvent>)
    ensures |es| == |events| && forall i :: 0 <= i < |es| ==> es[i] == FromLink(id, events[i])
  {
    seq(|events|, i requires 0 <= i < |events| => FromLink(id, events[i]))
  }

  lemma ClosedSnoc(events: seq<NodeEvent>, e: NodeEvent)
    ensures ClosedIds(events + [e]) == if ReportsClosed(e) then ClosedIds(events) + [e.id] else ClosedIds(events)
  {
    assert (events + [e])[..|events|] == events;
  }

  lemma {:induction false} ClosedConcat(a: seq<NodeEvent>, b: seq<NodeEvent>)
    ensures ClosedIds(a + b) == ClosedIds(a) + ClosedIds(b)
  {
    if b == [] {
      assert a + b == a;
    } else {
      var n := |b| - 1;
      assert (a + b)[..|a + b| - 1] == a + b[..n];
      ClosedConcat(a, b[..n]);
    }
  }

  lemma {:induction false} ClosedTagged(id: nat, events: seq<LinkEvent>)
    ensures NoClosed(events) ==> ClosedIds(Tagged(id, events)) == []
    ensures events != [] && events[|events| - 1].Closed? && NoClosed(events[..|events| - 1]) ==> ClosedIds(Tagged(id, events)) == [id]
  {
    if events != [] {
      var n := |events| - 1;
      ClosedTagged(id, events[..n]);
      assert Tagged(id, events) == Tagged(id, events[..n]) + [FromLink(id, events[n])];
      ClosedSnoc(Tagged(id, events[..n]), FromLink(id, events[n]));
    }
  }

  /** Some event of the call says the handshake completed. */
  predicate CameUp(events: seq<LinkEvent>) {
    exists i :: 0 <= i < |events| && events[i].Established?
  }

  predicate WentDown(events: seq<LinkEvent>) {
    exists i :: 0 <= i < |events| && events[i].Closed?
  }

  lemma CameUpSnoc(events: seq<LinkEvent>, i: nat)
    requires i < |events|
    ensures CameUp(events[..i + 1]) <==> CameUp(events[..i]) || events[i].Established?
    ensures WentDown(events[..i + 1]) <==> WentDown(events[..i]) || events[i].Closed?
  {
    var a, b := events[..i], events[..i + 1];
    assert forall j :: 0 <= j < i ==> b[j] == a[j];
    assert b[i] == events[i];
  }

  /* ----- tickets ----- */

  /** Every ticket held is one the limiter counts, no ticket is held twice, and the limiter counts no others. */
  ghost predicate Matched<Y>(links: map<nat, LinkRecord<Y>>, tickets: set<nat>) {
    && (forall id :: id in links && links[id].ticket.Some? ==> links[id].ticket.value in tickets)
    && (forall i, j :: i in links && j in links && i != j && links[i].ticket.Some? ==> links[i].ticket != links[j].ticket)
    && (forall t :: t in tickets ==> Holder(links, t))
  }

  ghost predicate Holder<Y>(links: map<nat, LinkRecord<Y>>, t: nat) {
    exists id :: id in links && links[id].ticket == Some(t)
  }

  /** A ticket is held exactly by a responder whose handshake is not complete. */
  ghost predicate Proper<Y>(l: LinkRecord<Y>) {
    && Valid(l.driver) && !l.driver.phase.Ended?
    && (l.ticket.Some? <==> !l.driver.initiator && !l.driver.phase.InTransport?)
  }

  /** Dropping a link's ticket on both sides, the link itself kept or removed. */
  lemma ReleaseKeeps<Y>(links: map<nat, LinkRecord<Y>>, tickets: set<nat>, id: nat, l: LinkRecord<Y>)
    requires Matched(links, tickets) && id in links
    ensures var spent := if links[id].ticket.Some? then {links[id].ticket.value} else {};
            && Matched(links - {id}, tickets - spent)
            && (l.ticket.None? ==> Matched(links[id := l], tickets - spent))
  {
    var spent := if links[id].ticket.Some? then {links[id].ticket.value} else {};
    forall t | t in tickets - spent ensures Holder(links - {id}, t) && (l.ticket.None? ==> Holder(links[id := l], t)) {
      var i :| i in links && links[i].ticket == Some(t);
      assert i != id;
      assert (links - {id})[i].ticket == Some(t) && links[id := l][i].ticket == Some(t);
    }
  }

  lemma SameTicketKeeps<Y>(links: map<nat, LinkRecord<Y>>, tickets: set<nat>, id: nat, l: LinkRecord<Y>)
    requires Matched(links, tickets) && id in links && l.ticket == links[id].ticket
    ensures Matched(links[id := l], tickets)
  {
    forall t | t in tickets ensures Holder(links[id := l], t) {
      var i :| i in links && links[i].ticket == Some(t);
      assert links[id := l][i].ticket == Some(t);
    }
  }

  lemma NewLinkKeeps<Y>(links: map<nat, LinkRecord<Y>>, tickets: set<nat>, id: nat, l: LinkRecord<Y>)
    requires Matched(links, tickets) && id !in links && (l.ticket.Some? ==> l.ticket.value !in tickets)
    ensures Matched(links[id := l], tickets + if l.ticket.Some? then {l.ticket.value} else {})
  {
    var all := tickets + if l.ticket.Some? then {l.ticket.value} else {};
    forall t | t in all ensures Holder(links[id := l], t) {
      if t in tickets {
        var i :| i in links && links[i].ticket == Some(t);
        assert links[id := l][i].ticket == Some(t);
      } else {
        assert links[id := l][id].ticket == Some(t);
      }
    }
  }

  /** The links still in their handshake that were opened by someone else. */
  ghost function HalfOpen<Y>(links: map<nat, LinkRecord<Y>>): set<nat> {
    set id | id in links && links[id].ticket.Some?
  }

  /** There are no more of them than tickets. */
  lemma {:induction false} HalfOpenCount<Y>(links: map<nat, LinkRecord<Y>>, ids: set<nat>, tickets: set<nat>)
    requires forall id :: id in ids ==> id in links && links[id].ticket.Some? && links[id].ticket.value in tickets
    requires forall i, j :: i in ids && j in ids && i != j ==> links[i].ticket != links[j].ticket
    ensures |ids| <= |tickets|
    decreases |ids|
  {
    if ids != {} {
      var id :| id in ids;
      HalfOpenCount(links, ids - {id}, tickets - {links[id].ticket.value});
    }
  }

  /** Every link id ever given out is live or has been reported closed, never both, never twice. */
  ghost predicate Accounted(live: set<nat>, reported: seq<nat>, next: nat) {
    && NoDup(reported)
    && (forall id: nat :: id in live || id in reported <==> id < next)
    && (forall id :: id in live ==> id !in reported)
  }

  /** Tickets match links, stay below the cap, and the next one is new. */
  ghost predicate Gated<Y>(links: map<nat, LinkRecord<Y>>, g: L.Gate, cap: nat) {
    && Matched(links, g.halfOpen.Keys)
    && |g.halfOpen| <= cap
    && (forall t :: t in g.halfOpen ==> t < g.nextTicket)
  }

  ghost predicate AllProper<Y>(links: map<nat, LinkRecord<Y>>) {
    forall id :: id in links ==> Proper(links[id])
  }

  lemma GatedIs<Y>(links: map<nat, LinkRecord<Y>>, g: L.Gate, cap: nat)
    requires Gated(links, g, cap)
    ensures Matched(links, g.halfOpen.Keys)
  {
  }

  /** No new tickets, and the deadlines of the others unchanged. */
  ghost predicate FewerTickets(g: map<nat, u64>, was: map<nat, u64>) {
    forall t :: t in g ==> t in was && g[t] == was[t]
  }

  lemma FewerSelf(g: map<nat, u64>, t: nat)
    ensures FewerTickets(g, g) && FewerTickets(g - {t}, g)
  {
  }

  lemma FewerThen(g: map<nat, u64>, mid: map<nat, u64>, was: map<nat, u64>)
    requires FewerTickets(g, mid) && FewerTickets(mid, was)
    ensures FewerTickets(g, was)
  {
  }

  lemma FewerCount(g: map<nat, u64>, was: map<nat, u64>)
    requires FewerTickets(g, was)
    ensures g.Keys <= was.Keys && |g| <= |was|
  {
    assert was.Keys == g.Keys + (was.Keys - g.Keys);
    assert |g| == |g.Keys| && |was| == |was.Keys|;
  }

  lemma GatedShrinks<Y>(links: map<nat, LinkRecord<Y>>, g: L.Gate, links': map<nat, LinkRecord<Y>>, g': L.Gate, cap: nat)
    requires Gated(links, g, cap) && Matched(links', g'.halfOpen.Keys)
    requires FewerTickets(g'.halfOpen, g.halfOpen) && g'.nextTicket == g.nextTicket
    ensures Gated(links', g', cap)
  {
    hide Matched;
    FewerCount(g'.halfOpen, g.halfOpen);
    assert forall t :: t in g'.halfOpen ==> t in g'.halfOpen.Keys;
  }

  lemma AccountNew(live: set<nat>, reported: seq<nat>, next: nat)
    requires Accounted(live, reported, next)
    ensures next !in live && Accounted(live + {next}, reported, next + 1)
  {
  }

  lemma AccountGone(live: set<nat>, reported: seq<nat>, next: nat, id: nat)
    requires Accounted(live, reported, next) && id in live
    ensures Accounted(live - {id}, reported + [id], next)
  {
    var more := reported + [id];
    forall i: nat ensures i in more <==> i in reported || i == id {
    }
  }

  lemma ProperWith<Y>(links: map<nat, LinkRecord<Y>>, id: nat, l: LinkRecord<Y>)
    requires AllProper(links)
    ensures AllProper(links - {id}) && (Proper(l) ==> AllProper(links[id := l]))
  {
    hide Proper;
  }

  /** What the caller of a driver sees of one link. */
  lemma ProperAfter<Y, V>(env: Env<Y, V>, l: LinkRecord<Y>, store: V, call: Call)
    requires Usable(env) && Proper(l)
    ensures var t := Do(env, l.driver, store, call);
            var es := t.out.events;
            && (WentDown(es) <==> t.d.phase.Ended?)
            && (WentDown(es) ==> es[|es| - 1].Closed? && NoClosed(es[..|es| - 1]))
            && (!WentDown(es) ==> Proper(LinkRecord(t.d, if CameUp(es) then None else l.ticket)))
            && (forall id: nat :: ClosedIds(Tagged(id, es)) == if WentDown(es) then [id] else [])
  {
    hide Usable, Valid, Do, ClosedIds;
    CallReports(env, l.driver, store, call);
    RoleStays(env, l.driver, store, call);
    var es := Do(env, l.driver, store, call).out.events;
    DownOnce(es);
    forall id: nat ensures ClosedIds(Tagged(id, es)) == if WentDown(es) then [id] else [] {
      ClosedTagged(id, es);
    }
  }

  /** The bookkeeping of one driver call, on values. */
  lemma AfterDrive<Y>(was: map<nat, LinkRecord<Y>>, id: nat, later: LinkRecord<Y>, up: bool, down: bool,
                      links: map<nat, LinkRecord<Y>>, reported: seq<nat>, next: nat, closed: seq<nat>)
    requires id in was && Accounted(was.Keys, reported, next) && AllProper(was)
    requires down ==> links == was[id := later] - {id} && closed == [id]
    requires !down ==> links == (if up then was[id := later][id := later.(ticket := None)] else was[id := later]) && closed == []
    requires !down ==> Proper(if up then later.(ticket := None) else later)
    ensures Accounted(links.Keys, reported + closed, next) && AllProper(links)
    ensures closed == if id in links then [] else [id]
    ensures links.Keys <= was.Keys && was.Keys - {id} <= links.Keys
    ensures forall i :: i in links && i != id ==> links[i] == was[i]
  {
    hide Accounted, AllProper, Proper;
    ProperWith(was, id, if up then later.(ticket := None) else later);
    if down {
      assert links == was - {id};
      AccountGone(was.Keys, reported, next, id);
      assert links.Keys == was.Keys - {id};
    } else {
      assert reported + [] == reported;
      assert links == was[id := if up then later.(ticket := None) else later];
      assert links.Keys == was.Keys;
    }
  }

  /* ----- what a tick decides ----- */

  /** The driver of the link is past a deadline. */
  function DriverVerdict<Y>(cfg: LinkConfig, id: nat, d: Driver<Y>, now: u64): Option<NodeEvent> {
    if Stalled(cfg, d, now) then Some(FromLink(id, Closed(HandshakeTimeout)))
    else if Outlived(cfg, d, now) then Some(FromLink(id, Closed(LifetimeExpired)))
    else None
  }

  /** The link holds a ticket that is. */
  predicate TicketSpent<Y>(l: LinkRecord<Y>, halfOpen: map<nat, u64>, now: u64) {
    l.ticket.Some? && l.ticket.value in halfOpen && halfOpen[l.ticket.value] <= now
  }

  /** How a tick closes a link, if it does. */
  function Verdict<Y>(cfg: LinkConfig, id: nat, l: LinkRecord<Y>, halfOpen: map<nat, u64>, now: u64): Option<NodeEvent> {
    if DriverVerdict(cfg, id, l.driver, now).Some? then DriverVerdict(cfg, id, l.driver, now)
    else if TicketSpent(l, halfOpen, now) then Some(TimedOut(id))
    else None
  }

  ghost function DriverVerdicts<Y>(cfg: LinkConfig, links: map<nat, LinkRecord<Y>>, now: u64): map<nat, NodeEvent> {
    map id | id in links && DriverVerdict(cfg, id, links[id].driver, now).Some? :: DriverVerdict(cfg, id, links[id].driver, now).value
  }

  ghost function TicketVerdicts<Y>(links: map<nat, LinkRecord<Y>>, halfOpen: map<nat, u64>, now: u64): map<nat, NodeEvent> {
    map id | id in links && TicketSpent(links[id], halfOpen, now) :: TimedOut(id)
  }

  ghost function SpentVerdicts<Y>(links: map<nat, LinkRecord<Y>>, spent: set<nat>): map<nat, NodeEvent> {
    map id | id in links && links[id].ticket.Some? && links[id].ticket.value in spent :: TimedOut(id)
  }

  /** Among the links of `done` exactly those with a verdict are gone, each with its event; the others are as they were. */
  ghost predicate Applied<Y>(was: map<nat, LinkRecord<Y>>, links: map<nat, LinkRecord<Y>>, verdicts: map<nat, NodeEvent>, done: set<nat>, events: seq<NodeEvent>) {
    && (forall id :: id in links ==> id in was)
    && (forall id :: id in was ==>
          if id in done && id in verdicts then id !in links && verdicts[id] in events else id in links && links[id] == was[id])
    && (forall e :: e in events ==> e.id in was && e.id in done && e.id in verdicts && verdicts[e.id] == e)
  }

  lemma AppliedNone<Y>(was: map<nat, LinkRecord<Y>>, verdicts: map<nat, NodeEvent>)
    ensures Applied(was, was, verdicts, was.Keys - was.Keys, [])
  {
  }

  lemma AppliedUntouched<Y>(was: map<nat, LinkRecord<Y>>, links: map<nat, LinkRecord<Y>>, verdicts: map<nat, NodeEvent>, done: set<nat>, events: seq<NodeEvent>, id: nat)
    requires Applied(was, links, verdicts, done, events) && id in was && id !in done
    ensures id in links && links[id] == was[id]
  {
  }

  lemma AppliedNext<Y>(was: map<nat, LinkRecord<Y>>, live: map<nat, LinkRecord<Y>>, links: map<nat, LinkRecord<Y>>, verdicts: map<nat, NodeEvent>,
                       done: set<nat>, events: seq<NodeEvent>, id: nat, more: seq<NodeEvent>)
    requires Applied(was, live, verdicts, done, events) && id in was && id !in done
    requires links.Keys <= live.Keys && live.Keys - {id} <= links.Keys && forall i :: i in links && i != id ==> links[i] == live[i]
    requires if id in verdicts then id !in links && more == [verdicts[id]] && verdicts[id].id == id else id in links && links[id] == live[id] && more == []
    ensures Applied(was, links, verdicts, done + {id}, events + more)
  {
  }

  lemma VerdictOf<Y>(cfg: LinkConfig, was: map<nat, LinkRecord<Y>>, now: u64, id: nat)
    requires id in was
    ensures var v := DriverVerdict(cfg, id, was[id].driver, now);
            && (id in DriverVerdicts(cfg, was, now) <==> v.Some?)
            && (v.Some? ==> DriverVerdicts(cfg, was, now)[id] == v.value && v.value.id == id)
  {
  }

  /** What a tick does to one live link. */
  lemma LinkTicks<Y, V>(env: Env<Y, V>, id: nat, l: LinkRecord<Y>, store: V, now: u64)
    requires Usable(env) && Proper(l)
    ensures var t, v := Do(env, l.driver, store, Call.Tick(now)), DriverVerdict(env.config, id, l.driver, now);
            && t.store == store && (t.d.phase.Ended? <==> v.Some?)
            && Tagged(id, t.out.events) == (if v.Some? then [v.value] else [])
            && (v.None? ==> t.d == l.driver && !CameUp(t.out.events))
  {
    hide Usable, Valid;
    TickCloses(env, l.driver, now);
  }

  lemma SpentNone<Y>(held: map<nat, LinkRecord<Y>>)
    ensures Applied(held, held, SpentVerdicts(held, {}), held.Keys, [])
  {
  }

  lemma TicketMoves(kept: set<nat>, left: set<nat>, expired: set<nat>, ticket: nat)
    requires ticket in left && left <= expired && kept !! left
    ensures kept + left - {ticket} == kept + (left - {ticket}) && kept !! left - {ticket}
    ensures (expired - left) + {ticket} == expired - (left - {ticket}) && ticket !in expired - left
  {
  }

  lemma MatchedOnce<Y>(links: map<nat, LinkRecord<Y>>, tickets: set<nat>, id: nat)
    requires Matched(links, tickets) && id in links && links[id].ticket.Some?
    ensures forall i :: i in links && links[i].ticket == links[id].ticket ==> i == id
  {
  }

  lemma SpentNext<Y>(held: map<nat, LinkRecord<Y>>, live: map<nat, LinkRecord<Y>>, spent: set<nat>, tickets: set<nat>, events: seq<NodeEvent>, id: nat, ticket: nat)
    requires Applied(held, live, SpentVerdicts(held, spent), held.Keys, events) && ticket !in spent
    requires id in live && live[id].ticket == Some(ticket) && Matched(live, tickets)
    ensures Applied(held, live - {id}, SpentVerdicts(held, spent + {ticket}), held.Keys, events + [TimedOut(id)])
  {
    hide Matched;
    MatchedOnce(live, tickets, id);
    var v, v' := SpentVerdicts(held, spent), SpentVerdicts(held, spent + {ticket});
    forall i | i in held && i in v' && i !in v ensures i == id {
      assert i in live && live[i] == held[i];
    }
  }

  lemma SameVerdicts<Y>(held: map<nat, LinkRecord<Y>>, g: L.Gate, now: u64)
    ensures TicketVerdicts(held, g.halfOpen, now) == SpentVerdicts(held, L.Expired(g, now))
  {
  }

  /** A link that is left after the drivers is judged by its ticket alone. */
  lemma LeftToTickets<Y>(cfg: LinkConfig, was: map<nat, LinkRecord<Y>>, mid: map<nat, LinkRecord<Y>>, tickets: map<nat, u64>, held: map<nat, u64>,
                         now: u64, first: seq<NodeEvent>, id: nat)
    requires Applied(was, mid, DriverVerdicts(cfg, was, now), was.Keys, first) && id in was
    requires FewerTickets(held, tickets) && Matched(mid, held.Keys)
    ensures id in mid <==> DriverVerdict(cfg, id, was[id].driver, now).None?
    ensures id in mid ==> mid[id] == was[id] && (TicketSpent(mid[id], held, now) <==> TicketSpent(was[id], tickets, now))
    ensures id !in mid ==> DriverVerdict(cfg, id, was[id].driver, now).value in first
  {
    hide Stalled, Outlived;
  }

  lemma Judged<Y>(cfg: LinkConfig, was: map<nat, LinkRecord<Y>>, mid: map<nat, LinkRecord<Y>>, links: map<nat, LinkRecord<Y>>,
                  tickets: map<nat, u64>, held: map<nat, u64>, now: u64, first: seq<NodeEvent>, more: seq<NodeEvent>, id: nat)
    requires Applied(was, mid, DriverVerdicts(cfg, was, now), was.Keys, first)
    requires Applied(mid, links, TicketVerdicts(mid, held, now), mid.Keys, more)
    requires FewerTickets(held, tickets) && Matched(mid, held.Keys) && id in was
    ensures match Verdict(cfg, id, was[id], tickets, now)
            case Some(e) => id !in links && e in first + more
            case None => id in links && links[id] == was[id]
  {
    hide Matched, FewerTickets, DriverVerdict, DriverVerdicts;
    LeftToTickets(cfg, was, mid, tickets, held, now, first, id);
  }

  lemma Reported<Y>(cfg: LinkConfig, was: map<nat, LinkRecord<Y>>, mid: map<nat, LinkRecord<Y>>, links: map<nat, LinkRecord<Y>>,
                    tickets: map<nat, u64>, held: map<nat, u64>, now: u64, first: seq<NodeEvent>, more: seq<NodeEvent>, e: NodeEvent)
    requires Applied(was, mid, DriverVerdicts(cfg, was, now), was.Keys, first)
    requires Applied(mid, links, TicketVerdicts(mid, held, now), mid.Keys, more)
    requires FewerTickets(held, tickets) && Matched(mid, held.Keys) && e in first + more
    ensures e.id in was && Verdict(cfg, e.id, was[e.id], tickets, now) == Some(e)
  {
    hide Matched, FewerTickets, DriverVerdict;
    if e in first {
      VerdictOf(cfg, was, now, e.id);
    } else {
      LeftToTickets(cfg, was, mid, tickets, held, now, first, e.id);
    }
  }

  /** Drivers first, tickets after: together, the verdict on each link. */
  lemma AppliedBoth<Y>(cfg: LinkConfig, was: map<nat, LinkRecord<Y>>, mid: map<nat, LinkRecord<Y>>, links: map<nat, LinkRecord<Y>>,
                       tickets: map<nat, u64>, held: map<nat, u64>, now: u64, first: seq<NodeEvent>, more: seq<NodeEvent>)
    requires Applied(was, mid, DriverVerdicts(cfg, was, now), was.Keys, first)
    requires Applied(mid, links, TicketVerdicts(mid, held, now), mid.Keys, more)
    requires FewerTickets(held, tickets) && Matched(mid, held.Keys)
    ensures links.Keys <= was.Keys
    ensures forall id :: id in was ==>
              match Verdict(cfg, id, was[id], tickets, now)
              case Some(e) => id !in links && e in first + more
              case None => id in links && links[id] == was[id]
    ensures forall e :: e in first + more ==> e.id in was && Verdict(cfg, e.id, was[e.id], tickets, now) == Some(e)
  {
    hide Matched, FewerTickets, Verdict, DriverVerdicts, TicketVerdicts;
    forall id | id in was
      ensures match Verdict(cfg, id, was[id], tickets, now)
              case Some(e) => id !in links && e in first + more
              case None => id in links && links[id] == was[id]
    {
      Judged(cfg, was, mid, links, tickets, held, now, first, more, id);
    }
    forall e | e in first + more ensures e.id in was && Verdict(cfg, e.id, was[e.id], tickets, now) == Some(e) {
      Reported(cfg, was, mid, links, tickets, held, now, first, more, e);
    }
  }

  class Node<!Y, !V> {
    const env: Env<Y, V>
    const syncerFor: bool -> Y
    const limiter: L.HandshakeLimiter
    var store: V
    var links: map<nat, LinkRecord<Y>>
    var nextLinkId: nat
    var lastNow: u64
    /** The links reported closed so far. */
    ghost var reported: seq<nat>

    ghost predicate Ok()
      reads this, limiter
    {
      && Usable(env) && Accounted(links.Keys, reported, nextLinkId) && AllProper(links)
      && Gated(links, limiter.View(), limiter.config.maxHalfOpen)
    }

    constructor (env: Env<Y, V>, syncerFor: bool -> Y, config: L.Config, store: V)
      requires Usable(env)
      ensures Ok() && links == map[] && reported == [] && this.store == store && fresh(limiter)
    {
      this.env, this.syncerFor, this.store := env, syncerFor, store;
      limiter := new L.HandshakeLimiter(config);
      links, nextLinkId, lastNow := map[], 0, 0;
      reported := [];
    }

    /** Links in their handshake that others opened never exceed the cap. */
    lemma CapHolds()
      requires Ok()
      ensures |HalfOpen(links)| <= limiter.config.maxHalfOpen
      ensures forall id :: id in HalfOpen(links) <==> id in links && !links[id].driver.initiator && !links[id].driver.phase.InTransport?
    {
      hide Usable, Valid;
      HalfOpenCount(links, HalfOpen(links), limiter.halfOpen.Keys);
      assert |limiter.halfOpen| == |limiter.halfOpen.Keys|;
    }

    /** Callers race for the lock, so clocks may come in slightly out of order. */
    method ClampNow(now: u64) returns (clamped: u64)
      modifies this`lastNow
      ensures clamped == lastNow && lastNow == if now > old(lastNow) then now else old(lastNow)
    {
      if lastNow < now {
        lastNow := now;
      }
      clamped := lastNow;
    }

    /** Files a new link under the next id. */
    method AddLink(l: LinkRecord<Y>) returns (id: nat)
      requires Accounted(links.Keys, reported, nextLinkId) && AllProper(links) && Proper(l)
      modifies this`links, this`nextLinkId
      ensures id == old(nextLinkId) && id !in old(links) && links == old(links)[id := l]
      ensures Accounted(links.Keys, reported, nextLinkId) && AllProper(links)
    {
      hide Accounted, AllProper, Proper;
      AccountNew(links.Keys, reported, nextLinkId);
      ProperWith(links, nextLinkId, l);
      id := nextLinkId;
      nextLinkId := nextLinkId + 1;
      links := links[id := l];
      assert links.Keys == old(links).Keys + {id};
    }

    /** We opened the transport connection. */
    method Connect(s: Key, e: Key, now: u64) returns (id: nat, frames: seq<Sent>)
      requires Ok()
      modifies this
      ensures Ok() && reported == old(reported) && store == old(store) && unchanged(limiter)
      ensures lastNow == if now > old(lastNow) then now else old(lastNow)
      ensures id == old(nextLinkId) && id !in old(links)
      ensures var (d, out) := Start(env, NewDriver(true, s, e, syncerFor(true), lastNow));
              links == old(links)[id := LinkRecord(d, None)] && frames == out.frames
    {
      hide Usable, Start, NewDriver, Matched, Accounted, AllProper, Proper;
      var clock := ClampNow(now);
      var driver := NewDriver(true, s, e, syncerFor(true), clock);
      StartedIsProper(env, true, s, e, syncerFor(true), clock, None);
      var (started, out) := Start(env, driver);
      id := AddLink(LinkRecord(started, None));
      NewLinkKeeps(old(links), limiter.halfOpen.Keys, id, LinkRecord(started, None));
      assert limiter.halfOpen.Keys + {} == limiter.halfOpen.Keys;
      frames := out.frames;
    }

    /** A remote opened a connection to us; refused silently when the limiter says so. */
    method Accept(s: Key, e: Key, addr: L.Addr, now: u64) returns (id: Option<nat>)
      requires Ok()
      modifies this, limiter
      ensures Ok() && reported == old(reported) && store == old(store)
      ensures lastNow == if now > old(lastNow) then now else old(lastNow)
      ensures var (gate, ticket) := L.AdmitSpec(limiter.config, old(limiter.View()), addr, lastNow);
              && limiter.View() == gate && (id.Some? <==> ticket.Some?)
              && (id.Some? ==>
                    && id.value == old(nextLinkId) && id.value !in old(links)
                    && links == old(links)[id.value := LinkRecord(NewDriver(false, s, e, syncerFor(false), lastNow), ticket)])
              && (id.None? ==> links == old(links))
    {
      hide Usable, NewDriver, Matched, L.AdmitSpec, Accounted, AllProper, Proper;
      var clock := ClampNow(now);
      AdmitTickets(limiter.config, limiter.View(), addr, clock);
      var ticket := limiter.Admit(addr, clock);
      if ticket.None? {
        return None;
      }
      var driver := NewDriver(false, s, e, syncerFor(false), clock);
      StartedIsProper(env, false, s, e, syncerFor(false), clock, ticket);
      var n := AddLink(LinkRecord(driver, ticket));
      NewLinkKeeps(old(links), old(limiter.halfOpen).Keys, n, LinkRecord(driver, ticket));
      id := Some(n);
    }

    /** Removes a link, releasing its ticket if it never came up. */
    method Retire(id: nat)
      requires id in links && Matched(links, limiter.halfOpen.Keys)
      modifies this`links, limiter
      ensures links == old(links) - {id} && Matched(links, limiter.halfOpen.Keys)
      ensures limiter.nextTicket == old(limiter.nextTicket)
      ensures FewerTickets(limiter.halfOpen, old(limiter.halfOpen))
    {
      hide Matched, FewerTickets;
      FewerSelf(limiter.halfOpen, 0);
      ReleaseKeeps(links, limiter.halfOpen.Keys, id, links[id]);
      var ticket := links[id].ticket;
      links := links - {id};
      if ticket.Some? {
        limiter.Settle(ticket.value);
        KeysWithout(old(limiter.halfOpen), ticket.value);
        FewerSelf(old(limiter.halfOpen), ticket.value);
      } else {
        assert limiter.halfOpen.Keys - {} == limiter.halfOpen.Keys;
      }
    }

    /** Applies the limiter and removal bookkeeping of one driver call. */
    method Settle(id: nat, events: seq<LinkEvent>)
      requires id in links && Matched(links, limiter.halfOpen.Keys)
      requires WentDown(events) ==> events[|events| - 1].Closed? && NoClosed(events[..|events| - 1])
      modifies this`links, limiter
      ensures Matched(links, limiter.halfOpen.Keys)
      ensures links == if WentDown(events) then old(links) - {id}
                       else if CameUp(events) then old(links)[id := old(links)[id].(ticket := None)] else old(links)
      ensures limiter.nextTicket == old(limiter.nextTicket)
      ensures FewerTickets(limiter.halfOpen, old(limiter.halfOpen))
    {
      hide Matched, FewerTickets;
      ghost var was: map<nat, LinkRecord<Y>>, tickets := links, limiter.halfOpen;
      FewerSelf(tickets, 0);
      assert events[..0] == [];
      for i := 0 to |events|
        invariant Matched(links, limiter.halfOpen.Keys)
        invariant links == if WentDown(events[..i]) then was - {id}
                           else if CameUp(events[..i]) then was[id := was[id].(ticket := None)] else was
        invariant WentDown(events[..i]) ==> i == |events|
        invariant limiter.nextTicket == old(limiter.nextTicket)
        invariant FewerTickets(limiter.halfOpen, old(limiter.halfOpen))
      {
        CameUpSnoc(events, i);
        ghost var held := limiter.halfOpen;
        FewerSelf(held, 0);
        match events[i]
        case Established(_) =>
          Established(id);
          FewerThen(limiter.halfOpen, held, tickets);
        case Closed(_) =>
          assert i == |events| - 1 by { LastClosed(events, i); }
          Retire(id);
          FewerThen(limiter.halfOpen, held, tickets);
          assert was[id := was[id].(ticket := None)] - {id} == was - {id};
        case Synced(_) =>
      }
      assert events[..|events|] == events;
    }

    /**
      Runs one driver call on a live link and does the bookkeeping. The link goes
      exactly when its closing is reported, and its ticket when it comes up.
     */
    method Drive(id: nat, call: Call) returns (out: Out, events: seq<NodeEvent>)
      requires Ok() && id in links
      modifies this`store, this`links, this`reported, limiter
      ensures Ok()
      ensures Valid(old(links)[id].driver)
      ensures var t := Do(env, old(links)[id].driver, old(store), call);
              out == t.out && store == t.store && events == Tagged(id, out.events)
              && (id in links <==> !t.d.phase.Ended?)
              && (id in links ==> links[id] == LinkRecord(t.d, if CameUp(out.events) then None else old(links)[id].ticket))
      ensures reported == old(reported) + ClosedIds(events)
      ensures ClosedIds(events) == if id in links then [] else [id]
      ensures links.Keys <= old(links).Keys && old(links).Keys - {id} <= links.Keys
      ensures forall i :: i in links && i != id ==> links[i] == old(links)[i]
      ensures FewerTickets(limiter.halfOpen, old(limiter.halfOpen))
    {
      hide Usable, Matched, Do, ClosedIds, Accounted, AllProper, Proper, WentDown, CameUp, Gated, FewerTickets;
      GatedIs(links, limiter.View(), limiter.config.maxHalfOpen);
      ghost var gate := limiter.View();
      ghost var was: map<nat, LinkRecord<Y>> := links;
      var record := links[id];
      ProperOf(links, id);
      ProperAfter(env, record, store, call);
      var t := Do(env, record.driver, store, call);
      out := t.out;
      events := Tagged(id, out.events);
      ghost var later := record.(driver := t.d);
      SameTicketKeeps(links, limiter.halfOpen.Keys, id, later);
      store := t.store;
      links := links[id := record.(driver := t.d)];
      Settle(id, out.events);
      GatedShrinks(was, gate, links, limiter.View(), limiter.config.maxHalfOpen);
      reported := reported + ClosedIds(events);
      AfterDrive(was, id, later, CameUp(out.events), WentDown(out.events), links, old(reported), nextLinkId, ClosedIds(events));
    }

    /** Raw bytes of a link; an unknown or closed link yields nothing. */
    method OnLinkBytes(id: nat, bytes: seq<byte>, now: u64) returns (frames: seq<Sent>, events: seq<NodeEvent>)
      requires Ok()
      modifies this, limiter
      ensures Ok() && nextLinkId == old(nextLinkId)
      ensures lastNow == if now > old(lastNow) then now else old(lastNow)
      ensures id !in old(links) ==> frames == [] && events == [] && links == old(links) && store == old(store)
      ensures id in old(links) ==> Valid(old(links)[id].driver)
      ensures id in old(links) ==>
                var t := Do(env, old(links)[id].driver, old(store), Bytes(bytes, lastNow));
                && frames == t.out.frames && events == Tagged(id, t.out.events) && store == t.store
                && (id in links <==> !t.d.phase.Ended?) && (id in links ==> links[id].driver == t.d)
      ensures forall i :: i != id ==> (i in links <==> i in old(links)) && (i in links ==> links[i] == old(links)[i])
      ensures reported == old(reported) + ClosedIds(events)
    {
      hide Usable, Gated, Accounted, AllProper;
      var clock := ClampNow(now);
      if id !in links {
        assert reported + [] == reported;
        return [], [];
      }
      var out;
      out, events := Drive(id, Bytes(bytes, clock));
      frames := out.frames;
    }

    /**
      Opens a reconciliation session on a link. Each refusal leaves the device as
      it was; otherwise the session id is the one the sync layer chose.
     */
    method StartSync(id: nat, since: u64, until: u64) returns (r: Result<(u64, seq<Sent>, seq<NodeEvent>), ApiError>)
      requires Ok()
      modifies this, limiter
      ensures Ok() && nextLinkId == old(nextLinkId)
      ensures r.Err? ==> links == old(links) && store == old(store) && reported == old(reported)
      ensures id !in old(links) <==> r == Err(UnknownLink)
      ensures id in old(links) ==> (!old(links)[id].driver.phase.InTransport? <==> r == Err(NotEstablished))
      ensures id in old(links) && old(links)[id].driver.phase.InTransport? ==>
                match env.sync.open(old(links)[id].driver.syncer, old(store), since, until)
                case Err(why) => r == Err(SyncRefused(why))
                case Ok((_, sid, _)) => r.Ok? && r.value.0 == sid
      ensures r.Ok? ==> id in old(links) && Valid(old(links)[id].driver)
      ensures r.Ok? ==>
                var t := Do(env, old(links)[id].driver, old(store), OpenSession(since, until));
                && r.value.1 == t.out.frames && r.value.2 == Tagged(id, t.out.events) && store == t.store
                && (id in links <==> !t.d.phase.Ended?) && (id in links ==> links[id].driver == t.d)
                && reported == old(reported) + ClosedIds(r.value.2)
      ensures forall i :: i != id ==> (i in links <==> i in old(links)) && (i in links ==> links[i] == old(links)[i])
    {
      hide Usable, Gated, Accounted, AllProper, Do;
      if id !in links {
        return Err(UnknownLink);
      }
      if !links[id].driver.phase.InTransport? {
        return Err(NotEstablished);
      }
      var opening := env.sync.open(links[id].driver.syncer, store, since, until);
      if opening.Err? {
        return Err(SyncRefused(opening.error));
      }
      var out, events := Drive(id, OpenSession(since, until));
      r := Result.Ok((opening.value.1, out.frames, events));
    }

    /** The transport died: the link is removed and reported once; stale calls report nothing. */
    method OnTransportClosed(id: nat, now: u64) returns (events: seq<NodeEvent>)
      requires Ok()
      modifies this, limiter
      ensures Ok() && nextLinkId == old(nextLinkId)
      ensures reported == old(reported) + ClosedIds(events)
      ensures events == if id in old(links) then [TransportClosed(id)] else []
      ensures links == old(links) - {id} && store == old(store)
    {
      hide Usable, Matched, Accounted, AllProper, Gated, ClosedIds;
      var _ := ClampNow(now);
      NothingClosed();
      if id !in links {
        assert links - {id} == links && reported + [] == reported;
        return [];
      }
      GatedIs(links, limiter.View(), limiter.config.maxHalfOpen);
      ghost var gate := limiter.View();
      AccountGone(links.Keys, reported, nextLinkId, id);
      ProperWith(links, id, links[id]);
      assert (links - {id}).Keys == links.Keys - {id};
      Retire(id);
      GatedShrinks(old(links), gate, links, limiter.View(), limiter.config.maxHalfOpen);
      events := [TransportClosed(id)];
      ClosedSnoc([], TransportClosed(id));
      assert [] + [TransportClosed(id)] == events;
      reported := reported + [id];
    }

    /**
      Time advances: drivers first, then whatever tickets the limiter gave up. Each
      link whose driver is past a deadline closes for that reason, each other one
      whose ticket is past its own times out, and nothing else changes.
     */
    method Tick(now: u64) returns (events: seq<NodeEvent>)
      requires Ok()
      modifies this, limiter
      ensures Ok() && nextLinkId == old(nextLinkId) && store == old(store)
      ensures lastNow == if now > old(lastNow) then now else old(lastNow)
      ensures reported == old(reported) + ClosedIds(events)
      ensures links.Keys <= old(links).Keys
      ensures forall id :: id in old(links) ==>
                match Verdict(env.config, id, old(links)[id], old(limiter.halfOpen), lastNow)
                case Some(e) => id !in links && e in events
                case None => id in links && links[id] == old(links)[id]
      ensures forall e :: e in events ==>
                e.id in old(links) && Verdict(env.config, e.id, old(links)[e.id], old(limiter.halfOpen), lastNow) == Some(e)
    {
      hide Usable, Gated, ClosedIds, Accounted, AllProper, Tally, Applied, FewerTickets, Matched;
      var clock := ClampNow(now);
      ghost var was: map<nat, LinkRecord<Y>>, tickets := links, limiter.halfOpen;
      events := TickDrivers(clock);
      ghost var mid: map<nat, LinkRecord<Y>>, held, first := links, limiter.halfOpen, events;
      GatedIs(links, limiter.View(), limiter.config.maxHalfOpen);
      ghost var more;
      events, more := ExpireTickets(clock, events, was, old(reported));
      TallyIs(links.Keys, events, was.Keys, reported, old(reported));
      AppliedBoth(env.config, was, mid, links, tickets, held, clock, first, more);
    }

    /** Every driver hears the time. */
    method TickDrivers(clock: u64) returns (events: seq<NodeEvent>)
      requires Ok()
      modifies this`store, this`links, this`reported, limiter
      ensures Ok() && store == old(store)
      ensures Tally(links.Keys, events, old(links).Keys, reported, old(reported))
      ensures Applied(old(links), links, DriverVerdicts(env.config, old(links), clock), old(links).Keys, events)
      ensures FewerTickets(limiter.halfOpen, old(limiter.halfOpen))
    {
      hide Usable, Gated, ClosedIds, Accounted, AllProper, Tally, Applied, FewerTickets, Do, CameUp, DriverVerdicts;
      events := [];
      ghost var was: map<nat, LinkRecord<Y>>, tickets := links, limiter.halfOpen;
      ghost var verdicts := DriverVerdicts(env.config, was, clock);
      TallyNone(links.Keys, reported);
      AppliedNone(was, verdicts);
      FewerSelf(tickets, 0);
      var todo := links.Keys;
      while todo != {}
        invariant Ok() && todo <= links.Keys && todo <= was.Keys && store == old(store)
        invariant Tally(links.Keys, events, was.Keys, reported, old(reported))
        invariant Applied(was, links, verdicts, was.Keys - todo, events)
        invariant FewerTickets(limiter.halfOpen, tickets)
        decreases |todo|
      {
        var id :| id in todo;
        ghost var live: map<nat, LinkRecord<Y>>, told, held := links, reported, limiter.halfOpen;
        ProperOf(links, id);
        LinkTicks(env, id, links[id], store, clock);
        AppliedUntouched(was, links, verdicts, was.Keys - todo, events, id);
        VerdictOf(env.config, was, clock, id);
        var _, more := Drive(id, Call.Tick(clock));
        TallyMore(live.Keys, links.Keys, events, more, was.Keys, told, reported, old(reported));
        FewerThen(limiter.halfOpen, held, tickets);
        assert was.Keys - (todo - {id}) == (was.Keys - todo) + {id};
        AppliedNext(was, live, links, verdicts, was.Keys - todo, events, id, more);
        events := events + more;
        todo := todo - {id};
      }
      assert was.Keys - {} == was.Keys;
    }

    /** Closes the links whose tickets the limiter gave up. */
    method ExpireTickets(clock: u64, before: seq<NodeEvent>, ghost was: map<nat, LinkRecord<Y>>, ghost first: seq<nat>)
      returns (events: seq<NodeEvent>, ghost more: seq<NodeEvent>)
      requires Ok() && Tally(links.Keys, before, was.Keys, reported, first)
      modifies this`links, this`reported, limiter
      ensures Ok() && Tally(links.Keys, events, was.Keys, reported, first) && events == before + more
      ensures Applied(old(links), links, TicketVerdicts(old(links), old(limiter.halfOpen), clock), old(links).Keys, more)
    {
      hide Usable, Matched, Accounted, AllProper, Tally, L.Expired, Gated, Applied, TicketVerdicts, FewerTickets;
      GatedIs(links, limiter.View(), limiter.config.maxHalfOpen);
      ghost var full, held: map<nat, LinkRecord<Y>> := limiter.View(), links;
      ExpiredKeys(limiter.View(), clock);
      var expired := limiter.Expire(clock);
      assert full.halfOpen.Keys == limiter.halfOpen.Keys + expired;
      events, more := DropExpired(expired, limiter.halfOpen.Keys, before, was, first);
      GatedShrinks(held, full, links, limiter.View(), limiter.config.maxHalfOpen);
      SameVerdicts(held, full, clock);
    }

    method DropExpired(expired: set<nat>, ghost kept: set<nat>, before: seq<NodeEvent>, ghost was: map<nat, LinkRecord<Y>>, ghost first: seq<nat>)
      returns (events: seq<NodeEvent>, ghost more: seq<NodeEvent>)
      requires Accounted(links.Keys, reported, nextLinkId) && AllProper(links)
      requires Matched(links, kept + expired) && kept !! expired && Tally(links.Keys, before, was.Keys, reported, first)
      modifies this`links, this`reported
      ensures Accounted(links.Keys, reported, nextLinkId) && AllProper(links)
      ensures Matched(links, kept) && Tally(links.Keys, events, was.Keys, reported, first) && events == before + more
      ensures Applied(old(links), links, SpentVerdicts(old(links), expired), old(links).Keys, more)
    {
      hide Matched, Accounted, AllProper, Tally, Applied, SpentVerdicts;
      events, more := before, [];
      var left := expired;
      ghost var held: map<nat, LinkRecord<Y>> := links;
      SpentNone(held);
      assert expired - left == {} && before + [] == before;
      while left != {}
        invariant Accounted(links.Keys, reported, nextLinkId) && AllProper(links)
        invariant left <= expired && Matched(links, kept + left) && kept !! left
        invariant Tally(links.Keys, events, was.Keys, reported, first) && events == before + more
        invariant Applied(held, links, SpentVerdicts(held, expired - left), held.Keys, more)
        decreases |left|
      {
        var ticket :| ticket in left;
        HolderOf(links, kept + left, ticket);
        var id :| id in links && links[id].ticket == Some(ticket);
        ghost var live: map<nat, LinkRecord<Y>> := links;
        events := DropLink(id, ticket, kept + left, events, was, first);
        SpentNext(held, live, expired - left, kept + left, more, id, ticket);
        assert before + more + [TimedOut(id)] == before + (more + [TimedOut(id)]);
        more := more + [TimedOut(id)];
        TicketMoves(kept, left, expired, ticket);
        left := left - {ticket};
      }
      assert kept + {} == kept && expired - {} == expired;
    }

    /** Removes a link whose ticket is already spent. */
    method DropLink(id: nat, ghost ticket: nat, ghost tickets: set<nat>, before: seq<NodeEvent>, ghost was: map<nat, LinkRecord<Y>>, ghost first: seq<nat>)
      returns (events: seq<NodeEvent>)
      requires Accounted(links.Keys, reported, nextLinkId) && AllProper(links)
      requires id in links && links[id].ticket == Some(ticket) && Matched(links, tickets)
      requires Tally(links.Keys, before, was.Keys, reported, first)
      modifies this`links, this`reported
      ensures Accounted(links.Keys, reported, nextLinkId) && AllProper(links) && links == old(links) - {id}
      ensures Matched(links, tickets - {ticket}) && Tally(links.Keys, events, was.Keys, reported, first)
      ensures events == before + [TimedOut(id)]
    {
      hide Matched, Accounted, AllProper, Tally;
      ReleaseKeeps(links, tickets, id, links[id]);
      AccountGone(links.Keys, reported, nextLinkId, id);
      ProperWith(links, id, links[id]);
      TallyOne(links.Keys, before, was.Keys, reported, first, TimedOut(id));
      links := links - {id};
      assert links.Keys == old(links).Keys - {id};
      events := before + [TimedOut(id)];
      reported := reported + [id];
    }

    /** The handshake completed: the ticket is given back. */
    method Established(id: nat)
      requires id in links && Matched(links, limiter.halfOpen.Keys)
      modifies this`links, limiter
      ensures links == old(links)[id := old(links)[id].(ticket := None)] && Matched(links, limiter.halfOpen.Keys)
      ensures limiter.nextTicket == old(limiter.nextTicket)
      ensures FewerTickets(limiter.halfOpen, old(limiter.halfOpen))
    {
      hide Matched, FewerTickets;
      FewerSelf(limiter.halfOpen, 0);
      ReleaseKeeps(links, limiter.halfOpen.Keys, id, links[id].(ticket := None));
      var ticket := links[id].ticket;
      links := links[id := links[id].(ticket := None)];
      if ticket.Some? {
        limiter.Settle(ticket.value);
        KeysWithout(old(limiter.halfOpen), ticket.value);
        FewerSelf(old(limiter.halfOpen), ticket.value);
      } else {
        assert limiter.halfOpen.Keys - {} == limiter.halfOpen.Keys;
      }
    }
  }

  lemma LastClosed(events: seq<LinkEvent>, i: nat)
    requires i < |events| && events[i].Closed?
    requires WentDown(events) ==> events[|events| - 1].Closed? && NoClosed(events[..|events| - 1])
    ensures i == |events| - 1
  {
    assert forall j :: 0 <= j < |events| - 1 ==> events[..|events| - 1][j] == events[j];
  }

  lemma KeysWithout(m: map<nat, u64>, t: nat)
    ensures (m - {t}).Keys == m.Keys - {t} && |m - {t}| <= |m|
  {
    assert (m - {t}).Keys == m.Keys - {t};
    assert |m - {t}| == |(m - {t}).Keys| && |m| == |m.Keys|;
  }

  lemma StartedIsProper<Y, V>(env: Env<Y, V>, initiator: bool, s: Key, e: Key, syncer: Y, now: u64, ticket: Option<nat>)
    requires Usable(env) && (ticket.Some? <==> !initiator)
    ensures var d := NewDriver(initiator, s, e, syncer, now);
            Proper(LinkRecord(d, ticket)) && (initiator ==> Proper(LinkRecord(Start(env, d).0, ticket)))
  {
    NewIsValid(initiator, s, e, syncer, now);
  }

  /** Since `first`, exactly the links of `was` that are no longer live were reported. */
  ghost predicate Tally(live: set<nat>, events: seq<NodeEvent>, was: set<nat>, reported: seq<nat>, first: seq<nat>) {
    && reported == first + ClosedIds(events)
    && forall i :: i in live || i in ClosedIds(events) <==> i in was
  }

  lemma NothingClosed()
    ensures ClosedIds([]) == []
  {
  }

  lemma TallyNone(live: set<nat>, first: seq<nat>)
    ensures Tally(live, [], live, first, first)
  {
    assert first + [] == first;
  }

  lemma TallyIs(live: set<nat>, events: seq<NodeEvent>, was: set<nat>, reported: seq<nat>, first: seq<nat>)
    requires Tally(live, events, was, reported, first)
    ensures reported == first + ClosedIds(events)
    ensures forall i :: i in live || i in ClosedIds(events) <==> i in was
  {
  }

  lemma TallyOne(live: set<nat>, events: seq<NodeEvent>, was: set<nat>, reported: seq<nat>, first: seq<nat>, e: NodeEvent)
    requires Tally(live, events, was, reported, first) && ReportsClosed(e) && e.id in live
    ensures Tally(live - {e.id}, events + [e], was, reported + [e.id], first)
  {
    hide ClosedIds;
    ClosedSnoc(events, e);
    assert first + ClosedIds(events) + [e.id] == first + (ClosedIds(events) + [e.id]);
  }

  lemma TallyMore(live: set<nat>, live': set<nat>, events: seq<NodeEvent>, more: seq<NodeEvent>, was: set<nat>,
                  reported: seq<nat>, reported': seq<nat>, first: seq<nat>)
    requires Tally(live, events, was, reported, first) && reported' == reported + ClosedIds(more)
    requires forall i :: i in live' || i in ClosedIds(more) <==> i in live
    ensures Tally(live', events + more, was, reported', first)
  {
    hide ClosedIds;
    ClosedConcat(events, more);
    assert first + ClosedIds(events) + ClosedIds(more) == first + (ClosedIds(events) + ClosedIds(more));
  }

  lemma HolderOf<Y>(links: map<nat, LinkRecord<Y>>, tickets: set<nat>, t: nat)
    requires Matched(links, tickets) && t in tickets
    ensures exists id :: id in links && links[id].ticket == Some(t)
  {
    assert Holder(links, t);
  }

  lemma ExpiredKeys(g: L.Gate, now: u64)
    ensures var g' := L.ExpireSpec(g, now);
            && g.halfOpen.Keys == g'.halfOpen.Keys + L.Expired(g, now) && g'.halfOpen.Keys !! L.Expired(g, now)
            && FewerTickets(g'.halfOpen, g.halfOpen)
  {
    var g' := L.ExpireSpec(g, now);
    assert g'.halfOpen.Keys == g.halfOpen.Keys - L.Expired(g, now);
    assert |g'.halfOpen| == |g'.halfOpen.Keys| && |g.halfOpen| == |g.halfOpen.Keys|;
    assert g.halfOpen.Keys == g'.halfOpen.Keys + L.Expired(g, now);
  }

  /** Closed is reported last or not at all. */
  lemma DownOnce(es: seq<LinkEvent>)
    ensures NoClosed(es) ==> !WentDown(es)
    ensures es != [] && es[|es| - 1].Closed? ==> WentDown(es)
  {
  }

  lemma RoleStays<Y, V>(env: Env<Y, V>, d: Driver<Y>, store: V, call: Call)
    requires Usable(env) && Valid(d)
    ensures Do(env, d, store, call).d.initiator == d.initiator
    ensures d.phase.InTransport? ==> Do(env, d, store, call).d.phase.InTransport? || Do(env, d, store, call).d.phase.Ended?
  {
    hide Usable, Drain, SealFrame, EncodeMessage;
    if call.Bytes? && !d.phase.Ended? && Overdue(env.config, d, call.now).None? {
      BufferIsFree(d, d.buf + call.bytes);
      DrainForward(env, d.(buf := d.buf + call.bytes), store, NOTHING);
    }
  }

  lemma ProperOf<Y>(links: map<nat, LinkRecord<Y>>, id: nat)
    requires AllProper(links) && id in links
    ensures Proper(links[id]) && Valid(links[id].driver)
  {
  }

  /** An admission adds one ticket, a new one; a refusal adds none. */
  lemma AdmitTickets(cfg: L.Config, g: L.Gate, addr: L.Addr, now: u64)
    ensures var (g', ticket) := L.AdmitSpec(cfg, g, addr, now);
            && (ticket.None? ==> g'.halfOpen == g.halfOpen && g'.nextTicket == g.nextTicket)
            && (ticket.Some? ==>
                  && ticket.value == g.nextTicket && g'.nextTicket == g.nextTicket + 1
                  && g'.halfOpen.Keys == g.halfOpen.Keys + {g.nextTicket} && |g'.halfOpen| <= |g.halfOpen| + 1
                  && |g.halfOpen| < cfg.maxHalfOpen)
  {
    hide L.Refill, L.Collect;
    var more := g.halfOpen[g.nextTicket := L.Deadline(cfg, now)];
    assert more.Keys == g.halfOpen.Keys + {g.nextTicket};
    assert |more| == |more.Keys| && |g.halfOpen| == |g.halfOpen.Keys|;
  }
}
