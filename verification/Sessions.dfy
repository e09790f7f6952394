/**
  A whole reconciliation session: the initiator opens, messages alternate, and
  the initiator stops when it has nothing left to ask
  (core/src/sync/negentropy/mod.rs; the drivers are core/src/sync/session.rs).
 */
module Sessions {
  import opened Base
  import opened Items
  import opened Bounds
  import opened Ranges
  import opened IdSums
  import opened Reconcile
  import opened Geometry
  import opened Exactness
  import opened Totality
  import opened Soundness
  import opened Descent

  /** What is in flight, and what the initiator has learnt so far. */
  datatype Wire =
    | Flight(toInitiator: bool, msg: seq<byte>, have: seq<Id>, need: seq<Id>)
    | Done(have: seq<Id>, need: seq<Id>)
    | Failed

  /** Delivers the message in flight. */
  function Deliver(a: Party, b: Party, w: Wire): Wire
    requires Ready(a) && Ready(b)
  {
    if !w.Flight? then w
    else
      match ReconcileSpec(if w.toInitiator then a else b, w.msg)
      case Err(_) => Failed
      case Ok(Round(None, have, need)) => Done(w.have + have, w.need + need)
      case Ok(Round(Some(msg), have, need)) => Flight(!w.toInitiator, msg, w.have + have, w.need + need)
  }

  /** The session after `n` deliveries. */
  function After(a: Party, b: Party, n: nat): Wire
    requires Ready(a) && Ready(b)
  {
    if n == 0 then Flight(false, EncodeMessage(InitiateSpec(a)), [], [])
    else Deliver(a, b, After(a, b, n - 1))
  }

  /** No item carries the reserved sort key 2^64 - 1. */
  ghost predicate Storable(s: seq<Item>) {
    forall i :: 0 <= i < |s| ==> s[i].sortKey < TS_INFINITY
  }

  /** Two honest engines over sets in which an id names one item. */
  ghost predicate Pair(a: Party, b: Party) {
    && Ready(a) && Ready(b)
    && a.initiator && !b.initiator && a.hash == b.hash
    && IdsFixItems(a.items, b.items)
    && Storable(a.items) && Storable(b.items)
  }

  /** Both engines have no frame limit and fingerprints do not collide. */
  ghost predicate Unlimited(a: Party, b: Party)
    requires Sorted(a.items) && Sorted(b.items)
  {
    a.limit.None? && b.limit.None? && CollisionFree(a.hash, a.items, b.items)
  }

  lemma StorableBelowInfinity(s: seq<Item>, x: Item)
    requires Storable(s) && x in s
    ensures Key(x) < Pos(Infinity())
  {
    hide Key;
    KeyOrder(x, AsItem(Infinity()));
  }

  lemma InitiateCovers(a: Party)
    requires Ready(a) && Storable(a.items)
    ensures var rs := InitiateSpec(a);
            && Honest(a.hash, a.items, 0, rs) && Within(rs)
            && forall k: nat :: Active(0, rs, k) <==> k < Pos(Infinity())
  {
    hide Key, Pos, SplitRange, FingerprintOf, Slice;
    RankAtInfinity(a.items);
    SplitHonest(a, 0, |a.items|, Infinity(), 0);
    WithinConcat(0, [], InitiateSpec(a));
    assert [] + InitiateSpec(a) == InitiateSpec(a);
  }

  lemma {:induction false} ProcessSilent(p: Party, st: State, rs: seq<Range>)
    requires Ready(p) && !p.initiator && (!st.stopped ==> st.rank <= |p.items|)
    ensures Process(p, st, rs).have == st.have && Process(p, st, rs).need == st.need
    decreases |rs|
  {
    hide Key, Pos, FullLen, SplitRange, FingerprintOf;
    if !st.stopped && rs != [] {
      ProcessSilent(p, Step(p, st, rs[0]), rs[1..]);
    }
  }

  /** Only an initiator learns differences. */
  lemma ResponderLearnsNothing(p: Party, rs: seq<Range>)
    requires Ready(p) && !p.initiator
    ensures Process(p, Start(), rs).have == [] && Process(p, Start(), rs).need == []
  {
    ProcessSilent(p, Start(), rs);
  }

  /** The next message is encodable because the engine's output always is. */
  lemma ProcessEncodable(p: Party, rs: seq<Range>)
    requires Ready(p) && AllEncodable(0, rs)
    ensures AllEncodable(0, Process(p, Start(), rs).out)
    ensures ReconcileSpec(p, EncodeMessage(rs)) == Ok(Outcome(p, Process(p, Start(), rs)))
  {
    hide Key, Pos, Step, AllEncodable, EncodeRanges, ReconcileSpec, Process;
    StartDelivers(p);
    ProcessEncoded(p, Start(), 0, rs);
    ProcessBytesDelivers(p, Start(), EncodeRanges(0, rs));
    ReconcileEncoded(p, rs);
  }

  /** One delivery, in terms of the ranges the message carries. */
  lemma DeliverRanges(a: Party, b: Party, w: Wire, rs: seq<Range>)
    requires Pair(a, b) && w.Flight? && w.msg == EncodeMessage(rs) && AllEncodable(0, rs)
    ensures var p := if w.toInitiator then a else b;
            var st := Process(p, Start(), rs);
            && AllEncodable(0, st.out)
            && Deliver(a, b, w) ==
               if w.toInitiator && st.out == [] then Done(w.have + st.have, w.need + st.need)
               else Flight(!w.toInitiator, EncodeMessage(st.out), w.have + st.have, w.need + st.need)
  {
    hide Key, Pos, Process, AllEncodable, EncodeMessage, ReconcileSpec;
    ProcessEncodable(if w.toInitiator then a else b, rs);
  }

  /* ----- soundness under any frame limits ----- */

  ghost predicate SoundFlight(a: Party, b: Party, w: Wire, rs: seq<Range>)
    requires Ready(a) && Ready(b)
  {
    && w.Flight? && w.msg == EncodeMessage(rs) && AllEncodable(0, rs)
    && Trusty(if w.toInitiator then b.items else a.items, rs)
    && OnlyIn(a.items, b.items, w.have) && OnlyIn(b.items, a.items, w.need)
  }

  ghost predicate SoundWire(a: Party, b: Party, w: Wire)
    requires Ready(a) && Ready(b)
  {
    match w
    case Failed => false
    case Done(have, need) => OnlyIn(a.items, b.items, have) && OnlyIn(b.items, a.items, need)
    case Flight(_, _, _, _) => exists rs :: SoundFlight(a, b, w, rs)
  }

  lemma FixBothWays(s: seq<Item>, t: seq<Item>)
    requires IdsFixItems(s, t)
    ensures IdsFixItems(t, s)
  {
  }

  lemma DeliverSound(a: Party, b: Party, w: Wire, rs: seq<Range>)
    requires Pair(a, b) && SoundFlight(a, b, w, rs)
    ensures SoundWire(a, b, Deliver(a, b, w))
  {
    hide Key, Pos, Process, AllEncodable, EncodeMessage, Deliver, Trusty, IdsFixItems;
    var p, peer := if w.toInitiator then a else b, if w.toInitiator then b else a;
    DeliverRanges(a, b, w, rs);
    FixBothWays(a.items, b.items);
    RoundSound(p, peer.items, rs);
    var st, w' := Process(p, Start(), rs), Deliver(a, b, w);
    if !w.toInitiator {
      ResponderLearnsNothing(b, rs);
    }
    if w'.Flight? {
      assert SoundFlight(a, b, w', st.out);
    }
  }

  /**
    Soundness of every run: whatever the frame limits, no delivery fails, and
    every id ever reported is really held by one side and missing at the other.
   */
  lemma {:induction false} SessionSound(a: Party, b: Party, n: nat)
    requires Pair(a, b)
    ensures var w := After(a, b, n);
            && !w.Failed?
            && OnlyIn(a.items, b.items, w.have) && OnlyIn(b.items, a.items, w.need)
    ensures SoundWire(a, b, After(a, b, n))
  {
    hide Key, Pos, Deliver, AllEncodable, EncodeMessage, OnlyIn, Trusty, InitiateSpec;
    if n == 0 {
      InitiateTrusty(a, b);
    } else {
      SessionSound(a, b, n - 1);
      var w := After(a, b, n - 1);
      if w.Flight? {
        var rs :| SoundFlight(a, b, w, rs);
        DeliverSound(a, b, w, rs);
      } else {
        assert Deliver(a, b, w) == w by {
          DeliverSettled(a, b, w);
        }
      }
    }
  }

  lemma DeliverSettled(a: Party, b: Party, w: Wire)
    requires Ready(a) && Ready(b) && !w.Flight?
    ensures Deliver(a, b, w) == w
  {
  }

  lemma InitiateTrusty(a: Party, b: Party)
    requires Pair(a, b)
    ensures SoundFlight(a, b, After(a, b, 0), InitiateSpec(a))
  {
    hide Key, Pos, SplitRange, EncodeMessage, Slice;
    InitiateCovers(a);
    InitiateSmall(a);
  }

  /* ----- exactness and termination without frame limits ----- */

  /** `ids` names, once each, the items of `s` missing from `t` no longer worked on. */
  ghost predicate Tally(s: seq<Item>, t: seq<Item>, rs: seq<Range>, ids: seq<Id>) {
    && NoDup(ids)
    && (forall id :: id in ids ==> id in IdSet(s))
    && (forall x :: x in s ==> (x.id in ids <==> x !in t && !Active(0, rs, Key(x))))
  }

  lemma TallyStep(s: seq<Item>, t: seq<Item>, rs: seq<Range>, out: seq<Range>, ids: seq<Id>, more: seq<Id>)
    requires IdsFixItems(s, t) && Ordered(0, rs) && Tally(s, t, rs, ids)
    requires Reported(s, t, rs, out, End(0, rs), more)
    requires forall k: nat :: Active(0, out, k) ==> Active(0, rs, k)
    ensures Tally(s, t, out, ids + more)
  {
    hide Key, Pos, Active, IdSet;
    forall x | x in s && Active(0, rs, Key(x)) ensures Key(x) < End(0, rs) {
      ActiveBelowEnd(0, rs, Key(x));
    }
    forall id | id in more ensures id !in ids {
      IdSetMember(s, id);
      var x :| x in s && x.id == id;
      assert Closed(rs, out, End(0, rs), Key(x));
    }
    NoDupConcat(ids, more);
  }

  ghost predicate ExactFlight(a: Party, b: Party, w: Wire, rs: seq<Range>, d: nat)
    requires Ready(a) && Ready(b)
  {
    && w.Flight? && w.msg == EncodeMessage(rs) && AllEncodable(0, rs)
    && Honest(a.hash, if w.toInitiator then b.items else a.items, 0, rs)
    && RankAtMost(a.items, b.items, w.toInitiator, 0, rs, d)
    && Tally(a.items, b.items, rs, w.have) && Tally(b.items, a.items, rs, w.need)
  }

  /** The complete difference, each id once. */
  ghost predicate ExactDifference(s: seq<Item>, t: seq<Item>, ids: seq<Id>) {
    NoDup(ids) && forall id :: id in ids <==> id in IdSet(s) && id !in IdSet(t)
  }

  lemma TallyEmpty(s: seq<Item>, t: seq<Item>, ids: seq<Id>)
    requires IdsFixItems(s, t) && Tally(s, t, [], ids)
    ensures ExactDifference(s, t, ids)
  {
    hide Key;
    forall id ensures id in ids <==> id in IdSet(s) && id !in IdSet(t) {
      if id in IdSet(s) {
        IdSetMember(s, id);
        var x :| x in s && x.id == id;
        HeldIffNamed(s, t, x);
      }
    }
  }

  lemma HeldIffNamed(s: seq<Item>, t: seq<Item>, x: Item)
    requires IdsFixItems(s, t) && x in s
    ensures x in t <==> x.id in IdSet(t)
  {
    if x.id in IdSet(t) {
      IdSetMember(t, x.id);
    }
  }

  lemma RankBothWays(s: seq<Item>, t: seq<Item>, toInitiator: bool, rs: seq<Range>, d: nat)
    requires Sorted(s) && Sorted(t) && Ordered(0, rs) && RankAtMost(s, t, toInitiator, 0, rs, d)
    ensures RankAtMost(t, s, toInitiator, 0, rs, d)
  {
    hide Key, Pos, Slice, Depth;
    forall i | 0 <= i < |rs| ensures RangeRank(t, s, toInitiator, LoFrom(0, rs, i), rs[i]) <= d {
      assert RangeRank(s, t, toInitiator, LoFrom(0, rs, i), rs[i]) <= d;
    }
  }

  lemma CollisionBothWays(hash: Hash, s: seq<Item>, t: seq<Item>)
    requires Sorted(s) && Sorted(t) && CollisionFree(hash, s, t)
    ensures CollisionFree(hash, t, s)
  {
    hide Slice, FingerprintOf;
  }

  /** The hearer's round keeps the tally exact and gets closer to the end. */
  lemma RoundAdvances(p: Party, peer: Party, rs: seq<Range>, d: nat)
    requires Ready(p) && Ready(peer) && p.limit.None? && p.hash == peer.hash
    requires IdsFixItems(p.items, peer.items) && CollisionFree(p.hash, p.items, peer.items)
    requires Honest(p.hash, peer.items, 0, rs) && RankAtMost(p.items, peer.items, p.initiator, 0, rs, d)
    ensures var st := Process(p, Start(), rs);
            && Honest(p.hash, p.items, 0, st.out)
            && RankAtMost(p.items, peer.items, !p.initiator, 0, st.out, if d == 0 then 0 else d - 1)
            && (d == 0 ==> st.out == [])
            && (forall k: nat :: Active(0, st.out, k) ==> Active(0, rs, k))
            && Reported(p.items, peer.items, rs, st.out, End(0, rs), st.have)
            && Reported(peer.items, p.items, rs, st.out, End(0, rs), st.need)
  {
    hide Key, Pos, Process, CollisionFree, Reported, RankAtMost, Active, HonestFps;
    RoundExact(p, peer.items, rs);
    RoundRank(p, peer.items, rs, d);
  }

  lemma DeliverToInitiator(a: Party, b: Party, w: Wire, rs: seq<Range>, d: nat)
    requires Pair(a, b) && Unlimited(a, b) && ExactFlight(a, b, w, rs, d) && w.toInitiator
    ensures var st, w' := Process(a, Start(), rs), Deliver(a, b, w);
            if st.out == [] then
              w'.Done? && ExactDifference(a.items, b.items, w'.have) && ExactDifference(b.items, a.items, w'.need)
            else d > 0 && ExactFlight(a, b, w', st.out, d - 1)
  {
    hide Key, Pos, Process, CollisionFree, Reported, RankAtMost, Active, HonestFps, AllEncodable, EncodeMessage, Tally, Deliver;
    DeliverRanges(a, b, w, rs);
    RoundAdvances(a, b, rs, d);
    var st := Process(a, Start(), rs);
    FixBothWays(a.items, b.items);
    TallyStep(a.items, b.items, rs, st.out, w.have, st.have);
    TallyStep(b.items, a.items, rs, st.out, w.need, st.need);
    if st.out == [] {
      TallyEmpty(a.items, b.items, w.have + st.have);
      TallyEmpty(b.items, a.items, w.need + st.need);
    }
  }

  lemma DeliverToResponder(a: Party, b: Party, w: Wire, rs: seq<Range>, d: nat)
    requires Pair(a, b) && Unlimited(a, b) && ExactFlight(a, b, w, rs, d) && !w.toInitiator
    ensures ExactFlight(a, b, Deliver(a, b, w), Process(b, Start(), rs).out, if d == 0 then 0 else d - 1)
  {
    hide Key, Pos, Process, CollisionFree, Reported, RankAtMost, Active, HonestFps, AllEncodable, EncodeMessage, Tally, Deliver;
    DeliverRanges(a, b, w, rs);
    FixBothWays(a.items, b.items);
    CollisionBothWays(a.hash, a.items, b.items);
    RankBothWays(a.items, b.items, false, rs, d);
    RoundAdvances(b, a, rs, d);
    var st := Process(b, Start(), rs);
    RankBothWays(b.items, a.items, true, st.out, if d == 0 then 0 else d - 1);
    TallyStep(a.items, b.items, rs, st.out, w.have, st.need);
    TallyStep(b.items, a.items, rs, st.out, w.need, st.have);
    ResponderLearnsNothing(b, rs);
  }

  /** Distance of the opening message from the end. */
  function Budget(a: Party, b: Party): nat {
    3 + Depth(|a.items|) + Depth(|b.items|)
  }

  lemma InitiateExact(a: Party, b: Party)
    requires Pair(a, b)
    ensures ExactFlight(a, b, After(a, b, 0), InitiateSpec(a), Budget(a, b))
  {
    hide Key, Pos, SplitRange, EncodeMessage, Active, RankAtMost, HonestFps, AllEncodable;
    var rs := InitiateSpec(a);
    InitiateCovers(a);
    InitiateSmall(a);
    InitiateRank(a, b);
    forall x | x in a.items || x in b.items ensures Active(0, rs, Key(x)) {
      if x in a.items {
        StorableBelowInfinity(a.items, x);
      } else {
        StorableBelowInfinity(b.items, x);
      }
    }
  }

  lemma RankWeaken(s: seq<Item>, t: seq<Item>, toInitiator: bool, rs: seq<Range>, d: nat, d': nat)
    requires Sorted(s) && Sorted(t) && Ordered(0, rs) && RankAtMost(s, t, toInitiator, 0, rs, d) && d <= d'
    ensures RankAtMost(s, t, toInitiator, 0, rs, d')
  {
    hide Key, Pos, RangeRank;
  }

  /** Every storable item lies before infinity. */
  lemma RankAtInfinity(s: seq<Item>)
    requires Sorted(s) && Storable(s)
    ensures Rank(s, 0) == 0 && Rank(s, Pos(Infinity())) == |s|
  {
    hide Key, Pos;
    RankUnique(s, 0, 0);
    if s != [] {
      StorableBelowInfinity(s, s[|s| - 1]);
    }
    RankUnique(s, Pos(Infinity()), |s|);
  }

  lemma InitiateRank(a: Party, b: Party)
    requires Pair(a, b)
    ensures Ordered(0, InitiateSpec(a))
    ensures RankAtMost(a.items, b.items, false, 0, InitiateSpec(a), Budget(a, b))
  {
    hide Key, Pos, SplitRange, Depth, RankAtMost, LowerBoundAt, IdsFixItems, Storable, Ordered;
    RankAtInfinity(a.items);
    RankAtInfinity(b.items);
    SplitRank(a, b.items, 0, Infinity(), false);
    RankWeaken(a.items, b.items, false, InitiateSpec(a), Budget(a, b) - 1, Budget(a, b));
  }

  /** The session is over and the initiator knows the difference. */
  ghost predicate Settled(a: Party, b: Party, w: Wire) {
    w.Done? && ExactDifference(a.items, b.items, w.have) && ExactDifference(b.items, a.items, w.need)
  }

  /** The session is exact so far and at most `d` replies from the end. */
  ghost predicate Underway(a: Party, b: Party, w: Wire, d: nat)
    requires Ready(a) && Ready(b)
  {
    exists rs :: ExactFlight(a, b, w, rs, d)
  }

  lemma DeliverAdvances(a: Party, b: Party, w: Wire, d: nat)
    requires Pair(a, b) && Unlimited(a, b) && Underway(a, b, w, d)
    ensures var w' := Deliver(a, b, w);
            || Settled(a, b, w')
            || (Underway(a, b, w', if d == 0 then 0 else d - 1) && (d == 0 ==> w'.Flight? && w'.toInitiator && !w.toInitiator))
  {
    hide Key, Pos, Deliver, ExactFlight, ExactDifference, Process;
    var rs :| ExactFlight(a, b, w, rs, d);
    FlightIs(a, b, w, rs, d);
    if w.toInitiator {
      DeliverToInitiator(a, b, w, rs, d);
    } else {
      DeliverToResponder(a, b, w, rs, d);
      FlightIs(a, b, Deliver(a, b, w), Process(b, Start(), rs).out, if d == 0 then 0 else d - 1);
      DeliverFlips(a, b, w);
    }
  }

  /** Progress at every delivery: settled exactly, or one step closer. */
  lemma {:induction false} SessionInvariant(a: Party, b: Party, n: nat)
    requires Pair(a, b) && Unlimited(a, b)
    ensures var w := After(a, b, n);
            || Settled(a, b, w)
            || (n <= Budget(a, b) && Underway(a, b, w, Budget(a, b) - n))
            || (n == Budget(a, b) + 1 && Underway(a, b, w, 0) && w.Flight? && w.toInitiator)
  {
    hide Key, Pos, Deliver, Underway, Settled, InitiateSpec, Sorted, IdsFixItems, Storable, CollisionFree, Depth;
    if n == 0 {
      InitiateExact(a, b);
      UnderwayBy(a, b, After(a, b, 0), InitiateSpec(a), Budget(a, b));
    } else {
      SessionInvariant(a, b, n - 1);
      var w := After(a, b, n - 1);
      if Settled(a, b, w) {
        SettledStays(a, b, w);
      } else {
        DeliverAdvances(a, b, w, if n - 1 <= Budget(a, b) then Budget(a, b) - (n - 1) else 0);
      }
    }
  }

  lemma SettledStays(a: Party, b: Party, w: Wire)
    requires Ready(a) && Ready(b) && Settled(a, b, w)
    ensures Deliver(a, b, w) == w
  {
  }

  lemma UnderwayBy(a: Party, b: Party, w: Wire, rs: seq<Range>, d: nat)
    requires Ready(a) && Ready(b) && ExactFlight(a, b, w, rs, d)
    ensures Underway(a, b, w, d)
  {
  }

  lemma FlightIs(a: Party, b: Party, w: Wire, rs: seq<Range>, d: nat)
    requires Ready(a) && Ready(b) && ExactFlight(a, b, w, rs, d)
    ensures w.Flight?
  {
  }

  lemma DeliverFlips(a: Party, b: Party, w: Wire)
    requires Ready(a) && Ready(b) && w.Flight? && Deliver(a, b, w).Flight?
    ensures Deliver(a, b, w).toInitiator == !w.toInitiator
  {
    hide ReconcileSpec;
  }

  lemma UnderwayFlies(a: Party, b: Party, w: Wire, d: nat)
    requires Ready(a) && Ready(b) && Underway(a, b, w, d)
    ensures w.Flight?
  {
    hide ExactFlight;
    var rs :| ExactFlight(a, b, w, rs, d);
    FlightIs(a, b, w, rs, d);
  }

  /** At any point: exact and over, or in flight with few deliveries behind it. */
  lemma SessionProgress(a: Party, b: Party, n: nat)
    requires Pair(a, b) && Unlimited(a, b)
    ensures var w := After(a, b, n);
            if w.Done? then Settled(a, b, w) else w.Flight? && n <= Budget(a, b) + 1
  {
    hide Underway, After, Depth, Sorted, IdsFixItems, Storable, CollisionFree, ExactDifference;
    SessionInvariant(a, b, n);
    var w := After(a, b, n);
    if !Settled(a, b, w) {
      UnderwayFlies(a, b, w, if n <= Budget(a, b) then Budget(a, b) - n else 0);
    }
  }

  /**
    The reconciliation theorem: without frame limits every session between two
    honest engines ends, after at most logarithmically many deliveries, and the
    initiator has then learnt exactly both halves of the difference, each id once.
   */
  lemma SessionExact(a: Party, b: Party)
    requires Pair(a, b) && Unlimited(a, b)
    ensures var w := After(a, b, Budget(a, b) + 2);
            && w.Done?
            && ExactDifference(a.items, b.items, w.have)
            && ExactDifference(b.items, a.items, w.need)
  {
    hide After, Depth, Sorted, IdsFixItems, Storable, CollisionFree, ExactDifference;
    SessionProgress(a, b, Budget(a, b) + 2);
  }
}
