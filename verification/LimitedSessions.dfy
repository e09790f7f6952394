/**
  Whole sessions under any frame limits (core/src/sync/negentropy/mod.rs): they
  always end, and unless an engine had to drop its answer to a fingerprint of no
  items they end with both halves of the difference.
 */
module LimitedSessions {
  import opened Base
  import opened Items
  import opened Bounds
  import opened Ranges
  import opened IdSums
  import opened Reconcile
  import opened Geometry
  import opened Exactness
  import opened Totality
  import opened Soundness
  import opened Descent
  import opened Sessions
  import opened Limits
  import opened Progress

  /** Who hears the message in flight, and who sent it. */
  function Hearer(a: Party, b: Party, w: Wire): Party
    requires w.Flight?
  {
    if w.toInitiator then a else b
  }

  function Speaker(a: Party, b: Party, w: Wire): Party
    requires w.Flight?
  {
    if w.toInitiator then b else a
  }

  /* ----- every session ends ----- */

  /** Deliveries after which every session is over. */
  function Rounds(a: Party, b: Party): nat {
    (|a.items| + |b.items| + 1) * (Budget(a, b) + 1) + 1
  }

  /** The message in flight is at most `d` deliveries away from silence. */
  ghost predicate ClosingFlight(a: Party, b: Party, w: Wire, rs: seq<Range>, d: int)
    requires Ready(a) && Ready(b)
  {
    SoundFlight(a, b, w, rs) && Closing(Hearer(a, b, w), Speaker(a, b, w).items, 0, rs, d)
  }

  ghost predicate ClosesWithin(a: Party, b: Party, w: Wire, d: int)
    requires Ready(a) && Ready(b)
  {
    exists rs :: ClosingFlight(a, b, w, rs, d)
  }

  lemma DeliverCloses(a: Party, b: Party, w: Wire, rs: seq<Range>, d: int)
    requires Pair(a, b) && ClosingFlight(a, b, w, rs, d + 1)
    ensures var st, w' := Process(Hearer(a, b, w), Start(), rs), Deliver(a, b, w);
            && (d < 0 && w.toInitiator ==> w'.Done?)
            && (!w'.Done? ==> ClosingFlight(a, b, w', st.out, d) && w'.toInitiator == !w.toInitiator)
  {
    hide Key, Pos, Process, AllEncodable, EncodeMessage, Deliver, Trusty, IdsFixItems, Closing, OnlyIn, Sorted, Storable;
    DeliverRanges(a, b, w, rs);
    FixBothWays(a.items, b.items);
    var p, peer := Hearer(a, b, w), Speaker(a, b, w);
    RoundSound(p, peer.items, rs);
    RoundMoves(p, peer, rs, d);
    if !w.toInitiator {
      ResponderLearnsNothing(b, rs);
    }
    assert OnlyIn(a.items, b.items, Deliver(a, b, w).have) && OnlyIn(b.items, a.items, Deliver(a, b, w).need) by {
      DeliverSound(a, b, w, rs);
      SoundWireReports(a, b, Deliver(a, b, w));
    }
  }

  lemma SoundWireReports(a: Party, b: Party, w: Wire)
    requires Ready(a) && Ready(b) && SoundWire(a, b, w)
    ensures !w.Failed? && OnlyIn(a.items, b.items, w.have) && OnlyIn(b.items, a.items, w.need)
  {
    hide OnlyIn, AllEncodable, Trusty;
  }

  lemma InitiateCloses(a: Party, b: Party)
    requires Pair(a, b)
    ensures ClosingFlight(a, b, After(a, b, 0), InitiateSpec(a), Rounds(a, b) - 2)
  {
    hide Key, Pos, AllEncodable, EncodeMessage, OnlyIn, Rank, SplitRange, IdsFixItems, Storable, RangeRank, FingerprintOf, Depth, Slice;
    InitiateTrusty(a, b);
    RankAtInfinity(a.items);
    RankAtInfinity(b.items);
    var rs := InitiateSpec(a);
    assert 0 < Pos(Infinity()) by { InfinityLast(); }
    SplitSolid(a, b.items, 0, Infinity());
    forall i | 0 <= i < |rs|
      ensures LoFrom(0, rs, i) <= Pos(rs[i].bound)
      ensures Toll(a.items, b.items, LoFrom(0, rs, i), RangeRank(a.items, b.items, b.initiator, LoFrom(0, rs, i), rs[i])) <= Rounds(a, b) - 2
    {
      var lo := LoFrom(0, rs, i);
      var rank := RangeRank(a.items, b.items, b.initiator, lo, rs[i]);
      RankBelowDeepest(a.items, b.items, b.initiator, lo, rs[i]);
      TollFalls(a.items, b.items, 0, lo, rank);
      Spread(|a.items| + |b.items|, Budget(a, b));
    }
  }

  lemma Spread(w: nat, d: nat)
    ensures (w + 1) * (d + 1) == w * (d + 1) + d + 1
  {
  }

  lemma InfinityLast()
    ensures 0 < Pos(Infinity())
  {
    PosZero();
    hide Key;
    KeyOrder(AsItem(FromTs(0)), AsItem(Infinity()));
  }

  lemma ClosingFlies(a: Party, b: Party, w: Wire, rs: seq<Range>, d: int)
    requires Ready(a) && Ready(b) && ClosingFlight(a, b, w, rs, d)
    ensures w.Flight?
  {
  }

  /** At every point the session is over or that much closer to the end. */
  lemma {:induction false} SessionCloses(a: Party, b: Party, n: nat)
    requires Pair(a, b)
    ensures var w := After(a, b, n);
            w.Done? || ClosesWithin(a, b, w, Rounds(a, b) - 2 - n)
  {
    hide ClosingFlight, Deliver, Process, InitiateSpec, IdsFixItems, Storable, Depth, Sorted, Rounds;
    if n == 0 {
      InitiateCloses(a, b);
    } else {
      SessionCloses(a, b, n - 1);
      var w, d := After(a, b, n - 1), Rounds(a, b) - 2 - n;
      if w.Done? {
        DeliverSettled(a, b, w);
      } else {
        var rs :| ClosingFlight(a, b, w, rs, d + 1);
        ClosingFlies(a, b, w, rs, d + 1);
        DeliverCloses(a, b, w, rs, d);
      }
    }
  }

  lemma RoundsEnough(a: Party, b: Party)
    ensures Rounds(a, b) >= 2
  {
    hide Depth;
    Spread(|a.items| + |b.items|, Budget(a, b));
    Times(|a.items| + |b.items|, 0, Budget(a, b));
  }

  /** The last two deliveries: a silent responder, then a silent initiator. */
  lemma SilenceEnds(a: Party, b: Party, w: Wire, rs: seq<Range>)
    requires Pair(a, b) && ClosingFlight(a, b, w, rs, 0)
    ensures Deliver(a, b, Deliver(a, b, w)).Done?
  {
    hide ClosingFlight, Deliver, Process, IdsFixItems, Storable, Depth, Sorted;
    ClosingFlies(a, b, w, rs, 0);
    DeliverCloses(a, b, w, rs, -1);
    var w' := Deliver(a, b, w);
    if w'.Done? {
      DeliverSettled(a, b, w');
    } else {
      var out := Process(Hearer(a, b, w), Start(), rs).out;
      ClosingFlies(a, b, w', out, -1);
      DeliverCloses(a, b, w', out, -2);
    }
  }

  lemma {:induction false} DoneStays(a: Party, b: Party, m: nat, n: nat)
    requires Ready(a) && Ready(b) && m <= n && After(a, b, m).Done?
    ensures After(a, b, n) == After(a, b, m)
    decreases n - m
  {
    if m < n {
      DoneStays(a, b, m, n - 1);
    }
  }

  /**
    Every session between two honest engines ends, whatever their frame limits
    and whatever their fingerprints: within as many deliveries as there are items
    on both sides, times the logarithmic depth of the split.
   */
  lemma LimitedSessionEnds(a: Party, b: Party, n: nat)
    requires Pair(a, b) && n >= Rounds(a, b)
    ensures After(a, b, n).Done?
  {
    hide ClosingFlight, Deliver, IdsFixItems, Storable, Depth, Sorted, Rounds;
    RoundsEnough(a, b);
    var m := Rounds(a, b) - 2;
    SessionCloses(a, b, m);
    var w := After(a, b, m);
    if w.Done? {
      DoneStays(a, b, m, n);
    } else {
      var rs :| ClosingFlight(a, b, w, rs, 0);
      SilenceEnds(a, b, w, rs);
      assert After(a, b, m + 1) == Deliver(a, b, w) && After(a, b, m + 2) == Deliver(a, b, Deliver(a, b, w));
      DoneStays(a, b, m + 2, n);
    }
  }

  /* ----- and, unless an answer to nothing is dropped, exactly ----- */

  /** Each item of `s` missing from `t` is named or still open. */
  ghost predicate Covered(s: seq<Item>, t: seq<Item>, rs: seq<Range>, ids: seq<Id>) {
    forall x :: x in s && x !in t ==> x.id in ids || Active(0, rs, Key(x))
  }

  ghost predicate FairFlight(a: Party, b: Party, w: Wire, rs: seq<Range>)
    requires Ready(a) && Ready(b)
  {
    && w.Flight? && w.msg == EncodeMessage(rs) && AllEncodable(0, rs)
    && Fair(a.hash, Speaker(a, b, w).items, Hearer(a, b, w).items, rs)
    && Covered(a.items, b.items, rs, w.have) && Covered(b.items, a.items, rs, w.need)
  }

  /** The ranges of a message, as its hearer reads them. */
  function Heard(msg: seq<byte>): seq<Range> {
    if msg == [] then [] else
    match DecodeRanges(0, msg[1..])
    case Ok(rs) => rs
    case Err(_) => []
  }

  lemma HeardEncoded(rs: seq<Range>)
    requires AllEncodable(0, rs)
    ensures Heard(EncodeMessage(rs)) == rs
  {
    hide AllEncodable, EncodeRanges, DecodeRanges;
    RangesRoundTrip(0, rs);
    assert EncodeMessage(rs)[1..] == EncodeRanges(0, rs);
  }

  /** At delivery `n` the hearer does not drop its answer to a fingerprint of no items. */
  ghost predicate SparesAt(a: Party, b: Party, n: nat)
    requires Ready(a) && Ready(b)
  {
    var w := After(a, b, n);
    w.Flight? ==> Spares(Hearer(a, b, w), Start(), Heard(w.msg))
  }

  lemma CoveredStep(s: seq<Item>, t: seq<Item>, rs: seq<Range>, out: seq<Range>, ids: seq<Id>, more: seq<Id>)
    requires Ordered(0, rs) && Covered(s, t, rs, ids) && Told(s, t, rs, out, End(0, rs), more)
    ensures Covered(s, t, out, ids + more)
  {
    hide Key, Pos, Active;
    forall x | x in s && x !in t && Active(0, rs, Key(x)) ensures x.id in more || Active(0, out, Key(x)) {
      ActiveBelowEnd(0, rs, Key(x));
      assert Active(0, out, Key(x)) || Closed(rs, out, End(0, rs), Key(x));
    }
  }

  lemma FairOrdered(hash: Hash, s: seq<Item>, t: seq<Item>, rs: seq<Range>)
    requires Sorted(s) && Sorted(t) && Fair(hash, s, t, rs)
    ensures Ordered(0, rs)
  {
    hide Key, Pos, FairPrints;
  }

  lemma DeliverFair(a: Party, b: Party, w: Wire, rs: seq<Range>)
    requires Pair(a, b) && Distinct(a.hash, a.items, b.items) && FairFlight(a, b, w, rs)
    requires Spares(Hearer(a, b, w), Start(), rs)
    ensures var w' := Deliver(a, b, w);
            && (w'.Done? ==> Covered(a.items, b.items, [], w'.have) && Covered(b.items, a.items, [], w'.need))
            && (!w'.Done? ==> FairFlight(a, b, w', Process(Hearer(a, b, w), Start(), rs).out))
  {
    hide Key, Pos, Process, AllEncodable, EncodeMessage, Deliver, IdsFixItems, Sorted, Storable, Covered, Told, Fair, Distinct, Spares, LoFrom;
    DeliverRanges(a, b, w, rs);
    FixBothWays(a.items, b.items);
    DistinctBothWays(a.hash, a.items, b.items);
    var p, peer := Hearer(a, b, w), Speaker(a, b, w);
    FairOrdered(a.hash, peer.items, p.items, rs);
    RoundCarries(p, peer.items, rs);
    var st := Process(p, Start(), rs);
    if w.toInitiator {
      CoveredStep(a.items, b.items, rs, st.out, w.have, st.have);
      CoveredStep(b.items, a.items, rs, st.out, w.need, st.need);
    } else {
      ResponderLearnsNothing(b, rs);
      CoveredStep(a.items, b.items, rs, st.out, w.have, st.need);
      CoveredStep(b.items, a.items, rs, st.out, w.need, st.have);
    }
  }

  lemma InitiateFair(a: Party, b: Party)
    requires Pair(a, b)
    ensures FairFlight(a, b, After(a, b, 0), InitiateSpec(a))
  {
    hide Key, Pos, SplitRange, EncodeMessage, Active, HonestFps, AllEncodable, Honest, Fair;
    var rs := InitiateSpec(a);
    InitiateCovers(a);
    InitiateSmall(a);
    HonestIsFair(a.hash, a.items, b.items, rs);
    forall x | x in a.items || x in b.items ensures Active(0, rs, Key(x)) {
      if x in a.items {
        StorableBelowInfinity(a.items, x);
      } else {
        StorableBelowInfinity(b.items, x);
      }
    }
  }

  /** Nothing is lost on the way: every difference is named or still being asked about. */
  lemma {:induction false} SessionCovers(a: Party, b: Party, n: nat)
    requires Pair(a, b) && Distinct(a.hash, a.items, b.items)
    requires forall m: nat :: m < n ==> SparesAt(a, b, m)
    ensures var w := After(a, b, n);
            if w.Done? then Covered(a.items, b.items, [], w.have) && Covered(b.items, a.items, [], w.need)
            else exists rs :: FairFlight(a, b, w, rs)
  {
    hide Deliver, Process, InitiateSpec, IdsFixItems, Storable, Sorted, Covered, Fair, Distinct, Spares, EncodeMessage, AllEncodable;
    if n == 0 {
      InitiateFair(a, b);
    } else {
      SessionCovers(a, b, n - 1);
      var w := After(a, b, n - 1);
      if w.Done? {
        DeliverSettled(a, b, w);
      } else {
        var rs :| FairFlight(a, b, w, rs);
        assert SparesAt(a, b, n - 1);
        HeardEncoded(rs);
        DeliverFair(a, b, w, rs);
      }
    }
  }

  /** The complete difference, as a set. */
  ghost predicate WholeDifference(s: seq<Item>, t: seq<Item>, ids: seq<Id>) {
    forall id :: id in ids <==> id in IdSet(s) && id !in IdSet(t)
  }

  lemma CoveredWhole(s: seq<Item>, t: seq<Item>, ids: seq<Id>)
    requires IdsFixItems(s, t) && Covered(s, t, [], ids) && OnlyIn(s, t, ids)
    ensures WholeDifference(s, t, ids)
  {
    hide Key;
    forall id | id in IdSet(s) && id !in IdSet(t) ensures id in ids {
      IdSetMember(s, id);
      var x :| x in s && x.id == id;
      HeldIffNamed(s, t, x);
    }
  }

  /**
    Reconciliation under any frame limits: a session in which no engine drops its
    answer to a fingerprint of no items ends with the initiator knowing exactly
    both halves of the difference.
   */
  lemma LimitedSessionExact(a: Party, b: Party, n: nat)
    requires Pair(a, b) && Distinct(a.hash, a.items, b.items)
    requires forall m: nat :: m < n ==> SparesAt(a, b, m)
    requires After(a, b, n).Done?
    ensures var w := After(a, b, n);
            WholeDifference(a.items, b.items, w.have) && WholeDifference(b.items, a.items, w.need)
  {
    hide After, IdsFixItems, Storable, Sorted, Covered, Distinct, SparesAt, WholeDifference, OnlyIn;
    SessionCovers(a, b, n);
    SessionSound(a, b, n);
    var w := After(a, b, n);
    FixBothWays(a.items, b.items);
    CoveredWhole(a.items, b.items, w.have);
    CoveredWhole(b.items, a.items, w.need);
  }

  /**
    When a session between these two ends exactly: without frame limits, if no
    common interval collides; with one, if no two stretches collide and no engine
    drops its answer to a fingerprint of no items.
   */
  ghost predicate Clean(a: Party, b: Party)
    requires Ready(a) && Ready(b)
  {
    if a.limit.None? && b.limit.None? then CollisionFree(a.hash, a.items, b.items)
    else Distinct(a.hash, a.items, b.items) && forall n: nat :: SparesAt(a, b, n)
  }

  lemma CleanSessionExact(a: Party, b: Party, n: nat)
    requires Pair(a, b) && Clean(a, b) && After(a, b, n).Done?
    ensures var w := After(a, b, n);
            WholeDifference(a.items, b.items, w.have) && WholeDifference(b.items, a.items, w.need)
  {
    hide After, IdsFixItems, Storable, Sorted, CollisionFree, Distinct, SparesAt, IdSet;
    if a.limit.None? && b.limit.None? {
      SessionProgress(a, b, n);
    } else {
      LimitedSessionExact(a, b, n);
    }
  }

  /** At every point the session has not failed, and it is over or not yet past the bound. */
  lemma SessionBounded(a: Party, b: Party, n: nat)
    requires Pair(a, b)
    ensures var w := After(a, b, n);
            && !w.Failed?
            && (w.Flight? ==> n < Rounds(a, b))
            && (w.Flight? && a.limit.None? && b.limit.None? && CollisionFree(a.hash, a.items, b.items) ==> n <= Budget(a, b) + 1)
  {
    hide After, IdsFixItems, Storable, Sorted, CollisionFree, Rounds, Budget, ExactDifference, OnlyIn;
    SessionSound(a, b, n);
    if n >= Rounds(a, b) {
      LimitedSessionEnds(a, b, n);
    }
    if a.limit.None? && b.limit.None? && CollisionFree(a.hash, a.items, b.items) {
      SessionProgress(a, b, n);
    }
  }
}
