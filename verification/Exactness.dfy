/**
  One unlimited round, seen by both peers: what the round reports is exactly the
  difference it stops working on (core/src/sync/negentropy/mod.rs).
 */
module Exactness {
  import opened Base
  import opened Items
  import opened Bounds
  import opened Ranges
  import opened IdSums
  import opened Reconcile
  import opened Geometry

  /** The output so far ends at, or skips up to, the processed position. */
  ghost predicate Placed(p: Party, st: State)
    requires Sorted(p.items)
  {
    && !st.stopped
    && st.rank == Rank(p.items, Pos(st.bound))
    && Ordered(0, st.out)
    && End(0, st.out) <= Pos(st.bound)
    && (!st.skip ==> End(0, st.out) == Pos(st.bound))
  }

  lemma PlacedStart(p: Party)
    requires Sorted(p.items)
    ensures Placed(p, Start()) && Pos(Start().bound) == 0
  {
    PosZero();
    hide Key, Pos;
    RankUnique(p.items, 0, 0);
  }

  /** Flushing the pending Skip brings the output up to the processed position. */
  lemma FlushPlaces(p: Party, st: State)
    requires Sorted(p.items) && Placed(p, st)
    ensures var out := st.out + Flush(st);
            && Ordered(0, out)
            && End(0, out) == Pos(st.bound)
            && (forall k: nat :: Active(0, out, k) <==> Active(0, st.out, k))
            && (HonestIds(p.items, 0, st.out) ==> HonestIds(p.items, 0, out))
            && (Honest(p.hash, p.items, 0, st.out) ==> Honest(p.hash, p.items, 0, out))
  {
    hide Key, Pos, Rank;
    var f := Flush(st);
    var lo := End(0, st.out);
    if st.skip {
      assert LoFrom(lo, f, 0) == lo;
      OrderedConcat(0, st.out, f);
      ConcatLo(0, st.out, f);
      assert HonestIds(p.items, lo, f) && Honest(p.hash, p.items, lo, f);
      if HonestIds(p.items, 0, st.out) {
        HonestIdsConcat(p.items, 0, st.out, f);
      }
      if Honest(p.hash, p.items, 0, st.out) {
        HonestConcat(p.hash, p.items, 0, st.out, f);
      }
      forall k: nat ensures Active(0, st.out + f, k) <==> Active(0, st.out, k) {
        ActiveConcat(0, st.out, f, k);
        assert f[0].payload.Skip?;
      }
    } else {
      assert st.out + f == st.out;
    }
  }

  /** A reply that covers `[Pos(st.bound), hi)` extends the output by exactly that. */
  lemma ReplyExtends(p: Party, st: State, o: seq<Range>, hi: nat)
    requires Sorted(p.items) && Placed(p, st) && Honest(p.hash, p.items, 0, st.out)
    requires Honest(p.hash, p.items, Pos(st.bound), o) && End(Pos(st.bound), o) == hi
    requires forall k: nat :: Active(Pos(st.bound), o, k) <==> Pos(st.bound) <= k < hi
    ensures var out := st.out + (Flush(st) + o);
            && Honest(p.hash, p.items, 0, out)
            && End(0, out) == hi
            && forall k: nat :: Active(0, out, k) <==> Active(0, st.out, k) || Pos(st.bound) <= k < hi
  {
    hide Key, Pos, Rank, Slice, FingerprintOf, Flush;
    FlushPlaces(p, st);
    var front := st.out + Flush(st);
    assert st.out + (Flush(st) + o) == front + o;
    HonestConcat(p.hash, p.items, 0, front, o);
    ConcatLo(0, front, o);
    forall k: nat ensures Active(0, front + o, k) <==> Active(0, st.out, k) || Pos(st.bound) <= k < hi {
      ActiveConcat(0, front, o, k);
    }
  }

  /** Whether the engine has an answer to a range that starts at `lo`. */
  ghost predicate Answers(p: Party, lo: nat, r: Range)
    requires Sorted(p.items) && lo <= Pos(r.bound)
  {
    match r.payload
    case Skip => false
    case Fingerprint(fp) => fp != FingerprintOf(p.hash, Slice(p.items, lo, Pos(r.bound)))
    case IdList(_) => !p.initiator
  }

  ghost predicate Replies(p: Party, st: State, r: Range)
    requires Sorted(p.items) && Pos(st.bound) <= Pos(r.bound)
  {
    Answers(p, Pos(st.bound), r)
  }

  /** The ranges it answers with. */
  ghost function Reply(p: Party, st: State, r: Range): seq<Range>
    requires Sorted(p.items) && Pos(st.bound) <= Pos(r.bound) && Replies(p, st, r)
  {
    RankMonotone(p.items, Pos(st.bound), Pos(r.bound));
    if r.payload.IdList? then [Range(r.bound, IdList(IdsOf(Slice(p.items, Pos(st.bound), Pos(r.bound)))))]
    else SplitRange(p, Rank(p.items, Pos(st.bound)), Rank(p.items, Pos(r.bound)), r.bound)
  }

  /** Without a frame limit a step either answers the range or skips it. */
  lemma StepShape(p: Party, st: State, r: Range)
    requires Ready(p) && p.limit.None? && Placed(p, st) && Pos(st.bound) <= Pos(r.bound)
    ensures var st' := Step(p, st, r);
            && !st'.stopped && st'.bound == r.bound && st'.rank == Rank(p.items, Pos(r.bound))
            && st'.skip == !Replies(p, st, r)
            && st'.out == (if Replies(p, st, r) then st.out + (Flush(st) + Reply(p, st, r)) else st.out)
            && (if p.initiator && r.payload.IdList? then
                  var ours := Slice(p.items, Pos(st.bound), Pos(r.bound));
                  && st'.have == st.have + Unmatched(ours, set i | 0 <= i < |r.payload.ids| :: r.payload.ids[i])
                  && st'.need == st.need + Without(Dedup(r.payload.ids), IdSet(ours))
                else st'.have == st.have && st'.need == st.need)
  {
    hide Key, Pos, FingerprintOf, SplitRange, EncodeRanges, Unmatched, Without, Dedup, IdSet;
    LowerBoundIsRank(p.items, Pos(st.bound), r.bound);
    if r.payload.IdList? && !p.initiator {
      var ours := p.items[st.rank..Rank(p.items, Pos(r.bound))];
      assert Fit(p.limit, FullLen(st.out), 0, |ours|) == |ours|;
      assert ours[..|ours|] == ours;
    }
  }

  /** The reply is honest and covers exactly the range it answers. */
  lemma ReplyHonest(p: Party, st: State, r: Range)
    requires Ready(p) && Placed(p, st) && Pos(st.bound) <= Pos(r.bound) && Replies(p, st, r)
    ensures var o := Reply(p, st, r);
            && Honest(p.hash, p.items, Pos(st.bound), o)
            && End(Pos(st.bound), o) == Pos(r.bound)
            && forall k: nat :: Active(Pos(st.bound), o, k) <==> Pos(st.bound) <= k < Pos(r.bound)
  {
    hide Key, Pos, SplitRange, FingerprintOf;
    var lo, o := Pos(st.bound), Reply(p, st, r);
    RankMonotone(p.items, lo, Pos(r.bound));
    if r.payload.IdList? {
      assert LoFrom(lo, o, 0) == lo;
    } else {
      SplitHonest(p, Rank(p.items, lo), Rank(p.items, Pos(r.bound)), r.bound, lo);
    }
  }

  lemma StepKeeps(p: Party, st: State, r: Range)
    requires Ready(p) && p.limit.None? && Placed(p, st) && Honest(p.hash, p.items, 0, st.out)
    requires Pos(st.bound) <= Pos(r.bound)
    ensures var st' := Step(p, st, r);
            && Placed(p, st') && Honest(p.hash, p.items, 0, st'.out)
            && forall k: nat :: Active(0, st'.out, k) <==>
                                Active(0, st.out, k) || (Replies(p, st, r) && Pos(st.bound) <= k < Pos(r.bound))
  {
    hide Key, Pos, Step, Rank, Slice, Reply;
    StepShape(p, st, r);
    if Replies(p, st, r) {
      ReplyHonest(p, st, r);
      ReplyExtends(p, st, Reply(p, st, r), Pos(r.bound));
    }
  }

  /** An id names one item, whichever side holds it. */
  ghost predicate IdsFixItems(s: seq<Item>, t: seq<Item>) {
    forall x, y :: (x in s || x in t) && (y in s || y in t) && x.id == y.id ==> x == y
  }

  /** Fingerprints tell the two sides' items apart on every common interval. */
  ghost predicate CollisionFree(hash: Hash, s: seq<Item>, t: seq<Item>)
    requires Sorted(s) && Sorted(t)
  {
    forall lo: nat, hi: nat :: lo <= hi
      && FingerprintOf(hash, Slice(s, lo, hi)) == FingerprintOf(hash, Slice(t, lo, hi))
      ==> Slice(s, lo, hi) == Slice(t, lo, hi)
  }

  /** Position `k` was being worked on and, up to `upto`, no longer is. */
  ghost predicate Closed(rs: seq<Range>, out: seq<Range>, upto: nat, k: nat) {
    k < upto && Active(0, rs, k) && !Active(0, out, k)
  }

  /** `ids` names, once each, the items of `s` missing from `t` that were closed. */
  ghost predicate Reported(s: seq<Item>, t: seq<Item>, rs: seq<Range>, out: seq<Range>, upto: nat, ids: seq<Id>) {
    && NoDup(ids)
    && (forall id :: id in ids ==> id in IdSet(s))
    && (forall x :: x in s ==> (x.id in ids <==> x !in t && Closed(rs, out, upto, Key(x))))
  }

  /** What one more range must add to keep the report exact. */
  ghost predicate Adds(s: seq<Item>, t: seq<Item>, lo: nat, hi: nat, closing: bool, added: seq<Id>)
    requires Sorted(s) && lo <= hi
  {
    && NoDup(added)
    && (forall id :: id in added ==> id in IdSet(Slice(s, lo, hi)))
    && (forall x :: x in Slice(s, lo, hi) ==> (x.id in added <==> x !in t && closing))
  }

  lemma ReportedStep(s: seq<Item>, t: seq<Item>, rs: seq<Range>, i: nat, out: seq<Range>, out': seq<Range>,
                     replies: bool, ids: seq<Id>, added: seq<Id>)
    requires Sorted(s) && IdsFixItems(s, t) && Ordered(0, rs) && i < |rs|
    requires Reported(s, t, rs, out, LoFrom(0, rs, i), ids)
    requires forall k: nat :: Active(0, out, k) ==> k < LoFrom(0, rs, i)
    requires forall k: nat :: Active(0, out', k) <==>
                              Active(0, out, k) || (replies && LoFrom(0, rs, i) <= k < Pos(rs[i].bound))
    requires Adds(s, t, LoFrom(0, rs, i), Pos(rs[i].bound), !replies && !rs[i].payload.Skip?, added)
    ensures Reported(s, t, rs, out', Pos(rs[i].bound), ids + added)
  {
    hide Key, Pos, Active, Slice;
    var lo, hi := LoFrom(0, rs, i), Pos(rs[i].bound);
    forall x | x in s
      ensures x.id in added <==> x !in t && lo <= Key(x) < hi && !replies && !rs[i].payload.Skip?
    {
      SliceMembers(s, lo, hi, x);
      if x.id in added {
        IdSetMember(Slice(s, lo, hi), x.id);
        var y :| y in Slice(s, lo, hi) && y.id == x.id;
        SliceMembers(s, lo, hi, y);
      }
    }
    forall x | x in s && lo <= Key(x) < hi ensures Active(0, rs, Key(x)) <==> !rs[i].payload.Skip? {
      ActiveInside(0, rs, i, Key(x));
    }
    forall id | id in added ensures id in IdSet(s) && id !in ids {
      IdSetMember(Slice(s, lo, hi), id);
      var y :| y in Slice(s, lo, hi) && y.id == id;
      SliceMembers(s, lo, hi, y);
      MemberIdSet(s, y);
    }
    NoDupConcat(ids, added);
  }

  lemma NoDupConcat<T>(a: seq<T>, b: seq<T>)
    requires NoDup(a) && NoDup(b) && forall x :: x in b ==> x !in a
    ensures NoDup(a + b)
  {
    forall i, j | 0 <= i < j < |a + b| ensures (a + b)[i] != (a + b)[j] {
      if i < |a| <= j {
        assert b[j - |a|] in b;
      }
    }
  }

  lemma IdSetMember(s: seq<Item>, id: Id)
    requires id in IdSet(s)
    ensures exists y :: y in s && y.id == id
  {
    var i :| 0 <= i < |s| && s[i].id == id;
    assert s[i] in s;
  }

  lemma MemberIdSet(s: seq<Item>, x: Item)
    requires x in s
    ensures x.id in IdSet(s)
  {
  }

  lemma {:induction false} UnmatchedSpec(items: seq<Item>, theirs: set<Id>)
    requires NoDup(IdsOf(items))
    ensures NoDup(Unmatched(items, theirs))
    ensures forall id :: id in Unmatched(items, theirs) <==> id in IdSet(items) && id !in theirs
    decreases |items|
  {
    if items != [] {
      var x, rest := items[0], items[1..];
      assert NoDup(IdsOf(rest)) by {
        forall i, j | 0 <= i < j < |rest| ensures IdsOf(rest)[i] != IdsOf(rest)[j] {
          assert IdsOf(items)[i + 1] != IdsOf(items)[j + 1];
        }
      }
      assert IdSet(items) == {x.id} + IdSet(rest) by {
        assert forall i :: 0 < i < |items| ==> items[i] == rest[i - 1];
        assert forall i :: 0 <= i < |rest| ==> rest[i] == items[i + 1];
      }
      assert x.id !in IdSet(rest) by {
        forall i | 0 <= i < |rest| ensures rest[i].id != x.id {
          assert IdsOf(items)[0] != IdsOf(items)[i + 1];
        }
      }
      if x.id in theirs {
        UnmatchedSpec(rest, theirs - {x.id});
      } else {
        UnmatchedSpec(rest, theirs);
        NoDupConcat([x.id], Unmatched(rest, theirs));
      }
    }
  }

  lemma {:induction false} DedupSpec(ids: seq<Id>)
    ensures NoDup(Dedup(ids))
    ensures forall id :: id in Dedup(ids) <==> id in ids
  {
    if ids != [] {
      var n := |ids| - 1;
      DedupSpec(ids[..n]);
      assert ids == ids[..n] + [ids[n]];
      if ids[n] !in Dedup(ids[..n]) {
        NoDupConcat(Dedup(ids[..n]), [ids[n]]);
      }
    }
  }

  lemma {:induction false} WithoutSpec(ids: seq<Id>, gone: set<Id>)
    requires NoDup(ids)
    ensures NoDup(Without(ids, gone))
    ensures forall id :: id in Without(ids, gone) <==> id in ids && id !in gone
  {
    if ids != [] {
      var n := |ids| - 1;
      WithoutSpec(ids[..n], gone);
      assert ids == ids[..n] + [ids[n]];
      if ids[n] !in gone {
        NoDupConcat(Without(ids[..n], gone), [ids[n]]);
      }
    }
  }

  lemma SliceIdsDistinct(s: seq<Item>, t: seq<Item>, lo: nat, hi: nat)
    requires Sorted(s) && IdsFixItems(s, t) && lo <= hi
    ensures NoDup(IdsOf(Slice(s, lo, hi)))
  {
    hide Key, Rank;
    var c := Slice(s, lo, hi);
    RankMonotone(s, lo, hi);
    forall i, j | 0 <= i < j < |c| ensures c[i].id != c[j].id {
      assert c[i] == s[Rank(s, lo) + i] && c[j] == s[Rank(s, lo) + j];
      assert Key(c[i]) < Key(c[j]);
    }
  }

  /** An item of ours at these positions is the peer's iff the peer lists its id. */
  lemma ListedIffHeld(s: seq<Item>, t: seq<Item>, lo: nat, hi: nat, x: Item)
    requires Sorted(s) && Sorted(t) && IdsFixItems(s, t) && lo <= hi && x in Slice(s, lo, hi)
    ensures x.id in IdSet(Slice(t, lo, hi)) <==> x in t
  {
    hide Key, Slice;
    SliceMembers(s, lo, hi, x);
    if x in t {
      SliceMembers(t, lo, hi, x);
      MemberIdSet(Slice(t, lo, hi), x);
    }
    if x.id in IdSet(Slice(t, lo, hi)) {
      IdSetMember(Slice(t, lo, hi), x.id);
      var y :| y in Slice(t, lo, hi) && y.id == x.id;
      SliceMembers(t, lo, hi, y);
    }
  }

  /** Comparing two honest id lists reports both halves of the difference. */
  lemma ListsAdd(s: seq<Item>, t: seq<Item>, lo: nat, hi: nat)
    requires Sorted(s) && Sorted(t) && IdsFixItems(s, t) && lo <= hi
    ensures var ours, theirs := Slice(s, lo, hi), IdsOf(Slice(t, lo, hi));
            && Adds(s, t, lo, hi, true, Unmatched(ours, set i | 0 <= i < |theirs| :: theirs[i]))
            && Adds(t, s, lo, hi, true, Without(Dedup(theirs), IdSet(ours)))
  {
    hide Key, Slice, Unmatched, Without, Dedup;
    var ours, theirs := Slice(s, lo, hi), IdsOf(Slice(t, lo, hi));
    var listed := set i | 0 <= i < |theirs| :: theirs[i];
    assert listed == IdSet(Slice(t, lo, hi));
    SliceIdsDistinct(s, t, lo, hi);
    UnmatchedSpec(ours, listed);
    DedupSpec(theirs);
    WithoutSpec(Dedup(theirs), IdSet(ours));
    forall id ensures id in theirs <==> id in listed {
    }
    forall x | x in ours ensures (x.id in listed <==> x in t) && x.id in IdSet(ours) {
      ListedIffHeld(s, t, lo, hi, x);
      MemberIdSet(ours, x);
    }
    forall y | y in Slice(t, lo, hi) ensures (y.id in IdSet(ours) <==> y in s) && y.id in listed {
      ListedIffHeld(t, s, lo, hi, y);
      MemberIdSet(Slice(t, lo, hi), y);
    }
  }

  /** Everything that holds after `i` ranges of an honest message from `peer`. */
  ghost predicate RoundInv(p: Party, peer: seq<Item>, rs: seq<Range>, i: nat, st: State)
    requires Sorted(p.items) && i <= |rs|
  {
    && Placed(p, st) && Pos(st.bound) == LoFrom(0, rs, i)
    && Honest(p.hash, p.items, 0, st.out)
    && (forall k: nat :: Active(0, st.out, k) ==> Active(0, rs, k))
    && Reported(p.items, peer, rs, st.out, LoFrom(0, rs, i), st.have)
    && Reported(peer, p.items, rs, st.out, LoFrom(0, rs, i), st.need)
  }

  /** What the two sides agree on before a round. */
  ghost predicate Setting(p: Party, peer: seq<Item>, rs: seq<Range>) {
    && Ready(p) && Sorted(peer)
    && IdsFixItems(p.items, peer) && CollisionFree(p.hash, p.items, peer)
    && Honest(p.hash, peer, 0, rs)
  }

  /** An unanswered range is skipped, matched, or compared: the report stays exact. */
  lemma StepAdds(p: Party, peer: seq<Item>, rs: seq<Range>, i: nat, st: State)
    requires Setting(p, peer, rs) && i < |rs| && p.limit.None?
    requires Placed(p, st) && Pos(st.bound) == LoFrom(0, rs, i)
    ensures Pos(st.bound) <= Pos(rs[i].bound)
    ensures var st', lo, hi := Step(p, st, rs[i]), Pos(st.bound), Pos(rs[i].bound);
            var closing := !Replies(p, st, rs[i]) && !rs[i].payload.Skip?;
            && st.have <= st'.have && st.need <= st'.need
            && Adds(p.items, peer, lo, hi, closing, st'.have[|st.have|..])
            && Adds(peer, p.items, lo, hi, closing, st'.need[|st.need|..])
  {
    hide Key, Pos, Step, Rank, Slice, FingerprintOf, Active;
    var r, lo, hi := rs[i], Pos(st.bound), Pos(rs[i].bound);
    StepShape(p, st, r);
    if p.initiator && r.payload.IdList? {
      ListsAdd(p.items, peer, lo, hi);
    } else if r.payload.Fingerprint? && !Replies(p, st, r) {
      assert Slice(p.items, lo, hi) == Slice(peer, lo, hi);
      forall x | x in Slice(p.items, lo, hi) ensures x in peer && x in p.items {
        SliceMembers(p.items, lo, hi, x);
        SliceMembers(peer, lo, hi, x);
      }
    }
  }

  lemma StepRound(p: Party, peer: seq<Item>, rs: seq<Range>, i: nat, st: State)
    requires Setting(p, peer, rs) && i < |rs| && p.limit.None?
    requires RoundInv(p, peer, rs, i, st)
    ensures RoundInv(p, peer, rs, i + 1, Step(p, st, rs[i]))
  {
    hide Key, Pos, Step, Rank, Slice, FingerprintOf, Active, Adds, Reported, Closed, CollisionFree;
    var r, st' := rs[i], Step(p, st, rs[i]);
    StepAdds(p, peer, rs, i, st);
    StepShape(p, st, r);
    StepKeeps(p, st, r);
    var replies := Replies(p, st, r);
    forall k: nat | Active(0, st.out, k) ensures k < LoFrom(0, rs, i) {
      ActiveBelowEnd(0, st.out, k);
    }
    forall k: nat | Active(0, st'.out, k) ensures Active(0, rs, k) {
      if replies && Pos(st.bound) <= k < Pos(r.bound) {
        ActiveInside(0, rs, i, k);
      }
    }
    var moreHave, moreNeed := st'.have[|st.have|..], st'.need[|st.need|..];
    assert st'.have == st.have + moreHave && st'.need == st.need + moreNeed;
    ReportedStep(p.items, peer, rs, i, st.out, st'.out, replies, st.have, moreHave);
    ReportedStep(peer, p.items, rs, i, st.out, st'.out, replies, st.need, moreNeed);
  }

  lemma {:induction false} ProcessRound(p: Party, peer: seq<Item>, rs: seq<Range>, i: nat, st: State)
    requires Setting(p, peer, rs) && i <= |rs| && p.limit.None?
    requires RoundInv(p, peer, rs, i, st)
    ensures RoundInv(p, peer, rs, |rs|, Process(p, st, rs[i..]))
    decreases |rs| - i
  {
    hide Key, Pos, Step, Rank, Honest, Reported, Active, CollisionFree;
    if i < |rs| {
      StepRound(p, peer, rs, i, st);
      assert rs[i..][1..] == rs[i + 1..];
      ProcessRound(p, peer, rs, i + 1, Step(p, st, rs[i]));
    }
  }

  lemma RoundStart(p: Party, peer: seq<Item>, rs: seq<Range>)
    requires Ready(p)
    ensures RoundInv(p, peer, rs, 0, Start())
  {
    hide Key, Pos, Rank;
    PlacedStart(p);
  }

  /**
    Exactness of one round: from an honest message, the reply is honest, works
    only on what the message worked on, and the round reports, once each,
    exactly the differences at the positions it stops working on.
   */
  lemma RoundExact(p: Party, peer: seq<Item>, rs: seq<Range>)
    requires Setting(p, peer, rs) && p.limit.None?
    ensures var st := Process(p, Start(), rs);
            && !st.stopped
            && Honest(p.hash, p.items, 0, st.out)
            && (forall k: nat :: Active(0, st.out, k) ==> Active(0, rs, k))
            && Reported(p.items, peer, rs, st.out, End(0, rs), st.have)
            && Reported(peer, p.items, rs, st.out, End(0, rs), st.need)
  {
    hide Key, Pos, Step, Rank, Honest, Reported, Active, CollisionFree, Process;
    assert rs[0..] == rs;
    RoundStart(p, peer, rs);
    ProcessRound(p, peer, rs, 0, Start());
  }
}
