/**
  A session that loses items (core/src/sync/negentropy/mod.rs). Both sides use
  the smallest frame limit the engine accepts. The initiator drops its answer to
  the last range, where it holds nothing; the responder has to drop its answer to
  the fingerprint of nothing sent instead, and what it then sends is taken for
  agreement. Fifteen items of the responder are never reported.
 */
module LostItems {
  import opened Base
  import opened Items
  import opened Bounds
  import opened Ranges
  import opened IdSums
  import opened Reconcile
  import opened Geometry
  import opened Exactness
  import opened Totality
  import opened Soundness
  import opened Sessions
  import opened Limits
  import opened Progress
  import Varint

  /* ----- the two sets: blocks of fifteen items, one block every 20000 ticks ----- */

  const STRIDE: nat := 20_000
  const BLOCK: nat := 15
  /** The blocks from this one on differ. */
  const SAME: nat := 232
  /** The initiator has this many blocks, the responder one more. */
  const BLOCKS: nat := 240

  function Tick(block: nat, step: nat, i: nat): nat {
    STRIDE * block + step * i
  }

  /** Ticks only we hold: the odd ones of a block that differs. */
  predicate OnlyOurs(tick: nat) {
    SAME <= tick / STRIDE < BLOCKS && tick % STRIDE % 2 == 1
  }

  /** Ticks only they hold: the late ones of such a block, and all of the last block. */
  predicate OnlyTheirs(tick: nat) {
    tick / STRIDE >= BLOCKS || (tick / STRIDE >= SAME && tick % STRIDE >= BLOCK)
  }

  const THEIR_MARK: nat := 0x100_0000_0000
  const OUR_MARK: nat := 0x1_0000_0000_0000_0000

  /** The id of a tick, as a number: sums show whether a tick held by one side only is among them. */
  function IdValue(tick: nat): nat {
    tick + if OnlyOurs(tick) then OUR_MARK else if OnlyTheirs(tick) then THEIR_MARK else 0
  }

  function IdFor(tick: nat): Id {
    LeBytes(IdValue(tick), 32)
  }

  lemma {:induction false} PowersGrow(j: nat, k: nat)
    requires j <= k
    ensures Pow256(j) <= Pow256(k)
    decreases k - j
  {
    if j < k {
      PowersGrow(j, k - 1);
    }
  }

  lemma NinePowers()
    ensures Pow256(9) == 0x100_0000_0000_0000_0000
  {
    assert Pow256(4) == 0x1_0000_0000;
    assert Pow256(5) == 0x100_0000_0000;
    assert Pow256(6) == 0x1_0000_0000_0000;
    assert Pow256(7) == 0x100_0000_0000_0000;
    assert Pow256(8) == 0x1_0000_0000_0000_0000;
  }

  lemma IdForValue(tick: nat)
    requires tick < 0x1_0000_0000
    ensures LittleEndian(IdFor(tick)) == IdValue(tick)
  {
    hide LeBytes, LittleEndian;
    PowersGrow(9, 32);
    NinePowers();
    ValueOfLeBytes(IdValue(tick), 32);
  }

  lemma IdForInjective(x: nat, y: nat)
    requires x < 0x1_0000_0000 && y < 0x1_0000_0000 && IdFor(x) == IdFor(y)
    ensures x == y
  {
    hide LeBytes, LittleEndian, IdFor, OnlyOurs, OnlyTheirs;
    IdForValue(x);
    IdForValue(y);
  }

  /** Item `k`: ticks within a block are one apart, or two apart in a block that differs. */
  function At(k: nat, wide: bool): Item
    requires k < 5000
  {
    var tick := Tick(k / BLOCK, if wide && k / BLOCK >= SAME then 2 else 1, k % BLOCK);
    Item(tick, IdFor(tick))
  }

  function Ours(): (s: seq<Item>)
    ensures |s| == 3600
  {
    seq(3600, k requires 0 <= k < 3600 => At(k, false))
  }

  function Theirs(): (s: seq<Item>)
    ensures |s| == 3615
  {
    seq(3615, k requires 0 <= k < 3615 => At(k, true))
  }

  /** Where block `b` begins. */
  function BlockBound(b: nat): Bound
    requires b <= 1000
  {
    FromTs(STRIDE * b)
  }

  lemma TickOrder(j: nat, k: nat, wide: bool)
    requires j < k < 5000
    ensures At(j, wide).sortKey < At(k, wide).sortKey
  {
    var b, c := j / BLOCK, k / BLOCK;
    if b < c {
      assert At(j, wide).sortKey <= STRIDE * b + 28;
    }
  }

  /** Either side's items. */
  function Side(wide: bool): (s: seq<Item>)
    ensures |s| == if wide then 3615 else 3600
    ensures forall k :: 0 <= k < |s| ==> s[k] == At(k, wide)
  {
    if wide then Theirs() else Ours()
  }

  lemma SideSorted(wide: bool)
    ensures Sorted(Side(wide)) && Storable(Side(wide))
  {
    hide Key, IdFor, Tick;
    var s := Side(wide);
    forall j, k | 0 <= j < k < |s| ensures Key(s[j]) < Key(s[k]) {
      TickOrder(j, k, wide);
      KeyOrder(s[j], s[k]);
    }
    forall k | 0 <= k < |s| ensures s[k].sortKey < TS_INFINITY {
      TickSmall(k, wide);
    }
  }

  lemma TickSmall(k: nat, wide: bool)
    requires k < 5000
    ensures At(k, wide).sortKey < 0x1_0000_0000
    ensures At(k, wide).id == IdFor(At(k, wide).sortKey)
  {
    hide IdFor;
  }

  lemma SidesFixItems()
    ensures IdsFixItems(Side(false), Side(true))
  {
    hide IdFor, Tick, Side;
    forall x, y | (x in Side(false) || x in Side(true)) && (y in Side(false) || y in Side(true)) && x.id == y.id ensures x == y {
      OneOf(x);
      OneOf(y);
      IdForInjective(x.sortKey, y.sortKey);
    }
  }

  lemma OneOf(x: Item)
    requires x in Side(false) || x in Side(true)
    ensures x.sortKey < 0x1_0000_0000 && x.id == IdFor(x.sortKey)
  {
    hide IdFor, Tick, At;
    var wide := x !in Side(false);
    var k :| 0 <= k < |Side(wide)| && Side(wide)[k] == x;
    TickSmall(k, wide);
  }

  /** A bare timestamp separates items by their sort keys. */
  lemma TsSplits(ts: u64, x: Item)
    ensures Key(x) < Pos(FromTs(ts)) <==> x.sortKey < ts
  {
    hide Key;
    KeyOrder(x, AsItem(FromTs(ts)));
    NothingBelow(x.id, AsItem(FromTs(ts)).id);
  }

  lemma {:induction false} NothingBelow(a: seq<nat>, z: seq<nat>)
    requires |a| == |z| && forall i :: 0 <= i < |z| ==> z[i] == 0
    ensures !LexLess(a, z)
  {
    if a != [] {
      NothingBelow(a[1..], z[1..]);
    }
  }

  lemma TickAt(k: nat, wide: bool)
    requires k < 5000
    ensures k % BLOCK == 0 ==> At(k, wide).sortKey == STRIDE * (k / BLOCK)
    ensures At(k, wide).sortKey < STRIDE * (k / BLOCK + 1)
  {
    hide IdFor;
  }

  /** Block `b` begins at rank `15 * b` on either side. */
  lemma BlockRank(b: nat, wide: bool)
    requires BLOCK * b <= |Side(wide)|
    ensures Sorted(Side(wide)) && Rank(Side(wide), Pos(BlockBound(b))) == BLOCK * b
  {
    hide Key, Pos, Rank, At, Side;
    SideSorted(wide);
    var s, k := Side(wide), BLOCK * b;
    if k > 0 {
      TickAt(k - 1, wide);
      TsSplits(STRIDE * b, s[k - 1]);
    }
    if k < |s| {
      TickAt(k, wide);
      TsSplits(STRIDE * b, s[k]);
    }
    RankUnique(s, Pos(BlockBound(b)), k);
  }

  /** Up to and including the first item of the block that differs, the sides are the same. */
  lemma SameItem(k: nat)
    requires k <= BLOCK * SAME
    ensures At(k, false) == At(k, true)
  {
    hide IdFor;
  }

  lemma SameRank(pos: nat, wide: bool)
    requires Rank(Side(wide), pos) <= BLOCK * SAME
    ensures Rank(Side(!wide), pos) == Rank(Side(wide), pos)
  {
    hide Key, Rank, At, Side;
    SideSorted(!wide);
    var r := Rank(Side(wide), pos);
    if r > 0 {
      SameItem(r - 1);
    }
    SameItem(r);
    RankUnique(Side(!wide), pos, r);
  }

  /** So intervals before it hold the same items. */
  lemma SameSlice(lo: nat, hi: nat, wide: bool)
    requires lo <= hi && Sorted(Side(false)) && Sorted(Side(true)) && Rank(Side(wide), hi) <= BLOCK * SAME
    ensures Slice(Side(false), lo, hi) == Slice(Side(true), lo, hi)
  {
    hide Key, Rank, At, Side;
    RankMonotone(Side(wide), lo, hi);
    SameRank(lo, wide);
    SameRank(hi, wide);
    var x, y := Slice(Side(false), lo, hi), Slice(Side(true), lo, hi);
    forall i | 0 <= i < |x| ensures x[i] == y[i] {
      SameItem(Rank(Side(wide), lo) + i);
    }
  }

  /* ----- the frames: a Skip, then one id list per differing block ----- */

  function ListOf(s: seq<Item>, j: nat): Range
    requires |s| >= BLOCK * BLOCKS && SAME + j < BLOCKS
  {
    Range(BlockBound(SAME + j + 1), IdList(IdsOf(s[BLOCK * (SAME + j)..BLOCK * (SAME + j + 1)])))
  }

  function Front(s: seq<Item>, j: nat): seq<Range>
    requires |s| >= BLOCK * BLOCKS && SAME + j <= BLOCKS
  {
    if j == 0 then [Range(BlockBound(SAME), Skip)] else Front(s, j - 1) + [ListOf(s, j - 1)]
  }

  lemma Digits(n: nat)
    ensures n < 128 ==> |Varint.Encode(n)| == 1
    ensures 16384 <= n < 2097152 ==> |Varint.Encode(n)| == 3
    ensures 2097152 <= n < 268435456 ==> |Varint.Encode(n)| == 4
  {
    Varint.EncodeLength(n);
    if 16384 <= n < 268435456 {
      assert Varint.DigitCount(n) == 1 + Varint.DigitCount(n / 128) == 2 + Varint.DigitCount(n / 128 / 128);
      assert 2097152 <= n ==> Varint.DigitCount(n / 128 / 128) == 1 + Varint.DigitCount(n / 128 / 128 / 128);
    }
  }

  lemma SkipLength()
    ensures |EncodeRange(0, Range(BlockBound(SAME), Skip))| == 6
  {
    hide Varint.Encode;
    Digits(STRIDE * SAME + 1);
    Digits(0);
  }

  lemma ListLength15(s: seq<Item>, j: nat)
    requires |s| >= BLOCK * BLOCKS && SAME + j < BLOCKS
    ensures |EncodeRange(STRIDE * (SAME + j), ListOf(s, j))| == 486
  {
    hide Varint.Encode, Flat;
    Digits(STRIDE + 1);
    Digits(0);
    Digits(2);
    Digits(15);
  }

  /** Byte for byte, the frame is full after eight lists. */
  lemma {:induction false} FrontLength(s: seq<Item>, j: nat)
    requires |s| >= BLOCK * BLOCKS && SAME + j <= BLOCKS
    ensures FullLen(Front(s, j)) == 7 + 486 * j && LastTs(0, Front(s, j)) == STRIDE * (SAME + j)
  {
    hide EncodeRange, FullLen;
    if j == 0 {
      SkipLength();
      EncodeRangesOne(0, Range(BlockBound(SAME), Skip));
      assert FullLen(Front(s, 0)) == 7 by { FullLenOf(Front(s, 0)); }
    } else {
      FrontLength(s, j - 1);
      FullLenConcat(Front(s, j - 1), [ListOf(s, j - 1)]);
      EncodeRangesOne(STRIDE * (SAME + j - 1), ListOf(s, j - 1));
      ListLength15(s, j - 1);
    }
  }

  lemma FullLenOf(out: seq<Range>)
    ensures FullLen(out) == 1 + |EncodeRanges(0, out)|
  {
  }

  /* ----- runs of steps ----- */

  /** A run of ranges that need no answer only moves the engine on. */
  lemma {:induction false} PassRun(p: Party, rs: seq<Range>, i: nat, n: nat, st: State)
    requires Ready(p) && Ordered(0, rs) && Within(rs) && i <= n <= |rs|
    requires !st.stopped && st.rank <= |p.items| && Steady(p, st) && Trusty(p.items, st.out) && Pos(st.bound) == LoFrom(0, rs, i)
    requires forall j :: i <= j < n ==> !Answers(p, LoFrom(0, rs, j), rs[j])
    ensures var st' := Process(p, st, rs[i..n]);
            && !st'.stopped && st'.rank <= |p.items| && Steady(p, st') && st'.out == st.out
            && st'.bound == (if i < n then rs[n - 1].bound else st.bound) && st'.skip == (st.skip || i < n)
            && Process(p, st, rs[i..]) == Process(p, st', rs[n..])
    decreases n - i
  {
    hide Key, Pos, Step, Sane, Placed, Trusty, Answers, Sorted;
    if i < n {
      var st1 := Step(p, st, rs[i]);
      assert rs[i..n][0] == rs[i] && rs[i..n][1..] == rs[i + 1..n];
      assert rs[i..][0] == rs[i] && rs[i..][1..] == rs[i + 1..];
      StepPass(p, st, rs[i]);
      StepSteady(p, st, rs[i]);
      PassRun(p, rs, i + 1, n, st1);
    } else {
      assert rs[i..n] == [];
    }
  }

  /** The engine has answered `j` of the differing blocks. */
  ghost predicate Stands(p: Party, st: State, j: nat)
    requires Sorted(p.items) && |p.items| >= BLOCK * BLOCKS && SAME + j <= BLOCKS
  {
    && !st.stopped && st.rank <= |p.items| && Steady(p, st) && Trusty(p.items, st.out)
    && st.out + Flush(st) == Front(p.items, j) && st.bound == BlockBound(SAME + j) && (st.skip <==> j == 0)
  }

  /** One of the two engines. */
  function Engine(hash: Hash, wide: bool): Party {
    Party(hash, Side(wide), Some(FRAME_LIMIT_FLOOR), !wide)
  }

  lemma EngineReady(hash: Hash, wide: bool)
    ensures Ready(Engine(hash, wide)) && Storable(Side(wide))
  {
    SideSorted(wide);
    hide Side;
  }

  /** What is answered to block `SAME + j`. */
  lemma BlockReply(hash: Hash, wide: bool, st: State, r: Range, j: nat)
    requires SAME + j < BLOCKS && Ready(Engine(hash, wide)) && Stands(Engine(hash, wide), st, j) && r.bound == BlockBound(SAME + j + 1)
    ensures Pos(st.bound) <= Pos(r.bound) <= Pos(Infinity())
    ensures |Slice(Side(wide), Pos(st.bound), Pos(r.bound))| == BLOCK
    ensures Replies(Engine(hash, wide), st, r) ==> Reply(Engine(hash, wide), st, r) == [ListOf(Side(wide), j)]
  {
    hide Key, Rank, At, Side, Steady, Trusty, FingerprintOf, Front;
    BlockRank(SAME + j, wide);
    BlockRank(SAME + j + 1, wide);
    BoundOrder(STRIDE * (SAME + j), STRIDE * (SAME + j + 1));
    BoundOrder(STRIDE * (SAME + j + 1), TS_INFINITY);
  }

  lemma BoundOrder(x: u64, y: u64)
    requires x <= y
    ensures Pos(FromTs(x)) <= Pos(FromTs(y))
  {
    hide Key;
    KeyOrder(AsItem(FromTs(y)), AsItem(FromTs(x)));
    NothingBelow(AsItem(FromTs(y)).id, AsItem(FromTs(x)).id);
  }

  /** An answer to a differing block is a list of fifteen ids, and eight of them fit. */
  lemma BlockStep(hash: Hash, wide: bool, st: State, r: Range, j: nat)
    requires var p := Engine(hash, wide);
             SAME + j < BLOCKS && Ready(p) && Stands(p, st, j) && r.bound == BlockBound(SAME + j + 1)
             && Pos(st.bound) <= Pos(r.bound) && Replies(p, st, r)
    ensures var st' := Step(Engine(hash, wide), st, r);
            Stands(Engine(hash, wide), st', j + 1) && st'.have == st.have && st'.need == st.need
  {
    hide Key, Pos, Rank, At, Side, Sane, Placed, Trusty, FingerprintOf, Front, FullLen, Step, Slice, Reply, Sorted;
    var p := Engine(hash, wide);
    BlockReply(hash, wide, st, r, j);
    StepSteady(p, st, r);
    var front, list := Front(p.items, j), [ListOf(p.items, j)];
    assert st.out + (Flush(st) + list) == front + list;
    assert Front(p.items, j + 1) == front + list by { FrontNext(p.items, j); }
    FrontLength(p.items, j);
    FrontLength(p.items, j + 1);
    if r.payload.IdList? {
      StepCut(p, st, r);
      BlockFits(hash, wide, st, r, j);
    } else {
      StepDrop(p, st, r);
    }
    assert Step(p, st, r).out + [] == Step(p, st, r).out;
  }

  lemma FrontNext(s: seq<Item>, j: nat)
    requires |s| >= BLOCK * BLOCKS && SAME + j < BLOCKS
    ensures Front(s, j + 1) == Front(s, j) + [ListOf(s, j)]
  {
  }

  lemma BlockFits(hash: Hash, wide: bool, st: State, r: Range, j: nat)
    requires var p := Engine(hash, wide);
             SAME + j < BLOCKS && Ready(p) && Stands(p, st, j) && Pos(st.bound) <= Pos(r.bound) && Replies(p, st, r) && r.payload.IdList?
             && |Slice(p.items, Pos(st.bound), Pos(r.bound))| == BLOCK && Reply(p, st, r) == [ListOf(p.items, j)]
             && FullLen(st.out + (Flush(st) + [ListOf(p.items, j)])) == 7 + 486 * (j + 1)
    ensures !Cuts(Engine(hash, wide), st, r)
  {
    hide Key, Pos, Rank, At, Side, Steady, Trusty, FingerprintOf, Front, FullLen, Flush;
    var p := Engine(hash, wide);
    assert FullLen(st.out) <= 7 + 486 * j by {
      FrontLength(p.items, j);
      FullLenConcat(st.out, Flush(st));
    }
    var ours := Slice(p.items, Pos(st.bound), Pos(r.bound));
    assert Listed(p, st, r) == BLOCK;
    assert ours[..BLOCK] == ours;
  }

  /** From range `m` on, the message asks about the differing blocks one by one. */
  ghost predicate AsksBlocks(p: Party, rs: seq<Range>, m: nat)
    requires Sorted(p.items)
  {
    && Ordered(0, rs) && m + BLOCKS - SAME <= |rs|
    && (forall k :: m <= k < m + BLOCKS - SAME ==> rs[k].bound == BlockBound(SAME + k - m + 1) && Answers(p, LoFrom(0, rs, k), rs[k]))
  }

  /** A run of differing blocks is answered list by list. */
  lemma {:induction false} BlockRun(hash: Hash, wide: bool, rs: seq<Range>, m: nat, j: nat, st: State) returns (st': State)
    requires SAME + j <= BLOCKS && Ready(Engine(hash, wide)) && Stands(Engine(hash, wide), st, j)
    requires AsksBlocks(Engine(hash, wide), rs, m) && Pos(st.bound) == LoFrom(0, rs, m + j)
    ensures Stands(Engine(hash, wide), st', BLOCKS - SAME) && st'.have == st.have && st'.need == st.need
    ensures Process(Engine(hash, wide), st, rs[m + j..]) == Process(Engine(hash, wide), st', rs[m + BLOCKS - SAME..])
    decreases BLOCKS - SAME - j
  {
    hide Key, Pos, Rank, At, Side, Steady, Trusty, Stands, Step, Answers, Ordered, Sorted;
    var p := Engine(hash, wide);
    if SAME + j == BLOCKS {
      st' := st;
    } else {
      StandsAt(p, st, j);
      var i := m + j;
      assert rs[i..][0] == rs[i] && rs[i..][1..] == rs[i + 1..];
      BlockNext(hash, wide, rs, m, j, st);
      StandsAt(p, Step(p, st, rs[i]), j + 1);
      st' := BlockRun(hash, wide, rs, m, j + 1, Step(p, st, rs[i]));
    }
  }

  lemma StandsAt(p: Party, st: State, j: nat)
    requires Sorted(p.items) && |p.items| >= BLOCK * BLOCKS && SAME + j <= BLOCKS && Stands(p, st, j)
    ensures !st.stopped && st.rank <= |p.items| && st.bound == BlockBound(SAME + j)
  {
  }

  lemma BlockNext(hash: Hash, wide: bool, rs: seq<Range>, m: nat, j: nat, st: State)
    requires SAME + j < BLOCKS && Ready(Engine(hash, wide)) && Stands(Engine(hash, wide), st, j)
    requires AsksBlocks(Engine(hash, wide), rs, m) && Pos(st.bound) == LoFrom(0, rs, m + j)
    ensures var st' := Step(Engine(hash, wide), st, rs[m + j]);
            Stands(Engine(hash, wide), st', j + 1) && st'.have == st.have && st'.need == st.need
  {
    hide Key, Pos, Rank, At, Side, Steady, Trusty, Step, Sorted, Stands;
    BlockStep(hash, wide, st, rs[m + j], j);
  }

  /** After eight lists nothing more fits, not even an empty one. */
  lemma LastStep(hash: Hash, wide: bool, st: State, r: Range)
    requires var p := Engine(hash, wide);
             Ready(p) && Stands(p, st, BLOCKS - SAME) && r.bound == Infinity() && r.payload.Fingerprint?
             && Pos(st.bound) <= Pos(r.bound) && Replies(p, st, r)
    ensures var p := Engine(hash, wide);
            && Step(p, st, r).stopped
            && Step(p, st, r).out == Front(p.items, BLOCKS - SAME) + [Range(Infinity(), Fingerprint(FingerprintOf(hash, [])))]
            && Step(p, st, r).have == st.have && Step(p, st, r).need == st.need
  {
    hide Key, Pos, Rank, At, Side, Sane, Placed, Trusty, FingerprintOf, Front, FullLen, Step, Slice, Answers, EncodeRange;
    var p, front := Engine(hash, wide), Front(Side(wide), BLOCKS - SAME);
    SideSorted(wide);
    RankAtInfinity(p.items);
    BlockRank(BLOCKS, wide);
    StepDrop(p, st, r);
    var lower, upper := Rank(p.items, Pos(st.bound)), |p.items|;
    SplitOne(p, lower, upper, Infinity());
    var list := Range(Infinity(), IdList(IdsOf(p.items[lower..upper])));
    assert Reply(p, st, r) == [list];
    assert st.out + (Flush(st) + [list]) == front + [list];
    assert st.out == front;
    FrontLength(p.items, BLOCKS - SAME);
    FullLenConcat(front, [list]);
    EncodeRangesOne(LastTs(0, front), list);
    RangeLength(LastTs(0, front), list);
    assert p.items[upper..] == [];
  }

  /* ----- the session ----- */

  /** The two sets, under a hash whose fingerprints tell them apart. */
  ghost predicate Apart(hash: Hash) {
    Sorted(Side(false)) && Sorted(Side(true)) && CollisionFree(hash, Side(false), Side(true))
  }

  /** On an interval where the sides differ, each answers the other's fingerprint. */
  lemma DifferentAnswers(hash: Hash, lo: nat, r: Range, wide: bool)
    requires Apart(hash) && lo <= Pos(r.bound)
    requires Slice(Side(false), lo, Pos(r.bound)) != Slice(Side(true), lo, Pos(r.bound))
    requires r.payload == Fingerprint(FingerprintOf(hash, Slice(Side(!wide), lo, Pos(r.bound))))
    ensures Answers(Engine(hash, wide), lo, r)
  {
    hide Key, Pos, Slice, FingerprintOf, Side;
  }

  /** Where they agree, neither does. */
  lemma SameAnswers(hash: Hash, lo: nat, r: Range, wide: bool)
    requires Apart(hash) && lo <= Pos(r.bound)
    requires Slice(Side(false), lo, Pos(r.bound)) == Slice(Side(true), lo, Pos(r.bound))
    requires r.payload == Fingerprint(FingerprintOf(hash, Slice(Side(!wide), lo, Pos(r.bound))))
    ensures !Answers(Engine(hash, wide), lo, r)
  {
    hide Key, Pos, Slice, FingerprintOf, Side;
  }

  /** The end of the message, where only the responder holds items. */
  lemma TailDiffers(hash: Hash, lo: nat, wide: bool)
    requires Apart(hash) && lo <= Pos(Infinity()) && Rank(Side(wide), lo) <= BLOCK * SAME
    ensures Slice(Side(false), lo, Pos(Infinity())) != Slice(Side(true), lo, Pos(Infinity()))
  {
    hide Key, Pos, Rank, Side;
    SameRank(lo, wide);
    SideSorted(false);
    SideSorted(true);
    RankAtInfinity(Side(false));
    RankAtInfinity(Side(true));
  }

  lemma OpeningEdges(i: nat)
    requires i < BUCKETS
    ensures Edge(0, 3600, i) == 225 * i && Edge(0, 3600, i + 1) == 225 * (i + 1)
    ensures Edge(3375, 240, i) == BLOCK * (225 + i) && Edge(3375, 240, i + 1) == BLOCK * (226 + i)
  {
  }

  lemma OpeningBucket(hash: Hash, i: nat)
    requires Apart(hash) && Ready(Engine(hash, false)) && i < BUCKETS
    ensures var rs := InitiateSpec(Engine(hash, false));
            && |rs| == BUCKETS
            && LoFrom(0, rs, i) <= Pos(rs[i].bound)
            && rs[i].payload == Fingerprint(FingerprintOf(hash, Slice(Side(false), LoFrom(0, rs, i), Pos(rs[i].bound))))
            && Rank(Side(false), Pos(rs[i].bound)) == 225 * (i + 1) && Rank(Side(false), LoFrom(0, rs, i)) == 225 * i
            && (i == BUCKETS - 1 ==> rs[i].bound == Infinity())
  {
    hide Key, Pos, Rank, Side, FingerprintOf, Bucket, Slice, SplitRange, Edge, LoFrom;
    var p := Engine(hash, false);
    OpeningEdges(i);
    SideSorted(false);
    RankAtInfinity(p.items);
    BucketRanks(p, 0, 3600, Infinity(), 0, i);
    BucketCell(p, 0, 3600, Infinity(), 0, i);
    SplitLast(p, 0, 3600, Infinity());
  }

  /** First delivery: fifteen of the sixteen buckets match, the last is split. */
  lemma FirstRound(hash: Hash)
    requires Apart(hash) && Ready(Engine(hash, false)) && Ready(Engine(hash, true))
    requires var rs := InitiateSpec(Engine(hash, false)); Ordered(0, rs) && Within(rs)
    ensures var b, rs := Engine(hash, true), InitiateSpec(Engine(hash, false));
            && |rs| == BUCKETS && Rank(Side(true), Pos(rs[14].bound)) == 3375 && Pos(rs[14].bound) <= Pos(Infinity())
            && Process(b, Start(), rs).out == [Range(rs[14].bound, Skip)] + SplitRange(b, 3375, 3615, Infinity())
  {
    hide Key, Pos, Rank, Side, FingerprintOf, Slice, InitiateSpec, Step, SplitRange, Answers, Sane, Ordered;
    var b, rs := Engine(hash, true), InitiateSpec(Engine(hash, false));
    OpeningBucket(hash, 14);
    OpeningBucket(hash, 15);
    forall j | 0 <= j < 15 ensures LoFrom(0, rs, j) <= Pos(rs[j].bound) && !Answers(b, LoFrom(0, rs, j), rs[j]) {
      OpeningBucket(hash, j);
      SameSlice(LoFrom(0, rs, j), Pos(rs[j].bound), false);
      SameAnswers(hash, LoFrom(0, rs, j), rs[j], true);
    }
    SameRank(Pos(rs[14].bound), false);
    PlacedStart(b);
    StartDelivers(b);
    PassRun(b, rs, 0, 15, Start());
    assert rs[0..] == rs;
    var st := Process(b, Start(), rs[0..15]);
    TailDiffers(hash, Pos(rs[14].bound), false);
    DifferentAnswers(hash, Pos(rs[14].bound), rs[15], true);
    AnswerFirst(b, st, rs[15]);
    assert rs[15..] == [rs[15]] && [rs[15]][1..] == [];
    SideSorted(true);
    RankAtInfinity(b.items);
  }

  /** A first answer is sent whole. */
  lemma AnswerFirst(p: Party, st: State, r: Range)
    requires Ready(p) && Steady(p, st) && st.out == [] && st.rank <= |p.items| && r.payload.Fingerprint?
    requires Pos(st.bound) <= Pos(r.bound) && Replies(p, st, r)
    ensures Step(p, st, r).out == Flush(st) + Reply(p, st, r)
    ensures Process(p, st, [r]) == Step(p, st, r)
  {
    hide Key, Pos, Rank, FingerprintOf, Slice, Step, Reply, Flush, FullLen, Sane;
    StepDrop(p, st, r);
    if Drops(p, st, r) {
      FirstFits(p, st, r);
    }
    assert [r][1..] == [];
  }

  /** The responder's split of the last bucket, behind a Skip that ends at `first`. */
  function SecondMessage(hash: Hash, first: Bound): (rs: seq<Range>)
    requires Sorted(Side(true))
    ensures |rs| == 17
  {
    [Range(first, Skip)] + SplitRange(Engine(hash, true), 3375, 3615, Infinity())
  }

  /** Bucket `m` of the split, from where the Skip ends. */
  lemma SplitBucket(hash: Hash, first: Bound, m: nat)
    requires Apart(hash) && Rank(Side(true), Pos(first)) == 3375 && m < BUCKETS
    ensures var split := SplitRange(Engine(hash, true), 3375, 3615, Infinity());
            var lo, r := LoFrom(Pos(first), split, m), split[m];
            && lo <= Pos(r.bound)
            && r.payload == Fingerprint(FingerprintOf(hash, Slice(Side(true), lo, Pos(r.bound))))
            && Rank(Side(true), lo) == BLOCK * (225 + m) && Rank(Side(true), Pos(r.bound)) == BLOCK * (226 + m)
            && r.bound == if m < BUCKETS - 1 then BlockBound(226 + m) else Infinity()
  {
    hide Key, Pos, Rank, Side, FingerprintOf, Bucket, Slice, SplitRange, Edge, LoFrom, CollisionFree, Sorted;
    OpeningEdges(m);
    var p := Engine(hash, true);
    SideSorted(true);
    RankAtInfinity(p.items);
    BucketRanks(p, 3375, 3615, Infinity(), Pos(first), m);
    BucketCell(p, 3375, 3615, Infinity(), Pos(first), m);
    SplitLast(p, 3375, 3615, Infinity());
    if m < BUCKETS - 1 {
      BucketBlock(hash, m);
    }
  }

  lemma SecondBucket(hash: Hash, first: Bound, m: nat)
    requires Apart(hash) && Rank(Side(true), Pos(first)) == 3375 && m < BUCKETS
    ensures var rs := SecondMessage(hash, first);
            && LoFrom(0, rs, m + 1) <= Pos(rs[m + 1].bound)
            && rs[m + 1].payload == Fingerprint(FingerprintOf(hash, Slice(Side(true), LoFrom(0, rs, m + 1), Pos(rs[m + 1].bound))))
            && Rank(Side(true), LoFrom(0, rs, m + 1)) == BLOCK * (225 + m)
            && Rank(Side(true), Pos(rs[m + 1].bound)) == BLOCK * (226 + m)
            && rs[m + 1].bound == if m < BUCKETS - 1 then BlockBound(226 + m) else Infinity()
  {
    hide Key, Pos, Rank, Side, FingerprintOf, Slice, SplitRange, CollisionFree, Sorted;
    SplitBucket(hash, first, m);
    var split := SplitRange(Engine(hash, true), 3375, 3615, Infinity());
    ConcatLo(0, [Range(first, Skip)], split);
    assert SecondMessage(hash, first)[m + 1] == split[m];
    assert LoFrom(0, SecondMessage(hash, first), 1 + m) == LoFrom(Pos(first), split, m);
  }

  lemma BucketBlock(hash: Hash, m: nat)
    requires Sorted(Side(true)) && m < BUCKETS - 1
    ensures Bucket(Engine(hash, true), 3375, 3615, Infinity(), m).bound == BlockBound(226 + m)
  {
    hide Key, Pos, FingerprintOf, Side, At, Sorted;
    var k := BLOCK * (226 + m);
    assert Edge(3375, 240, m + 1) == k;
    TickAt(k - 1, true);
    TickAt(k, true);
  }

  /** Inside a differing block the second items differ. */
  lemma BlockDiffers(lo: nat, hi: nat, b: nat)
    requires Sorted(Side(false)) && Sorted(Side(true)) && lo <= hi && SAME <= b < BLOCKS
    requires lo == Pos(BlockBound(b)) && hi == Pos(BlockBound(b + 1))
    ensures Slice(Side(false), lo, hi) != Slice(Side(true), lo, hi)
  {
    hide Key, Pos, Rank, Side, At;
    BlockRank(b, false);
    BlockRank(b, true);
    BlockRank(b + 1, false);
    BlockRank(b + 1, true);
    SecondDiffers(b);
    assert Slice(Side(false), lo, hi)[1] == Side(false)[BLOCK * b + 1];
    assert Slice(Side(true), lo, hi)[1] == Side(true)[BLOCK * b + 1];
  }

  lemma SecondDiffers(b: nat)
    requires SAME <= b < BLOCKS
    ensures At(BLOCK * b + 1, false) != At(BLOCK * b + 1, true)
  {
    hide IdFor;
    assert (BLOCK * b + 1) / BLOCK == b && (BLOCK * b + 1) % BLOCK == 1;
  }

  /** Second delivery: seven buckets match, eight are listed, and the last is dropped. */
  lemma SecondRound(hash: Hash, first: Bound)
    requires Apart(hash) && Ready(Engine(hash, false)) && Rank(Side(true), Pos(first)) == 3375
    requires Ordered(0, SecondMessage(hash, first)) && Within(SecondMessage(hash, first))
    ensures var st := Process(Engine(hash, false), Start(), SecondMessage(hash, first));
            st.out == LastMessage(hash, false)
  {
    hide Key, Pos, Rank, Side, FingerprintOf, Slice, Step, SplitRange, Answers, Sane, Ordered, SecondMessage, Front, At, LastMessage;
    var a, rs := Engine(hash, false), SecondMessage(hash, first);
    SecondPasses(hash, first);
    PlacedStart(a);
    StartDelivers(a);
    PassRun(a, rs, 0, 8, Start());
    assert rs[0..] == rs;
    var st := Process(a, Start(), rs[0..8]);
    SecondBucket(hash, first, 6);
    FrontStart(a.items);
    assert Stands(a, st, 0);
    SecondAsks(hash, first);
    var st' := BlockRun(hash, false, rs, 8, 0, st);
    SecondBucket(hash, first, 14);
    SecondBucket(hash, first, 15);
    EndDiffers();
    StandsAt(a, st', BLOCKS - SAME);
    DifferentAnswers(hash, Pos(BlockBound(BLOCKS)), rs[16], false);
    LastStep(hash, false, st', rs[16]);
    assert rs[16..][0] == rs[16] && rs[16..][1..] == [];
    LastMessageIs(hash, false);
  }

  function LastMessage(hash: Hash, wide: bool): seq<Range> {
    Front(Side(wide), BLOCKS - SAME) + [Range(Infinity(), Fingerprint(FingerprintOf(hash, [])))]
  }

  lemma LastMessageIs(hash: Hash, wide: bool)
    ensures LastMessage(hash, wide) == Front(Side(wide), BLOCKS - SAME) + [Range(Infinity(), Fingerprint(FingerprintOf(hash, [])))]
  {
  }

  lemma FrontStart(s: seq<Item>)
    requires |s| >= BLOCK * BLOCKS
    ensures Front(s, 0) == [Range(BlockBound(SAME), Skip)]
  {
  }

  lemma SecondPasses(hash: Hash, first: Bound)
    requires Apart(hash) && Rank(Side(true), Pos(first)) == 3375 && Ordered(0, SecondMessage(hash, first))
    ensures var rs := SecondMessage(hash, first);
            forall j :: 0 <= j < 8 ==> !Answers(Engine(hash, false), LoFrom(0, rs, j), rs[j])
  {
    hide Key, Pos, Rank, Side, FingerprintOf, Slice, SecondMessage;
    var rs := SecondMessage(hash, first);
    forall j | 0 <= j < 8 ensures !Answers(Engine(hash, false), LoFrom(0, rs, j), rs[j]) {
      if j == 0 {
        assert rs[0].payload.Skip? by { SecondSkips(hash, first); }
      } else {
        SecondBucket(hash, first, j - 1);
        SameSlice(LoFrom(0, rs, j), Pos(rs[j].bound), true);
        SameAnswers(hash, LoFrom(0, rs, j), rs[j], false);
      }
    }
  }

  lemma SecondSkips(hash: Hash, first: Bound)
    requires Sorted(Side(true))
    ensures SecondMessage(hash, first)[0].payload.Skip?
  {
    hide SplitRange;
  }

  lemma SecondAsks(hash: Hash, first: Bound)
    requires Apart(hash) && Rank(Side(true), Pos(first)) == 3375 && Ordered(0, SecondMessage(hash, first))
    ensures AsksBlocks(Engine(hash, false), SecondMessage(hash, first), 8)
  {
    hide Key, Pos, Rank, Side, FingerprintOf, Slice, SecondMessage, Answers;
    var rs := SecondMessage(hash, first);
    forall k | 8 <= k < 16 ensures rs[k].bound == BlockBound(SAME + k - 8 + 1) && Answers(Engine(hash, false), LoFrom(0, rs, k), rs[k]) {
      SecondBucket(hash, first, k - 1);
      SecondBucket(hash, first, k - 2);
      BlockDiffers(LoFrom(0, rs, k), Pos(rs[k].bound), 224 + k);
      DifferentAnswers(hash, LoFrom(0, rs, k), rs[k], false);
    }
  }

  /** After the last block of ours, only they hold items. */
  lemma EndDiffers()
    ensures Sorted(Side(false)) && Sorted(Side(true)) && Pos(BlockBound(BLOCKS)) <= Pos(Infinity())
    ensures Slice(Side(false), Pos(BlockBound(BLOCKS)), Pos(Infinity())) == []
    ensures Slice(Side(true), Pos(BlockBound(BLOCKS)), Pos(Infinity())) != []
  {
    hide Key, Pos, Rank, Side;
    BlockRank(BLOCKS, false);
    BlockRank(BLOCKS, true);
    SideSorted(false);
    SideSorted(true);
    RankAtInfinity(Side(false));
    RankAtInfinity(Side(true));
    BoundOrder(STRIDE * BLOCKS, TS_INFINITY);
  }

  /** Only ids the message lists are ever needed. */
  ghost predicate Lists(rs: seq<Range>, id: Id) {
    exists j :: 0 <= j < |rs| && rs[j].payload.IdList? && id in rs[j].payload.ids
  }

  lemma {:induction false} NeedsOnlyListed(p: Party, st: State, rs: seq<Range>, id: Id)
    requires Ready(p) && (!st.stopped ==> st.rank <= |p.items|)
    requires id !in st.need && !Lists(rs, id)
    ensures id !in Process(p, st, rs).need
    decreases |rs|
  {
    hide Key, Pos, FingerprintOf, FullLen, SplitRange, Flush, Unmatched;
    if !st.stopped && rs != [] {
      forall j | 0 <= j < |rs[1..]| && rs[1..][j].payload.IdList? ensures id !in rs[1..][j].payload.ids {
        assert rs[1..][j] == rs[j + 1];
      }
      if rs[0].payload.IdList? {
        DedupSpec(rs[0].payload.ids);
        WithoutSpec(Dedup(rs[0].payload.ids), IdSet(p.items[st.rank..LowerBound(p.items, st.rank, |p.items|, rs[0].bound)]));
      }
      NeedsOnlyListed(p, Step(p, st, rs[0]), rs[1..], id);
    }
  }

  lemma {:induction false} FrontAt(s: seq<Item>, n: nat)
    requires |s| >= BLOCK * BLOCKS && SAME + n <= BLOCKS
    ensures |Front(s, n)| == n + 1 && Front(s, n)[0] == Range(BlockBound(SAME), Skip)
    ensures forall j :: 1 <= j <= n ==> Front(s, n)[j] == ListOf(s, j - 1)
  {
    hide ListOf;
    if n > 0 {
      FrontAt(s, n - 1);
    }
  }

  /** The closing messages: a Skip, eight lists, and a fingerprint of nothing. */
  lemma LastMessageAt(hash: Hash, wide: bool)
    ensures var rs := LastMessage(hash, wide);
            && |rs| == 10 && rs[0] == Range(BlockBound(SAME), Skip)
            && (forall j :: 1 <= j <= 8 ==> rs[j].bound == BlockBound(SAME + j) && rs[j] == ListOf(Side(wide), j - 1))
            && rs[9] == Range(Infinity(), Fingerprint(FingerprintOf(hash, [])))
            && LoFrom(0, rs, 9) == Pos(BlockBound(BLOCKS))
  {
    hide Key, Pos, Front, Side, FingerprintOf;
    FrontAt(Side(wide), 8);
  }

  /** Third delivery: the responder lists its blocks and has to drop its last answer. */
  lemma ThirdRound(hash: Hash)
    requires Apart(hash) && Ready(Engine(hash, true)) && Ordered(0, LastMessage(hash, false)) && Within(LastMessage(hash, false))
    ensures Process(Engine(hash, true), Start(), LastMessage(hash, false)).out == LastMessage(hash, true)
  {
    hide Key, Pos, Rank, Side, FingerprintOf, Slice, Step, Sane, Ordered, Front, At, LastMessage, ListOf;
    var b, rs := Engine(hash, true), LastMessage(hash, false);
    LastMessageAt(hash, false);
    PlacedStart(b);
    StartDelivers(b);
    PassRun(b, rs, 0, 1, Start());
    assert rs[0..] == rs;
    var st := Process(b, Start(), rs[0..1]);
    FrontStart(b.items);
    assert Stands(b, st, 0);
    assert AsksBlocks(b, rs, 1) by { ThirdAsks(hash); }
    var st' := BlockRun(hash, true, rs, 1, 0, st);
    EndDiffers();
    StandsAt(b, st', BLOCKS - SAME);
    DifferentAnswers(hash, Pos(BlockBound(BLOCKS)), rs[9], true);
    LastStep(hash, true, st', rs[9]);
    assert rs[9..][0] == rs[9] && rs[9..][1..] == [];
    LastMessageIs(hash, true);
  }

  lemma ThirdAsks(hash: Hash)
    requires Sorted(Side(true)) && Ordered(0, LastMessage(hash, false))
    ensures AsksBlocks(Engine(hash, true), LastMessage(hash, false), 1)
  {
    hide Key, Pos, Rank, Side, FingerprintOf, Slice, Front, LastMessage;
    LastMessageAt(hash, false);
    var rs := LastMessage(hash, false);
    forall k | 1 <= k < 9 ensures rs[k].bound == BlockBound(SAME + k - 1 + 1) && Answers(Engine(hash, true), LoFrom(0, rs, k), rs[k]) {
      assert rs[k] == ListOf(Side(false), k - 1);
    }
  }

  /** Fourth delivery: the initiator compares the lists and finds the rest in agreement. */
  lemma FourthRound(hash: Hash)
    requires Apart(hash) && Ready(Engine(hash, false)) && Ordered(0, LastMessage(hash, true)) && Within(LastMessage(hash, true))
    ensures Process(Engine(hash, false), Start(), LastMessage(hash, true)).out == []
  {
    hide Key, Pos, Rank, Side, FingerprintOf, Slice, Step, Sane, Front, At, LastMessage;
    var a, rs := Engine(hash, false), LastMessage(hash, true);
    LastMessageAt(hash, true);
    EndDiffers();
    forall j | 0 <= j < 10 ensures !Answers(a, LoFrom(0, rs, j), rs[j]) {
      if 1 <= j <= 8 {
        assert rs[j] == ListOf(Side(true), j - 1);
      }
    }
    PlacedStart(a);
    StartDelivers(a);
    PassRun(a, rs, 0, 10, Start());
    assert rs[0..] == rs && rs[0..10] == rs;
  }

  /** The lists stop before the last block. */
  lemma LostNotListed(hash: Hash, k: nat)
    requires BLOCK * BLOCKS <= k < 3615
    ensures !Lists(LastMessage(hash, true), At(k, true).id)
  {
    hide Key, Pos, Front, Side, FingerprintOf, At, LastMessage, IdFor;
    var rs := LastMessage(hash, true);
    LastMessageAt(hash, true);
    forall j | 0 <= j < 10 && rs[j].payload.IdList? ensures At(k, true).id !in rs[j].payload.ids {
      assert rs[j] == ListOf(Side(true), j - 1);
      forall i | 0 <= i < BLOCK ensures rs[j].payload.ids[i] != At(k, true).id {
        IdsDiffer(BLOCK * (SAME + j - 1) + i, k);
      }
    }
  }

  lemma IdsDiffer(j: nat, k: nat)
    requires j < k < 5000
    ensures At(j, true).id != At(k, true).id
  {
    hide At, IdFor;
    TickOrder(j, k, true);
    TickSmall(j, true);
    TickSmall(k, true);
    if At(j, true).id == At(k, true).id {
      IdForInjective(At(j, true).sortKey, At(k, true).sortKey);
    }
  }

  /** No one listed anything in the second message. */
  lemma SecondListsNothing(hash: Hash, first: Bound, id: Id)
    requires Apart(hash) && Rank(Side(true), Pos(first)) == 3375
    ensures !Lists(SecondMessage(hash, first), id)
  {
    hide Key, Pos, Rank, Side, FingerprintOf, Slice, SecondMessage;
    var rs := SecondMessage(hash, first);
    SecondSkips(hash, first);
    forall j | 0 <= j < 17 ensures !rs[j].payload.IdList? {
      if j > 0 {
        SecondBucket(hash, first, j - 1);
      }
    }
  }

  lemma EnginesPair(hash: Hash)
    ensures Pair(Engine(hash, false), Engine(hash, true))
  {
    hide Side, IdsFixItems, Sorted, Storable;
    EngineReady(hash, false);
    EngineReady(hash, true);
    SidesFixItems();
  }

  /** One delivery, in terms of the ranges it carries. */
  lemma Delivery(a: Party, b: Party, w: Wire, rs: seq<Range>)
    requires Pair(a, b) && SoundFlight(a, b, w, rs)
    ensures var st, w' := Process(if w.toInitiator then a else b, Start(), rs), Deliver(a, b, w);
            && (if w.toInitiator && st.out == [] then w'.Done? else SoundFlight(a, b, w', st.out) && w'.toInitiator == !w.toInitiator)
            && w'.need == w.need + st.need && (!w.toInitiator ==> st.need == [])
            && Ordered(0, rs) && Within(rs)
  {
    hide Key, Pos, Process, AllEncodable, EncodeMessage, Deliver, IdsFixItems, OnlyIn, Sorted, Storable, Slice;
    DeliverRanges(a, b, w, rs);
    FixBothWays(a.items, b.items);
    RoundSound(if w.toInitiator then a else b, if w.toInitiator then b.items else a.items, rs);
    if !w.toInitiator {
      ResponderLearnsNothing(b, rs);
    }
    OnlyInConcat(a.items, b.items, w.have, Process(if w.toInitiator then a else b, Start(), rs).have);
    OnlyInConcat(b.items, a.items, w.need, Process(if w.toInitiator then a else b, Start(), rs).need);
  }

  lemma OnlyInConcat(s: seq<Item>, t: seq<Item>, x: seq<Id>, y: seq<Id>)
    ensures OnlyIn(s, t, x) && OnlyIn(s, t, y) ==> OnlyIn(s, t, x + y)
  {
    hide IdSet;
  }

  /** The four deliveries. */
  lemma FourDeliveries(hash: Hash, a: Party, b: Party, id: Id)
    requires a == Engine(hash, false) && b == Engine(hash, true) && Pair(a, b) && Apart(hash)
    requires !Lists(LastMessage(hash, true), id)
    ensures var w := After(a, b, 4);
            w.Done? && id !in w.need
  {
    hide Key, Pos, Rank, Side, Process, Deliver, InitiateSpec, SoundFlight, LastMessage, CollisionFree, IdsFixItems, Sorted, Storable, Lists, SplitRange, Engine;
    var rs := InitiateSpec(a);
    InitiateTrusty(a, b);
    var w0, w1, w2, w3 := After(a, b, 0), After(a, b, 1), After(a, b, 2), After(a, b, 3);
    assert w1 == Deliver(a, b, w0) && w2 == Deliver(a, b, w1) && w3 == Deliver(a, b, w2) && After(a, b, 4) == Deliver(a, b, w3);
    Delivery(a, b, w0, rs);
    FirstRound(hash);
    var second := SecondMessage(hash, rs[14].bound);
    Delivery(a, b, w1, second);
    SecondRound(hash, rs[14].bound);
    SecondListsNothing(hash, rs[14].bound, id);
    NeedsOnlyListed(a, Start(), second, id);
    LastMessageAt(hash, false);
    LastMessageAt(hash, true);
    Delivery(a, b, w2, LastMessage(hash, false));
    ThirdRound(hash);
    Delivery(a, b, w3, LastMessage(hash, true));
    FourthRound(hash);
    NeedsOnlyListed(a, Start(), LastMessage(hash, true), id);
  }

  /**
    Under the smallest frame limit this session ends after four deliveries, and
    none of the responder's last fifteen items, which the initiator lacks, has
    been reported. No hash is to blame: it holds for every one that tells the two
    sets apart.
   */
  lemma SessionLosesItems(hash: Hash, k: nat)
    requires Apart(hash) && BLOCK * BLOCKS <= k < 3615
    ensures var a, b := Engine(hash, false), Engine(hash, true);
            && Pair(a, b)
            && var w, lost := After(a, b, 4), b.items[k].id;
               w.Done? && lost in IdSet(b.items) && lost !in IdSet(a.items) && lost !in w.need
  {
    hide Key, Pos, Rank, Side, Apart, IdsFixItems, Sorted, Storable, At, After;
    var a, b := Engine(hash, false), Engine(hash, true);
    EnginesPair(hash);
    LostNotListed(hash, k);
    FourDeliveries(hash, a, b, At(k, true).id);
    assert b.items[k] == At(k, true) && b.items[k] in b.items;
    MemberIdSet(b.items, b.items[k]);
    forall i | 0 <= i < |a.items| ensures a.items[i].id != b.items[k].id {
      NotOurs(i, k);
    }
  }

  lemma NotOurs(i: nat, k: nat)
    requires i < BLOCK * BLOCKS <= k < 3615
    ensures At(i, false).id != At(k, true).id
  {
    hide IdFor;
    TickSmall(i, false);
    TickSmall(k, true);
    if At(i, false).id == At(k, true).id {
      IdForInjective(At(i, false).sortKey, At(k, true).sortKey);
    }
  }

  /* ----- a hash that tells the two sets apart ----- */

  /** The sum itself, as a fingerprint. */
  function SumHash(x: seq<byte>): Id {
    if |x| >= 32 then x[..32] else seq(32, _ => 0)
  }

  lemma {:induction false} LeBytesPrefix(n: nat, k: nat, m: nat)
    requires m <= k
    ensures LeBytes(n, k)[..m] == LeBytes(n, m)
    decreases k
  {
    if m > 0 {
      LeBytesPrefix(n / 256, k - 1, m - 1);
      assert LeBytes(n, k)[..m] == [n % 256] + LeBytes(n / 256, k - 1)[..m - 1];
    }
  }

  lemma SumHashIsSum(s: seq<Item>, t: seq<Item>)
    requires SumIds(s) < Pow256(16) && SumIds(t) < Pow256(16)
    requires FingerprintOf(SumHash, s) == FingerprintOf(SumHash, t)
    ensures SumIds(s) == SumIds(t)
  {
    hide LeBytes, LittleEndian, SumIds, Varint.Encode;
    SumPrint(s);
    SumPrint(t);
    ValueOfLeBytes(SumIds(s), 16);
    ValueOfLeBytes(SumIds(t), 16);
  }

  lemma SixteenPowers()
    ensures Pow256(16) == 0x1_0000_0000_0000_0000_0000_0000_0000_0000
  {
    NinePowers();
    assert Pow256(10) == 0x1_0000_0000_0000_0000_0000;
    assert Pow256(11) == 0x100_0000_0000_0000_0000_0000;
    assert Pow256(12) == 0x1_0000_0000_0000_0000_0000_0000;
    assert Pow256(13) == 0x100_0000_0000_0000_0000_0000_0000;
    assert Pow256(14) == 0x1_0000_0000_0000_0000_0000_0000_0000;
    assert Pow256(15) == 0x100_0000_0000_0000_0000_0000_0000_0000;
  }

  lemma SumPrint(s: seq<Item>)
    requires SumIds(s) < Pow256(16)
    ensures FingerprintOf(SumHash, s) == LeBytes(SumIds(s), 16)
  {
    hide LeBytes, SumIds, Varint.Encode, Pow256;
    var n := SumIds(s);
    assert n % MODULUS == n by { Reduced(n); }
    var x := LeBytes(n, 32) + Varint.Encode(|s|);
    assert x[..32] == LeBytes(n, 32);
    LeBytesPrefix(n, 32, 16);
  }

  lemma Reduced(n: nat)
    requires n < Pow256(16)
    ensures n % MODULUS == n
  {
    hide Pow256;
    SixteenPowers();
    ModUnique(n, MODULUS, 0, n);
  }

  lemma {:induction false} SumAtMost(s: seq<Item>, m: nat)
    requires forall i :: 0 <= i < |s| ==> LittleEndian(s[i].id) <= m
    ensures SumIds(s) <= |s| * m
  {
    hide LittleEndian;
    if s != [] {
      var n := |s| - 1;
      SumAtMost(s[..n], m);
      assert |s| * m == n * m + m;
    }
  }

  lemma {:induction false} SumAtLeast(s: seq<Item>, i: nat)
    requires i < |s|
    ensures SumIds(s) >= LittleEndian(s[i].id)
  {
    hide LittleEndian;
    var n := |s| - 1;
    if i < n {
      SumAtLeast(s[..n], i);
    }
  }

  /** What the ids of either side look like as numbers. */
  lemma SideValues(wide: bool, x: Item)
    requires x in Side(wide)
    ensures var v := LittleEndian(x.id);
            && x.sortKey < 0x80_0000 && v == IdValue(x.sortKey)
            && (if wide then !OnlyOurs(x.sortKey) else !OnlyTheirs(x.sortKey))
            && (if OnlyOurs(x.sortKey) || OnlyTheirs(x.sortKey) then true else x in Side(!wide))
  {
    hide IdFor, LittleEndian;
    var k :| 0 <= k < |Side(wide)| && Side(wide)[k] == x;
    OneOf(x);
    IdForValue(x.sortKey);
    Shape(k, wide);
  }

  lemma Shape(k: nat, wide: bool)
    requires k < |Side(wide)|
    ensures var x := At(k, wide);
            && x.sortKey < 0x80_0000
            && (if wide then !OnlyOurs(x.sortKey) else !OnlyTheirs(x.sortKey))
            && (OnlyOurs(x.sortKey) || OnlyTheirs(x.sortKey) || x in Side(!wide))
  {
    hide IdFor;
    var b, r := k / BLOCK, k % BLOCK;
    var x := At(k, wide);
    if b < SAME {
      SameItem(k);
      assert Side(!wide)[k] == x;
    } else if wide {
      assert x.sortKey / STRIDE == b && x.sortKey % STRIDE == 2 * r;
      if b < BLOCKS && 2 * r < BLOCK {
        var j := BLOCK * b + 2 * r;
        assert j / BLOCK == b && j % BLOCK == 2 * r;
        assert Side(false)[j] == x;
      }
    } else {
      assert x.sortKey / STRIDE == b && x.sortKey % STRIDE == r;
      if r % 2 == 0 {
        var j := BLOCK * b + r / 2;
        assert j / BLOCK == b && j % BLOCK == r / 2;
        assert Side(true)[j] == x;
      }
    }
  }

  /** Items of one side. */
  ghost predicate From(wide: bool, s: seq<Item>) {
    |s| <= 3615 && forall i :: 0 <= i < |s| ==> s[i] in Side(wide)
  }

  /** No item that only one side holds. */
  ghost predicate Plain(s: seq<Item>) {
    forall i :: 0 <= i < |s| ==> !OnlyOurs(s[i].sortKey) && !OnlyTheirs(s[i].sortKey)
  }

  lemma SumBounds(wide: bool, s: seq<Item>)
    requires From(wide, s)
    ensures SumIds(s) <= |s| * (OUR_MARK + 0x80_0000)
    ensures wide ==> SumIds(s) <= |s| * (THEIR_MARK + 0x80_0000)
    ensures Plain(s) ==> SumIds(s) <= |s| * 0x80_0000
    ensures !Plain(s) ==> SumIds(s) >= if wide then THEIR_MARK else OUR_MARK
  {
    hide LittleEndian, OnlyOurs, OnlyTheirs, Side, SumIds;
    forall i | 0 <= i < |s|
      ensures LittleEndian(s[i].id) == IdValue(s[i].sortKey) && s[i].sortKey < 0x80_0000
      ensures if wide then !OnlyOurs(s[i].sortKey) else !OnlyTheirs(s[i].sortKey)
    {
      SideValues(wide, s[i]);
    }
    SumAtMost(s, OUR_MARK + 0x80_0000);
    if wide {
      SumAtMost(s, THEIR_MARK + 0x80_0000);
    }
    if Plain(s) {
      SumAtMost(s, 0x80_0000);
    } else {
      var i :| 0 <= i < |s| && (OnlyOurs(s[i].sortKey) || OnlyTheirs(s[i].sortKey));
      SumAtLeast(s, i);
    }
  }

  /** Equal sums leave room for nothing that only one side holds. */
  lemma EqualSumsPlain(x: seq<Item>, y: seq<Item>)
    requires From(false, x) && From(true, y) && SumIds(x) == SumIds(y)
    ensures Plain(x) && Plain(y)
  {
    hide From, Plain, SumIds;
    SumBounds(false, x);
    SumBounds(true, y);
    assert |x| <= 3615 && |y| <= 3615 by { FromShort(false, x); FromShort(true, y); }
  }

  lemma FromShort(wide: bool, s: seq<Item>)
    requires From(wide, s)
    ensures |s| <= 3615
  {
  }

  lemma SliceFrom(wide: bool, lo: nat, hi: nat)
    requires Sorted(Side(wide)) && lo <= hi
    ensures From(wide, Slice(Side(wide), lo, hi)) && Sorted(Slice(Side(wide), lo, hi))
    ensures forall x :: x in Slice(Side(wide), lo, hi) <==> x in Side(wide) && lo <= Key(x) < hi
  {
    hide Key, Rank, Side;
    RankMonotone(Side(wide), lo, hi);
    forall x ensures x in Slice(Side(wide), lo, hi) <==> x in Side(wide) && lo <= Key(x) < hi {
      SliceMembers(Side(wide), lo, hi, x);
    }
  }

  lemma PlainIsShared(wide: bool, s: seq<Item>)
    requires From(wide, s) && Plain(s)
    ensures forall x :: x in s ==> x in Side(!wide)
  {
    hide Side, LittleEndian, OnlyOurs, OnlyTheirs;
    forall x | x in s ensures x in Side(!wide) {
      SideValues(wide, x);
    }
  }

  /** Under the sum itself as hash, the two sets never collide. */
  lemma SumTellsApart()
    ensures Apart(SumHash)
  {
    hide Side, Sorted, Slice, FingerprintOf, From, Plain, SumIds;
    SideSorted(false);
    SideSorted(true);
    forall lo: nat, hi: nat | lo <= hi
      && FingerprintOf(SumHash, Slice(Side(false), lo, hi)) == FingerprintOf(SumHash, Slice(Side(true), lo, hi))
      ensures Slice(Side(false), lo, hi) == Slice(Side(true), lo, hi)
    {
      var x, y := Slice(Side(false), lo, hi), Slice(Side(true), lo, hi);
      SliceFrom(false, lo, hi);
      SliceFrom(true, lo, hi);
      assert SumIds(x) == SumIds(y) by { SumsAgree(x, y); }
      EqualSumsPlain(x, y);
      PlainIsShared(false, x);
      PlainIsShared(true, y);
      SameOrder(x, y);
    }
  }

  lemma SumsAgree(x: seq<Item>, y: seq<Item>)
    requires From(false, x) && From(true, y) && FingerprintOf(SumHash, x) == FingerprintOf(SumHash, y)
    ensures SumIds(x) == SumIds(y)
  {
    hide From, Plain, SumIds, FingerprintOf, Pow256;
    SumBounds(false, x);
    SumBounds(true, y);
    FromShort(false, x);
    FromShort(true, y);
    SixteenPowers();
    SumHashIsSum(x, y);
  }

  /** The session in every detail: with the sum as hash, nothing is left open. */
  lemma SumSessionLosesItems(k: nat)
    requires BLOCK * BLOCKS <= k < 3615
    ensures var a, b := Engine(SumHash, false), Engine(SumHash, true);
            && Pair(a, b)
            && var w, lost := After(a, b, 4), b.items[k].id;
               w.Done? && lost in IdSet(b.items) && lost !in IdSet(a.items) && lost !in w.need
  {
    hide Side, Apart, Pair, After, IdSet;
    SumTellsApart();
    SessionLosesItems(SumHash, k);
  }
}
