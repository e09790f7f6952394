/**
  One round of Negentropy, as a function of the incoming ranges
  (core/src/sync/negentropy/mod.rs). The imperative engine is proved to compute
  exactly this on bytes; the protocol theorems are proved about it.
 */
module Reconcile {
  import opened Base
  import opened Items
  import opened Bounds
  import opened Ranges
  import opened IdSums

  const PROTOCOL_VERSION: byte := 0x61
  const BUCKETS: nat := 16
  const ID_LIST_THRESHOLD: nat := 32
  const FRAME_MARGIN: nat := 200
  const FRAME_LIMIT_FLOOR: nat := 4096

  /** What one engine works with: its sealed set, its frame limit, its side. */
  datatype Party = Party(hash: Hash, items: seq<Item>, limit: Option<nat>, initiator: bool)

  ghost predicate Ready(p: Party) {
    && Sorted(p.items)
    && |p.items| < U64_LIMIT
    && (p.limit.Some? ==> p.limit.value >= FRAME_LIMIT_FLOOR)
  }

  /** The first rank in `lo..hi` at or after a position, or `hi`. */
  function LowerBoundAt(s: seq<Item>, lo: nat, hi: nat, pos: nat): (r: nat)
    requires lo <= hi <= |s|
    ensures lo <= r <= hi
    ensures forall i :: lo <= i < r ==> Key(s[i]) < pos
    ensures r < hi ==> pos <= Key(s[r])
    decreases hi - lo
  {
    if lo < hi && Key(s[lo]) < pos then LowerBoundAt(s, lo + 1, hi, pos) else lo
  }

  function LowerBound(s: seq<Item>, lo: nat, hi: nat, b: Bound): (r: nat)
    requires lo <= hi <= |s|
    ensures lo <= r <= hi
  {
    LowerBoundAt(s, lo, hi, Pos(b))
  }

  /** Where bucket `i` of a range of `n` items starting at `lower` begins. */
  function Edge(lower: nat, n: nat, i: nat): nat {
    lower + i * (n / BUCKETS) + if i < n % BUCKETS then i else n % BUCKETS
  }

  lemma EdgeSteps(lower: nat, n: nat, i: nat)
    requires i < BUCKETS
    ensures Edge(lower, n, i + 1) == Edge(lower, n, i) + n / BUCKETS + if i < n % BUCKETS then 1 else 0
    ensures Edge(lower, n, 0) == lower && Edge(lower, n, BUCKETS) == lower + n
  {
  }

  lemma {:induction false} EdgeMonotone(lower: nat, n: nat, i: nat, j: nat)
    requires i <= j <= BUCKETS
    ensures lower <= Edge(lower, n, i) <= Edge(lower, n, j) <= lower + n
    ensures n >= BUCKETS && i < j ==> Edge(lower, n, i) < Edge(lower, n, j)
    decreases j - i
  {
    EdgeToEnd(lower, n, j);
    if i < j {
      EdgeSteps(lower, n, i);
      EdgeMonotone(lower, n, i + 1, j);
    }
  }

  lemma {:induction false} EdgeToEnd(lower: nat, n: nat, i: nat)
    requires i <= BUCKETS
    ensures Edge(lower, n, i) <= lower + n
    decreases BUCKETS - i
  {
    EdgeSteps(lower, n, 0);
    if i < BUCKETS {
      EdgeSteps(lower, n, i);
      EdgeToEnd(lower, n, i + 1);
    }
  }

  /** Bucket `i`: its upper bound and the fingerprint of its items. */
  function Bucket(p: Party, lower: nat, upper: nat, ub: Bound, i: nat): Range
    requires Sorted(p.items) && lower + ID_LIST_THRESHOLD <= upper <= |p.items| && i < BUCKETS
  {
    var n := upper - lower;
    EdgeMonotone(lower, n, i, i + 1);
    EdgeMonotone(lower, n, i + 1, BUCKETS);
    EdgeSteps(lower, n, i);
    var from, to := Edge(lower, n, i), Edge(lower, n, i + 1);
    var fp := Fingerprint(FingerprintOf(p.hash, p.items[from..to]));
    if to == upper then Range(ub, fp)
    else
      KeyOrder(p.items[to - 1], p.items[to]);
      Range(MinSeparating(p.items[to - 1], p.items[to]), fp)
  }

  /** Covers `lower..upper`: an id list when small, sixteen buckets otherwise. */
  function SplitRange(p: Party, lower: nat, upper: nat, ub: Bound): (rs: seq<Range>)
    requires Sorted(p.items) && lower <= upper <= |p.items|
    ensures |rs| == if upper - lower < ID_LIST_THRESHOLD then 1 else BUCKETS
  {
    if upper - lower < ID_LIST_THRESHOLD then [Range(ub, IdList(IdsOf(p.items[lower..upper])))]
    else seq(BUCKETS, i requires 0 <= i < BUCKETS => Bucket(p, lower, upper, ub, i))
  }

  /** The loop state of `reconcile`. */
  datatype State = State(
    out: seq<Range>,
    rank: nat,
    bound: Bound,
    skip: bool,
    have: seq<Id>,
    need: seq<Id>,
    stopped: bool)

  function Start(): State {
    State([], 0, FromTs(0), false, [], [], false)
  }

  /** Bytes of a message carrying these ranges, version byte included. */
  function FullLen(out: seq<Range>): nat {
    1 + |EncodeRanges(0, out)|
  }

  predicate Exceeds(limit: Option<nat>, len: nat) {
    limit.Some? && len > limit.value - FRAME_MARGIN
  }

  /** The pending coalesced Skip, if any. */
  function Flush(st: State): seq<Range> {
    if st.skip then [Range(st.bound, Skip)] else []
  }

  /** Ids of ours the peer did not list; each listed id is matched once. */
  function Unmatched(items: seq<Item>, theirs: set<Id>): seq<Id> {
    if items == [] then []
    else if items[0].id in theirs then Unmatched(items[1..], theirs - {items[0].id})
    else [items[0].id] + Unmatched(items[1..], theirs)
  }

  /** First occurrences only. */
  function Dedup(ids: seq<Id>): seq<Id> {
    if ids == [] then []
    else
      var rest := Dedup(ids[..|ids| - 1]);
      if ids[|ids| - 1] in rest then rest else rest + [ids[|ids| - 1]]
  }

  function Without(ids: seq<Id>, gone: set<Id>): seq<Id> {
    if ids == [] then []
    else
      var rest := Without(ids[..|ids| - 1], gone);
      if ids[|ids| - 1] in gone then rest else rest + [ids[|ids| - 1]]
  }

  function IdSet(items: seq<Item>): set<Id> {
    set i | 0 <= i < |items| :: items[i].id
  }

  /** How many of `n` ids fit before the frame budget runs out. */
  function Fit(limit: Option<nat>, full: nat, k: nat, n: nat): (r: nat)
    requires k <= n
    ensures k <= r <= n
    ensures r < n ==> Exceeds(limit, full + 32 * r)
    ensures forall j :: k <= j < r ==> !Exceeds(limit, full + 32 * j)
    decreases n - k
  {
    if k == n || Exceeds(limit, full + 32 * k) then k else Fit(limit, full, k + 1, n)
  }

  /** One coalesced fingerprint for everything from rank `upper` on. */
  function Continuation(p: Party, upper: nat): Range
    requires upper <= |p.items|
  {
    Range(Infinity(), Fingerprint(FingerprintOf(p.hash, p.items[upper..])))
  }

  /** Appends `o`, or drops it and stops when the frame budget is exceeded. */
  function Finish(p: Party, st: State, o: seq<Range>, upper: nat, b: Bound): State
    requires upper <= |p.items|
  {
    if Exceeds(p.limit, FullLen(st.out + o)) then st.(out := st.out + [Continuation(p, upper)], stopped := true)
    else st.(out := st.out + o, rank := upper, bound := b)
  }

  function StepIdList(p: Party, st: State, b: Bound, ids: seq<Id>, upper: nat): State
    requires Ready(p) && st.rank <= upper <= |p.items|
  {
    var ours := p.items[st.rank..upper];
    if p.initiator then
      var theirs := set i | 0 <= i < |ids| :: ids[i];
      Finish(p, st.(skip := true, have := st.have + Unmatched(ours, theirs),
                    need := st.need + Without(Dedup(ids), IdSet(ours))), [], upper, b)
    else
      var n := Fit(p.limit, FullLen(st.out), 0, |ours|);
      var end := if n < |ours| then AtItem(ours[n]) else b;
      var reply := Flush(st) + [Range(end, IdList(IdsOf(ours[..n])))];
      Finish(p, st.(skip := false, out := st.out + reply), [], st.rank + n, b)
  }

  /** One incoming range. */
  function Step(p: Party, st: State, r: Range): (st': State)
    requires Ready(p) && st.rank <= |p.items|
    ensures !st'.stopped ==> st'.rank <= |p.items|
  {
    var upper := LowerBound(p.items, st.rank, |p.items|, r.bound);
    match r.payload
    case Skip =>
      Finish(p, st.(skip := true), [], upper, r.bound)
    case Fingerprint(fp) =>
      if fp != FingerprintOf(p.hash, p.items[st.rank..upper]) then
        Finish(p, st.(skip := false), Flush(st) + SplitRange(p, st.rank, upper, r.bound), upper, r.bound)
      else
        Finish(p, st.(skip := true), [], upper, r.bound)
    case IdList(ids) =>
      StepIdList(p, st, r.bound, ids, upper)
  }

  /** All incoming ranges, until done or stopped. */
  function Process(p: Party, st: State, rs: seq<Range>): State
    requires Ready(p) && (!st.stopped ==> st.rank <= |p.items|)
    decreases |rs|
  {
    if st.stopped || rs == [] then st else Process(p, Step(p, st, rs[0]), rs[1..])
  }

  /** The same, decoding ranges as it goes. */
  function ProcessBytes(p: Party, st: State, last: u64, input: seq<byte>): Result<State, SyncError>
    requires Ready(p) && (!st.stopped ==> st.rank <= |p.items|)
    decreases |input|
  {
    if st.stopped || input == [] then Ok(st)
    else
      var (r, rest) :- DecodeRange(last, input);
      ProcessBytes(p, Step(p, st, r), r.bound.ts, rest)
  }

  datatype Round = Round(reply: Option<seq<byte>>, have: seq<Id>, need: seq<Id>)

  /** A message carrying these ranges. */
  function EncodeMessage(rs: seq<Range>): seq<byte> {
    [PROTOCOL_VERSION] + EncodeRanges(0, rs)
  }

  function Outcome(p: Party, st: State): Round {
    Round(if p.initiator && st.out == [] then None else Some(EncodeMessage(st.out)), st.have, st.need)
  }

  /** `reconcile` on an arbitrary message. */
  function ReconcileSpec(p: Party, msg: seq<byte>): Result<Round, SyncError>
    requires Ready(p)
  {
    if msg == [] then Err(Malformed("empty message"))
    else if !(0x60 <= msg[0] <= 0x6F) then Err(Malformed("invalid protocol version byte"))
    else if msg[0] != PROTOCOL_VERSION then
      if p.initiator then Err(UnsupportedVersion(msg[0]))
      else Ok(Round(Some([PROTOCOL_VERSION]), [], []))
    else
      var st :- ProcessBytes(p, Start(), 0, msg[1..]);
      Ok(Outcome(p, st))
  }

  /** The opening message. */
  function InitiateSpec(p: Party): seq<Range>
    requires Ready(p)
  {
    SplitRange(p, 0, |p.items|, Infinity())
  }

  /** On a message some encoder produced, the engine sees exactly its ranges. */
  lemma {:induction false} ProcessEncoded(p: Party, st: State, last: u64, rs: seq<Range>)
    requires Ready(p) && (!st.stopped ==> st.rank <= |p.items|)
    requires AllEncodable(last, rs)
    ensures ProcessBytes(p, st, last, EncodeRanges(last, rs)) == Ok(Process(p, st, rs))
    decreases |rs|
  {
    if !st.stopped && rs != [] {
      AllEncodableTail(last, rs);
      RangeLength(last, rs[0]);
      RangeRoundTrip(last, rs[0], EncodeRanges(rs[0].bound.ts, rs[1..]));
      ProcessEncoded(p, Step(p, st, rs[0]), rs[0].bound.ts, rs[1..]);
    }
  }

  lemma ReconcileEncoded(p: Party, rs: seq<Range>)
    requires Ready(p) && AllEncodable(0, rs)
    ensures ReconcileSpec(p, EncodeMessage(rs)) == Ok(Outcome(p, Process(p, Start(), rs)))
  {
    hide Pos, Key;
    ProcessEncoded(p, Start(), 0, rs);
    assert EncodeMessage(rs)[1..] == EncodeRanges(0, rs);
  }
}
