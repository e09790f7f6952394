/**
  What the handshake gate guarantees over whole histories
  (core/src/link/limiter.rs): the admission rate per address across collection
  and re-creation of buckets, and the number of buckets kept.
 */
module LimiterRuns {
  import opened Base
  import opened Limiters

  datatype Call =
    | Admission(addr: Addr, now: u64)
    | Outcome(ticket: nat)
    | Timeout(now: u64)

  datatype Adm = Adm(addr: Addr, at: u64)

  /** The gate, the admissions so far, and the last clock reading of an admission request. */
  datatype Trace = Trace(gate: Gate, log: seq<Adm>, now: u64)

  function Extend(cfg: Config, t: Trace, call: Call): Trace {
    match call
    case Admission(addr, now) =>
      var (g, ticket) := AdmitSpec(cfg, t.gate, addr, now);
      Trace(g, if ticket.Some? then t.log + [Adm(addr, now)] else t.log, now)
    case Outcome(ticket) => t.(gate := Resolve(t.gate, ticket))
    case Timeout(now) => t.(gate := ExpireSpec(t.gate, now))
  }

  function Exec(cfg: Config, calls: seq<Call>): Trace {
    if calls == [] then Trace(NEW, [], 0) else Extend(cfg, Exec(cfg, calls[..|calls| - 1]), calls[|calls| - 1])
  }

  /** Clock readings of admission requests never go back. */
  predicate Nondecreasing(calls: seq<Call>) {
    forall i, j :: 0 <= i < j < |calls| && calls[i].Admission? && calls[j].Admission? ==> calls[i].now <= calls[j].now
  }

  predicate Hit(a: Adm, addr: Addr, from: u64, to: u64) {
    a.addr == addr && from <= a.at <= to
  }

  /** Admissions of one address within a closed window. */
  function Count(log: seq<Adm>, addr: Addr, from: u64, to: u64): nat {
    if log == [] then 0
    else Count(log[..|log| - 1], addr, from, to) + if Hit(log[|log| - 1], addr, from, to) then 1 else 0
  }

  function CeilDiv(w: nat, i: nat): nat
    requires i > 0
  {
    (w + i - 1) / i
  }

  /* ----- how full a bucket is ----- */

  /** Tokens in microseconds, phase included, after the lazy refill. */
  function Level(cfg: Config, b: Bucket, now: u64): int {
    var r := Refill(cfg, b, now);
    r.tokens * cfg.interval + (now - r.last)
  }

  /** The level of an address; no bucket means a full one. */
  function LevelOf(cfg: Config, g: Gate, addr: Addr, now: u64): int {
    if addr in g.buckets then Level(cfg, g.buckets[addr], now) else cfg.burst * cfg.interval
  }

  ghost predicate Sane(cfg: Config, b: Bucket, now: u64) {
    b.tokens <= cfg.burst && b.last <= now
  }

  /** Refill in plain arithmetic. */
  lemma RefillIs(cfg: Config, b: Bucket, now: u64)
    requires cfg.interval > 0 && Sane(cfg, b, now)
    ensures var q := (now - b.last) / cfg.interval;
            Refill(cfg, b, now) == Bucket(Min(b.tokens + q, cfg.burst), b.last + q * cfg.interval)
    ensures Sane(cfg, Refill(cfg, b, now), now) && now - Refill(cfg, b, now).last < cfg.interval
  {
    QuotientBelow(now - b.last, cfg.interval);
  }

  lemma Times(a: int, b: int, i: int)
    requires a <= b && i >= 0
    ensures a * i <= b * i
  {
  }

  /** The level: what the clock added, capped at a full bucket plus the phase. */
  lemma LevelIs(cfg: Config, b: Bucket, now: u64)
    requires cfg.interval > 0 && Sane(cfg, b, now)
    ensures var e, i := now - b.last, cfg.interval;
            Level(cfg, b, now) == if b.tokens + e / i <= cfg.burst then b.tokens * i + e else cfg.burst * i + e % i
    ensures Level(cfg, b, now) <= cfg.burst * cfg.interval + cfg.interval - 1
    ensures Level(cfg, b, now) <= b.tokens * cfg.interval + (now - b.last)
  {
    RefillIs(cfg, b, now);
    var e, i := now - b.last, cfg.interval;
    var q := e / i;
    QuotientBelow(e, i);
    if b.tokens + q <= cfg.burst {
      Distribute(b.tokens, q, i);
      Times(b.tokens + q, cfg.burst, i);
    } else {
      Times(cfg.burst, b.tokens + q, i);
      Distribute(b.tokens, q, i);
    }
  }

  lemma Distribute(a: int, b: int, i: int)
    ensures (a + b) * i == a * i + b * i
  {
  }

  /** The level grows no faster than the clock. */
  lemma LevelGrows(cfg: Config, b: Bucket, now: u64, later: u64)
    requires cfg.interval > 0 && Sane(cfg, b, now) && now <= later
    ensures Level(cfg, b, later) <= Level(cfg, b, now) + (later - now)
  {
    hide Level;
    LevelIs(cfg, b, now);
    LevelIs(cfg, b, later);
    var e, f, i := now - b.last, later - b.last, cfg.interval;
    QuotientBelow(e, i);
    QuotientBelow(f, i);
    QuotientMonotone(e, f, i);
    if b.tokens + e / i > cfg.burst {
      Times(e / i, f / i, i);
    }
  }

  lemma QuotientMonotone(e: nat, f: nat, i: nat)
    requires e <= f && i > 0
    ensures e / i <= f / i
  {
    QuotientBelow(e, i);
    QuotientBelow(f, i);
    if e / i > f / i {
      Times(f / i + 1, e / i, i);
    }
  }

  /** Taking a token costs one interval. */
  lemma LevelSpends(cfg: Config, b: Bucket, now: u64)
    requires cfg.interval > 0 && Sane(cfg, b, now) && Refill(cfg, b, now).tokens > 0
    ensures var r := Refill(cfg, b, now);
            var taken := r.(tokens := r.tokens - 1);
            Sane(cfg, taken, now) && Level(cfg, taken, now) == Level(cfg, b, now) - cfg.interval
  {
    hide Refill;
    RefillIs(cfg, b, now);
    var r := Refill(cfg, b, now);
    var taken := r.(tokens := r.tokens - 1);
    RefillIs(cfg, taken, now);
    SmallQuotient(now - r.last, cfg.interval);
    Distribute(r.tokens - 1, 1, cfg.interval);
  }

  lemma SmallQuotient(e: nat, i: nat)
    requires e < i
    ensures e / i == 0
  {
  }

  /** What is collected was full, unless the deadline product saturated. */
  lemma CollectedWasFull(cfg: Config, b: Bucket, now: u64)
    requires cfg.interval > 0 && Sane(cfg, b, now) && !Retained(cfg, b, now)
    ensures || Level(cfg, b, now) >= cfg.burst * cfg.interval
            || (now == U64_MAX && b.last == 0 && (cfg.burst - b.tokens) * cfg.interval > U64_MAX)
  {
    hide Level;
    LevelIs(cfg, b, now);
    var e, i := now - b.last, cfg.interval;
    if e >= (cfg.burst - b.tokens) * i {
      assert (cfg.burst - b.tokens) * i == cfg.burst * i - b.tokens * i;
    }
  }

  /* ----- what every history keeps ----- */

  /** Some admission of this address came no earlier than the bucket's refill mark. */
  ghost predicate Backed(log: seq<Adm>, addr: Addr, b: Bucket) {
    exists i :: 0 <= i < |log| && log[i].addr == addr && log[i].at >= b.last
  }

  /** A bucket still marked with time zero was created then and never refilled. */
  ghost predicate FromStart(cfg: Config, log: seq<Adm>, addr: Addr, b: Bucket) {
    b.last == 0 ==>
      && Count(log, addr, 0, U64_MAX) == cfg.burst - b.tokens
      && Count(log, addr, 0, 0) >= 1
      && forall i :: 0 <= i < |log| && log[i].addr == addr ==> log[i].at < cfg.interval
  }

  ghost predicate BucketOk(cfg: Config, t: Trace, addr: Addr, b: Bucket) {
    && Sane(cfg, b, t.now) && b.tokens < cfg.burst
    && Backed(t.log, addr, b) && FromStart(cfg, t.log, addr, b)
  }

  ghost predicate GateOk(cfg: Config, t: Trace) {
    && (forall a :: a in t.gate.buckets ==> BucketOk(cfg, t, a, t.gate.buckets[a]))
    && (forall i :: 0 <= i < |t.log| ==> t.log[i].at <= t.now)
    && (t.now == 0 ==> forall a :: Count(t.log, a, 0, U64_MAX) > 0 ==> a in t.gate.buckets)
  }

  lemma CountSnoc(log: seq<Adm>, x: Adm, addr: Addr, from: u64, to: u64)
    ensures Count(log + [x], addr, from, to) == Count(log, addr, from, to) + if Hit(x, addr, from, to) then 1 else 0
  {
    assert (log + [x])[..|log|] == log;
  }

  lemma {:induction false} CountParts(log: seq<Adm>, addr: Addr, from: u64, to: u64)
    ensures Count(log, addr, from, to) <= Count(log, addr, 0, U64_MAX)
    ensures from > 0 ==> Count(log, addr, 0, 0) + Count(log, addr, from, to) <= Count(log, addr, 0, U64_MAX)
  {
    if log != [] {
      CountParts(log[..|log| - 1], addr, from, to);
    }
  }

  lemma {:induction false} CountSome(log: seq<Adm>, addr: Addr, from: u64, to: u64)
    ensures Count(log, addr, from, to) > 0 <==> exists i :: 0 <= i < |log| && Hit(log[i], addr, from, to)
  {
    if log != [] {
      var n := |log| - 1;
      CountSome(log[..n], addr, from, to);
      if i :| 0 <= i < |log| && Hit(log[i], addr, from, to) {
        if i < n {
          assert log[..n][i] == log[i];
        }
      }
      if j :| 0 <= j < n && Hit(log[..n][j], addr, from, to) {
        assert Hit(log[j], addr, from, to);
      }
    }
  }

  /** The configurations the gate is meant for. */
  predicate Usable(cfg: Config) {
    cfg.burst >= 1 && cfg.interval > 0
  }

  /** A bucket nobody asked about is still fine after someone else's admission. */
  lemma OtherBucketOk(cfg: Config, t: Trace, a: Addr, b: Bucket, x: Adm, g: Gate)
    requires BucketOk(cfg, t, a, b) && x.addr != a && t.now <= x.at
    ensures BucketOk(cfg, Trace(g, t.log + [x], x.at), a, b)
  {
    var log := t.log + [x];
    CountSnoc(t.log, x, a, 0, U64_MAX);
    CountSnoc(t.log, x, a, 0, 0);
    var i :| 0 <= i < |t.log| && t.log[i].addr == a && t.log[i].at >= b.last;
    assert log[i] == t.log[i];
  }

  /** The bucket that paid for an admission. */
  lemma PayingBucketOk(cfg: Config, t: Trace, addr: Addr, now: u64, g: Gate)
    requires Usable(cfg) && GateOk(cfg, t) && t.now <= now
    requires Refill(cfg, BucketFor(cfg, t.gate, addr, now), now).tokens > 0
    ensures var r := Refill(cfg, BucketFor(cfg, t.gate, addr, now), now);
            BucketOk(cfg, Trace(g, t.log + [Adm(addr, now)], now), addr, r.(tokens := r.tokens - 1))
  {
    hide Count, Refill;
    var x, b := Adm(addr, now), BucketFor(cfg, t.gate, addr, now);
    var log := t.log + [x];
    CountSnoc(t.log, x, addr, 0, U64_MAX);
    CountSnoc(t.log, x, addr, 0, 0);
    RefillIs(cfg, b, now);
    var r := Refill(cfg, b, now);
    assert log[|t.log|] == x;
    QuotientBelow(now - b.last, cfg.interval);
    if r.last == 0 {
      LastZero(cfg, b, now);
      if addr !in t.gate.buckets {
        assert Count(t.log, addr, 0, U64_MAX) == 0;
        NoneYet(t.log, addr);
      }
    }
  }

  lemma LastZero(cfg: Config, b: Bucket, now: u64)
    requires Usable(cfg) && Sane(cfg, b, now) && Refill(cfg, b, now).last == 0
    ensures b.last == 0 && now < cfg.interval && Refill(cfg, b, now) == b
  {
    RefillIs(cfg, b, now);
    var q := (now - b.last) / cfg.interval;
    QuotientBelow(now - b.last, cfg.interval);
    if q > 0 {
      Times(1, q, cfg.interval);
    }
  }

  lemma NoneYet(log: seq<Adm>, addr: Addr)
    requires Count(log, addr, 0, U64_MAX) == 0
    ensures forall i :: 0 <= i < |log| ==> log[i].addr != addr
  {
    forall i | 0 <= i < |log| ensures log[i].addr != addr {
      CountSome(log, addr, 0, U64_MAX);
      assert !Hit(log[i], addr, 0, U64_MAX);
    }
  }

  /** A refusal for lack of tokens changes nothing. */
  lemma RefusalIdle(cfg: Config, t: Trace, addr: Addr, now: u64)
    requires Usable(cfg) && GateOk(cfg, t) && t.now <= now
    requires Refill(cfg, BucketFor(cfg, t.gate, addr, now), now).tokens == 0
    ensures addr in t.gate.buckets && Refill(cfg, t.gate.buckets[addr], now) == t.gate.buckets[addr]
    ensures t.gate.buckets[addr := Refill(cfg, t.gate.buckets[addr], now)] == t.gate.buckets
  {
    hide Count, Backed, FromStart;
    var b := BucketFor(cfg, t.gate, addr, now);
    RefillIs(cfg, b, now);
    var q := (now - b.last) / cfg.interval;
    QuotientBelow(now - b.last, cfg.interval);
    assert q == 0;
  }

  lemma LaterBucketOk(cfg: Config, t: Trace, a: Addr, b: Bucket, t': Trace)
    requires BucketOk(cfg, t, a, b) && t'.log == t.log && t.now <= t'.now
    ensures BucketOk(cfg, t', a, b)
  {
  }

  /** Time zero is over, or nothing has been collected yet. */
  lemma NothingCollectedAtStart(cfg: Config, b: Bucket, now: u64)
    requires Usable(cfg) && b.tokens < cfg.burst && now == 0
    ensures Retained(cfg, b, now)
  {
    Times(1, cfg.burst - b.tokens, cfg.interval);
  }

  lemma GateAdmits(cfg: Config, t: Trace, addr: Addr, now: u64)
    requires Usable(cfg) && GateOk(cfg, t) && t.now <= now
    requires |t.gate.halfOpen| < cfg.maxHalfOpen && Refill(cfg, BucketFor(cfg, t.gate, addr, now), now).tokens > 0
    ensures GateOk(cfg, Extend(cfg, t, Admission(addr, now)))
  {
    hide Count, Refill, BucketOk, Retained;
    var t' := Extend(cfg, t, Admission(addr, now));
    var x, r := Adm(addr, now), Refill(cfg, BucketFor(cfg, t.gate, addr, now), now);
    PayingBucketOk(cfg, t, addr, now, t'.gate);
    var taken := r.(tokens := r.tokens - 1);
    forall a | a in t'.gate.buckets ensures BucketOk(cfg, t', a, t'.gate.buckets[a]) {
      if a != addr {
        OtherBucketOk(cfg, t, a, t.gate.buckets[a], x, t'.gate);
      }
    }
    if now == 0 {
      forall a | Count(t'.log, a, 0, U64_MAX) > 0 ensures a in t'.gate.buckets {
        CountSnoc(t.log, x, a, 0, U64_MAX);
        var b := if a == addr then taken else t.gate.buckets[a];
        BucketShort(cfg, if a == addr then t' else t, a, b);
        NothingCollectedAtStart(cfg, b, now);
      }
    }
  }

  lemma BucketShort(cfg: Config, t: Trace, a: Addr, b: Bucket)
    requires BucketOk(cfg, t, a, b)
    ensures b.tokens < cfg.burst && Sane(cfg, b, t.now)
  {
  }

  lemma GateStep(cfg: Config, t: Trace, call: Call)
    requires Usable(cfg) && GateOk(cfg, t) && (call.Admission? ==> t.now <= call.now)
    ensures GateOk(cfg, Extend(cfg, t, call))
  {
    hide Count, Refill, BucketOk, Retained;
    match call
    case Admission(addr, now) =>
      if |t.gate.halfOpen| < cfg.maxHalfOpen && Refill(cfg, BucketFor(cfg, t.gate, addr, now), now).tokens > 0 {
        GateAdmits(cfg, t, addr, now);
      } else {
        if |t.gate.halfOpen| < cfg.maxHalfOpen {
          RefusalIdle(cfg, t, addr, now);
        }
        forall a | a in t.gate.buckets ensures BucketOk(cfg, Trace(t.gate, t.log, now), a, t.gate.buckets[a]) {
          LaterBucketOk(cfg, t, a, t.gate.buckets[a], Trace(t.gate, t.log, now));
        }
      }
    case Outcome(ticket) =>
      SameBuckets(cfg, t, Resolve(t.gate, ticket));
    case Timeout(now) =>
      SameBuckets(cfg, t, ExpireSpec(t.gate, now));
  }

  lemma SameBuckets(cfg: Config, t: Trace, g: Gate)
    requires GateOk(cfg, t) && g.buckets == t.gate.buckets
    ensures GateOk(cfg, t.(gate := g))
  {
    hide Count;
    forall a | a in g.buckets ensures BucketOk(cfg, t.(gate := g), a, g.buckets[a]) {
      LaterBucketOk(cfg, t, a, g.buckets[a], t.(gate := g));
    }
  }

  /* ----- the rate ----- */

  /** Admissions in the window so far are paid for by a full bucket and the time since it began. */
  ghost predicate RateInv(cfg: Config, t: Trace, addr: Addr, from: u64, to: u64) {
    var n, full := Count(t.log, addr, from, to) * cfg.interval, cfg.burst * cfg.interval + cfg.interval - 1;
    && n <= full + (to - from)
    && (t.now < from ==> n == 0)
    && (from <= t.now <= to ==> n + LevelOf(cfg, t.gate, addr, t.now) <= full + (t.now - from))
  }

  /** The clock reading moves on, nothing else. */
  lemma RateWaits(cfg: Config, t: Trace, addr: Addr, from: u64, to: u64, now: u64)
    requires Usable(cfg) && GateOk(cfg, t) && from <= to && t.now <= now && RateInv(cfg, t, addr, from, to)
    ensures RateInv(cfg, t.(now := now), addr, from, to)
  {
    hide Count, Level, Backed, FromStart;
    if addr in t.gate.buckets {
      var b := t.gate.buckets[addr];
      assert BucketOk(cfg, t, addr, b);
      LevelGrows(cfg, b, t.now, now);
      LevelIs(cfg, b, now);
    }
  }

  /** A bucket dropped although it was not full: the deadline product had saturated. */
  ghost predicate Premature(cfg: Config, g: Gate, addr: Addr, now: u64) {
    addr in g.buckets && now == U64_MAX && g.buckets[addr].last == 0
    && (cfg.burst - g.buckets[addr].tokens) * cfg.interval > U64_MAX
  }

  /** The level after an admission at the current time. */
  lemma LevelAfter(cfg: Config, t: Trace, addr: Addr, who: Addr)
    requires Usable(cfg) && GateOk(cfg, t)
    requires |t.gate.halfOpen| < cfg.maxHalfOpen && Refill(cfg, BucketFor(cfg, t.gate, who, t.now), t.now).tokens > 0
    ensures var before, after := LevelOf(cfg, t.gate, addr, t.now), LevelOf(cfg, Extend(cfg, t, Admission(who, t.now)).gate, addr, t.now);
            if addr == who then after == before - cfg.interval
            else after <= before || (Premature(cfg, t.gate, addr, t.now) && after == cfg.burst * cfg.interval)
  {
    hide Count, Level, Backed, FromStart, Refill, Retained;
    var now := t.now;
    if addr == who {
      var b := BucketFor(cfg, t.gate, addr, now);
      if addr in t.gate.buckets {
        assert BucketOk(cfg, t, addr, b);
      } else {
        FreshLevel(cfg, now);
      }
      LevelSpends(cfg, b, now);
      PaidRetained(cfg, b, now);
    } else if addr in t.gate.buckets {
      var b := t.gate.buckets[addr];
      assert BucketOk(cfg, t, addr, b);
      if !Retained(cfg, b, now) {
        CollectedWasFull(cfg, b, now);
      }
    }
  }

  lemma FreshLevel(cfg: Config, now: u64)
    requires Usable(cfg)
    ensures Level(cfg, Bucket(cfg.burst, now), now) == cfg.burst * cfg.interval
  {
  }

  /** A bucket that just paid is kept. */
  lemma PaidRetained(cfg: Config, b: Bucket, now: u64)
    requires Usable(cfg) && Sane(cfg, b, now) && Refill(cfg, b, now).tokens > 0
    ensures var r := Refill(cfg, b, now);
            Retained(cfg, r.(tokens := r.tokens - 1), now)
  {
    RefillIs(cfg, b, now);
    var r := Refill(cfg, b, now);
    Times(1, cfg.burst - (r.tokens - 1), cfg.interval);
  }

  /**
    The exact condition on the configuration: the time to fill all but one token
    stays below the clock's range.
   */
  predicate Representable(cfg: Config) {
    (cfg.burst - 1) * cfg.interval < U64_MAX
  }

  /** Even a premature collection does not break the rate of a representable configuration. */
  lemma PrematureHarmless(cfg: Config, t: Trace, addr: Addr, from: u64, to: u64)
    requires Usable(cfg) && Representable(cfg) && GateOk(cfg, t) && from <= t.now <= to
    requires Premature(cfg, t.gate, addr, t.now)
    ensures Count(t.log, addr, from, to) * cfg.interval + cfg.burst * cfg.interval
            <= cfg.burst * cfg.interval + cfg.interval - 1 + (t.now - from)
  {
    hide Count, Backed;
    var b, n := t.gate.buckets[addr], Count(t.log, addr, from, to);
    assert BucketOk(cfg, t, addr, b);
    if b.tokens > 0 {
      Times(cfg.burst - b.tokens, cfg.burst - 1, cfg.interval);
    }
    assert b.tokens == 0;
    CountParts(t.log, addr, from, to);
    if from == 0 {
      Times(n, cfg.burst, cfg.interval);
      Distribute(cfg.burst - 1, 1, cfg.interval);
    } else if n > 0 {
      CountSome(t.log, addr, from, to);
      var i :| 0 <= i < |t.log| && Hit(t.log[i], addr, from, to);
      assert from < cfg.interval;
      Times(n, cfg.burst - 1, cfg.interval);
    }
  }

  lemma RateAdmits(cfg: Config, t: Trace, addr: Addr, from: u64, to: u64, who: Addr)
    requires Usable(cfg) && Representable(cfg) && GateOk(cfg, t) && from <= to && RateInv(cfg, t, addr, from, to)
    requires |t.gate.halfOpen| < cfg.maxHalfOpen && Refill(cfg, BucketFor(cfg, t.gate, who, t.now), t.now).tokens > 0
    ensures RateInv(cfg, Extend(cfg, t, Admission(who, t.now)), addr, from, to)
  {
    hide Count, LevelOf, Refill, GateOk, Premature, AdmitSpec;
    var t' := Extend(cfg, t, Admission(who, t.now));
    AdmitLogs(cfg, t, who, t.now);
    CountSnoc(t.log, Adm(who, t.now), addr, from, to);
    LevelAfter(cfg, t, addr, who);
    var n := Count(t.log, addr, from, to);
    Distribute(n, 1, cfg.interval);
    if from <= t.now <= to {
      if addr != who && Premature(cfg, t.gate, addr, t.now) {
        PrematureHarmless(cfg, t, addr, from, to);
      }
      LevelPositive(cfg, t, addr, who);
    }
  }

  lemma AdmitLogs(cfg: Config, t: Trace, who: Addr, now: u64)
    requires |t.gate.halfOpen| < cfg.maxHalfOpen && Refill(cfg, BucketFor(cfg, t.gate, who, now), now).tokens > 0
    ensures var t' := Extend(cfg, t, Admission(who, now)); t'.log == t.log + [Adm(who, now)] && t'.now == now
  {
    hide Refill, Retained;
  }

  /** Levels are never negative. */
  lemma LevelPositive(cfg: Config, t: Trace, addr: Addr, who: Addr)
    requires Usable(cfg) && GateOk(cfg, t)
    requires |t.gate.halfOpen| < cfg.maxHalfOpen && Refill(cfg, BucketFor(cfg, t.gate, who, t.now), t.now).tokens > 0
    ensures LevelOf(cfg, Extend(cfg, t, Admission(who, t.now)).gate, addr, t.now) >= 0
  {
    hide Count, Level, Refill, Retained, AdmitSpec, Backed, FromStart;
    GateStep(cfg, t, Admission(who, t.now));
    AdmitLogs(cfg, t, who, t.now);
    var t' := Extend(cfg, t, Admission(who, t.now));
    Times(0, cfg.burst, cfg.interval);
    if addr in t'.gate.buckets {
      var b := t'.gate.buckets[addr];
      assert BucketOk(cfg, t', addr, b);
      LevelIs(cfg, b, t.now);
      Times(0, b.tokens, cfg.interval);
      QuotientBelow(t.now - b.last, cfg.interval);
    }
  }

  lemma WaitedOk(cfg: Config, t: Trace, now: u64)
    requires GateOk(cfg, t) && t.now <= now
    ensures GateOk(cfg, t.(now := now))
  {
    hide Count;
    forall a | a in t.gate.buckets ensures BucketOk(cfg, t.(now := now), a, t.gate.buckets[a]) {
      LaterBucketOk(cfg, t, a, t.gate.buckets[a], t.(now := now));
    }
  }

  lemma RateStep(cfg: Config, t: Trace, call: Call, addr: Addr, from: u64, to: u64)
    requires Usable(cfg) && Representable(cfg) && GateOk(cfg, t) && from <= to && RateInv(cfg, t, addr, from, to)
    requires call.Admission? ==> t.now <= call.now
    ensures RateInv(cfg, Extend(cfg, t, call), addr, from, to)
  {
    hide Count, Level, Refill, Retained, GateOk, Usable, Representable;
    match call
    case Admission(who, now) =>
      var w := t.(now := now);
      RateWaits(cfg, t, addr, from, to, now);
      WaitedOk(cfg, t, now);
      assert Extend(cfg, t, call) == Extend(cfg, w, call);
      if |t.gate.halfOpen| < cfg.maxHalfOpen {
        if Refill(cfg, BucketFor(cfg, t.gate, who, now), now).tokens > 0 {
          RateAdmits(cfg, w, addr, from, to, who);
        } else {
          RefusalIdle(cfg, t, who, now);
        }
      }
    case Outcome(_) =>
    case Timeout(_) =>
  }

  lemma {:induction false} RunKeeps(cfg: Config, calls: seq<Call>, addr: Addr, from: u64, to: u64)
    requires Usable(cfg) && Nondecreasing(calls) && from <= to
    ensures GateOk(cfg, Exec(cfg, calls))
    ensures Exec(cfg, calls).now == 0 || exists i :: 0 <= i < |calls| && calls[i].Admission? && calls[i].now == Exec(cfg, calls).now
    ensures Representable(cfg) ==> RateInv(cfg, Exec(cfg, calls), addr, from, to)
  {
    hide GateOk, Extend, RateInv, Usable, Representable;
    if calls == [] {
      AtRest(cfg, addr, from, to);
    } else {
      var n := |calls| - 1;
      var before, call := calls[..n], calls[n];
      RunKeeps(cfg, before, addr, from, to);
      var t := Exec(cfg, before);
      ClockOf(cfg, t, call);
      if call.Admission? && t.now > 0 {
        var i :| 0 <= i < n && before[i].Admission? && before[i].now == t.now;
        assert calls[i] == before[i];
      }
      GateStep(cfg, t, call);
      if Representable(cfg) {
        RateStep(cfg, t, call, addr, from, to);
      }
      if !call.Admission? && t.now > 0 {
        var i :| 0 <= i < n && before[i].Admission? && before[i].now == t.now;
        assert calls[i] == before[i];
      }
    }
  }

  lemma ClockOf(cfg: Config, t: Trace, call: Call)
    ensures Extend(cfg, t, call).now == if call.Admission? then call.now else t.now
  {
    hide AdmitSpec;
  }

  lemma AtRest(cfg: Config, addr: Addr, from: u64, to: u64)
    requires Usable(cfg) && from <= to
    ensures GateOk(cfg, Trace(NEW, [], 0)) && RateInv(cfg, Trace(NEW, [], 0), addr, from, to)
  {
    Times(0, cfg.burst, cfg.interval);
  }

  /** The rate bound as a statement about a configuration. */
  ghost predicate RateBounded(cfg: Config)
    requires cfg.interval > 0
  {
    forall calls: seq<Call>, addr: Addr, from: u64, to: u64 :: Nondecreasing(calls) && from <= to ==>
      Count(Exec(cfg, calls).log, addr, from, to) <= cfg.burst + CeilDiv(to - from, cfg.interval)
  }

  /**
    The rate theorem: in any history, no address is admitted more often in a
    window than one burst plus one per refill interval begun in it, however its
    bucket was collected and re-created in between.
   */
  lemma RateHolds(cfg: Config, calls: seq<Call>, addr: Addr, from: u64, to: u64)
    requires Usable(cfg) && Representable(cfg) && Nondecreasing(calls) && from <= to
    ensures Count(Exec(cfg, calls).log, addr, from, to) <= cfg.burst + CeilDiv(to - from, cfg.interval)
  {
    hide Exec, Count, GateOk;
    RunKeeps(cfg, calls, addr, from, to);
    var n, i, w := Count(Exec(cfg, calls).log, addr, from, to), cfg.interval, to - from;
    QuotientBelow(w + i - 1, i);
    var k := CeilDiv(w, i);
    if n > cfg.burst + k {
      Times(cfg.burst + k + 1, n, i);
      Distribute(cfg.burst, k + 1, i);
      Distribute(k, 1, i);
    }
  }

  /* ----- where the bound fails ----- */

  /** `k` admissions of one address at one instant, each resolved at once. */
  function Volley(addr: Addr, now: u64, first: nat, k: nat): seq<Call> {
    if k == 0 then [] else Volley(addr, now, first, k - 1) + [Admission(addr, now), Outcome(first + k - 1)]
  }

  function Copies(a: Adm, k: nat): seq<Adm> {
    if k == 0 then [] else Copies(a, k - 1) + [a]
  }

  lemma ExecTwo(cfg: Config, calls: seq<Call>, a: Call, b: Call)
    ensures Exec(cfg, calls + [a, b]) == Extend(cfg, Extend(cfg, Exec(cfg, calls), a), b)
  {
    hide Extend;
    var all := calls + [a, b];
    assert all[..|all| - 1] == calls + [a] && (calls + [a])[..|calls|] == calls;
  }

  /** One admission, resolved at once, of an address whose bucket was just used or is not there. */
  lemma OneShot(cfg: Config, t: Trace, addr: Addr, now: u64, tokens: u32)
    requires Usable(cfg) && cfg.maxHalfOpen >= 1 && t.gate.halfOpen == map[] && 0 < tokens <= cfg.burst
    requires if addr in t.gate.buckets then t.gate.buckets[addr] == Bucket(tokens, now) else tokens == cfg.burst
    ensures Extend(cfg, Extend(cfg, t, Admission(addr, now)), Outcome(t.gate.nextTicket)) ==
            Trace(Gate(Collect(cfg, t.gate.buckets[addr := Bucket(tokens - 1, now)], now), map[], t.gate.nextTicket + 1),
                  t.log + [Adm(addr, now)], now)
  {
    hide Retained, Refill, Collect, Deadline;
    NoRefill(cfg, tokens, now);
    assert BucketFor(cfg, t.gate, addr, now) == Bucket(tokens, now);
    var m: map<nat, u64> := map[];
    assert m[t.gate.nextTicket := Deadline(cfg, now)] - {t.gate.nextTicket} == map[];
  }

  lemma NoRefill(cfg: Config, tokens: u32, now: u64)
    ensures Refill(cfg, Bucket(tokens, now), now) == Bucket(tokens, now)
  {
  }

  lemma ZeroElapsed(cfg: Config, tokens: u32, now: u64)
    requires Usable(cfg) && tokens < cfg.burst
    ensures Retained(cfg, Bucket(tokens, now), now)
  {
    Times(1, cfg.burst - tokens, cfg.interval);
  }

  lemma {:induction false} VolleyRun(cfg: Config, before: seq<Call>, addr: Addr, now: u64, k: nat)
    requires Usable(cfg) && cfg.maxHalfOpen >= 1 && k <= cfg.burst
    requires var g := Exec(cfg, before).gate;
             g.halfOpen == map[] && addr !in g.buckets && forall a :: a in g.buckets ==> Retained(cfg, g.buckets[a], now)
    ensures var t, t' := Exec(cfg, before), Exec(cfg, before + Volley(addr, now, Exec(cfg, before).gate.nextTicket, k));
            && t'.gate == Gate(if k == 0 then t.gate.buckets else t.gate.buckets[addr := Bucket(cfg.burst - k, now)], map[], t.gate.nextTicket + k)
            && t'.log == t.log + Copies(Adm(addr, now), k)
  {
    hide Exec, Extend, Retained, Usable;
    var t := Exec(cfg, before);
    var first := t.gate.nextTicket;
    if k == 0 {
      assert before + [] == before && t.log + [] == t.log;
    } else {
      VolleyRun(cfg, before, addr, now, k - 1);
      var calls := before + Volley(addr, now, first, k - 1);
      var mid := Exec(cfg, calls);
      var shot := [Admission(addr, now), Outcome(first + k - 1)];
      assert before + Volley(addr, now, first, k) == calls + shot;
      ExecTwo(cfg, calls, shot[0], shot[1]);
      OneShot(cfg, mid, addr, now, cfg.burst - (k - 1));
      ZeroElapsed(cfg, cfg.burst - k, now);
      var buckets := mid.gate.buckets[addr := Bucket(cfg.burst - k, now)];
      assert buckets == t.gate.buckets[addr := Bucket(cfg.burst - k, now)];
      assert Collect(cfg, buckets, now) == buckets;
      assert Copies(Adm(addr, now), k) == Copies(Adm(addr, now), k - 1) + [Adm(addr, now)];
    }
  }

  lemma {:induction false} CountVolley(log: seq<Adm>, addr: Addr, now: u64, k: nat)
    ensures Count(log + Copies(Adm(addr, now), k), addr, 0, U64_MAX) == Count(log, addr, 0, U64_MAX) + k
  {
    hide Count;
    if k == 0 {
      assert log + [] == log;
    } else {
      CountVolley(log, addr, now, k - 1);
      var fewer := log + Copies(Adm(addr, now), k - 1);
      assert log + Copies(Adm(addr, now), k) == fewer + [Adm(addr, now)];
      CountSnoc(fewer, Adm(addr, now), addr, 0, U64_MAX);
    }
  }

  lemma {:induction false} VolleyAt(addr: Addr, now: u64, first: nat, k: nat)
    ensures forall i :: 0 <= i < |Volley(addr, now, first, k)| && Volley(addr, now, first, k)[i].Admission? ==>
                          Volley(addr, now, first, k)[i].now == now
  {
    if k > 0 {
      VolleyAt(addr, now, first, k - 1);
    }
  }

  const PEER: Addr := [0]
  const OTHER: Addr := [1]

  /** A burst at time zero, someone else at the end of time, and the burst again. */
  function Replay(cfg: Config): seq<Call> {
    Volley(PEER, 0, 0, cfg.burst)
    + [Admission(OTHER, U64_MAX), Outcome(cfg.burst)]
    + Volley(PEER, U64_MAX, cfg.burst + 1, cfg.burst)
  }

  lemma ReplayOrdered(cfg: Config)
    ensures Nondecreasing(Replay(cfg))
  {
    hide Volley;
    var a, b := Volley(PEER, 0, 0, cfg.burst), Volley(PEER, U64_MAX, cfg.burst + 1, cfg.burst);
    VolleyAt(PEER, 0, 0, cfg.burst);
    VolleyAt(PEER, U64_MAX, cfg.burst + 1, cfg.burst);
    var r := Replay(cfg);
    forall i | 0 <= i < |r| && r[i].Admission? ensures r[i].now == if i < |a| then 0 else U64_MAX {
      if i < |a| {
        assert r[i] == a[i];
      } else if i >= |a| + 2 {
        assert r[i] == b[i - |a| - 2];
      }
    }
  }

  /** Time zero spent, the other address admitted at the end of time: the first bucket is gone. */
  lemma ReplayCollects(cfg: Config)
    requires Usable(cfg) && !Representable(cfg) && cfg.maxHalfOpen >= 1
    ensures var t := Exec(cfg, Volley(PEER, 0, 0, cfg.burst) + [Admission(OTHER, U64_MAX), Outcome(cfg.burst)]);
            && t.gate == Gate(map[OTHER := Bucket(cfg.burst - 1, U64_MAX)], map[], cfg.burst + 1)
            && t.log == Copies(Adm(PEER, 0), cfg.burst) + [Adm(OTHER, U64_MAX)]
  {
    hide Extend, Volley, Retained, Usable, Representable;
    NothingRun(cfg);
    VolleyRun(cfg, [], PEER, 0, cfg.burst);
    var v := Volley(PEER, 0, 0, cfg.burst);
    assert [] + v == v;
    var mid := Exec(cfg, v);
    assert [] + Copies(Adm(PEER, 0), cfg.burst) == Copies(Adm(PEER, 0), cfg.burst);
    UsableHas(cfg);
    ExecTwo(cfg, v, Admission(OTHER, U64_MAX), Outcome(cfg.burst));
    OneShot(cfg, mid, OTHER, U64_MAX, cfg.burst);
    Saturated(cfg);
    ZeroElapsed(cfg, cfg.burst - 1, U64_MAX);
    var buckets := mid.gate.buckets[OTHER := Bucket(cfg.burst - 1, U64_MAX)];
    assert Collect(cfg, buckets, U64_MAX) == map[OTHER := Bucket(cfg.burst - 1, U64_MAX)];
  }

  lemma UsableHas(cfg: Config)
    requires Usable(cfg)
    ensures cfg.burst >= 1 && cfg.interval > 0
  {
  }

  lemma NothingRun(cfg: Config)
    ensures Exec(cfg, []) == Trace(NEW, [], 0)
  {
  }

  lemma Saturated(cfg: Config)
    requires Usable(cfg) && !Representable(cfg)
    ensures !Retained(cfg, Bucket(0, 0), U64_MAX)
  {
    Times(cfg.burst - 1, cfg.burst, cfg.interval);
  }

  /** Otherwise one history breaks the bound: everything twice within the clock's range. */
  lemma RateBreaks(cfg: Config)
    requires Usable(cfg) && !Representable(cfg) && cfg.maxHalfOpen >= 1
    ensures Nondecreasing(Replay(cfg))
    ensures Count(Exec(cfg, Replay(cfg)).log, PEER, 0, U64_MAX) > cfg.burst + CeilDiv(U64_MAX, cfg.interval)
  {
    hide Exec, Extend, Volley, Retained, Count;
    ReplayOrdered(cfg);
    ReplayCollects(cfg);
    var head := Volley(PEER, 0, 0, cfg.burst) + [Admission(OTHER, U64_MAX), Outcome(cfg.burst)];
    ZeroElapsed(cfg, cfg.burst - 1, U64_MAX);
    VolleyRun(cfg, head, PEER, U64_MAX, cfg.burst);
    CountNone(PEER);
    CountVolley([], PEER, 0, cfg.burst);
    assert [] + Copies(Adm(PEER, 0), cfg.burst) == Copies(Adm(PEER, 0), cfg.burst);
    CountSnoc(Copies(Adm(PEER, 0), cfg.burst), Adm(OTHER, U64_MAX), PEER, 0, U64_MAX);
    CountVolley(Exec(cfg, head).log, PEER, U64_MAX, cfg.burst);
    CeilBelow(U64_MAX, cfg.interval, cfg.burst - 1);
  }

  lemma CountNone(addr: Addr)
    ensures Count([], addr, 0, U64_MAX) == 0
  {
  }

  lemma CeilBelow(w: nat, i: nat, k: nat)
    requires i > 0 && w <= k * i
    ensures CeilDiv(w, i) <= k
  {
    QuotientBelow(w + i - 1, i);
    if CeilDiv(w, i) > k {
      Times(k + 1, CeilDiv(w, i), i);
      Distribute(k, 1, i);
    }
  }

  /** The rate bound holds in every history exactly for the representable configurations. */
  lemma RateBoundedExactly(cfg: Config)
    requires Usable(cfg) && cfg.maxHalfOpen >= 1
    ensures RateBounded(cfg) <==> Representable(cfg)
  {
    hide Exec, Count, Representable, Replay, CeilDiv;
    if Representable(cfg) {
      forall calls: seq<Call>, addr: Addr, from: u64, to: u64 | Nondecreasing(calls) && from <= to
        ensures Count(Exec(cfg, calls).log, addr, from, to) <= cfg.burst + CeilDiv(to - from, cfg.interval)
      {
        RateHolds(cfg, calls, addr, from, to);
      }
    } else {
      RateBreaks(cfg);
    }
  }

  /* ----- how many buckets are kept ----- */

  /** Admissions less than `span` ago. */
  function Recent(log: seq<Adm>, now: u64, span: nat): seq<Adm> {
    if log == [] then []
    else
      var rest := Recent(log[..|log| - 1], now, span);
      if now - log[|log| - 1].at < span then rest + [log[|log| - 1]] else rest
  }

  /** The time in which an empty bucket fills up. */
  function Span(cfg: Config): (s: nat)
    ensures s == cfg.burst * cfg.interval
  {
    Times(0, cfg.burst, cfg.interval);
    cfg.burst * cfg.interval
  }

  lemma {:induction false} RecentHas(log: seq<Adm>, now: u64, span: nat, i: nat)
    requires i < |log| && now - log[i].at < span
    ensures log[i] in Recent(log, now, span)
  {
    if i < |log| - 1 {
      RecentHas(log[..|log| - 1], now, span, i);
    }
  }

  lemma {:induction false} AddressCount(as_: set<Addr>, log: seq<Adm>)
    requires forall a :: a in as_ ==> exists i :: 0 <= i < |log| && log[i].addr == a
    ensures |as_| <= |log|
  {
    if log == [] {
      assert as_ == {};
    } else {
      var n := |log| - 1;
      forall a | a in as_ - {log[n].addr} ensures exists i :: 0 <= i < |log[..n]| && log[..n][i].addr == a {
        var i :| 0 <= i < |log| && log[i].addr == a;
        assert log[..n][i] == log[i];
      }
      AddressCount(as_ - {log[n].addr}, log[..n]);
    }
  }

  /** The request is granted after this history. */
  predicate Admits(cfg: Config, calls: seq<Call>, addr: Addr, now: u64) {
    AdmitSpec(cfg, Exec(cfg, calls).gate, addr, now).1.Some?
  }

  /** After an admission, no more buckets are kept than there were admissions in the last refill of a burst. */
  lemma BucketsBounded(cfg: Config, calls: seq<Call>, addr: Addr, now: u64)
    requires Usable(cfg) && Nondecreasing(calls + [Admission(addr, now)]) && Admits(cfg, calls, addr, now)
    ensures var t := Exec(cfg, calls + [Admission(addr, now)]);
            |t.gate.buckets| <= |Recent(t.log, now, Span(cfg))|
  {
    hide Count, Refill, Exec, GateOk, AdmitSpec, Recent, Retained;
    var all := calls + [Admission(addr, now)];
    RunKeeps(cfg, all, addr, 0, 0);
    ExecOne(cfg, calls, Admission(addr, now));
    var t := Exec(cfg, all);
    KeptAreShort(cfg, Exec(cfg, calls).gate, addr, now);
    var recent := Recent(t.log, now, Span(cfg));
    forall a | a in t.gate.buckets.Keys ensures exists i :: 0 <= i < |recent| && recent[i].addr == a {
      KeptIsRecent(cfg, t, a, now);
    }
    AddressCount(t.gate.buckets.Keys, recent);
    assert |t.gate.buckets| == |t.gate.buckets.Keys|;
  }

  lemma KeptAreShort(cfg: Config, g: Gate, addr: Addr, now: u64)
    requires AdmitSpec(cfg, g, addr, now).1.Some?
    ensures var g' := AdmitSpec(cfg, g, addr, now).0;
            forall a :: a in g'.buckets ==> Retained(cfg, g'.buckets[a], now)
  {
    hide Refill, Retained;
  }

  lemma KeptIsRecent(cfg: Config, t: Trace, a: Addr, now: u64)
    requires Usable(cfg) && GateOk(cfg, t) && t.now == now && a in t.gate.buckets && Retained(cfg, t.gate.buckets[a], now)
    ensures var recent := Recent(t.log, now, Span(cfg));
            exists i :: 0 <= i < |recent| && recent[i].addr == a
  {
    hide Count, Recent, FromStart;
    var b := t.gate.buckets[a];
    assert BucketOk(cfg, t, a, b);
    var i :| 0 <= i < |t.log| && t.log[i].addr == a && t.log[i].at >= b.last;
    Times(cfg.burst - b.tokens, cfg.burst, cfg.interval);
    RecentHas(t.log, now, cfg.burst * cfg.interval, i);
    var recent := Recent(t.log, now, Span(cfg));
    var j :| 0 <= j < |recent| && recent[j] == t.log[i];
  }

  lemma ExecOne(cfg: Config, calls: seq<Call>, call: Call)
    ensures Exec(cfg, calls + [call]) == Extend(cfg, Exec(cfg, calls), call)
  {
    hide Extend;
    assert (calls + [call])[..|calls|] == calls;
  }
}
