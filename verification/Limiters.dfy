/**
  The handshake gate (core/src/link/limiter.rs): a token bucket per remote
  address with lazy refill and collection of idle buckets, and a cap on
  half-open handshakes. All time is in microseconds and injected.
 */
module Limiters {
  import opened Base

  type u32 = n: int | 0 <= n < 0x1_0000_0000
  const U32_MAX: int := 0xFFFF_FFFF

  type Addr = seq<byte>

  datatype Config = Config(burst: u32, interval: u64, maxHalfOpen: nat, timeout: u64)

  datatype Bucket = Bucket(tokens: u32, last: u64)

  /** Buckets by address, deadlines of half-open handshakes by ticket. */
  datatype Gate = Gate(buckets: map<Addr, Bucket>, halfOpen: map<nat, u64>, nextTicket: nat)

  function Min(a: int, b: int): int {
    if a < b then a else b
  }

  function Elapsed(b: Bucket, now: u64): u64 {
    if now >= b.last then now - b.last else 0
  }

  lemma QuotientBelow(e: nat, i: nat)
    requires i > 0
    ensures 0 <= e / i * i <= e && e - e / i * i == e % i < i
  {
  }

  /** Lazy refill: whole intervals become tokens, the remainder is kept as phase. */
  function Refill(cfg: Config, b: Bucket, now: u64): Bucket {
    if cfg.interval == 0 || Elapsed(b, now) / cfg.interval == 0 then b
    else
      var q := Elapsed(b, now) / cfg.interval;
      QuotientBelow(Elapsed(b, now), cfg.interval);
      Bucket(Min(Min(b.tokens + Min(q, cfg.burst), U32_MAX), cfg.burst), b.last + q * cfg.interval)
  }

  /** Whether a bucket is kept: it would not be full by now; the product saturates. */
  predicate Retained(cfg: Config, b: Bucket, now: u64) {
    Elapsed(b, now) < Min((cfg.burst - b.tokens) * cfg.interval, U64_MAX)
  }

  function BucketFor(cfg: Config, g: Gate, addr: Addr, now: u64): Bucket {
    if addr in g.buckets then g.buckets[addr] else Bucket(cfg.burst, now)
  }

  function Deadline(cfg: Config, now: u64): u64 {
    Min(now + cfg.timeout, U64_MAX)
  }

  function Collect(cfg: Config, buckets: map<Addr, Bucket>, now: u64): map<Addr, Bucket> {
    map a | a in buckets && Retained(cfg, buckets[a], now) :: buckets[a]
  }

  /** A remote address wants to start a handshake. */
  function AdmitSpec(cfg: Config, g: Gate, addr: Addr, now: u64): (Gate, Option<nat>) {
    if |g.halfOpen| >= cfg.maxHalfOpen then (g, None)
    else
      var b := Refill(cfg, BucketFor(cfg, g, addr, now), now);
      if b.tokens == 0 then (g.(buckets := g.buckets[addr := b]), None)
      else
        var buckets := g.buckets[addr := b.(tokens := b.tokens - 1)];
        (Gate(Collect(cfg, buckets, now), g.halfOpen[g.nextTicket := Deadline(cfg, now)], g.nextTicket + 1), Some(g.nextTicket))
  }

  function Resolve(g: Gate, ticket: nat): Gate {
    g.(halfOpen := g.halfOpen - {ticket})
  }

  function Expired(g: Gate, now: u64): set<nat> {
    set t | t in g.halfOpen && g.halfOpen[t] <= now
  }

  function ExpireSpec(g: Gate, now: u64): Gate {
    g.(halfOpen := g.halfOpen - Expired(g, now))
  }

  const NEW: Gate := Gate(map[], map[], 0)

  /** The gate as an object. */
  class HandshakeLimiter {
    const config: Config
    var buckets: map<Addr, Bucket>
    var halfOpen: map<nat, u64>
    var nextTicket: nat

    function View(): Gate
      reads this
    {
      Gate(buckets, halfOpen, nextTicket)
    }

    constructor (config: Config)
      ensures View() == NEW && this.config == config
    {
      this.config := config;
      buckets, halfOpen, nextTicket := map[], map[], 0;
    }

    method Admit(addr: Addr, now: u64) returns (ticket: Option<nat>)
      modifies this
      ensures (View(), ticket) == AdmitSpec(config, old(View()), addr, now)
    {
      hide Refill, Retained;
      if |halfOpen| >= config.maxHalfOpen {
        return None;
      }
      if addr !in buckets {
        buckets := buckets[addr := Bucket(config.burst, now)];
      }
      var bucket := Refill(config, buckets[addr], now);
      buckets := buckets[addr := bucket];
      assert buckets == old(buckets)[addr := bucket];
      if bucket.tokens == 0 {
        return None;
      }
      buckets := buckets[addr := bucket.(tokens := bucket.tokens - 1)];
      assert buckets == old(buckets)[addr := bucket.(tokens := bucket.tokens - 1)];
      buckets := map a | a in buckets && Retained(config, buckets[a], now) :: buckets[a];
      assert buckets == Collect(config, old(buckets)[addr := bucket.(tokens := bucket.tokens - 1)], now);
      var t := nextTicket;
      nextTicket := nextTicket + 1;
      halfOpen := halfOpen[t := Deadline(config, now)];
      ticket := Some(t);
    }

    /** The admitted handshake completed, or its link closed before that. */
    method Settle(ticket: nat)
      modifies this
      ensures View() == Resolve(old(View()), ticket)
    {
      halfOpen := halfOpen - {ticket};
    }

    /** Collects the half-open handshakes whose deadline has passed, each once. */
    method Expire(now: u64) returns (expired: set<nat>)
      modifies this
      ensures expired == Expired(old(View()), now) && View() == ExpireSpec(old(View()), now)
      ensures Expired(View(), now) == {}
    {
      expired := set t | t in halfOpen && halfOpen[t] <= now;
      halfOpen := halfOpen - expired;
    }
  }
}
