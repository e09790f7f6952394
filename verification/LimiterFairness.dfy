/**
  What the handshake gate owes its callers (core/src/link/limiter.rs): below the
  cap it refuses only an address that has used up its rate, and a ticket expires
  exactly at its deadline.
 */
module LimiterFairness {
  import opened Base
  import opened Limiters
  import opened LimiterRuns

  /* ----- refusals ----- */

  /**
    What a bucket lacks was spent: since some moment when it was full, every
    token gone was an admission, and every interval since put one back.
   */
  ghost predicate Spent(cfg: Config, log: seq<Adm>, addr: Addr, now: u64, b: Bucket, since: u64) {
    since <= b.last && cfg.burst * cfg.interval + (b.last - since) <= (b.tokens + Count(log, addr, since, now)) * cfg.interval
  }

  ghost predicate Honest(cfg: Config, log: seq<Adm>, addr: Addr, now: u64, b: Bucket) {
    b.tokens <= cfg.burst && b.last <= now && exists since: u64 :: Spent(cfg, log, addr, now, b, since)
  }

  ghost predicate AllHonest(cfg: Config, t: Trace) {
    forall addr :: addr in t.gate.buckets ==> Honest(cfg, t.log, addr, t.now, t.gate.buckets[addr])
  }

  lemma {:induction false} CountLater(log: seq<Adm>, addr: Addr, from: u64, to: u64, to': u64)
    requires to <= to'
    ensures Count(log, addr, from, to) <= Count(log, addr, from, to')
  {
    if log != [] {
      CountLater(log[..|log| - 1], addr, from, to, to');
    }
  }

  lemma Fewer(a: nat, b: nat, i: nat)
    requires a <= b
    ensures a * i <= b * i
  {
    Times(a, b, i);
  }

  /** A full bucket lacks nothing. */
  lemma FullIsHonest(cfg: Config, log: seq<Adm>, addr: Addr, now: u64, b: Bucket)
    requires b.tokens == cfg.burst && b.last <= now
    ensures Honest(cfg, log, addr, now, b)
  {
    hide Count;
    Fewer(cfg.burst, b.tokens + Count(log, addr, b.last, now), cfg.interval);
    assert Spent(cfg, log, addr, now, b, b.last);
  }

  lemma LaterHonest(cfg: Config, log: seq<Adm>, addr: Addr, now: u64, later: u64, b: Bucket)
    requires Honest(cfg, log, addr, now, b) && now <= later
    ensures Honest(cfg, log, addr, later, b)
  {
    hide Count;
    var since: u64 :| Spent(cfg, log, addr, now, b, since);
    CountLater(log, addr, since, now, later);
    Fewer(b.tokens + Count(log, addr, since, now), b.tokens + Count(log, addr, since, later), cfg.interval);
    assert Spent(cfg, log, addr, later, b, since);
  }

  /** Refilling puts back exactly what the clock allows, or fills the bucket. */
  lemma RefillHonest(cfg: Config, log: seq<Adm>, addr: Addr, now: u64, b: Bucket)
    requires cfg.interval > 0 && Honest(cfg, log, addr, now, b)
    ensures Honest(cfg, log, addr, now, Refill(cfg, b, now)) && now - Refill(cfg, b, now).last < cfg.interval
  {
    hide Count, Refill;
    RefillIs(cfg, b, now);
    QuotientBelow(now - b.last, cfg.interval);
    var q, r := (now - b.last) / cfg.interval, Refill(cfg, b, now);
    if r.tokens == cfg.burst {
      FullIsHonest(cfg, log, addr, now, r);
    } else {
      var since: u64 :| Spent(cfg, log, addr, now, b, since);
      Distribute(b.tokens + Count(log, addr, since, now), q, cfg.interval);
      assert Spent(cfg, log, addr, now, r, since);
    }
  }

  lemma PayHonest(cfg: Config, log: seq<Adm>, addr: Addr, now: u64, b: Bucket)
    requires Honest(cfg, log, addr, now, b) && b.tokens > 0
    ensures Honest(cfg, log + [Adm(addr, now)], addr, now, b.(tokens := b.tokens - 1))
  {
    hide Count;
    var since: u64 :| Spent(cfg, log, addr, now, b, since);
    CountSnoc(log, Adm(addr, now), addr, since, now);
    assert Spent(cfg, log + [Adm(addr, now)], addr, now, b.(tokens := b.tokens - 1), since);
  }

  lemma OtherHonest(cfg: Config, log: seq<Adm>, addr: Addr, now: u64, b: Bucket, x: Adm)
    requires Honest(cfg, log, addr, now, b)
    ensures Honest(cfg, log + [x], addr, now, b)
  {
    hide Count;
    var since: u64 :| Spent(cfg, log, addr, now, b, since);
    CountSnoc(log, x, addr, since, now);
    Fewer(b.tokens + Count(log, addr, since, now), b.tokens + Count(log + [x], addr, since, now), cfg.interval);
    assert Spent(cfg, log + [x], addr, now, b, since);
  }

  /** The bucket a request is judged by. */
  function Judging(cfg: Config, t: Trace, addr: Addr, now: u64): Bucket {
    Refill(cfg, BucketFor(cfg, t.gate, addr, now), now)
  }

  lemma JudgingHonest(cfg: Config, t: Trace, addr: Addr, now: u64)
    requires cfg.interval > 0 && AllHonest(cfg, t) && t.now <= now
    ensures Honest(cfg, t.log, addr, now, Judging(cfg, t, addr, now)) && now - Judging(cfg, t, addr, now).last < cfg.interval
  {
    hide Honest, Refill, Count;
    if addr in t.gate.buckets {
      LaterHonest(cfg, t.log, addr, t.now, now, t.gate.buckets[addr]);
    } else {
      FullIsHonest(cfg, t.log, addr, now, Bucket(cfg.burst, now));
    }
    RefillHonest(cfg, t.log, addr, now, BucketFor(cfg, t.gate, addr, now));
  }

  lemma AdmissionHonest(cfg: Config, t: Trace, addr: Addr, now: u64)
    requires cfg.interval > 0 && AllHonest(cfg, t) && t.now <= now
    ensures AllHonest(cfg, Extend(cfg, t, Admission(addr, now)))
  {
    hide Honest, Refill, Count, Retained;
    var t', b := Extend(cfg, t, Admission(addr, now)), Judging(cfg, t, addr, now);
    JudgingHonest(cfg, t, addr, now);
    if |t.gate.halfOpen| < cfg.maxHalfOpen && b.tokens > 0 {
      PayHonest(cfg, t.log, addr, now, b);
    }
    forall a | a in t'.gate.buckets ensures Honest(cfg, t'.log, a, t'.now, t'.gate.buckets[a]) {
      if a != addr || |t.gate.halfOpen| >= cfg.maxHalfOpen {
        assert a in t.gate.buckets && t'.gate.buckets[a] == t.gate.buckets[a];
        LaterHonest(cfg, t.log, a, t.now, now, t.gate.buckets[a]);
        OtherHonest(cfg, t.log, a, now, t.gate.buckets[a], Adm(addr, now));
      }
    }
  }

  lemma {:induction false} HistoryHonest(cfg: Config, calls: seq<Call>)
    requires cfg.interval > 0 && Nondecreasing(calls)
    ensures AllHonest(cfg, Exec(cfg, calls))
    ensures forall i :: 0 <= i < |calls| && calls[i].Admission? ==> calls[i].now <= Exec(cfg, calls).now
    ensures Exec(cfg, calls).now == 0 || exists i :: 0 <= i < |calls| && calls[i].Admission? && calls[i].now == Exec(cfg, calls).now
  {
    hide Honest, AdmitSpec;
    if calls != [] {
      var n := |calls| - 1;
      var before, call := calls[..n], calls[n];
      HistoryHonest(cfg, before);
      var t := Exec(cfg, before);
      assert forall i :: 0 <= i < n ==> before[i] == calls[i];
      if call.Admission? {
        assert t.now <= call.now;
        AdmissionHonest(cfg, t, call.addr, call.now);
      }
    }
  }

  lemma WholeIntervals(count: nat, burst: nat, w: nat, p: nat, i: nat)
    requires i > 0 && p < i && p <= w && burst * i + (w - p) <= count * i
    ensures count >= burst + w / i
  {
    QuotientBelow(w, i);
    if count < burst + w / i {
      Fewer(count + 1, burst + w / i, i);
      Distribute(burst, w / i, i);
      Distribute(count, 1, i);
    }
  }

  /**
    Fairness: with fewer half-open handshakes than the cap, a request is refused
    only if, since some moment, its address has had the burst and one admission
    per whole interval already.
   */
  lemma RefusedOnlyWhenSpent(cfg: Config, calls: seq<Call>, addr: Addr, now: u64)
    requires cfg.interval > 0 && Nondecreasing(calls + [Admission(addr, now)])
    ensures var t := Exec(cfg, calls);
            var ticket := AdmitSpec(cfg, t.gate, addr, now).1;
            && (|t.gate.halfOpen| >= cfg.maxHalfOpen ==> ticket.None?)
            && (ticket.None? && |t.gate.halfOpen| < cfg.maxHalfOpen ==>
                  exists since: u64 :: since <= now && Count(t.log, addr, since, now) >= cfg.burst + (now - since) / cfg.interval)
  {
    hide Honest, Refill, Count, Collect;
    var t, all := Exec(cfg, calls), calls + [Admission(addr, now)];
    assert forall i :: 0 <= i < |calls| ==> all[i] == calls[i];
    assert all[|calls|] == Admission(addr, now);
    HistoryHonest(cfg, calls);
    JudgingHonest(cfg, t, addr, now);
    var b := Judging(cfg, t, addr, now);
    if |t.gate.halfOpen| < cfg.maxHalfOpen && b.tokens == 0 {
      EmptyWasSpent(cfg, t.log, addr, now, b);
    }
  }

  lemma EmptyWasSpent(cfg: Config, log: seq<Adm>, addr: Addr, now: u64, b: Bucket)
    requires cfg.interval > 0 && Honest(cfg, log, addr, now, b) && b.tokens == 0 && now - b.last < cfg.interval
    ensures exists since: u64 :: since <= now && Count(log, addr, since, now) >= cfg.burst + (now - since) / cfg.interval
  {
    hide Count;
    var since: u64 :| Spent(cfg, log, addr, now, b, since);
    WholeIntervals(Count(log, addr, since, now), cfg.burst, now - since, now - b.last, cfg.interval);
  }

  /** With no interval every bucket is always full. */
  lemma {:induction false} NoIntervalFull(cfg: Config, calls: seq<Call>)
    requires cfg.interval == 0
    ensures forall a :: a in Exec(cfg, calls).gate.buckets ==> Exec(cfg, calls).gate.buckets[a].tokens == cfg.burst
  {
    if calls != [] {
      NoIntervalFull(cfg, calls[..|calls| - 1]);
    }
  }

  /** With no interval there is no rate: below the cap only an empty burst refuses. */
  lemma NoIntervalRefuses(cfg: Config, calls: seq<Call>, addr: Addr, now: u64)
    requires cfg.interval == 0
    ensures var t := Exec(cfg, calls);
            AdmitSpec(cfg, t.gate, addr, now).1.None? <==> |t.gate.halfOpen| >= cfg.maxHalfOpen || cfg.burst == 0
  {
    NoIntervalFull(cfg, calls);
  }

  /* ----- tickets ----- */

  /** Calls that leave a ticket alone: not its outcome, and no reading at or past its deadline. */
  ghost predicate Spares(calls: seq<Call>, ticket: nat, deadline: int) {
    forall i :: 0 <= i < |calls| ==> calls[i] != Outcome(ticket) && (calls[i].Timeout? ==> calls[i].now < deadline)
  }

  /** A ticket held with this deadline, its number used up. */
  ghost predicate Held(g: Gate, ticket: nat, deadline: u64) {
    ticket in g.halfOpen && g.halfOpen[ticket] == deadline && ticket < g.nextTicket
  }

  ghost predicate Gone(g: Gate, ticket: nat) {
    ticket !in g.halfOpen && ticket < g.nextTicket
  }

  lemma SparedStep(cfg: Config, t: Trace, call: Call, ticket: nat, deadline: u64)
    requires Held(t.gate, ticket, deadline)
    requires call != Outcome(ticket) && (call.Timeout? ==> call.now < deadline)
    ensures Held(Extend(cfg, t, call).gate, ticket, deadline)
  {
    hide Refill, Collect, Deadline;
  }

  lemma GoneStep(cfg: Config, t: Trace, call: Call, ticket: nat)
    requires Gone(t.gate, ticket)
    ensures Gone(Extend(cfg, t, call).gate, ticket)
  {
    hide Refill, Collect, Deadline;
  }

  /** A ticket stays with its deadline through such calls. */
  lemma {:induction false} TicketStays(cfg: Config, before: seq<Call>, later: seq<Call>, ticket: nat, deadline: u64)
    requires Held(Exec(cfg, before).gate, ticket, deadline) && Spares(later, ticket, deadline)
    ensures Held(Exec(cfg, before + later).gate, ticket, deadline)
    decreases |later|
  {
    hide Extend, Held, Exec;
    if later == [] {
      assert before + later == before;
    } else {
      var n := |later| - 1;
      TicketStays(cfg, before, later[..n], ticket, deadline);
      assert before + later == before + later[..n] + [later[n]];
      ExecOne(cfg, before + later[..n], later[n]);
      SparedStep(cfg, Exec(cfg, before + later[..n]), later[n], ticket, deadline);
    }
  }

  /** A ticket that is gone never comes back. */
  lemma {:induction false} TicketGone(cfg: Config, before: seq<Call>, later: seq<Call>, ticket: nat)
    requires Gone(Exec(cfg, before).gate, ticket)
    ensures Gone(Exec(cfg, before + later).gate, ticket)
    decreases |later|
  {
    hide Extend, Gone, Exec;
    if later == [] {
      assert before + later == before;
    } else {
      var n := |later| - 1;
      TicketGone(cfg, before, later[..n], ticket);
      assert before + later == before + later[..n] + [later[n]];
      ExecOne(cfg, before + later[..n], later[n]);
      GoneStep(cfg, Exec(cfg, before + later[..n]), later[n], ticket);
    }
  }

  lemma Issued(cfg: Config, t: Trace, addr: Addr, at: u64)
    requires AdmitSpec(cfg, t.gate, addr, at).1.Some?
    ensures Held(Extend(cfg, t, Admission(addr, at)).gate, AdmitSpec(cfg, t.gate, addr, at).1.value,
                 if at + cfg.timeout < 0xFFFF_FFFF_FFFF_FFFF then at + cfg.timeout else 0xFFFF_FFFF_FFFF_FFFF)
  {
    hide Refill, Collect;
  }

  lemma Ends(cfg: Config, t: Trace, ticket: nat, deadline: u64, now: u64)
    requires Held(t.gate, ticket, deadline)
    ensures ticket in Expired(t.gate, now) <==> deadline <= now
    ensures deadline <= now ==> Gone(Extend(cfg, t, Timeout(now)).gate, ticket)
    ensures Gone(Extend(cfg, t, Outcome(ticket)).gate, ticket)
  {
  }

  /**
    The life of a ticket: admitted at `at`, it is held until its outcome or the
    first reading at or past `min(at + timeout, 2^64 - 1)`; that reading, and no
    earlier one, expires it, and it never comes back.
   */
  lemma TicketLife(cfg: Config, before: seq<Call>, addr: Addr, at: u64, later: seq<Call>, now: u64, after: seq<Call>)
    requires AdmitSpec(cfg, Exec(cfg, before).gate, addr, at).1.Some?
    requires var ticket := AdmitSpec(cfg, Exec(cfg, before).gate, addr, at).1.value;
             Spares(later, ticket, if at + cfg.timeout < 0xFFFF_FFFF_FFFF_FFFF then at + cfg.timeout else 0xFFFF_FFFF_FFFF_FFFF)
    ensures var ticket := AdmitSpec(cfg, Exec(cfg, before).gate, addr, at).1.value;
            var calls := before + [Admission(addr, at)] + later;
            && (ticket in Expired(Exec(cfg, calls).gate, now) <==> now >= at + cfg.timeout || now == 0xFFFF_FFFF_FFFF_FFFF)
            && (ticket in Expired(Exec(cfg, calls).gate, now) ==> ticket !in Exec(cfg, calls + [Timeout(now)] + after).gate.halfOpen)
            && ticket !in Exec(cfg, calls + [Outcome(ticket)] + after).gate.halfOpen
  {
    hide Extend, Exec, AdmitSpec, Held, Expired, Spares;
    var ticket := AdmitSpec(cfg, Exec(cfg, before).gate, addr, at).1.value;
    var deadline: u64 := if at + cfg.timeout < 0xFFFF_FFFF_FFFF_FFFF then at + cfg.timeout else 0xFFFF_FFFF_FFFF_FFFF;
    var admitted := before + [Admission(addr, at)];
    var calls := admitted + later;
    ExecOne(cfg, before, Admission(addr, at));
    Issued(cfg, Exec(cfg, before), addr, at);
    TicketStays(cfg, admitted, later, ticket, deadline);
    Ends(cfg, Exec(cfg, calls), ticket, deadline, now);
    ExecOne(cfg, calls, Outcome(ticket));
    TicketGone(cfg, calls + [Outcome(ticket)], after, ticket);
    if deadline <= now {
      ExecOne(cfg, calls, Timeout(now));
      TicketGone(cfg, calls + [Timeout(now)], after, ticket);
    }
  }
}
