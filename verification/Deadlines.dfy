/**
  What the clock does to a link (core/src/link/driver.rs): exactly when a reading
  closes it, and that over any calls no link outlives its deadlines unnoticed.
 */
module Deadlines {
  import opened Base
  import opened Ciphers
  import opened Drivers
  import opened DriverRuns

  /** How old the link is by this reading; a reading from before its opening counts as none. */
  function Age(openedAt: u64, now: u64): nat {
    if now < openedAt then 0 else now - openedAt
  }

  /** Its handshake has taken too long. */
  predicate Stalled<Y>(cfg: LinkConfig, d: Driver<Y>, now: u64) {
    !d.phase.InTransport? && Age(d.openedAt, now) >= cfg.handshakeTimeout
  }

  /** It has lived too long. */
  predicate Outlived<Y>(cfg: LinkConfig, d: Driver<Y>, now: u64) {
    Age(d.openedAt, now) >= cfg.maxLifetime
  }

  /** What closing for this reason leaves: the link ended, one event, nothing sent. */
  predicate ClosesFor<Y>(d: Driver<Y>, reason: CloseReason, d': Driver<Y>, out: Out) {
    d'.phase == Ended(reason) && d'.keys.None? && out == Out([], [Closed(reason)])
  }

  /**
    A tick on a live link: it ends with HandshakeTimeout exactly when it is not up
    and its age has reached the timeout, otherwise with LifetimeExpired exactly
    when its age has reached the lifetime; it then sends nothing and reports just
    that. In every other case nothing changes.
   */
  lemma TickCloses<Y, V>(env: Env<Y, V>, d: Driver<Y>, now: u64)
    requires !d.phase.Ended?
    ensures var (d', out) := OnTick(env, d, now);
            && (Stalled(env.config, d, now) <==> d'.phase == Ended(HandshakeTimeout))
            && (!Stalled(env.config, d, now) && Outlived(env.config, d, now) <==> d'.phase == Ended(LifetimeExpired))
            && (ByClock(d'.phase) ==> ClosesFor(d, d'.phase.reason, d', out))
            && (!ByClock(d'.phase) ==> d' == d && out == NOTHING)
  {
  }

  /** The same of bytes: past a deadline they are not looked at, and bytes alone never end a link for its age. */
  lemma BytesClose<Y, V>(env: Env<Y, V>, d: Driver<Y>, store: V, bytes: seq<byte>, now: u64)
    requires Usable(env) && Valid(d) && !d.phase.Ended?
    ensures var t := OnBytes(env, d, store, bytes, now);
            && (Stalled(env.config, d, now) <==> t.d.phase == Ended(HandshakeTimeout))
            && (!Stalled(env.config, d, now) && Outlived(env.config, d, now) <==> t.d.phase == Ended(LifetimeExpired))
            && (ByClock(t.d.phase) ==> ClosesFor(d, t.d.phase.reason, t.d, t.out) && t.store == store)
  {
    hide Usable, Drain, Valid;
    if Overdue(env.config, d, now).None? {
      BufferIsFree(d, d.buf + bytes);
      DrainForward(env, d.(buf := d.buf + bytes), store, NOTHING);
    }
  }

  /** The reading a call brings, if it brings one. */
  function ReadingOf(call: Call): Option<u64> {
    match call
    case Bytes(_, now) => Some(now)
    case Tick(now) => Some(now)
    case _ => None
  }

  /** A call on a live link past a deadline closes it. */
  lemma CallCloses<Y, V>(env: Env<Y, V>, d: Driver<Y>, store: V, call: Call)
    requires Usable(env) && Valid(d) && !d.phase.Ended?
    ensures var t, reading := Do(env, d, store, call), ReadingOf(call);
            && t.d.openedAt == d.openedAt
            && (reading.Some? && (Stalled(env.config, d, reading.value) || Outlived(env.config, d, reading.value)) <==> ByClock(t.d.phase))
  {
    hide Usable, Drain, Valid, OnBytes, OnTick, Start, OpenSync, SendOne;
    match call
    case Bytes(bytes, now) =>
      BytesClose(env, d, store, bytes, now);
      OnBytesForward(env, d, store, bytes, now);
    case Tick(now) =>
      TickCloses(env, d, now);
      TickForward(env, d, now);
    case _ =>
      OthersForward(env, d, store, call);
  }

  lemma OnBytesForward<Y, V>(env: Env<Y, V>, d: Driver<Y>, store: V, bytes: seq<byte>, now: u64)
    requires Usable(env) && Valid(d)
    ensures OnBytes(env, d, store, bytes, now).d.openedAt == d.openedAt
  {
    hide Usable, Drain, Valid;
    if !d.phase.Ended? && Overdue(env.config, d, now).None? {
      BufferIsFree(d, d.buf + bytes);
      DrainForward(env, d.(buf := d.buf + bytes), store, NOTHING);
    }
  }

  lemma TickForward<Y, V>(env: Env<Y, V>, d: Driver<Y>, now: u64)
    ensures OnTick(env, d, now).0.openedAt == d.openedAt
  {
  }

  lemma OthersForward<Y, V>(env: Env<Y, V>, d: Driver<Y>, store: V, call: Call)
    requires Usable(env) && Valid(d) && !d.phase.Ended? && ReadingOf(call).None?
    ensures var t := Do(env, d, store, call);
            t.d.openedAt == d.openedAt && !ByClock(t.d.phase)
  {
    hide Usable, SealFrame, Valid;
  }

  /** A reading that leaves the link alone: young enough to live, and to be in its handshake if it is. */
  predicate InTime<Y>(cfg: LinkConfig, d: Driver<Y>, now: u64) {
    Age(d.openedAt, now) < cfg.maxLifetime && (!d.phase.InTransport? ==> Age(d.openedAt, now) < cfg.handshakeTimeout)
  }

  /** Every reading so far was. */
  ghost predicate AllInTime<Y>(cfg: LinkConfig, d: Driver<Y>, calls: seq<Call>) {
    forall i :: 0 <= i < |calls| && ReadingOf(calls[i]).Some? ==> InTime(cfg, d, ReadingOf(calls[i]).value)
  }

  /** Some reading came too late for a link opened then. */
  ghost predicate SomeLate(cfg: LinkConfig, openedAt: u64, calls: seq<Call>) {
    exists i :: 0 <= i < |calls| && ReadingOf(calls[i]).Some?
                && (Age(openedAt, ReadingOf(calls[i]).value) >= cfg.handshakeTimeout || Age(openedAt, ReadingOf(calls[i]).value) >= cfg.maxLifetime)
  }

  /** One more call. */
  lemma CallInTime<Y, V>(env: Env<Y, V>, d: Driver<Y>, store: V, before: seq<Call>, call: Call)
    requires Usable(env) && Valid(d) && !d.phase.Ended? && AllInTime(env.config, d, before)
    ensures var t := Do(env, d, store, call);
            && t.d.openedAt == d.openedAt
            && (!t.d.phase.Ended? ==> AllInTime(env.config, t.d, before + [call]))
            && (ByClock(t.d.phase) ==> SomeLate(env.config, d.openedAt, before + [call]))
  {
    hide Usable, Valid, Do;
    CallCloses(env, d, store, call);
    var t, all := Do(env, d, store, call), before + [call];
    if d.phase.InTransport? {
      StaysUp(env, d, store, call);
    }
    if !t.d.phase.Ended? {
      forall i | 0 <= i < |all| && ReadingOf(all[i]).Some? ensures InTime(env.config, t.d, ReadingOf(all[i]).value) {
        if i < |before| {
          assert all[i] == before[i];
        }
      }
    }
    if ByClock(t.d.phase) {
      assert all[|before|] == call;
    }
  }

  lemma StaysUp<Y, V>(env: Env<Y, V>, d: Driver<Y>, store: V, call: Call)
    requires Usable(env) && Valid(d) && d.phase.InTransport?
    ensures Do(env, d, store, call).d.phase.InTransport? || Do(env, d, store, call).d.phase.Ended?
  {
    hide Usable, Drain, SealFrame, Valid;
    if call.Bytes? && Overdue(env.config, d, call.now).None? {
      BufferIsFree(d, d.buf + call.bytes);
      DrainForward(env, d.(buf := d.buf + call.bytes), store, NOTHING);
    }
  }

  /** A late reading stays one. */
  lemma LateStays(cfg: LinkConfig, openedAt: u64, before: seq<Call>, call: Call)
    requires SomeLate(cfg, openedAt, before)
    ensures SomeLate(cfg, openedAt, before + [call])
  {
    hide ReadingOf;
    var i :| 0 <= i < |before| && ReadingOf(before[i]).Some?
             && (Age(openedAt, ReadingOf(before[i]).value) >= cfg.handshakeTimeout || Age(openedAt, ReadingOf(before[i]).value) >= cfg.maxLifetime);
    assert (before + [call])[i] == before[i];
  }

  lemma {:induction false} LiveInTime<Y, V>(env: Env<Y, V>, d: Driver<Y>, store: V, calls: seq<Call>)
    requires Usable(env) && Valid(d) && LogOk(d, []) && !d.phase.Ended?
    ensures var h := Live(env, d, store, calls);
            && h.d.openedAt == d.openedAt
            && (!h.d.phase.Ended? ==> AllInTime(env.config, h.d, calls))
            && (ByClock(h.d.phase) ==> SomeLate(env.config, d.openedAt, calls))
  {
    hide Usable, Valid, LogOk, Do, AllInTime, SomeLate, FramesOk;
    if calls == [] {
      NoneLate(env.config, d);
    } else {
      var n := |calls| - 1;
      var before := calls[..n];
      LiveInTime(env, d, store, before);
      var h := Live(env, d, store, before);
      CallOk(h.log, env, h.d, h.store, calls[n]);
      assert calls == before + [calls[n]];
      if h.d.phase.Ended? {
        if ByClock(h.d.phase) {
          LateStays(env.config, d.openedAt, before, calls[n]);
        }
      } else {
        CallInTime(env, h.d, h.store, before, calls[n]);
      }
    }
  }

  lemma NoneLate<Y>(cfg: LinkConfig, d: Driver<Y>)
    ensures AllInTime(cfg, d, [])
  {
  }

  /**
    Over any calls on a new link: as long as it is live every clock reading was
    below its lifetime, and below the handshake timeout too as long as it is not
    up. So the first later reading ended it, for good. And the clock ends no link
    without a reading that late.
   */
  lemma DeadlinesHold<Y, V>(env: Env<Y, V>, initiator: bool, s: Key, e: Key, syncer: Y, openedAt: u64, store: V, calls: seq<Call>)
    requires Usable(env)
    ensures var h := LifeOf(env, initiator, s, e, syncer, openedAt, store, calls);
            && h.d.openedAt == openedAt
            && (!h.d.phase.Ended? ==> AllInTime(env.config, h.d, calls))
            && (ByClock(h.d.phase) ==> SomeLate(env.config, openedAt, calls))
  {
    hide Usable, Valid, LogOk, AllInTime, SomeLate, Live;
    NewIsValid(initiator, s, e, syncer, openedAt);
    LiveInTime(env, NewDriver(initiator, s, e, syncer, openedAt), store, calls);
  }
}
