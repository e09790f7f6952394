/**
  Whole lives of a link (core/src/link/driver.rs): what any sequence of calls
  with any bytes and clock readings can report, and why cutting the byte stream
  differently changes nothing.
 */
module DriverRuns {
  import opened Base
  import opened Wires
  import opened Ciphers
  import opened Handshakes
  import opened Drivers

  /* ----- handlers only add to the output and do not look at unread bytes ----- */

  lemma {:induction false} RepliesAppend<Y>(c: Suite, d: Driver<Y>, ms: seq<Wire>, out: Out, out0: Out, pre: seq<LinkEvent>)
    requires Aead(c) && out.events == pre + out0.events
    ensures var (d1, o1), (d2, o2) := QueueReplies(c, d, ms, out), QueueReplies(c, d, ms, out0);
            d1 == d2 && o1.events == pre + o2.events
    decreases |ms|
  {
    hide Aead, SealFrame;
    if ms != [] && !d.phase.Ended? {
      var (d', o) := QueueSealed(c, d, ms[0], out);
      var o0 := QueueSealed(c, d, ms[0], out0).1;
      assert o.events == pre + o0.events;
      RepliesAppend(c, d', ms[1..], o, o0, pre);
    }
  }

  lemma {:induction false} RepliesIgnoreBuffer<Y>(c: Suite, d: Driver<Y>, ms: seq<Wire>, out: Out, x: seq<byte>)
    requires Aead(c)
    ensures var (d1, o1), (d2, o2) := QueueReplies(c, d, ms, out), QueueReplies(c, d.(buf := x), ms, out);
            d2 == d1.(buf := x) && o2 == o1
    decreases |ms|
  {
    hide Aead, SealFrame;
    if ms != [] && !d.phase.Ended? {
      var (d', o) := QueueSealed(c, d, ms[0], out);
      RepliesIgnoreBuffer(c, d', ms[1..], o, x);
    }
  }

  lemma HelloAppends<Y, V>(env: Env<Y, V>, d: Driver<Y>, body: seq<byte>, out: Out)
    requires Usable(env) && Valid(d) && d.phase.AwaitPeerHello?
    ensures var (d1, o1), (d2, o2) := HandleHello(env, d, body, out), HandleHello(env, d, body, NOTHING);
            d1 == d2 && o1.events == out.events + o2.events
  {
    hide Aead, EncodeMessage, DecodeMessage, Write, NewXX, MaxCommon, ClearFrame;
  }

  lemma QueueAppends<Y>(d: Driver<Y>, msg: seq<byte>, out: Out, out0: Out, pre: seq<LinkEvent>)
    requires out.events == pre + out0.events
    ensures var (d1, o1), (d2, o2) := QueueHandshake(d, msg, out), QueueHandshake(d, msg, out0);
            d1 == d2 && o1.events == pre + o2.events
  {
    hide ClearFrame;
  }

  lemma FinishAppends<Y, V>(env: Env<Y, V>, d: Driver<Y>, hs: Shake, out: Out, out0: Out, pre: seq<LinkEvent>)
    requires out.events == pre + out0.events
    ensures var (d1, o1), (d2, o2) := Finish(env, d, hs, out), Finish(env, d, hs, out0);
            d1 == d2 && o1.events == pre + o2.events
  {
    hide Hkdf2;
  }

  lemma ProceedAppends<Y, V>(env: Env<Y, V>, d: Driver<Y>, hs: Shake, out: Out)
    ensures var (d1, o1), (d2, o2) := Proceed(env, d, hs, out), Proceed(env, d, hs, NOTHING);
            d1 == d2 && o1.events == out.events + o2.events
  {
    hide Write, QueueHandshake, Finish;
    if hs.step > 3 {
      FinishAppends(env, d, hs, out, NOTHING, out.events);
    } else if Write(env.c, hs, []).Ok? {
      var (hs', msg) := Write(env.c, hs, []).value;
      QueueAppends(d, msg, out, NOTHING, out.events);
      var (d', o) := QueueHandshake(d, msg, out);
      var o0 := QueueHandshake(d, msg, NOTHING).1;
      FinishAppends(env, d', hs', o, o0, out.events);
    }
  }

  lemma HandshakeAppends<Y, V>(env: Env<Y, V>, d: Driver<Y>, body: seq<byte>, out: Out)
    requires Usable(env) && Valid(d) && d.phase.Handshaking?
    ensures var (d1, o1), (d2, o2) := HandleHandshake(env, d, body, out), HandleHandshake(env, d, body, NOTHING);
            d1 == d2 && o1.events == out.events + o2.events
  {
    hide Aead, EncodeMessage, DecodeMessage, Read, Proceed;
    if DecodeMessage(env.parse, body).Ok? && DecodeMessage(env.parse, body).value.Handshake? {
      var r := Read(env.c, d.phase.hs, DecodeMessage(env.parse, body).value.msg);
      if r.Ok? {
        ProceedAppends(env, d, r.value.0, out);
      }
    }
  }

  lemma TransportAppends<Y, V>(env: Env<Y, V>, d: Driver<Y>, store: V, body: seq<byte>, out: Out)
    requires Usable(env) && Valid(d) && d.phase.InTransport?
    ensures var t1, t2 := HandleTransport(env, d, store, body, out), HandleTransport(env, d, store, body, NOTHING);
            t1.d == t2.d && t1.store == t2.store && t1.out.events == out.events + t2.out.events
  {
    hide Aead, EncodeMessage, DecodeMessage, Receive, SealFrame, QueueReplies, IsPaddedLen, Lift;
    var r := Receive(env.c, d.phase.t, body);
    if r.1.Ok? {
      var m := DecodeMessage(env.parse, r.1.value);
      if m.Ok? {
        var q := env.sync.handle(d.syncer, store, m.value);
        var lifted := out.events + Lift(q.events);
        assert [] + Lift(q.events) == Lift(q.events);
        RepliesAppend(env.c, d.(phase := InTransport(r.0), syncer := q.syncer), q.replies,
                      out.(events := lifted), NOTHING.(events := [] + Lift(q.events)), out.events);
      }
    }
  }

  /** A body is handled the same whatever was queued before it. */
  lemma BodyAppends<Y, V>(env: Env<Y, V>, d: Driver<Y>, store: V, body: seq<byte>, out: Out)
    requires Usable(env) && Valid(d)
    ensures var t1, t2 := HandleBody(env, d, store, body, out), HandleBody(env, d, store, body, NOTHING);
            t1.d == t2.d && t1.store == t2.store && t1.out.events == out.events + t2.out.events
  {
    hide Usable, Valid, HandleHello, HandleHandshake, HandleTransport;
    match d.phase
    case AwaitPeerHello => HelloAppends(env, d, body, out);
    case Handshaking(_) => HandshakeAppends(env, d, body, out);
    case InTransport(_) => TransportAppends(env, d, store, body, out);
    case Ended(_) =>
  }

  lemma ClearIgnoresBuffer<Y, V>(env: Env<Y, V>, d: Driver<Y>, body: seq<byte>, out: Out, x: seq<byte>)
    requires Usable(env) && Valid(d) && (d.phase.AwaitPeerHello? || d.phase.Handshaking?)
    ensures d.phase.AwaitPeerHello? ==>
              HandleHello(env, d.(buf := x), body, out) == (HandleHello(env, d, body, out).0.(buf := x), HandleHello(env, d, body, out).1)
    ensures d.phase.Handshaking? ==>
              HandleHandshake(env, d.(buf := x), body, out) == (HandleHandshake(env, d, body, out).0.(buf := x), HandleHandshake(env, d, body, out).1)
  {
    hide Aead, EncodeMessage, DecodeMessage, Write, Read, NewXX, MaxCommon, ClearFrame, Hkdf2, Reached, OurTurn;
  }

  /** Nor does it depend on the bytes behind it. */
  lemma BodyIgnoresBuffer<Y, V>(env: Env<Y, V>, d: Driver<Y>, store: V, body: seq<byte>, out: Out, x: seq<byte>)
    requires Usable(env) && Valid(d)
    ensures Valid(d.(buf := x))
    ensures var t1, t2 := HandleBody(env, d, store, body, out), HandleBody(env, d.(buf := x), store, body, out);
            t2 == t1.(d := t1.d.(buf := x))
  {
    hide Aead, EncodeMessage, DecodeMessage, Receive, SealFrame, QueueReplies, IsPaddedLen, HandleHello, HandleHandshake, Reached, OurTurn;
    if d.phase.InTransport? {
      var r := Receive(env.c, d.phase.t, body);
      if r.1.Ok? {
        var m := DecodeMessage(env.parse, r.1.value);
        if m.Ok? {
          var q := env.sync.handle(d.syncer, store, m.value);
          RepliesIgnoreBuffer(env.c, d.(phase := InTransport(r.0), syncer := q.syncer), q.replies,
                              out.(events := out.events + Lift(q.events)), x);
        }
      }
    } else if !d.phase.Ended? {
      ClearIgnoresBuffer(env, d, body, out, x);
    }
  }

  /** A history that fits the phase. */
  function LogFor<Y>(c: Suite, d: Driver<Y>): seq<LinkEvent> {
    match d.phase
    case InTransport(_) => [Established(c.sha([]))]
    case Ended(reason) => [Closed(reason)]
    case _ => []
  }

  lemma LogForOk<Y>(c: Suite, d: Driver<Y>)
    requires Valid(d)
    ensures OutOk(LogFor(c, d), d, NOTHING)
  {
    hide Reached, OurTurn;
    var log := LogFor(c, d);
    assert log + [] == log;
    if log != [] {
      EstsSnoc([], log[0]);
      assert [] + [log[0]] == log;
    }
  }

  lemma BodyKeeps<Y, V>(env: Env<Y, V>, d: Driver<Y>, store: V, body: seq<byte>, out: Out)
    requires Usable(env) && Valid(d)
    ensures var t := HandleBody(env, d, store, body, out);
            Valid(t.d) && t.d.buf == d.buf
  {
    hide Usable, Valid, HandleBody, LogOk, FramesOk;
    LogForOk(env.c, d);
    HandleBodyOk(LogFor(env.c, d), env, d, store, body, NOTHING);
    BodyAppends(env, d, store, body, out);
  }

  /* ----- bytes ----- */

  /** Handles complete bodies until none is left or the link closes. */
  function Drain<Y, V>(env: Env<Y, V>, d: Driver<Y>, store: V, out: Out): Turn<Y, V>
    requires Usable(env) && Valid(d)
    decreases |d.buf|
  {
    match NextBody(d.buf)
    case None => Turn(d, store, out)
    case Some((body, rest)) =>
      BodyIgnoresBuffer(env, d, store, body, out, rest);
      BodyKeeps(env, d.(buf := rest), store, body, out);
      var t := HandleBody(env, d.(buf := rest), store, body, out);
      if t.d.phase.Ended? then t else Drain(env, t.d, t.store, t.out)
  }

  function OnBytes<Y, V>(env: Env<Y, V>, d: Driver<Y>, store: V, bytes: seq<byte>, now: u64): Turn<Y, V>
    requires Usable(env) && Valid(d)
  {
    if d.phase.Ended? then Turn(d, store, NOTHING)
    else
      match Overdue(env.config, d, now)
      case Some(reason) => Silent(d, reason, store, NOTHING)
      case None => Drain(env, d.(buf := d.buf + bytes), store, NOTHING)
  }

  lemma {:induction false} DrainOk<Y, V>(log: seq<LinkEvent>, env: Env<Y, V>, d: Driver<Y>, store: V, out: Out)
    requires Usable(env) && OutOk(log, d, out) && !d.phase.Ended?
    ensures var t := Drain(env, d, store, out);
            OutOk(log, t.d, t.out) && (!t.d.phase.Ended? ==> NextBody(t.d.buf).None?)
    decreases |d.buf|
  {
    hide Usable, HandleBody, LogOk, FramesOk, NextBody, Reached, OurTurn;
    if NextBody(d.buf).Some? {
      var (body, rest) := NextBody(d.buf).value;
      var d1 := d.(buf := rest);
      SameLog(log, d, d1, out);
      HandleBodyOk(log, env, d1, store, body, out);
      var t := HandleBody(env, d1, store, body, out);
      if !t.d.phase.Ended? {
        DrainOk(log, env, t.d, t.store, t.out);
      }
    }
  }

  lemma {:induction false} DrainAppends<Y, V>(env: Env<Y, V>, d: Driver<Y>, store: V, out: Out)
    requires Usable(env) && Valid(d)
    ensures var t1, t2 := Drain(env, d, store, out), Drain(env, d, store, NOTHING);
            t1.d == t2.d && t1.store == t2.store && t1.out.events == out.events + t2.out.events
    decreases |d.buf|
  {
    hide Usable, HandleBody, NextBody, Valid;
    if NextBody(d.buf).Some? {
      var (body, rest) := NextBody(d.buf).value;
      BodyIgnoresBuffer(env, d, store, body, out, rest);
      var d1 := d.(buf := rest);
      BodyAppends(env, d1, store, body, out);
      BodyKeeps(env, d1, store, body, out);
      BodyKeeps(env, d1, store, body, NOTHING);
      var t, t0 := HandleBody(env, d1, store, body, out), HandleBody(env, d1, store, body, NOTHING);
      if !t.d.phase.Ended? {
        DrainAppends(env, t.d, t.store, t.out);
        DrainAppends(env, t.d, t.store, t0.out);
        var e := Drain(env, t.d, t.store, NOTHING).out.events;
        assert out.events + t0.out.events + e == out.events + (t0.out.events + e);
      }
    }
  }

  /** Bytes appended to the buffer are reached only after the ones before them. */
  lemma {:induction false} DrainSplit<Y, V>(env: Env<Y, V>, d: Driver<Y>, store: V, out: Out, more: seq<byte>)
    requires Usable(env) && Valid(d) && Valid(d.(buf := d.buf + more)) && !d.phase.Ended?
    ensures var t, whole := Drain(env, d, store, out), Drain(env, d.(buf := d.buf + more), store, out);
            && Valid(t.d)
            && if t.d.phase.Ended? then whole == t.(d := t.d.(buf := t.d.buf + more))
               else Valid(t.d.(buf := t.d.buf + more)) && whole == Drain(env, t.d.(buf := t.d.buf + more), t.store, t.out)
    decreases |d.buf|
  {
    hide Usable, HandleBody, NextBody, Valid;
    NextBodyMore(d.buf, more);
    if NextBody(d.buf).Some? {
      var (body, rest) := NextBody(d.buf).value;
      BodyIgnoresBuffer(env, d, store, body, out, rest);
      var d1 := d.(buf := rest);
      BodyKeeps(env, d1, store, body, out);
      BodyIgnoresBuffer(env, d1, store, body, out, rest + more);
      var t := HandleBody(env, d1, store, body, out);
      if !t.d.phase.Ended? {
        BufferIsFree(t.d, t.d.buf + more);
        DrainSplit(env, t.d, t.store, t.out, more);
      }
    }
  }

  lemma BufferIsFree<Y>(d: Driver<Y>, x: seq<byte>)
    requires Valid(d)
    ensures Valid(d.(buf := x))
  {
  }

  /** Two outcomes agree, unread bytes of a closed link aside. */
  ghost predicate SameLink<Y>(d: Driver<Y>, d': Driver<Y>) {
    d.(buf := []) == d'.(buf := []) && (!d.phase.Ended? ==> d.buf == d'.buf)
  }

  lemma OverdueSame<Y>(cfg: LinkConfig, d: Driver<Y>, d': Driver<Y>, now: u64)
    requires Overdue(cfg, d, now).None? && d'.openedAt == d.openedAt && (d.phase.InTransport? ==> d'.phase.InTransport?)
    ensures Overdue(cfg, d', now).None?
  {
  }

  /** The clock, and nothing else, ends a link for these reasons. */
  predicate ByClock(phase: Phase) {
    phase.Ended? && (phase.reason.HandshakeTimeout? || phase.reason.LifetimeExpired?)
  }

  /** Nothing a body does turns the clock back or leaves the transport epoch except by closing. */
  lemma BodyForward<Y, V>(env: Env<Y, V>, d: Driver<Y>, store: V, body: seq<byte>, out: Out)
    requires Usable(env) && Valid(d)
    ensures var t := HandleBody(env, d, store, body, out);
            && t.d.openedAt == d.openedAt && t.d.initiator == d.initiator && (d.phase.InTransport? ==> t.d.phase.InTransport? || t.d.phase.Ended?)
            && (!ByClock(d.phase) ==> !ByClock(t.d.phase))
  {
    hide Aead, EncodeMessage, DecodeMessage, Receive, SealFrame, QueueReplies, IsPaddedLen, Write, Read, NewXX, MaxCommon, ClearFrame, Hkdf2, Reached, OurTurn;
    if d.phase.InTransport? {
      var r := Receive(env.c, d.phase.t, body);
      if r.1.Ok? {
        var m := DecodeMessage(env.parse, r.1.value);
        if m.Ok? {
          var q := env.sync.handle(d.syncer, store, m.value);
          RepliesForward(env.c, d.(phase := InTransport(r.0), syncer := q.syncer), q.replies, out.(events := out.events + Lift(q.events)));
        }
      }
    }
  }

  lemma {:induction false} RepliesForward<Y>(c: Suite, d: Driver<Y>, ms: seq<Wire>, out: Out)
    requires Aead(c)
    ensures var d' := QueueReplies(c, d, ms, out).0;
            && d'.openedAt == d.openedAt && d'.initiator == d.initiator && (d.phase.InTransport? ==> d'.phase.InTransport? || d'.phase.Ended?)
            && (!ByClock(d.phase) ==> !ByClock(d'.phase))
    decreases |ms|
  {
    hide Aead, SealFrame;
    if ms != [] && !d.phase.Ended? {
      var (d', o) := QueueSealed(c, d, ms[0], out);
      RepliesForward(c, d', ms[1..], o);
    }
  }

  lemma {:induction false} DrainForward<Y, V>(env: Env<Y, V>, d: Driver<Y>, store: V, out: Out)
    requires Usable(env) && Valid(d)
    ensures var t := Drain(env, d, store, out);
            && t.d.openedAt == d.openedAt && t.d.initiator == d.initiator && (d.phase.InTransport? ==> t.d.phase.InTransport? || t.d.phase.Ended?)
            && (!ByClock(d.phase) ==> !ByClock(t.d.phase))
    decreases |d.buf|
  {
    hide Usable, HandleBody, NextBody, Valid;
    if NextBody(d.buf).Some? {
      var (body, rest) := NextBody(d.buf).value;
      BodyIgnoresBuffer(env, d, store, body, out, rest);
      BodyKeeps(env, d.(buf := rest), store, body, out);
      BodyForward(env, d.(buf := rest), store, body, out);
      var t := HandleBody(env, d.(buf := rest), store, body, out);
      if !t.d.phase.Ended? {
        DrainForward(env, t.d, t.store, t.out);
      }
    }
  }

  /**
    Segmentation: at one clock reading, handing over bytes in two calls or in one
    leaves the same link, the same store, and reports the same events.
   */
  lemma TwoCallsAreOne<Y, V>(env: Env<Y, V>, d: Driver<Y>, store: V, a: seq<byte>, b: seq<byte>, now: u64)
    requires Usable(env) && Valid(d)
    ensures var t1 := OnBytes(env, d, store, a, now);
            && Valid(t1.d)
            && var t2, t := OnBytes(env, t1.d, t1.store, b, now), OnBytes(env, d, store, a + b, now);
            && SameLink(t.d, t2.d) && t.store == t2.store && t.out.events == t1.out.events + t2.out.events
  {
    hide Usable, Drain, Reached, OurTurn;
    if !d.phase.Ended? && Overdue(env.config, d, now).None? {
      var d1 := d.(buf := d.buf + a);
      assert d.buf + (a + b) == d1.buf + b;
      DrainSplit(env, d1, store, NOTHING, b);
      DrainForward(env, d1, store, NOTHING);
      var t1 := Drain(env, d1, store, NOTHING);
      if !t1.d.phase.Ended? {
        OverdueSame(env.config, d, t1.d, now);
        DrainAppends(env, t1.d.(buf := t1.d.buf + b), t1.store, t1.out);
      }
    }
  }

  /** Many calls at one clock reading. */
  function OnChunks<Y, V>(env: Env<Y, V>, d: Driver<Y>, store: V, chunks: seq<seq<byte>>, now: u64): (t: Turn<Y, V>)
    requires Usable(env) && Valid(d)
    ensures Valid(t.d)
    decreases |chunks|
  {
    if chunks == [] then Turn(d, store, NOTHING)
    else
      var t := OnChunks(env, d, store, chunks[..|chunks| - 1], now);
      TwoCallsAreOne(env, t.d, t.store, chunks[|chunks| - 1], [], now);
      var t' := OnBytes(env, t.d, t.store, chunks[|chunks| - 1], now);
      Turn(t'.d, t'.store, Out(t.out.frames + t'.out.frames, t.out.events + t'.out.events))
  }

  /** Any way of cutting the same bytes has the same effect. */
  lemma {:induction false} ChunksAreOne<Y, V>(env: Env<Y, V>, d: Driver<Y>, store: V, chunks: seq<seq<byte>>, now: u64)
    requires Usable(env) && Valid(d) && chunks != []
    ensures var t, whole := OnChunks(env, d, store, chunks, now), OnBytes(env, d, store, Flatten(chunks), now);
            SameLink(whole.d, t.d) && whole.store == t.store && whole.out.events == t.out.events
    decreases |chunks|
  {
    hide Usable, Drain, Valid;
    var n := |chunks| - 1;
    var last := chunks[n];
    if n == 0 {
      assert Flatten(chunks) == [] + last == last;
      assert chunks[..0] == [];
      assert NOTHING.events + OnBytes(env, d, store, last, now).out.events == OnBytes(env, d, store, last, now).out.events;
    } else {
      ChunksAreOne(env, d, store, chunks[..n], now);
      TwoCallsAreOne(env, d, store, Flatten(chunks[..n]), last, now);
      var t, first := OnChunks(env, d, store, chunks[..n], now), OnBytes(env, d, store, Flatten(chunks[..n]), now);
      SameThenSame(env, first.d, t.d, t.store, last, now);
    }
  }

  lemma SameThenSame<Y, V>(env: Env<Y, V>, d: Driver<Y>, d': Driver<Y>, store: V, bytes: seq<byte>, now: u64)
    requires Usable(env) && Valid(d) && Valid(d') && SameLink(d, d')
    ensures var t, t' := OnBytes(env, d, store, bytes, now), OnBytes(env, d', store, bytes, now);
            SameLink(t.d, t'.d) && t.store == t'.store && t.out == t'.out
  {
    hide Usable, Drain, Valid;
    if !d.phase.Ended? {
      assert d == d.(buf := []).(buf := d.buf) == d';
    }
  }

  /* ----- runs ----- */

  datatype Call =
    | Begin
    | Bytes(bytes: seq<byte>, now: u64)
    | Tick(now: u64)
    | OpenSession(since: u64, until: u64)
    | SendMessage(m: Wire)

  /** One call; refused calls change nothing. */
  function Do<Y, V>(env: Env<Y, V>, d: Driver<Y>, store: V, call: Call): Turn<Y, V>
    requires Usable(env) && Valid(d)
  {
    match call
    case Begin => var (d', out) := Start(env, d); Turn(d', store, out)
    case Bytes(bytes, now) => OnBytes(env, d, store, bytes, now)
    case Tick(now) => var (d', out) := OnTick(env, d, now); Turn(d', store, out)
    case OpenSession(since, until) =>
      if !d.phase.InTransport? then Turn(d, store, NOTHING)
      else
        (match OpenSync(env, d, store, since, until)
         case Err(_) => Turn(d, store, NOTHING)
         case Ok((_, d', out)) => Turn(d', store, out))
    case SendMessage(m) =>
      (match SendOne(env, d, m)
       case None => Turn(d, store, NOTHING)
       case Some((d', out)) => Turn(d', store, out))
  }

  lemma FreshCall<Y>(log: seq<LinkEvent>, d: Driver<Y>)
    requires Valid(d) && LogOk(d, log)
    ensures OutOk(log, d, NOTHING)
  {
    hide Reached, OurTurn, Ests;
    assert log + [] == log;
  }

  /** One call in any state: the invariant, and inertness once closed. */
  lemma CallOk<Y, V>(log: seq<LinkEvent>, env: Env<Y, V>, d: Driver<Y>, store: V, call: Call)
    requires Usable(env) && Valid(d) && LogOk(d, log)
    ensures var t := Do(env, d, store, call);
            && OutOk(log, t.d, t.out)
            && (d.phase.Ended? ==> t == Turn(d, store, NOTHING))
  {
    hide Usable, LogOk, FramesOk, Drain, Overdue, QueueHello, QueueSealed, CloseWithError, CloseSilently, Reached, OurTurn;
    FreshCall(log, d);
    match call
    case Begin => StartOk(log, env, d);
    case Bytes(bytes, now) =>
      if !d.phase.Ended? {
        if Overdue(env.config, d, now).Some? {
          CloseSilentlyOk(log, d, Overdue(env.config, d, now).value, NOTHING);
        } else {
          SameLog(log, d, d.(buf := d.buf + bytes), NOTHING);
          DrainOk(log, env, d.(buf := d.buf + bytes), store, NOTHING);
        }
      }
    case Tick(now) =>
      if !d.phase.Ended? && Overdue(env.config, d, now).Some? {
        CloseSilentlyOk(log, d, Overdue(env.config, d, now).value, NOTHING);
      }
    case OpenSession(since, until) =>
      if d.phase.InTransport? && env.sync.open(d.syncer, store, since, until).Ok? {
        var (syncer, _, m) := env.sync.open(d.syncer, store, since, until).value;
        SameLog(log, d, d.(syncer := syncer), NOTHING);
        UsableAead(env);
        QueueSealedOk(log, env.c, d.(syncer := syncer), m, NOTHING);
      }
    case SendMessage(m) =>
      UsableAead(env);
      if d.phase.InTransport? && !m.Hello? && !m.Handshake? {
        if m.Error? {
          CloseWithErrorOk(log, env.c, d, m.code, ProtocolViolation(m.code), NOTHING);
        } else {
          QueueSealedOk(log, env.c, d, m, NOTHING);
        }
      }
  }

  lemma UsableAead<Y, V>(env: Env<Y, V>)
    requires Usable(env)
    ensures Aead(env.c)
  {
  }

  lemma StartOk<Y, V>(log: seq<LinkEvent>, env: Env<Y, V>, d: Driver<Y>)
    requires Usable(env) && OutOk(log, d, NOTHING)
    ensures OutOk(log, Start(env, d).0, Start(env, d).1)
    ensures d.phase.Ended? ==> Start(env, d) == (d, NOTHING)
  {
    hide Usable, QueueHello, Reached, OurTurn, Ests, FrameOk;
    if d.initiator && d.phase.AwaitPeerHello? {
      QueueHelloOk(env, d, NOTHING);
    }
  }

  /** The link after a sequence of calls, and everything reported so far. */
  datatype History<Y, V> = History(d: Driver<Y>, store: V, outs: seq<Out>, log: seq<LinkEvent>)

  ghost function Live<Y, V>(env: Env<Y, V>, d: Driver<Y>, store: V, calls: seq<Call>): (h: History<Y, V>)
    requires Usable(env) && Valid(d) && LogOk(d, [])
    ensures Valid(h.d) && LogOk(h.d, h.log) && |h.outs| == |calls|
  {
    hide Do, LogOk, Valid, FramesOk;
    if calls == [] then History(d, store, [], [])
    else
      var h := Live(env, d, store, calls[..|calls| - 1]);
      CallOk(h.log, env, h.d, h.store, calls[|calls| - 1]);
      var t := Do(env, h.d, h.store, calls[|calls| - 1]);
      History(t.d, t.store, h.outs + [t.out], h.log + t.out.events)
  }

  lemma NewIsValid<Y>(initiator: bool, s: Key, e: Key, syncer: Y, now: u64)
    ensures Valid(NewDriver(initiator, s, e, syncer, now)) && LogOk(NewDriver(initiator, s, e, syncer, now), [])
  {
  }

  lemma {:induction false} EstsConcat(a: seq<LinkEvent>, b: seq<LinkEvent>)
    ensures Ests(a + b) == Ests(a) + Ests(b)
  {
    if b == [] {
      assert a + b == a;
    } else {
      var n := |b| - 1;
      assert (a + b)[..|a + b| - 1] == a + b[..n];
      EstsConcat(a, b[..n]);
    }
  }

  lemma {:induction false} EstsSome(events: seq<LinkEvent>)
    ensures Ests(events) > 0 <==> exists i :: 0 <= i < |events| && events[i].Established?
  {
    if events != [] {
      var n := |events| - 1;
      EstsSome(events[..n]);
      if i :| 0 <= i < |events| && events[i].Established? {
        if i < n {
          assert events[..n][i] == events[i];
        }
      }
      if j :| 0 <= j < n && events[..n][j].Established? {
        assert events[j].Established?;
      }
    }
  }

  /** What one call on a live link can report: Closed last and exactly when it ends, Established exactly when it comes up. */
  lemma CallReports<Y, V>(env: Env<Y, V>, d: Driver<Y>, store: V, call: Call)
    requires Usable(env) && Valid(d) && !d.phase.Ended?
    ensures var t := Do(env, d, store, call);
            var es := t.out.events;
            && Valid(t.d)
            && (t.d.phase.Ended? ==> es != [] && es[|es| - 1] == Closed(t.d.phase.reason) && NoClosed(es[..|es| - 1]))
            && (!t.d.phase.Ended? ==> NoClosed(es))
            && (d.phase.InTransport? ==> forall i :: 0 <= i < |es| ==> !es[i].Established?)
            && (t.d.phase.InTransport? && !d.phase.InTransport? ==> exists i :: 0 <= i < |es| && es[i].Established?)
            && ((exists i :: 0 <= i < |es| && es[i].Established?) ==> t.d.phase.InTransport? || t.d.phase.Ended?)
  {
    hide Usable, Do, FramesOk, Reached, OurTurn, Ests, Keyed;
    var log := LogFor(env.c, d);
    LogForOk(env.c, d);
    assert log + [] == log;
    CallOk(log, env, d, store, call);
    var t := Do(env, d, store, call);
    var es := t.out.events;
    EstsConcat(log, es);
    EstsSome(es);
    EstsSome(log);
    assert forall i :: 0 <= i < |es| ==> (log + es)[|log| + i] == es[i];
    if t.d.phase.Ended? {
      LastOfConcat(log, es);
    }
  }

  lemma LastOfConcat(log: seq<LinkEvent>, es: seq<LinkEvent>)
    requires NoClosed(log) && log + es != [] && (log + es)[|log + es| - 1].Closed? && NoClosed((log + es)[..|log + es| - 1])
    ensures es != [] && es[|es| - 1] == (log + es)[|log + es| - 1] && NoClosed(es[..|es| - 1])
  {
    assert es == [] ==> log + es == log;
    assert forall i :: 0 <= i < |es| - 1 ==> (log + es)[..|log + es| - 1][|log| + i] == es[i];
  }

  /** The life of a new link. */
  ghost function LifeOf<Y, V>(env: Env<Y, V>, initiator: bool, s: Key, e: Key, syncer: Y, openedAt: u64, store: V, calls: seq<Call>): (h: History<Y, V>)
    requires Usable(env)
    ensures Valid(h.d) && LogOk(h.d, h.log)
  {
    NewIsValid(initiator, s, e, syncer, openedAt);
    Live(env, NewDriver(initiator, s, e, syncer, openedAt), store, calls)
  }

  /**
    The life of a link, whatever calls, bytes and clock readings: Established at
    most once, Closed at most once and only as the very last event, closed exactly
    when Closed was reported; every frame in the clear is HELLO, HANDSHAKE or
    ERROR 2, and every sealed one passes the peer's length gate; a call that closes
    for a silent reason sends nothing; and after Closed nothing happens any more.
   */
  lemma LifeOfALink<Y, V>(env: Env<Y, V>, initiator: bool, s: Key, e: Key, syncer: Y, openedAt: u64, store: V, calls: seq<Call>)
    requires Usable(env)
    ensures var h := LifeOf(env, initiator, s, e, syncer, openedAt, store, calls);
            && Ests(h.log) <= 1
            && (forall i :: 0 <= i < |h.log| && h.log[i].Closed? ==> i == |h.log| - 1)
            && (h.d.phase.Ended? <==> h.log != [] && h.log[|h.log| - 1].Closed?)
            && (h.d.phase.AwaitPeerHello? <==> h.d.keys.Some?)
    ensures forall i :: 0 <= i < |calls| ==> CallKept(env, LifeOf(env, initiator, s, e, syncer, openedAt, store, calls[..i]), calls[i])
  {
    hide Usable, Reached, OurTurn, FramesOk, Ests, Do, LifeOf;
    forall i | 0 <= i < |calls| ensures CallKept(env, LifeOf(env, initiator, s, e, syncer, openedAt, store, calls[..i]), calls[i]) {
      var h := LifeOf(env, initiator, s, e, syncer, openedAt, store, calls[..i]);
      CallOk(h.log, env, h.d, h.store, calls[i]);
    }
  }

  /** What the next call of a history may send, and that a closed link does nothing. */
  ghost predicate CallKept<Y, V>(env: Env<Y, V>, h: History<Y, V>, call: Call)
    requires Usable(env) && Valid(h.d)
  {
    var t := Do(env, h.d, h.store, call);
    FramesOk(t.d.phase, t.out.frames) && (h.d.phase.Ended? ==> t == Turn(h.d, h.store, NOTHING))
  }
}
