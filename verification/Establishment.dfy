/**
  Two honest drivers on one transport (core/src/link/driver.rs): when their
  versions intersect, exchanging what they emit brings both links up, each with
  the other's identity, the same version, and matching transport keys.
 */
module Establishment {
  import opened Base
  import opened Wires
  import opened Ciphers
  import opened Handshakes
  import opened Drivers
  import opened DriverRuns

  /** The negotiated version is the highest one both sides offer, if there is any. */
  lemma {:induction false} MaxCommonExact(theirs: seq<u64>, ours: seq<u64>)
    ensures MaxCommon(theirs, ours).None? <==> forall v :: v in theirs ==> v !in ours
    ensures MaxCommon(theirs, ours).Some? ==>
              var m := MaxCommon(theirs, ours).value;
              m in theirs && m in ours && forall v :: v in theirs && v in ours ==> v <= m
  {
    if theirs != [] {
      var n := |theirs| - 1;
      MaxCommonExact(theirs[..n], ours);
      assert theirs == theirs[..n] + [theirs[n]];
    }
  }

  /** Both sides compute the same version, independently. */
  lemma MaxCommonSymmetric(a: seq<u64>, b: seq<u64>)
    ensures MaxCommon(a, b) == MaxCommon(b, a)
  {
    hide MaxCommon;
    MaxCommonExact(a, b);
    MaxCommonExact(b, a);
  }

  /** What a call put on the wire. */
  function BytesOf(out: Out): seq<byte> {
    if |out.frames| == 1 then out.frames[0].bytes else []
  }

  /** A call delivering exactly one complete frame is one body. */
  lemma OneFrame<Y, V>(env: Env<Y, V>, d: Driver<Y>, store: V, body: seq<byte>, now: u64)
    requires Usable(env) && Valid(d) && !d.phase.Ended? && d.buf == [] && Overdue(env.config, d, now).None? && |body| < 0x1_0000
    ensures OnBytes(env, d, store, Frame(body), now) == HandleBody(env, d, store, body, NOTHING)
    ensures Valid(OnBytes(env, d, store, Frame(body), now).d)
  {
    hide Usable, HandleBody, Reached, OurTurn, Frame, Overdue;
    assert d.buf + Frame(body) == Frame(body);
    FrameReads(body, []);
    assert Frame(body) + [] == Frame(body);
    var d1 := d.(buf := Frame(body));
    BodyIgnoresBuffer(env, d, store, body, NOTHING, Frame(body));
    BodyIgnoresBuffer(env, d1, store, body, NOTHING, []);
    assert d1.(buf := []) == d;
    BodyKeeps(env, d, store, body, NOTHING);
    var t := HandleBody(env, d, store, body, NOTHING);
    DrainEmpty(env, t.d, t.store, t.out);
  }

  lemma DrainEmpty<Y, V>(env: Env<Y, V>, d: Driver<Y>, store: V, out: Out)
    requires Usable(env) && Valid(d) && d.buf == []
    ensures Drain(env, d, store, out) == Turn(d, store, out)
  {
    hide Usable, Valid, HandleBody;
  }

  /** Both sides are usable, share the primitives, have a version in common, and are in time. */
  ghost predicate Partners<Y, V>(envI: Env<Y, V>, envR: Env<Y, V>, openedI: u64, openedR: u64, now: u64) {
    && Usable(envI) && Usable(envR) && envI.c == envR.c && envI.parse == envR.parse
    && DhCommutes(envI.c) && Reads(envI.parse)
    && MaxCommon(envI.config.versions, envR.config.versions).Some?
    && InTime(envI.config, openedI, now) && InTime(envR.config, openedR, now)
  }

  predicate InTime(cfg: LinkConfig, openedAt: u64, now: u64) {
    Since(openedAt, now) < cfg.handshakeTimeout && Since(openedAt, now) < cfg.maxLifetime
  }

  lemma NotOverdue<Y>(cfg: LinkConfig, d: Driver<Y>, now: u64)
    requires InTime(cfg, d.openedAt, now)
    ensures Overdue(cfg, d, now).None?
  {
  }

  /** A clear frame carries the encoded message. */
  lemma ClearIs(parse: Parser, m: Wire)
    requires Reads(parse) && EncodeMessage(m).Ok?
    ensures ClearFrame(m).Some? && |EncodeMessage(m).value| < 0x1_0000
    ensures ClearFrame(m).value == Sent(true, m, Frame(EncodeMessage(m).value))
    ensures DecodeMessage(parse, EncodeMessage(m).value) == Ok(m)
  {
    hide EncodeMessage, DecodeMessage, Reads;
    EncodesExactly(m);
    MessageRoundTrip(parse, m);
  }

  /** The responder hears HELLO: it answers with its own and waits for the first handshake message. */
  lemma ResponderHears<Y, V>(env: Env<Y, V>, d: Driver<Y>, store: V, body: seq<byte>, hello: Wire, s: Key, e: Key)
    requires Usable(env) && Valid(d) && !d.initiator && d.phase.AwaitPeerHello? && d.keys == Some((s, e))
    requires DecodeMessage(env.parse, body) == Ok(hello) && hello.Hello? && MaxCommon(hello.versions, env.config.versions).Some?
    ensures var ours := EncodeMessage(OurHello(env.config)).value;
            HandleBody(env, d, store, body, NOTHING) ==
            Turn(d.(version := MaxCommon(hello.versions, env.config.versions), hello := ours, keys := None,
                    phase := Handshaking(NewXX(env.c, false, s, e, body + ours))),
                 store, Out([ClearFrame(OurHello(env.config)).value], []))
  {
    hide EncodeMessage, DecodeMessage, NewXX, MaxCommon, Aead, ClearFrame;
    HelloFrame(env);
    assert [] + [ClearFrame(OurHello(env.config)).value] == [ClearFrame(OurHello(env.config)).value];
  }

  lemma HelloFrame<Y, V>(env: Env<Y, V>)
    requires Usable(env)
    ensures ClearFrame(OurHello(env.config)).Some?
  {
    hide EncodeMessage, Aead;
  }

  /** The initiator hears HELLO: it writes the first handshake message. */
  lemma InitiatorHears<Y, V>(env: Env<Y, V>, d: Driver<Y>, store: V, body: seq<byte>, hello: Wire, s: Key, e: Key)
    requires Usable(env) && Valid(d) && d.initiator && d.phase.AwaitPeerHello? && d.keys == Some((s, e))
    requires DecodeMessage(env.parse, body) == Ok(hello) && hello.Hello? && MaxCommon(hello.versions, env.config.versions).Some?
    ensures var w := Write(env.c, NewXX(env.c, true, s, e, d.hello + body), []);
            && w.Ok? && |w.value.1| <= 112 && ClearFrame(Handshake(w.value.1)).Some?
            && HandleBody(env, d, store, body, NOTHING) ==
               Turn(d.(version := MaxCommon(hello.versions, env.config.versions), keys := None, phase := Handshaking(w.value.0)),
                    store, Out([ClearFrame(Handshake(w.value.1)).value], []))
  {
    hide EncodeMessage, DecodeMessage, NewXX, MaxCommon, Aead, ClearFrame, Write;
    FirstMessage(env.c, true, s, e, d.hello + body);
    var m := Write(env.c, NewXX(env.c, true, s, e, d.hello + body), []).value.1;
    HandshakeEncodes(m);
    assert [] + [ClearFrame(Handshake(m)).value] == [ClearFrame(Handshake(m)).value];
  }

  /** A handshake message that reads well and is answered, without finishing. */
  lemma Answers<Y, V>(env: Env<Y, V>, d: Driver<Y>, store: V, body: seq<byte>, msg: seq<byte>, hs: Shake)
    requires Usable(env) && Valid(d) && d.phase.Handshaking? && |msg| <= 112
    requires DecodeMessage(env.parse, body) == Ok(Handshake(msg)) && Read(env.c, d.phase.hs, msg) == Ok((hs, []))
    requires hs.step == 2 && Write(env.c, hs, []).Ok? && |Write(env.c, hs, []).value.1| <= 112
    ensures var (hs', reply) := Write(env.c, hs, []).value;
            && ClearFrame(Handshake(reply)).Some?
            && HandleBody(env, d, store, body, NOTHING) ==
               Turn(d.(phase := Handshaking(hs')), store, Out([ClearFrame(Handshake(reply)).value], []))
  {
    hide EncodeMessage, DecodeMessage, Aead, ClearFrame, Read;
    var (hs', reply) := Write(env.c, hs, []).value;
    HandshakeEncodes(reply);
    assert [] + [ClearFrame(Handshake(reply)).value] == [ClearFrame(Handshake(reply)).value];
    assert hs'.step == 3;
  }

  /** The initiator's last step: it answers and is up. */
  lemma InitiatorFinishes<Y, V>(env: Env<Y, V>, d: Driver<Y>, store: V, body: seq<byte>, msg: seq<byte>, hs: Shake)
    requires Usable(env) && Valid(d) && d.phase.Handshaking? && |msg| <= 112
    requires DecodeMessage(env.parse, body) == Ok(Handshake(msg)) && Read(env.c, d.phase.hs, msg) == Ok((hs, []))
    requires hs.step == 3 && hs.rs.Some? && Write(env.c, hs, []).Ok? && |Write(env.c, hs, []).value.1| <= 112
    requires Write(env.c, hs, []).value.0.rs == hs.rs && Write(env.c, hs, []).value.0.step == 4
    ensures var (hs', reply) := Write(env.c, hs, []).value;
            var remote := env.c.sha(hs.rs.value);
            && ClearFrame(Handshake(reply)).Some? && IntoTransport(env.c, hs').Ok?
            && HandleBody(env, d, store, body, NOTHING) ==
               Turn(d.(remote := Some(remote), phase := InTransport(IntoTransport(env.c, hs').value.0)), store,
                    Out([ClearFrame(Handshake(reply)).value], [Established(remote)]))
  {
    hide EncodeMessage, DecodeMessage, Aead, ClearFrame, Read, Write, Hkdf2;
    var (hs', reply) := Write(env.c, hs, []).value;
    HandshakeEncodes(reply);
    assert [] + [ClearFrame(Handshake(reply)).value] == [ClearFrame(Handshake(reply)).value];
    assert [] + [Established(env.c.sha(hs.rs.value))] == [Established(env.c.sha(hs.rs.value))];
  }

  /** The responder's last step: it is up. */
  lemma ResponderFinishes<Y, V>(env: Env<Y, V>, d: Driver<Y>, store: V, body: seq<byte>, msg: seq<byte>, hs: Shake)
    requires Usable(env) && Valid(d) && d.phase.Handshaking? && |msg| <= 112
    requires DecodeMessage(env.parse, body) == Ok(Handshake(msg)) && Read(env.c, d.phase.hs, msg) == Ok((hs, []))
    requires hs.step == 4 && hs.rs.Some?
    ensures var remote := env.c.sha(hs.rs.value);
            && IntoTransport(env.c, hs).Ok?
            && HandleBody(env, d, store, body, NOTHING) ==
               Turn(d.(remote := Some(remote), phase := InTransport(IntoTransport(env.c, hs).value.0)), store, Out([], [Established(remote)]))
  {
    hide EncodeMessage, DecodeMessage, Aead, Read, Hkdf2;
    assert [] + [Established(env.c.sha(hs.rs.value))] == [Established(env.c.sha(hs.rs.value))];
  }

  /** Everything the two drivers say to each other until nothing is left to say. */
  datatype Outcome<Y, V> = Outcome(i: Driver<Y>, r: Driver<Y>, storeI: V, storeR: V, eventsI: seq<LinkEvent>, eventsR: seq<LinkEvent>)

  lemma OnBytesKeeps<Y, V>(env: Env<Y, V>, d: Driver<Y>, store: V, bytes: seq<byte>, now: u64)
    requires Usable(env) && Valid(d)
    ensures Valid(OnBytes(env, d, store, bytes, now).d)
  {
    hide Usable, Valid, OnBytes;
    TwoCallsAreOne(env, d, store, bytes, [], now);
  }

  lemma StartKeeps<Y, V>(env: Env<Y, V>, d: Driver<Y>)
    requires Usable(env) && Valid(d)
    ensures Valid(Start(env, d).0)
  {
  }

  /** The initiator starts; frames go back and forth five times. */
  ghost function Exchange<Y, V>(envI: Env<Y, V>, envR: Env<Y, V>, i: Driver<Y>, r: Driver<Y>, vi: V, vr: V, now: u64): Outcome<Y, V>
    requires Usable(envI) && Usable(envR) && Valid(i) && Valid(r)
  {
    StartKeeps(envI, i);
    var (i0, o0) := Start(envI, i);
    OnBytesKeeps(envR, r, vr, BytesOf(o0), now);
    var r1 := OnBytes(envR, r, vr, BytesOf(o0), now);
    OnBytesKeeps(envI, i0, vi, BytesOf(r1.out), now);
    var i1 := OnBytes(envI, i0, vi, BytesOf(r1.out), now);
    OnBytesKeeps(envR, r1.d, r1.store, BytesOf(i1.out), now);
    var r2 := OnBytes(envR, r1.d, r1.store, BytesOf(i1.out), now);
    OnBytesKeeps(envI, i1.d, i1.store, BytesOf(r2.out), now);
    var i2 := OnBytes(envI, i1.d, i1.store, BytesOf(r2.out), now);
    var r3 := OnBytes(envR, r2.d, r2.store, BytesOf(i2.out), now);
    Outcome(i2.d, r3.d, i2.store, r3.store, i1.out.events + i2.out.events, r1.out.events + r2.out.events + r3.out.events)
  }

  /** Both are up: each knows the other, the versions agree, the keys match crosswise. */
  ghost predicate Linked<Y, V>(c: Suite, o: Outcome<Y, V>, si: Key, sr: Key) {
    && o.i.phase.InTransport? && o.r.phase.InTransport?
    && o.i.remote == Some(c.sha(c.public(sr))) && o.r.remote == Some(c.sha(c.public(si)))
    && o.eventsI == [Established(c.sha(c.public(sr)))] && o.eventsR == [Established(c.sha(c.public(si)))]
    && o.i.version == o.r.version && o.i.version.Some?
    && exists k1, k2 :: Ciphers.Fresh(o.i.phase.t, k1, k2) && Ciphers.Fresh(o.r.phase.t, k2, k1)
  }

  /** A link that came up left its sync layer and its store alone and has nothing buffered. */
  ghost predicate Settled<Y, V>(d: Driver<Y>, store: V, y: Y, v: V, openedAt: u64) {
    d.syncer == y && store == v && d.openedAt == openedAt && d.buf == [] && d.keys.None?
  }

  /** The states after both HELLOs, and the first handshake message. */
  lemma HellosCross<Y, V>(envI: Env<Y, V>, envR: Env<Y, V>, si: Key, ei: Key, sr: Key, er: Key, yi: Y, yr: Y, vi: V, vr: V, ti: u64, tr: u64, now: u64)
    requires Partners(envI, envR, ti, tr, now)
    ensures var i, r := NewDriver(true, si, ei, yi, ti), NewDriver(false, sr, er, yr, tr);
            var hi, hr := EncodeMessage(OurHello(envI.config)).value, EncodeMessage(OurHello(envR.config)).value;
            var version := MaxCommon(envI.config.versions, envR.config.versions);
            var c := envI.c;
            && Valid(i) && Valid(r)
            && var i0 := Start(envI, i).0;
            && Valid(i0)
            && var r1 := OnBytes(envR, r, vr, BytesOf(Start(envI, i).1), now);
            && r1 == Turn(r.(version := version, hello := hr, keys := None, phase := Handshaking(NewXX(c, false, sr, er, hi + hr))), vr, r1.out)
            && Valid(r1.d) && r1.out.events == []
            && var i1 := OnBytes(envI, i0, vi, BytesOf(r1.out), now);
            var w := Write(c, NewXX(c, true, si, ei, hi + hr), []);
            && w.Ok? && |w.value.1| <= 112
            && i1.d == i0.(version := version, keys := None, phase := Handshaking(w.value.0)) && i1.store == vi
            && i1.out == Out([Sent(true, Handshake(w.value.1), HandshakeBytes(w.value.1))], []) && Valid(i1.d)
            && i0.openedAt == ti && i0.buf == [] && i0.syncer == yi
  {
    hide Aead, Reads, DhCommutes, EncodeMessage, DecodeMessage, NewXX, Write, HandleBody, OnBytes, MaxCommon, Frame, ClearFrame, Overdue, Since, Reached;
    var i, r := NewDriver(true, si, ei, yi, ti), NewDriver(false, sr, er, yr, tr);
    NewIsValid(true, si, ei, yi, ti);
    NewIsValid(false, sr, er, yr, tr);
    StartKeeps(envI, i);
    var hi, hr := EncodeMessage(OurHello(envI.config)).value, EncodeMessage(OurHello(envR.config)).value;
    ClearIs(envI.parse, OurHello(envI.config));
    ClearIs(envI.parse, OurHello(envR.config));
    MaxCommonSymmetric(envI.config.versions, envR.config.versions);
    StartSays(envI, i);
    var i0 := Start(envI, i).0;
    NotOverdue(envR.config, r, now);
    OneFrame(envR, r, vr, hi, now);
    ResponderHears(envR, r, vr, hi, OurHello(envI.config), sr, er);
    NotOverdue(envI.config, i0, now);
    OneFrame(envI, i0, vi, hr, now);
    InitiatorHears(envI, i0, vi, hr, OurHello(envR.config), si, ei);
    HandshakeBytesIs(envI.parse, Write(envI.c, NewXX(envI.c, true, si, ei, hi + hr), []).value.1);
  }

  lemma StartSays<Y, V>(env: Env<Y, V>, d: Driver<Y>)
    requires Usable(env) && d.initiator && d.phase.AwaitPeerHello? && ClearFrame(OurHello(env.config)).Some?
    ensures Start(env, d) == (d.(hello := EncodeMessage(OurHello(env.config)).value), Out([ClearFrame(OurHello(env.config)).value], []))
  {
    hide EncodeMessage, ClearFrame, Aead;
    assert [] + [ClearFrame(OurHello(env.config)).value] == [ClearFrame(OurHello(env.config)).value];
  }

  /** The frame that carries a handshake message. */
  function HandshakeBytes(msg: seq<byte>): seq<byte>
    requires |msg| <= 112
  {
    HandshakeEncodes(msg);
    EncodesExactly(Handshake(msg));
    Frame(EncodeMessage(Handshake(msg)).value)
  }

  lemma HandshakeBytesIs(parse: Parser, msg: seq<byte>)
    requires Reads(parse) && |msg| <= 112
    ensures ClearFrame(Handshake(msg)) == Some(Sent(true, Handshake(msg), HandshakeBytes(msg)))
    ensures EncodeMessage(Handshake(msg)).Ok? && |EncodeMessage(Handshake(msg)).value| < 0x1_0000
    ensures DecodeMessage(parse, EncodeMessage(Handshake(msg)).value) == Ok(Handshake(msg))
    ensures HandshakeBytes(msg) == Frame(EncodeMessage(Handshake(msg)).value)
  {
    hide EncodeMessage, DecodeMessage, Reads, Frame;
    HandshakeEncodes(msg);
    ClearIs(parse, Handshake(msg));
  }

  /** Delivering a handshake frame is handling its body. */
  lemma HandshakeArrives<Y, V>(env: Env<Y, V>, d: Driver<Y>, store: V, msg: seq<byte>, now: u64)
    requires Usable(env) && Reads(env.parse) && Valid(d) && d.phase.Handshaking? && d.buf == [] && InTime(env.config, d.openedAt, now) && |msg| <= 112
    ensures EncodeMessage(Handshake(msg)).Ok?
    ensures var body := EncodeMessage(Handshake(msg)).value;
            && DecodeMessage(env.parse, body) == Ok(Handshake(msg))
            && OnBytes(env, d, store, HandshakeBytes(msg), now) == HandleBody(env, d, store, body, NOTHING)
            && Valid(OnBytes(env, d, store, HandshakeBytes(msg), now).d)
  {
    hide Aead, Reads, EncodeMessage, DecodeMessage, HandleBody, OnBytes, Frame, Overdue, Since, HandshakeBytes;
    HandshakeBytesIs(env.parse, msg);
    NotOverdue(env.config, d, now);
    OneFrame(env, d, store, EncodeMessage(Handshake(msg)).value, now);
  }

  /** Messages two and three, with the facts the two handshakes guarantee. */
  lemma HandshakeCrosses<Y, V>(envI: Env<Y, V>, envR: Env<Y, V>, i: Driver<Y>, r: Driver<Y>, vi: V, vr: V, now: u64,
                               si: Key, ei: Key, sr: Key, er: Key, prologue: seq<byte>)
    requires Usable(envI) && Usable(envR) && envI.c == envR.c && envI.parse == envR.parse && DhCommutes(envI.c) && Reads(envI.parse)
    requires InTime(envI.config, i.openedAt, now) && InTime(envR.config, r.openedAt, now) && i.buf == [] && r.buf == [] && Valid(i) && Valid(r)
    requires var w := Write(envI.c, NewXX(envI.c, true, si, ei, prologue), []);
             w.Ok? && |w.value.1| <= 112 && i.phase == Handshaking(w.value.0) && r.phase == Handshaking(NewXX(envI.c, false, sr, er, prologue))
    ensures var c := envI.c;
            var m1 := Write(c, NewXX(c, true, si, ei, prologue), []).value.1;
            var r2 := OnBytes(envR, r, vr, HandshakeBytes(m1), now);
            && Valid(r2.d) && r2.out.events == []
            && var i2 := OnBytes(envI, i, vi, BytesOf(r2.out), now);
            && i2.d.phase.InTransport? && i2.d.remote == Some(c.sha(c.public(sr))) && i2.out.events == [Established(c.sha(c.public(sr)))]
            && i2.d.version == i.version && (i.keys.None? ==> Settled(i2.d, i2.store, i.syncer, vi, i.openedAt))
            && var r3 := OnBytes(envR, r2.d, r2.store, BytesOf(i2.out), now);
            && r3.d.phase.InTransport? && r3.d.remote == Some(c.sha(c.public(si))) && r3.out.events == [Established(c.sha(c.public(si)))]
            && r3.d.version == r.version && (r.keys.None? ==> Settled(r3.d, r3.store, r.syncer, vr, r.openedAt))
            && exists k1, k2 :: Ciphers.Fresh(i2.d.phase.t, k1, k2) && Ciphers.Fresh(r3.d.phase.t, k2, k1)
  {
    hide Aead, Reads, DhCommutes, EncodeMessage, DecodeMessage, NewXX, Write, Read, HandleBody, OnBytes, HandshakeBytes, ClearFrame, Hkdf2, Reached, Since, InTime, IntoTransport;
    var c := envI.c;
    ThreeMessages(c, si, ei, sr, er, prologue);
    var i0, r0 := NewXX(c, true, si, ei, prologue), NewXX(c, false, sr, er, prologue);
    var (i1, m1) := Write(c, i0, []).value;
    var r1 := Read(c, r0, m1).value.0;
    var (r2, m2) := Write(c, r1, []).value;
    var i2 := Read(c, i1, m2).value.0;
    var (i3, m3) := Write(c, i2, []).value;
    var r3 := Read(c, r2, m3).value.0;
    HandshakeBytesIs(envI.parse, m2);
    HandshakeBytesIs(envI.parse, m3);
    HandshakeArrives(envR, r, vr, m1, now);
    Answers(envR, r, vr, EncodeMessage(Handshake(m1)).value, m1, r1);
    var tr := OnBytes(envR, r, vr, HandshakeBytes(m1), now);
    HandshakeArrives(envI, i, vi, m2, now);
    InitiatorFinishes(envI, i, vi, EncodeMessage(Handshake(m2)).value, m2, i2);
    HandshakeArrives(envR, tr.d, tr.store, m3, now);
    ResponderFinishes(envR, tr.d, tr.store, EncodeMessage(Handshake(m3)).value, m3, r3);
  }

  /** The three handshake messages with empty payloads. */
  lemma ThreeMessages(c: Suite, si: Key, ei: Key, sr: Key, er: Key, prologue: seq<byte>)
    requires Aead(c) && DhCommutes(c)
    ensures var i0, r0 := NewXX(c, true, si, ei, prologue), NewXX(c, false, sr, er, prologue);
            && Reached(i0) && Reached(r0)
            && var w1 := Write(c, i0, []);
            && w1.Ok? && |w1.value.1| <= 112 && Reached(w1.value.0)
            && var q1 := Read(c, r0, w1.value.1);
            && q1.Ok? && q1.value.1 == [] && q1.value.0.step == 2 && Reached(q1.value.0)
            && var w2 := Write(c, q1.value.0, []);
            && w2.Ok? && |w2.value.1| <= 112 && w2.value.0.step == 3 && Reached(w2.value.0)
            && var q2 := Read(c, w1.value.0, w2.value.1);
            && q2.Ok? && q2.value.1 == [] && q2.value.0.step == 3 && q2.value.0.rs == Some(c.public(sr))
            && var w3 := Write(c, q2.value.0, []);
            && w3.Ok? && |w3.value.1| <= 112 && w3.value.0.step == 4 && w3.value.0.rs == q2.value.0.rs
            && var q3 := Read(c, w2.value.0, w3.value.1);
            && q3.Ok? && q3.value.1 == [] && q3.value.0.step == 4 && q3.value.0.rs == Some(c.public(si))
            && Matched(c, w3.value.0, q3.value.0)
  {
    hide Aead, DhCommutes, Read, Write, Hkdf2, Matched;
    var i, r := NewXX(c, true, si, ei, prologue), NewXX(c, false, sr, er, prologue);
    Message1(c, i, r, []);
    WriteSize(c, i);
    WriteReaches(c, i, []);
    var (i1, m1) := Write(c, i, []).value;
    var r1 := Read(c, r, m1).value.0;
    Message2(c, i1, r1, []);
    WriteSize(c, r1);
    WriteReaches(c, r1, []);
    var (r2, m2) := Write(c, r1, []).value;
    var i2 := Read(c, i1, m2).value.0;
    Message3(c, i2, r2, []);
    WriteSize(c, i2);
    var i3 := Write(c, i2, []).value.0;
    FinishedMatch(c, i3, r2.(sym := i3.sym, rs := Some(c.public(si)), step := 4));
  }

  /**
    Establishment: two honest drivers with a version in common and enough time
    always bring the link up, each reporting exactly one Established with the
    other's identity, agreeing on the version and holding matching keys.
   */
  lemma LinkComesUp<Y, V>(envI: Env<Y, V>, envR: Env<Y, V>, si: Key, ei: Key, sr: Key, er: Key, yi: Y, yr: Y, vi: V, vr: V, ti: u64, tr: u64, now: u64)
    requires Partners(envI, envR, ti, tr, now)
    ensures (NewIsValid(true, si, ei, yi, ti);
             NewIsValid(false, sr, er, yr, tr);
             var o := Exchange(envI, envR, NewDriver(true, si, ei, yi, ti), NewDriver(false, sr, er, yr, tr), vi, vr, now);
             Linked(envI.c, o, si, sr) && Settled(o.i, o.storeI, yi, vi, ti) && Settled(o.r, o.storeR, yr, vr, tr))
  {
    hide Aead, Reads, DhCommutes, EncodeMessage, NewXX, Write, OnBytes, HandshakeBytes, MaxCommon, Valid, Since, Start;
    HellosCross(envI, envR, si, ei, sr, er, yi, yr, vi, vr, ti, tr, now);
    var i, r := NewDriver(true, si, ei, yi, ti), NewDriver(false, sr, er, yr, tr);
    var hi, hr := EncodeMessage(OurHello(envI.config)).value, EncodeMessage(OurHello(envR.config)).value;
    var i0 := Start(envI, i).0;
    var r1 := OnBytes(envR, r, vr, BytesOf(Start(envI, i).1), now);
    var i1 := OnBytes(envI, i0, vi, BytesOf(r1.out), now);
    HandshakeCrosses(envI, envR, i1.d, r1.d, vi, vr, now, si, ei, sr, er, hi + hr);
  }
}
