/**
  Downgrade protection for two whole drivers (core/src/link/driver.rs): whatever
  HELLO bodies and whatever first handshake message reached them, an initiator
  that accepts the responder's answer has negotiated the same version with it.
 */
module Negotiation {
  import opened Base
  import opened Wires
  import opened Ciphers
  import opened Handshakes
  import opened Drivers
  import opened DriverRuns
  import opened Establishment
  import opened LinkDrivers

  /** A driver that left the HELLO phase read a HELLO and settled on a version. */
  ghost predicate SettledOn<Y, V>(env: Env<Y, V>, body: seq<byte>, d: Driver<Y>) {
    var m := DecodeMessage(env.parse, body);
    m.Ok? && m.value.Hello? && d.version == MaxCommon(m.value.versions, env.config.versions) && d.version.Some?
  }

  lemma InitiatorHeard<Y, V>(env: Env<Y, V>, d: Driver<Y>, store: V, body: seq<byte>, s: Key, e: Key)
    requires Usable(env) && Drivers.Valid(d) && d.initiator && d.phase.AwaitPeerHello? && d.keys == Some((s, e))
    requires HandleBody(env, d, store, body, NOTHING).d.phase.Handshaking?
    ensures var d', w := HandleBody(env, d, store, body, NOTHING).d, Write(env.c, NewXX(env.c, true, s, e, d.hello + body), []);
            && SettledOn(env, body, d') && d'.hello == d.hello && Drivers.Valid(d')
            && w.Ok? && d'.phase.hs == w.value.0
  {
    hide DecodeMessage, EncodeMessage, MaxCommon, Aead, ClearFrame, Write, NewXX;
    HeardHello(env, d, store, body);
    var hello := DecodeMessage(env.parse, body).value;
    InitiatorHears(env, d, store, body, hello, s, e);
    BodyStaysValid(env, d, store, body);
  }

  /** Nothing but an acceptable HELLO starts a handshake. */
  lemma HeardHello<Y, V>(env: Env<Y, V>, d: Driver<Y>, store: V, body: seq<byte>)
    requires Usable(env) && Drivers.Valid(d) && d.phase.AwaitPeerHello?
    requires HandleBody(env, d, store, body, NOTHING).d.phase.Handshaking?
    ensures var m := DecodeMessage(env.parse, body);
            m.Ok? && m.value.Hello? && MaxCommon(m.value.versions, env.config.versions).Some?
  {
    hide DecodeMessage, EncodeMessage, MaxCommon, Aead, ClearFrame, StartHandshake;
  }

  lemma BodyStaysValid<Y, V>(env: Env<Y, V>, d: Driver<Y>, store: V, body: seq<byte>)
    requires Usable(env) && Drivers.Valid(d)
    ensures Drivers.Valid(HandleBody(env, d, store, body, NOTHING).d)
  {
    hide Usable, Drivers.Valid, HandleBody;
    BodyKeeps(env, d, store, body, NOTHING);
  }

  lemma ResponderHeard<Y, V>(env: Env<Y, V>, d: Driver<Y>, store: V, body: seq<byte>, s: Key, e: Key)
    requires Usable(env) && Drivers.Valid(d) && !d.initiator && d.phase.AwaitPeerHello? && d.keys == Some((s, e))
    requires HandleBody(env, d, store, body, NOTHING).d.phase.Handshaking?
    ensures var d' := HandleBody(env, d, store, body, NOTHING).d;
            && SettledOn(env, body, d') && d'.hello == EncodeMessage(OurHello(env.config)).value && Drivers.Valid(d')
            && d'.phase.hs == NewXX(env.c, false, s, e, body + d'.hello)
  {
    hide DecodeMessage, EncodeMessage, MaxCommon, Aead, ClearFrame, NewXX;
    HeardHello(env, d, store, body);
    var hello := DecodeMessage(env.parse, body).value;
    ResponderHears(env, d, store, body, hello, s, e);
    BodyStaysValid(env, d, store, body);
  }

  /** A responder that answered a handshake body read a message in it and wrote the next one. */
  lemma ResponderAnswered<Y, V>(env: Env<Y, V>, d: Driver<Y>, store: V, body: seq<byte>)
    requires Usable(env) && Drivers.Valid(d) && d.phase.Handshaking? && d.phase.hs.step == 1
    requires |HandleBody(env, d, store, body, NOTHING).out.frames| == 1
    ensures var m := DecodeMessage(env.parse, body);
            && m.Ok? && m.value.Handshake?
            && var q := Read(env.c, d.phase.hs, m.value.msg);
            && q.Ok?
            && var w := Write(env.c, q.value.0, []);
            && w.Ok? && |w.value.1| < U64_LIMIT && HandleBody(env, d, store, body, NOTHING).d.version == d.version
            && ClearFrame(Handshake(w.value.1)) == Some(HandleBody(env, d, store, body, NOTHING).out.frames[0])
  {
    hide DecodeMessage, EncodeMessage, Aead, ClearFrame, Write, Read, IntoTransport;
  }

  /** An initiator that came up read a handshake message in the body. */
  lemma InitiatorAccepted<Y, V>(env: Env<Y, V>, d: Driver<Y>, store: V, body: seq<byte>)
    requires Usable(env) && Drivers.Valid(d) && d.phase.Handshaking?
    requires HandleBody(env, d, store, body, NOTHING).d.phase.InTransport?
    ensures var m := DecodeMessage(env.parse, body);
            && m.Ok? && m.value.Handshake? && Read(env.c, d.phase.hs, m.value.msg).Ok?
            && HandleBody(env, d, store, body, NOTHING).d.version == d.version
  {
    hide DecodeMessage, EncodeMessage, Aead, ClearFrame, Write, Read, IntoTransport;
  }

  /** The body of a clear frame is what was encoded. */
  lemma ClearBody(parse: Parser, m: Wire)
    requires Reads(parse) && ClearFrame(m).Some?
    ensures |ClearFrame(m).value.bytes| >= 2 && DecodeMessage(parse, ClearFrame(m).value.bytes[2..]) == Ok(m)
  {
    hide DecodeMessage, EncodeMessage, Reads;
    ClearIs(parse, m);
    var body := EncodeMessage(m).value;
    assert Frame(body)[2..] == body;
  }

  /** The two drivers after everything up to the responder's answer. */
  datatype Meeting<Y> = Meeting(i: Driver<Y>, r: Driver<Y>, answer: Out, versionR: Option<u64>)

  /**
    An initiator that has started hears `heardI`; a responder hears `heardR` and
    then `first`. The three bodies may be anything at all.
   */
  ghost function Meet<Y, V>(envI: Env<Y, V>, envR: Env<Y, V>, i: Driver<Y>, r: Driver<Y>, vi: V, vr: V,
                            heardI: seq<byte>, heardR: seq<byte>, first: seq<byte>): Meeting<Y>
    requires Usable(envI) && Usable(envR) && Drivers.Valid(i) && Drivers.Valid(r)
  {
    StartKeeps(envI, i);
    var i1 := HandleBody(envI, Drivers.Start(envI, i).0, vi, heardI, NOTHING).d;
    BodyStaysValid(envR, r, vr, heardR);
    var r1 := HandleBody(envR, r, vr, heardR, NOTHING).d;
    var t := HandleBody(envR, r1, vr, first, NOTHING);
    Meeting(i1, r1, t.out, t.d.version)
  }

  /** Both waited for the handshake, and the responder answered. */
  ghost predicate Engaged<Y>(k: Meeting<Y>) {
    k.i.phase.Handshaking? && k.r.phase.Handshaking? && |k.answer.frames| == 1 && |k.answer.frames[0].bytes| >= 2
  }

  /**
    Whatever was altered on the way: if the initiator's link comes up on the
    responder's answer, both sides negotiated the same version, from exactly the
    HELLO the other one sent; or a named pair of hash inputs collides, or the
    responder's static key was forged.
   */
  lemma VersionsAgree<Y, V>(envI: Env<Y, V>, envR: Env<Y, V>, si: Key, ei: Key, sr: Key, er: Key, yi: Y, yr: Y, vi: V, vr: V, ti: u64, tr: u64,
                            heardI: seq<byte>, heardR: seq<byte>, first: seq<byte>)
    requires Usable(envI) && Usable(envR) && envI.c == envR.c && Reads(envI.parse) && Reads(envR.parse)
    requires var k := Meet(envI, envR, NewDriver(true, si, ei, yi, ti), NewDriver(false, sr, er, yr, tr), vi, vr, heardI, heardR, first);
             && Engaged(k) && Drivers.Valid(k.i)
             && HandleBody(envI, k.i, vi, k.answer.frames[0].bytes[2..], NOTHING).d.phase.InTransport?
    ensures var k := Meet(envI, envR, NewDriver(true, si, ei, yi, ti), NewDriver(false, sr, er, yr, tr), vi, vr, heardI, heardR, first);
            var up := HandleBody(envI, k.i, vi, k.answer.frames[0].bytes[2..], NOTHING).d;
            && DecodeMessage(envR.parse, first).Ok? && DecodeMessage(envR.parse, first).value.Handshake?
            && var m1 := DecodeMessage(envR.parse, first).value.msg;
            var pi, pr := k.i.hello + heardI, heardR + k.r.hello;
            && Read(envR.c, NewXX(envR.c, false, sr, er, pr), m1).Ok? && |m1| >= DH_SIZE
            && var r1 := Read(envR.c, NewXX(envR.c, false, sr, er, pr), m1).value.0;
            && r1.re.Some?
            && (|| (up.version == k.versionR && up.version.Some? && heardR == k.i.hello && heardI == k.r.hello)
                || Deceived(envI.c, ei, pi, [], er, pr, m1, r1))
  {
    hide DecodeMessage, EncodeMessage, Aead, ClearFrame, Write, NewXX, Deceived, Reads, HandleBody, Reached, MaxCommon;
    var i, r := NewDriver(true, si, ei, yi, ti), NewDriver(false, sr, er, yr, tr);
    var i0 := Drivers.Start(envI, i).0;
    StartKeeps(envI, i);
    var k := Meet(envI, envR, i, r, vi, vr, heardI, heardR, first);
    InitiatorHeard(envI, i0, vi, heardI, si, ei);
    ResponderHeard(envR, r, vr, heardR, sr, er);
    FreshStep(envR.c, sr, er, heardR + k.r.hello);
    ResponderAnswered(envR, k.r, vr, first);
    var m1 := DecodeMessage(envR.parse, first).value.msg;
    var r1 := Read(envR.c, k.r.phase.hs, m1).value.0;
    var m2 := Write(envR.c, r1, []).value.1;
    ClearBody(envI.parse, Handshake(m2));
    InitiatorAccepted(envI, k.i, vi, k.answer.frames[0].bytes[2..]);
    EncodedIsTight(OurHello(envI.config));
    FirstRead(envR.c, sr, er, heardR + k.r.hello, m1);
    HellosAgreed(envI.c, envR.parse, si, ei, sr, er, i0.hello, heardI, k.r.hello, heardR, m1, []);
    if heardR == i0.hello && heardI == k.r.hello {
      SameVersion(envI, envR, k.i, k.r, heardI, heardR);
    }
  }

  lemma FreshStep(c: Suite, s: Key, e: Key, prologue: seq<byte>)
    ensures NewXX(c, false, s, e, prologue).step == 1 && Reached(NewXX(c, false, s, e, prologue))
  {
  }

  /** Two sides that heard each other's HELLO settle on the same version. */
  lemma SameVersion<Y, V>(envI: Env<Y, V>, envR: Env<Y, V>, i: Driver<Y>, r: Driver<Y>, heardI: seq<byte>, heardR: seq<byte>)
    requires Usable(envI) && Usable(envR) && Reads(envI.parse) && Reads(envR.parse)
    requires SettledOn(envI, heardI, i) && SettledOn(envR, heardR, r)
    requires heardR == EncodeMessage(OurHello(envI.config)).value && heardI == EncodeMessage(OurHello(envR.config)).value
    ensures i.version == r.version && i.version.Some?
  {
    hide DecodeMessage, EncodeMessage, Aead, MaxCommon, Reads;
    MessageRoundTrip(envI.parse, OurHello(envR.config));
    MessageRoundTrip(envR.parse, OurHello(envI.config));
    MaxCommonSymmetric(envI.config.versions, envR.config.versions);
  }
}
