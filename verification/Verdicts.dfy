/**
  What a link makes of one body, whatever its bytes (core/src/link/driver.rs):
  the length gate, the nonce, the ciphertext, the message and the sync layer in
  that order decide, each failure ends the link with its own reason, and only a
  message that passed all of them reaches the store.
 */
module Verdicts {
  import opened Base
  import opened Wires
  import opened Ciphers
  import opened Handshakes
  import opened Drivers
  import opened DriverRuns
  import D = Deadlines
  import N = Establishment

  /** The link has ended, having sent nothing and reported `events` and the end. */
  ghost predicate EndsSilently<Y, V>(t: Turn<Y, V>, reason: CloseReason, store: V, events: seq<LinkEvent>) {
    t.d.phase == Ended(reason) && t.d.keys.None? && t.store == store && t.out == Out([], events + [Closed(reason)])
  }

  /** The link has ended for a violation: the peer is sent the sealed code, unless no nonce is left. */
  ghost predicate EndsReporting<Y, V>(t: Turn<Y, V>, code: u64, nonce: u64, store: V, events: seq<LinkEvent>) {
    && t.d.phase == Ended(ProtocolViolation(code)) && t.d.keys.None? && t.store == store
    && t.out.events == events + [Closed(ProtocolViolation(code))]
    && (if nonce == 0xFFFF_FFFF_FFFF_FFFF then t.out.frames == []
        else |t.out.frames| == 1 && !t.out.frames[0].clear && t.out.frames[0].msg == Error(code))
  }

  /** The replies were sent, sealed and in order; or one could not be, and the link ended silently. */
  ghost predicate Answers<Y>(d: Driver<Y>, out: Out, replies: seq<Wire>, events: seq<LinkEvent>) {
    || (d.phase.InTransport? && out.events == events && |out.frames| == |replies|
        && forall i :: 0 <= i < |replies| ==> !out.frames[i].clear && out.frames[i].msg == replies[i])
    || (d.phase == Ended(NoncesSpent) && out == Out([], events + [Closed(NoncesSpent)]))
  }

  /** What a body opens to: under the held key, or before every further 1024th message under the one derived from it. */
  ghost function Opened(c: Suite, recv: Cipher, body: seq<byte>): Option<seq<byte>>
    requires Aead(c) && recv.k.Some?
  {
    c.open(if recv.n > 0 && recv.n % 1024 == 0 then c.seal(recv.k.value, 0xFFFF_FFFF_FFFF_FFFF, [], seq(32, _ => 0))[..32] else recv.k.value,
           recv.n, [], body)
  }

  lemma ReceiveIs(c: Suite, t: Transport, body: seq<byte>)
    requires Aead(c) && Keyed(t)
    ensures var (t', r) := Receive(c, t, body);
            && (t.recv.n == 0xFFFF_FFFF_FFFF_FFFF ==> r == Err(NonceExhausted))
            && (t.recv.n < 0xFFFF_FFFF_FFFF_FFFF && Opened(c, t.recv, body).None? ==> r == Err(DecryptFailed))
            && (t.recv.n < 0xFFFF_FFFF_FFFF_FFFF && Opened(c, t.recv, body).Some? ==>
                  r == Ok(Opened(c, t.recv, body).value) && t'.send == t.send && Keyed(t'))
  {
  }

  lemma ErrorSeals(c: Suite, t: Transport, code: u64)
    requires Aead(c) && Keyed(t)
    ensures var r := SealFrame(c, t, Error(code)).1;
            if t.send.n == 0xFFFF_FFFF_FFFF_FFFF then r.Err? else r.Ok? && !r.value.clear && r.value.msg == Error(code)
  {
    hide EncodeMessage, Payload;
    EncodesExactly(Error(code));
    ErrorSmall(code);
  }

  lemma ErrorSmall(code: u64)
    ensures |Payload(Error(code))| <= 11
  {
  }

  /** Sealed frames with these messages were added. */
  ghost predicate Added(before: seq<Sent>, ms: seq<Wire>, after: seq<Sent>) {
    && |after| == |before| + |ms| && after[..|before|] == before
    && forall j :: |before| <= j < |after| ==> !after[j].clear && after[j].msg == ms[j - |before|]
  }

  lemma AddedOne(before: seq<Sent>, f: Sent, ms: seq<Wire>, after: seq<Sent>)
    requires ms != [] && !f.clear && f.msg == ms[0] && Added(before + [f], ms[1..], after)
    ensures Added(before, ms, after)
  {
    assert after[|before|] == after[..|before| + 1][|before|];
    assert after[..|before|] == after[..|before| + 1][..|before|];
  }

  lemma {:induction false} RepliesAnswer<Y>(c: Suite, d: Driver<Y>, ms: seq<Wire>, out: Out)
    requires Aead(c) && d.phase.InTransport?
    ensures var (d', out') := QueueReplies(c, d, ms, out);
            || (d'.phase.InTransport? && out'.events == out.events && Added(out.frames, ms, out'.frames))
            || (d'.phase == Ended(NoncesSpent) && out' == Out([], out.events + [Closed(NoncesSpent)]))
    decreases |ms|
  {
    hide Aead, Send, EncodeMessage, CutFrame, Added;
    if ms == [] {
      NoneAdded(out.frames);
    } else {
      var (d1, out1) := QueueSealed(c, d, ms[0], out);
      if d1.phase.InTransport? {
        RepliesAnswer(c, d1, ms[1..], out1);
        var f := SealFrame(c, d.phase.t, ms[0]).1.value;
        if QueueReplies(c, d, ms, out).0.phase.InTransport? {
          AddedOne(out.frames, f, ms, QueueReplies(c, d, ms, out).1.frames);
        }
      }
    }
  }

  lemma NoneAdded(frames: seq<Sent>)
    ensures Added(frames, [], frames)
  {
  }

  /** The code sent for a failure of the sync layer. */
  function CodeFor(e: SyncError): u64 {
    if e.Violation? || e.Malformed? then 1 else if e.ResourceLimit? then 4 else 5
  }

  /** A body on a link that is up. */
  lemma TransportVerdict<Y, V>(env: Env<Y, V>, d: Driver<Y>, store: V, body: seq<byte>)
    requires Usable(env) && Valid(d) && d.phase.InTransport?
    ensures var t := HandleBody(env, d, store, body, NOTHING);
            var recv, nonce := d.phase.t.recv, d.phase.t.send.n;
            if |body| < 16 || !Permitted(|body| - 16) then EndsSilently(t, BadCiphertextLength, store, [])
            else if recv.n == 0xFFFF_FFFF_FFFF_FFFF then EndsSilently(t, NoncesSpent, store, [])
            else if Opened(env.c, recv, body).None? then EndsSilently(t, Undecryptable, store, [])
            else
              match DecodeMessage(env.parse, Opened(env.c, recv, body).value)
              case Err(_) => EndsReporting(t, 1, nonce, store, [])
              case Ok(Hello(_, _, _)) => EndsReporting(t, 3, nonce, store, [])
              case Ok(Handshake(_)) => EndsReporting(t, 3, nonce, store, [])
              case Ok(Error(code)) => EndsSilently(t, PeerError(code), store, [])
              case Ok(m) =>
                var r := env.sync.handle(d.syncer, store, m);
                t.d.syncer == r.syncer &&
                if r.error.Some? then EndsReporting(t, CodeFor(r.error.value), nonce, r.store, Lift(r.events))
                else t.store == r.store && Answers(t.d, t.out, r.replies, Lift(r.events))
  {
    hide Aead, EncodeMessage, DecodeMessage, Receive, SealFrame, IsPaddedLen, QueueReplies, Lift;
    if |body| >= 16 {
      PaddingExact(0, |body| - 16);
    }
    ReceiveIs(env.c, d.phase.t, body);
    var (tr, x) := Receive(env.c, d.phase.t, body);
    if |body| >= 16 && IsPaddedLen(|body| - 16) && x.Ok? {
      Understood(env, d.(phase := InTransport(tr)), store, x.value);
    }
  }

  /** What follows once a body has opened. */
  ghost function Settle<Y, V>(env: Env<Y, V>, d: Driver<Y>, store: V, plain: seq<byte>): Turn<Y, V>
    requires Usable(env)
  {
    match DecodeMessage(env.parse, plain)
    case Err(_) => Reported(env.c, d, VIOLATION, store, NOTHING)
    case Ok(m) =>
      if m.Hello? || m.Handshake? then Reported(env.c, d, BAD_STATE, store, NOTHING)
      else if m.Error? then Silent(d, PeerError(m.code), store, NOTHING)
      else Dispatch(env, d, store, m, NOTHING)
  }

  lemma Understood<Y, V>(env: Env<Y, V>, d: Driver<Y>, store: V, plain: seq<byte>)
    requires Usable(env) && d.phase.InTransport? && Keyed(d.phase.t)
    ensures var t, nonce := Settle(env, d, store, plain), d.phase.t.send.n;
            match DecodeMessage(env.parse, plain)
            case Err(_) => EndsReporting(t, 1, nonce, store, [])
            case Ok(Hello(_, _, _)) => EndsReporting(t, 3, nonce, store, [])
            case Ok(Handshake(_)) => EndsReporting(t, 3, nonce, store, [])
            case Ok(Error(code)) => EndsSilently(t, PeerError(code), store, [])
            case Ok(m) =>
              var r := env.sync.handle(d.syncer, store, m);
              t.d.syncer == r.syncer &&
              if r.error.Some? then EndsReporting(t, CodeFor(r.error.value), nonce, r.store, Lift(r.events))
              else t.store == r.store && Answers(t.d, t.out, r.replies, Lift(r.events))
  {
    hide Aead, EncodeMessage, DecodeMessage, SealFrame, QueueReplies, Lift;
    ErrorSeals(env.c, d.phase.t, 1);
    ErrorSeals(env.c, d.phase.t, 3);
    if DecodeMessage(env.parse, plain).Ok? {
      var m := DecodeMessage(env.parse, plain).value;
      if !m.Hello? && !m.Handshake? && !m.Error? {
        Dispatched(env, d, store, m);
      }
    }
  }

  lemma Dispatched<Y, V>(env: Env<Y, V>, d: Driver<Y>, store: V, m: Wire)
    requires Usable(env) && d.phase.InTransport? && Keyed(d.phase.t)
    ensures var t, r := Dispatch(env, d, store, m, NOTHING), env.sync.handle(d.syncer, store, m);
            t.d.syncer == r.syncer &&
            if r.error.Some? then EndsReporting(t, CodeFor(r.error.value), d.phase.t.send.n, r.store, Lift(r.events))
            else t.store == r.store && Answers(t.d, t.out, r.replies, Lift(r.events))
  {
    hide Aead, EncodeMessage, SealFrame, QueueReplies, Lift;
    var r := env.sync.handle(d.syncer, store, m);
    var d1, out1 := d.(syncer := r.syncer), Out([], Lift(r.events));
    assert NOTHING.(events := NOTHING.events + Lift(r.events)) == out1;
    if r.error.Some? {
      ErrorSeals(env.c, d.phase.t, CodeFor(r.error.value));
    } else {
      RepliesAnswer(env.c, d1, r.replies, out1);
      RepliesKeepSyncer(env.c, d1, r.replies, out1);
    }
  }

  lemma {:induction false} RepliesKeepSyncer<Y>(c: Suite, d: Driver<Y>, ms: seq<Wire>, out: Out)
    requires Aead(c)
    ensures QueueReplies(c, d, ms, out).0.syncer == d.syncer
    decreases |ms|
  {
    hide Aead, SealFrame;
    if ms != [] && !d.phase.Ended? {
      var (d1, out1) := QueueSealed(c, d, ms[0], out);
      RepliesKeepSyncer(c, d1, ms[1..], out1);
    }
  }

  /** A body on a link that is not up: what it must be, or the link ends; the store is never touched. */
  lemma ClearVerdict<Y, V>(env: Env<Y, V>, d: Driver<Y>, store: V, body: seq<byte>)
    requires Usable(env) && Valid(d) && (d.phase.AwaitPeerHello? || d.phase.Handshaking?)
    ensures var t := HandleBody(env, d, store, body, NOTHING);
            && t.store == store && t.d.syncer == d.syncer
            && match DecodeMessage(env.parse, body)
               case Err(_) => EndsSilently(t, HandshakeFailed, store, [])
               case Ok(m) =>
                 if m == Error(2) then EndsSilently(t, VersionIncompatible, store, [])
                 else if d.phase.AwaitPeerHello? then
                   if !m.Hello? then EndsSilently(t, HandshakeFailed, store, [])
                   else if forall v :: v in m.versions ==> v !in env.config.versions then
                     t.d.phase == Ended(VersionIncompatible) && t.out.events == [Closed(VersionIncompatible)]
                     && |t.out.frames| == 1 && t.out.frames[0].clear && t.out.frames[0].msg == Error(2)
                   else t.d.phase.Handshaking? && t.out.events == []
                 else if !m.Handshake? || Read(env.c, d.phase.hs, m.msg).Err? || Read(env.c, d.phase.hs, m.msg).value.1 != [] then
                   EndsSilently(t, HandshakeFailed, store, [])
                 else
                   var hs := Read(env.c, d.phase.hs, m.msg).value.0;
                   if hs.step < 4 && Write(env.c, hs, []).Err? then EndsSilently(t, HandshakeFailed, store, [])
                   else if d.phase.hs.step == 1 then t.d.phase.Handshaking? && t.out.events == []
                   else t.d.phase.InTransport? && t.d.remote.Some? && t.out.events == [Established(t.d.remote.value)]
  {
    hide Usable, Valid, DecodeMessage, HandleHello, HandleHandshake, Read, Write;
    if d.phase.AwaitPeerHello? {
      HelloVerdict(env, d, store, body);
    } else {
      ShakeVerdict(env, d, store, body);
    }
  }

  lemma HelloVerdict<Y, V>(env: Env<Y, V>, d: Driver<Y>, store: V, body: seq<byte>)
    requires Usable(env) && Valid(d) && d.phase.AwaitPeerHello?
    ensures var (d', out) := HandleHello(env, d, body, NOTHING);
            var t := Turn(d', store, out);
            && d'.syncer == d.syncer
            && match DecodeMessage(env.parse, body)
               case Err(_) => EndsSilently(t, HandshakeFailed, store, [])
               case Ok(m) =>
                 if m == Error(2) then EndsSilently(t, VersionIncompatible, store, [])
                 else if !m.Hello? then EndsSilently(t, HandshakeFailed, store, [])
                 else if forall v :: v in m.versions ==> v !in env.config.versions then
                   d'.phase == Ended(VersionIncompatible) && out.events == [Closed(VersionIncompatible)]
                   && |out.frames| == 1 && out.frames[0].clear && out.frames[0].msg == Error(2)
                 else d'.phase.Handshaking? && out.events == []
  {
    hide Aead, EncodeMessage, DecodeMessage, ClearFrame, MaxCommon, NewXX, Write, Reached, OurTurn, Payload;
    if DecodeMessage(env.parse, body).Ok? && DecodeMessage(env.parse, body).value.Hello? {
      N.MaxCommonExact(DecodeMessage(env.parse, body).value.versions, env.config.versions);
      ErrorEncodes(2);
      ClearOk(Error(2));
      var (s, e) := d.keys.value;
      var hello := EncodeMessage(OurHello(env.config)).value;
      var prologue := if d.initiator then d.hello + body else body + hello;
      FirstMessage(env.c, d.initiator, s, e, prologue);
      if d.initiator {
        HandshakeEncodes(Write(env.c, NewXX(env.c, true, s, e, prologue), []).value.1);
      }
    }
  }

  lemma ShakeVerdict<Y, V>(env: Env<Y, V>, d: Driver<Y>, store: V, body: seq<byte>)
    requires Usable(env) && Valid(d) && d.phase.Handshaking?
    ensures var (d', out) := HandleHandshake(env, d, body, NOTHING);
            var t := Turn(d', store, out);
            && d'.syncer == d.syncer
            && match DecodeMessage(env.parse, body)
               case Err(_) => EndsSilently(t, HandshakeFailed, store, [])
               case Ok(m) =>
                 if m == Error(2) then EndsSilently(t, VersionIncompatible, store, [])
                 else if !m.Handshake? || Read(env.c, d.phase.hs, m.msg).Err? || Read(env.c, d.phase.hs, m.msg).value.1 != [] then
                   EndsSilently(t, HandshakeFailed, store, [])
                 else
                   var hs := Read(env.c, d.phase.hs, m.msg).value.0;
                   if hs.step < 4 && Write(env.c, hs, []).Err? then EndsSilently(t, HandshakeFailed, store, [])
                   else if d.phase.hs.step == 1 then d'.phase.Handshaking? && out.events == []
                   else d'.phase.InTransport? && d'.remote.Some? && out.events == [Established(d'.remote.value)]
  {
    hide Aead, EncodeMessage, DecodeMessage, ClearFrame, Write, Read, Hkdf2, Payload;
    if DecodeMessage(env.parse, body).Ok? && DecodeMessage(env.parse, body).value.Handshake? {
      var msg := DecodeMessage(env.parse, body).value.msg;
      if Read(env.c, d.phase.hs, msg).Ok? {
        ReadKeepsRole(env.c, d.phase.hs, msg);
        var hs := Read(env.c, d.phase.hs, msg).value.0;
        if hs.step < 4 && Write(env.c, hs, []).Ok? {
          WriteSize(env.c, hs);
          WriteReaches(env.c, hs, []);
          HandshakeEncodes(Write(env.c, hs, []).value.1);
        }
      }
    }
  }

  /** A body arriving whole within the deadlines is judged exactly so. */
  lemma WholeBody<Y, V>(env: Env<Y, V>, d: Driver<Y>, store: V, body: seq<byte>, now: u64)
    requires Usable(env) && Valid(d) && !d.phase.Ended? && d.buf == [] && |body| < 0x1_0000
    requires !D.Stalled(env.config, d, now) && !D.Outlived(env.config, d, now)
    ensures OnBytes(env, d, store, Frame(body), now) == HandleBody(env, d, store, body, NOTHING)
  {
    hide Usable, Valid, HandleBody, NextBody, Frame;
    FrameReads(body, []);
    assert Frame(body) + [] == Frame(body) && [] + Frame(body) == Frame(body);
    var framed := d.(buf := Frame(body));
    assert d.(buf := d.buf + Frame(body)) == framed;
    BufferIsFree(d, Frame(body));
    assert framed.(buf := []) == d;
    BodyIgnoresBuffer(env, framed, store, body, NOTHING, []);
    BodyKeeps(env, d, store, body, NOTHING);
    NothingNext();
    assert Overdue(env.config, d, now).None?;
    assert NextBody(framed.buf) == Some((body, []));
    var t := HandleBody(env, d, store, body, NOTHING);
    assert !t.d.phase.Ended? ==> Drain(env, t.d, t.store, t.out) == t;
    assert Drain(env, framed, store, NOTHING) == t;
  }

  lemma NothingNext()
    ensures NextBody([]).None?
  {
  }
}
