/**
  The link driver as an object (core/src/link/driver.rs), step by step, proved to
  do what the state machine says; and what the handshake therefore binds.
 */
module LinkDrivers {
  import opened Base
  import opened Wires
  import opened Ciphers
  import opened Handshakes
  import opened Drivers
  import opened DriverRuns
  import opened Deadlines

  /** Local misuse of a link. */
  datatype LinkError = NotEstablished | SyncRefused(why: SyncError)

  class LinkDriver<!Y, !V> {
    const env: Env<Y, V>
    const initiator: bool
    const openedAt: u64
    const decoder: FrameDecoder
    var phase: Phase
    var syncer: Y
    var keys: Option<(Key, Key)>
    var hello: seq<byte>
    var remote: Option<Key>
    var version: Option<u64>

    ghost function View(): Driver<Y>
      reads this, decoder
    {
      Driver(initiator, phase, decoder.buf, syncer, keys, hello, remote, version, openedAt)
    }

    ghost predicate Ok()
      reads this, decoder
    {
      Usable(env) && Drivers.Valid(View())
    }

    constructor (env: Env<Y, V>, initiator: bool, s: Key, e: Key, syncer: Y, now: u64)
      requires Usable(env)
      ensures Ok() && View() == NewDriver(initiator, s, e, syncer, now) && this.env == env && fresh(decoder)
    {
      this.env, this.initiator, this.openedAt, this.syncer := env, initiator, now, syncer;
      decoder := new FrameDecoder();
      phase, keys, hello, remote, version := AwaitPeerHello, Some((s, e)), [], None, None;
    }

    /** Drops everything queued, reports only the closing. */
    method CloseQuietly(reason: CloseReason, out: Out) returns (out': Out)
      modifies this
      ensures (View(), out') == CloseSilently(old(View()), reason, out)
    {
      phase := Ended(reason);
      keys := None;
      out' := Out([], out.events + [Closed(reason)]);
    }

    /** Queues an ERROR, sealed when the transport is up, then closes. */
    method CloseLoudly(code: u64, reason: CloseReason, out: Out) returns (out': Out)
      requires Usable(env)
      modifies this
      ensures (View(), out') == CloseWithError(env.c, old(View()), code, reason, out)
    {
      hide SealFrame, ClearFrame, Aead;
      var frames := out.frames;
      if phase.InTransport? {
        var sealed := SealFrame(env.c, phase.t, Error(code)).1;
        if sealed.Ok? {
          frames := frames + [sealed.value];
        }
      } else {
        var clear := ClearFrame(Error(code));
        if clear.Some? {
          frames := frames + [clear.value];
        }
      }
      assert out.frames + [] == out.frames;
      phase := Ended(reason);
      keys := None;
      out' := Out(frames, out.events + [Closed(reason)]);
    }

    method SendHello(out: Out) returns (out': Out)
      requires Usable(env)
      modifies this
      ensures (View(), out') == QueueHello(env, old(View()), out)
    {
      hide EncodeMessage, Aead;
      var m := OurHello(env.config);
      hello := EncodeMessage(m).value;
      out' := out.(frames := out.frames + [ClearFrame(m).value]);
    }

    method SendSealed(m: Wire, out: Out) returns (out': Out)
      requires Usable(env)
      modifies this
      ensures (View(), out') == QueueSealed(env.c, old(View()), m, out)
    {
      hide SealFrame, Aead;
      if !phase.InTransport? {
        return out;
      }
      var (t, r) := SealFrame(env.c, phase.t, m);
      phase := InTransport(t);
      if r.Ok? {
        out' := out.(frames := out.frames + [r.value]);
      } else {
        out' := CloseQuietly(NoncesSpent, out);
      }
    }

    method SendHandshake(msg: seq<byte>, out: Out) returns (out': Out)
      modifies this
      ensures (View(), out') == QueueHandshake(old(View()), msg, out)
    {
      hide ClearFrame;
      if |msg| >= U64_LIMIT {
        out' := CloseQuietly(HandshakeFailed, out);
        return;
      }
      var frame := ClearFrame(Handshake(msg));
      if frame.Some? {
        out' := out.(frames := out.frames + [frame.value]);
      } else {
        out' := CloseQuietly(HandshakeFailed, out);
      }
    }

    /** Waiting for the peer's HELLO. */
    method OnHello(body: seq<byte>, out: Out) returns (out': Out)
      requires Ok() && phase.AwaitPeerHello?
      modifies this
      ensures (View(), out') == HandleHello(env, old(View()), body, out)
    {
      hide DecodeMessage, MaxCommon, CloseSilently, CloseWithError, StartHandshake, Aead, EncodeMessage;
      var msg := DecodeMessage(env.parse, body);
      if msg.Err? {
        out' := CloseQuietly(HandshakeFailed, out);
        return;
      }
      var m := msg.value;
      if m.Error? && m.code == INCOMPATIBLE {
        out' := CloseQuietly(VersionIncompatible, out);
        return;
      }
      if !m.Hello? {
        out' := CloseQuietly(HandshakeFailed, out);
        return;
      }
      var common := MaxCommon(m.versions, env.config.versions);
      if common.None? {
        out' := CloseLoudly(INCOMPATIBLE, VersionIncompatible, out);
        return;
      }
      version := common;
      out' := BeginHandshake(body, out);
    }

    method BeginHandshake(body: seq<byte>, out: Out) returns (out': Out)
      requires Usable(env) && keys.Some?
      modifies this
      ensures (View(), out') == StartHandshake(env, old(View()), body, out)
    {
      hide Aead, EncodeMessage, NewXX, Write, QueueHello, QueueHandshake;
      out' := out;
      if !initiator {
        out' := SendHello(out');
        HelloKeepsKeys(env, old(View()), out);
      }
      var prologue := if initiator then hello + body else body + hello;
      var (s, e) := keys.value;
      keys := None;
      var hs := NewXX(env.c, initiator, s, e, prologue);
      if initiator {
        var first := Write(env.c, hs, []);
        if first.Err? {
          out' := CloseQuietly(HandshakeFailed, out');
          return;
        }
        hs := first.value.0;
        out' := SendHandshake(first.value.1, out');
      }
      phase := Handshaking(hs);
    }

    /** The XX handshake is running. */
    method OnHandshake(body: seq<byte>, out: Out) returns (out': Out)
      requires Ok() && phase.Handshaking?
      modifies this
      ensures (View(), out') == HandleHandshake(env, old(View()), body, out)
    {
      hide DecodeMessage, CloseSilently, Read, Proceed, Aead, EncodeMessage;
      var msg := DecodeMessage(env.parse, body);
      if msg.Err? {
        out' := CloseQuietly(HandshakeFailed, out);
        return;
      }
      var m := msg.value;
      if m.Error? && m.code == INCOMPATIBLE {
        out' := CloseQuietly(VersionIncompatible, out);
        return;
      }
      if !m.Handshake? {
        out' := CloseQuietly(HandshakeFailed, out);
        return;
      }
      var read := Read(env.c, phase.hs, m.msg);
      if read.Err? || read.value.1 != [] {
        out' := CloseQuietly(HandshakeFailed, out);
        return;
      }
      out' := GoOn(read.value.0, out);
    }

    /** Writes the next handshake message, if it is our turn, and finishes after the last. */
    method GoOn(read: Shake, out: Out) returns (out': Out)
      modifies this
      ensures (View(), out') == Proceed(env, old(View()), read, out)
    {
      hide Write, QueueHandshake, CloseSilently, IntoTransport;
      var hs := read;
      out' := out;
      if hs.step <= 3 {
        var next := Write(env.c, hs, []);
        if next.Err? {
          out' := CloseQuietly(HandshakeFailed, out');
          return;
        }
        hs := next.value.0;
        out' := SendHandshake(next.value.1, out');
      }
      if hs.step > 3 {
        var split := IntoTransport(env.c, hs);
        if split.Err? {
          out' := CloseQuietly(HandshakeFailed, out');
          return;
        }
        var fingerprint := env.c.sha(split.value.1);
        remote := Some(fingerprint);
        phase := InTransport(split.value.0);
        out' := out'.(events := out'.events + [Established(fingerprint)]);
      } else {
        phase := Handshaking(hs);
      }
    }

    /** The transport epoch: gate, decrypt, decode, dispatch. */
    method OnTransport(store: V, body: seq<byte>, out: Out) returns (store': V, out': Out)
      requires Ok() && phase.InTransport?
      modifies this
      ensures Turn(View(), store', out') == HandleTransport(env, old(View()), store, body, out)
    {
      hide DecodeMessage, CloseSilently, CloseWithError, Receive, Dispatch, Aead, EncodeMessage, IsPaddedLen;
      store' := store;
      if |body| < TAG_SIZE || !IsPaddedLen(|body| - TAG_SIZE) {
        out' := CloseQuietly(BadCiphertextLength, out);
        return;
      }
      var (t, plain) := Receive(env.c, phase.t, body);
      if plain.Err? {
        out' := CloseQuietly(if plain.error == NonceExhausted then NoncesSpent else Undecryptable, out);
        return;
      }
      phase := InTransport(t);
      var msg := DecodeMessage(env.parse, plain.value);
      if msg.Err? {
        out' := CloseLoudly(VIOLATION, ProtocolViolation(VIOLATION), out);
        return;
      }
      var m := msg.value;
      if m.Hello? || m.Handshake? {
        out' := CloseLoudly(BAD_STATE, ProtocolViolation(BAD_STATE), out);
      } else if m.Error? {
        out' := CloseQuietly(PeerError(m.code), out);
      } else {
        store', out' := HandToSync(store, m, out);
      }
    }

    method HandToSync(store: V, m: Wire, out: Out) returns (store': V, out': Out)
      requires Usable(env)
      modifies this
      ensures Turn(View(), store', out') == Dispatch(env, old(View()), store, m, out)
    {
      hide CloseWithError, QueueReplies, QueueSealed, Aead, EncodeMessage;
      var r := env.sync.handle(syncer, store, m);
      syncer, store' := r.syncer, r.store;
      out' := out.(events := out.events + Lift(r.events));
      if r.error.Some? {
        var code := ErrorCode(r.error.value);
        out' := CloseLoudly(code, ProtocolViolation(code), out');
        return;
      }
      out' := SendReplies(r.replies, out');
    }

    method SendReplies(replies: seq<Wire>, out: Out) returns (out': Out)
      requires Usable(env)
      modifies this
      ensures (View(), out') == QueueReplies(env.c, old(View()), replies, out)
    {
      hide QueueSealed, Usable;
      UsableAead(env);
      ghost var was := View();
      out' := out;
      var i := 0;
      while i < |replies| && !phase.Ended?
        invariant i <= |replies|
        invariant QueueReplies(env.c, was, replies, out) == QueueReplies(env.c, View(), replies[i..], out')
        decreases |replies| - i
      {
        assert replies[i..][1..] == replies[i + 1..];
        out' := SendSealed(replies[i], out');
        i := i + 1;
      }
    }

    /** The initiator opens with its HELLO; the responder waits. */
    method Begin() returns (out: Out)
      requires Ok()
      modifies this
      ensures (View(), out) == Start(env, old(View()))
    {
      hide Usable, QueueHello;
      out := NOTHING;
      if initiator && phase.AwaitPeerHello? {
        out := SendHello(NOTHING);
      }
    }

    /** Time only: enforces the handshake and lifetime caps. */
    method Tick(now: u64) returns (out: Out)
      requires Ok()
      modifies this
      ensures (View(), out) == OnTick(env, old(View()), now)
      ensures !old(phase).Ended? ==>
                && (Stalled(env.config, old(View()), now) <==> phase == Ended(HandshakeTimeout))
                && (!Stalled(env.config, old(View()), now) && Outlived(env.config, old(View()), now) <==> phase == Ended(LifetimeExpired))
                && out == if phase.Ended? then Out([], [Closed(phase.reason)]) else NOTHING
    {
      hide CloseSilently, Overdue, Stalled, Outlived;
      if !phase.Ended? {
        TickCloses(env, View(), now);
      }
      out := NOTHING;
      if !phase.Ended? {
        var overdue := Overdue(env.config, Snapshot(), now);
        if overdue.Some? {
          out := CloseQuietly(overdue.value, NOTHING);
        }
      }
    }

    /** Opens a reconciliation session; refused before the link is up. */
    method OpenSync(store: V, since: u64, until: u64) returns (r: Result<(u64, Out), LinkError>)
      requires Ok()
      modifies this
      ensures !old(phase).InTransport? ==> r == Err(NotEstablished) && View() == old(View())
      ensures old(phase).InTransport? ==>
                match Drivers.OpenSync(env, old(View()), store, since, until)
                case Err(why) => r == Err(SyncRefused(why)) && View() == old(View())
                case Ok((sid, d, out)) => r == Result.Ok((sid, out)) && View() == d
    {
      hide QueueSealed, Aead, EncodeMessage;
      if !phase.InTransport? {
        return Err(NotEstablished);
      }
      var opening := env.sync.open(syncer, store, since, until);
      if opening.Err? {
        return Err(SyncRefused(opening.error));
      }
      syncer := opening.value.0;
      var out := SendSealed(opening.value.2, NOTHING);
      r := Result.Ok((opening.value.1, out));
    }

    /** Originates one message; HELLO and HANDSHAKE are refused, ERROR closes the link. */
    method Originate(m: Wire) returns (r: Option<Out>)
      requires Ok()
      modifies this
      ensures match SendOne(env, old(View()), m)
              case None => r == None && View() == old(View())
              case Some((d, out)) => r == Some(out) && View() == d
    {
      hide QueueSealed, CloseWithError, Aead, EncodeMessage;
      if !phase.InTransport? || m.Hello? || m.Handshake? {
        return None;
      }
      var out;
      if m.Error? {
        out := CloseLoudly(m.code, ProtocolViolation(m.code), NOTHING);
      } else {
        out := SendSealed(m, NOTHING);
      }
      r := Some(out);
    }

    /** Feeds raw stream bytes, cut anywhere. */
    method Feed(store: V, bytes: seq<byte>, now: u64) returns (store': V, out: Out)
      requires Ok()
      modifies this, decoder
      ensures Ok() && Turn(View(), store', out) == OnBytes(env, old(View()), store, bytes, now)
    {
      hide Usable, Drivers.Valid, Overdue, Drain;
      store', out := store, NOTHING;
      ghost var was := View();
      if phase.Ended? {
        return;
      }
      TwoCallsAreOne(env, was, store, bytes, [], now);
      var overdue := Overdue(env.config, Snapshot(), now);
      if overdue.Some? {
        out := CloseQuietly(overdue.value, NOTHING);
        return;
      }
      decoder.Push(bytes);
      BufferIsFree(was, decoder.buf);
      store', out := DrainDecoder(store);
    }

    function Snapshot(): (d: Driver<Y>)
      reads this, decoder
      ensures d == View()
    {
      Driver(initiator, phase, decoder.buf, syncer, keys, hello, remote, version, openedAt)
    }

    method DrainDecoder(store: V) returns (store': V, out: Out)
      requires Ok() && !phase.Ended?
      modifies this, decoder
      ensures Ok() && Turn(View(), store', out) == Drain(env, old(View()), store, NOTHING)
    {
      hide Usable, Drivers.Valid, HandleBody, NextBody;
      ghost var was := View();
      store', out := store, NOTHING;
      var body := decoder.Next();
      DrainOnce(env, was, store, NOTHING, body, View());
      while body.Some?
        invariant Ok() && !phase.Ended?
        invariant body.None? ==> Drain(env, was, store, NOTHING) == Turn(View(), store', out)
        invariant body.Some? ==> Drain(env, was, store, NOTHING) == AfterBody(env, View(), store', body.value, out)
        decreases |decoder.buf|, if body.Some? then 1 else 0
      {
        ghost var d0 := View();
        BodyKeeps(env, d0, store', body.value, out);
        store', out := OnBody(store', body.value, out);
        if phase.Ended? {
          return;
        }
        ghost var d1 := View();
        body := decoder.Next();
        DrainOnce(env, d1, store', out, body, View());
      }
    }

    method OnBody(store: V, body: seq<byte>, out: Out) returns (store': V, out': Out)
      requires Ok()
      modifies this
      ensures Turn(View(), store', out') == HandleBody(env, old(View()), store, body, out)
    {
      hide HandleHello, HandleHandshake, HandleTransport;
      store', out' := store, out;
      match phase
      case AwaitPeerHello => out' := OnHello(body, out);
      case Handshaking(_) => out' := OnHandshake(body, out);
      case InTransport(_) => store', out' := OnTransport(store, body, out);
      case Ended(_) =>
    }
  }

  lemma HelloKeepsKeys<Y, V>(env: Env<Y, V>, d: Driver<Y>, out: Out)
    requires Usable(env)
    ensures QueueHello(env, d, out).0.keys == d.keys
  {
  }

  /** Handling a body that was just taken off the buffer, then going on. */
  ghost function AfterBody<Y, V>(env: Env<Y, V>, d: Driver<Y>, store: V, body: seq<byte>, out: Out): Turn<Y, V>
    requires Usable(env) && Drivers.Valid(d)
  {
    BodyKeeps(env, d, store, body, out);
    var t := HandleBody(env, d, store, body, out);
    if t.d.phase.Ended? then t else Drain(env, t.d, t.store, t.out)
  }

  lemma DrainOnce<Y, V>(env: Env<Y, V>, d: Driver<Y>, store: V, out: Out, body: Option<seq<byte>>, d': Driver<Y>)
    requires Usable(env) && Drivers.Valid(d)
    requires match NextBody(d.buf)
             case None => body == None && d' == d
             case Some((b, rest)) => body == Some(b) && d' == d.(buf := rest)
    ensures Drivers.Valid(d') && |d'.buf| <= |d.buf| && (body.Some? ==> |d'.buf| < |d.buf|)
    ensures body.None? ==> Drain(env, d, store, out) == Turn(d', store, out)
    ensures body.Some? ==> Drain(env, d, store, out) == AfterBody(env, d', store, body.value, out)
  {
    hide Usable, HandleBody;
    BufferIsFree(d, d'.buf);
  }

  /* ----- what a finished handshake says about the HELLOs ----- */

  /** A body whose length is the one its header asks for. */
  predicate Tight(body: seq<byte>) {
    |body| >= 3 && PaddedLen(HEADER_SIZE + Be16(body[1], body[2])) == Some(|body|)
  }

  lemma EncodedIsTight(m: Wire)
    requires EncodeMessage(m).Ok?
    ensures Tight(EncodeMessage(m).value)
  {
    hide Payload;
    var n := |Payload(m)|;
    PaddingFits(HEADER_SIZE + n);
    var body := EncodeMessage(m).value;
    assert body[1] == n / 256 && body[2] == n % 256;
  }

  lemma DecodedIsTight(parse: Parser, body: seq<byte>)
    requires DecodeMessage(parse, body).Ok?
    ensures Tight(body)
  {
  }

  /** The two HELLO bodies can be told apart in the prologue. */
  lemma PrologueInjective(a: seq<byte>, b: seq<byte>, a': seq<byte>, b': seq<byte>)
    requires Tight(a) && Tight(a') && a + b == a' + b'
    ensures a == a' && b == b'
  {
    var s := a + b;
    assert s[1] == a[1] && s[2] == a[2];
    assert (a' + b')[1] == a'[1] && (a' + b')[2] == a'[2];
    assert |a| == |a'|;
    assert s[..|a|] == a && (a' + b')[..|a'|] == a';
    assert s[|a|..] == b && (a' + b')[|a'|..] == b';
  }

  /**
    Downgrade protection: when the initiator accepts an honest responder's second
    message, each side had seen exactly the HELLO the other one sent, or a named
    break of the primitives happened.
   */
  lemma HellosAgreed(c: Suite, parse: Parser, si: Key, ei: Key, sr: Key, er: Key,
                     sentI: seq<byte>, heardI: seq<byte>, sentR: seq<byte>, heardR: seq<byte>, m1: seq<byte>, p2: seq<byte>)
    requires Aead(c) && Tight(sentI) && DecodeMessage(parse, heardR).Ok?
    requires var pi, pr := sentI + heardI, heardR + sentR;
             && Write(c, NewXX(c, true, si, ei, pi), []).Ok? && Read(c, NewXX(c, false, sr, er, pr), m1).Ok?
             && var i1, r1 := Write(c, NewXX(c, true, si, ei, pi), []).value.0, Read(c, NewXX(c, false, sr, er, pr), m1).value.0;
             && Write(c, r1, p2).Ok? && Reached(i1) && Read(c, i1, Write(c, r1, p2).value.1).Ok?
    ensures |m1| >= DH_SIZE
    ensures var pi, pr := sentI + heardI, heardR + sentR;
            var r1 := Read(c, NewXX(c, false, sr, er, pr), m1).value.0;
            || (sentI == heardR && sentR == heardI && m1 == Write(c, NewXX(c, true, si, ei, pi), []).value.1)
            || Deceived(c, ei, pi, [], er, pr, m1, r1)
  {
    hide Aead, Write, Read, NewXX, Deceived, DecodeMessage, Reached;
    DecodedIsTight(parse, heardR);
    var pi, pr := sentI + heardI, heardR + sentR;
    AcceptedMeansAgreed(c, si, ei, pi, [], sr, er, pr, m1, p2);
    if pi == pr {
      PrologueInjective(sentI, heardI, heardR, sentR);
    }
  }
}
