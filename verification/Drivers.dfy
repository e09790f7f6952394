/**
  The link state machine (core/src/link/driver.rs): HELLO exchange, handshake,
  transport epoch, and every way a link closes. The sync layer and the store are
  parameters, so what is proved holds whatever they do.
 */
module Drivers {
  import opened Base
  import opened Wires
  import opened Ciphers
  import opened Handshakes
  import S = Syncers

  const VIOLATION: u64 := 1
  const INCOMPATIBLE: u64 := 2
  const BAD_STATE: u64 := 3

  datatype CloseReason =
    | VersionIncompatible
    | HandshakeFailed
    | HandshakeTimeout
    | BadCiphertextLength
    | Undecryptable
    | ProtocolViolation(code: u64)
    | PeerError(code: u64)
    | LifetimeExpired
    | NoncesSpent

  datatype LinkEvent =
    | Established(remote: Key)
    | Synced(event: S.Event)
    | Closed(reason: CloseReason)

  /** A frame that was written, with the message in it and whether it was readable by anyone. */
  datatype Sent = Sent(clear: bool, msg: Wire, bytes: seq<byte>)

  datatype Out = Out(frames: seq<Sent>, events: seq<LinkEvent>)

  const NOTHING: Out := Out([], [])

  datatype LinkConfig = LinkConfig(versions: seq<u64>, features: u64, transports: seq<u64>, maxLifetime: u64, handshakeTimeout: u64)

  /** What the sync layer does with a message. */
  datatype Reaction<Y, V> = Reaction(syncer: Y, store: V, replies: seq<Wire>, events: seq<S.Event>, error: Option<SyncError>)

  datatype Sync<!Y, !V> = Sync(handle: (Y, V, Wire) -> Reaction<Y, V>, open: (Y, V, u64, u64) -> Result<(Y, u64, Wire), SyncError>)

  datatype Env<!Y, !V> = Env(c: Suite, parse: Parser, sync: Sync<Y, V>, config: LinkConfig)

  datatype Phase =
    | AwaitPeerHello
    | Handshaking(hs: Shake)
    | InTransport(t: Transport)
    | Ended(reason: CloseReason)

  /** One link. The keys are held until the handshake starts. */
  datatype Driver<Y> = Driver(
    initiator: bool,
    phase: Phase,
    buf: seq<byte>,
    syncer: Y,
    keys: Option<(Key, Key)>,
    hello: seq<byte>,
    remote: Option<Key>,
    version: Option<u64>,
    openedAt: u64)

  /** A link, its store, and the output of the current call. */
  datatype Turn<Y, V> = Turn(d: Driver<Y>, store: V, out: Out)

  function OurHello(cfg: LinkConfig): Wire {
    Hello(cfg.versions, cfg.features, cfg.transports)
  }

  /** The primitives work and our own HELLO encodes. */
  ghost predicate Usable<Y, V>(env: Env<Y, V>) {
    Aead(env.c) && EncodeMessage(OurHello(env.config)).Ok?
  }

  /** Keys are held exactly while waiting for HELLO; a running handshake is waiting to read. */
  ghost predicate Valid<Y>(d: Driver<Y>) {
    && (d.phase.AwaitPeerHello? <==> d.keys.Some?)
    && (d.phase.Handshaking? ==> Reached(d.phase.hs) && d.phase.hs.step <= 3 && !OurTurn(d.phase.hs) && d.phase.hs.initiator == d.initiator)
    && (d.phase.InTransport? ==> Keyed(d.phase.t))
  }

  /** A usable transport with keys both ways. */
  predicate Keyed(t: Transport) {
    !t.failed && t.send.k.Some? && t.recv.k.Some?
  }

  /* ----- frames ----- */

  function ClearFrame(m: Wire): Option<Sent> {
    match EncodeMessage(m)
    case Err(_) => None
    case Ok(body) =>
      EncodesExactly(m);
      Some(Sent(true, m, Frame(body)))
  }

  /** The length field of a sealed frame is cut to sixteen bits. */
  function CutFrame(body: seq<byte>): seq<byte> {
    [|body| % 0x1_0000 / 256, |body| % 256] + body
  }

  function SealFrame(c: Suite, t: Transport, m: Wire): (Transport, Result<Sent, NoiseError>)
    requires Aead(c)
  {
    match EncodeMessage(m)
    case Err(_) => (t, Err(BadMessage))
    case Ok(plain) =>
      match Send(c, t, plain)
      case (t', Err(e)) => (t', Err(e))
      case (t', Ok(x)) => (t', Ok(Sent(false, m, CutFrame(x))))
  }

  /* ----- closing ----- */

  /** Drops everything queued and reports only the closing. */
  function CloseSilently<Y>(d: Driver<Y>, reason: CloseReason, out: Out): (Driver<Y>, Out) {
    (d.(phase := Ended(reason), keys := None), Out([], out.events + [Closed(reason)]))
  }

  /** Queues an ERROR, sealed when the transport is up, then closes. */
  function CloseWithError<Y>(c: Suite, d: Driver<Y>, code: u64, reason: CloseReason, out: Out): (Driver<Y>, Out)
    requires Aead(c)
  {
    var frame := if d.phase.InTransport? then
                   (match SealFrame(c, d.phase.t, Error(code)).1 case Ok(f) => [f] case Err(_) => [])
                 else (match ClearFrame(Error(code)) case Some(f) => [f] case None => []);
    (d.(phase := Ended(reason), keys := None), Out(out.frames + frame, out.events + [Closed(reason)]))
  }

  /* ----- queueing ----- */

  function QueueHello<Y, V>(env: Env<Y, V>, d: Driver<Y>, out: Out): (Driver<Y>, Out)
    requires Usable(env)
  {
    var m := OurHello(env.config);
    (d.(hello := EncodeMessage(m).value), out.(frames := out.frames + [ClearFrame(m).value]))
  }

  function QueueHandshake<Y>(d: Driver<Y>, msg: seq<byte>, out: Out): (Driver<Y>, Out) {
    if |msg| >= U64_LIMIT then CloseSilently(d, HandshakeFailed, out)
    else
      match ClearFrame(Handshake(msg))
      case Some(f) => (d, out.(frames := out.frames + [f]))
      case None => CloseSilently(d, HandshakeFailed, out)
  }

  function QueueSealed<Y>(c: Suite, d: Driver<Y>, m: Wire, out: Out): (Driver<Y>, Out)
    requires Aead(c)
  {
    if !d.phase.InTransport? then (d, out)
    else
      match SealFrame(c, d.phase.t, m)
      case (t, Ok(f)) => (d.(phase := InTransport(t)), out.(frames := out.frames + [f]))
      case (t, Err(_)) => CloseSilently(d.(phase := InTransport(t)), NoncesSpent, out)
  }

  function QueueReplies<Y>(c: Suite, d: Driver<Y>, ms: seq<Wire>, out: Out): (Driver<Y>, Out)
    requires Aead(c)
    decreases |ms|
  {
    if ms == [] || d.phase.Ended? then (d, out)
    else
      var (d', out') := QueueSealed(c, d, ms[0], out);
      QueueReplies(c, d', ms[1..], out')
  }

  /* ----- handling bodies ----- */

  /** The highest common version. */
  function MaxCommon(theirs: seq<u64>, ours: seq<u64>): Option<u64> {
    if theirs == [] then None
    else
      var rest, v := MaxCommon(theirs[..|theirs| - 1], ours), theirs[|theirs| - 1];
      if v in ours && (rest.None? || rest.value <= v) then Some(v) else rest
  }

  function HandleHello<Y, V>(env: Env<Y, V>, d: Driver<Y>, body: seq<byte>, out: Out): (Driver<Y>, Out)
    requires Usable(env) && Valid(d) && d.phase.AwaitPeerHello?
  {
    match DecodeMessage(env.parse, body)
    case Err(_) => CloseSilently(d, HandshakeFailed, out)
    case Ok(m) =>
      if m.Error? && m.code == INCOMPATIBLE then CloseSilently(d, VersionIncompatible, out)
      else if !m.Hello? then CloseSilently(d, HandshakeFailed, out)
      else
        match MaxCommon(m.versions, env.config.versions)
        case None => CloseWithError(env.c, d, INCOMPATIBLE, VersionIncompatible, out)
        case Some(version) => StartHandshake(env, d.(version := Some(version)), body, out)
  }

  /** Answers as responder, fixes the prologue, and as initiator writes the first message. */
  function StartHandshake<Y, V>(env: Env<Y, V>, d: Driver<Y>, body: seq<byte>, out: Out): (Driver<Y>, Out)
    requires Usable(env) && d.keys.Some?
  {
    var (d1, out1) := if d.initiator then (d, out) else QueueHello(env, d, out);
    var prologue := if d.initiator then d1.hello + body else body + d1.hello;
    var (s, e) := d.keys.value;
    var hs := NewXX(env.c, d.initiator, s, e, prologue);
    var d2 := d1.(keys := None);
    if d.initiator then
      match Write(env.c, hs, [])
      case Err(_) => CloseSilently(d2, HandshakeFailed, out1)
      case Ok((hs', msg)) =>
        var (d3, out3) := QueueHandshake(d2, msg, out1);
        (d3.(phase := Handshaking(hs')), out3)
    else (d2.(phase := Handshaking(hs)), out1)
  }

  function HandleHandshake<Y, V>(env: Env<Y, V>, d: Driver<Y>, body: seq<byte>, out: Out): (Driver<Y>, Out)
    requires Usable(env) && Valid(d) && d.phase.Handshaking?
  {
    match DecodeMessage(env.parse, body)
    case Err(_) => CloseSilently(d, HandshakeFailed, out)
    case Ok(m) =>
      if m.Error? && m.code == INCOMPATIBLE then CloseSilently(d, VersionIncompatible, out)
      else if !m.Handshake? then CloseSilently(d, HandshakeFailed, out)
      else
        match Read(env.c, d.phase.hs, m.msg)
        case Err(_) => CloseSilently(d, HandshakeFailed, out)
        case Ok((hs, payload)) =>
          if payload != [] then CloseSilently(d, HandshakeFailed, out) else Proceed(env, d, hs, out)
  }

  /** Writes the next handshake message if there is one, and finishes if that was the last. */
  function Proceed<Y, V>(env: Env<Y, V>, d: Driver<Y>, hs: Shake, out: Out): (Driver<Y>, Out) {
    if hs.step > 3 then Finish(env, d, hs, out)
    else
      match Write(env.c, hs, [])
      case Err(_) => CloseSilently(d, HandshakeFailed, out)
      case Ok((hs', msg)) =>
        var (d', out') := QueueHandshake(d, msg, out);
        if hs'.step > 3 then Finish(env, d', hs', out') else (d'.(phase := Handshaking(hs')), out')
  }

  function Finish<Y, V>(env: Env<Y, V>, d: Driver<Y>, hs: Shake, out: Out): (Driver<Y>, Out) {
    match IntoTransport(env.c, hs)
    case Err(_) => CloseSilently(d, HandshakeFailed, out)
    case Ok((t, rs, _)) =>
      var remote := env.c.sha(rs);
      (d.(remote := Some(remote), phase := InTransport(t)), out.(events := out.events + [Established(remote)]))
  }

  function Lift(events: seq<S.Event>): (es: seq<LinkEvent>)
    ensures |es| == |events| && forall i :: 0 <= i < |es| ==> es[i] == Synced(events[i])
  {
    seq(|events|, i requires 0 <= i < |events| => Synced(events[i]))
  }

  /** The code a link reports for a failure of the sync layer. */
  function ErrorCode(e: SyncError): u64 {
    match e
    case Violation(_) => VIOLATION
    case Malformed(_) => VIOLATION
    case ResourceLimit => 4
    case _ => 5
  }

  function HandleTransport<Y, V>(env: Env<Y, V>, d: Driver<Y>, store: V, body: seq<byte>, out: Out): Turn<Y, V>
    requires Usable(env) && Valid(d) && d.phase.InTransport?
  {
    if |body| < TAG_SIZE || !IsPaddedLen(|body| - TAG_SIZE) then Silent(d, BadCiphertextLength, store, out)
    else
      match Receive(env.c, d.phase.t, body)
      case (_, Err(NonceExhausted)) => Silent(d, NoncesSpent, store, out)
      case (_, Err(_)) => Silent(d, Undecryptable, store, out)
      case (t, Ok(plain)) =>
        var d1 := d.(phase := InTransport(t));
        match DecodeMessage(env.parse, plain)
        case Err(_) => Reported(env.c, d1, VIOLATION, store, out)
        case Ok(m) =>
          if m.Hello? || m.Handshake? then Reported(env.c, d1, BAD_STATE, store, out)
          else if m.Error? then Silent(d1, PeerError(m.code), store, out)
          else Dispatch(env, d1, store, m, out)
  }

  function Silent<Y, V>(d: Driver<Y>, reason: CloseReason, store: V, out: Out): Turn<Y, V> {
    var (d', out') := CloseSilently(d, reason, out);
    Turn(d', store, out')
  }

  function Reported<Y, V>(c: Suite, d: Driver<Y>, code: u64, store: V, out: Out): Turn<Y, V>
    requires Aead(c)
  {
    var (d', out') := CloseWithError(c, d, code, ProtocolViolation(code), out);
    Turn(d', store, out')
  }

  /** Hands a message to the sync layer; its events are kept even when it fails. */
  function Dispatch<Y, V>(env: Env<Y, V>, d: Driver<Y>, store: V, m: Wire, out: Out): Turn<Y, V>
    requires Usable(env)
  {
    var r := env.sync.handle(d.syncer, store, m);
    var d1, out1 := d.(syncer := r.syncer), out.(events := out.events + Lift(r.events));
    match r.error
    case Some(e) => Reported(env.c, d1, ErrorCode(e), r.store, out1)
    case None =>
      var (d2, out2) := QueueReplies(env.c, d1, r.replies, out1);
      Turn(d2, r.store, out2)
  }

  function HandleBody<Y, V>(env: Env<Y, V>, d: Driver<Y>, store: V, body: seq<byte>, out: Out): Turn<Y, V>
    requires Usable(env) && Valid(d)
  {
    match d.phase
    case AwaitPeerHello => var (d', out') := HandleHello(env, d, body, out); Turn(d', store, out')
    case Handshaking(_) => var (d', out') := HandleHandshake(env, d, body, out); Turn(d', store, out')
    case InTransport(_) => HandleTransport(env, d, store, body, out)
    case Ended(_) => Turn(d, store, out)
  }

  /* ----- calls ----- */

  function Since(d: u64, now: u64): nat {
    if now >= d then now - d else 0
  }

  /** The reason to close at this clock reading, if there is one. */
  function Overdue<Y>(cfg: LinkConfig, d: Driver<Y>, now: u64): Option<CloseReason> {
    if !d.phase.InTransport? && Since(d.openedAt, now) >= cfg.handshakeTimeout then Some(HandshakeTimeout)
    else if Since(d.openedAt, now) >= cfg.maxLifetime then Some(LifetimeExpired)
    else None
  }

  function NewDriver<Y>(initiator: bool, s: Key, e: Key, syncer: Y, now: u64): Driver<Y> {
    Driver(initiator, AwaitPeerHello, [], syncer, Some((s, e)), [], None, None, now)
  }

  function Start<Y, V>(env: Env<Y, V>, d: Driver<Y>): (Driver<Y>, Out)
    requires Usable(env)
  {
    if d.initiator && d.phase.AwaitPeerHello? then QueueHello(env, d, NOTHING) else (d, NOTHING)
  }

  function OnTick<Y, V>(env: Env<Y, V>, d: Driver<Y>, now: u64): (Driver<Y>, Out) {
    if d.phase.Ended? then (d, NOTHING)
    else
      match Overdue(env.config, d, now)
      case Some(reason) => CloseSilently(d, reason, NOTHING)
      case None => (d, NOTHING)
  }

  function OpenSync<Y, V>(env: Env<Y, V>, d: Driver<Y>, store: V, since: u64, until: u64): Result<(u64, Driver<Y>, Out), SyncError>
    requires Usable(env) && d.phase.InTransport?
  {
    var (syncer, sid, m) :- env.sync.open(d.syncer, store, since, until);
    var (d', out) := QueueSealed(env.c, d.(syncer := syncer), m, NOTHING);
    Ok((sid, d', out))
  }

  /** Originates a message; only what the transport epoch permits. */
  function SendOne<Y, V>(env: Env<Y, V>, d: Driver<Y>, m: Wire): Option<(Driver<Y>, Out)>
    requires Usable(env)
  {
    if !d.phase.InTransport? || m.Hello? || m.Handshake? then None
    else if m.Error? then Some(CloseWithError(env.c, d, m.code, ProtocolViolation(m.code), NOTHING))
    else Some(QueueSealed(env.c, d, m, NOTHING))
  }

  /* ----- what every handler keeps ----- */

  /** Handshake messages are small, so their frames always encode. */
  lemma WriteSize(c: Suite, x: Shake)
    requires Aead(c) && Reached(x) && OurTurn(x) && Write(c, x, []).Ok?
    ensures |Write(c, x, []).value.1| <= 112
  {
  }

  lemma HandshakeEncodes(msg: seq<byte>)
    requires |msg| <= 112
    ensures ClearFrame(Handshake(msg)).Some?
  {
    EncodesExactly(Handshake(msg));
  }

  ghost predicate NoClosed(events: seq<LinkEvent>) {
    forall i :: 0 <= i < |events| ==> !events[i].Closed?
  }

  /** How often Established occurs. */
  function Ests(events: seq<LinkEvent>): nat {
    if events == [] then 0 else Ests(events[..|events| - 1]) + if events[|events| - 1].Established? then 1 else 0
  }

  /** What the events so far say about the link. */
  ghost predicate LogOk<Y>(d: Driver<Y>, log: seq<LinkEvent>) {
    && (if d.phase.Ended? then log != [] && log[|log| - 1] == Closed(d.phase.reason) && NoClosed(log[..|log| - 1]) else NoClosed(log))
    && Ests(log) <= 1
    && (d.phase.InTransport? ==> Ests(log) == 1)
    && (d.phase.AwaitPeerHello? || d.phase.Handshaking? ==> Ests(log) == 0)
  }

  /** Reasons for which nothing may be sent. */
  predicate SilentReason(r: CloseReason) {
    !r.VersionIncompatible? && !r.ProtocolViolation?
  }

  /** In the clear only HELLO, HANDSHAKE and ERROR 2; sealed frames pass the peer's gate uncut. */
  ghost predicate FrameOk(f: Sent) {
    if f.clear then f.msg.Hello? || f.msg.Handshake? || f.msg == Error(INCOMPATIBLE)
    else exists x :: Passes(f.bytes, x)
  }

  ghost predicate Passes(bytes: seq<byte>, x: seq<byte>) {
    TAG_SIZE <= |x| < 0x1_0000 && bytes == Frame(x) && IsPaddedLen(|x| - TAG_SIZE)
  }

  ghost predicate FramesOk(phase: Phase, frames: seq<Sent>) {
    && (forall i :: 0 <= i < |frames| ==> FrameOk(frames[i]))
    && (phase.Ended? && SilentReason(phase.reason) ==> frames == [])
    && (phase.Ended? && phase.reason.VersionIncompatible? && frames != [] ==> frames[|frames| - 1].clear && frames[|frames| - 1].msg == Error(INCOMPATIBLE))
  }

  /** The invariant of a call in progress; `log` is what earlier calls reported. */
  ghost predicate OutOk<Y>(log: seq<LinkEvent>, d: Driver<Y>, out: Out) {
    Valid(d) && LogOk(d, log + out.events) && FramesOk(d.phase, out.frames)
  }

  lemma EstsSnoc(events: seq<LinkEvent>, e: LinkEvent)
    ensures Ests(events + [e]) == Ests(events) + if e.Established? then 1 else 0
  {
    assert (events + [e])[..|events|] == events;
  }

  lemma CloseSilentlyOk<Y>(log: seq<LinkEvent>, d: Driver<Y>, reason: CloseReason, out: Out)
    requires OutOk(log, d, out) && !d.phase.Ended?
    ensures var (d', out') := CloseSilently(d, reason, out);
            OutOk(log, d', out') && d'.phase.Ended? && d'.buf == d.buf
  {
    hide Ests, Reached, OurTurn;
    EstsSnoc(log + out.events, Closed(reason));
    assert log + (out.events + [Closed(reason)]) == (log + out.events) + [Closed(reason)];
  }

  lemma CutIsFrame(x: seq<byte>)
    requires |x| < 0x1_0000
    ensures CutFrame(x) == Frame(x)
  {
  }

  lemma SealedOk(c: Suite, t: Transport, m: Wire)
    requires Aead(c) && Keyed(t)
    ensures var (t', r) := SealFrame(c, t, m);
            Keyed(t') && (r.Ok? ==> FrameOk(r.value) && !r.value.clear)
  {
    hide EncodeMessage, IsPaddedLen, CutFrame, Frame, NextKey;
    if EncodeMessage(m).Ok? && Send(c, t, EncodeMessage(m).value).1.Ok? {
      EncodesExactly(m);
      var body := EncodeMessage(m).value;
      PaddingExact(0, |body|);
      var x := Send(c, t, body).1.value;
      SendLength(c, t, body);
      CutIsFrame(x);
      assert Passes(CutFrame(x), x);
    }
  }

  lemma SendLength(c: Suite, t: Transport, p: seq<byte>)
    requires Aead(c) && Send(c, t, p).1.Ok?
    ensures |Send(c, t, p).1.value| == |p| + if t.send.k.Some? then TAG_SIZE else 0
  {
  }

  lemma CloseWithErrorOk<Y>(log: seq<LinkEvent>, c: Suite, d: Driver<Y>, code: u64, reason: CloseReason, out: Out)
    requires Aead(c) && OutOk(log, d, out) && !d.phase.Ended?
    requires if reason.VersionIncompatible? then code == INCOMPATIBLE && !d.phase.InTransport? else reason.ProtocolViolation? && d.phase.InTransport?
    ensures var (d', out') := CloseWithError(c, d, code, reason, out);
            OutOk(log, d', out') && d'.phase.Ended? && d'.buf == d.buf
  {
    hide Ests, Reached, OurTurn, SealFrame, FrameOk, ClearFrame, Aead;
    EstsSnoc(log + out.events, Closed(reason));
    assert log + (out.events + [Closed(reason)]) == (log + out.events) + [Closed(reason)];
    if d.phase.InTransport? {
      SealedOk(c, d.phase.t, Error(code));
    } else {
      ErrorEncodes(code);
      ClearOk(Error(code));
    }
  }

  lemma ErrorEncodes(code: u64)
    ensures ClearFrame(Error(code)).Some?
  {
    EncodesExactly(Error(code));
  }

  lemma ClearOk(m: Wire)
    requires ClearFrame(m).Some? && (m.Hello? || m.Handshake? || m == Error(INCOMPATIBLE))
    ensures FrameOk(ClearFrame(m).value) && ClearFrame(m).value.clear && ClearFrame(m).value.msg == m
  {
    hide EncodeMessage;
  }

  lemma QueueSealedOk<Y>(log: seq<LinkEvent>, c: Suite, d: Driver<Y>, m: Wire, out: Out)
    requires Aead(c) && OutOk(log, d, out) && d.phase.InTransport?
    ensures var (d', out') := QueueSealed(c, d, m, out);
            OutOk(log, d', out') && d'.buf == d.buf && (d'.phase.InTransport? || d'.phase.Ended?)
  {
    hide Ests, Reached, OurTurn, SealFrame, FrameOk, Aead, Keyed;
    SealedOk(c, d.phase.t, m);
    var t := SealFrame(c, d.phase.t, m).0;
    if SealFrame(c, d.phase.t, m).1.Err? {
      CloseSilentlyOk(log, d.(phase := InTransport(t)), NoncesSpent, out);
    }
  }

  lemma {:induction false} QueueRepliesOk<Y>(log: seq<LinkEvent>, c: Suite, d: Driver<Y>, ms: seq<Wire>, out: Out)
    requires Aead(c) && OutOk(log, d, out) && (d.phase.InTransport? || d.phase.Ended?)
    ensures var (d', out') := QueueReplies(c, d, ms, out);
            OutOk(log, d', out') && d'.buf == d.buf
    decreases |ms|
  {
    hide OutOk, QueueSealed, Aead;
    if ms != [] && !d.phase.Ended? {
      QueueSealedOk(log, c, d, ms[0], out);
      var (d', out') := QueueSealed(c, d, ms[0], out);
      QueueRepliesOk(log, c, d', ms[1..], out');
    }
  }

  lemma QueueHandshakeOk<Y>(log: seq<LinkEvent>, d: Driver<Y>, msg: seq<byte>, out: Out)
    requires |msg| <= 112 && FramesOk(AwaitPeerHello, out.frames)
    ensures var (d', out') := QueueHandshake(d, msg, out);
            d' == d && out'.events == out.events && FramesOk(AwaitPeerHello, out'.frames)
  {
    hide FrameOk, ClearFrame;
    HandshakeEncodes(msg);
    ClearOk(Handshake(msg));
  }

  lemma QueueHelloOk<Y, V>(env: Env<Y, V>, d: Driver<Y>, out: Out)
    requires Usable(env) && FramesOk(AwaitPeerHello, out.frames)
    ensures var (d', out') := QueueHello(env, d, out);
            d' == d.(hello := d'.hello) && out'.events == out.events && FramesOk(AwaitPeerHello, out'.frames)
  {
    hide FrameOk;
    ClearOk(OurHello(env.config));
  }

  /** A fresh handshake, after the initiator's first message if there is one, waits to read. */
  lemma FirstMessage(c: Suite, initiator: bool, s: Key, e: Key, prologue: seq<byte>)
    requires Aead(c)
    ensures var hs := NewXX(c, initiator, s, e, prologue);
            && Reached(hs) && hs.initiator == initiator
            && (initiator ==> Write(c, hs, []).Ok? && var (hs', m) := Write(c, hs, []).value;
                              |m| <= 112 && Reached(hs') && hs'.step == 2 && !OurTurn(hs') && hs'.initiator)
            && (!initiator ==> !OurTurn(hs) && hs.step == 1)
  {
    hide Aead;
  }

  lemma StartHandshakeOk<Y, V>(log: seq<LinkEvent>, env: Env<Y, V>, d: Driver<Y>, body: seq<byte>, out: Out)
    requires Usable(env) && OutOk(log, d, out) && d.phase.AwaitPeerHello?
    ensures var (d', out') := StartHandshake(env, d, body, out);
            OutOk(log, d', out') && d'.buf == d.buf && d'.phase.Handshaking?
  {
    hide Ests, NewXX, Write, QueueHello, QueueHandshake, FrameOk, Reached, OurTurn, Aead, EncodeMessage;
    var (s, e) := d.keys.value;
    var (d1, out1) := if d.initiator then (d, out) else QueueHello(env, d, out);
    QueueHelloOk(env, d, out);
    var prologue := if d.initiator then d1.hello + body else body + d1.hello;
    FirstMessage(env.c, d.initiator, s, e, prologue);
    if d.initiator {
      var m := Write(env.c, NewXX(env.c, true, s, e, prologue), []).value.1;
      QueueHandshakeOk(log, d1.(keys := None), m, out1);
    }
  }

  lemma HandleHelloOk<Y, V>(log: seq<LinkEvent>, env: Env<Y, V>, d: Driver<Y>, body: seq<byte>, out: Out)
    requires Usable(env) && OutOk(log, d, out) && d.phase.AwaitPeerHello?
    ensures var (d', out') := HandleHello(env, d, body, out);
            OutOk(log, d', out') && d'.buf == d.buf
  {
    hide LogOk, FramesOk, DecodeMessage, StartHandshake, CloseSilently, CloseWithError, MaxCommon, Aead, EncodeMessage;
    CloseSilentlyOk(log, d, HandshakeFailed, out);
    CloseSilentlyOk(log, d, VersionIncompatible, out);
    CloseWithErrorOk(log, env.c, d, INCOMPATIBLE, VersionIncompatible, out);
    if DecodeMessage(env.parse, body).Ok? && DecodeMessage(env.parse, body).value.Hello? {
      var v := MaxCommon(DecodeMessage(env.parse, body).value.versions, env.config.versions);
      if v.Some? {
        SameLog(log, d, d.(version := v), out);
        StartHandshakeOk(log, env, d.(version := v), body, out);
      }
    }
  }

  lemma SameLog<Y>(log: seq<LinkEvent>, d: Driver<Y>, d': Driver<Y>, out: Out)
    requires OutOk(log, d, out) && d'.phase == d.phase && d'.keys == d.keys && d'.initiator == d.initiator
    ensures OutOk(log, d', out)
  {
    hide Ests, FrameOk, Reached;
  }

  lemma FinishOk<Y, V>(log: seq<LinkEvent>, env: Env<Y, V>, d: Driver<Y>, hs: Shake, out: Out)
    requires OutOk(log, d, out) && d.phase.Handshaking? && hs.step == 4 && hs.rs.Some?
    ensures var (d', out') := Finish(env, d, hs, out);
            OutOk(log, d', out') && d'.buf == d.buf
  {
    hide Ests, FrameOk, Reached, Hkdf2;
    var remote := env.c.sha(hs.rs.value);
    EstsSnoc(log + out.events, Established(remote));
    assert log + (out.events + [Established(remote)]) == (log + out.events) + [Established(remote)];
  }

  lemma ProceedOk<Y, V>(log: seq<LinkEvent>, env: Env<Y, V>, d: Driver<Y>, hs: Shake, out: Out)
    requires Usable(env) && OutOk(log, d, out) && d.phase.Handshaking?
    requires Reached(hs) && hs.step == d.phase.hs.step + 1 && hs.initiator == d.initiator
    ensures var (d', out') := Proceed(env, d, hs, out);
            OutOk(log, d', out') && d'.buf == d.buf
  {
    hide Ests, FrameOk, Write, Finish, QueueHandshake, Aead, LogOk;
    if hs.step > 3 {
      FinishOk(log, env, d, hs, out);
    } else {
      CloseSilentlyOk(log, d, HandshakeFailed, out);
      if Write(env.c, hs, []).Ok? {
        WriteSize(env.c, hs);
        WriteReaches(env.c, hs, []);
        var (hs', msg) := Write(env.c, hs, []).value;
        WriteKeepsRole(env.c, hs);
        QueueHandshakeOk(log, d, msg, out);
        var (d', out') := QueueHandshake(d, msg, out);
        if hs'.step > 3 {
          FinishOk(log, env, d', hs', out');
        } else {
          PhaseOk(log, d', hs', out');
        }
      }
    }
  }

  lemma PhaseOk<Y>(log: seq<LinkEvent>, d: Driver<Y>, hs: Shake, out: Out)
    requires OutOk(log, d, out) && d.phase.Handshaking? && Reached(hs) && hs.step <= 3 && !OurTurn(hs) && hs.initiator == d.initiator
    ensures OutOk(log, d.(phase := Handshaking(hs)), out)
  {
    hide Ests, FrameOk, Reached;
  }

  lemma WriteKeepsRole(c: Suite, x: Shake)
    requires Write(c, x, []).Ok?
    ensures Write(c, x, []).value.0.initiator == x.initiator
  {
  }

  lemma ReadKeepsRole(c: Suite, x: Shake, m: seq<byte>)
    requires Aead(c) && Reached(x) && Read(c, x, m).Ok?
    ensures Read(c, x, m).value.0.initiator == x.initiator
  {
    hide Aead;
  }

  lemma HandleHandshakeOk<Y, V>(log: seq<LinkEvent>, env: Env<Y, V>, d: Driver<Y>, body: seq<byte>, out: Out)
    requires Usable(env) && OutOk(log, d, out) && d.phase.Handshaking?
    ensures var (d', out') := HandleHandshake(env, d, body, out);
            OutOk(log, d', out') && d'.buf == d.buf
  {
    hide LogOk, FramesOk, DecodeMessage, Proceed, CloseSilently, Read, Aead, EncodeMessage;
    CloseSilentlyOk(log, d, HandshakeFailed, out);
    CloseSilentlyOk(log, d, VersionIncompatible, out);
    if DecodeMessage(env.parse, body).Ok? && DecodeMessage(env.parse, body).value.Handshake? {
      var r := Read(env.c, d.phase.hs, DecodeMessage(env.parse, body).value.msg);
      if r.Ok? {
        ReadKeepsRole(env.c, d.phase.hs, DecodeMessage(env.parse, body).value.msg);
        ProceedOk(log, env, d, r.value.0, out);
      }
    }
  }

  lemma {:induction false} EstsLift(log: seq<LinkEvent>, events: seq<S.Event>)
    ensures Ests(log + Lift(events)) == Ests(log)
    ensures NoClosed(log) ==> NoClosed(log + Lift(events))
  {
    if events == [] {
      assert log + Lift(events) == log;
    } else {
      var n := |events| - 1;
      EstsLift(log, events[..n]);
      assert log + Lift(events) == (log + Lift(events[..n])) + [Synced(events[n])];
      EstsSnoc(log + Lift(events[..n]), Synced(events[n]));
    }
  }

  lemma DispatchOk<Y, V>(log: seq<LinkEvent>, env: Env<Y, V>, d: Driver<Y>, store: V, m: Wire, out: Out)
    requires Usable(env) && OutOk(log, d, out) && d.phase.InTransport?
    ensures var t := Dispatch(env, d, store, m, out);
            OutOk(log, t.d, t.out) && t.d.buf == d.buf
  {
    hide Ests, FrameOk, QueueReplies, CloseWithError, Lift, Aead, EncodeMessage, Keyed;
    var r := env.sync.handle(d.syncer, store, m);
    var d1, out1 := d.(syncer := r.syncer), out.(events := out.events + Lift(r.events));
    EstsLift(log + out.events, r.events);
    assert log + (out.events + Lift(r.events)) == (log + out.events) + Lift(r.events);
    assert OutOk(log, d1, out1);
    match r.error
    case Some(e) => CloseWithErrorOk(log, env.c, d1, ErrorCode(e), ProtocolViolation(ErrorCode(e)), out1);
    case None => QueueRepliesOk(log, env.c, d1, r.replies, out1);
  }

  lemma ReceiveKeyed(c: Suite, t: Transport, x: seq<byte>)
    requires Aead(c) && Keyed(t)
    ensures Receive(c, t, x).1.Ok? ==> Keyed(Receive(c, t, x).0)
  {
    hide NextKey;
  }

  lemma HandleTransportOk<Y, V>(log: seq<LinkEvent>, env: Env<Y, V>, d: Driver<Y>, store: V, body: seq<byte>, out: Out)
    requires Usable(env) && OutOk(log, d, out) && d.phase.InTransport?
    ensures var t := HandleTransport(env, d, store, body, out);
            OutOk(log, t.d, t.out) && t.d.buf == d.buf
  {
    hide Ests, FramesOk, DecodeMessage, CloseSilently, CloseWithError, Receive, Dispatch, Aead, EncodeMessage, IsPaddedLen, Keyed;
    CloseSilentlyOk(log, d, BadCiphertextLength, out);
    CloseSilentlyOk(log, d, NoncesSpent, out);
    CloseSilentlyOk(log, d, Undecryptable, out);
    var r := Receive(env.c, d.phase.t, body);
    if r.1.Ok? {
      ReceiveKeyed(env.c, d.phase.t, body);
      var d1 := d.(phase := InTransport(r.0));
      assert OutOk(log, d1, out) by { hide FramesOk; InTransportOk(log, d, r.0, out); }
      CloseWithErrorOk(log, env.c, d1, VIOLATION, ProtocolViolation(VIOLATION), out);
      CloseWithErrorOk(log, env.c, d1, BAD_STATE, ProtocolViolation(BAD_STATE), out);
      var m := DecodeMessage(env.parse, r.1.value);
      if m.Ok? {
        if m.value.Error? {
          CloseSilentlyOk(log, d1, PeerError(m.value.code), out);
        } else {
          DispatchOk(log, env, d1, store, m.value, out);
        }
      }
    }
  }

  lemma InTransportOk<Y>(log: seq<LinkEvent>, d: Driver<Y>, t: Transport, out: Out)
    requires OutOk(log, d, out) && d.phase.InTransport? && Keyed(t)
    ensures OutOk(log, d.(phase := InTransport(t)), out)
  {
    hide Ests, FrameOk;
  }

  /** Every body, in every phase, keeps the invariant and leaves the unread bytes alone. */
  lemma HandleBodyOk<Y, V>(log: seq<LinkEvent>, env: Env<Y, V>, d: Driver<Y>, store: V, body: seq<byte>, out: Out)
    requires Usable(env) && OutOk(log, d, out)
    ensures var t := HandleBody(env, d, store, body, out);
            OutOk(log, t.d, t.out) && t.d.buf == d.buf
  {
    hide LogOk, FramesOk, HandleHello, HandleHandshake, HandleTransport, Aead, EncodeMessage;
    match d.phase
    case AwaitPeerHello => HandleHelloOk(log, env, d, body, out);
    case Handshaking(_) => HandleHandshakeOk(log, env, d, body, out);
    case InTransport(_) => HandleTransportOk(log, env, d, store, body, out);
    case Ended(_) =>
  }
}
