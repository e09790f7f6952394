/**
  Convergence over established links (core/src/link/driver.rs over
  core/src/sync/session.rs): two drivers whose sync layer is the session manager
  exchange sealed frames, and do exactly what the two session managers do.
 */
module SecureLinks {
  import opened Base
  import opened Entries
  import opened Vaults
  import opened Wires
  import opened Ciphers
  import opened Drivers
  import opened DriverRuns
  import opened Establishment
  import opened PushFrames
  import opened Shipping
  import L = Links
  import G = Ledgers
  import C = Convergence
  import R = LinkRuns
  import S = Syncers

  type Bytes = seq<byte>

  /** The session manager as the sync layer of a link. */
  ghost function Layer(c: Crypto): Sync<S.SyncState, Vault> {
    Sync((s: S.SyncState, v: Vault, m: Wire) => React(c, s, v, m),
         (s: S.SyncState, v: Vault, since: u64, until: u64) => Opening(c, s, v, since, until))
  }

  ghost function React(c: Crypto, s: S.SyncState, v: Vault, m: Wire): Reaction<S.SyncState, Vault> {
    if !S.Operable(s, v) then Reaction(s, v, [], [], Some(ResourceLimit))
    else
      var h := S.Handle(c, s, v, FromWire(m));
      Reaction(h.state, h.vault, ToWires(h.output.replies), h.output.events, h.error)
  }

  ghost function Opening(c: Crypto, s: S.SyncState, v: Vault, since: u64, until: u64): Result<(S.SyncState, u64, Wire), SyncError> {
    if !S.Operable(s, v) || s.nextSid >= U64_LIMIT then Err(ResourceLimit)
    else
      match S.Open(c, s, v, since, until)
      case Err(e) => Err(e)
      case Ok((s', m)) => Ok((s', s.nextSid, ToWire(m)))
  }

  /* ----- one driver ----- */

  /** Message `n` of a direction that started with `k`, as it travels. */
  function SealedFrame(c: Suite, k: Key, n: u64, m: Message): Bytes
    requires Aead(c) && Carriable(m)
  {
    CutFrame(c.seal(MessageKey(c, k, n), n, [], EncodeMessage(ToWire(m)).value))
  }

  lemma SealOne(c: Suite, t: Transport, ks: Key, kr: Key, m: Message)
    requires Aead(c) && !t.failed && OnSchedule(c, t, ks, kr) && t.send.n < U64_MAX && Carriable(m)
    ensures var (t', r) := SealFrame(c, t, ToWire(m));
            && r == Ok(Sent(false, ToWire(m), SealedFrame(c, ks, t.send.n, m)))
            && !t'.failed && OnSchedule(c, t', ks, kr) && t'.send.n == t.send.n + 1 && t'.recv == t.recv
  {
    hide Aead, KeyAt, EncodeMessage, CutFrame, Send;
    SendOnSchedule(c, t, ks, kr, EncodeMessage(ToWire(m)).value);
  }

  /** These frames carry these messages, in order, from number `n` on. */
  ghost predicate Carry(c: Suite, k: Key, n: nat, frames: seq<Bytes>, ms: seq<Message>)
    requires Aead(c)
  {
    && |frames| == |ms| && n + |ms| <= U64_MAX && AllCarriable(ms)
    && forall i :: 0 <= i < |ms| ==> frames[i] == SealedFrame(c, k, n + i, ms[i])
  }

  lemma CarryConcat(c: Suite, k: Key, n: nat, f: seq<Bytes>, ms: seq<Message>, g: seq<Bytes>, ns: seq<Message>)
    requires Aead(c) && Carry(c, k, n, f, ms) && Carry(c, k, n + |ms|, g, ns)
    ensures Carry(c, k, n, f + g, ms + ns)
  {
    hide Aead, SealedFrame, Carriable;
    forall i | 0 <= i < |ms + ns| ensures Carriable((ms + ns)[i]) && (f + g)[i] == SealedFrame(c, k, n + i, (ms + ns)[i]) {
      if i >= |ms| {
        assert (ms + ns)[i] == ns[i - |ms|] && (f + g)[i] == g[i - |ms|] && n + |ms| + (i - |ms|) == n + i;
      }
    }
  }

  lemma CarryTail(c: Suite, k: Key, n: nat, frames: seq<Bytes>, ms: seq<Message>)
    requires Aead(c) && Carry(c, k, n, frames, ms) && ms != []
    ensures frames[0] == SealedFrame(c, k, n, ms[0]) && Carry(c, k, n + 1, frames[1..], ms[1..])
  {
    hide Aead, SealedFrame, Carriable;
    assert n + 0 == n;
    forall i | 0 <= i < |ms[1..]| ensures frames[1..][i] == SealedFrame(c, k, n + 1 + i, ms[1..][i]) {
      assert frames[i + 1] == SealedFrame(c, k, n + (i + 1), ms[i + 1]) && n + (i + 1) == n + 1 + i;
    }
  }

  /** The octets of the frames a call put out. */
  function Octets(frames: seq<Sent>): (bs: seq<Bytes>)
    ensures |bs| == |frames| && forall i :: 0 <= i < |bs| ==> bs[i] == frames[i].bytes
  {
    seq(|frames|, i requires 0 <= i < |frames| => frames[i].bytes)
  }

  lemma OctetsConcat(f: seq<Sent>, g: seq<Sent>)
    ensures Octets(f + g) == Octets(f) + Octets(g)
  {
  }

  /** A driver in its transport epoch, on schedule, with room for `room` more messages. */
  ghost predicate Ready(c: Suite, d: Driver<S.SyncState>, ks: Key, kr: Key, room: nat)
    requires Aead(c)
  {
    && d.phase.InTransport? && !d.phase.t.failed && OnSchedule(c, d.phase.t, ks, kr) && d.buf == [] && d.keys.None?
    && d.phase.t.send.n + room <= U64_MAX
  }

  lemma ReadyValid(c: Suite, d: Driver<S.SyncState>, ks: Key, kr: Key, room: nat)
    requires Aead(c) && Ready(c, d, ks, kr, room)
    ensures Drivers.Valid(d)
  {
    hide Aead, KeyAt;
  }

  /** One reply leaves as one sealed frame. */
  lemma ReplyLeaves(c: Suite, d: Driver<S.SyncState>, ks: Key, kr: Key, m: Message, room: nat, out: Out)
    requires Aead(c) && Ready(c, d, ks, kr, room + 1) && Carriable(m)
    ensures var (d', out') := QueueSealed(c, d, ToWire(m), out);
            && Ready(c, d', ks, kr, room) && d' == d.(phase := d'.phase) && d'.phase.t.recv == d.phase.t.recv
            && d'.phase.t.send.n == d.phase.t.send.n + 1
            && out' == out.(frames := out.frames + [Sent(false, ToWire(m), SealedFrame(c, ks, d.phase.t.send.n, m))])
  {
    hide Aead, KeyAt, EncodeMessage, SealedFrame, Carriable, SealFrame, OnSchedule;
    SealOne(c, d.phase.t, ks, kr, m);
  }

  /** One frame and then the rest carry one message and then the rest. */
  lemma CarryCons(c: Suite, k: Key, n: nat, f: Sent, m: Message, frames: seq<Sent>, ms: seq<Message>)
    requires Aead(c) && Carriable(m) && n < U64_MAX && f.bytes == SealedFrame(c, k, n, m) && Carry(c, k, n + 1, Octets(frames), ms)
    ensures Carry(c, k, n, Octets([f] + frames), [m] + ms)
  {
    hide Aead, SealedFrame, Carriable;
    OctetsConcat([f], frames);
    assert Carry(c, k, n, Octets([f]), [m]);
    CarryConcat(c, k, n, Octets([f]), [m], Octets(frames), ms);
  }

  /** Replies leave as sealed frames, one each, in order. */
  lemma {:induction false} RepliesLeave(c: Suite, d: Driver<S.SyncState>, ks: Key, kr: Key, ms: seq<Message>, out: Out)
    requires Aead(c) && Ready(c, d, ks, kr, |ms|) && AllCarriable(ms)
    ensures var (d', out') := QueueReplies(c, d, ToWires(ms), out);
            && Ready(c, d', ks, kr, 0) && d' == d.(phase := d'.phase) && d'.phase.t.recv == d.phase.t.recv
            && d'.phase.t.send.n == d.phase.t.send.n + |ms|
            && out.frames <= out'.frames && out'.events == out.events
            && Carry(c, ks, d.phase.t.send.n, Octets(out'.frames[|out.frames|..]), ms)
    decreases |ms|
  {
    hide Aead, SealedFrame, Carriable, QueueSealed, OnSchedule, Carry, Octets;
    if ms == [] {
      NothingCarried(c, ks, d.phase.t.send.n);
    } else {
      var n, m, rest := d.phase.t.send.n, ms[0], ms[1..];
      assert ToWires(ms)[0] == ToWire(m) && ToWires(ms)[1..] == ToWires(rest);
      ReplyLeaves(c, d, ks, kr, m, |rest|, out);
      var (d1, out1) := QueueSealed(c, d, ToWire(m), out);
      RepliesLeave(c, d1, ks, kr, rest, out1);
      var (d', out') := QueueReplies(c, d1, ToWires(rest), out1);
      var first := Sent(false, ToWire(m), SealedFrame(c, ks, n, m));
      assert out'.frames[|out.frames|..] == [first] + out'.frames[|out1.frames|..];
      CarryCons(c, ks, n, first, m, out'.frames[|out1.frames|..], rest);
      assert [m] + rest == ms;
    }
  }

  lemma NothingCarried(c: Suite, k: Key, n: u64)
    requires Aead(c)
    ensures Carry(c, k, n, Octets([]), [])
  {
  }

  /** A sealed frame that arrives in its turn is opened, decoded and handed to the sync layer. */
  lemma FrameArrives(env: Env<S.SyncState, Vault>, d: Driver<S.SyncState>, v: Vault, ks: Key, kr: Key, m: Message, now: u64)
    requires Usable(env) && Reads(env.parse) && Ready(env.c, d, ks, kr, 0) && d.phase.t.recv.n < U64_MAX && Carriable(m)
    requires Since(d.openedAt, now) < env.config.maxLifetime
    ensures Drivers.Valid(d)
    ensures var t := Receive(env.c, d.phase.t, env.c.seal(MessageKey(env.c, kr, d.phase.t.recv.n), d.phase.t.recv.n, [], EncodeMessage(ToWire(m)).value)).0;
            && !t.failed && OnSchedule(env.c, t, ks, kr) && t.recv.n == d.phase.t.recv.n + 1 && t.send == d.phase.t.send
            && OnBytes(env, d, v, SealedFrame(env.c, kr, d.phase.t.recv.n, m), now) == Dispatch(env, d.(phase := InTransport(t)), v, ToWire(m), NOTHING)
  {
    hide Aead, KeyAt, EncodeMessage, DecodeMessage, Reads, OnBytes, Dispatch, CutFrame, Frame, IsPaddedLen, Receive;
    ReadyValid(env.c, d, ks, kr, 0);
    var n, plain := d.phase.t.recv.n, EncodeMessage(ToWire(m)).value;
    var x := env.c.seal(MessageKey(env.c, kr, n), n, [], plain);
    SealedPassesGate(env.c, ToWire(m), MessageKey(env.c, kr, n), n);
    CutIsFrame(x);
    OneFrame(env, d, v, x, now);
    ReceiveSealed(env.c, d.phase.t, ks, kr, plain);
    ReceiveOnSchedule(env.c, d.phase.t, ks, kr, x);
    MessageRoundTrip(env.parse, ToWire(m));
    WireForm(m);
  }

  /* ----- two drivers ----- */

  /** Two drivers, their stores, and the frames under way each way. */
  datatype Pair = Pair(x: Driver<S.SyncState>, y: Driver<S.SyncState>, vx: Vault, vy: Vault, xy: seq<Bytes>, yx: seq<Bytes>)

  /** What the two sides run in. */
  datatype Ends = Ends(x: Env<S.SyncState, Vault>, y: Env<S.SyncState, Vault>)

  function Turned(p: Pair): Pair {
    Pair(p.y, p.x, p.vy, p.vx, p.yx, p.xy)
  }

  function TurnedEnds(n: Ends): Ends {
    Ends(n.y, n.x)
  }

  /** Both sides are usable, share the primitives, and hand messages to the session manager. */
  ghost predicate Joined(crypto: Crypto, n: Ends) {
    && Usable(n.x) && Usable(n.y) && n.x.c == n.y.c && Reads(n.x.parse) && Reads(n.y.parse)
    && n.x.sync == Layer(crypto) && n.y.sync == Layer(crypto)
  }

  /** The oldest frame under way to `y` arrives whole; none if the link closes. */
  ghost function Arrive(n: Ends, p: Pair, now: u64): Option<Pair>
    requires Usable(n.y)
  {
    if p.xy == [] || !Drivers.Valid(p.y) then None
    else
      var t := OnBytes(n.y, p.y, p.vy, p.xy[0], now);
      if t.d.phase.InTransport? then Some(Pair(p.x, t.d, p.vx, t.store, p.xy[1..], p.yx + Octets(t.out.frames))) else None
  }

  /** `x` opens a session. */
  ghost function Begin(n: Ends, p: Pair, since: u64, until: u64): Option<Pair>
    requires Usable(n.x)
  {
    if !p.x.phase.InTransport? then None
    else
      match OpenSync(n.x, p.x, p.vx, since, until)
      case Err(_) => None
      case Ok((_, d, out)) => if d.phase.InTransport? then Some(Pair(d, p.y, p.vx, p.vy, p.xy + Octets(out.frames), p.yx)) else None
  }

  ghost function Step(n: Ends, p: Pair, mv: R.Move, now: u64): Option<Pair>
    requires Usable(n.x) && Usable(n.y)
  {
    match mv
    case DeliverXY => Arrive(n, p, now)
    case DeliverYX => (match Arrive(TurnedEnds(n), Turned(p), now) case None => None case Some(q) => Some(Turned(q)))
    case OpenX(since, until) => Begin(n, p, since, until)
    case OpenY(since, until) => (match Begin(TurnedEnds(n), Turned(p), since, until) case None => None case Some(q) => Some(Turned(q)))
  }

  /** The pair after a sequence of moves, the `i`-th one at time `clock(i)`. */
  ghost function Run(n: Ends, p: Pair, moves: seq<R.Move>, clock: nat -> u64): Option<Pair>
    requires Usable(n.x) && Usable(n.y)
  {
    if moves == [] then Some(p)
    else
      match Run(n, p, moves[..|moves| - 1], clock)
      case None => None
      case Some(q) => Step(n, q, moves[|moves| - 1], clock(|moves| - 1))
  }

  /**
    The pair does what the link does: same session managers, same stores, and the
    frames under way carry exactly the messages under way.
   */
  ghost predicate Mirrors(c: Suite, p: Pair, k: L.Link, k1: Key, k2: Key)
    requires Aead(c)
  {
    && Ready(c, p.x, k1, k2, 0) && Ready(c, p.y, k2, k1, 0)
    && p.x.syncer == k.x.sync && p.y.syncer == k.y.sync && p.vx == k.x.vault && p.vy == k.y.vault
    && p.x.phase.t.send.n == p.y.phase.t.recv.n + |k.xy| && Carry(c, k1, p.y.phase.t.recv.n, p.xy, k.xy)
    && p.y.phase.t.send.n == p.x.phase.t.recv.n + |k.yx| && Carry(c, k2, p.x.phase.t.recv.n, p.yx, k.yx)
  }

  lemma MirrorsTurned(c: Suite, p: Pair, k: L.Link, k1: Key, k2: Key)
    requires Aead(c) && Mirrors(c, p, k, k1, k2)
    ensures Mirrors(c, Turned(p), L.Flip(k), k2, k1)
  {
    hide Aead, Ready, Carry;
  }

  /** Within both lifetimes at this time. */
  predicate Alive(n: Ends, p: Pair, now: u64) {
    Since(p.x.openedAt, now) < n.x.config.maxLifetime && Since(p.y.openedAt, now) < n.y.config.maxLifetime
  }

  /** Messages received so far, on both sides. */
  function Received(p: Pair): nat
    requires p.x.phase.InTransport? && p.y.phase.InTransport?
  {
    p.x.phase.t.recv.n + p.y.phase.t.recv.n
  }

  /** A delivery the session manager accepts is one the pair makes. */
  lemma ArriveMirrors(crypto: Crypto, n: Ends, p: Pair, k: L.Link, k1: Key, k2: Key, now: u64)
    requires Joined(crypto, n) && Mirrors(n.x.c, p, k, k1, k2) && Alive(n, p, now)
    requires k.xy != [] && S.Operable(k.y.sync, k.y.vault) && C.Refusal(crypto, k).None?
    requires var h := S.Handle(crypto, k.y.sync, k.y.vault, k.xy[0]);
             AllCarriable(h.output.replies) && p.y.phase.t.send.n + |h.output.replies| <= U64_MAX
    ensures var q := Arrive(n, p, now);
            && q.Some? && Mirrors(n.x.c, q.value, C.DeliverTo(crypto, k), k1, k2)
            && Received(q.value) == Received(p) + 1 && q.value.x.openedAt == p.x.openedAt && q.value.y.openedAt == p.y.openedAt
  {
    hide Aead, KeyAt, SealedFrame, OnBytes, S.Handle, S.Operable, OnSchedule, Receive, QueueReplies, MessageKey, EncodeMessage, Reads;
    var c, m := n.x.c, k.xy[0];
    CarryTail(c, k1, p.y.phase.t.recv.n, p.xy, k.xy);
    FrameArrives(n.y, p.y, p.vy, k2, k1, m, now);
    var h := S.Handle(crypto, k.y.sync, k.y.vault, m);
    var t := Receive(c, p.y.phase.t, c.seal(MessageKey(c, k1, p.y.phase.t.recv.n), p.y.phase.t.recv.n, [], EncodeMessage(ToWire(m)).value)).0;
    var d := p.y.(phase := InTransport(t));
    LayerReacts(crypto, k.y.sync, k.y.vault, m);
    var d1, out1 := d.(syncer := h.state), NOTHING.(events := NOTHING.events + Lift(h.output.events));
    RepliesLeave(c, d1, k2, k1, h.output.replies, out1);
    var (d2, out2) := QueueReplies(c, d1, ToWires(h.output.replies), out1);
    assert out2.frames[|out1.frames|..] == out2.frames;
    CarryConcat(c, k2, p.x.phase.t.recv.n, p.yx, k.yx, Octets(out2.frames), h.output.replies);
  }

  lemma LayerReacts(crypto: Crypto, s: S.SyncState, v: Vault, m: Message)
    requires S.Operable(s, v) && Wirable(m)
    ensures var h := S.Handle(crypto, s, v, m);
            Layer(crypto).handle(s, v, ToWire(m)) == Reaction(h.state, h.vault, ToWires(h.output.replies), h.output.events, h.error)
  {
    hide S.Handle, S.Operable;
    WireForm(m);
  }

  /** An opening the session manager makes is one the pair makes. */
  lemma BeginMirrors(crypto: Crypto, n: Ends, p: Pair, k: L.Link, k1: Key, k2: Key, since: u64, until: u64)
    requires Joined(crypto, n) && Mirrors(n.x.c, p, k, k1, k2)
    requires S.Operable(k.x.sync, k.x.vault) && k.x.sync.nextSid < U64_LIMIT && C.OpenFrom(crypto, k, since, until).Ok?
    requires p.x.phase.t.send.n < U64_MAX && Carriable(S.Open(crypto, k.x.sync, k.x.vault, since, until).value.1)
    ensures var q := Begin(n, p, since, until);
            && q.Some? && Mirrors(n.x.c, q.value, C.OpenFrom(crypto, k, since, until).value, k1, k2)
            && Received(q.value) == Received(p) && q.value.x.openedAt == p.x.openedAt && q.value.y.openedAt == p.y.openedAt
  {
    hide Aead, KeyAt, Carriable, SealedFrame, S.Open, S.Operable, OnSchedule, SealFrame, MessageKey, EncodeMessage, Reads;
    var c := n.x.c;
    var (s', m) := S.Open(crypto, k.x.sync, k.x.vault, since, until).value;
    var d := p.x.(syncer := s');
    SealOne(c, d.phase.t, k1, k2, m);
    var frame := Sent(false, ToWire(m), SealedFrame(c, k1, d.phase.t.send.n, m));
    assert [] + [frame] == [frame];
    assert Carry(c, k1, p.x.phase.t.send.n, Octets([frame]), [m]);
    CarryConcat(c, k1, p.y.phase.t.recv.n, p.xy, k.xy, Octets([frame]), [m]);
  }

  /* ----- runs ----- */

  /** Everything either side holds or says can be carried. */
  ghost predicate Shippable(c: Crypto, k: L.Link) {
    && Modest(k.x.sync) && Modest(k.y.sync) && Sound(c, k.x.vault) && Sound(c, k.y.vault) && AllFit(k.x.vault) && AllFit(k.y.vault)
    && AllCarriable(k.xy) && AllCarriable(k.yx)
  }

  lemma ShippableFlips(c: Crypto, k: L.Link)
    requires Shippable(c, k)
    ensures Shippable(c, L.Flip(k))
  {
    hide Modest, Sound, AllFit, AllCarriable;
  }

  lemma DeliveryShips(c: Crypto, k: L.Link)
    requires Shippable(c, k) && k.xy != [] && S.Operable(k.y.sync, k.y.vault) && C.Refusal(c, k).None?
    ensures Shippable(c, C.DeliverTo(c, k)) && AllCarriable(S.Handle(c, k.y.sync, k.y.vault, k.xy[0]).output.replies)
  {
    hide Modest, Sound, AllFit, Carriable, S.Handle, S.Operable;
    HandleShips(c, k.y.sync, k.y.vault, k.xy[0]);
  }

  lemma OpeningShips(c: Crypto, k: L.Link, since: u64, until: u64)
    requires Shippable(c, k) && S.Operable(k.x.sync, k.x.vault) && k.x.sync.nextSid < U64_LIMIT && C.OpenFrom(c, k, since, until).Ok?
    ensures Shippable(c, C.OpenFrom(c, k, since, until).value) && Carriable(S.Open(c, k.x.sync, k.x.vault, since, until).value.1)
  {
    hide Modest, Sound, AllFit, Carriable, S.Open, S.Operable;
    OpenShips(c, k.x.sync, k.x.vault, since, until);
  }

  /** No more tokens are under way than sessions were opened. */
  lemma TokensFew(l: G.Ledger, par: nat, toks: seq<Message>)
    requires G.Carries(l, par, toks)
    ensures |toks| <= G.Opens(l)
  {
    hide G.TokenOf, G.Look, G.Known, G.Sids;
    G.SidsCount(l);
    var sids := seq(|toks|, i requires 0 <= i < |toks| => G.SidOf(toks[i]));
    forall i | 0 <= i < |sids| ensures sids[i] in G.Sids(l) {
      assert G.OnDuty(l, par, toks[i]);
    }
    L.NoDupSize(sids, G.Sids(l));
  }

  /** Little is ever under way. */
  lemma ChannelsShort(w: L.World, k: L.Link, l: G.Ledger)
    requires L.Inv(w, 0, k, l)
    ensures |k.xy| <= C.Phi(w, k, l) + G.Opens(l) && |k.yx| <= C.Phi(w, k, l) + G.Opens(l)
  {
    hide L.TracksOk, Sound, L.Inside, G.Tabled, C.Total, G.Carries, L.PushesHeld, G.Tokens, G.Opens;
    R.SidePotential(w, 0, k.x, k.y, k.xy, l);
    R.SidePotential(w, 1, k.y, k.x, k.yx, l);
    R.TokensShort(k.xy);
    R.TokensShort(k.yx);
    TokensFew(l, 0, G.Tokens(k.xy));
    TokensFew(l, 1, G.Tokens(k.yx));
  }

  lemma SidsSmall(w: L.World, k: L.Link, l: G.Ledger)
    requires L.Inv(w, 0, k, l) && w.maxOpens < 0x4000_0000_0000_0000
    ensures k.x.sync.nextSid < U64_LIMIT && k.y.sync.nextSid < U64_LIMIT
  {
    hide L.TracksOk, L.ChannelOk, Sound, L.Inside, G.Listed, G.OpenAt, G.SessionAt;
  }

  /** The whole run fits the nonces. */
  ghost predicate Roomy(w: L.World, begun: nat) {
    begun * (R.Allowance(w) + 1) <= U64_MAX && w.maxOpens < 0x4000_0000_0000_0000
  }

  lemma RoomLeft(w: L.World, k: L.Link, l: G.Ledger, begun: nat, length: nat)
    requires R.Recorded(w, k, l, begun, length) && Roomy(w, begun)
    ensures length + |k.xy| <= U64_MAX && length + |k.yx| <= U64_MAX
  {
    hide L.Inv, C.Phi, R.Allowance, G.Opens;
    ChannelsShort(w, k, l);
    assert begun * (R.Allowance(w) + 1) == begun * R.Allowance(w) + begun;
  }

  /** Where a run stands. */
  ghost predicate InStep(crypto: Crypto, c: Suite, p: Pair, q: Pair, k: L.Link, k1: Key, k2: Key, length: nat)
    requires Aead(c)
  {
    && Mirrors(c, q, k, k1, k2) && Shippable(crypto, k) && Received(q) <= length
    && q.x.openedAt == p.x.openedAt && q.y.openedAt == p.y.openedAt
  }

  lemma StepMirrors(w: L.World, n: Ends, p: Pair, q: Pair, k: L.Link, l: G.Ledger, k': L.Link, l': G.Ledger, k1: Key, k2: Key,
                    mv: R.Move, now: u64, length: nat, begun: nat)
    requires Joined(w.c, n) && InStep(w.c, n.x.c, p, q, k, k1, k2, length) && Alive(n, p, now)
    requires L.Inv(w, 0, k, l) && R.Enabled(k, mv) && R.Next(w.c, k, mv) == Some(k')
    requires R.Recorded(w, k', l', begun, length + 1) && Roomy(w, begun)
    ensures Step(n, q, mv, now).Some? && InStep(w.c, n.x.c, p, Step(n, q, mv, now).value, k', k1, k2, length + 1)
  {
    hide Aead, Reads, Usable, L.Inv, R.Recorded, R.Allowance, C.DeliverTo, C.Refusal, C.OpenFrom, S.Operable, S.Handle, S.Open, Arrive, Begin, Carriable, Modest, Ready, Carry;
    RoomLeft(w, k', l', begun, length + 1);
    SidsSmall(w, k, l);
    match mv
    case DeliverXY =>
      OneArrives(w.c, n, p, q, k, k1, k2, now, length);
    case DeliverYX =>
      InStepTurned(w.c, n, p, q, k, k1, k2, length);
      OneArrives(w.c, TurnedEnds(n), Turned(p), Turned(q), L.Flip(k), k2, k1, now, length);
      InStepTurned(w.c, TurnedEnds(n), Turned(p), Arrive(TurnedEnds(n), Turned(q), now).value, C.DeliverTo(w.c, L.Flip(k)), k2, k1, length + 1);
    case OpenX(since, until) =>
      OneBegins(w.c, n, p, q, k, k1, k2, since, until, length);
    case OpenY(since, until) =>
      InStepTurned(w.c, n, p, q, k, k1, k2, length);
      OneBegins(w.c, TurnedEnds(n), Turned(p), Turned(q), L.Flip(k), k2, k1, since, until, length);
      InStepTurned(w.c, TurnedEnds(n), Turned(p), Begin(TurnedEnds(n), Turned(q), since, until).value,
                   C.OpenFrom(w.c, L.Flip(k), since, until).value, k2, k1, length + 1);
  }

  lemma InStepTurned(crypto: Crypto, n: Ends, p: Pair, q: Pair, k: L.Link, k1: Key, k2: Key, length: nat)
    requires Joined(crypto, n) && InStep(crypto, n.x.c, p, q, k, k1, k2, length)
    ensures Joined(crypto, TurnedEnds(n)) && InStep(crypto, n.x.c, Turned(p), Turned(q), L.Flip(k), k2, k1, length)
  {
    hide Aead, Reads, EncodeMessage, Shippable, Ready, Carry;
    MirrorsTurned(n.x.c, q, k, k1, k2);
    ShippableFlips(crypto, k);
  }

  lemma OneArrives(crypto: Crypto, n: Ends, p: Pair, q: Pair, k: L.Link, k1: Key, k2: Key, now: u64, length: nat)
    requires Joined(crypto, n) && InStep(crypto, n.x.c, p, q, k, k1, k2, length) && Alive(n, p, now)
    requires k.xy != [] && S.Operable(k.y.sync, k.y.vault) && C.Refusal(crypto, k).None?
    requires length + 1 + |C.DeliverTo(crypto, k).yx| <= U64_MAX
    ensures Arrive(n, q, now).Some? && InStep(crypto, n.x.c, p, Arrive(n, q, now).value, C.DeliverTo(crypto, k), k1, k2, length + 1)
  {
    hide Aead, Reads, Usable, C.Refusal, S.Operable, S.Handle, Arrive, Shippable, AllCarriable, Carry, OnSchedule;
    DeliveryShips(crypto, k);
    ArriveMirrors(crypto, n, q, k, k1, k2, now);
  }

  lemma OneBegins(crypto: Crypto, n: Ends, p: Pair, q: Pair, k: L.Link, k1: Key, k2: Key, since: u64, until: u64, length: nat)
    requires Joined(crypto, n) && InStep(crypto, n.x.c, p, q, k, k1, k2, length)
    requires S.Operable(k.x.sync, k.x.vault) && k.x.sync.nextSid < U64_LIMIT && C.OpenFrom(crypto, k, since, until).Ok?
    requires length + 1 + |C.OpenFrom(crypto, k, since, until).value.xy| <= U64_MAX
    ensures Begin(n, q, since, until).Some?
    ensures InStep(crypto, n.x.c, p, Begin(n, q, since, until).value, C.OpenFrom(crypto, k, since, until).value, k1, k2, length + 1)
  {
    hide Aead, Reads, Usable, S.Operable, S.Open, Begin, Shippable, Carriable, Carry, OnSchedule;
    OpeningShips(crypto, k, since, until);
    BeginMirrors(crypto, n, q, k, k1, k2, since, until);
  }

  /** The run so far, on both levels. */
  lemma {:induction false} RunMirrors(w: L.World, n: Ends, p: Pair, k: L.Link, k1: Key, k2: Key, moves: seq<R.Move>, clock: nat -> u64)
    requires Joined(w.c, n) && Aead(n.x.c) && InStep(w.c, n.x.c, p, p, k, k1, k2, 0)
    requires R.Start(w, k) && R.Opened(moves) <= w.maxOpens && R.Admissible(w.c, k, moves) && (w.clean ==> R.Faithful(w.c, k, moves))
    requires Roomy(w, R.Opened(moves)) && forall i: nat :: i < |moves| ==> Alive(n, p, clock(i))
    ensures R.Run(w.c, k, moves).Some? && Run(n, p, moves, clock).Some?
    ensures InStep(w.c, n.x.c, p, Run(n, p, moves, clock).value, R.Run(w.c, k, moves).value, k1, k2, |moves|)
  {
    hide Aead, Reads, Usable, InStep, R.Start, R.Recorded, R.FullNoted, R.Next, Step, R.Enabled, R.Allowance, Alive, L.Inv;
    var l' := R.RunRecorded(w, k, moves);
    if moves != [] {
      var last := |moves| - 1;
      var before, mv := moves[..last], moves[last];
      R.RunPrefix(w, k, moves);
      OpenedBefore(w, moves);
      RunMirrors(w, n, p, k, k1, k2, before, clock);
      var l := R.RunRecorded(w, k, before);
      var ki := R.Run(w.c, k, before).value;
      RecordedInv(w, ki, l, R.Opened(before), last);
      R.MayIsEnabled(w, ki, mv);
      StepMirrors(w, n, p, Run(n, p, before, clock).value, ki, l, R.Run(w.c, k, moves).value, l', k1, k2, mv, clock(last), last, R.Opened(moves));
    }
  }

  lemma RecordedInv(w: L.World, k: L.Link, l: G.Ledger, begun: nat, length: nat)
    requires R.Recorded(w, k, l, begun, length)
    ensures L.Inv(w, 0, k, l)
  {
  }

  lemma OpenedBefore(w: L.World, moves: seq<R.Move>)
    requires moves != [] && Roomy(w, R.Opened(moves))
    ensures R.Opened(moves[..|moves| - 1]) <= R.Opened(moves) && Roomy(w, R.Opened(moves[..|moves| - 1]))
  {
    hide R.Allowance;
    C.Products(R.Opened(moves[..|moves| - 1]), R.Opened(moves), R.Allowance(w) + 1, R.Allowance(w) + 1);
  }

  /** Two drivers that have just come up, over the nodes of a link at its start. */
  ghost predicate Up(c: Suite, p: Pair, k: L.Link, k1: Key, k2: Key) {
    && p.x.phase.InTransport? && p.y.phase.InTransport? && p.x.keys.None? && p.y.keys.None?
    && Ciphers.Fresh(p.x.phase.t, k1, k2) && Ciphers.Fresh(p.y.phase.t, k2, k1)
    && p.x.buf == [] && p.y.buf == [] && p.xy == [] && p.yx == []
    && p.x.syncer == k.x.sync && p.y.syncer == k.y.sync && p.vx == k.x.vault && p.vy == k.y.vault
  }

  lemma UpInStep(w: L.World, c: Suite, p: Pair, k: L.Link, k1: Key, k2: Key)
    requires Aead(c) && Up(c, p, k, k1, k2) && R.Start(w, k) && Fitting(k)
    ensures InStep(w.c, c, p, p, k, k1, k2, 0)
  {
    hide Aead, KeyAt, Sound, AllFit;
    FreshOnSchedule(c, p.x.phase.t, k1, k2);
    FreshOnSchedule(c, p.y.phase.t, k2, k1);
  }

  /** The stores and the limits are ones the wire can serve; both defaults are. */
  ghost predicate Fitting(k: L.Link) {
    && AllFit(k.x.vault) && AllFit(k.y.vault)
    && k.x.sync.config.ttl == 0 && k.x.sync.config.frameLimit.Some? && k.x.sync.config.frameLimit.value <= CARRIED_LIMIT
    && k.y.sync.config.ttl == 0 && k.y.sync.config.frameLimit.Some? && k.y.sync.config.frameLimit.value <= CARRIED_LIMIT
  }

  /**
    Convergence over established links: whatever two honest drivers do with
    sealed frames in order, within both lifetimes, neither link closes, and
    their session managers and stores are those of the link model. So once no
    frame is under way no session is open, and if every session was clean and
    each side begun one over everything, both stores hold exactly the union.
   */
  lemma SecureRunConverges(w: L.World, n: Ends, p: Pair, k: L.Link, k1: Key, k2: Key, moves: seq<R.Move>, clock: nat -> u64)
    requires Joined(w.c, n) && Up(n.x.c, p, k, k1, k2) && Fitting(k)
    requires R.Start(w, k) && R.Opened(moves) <= w.maxOpens && R.Admissible(w.c, k, moves) && (w.clean ==> R.Faithful(w.c, k, moves))
    requires Roomy(w, R.Opened(moves)) && forall i: nat :: i < |moves| ==> Alive(n, p, clock(i))
    ensures Run(n, p, moves, clock).Some?
    ensures var q := Run(n, p, moves, clock).value;
            && q.x.phase.InTransport? && q.y.phase.InTransport?
            && (q.xy == [] && q.yx == [] ==>
                  && q.x.syncer.sessions == map[] && q.y.syncer.sessions == map[]
                  && (w.clean && R.OpenX(0, U64_MAX) in moves && R.OpenY(0, U64_MAX) in moves ==>
                        q.vx.entries == p.vx.entries + p.vy.entries && q.vy == q.vx))
  {
    hide Aead, Reads, Usable, R.Start, R.Admissible, R.Faithful, R.Allowance, Run, R.Run, OnSchedule, Fitting, Shippable;
    JoinedSound(w.c, n);
    UpInStep(w, n.x.c, p, k, k1, k2);
    RunMirrors(w, n, p, k, k1, k2, moves, clock);
    R.RunConverges(w, k, moves);
  }

  lemma JoinedSound(crypto: Crypto, n: Ends)
    requires Joined(crypto, n)
    ensures Aead(n.x.c)
  {
    hide Aead, Reads, EncodeMessage;
  }

  /**
    From two fresh drivers to equal stores: exchanging what they emit brings the
    links up, and everything that happens on them afterwards converges.
   */
  lemma FreshLinksConverge(w: L.World, n: Ends, k: L.Link, si: Key, ei: Key, sr: Key, er: Key, ti: u64, tr: u64, now: u64,
                           moves: seq<R.Move>, clock: nat -> u64)
    requires Joined(w.c, n) && Partners(n.x, n.y, ti, tr, now) && Fitting(k)
    requires R.Start(w, k) && R.Opened(moves) <= w.maxOpens && R.Admissible(w.c, k, moves) && (w.clean ==> R.Faithful(w.c, k, moves))
    requires Roomy(w, R.Opened(moves))
    requires forall i: nat :: i < |moves| ==>
               Since(ti, clock(i)) < n.x.config.maxLifetime && Since(tr, clock(i)) < n.y.config.maxLifetime
    ensures (NewIsValid(true, si, ei, k.x.sync, ti);
             NewIsValid(false, sr, er, k.y.sync, tr);
             var o := Exchange(n.x, n.y, NewDriver(true, si, ei, k.x.sync, ti), NewDriver(false, sr, er, k.y.sync, tr), k.x.vault, k.y.vault, now);
             var q := Run(n, Pair(o.i, o.r, o.storeI, o.storeR, [], []), moves, clock);
             && q.Some? && q.value.x.phase.InTransport? && q.value.y.phase.InTransport?
             && (q.value.xy == [] && q.value.yx == [] && w.clean && R.OpenX(0, U64_MAX) in moves && R.OpenY(0, U64_MAX) in moves ==>
                   q.value.vx.entries == k.x.vault.entries + k.y.vault.entries && q.value.vy == q.value.vx))
  {
    hide Aead, Reads, Usable, Exchange, R.Start, R.Admissible, R.Faithful, R.Allowance, Run, R.Opened, Fitting, Partners, Roomy, Since;
    NewIsValid(true, si, ei, k.x.sync, ti);
    NewIsValid(false, sr, er, k.y.sync, tr);
    LinkComesUp(n.x, n.y, si, ei, sr, er, k.x.sync, k.y.sync, k.x.vault, k.y.vault, ti, tr, now);
    var o := Exchange(n.x, n.y, NewDriver(true, si, ei, k.x.sync, ti), NewDriver(false, sr, er, k.y.sync, tr), k.x.vault, k.y.vault, now);
    var p := Pair(o.i, o.r, o.storeI, o.storeR, [], []);
    var k1, k2 :| Ciphers.Fresh(o.i.phase.t, k1, k2) && Ciphers.Fresh(o.r.phase.t, k2, k1);
    assert Up(n.x.c, p, k, k1, k2);
    SecureRunConverges(w, n, p, k, k1, k2, moves, clock);
  }
}
