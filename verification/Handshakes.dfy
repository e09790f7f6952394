/**
  The XX handshake (core/src/noise/handshake.rs and core/src/noise/symmetric.rs;
  sections 4.3, 5.2, 5.3 and 7.5 of the Noise Protocol Framework, revision 34).
 */
module Handshakes {
  import opened Base
  import opened Items
  import opened Ciphers

  const DH_SIZE: nat := 32

  /** "Noise_XX_25519_ChaChaPoly_SHA256". */
  const PROTOCOL_NAME: Key := [
    0x4E, 0x6F, 0x69, 0x73, 0x65, 0x5F, 0x58, 0x58, 0x5F, 0x32, 0x35, 0x35, 0x31, 0x39, 0x5F, 0x43,
    0x68, 0x61, 0x43, 0x68, 0x61, 0x50, 0x6F, 0x6C, 0x79, 0x5F, 0x53, 0x48, 0x41, 0x32, 0x35, 0x36
  ]

  /** Key agreement commutes. */
  ghost predicate DhCommutes(c: Suite) {
    forall a, b :: c.dh(a, c.public(b)) == c.dh(b, c.public(a))
  }

  /** The running handshake: chaining key, transcript hash, current cipher. */
  datatype Sym = Sym(ck: Key, h: Key, cipher: Cipher)

  function Hkdf2(c: Suite, ck: Key, ikm: seq<byte>): (Key, Key) {
    var temp := c.mac(ck, ikm);
    var out1 := c.mac(temp, [1]);
    (out1, c.mac(temp, out1 + [2]))
  }

  function MixHash(c: Suite, s: Sym, data: seq<byte>): Sym {
    s.(h := c.sha(s.h + data))
  }

  function MixKey(c: Suite, s: Sym, ikm: Key): Sym {
    var (ck, k) := Hkdf2(c, s.ck, ikm);
    Sym(ck, s.h, Cipher(Some(k), 0))
  }

  function EncryptAndHash(c: Suite, s: Sym, p: seq<byte>): Result<(Sym, seq<byte>), NoiseError> {
    var (cipher, x) :- Encrypt(c, s.cipher, s.h, p);
    Ok((MixHash(c, s.(cipher := cipher), x), x))
  }

  function DecryptAndHash(c: Suite, s: Sym, x: seq<byte>): Result<(Sym, seq<byte>), NoiseError> {
    var (cipher, p) :- Decrypt(c, s.cipher, s.h, x);
    Ok((MixHash(c, s.(cipher := cipher), x), p))
  }

  /** One side of a handshake; keys are given by their secrets, `step` is the next message. */
  datatype Shake = Shake(sym: Sym, s: Key, e: Key, re: Option<Key>, rs: Option<Key>, initiator: bool, step: nat)

  function NewXX(c: Suite, initiator: bool, s: Key, e: Key, prologue: seq<byte>): Shake {
    Shake(MixHash(c, Sym(PROTOCOL_NAME, PROTOCOL_NAME, BLANK), prologue), s, e, None, None, initiator, 1)
  }

  predicate OurTurn(x: Shake) {
    if x.initiator then x.step == 1 || x.step == 3 else x.step == 2
  }

  /** What reaching a step implies. */
  ghost predicate Reached(x: Shake) {
    && 1 <= x.step <= 4
    && (x.step == 1 ==> x.sym.cipher == BLANK)
    && (x.step >= 3 ==> x.sym.cipher.k.Some?)
    && (x.step >= 2 && !x.initiator ==> x.re.Some?)
    && (x.step >= 3 && x.initiator ==> x.re.Some? && x.rs.Some?)
    && (x.step == 4 ==> x.rs.Some?)
  }

  /** The bytes a message starts with, and the state once they are accounted for. */
  function WriteKeys(c: Suite, x: Shake): Result<(Shake, seq<byte>), NoiseError> {
    var e := c.public(x.e);
    if x.step == 1 then Ok((x.(sym := MixHash(c, x.sym, e)), e))
    else if x.re.None? then Err(OutOfOrder)
    else if x.step == 2 then
      var s1 := MixKey(c, MixHash(c, x.sym, e), c.dh(x.e, x.re.value));
      var (s2, enc) :- EncryptAndHash(c, s1, c.public(x.s));
      Ok((x.(sym := MixKey(c, s2, c.dh(x.s, x.re.value))), e + enc))
    else
      var (s1, enc) :- EncryptAndHash(c, x.sym, c.public(x.s));
      Ok((x.(sym := MixKey(c, s1, c.dh(x.s, x.re.value))), enc))
  }

  function Write(c: Suite, x: Shake, payload: seq<byte>): Result<(Shake, seq<byte>), NoiseError> {
    if x.step > 3 || !OurTurn(x) then Err(OutOfOrder)
    else
      var (x1, keys) :- WriteKeys(c, x);
      var (s, enc) :- EncryptAndHash(c, x1.sym, payload);
      Ok((x1.(sym := s, step := x.step + 1), keys + enc))
  }

  /** The shortest message a step can have. */
  function Overhead(step: nat): nat {
    if step == 1 then DH_SIZE
    else if step == 2 then DH_SIZE + DH_SIZE + TAG_SIZE + TAG_SIZE
    else DH_SIZE + TAG_SIZE + TAG_SIZE
  }

  /** A static key that arrives encrypted. */
  function ReadStatic(c: Suite, x: Shake, enc: seq<byte>): (r: Result<Shake, NoiseError>)
    requires Aead(c) && x.sym.cipher.k.Some? && |enc| == DH_SIZE + TAG_SIZE
    ensures r.Ok? ==> r.value.rs.Some? && r.value.re == x.re && r.value.sym.cipher.k.Some? && r.value.step == x.step
                      && r.value.initiator == x.initiator
  {
    var (s, plain) :- DecryptAndHash(c, x.sym, enc);
    var rs: Key := plain;
    Ok(x.(sym := MixKey(c, s, c.dh(x.e, rs)), rs := Some(rs)))
  }

  /** Takes the keys off a message; returns the state and the rest. */
  function ReadKeys(c: Suite, x: Shake, m: seq<byte>): (r: Result<(Shake, seq<byte>), NoiseError>)
    requires Aead(c) && Reached(x) && x.step <= 3 && !OurTurn(x) && |m| >= Overhead(x.step)
    ensures r.Ok? ==> var y := r.value.0;
                      && y.step == x.step && y.initiator == x.initiator && y.re.Some? && (x.step >= 2 ==> y.sym.cipher.k.Some? && y.rs.Some?)
                      && (x.step == 1 ==> y.sym.cipher == BLANK)
  {
    if x.step == 1 then
      var re: Key := m[..DH_SIZE];
      Ok((x.(sym := MixHash(c, x.sym, re), re := Some(re)), m[DH_SIZE..]))
    else if x.step == 2 then
      var re: Key := m[..DH_SIZE];
      var s := MixKey(c, MixHash(c, x.sym, re), c.dh(x.e, re));
      var y :- ReadStatic(c, x.(sym := s, re := Some(re)), m[DH_SIZE..DH_SIZE + DH_SIZE + TAG_SIZE]);
      Ok((y, m[DH_SIZE + DH_SIZE + TAG_SIZE..]))
    else
      var y :- ReadStatic(c, x, m[..DH_SIZE + TAG_SIZE]);
      Ok((y, m[DH_SIZE + TAG_SIZE..]))
  }

  /** Total on arbitrary input: wrong lengths and failed authentication are errors. */
  function Read(c: Suite, x: Shake, m: seq<byte>): (r: Result<(Shake, seq<byte>), NoiseError>)
    requires Aead(c) && Reached(x)
    ensures r.Ok? ==> Reached(r.value.0) && r.value.0.step == x.step + 1
  {
    if x.step > 3 || OurTurn(x) then Err(OutOfOrder)
    else if |m| < Overhead(x.step) then Err(BadMessage)
    else
      var (y, rest) :- ReadKeys(c, x, m);
      var (s, payload) :- DecryptAndHash(c, y.sym, rest);
      Ok((y.(sym := s, step := x.step + 1), payload))
  }

  /** The state once the ephemeral key of a message is taken in. */
  function HeardEphemeral(c: Suite, x: Shake, m: seq<byte>): Shake
    requires |m| >= DH_SIZE
  {
    if x.step != 2 then x
    else x.(sym := MixKey(c, MixHash(c, x.sym, m[..DH_SIZE]), c.dh(x.e, m[..DH_SIZE])), re := Some(m[..DH_SIZE]))
  }

  /** What a failed read leaves behind: everything up to the part that did not authenticate. */
  function ReadLeaves(c: Suite, x: Shake, m: seq<byte>): Shake
    requires Aead(c) && Reached(x)
  {
    if x.step > 3 || OurTurn(x) || |m| < Overhead(x.step) then x
    else
      match ReadKeys(c, x, m)
      case Err(_) => HeardEphemeral(c, x, m)
      case Ok((y, _)) => y
  }

  /** A failed read never advances the handshake, so it never yields a transport. */
  lemma FailedReadStays(c: Suite, x: Shake, m: seq<byte>)
    requires Aead(c) && Reached(x) && Read(c, x, m).Err?
    ensures ReadLeaves(c, x, m).step == x.step && (x.step <= 3 ==> IntoTransport(c, ReadLeaves(c, x, m)).Err?)
  {
    hide Aead, Hkdf2;
  }

  lemma WriteReaches(c: Suite, x: Shake, payload: seq<byte>)
    requires Reached(x) && Write(c, x, payload).Ok?
    ensures Reached(Write(c, x, payload).value.0) && Write(c, x, payload).value.0.step == x.step + 1
  {
  }

  /** The transport of a finished handshake and the peer's static key. */
  function IntoTransport(c: Suite, x: Shake): Result<(Transport, Key, Key), NoiseError> {
    if x.step <= 3 || x.rs.None? then Err(OutOfOrder)
    else
      var (k1, k2) := Hkdf2(c, x.sym.ck, []);
      var c1, c2 := Cipher(Some(k1), 0), Cipher(Some(k2), 0);
      Ok((if x.initiator then Transport(c1, c2, false) else Transport(c2, c1, false), x.rs.value, x.sym.h))
  }

  /* ----- agreement ----- */

  lemma EncryptDecrypt(c: Suite, s: Sym, p: seq<byte>)
    requires Aead(c) && s.cipher.n < U64_MAX
    ensures var r := EncryptAndHash(c, s, p);
            && r.Ok? && DecryptAndHash(c, s, r.value.1) == Ok((r.value.0, p))
            && |r.value.1| == |p| + (if s.cipher.k.Some? then TAG_SIZE else 0)
            && r.value.0.cipher.n <= s.cipher.n + 1 && r.value.0.cipher.k == s.cipher.k
  {
  }

  /** First message: both transcripts stay equal. */
  lemma Message1(c: Suite, i: Shake, r: Shake, payload: seq<byte>)
    requires Aead(c) && i.initiator && !r.initiator && i.step == 1 && r.step == 1 && i.sym == r.sym && i.sym.cipher == BLANK
    requires Reached(i) && Reached(r)
    ensures var w := Write(c, i, payload);
            && w.Ok? && |w.value.1| >= DH_SIZE
            && var q := Read(c, r, w.value.1);
            && q == Ok((r.(sym := w.value.0.sym, re := Some(c.public(i.e)), step := 2), payload))
            && w.value.0 == i.(sym := w.value.0.sym, step := 2) && w.value.0.sym.cipher == BLANK
  {
    hide Aead;
    var e := c.public(i.e);
    var m := e + payload;
    assert m[..DH_SIZE] == e && m[DH_SIZE..] == payload;
  }

  /** Second message: equal transcripts and chaining keys, and the initiator has the responder's static key. */
  lemma Message2(c: Suite, i: Shake, r: Shake, payload: seq<byte>)
    requires Aead(c) && DhCommutes(c) && i.initiator && !r.initiator && i.step == 2 && r.step == 2 && i.sym == r.sym
    requires r.re == Some(c.public(i.e)) && Reached(i) && Reached(r)
    ensures var w := Write(c, r, payload);
            && w.Ok?
            && var q := Read(c, i, w.value.1);
            && q == Ok((i.(sym := w.value.0.sym, re := Some(c.public(r.e)), rs := Some(c.public(r.s)), step := 3), payload))
            && w.value.0 == r.(sym := w.value.0.sym, step := 3)
            && w.value.0.sym.cipher.k.Some? && w.value.0.sym.cipher.n <= 1
  {
    hide Aead, EncryptAndHash, DecryptAndHash, Hkdf2;
    var e, sp := c.public(r.e), c.public(r.s);
    var s1 := MixKey(c, MixHash(c, r.sym, e), c.dh(r.e, c.public(i.e)));
    assert s1 == MixKey(c, MixHash(c, i.sym, e), c.dh(i.e, e));
    EncryptDecrypt(c, s1, sp);
    var (s2, enc) := EncryptAndHash(c, s1, sp).value;
    var s3 := MixKey(c, s2, c.dh(r.s, c.public(i.e)));
    assert s3 == MixKey(c, s2, c.dh(i.e, sp));
    EncryptDecrypt(c, s3, payload);
    var (s4, tail) := EncryptAndHash(c, s3, payload).value;
    Pieces(e, enc, tail);
  }

  lemma Pieces(e: seq<byte>, enc: seq<byte>, tail: seq<byte>)
    requires |e| == DH_SIZE && |enc| == DH_SIZE + TAG_SIZE
    ensures var m := e + enc + tail;
            && m[..DH_SIZE] == e && m[DH_SIZE..DH_SIZE + DH_SIZE + TAG_SIZE] == enc && m[DH_SIZE + DH_SIZE + TAG_SIZE..] == tail
  {
  }

  /** Third message: the responder has the initiator's static key too. */
  lemma Message3(c: Suite, i: Shake, r: Shake, payload: seq<byte>)
    requires Aead(c) && DhCommutes(c) && i.initiator && !r.initiator && i.step == 3 && r.step == 3 && i.sym == r.sym
    requires i.re == Some(c.public(r.e)) && Reached(i) && Reached(r) && i.sym.cipher.n <= 1
    ensures var w := Write(c, i, payload);
            && w.Ok?
            && var q := Read(c, r, w.value.1);
            && q == Ok((r.(sym := w.value.0.sym, rs := Some(c.public(i.s)), step := 4), payload))
            && w.value.0 == i.(sym := w.value.0.sym, step := 4)
  {
    hide Aead, EncryptAndHash, DecryptAndHash, Hkdf2;
    var sp := c.public(i.s);
    EncryptDecrypt(c, i.sym, sp);
    var (s1, enc) := EncryptAndHash(c, i.sym, sp).value;
    var s2 := MixKey(c, s1, c.dh(i.s, c.public(r.e)));
    assert s2 == MixKey(c, s1, c.dh(r.e, sp));
    EncryptDecrypt(c, s2, payload);
    var (s3, tail) := EncryptAndHash(c, s2, payload).value;
    var m := enc + tail;
    assert m[..DH_SIZE + TAG_SIZE] == enc && m[DH_SIZE + TAG_SIZE..] == tail;
  }

  /** The six calls of an undisturbed handshake. */
  datatype Finished = Finished(i: Shake, r: Shake, p1: seq<byte>, p2: seq<byte>, p3: seq<byte>)

  function Run(c: Suite, i: Shake, r: Shake, p1: seq<byte>, p2: seq<byte>, p3: seq<byte>): Result<Finished, NoiseError>
    requires Aead(c) && Reached(i) && Reached(r)
  {
    var (i1, m1) :- Write(c, i, p1);
    var (r1, q1) :- Read(c, r, m1);
    var (r2, m2) :- Write(c, r1, p2);
    WriteReaches(c, i, p1);
    var (i2, q2) :- Read(c, i1, m2);
    var (i3, m3) :- Write(c, i2, p3);
    WriteReaches(c, r1, p2);
    var (r3, q3) :- Read(c, r2, m3);
    Ok(Finished(i3, r3, q1, q2, q3))
  }

  /**
    Agreement: two handshakes over the same prologue, fed each other's messages,
    finish; payloads arrive intact, transcript hash and chaining key are equal,
    each side holds the other's static key, and the transports match crosswise.
   */
  lemma HandshakeAgrees(c: Suite, si: Key, ei: Key, sr: Key, er: Key, prologue: seq<byte>, p1: seq<byte>, p2: seq<byte>, p3: seq<byte>)
    requires Aead(c) && DhCommutes(c)
    ensures var f := Run(c, NewXX(c, true, si, ei, prologue), NewXX(c, false, sr, er, prologue), p1, p2, p3);
            && f.Ok? && f.value.p1 == p1 && f.value.p2 == p2 && f.value.p3 == p3
            && f.value.i.sym == f.value.r.sym
            && f.value.i.rs == Some(c.public(sr)) && f.value.r.rs == Some(c.public(si))
            && Matched(c, f.value.i, f.value.r)
  {
    hide Aead, DhCommutes, Read, Write, Hkdf2;
    var i, r := NewXX(c, true, si, ei, prologue), NewXX(c, false, sr, er, prologue);
    Message1(c, i, r, p1);
    var (i1, m1) := Write(c, i, p1).value;
    WriteReaches(c, i, p1);
    var r1 := Read(c, r, m1).value.0;
    Message2(c, i1, r1, p2);
    var (r2, m2) := Write(c, r1, p2).value;
    WriteReaches(c, r1, p2);
    var i2 := Read(c, i1, m2).value.0;
    Message3(c, i2, r2, p3);
    var i3 := Write(c, i2, p3).value.0;
    FinishedMatch(c, i3, r2.(sym := i3.sym, rs := Some(c.public(si)), step := 4));
  }

  lemma FinishedMatch(c: Suite, i: Shake, r: Shake)
    requires i.sym == r.sym && i.step == 4 && r.step == 4 && i.rs.Some? && r.rs.Some? && i.initiator && !r.initiator
    ensures Matched(c, i, r)
  {
    var (k1, k2) := Hkdf2(c, i.sym.ck, []);
    assert Ciphers.Fresh(IntoTransport(c, i).value.0, k1, k2) && Ciphers.Fresh(IntoTransport(c, r).value.0, k2, k1);
  }

  /** Each side's sending direction is the other's receiving one, with fresh keys. */
  ghost predicate Matched(c: Suite, i: Shake, r: Shake) {
    var a, b := IntoTransport(c, i), IntoTransport(c, r);
    && a.Ok? && b.Ok?
    && a.value.0.send == b.value.0.recv && a.value.0.recv == b.value.0.send
    && a.value.2 == b.value.2
    && exists k1, k2 :: Ciphers.Fresh(a.value.0, k1, k2) && Ciphers.Fresh(b.value.0, k2, k1)
  }

  /* ----- binding to the prologue ----- */

  /** Two inputs witness a hash collision. */
  ghost predicate Collide(c: Suite, x: seq<byte>, y: seq<byte>) {
    x != y && c.sha(x) == c.sha(y)
  }

  /** A ciphertext opens under associated data it was not sealed with. */
  ghost predicate Forged(c: Suite, x: seq<byte>, ad: seq<byte>, k: Key, ad': seq<byte>) {
    ad' != ad && c.open(k, 0, ad', x).Some?
  }

  /** The transcript after a prologue, an ephemeral key and an unencrypted payload. */
  function Transcript1(c: Suite, prologue: seq<byte>, e: Key, payload: seq<byte>): Key {
    c.sha(c.sha(c.sha(PROTOCOL_NAME + prologue) + e) + payload)
  }

  lemma SplitHashInput(h: Key, x: seq<byte>, h': Key, x': seq<byte>)
    requires h + x == h' + x'
    ensures h == h' && x == x'
  {
    assert (h + x)[..32] == h && (h' + x')[..32] == h';
    assert (h + x)[32..] == x && (h' + x')[32..] == x';
  }

  /** Equal transcripts mean equal contents, or name the two inputs that collide. */
  lemma TranscriptsEqual(c: Suite, p: seq<byte>, e: Key, q: seq<byte>, p': seq<byte>, e': Key, q': seq<byte>)
    requires Transcript1(c, p, e, q) == Transcript1(c, p', e', q')
    ensures || (p == p' && e == e' && q == q')
            || Collide(c, PROTOCOL_NAME + p, PROTOCOL_NAME + p')
            || Collide(c, c.sha(PROTOCOL_NAME + p) + e, c.sha(PROTOCOL_NAME + p') + e')
            || Collide(c, c.sha(c.sha(PROTOCOL_NAME + p) + e) + q, c.sha(c.sha(PROTOCOL_NAME + p') + e') + q')
  {
    var h, h' := c.sha(PROTOCOL_NAME + p), c.sha(PROTOCOL_NAME + p');
    var g, g' := c.sha(h + e), c.sha(h' + e');
    if g + q == g' + q' {
      SplitHashInput(g, q, g', q');
      if h + e == h' + e' {
        SplitHashInput(h, e, h', e');
        if PROTOCOL_NAME + p == PROTOCOL_NAME + p' {
          SplitHashInput(PROTOCOL_NAME, p, PROTOCOL_NAME, p');
        }
      }
    }
  }

  /** The associated data of a responder's encrypted static key. */
  function StaticAd(c: Suite, r: Shake): Key {
    c.sha(r.sym.h + c.public(r.e))
  }

  lemma InitiatorUsesAd(c: Suite, i: Shake, m: seq<byte>)
    requires Aead(c) && Reached(i) && i.initiator && i.step == 2 && Read(c, i, m).Ok?
    ensures |m| >= Overhead(2)
    ensures var s := MixKey(c, MixHash(c, i.sym, m[..DH_SIZE]), c.dh(i.e, m[..DH_SIZE]));
            && s.cipher.k.Some?
            && c.open(s.cipher.k.value, 0, c.sha(i.sym.h + m[..DH_SIZE]), m[DH_SIZE..DH_SIZE + DH_SIZE + TAG_SIZE]).Some?
  {
    hide Aead, Hkdf2;
  }

  lemma ResponderWrites(c: Suite, r: Shake, payload: seq<byte>)
    requires Aead(c) && Reached(r) && !r.initiator && r.step == 2
    ensures var w := Write(c, r, payload);
            && w.Ok? && |w.value.1| >= DH_SIZE + DH_SIZE + TAG_SIZE
            && w.value.1[..DH_SIZE] == c.public(r.e)
            && w.value.1[DH_SIZE..DH_SIZE + DH_SIZE + TAG_SIZE] == StaticCipher(c, r)
  {
    hide Aead, EncryptAndHash, DecryptAndHash, Hkdf2;
    var e := c.public(r.e);
    var s1 := MixKey(c, MixHash(c, r.sym, e), c.dh(r.e, r.re.value));
    EncryptDecrypt(c, s1, c.public(r.s));
    var (s2, enc) := EncryptAndHash(c, s1, c.public(r.s)).value;
    var s3 := MixKey(c, s2, c.dh(r.s, r.re.value));
    EncryptDecrypt(c, s3, payload);
    var (s4, tail) := EncryptAndHash(c, s3, payload).value;
    Pieces(e, enc, tail);
    StaticIs(c, r);
  }

  /** The responder's static key as it travels. */
  function StaticCipher(c: Suite, r: Shake): seq<byte>
    requires r.re.Some?
  {
    var s := MixKey(c, MixHash(c, r.sym, c.public(r.e)), c.dh(r.e, r.re.value));
    c.seal(s.cipher.k.value, 0, StaticAd(c, r), c.public(r.s))
  }

  lemma StaticIs(c: Suite, r: Shake)
    requires r.re.Some?
    ensures var s := MixKey(c, MixHash(c, r.sym, c.public(r.e)), c.dh(r.e, r.re.value));
            EncryptAndHash(c, s, c.public(r.s)).Ok? && EncryptAndHash(c, s, c.public(r.s)).value.1 == StaticCipher(c, r)
  {
  }

  /** The key an initiator tries on the responder's static key. */
  function TriedKey(c: Suite, ei: Key, er: Key): Key {
    Hkdf2(c, PROTOCOL_NAME, c.dh(ei, c.public(er))).1
  }

  /**
    The ways a handshake can be deceived: one of four named pairs of hash inputs
    collides, or the responder's encrypted static key opens for the initiator
    under associated data it was not sealed with.
   */
  ghost predicate Deceived(c: Suite, ei: Key, pi: seq<byte>, q: seq<byte>, er: Key, pr: seq<byte>, m1: seq<byte>, r1: Shake)
    requires |m1| >= DH_SIZE && r1.re.Some?
  {
    var e, e', q' := c.public(ei), m1[..DH_SIZE], m1[DH_SIZE..];
    || Collide(c, PROTOCOL_NAME + pi, PROTOCOL_NAME + pr)
    || Collide(c, c.sha(PROTOCOL_NAME + pi) + e, c.sha(PROTOCOL_NAME + pr) + e')
    || Collide(c, c.sha(c.sha(PROTOCOL_NAME + pi) + e) + q, c.sha(c.sha(PROTOCOL_NAME + pr) + e') + q')
    || Collide(c, Transcript1(c, pi, e, q) + c.public(er), Transcript1(c, pr, e', q') + c.public(er))
    || Forged(c, StaticCipher(c, r1), StaticAd(c, r1), TriedKey(c, ei, er), c.sha(Transcript1(c, pi, e, q) + c.public(er)))
  }

  /**
    Binding: if an initiator accepts the second message of an honest responder,
    the two started from the same prologue and the responder had read exactly
    the initiator's first message, or a named break of the primitives happened.
   */
  lemma AcceptedMeansAgreed(c: Suite, si: Key, ei: Key, pi: seq<byte>, q: seq<byte>, sr: Key, er: Key, pr: seq<byte>, m1: seq<byte>, p2: seq<byte>)
    requires Aead(c)
    requires Write(c, NewXX(c, true, si, ei, pi), q).Ok? && Read(c, NewXX(c, false, sr, er, pr), m1).Ok?
    requires Write(c, Read(c, NewXX(c, false, sr, er, pr), m1).value.0, p2).Ok?
    requires var i1 := Write(c, NewXX(c, true, si, ei, pi), q).value.0;
             var r1 := Read(c, NewXX(c, false, sr, er, pr), m1).value.0;
             Reached(i1) && Read(c, i1, Write(c, r1, p2).value.1).Ok?
    ensures |m1| >= DH_SIZE
    ensures var r1 := Read(c, NewXX(c, false, sr, er, pr), m1).value.0;
            || (pi == pr && m1 == Write(c, NewXX(c, true, si, ei, pi), q).value.1)
            || Deceived(c, ei, pi, q, er, pr, m1, r1)
  {
    hide Aead, Hkdf2, Collide, StaticCipher;
    var i0, r0 := NewXX(c, true, si, ei, pi), NewXX(c, false, sr, er, pr);
    FirstTranscript(c, si, ei, pi, q);
    FirstRead(c, sr, er, pr, m1);
    var i1, r1 := Write(c, i0, q).value.0, Read(c, r0, m1).value.0;
    ResponderWrites(c, r1, p2);
    var m2 := Write(c, r1, p2).value.1;
    InitiatorUsesAd(c, i1, m2);
    var e, e', q' := c.public(ei), m1[..DH_SIZE], m1[DH_SIZE..];
    var t, t' := Transcript1(c, pi, e, q), Transcript1(c, pr, e', q');
    if c.sha(t + c.public(er)) != StaticAd(c, r1) {
      assert Forged(c, StaticCipher(c, r1), StaticAd(c, r1), TriedKey(c, ei, er), c.sha(t + c.public(er)));
    } else if t == t' {
      TranscriptsEqual(c, pi, e, q, pr, e', q');
      assert e' + q' == m1;
    } else {
      DifferentInputs(c, t, t', c.public(er));
    }
  }

  lemma DifferentInputs(c: Suite, t: Key, t': Key, x: Key)
    requires t != t' && c.sha(t + x) == c.sha(t' + x)
    ensures Collide(c, t + x, t' + x)
  {
    if t + x == t' + x {
      SplitHashInput(t, x, t', x);
    }
  }

  lemma FirstTranscript(c: Suite, s: Key, e: Key, p: seq<byte>, q: seq<byte>)
    ensures var w := Write(c, NewXX(c, true, s, e, p), q);
            && w.Ok? && w.value.1 == c.public(e) + q
            && w.value.0.sym.h == Transcript1(c, p, c.public(e), q) && w.value.0.sym.ck == PROTOCOL_NAME && w.value.0.step == 2 && w.value.0.initiator && w.value.0.e == e
            && Reached(w.value.0)
  {
  }

  lemma FirstRead(c: Suite, s: Key, e: Key, p: seq<byte>, m: seq<byte>)
    requires Aead(c) && Read(c, NewXX(c, false, s, e, p), m).Ok?
    ensures |m| >= DH_SIZE
    ensures var r := Read(c, NewXX(c, false, s, e, p), m).value.0;
            && r.sym.h == Transcript1(c, p, m[..DH_SIZE], m[DH_SIZE..]) && r.step == 2 && !r.initiator
            && r.re == Some(m[..DH_SIZE]) && r.e == e && r.s == s
  {
    hide Aead;
  }
}
