/**
  What an XX handshake computes, written out over the primitives (sections 4.3,
  5.2 and 7.5 of the Noise Protocol Framework, revision 34; the code is
  core/src/noise/handshake.rs and core/src/noise/symmetric.rs): every key, every
  transcript and every byte, whatever the peer sent.
 */
module KeySchedules {
  import opened Base
  import opened Ciphers
  import opened Handshakes

  /** The next chaining key. */
  function Chained(c: Suite, ck: Key, input: seq<byte>): Key {
    c.mac(c.mac(ck, input), [1])
  }

  /** The key derived beside it. */
  function Derived(c: Suite, ck: Key, input: seq<byte>): Key {
    c.mac(c.mac(ck, input), c.mac(c.mac(ck, input), [1]) + [2])
  }

  /** A transcript: the name, then each part hashed on. */
  function Heard(c: Suite, parts: seq<seq<byte>>): Key {
    if parts == [] then PROTOCOL_NAME else c.sha(Heard(c, parts[..|parts| - 1]) + parts[|parts| - 1])
  }

  lemma HeardSnoc(c: Suite, parts: seq<seq<byte>>, x: seq<byte>)
    ensures Heard(c, parts + [x]) == c.sha(Heard(c, parts) + x)
  {
    assert (parts + [x])[..|parts|] == parts;
  }

  /** The three key agreements of a handshake, as one side computes them. */
  datatype Agreed = Agreed(ee: Key, es: Key, se: Key)

  /** The chaining key after all three, in this order. */
  function FinalKey(c: Suite, a: Agreed): Key {
    Chained(c, Chained(c, Chained(c, PROTOCOL_NAME, a.ee), a.es), a.se)
  }

  /** The keys of the encrypted parts: both static keys and both later payloads. */
  function FirstKey(c: Suite, a: Agreed): Key {
    Derived(c, PROTOCOL_NAME, a.ee)
  }

  function SecondKey(c: Suite, a: Agreed): Key {
    Derived(c, Chained(c, PROTOCOL_NAME, a.ee), a.es)
  }

  function ThirdKey(c: Suite, a: Agreed): Key {
    Derived(c, Chained(c, Chained(c, PROTOCOL_NAME, a.ee), a.es), a.se)
  }

  /** The transport: the initiator sends under the first output of the final key, the responder under the second. */
  function Ready(c: Suite, initiator: bool, a: Agreed): Transport {
    var k1, k2 := Chained(c, FinalKey(c, a), []), Derived(c, FinalKey(c, a), []);
    var c1, c2 := Cipher(Some(k1), 0), Cipher(Some(k2), 0);
    if initiator then Transport(c1, c2, false) else Transport(c2, c1, false)
  }

  lemma MixKeyIs(c: Suite, s: Sym, input: Key)
    ensures MixKey(c, s, input) == Sym(Chained(c, s.ck, input), s.h, Cipher(Some(Derived(c, s.ck, input)), 0))
  {
  }

  lemma TransportIs(c: Suite, x: Shake, a: Agreed)
    requires x.step == 4 && x.rs.Some? && x.sym.ck == FinalKey(c, a)
    ensures IntoTransport(c, x) == Ok((Ready(c, x.initiator, a), x.rs.value, x.sym.h))
  {
    hide FinalKey;
  }

  /** A sealed part: its bytes and the transcript after it. */
  lemma SealIs(c: Suite, s: Sym, k: Key, p: seq<byte>)
    requires s.cipher.k == Some(k) && s.cipher.n <= 1
    ensures var x := c.seal(k, s.cipher.n, s.h, p);
            EncryptAndHash(c, s, p) == Ok((Sym(s.ck, c.sha(s.h + x), Cipher(Some(k), s.cipher.n + 1)), x))
  {
  }

  /** An accepted sealed part: it opened under this key, nonce and transcript. */
  lemma OpenIs(c: Suite, s: Sym, k: Key, x: seq<byte>)
    requires s.cipher.k == Some(k) && s.cipher.n <= 1 && DecryptAndHash(c, s, x).Ok?
    ensures var (s', p) := DecryptAndHash(c, s, x).value;
            && c.open(k, s.cipher.n, s.h, x) == Some(p)
            && s' == Sym(s.ck, c.sha(s.h + x), Cipher(Some(k), s.cipher.n + 1))
  {
  }

  /* ----- the initiator ----- */

  /**
    An initiator that accepts a second message, whatever bytes it is: the sealed
    key in it opened under the agreement of the ephemeral keys, and the payload
    under one whose last input is the agreement of our ephemeral key with exactly
    that static key. So whoever wrote it could compute that agreement.
   */
  lemma InitiatorAccepts(c: Suite, si: Key, ei: Key, prologue: seq<byte>, p1: seq<byte>, m2: seq<byte>)
    requires Aead(c) && Write(c, NewXX(c, true, si, ei, prologue), p1).Ok?
    requires var i1 := Write(c, NewXX(c, true, si, ei, prologue), p1).value.0; Reached(i1) && Read(c, i1, m2).Ok?
    ensures Write(c, NewXX(c, true, si, ei, prologue), p1).value.1 == c.public(ei) + p1
    ensures |m2| >= 96
    ensures var (i2, p2) := Read(c, Write(c, NewXX(c, true, si, ei, prologue), p1).value.0, m2).value;
            && i2.rs.Some? && i2.re == Some(m2[..32]) && i2.s == si && i2.e == ei && i2.initiator && i2.step == 3
            && var a := Agreed(c.dh(ei, m2[..32]), c.dh(ei, i2.rs.value), c.dh(si, m2[..32]));
            && c.open(FirstKey(c, a), 0, Heard(c, [prologue, c.public(ei), p1, m2[..32]]), m2[32..80]) == Some(i2.rs.value)
            && c.open(SecondKey(c, a), 0, Heard(c, [prologue, c.public(ei), p1, m2[..32], m2[32..80]]), m2[80..]) == Some(p2)
            && i2.sym == Sym(Chained(c, Chained(c, PROTOCOL_NAME, a.ee), a.es),
                             Heard(c, [prologue, c.public(ei), p1, m2[..32], m2[32..80], m2[80..]]),
                             Cipher(Some(SecondKey(c, a)), 1))
  {
    hide Aead, Hkdf2, MixKey, Heard, DecryptAndHash, Chained, Derived;
    var i1 := Write(c, NewXX(c, true, si, ei, prologue), p1).value.0;
    OpeningHeard(c, si, ei, prologue, p1);
    var re: Key := m2[..32];
    var t3, t4 := [prologue, c.public(ei), p1], [prologue, c.public(ei), p1, re];
    var t5 := [prologue, c.public(ei), p1, re, m2[32..80]];
    HeardSnoc(c, t3, re);
    HeardSnoc(c, t4, m2[32..80]);
    HeardSnoc(c, t5, m2[80..]);
    assert t3 + [re] == t4 && t4 + [m2[32..80]] == t5 && t5 + [m2[80..]] == [prologue, c.public(ei), p1, re, m2[32..80], m2[80..]];
    var s1 := MixHash(c, i1.sym, re);
    MixKeyIs(c, s1, c.dh(ei, re));
    var s2 := MixKey(c, s1, c.dh(ei, re));
    OpenIs(c, s2, Derived(c, PROTOCOL_NAME, c.dh(ei, re)), m2[32..80]);
    var (s3, rs) := DecryptAndHash(c, s2, m2[32..80]).value;
    MixKeyIs(c, s3, c.dh(ei, rs));
    var s4 := MixKey(c, s3, c.dh(ei, rs));
    OpenIs(c, s4, s4.cipher.k.value, m2[80..]);
  }

  lemma OpeningHeard(c: Suite, s: Key, e: Key, prologue: seq<byte>, p: seq<byte>)
    ensures var w := Write(c, NewXX(c, true, s, e, prologue), p);
            && w.Ok? && w.value.1 == c.public(e) + p
            && w.value.0.sym == Sym(PROTOCOL_NAME, Heard(c, [prologue, c.public(e), p]), BLANK)
            && w.value.0.step == 2 && w.value.0.initiator && w.value.0.s == s && w.value.0.e == e
  {
    HeardThree(c, prologue, c.public(e), p);
    hide Heard;
  }

  lemma HeardThree(c: Suite, x: seq<byte>, y: seq<byte>, z: seq<byte>)
    ensures Heard(c, [x, y, z]) == c.sha(c.sha(c.sha(PROTOCOL_NAME + x) + y) + z)
  {
    HeardSnoc(c, [], x);
    HeardSnoc(c, [x], y);
    HeardSnoc(c, [x, y], z);
    assert [] + [x] == [x] && [x] + [y] == [x, y] && [x, y] + [z] == [x, y, z];
  }

  /** Its third message: our static key under the second key, then the payload under the third, which takes our static secret. */
  lemma InitiatorFinishes(c: Suite, si: Key, ei: Key, prologue: seq<byte>, p1: seq<byte>, m2: seq<byte>, p3: seq<byte>)
    requires Aead(c) && Write(c, NewXX(c, true, si, ei, prologue), p1).Ok?
    requires var i1 := Write(c, NewXX(c, true, si, ei, prologue), p1).value.0; Reached(i1) && Read(c, i1, m2).Ok?
    ensures |m2| >= 96
    ensures var i2 := Read(c, Write(c, NewXX(c, true, si, ei, prologue), p1).value.0, m2).value.0;
            && i2.rs.Some?
            && var a := Agreed(c.dh(ei, m2[..32]), c.dh(ei, i2.rs.value), c.dh(si, m2[..32]));
            var heard := [prologue, c.public(ei), p1, m2[..32], m2[32..80], m2[80..]];
            var sealed := c.seal(SecondKey(c, a), 1, Heard(c, heard), c.public(si));
            var payload := c.seal(ThirdKey(c, a), 0, Heard(c, heard + [sealed]), p3);
            var w := Write(c, i2, p3);
            && w.Ok? && w.value.1 == sealed + payload && w.value.0.rs == i2.rs
            && w.value.0.sym.ck == FinalKey(c, a) && w.value.0.sym.h == Heard(c, heard + [sealed, payload])
            && IntoTransport(c, w.value.0) == Ok((Ready(c, true, a), i2.rs.value, Heard(c, heard + [sealed, payload])))
  {
    hide Aead, Hkdf2, MixKey, Heard, EncryptAndHash, Chained, Derived, Read, IntoTransport;
    InitiatorAccepts(c, si, ei, prologue, p1, m2);
    var i2 := Read(c, Write(c, NewXX(c, true, si, ei, prologue), p1).value.0, m2).value.0;
    var a := Agreed(c.dh(ei, m2[..32]), c.dh(ei, i2.rs.value), c.dh(si, m2[..32]));
    var heard := [prologue, c.public(ei), p1, m2[..32], m2[32..80], m2[80..]];
    SealIs(c, i2.sym, SecondKey(c, a), c.public(si));
    var (s1, sealed) := EncryptAndHash(c, i2.sym, c.public(si)).value;
    HeardSnoc(c, heard, sealed);
    MixKeyIs(c, s1, a.se);
    var s2 := MixKey(c, s1, a.se);
    SealIs(c, s2, ThirdKey(c, a), p3);
    var payload := EncryptAndHash(c, s2, p3).value.1;
    HeardSnoc(c, heard + [sealed], payload);
    assert heard + [sealed] + [payload] == heard + [sealed, payload];
    TransportIs(c, Write(c, i2, p3).value.0, a);
  }

  /* ----- the responder ----- */

  /** A responder's second message, after any first one: the static key under the first key, the payload under one that takes our static secret. */
  lemma ResponderAnswers(c: Suite, sr: Key, er: Key, prologue: seq<byte>, m1: seq<byte>, p2: seq<byte>)
    requires Aead(c) && Read(c, NewXX(c, false, sr, er, prologue), m1).Ok?
    ensures |m1| >= 32
    ensures var (r1, p1) := Read(c, NewXX(c, false, sr, er, prologue), m1).value;
            var ee, es := c.dh(er, m1[..32]), c.dh(sr, m1[..32]);
            var heard := [prologue, m1[..32], m1[32..], c.public(er)];
            var ck := Chained(c, Chained(c, PROTOCOL_NAME, ee), es);
            var sealed := c.seal(Derived(c, PROTOCOL_NAME, ee), 0, Heard(c, heard), c.public(sr));
            var k2 := Derived(c, Chained(c, PROTOCOL_NAME, ee), es);
            var payload := c.seal(k2, 0, Heard(c, heard + [sealed]), p2);
            var w := Write(c, r1, p2);
            && p1 == m1[32..] && w.Ok? && w.value.1 == c.public(er) + sealed + payload
            && w.value.0 == Shake(Sym(ck, Heard(c, heard + [sealed, payload]), Cipher(Some(k2), 1)), sr, er, Some(m1[..32]), None, false, 3)
  {
    hide Aead, Hkdf2, MixKey, Heard, EncryptAndHash, Chained, Derived;
    var re: Key := m1[..32];
    var t3, heard := [prologue, re, m1[32..]], [prologue, re, m1[32..], c.public(er)];
    HeardThree(c, prologue, re, m1[32..]);
    var r1 := Read(c, NewXX(c, false, sr, er, prologue), m1).value.0;
    assert r1.sym == Sym(PROTOCOL_NAME, Heard(c, t3), BLANK);
    HeardSnoc(c, t3, c.public(er));
    assert t3 + [c.public(er)] == heard;
    var ee, es := c.dh(er, re), c.dh(sr, re);
    var s1 := MixHash(c, r1.sym, c.public(er));
    MixKeyIs(c, s1, ee);
    var s2 := MixKey(c, s1, ee);
    SealIs(c, s2, Derived(c, PROTOCOL_NAME, ee), c.public(sr));
    var (s3, sealed) := EncryptAndHash(c, s2, c.public(sr)).value;
    HeardSnoc(c, heard, sealed);
    MixKeyIs(c, s3, es);
    var s4 := MixKey(c, s3, es);
    SealIs(c, s4, s4.cipher.k.value, p2);
    var payload := EncryptAndHash(c, s4, p2).value.1;
    HeardSnoc(c, heard + [sealed], payload);
    assert heard + [sealed] + [payload] == heard + [sealed, payload];
  }

  /**
    A responder that accepts a third message, whatever bytes the two messages it
    read are: the static key in it opened under the second key, and the payload
    under one whose last input is the agreement of our ephemeral key with exactly
    that static key.
   */
  lemma ResponderAccepts(c: Suite, sr: Key, er: Key, prologue: seq<byte>, m1: seq<byte>, p2: seq<byte>, m3: seq<byte>)
    requires Aead(c) && Read(c, NewXX(c, false, sr, er, prologue), m1).Ok?
    requires var r1 := Read(c, NewXX(c, false, sr, er, prologue), m1).value.0;
             Write(c, r1, p2).Ok? && Reached(Write(c, r1, p2).value.0) && Read(c, Write(c, r1, p2).value.0, m3).Ok?
    ensures |m1| >= 32 && |m3| >= 64
    ensures var r2 := Write(c, Read(c, NewXX(c, false, sr, er, prologue), m1).value.0, p2).value.0;
            var (r3, p3) := Read(c, r2, m3).value;
            && r3.rs.Some?
            && var a := Agreed(c.dh(er, m1[..32]), c.dh(sr, m1[..32]), c.dh(er, r3.rs.value));
            var sealed := c.seal(FirstKey(c, a), 0, Heard(c, [prologue, m1[..32], m1[32..], c.public(er)]), c.public(sr));
            var payload := c.seal(SecondKey(c, a), 0, Heard(c, [prologue, m1[..32], m1[32..], c.public(er), sealed]), p2);
            var heard := [prologue, m1[..32], m1[32..], c.public(er), sealed, payload];
            && c.open(SecondKey(c, a), 1, Heard(c, heard), m3[..48]) == Some(r3.rs.value)
            && c.open(ThirdKey(c, a), 0, Heard(c, heard + [m3[..48]]), m3[48..]) == Some(p3)
            && r3.sym.ck == FinalKey(c, a) && r3.sym.h == Heard(c, heard + [m3[..48], m3[48..]])
            && IntoTransport(c, r3) == Ok((Ready(c, false, a), r3.rs.value, Heard(c, heard + [m3[..48], m3[48..]])))
  {
    hide Aead, Hkdf2, MixKey, Heard, DecryptAndHash, Chained, Derived, Write, IntoTransport;
    ResponderAnswers(c, sr, er, prologue, m1, p2);
    var r2 := Write(c, Read(c, NewXX(c, false, sr, er, prologue), m1).value.0, p2).value.0;
    var r3 := Read(c, r2, m3).value.0;
    OpenIs(c, r2.sym, r2.sym.cipher.k.value, m3[..48]);
    var (s1, rs) := DecryptAndHash(c, r2.sym, m3[..48]).value;
    var a := Agreed(c.dh(er, m1[..32]), c.dh(sr, m1[..32]), c.dh(er, rs));
    var base := [prologue, m1[..32], m1[32..], c.public(er)];
    var sealed := c.seal(FirstKey(c, a), 0, Heard(c, base), c.public(sr));
    var payload := c.seal(SecondKey(c, a), 0, Heard(c, base + [sealed]), p2);
    var heard := base + [sealed, payload];
    assert base + [sealed] == [prologue, m1[..32], m1[32..], c.public(er), sealed];
    assert heard == [prologue, m1[..32], m1[32..], c.public(er), sealed, payload];
    HeardSnoc(c, heard, m3[..48]);
    MixKeyIs(c, s1, a.se);
    var s2 := MixKey(c, s1, a.se);
    OpenIs(c, s2, ThirdKey(c, a), m3[48..]);
    HeardSnoc(c, heard + [m3[..48]], m3[48..]);
    assert heard + [m3[..48]] + [m3[48..]] == heard + [m3[..48], m3[48..]];
    TransportIs(c, r3, a);
  }

  /* ----- both ----- */

  /**
    Every undisturbed handshake: both sides end with the chain over the three
    agreements ee, es, se, in that order, and the transports it yields, the
    initiator sending under the first key. No public value is mixed into a key.
   */
  lemma HandshakeKeys(c: Suite, si: Key, ei: Key, sr: Key, er: Key, prologue: seq<byte>, p1: seq<byte>, p2: seq<byte>, p3: seq<byte>)
    requires Aead(c) && DhCommutes(c)
    ensures var f := Run(c, NewXX(c, true, si, ei, prologue), NewXX(c, false, sr, er, prologue), p1, p2, p3);
            var a := Agreed(c.dh(ei, c.public(er)), c.dh(ei, c.public(sr)), c.dh(er, c.public(si)));
            && f.Ok? && f.value.i.sym.ck == FinalKey(c, a) && f.value.r.sym.ck == FinalKey(c, a)
            && IntoTransport(c, f.value.i).Ok? && IntoTransport(c, f.value.i).value.0 == Ready(c, true, a)
            && IntoTransport(c, f.value.r).Ok? && IntoTransport(c, f.value.r).value.0 == Ready(c, false, a)
  {
    hide Aead, Hkdf2, Heard, Chained, Derived, Write, Read, IntoTransport, Ready;
    HandshakeAgrees(c, si, ei, sr, er, prologue, p1, p2, p3);
    var i0, r0 := NewXX(c, true, si, ei, prologue), NewXX(c, false, sr, er, prologue);
    var (i1, m1) := Write(c, i0, p1).value;
    WriteReaches(c, i0, p1);
    var (r1, _) := Read(c, r0, m1).value;
    var (r2, m2) := Write(c, r1, p2).value;
    WriteReaches(c, r1, p2);
    var (i2, _) := Read(c, i1, m2).value;
    var (i3, m3) := Write(c, i2, p3).value;
    var (r3, _) := Read(c, r2, m3).value;
    OpeningHeard(c, si, ei, prologue, p1);
    assert m1[..32] == c.public(ei);
    ResponderAnswers(c, sr, er, prologue, m1, p2);
    assert m2[..32] == c.public(er);
    InitiatorFinishes(c, si, ei, prologue, p1, m2, p3);
    ResponderAccepts(c, sr, er, prologue, m1, p2, m3);
    assert i2.rs == Some(c.public(sr)) && r3.rs == Some(c.public(si));
    assert c.dh(ei, c.public(er)) == c.dh(er, c.public(ei)) && c.dh(ei, c.public(sr)) == c.dh(sr, c.public(ei))
           && c.dh(si, c.public(er)) == c.dh(er, c.public(si));
  }
}
