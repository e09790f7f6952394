/**
  The handshake as an object (core/src/noise/handshake.rs and
  core/src/noise/symmetric.rs): fields updated message by message, proved against
  the functional description.
 */
module HandshakeStates {
  import opened Base
  import opened Items
  import opened Ciphers
  import opened Handshakes

  class SymmetricState {
    var ck: Key
    var h: Key
    const cipher: CipherState

    function View(): Sym
      reads this, cipher
    {
      Sym(ck, h, cipher.View())
    }

    constructor ()
      ensures View() == Sym(PROTOCOL_NAME, PROTOCOL_NAME, BLANK) && fresh(cipher)
    {
      ck, h := PROTOCOL_NAME, PROTOCOL_NAME;
      cipher := new CipherState();
    }

    method MixHash(c: Suite, data: seq<byte>)
      modifies this
      ensures View() == Handshakes.MixHash(c, old(View()), data)
    {
      h := c.sha(h + data);
    }

    method MixKey(c: Suite, ikm: Key)
      modifies this, cipher
      ensures View() == Handshakes.MixKey(c, old(View()), ikm)
    {
      hide Hkdf2;
      var (next, k) := Hkdf2(c, ck, ikm);
      ck := next;
      cipher.InitializeKey(k);
    }

    method EncryptAndHash(c: Suite, plaintext: seq<byte>) returns (r: Result<seq<byte>, NoiseError>)
      modifies this, cipher
      ensures match Handshakes.EncryptAndHash(c, old(View()), plaintext)
              case Err(e) => r == Err(e) && View() == old(View())
              case Ok((s, x)) => r == Ok(x) && View() == s
    {
      r := cipher.EncryptWithAd(c, h, plaintext);
      if r.Ok? {
        MixHash(c, r.value);
      }
    }

    /** The ciphertext enters the transcript only after it authenticated. */
    method DecryptAndHash(c: Suite, ciphertext: seq<byte>) returns (r: Result<seq<byte>, NoiseError>)
      modifies this, cipher
      ensures match Handshakes.DecryptAndHash(c, old(View()), ciphertext)
              case Err(e) => r == Err(e) && View() == old(View())
              case Ok((s, p)) => r == Ok(p) && View() == s
    {
      r := cipher.DecryptWithAd(c, h, ciphertext);
      if r.Ok? {
        MixHash(c, ciphertext);
      }
    }
  }

  class HandshakeState {
    const symmetric: SymmetricState
    const s: Key
    const e: Key
    const initiator: bool
    var re: Option<Key>
    var rs: Option<Key>
    var step: nat

    function View(): Shake
      reads this, symmetric, symmetric.cipher
    {
      Shake(symmetric.View(), s, e, re, rs, initiator, step)
    }

    ghost function Repr(): set<object> {
      {this, symmetric, symmetric.cipher}
    }

    constructor (c: Suite, initiator: bool, s: Key, e: Key, prologue: seq<byte>)
      ensures View() == NewXX(c, initiator, s, e, prologue) && fresh(Repr())
    {
      this.s, this.e, this.initiator := s, e, initiator;
      re, rs, step := None, None, 1;
      symmetric := new SymmetricState();
      new;
      symmetric.MixHash(c, prologue);
    }

    /** The key part of the message about to be written. */
    method PutKeys(c: Suite) returns (r: Result<seq<byte>, NoiseError>)
      requires OurTurn(View()) && step <= 3
      modifies Repr()
      ensures match WriteKeys(c, old(View()))
              case Err(x) => r == Err(x) && (Reached(old(View())) ==> View() == old(View()))
              case Ok((x, keys)) => r == Ok(keys) && View() == x
    {
      hide Hkdf2, Handshakes.EncryptAndHash;
      var public := c.public(e);
      if step == 1 {
        symmetric.MixHash(c, public);
        return Ok(public);
      }
      if re.None? {
        return Err(OutOfOrder);
      }
      var out: seq<byte> := [];
      if step == 2 {
        out := public;
        symmetric.MixHash(c, public);
        symmetric.MixKey(c, c.dh(e, re.value));
      }
      if step == 2 {
        FreshKeySeals(c, symmetric.View(), c.public(s));
      }
      var enc := symmetric.EncryptAndHash(c, c.public(s));
      if enc.Err? {
        return Err(enc.error);
      }
      assert [] + enc.value == enc.value;
      symmetric.MixKey(c, c.dh(s, re.value));
      r := Ok(out + enc.value);
    }

    method WriteMessage(c: Suite, payload: seq<byte>) returns (r: Result<seq<byte>, NoiseError>)
      modifies Repr()
      ensures match Write(c, old(View()), payload)
              case Err(x) => r == Err(x) && (Reached(old(View())) ==> View() == old(View()))
              case Ok((x, m)) => r == Ok(m) && View() == x
    {
      hide WriteKeys, Handshakes.EncryptAndHash;
      if step > 3 || !OurTurn(View()) {
        return Err(OutOfOrder);
      }
      var keys := PutKeys(c);
      if keys.Err? {
        return Err(keys.error);
      }
      WriteKeysKeepsStep(c, old(View()));
      if Reached(old(View())) {
        FreshKeySeals(c, symmetric.View(), payload);
      }
      var enc := symmetric.EncryptAndHash(c, payload);
      if enc.Err? {
        return Err(enc.error);
      }
      step := step + 1;
      r := Ok(keys.value + enc.value);
    }

    /** A static key that arrives encrypted. */
    method TakeStatic(c: Suite, enc: seq<byte>) returns (r: Result<(), NoiseError>)
      requires Aead(c) && symmetric.cipher.k.Some? && |enc| == DH_SIZE + TAG_SIZE
      modifies Repr()
      ensures match ReadStatic(c, old(View()), enc)
              case Err(x) => r == Err(x) && View() == old(View())
              case Ok(x) => r.Ok? && View() == x
    {
      hide Hkdf2;
      var plain := symmetric.DecryptAndHash(c, enc);
      if plain.Err? {
        return Err(plain.error);
      }
      var key: Key := plain.value;
      rs := Some(key);
      symmetric.MixKey(c, c.dh(e, key));
      r := Ok(());
    }

    /** Takes the keys off a message; returns what follows them. */
    method TakeKeys(c: Suite, m: seq<byte>) returns (r: Result<seq<byte>, NoiseError>)
      requires Aead(c) && Reached(View()) && step <= 3 && !OurTurn(View()) && |m| >= Overhead(step)
      modifies Repr()
      ensures match ReadKeys(c, old(View()), m)
              case Err(x) => r == Err(x) && View() == HeardEphemeral(c, old(View()), m)
              case Ok((x, rest)) => r == Ok(rest) && View() == x
    {
      hide Hkdf2, ReadStatic, Aead;
      if step == 1 {
        var key: Key := m[..DH_SIZE];
        symmetric.MixHash(c, key);
        re := Some(key);
        return Ok(m[DH_SIZE..]);
      }
      var rest := m;
      if step == 2 {
        var key: Key := m[..DH_SIZE];
        rest := m[DH_SIZE..];
        symmetric.MixHash(c, key);
        re := Some(key);
        symmetric.MixKey(c, c.dh(e, key));
        assert rest[..DH_SIZE + TAG_SIZE] == m[DH_SIZE..DH_SIZE + DH_SIZE + TAG_SIZE];
        assert rest[DH_SIZE + TAG_SIZE..] == m[DH_SIZE + DH_SIZE + TAG_SIZE..];
      }
      var taken := TakeStatic(c, rest[..DH_SIZE + TAG_SIZE]);
      if taken.Err? {
        return Err(taken.error);
      }
      r := Ok(rest[DH_SIZE + TAG_SIZE..]);
    }

    /** Total on arbitrary input. */
    method ReadMessage(c: Suite, m: seq<byte>) returns (r: Result<seq<byte>, NoiseError>)
      requires Aead(c) && Reached(View())
      modifies Repr()
      ensures match Read(c, old(View()), m)
              case Err(x) => r == Err(x) && View() == ReadLeaves(c, old(View()), m)
              case Ok((x, payload)) => r == Ok(payload) && View() == x
    {
      hide ReadKeys, Handshakes.DecryptAndHash, Aead;
      if step > 3 || OurTurn(View()) {
        return Err(OutOfOrder);
      }
      if |m| < Overhead(step) {
        return Err(BadMessage);
      }
      var rest := TakeKeys(c, m);
      if rest.Err? {
        return Err(rest.error);
      }
      var payload := symmetric.DecryptAndHash(c, rest.value);
      if payload.Err? {
        return Err(payload.error);
      }
      step := step + 1;
      r := Ok(payload.value);
    }

    /** Splits into the transport and the peer's static key. */
    method Split(c: Suite) returns (r: Result<(TransportState, Key), NoiseError>)
      ensures match IntoTransport(c, View())
              case Err(x) => r == Err(x)
              case Ok((t, rs, h)) => r.Ok? && fresh(r.value.0) && r.value.0.Valid() && r.value.0.View() == t && r.value.1 == rs && r.value.0.hash == h
    {
      hide Hkdf2;
      if step <= 3 || rs.None? {
        return Err(OutOfOrder);
      }
      var (k1, k2) := Hkdf2(c, symmetric.ck, []);
      var c1 := new CipherState();
      var c2 := new CipherState();
      c1.InitializeKey(k1);
      c2.InitializeKey(k2);
      var t;
      if initiator {
        t := new TransportState(c1, c2, symmetric.h);
      } else {
        t := new TransportState(c2, c1, symmetric.h);
      }
      r := Ok((t, rs.value));
    }
  }

  /** Nothing sealed yet under the current key: sealing cannot fail. */
  lemma FreshKeySeals(c: Suite, s: Sym, p: seq<byte>)
    requires s.cipher.n == 0
    ensures Handshakes.EncryptAndHash(c, s, p).Ok?
  {
  }

  lemma WriteKeysKeepsStep(c: Suite, x: Shake)
    ensures WriteKeys(c, x).Ok? ==> WriteKeys(c, x).value.0.step == x.step
    ensures WriteKeys(c, x).Ok? && Reached(x) && x.step <= 3 ==> WriteKeys(c, x).value.0.sym.cipher.n == 0
  {
  }
}
