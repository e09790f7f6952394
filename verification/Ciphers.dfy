/**
  Cipher and transport states (core/src/noise/cipher.rs and
  core/src/noise/transport.rs; section 5.1 of the Noise Protocol Framework,
  revision 34). The primitives are parameters; what is assumed of them is stated.
 */
module Ciphers {
  import opened Base
  import opened Items
  import opened IdSums

  /** Keys, public keys, hashes: 32 octets. */
  type Key = Id

  const TAG_SIZE: nat := 16
  const REKEY_INTERVAL: nat := 1024

  datatype NoiseError = NonceExhausted | DecryptFailed | OutOfOrder | BadMessage

  /** The primitives: hash, keyed hash, authenticated encryption, key agreement. */
  datatype Suite = Suite(
    sha: Hash,
    mac: (Key, seq<byte>) -> Key,
    seal: (Key, u64, seq<byte>, seq<byte>) -> seq<byte>,
    open: (Key, u64, seq<byte>, seq<byte>) -> Option<seq<byte>>,
    public: Key -> Key,
    dh: (Key, Key) -> Key)

  /** Sealing adds a tag, opening undoes sealing and nothing shorter than a tag opens. */
  ghost predicate Aead(c: Suite) {
    && (forall k, n, ad, p :: |c.seal(k, n, ad, p)| == |p| + TAG_SIZE)
    && (forall k, n, ad, p :: c.open(k, n, ad, c.seal(k, n, ad, p)) == Some(p))
    && (forall k, n, ad, x :: c.open(k, n, ad, x).Some? ==> |x| == |c.open(k, n, ad, x).value| + TAG_SIZE)
  }

  /** A key, if one is set, and the nonce of the next message. */
  datatype Cipher = Cipher(k: Option<Key>, n: u64)

  const BLANK: Cipher := Cipher(None, 0)

  function Encrypt(c: Suite, s: Cipher, ad: seq<byte>, p: seq<byte>): Result<(Cipher, seq<byte>), NoiseError> {
    if s.k.None? then Ok((s, p))
    else if s.n == U64_MAX then Err(NonceExhausted)
    else Ok((s.(n := s.n + 1), c.seal(s.k.value, s.n, ad, p)))
  }

  function Decrypt(c: Suite, s: Cipher, ad: seq<byte>, x: seq<byte>): Result<(Cipher, seq<byte>), NoiseError> {
    if s.k.None? then Ok((s, x))
    else if s.n == U64_MAX then Err(NonceExhausted)
    else
      match c.open(s.k.value, s.n, ad, x)
      case None => Err(DecryptFailed)
      case Some(p) => Ok((s.(n := s.n + 1), p))
  }

  /** The next key: the start of 32 zeros sealed under the reserved nonce. */
  function NextKey(c: Suite, k: Key): Key
    requires Aead(c)
  {
    c.seal(k, U64_MAX, [], seq(32, _ => 0))[..32]
  }

  /** Rekeys before a message whose nonce is a nonzero multiple of the interval; the nonce runs on. */
  function RekeyIfDue(c: Suite, s: Cipher): Cipher
    requires Aead(c)
  {
    if s.n > 0 && s.n % REKEY_INTERVAL == 0 && s.k.Some? then s.(k := Some(NextKey(c, s.k.value))) else s
  }

  class CipherState {
    var k: Option<Key>
    var n: u64

    function View(): Cipher
      reads this
    {
      Cipher(k, n)
    }

    constructor ()
      ensures View() == BLANK
    {
      k, n := None, 0;
    }

    method InitializeKey(key: Key)
      modifies this
      ensures View() == Cipher(Some(key), 0)
    {
      k, n := Some(key), 0;
    }

    method EncryptWithAd(c: Suite, ad: seq<byte>, plaintext: seq<byte>) returns (r: Result<seq<byte>, NoiseError>)
      modifies this
      ensures match Encrypt(c, old(View()), ad, plaintext)
              case Err(e) => r == Err(e) && View() == old(View())
              case Ok((s, x)) => r == Ok(x) && View() == s
    {
      if k.None? {
        return Ok(plaintext);
      }
      if n == U64_MAX {
        return Err(NonceExhausted);
      }
      var ciphertext := c.seal(k.value, n, ad, plaintext);
      n := n + 1;
      r := Ok(ciphertext);
    }

    /** On failure the nonce is left unchanged. */
    method DecryptWithAd(c: Suite, ad: seq<byte>, ciphertext: seq<byte>) returns (r: Result<seq<byte>, NoiseError>)
      modifies this
      ensures match Decrypt(c, old(View()), ad, ciphertext)
              case Err(e) => r == Err(e) && View() == old(View())
              case Ok((s, p)) => r == Ok(p) && View() == s
    {
      if k.None? {
        return Ok(ciphertext);
      }
      if n == U64_MAX {
        return Err(NonceExhausted);
      }
      var plaintext := c.open(k.value, n, ad, ciphertext);
      if plaintext.None? {
        return Err(DecryptFailed);
      }
      n := n + 1;
      r := Ok(plaintext.value);
    }

    /** Replaces the key by the start of 32 zeros sealed under it; resets the nonce, as setting any key does. */
    method Rekey(c: Suite)
      requires Aead(c)
      modifies this
      ensures old(k).None? ==> View() == old(View())
      ensures old(k).Some? ==> n == 0 && k == Some(c.seal(old(k).value, 0xFFFF_FFFF_FFFF_FFFF, [], seq(32, _ => 0))[..32])
    {
      if k.None? {
        return;
      }
      var block := c.seal(k.value, U64_MAX, [], seq(32, _ => 0));
      InitializeKey(block[..32]);
    }

    method RekeyPreservingNonce(c: Suite)
      requires Aead(c)
      modifies this
      ensures old(k).None? ==> View() == old(View())
      ensures old(k).Some? ==> n == old(n) && k == Some(c.seal(old(k).value, 0xFFFF_FFFF_FFFF_FFFF, [], seq(32, _ => 0))[..32])
    {
      var nonce := n;
      Rekey(c);
      n := nonce;
    }
  }

  /* ----- transport ----- */

  /** Both directions of a session; `failed` is set by the first decryption failure. */
  datatype Transport = Transport(send: Cipher, recv: Cipher, failed: bool)

  function Send(c: Suite, t: Transport, p: seq<byte>): (Transport, Result<seq<byte>, NoiseError>)
    requires Aead(c)
  {
    if t.failed then (t, Err(DecryptFailed))
    else
      var s := RekeyIfDue(c, t.send);
      match Encrypt(c, s, [], p)
      case Err(e) => (t.(send := s), Err(e))
      case Ok((s', x)) => (t.(send := s'), Ok(x))
  }

  function Receive(c: Suite, t: Transport, x: seq<byte>): (Transport, Result<seq<byte>, NoiseError>)
    requires Aead(c)
  {
    if t.failed then (t, Err(DecryptFailed))
    else
      var s := RekeyIfDue(c, t.recv);
      match Decrypt(c, s, [], x)
      case Err(e) => (t.(recv := s, failed := true), Err(e))
      case Ok((s', p)) => (t.(recv := s'), Ok(p))
  }

  class TransportState {
    const sender: CipherState
    const receiver: CipherState
    const hash: Key
    var failed: bool

    ghost predicate Valid()
    {
      sender != receiver
    }

    function View(): Transport
      reads this, sender, receiver
    {
      Transport(sender.View(), receiver.View(), failed)
    }

    constructor (send: CipherState, recv: CipherState, h: Key)
      requires send != recv
      ensures Valid() && View() == Transport(send.View(), recv.View(), false)
      ensures sender == send && receiver == recv && hash == h
    {
      sender, receiver, hash, failed := send, recv, h, false;
    }

    static method RekeyWhenDue(c: Suite, cipher: CipherState)
      requires Aead(c)
      modifies cipher
      ensures cipher.View() == RekeyIfDue(c, old(cipher.View()))
    {
      if cipher.n > 0 && cipher.n % REKEY_INTERVAL == 0 {
        cipher.RekeyPreservingNonce(c);
      }
    }

    method EncryptMessage(c: Suite, plaintext: seq<byte>) returns (r: Result<seq<byte>, NoiseError>)
      requires Aead(c) && Valid()
      modifies sender
      ensures (View(), r) == Send(c, old(View()), plaintext)
    {
      if failed {
        return Err(DecryptFailed);
      }
      RekeyWhenDue(c, sender);
      r := sender.EncryptWithAd(c, [], plaintext);
    }

    /** Any error is terminal: the state refuses everything afterwards. */
    method DecryptMessage(c: Suite, ciphertext: seq<byte>) returns (r: Result<seq<byte>, NoiseError>)
      requires Aead(c) && Valid()
      modifies this, receiver
      ensures (View(), r) == Receive(c, old(View()), ciphertext)
    {
      if failed {
        return Err(DecryptFailed);
      }
      RekeyWhenDue(c, receiver);
      r := receiver.DecryptWithAd(c, [], ciphertext);
      if r.Err? {
        failed := true;
      }
    }
  }

  /* ----- the rekey schedule ----- */

  /** The key after `i` rekeys. */
  function KeyAt(c: Suite, k: Key, i: nat): Key
    requires Aead(c)
  {
    if i == 0 then k else NextKey(c, KeyAt(c, k, i - 1))
  }

  /** The key message `n` of a direction is sealed with. */
  function MessageKey(c: Suite, k: Key, n: nat): Key
    requires Aead(c)
  {
    KeyAt(c, k, n / REKEY_INTERVAL)
  }

  /** `keys` starts with `k`, and each key is the start of 32 zeros sealed under the one before and the last nonce. */
  ghost predicate Rekeys(c: Suite, k: Key, keys: nat -> Key)
    requires Aead(c)
  {
    keys(0) == k && forall i: nat :: i > 0 ==> keys(i) == c.seal(keys(i - 1), 0xFFFF_FFFF_FFFF_FFFF, [], seq(32, _ => 0))[..32]
  }

  /** Message `n` is under the `n / 1024`-th such key. */
  lemma ScheduleIs(c: Suite, k: Key, keys: nat -> Key, n: nat)
    requires Aead(c) && Rekeys(c, k, keys)
    ensures MessageKey(c, k, n) == keys(n / 1024)
  {
    hide Aead, Rekeys;
    KeysAre(c, k, keys, n / 1024);
  }

  lemma {:induction false} KeysAre(c: Suite, k: Key, keys: nat -> Key, i: nat)
    requires Aead(c) && Rekeys(c, k, keys)
    ensures KeyAt(c, k, i) == keys(i)
  {
    if i > 0 {
      KeysAre(c, k, keys, i - 1);
    }
  }

  /** There are such keys, from any start. */
  lemma SomeKeys(c: Suite, k: Key) returns (keys: nat -> Key)
    requires Aead(c)
    ensures Rekeys(c, k, keys)
  {
    keys := (i: nat) => if Aead(c) then KeyAt(c, k, i) else k;
  }

  /** A direction whose next nonce is `n` and that started with `k`. */
  ghost predicate InStep(c: Suite, s: Cipher, k: Key)
    requires Aead(c)
  {
    s.k == Some(KeyAt(c, k, if s.n == 0 then 0 else (s.n - 1) / REKEY_INTERVAL))
  }

  /** Right before message `n` the key is the one for message `n`. */
  lemma RekeyOnTime(c: Suite, s: Cipher, k: Key)
    requires Aead(c) && InStep(c, s, k)
    ensures RekeyIfDue(c, s) == Cipher(Some(MessageKey(c, k, s.n)), s.n)
  {
    hide NextKey, Aead;
    if s.n > 0 {
      Intervals(s.n);
    }
  }

  lemma Intervals(n: nat)
    requires n > 0
    ensures n / REKEY_INTERVAL == (n - 1) / REKEY_INTERVAL + if n % REKEY_INTERVAL == 0 then 1 else 0
  {
  }

  /** The two directions keep their schedules for as long as the state is usable. */
  ghost predicate OnSchedule(c: Suite, t: Transport, ks: Key, kr: Key)
    requires Aead(c)
  {
    !t.failed ==> InStep(c, t.send, ks) && InStep(c, t.recv, kr)
  }

  /** Whatever is asked of a transport state, each success is under exactly the scheduled key. */
  lemma SendOnSchedule(c: Suite, t: Transport, ks: Key, kr: Key, p: seq<byte>)
    requires Aead(c) && OnSchedule(c, t, ks, kr)
    ensures var (t', r) := Send(c, t, p);
            && OnSchedule(c, t', ks, kr) && t'.failed == t.failed && t'.recv == t.recv
            && (r.Ok? <==> !t.failed && t.send.n < U64_MAX)
            && (r.Ok? ==> r.value == c.seal(MessageKey(c, ks, t.send.n), t.send.n, [], p) && t'.send.n == t.send.n + 1)
  {
    hide KeyAt, Aead;
    if !t.failed {
      RekeyOnTime(c, t.send, ks);
      StepOn(c, t.send.n, ks);
    }
  }

  /** At the last nonce no rekey is due. */
  lemma StepOn(c: Suite, n: u64, k: Key)
    requires Aead(c)
    ensures n < U64_MAX ==> InStep(c, Cipher(Some(MessageKey(c, k, n)), n + 1), k)
    ensures n == U64_MAX ==> InStep(c, Cipher(Some(MessageKey(c, k, n)), n), k)
  {
    hide KeyAt, Aead;
    if n == U64_MAX {
      Intervals(n);
    }
  }

  lemma ReceiveOnSchedule(c: Suite, t: Transport, ks: Key, kr: Key, x: seq<byte>)
    requires Aead(c) && OnSchedule(c, t, ks, kr)
    ensures var (t', r) := Receive(c, t, x);
            && OnSchedule(c, t', ks, kr) && t'.send == t.send
            && (t'.failed <==> r.Err?)
            && (r.Ok? ==> t.recv.n < U64_MAX && t'.recv.n == t.recv.n + 1
                          && c.open(MessageKey(c, kr, t.recv.n), t.recv.n, [], x) == Some(r.value))
  {
    hide KeyAt, Aead;
    if !t.failed {
      RekeyOnTime(c, t.recv, kr);
      StepOn(c, t.recv.n, kr);
    }
  }

  /** Once failed, always refused and unchanged: no second rekey is ever used. */
  lemma FailedIsFinal(c: Suite, t: Transport, p: seq<byte>)
    requires Aead(c) && t.failed
    ensures Send(c, t, p) == (t, Err(DecryptFailed)) && Receive(c, t, p) == (t, Err(DecryptFailed))
  {
  }

  /* ----- whole conversations ----- */

  /** Sends messages in order. */
  function SendAll(c: Suite, t: Transport, ps: seq<seq<byte>>): (Transport, seq<Result<seq<byte>, NoiseError>>)
    requires Aead(c)
  {
    if ps == [] then (t, [])
    else
      var (t', rs) := SendAll(c, t, ps[..|ps| - 1]);
      var (t'', r) := Send(c, t', ps[|ps| - 1]);
      (t'', rs + [r])
  }

  function ReceiveAll(c: Suite, t: Transport, xs: seq<seq<byte>>): (Transport, seq<Result<seq<byte>, NoiseError>>)
    requires Aead(c)
  {
    if xs == [] then (t, [])
    else
      var (t', rs) := ReceiveAll(c, t, xs[..|xs| - 1]);
      var (t'', r) := Receive(c, t', xs[|xs| - 1]);
      (t'', rs + [r])
  }

  /** Message `i` of a direction that started with `k`. */
  function Sealed(c: Suite, k: Key, ps: seq<seq<byte>>): (xs: seq<seq<byte>>)
    requires Aead(c) && |ps| <= U64_MAX
    ensures |xs| == |ps|
  {
    seq(|ps|, i requires 0 <= i < |ps| => c.seal(MessageKey(c, k, i), i, [], ps[i]))
  }

  ghost predicate Fresh(t: Transport, ks: Key, kr: Key) {
    t == Transport(Cipher(Some(ks), 0), Cipher(Some(kr), 0), false)
  }

  /** A fresh sender seals message `i` under the `i / 1024`-times rekeyed key, for every `i` below 2^64 - 1. */
  lemma {:induction false} SendsSchedule(c: Suite, t: Transport, ks: Key, kr: Key, ps: seq<seq<byte>>)
    requires Aead(c) && Fresh(t, ks, kr) && |ps| <= U64_MAX
    ensures var (t', rs) := SendAll(c, t, ps);
            && OnSchedule(c, t', ks, kr) && !t'.failed && t'.send.n == |ps|
            && |rs| == |ps| && forall i :: 0 <= i < |ps| ==> rs[i] == Ok(Sealed(c, ks, ps)[i])
  {
    hide Aead, KeyAt, Send;
    if ps == [] {
      FreshOnSchedule(c, t, ks, kr);
    } else {
      var n := |ps| - 1;
      SendsSchedule(c, t, ks, kr, ps[..n]);
      var (t', rs) := SendAll(c, t, ps[..n]);
      SendOnSchedule(c, t', ks, kr, ps[n]);
    }
  }

  lemma FreshOnSchedule(c: Suite, t: Transport, ks: Key, kr: Key)
    requires Aead(c) && Fresh(t, ks, kr)
    ensures OnSchedule(c, t, ks, kr)
  {
  }

  /** The honest peer decrypts every message of an ordered stream. */
  lemma {:induction false} ReceivesSchedule(c: Suite, t: Transport, ks: Key, kr: Key, ps: seq<seq<byte>>)
    requires Aead(c) && Fresh(t, ks, kr) && |ps| <= U64_MAX
    ensures var (t', rs) := ReceiveAll(c, t, Sealed(c, kr, ps));
            && OnSchedule(c, t', ks, kr) && !t'.failed && t'.recv.n == |ps|
            && |rs| == |ps| && forall i :: 0 <= i < |ps| ==> rs[i] == Ok(ps[i])
  {
    hide Aead, KeyAt;
    if ps == [] {
      FreshOnSchedule(c, t, ks, kr);
    } else {
      var n := |ps| - 1;
      var xs := Sealed(c, kr, ps);
      assert xs[..n] == Sealed(c, kr, ps[..n]);
      ReceivesSchedule(c, t, ks, kr, ps[..n]);
      var (t', rs) := ReceiveAll(c, t, xs[..n]);
      ReceiveSealed(c, t', ks, kr, ps[n]);
    }
  }

  lemma ReceiveSealed(c: Suite, t: Transport, ks: Key, kr: Key, p: seq<byte>)
    requires Aead(c) && OnSchedule(c, t, ks, kr) && !t.failed && t.recv.n < U64_MAX
    ensures var (t', r) := Receive(c, t, c.seal(MessageKey(c, kr, t.recv.n), t.recv.n, [], p));
            r == Ok(p) && !t'.failed && t'.recv.n == t.recv.n + 1 && OnSchedule(c, t', ks, kr)
  {
    hide KeyAt;
    ReceiveOnSchedule(c, t, ks, kr, c.seal(MessageKey(c, kr, t.recv.n), t.recv.n, [], p));
    RekeyOnTime(c, t.recv, kr);
  }

  /** Lockstep: what one side sends in order, the other reads in order, message by message. */
  lemma Lockstep(c: Suite, a: Transport, b: Transport, k1: Key, k2: Key, ps: seq<seq<byte>>)
    requires Aead(c) && Fresh(a, k1, k2) && Fresh(b, k2, k1) && |ps| <= U64_MAX
    ensures var sent := SendAll(c, a, ps).1;
            && (forall i :: 0 <= i < |sent| ==> sent[i].Ok?) && |sent| == |ps|
            && var xs := seq(|sent|, i requires 0 <= i < |sent| => sent[i].value);
            && |ReceiveAll(c, b, xs).1| == |ps|
            && forall i :: 0 <= i < |ps| ==> ReceiveAll(c, b, xs).1[i] == Ok(ps[i])
  {
    hide Aead, KeyAt, SendAll, ReceiveAll;
    SendsSchedule(c, a, k1, k2, ps);
    var sent := SendAll(c, a, ps).1;
    var xs := seq(|sent|, i requires 0 <= i < |sent| => sent[i].value);
    assert xs == Sealed(c, k1, ps);
    ReceivesSchedule(c, b, k2, k1, ps);
  }
}
