/**
  Whole lives of transport states (core/src/noise/transport.rs): one side under
  any interleaving of sends and receives, hostile bytes included, and two sides
  talking over ordered channels in both directions at once.
 */
module Channels {
  import opened Base
  import opened Ciphers
  import opened Handshakes

  type Bytes = seq<byte>

  /** One call of a transport state. */
  datatype Call = Say(plaintext: Bytes) | Hear(ciphertext: Bytes)

  function Perform(c: Suite, t: Transport, call: Call): (Transport, Result<Bytes, NoiseError>)
    requires Aead(c)
  {
    match call
    case Say(p) => Send(c, t, p)
    case Hear(x) => Receive(c, t, x)
  }

  /** A sequence of calls, and every result. */
  function Play(c: Suite, t: Transport, calls: seq<Call>): (r: (Transport, seq<Result<Bytes, NoiseError>>))
    requires Aead(c)
    ensures |r.1| == |calls|
  {
    if calls == [] then (t, [])
    else
      var (t', rs) := Play(c, t, calls[..|calls| - 1]);
      var (t'', r) := Perform(c, t', calls[|calls| - 1]);
      (t'', rs + [r])
  }

  /** How many of the calls are sends, and how many receives. */
  function Says(calls: seq<Call>): nat {
    if calls == [] then 0 else Says(calls[..|calls| - 1]) + if calls[|calls| - 1].Say? then 1 else 0
  }

  function Hears(calls: seq<Call>): nat {
    if calls == [] then 0 else Hears(calls[..|calls| - 1]) + if calls[|calls| - 1].Hear? then 1 else 0
  }

  /** The nonce after so many messages of a direction; the last one is reserved. */
  function NonceAfter(n: nat): u64 {
    if n < U64_MAX then n else U64_MAX
  }

  /** What a call is answered while no receive has failed, from the keys of the two directions alone. */
  function Scheduled(c: Suite, send: nat -> Key, recv: nat -> Key, before: seq<Call>, call: Call): Result<Bytes, NoiseError> {
    match call
    case Say(p) =>
      var n := NonceAfter(Says(before));
      if n == U64_MAX then Err(NonceExhausted) else Ok(c.seal(send(n / 1024), n, [], p))
    case Hear(x) =>
      var n := NonceAfter(Hears(before));
      if n == U64_MAX then Err(NonceExhausted)
      else
        match c.open(recv(n / 1024), n, [], x)
        case None => Err(DecryptFailed)
        case Some(p) => Ok(p)
  }

  /** Some earlier receive was answered with an error. */
  ghost predicate FailedBy(calls: seq<Call>, rs: seq<Result<Bytes, NoiseError>>, i: nat)
    requires |rs| == |calls| && i <= |calls|
  {
    exists j :: 0 <= j < i && calls[j].Hear? && rs[j].Err?
  }

  /** The state after these calls: failed, or exactly on both schedules. */
  ghost predicate Tracks(c: Suite, t: Transport, ks: Key, kr: Key, calls: seq<Call>, rs: seq<Result<Bytes, NoiseError>>)
    requires Aead(c) && |rs| == |calls|
  {
    if FailedBy(calls, rs, |calls|) then t.failed
    else
      && !t.failed && OnSchedule(c, t, ks, kr)
      && t.send.n == NonceAfter(Says(calls)) && t.recv.n == NonceAfter(Hears(calls))
  }

  lemma PerformTracks(c: Suite, t: Transport, ks: Key, kr: Key, send: nat -> Key, recv: nat -> Key,
                      calls: seq<Call>, rs: seq<Result<Bytes, NoiseError>>, call: Call)
    requires Aead(c) && |rs| == |calls| && Tracks(c, t, ks, kr, calls, rs) && Rekeys(c, ks, send) && Rekeys(c, kr, recv)
    ensures var (t', r) := Perform(c, t, call);
            && r == (if FailedBy(calls, rs, |calls|) then Err(DecryptFailed) else Scheduled(c, send, recv, calls, call))
            && Tracks(c, t', ks, kr, calls + [call], rs + [r])
  {
    hide Aead, KeyAt, Says, Hears, Rekeys;
    ScheduleIs(c, ks, send, t.send.n);
    ScheduleIs(c, kr, recv, t.recv.n);
    var (t', r) := Perform(c, t, call);
    var calls', rs' := calls + [call], rs + [r];
    CountNext(calls, call);
    FailedNext(calls, rs, call, r);
    if t.failed {
      FailedIsFinal(c, t, if call.Say? then call.plaintext else call.ciphertext);
    } else if call.Say? {
      SendOnSchedule(c, t, ks, kr, call.plaintext);
      if t.send.n == U64_MAX {
        SendAnswers(c, t, ks, kr, call.plaintext);
      }
    } else {
      ReceiveOnSchedule(c, t, ks, kr, call.ciphertext);
      ReceiveAnswers(c, t, ks, kr, call.ciphertext);
    }
  }

  lemma CountNext(calls: seq<Call>, call: Call)
    ensures Says(calls + [call]) == Says(calls) + if call.Say? then 1 else 0
    ensures Hears(calls + [call]) == Hears(calls) + if call.Hear? then 1 else 0
  {
    assert (calls + [call])[..|calls|] == calls;
  }

  lemma FailedNext(calls: seq<Call>, rs: seq<Result<Bytes, NoiseError>>, call: Call, r: Result<Bytes, NoiseError>)
    requires |rs| == |calls|
    ensures FailedBy(calls + [call], rs + [r], |calls| + 1) <==> FailedBy(calls, rs, |calls|) || (call.Hear? && r.Err?)
  {
    var calls', rs' := calls + [call], rs + [r];
    if FailedBy(calls, rs, |calls|) {
      var j :| 0 <= j < |calls| && calls[j].Hear? && rs[j].Err?;
      assert calls'[j].Hear? && rs'[j].Err?;
    }
    if call.Hear? && r.Err? {
      assert calls'[|calls|].Hear? && rs'[|calls|].Err?;
    }
  }

  lemma SendAnswers(c: Suite, t: Transport, ks: Key, kr: Key, p: Bytes)
    requires Aead(c) && !t.failed && OnSchedule(c, t, ks, kr) && t.send.n == U64_MAX
    ensures Send(c, t, p).1 == Err(NonceExhausted) && Send(c, t, p).0.send.n == U64_MAX
  {
    hide Aead, KeyAt;
    RekeyOnTime(c, t.send, ks);
  }

  lemma ReceiveAnswers(c: Suite, t: Transport, ks: Key, kr: Key, x: Bytes)
    requires Aead(c) && !t.failed && OnSchedule(c, t, ks, kr)
    ensures Receive(c, t, x).1 ==
            if t.recv.n == U64_MAX then Err(NonceExhausted)
            else match c.open(MessageKey(c, kr, t.recv.n), t.recv.n, [], x)
                 case None => Err(DecryptFailed)
                 case Some(p) => Ok(p)
  {
    hide Aead, KeyAt;
    RekeyOnTime(c, t.recv, kr);
  }

  /**
    Any interleaving of sends and receives, whatever bytes are received: until a
    receive fails every call is answered from the two key schedules alone, send
    `n` under the sending key rekeyed `n / 1024` times and receive `n` likewise;
    from the first failed receive on, every call is refused.
   */
  lemma {:induction false} AnyInterleaving(c: Suite, t: Transport, ks: Key, kr: Key, send: nat -> Key, recv: nat -> Key, calls: seq<Call>)
    requires Aead(c) && Ciphers.Fresh(t, ks, kr) && Rekeys(c, ks, send) && Rekeys(c, kr, recv)
    ensures var (t', rs) := Play(c, t, calls);
            && Tracks(c, t', ks, kr, calls, rs)
            && forall i :: 0 <= i < |calls| ==>
                 rs[i] == if FailedBy(calls, rs, i) then Err(DecryptFailed) else Scheduled(c, send, recv, calls[..i], calls[i])
  {
    hide Aead, KeyAt, Says, Hears, Perform, Scheduled, Tracks, Rekeys;
    if calls == [] {
      NothingPlayed(c, t, ks, kr);
    } else {
      var n := |calls| - 1;
      var before := calls[..n];
      AnyInterleaving(c, t, ks, kr, send, recv, before);
      var (t', rs) := Play(c, t, before);
      PerformTracks(c, t', ks, kr, send, recv, before, rs, calls[n]);
      assert calls == before + [calls[n]];
      var all := Play(c, t, calls).1;
      forall i | 0 <= i <= n ensures all[i] == if FailedBy(calls, all, i) then Err(DecryptFailed) else Scheduled(c, send, recv, calls[..i], calls[i]) {
        assert FailedBy(calls, all, i) <==> FailedBy(before, rs, i) by { FailedSame(calls, all, before, rs, i); }
        if i < n {
          assert before[..i] == calls[..i];
        }
      }
    }
  }

  lemma FailedSame(calls: seq<Call>, all: seq<Result<Bytes, NoiseError>>, before: seq<Call>, rs: seq<Result<Bytes, NoiseError>>, i: nat)
    requires |all| == |calls| && |rs| == |before| && before <= calls && rs <= all && i <= |before|
    ensures FailedBy(calls, all, i) <==> FailedBy(before, rs, i)
  {
  }

  lemma NothingPlayed(c: Suite, t: Transport, ks: Key, kr: Key)
    requires Aead(c) && Ciphers.Fresh(t, ks, kr)
    ensures Tracks(c, t, ks, kr, [], [])
  {
    FreshOnSchedule(c, t, ks, kr);
  }

  /** A failed state never changes again. */
  lemma {:induction false} FailedForever(c: Suite, t: Transport, calls: seq<Call>)
    requires Aead(c) && t.failed
    ensures Play(c, t, calls).0 == t && forall i :: 0 <= i < |calls| ==> Play(c, t, calls).1[i] == Err(DecryptFailed)
  {
    hide Aead;
    if calls != [] {
      var n := |calls| - 1;
      FailedForever(c, t, calls[..n]);
      FailedIsFinal(c, t, if calls[n].Say? then calls[n].plaintext else calls[n].ciphertext);
    }
  }

  /* ----- two sides ----- */

  /** Each side's state, the ciphertexts under way, and the plaintexts said and heard so far. */
  datatype Talk = Talk(
    a: Transport, b: Transport,
    ab: seq<Bytes>, ba: seq<Bytes>,
    saidA: seq<Bytes>, saidB: seq<Bytes>,
    heardA: seq<Bytes>, heardB: seq<Bytes>)

  datatype Turn = SayA(p: Bytes) | SayB(p: Bytes) | HearA | HearB

  function Swap(k: Talk): Talk {
    Talk(k.b, k.a, k.ba, k.ab, k.saidB, k.saidA, k.heardB, k.heardA)
  }

  /** `a` says something; a refused message goes nowhere. */
  function TurnSay(c: Suite, k: Talk, p: Bytes): Talk
    requires Aead(c)
  {
    var (t, r) := Send(c, k.a, p);
    if r.Ok? then k.(a := t, ab := k.ab + [r.value], saidA := k.saidA + [p]) else k.(a := t)
  }

  /** `a` hears the oldest message under way to it. */
  function TurnHear(c: Suite, k: Talk): Talk
    requires Aead(c)
  {
    if k.ba == [] then k
    else
      var (t, r) := Receive(c, k.a, k.ba[0]);
      if r.Ok? then k.(a := t, ba := k.ba[1..], heardA := k.heardA + [r.value]) else k.(a := t, ba := k.ba[1..])
  }

  function Take(c: Suite, k: Talk, turn: Turn): Talk
    requires Aead(c)
  {
    match turn
    case SayA(p) => TurnSay(c, k, p)
    case SayB(p) => Swap(TurnSay(c, Swap(k), p))
    case HearA => TurnHear(c, k)
    case HearB => Swap(TurnHear(c, Swap(k)))
  }

  function Converse(c: Suite, k: Talk, turns: seq<Turn>): Talk
    requires Aead(c)
  {
    if turns == [] then k else Take(c, Converse(c, k, turns[..|turns| - 1]), turns[|turns| - 1])
  }

  /** One direction: what is under way is exactly what was said and not yet heard, sealed on schedule. */
  ghost predicate Flows(c: Suite, k: Key, n: nat, m: nat, under: seq<Bytes>, said: seq<Bytes>, heard: seq<Bytes>)
    requires Aead(c)
  {
    && n == |said| <= U64_MAX && m == |heard| && |said| == |heard| + |under| && heard == said[..m]
    && forall i :: 0 <= i < |under| ==> under[i] == c.seal(MessageKey(c, k, m + i), m + i, [], said[m + i])
  }

  ghost predicate InTouch(c: Suite, k: Talk, k1: Key, k2: Key)
    requires Aead(c)
  {
    && !k.a.failed && !k.b.failed && OnSchedule(c, k.a, k1, k2) && OnSchedule(c, k.b, k2, k1)
    && Flows(c, k1, k.a.send.n, k.b.recv.n, k.ab, k.saidA, k.heardB)
    && Flows(c, k2, k.b.send.n, k.a.recv.n, k.ba, k.saidB, k.heardA)
  }

  lemma SayFlows(c: Suite, k: Talk, k1: Key, k2: Key, p: Bytes)
    requires Aead(c) && InTouch(c, k, k1, k2)
    ensures InTouch(c, TurnSay(c, k, p), k1, k2)
  {
    hide Aead, KeyAt, Send;
    SendOnSchedule(c, k.a, k1, k2, p);
    if k.a.send.n < U64_MAX {
      var k' := TurnSay(c, k, p);
      assert k'.saidA[..|k'.heardB|] == k.saidA[..|k.heardB|];
    } else {
      SendAnswers(c, k.a, k1, k2, p);
    }
  }

  lemma HearFlows(c: Suite, k: Talk, k1: Key, k2: Key)
    requires Aead(c) && InTouch(c, k, k1, k2)
    ensures InTouch(c, TurnHear(c, k), k1, k2)
    ensures k.ba != [] ==> TurnHear(c, k).heardA == k.heardA + [k.saidB[|k.heardA|]]
  {
    hide Aead, KeyAt, Receive;
    if k.ba != [] {
      var m, p := k.a.recv.n, k.saidB[k.a.recv.n];
      assert k.ba[0] == c.seal(MessageKey(c, k2, m), m, [], p);
      ReceiveOnSchedule(c, k.a, k1, k2, k.ba[0]);
      ReceiveSealed(c, k.a, k1, k2, p);
      var k' := TurnHear(c, k);
      forall i | 0 <= i < |k'.ba| ensures k'.ba[i] == c.seal(MessageKey(c, k2, m + 1 + i), m + 1 + i, [], k.saidB[m + 1 + i]) {
        assert k'.ba[i] == k.ba[i + 1] && m + 1 + i == m + (i + 1);
      }
      assert k.saidB[..m + 1] == k.saidB[..m] + [p];
    }
  }

  lemma SwapTouch(c: Suite, k: Talk, k1: Key, k2: Key)
    requires Aead(c) && InTouch(c, k, k1, k2)
    ensures InTouch(c, Swap(k), k2, k1)
  {
    hide Aead, OnSchedule, Flows;
  }

  lemma TakeTouch(c: Suite, k: Talk, k1: Key, k2: Key, turn: Turn)
    requires Aead(c) && InTouch(c, k, k1, k2)
    ensures InTouch(c, Take(c, k, turn), k1, k2)
  {
    hide Aead, InTouch, TurnSay, TurnHear;
    SwapTouch(c, k, k1, k2);
    match turn
    case SayA(p) =>
      SayFlows(c, k, k1, k2, p);
    case SayB(p) =>
      SayFlows(c, Swap(k), k2, k1, p);
      SwapTouch(c, TurnSay(c, Swap(k), p), k2, k1);
    case HearA =>
      HearFlows(c, k, k1, k2);
    case HearB =>
      HearFlows(c, Swap(k), k2, k1);
      SwapTouch(c, TurnHear(c, Swap(k)), k2, k1);
  }

  lemma {:induction false} ConverseTouch(c: Suite, k: Talk, k1: Key, k2: Key, turns: seq<Turn>)
    requires Aead(c) && InTouch(c, k, k1, k2)
    ensures InTouch(c, Converse(c, k, turns), k1, k2)
  {
    hide Aead, InTouch, Take;
    if turns != [] {
      ConverseTouch(c, k, k1, k2, turns[..|turns| - 1]);
      TakeTouch(c, Converse(c, k, turns[..|turns| - 1]), k1, k2, turns[|turns| - 1]);
    }
  }

  /** What each side wants to say in these turns. */
  function WordsOf(turns: seq<Turn>, byA: bool): seq<Bytes> {
    if turns == [] then []
    else
      var rest, turn := WordsOf(turns[..|turns| - 1], byA), turns[|turns| - 1];
      if (byA && turn.SayA?) || (!byA && turn.SayB?) then rest + [turn.p] else rest
  }

  /** The messages a direction can carry. */
  function Carried(words: seq<Bytes>): seq<Bytes> {
    if |words| <= U64_MAX then words else words[..U64_MAX]
  }

  lemma SayKeeps(c: Suite, k: Talk, k1: Key, k2: Key, p: Bytes, words: seq<Bytes>)
    requires Aead(c) && InTouch(c, k, k1, k2) && k.saidA == Carried(words)
    ensures TurnSay(c, k, p).saidA == Carried(words + [p]) && TurnSay(c, k, p).saidB == k.saidB
  {
    hide Aead, KeyAt, Send;
    SendOnSchedule(c, k.a, k1, k2, p);
  }

  lemma {:induction false} ConverseSays(c: Suite, k: Talk, k1: Key, k2: Key, turns: seq<Turn>)
    requires Aead(c) && InTouch(c, k, k1, k2) && k.saidA == [] && k.saidB == []
    ensures var k' := Converse(c, k, turns);
            k'.saidA == Carried(WordsOf(turns, true)) && k'.saidB == Carried(WordsOf(turns, false))
  {
    hide Aead, InTouch, TurnSay, Carried;
    if turns == [] {
      assert Carried([]) == [] by { NothingCarried(); }
    } else {
      var before, turn := turns[..|turns| - 1], turns[|turns| - 1];
      ConverseSays(c, k, k1, k2, before);
      ConverseTouch(c, k, k1, k2, before);
      var mid := Converse(c, k, before);
      SwapTouch(c, mid, k1, k2);
      if turn.SayA? {
        SayKeeps(c, mid, k1, k2, turn.p, WordsOf(before, true));
      } else if turn.SayB? {
        SayKeeps(c, Swap(mid), k2, k1, turn.p, WordsOf(before, false));
      }
    }
  }

  lemma NothingCarried()
    ensures Carried([]) == []
  {
  }

  /** Two transports at the start of their session. */
  function Begin(a: Transport, b: Transport): Talk {
    Talk(a, b, [], [], [], [], [], [])
  }

  /**
    After an agreed handshake the two sides may talk in any order, both at once
    and with any number of messages under way: nothing ever fails, each side gets
    out everything it says up to the reserved nonce, and what the other has heard
    is that, in order, except for exactly the messages still under way.
   */
  lemma ConversationIntact(c: Suite, i: Shake, r: Shake, turns: seq<Turn>)
    requires Aead(c) && Matched(c, i, r)
    ensures var k := Converse(c, Begin(IntoTransport(c, i).value.0, IntoTransport(c, r).value.0), turns);
            && !k.a.failed && !k.b.failed
            && k.saidA == Carried(WordsOf(turns, true)) && k.saidB == Carried(WordsOf(turns, false))
            && k.heardB <= k.saidA && |k.saidA| == |k.heardB| + |k.ab|
            && k.heardA <= k.saidB && |k.saidB| == |k.heardA| + |k.ba|
  {
    hide Aead, IntoTransport, Converse, MessageKey, WordsOf, Carried;
    var a, b := IntoTransport(c, i).value.0, IntoTransport(c, r).value.0;
    var k1, k2 :| Ciphers.Fresh(a, k1, k2) && Ciphers.Fresh(b, k2, k1);
    FreshOnSchedule(c, a, k1, k2);
    FreshOnSchedule(c, b, k2, k1);
    ConverseTouch(c, Begin(a, b), k1, k2, turns);
    ConverseSays(c, Begin(a, b), k1, k2, turns);
  }
}
