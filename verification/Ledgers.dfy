/**
  Bookkeeping for the sessions of one link (core/src/sync/session.rs): how far
  each session is, which message it is waiting for, and what that implies for the
  channels and for the two session tables.
 */
module Ledgers {
  import opened Base
  import opened Items
  import opened Reconcile
  import opened Syncers

  /** How far a session is; exactly one message of it is in flight until it is closed. */
  datatype Stage =
    | Opening(first: seq<byte>)
    | Running(b: Party, n: nat, toOpener: bool, msg: seq<byte>, have: seq<Id>, need: seq<Id>)
    | Closing(peer: Party)
    | Closed

  /** A session: the window it covers, the opener's engine, and its stage. */
  datatype Track = Track(since: u64, until: u64, a: Party, stage: Stage)

  /** The sessions opened so far by the even and by the odd side, in order. */
  datatype Ledger = Ledger(even: seq<Track>, odd: seq<Track>)

  function Side(l: Ledger, par: nat): seq<Track> {
    if par == 0 then l.even else l.odd
  }

  function Opens(l: Ledger): nat {
    |l.even| + |l.odd|
  }

  predicate Known(l: Ledger, sid: nat) {
    sid / 2 < |Side(l, sid % 2)|
  }

  function Look(l: Ledger, sid: nat): Track
    requires Known(l, sid)
  {
    Side(l, sid % 2)[sid / 2]
  }

  function NextSid(l: Ledger, par: nat): nat {
    2 * |Side(l, par)| + par
  }

  function Update(l: Ledger, sid: nat, t: Track): (l': Ledger)
    requires Known(l, sid)
    ensures forall s: nat :: Known(l', s) <==> Known(l, s)
    ensures forall s: nat :: Known(l, s) ==> Look(l', s) == if s == sid then t else Look(l, s)
    ensures forall par :: par == 0 || par == 1 ==> NextSid(l', par) == NextSid(l, par)
    ensures Opens(l') == Opens(l)
  {
    if sid % 2 == 0 then l.(even := l.even[sid / 2 := t]) else l.(odd := l.odd[sid / 2 := t])
  }

  function Enter(l: Ledger, par: nat, t: Track): (l': Ledger)
    requires par == 0 || par == 1
    ensures forall s: nat :: Known(l', s) <==> Known(l, s) || s == NextSid(l, par)
    ensures forall s: nat :: Known(l, s) ==> Look(l', s) == Look(l, s)
    ensures !Known(l, NextSid(l, par)) && Look(l', NextSid(l, par)) == t
    ensures NextSid(l', par) == NextSid(l, par) + 2 && NextSid(l', 1 - par) == NextSid(l, 1 - par)
    ensures Opens(l') == Opens(l) + 1
  {
    if par == 0 then l.(even := l.even + [t]) else l.(odd := l.odd + [t])
  }

  /* ----- tokens: the one message of a session that is in flight ----- */

  datatype Token = Token(byOpener: bool, msg: Message)

  function TokenOf(sid: nat, t: Track): Option<Token> {
    match t.stage
    case Opening(first) => Some(Token(true, Init(sid, t.since, t.until, first)))
    case Running(_, _, toOpener, msg, _, _) => Some(Token(!toOpener, Recon(sid, msg)))
    case Closing(_) => Some(Token(true, Close(sid)))
    case Closed => None
  }

  /** The session id of a message that belongs to one. */
  function SidOf(m: Message): nat {
    match m
    case Init(sid, _, _, _) => sid
    case Recon(sid, _) => sid
    case Close(sid) => sid
    case _ => 0
  }

  /** The token of session `sid` travels in the channel written by side `par`. */
  ghost predicate Owes(l: Ledger, sid: nat, par: nat) {
    Known(l, sid) && TokenOf(sid, Look(l, sid)).Some? && TokenOf(sid, Look(l, sid)).value.byOpener == (sid % 2 == par)
  }

  ghost predicate OnDuty(l: Ledger, par: nat, m: Message) {
    Owes(l, SidOf(m), par) && TokenOf(SidOf(m), Look(l, SidOf(m))).value.msg == m
  }

  /** The messages of a channel other than pushes. */
  function Tokens(ch: seq<Message>): seq<Message> {
    if ch == [] then []
    else
      var rest := Tokens(ch[..|ch| - 1]);
      if ch[|ch| - 1].Push? then rest else rest + [ch[|ch| - 1]]
  }

  /** These are exactly the tokens side `par` owes, each once. */
  ghost predicate Carries(l: Ledger, par: nat, toks: seq<Message>) {
    && (forall j :: 0 <= j < |toks| ==> OnDuty(l, par, toks[j]))
    && (forall j, k :: 0 <= j < k < |toks| ==> SidOf(toks[j]) != SidOf(toks[k]))
    && (forall s: nat :: Owes(l, s, par) ==> TokenOf(s, Look(l, s)).value.msg in toks)
  }

  lemma TokensSnoc(ch: seq<Message>, m: Message)
    ensures Tokens(ch + [m]) == if m.Push? then Tokens(ch) else Tokens(ch) + [m]
  {
    assert (ch + [m])[..|ch|] == ch;
  }

  lemma {:induction false} TokensConcat(a: seq<Message>, b: seq<Message>)
    ensures Tokens(a + b) == Tokens(a) + Tokens(b)
  {
    if b == [] {
      assert a + b == a;
    } else {
      var n := |b| - 1;
      assert (a + b)[..|a + b| - 1] == a + b[..n];
      TokensConcat(a, b[..n]);
    }
  }

  lemma TokensHead(ch: seq<Message>)
    requires ch != []
    ensures Tokens(ch) == (if ch[0].Push? then [] else [ch[0]]) + Tokens(ch[1..])
  {
    assert ch == [ch[0]] + ch[1..];
    TokensConcat([ch[0]], ch[1..]);
    TokensSnoc([], ch[0]);
    assert [] + [ch[0]] == [ch[0]];
  }

  lemma {:induction false} TokensOfPushes(ms: seq<Message>)
    requires forall i :: 0 <= i < |ms| ==> ms[i].Push?
    ensures Tokens(ms) == []
  {
    if ms != [] {
      TokensOfPushes(ms[..|ms| - 1]);
    }
  }

  lemma PopToken(l: Ledger, par: nat, toks: seq<Message>, t: Track)
    requires Carries(l, par, toks) && toks != []
    requires !Owes(Update(l, SidOf(toks[0]), t), SidOf(toks[0]), par)
    ensures Carries(Update(l, SidOf(toks[0]), t), par, toks[1..])
  {
    hide TokenOf, Update;
    var sid := SidOf(toks[0]);
    assert OnDuty(l, par, toks[0]);
    var l' := Update(l, sid, t);
    forall j | 0 <= j < |toks[1..]| ensures OnDuty(l', par, toks[1..][j]) {
      assert OnDuty(l, par, toks[j + 1]) && SidOf(toks[j + 1]) != sid;
    }
    forall s: nat | Owes(l', s, par) ensures TokenOf(s, Look(l', s)).value.msg in toks[1..] {
      assert s != sid && Owes(l, s, par);
      TokenSid(s, Look(l, s));
    }
  }

  lemma TokenSid(sid: nat, t: Track)
    requires TokenOf(sid, t).Some?
    ensures SidOf(TokenOf(sid, t).value.msg) == sid && !TokenOf(sid, t).value.msg.Push?
  {
  }

  lemma PushToken(l: Ledger, par: nat, toks: seq<Message>, sid: nat, t: Track)
    requires Carries(l, par, toks) && Known(l, sid) && !Owes(l, sid, par)
    requires Owes(Update(l, sid, t), sid, par)
    ensures Carries(Update(l, sid, t), par, toks + [TokenOf(sid, t).value.msg])
  {
    hide TokenOf, Update;
    var l', m := Update(l, sid, t), TokenOf(sid, t).value.msg;
    TokenSid(sid, t);
    var toks' := toks + [m];
    forall j | 0 <= j < |toks| ensures OnDuty(l', par, toks[j]) && SidOf(toks[j]) != sid {
      assert OnDuty(l, par, toks[j]);
    }
    forall j, k | 0 <= j < k < |toks'| ensures SidOf(toks'[j]) != SidOf(toks'[k]) {
      assert j < |toks| && (k < |toks| || toks'[k] == m);
    }
    forall s: nat | Owes(l', s, par) ensures TokenOf(s, Look(l', s)).value.msg in toks' {
      if s == sid {
        assert toks'[|toks|] == m;
      } else {
        assert Owes(l, s, par);
      }
    }
  }

  lemma IdleToken(l: Ledger, par: nat, toks: seq<Message>, sid: nat, t: Track)
    requires Carries(l, par, toks) && Known(l, sid) && !Owes(l, sid, par)
    requires !Owes(Update(l, sid, t), sid, par)
    ensures Carries(Update(l, sid, t), par, toks)
  {
    hide TokenOf, Update;
    var l' := Update(l, sid, t);
    forall j | 0 <= j < |toks| ensures OnDuty(l', par, toks[j]) {
      assert OnDuty(l, par, toks[j]);
    }
    forall s: nat | Owes(l', s, par) ensures TokenOf(s, Look(l', s)).value.msg in toks {
      assert s != sid && Owes(l, s, par);
    }
  }

  /** Opening a session puts its first token on the opener's channel. */
  lemma EnterToken(l: Ledger, par: nat, toks: seq<Message>, t: Track)
    requires (par == 0 || par == 1) && Carries(l, par, toks) && t.stage.Opening?
    ensures Carries(Enter(l, par, t), par, toks + [Init(NextSid(l, par), t.since, t.until, t.stage.first)])
  {
    hide Enter;
    var l', sid := Enter(l, par, t), NextSid(l, par);
    var m := Init(sid, t.since, t.until, t.stage.first);
    var toks' := toks + [m];
    forall j | 0 <= j < |toks| ensures OnDuty(l', par, toks[j]) && SidOf(toks[j]) != sid {
      assert OnDuty(l, par, toks[j]);
    }
    assert OnDuty(l', par, m);
    forall j, k | 0 <= j < k < |toks'| ensures SidOf(toks'[j]) != SidOf(toks'[k]) {
      assert j < |toks| && (k < |toks| || toks'[k] == m);
    }
    forall s: nat | Owes(l', s, par) ensures TokenOf(s, Look(l', s)).value.msg in toks' {
      if s == sid {
        assert toks'[|toks|] == m;
      } else {
        assert Owes(l, s, par);
      }
    }
  }

  lemma EnterElsewhere(l: Ledger, par: nat, toks: seq<Message>, t: Track)
    requires (par == 0 || par == 1) && Carries(l, 1 - par, toks) && t.stage.Opening?
    ensures Carries(Enter(l, par, t), 1 - par, toks)
  {
    hide Enter;
    var l' := Enter(l, par, t);
    forall j | 0 <= j < |toks| ensures OnDuty(l', 1 - par, toks[j]) {
      assert OnDuty(l, 1 - par, toks[j]);
    }
    forall s: nat | Owes(l', s, 1 - par) ensures TokenOf(s, Look(l', s)).value.msg in toks {
      assert s != NextSid(l, par) && Owes(l, s, 1 - par);
    }
  }

  /* ----- session tables ----- */

  /** Whether the opener (or else the responder) has the session in its table. */
  predicate OpenAt(t: Track, opener: bool) {
    if opener then t.stage.Opening? || t.stage.Running? else t.stage.Running? || t.stage.Closing?
  }

  /** The table entry it then has. */
  function SessionAt(t: Track, opener: bool): Session
    requires OpenAt(t, opener)
  {
    if opener then Session(t.a, if t.stage.Running? then set id | id in t.stage.have else {})
    else Session(if t.stage.Running? then t.stage.b else t.stage.peer, {})
  }

  ghost predicate Listed(l: Ledger, par: nat, k: (bool, nat)) {
    Known(l, k.1) && k.0 == (k.1 % 2 == par) && OpenAt(Look(l, k.1), k.0)
  }

  /** The table of side `par` lists exactly the sessions it should. */
  ghost predicate Tabled(l: Ledger, par: nat, s: SyncState) {
    && Parity(s.initiator) == par && s.nextSid == NextSid(l, par)
    && (forall k :: k in s.sessions <==> Listed(l, par, k))
    && (forall k :: k in s.sessions ==> s.sessions[k] == SessionAt(Look(l, k.1), k.0))
  }

  /** The table after one session moved on. */
  function Reflect(s: SyncState, par: nat, sid: nat, t: Track): SyncState {
    var k := (sid % 2 == par, sid);
    if OpenAt(t, k.0) then s.(sessions := s.sessions[k := SessionAt(t, k.0)]) else s.(sessions := s.sessions - {k})
  }

  lemma TableFollows(l: Ledger, par: nat, s: SyncState, sid: nat, t: Track)
    requires (par == 0 || par == 1) && Tabled(l, par, s) && Known(l, sid)
    ensures Tabled(Update(l, sid, t), par, Reflect(s, par, sid, t))
  {
    hide OpenAt, SessionAt, Update;
    var l', s', key := Update(l, sid, t), Reflect(s, par, sid, t), (sid % 2 == par, sid);
    forall k ensures k in s'.sessions <==> Listed(l', par, k) {
      if k.1 != sid {
        assert k in s'.sessions <==> k in s.sessions;
      }
    }
  }

  /** A side whose view of the session did not change keeps its table. */
  lemma TableStays(l: Ledger, par: nat, s: SyncState, sid: nat, t: Track)
    requires (par == 0 || par == 1) && Tabled(l, par, s) && Known(l, sid)
    requires var opener := sid % 2 == par;
             && OpenAt(t, opener) == OpenAt(Look(l, sid), opener)
             && (OpenAt(t, opener) ==> SessionAt(t, opener) == SessionAt(Look(l, sid), opener))
    ensures Tabled(Update(l, sid, t), par, s)
  {
    hide OpenAt, SessionAt, Update;
    var l' := Update(l, sid, t);
    forall k ensures k in s.sessions <==> Listed(l', par, k) {
      assert k in s.sessions <==> Listed(l, par, k);
    }
  }

  lemma TableEnters(l: Ledger, par: nat, s: SyncState, t: Track)
    requires (par == 0 || par == 1) && Tabled(l, par, s) && t.stage.Opening?
    ensures var sid := NextSid(l, par);
            Tabled(Enter(l, par, t), par, s.(sessions := s.sessions[(true, sid) := Session(t.a, {})], nextSid := sid + 2))
  {
    hide Enter;
    var sid := NextSid(l, par);
    var l', s' := Enter(l, par, t), s.(sessions := s.sessions[(true, sid) := Session(t.a, {})], nextSid := sid + 2);
    forall k ensures k in s'.sessions <==> Listed(l', par, k) {
      if k.1 != sid {
        assert k in s'.sessions <==> k in s.sessions;
      }
    }
  }

  lemma TableElsewhere(l: Ledger, par: nat, s: SyncState, t: Track)
    requires (par == 0 || par == 1) && Tabled(l, 1 - par, s) && t.stage.Opening?
    ensures Tabled(Enter(l, par, t), 1 - par, s)
  {
    hide Enter;
    var l' := Enter(l, par, t);
    forall k ensures k in s.sessions <==> Listed(l', 1 - par, k) {
      assert k in s.sessions <==> Listed(l, 1 - par, k);
    }
  }

  /** The ids of the sessions opened so far. */
  function Sids(l: Ledger): set<nat> {
    (set i | 0 <= i < |l.even| :: 2 * i) + (set i | 0 <= i < |l.odd| :: 2 * i + 1)
  }

  lemma {:induction false} CountTo(n: nat, off: nat)
    ensures |set i | 0 <= i < n :: 2 * i + off| == n
  {
    if n > 0 {
      CountTo(n - 1, off);
      var s, s' := set i | 0 <= i < n :: 2 * i + off, set i | 0 <= i < n - 1 :: 2 * i + off;
      assert s == s' + {2 * (n - 1) + off};
    }
  }

  lemma SidsCount(l: Ledger)
    ensures |Sids(l)| <= Opens(l)
    ensures forall s: nat :: Known(l, s) ==> s in Sids(l)
  {
    CountTo(|l.even|, 0);
    CountTo(|l.odd|, 1);
    var e, o := set i | 0 <= i < |l.even| :: 2 * i, set i | 0 <= i < |l.odd| :: 2 * i + 1;
    assert e == set i | 0 <= i < |l.even| :: 2 * i + 0;
    forall s: nat | Known(l, s) ensures s in Sids(l) {
      assert s == if s % 2 == 0 then 2 * (s / 2) else 2 * (s / 2) + 1;
    }
  }

  lemma {:induction false} InjectiveCount(ks: set<(bool, nat)>, sids: set<nat>)
    requires forall k :: k in ks ==> k.1 in sids
    requires forall k, k' :: k in ks && k' in ks && k.1 == k'.1 ==> k == k'
    ensures |ks| <= |sids|
    decreases |ks|
  {
    if ks != {} {
      var k :| k in ks;
      InjectiveCount(ks - {k}, sids - {k.1});
    }
  }

  /** A side never has more sessions open than were opened, fewer if it lacks one of them. */
  lemma TableSize(l: Ledger, par: nat, s: SyncState, sid: nat)
    requires Tabled(l, par, s) && Known(l, sid) && (forall b :: (b, sid) !in s.sessions)
    ensures |s.sessions| < Opens(l)
  {
    hide OpenAt;
    SidsCount(l);
    var ks := s.sessions.Keys;
    forall k | k in ks ensures k.1 in Sids(l) - {sid} {
      assert k in s.sessions && k == (k.0, k.1);
    }
    InjectiveCount(ks, Sids(l) - {sid});
    assert |s.sessions| == |ks|;
  }

  lemma TableSmall(l: Ledger, par: nat, s: SyncState)
    requires Tabled(l, par, s)
    ensures |s.sessions| <= Opens(l)
  {
    hide OpenAt;
    SidsCount(l);
    InjectiveCount(s.sessions.Keys, Sids(l));
    assert |s.sessions| == |s.sessions.Keys|;
  }
}
