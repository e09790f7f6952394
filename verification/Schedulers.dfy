/**
  When the Android runtime starts reconciliation
  (android/app/src/main/java/org/racnet/android/node/SyncScheduler.kt and
  NodeRuntime.kt): no stored entry is ever forgotten on any established link. What
  the core answers to each call is a parameter.
 */
module Schedulers {
  import opened Base
  import opened Items

  /** Coalesces store changes while a link's snapshot is being reconciled. */
  class SyncScheduler {
    var pending: set<nat>
    var active: map<nat, nat>

    constructor ()
      ensures pending == {} && active == map[]
    {
      pending, active := {}, map[];
    }

    method Request(link: nat)
      modifies this
      ensures pending == old(pending) + {link} && active == old(active)
    {
      pending := pending + {link};
    }

    /** Only the session that is tracked can complete. */
    method Completed(link: nat, session: nat)
      modifies this
      ensures pending == old(pending)
      ensures active == if link in old(active) && old(active)[link] == session then old(active) - {link} else old(active)
    {
      if link in active && active[link] == session {
        active := active - {link};
      }
    }

    method Closed(link: nat)
      modifies this
      ensures pending == old(pending) - {link} && active == old(active) - {link}
    {
      pending := pending - {link};
      active := active - {link};
    }

    /** A session was started: the link is served until the store changes again. */
    method Started(link: nat, session: nat)
      requires link in pending && link !in active
      modifies this
      ensures pending == old(pending) - {link} && active == old(active)[link := session]
    {
      pending := pending - {link};
      active := active[link := session];
    }
  }

  datatype Event =
    | Established(link: nat)
    | Closed(link: nat)
    | EntryStored(link: nat)
    | SessionClosed(link: nat, session: nat, openedByUs: bool)
    | Other

  /** A session the core agreed to start; `dies` when that attempt closed the link. */
  datatype Start = Start(session: nat, dies: bool)

  /** What the core answers to the k-th attempt to start a session, by link. */
  type Starter = (nat, nat) -> Option<Start>

  /** What a link still has to be told. */
  ghost predicate Covered(entries: set<Id>, link: nat, pending: set<nat>, snapshots: map<nat, set<Id>>, arrived: map<nat, set<Id>>) {
    || link in pending
    || (link in snapshots && entries <= snapshots[link] + (if link in arrived then arrived[link] else {}))
  }

  /* ----- what one round of starting does ----- */

  /** The scheduler as a value. */
  datatype Queue = Queue(pending: set<nat>, active: map<nat, nat>)

  /** The answer to attempt `base + i`, made for the link asked then. */
  function AnswerTo(starts: Starter, base: nat, asked: seq<nat>, i: nat): Option<Start>
    requires i < |asked|
  {
    starts(base + i, asked[i])
  }

  /** Where a link stands once the core has answered: served by the session it named, or still due. */
  ghost predicate Settled(q: Queue, link: nat, answer: Option<Start>) {
    match answer
    case None => link in q.pending && link !in q.active
    case Some(s) => link !in q.pending && link in q.active && q.active[link] == s.session
  }

  ghost predicate SameFor(q: Queue, q': Queue, link: nat) {
    && (link in q'.pending <==> link in q.pending) && (link in q'.active <==> link in q.active)
    && (link in q'.active ==> q'.active[link] == q.active[link])
  }

  /** The links asked, each once, are settled by their answers, and every other one stands as before. */
  ghost predicate Asked(starts: Starter, base: nat, q: Queue, q': Queue, asked: seq<nat>) {
    && NoDup(asked)
    && (forall i :: 0 <= i < |asked| ==> asked[i] in q.pending && asked[i] !in q.active && Settled(q', asked[i], AnswerTo(starts, base, asked, i)))
    && (forall link :: link !in asked ==> SameFor(q, q', link))
  }

  /** The links whose start closed them. */
  ghost predicate Died(starts: Starter, base: nat, asked: seq<nat>, dead: seq<nat>) {
    forall link :: link in dead <==>
      exists i :: 0 <= i < |asked| && asked[i] == link && AnswerTo(starts, base, asked, i).Some? && AnswerTo(starts, base, asked, i).value.dies
  }

  lemma AskNext(starts: Starter, base: nat, q: Queue, mid: Queue, q': Queue, asked: seq<nat>, dead: seq<nat>, link: nat)
    requires Asked(starts, base, q, mid, asked) && Died(starts, base, asked, dead) && link !in asked && link in mid.pending && link !in mid.active
    requires match starts(base + |asked|, link)
             case None => q' == mid
             case Some(s) => q' == Queue(mid.pending - {link}, mid.active[link := s.session])
    ensures Asked(starts, base, q, q', asked + [link])
    ensures var a := starts(base + |asked|, link);
            Died(starts, base, asked + [link], if a.Some? && a.value.dies then dead + [link] else dead)
  {
    var more := asked + [link];
    forall i | 0 <= i < |more| ensures more[i] in q.pending && more[i] !in q.active && Settled(q', more[i], AnswerTo(starts, base, more, i)) {
      if i < |asked| {
        assert AnswerTo(starts, base, more, i) == AnswerTo(starts, base, asked, i);
        assert asked[i] in asked;
      } else {
        assert SameFor(q, mid, link);
      }
    }
    forall l | l !in more ensures SameFor(q, q', l) {
      assert SameFor(q, mid, l);
    }
    DiedNext(starts, base, asked, dead, link);
  }

  lemma DiedNext(starts: Starter, base: nat, asked: seq<nat>, dead: seq<nat>, link: nat)
    requires Died(starts, base, asked, dead)
    ensures var a := starts(base + |asked|, link);
            Died(starts, base, asked + [link], if a.Some? && a.value.dies then dead + [link] else dead)
  {
    var more, a := asked + [link], starts(base + |asked|, link);
    assert forall i :: 0 <= i < |asked| ==> AnswerTo(starts, base, more, i) == AnswerTo(starts, base, asked, i);
    assert AnswerTo(starts, base, more, |asked|) == a && more[|asked|] == link;
    assert forall i :: 0 <= i < |asked| ==> more[i] == asked[i];
  }

  lemma NoneAsked(starts: Starter, base: nat, q: Queue)
    ensures Asked(starts, base, q, q, []) && Died(starts, base, [], [])
  {
  }

  lemma UnaskedStays(starts: Starter, base: nat, q: Queue, q': Queue, asked: seq<nat>, link: nat)
    requires Asked(starts, base, q, q', asked) && link !in asked
    ensures SameFor(q, q', link)
  {
  }

  /** The last time the link was asked for, the core refused. */
  ghost predicate RefusedLast(starts: Starter, base: nat, asked: seq<nat>, link: nat) {
    exists i :: 0 <= i < |asked| && asked[i] == link && AnswerTo(starts, base, asked, i).None? && forall j :: i < j < |asked| ==> asked[j] != link
  }

  /** Every due link has a session running or was refused when last asked for. */
  ghost predicate AllServed(starts: Starter, base: nat, asked: seq<nat>, q: Queue) {
    forall link :: link in q.pending ==> link in q.active || RefusedLast(starts, base, asked, link)
  }

  /** Some attempt closed the link. */
  ghost predicate Killed(starts: Starter, base: nat, asked: seq<nat>, link: nat) {
    exists i :: 0 <= i < |asked| && asked[i] == link && AnswerTo(starts, base, asked, i).Some? && AnswerTo(starts, base, asked, i).value.dies
  }

  /** One round serves everything that was due. */
  lemma RoundServes(starts: Starter, base: nat, q: Queue, q': Queue, asked: seq<nat>, dead: seq<nat>)
    requires Asked(starts, base, q, q', asked) && AllAsked(q, asked) && Died(starts, base, asked, dead)
    ensures AllServed(starts, base, asked, q')
    ensures forall link :: link in dead <==> Killed(starts, base, asked, link)
    ensures forall link :: link in q.pending ==> link in q'.pending || link in q'.active
    ensures forall link :: link in q.active ==> link !in dead && link in q'.active && q'.active[link] == q.active[link]
  {
    forall link | link in q'.pending ensures link in q'.active || RefusedLast(starts, base, asked, link) {
      if link in asked {
        var i :| 0 <= i < |asked| && asked[i] == link;
        assert Settled(q', asked[i], AnswerTo(starts, base, asked, i));
      } else {
        assert SameFor(q, q', link);
      }
    }
    forall link | link in q.pending ensures link in q'.pending || link in q'.active {
      if link in asked {
        var i :| 0 <= i < |asked| && asked[i] == link;
        assert Settled(q', asked[i], AnswerTo(starts, base, asked, i));
      } else {
        assert SameFor(q, q', link);
      }
    }
    forall link | link in q.active ensures link !in dead && link in q'.active && q'.active[link] == q.active[link] {
      assert link !in asked;
      assert SameFor(q, q', link);
    }
  }

  lemma LaterAnswer(starts: Starter, base: nat, first: seq<nat>, rest: seq<nat>, i: nat)
    requires i < |first| + |rest|
    ensures AnswerTo(starts, base, first + rest, i) ==
            if i < |first| then AnswerTo(starts, base, first, i) else AnswerTo(starts, base + |first|, rest, i - |first|)
  {
  }

  /** What a later round leaves is what all rounds together leave. */
  lemma RoundsServe(starts: Starter, base: nat, first: seq<nat>, rest: seq<nat>, q: Queue)
    requires AllServed(starts, base + |first|, rest, q)
    ensures AllServed(starts, base, first + rest, q)
  {
    hide AnswerTo;
    var asked := first + rest;
    forall link | link in q.pending && link !in q.active ensures RefusedLast(starts, base, asked, link) {
      var i :| 0 <= i < |rest| && rest[i] == link && AnswerTo(starts, base + |first|, rest, i).None? && forall j :: i < j < |rest| ==> rest[j] != link;
      LaterAnswer(starts, base, first, rest, |first| + i);
      assert asked[|first| + i] == link;
      forall j | |first| + i < j < |asked| ensures asked[j] != link {
        assert asked[j] == rest[j - |first|];
      }
    }
  }

  lemma KilledConcat(starts: Starter, base: nat, first: seq<nat>, rest: seq<nat>, link: nat)
    ensures Killed(starts, base, first + rest, link) <==> Killed(starts, base, first, link) || Killed(starts, base + |first|, rest, link)
  {
    hide AnswerTo;
    var asked := first + rest;
    forall i | 0 <= i < |asked|
      ensures AnswerTo(starts, base, asked, i) == if i < |first| then AnswerTo(starts, base, first, i) else AnswerTo(starts, base + |first|, rest, i - |first|)
    {
      LaterAnswer(starts, base, first, rest, i);
    }
    if Killed(starts, base + |first|, rest, link) {
      var i :| 0 <= i < |rest| && rest[i] == link && AnswerTo(starts, base + |first|, rest, i).Some? && AnswerTo(starts, base + |first|, rest, i).value.dies;
      assert asked[|first| + i] == link;
    }
    if Killed(starts, base, first, link) {
      var i :| 0 <= i < |first| && first[i] == link && AnswerTo(starts, base, first, i).Some? && AnswerTo(starts, base, first, i).value.dies;
      assert asked[i] == link;
    }
  }

  /** Every link that is due and not served was asked. */
  ghost predicate AllAsked(q: Queue, asked: seq<nat>) {
    forall link :: link in q.pending && link !in q.active ==> link in asked
  }

  /* ----- what events mean ----- */

  /** The links that are up, and the scheduler. */
  datatype Books = Books(established: set<nat>, q: Queue)

  function Apply(b: Books, e: Event): Books {
    match e
    case Established(link) => Books(b.established + {link}, b.q.(pending := b.q.pending + {link}))
    case Closed(link) => Books(b.established - {link}, Queue(b.q.pending - {link}, b.q.active - {link}))
    case EntryStored(link) => b.(q := b.q.(pending := b.q.pending + (b.established - {link})))
    case SessionClosed(link, session, openedByUs) =>
      if openedByUs && link in b.q.active && b.q.active[link] == session then b.(q := b.q.(active := b.q.active - {link})) else b
    case Other => b
  }

  function ApplyAll(b: Books, events: seq<Event>): Books {
    if events == [] then b else Apply(ApplyAll(b, events[..|events| - 1]), events[|events| - 1])
  }

  /** After event `i` the link is not reported closed (or established) again. */
  ghost predicate LastWord(events: seq<Event>, i: nat, link: nat, last: Event, against: Event)
    requires i < |events|
  {
    events[i] == last && forall j :: i < j < |events| ==> events[j] != against
  }

  /**
    What a batch of events leads to, for each link: one established last is up and
    due, one closed last is forgotten, an entry from elsewhere makes a link due, a
    tracked session is over exactly when its own closing or the link's is among
    the events, and nothing else starts or ends one.
   */
  lemma {:induction false} EventsMean(b: Books, events: seq<Event>, link: nat)
    ensures var b' := ApplyAll(b, events);
            && (forall i :: 0 <= i < |events| && LastWord(events, i, link, Established(link), Closed(link)) ==> link in b'.established && link in b'.q.pending)
            && (forall i :: 0 <= i < |events| && LastWord(events, i, link, Closed(link), Established(link)) ==> link !in b'.established)
            && (Closed(link) !in events && link in b.established ==> link in b'.established)
            && (Closed(link) !in events && link in b.q.pending ==> link in b'.q.pending)
            && (Closed(link) !in events && link in b.established && (exists i :: 0 <= i < |events| && events[i].EntryStored? && events[i].link != link) ==> link in b'.q.pending)
            && (link in b'.q.active ==> link in b.q.active && b'.q.active[link] == b.q.active[link])
            && (link in b.q.active ==>
                  (link in b'.q.active <==> Closed(link) !in events && SessionClosed(link, b.q.active[link], true) !in events))
  {
    if events != [] {
      var n := |events| - 1;
      var before, e := events[..n], events[n];
      EventsMean(b, before, link);
      assert events == before + [e];
      forall i, last, against | 0 <= i < n && LastWord(events, i, link, last, against) ensures LastWord(before, i, link, last, against) && e != against {
      }
    }
  }

  /* ----- what is left after starting ----- */

  /**
    Every due link has a session running or was refused when last asked for; a link
    is gone exactly if an attempt killed it; nothing due was dropped and no running
    session replaced.
   */
  ghost predicate Drained(starts: Starter, base: nat, asked: seq<nat>, b: Books, b': Books) {
    && AllServed(starts, base, asked, b'.q)
    && b'.established <= b.established
    && (forall link :: link in b.established ==> (link in b'.established <==> !Killed(starts, base, asked, link)))
    && (forall link :: link in b.q.pending && link in b'.established ==> link in b'.q.pending || link in b'.q.active)
    && (forall link :: link in b.q.active && link in b'.established ==> link in b'.q.active && b'.q.active[link] == b.q.active[link])
  }

  /** A core that refuses nothing and closes nothing. */
  ghost predicate Willing(starts: Starter) {
    forall k: nat, link: nat :: starts(k, link).Some? && !starts(k, link).value.dies
  }

  /** With such a core every due link has a session running. */
  lemma WillingServesAll(starts: Starter, base: nat, asked: seq<nat>, b: Books, b': Books)
    requires Drained(starts, base, asked, b, b') && Willing(starts) && b.q.pending <= b.established
    ensures b'.established == b.established
    ensures forall link :: link in b.q.pending ==> link in b'.q.active
    ensures b'.q.pending <= b'.q.active.Keys
  {
    forall link ensures !Killed(starts, base, asked, link) && !RefusedLast(starts, base, asked, link) {
    }
  }

  function Members(links: seq<nat>): set<nat> {
    set link | link in links
  }

  class NodeRuntime {
    const scheduler: SyncScheduler
    var entries: set<Id>
    var entryCount: nat
    var established: set<nat>
    /** Attempts to start a session so far. */
    var attempts: nat
    /** The store as it was when the latest session of a link was started. */
    ghost var snapshots: map<nat, set<Id>>
    /** What arrived over a link. */
    ghost var arrived: map<nat, set<Id>>

    ghost predicate Tracked()
      reads this, scheduler
    {
      && scheduler.pending <= established && scheduler.active.Keys <= established
      && entryCount == |entries|
    }

    /** Every stored entry is known to every established link, came from it, or the link is due. */
    ghost predicate Complete()
      reads this, scheduler
    {
      forall link :: link in established ==> Covered(entries, link, scheduler.pending, snapshots, arrived)
    }

    ghost predicate Ok()
      reads this, scheduler
    {
      Tracked() && Complete()
    }

    constructor (stored: set<Id>)
      ensures Ok() && entries == stored && established == {} && fresh(scheduler)
    {
      scheduler := new SyncScheduler();
      entries, entryCount, established, attempts := stored, |stored|, {}, 0;
      snapshots, arrived := map[], map[];
    }

    /** Marks every established link but one as due. */
    method RequestOthers(except: nat)
      requires Tracked()
      modifies scheduler
      ensures scheduler.pending == old(scheduler.pending) + (established - {except}) && scheduler.active == old(scheduler.active)
    {
      var rest := established - {except};
      while rest != {}
        invariant rest <= established - {except}
        invariant scheduler.pending == old(scheduler.pending) + ((established - {except}) - rest)
        invariant scheduler.active == old(scheduler.active)
        decreases |rest|
      {
        var link :| link in rest;
        scheduler.Request(link);
        rest := rest - {link};
      }
    }

    ghost function Queued(): Queue
      reads scheduler
    {
      Queue(scheduler.pending, scheduler.active)
    }

    ghost function Kept(): Books
      reads this, scheduler
    {
      Books(established, Queued())
    }

    /** Asks the core to start a session on one link; tells whether that closed the link. */
    method Ask(starts: Starter, link: nat) returns (died: bool)
      requires Ok() && link in scheduler.pending && link !in scheduler.active
      modifies this`attempts, this`snapshots, scheduler
      ensures Ok() && attempts == old(attempts) + 1
      ensures var answer := starts(old(attempts), link);
              && died == (answer.Some? && answer.value.dies)
              && snapshots == (if answer.Some? then old(snapshots)[link := entries] else old(snapshots))
              && Queued() == match answer
                             case None => old(Queued())
                             case Some(s) => Queue(old(scheduler.pending) - {link}, old(scheduler.active)[link := s.session])
    {
      var start := starts(attempts, link);
      attempts := attempts + 1;
      died := false;
      if start.Some? {
        snapshots := snapshots[link := entries];
        scheduler.Started(link, start.value.session);
        died := start.value.dies;
      }
    }

    /**
      Asks the core once for each link that is due and has no session running. A
      session it names is the one tracked from then on, over the store as it is; a
      refusal leaves the link due. Returns the links that died in the attempt.
     */
    method StartDue(starts: Starter) returns (dead: seq<nat>, ghost asked: seq<nat>)
      requires Ok()
      modifies this`attempts, this`snapshots, scheduler
      ensures Ok() && established == old(established) && entries == old(entries) && arrived == old(arrived)
      ensures attempts == old(attempts) + |asked|
      ensures Asked(starts, old(attempts), old(Queued()), Queued(), asked) && AllAsked(old(Queued()), asked)
      ensures Died(starts, old(attempts), asked, dead)
      ensures dead != [] ==> |scheduler.pending| < |old(scheduler.pending)|
      ensures scheduler.pending <= old(scheduler.pending)
      ensures forall link :: link in old(scheduler.pending) && link !in scheduler.pending ==> link in snapshots && snapshots[link] == entries
    {
      hide Asked, Died, Covered, Tracked, Complete;
      dead, asked := [], [];
      ghost var q := Queued();
      NoneAsked(starts, attempts, q);
      var todo := scheduler.pending;
      while todo != {}
        invariant Ok() && todo <= scheduler.pending <= old(scheduler.pending)
        invariant dead != [] ==> scheduler.pending < old(scheduler.pending)
        invariant attempts == old(attempts) + |asked|
        invariant Asked(starts, old(attempts), q, Queued(), asked) && Died(starts, old(attempts), asked, dead)
        invariant forall link :: link in asked ==> link !in todo
        invariant forall link :: link in q.pending && link !in q.active && link !in todo ==> link in asked
        invariant forall link :: link in old(scheduler.pending) && link !in scheduler.pending ==> link in snapshots && snapshots[link] == entries
        decreases |todo|
      {
        var link :| link in todo;
        todo := todo - {link};
        UnaskedStays(starts, old(attempts), q, Queued(), asked, link);
        if link !in scheduler.active {
          ghost var mid := Queued();
          var died := Ask(starts, link);
          AskNext(starts, old(attempts), q, mid, Queued(), asked, dead, link);
          asked := asked + [link];
          if died {
            dead := dead + [link];
          }
        }
      }
      if dead != [] {
        Smaller(scheduler.pending, old(scheduler.pending));
      }
    }

    method LinkClosed(link: nat)
      requires Ok()
      modifies this`established, scheduler
      ensures Ok() && established == old(established) - {link}
      ensures scheduler.pending == old(scheduler.pending) - {link} && scheduler.active == old(scheduler.active) - {link}
    {
      established := established - {link};
      scheduler.Closed(link);
    }

    /**
      Starts what is due; links that died in the attempt are closed, and what is due
      then is started. On return every due link has a session running or was
      refused when last asked, a link is gone exactly if an attempt killed it, and
      running sessions go on.
     */
    method DrainSyncs(starts: Starter) returns (ghost asked: seq<nat>)
      requires Ok()
      modifies this`established, this`attempts, this`snapshots, scheduler
      ensures Ok() && entries == old(entries) && established <= old(established) && arrived == old(arrived)
      ensures attempts == old(attempts) + |asked|
      ensures Drained(starts, old(attempts), asked, old(Kept()), Kept())
      decreases |scheduler.pending|
    {
      hide Asked, Died, AllServed, Killed, Covered;
      var dead;
      dead, asked := StartDue(starts);
      ghost var base, q, mid, first := old(attempts), old(Queued()), Queued(), asked;
      RoundServes(starts, base, q, mid, asked, dead);
      if dead == [] {
        return;
      }
      CloseAll(dead);
      NoLarger(scheduler.pending, mid.pending);
      ghost var rest := DrainSyncs(starts);
      asked := first + rest;
      RoundsServe(starts, base, first, rest, Queued());
      forall link ensures Killed(starts, base, asked, link) <==> Killed(starts, base, first, link) || Killed(starts, base + |first|, rest, link) {
        KilledConcat(starts, base, first, rest, link);
      }
    }

    /** Closes links that died. */
    method CloseAll(dead: seq<nat>)
      requires Ok()
      modifies this`established, scheduler
      ensures Ok() && established == old(established) - Members(dead)
      ensures scheduler.pending == old(scheduler.pending) - Members(dead)
      ensures scheduler.active == old(scheduler.active) - Members(dead)
    {
      for i := 0 to |dead|
        invariant Ok() && established == old(established) - Members(dead[..i])
        invariant scheduler.pending == old(scheduler.pending) - Members(dead[..i])
        invariant scheduler.active == old(scheduler.active) - Members(dead[..i])
      {
        LinkClosed(dead[i]);
        assert Members(dead[..i + 1]) == Members(dead[..i]) + {dead[i]};
      }
      assert dead[..|dead|] == dead;
    }

    /** Applies the events of one core call, in order; new entries have already been noticed. */
    method ApplyEvents(events: seq<Event>)
      requires Ok()
      modifies this`established, this`entryCount, scheduler
      ensures Ok() && Kept() == ApplyAll(old(Kept()), events)
    {
      for i := 0 to |events|
        invariant Ok() && Kept() == ApplyAll(old(Kept()), events[..i])
      {
        assert events[..i + 1][..i] == events[..i];
        match events[i]
        case Established(link) =>
          established := established + {link};
          scheduler.Request(link);
        case Closed(link) =>
          LinkClosed(link);
        case EntryStored(link) =>
          entryCount := |entries|;
          RequestOthers(link);
        case SessionClosed(link, session, openedByUs) =>
          if openedByUs {
            scheduler.Completed(link, session);
          }
        case Other =>
      }
      assert events[..|events|] == events;
    }

    /** The store grew by what came over a link: every other link becomes due. */
    method Notice(link: nat, found: set<Id>)
      requires Ok()
      modifies this`entries, this`entryCount, this`arrived, scheduler
      ensures Ok() && entries == old(entries) + found && established == old(established)
      ensures scheduler.active == old(scheduler.active)
      ensures scheduler.pending == if found <= old(entries) then old(scheduler.pending) else old(scheduler.pending) + (established - {link})
    {
      hide Covered;
      ghost var was, came, due := entries, arrived, scheduler.pending;
      GrowsBy(was, found);
      entries := entries + found;
      arrived := arrived[link := (if link in arrived then arrived[link] else {}) + (found - was)];
      var count := |entries|;
      if count != entryCount {
        entryCount := count;
        RequestOthers(link);
      }
      AllStillCovered(established, was, entries, link, due, scheduler.pending, snapshots, came, found);
    }

    /** Bytes on a link: `found` is what the core stored while handling them, events what it reported. */
    method OnBytes(link: nat, found: set<Id>, events: seq<Event>, starts: Starter) returns (ghost asked: seq<nat>)
      requires Ok()
      modifies this, scheduler
      ensures Ok() && entries == old(entries) + found
      ensures var noticed := if found <= old(entries) then old(scheduler.pending) else old(scheduler.pending) + (old(established) - {link});
              Drained(starts, old(attempts), asked, ApplyAll(Books(old(established), Queue(noticed, old(scheduler.active))), events), Kept())
    {
      hide Tracked, Complete, Drained, ApplyAll;
      Notice(link, found);
      ApplyEvents(events);
      asked := DrainSyncs(starts);
    }

    method CreateEntry(id: Id, starts: Starter) returns (ghost asked: seq<nat>)
      requires Ok()
      modifies this, scheduler
      ensures Ok() && entries == old(entries) + {id}
      ensures Drained(starts, old(attempts), asked, Books(old(established), Queue(old(established), old(scheduler.active))), Kept())
    {
      hide Drained;
      entries := entries + {id};
      entryCount := |entries|;
      assert scheduler.pending <= established;
      RequestAll();
      assert scheduler.pending == established;
      asked := DrainSyncs(starts);
    }

    method RequestAll()
      modifies scheduler
      ensures scheduler.pending == old(scheduler.pending) + established && scheduler.active == old(scheduler.active)
    {
      var rest := established;
      while rest != {}
        invariant rest <= established
        invariant scheduler.pending == old(scheduler.pending) + (established - rest) && scheduler.active == old(scheduler.active)
        decreases |rest|
      {
        var link :| link in rest;
        scheduler.Request(link);
        rest := rest - {link};
      }
    }

    /** Ticks and dead transports only bring events. */
    method OnEvents(events: seq<Event>, starts: Starter) returns (ghost asked: seq<nat>)
      requires Ok()
      modifies this, scheduler
      ensures Ok() && entries == old(entries)
      ensures Drained(starts, old(attempts), asked, ApplyAll(old(Kept()), events), Kept())
    {
      hide Drained, ApplyAll;
      ApplyEvents(events);
      asked := DrainSyncs(starts);
    }
  }

  lemma StillCovered(was: set<Id>, entries: set<Id>, l: nat, link: nat, pending: set<nat>, pending': set<nat>,
                     snapshots: map<nat, set<Id>>, came: map<nat, set<Id>>, found: set<Id>)
    requires Covered(was, l, pending, snapshots, came) && pending <= pending' && entries == was + found
    requires l != link ==> l in pending' || entries == was
    ensures Covered(entries, l, pending', snapshots, came[link := (if link in came then came[link] else {}) + (found - was)])
  {
  }

  lemma AllStillCovered(established: set<nat>, was: set<Id>, entries: set<Id>, link: nat, pending: set<nat>, pending': set<nat>,
                        snapshots: map<nat, set<Id>>, came: map<nat, set<Id>>, found: set<Id>)
    requires forall l :: l in established ==> Covered(was, l, pending, snapshots, came)
    requires entries == was + found && (pending' == pending + (established - {link}) || (pending' == pending && entries == was))
    ensures var arrived := came[link := (if link in came then came[link] else {}) + (found - was)];
            forall l :: l in established ==> Covered(entries, l, pending', snapshots, arrived)
  {
    hide Covered;
    forall l | l in established
      ensures Covered(entries, l, pending', snapshots, came[link := (if link in came then came[link] else {}) + (found - was)])
    {
      StillCovered(was, entries, l, link, pending, pending', snapshots, came, found);
    }
  }

  /** The count tells whether anything was found. */
  lemma GrowsBy(was: set<Id>, found: set<Id>)
    ensures |was + found| == |was| <==> found <= was
    ensures found <= was ==> was + found == was
  {
    if |was + found| == |was| {
      SameSize(was, was + found);
    }
    assert found <= was ==> was + found == was;
  }

  lemma Smaller(a: set<nat>, b: set<nat>)
    requires a < b
    ensures |a| < |b|
  {
    assert b == a + (b - a);
  }

  lemma NoLarger(a: set<nat>, b: set<nat>)
    requires a <= b
    ensures |a| <= |b|
  {
    assert b == a + (b - a);
  }

  lemma SameSize(a: set<Id>, b: set<Id>)
    requires a <= b && |a| == |b|
    ensures a == b
  {
    assert b == a + (b - a);
  }
}
