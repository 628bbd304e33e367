/** Who gets into a pairing session: the listener with any number of sockets at once (src/sync/pair.ts). */
module Admission {
  import opened Wrappers
  import opened Pin

  datatype Phase = AwaitingHello | InSession | Gone

  datatype Failure = TooManyPins | Expired | ServerError | SessionError

  datatype Outcome = Paired(socket: nat) | Failed(why: Failure)

  /** The first message of a socket, as far as admission looks at it; the PIN is the one given, in its NFKC form. */
  datatype First = NoHello | Hello(pin: string)

  datatype Event =
    | Connect(socket: nat)
    | Arrives(socket: nat, first: First)
    | GivesUp(socket: nat)
    | SessionEnds(socket: nat, ok: bool)
    | TtlFires
    | ServerFails

  /** `admitted` and `wrong` only record what happened: who entered with which PIN, and the wrong PINs compared. */
  datatype State = State(
    pin: string,
    sockets: map<nat, Phase>,
    busy: bool,
    failCount: nat,
    ttlArmed: bool,
    settled: Option<Outcome>,
    admitted: seq<(nat, string)>,
    wrong: seq<string>)

  function Initial(pin: string): State {
    State(pin, map[], false, 0, true, None, [], [])
  }

  /** The first outcome stands; it also stops the TTL clock. */
  function Settle(s: State, o: Outcome): State {
    if s.settled.Some? then s else s.(settled := Some(o), ttlArmed := false)
  }

  ghost predicate Enabled(s: State, e: Event) {
    match e
    case Connect(id) => id !in s.sockets
    case Arrives(id, _) => id in s.sockets && s.sockets[id] == AwaitingHello
    case GivesUp(id) => id in s.sockets && s.sockets[id] == AwaitingHello
    case SessionEnds(id, _) => id in s.sockets && s.sockets[id] == InSession
    case TtlFires => s.ttlArmed
    case ServerFails => true
  }

  function Handle(s: State, e: Event): State {
    match e
    case Connect(id) =>
      s.(sockets := s.sockets[id := if s.busy || s.settled.Some? then Gone else AwaitingHello])
    case Arrives(id, first) =>
      if s.busy || s.settled.Some? then s.(sockets := s.sockets[id := Gone])
      else if first != Hello(s.pin) then
        var t := s.(sockets := s.sockets[id := Gone], failCount := s.failCount + 1,
                    wrong := if first.Hello? then s.wrong + [first.pin] else s.wrong);
        if t.failCount >= PIN_MAX_FAILURES then Settle(t, Failed(TooManyPins)) else t
      else s.(sockets := s.sockets[id := InSession], busy := true, ttlArmed := false,
              admitted := s.admitted + [(id, s.pin)])
    case GivesUp(id) => s.(sockets := s.sockets[id := Gone])
    case SessionEnds(id, ok) =>
      Settle(s.(sockets := s.sockets[id := Gone]), if ok then Paired(id) else Failed(SessionError))
    case TtlFires => Settle(s.(ttlArmed := false), Failed(Expired))
    case ServerFails => Settle(s, Failed(ServerError))
  }

  // ---------- the handlers ----------

  class PairListener {
    const pin: string
    var sockets: map<nat, Phase>
    var busy: bool
    var failCount: nat
    var ttlArmed: bool
    var settled: Option<Outcome>
    ghost var admitted: seq<(nat, string)>
    ghost var wrong: seq<string>

    constructor (pin: string)
      ensures View() == Initial(pin)
    {
      this.pin := pin;
      sockets, busy, failCount, ttlArmed, settled, admitted, wrong := map[], false, 0, true, None, [], [];
    }

    ghost function View(): State
      reads this
    {
      State(pin, sockets, busy, failCount, ttlArmed, settled, admitted, wrong)
    }

    method Finish(o: Outcome)
      modifies this`settled, this`ttlArmed
      ensures View() == Settle(old(View()), o)
    {
      if settled.Some? { return; }
      settled := Some(o);
      ttlArmed := false;
    }

    method OnConnection(id: nat)
      requires Enabled(View(), Connect(id))
      modifies this
      ensures View() == Handle(old(View()), Connect(id))
    {
      if busy || settled.Some? {
        sockets := sockets[id := Gone];
        return;
      }
      sockets := sockets[id := AwaitingHello];
    }

    /** The first message is there: others may have been admitted, or the listener settled, while it was awaited. */
    method OnFirst(id: nat, first: First) returns (enters: bool)
      requires Enabled(View(), Arrives(id, first))
      modifies this
      ensures View() == Handle(old(View()), Arrives(id, first))
      ensures enters <==> !old(busy) && old(settled).None? && first == Hello(pin)
    {
      if busy || settled.Some? {
        sockets := sockets[id := Gone];
        return false;
      }
      if first.NoHello? || first.pin != pin {
        wrong := if first.Hello? then wrong + [first.pin] else wrong;
        failCount := failCount + 1;
        sockets := sockets[id := Gone];
        if failCount >= PIN_MAX_FAILURES { Finish(Failed(TooManyPins)); }
        return false;
      }
      busy := true;
      ttlArmed := false;
      sockets := sockets[id := InSession];
      admitted := admitted + [(id, pin)];
      return true;
    }

    method OnFirstFailed(id: nat)
      requires Enabled(View(), GivesUp(id))
      modifies this
      ensures View() == Handle(old(View()), GivesUp(id))
    {
      sockets := sockets[id := Gone];
    }

    method OnSessionEnd(id: nat, ok: bool)
      requires Enabled(View(), SessionEnds(id, ok))
      modifies this
      ensures View() == Handle(old(View()), SessionEnds(id, ok))
    {
      sockets := sockets[id := Gone];
      Finish(if ok then Paired(id) else Failed(SessionError));
    }

    method OnTtl()
      requires Enabled(View(), TtlFires)
      modifies this
      ensures View() == Handle(old(View()), TtlFires)
    {
      ttlArmed := false;
      Finish(Failed(Expired));
    }

    method OnServerError()
      modifies this
      ensures View() == Handle(old(View()), ServerFails)
    {
      Finish(Failed(ServerError));
    }
  }

  // ---------- every interleaving ----------

  function Run(pin: string, events: seq<Event>): State {
    if events == [] then Initial(pin) else Handle(Run(pin, events[..|events| - 1]), events[|events| - 1])
  }

  ghost predicate Legal(pin: string, events: seq<Event>) {
    forall i :: 0 <= i < |events| ==> Enabled(Run(pin, events[..i]), events[i])
  }

  /** At most one socket is ever admitted, and at most eight wrong PINs are ever compared. */
  ghost predicate Safe(s: State) {
    && |s.admitted| <= 1 && (s.busy <==> |s.admitted| == 1)
    && (s.admitted != [] ==> s.admitted[0].1 == s.pin)
    && |s.wrong| <= s.failCount <= PIN_MAX_FAILURES
    && (forall i :: 0 <= i < |s.wrong| ==> s.wrong[i] != s.pin)
    && (s.failCount == PIN_MAX_FAILURES ==> s.settled == Some(Failed(TooManyPins)))
    && (s.ttlArmed ==> !s.busy && s.settled.None?)
    && (forall id :: id in s.sockets && s.sockets[id] == InSession ==> s.admitted == [(id, s.pin)])
    && (s.settled.Some? && s.settled.value.Paired? ==> s.admitted == [(s.settled.value.socket, s.pin)])
    // a running session is overtaken by nothing but a server error
    && (forall id :: id in s.sockets && s.sockets[id] == InSession && s.settled.Some? ==>
                       s.settled.value == Failed(ServerError))
  }

  lemma HandleKeepsSafe(s: State, e: Event)
    requires Safe(s) && Enabled(s, e)
    ensures Safe(Handle(s, e))
  {
  }

  lemma LegalPrefix(pin: string, events: seq<Event>, i: nat)
    requires Legal(pin, events) && i <= |events|
    ensures Legal(pin, events[..i])
  {
    forall k | 0 <= k < i ensures Enabled(Run(pin, events[..i][..k]), events[..i][k]) {
      assert events[..i][..k] == events[..k];
      assert Enabled(Run(pin, events[..k]), events[k]);
    }
  }

  lemma {:induction false} AdmissionSafe(pin: string, events: seq<Event>)
    requires Legal(pin, events)
    ensures Safe(Run(pin, events)) && Run(pin, events).pin == pin
    decreases |events|
  {
    if events != [] {
      var n := |events| - 1;
      LegalPrefix(pin, events, n);
      AdmissionSafe(pin, events[..n]);
      assert Enabled(Run(pin, events[..n]), events[n]);
      HandleKeepsSafe(Run(pin, events[..n]), events[n]);
    }
  }

  /** Once settled, by success, expiry, wrong PINs or an error, the outcome stands and nobody else is admitted. */
  lemma {:induction false} SettledForGood(pin: string, events: seq<Event>, i: nat)
    requires i <= |events| && Run(pin, events[..i]).settled.Some?
    ensures Run(pin, events).settled == Run(pin, events[..i]).settled
    ensures Run(pin, events).admitted == Run(pin, events[..i]).admitted
    ensures Run(pin, events).wrong == Run(pin, events[..i]).wrong
    decreases |events|
  {
    if i < |events| {
      var n := |events| - 1;
      assert events[..n][..i] == events[..i];
      SettledForGood(pin, events[..n], i);
    } else {
      assert events[..i] == events;
    }
  }

  /** The session that was admitted decides the outcome, unless the server itself failed first. */
  lemma SessionDecides(pin: string, events: seq<Event>, id: nat, ok: bool)
    requires Legal(pin, events) && events != [] && events[|events| - 1] == SessionEnds(id, ok)
    ensures Run(pin, events).settled == Some(Failed(ServerError))
            || Run(pin, events).settled == Some(if ok then Paired(id) else Failed(SessionError))
    ensures Run(pin, events).admitted == [(id, pin)]
  {
    var n := |events| - 1;
    LegalPrefix(pin, events, n);
    AdmissionSafe(pin, events[..n]);
    assert Enabled(Run(pin, events[..n]), events[n]);
  }

  // ---------- the outcome, read off the events ----------

  /** A right PIN has arrived: from then on nobody else's is looked at. */
  ghost predicate SomeoneIn(pin: string, events: seq<Event>) {
    exists i :: 0 <= i < |events| && events[i].Arrives? && events[i].first == Hello(pin)
  }

  /** First messages without the right PIN, before anyone came in. */
  ghost function WrongGuesses(pin: string, events: seq<Event>): nat {
    if events == [] then 0
    else
      var before, e := events[..|events| - 1], events[|events| - 1];
      WrongGuesses(pin, before)
      + if e.Arrives? && e.first != Hello(pin) && !SomeoneIn(pin, before) then 1 else 0
  }

  /** The outcome the `i`-th event decides on, if nothing was decided before. */
  ghost function Decides(pin: string, events: seq<Event>, i: nat): Option<Outcome>
    requires i < |events|
  {
    match events[i]
    case TtlFires => Some(Failed(Expired))
    case ServerFails => Some(Failed(ServerError))
    case SessionEnds(id, ok) => Some(if ok then Paired(id) else Failed(SessionError))
    case Arrives(_, first) =>
      if first != Hello(pin) && !SomeoneIn(pin, events[..i]) && WrongGuesses(pin, events[..i]) >= 7
      then Some(Failed(TooManyPins)) else None
    case _ => None
  }

  ghost predicate Undecided(pin: string, events: seq<Event>, n: nat) {
    forall i :: 0 <= i < n && i < |events| ==> Decides(pin, events, i).None?
  }

  ghost predicate DecidedBy(pin: string, events: seq<Event>, i: nat, o: Outcome) {
    i < |events| && Undecided(pin, events, i) && Decides(pin, events, i) == Some(o)
  }

  lemma DecidesEarly(pin: string, events: seq<Event>, n: nat)
    requires n <= |events|
    ensures forall i :: 0 <= i < n ==> Decides(pin, events[..n], i) == Decides(pin, events, i)
    ensures forall i: nat, o :: i < n ==> (DecidedBy(pin, events[..n], i, o) <==> DecidedBy(pin, events, i, o))
  {
    forall i | 0 <= i < n ensures events[..n][..i] == events[..i] && events[..n][i] == events[i] {}
  }

  lemma SomeoneInNext(pin: string, events: seq<Event>)
    requires events != []
    ensures SomeoneIn(pin, events)
            <==> SomeoneIn(pin, events[..|events| - 1])
                 || (events[|events| - 1].Arrives? && events[|events| - 1].first == Hello(pin))
  {
    var n := |events| - 1;
    forall i | 0 <= i < n ensures events[..n][i] == events[i] {}
  }

  /** While nothing is decided, the listener is busy exactly if a right PIN arrived, and has counted the wrong ones. */
  ghost predicate Tracks(pin: string, events: seq<Event>) {
    var s := Run(pin, events);
    && (s.settled.None? <==> Undecided(pin, events, |events|))
    && (s.settled.None? ==> (s.busy <==> SomeoneIn(pin, events)) && s.failCount == WrongGuesses(pin, events))
  }

  lemma NextDecides(pin: string, events: seq<Event>)
    requires events != [] && Legal(pin, events) && Tracks(pin, events[..|events| - 1])
    ensures
      var n := |events| - 1;
      var s := Run(pin, events[..n]);
      Run(pin, events).settled == if s.settled.Some? then s.settled else Decides(pin, events, n)
  {
    var n := |events| - 1;
    LegalPrefix(pin, events, n);
    AdmissionSafe(pin, events[..n]);
    assert Enabled(Run(pin, events[..n]), events[n]);
  }

  lemma NextCounts(s: State, e: Event)
    requires Safe(s) && Enabled(s, e) && Handle(s, e).settled.None?
    ensures s.settled.None?
    ensures Handle(s, e).busy <==> s.busy || (e.Arrives? && e.first == Hello(s.pin))
    ensures Handle(s, e).failCount
            == s.failCount + if e.Arrives? && e.first != Hello(s.pin) && !s.busy then 1 else 0
  {
  }

  lemma {:induction false} RunTracks(pin: string, events: seq<Event>)
    requires Legal(pin, events)
    ensures Tracks(pin, events)
    decreases |events|
  {
    if events != [] {
      var n := |events| - 1;
      var s := Run(pin, events[..n]);
      LegalPrefix(pin, events, n);
      RunTracks(pin, events[..n]);
      AdmissionSafe(pin, events[..n]);
      NextDecides(pin, events);
      DecidesEarly(pin, events, n);
      assert Undecided(pin, events, n + 1) <==> Undecided(pin, events, n) && Decides(pin, events, n).None?;
      if Run(pin, events).settled.None? {
        assert Enabled(s, events[n]);
        NextCounts(s, events[n]);
        SomeoneInNext(pin, events);
      }
    }
  }

  /** The result is that of the first deciding event: expiry, server error, the session's end, the eighth wrong PIN. */
  lemma {:induction false} OutcomeIff(pin: string, events: seq<Event>, o: Outcome)
    requires Legal(pin, events)
    ensures Run(pin, events).settled == Some(o) <==> exists i: nat :: DecidedBy(pin, events, i, o)
    decreases |events|
  {
    if events != [] {
      var n := |events| - 1;
      LegalPrefix(pin, events, n);
      OutcomeIff(pin, events[..n], o);
      RunTracks(pin, events[..n]);
      NextDecides(pin, events);
      DecidesEarly(pin, events, n);
      if Run(pin, events[..n]).settled.None? && Decides(pin, events, n) == Some(o) {
        assert DecidedBy(pin, events, n, o);
      }
    }
  }

  /** Expiry ends it: nobody was admitted, nobody will be, and no further PIN is compared. */
  lemma ExpirySettles(pin: string, events: seq<Event>, i: nat)
    requires Legal(pin, events) && i < |events| && events[i] == TtlFires
    ensures Run(pin, events).settled == Some(Failed(Expired)) && Run(pin, events).admitted == []
    ensures Run(pin, events).wrong == Run(pin, events[..i]).wrong
  {
    var t := events[..i + 1];
    LegalPrefix(pin, events, i);
    AdmissionSafe(pin, events[..i]);
    assert Enabled(Run(pin, events[..i]), events[i]);
    assert t[..i] == events[..i] && Run(pin, t) == Handle(Run(pin, events[..i]), TtlFires);
    SettledForGood(pin, events, i + 1);
  }

  ghost predicate EntersAt(pin: string, events: seq<Event>, i: nat, id: nat) {
    && i < |events| && events[i] == Arrives(id, Hello(pin))
    && !SomeoneIn(pin, events[..i]) && Undecided(pin, events, i)
  }

  /** A socket is admitted exactly if it was the first to bring the right PIN and nothing was decided before. */
  lemma {:induction false} AdmittedIff(pin: string, events: seq<Event>, id: nat, given: string)
    requires Legal(pin, events)
    ensures (id, given) in Run(pin, events).admitted
            <==> given == pin && exists i: nat :: EntersAt(pin, events, i, id)
    decreases |events|
  {
    if events != [] {
      var n := |events| - 1;
      LegalPrefix(pin, events, n);
      AdmittedIff(pin, events[..n], id, given);
      EntersLast(pin, events, id);
      NextAdmits(Run(pin, events[..n]), events[n], id, given);
      RunPin(pin, events[..n]);
    }
  }

  lemma EntersEarly(pin: string, events: seq<Event>, n: nat, i: nat, id: nat)
    requires i < n <= |events|
    ensures EntersAt(pin, events, i, id) <==> EntersAt(pin, events[..n], i, id)
  {
    DecidesEarly(pin, events, n);
    assert events[..n][..i] == events[..i] && events[..n][i] == events[i];
  }

  lemma EntersNow(pin: string, events: seq<Event>, id: nat)
    requires events != [] && Legal(pin, events)
    ensures
      var n := |events| - 1;
      var s := Run(pin, events[..n]);
      EntersAt(pin, events, n, id) <==> events[n] == Arrives(id, Hello(pin)) && !s.busy && s.settled.None?
  {
    var n := |events| - 1;
    LegalPrefix(pin, events, n);
    RunTracks(pin, events[..n]);
    DecidesEarly(pin, events, n);
    assert Undecided(pin, events[..n], n) <==> Undecided(pin, events, n);
  }

  lemma EntersLast(pin: string, events: seq<Event>, id: nat)
    requires events != [] && Legal(pin, events)
    ensures
      var n := |events| - 1;
      var s := Run(pin, events[..n]);
      (exists i: nat :: EntersAt(pin, events, i, id))
      <==> || (exists i: nat :: EntersAt(pin, events[..n], i, id))
           || (events[n] == Arrives(id, Hello(pin)) && !s.busy && s.settled.None?)
  {
    var n := |events| - 1;
    EntersNow(pin, events, id);
    forall i: nat | i < n ensures EntersAt(pin, events, i, id) <==> EntersAt(pin, events[..n], i, id) {
      EntersEarly(pin, events, n, i, id);
    }
  }

  lemma {:induction false} RunPin(pin: string, events: seq<Event>)
    ensures Run(pin, events).pin == pin
    decreases |events|
  {
    if events != [] { RunPin(pin, events[..|events| - 1]); }
  }

  lemma NextAdmits(s: State, e: Event, id: nat, given: string)
    ensures (id, given) in Handle(s, e).admitted
            <==> (id, given) in s.admitted
                 || (e == Arrives(id, Hello(s.pin)) && given == s.pin && !s.busy && s.settled.None?)
  {
  }

  lemma OtherSocketsStay(s: State, e: Event, id: nat)
    requires !e.TtlFires? && !e.ServerFails? && id != e.socket
    ensures id in Handle(s, e).sockets <==> id in s.sockets
    ensures id in s.sockets ==> Handle(s, e).sockets[id] == s.sockets[id]
  {
  }

  /** What an event does to its socket, which is let in until someone entered or the outcome is decided. */
  lemma SocketAfter(pin: string, events: seq<Event>)
    requires events != [] && Legal(pin, events)
    ensures
      var n := |events| - 1;
      var e, before, after := events[n], Run(pin, events[..n]).sockets, Run(pin, events).sockets;
      && (e.TtlFires? || e.ServerFails? ==> after == before)
      && (e.Connect? ==>
            e.socket in after && after[e.socket]
            == if SomeoneIn(pin, events[..n]) || !Undecided(pin, events, n) then Gone else AwaitingHello)
      && (e.Arrives? ==>
            e.socket in after && after[e.socket] == if EntersAt(pin, events, n, e.socket) then InSession else Gone)
      && (e.GivesUp? || e.SessionEnds? ==> e.socket in after && after[e.socket] == Gone)
  {
    var n := |events| - 1;
    LegalPrefix(pin, events, n);
    RunTracks(pin, events[..n]);
    DecidesEarly(pin, events, n);
    RunPin(pin, events[..n]);
    if events[n].Arrives? { EntersNow(pin, events, events[n].socket); }
    assert Undecided(pin, events[..n], n) <==> Undecided(pin, events, n);
  }
}
