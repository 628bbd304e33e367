/** The two sides of a pairing as steps between awaited messages and answers (src/sync/pair.ts). */
module Pairing {
  import opened Wrappers
  import opened Vaults
  import opened Transcript
  import opened Peers

  /** A message as its reader sees it: `None` where a hello or signature is absent or malformed. */
  datatype Wire =
    | HelloMsg(hello: Option<Hello>, sig: Option<Signature>)
    | SigMsg(sig: Option<Signature>)
    | ConfirmMsg(ok: bool)
    | SavedMsg(ok: bool)
    | ErrorMsg
    | OtherMsg

  datatype Answer = Yes | No | CannotAsk

  datatype Phase =
    | AwaitFirst
    | AwaitHello
    | AwaitSig
    | Asking
    | AwaitConfirm
    | Saving
    | AwaitSaved
    | Finished
    | Aborted

  /** What one side starts from. A listener has a role; a connector may ask for one. The hash is a parameter here. */
  datatype Config = Config(
    side: Side,
    identity: SyncIdentity,
    created: bool,
    hostName: string,
    nonce: string,
    role: Option<Role>,
    tls: string,
    vault: Vault,
    localName: Option<string>,
    replace: bool,
    now: int,
    address: Option<string>,
    fp: FingerprintOf,
    nameFor: string -> string,
    hash: Transcript -> Option<Digest>)
  {
    function Me(): Hello {
      Hello(identity.id, hostName, identity.ed25519.publicKey, identity.x25519.publicKey, nonce, role)
    }

    function Opts(): Options {
      Options(replace, localName.Some?, now)
    }
  }

  /** One side in the course of a pairing; `sent`, `accepted`, `loaded` and `said` record what happened. */
  datatype Session = Session(
    phase: Phase,
    theirs: Option<Hello>,
    transcript: Option<Transcript>,
    candidate: Option<PeerCandidate>,
    accepted: Option<Signature>,
    said: Option<bool>,
    heardYes: bool,
    loaded: Option<Vault>,
    saved: Option<Vault>,
    peerSaved: bool,
    sent: seq<Wire>)

  function Begin(c: Config): Session {
    var s := Session(AwaitFirst, None, None, None, None, None, false, None, None, false, []);
    if c.side == Listener then s else s.(phase := AwaitHello, sent := [HelloMsg(Some(c.Me()), None)])
  }

  function AbortWith(s: Session, m: Wire): Session {
    s.(phase := Aborted, sent := s.sent + [m])
  }

  /** Both roles and the transcript once the peer's hello is known; a connector insists on a stated role. */
  function Resolve(c: Config, theirs: Hello): Option<Transcript> {
    if c.side == Listener then
      if c.role.None? then None
      else
        var roles := ResolveRoles(c.role.value, theirs.role);
        if roles.Err? then None
        else Some(Transcript(c.tls, SettledHello(c.Me(), roles.value.0), SettledHello(theirs, roles.value.1)))
    else if theirs.role.None? then None
    else
      var roles := ResolveRoles(theirs.role.value, c.role);
      if roles.Err? then None
      else Some(Transcript(c.tls, SettledHello(theirs, roles.value.0), SettledHello(c.Me(), roles.value.1)))
  }

  function CandidateOf(c: Config, theirs: Hello, t: Transcript): PeerCandidate {
    PeerCandidate(theirs.id, c.localName.GetOr(c.nameFor(theirs.name)), theirs.ed25519, theirs.x25519,
                  if c.side == Listener then t.connector.role else t.listener.role, c.address)
  }

  /**
   The roles fit unless both want the same one; a listener has one and a connector's peer has to state it. What
   is then recorded is the peer as it introduced itself, in the role we do not have.
   */
  lemma CandidateIff(c: Config, theirs: Hello)
    ensures Resolve(c, theirs).Some?
            <==> && (if c.side == Listener then c.role else theirs.role).Some?
                 && (c.role.Some? && theirs.role.Some? ==> c.role != theirs.role)
    ensures Resolve(c, theirs).Some? ==>
              var t := Resolve(c, theirs).value;
              var cand := CandidateOf(c, theirs, t);
              && cand.id == theirs.id && cand.ed25519 == theirs.ed25519 && cand.x25519 == theirs.x25519
              && cand.name == (if c.localName.Some? then c.localName.value else c.nameFor(theirs.name))
              && cand.address == c.address
              && (c.role.Some? ==> Some(cand.role) != c.role) && (theirs.role.Some? ==> Some(cand.role) == theirs.role)
              && t.tlsFingerprint == c.tls
              && (if c.side == Listener then t.listener.hello == c.Me() && t.connector.hello == theirs
                  else t.connector.hello == c.Me() && t.listener.hello == theirs)
              && t.listener.role != t.connector.role
              && cand.role == (if c.side == Listener then t.connector.role else t.listener.role)
  {
  }

  /** The peer table would take this peer, as far as the vault read at the start goes. */
  ghost predicate Precheck(c: Config, cand: PeerCandidate) {
    Accepts(c.vault.(syncIdentity := Some(c.identity)), cand, c.Opts(), c.fp)
  }

  ghost function ReceiveFirst(c: Config, s: Session, m: Wire): Session {
    if !m.HelloMsg? || m.hello.None? then AbortWith(s, ErrorMsg)
    else
      var t := Resolve(c, m.hello.value);
      if t.None? then AbortWith(s, ErrorMsg)
      else if c.hash(t.value).None? then s.(phase := Aborted)
      else
        var cand := CandidateOf(c, m.hello.value, t.value);
        if !Precheck(c, cand) then AbortWith(s, ErrorMsg)
        else
          s.(phase := AwaitSig, theirs := m.hello, transcript := t, candidate := Some(cand),
             sent := s.sent + [HelloMsg(Some(c.Me()), Some(Sign(c.identity.ed25519.publicKey, Listener,
                                                                c.hash(t.value).value)))])
  }

  ghost function ReceiveHello(c: Config, s: Session, m: Wire): Session {
    if m.ErrorMsg? then s.(phase := Aborted)
    else if !m.HelloMsg? || m.hello.None? then AbortWith(s, ErrorMsg)
    else
      var t := Resolve(c, m.hello.value);
      if t.None? then AbortWith(s, ErrorMsg)
      else if c.hash(t.value).None? then s.(phase := Aborted)
      else if m.sig.None? || !Verifies(m.hello.value.ed25519, Listener, c.hash(t.value).value, m.sig.value) then
        AbortWith(s, ErrorMsg)
      else
        var cand := CandidateOf(c, m.hello.value, t.value);
        if !Precheck(c, cand) then AbortWith(s, ErrorMsg)
        else
          s.(phase := Asking, theirs := m.hello, transcript := t, candidate := Some(cand), accepted := m.sig,
             sent := s.sent + [SigMsg(Some(Sign(c.identity.ed25519.publicKey, Connector, c.hash(t.value).value)))])
  }

  function ReceiveSig(c: Config, s: Session, m: Wire): Session {
    if m.ErrorMsg? then s.(phase := Aborted)
    else if m.SigMsg? && m.sig.Some? && s.theirs.Some? && s.transcript.Some? && c.hash(s.transcript.value).Some?
            && Verifies(s.theirs.value.ed25519, Connector, c.hash(s.transcript.value).value, m.sig.value)
    then s.(phase := Asking, accepted := m.sig)
    else AbortWith(s, ErrorMsg)
  }

  function ReceiveConfirm(s: Session, m: Wire): Session {
    if m == ConfirmMsg(true) then s.(phase := Saving, heardYes := true) else s.(phase := Aborted)
  }

  function ReceiveSaved(s: Session, m: Wire): Session {
    s.(phase := Finished, peerSaved := m == SavedMsg(true))
  }

  function Answered(s: Session, a: Answer): Session {
    if a == Yes then s.(phase := AwaitConfirm, said := Some(true), sent := s.sent + [ConfirmMsg(true)])
    else s.(phase := Aborted, said := Some(false), sent := s.sent + [ConfirmMsg(false)])
  }

  /** The vault to write to, read again at the end; nothing if its identity is not the one that was paired. */
  function StoreBase(c: Config, current: Vault): Option<Vault> {
    if c.created then
      if current.syncIdentity.Some? then None else Some(current.(syncIdentity := Some(c.identity)))
    else if current.syncIdentity.Some? && current.syncIdentity.value.id == c.identity.id then Some(current)
    else None
  }

  /** An identity minted for this pairing goes into a vault that still has none; any other has to be the same still. */
  lemma StoreBaseIff(c: Config, current: Vault)
    ensures StoreBase(c, current).Some?
            <==> if c.created then current.syncIdentity == None
                 else exists i :: current.syncIdentity == Some(i) && i.id == c.identity.id
    ensures StoreBase(c, current).Some? ==>
              && (c.created ==> StoreBase(c, current).value.syncIdentity == Some(c.identity))
              && StoreBase(c, current).value.(syncIdentity := current.syncIdentity) == current
              && (!c.created ==> StoreBase(c, current).value == current)
  {
  }

  function Stored(s: Session, current: Option<Vault>, plan: Option<PeerPlan>, written: bool): Session {
    if plan.Some? && written then
      s.(phase := AwaitSaved, loaded := current, saved := Some(plan.value.vault), sent := s.sent + [SavedMsg(true)])
    else s.(phase := Aborted, sent := s.sent + [SavedMsg(false)])
  }

  datatype Event =
    | Got(msg: Wire)
    | NoMessage
    | Human(answer: Answer)
    | Store(current: Option<Vault>, plan: Option<PeerPlan>, written: bool)

  predicate Awaits(p: Phase) {
    p.AwaitFirst? || p.AwaitHello? || p.AwaitSig? || p.AwaitConfirm? || p.AwaitSaved?
  }

  /** The plan is what the peer table's rules make of the vault just read. */
  ghost predicate PlansFor(c: Config, s: Session, current: Option<Vault>, plan: Option<PeerPlan>) {
    if current.Some? && StoreBase(c, current.value).Some? && s.candidate.Some? then
      var base := StoreBase(c, current.value).value;
      && (plan.Some? <==> Accepts(base, s.candidate.value, c.Opts(), c.fp))
      && (plan.Some? ==> IsPlan(base, s.candidate.value, c.Opts(), c.fp, plan.value))
    else plan.None?
  }

  ghost predicate Enabled(c: Config, s: Session, e: Event) {
    match e
    case Got(_) => Awaits(s.phase)
    case NoMessage => Awaits(s.phase)
    case Human(_) => s.phase == Asking
    case Store(current, plan, _) => s.phase == Saving && PlansFor(c, s, current, plan)
  }

  ghost function Resume(c: Config, s: Session, e: Event): Session {
    match e
    case Got(m) =>
      (match s.phase
       case AwaitFirst => ReceiveFirst(c, s, m)
       case AwaitHello => ReceiveHello(c, s, m)
       case AwaitSig => ReceiveSig(c, s, m)
       case AwaitConfirm => ReceiveConfirm(s, m)
       case _ => ReceiveSaved(s, m))
    case NoMessage => if s.phase == AwaitSaved then s.(phase := Finished) else s.(phase := Aborted)
    case Human(a) => Answered(s, a)
    case Store(current, plan, written) => Stored(s, current, plan, written)
  }

  /** Whoever refuses an introduction says so, unless the peer did first or the texts cannot be hashed. */
  lemma RefusalIsSent(c: Config, s: Session, m: Wire)
    requires Enabled(c, s, Got(m)) && !m.ErrorMsg? && (s.phase.AwaitFirst? || s.phase.AwaitHello? || s.phase.AwaitSig?)
    requires Resume(c, s, Got(m)).phase.Aborted?
    ensures Resume(c, s, Got(m)).sent == s.sent + [ErrorMsg]
            || (m.HelloMsg? && m.hello.Some? && Resolve(c, m.hello.value).Some?
                && c.hash(Resolve(c, m.hello.value).value).None? && Resume(c, s, Got(m)).sent == s.sent)
  {
  }

  // ---------- one side, against any peer and any network ----------

  /** The vault written is the one just read, with the peer's entry and, if it was minted here, our identity. */
  ghost predicate WrittenFrom(c: Config, s: Session) {
    && s.loaded.Some? && s.saved.Some? && s.candidate.Some?
    && var cand, before, after := s.candidate.value, s.loaded.value, s.saved.value;
    && after.(syncPeers := before.syncPeers, syncIdentity := before.syncIdentity) == before
    && (after.syncIdentity == if c.created then Some(c.identity) else before.syncIdentity)
    && (c.created ==> before.syncIdentity.None?)
    && cand.id in TableOf(after)
    && var p := TableOf(after)[cand.id];
       p.ed25519 == cand.ed25519 && p.x25519 == cand.x25519 && p.role == cand.role
  }

  /** A message this side may have sent. */
  ghost predicate Honest(c: Config, s: Session, m: Wire) {
    match m
    case HelloMsg(h, sig) =>
      && h == Some(c.Me())
      && (sig.Some? ==> s.transcript.Some? && c.hash(s.transcript.value).Some? && c.side == Listener
                        && sig.value == Sign(c.identity.ed25519.publicKey, Listener, c.hash(s.transcript.value).value))
    case SigMsg(sig) =>
      && sig.Some? && s.transcript.Some? && c.hash(s.transcript.value).Some? && c.side == Connector
      && sig.value == Sign(c.identity.ed25519.publicKey, Connector, c.hash(s.transcript.value).value)
    case ConfirmMsg(ok) => ok ==> s.said == Some(true)
    case SavedMsg(ok) => ok ==> s.saved.Some?
    case _ => true
  }

  ghost predicate Introduced(c: Config, s: Session) {
    && s.theirs.Some? && s.transcript.Some? && s.candidate.Some?
    && s.transcript == Resolve(c, s.theirs.value)
    && c.hash(s.transcript.value).Some?
    && s.candidate.value == CandidateOf(c, s.theirs.value, s.transcript.value)
  }

  /** The peer proved that it holds the key it presented, for this very transcript. */
  ghost predicate Proven(c: Config, s: Session) {
    && Introduced(c, s) && s.accepted.Some?
    && Verifies(s.theirs.value.ed25519, if c.side == Listener then Connector else Listener,
                c.hash(s.transcript.value).value, s.accepted.value)
  }

  ghost predicate SessionOk(c: Config, s: Session) {
    && (s.phase.AwaitFirst? || s.phase.AwaitHello? ==> s.transcript.None?)
    && (s.phase.AwaitSig? ==> Introduced(c, s) && c.side == Listener)
    && (s.phase.AwaitHello? ==> c.side == Connector) && (s.phase.AwaitFirst? ==> c.side == Listener)
    && (s.transcript.Some? ==> Introduced(c, s))
    && (s.said.Some? || s.phase.Asking? ==> Proven(c, s))
    && (s.phase.AwaitFirst? || s.phase.AwaitHello? || s.phase.AwaitSig? || s.phase.Asking? ==> s.said.None?)
    && (s.phase.AwaitConfirm? || s.phase.Saving? ==> s.said == Some(true))
    && (s.heardYes ==> s.said == Some(true)) && (s.phase.Saving? ==> s.heardYes)
    && (s.saved.Some? ==> s.heardYes && WrittenFrom(c, s))
    && (s.phase.AwaitSaved? || s.phase.Finished? ==> s.saved.Some?)
    && (s.saved.None? ==> !s.peerSaved)
    && (s.saved.Some? ==> s.phase.AwaitSaved? || s.phase.Finished?)
    && forall m :: m in s.sent ==> Honest(c, s, m)
  }

  /** What is known, said, written or sent stays so. */
  ghost predicate Grows(s: Session, s': Session) {
    && (s.transcript.Some? ==> s'.transcript == s.transcript && s'.theirs == s.theirs && s'.candidate == s.candidate)
    && (s.said.Some? ==> s'.said == s.said && s'.accepted == s.accepted)
    && (s.saved.Some? ==> s'.saved == s.saved && s'.loaded == s.loaded)
    && s.sent <= s'.sent
  }

  lemma SentStaysHonest(c: Config, s: Session, s': Session, added: seq<Wire>)
    requires forall m :: m in s.sent ==> Honest(c, s, m)
    requires Grows(s, s') && s'.sent == s.sent + added
    requires forall m :: m in added ==> Honest(c, s', m)
    ensures forall m :: m in s'.sent ==> Honest(c, s', m)
  {
    forall m | m in s'.sent ensures Honest(c, s', m) {
      if m in s.sent {
        assert Honest(c, s, m);
      }
    }
  }

  lemma SameSent(s: Session)
    ensures s.sent == s.sent + []
  {
  }

  lemma FirstKept(c: Config, s: Session, m: Wire)
    requires SessionOk(c, s) && s.phase.AwaitFirst?
    ensures SessionOk(c, ReceiveFirst(c, s, m)) && Grows(s, ReceiveFirst(c, s, m))
  {
    var s' := ReceiveFirst(c, s, m);
    SameSent(s);
    SentStaysHonest(c, s, s', s'.sent[|s.sent|..]);
  }

  lemma HelloKept(c: Config, s: Session, m: Wire)
    requires SessionOk(c, s) && s.phase.AwaitHello?
    ensures SessionOk(c, ReceiveHello(c, s, m)) && Grows(s, ReceiveHello(c, s, m))
  {
    var s' := ReceiveHello(c, s, m);
    SameSent(s);
    SentStaysHonest(c, s, s', s'.sent[|s.sent|..]);
  }

  lemma SigKept(c: Config, s: Session, m: Wire)
    requires SessionOk(c, s) && s.phase.AwaitSig?
    ensures SessionOk(c, ReceiveSig(c, s, m)) && Grows(s, ReceiveSig(c, s, m))
  {
    var s' := ReceiveSig(c, s, m);
    SameSent(s);
    SentStaysHonest(c, s, s', s'.sent[|s.sent|..]);
  }

  lemma TailKept(c: Config, s: Session, m: Wire)
    requires SessionOk(c, s)
    ensures s.phase.AwaitConfirm? ==> SessionOk(c, ReceiveConfirm(s, m)) && Grows(s, ReceiveConfirm(s, m))
    ensures s.phase.AwaitSaved? ==> SessionOk(c, ReceiveSaved(s, m)) && Grows(s, ReceiveSaved(s, m))
  {
    SameSent(s);
    SentStaysHonest(c, s, ReceiveConfirm(s, m), []);
    SentStaysHonest(c, s, ReceiveSaved(s, m), []);
  }

  lemma AnswerKept(c: Config, s: Session, a: Answer)
    requires SessionOk(c, s) && s.phase.Asking?
    ensures SessionOk(c, Answered(s, a)) && Grows(s, Answered(s, a))
  {
    SentStaysHonest(c, s, Answered(s, a), [ConfirmMsg(a == Yes)]);
  }

  lemma StoreKept(c: Config, s: Session, current: Option<Vault>, plan: Option<PeerPlan>, written: bool)
    requires SessionOk(c, s) && s.phase.Saving? && PlansFor(c, s, current, plan)
    ensures SessionOk(c, Stored(s, current, plan, written)) && Grows(s, Stored(s, current, plan, written))
  {
    var s' := Stored(s, current, plan, written);
    SentStaysHonest(c, s, s', s'.sent[|s.sent|..]);
  }

  lemma SessionKept(c: Config, s: Session, e: Event)
    requires SessionOk(c, s) && Enabled(c, s, e)
    ensures SessionOk(c, Resume(c, s, e)) && Grows(s, Resume(c, s, e))
  {
    match e
    case Store(current, plan, written) => StoreKept(c, s, current, plan, written);
    case Human(a) => AnswerKept(c, s, a);
    case NoMessage => SentStaysHonest(c, s, Resume(c, s, e), []);
    case Got(m) =>
      match s.phase
      case AwaitFirst => FirstKept(c, s, m);
      case AwaitHello => HelloKept(c, s, m);
      case AwaitSig => SigKept(c, s, m);
      case _ => TailKept(c, s, m);
  }

  // ---------- every run of one side ----------

  ghost function RunSide(c: Config, events: seq<Event>): Session {
    if events == [] then Begin(c) else Resume(c, RunSide(c, events[..|events| - 1]), events[|events| - 1])
  }

  ghost predicate LegalSide(c: Config, events: seq<Event>) {
    forall i :: 0 <= i < |events| ==> Enabled(c, RunSide(c, events[..i]), events[i])
  }

  lemma LegalPrefix(c: Config, events: seq<Event>, i: nat)
    requires LegalSide(c, events) && i <= |events|
    ensures LegalSide(c, events[..i])
  {
    forall k | 0 <= k < i ensures Enabled(c, RunSide(c, events[..i][..k]), events[..i][k]) {
      assert events[..i][..k] == events[..k];
    }
  }

  lemma {:induction false} SideStaysOk(c: Config, events: seq<Event>)
    requires LegalSide(c, events)
    ensures SessionOk(c, RunSide(c, events))
    decreases |events|
  {
    if events != [] {
      var n := |events| - 1;
      LegalPrefix(c, events, n);
      SideStaysOk(c, events[..n]);
      assert Enabled(c, RunSide(c, events[..n]), events[n]);
      SessionKept(c, RunSide(c, events[..n]), events[n]);
    }
  }

  ghost predicate SaidYesBefore(events: seq<Event>, i: nat) {
    exists j :: 0 <= j < i <= |events| && events[j] == Human(Yes)
  }

  ghost predicate HeardYesBefore(events: seq<Event>, i: nat) {
    exists k :: 0 <= k < i <= |events| && events[k] == Got(ConfirmMsg(true)) && SaidYesBefore(events, k)
  }

  /** The records of a session are explained by its events. */
  lemma {:induction false} WhyHeard(c: Config, events: seq<Event>, i: nat)
    requires LegalSide(c, events) && i <= |events|
    ensures RunSide(c, events[..i]).said == Some(true) ==> SaidYesBefore(events, i)
    ensures RunSide(c, events[..i]).heardYes ==> HeardYesBefore(events, i)
    decreases i
  {
    if i > 0 {
      WhyHeard(c, events, i - 1);
      assert events[..i][..i - 1] == events[..i - 1];
      var s, e := RunSide(c, events[..i - 1]), events[i - 1];
      assert Enabled(c, s, e);
      LegalPrefix(c, events, i - 1);
      SideStaysOk(c, events[..i - 1]);
      SaidByAnswer(c, s, e);
      assert SaidYesBefore(events, i - 1) ==> SaidYesBefore(events, i);
      assert HeardYesBefore(events, i - 1) ==> HeardYesBefore(events, i);
    }
  }

  lemma SaidByAnswer(c: Config, s: Session, e: Event)
    requires SessionOk(c, s) && Enabled(c, s, e)
    ensures
      var s' := Resume(c, s, e);
      && (s'.said == Some(true) && s.said != Some(true) ==> e == Human(Yes))
      && (s'.heardYes && !s.heardYes ==> e == Got(ConfirmMsg(true)) && s.said == Some(true))
  {
  }

  /**
   Against any peer, any network and in any order of events: the vault is written only after the local
   user said yes and, later, the peer's yes arrived.
   */
  lemma WriteNeedsBothConfirms(c: Config, events: seq<Event>, i: nat)
    requires LegalSide(c, events) && i < |events|
    requires events[i].Store?
    ensures HeardYesBefore(events, i)
    ensures
      var s := RunSide(c, events[..i]);
      Proven(c, s) && (Resume(c, s, events[i]).saved.Some? ==> WrittenFrom(c, Resume(c, s, events[i])))
  {
    assert Enabled(c, RunSide(c, events[..i]), events[i]);
    LegalPrefix(c, events, i);
    SideStaysOk(c, events[..i]);
    WhyHeard(c, events, i);
    SessionKept(c, RunSide(c, events[..i]), events[i]);
  }
}
