/** One side of a pairing as the program runs it: what happens between two awaited messages or answers. */
module PairSessions {
  import opened Wrappers
  import opened Vaults
  import opened Transcript
  import opened Peers
  import opened Pairing

  class PairSession {
    const c: Config
    var phase: Phase
    var theirs: Option<Hello>
    var transcript: Option<Transcript>
    var candidate: Option<PeerCandidate>
    var saved: Option<Vault>
    var peerSaved: bool
    var sent: seq<Wire>
    ghost var accepted: Option<Signature>
    ghost var said: Option<bool>
    ghost var heardYes: bool
    ghost var loaded: Option<Vault>

    ghost function View(): Session
      reads this
    {
      Session(phase, theirs, transcript, candidate, accepted, said, heardYes, loaded, saved, peerSaved, sent)
    }

    /** A connector speaks first. */
    constructor (c: Config)
      ensures this.c == c && View() == Begin(c)
    {
      this.c := c;
      theirs, transcript, candidate, saved, peerSaved := None, None, None, None, false;
      accepted, said, heardYes, loaded := None, None, false, None;
      if c.side == Listener {
        phase, sent := AwaitFirst, [];
      } else {
        phase, sent := AwaitHello, [HelloMsg(Some(c.Me()), None)];
      }
    }

    method Abort(m: Wire)
      modifies this`phase, this`sent
      ensures View() == AbortWith(old(View()), m)
    {
      sent := sent + [m];
      phase := Aborted;
    }

    method PrecheckPlan(cand: PeerCandidate) returns (ok: bool)
      ensures ok <==> Precheck(c, cand)
    {
      var r := PlanPeerUpsert(c.vault.(syncIdentity := Some(c.identity)), cand, c.Opts(), c.fp);
      return r.Ok?;
    }

    /** The listener's side of the introduction: validate, settle the roles, check the table, answer signed. */
    method OnFirst(m: Wire)
      requires phase.AwaitFirst?
      modifies this
      ensures View() == ReceiveFirst(c, old(View()), m)
    {
      if !m.HelloMsg? || m.hello.None? {
        Abort(ErrorMsg);
        return;
      }
      var t := Resolve(c, m.hello.value);
      if t.None? {
        Abort(ErrorMsg);
        return;
      }
      var digest := c.hash(t.value);
      if digest.None? {
        phase := Aborted;
        return;
      }
      var cand := CandidateOf(c, m.hello.value, t.value);
      var ok := PrecheckPlan(cand);
      if !ok {
        Abort(ErrorMsg);
        return;
      }
      theirs, transcript, candidate := m.hello, t, Some(cand);
      sent := sent + [HelloMsg(Some(c.Me()), Some(Sign(c.identity.ed25519.publicKey, Listener, digest.value)))];
      phase := AwaitSig;
    }

    /** The connector's side of it: the listener's signature is checked before anything is signed here. */
    method OnHello(m: Wire)
      requires phase.AwaitHello?
      modifies this
      ensures View() == ReceiveHello(c, old(View()), m)
    {
      if m.ErrorMsg? {
        phase := Aborted;
        return;
      }
      if !m.HelloMsg? || m.hello.None? {
        Abort(ErrorMsg);
        return;
      }
      var t := Resolve(c, m.hello.value);
      if t.None? {
        Abort(ErrorMsg);
        return;
      }
      var digest := c.hash(t.value);
      if digest.None? {
        phase := Aborted;
        return;
      }
      if m.sig.None? || !Verifies(m.hello.value.ed25519, Listener, digest.value, m.sig.value) {
        Abort(ErrorMsg);
        return;
      }
      var cand := CandidateOf(c, m.hello.value, t.value);
      var ok := PrecheckPlan(cand);
      if !ok {
        Abort(ErrorMsg);
        return;
      }
      theirs, transcript, candidate, accepted := m.hello, t, Some(cand), m.sig;
      sent := sent + [SigMsg(Some(Sign(c.identity.ed25519.publicKey, Connector, digest.value)))];
      phase := Asking;
    }

    method OnSig(m: Wire)
      requires phase.AwaitSig? && SessionOk(c, View())
      modifies this
      ensures View() == ReceiveSig(c, old(View()), m)
      ensures phase == Asking
              <==> && m.SigMsg? && m.sig.Some?
                   && Verifies(theirs.value.ed25519, Connector, c.hash(transcript.value).value, m.sig.value)
    {
      if m.ErrorMsg? {
        phase := Aborted;
        return;
      }
      if !m.SigMsg? || m.sig.None?
         || !Verifies(theirs.value.ed25519, Connector, c.hash(transcript.value).value, m.sig.value) {
        Abort(ErrorMsg);
        return;
      }
      accepted := m.sig;
      phase := Asking;
    }

    /** The comparison of the codes: the answer is sent either way, and anything but a yes ends the pairing. */
    method OnAnswer(a: Answer)
      requires phase.Asking? && SessionOk(c, View())
      modifies this
      ensures View() == Answered(old(View()), a) && SessionOk(c, View())
      ensures sent == old(sent) + [ConfirmMsg(a == Yes)] && phase == if a == Yes then AwaitConfirm else Aborted
    {
      AnswerKept(c, View(), a);
      if a == CannotAsk {
        said := Some(false);
        Abort(ConfirmMsg(false));
        return;
      }
      var ok := a == Yes;
      said := Some(ok);
      sent := sent + [ConfirmMsg(ok)];
      phase := if ok then AwaitConfirm else Aborted;
    }

    method OnConfirm(m: Wire)
      requires phase.AwaitConfirm?
      modifies this
      ensures View() == ReceiveConfirm(old(View()), m)
      ensures phase == (if m == ConfirmMsg(true) then Saving else Aborted) && sent == old(sent) && saved == old(saved)
    {
      if m.ErrorMsg? {
        phase := Aborted;
        return;
      }
      if !m.ConfirmMsg? || !m.ok {
        phase := Aborted;
        return;
      }
      heardYes := true;
      phase := Saving;
    }

    /** Reads the vault again, plans on it and writes; `saveOk` is whether the write succeeded. */
    method OnStore(current: Option<Vault>, saveOk: bool) returns (ghost plan: Option<PeerPlan>)
      requires phase.Saving? && SessionOk(c, View())
      modifies this
      ensures PlansFor(c, old(View()), current, plan)
      ensures View() == Stored(old(View()), current, plan, saveOk)
      ensures SessionOk(c, View())
      ensures phase == (if plan.Some? && saveOk then AwaitSaved else Aborted)
      ensures sent == old(sent) + [SavedMsg(plan.Some? && saveOk)]
      ensures plan.Some? && saveOk ==> saved == Some(plan.value.vault)
      ensures saved.Some? ==> said == Some(true) && heardYes && Proven(c, View()) && WrittenFrom(c, View())
    {
      ghost var s := View();
      plan := None;
      if current.Some? {
        var base := StoreBase(c, current.value);
        if base.Some? {
          var r := PlanPeerUpsert(base.value, candidate.value, c.Opts(), c.fp);
          if r.Ok? {
            plan := Some(r.value);
            if saveOk {
              loaded, saved := current, Some(r.value.vault);
              sent := sent + [SavedMsg(true)];
              phase := AwaitSaved;
              StoreKept(c, s, current, plan, saveOk);
              return;
            }
          }
        }
      }
      Abort(SavedMsg(false));
      StoreKept(c, s, current, plan, saveOk);
    }

    /** Whatever comes: the pairing stands, and `peerSaved` says whether the peer acknowledged. */
    method OnAck(m: Wire)
      requires phase.AwaitSaved?
      modifies this
      ensures View() == ReceiveSaved(old(View()), m)
      ensures phase == Finished && (peerSaved <==> m == SavedMsg(true)) && saved == old(saved)
    {
      peerSaved := m.SavedMsg? && m.ok;
      phase := Finished;
    }

    /** A message, or none in time: nothing unwritten is written, and what is said or written stays. */
    method OnMessage(m: Option<Wire>)
      requires Awaits(phase) && SessionOk(c, View())
      modifies this
      ensures View() == Resume(c, old(View()), if m.Some? then Got(m.value) else NoMessage)
      ensures SessionOk(c, View()) && Grows(old(View()), View())
      ensures saved == old(saved) && (peerSaved && !old(peerSaved) ==> saved.Some? && m == Some(SavedMsg(true)))
    {
      ghost var s := View();
      SessionKept(c, s, if m.Some? then Got(m.value) else NoMessage);
      if m.None? {
        phase := if phase == AwaitSaved then Finished else Aborted;
        return;
      }
      match phase
      case AwaitFirst => OnFirst(m.value);
      case AwaitHello => OnHello(m.value);
      case AwaitSig => OnSig(m.value);
      case AwaitConfirm => OnConfirm(m.value);
      case AwaitSaved => OnAck(m.value);
    }
  }
}
