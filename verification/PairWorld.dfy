/** Both sides of a pairing together: over an honest channel, and over one that an attacker controls. */
module PairWorld {
  import opened Wrappers
  import opened Vaults
  import opened Transcript
  import opened Peers
  import opened Pairing

  /** The real hash, where the texts can be framed at all. */
  function TranscriptDigest(t: Transcript): Option<Digest> {
    if Fits(TranscriptTexts(t)) then Some(TranscriptHash(t)) else None
  }

  ghost predicate HashesAlike(cl: Config, cc: Config) {
    forall t :: cl.hash(t) == TranscriptDigest(t) && cc.hash(t) == TranscriptDigest(t)
  }

  ghost predicate IsPair(cl: Config, cc: Config) {
    cl.side == Listener && cl.role.Some? && cc.side == Connector
  }

  /** The connection really ends at the listener: the certificate seen is the one it shows. */
  ghost predicate SameCertificate(cl: Config, cc: Config) {
    NormalizeFingerprint(cl.tls) == NormalizeFingerprint(cc.tls)
  }

  // ---------- agreement ----------

  /** Each side knows the other under its real id and keys, in complementary roles. */
  ghost predicate Agree(cl: Config, l: Session, cc: Config, c: Session) {
    && l.candidate.Some? && c.candidate.Some?
    && var a, b := l.candidate.value, c.candidate.value;
    && a.id == cc.identity.id && a.ed25519 == cc.identity.ed25519.publicKey
    && a.x25519 == cc.identity.x25519.publicKey
    && b.id == cl.identity.id && b.ed25519 == cl.identity.ed25519.publicKey
    && b.x25519 == cl.identity.x25519.publicKey
    && b.role == cl.role.GetOr(b.role) && a.role == OppositeRole(b.role)
  }

  lemma ResolvedParts(c: Config, theirs: Hello)
    requires Resolve(c, theirs).Some?
    ensures
      var t := Resolve(c, theirs).value;
      && t.tlsFingerprint == c.tls && t.connector.role == OppositeRole(t.listener.role)
      && (if c.side == Listener
          then t.listener.hello == c.Me() && t.connector.hello == theirs && c.role == Some(t.listener.role)
          else t.connector.hello == c.Me() && t.listener.hello == theirs && theirs.role == Some(t.listener.role))
  {
  }

  /** Two sides that bound the same transcript agree on everything they are about to store. */
  lemma BindingAgrees(cl: Config, l: Session, cc: Config, c: Session)
    requires IsPair(cl, cc) && SessionOk(cl, l) && SessionOk(cc, c)
    requires l.transcript.Some? && c.transcript.Some? && SameBinding(l.transcript.value, c.transcript.value)
    ensures Agree(cl, l, cc, c) && SameCertificate(cl, cc)
  {
    ResolvedParts(cl, l.theirs.value);
    ResolvedParts(cc, c.theirs.value);
  }

  /** Equal digests, which is what the users compare by their safety codes, leave no room for a different peer. */
  lemma SameDigestAgrees(cl: Config, l: Session, cc: Config, c: Session)
    requires IsPair(cl, cc) && HashesAlike(cl, cc) && SessionOk(cl, l) && SessionOk(cc, c)
    requires l.transcript.Some? && c.transcript.Some?
    requires cl.hash(l.transcript.value) == cc.hash(c.transcript.value)
    ensures Agree(cl, l, cc, c) && SameCertificate(cl, cc)
  {
    TranscriptBinds(l.transcript.value, c.transcript.value);
    BindingAgrees(cl, l, cc, c);
  }

  ghost predicate SentBy(s: Session, sig: Signature) {
    exists m :: m in s.sent && (m == SigMsg(Some(sig)) || (m.HelloMsg? && m.sig == Some(sig)))
  }

  /**
   Whatever was changed on the way: if a side was shown a key of the honest peer, and that key's signatures
   come from the peer alone, then the two agree.
   */
  lemma SignatureAgrees(cl: Config, l: Session, cc: Config, c: Session)
    requires IsPair(cl, cc) && HashesAlike(cl, cc) && SessionOk(cl, l) && SessionOk(cc, c)
    requires
      || (Proven(cl, l) && l.theirs.value.ed25519 == cc.identity.ed25519.publicKey && SentBy(c, l.accepted.value))
      || (Proven(cc, c) && c.theirs.value.ed25519 == cl.identity.ed25519.publicKey && SentBy(l, c.accepted.value))
    ensures Agree(cl, l, cc, c)
  {
    if Proven(cl, l) && l.theirs.value.ed25519 == cc.identity.ed25519.publicKey && SentBy(c, l.accepted.value) {
      var m :| m in c.sent && (m == SigMsg(l.accepted) || (m.HelloMsg? && m.sig == l.accepted));
      assert Honest(cc, c, m);
    } else {
      var m :| m in l.sent && (m == SigMsg(c.accepted) || (m.HelloMsg? && m.sig == c.accepted));
      assert Honest(cl, l, m);
    }
    SameDigestAgrees(cl, l, cc, c);
  }

  // ---------- runs of both sides ----------

  /** `readL` and `readC` count the other's messages each side has taken off its channel. */
  datatype Both = Both(l: Session, c: Session, readL: nat, readC: nat)

  datatype Move = Move(side: Side, event: Event)

  /** First in, first out; timeouts and disconnects may come at any time. */
  ghost predicate Honestly(w: Both, m: Move) {
    m.event.Got? ==>
      if m.side == Listener then w.readL < |w.c.sent| && m.event.msg == w.c.sent[w.readL]
      else w.readC < |w.l.sent| && m.event.msg == w.l.sent[w.readC]
  }

  /** Any message may arrive, but a user says yes only to a code that the other screen shows too. */
  ghost predicate Compared(cl: Config, cc: Config, w: Both, m: Move) {
    m.event == Human(Yes) ==>
      w.l.transcript.Some? && w.c.transcript.Some? && cl.hash(w.l.transcript.value) == cc.hash(w.c.transcript.value)
  }

  ghost predicate CanMove(cl: Config, cc: Config, w: Both, m: Move) {
    if m.side == Listener then Enabled(cl, w.l, m.event) else Enabled(cc, w.c, m.event)
  }

  ghost function Moved(cl: Config, cc: Config, w: Both, m: Move): Both {
    var read := if m.event.Got? then 1 else 0;
    if m.side == Listener then w.(l := Resume(cl, w.l, m.event), readL := w.readL + read)
    else w.(c := Resume(cc, w.c, m.event), readC := w.readC + read)
  }

  ghost function RunBoth(cl: Config, cc: Config, moves: seq<Move>): Both {
    if moves == [] then Both(Begin(cl), Begin(cc), 0, 0)
    else Moved(cl, cc, RunBoth(cl, cc, moves[..|moves| - 1]), moves[|moves| - 1])
  }

  /** What one side believes about the other over an honest channel. */
  ghost predicate Believes(s: Session, pc: Config, p: Session) {
    && (s.theirs.Some? ==> s.theirs.value == pc.Me())
    && (s.heardYes ==> p.said == Some(true))
    && (s.peerSaved ==> p.saved.Some?)
  }

  lemma BelievesKept(c: Config, s: Session, pc: Config, p: Session, e: Event)
    requires SessionOk(c, s) && SessionOk(pc, p) && Believes(s, pc, p) && Enabled(c, s, e)
    requires e.Got? ==> e.msg in p.sent
    ensures Believes(Resume(c, s, e), pc, p)
  {
    if e.Got? {
      assert Honest(pc, p, e.msg);
    }
  }

  lemma BelievesStays(s: Session, pc: Config, p: Session, p': Session)
    requires Believes(s, pc, p) && Grows(p, p')
    ensures Believes(s, pc, p')
  {
  }

  lemma {:induction false} BothOk(cl: Config, cc: Config, moves: seq<Move>)
    requires IsPair(cl, cc)
    requires forall i :: 0 <= i < |moves| ==> CanMove(cl, cc, RunBoth(cl, cc, moves[..i]), moves[i])
    ensures SessionOk(cl, RunBoth(cl, cc, moves).l) && SessionOk(cc, RunBoth(cl, cc, moves).c)
    decreases |moves|
  {
    if moves != [] {
      var n := |moves| - 1;
      PrefixMoves(cl, cc, moves, n);
      BothOk(cl, cc, moves[..n]);
      var w, m := RunBoth(cl, cc, moves[..n]), moves[n];
      assert CanMove(cl, cc, w, m);
      if m.side == Listener { SessionKept(cl, w.l, m.event); } else { SessionKept(cc, w.c, m.event); }
    }
  }

  lemma PrefixMoves(cl: Config, cc: Config, moves: seq<Move>, n: nat)
    requires n <= |moves|
    ensures forall i :: 0 <= i < n ==> moves[..n][..i] == moves[..i] && moves[..n][i] == moves[i]
  {
  }

  ghost predicate LegalHonest(cl: Config, cc: Config, moves: seq<Move>) {
    forall i :: 0 <= i < |moves| ==>
                  && CanMove(cl, cc, RunBoth(cl, cc, moves[..i]), moves[i])
                  && Honestly(RunBoth(cl, cc, moves[..i]), moves[i])
  }

  ghost predicate LegalCompared(cl: Config, cc: Config, moves: seq<Move>) {
    forall i :: 0 <= i < |moves| ==>
                  && CanMove(cl, cc, RunBoth(cl, cc, moves[..i]), moves[i])
                  && Compared(cl, cc, RunBoth(cl, cc, moves[..i]), moves[i])
  }

  lemma HonestMove(cl: Config, cc: Config, w: Both, m: Move)
    requires SessionOk(cl, w.l) && SessionOk(cc, w.c) && Believes(w.l, cc, w.c) && Believes(w.c, cl, w.l)
    requires CanMove(cl, cc, w, m) && Honestly(w, m)
    ensures Believes(Moved(cl, cc, w, m).l, cc, Moved(cl, cc, w, m).c)
    ensures Believes(Moved(cl, cc, w, m).c, cl, Moved(cl, cc, w, m).l)
  {
    if m.side == Listener {
      SessionKept(cl, w.l, m.event);
      BelievesKept(cl, w.l, cc, w.c, m.event);
      BelievesStays(w.c, cl, w.l, Resume(cl, w.l, m.event));
    } else {
      SessionKept(cc, w.c, m.event);
      BelievesKept(cc, w.c, cl, w.l, m.event);
      BelievesStays(w.l, cc, w.c, Resume(cc, w.c, m.event));
    }
  }

  lemma {:induction false} HonestBeliefs(cl: Config, cc: Config, moves: seq<Move>)
    requires IsPair(cl, cc) && LegalHonest(cl, cc, moves)
    ensures
      var w := RunBoth(cl, cc, moves);
      && SessionOk(cl, w.l) && SessionOk(cc, w.c) && Believes(w.l, cc, w.c) && Believes(w.c, cl, w.l)
    decreases |moves|
  {
    BothOk(cl, cc, moves);
    if moves != [] {
      var n := |moves| - 1;
      PrefixMoves(cl, cc, moves, n);
      HonestBeliefs(cl, cc, moves[..n]);
      HonestMove(cl, cc, RunBoth(cl, cc, moves[..n]), moves[n]);
    }
  }

  /** The entry a side wrote for its peer. */
  ghost predicate HasRecord(s: Session, id: string, ed25519: string, x25519: string, role: Role) {
    && s.saved.Some? && id in TableOf(s.saved.value)
    && var p := TableOf(s.saved.value)[id];
       p.ed25519 == ed25519 && p.x25519 == x25519 && p.role == role
  }

  /** What each side that wrote has on record: the other machine, in the role it really took. */
  ghost predicate RecordsAgree(cl: Config, cc: Config, w: Both) {
    var role := cl.role.GetOr(Source);
    && (w.l.saved.Some? ==>
          HasRecord(w.l, cc.identity.id, cc.identity.ed25519.publicKey, cc.identity.x25519.publicKey,
                    OppositeRole(role)))
    && (w.c.saved.Some? ==>
          HasRecord(w.c, cl.identity.id, cl.identity.ed25519.publicKey, cl.identity.x25519.publicKey, role))
  }

  lemma AgreementIsRecorded(cl: Config, cc: Config, w: Both)
    requires IsPair(cl, cc) && SessionOk(cl, w.l) && SessionOk(cc, w.c) && Agree(cl, w.l, cc, w.c)
    ensures RecordsAgree(cl, cc, w)
  {
  }

  /** What both sides did together, if either of them wrote. */
  ghost predicate Paired(cl: Config, cc: Config, w: Both) {
    && w.l.said == Some(true) && w.c.said == Some(true)
    && w.l.transcript.Some? && w.c.transcript.Some? && SameBinding(w.l.transcript.value, w.c.transcript.value)
    && Agree(cl, w.l, cc, w.c) && RecordsAgree(cl, cc, w)
  }

  lemma SavedMeansPaired(cl: Config, cc: Config, w: Both)
    requires IsPair(cl, cc) && SameCertificate(cl, cc) && SessionOk(cl, w.l) && SessionOk(cc, w.c)
    requires Believes(w.l, cc, w.c) && Believes(w.c, cl, w.l)
    requires w.l.saved.Some? || w.c.saved.Some?
    ensures Paired(cl, cc, w)
  {
    ResolvedParts(cl, w.l.theirs.value);
    ResolvedParts(cc, w.c.theirs.value);
    BindingAgrees(cl, w.l, cc, w.c);
    AgreementIsRecorded(cl, cc, w);
  }

  /**
   With two honest sides, in every interleaving with timeouts, disconnects, refusals and failed writes: if
   either wrote, both users had said yes to the same transcript; and `peerSaved` never lies.
   */
  lemma PairingSafe(cl: Config, cc: Config, moves: seq<Move>)
    requires IsPair(cl, cc) && SameCertificate(cl, cc) && LegalHonest(cl, cc, moves)
    ensures
      var w := RunBoth(cl, cc, moves);
      && (w.l.saved.Some? || w.c.saved.Some? ==> Paired(cl, cc, w))
      && (w.l.peerSaved ==> w.l.saved.Some? && w.c.saved.Some?)
      && (w.c.peerSaved ==> w.c.saved.Some? && w.l.saved.Some?)
  {
    HonestBeliefs(cl, cc, moves);
    var w := RunBoth(cl, cc, moves);
    if w.l.saved.Some? || w.c.saved.Some? {
      SavedMeansPaired(cl, cc, w);
    }
  }

  /** A yes on either side was given to equal digests. */
  ghost predicate YesToSame(cl: Config, cc: Config, l: Session, c: Session) {
    l.said == Some(true) || c.said == Some(true) ==>
      l.transcript.Some? && c.transcript.Some? && cl.hash(l.transcript.value) == cc.hash(c.transcript.value)
  }

  lemma ComparedMove(cl: Config, cc: Config, w: Both, m: Move)
    requires SessionOk(cl, w.l) && SessionOk(cc, w.c) && YesToSame(cl, cc, w.l, w.c)
    requires CanMove(cl, cc, w, m) && Compared(cl, cc, w, m)
    ensures YesToSame(cl, cc, Moved(cl, cc, w, m).l, Moved(cl, cc, w, m).c)
  {
    if m.side == Listener {
      SessionKept(cl, w.l, m.event);
      SaidByAnswer(cl, w.l, m.event);
    } else {
      SessionKept(cc, w.c, m.event);
      SaidByAnswer(cc, w.c, m.event);
    }
  }

  lemma {:induction false} YesMeansSameDigest(cl: Config, cc: Config, moves: seq<Move>)
    requires IsPair(cl, cc) && LegalCompared(cl, cc, moves)
    ensures SessionOk(cl, RunBoth(cl, cc, moves).l) && SessionOk(cc, RunBoth(cl, cc, moves).c)
    ensures YesToSame(cl, cc, RunBoth(cl, cc, moves).l, RunBoth(cl, cc, moves).c)
    decreases |moves|
  {
    BothOk(cl, cc, moves);
    if moves != [] {
      var n := |moves| - 1;
      PrefixMoves(cl, cc, moves, n);
      YesMeansSameDigest(cl, cc, moves[..n]);
      ComparedMove(cl, cc, RunBoth(cl, cc, moves[..n]), moves[n]);
    }
  }

  /**
   Over a channel on which anything may be dropped, changed or made up, even one that ends at an attacker with
   a certificate of his own, users who compare the codes are enough: whoever wrote has the other machine's real
   id, keys and role on record, and saw its real certificate.
   */
  lemma ComparedCodesSuffice(cl: Config, cc: Config, moves: seq<Move>)
    requires IsPair(cl, cc) && HashesAlike(cl, cc) && LegalCompared(cl, cc, moves)
    ensures
      var w := RunBoth(cl, cc, moves);
      w.l.saved.Some? || w.c.saved.Some? ==>
        Agree(cl, w.l, cc, w.c) && RecordsAgree(cl, cc, w) && SameCertificate(cl, cc)
  {
    YesMeansSameDigest(cl, cc, moves);
    var w := RunBoth(cl, cc, moves);
    if w.l.saved.Some? || w.c.saved.Some? {
      SameDigestAgrees(cl, w.l, cc, w.c);
      AgreementIsRecorded(cl, cc, w);
    }
  }
}
