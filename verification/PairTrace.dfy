/** Pairing is not atomic: a run of two honest sides that ends with one written and the other not. */
module PairTrace {
  import opened Wrappers
  import opened Vaults
  import opened Bytes
  import opened Transcript
  import opened Peers
  import opened Pairing
  import opened PairWorld

  /** Two sides that can pair: roles, tables and hash allow it, and the listener's vault can be written. */
  ghost predicate Ready(cl: Config, cc: Config, t: Transcript, d: Digest, current: Vault, plan: PeerPlan) {
    && IsPair(cl, cc)
    && Resolve(cl, cc.Me()) == Some(t) && Resolve(cc, cl.Me()) == Some(t)
    && cl.hash(t) == Some(d) && cc.hash(t) == Some(d)
    && Precheck(cl, CandidateOf(cl, cc.Me(), t)) && Precheck(cc, CandidateOf(cc, cl.Me(), t))
    && StoreBase(cl, current).Some?
    && Accepts(StoreBase(cl, current).value, CandidateOf(cl, cc.Me(), t), cl.Opts(), cl.fp)
    && IsPlan(StoreBase(cl, current).value, CandidateOf(cl, cc.Me(), t), cl.Opts(), cl.fp, plan)
  }

  // ---------- the messages and the sessions on the way ----------

  function ConnectorHello(cc: Config): Wire {
    HelloMsg(Some(cc.Me()), None)
  }

  function ListenerHello(cl: Config, d: Digest): Wire {
    HelloMsg(Some(cl.Me()), Some(Sign(cl.identity.ed25519.publicKey, Listener, d)))
  }

  function ConnectorSig(cc: Config, d: Digest): Signature {
    Sign(cc.identity.ed25519.publicKey, Connector, d)
  }

  function ListenerAt(cl: Config, cc: Config, t: Transcript, d: Digest, phase: Phase): Session {
    Session(phase, Some(cc.Me()), Some(t), Some(CandidateOf(cl, cc.Me(), t)),
            if phase == AwaitSig then None else Some(ConnectorSig(cc, d)),
            if phase == AwaitSig || phase == Asking then None else Some(true),
            phase == Saving, None, None, false,
            if phase == AwaitSig || phase == Asking then [ListenerHello(cl, d)]
            else [ListenerHello(cl, d), ConfirmMsg(true)])
  }

  function ConnectorAt(cl: Config, cc: Config, t: Transcript, d: Digest, phase: Phase): Session {
    Session(phase, Some(cl.Me()), Some(t), Some(CandidateOf(cc, cl.Me(), t)),
            Some(Sign(cl.identity.ed25519.publicKey, Listener, d)),
            if phase == Asking then None else Some(true), false, None, None, false,
            [ConnectorHello(cc), SigMsg(Some(ConnectorSig(cc, d)))]
            + if phase == Asking then [] else [ConfirmMsg(true)])
  }

  lemma Introductions(cl: Config, cc: Config, t: Transcript, d: Digest, current: Vault, plan: PeerPlan)
    requires Ready(cl, cc, t, d, current, plan)
    ensures ReceiveFirst(cl, Begin(cl), ConnectorHello(cc)) == ListenerAt(cl, cc, t, d, AwaitSig)
    ensures ReceiveHello(cc, Begin(cc), ListenerHello(cl, d)) == ConnectorAt(cl, cc, t, d, Asking)
    ensures ReceiveSig(cl, ListenerAt(cl, cc, t, d, AwaitSig), SigMsg(Some(ConnectorSig(cc, d))))
            == ListenerAt(cl, cc, t, d, Asking)
  {
  }

  lemma Confirmations(cl: Config, cc: Config, t: Transcript, d: Digest)
    ensures Answered(ListenerAt(cl, cc, t, d, Asking), Yes) == ListenerAt(cl, cc, t, d, AwaitConfirm)
    ensures Answered(ConnectorAt(cl, cc, t, d, Asking), Yes) == ConnectorAt(cl, cc, t, d, AwaitConfirm)
    ensures ReceiveConfirm(ListenerAt(cl, cc, t, d, AwaitConfirm), ConfirmMsg(true)) == ListenerAt(cl, cc, t, d, Saving)
  {
  }

  // ---------- the run ----------

  lemma HonestSnoc(cl: Config, cc: Config, moves: seq<Move>, m: Move)
    requires LegalHonest(cl, cc, moves)
    requires CanMove(cl, cc, RunBoth(cl, cc, moves), m) && Honestly(RunBoth(cl, cc, moves), m)
    ensures LegalHonest(cl, cc, moves + [m])
    ensures RunBoth(cl, cc, moves + [m]) == Moved(cl, cc, RunBoth(cl, cc, moves), m)
  {
    var more, n := moves + [m], |moves|;
    assert more[..n] == moves;
    forall i | 0 <= i < |more|
      ensures CanMove(cl, cc, RunBoth(cl, cc, more[..i]), more[i]) && Honestly(RunBoth(cl, cc, more[..i]), more[i])
    {
      if i < n { assert more[..i] == moves[..i] && more[i] == moves[i]; }
    }
  }

  ghost predicate Reaches(cl: Config, cc: Config, moves: seq<Move>, w: Both) {
    LegalHonest(cl, cc, moves) && RunBoth(cl, cc, moves) == w
  }

  ghost predicate Does(cl: Config, cc: Config, w: Both, m: Move, w': Both) {
    CanMove(cl, cc, w, m) && Honestly(w, m) && Moved(cl, cc, w, m) == w'
  }

  lemma ThenMove(cl: Config, cc: Config, moves: seq<Move>, w: Both, m: Move, w': Both)
    requires Reaches(cl, cc, moves, w) && Does(cl, cc, w, m, w')
    ensures Reaches(cl, cc, moves + [m], w')
  {
    HonestSnoc(cl, cc, moves, m);
  }

  lemma ThenThree(cl: Config, cc: Config, moves: seq<Move>, w: Both, more: seq<Move>, w1: Both, w2: Both, w3: Both)
    requires Reaches(cl, cc, moves, w) && |more| == 3
    requires Does(cl, cc, w, more[0], w1) && Does(cl, cc, w1, more[1], w2) && Does(cl, cc, w2, more[2], w3)
    ensures Reaches(cl, cc, moves + more, w3)
  {
    ThenMove(cl, cc, moves, w, more[0], w1);
    ThenMove(cl, cc, moves + [more[0]], w1, more[1], w2);
    ThenMove(cl, cc, moves + [more[0]] + [more[1]], w2, more[2], w3);
    assert moves + [more[0]] + [more[1]] + [more[2]] == moves + more;
  }

  // ---------- introducing each other ----------

  /** The states on the way: nobody heard yet, the listener introduced, both, both with keys proven. */
  function Meeting(cl: Config, cc: Config, t: Transcript, d: Digest, i: nat): Both {
    if i == 0 then Both(Begin(cl), Begin(cc), 0, 0)
    else if i == 1 then Both(ListenerAt(cl, cc, t, d, AwaitSig), Begin(cc), 1, 0)
    else if i == 2 then Both(ListenerAt(cl, cc, t, d, AwaitSig), ConnectorAt(cl, cc, t, d, Asking), 1, 1)
    else Both(ListenerAt(cl, cc, t, d, Asking), ConnectorAt(cl, cc, t, d, Asking), 2, 1)
  }

  function Intro(cl: Config, cc: Config, d: Digest): seq<Move> {
    [Move(Listener, Got(ConnectorHello(cc))), Move(Connector, Got(ListenerHello(cl, d))),
     Move(Listener, Got(SigMsg(Some(ConnectorSig(cc, d)))))]
  }

  lemma Meets(cl: Config, cc: Config, t: Transcript, d: Digest, current: Vault, plan: PeerPlan, i: nat)
    requires Ready(cl, cc, t, d, current, plan) && i < 3
    ensures Does(cl, cc, Meeting(cl, cc, t, d, i), Intro(cl, cc, d)[i], Meeting(cl, cc, t, d, i + 1))
  {
    Introductions(cl, cc, t, d, current, plan);
  }

  lemma BothIntroduced(cl: Config, cc: Config, t: Transcript, d: Digest, current: Vault, plan: PeerPlan)
    requires Ready(cl, cc, t, d, current, plan)
    ensures Reaches(cl, cc, [] + Intro(cl, cc, d), Meeting(cl, cc, t, d, 3))
  {
    Meets(cl, cc, t, d, current, plan, 0);
    Meets(cl, cc, t, d, current, plan, 1);
    Meets(cl, cc, t, d, current, plan, 2);
    assert Reaches(cl, cc, [], Meeting(cl, cc, t, d, 0));
    ThenThree(cl, cc, [], Meeting(cl, cc, t, d, 0), Intro(cl, cc, d), Meeting(cl, cc, t, d, 1),
              Meeting(cl, cc, t, d, 2), Meeting(cl, cc, t, d, 3));
  }

  // ---------- both users say yes ----------

  function Agreeing(cl: Config, cc: Config, t: Transcript, d: Digest, i: nat): Both {
    if i == 0 then Both(ListenerAt(cl, cc, t, d, Asking), ConnectorAt(cl, cc, t, d, Asking), 2, 1)
    else if i == 1 then Both(ListenerAt(cl, cc, t, d, AwaitConfirm), ConnectorAt(cl, cc, t, d, Asking), 2, 1)
    else if i == 2 then Both(ListenerAt(cl, cc, t, d, AwaitConfirm), ConnectorAt(cl, cc, t, d, AwaitConfirm), 2, 1)
    else Both(ListenerAt(cl, cc, t, d, Saving), ConnectorAt(cl, cc, t, d, AwaitConfirm), 3, 1)
  }

  function Agreement(): seq<Move> {
    [Move(Listener, Human(Yes)), Move(Connector, Human(Yes)), Move(Listener, Got(ConfirmMsg(true)))]
  }

  lemma Agrees(cl: Config, cc: Config, t: Transcript, d: Digest, i: nat)
    requires i < 3
    ensures Does(cl, cc, Agreeing(cl, cc, t, d, i), Agreement()[i], Agreeing(cl, cc, t, d, i + 1))
  {
    Confirmations(cl, cc, t, d);
  }

  lemma BothAgreed(cl: Config, cc: Config, t: Transcript, d: Digest, current: Vault, plan: PeerPlan)
    requires Ready(cl, cc, t, d, current, plan)
    ensures Reaches(cl, cc, [] + Intro(cl, cc, d) + Agreement(), Agreeing(cl, cc, t, d, 3))
  {
    BothIntroduced(cl, cc, t, d, current, plan);
    Agrees(cl, cc, t, d, 0);
    Agrees(cl, cc, t, d, 1);
    Agrees(cl, cc, t, d, 2);
    ThenThree(cl, cc, [] + Intro(cl, cc, d), Agreeing(cl, cc, t, d, 0), Agreement(), Agreeing(cl, cc, t, d, 1),
              Agreeing(cl, cc, t, d, 2), Agreeing(cl, cc, t, d, 3));
  }

  // ---------- one writes, the other does not wait ----------

  lemma WritesAlone(cl: Config, cc: Config, t: Transcript, d: Digest, current: Vault, plan: PeerPlan)
    requires Ready(cl, cc, t, d, current, plan)
    ensures
      var w := Agreeing(cl, cc, t, d, 3);
      var store, leave := Move(Listener, Store(Some(current), Some(plan), true)), Move(Connector, NoMessage);
      var w1 := Moved(cl, cc, w, store);
      var w2 := Moved(cl, cc, w1, leave);
      && Does(cl, cc, w, store, w1) && Does(cl, cc, w1, leave, w2)
      && w2.l.saved == Some(plan.vault) && w2.c.saved.None? && w2.c.phase == Aborted && w2.c.said == Some(true)
  {
  }

  /**
   From the very beginning, both sides honest, both users saying yes: the listener writes, and the connector,
   whose wait for the listener's yes runs out, ends without having written.
   */
  lemma OneSideMayWriteAlone(cl: Config, cc: Config, t: Transcript, d: Digest, current: Vault, plan: PeerPlan)
    returns (moves: seq<Move>)
    requires Ready(cl, cc, t, d, current, plan)
    ensures LegalHonest(cl, cc, moves)
    ensures
      var w := RunBoth(cl, cc, moves);
      && w.l.saved == Some(plan.vault) && w.c.saved.None? && w.c.phase == Aborted && w.c.said == Some(true)
  {
    BothAgreed(cl, cc, t, d, current, plan);
    WritesAlone(cl, cc, t, d, current, plan);
    var ms, w := [] + Intro(cl, cc, d) + Agreement(), Agreeing(cl, cc, t, d, 3);
    var store, leave := Move(Listener, Store(Some(current), Some(plan), true)), Move(Connector, NoMessage);
    var w1 := Moved(cl, cc, w, store);
    ThenMove(cl, cc, ms, w, store, w1);
    ThenMove(cl, cc, ms + [store], w1, leave, Moved(cl, cc, w1, leave));
    moves := ms + [store] + [leave];
  }

  // ---------- and nobody gives up ----------

  /** What each side is about to record: the other under its own id and keys, in complementary roles. */
  lemma SeenByEachOther(cl: Config, cc: Config, t: Transcript)
    requires IsPair(cl, cc) && Resolve(cl, cc.Me()) == Some(t) && Resolve(cc, cl.Me()) == Some(t)
    ensures
      var onL, onC := CandidateOf(cl, cc.Me(), t), CandidateOf(cc, cl.Me(), t);
      && onL == PeerCandidate(cc.identity.id,
                              if cl.localName.Some? then cl.localName.value else cl.nameFor(cc.hostName),
                              cc.identity.ed25519.publicKey, cc.identity.x25519.publicKey, onL.role, cl.address)
      && onC == PeerCandidate(cl.identity.id,
                              if cc.localName.Some? then cc.localName.value else cc.nameFor(cl.hostName),
                              cl.identity.ed25519.publicKey, cl.identity.x25519.publicKey, onC.role, cc.address)
      && onL.role != onC.role && cl.role == Some(onC.role)
      && t.listener.hello.nonce == cl.nonce && t.connector.hello.nonce == cc.nonce
  {
  }

  /** The connector can be written as well. */
  ghost predicate ReadyToo(cl: Config, cc: Config, t: Transcript, current: Vault, plan: PeerPlan) {
    && StoreBase(cc, current).Some?
    && Accepts(StoreBase(cc, current).value, CandidateOf(cc, cl.Me(), t), cc.Opts(), cc.fp)
    && IsPlan(StoreBase(cc, current).value, CandidateOf(cc, cl.Me(), t), cc.Opts(), cc.fp, plan)
  }

  /** Both write, and each hears that the other has. */
  function Ending(currentL: Vault, planL: PeerPlan, currentC: Vault, planC: PeerPlan): seq<Move> {
    [Move(Listener, Store(Some(currentL), Some(planL), true)), Move(Connector, Got(ConfirmMsg(true))),
     Move(Connector, Store(Some(currentC), Some(planC), true)), Move(Listener, Got(SavedMsg(true))),
     Move(Connector, Got(SavedMsg(true)))]
  }

  function EndingAt(cl: Config, cc: Config, t: Transcript, d: Digest, currentL: Vault, planL: PeerPlan,
                    currentC: Vault, planC: PeerPlan, i: nat): Both
  {
    var w := Agreeing(cl, cc, t, d, 3);
    var wroteL := w.l.(phase := AwaitSaved, loaded := Some(currentL), saved := Some(planL.vault),
                       sent := w.l.sent + [SavedMsg(true)]);
    var heardC := w.c.(phase := Saving, heardYes := true);
    var wroteC := heardC.(phase := AwaitSaved, loaded := Some(currentC), saved := Some(planC.vault),
                          sent := heardC.sent + [SavedMsg(true)]);
    if i == 0 then w
    else if i == 1 then Both(wroteL, w.c, 3, 1)
    else if i == 2 then Both(wroteL, heardC, 3, 2)
    else if i == 3 then Both(wroteL, wroteC, 3, 2)
    else if i == 4 then Both(wroteL.(phase := Finished, peerSaved := true), wroteC, 4, 2)
    else Both(wroteL.(phase := Finished, peerSaved := true), wroteC.(phase := Finished, peerSaved := true), 4, 3)
  }

  lemma WritesFirst(cl: Config, cc: Config, t: Transcript, d: Digest, currentL: Vault, planL: PeerPlan,
                    currentC: Vault, planC: PeerPlan, i: nat)
    requires Ready(cl, cc, t, d, currentL, planL) && i < 2
    ensures Does(cl, cc, EndingAt(cl, cc, t, d, currentL, planL, currentC, planC, i),
                 Ending(currentL, planL, currentC, planC)[i],
                 EndingAt(cl, cc, t, d, currentL, planL, currentC, planC, i + 1))
  {
  }

  lemma WritesToo(cl: Config, cc: Config, t: Transcript, d: Digest, currentL: Vault, planL: PeerPlan,
                  currentC: Vault, planC: PeerPlan)
    requires ReadyToo(cl, cc, t, currentC, planC)
    ensures Does(cl, cc, EndingAt(cl, cc, t, d, currentL, planL, currentC, planC, 2),
                 Ending(currentL, planL, currentC, planC)[2],
                 EndingAt(cl, cc, t, d, currentL, planL, currentC, planC, 3))
  {
  }

  lemma Acknowledges(cl: Config, cc: Config, t: Transcript, d: Digest, currentL: Vault, planL: PeerPlan,
                     currentC: Vault, planC: PeerPlan, i: nat)
    requires 3 <= i < 5
    ensures Does(cl, cc, EndingAt(cl, cc, t, d, currentL, planL, currentC, planC, i),
                 Ending(currentL, planL, currentC, planC)[i],
                 EndingAt(cl, cc, t, d, currentL, planL, currentC, planC, i + 1))
  {
  }

  lemma BothWrote(cl: Config, cc: Config, t: Transcript, d: Digest, currentL: Vault, planL: PeerPlan,
                  currentC: Vault, planC: PeerPlan)
    requires Ready(cl, cc, t, d, currentL, planL) && ReadyToo(cl, cc, t, currentC, planC)
    ensures Reaches(cl, cc, [] + Intro(cl, cc, d) + Agreement() + Ending(currentL, planL, currentC, planC)[..3],
                    EndingAt(cl, cc, t, d, currentL, planL, currentC, planC, 3))
  {
    BothAgreed(cl, cc, t, d, currentL, planL);
    WritesFirst(cl, cc, t, d, currentL, planL, currentC, planC, 0);
    WritesFirst(cl, cc, t, d, currentL, planL, currentC, planC, 1);
    WritesToo(cl, cc, t, d, currentL, planL, currentC, planC);
    ThenThree(cl, cc, [] + Intro(cl, cc, d) + Agreement(),
              EndingAt(cl, cc, t, d, currentL, planL, currentC, planC, 0),
              Ending(currentL, planL, currentC, planC)[..3],
              EndingAt(cl, cc, t, d, currentL, planL, currentC, planC, 1),
              EndingAt(cl, cc, t, d, currentL, planL, currentC, planC, 2),
              EndingAt(cl, cc, t, d, currentL, planL, currentC, planC, 3));
  }

  /** Any two sides that can pair do, if both users say yes and nobody gives up: both written, and both know it. */
  lemma BothMayWrite(cl: Config, cc: Config, t: Transcript, d: Digest, currentL: Vault, planL: PeerPlan,
                     currentC: Vault, planC: PeerPlan)
    returns (moves: seq<Move>)
    requires Ready(cl, cc, t, d, currentL, planL) && ReadyToo(cl, cc, t, currentC, planC)
    ensures LegalHonest(cl, cc, moves)
    ensures
      var w := RunBoth(cl, cc, moves);
      && w.l.phase == Finished && w.l.saved == Some(planL.vault) && w.l.peerSaved
      && w.c.phase == Finished && w.c.saved == Some(planC.vault) && w.c.peerSaved
  {
    var end := Ending(currentL, planL, currentC, planC);
    var ms := [] + Intro(cl, cc, d) + Agreement() + end[..3];
    BothWrote(cl, cc, t, d, currentL, planL, currentC, planC);
    Acknowledges(cl, cc, t, d, currentL, planL, currentC, planC, 3);
    Acknowledges(cl, cc, t, d, currentL, planL, currentC, planC, 4);
    ThenMove(cl, cc, ms, EndingAt(cl, cc, t, d, currentL, planL, currentC, planC, 3), end[3],
             EndingAt(cl, cc, t, d, currentL, planL, currentC, planC, 4));
    ThenMove(cl, cc, ms + [end[3]], EndingAt(cl, cc, t, d, currentL, planL, currentC, planC, 4), end[4],
             EndingAt(cl, cc, t, d, currentL, planL, currentC, planC, 5));
    moves := ms + [end[3]] + [end[4]];
  }

  // ---------- such sides exist ----------

  /** A vault without peers takes any machine but itself. */
  lemma EmptyTableAccepts(v: Vault, cand: PeerCandidate, o: Options, fp: FingerprintOf, peer: SyncPeer)
    requires TableOf(v) == map[] && v.syncIdentity.Some? && IsPeerName(cand.name) && cand.address.None?
    requires !PresentsOwn(v.syncIdentity.value, cand.id, cand.ed25519, cand.x25519)
    requires fp(cand.ed25519, cand.x25519) == Some(peer.idFingerprint)
    requires peer == SyncPeer(cand.name, peer.idFingerprint, cand.ed25519, cand.x25519, cand.role, o.now, None)
    ensures Accepts(v, cand, o, fp)
    ensures IsPlan(v, cand, o, fp, PeerPlan(Add, v.(syncPeers := Some(map[cand.id := peer])), peer, None))
  {
  }

  const L_ID := SyncIdentity("L", 0, KeyPair("l1", "x"), KeyPair("l2", "y"))
  const C_ID := SyncIdentity("C", 0, KeyPair("c1", "x"), KeyPair("c2", "y"))

  function VaultOf(id: SyncIdentity): Vault {
    EmptyVault().(syncIdentity := Some(id))
  }

  type Hashing = Transcript -> Option<Digest>

  function ConfigOf(id: SyncIdentity, side: Side, role: Option<Role>, hash: Hashing): Config {
    Config(side, id, false, "host", "nonce", role, "ab", VaultOf(id), None, false, 0, None,
           (a: string, b: string) => Some("fingerprint"), (host: string) => "peer", hash)
  }

  function HelloOf(id: SyncIdentity, role: Option<Role>): Hello {
    Hello(id.id, "host", id.ed25519.publicKey, id.x25519.publicKey, "nonce", role)
  }

  function ExampleTranscript(): Transcript {
    Transcript("ab", SettledHello(HelloOf(L_ID, Some(Source)), Source), SettledHello(HelloOf(C_ID, None), Receiver))
  }

  lemma ExampleFits()
    ensures TranscriptDigest(ExampleTranscript()).Some?
  {
    var texts := TranscriptTexts(ExampleTranscript());
    assert NormalizeFingerprint("ab") == "ab" by {
      assert "ab"[1..] == "b" && "b"[1..] == "";
    }
    forall i | 0 <= i < |texts| ensures |Utf8(texts[i])| < U32 {
      Utf8Length(texts[i]);
    }
  }

  lemma ExampleAccepts(own: SyncIdentity, other: SyncIdentity, c: Config, peerRole: Role)
    requires c == ConfigOf(own, c.side, c.role, c.hash)
    requires !PresentsOwn(own, other.id, other.ed25519.publicKey, other.x25519.publicKey)
    ensures
      var cand := PeerCandidate(other.id, "peer", other.ed25519.publicKey, other.x25519.publicKey, peerRole, None);
      var peer := SyncPeer("peer", "fingerprint", cand.ed25519, cand.x25519, peerRole, 0, None);
      && Accepts(VaultOf(own), cand, c.Opts(), c.fp)
      && IsPlan(VaultOf(own), cand, c.Opts(), c.fp,
                PeerPlan(Add, VaultOf(own).(syncPeers := Some(map[other.id := peer])), peer, None))
  {
    var cand := PeerCandidate(other.id, "peer", other.ed25519.publicKey, other.x25519.publicKey, peerRole, None);
    EmptyTableAccepts(VaultOf(own), cand, c.Opts(), c.fp,
                      SyncPeer("peer", "fingerprint", cand.ed25519, cand.x25519, peerRole, 0, None));
  }

  lemma ExampleReady(hash: Hashing, d: Digest) returns (plan: PeerPlan)
    requires hash(ExampleTranscript()) == Some(d)
    ensures Ready(ConfigOf(L_ID, Listener, Some(Source), hash), ConfigOf(C_ID, Connector, None, hash),
                  ExampleTranscript(), d, VaultOf(L_ID), plan)
  {
    var cl, cc := ConfigOf(L_ID, Listener, Some(Source), hash), ConfigOf(C_ID, Connector, None, hash);
    var t := ExampleTranscript();
    assert "l1" != "c1" && "l2" != "c2" && "L" != "C";
    ExampleAccepts(L_ID, C_ID, cl, Receiver);
    ExampleAccepts(C_ID, L_ID, cc, Source);
    assert CandidateOf(cl, cc.Me(), t) == PeerCandidate("C", "peer", "c1", "c2", Receiver, None);
    assert CandidateOf(cc, cl.Me(), t) == PeerCandidate("L", "peer", "l1", "l2", Source, None);
    var peer := SyncPeer("peer", "fingerprint", "c1", "c2", Receiver, 0, None);
    plan := PeerPlan(Add, VaultOf(L_ID).(syncPeers := Some(map["C" := peer])), peer, None);
  }

  /** A listener and a connector, with the real hash, for which the run above exists. */
  lemma OneSideWroteAlone() returns (cl: Config, cc: Config, moves: seq<Move>)
    ensures HashesAlike(cl, cc) && LegalHonest(cl, cc, moves)
    ensures RunBoth(cl, cc, moves).l.saved.Some? && RunBoth(cl, cc, moves).c.saved.None?
    ensures RunBoth(cl, cc, moves).c.phase == Aborted
  {
    ExampleFits();
    var t := ExampleTranscript();
    var d := TranscriptDigest(t).value;
    cl := ConfigOf(L_ID, Listener, Some(Source), TranscriptDigest);
    cc := ConfigOf(C_ID, Connector, None, TranscriptDigest);
    var plan := ExampleReady(TranscriptDigest, d);
    moves := OneSideMayWriteAlone(cl, cc, t, d, VaultOf(L_ID), plan);
  }

  lemma ExampleReadyToo(hash: Hashing) returns (plan: PeerPlan)
    ensures ReadyToo(ConfigOf(L_ID, Listener, Some(Source), hash), ConfigOf(C_ID, Connector, None, hash),
                     ExampleTranscript(), VaultOf(C_ID), plan)
  {
    var cl, cc := ConfigOf(L_ID, Listener, Some(Source), hash), ConfigOf(C_ID, Connector, None, hash);
    assert "l1" != "c1" && "l2" != "c2" && "L" != "C";
    ExampleAccepts(C_ID, L_ID, cc, Source);
    assert CandidateOf(cc, cl.Me(), ExampleTranscript()) == PeerCandidate("L", "peer", "l1", "l2", Source, None);
    var peer := SyncPeer("peer", "fingerprint", "l1", "l2", Source, 0, None);
    plan := PeerPlan(Add, VaultOf(C_ID).(syncPeers := Some(map["L" := peer])), peer, None);
  }

  /** And one in which both write. */
  lemma BothSidesWrote() returns (cl: Config, cc: Config, moves: seq<Move>)
    ensures HashesAlike(cl, cc) && LegalHonest(cl, cc, moves)
    ensures RunBoth(cl, cc, moves).l.peerSaved && RunBoth(cl, cc, moves).c.peerSaved
  {
    ExampleFits();
    var t := ExampleTranscript();
    var d := TranscriptDigest(t).value;
    cl := ConfigOf(L_ID, Listener, Some(Source), TranscriptDigest);
    cc := ConfigOf(C_ID, Connector, None, TranscriptDigest);
    var planL := ExampleReady(TranscriptDigest, d);
    var planC := ExampleReadyToo(TranscriptDigest);
    moves := BothMayWrite(cl, cc, t, d, VaultOf(L_ID), planL, VaultOf(C_ID), planC);
  }
}
