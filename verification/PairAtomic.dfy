/** Exactly when an ended pairing of two honest sides leaves one record written and the other not. */
module PairAtomic {
  import opened Wrappers
  import opened Vaults
  import opened Transcript
  import opened Peers
  import opened Pairing
  import opened PairWorld

  // ---------- what a side has sent and read, by phase ----------

  /** How many messages a side sends before its confirmation, which is also how many the peer reads before it. */
  function Before(side: Side): nat {
    if side == Listener then 1 else 2
  }

  function Other(side: Side): Side {
    if side == Listener then Connector else Listener
  }

  /** First in, first out, one after the other: the phase says how far both channels are. */
  ghost predicate InStep(side: Side, s: Session, read: nat) {
    && (s.phase.AwaitFirst? ==> read == 0 && |s.sent| == 0)
    && (s.phase.AwaitHello? ==> read == 0 && |s.sent| == 1)
    && (s.phase.AwaitSig? ==> read == 1 && |s.sent| == 1)
    && (s.phase.Asking? ==> read == Before(Other(side)) && |s.sent| == Before(side))
    && (s.phase.AwaitConfirm? ==> read == Before(Other(side)))
    && (s.said == Some(true) ==> |s.sent| > Before(side) && s.sent[Before(side)] == ConfirmMsg(true))
  }

  lemma InStepBegins(c: Config)
    ensures InStep(c.side, Begin(c), 0)
  {
  }

  lemma InStepKept(c: Config, s: Session, e: Event, read: nat)
    requires SessionOk(c, s) && Enabled(c, s, e) && InStep(c.side, s, read)
    ensures InStep(c.side, Resume(c, s, e), read + if e.Got? then 1 else 0)
  {
  }

  // ---------- giving up ----------

  /** A side gives up after its yes: it stops waiting for the peer's, or its own write fails. */
  ghost predicate Quits(s: Session, e: Event) {
    || (e.NoMessage? && s.phase.AwaitConfirm?)
    || (e.Store? && !(e.plan.Some? && e.written))
  }

  function Of(w: Both, side: Side): Session {
    if side == Listener then w.l else w.c
  }

  function ReadBy(w: Both, side: Side): nat {
    if side == Listener then w.readL else w.readC
  }

  function ConfigOf(cl: Config, cc: Config, side: Side): Config {
    if side == Listener then cl else cc
  }

  /** At some point of the run this side gave up. */
  ghost predicate HasQuit(cl: Config, cc: Config, moves: seq<Move>, side: Side) {
    exists i :: 0 <= i < |moves| && moves[i].side == side
                && Quits(Of(RunBoth(cl, cc, moves[..i]), side), moves[i].event)
  }

  /** The peer's next message, where its yes would be, is not a yes. */
  ghost predicate Refused(side: Side, peer: Session) {
    |peer.sent| > Before(Other(side)) && peer.sent[Before(Other(side))] != ConfirmMsg(true)
  }

  ghost predicate Explained(side: Side, s: Session, peer: Session, quit: bool) {
    && (quit ==> s.phase.Aborted?)
    && (s.said == Some(true) && s.phase.Aborted? ==> quit || Refused(side, peer))
  }

  lemma OwnMoveExplained(c: Config, s: Session, peer: Session, e: Event, read: nat, quit: bool)
    requires SessionOk(c, s) && Enabled(c, s, e) && InStep(c.side, s, read) && Explained(c.side, s, peer, quit)
    requires e.Got? ==> read < |peer.sent| && e.msg == peer.sent[read]
    ensures Explained(c.side, Resume(c, s, e), peer, quit || Quits(s, e))
  {
  }

  lemma PeerMoveExplained(side: Side, s: Session, peer: Session, peer': Session, quit: bool)
    requires Explained(side, s, peer, quit) && Grows(peer, peer')
    ensures Explained(side, s, peer', quit)
  {
  }

  /** All that a run of honest sides keeps. */
  ghost predicate Orderly(cl: Config, cc: Config, moves: seq<Move>, side: Side) {
    var w := RunBoth(cl, cc, moves);
    && InStep(side, Of(w, side), ReadBy(w, side))
    && Explained(side, Of(w, side), Of(w, Other(side)), HasQuit(cl, cc, moves, side))
  }

  lemma QuitNext(cl: Config, cc: Config, moves: seq<Move>, side: Side)
    requires moves != []
    ensures
      var n := |moves| - 1;
      HasQuit(cl, cc, moves, side)
      <==> || HasQuit(cl, cc, moves[..n], side)
           || (moves[n].side == side && Quits(Of(RunBoth(cl, cc, moves[..n]), side), moves[n].event))
  {
    var n := |moves| - 1;
    PrefixMoves(cl, cc, moves, n);
  }

  lemma MoveKeepsOrder(cl: Config, cc: Config, w: Both, m: Move, side: Side, quit: bool)
    requires IsPair(cl, cc) && SessionOk(cl, w.l) && SessionOk(cc, w.c)
    requires CanMove(cl, cc, w, m) && Honestly(w, m)
    requires InStep(side, Of(w, side), ReadBy(w, side)) && Explained(side, Of(w, side), Of(w, Other(side)), quit)
    ensures
      var w' := Moved(cl, cc, w, m);
      && InStep(side, Of(w', side), ReadBy(w', side))
      && Explained(side, Of(w', side), Of(w', Other(side)), quit || (m.side == side && Quits(Of(w, side), m.event)))
  {
    var c := ConfigOf(cl, cc, m.side);
    SessionKept(c, Of(w, m.side), m.event);
    if m.side == side {
      InStepKept(c, Of(w, side), m.event, ReadBy(w, side));
      OwnMoveExplained(c, Of(w, side), Of(w, Other(side)), m.event, ReadBy(w, side), quit);
    } else {
      PeerMoveExplained(side, Of(w, side), Of(w, m.side), Resume(c, Of(w, m.side), m.event), quit);
    }
  }

  lemma {:induction false} StaysOrderly(cl: Config, cc: Config, moves: seq<Move>, side: Side)
    requires IsPair(cl, cc) && LegalHonest(cl, cc, moves)
    ensures Orderly(cl, cc, moves, side)
    decreases |moves|
  {
    if moves == [] {
      InStepBegins(cl);
      InStepBegins(cc);
    } else {
      var n := |moves| - 1;
      PrefixMoves(cl, cc, moves, n);
      StaysOrderly(cl, cc, moves[..n], side);
      BothOk(cl, cc, moves[..n]);
      QuitNext(cl, cc, moves, side);
      MoveKeepsOrder(cl, cc, RunBoth(cl, cc, moves[..n]), moves[n], side, HasQuit(cl, cc, moves[..n], side));
    }
  }

  // ---------- the condition ----------

  predicate Ended(s: Session) {
    s.phase.Finished? || s.phase.Aborted?
  }

  predicate BothYes(w: Both) {
    w.l.said == Some(true) && w.c.said == Some(true)
  }

  /** Between honest sides, one that ended has written exactly if both users said yes and it did not give up. */
  lemma WroteIff(cl: Config, cc: Config, moves: seq<Move>, side: Side)
    requires IsPair(cl, cc) && LegalHonest(cl, cc, moves) && Ended(Of(RunBoth(cl, cc, moves), side))
    ensures
      var w := RunBoth(cl, cc, moves);
      Of(w, side).saved.Some? <==> BothYes(w) && !HasQuit(cl, cc, moves, side)
  {
    StaysOrderly(cl, cc, moves, side);
    StaysOrderly(cl, cc, moves, Other(side));
    HonestBeliefs(cl, cc, moves);
  }

  /**
   Exactly when an ended pairing is atomic: both sides wrote or neither did, unless both users said yes and
   then one of the two sides, and only one, gave up waiting or failed to write.
   */
  lemma AtomicIff(cl: Config, cc: Config, moves: seq<Move>)
    requires IsPair(cl, cc) && LegalHonest(cl, cc, moves)
    requires Ended(RunBoth(cl, cc, moves).l) && Ended(RunBoth(cl, cc, moves).c)
    ensures
      var w := RunBoth(cl, cc, moves);
      (w.l.saved.Some? <==> w.c.saved.Some?)
      <==> (BothYes(w) ==> (HasQuit(cl, cc, moves, Listener) <==> HasQuit(cl, cc, moves, Connector)))
  {
    WroteIff(cl, cc, moves, Listener);
    WroteIff(cl, cc, moves, Connector);
  }
}
