/** What the stored bases of two machines say about each other and about their vaults, over whole runs. */
module BasePairs {
  import opened Wrappers
  import opened Vaults
  import opened History
  import opened Replicas
  import opened Runs

  // ---------- both ends agree ----------

  predicate Between(s: Session, c: string, d: string) {
    (s.machine == c && s.peer == Machine(d)) || (s.machine == d && s.peer == Machine(c))
  }

  predicate SamePair(s: Session, t: Session) {
    s.peer.Machine? && Between(t, s.machine, s.peer.deviceId)
  }

  /** One of the two bases is written and the other is not. */
  predicate HalfBased(s: Session) {
    s.peer.Machine? && if s.quiet then s.done == 1 || s.done == 2 else s.done == 3
  }

  ghost predicate MirroredAt(w: World, c: string, d: string) {
    (c, Machine(d)) in w.base ==>
      (d, Machine(c)) in w.base && w.base[(c, Machine(d))] == w.base[(d, Machine(c))]
  }

  /** The base that is written is the merge. */
  ghost predicate HalfWritten(w: World, s: Session)
    requires s.peer.Machine?
  {
    if s.quiet then (s.machine, s.peer) in w.base && w.base[(s.machine, s.peer)] == s.merged
    else (s.peer.deviceId, Machine(s.machine)) in w.base
         && w.base[(s.peer.deviceId, Machine(s.machine))] == s.merged
  }

  /**
   At most one sync at a time between two machines; their bases are equal unless that sync is between its
   two base writes.
   */
  ghost predicate Mirrored(w: World) {
    && (forall i, j :: i in w.open && j in w.open && SamePair(w.open[i], w.open[j]) ==> i == j)
    && (forall id :: id in w.open ==>
          && w.open[id].done <= |Plan(w.open[id])| && w.open[id].peer != Machine(w.open[id].machine)
          && (HalfBased(w.open[id]) ==> HalfWritten(w, w.open[id])))
    && (forall c, d :: GapOrEqual(w, c, d))
  }

  /** No second sync of a pair is begun, and none is dropped between its base writes: every LAN sync completes. */
  ghost predicate Orderly(w: World, s: Step)
    requires Enabled(w, s)
  {
    match s
    case Read(_, c, r, _, _) => r.Machine? ==> forall id :: id in w.open ==> !Between(w.open[id], c, r.deviceId)
    case Drop(id) => !HalfBased(w.open[id])
    case _ => true
  }

  /** A write of a LAN sync opens the gap between its two bases, keeps it, closes it, or touches no base. */
  lemma PairWrite(w: World, s: Session)
    requires s.peer.Machine? && s.done < |Plan(s)| && s.peer != Machine(s.machine)
    requires HalfBased(s) ==> HalfWritten(w, s)
    ensures
      var w1, s1 := DoWrite(w, s, Plan(s)[s.done]), s.(done := s.done + 1);
      && (HalfBased(s1) ==> HalfWritten(w1, s1))
      && (!HalfBased(s) && !HalfBased(s1) ==> w1.base == w.base)
      && (HalfBased(s) && !HalfBased(s1) ==>
            MirroredAt(w1, s.machine, s.peer.deviceId) && MirroredAt(w1, s.peer.deviceId, s.machine))
  {
  }

  lemma OthersUntouched(w: World, s: Session, x: Write, c: string, d: string)
    requires !Between(s, c, d)
    ensures
      var w1 := DoWrite(w, s, x);
      && ((c, Machine(d)) in w1.base <==> (c, Machine(d)) in w.base)
      && ((c, Machine(d)) in w.base ==> w1.base[(c, Machine(d))] == w.base[(c, Machine(d))])
  {
  }

  ghost predicate GapOrEqual(w: World, c: string, d: string) {
    MirroredAt(w, c, d) || exists id :: id in w.open && Between(w.open[id], c, d) && HalfBased(w.open[id])
  }

  lemma WriteKeepsMirrored(w: World, id: nat, c: string, d: string)
    requires Mirrored(w) && Enabled(w, Write(id))
    ensures GapOrEqual(Next(w, Write(id)), c, d)
  {
    var w', s := Next(w, Write(id)), w.open[id];
    assert GapOrEqual(w, c, d);
    if Between(s, c, d) {
      PairWrite(w, s);
      assert id in w'.open && w'.open[id] == s.(done := s.done + 1) && Between(w'.open[id], c, d);
      if !HalfBased(s) {
        if i :| i in w.open && Between(w.open[i], c, d) && HalfBased(w.open[i]) {
          assert SamePair(s, w.open[i]);
        }
      }
    } else {
      OthersUntouched(w, s, Plan(s)[s.done], c, d);
      OthersUntouched(w, s, Plan(s)[s.done], d, c);
      if i :| i in w.open && Between(w.open[i], c, d) && HalfBased(w.open[i]) {
        assert i in w'.open && w'.open[i] == w.open[i];
      }
    }
  }

  lemma HalvesStay(w: World, id: nat, i: nat)
    requires Mirrored(w) && Enabled(w, Write(id)) && i in w.open
    ensures
      var w' := Next(w, Write(id));
      && i in w'.open && w'.open[i].done <= |Plan(w'.open[i])| && w'.open[i].peer != Machine(w'.open[i].machine)
      && (HalfBased(w'.open[i]) ==> HalfWritten(w', w'.open[i]))
  {
    var w', s, t := Next(w, Write(id)), w.open[id], w.open[i];
    if i == id {
      if s.peer.Machine? { PairWrite(w, s); }
    } else if t.peer.Machine? {
      assert !Between(s, t.machine, t.peer.deviceId) by {
        assert SamePair(t, s) ==> i == id;
      }
      OthersUntouched(w, s, Plan(s)[s.done], t.machine, t.peer.deviceId);
      OthersUntouched(w, s, Plan(s)[s.done], t.peer.deviceId, t.machine);
    }
  }

  /** A step that is not a write touches no base of two machines. */
  lemma OthersKeepMirrored(w: World, s: Step, c: string, d: string)
    requires Enabled(w, s) && Orderly(w, s) && !s.Write? && GapOrEqual(w, c, d)
    ensures GapOrEqual(Next(w, s), c, d)
  {
    var w' := Next(w, s);
    assert MirroredAt(w, c, d) ==> MirroredAt(w', c, d);
    if i :| i in w.open && Between(w.open[i], c, d) && HalfBased(w.open[i]) {
      assert i in w'.open && w'.open[i] == w.open[i];
    }
  }

  lemma OneSyncPerPair(w: World, s: Step, i: nat, j: nat)
    requires Mirrored(w) && Enabled(w, s) && Orderly(w, s)
    requires i in Next(w, s).open && j in Next(w, s).open && SamePair(Next(w, s).open[i], Next(w, s).open[j])
    ensures i == j
  {
  }

  lemma StepKeepsMirrored(w: World, s: Step)
    requires Mirrored(w) && Enabled(w, s) && Orderly(w, s)
    ensures Mirrored(Next(w, s))
  {
    var w' := Next(w, s);
    forall i, j | i in w'.open && j in w'.open && SamePair(w'.open[i], w'.open[j]) ensures i == j {
      OneSyncPerPair(w, s, i, j);
    }
    forall c, d ensures GapOrEqual(w', c, d) {
      assert GapOrEqual(w, c, d);
      if s.Write? { WriteKeepsMirrored(w, s.id, c, d); } else { OthersKeepMirrored(w, s, c, d); }
    }
    forall i | i in w'.open
      ensures && w'.open[i].done <= |Plan(w'.open[i])| && w'.open[i].peer != Machine(w'.open[i].machine)
              && (HalfBased(w'.open[i]) ==> HalfWritten(w', w'.open[i]))
    {
      if s.Write? { HalvesStay(w, s.id, i); }
    }
  }

  ghost predicate OrderlyRun(w: World, steps: seq<Step>)
    requires Legal(w, steps)
    decreases |steps|
  {
    steps != [] ==> Orderly(w, steps[0]) && OrderlyRun(Next(w, steps[0]), steps[1..])
  }

  /** Over every run in which LAN syncs complete, one at a time per pair, the two bases of a pair stay equal. */
  lemma {:induction false} BasesStayMirrored(w: World, steps: seq<Step>)
    requires Mirrored(w) && Legal(w, steps) && OrderlyRun(w, steps)
    ensures Mirrored(Run(w, steps))
    ensures Run(w, steps).open == map[] ==> forall c, d :: MirroredAt(Run(w, steps), c, d)
    decreases |steps|
  {
    if steps != [] {
      StepKeepsMirrored(w, steps[0]);
      BasesStayMirrored(Next(w, steps[0]), steps[1..]);
    } else if w.open == map[] {
      forall c, d ensures MirroredAt(w, c, d) { assert GapOrEqual(w, c, d); }
    }
  }

  // ---------- what a base says about its machine ----------

  /** The step writes the base that `c` holds for `r`. */
  predicate Rebases(w: World, s: Step, c: string, r: Replica) {
    match s
    case Backup(m, l, based) => based && m == c && r == Bundle(l)
    case StoreCurrent(id) => id in w.open && w.open[id].machine == c && w.open[id].peer == r
    case Write(id) =>
      id in w.open && w.open[id].done < |Plan(w.open[id])|
      && var x := w.open[id];
         (Plan(x)[x.done] == OwnBase && x.machine == c && x.peer == r)
         || (Plan(x)[x.done] == PeerBase && x.peer == Machine(c) && r == Machine(x.machine))
    case _ => false
  }

  ghost predicate NeverRebased(w: World, steps: seq<Step>, c: string, r: Replica)
    requires Legal(w, steps)
    decreases |steps|
  {
    steps != [] ==> !Rebases(w, steps[0], c, r) && NeverRebased(Next(w, steps[0]), steps[1..], c, r)
  }

  lemma {:induction false} BaseStandsStill(w: World, steps: seq<Step>, c: string, r: Replica)
    requires Legal(w, steps) && NeverRebased(w, steps, c, r) && (c, r) in w.base
    ensures (c, r) in Run(w, steps).base && Run(w, steps).base[(c, r)] == w.base[(c, r)]
    decreases |steps|
  {
    if steps != [] {
      BaseStandsStill(Next(w, steps[0]), steps[1..], c, r);
    }
  }

  /** An edit on the machine, or the write of a sync that overwrites its vault, changes the variable there. */
  ghost predicate ChangesHere(w: World, s: Step, c: string, p: string, k: string)
    requires Enabled(w, s)
  {
    && Machine(c) in w.at && Machine(c) in Next(w, s).at
    && Val(Next(w, s).at[Machine(c)], p, k) != Val(w.at[Machine(c)], p, k)
    && match s
       case Edit(m, _) => m == c
       case Write(id) =>
         var x := w.open[id];
         var next := Plan(x)[x.done];
         (next == OwnVault || next == PeerVault) && Target(x, next) == Machine(c)
       case _ => false
  }

  ghost predicate ChangedSince(w: World, steps: seq<Step>, c: string, p: string, k: string)
    requires Legal(w, steps)
    decreases |steps|
  {
    && steps != []
    && (ChangesHere(w, steps[0], c, p, k) || ChangedSince(Next(w, steps[0]), steps[1..], c, p, k))
  }

  lemma OnlyThoseChange(w: World, s: Step, c: string, p: string, k: string)
    requires Enabled(w, s) && Machine(c) in w.at
    ensures Machine(c) in Next(w, s).at
    ensures Val(Next(w, s).at[Machine(c)], p, k) != Val(w.at[Machine(c)], p, k) ==> ChangesHere(w, s, c, p, k)
  {
    if s.Write? {
      var x := w.open[s.id];
      WritePlaces(w, x, Plan(x)[x.done], Machine(c));
    }
  }

  lemma {:induction false} DiffersSince(w: World, steps: seq<Step>, c: string, p: string, k: string)
    requires Legal(w, steps) && Machine(c) in w.at
    ensures Machine(c) in Run(w, steps).at
    ensures Val(Run(w, steps).at[Machine(c)], p, k) != Val(w.at[Machine(c)], p, k) ==> ChangedSince(w, steps, c, p, k)
    decreases |steps|
  {
    if steps != [] {
      OnlyThoseChange(w, steps[0], c, p, k);
      DiffersSince(Next(w, steps[0]), steps[1..], c, p, k);
    }
  }

  /**
   From a state in which the machine holds its base, and until that base is written again: where the machine
   differs from it, an edit or a sync has changed the variable there since; and user actions, whenever and
   wherever they were made, lead from the base's entry to what the machine holds.
   */
  lemma DiffersOnlyWhereChanged(w: World, steps: seq<Step>, c: string, r: Replica, p: string, k: string)
    requires Sound(w) && Legal(w, steps) && CarefulRun(w, steps) && NeverRebased(w, steps, c, r)
    requires Machine(c) in w.at && (c, r) in w.base && SameVars(w.at[Machine(c)], w.base[(c, r)])
    ensures
      var w' := Run(w, steps);
      && (c, r) in w'.base && w'.base[(c, r)] == w.base[(c, r)] && Machine(c) in w'.at
      && var was, now := Val(w'.base[(c, r)], p, k), Val(w'.at[Machine(c)], p, k);
      && Leads(w'.log, p, k, was, now)
      && (was != now ==> ChangedSince(w, steps, c, p, k) && exists x :: Action(p, k, was, x) in w'.log)
  {
    BaseStandsStill(w, steps, c, r);
    DiffersSince(w, steps, c, p, k);
    NoLostUpdate(w, steps);
    var w' := Run(w, steps);
    assert Val(w.at[Machine(c)], p, k) == Val(w.base[(c, r)], p, k);
    if Val(w.base[(c, r)], p, k) != Val(w'.at[Machine(c)], p, k) {
      LeadsStarts(w'.log, p, k, Val(w.base[(c, r)], p, k), Val(w'.at[Machine(c)], p, k));
    }
  }
}
