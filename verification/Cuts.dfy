/** One sync on its own: read, then some of its writes with nothing in between. */
module Cuts {
  import opened Wrappers
  import opened Vaults
  import opened Merge
  import opened MergeLaws
  import opened History
  import opened Replicas
  import opened Runs

  /** The world after the first `n` writes; sessions under way are left as they are. */
  function Cut(w: World, s: Session, n: nat): World
    requires n <= |Plan(s)|
  {
    if n == 0 then w else DoWrite(Cut(w, s, n - 1), s, Plan(s)[n - 1])
  }

  ghost predicate JustRead(w: World, s: Session) {
    && Machine(s.machine) in w.at && s.peer in w.at && s.peer != Machine(s.machine)
    && s == Reading(w, s.machine, s.peer, s.answers, s.quiet) && PastGates(s)
  }

  lemma ReportingCut(w: World, s: Session, n: nat)
    requires JustRead(w, s) && !s.quiet && n <= |Plan(s)|
    ensures Cut(w, s, n).at == w.at[Machine(s.machine) := if n >= 1 then s.merged else s.ours]
                                   [s.peer := if n >= 2 then s.merged else s.theirs]
  {
    if n > 0 { ReportingCut(w, s, n - 1); }
  }

  lemma ReportingCutBase(w: World, s: Session, n: nat)
    requires JustRead(w, s) && !s.quiet && n <= |Plan(s)|
    ensures BaseOf(Cut(w, s, n), s.machine, s.peer) == (if n == |Plan(s)| then s.merged else s.base)
  {
    if n > 0 { ReportingCutBase(w, s, n - 1); }
  }

  lemma QuietCut(w: World, s: Session, n: nat)
    requires JustRead(w, s) && s.quiet && n <= |Plan(s)|
    ensures
      var w1 := Cut(w, s, n);
      && s.merged == s.ours
      && w1.at == (if n >= 2 then w.at[s.peer := s.merged] else w.at)
      && BaseOf(w1, s.machine, s.peer) == (if n >= 1 then s.merged else s.base)
  {
    if n > 0 {
      QuietCut(w, s, n - 1);
    } else {
      QuietMeansOurs(s.ours, s.theirs, s.base, s.answers);
    }
  }

  /** A completed LAN sync leaves both vaults and both bases equal. */
  lemma CompletedSync(w: World, s: Session)
    requires JustRead(w, s) && s.peer.Machine?
    ensures
      var w' := Cut(w, s, |Plan(s)|);
      && w'.at == w.at[Machine(s.machine) := s.merged][s.peer := s.merged]
      && w'.base == w.base[(s.machine, s.peer) := s.merged][(s.peer.deviceId, Machine(s.machine)) := s.merged]
  {
    if s.quiet { QuietCut(w, s, 3); } else { ReportingCut(w, s, 4); }
    CutBases(w, s);
  }

  lemma CutBases(w: World, s: Session)
    requires s.peer.Machine? && s.peer != Machine(s.machine)
    ensures Cut(w, s, |Plan(s)|).base
            == w.base[(s.machine, s.peer) := s.merged][(s.peer.deviceId, Machine(s.machine)) := s.merged]
  {
    assert Cut(w, s, 0) == w;
    var a := Cut(w, s, 1);
    var b := Cut(w, s, 2);
    var c := Cut(w, s, 3);
    assert c == DoWrite(b, s, Plan(s)[2]) && b == DoWrite(a, s, Plan(s)[1]) && a == DoWrite(w, s, Plan(s)[0]);
    if !s.quiet { assert Cut(w, s, 4) == DoWrite(c, s, Plan(s)[3]); }
  }

  // ---------- the same as a run of single steps ----------

  lemma {:induction false} RunSnoc(w: World, steps: seq<Step>, x: Step)
    requires Legal(w, steps) && Enabled(Run(w, steps), x)
    ensures Legal(w, steps + [x]) && Run(w, steps + [x]) == Next(Run(w, steps), x)
    ensures CarefulRun(w, steps) && Careful(Run(w, steps), x) ==> CarefulRun(w, steps + [x])
    decreases |steps|
  {
    if steps == [] {
      assert steps + [x] == [x] && [x][1..] == [];
    } else {
      assert (steps + [x])[1..] == steps[1..] + [x];
      RunSnoc(Next(w, steps[0]), steps[1..], x);
    }
  }

  function Steps(id: nat, s: Session, n: nat): seq<Step> {
    if n == 0 then [Read(id, s.machine, s.peer, s.answers, s.quiet)] else Steps(id, s, n - 1) + [Write(id)]
  }

  lemma DoWriteOpen(w: World, s: Session, x: Write, done: nat, open: map<nat, Session>)
    ensures DoWrite(w.(open := open), s.(done := done), x) == DoWrite(w, s, x).(open := open)
  {
  }

  lemma CutOpen(w: World, s: Session, n: nat)
    requires n <= |Plan(s)|
    ensures Cut(w, s, n).open == w.open
  {
    if n > 0 { CutOpen(w, s, n - 1); }
  }

  /** The copy about to be written is still the one that was read. */
  lemma CutUnspoiled(w: World, s: Session, n: nat)
    requires JustRead(w, s) && n < |Plan(s)|
    ensures Target(s, Plan(s)[n]) in Cut(w, s, n).at
    ensures Plan(s)[n] == OwnVault || Plan(s)[n] == PeerVault ==>
              Cut(w, s, n).at[Target(s, Plan(s)[n])] == ReadOf(s, Plan(s)[n])
  {
    if s.quiet { QuietCut(w, s, n); } else { ReportingCut(w, s, n); }
  }

  lemma NextIsCareful(w: World, v: World, id: nat, s: Session, n: nat)
    requires JustRead(w, s) && n < |Plan(s)| && v == Cut(w, s, n).(open := w.open[id := s.(done := n)])
    ensures Enabled(v, Write(id)) && Careful(v, Write(id))
  {
    assert Plan(v.open[id]) == Plan(s);
    CutUnspoiled(w, s, n);
  }

  lemma NextWrite(w: World, v: World, id: nat, s: Session, n: nat)
    requires n < |Plan(s)| && v == Cut(w, s, n).(open := w.open[id := s.(done := n)])
    ensures Enabled(v, Write(id))
    ensures Next(v, Write(id)) == Cut(w, s, n + 1).(open := w.open[id := s.(done := n + 1)])
  {
    var t := s.(done := n);
    assert Plan(t) == Plan(s) && v.open[id] == t;
    DoWriteOpen(Cut(w, s, n), s, Plan(s)[n], n, v.open);
    assert v.open[id := t.(done := n + 1)] == w.open[id := s.(done := n + 1)];
  }

  /** Nothing in between: every write finds what was read, so the steps are careful as soon as the read is. */
  lemma {:induction false} StepsAreCut(w: World, id: nat, s: Session, n: nat)
    requires JustRead(w, s) && id !in w.open && n <= |Plan(s)|
    ensures Legal(w, Steps(id, s, n))
    ensures Run(w, Steps(id, s, n)) == Cut(w, s, n).(open := w.open[id := s.(done := n)])
    ensures Careful(w, Read(id, s.machine, s.peer, s.answers, s.quiet)) ==> CarefulRun(w, Steps(id, s, n))
  {
    if n == 0 {
      var x := Read(id, s.machine, s.peer, s.answers, s.quiet);
      assert Enabled(w, x) && Next(w, x) == w.(open := w.open[id := s]);
      assert [x][1..] == [] && Legal(Next(w, x), []);
    } else {
      StepsAreCut(w, id, s, n - 1);
      NextIsCareful(w, Run(w, Steps(id, s, n - 1)), id, s, n - 1);
      NextWrite(w, Run(w, Steps(id, s, n - 1)), id, s, n - 1);
      RunSnoc(w, Steps(id, s, n - 1), Write(id));
    }
  }

  /** And then it ends, finished or not. */
  lemma EndedIsCut(w: World, id: nat, s: Session, n: nat)
    requires JustRead(w, s) && id !in w.open && n <= |Plan(s)|
    ensures Legal(w, Steps(id, s, n) + [Drop(id)])
    ensures Run(w, Steps(id, s, n) + [Drop(id)]) == Cut(w, s, n)
    ensures && Careful(w, Read(id, s.machine, s.peer, s.answers, s.quiet))
            && (s.quiet && n == 1 ==> SameVars(s.ours, s.theirs))
            ==> CarefulRun(w, Steps(id, s, n) + [Drop(id)])
  {
    StepsAreCut(w, id, s, n);
    CutOpen(w, s, n);
    RunSnoc(w, Steps(id, s, n), Drop(id));
    assert w.open[id := s.(done := n)] - {id} == w.open;
    if s.quiet { QuietCut(w, s, n); }
  }

  /** No other sync of this machine with that end is in debt. */
  ghost predicate NoDebt(open: map<nat, Session>, c: string, r: Replica) {
    forall i :: i in open && open[i].machine == c && open[i].peer == r ==> !InDebt(open[i])
  }

  /** What the user of a sync agreed to, on either side: all that the sync may add to the log. */
  function Agreed(s: Session): Log {
    Approved(s.ours, s.theirs, s.base, s.ours, s.merged) + Approved(s.ours, s.theirs, s.base, s.theirs, s.merged)
  }

  lemma {:induction false} CutLog(w: World, s: Session, n: nat)
    requires n <= |Plan(s)|
    ensures w.log <= Cut(w, s, n).log <= w.log + Agreed(s)
  {
    if n > 0 { CutLog(w, s, n - 1); }
  }

  lemma ReadIsCareful(w: World, id: nat, s: Session)
    requires JustRead(w, s) && id !in w.open && NoDebt(w.open, s.machine, s.peer)
    requires OnlyAnswers(s.ours, s.theirs, s.base, s.answers)
    ensures Enabled(w, Read(id, s.machine, s.peer, s.answers, s.quiet))
    ensures Careful(w, Read(id, s.machine, s.peer, s.answers, s.quiet))
  {
  }

  /** So a sync on its own loses nothing, unless it ends with its base written and a peer that differs. */
  lemma CutLosesNothing(w: World, id: nat, s: Session, n: nat)
    requires Sound(w) && JustRead(w, s) && id !in w.open && n <= |Plan(s)| && NoDebt(w.open, s.machine, s.peer)
    requires OnlyAnswers(s.ours, s.theirs, s.base, s.answers)
    requires s.quiet && n == 1 ==> SameVars(s.ours, s.theirs)
    ensures Sound(Cut(w, s, n)) && Onward(w, Cut(w, s, n)) && Cut(w, s, n).log <= w.log + Agreed(s)
  {
    ReadIsCareful(w, id, s);
    EndedIsCut(w, id, s, n);
    NoLostUpdate(w, Steps(id, s, n) + [Drop(id)]);
    CutLog(w, s, n);
  }
}
