/**
 Stopping a sync between its writes and running it again. Over LAN the retry finishes a sync that had something
 to report; over USB it may take the empty-report path and leave the bundle behind, because that path writes the
 base and not the bundle. An empty-report sync stopped after its base write is undone by its retry
 (src/usb/lan-client.ts 385-398, src/commands/usb.ts 443-460).
 */
module Recovery {
  import opened Wrappers
  import opened Vaults
  import opened Merge
  import opened MergeLaws
  import opened History
  import opened Replicas
  import opened Runs
  import opened Cuts

  /** The report is about projects and, independently of them, about connections that one side lacks. */
  ghost predicate GoesQuiet(s: Session, others: bool) {
    s.quiet <==> QuietReport(s.ours, s.theirs, s.base, s.answers) && !others
  }

  /** Every answer picks one of the two sides. */
  ghost predicate PicksSides(o: Projects, t: Projects, b: Projects, answers: Resolutions) {
    forall p, k :: Clashing(o, t, b, p, k) && Manual(answers, p, k).Some? ==>
                     Manual(answers, p, k).value == Val(o, p, k) || Manual(answers, p, k).value == Val(t, p, k)
  }

  /** A retry that meets a conflict again, as it does where our side was picked, is told to keep ours again. */
  ghost predicate KeepsOurs(o: Projects, t: Projects, b: Projects, answers: Resolutions) {
    && Settles(o, t, b, answers) && OnlyAnswers(o, t, b, answers)
    && forall p, k :: Clashing(o, t, b, p, k) ==> Manual(answers, p, k) == Some(Val(o, p, k))
  }

  /** Merging the merge with their old copy, and keeping it where they still clash, gives the merge. */
  lemma MergeForcedAgain(o: Projects, t: Projects, b: Projects, answers: Resolutions, again: Resolutions)
    requires Settles(o, t, b, answers) && OnlyAnswers(o, t, b, answers) && PicksSides(o, t, b, answers)
    requires KeepsOurs(MergedProjects(o, t, b, answers), t, b, again)
    ensures MergedProjects(MergedProjects(o, t, b, answers), t, b, again) == MergedProjects(o, t, b, answers)
  {
    var m := MergedProjects(o, t, b, answers);
    forall p, k ensures p in m && p in t ==> Verdicts(m, t, b, again, p, k) == Take(Val(m, p, k)) {
      if p in m && p in t {
        MergedVal(o, t, b, answers, p, k);
        assert Verdicts(m, t, b, again, p, k).Take?;
        if p in o {
          assert Verdicts(o, t, b, answers, p, k).Take?;
          assert !Clashing(o, t, b, p, k) && Val(o, p, k) != Val(t, p, k) ==> Manual(answers, p, k).None?;
        }
        assert Clashing(m, t, b, p, k) ==> Manual(again, p, k) == Some(Val(m, p, k));
        assert !Clashing(m, t, b, p, k) && Val(m, p, k) != Val(t, p, k) ==> Manual(again, p, k).None?;
      }
    }
    MergedProjectsIs(m, t, b, again, m);
  }

  lemma MergeItself(m: Projects, b: Projects, answers: Resolutions)
    ensures MergedProjects(m, m, b, answers) == m && Settles(m, m, b, answers)
  {
    MergedProjectsIs(m, m, b, answers, m);
  }

  /** The retry's answers: the same again if nothing was written yet, ours again once our copy is the merge. */
  ghost predicate Retries(s: Session, cut: nat, retry: Session) {
    if cut == 0 then retry.answers == s.answers
    else KeepsOurs(retry.ours, retry.theirs, retry.base, retry.answers)
  }

  /** What a retry reads after a reporting sync, forced or not, was cut off. */
  lemma RetryReads(w: World, s: Session, cut: nat, again: Resolutions, quiet: bool)
    requires JustRead(w, s) && !s.quiet && cut <= |Plan(s)|
    requires OnlyAnswers(s.ours, s.theirs, s.base, s.answers) && PicksSides(s.ours, s.theirs, s.base, s.answers)
    requires Machine(s.machine) in Cut(w, s, cut).at && s.peer in Cut(w, s, cut).at
    requires Retries(s, cut, Reading(Cut(w, s, cut), s.machine, s.peer, again, quiet))
    ensures
      var retry := Reading(Cut(w, s, cut), s.machine, s.peer, again, quiet);
      && retry.ours == (if cut >= 1 then s.merged else s.ours)
      && retry.theirs == (if cut >= 2 then s.merged else s.theirs)
      && retry.merged == s.merged && Settles(retry.ours, retry.theirs, retry.base, again)
  {
    ReportingCut(w, s, cut);
    ReportingCutBase(w, s, cut);
    var retry := Reading(Cut(w, s, cut), s.machine, s.peer, again, quiet);
    if cut == 1 {
      MergeForcedAgain(s.ours, s.theirs, s.base, s.answers, again);
    } else if cut >= 2 {
      MergeItself(s.merged, retry.base, again);
    }
  }

  /**
   Over LAN, wherever a reporting sync is cut off, forced or not, a retry that picks the same sides, whichever
   way its own report sends it, passes the gates and ends with the vaults the uncut sync would have left.
   */
  lemma RetryFinishes(w: World, s: Session, cut: nat, again: Resolutions, others: bool, quiet: bool)
    requires JustRead(w, s) && !s.quiet && s.peer.Machine? && cut <= 4
    requires OnlyAnswers(s.ours, s.theirs, s.base, s.answers) && PicksSides(s.ours, s.theirs, s.base, s.answers)
    requires Machine(s.machine) in Cut(w, s, cut).at && s.peer in Cut(w, s, cut).at
    requires Retries(s, cut, Reading(Cut(w, s, cut), s.machine, s.peer, again, quiet))
    requires GoesQuiet(Reading(Cut(w, s, cut), s.machine, s.peer, again, quiet), others)
    ensures
      var w1 := Cut(w, s, cut);
      var retry := Reading(w1, s.machine, s.peer, again, quiet);
      JustRead(w1, retry) && Cut(w1, retry, |Plan(retry)|).at == Cut(w, s, 4).at
  {
    var w1 := Cut(w, s, cut);
    RetryReads(w, s, cut, again, quiet);
    CompletedSync(w1, Reading(w1, s.machine, s.peer, again, quiet));
    CutThenBoth(w, s, cut);
  }

  /** An unforced sync needs no answers again. */
  lemma UnforcedRetries(o: Projects, t: Projects, b: Projects)
    requires Settles(o, t, b, NONE)
    ensures OnlyAnswers(o, t, b, NONE) && PicksSides(o, t, b, NONE)
    ensures KeepsOurs(MergedProjects(o, t, b, NONE), t, b, NONE)
    ensures forall any :: KeepsOurs(MergedProjects(o, t, b, NONE), MergedProjects(o, t, b, NONE), any, NONE)
  {
    var m := MergedProjects(o, t, b, NONE);
    MergeAgain(o, t, b, b);
    NoClashes(m, t, b);
    forall any ensures KeepsOurs(m, m, any, NONE) {
      MergeItself(m, any, NONE);
      NoClashes(m, m, any);
    }
  }

  lemma NoClashes(o: Projects, t: Projects, b: Projects)
    requires Settles(o, t, b, NONE)
    ensures forall p, k :: !Clashing(o, t, b, p, k)
  {
    forall p, k ensures !Clashing(o, t, b, p, k) {
      assert p in o && p in t ==> Verdicts(o, t, b, NONE, p, k).Take?;
    }
  }

  lemma UnforcedRetry(w: World, s: Session, cut: nat, quiet: bool)
    requires JustRead(w, s) && !s.quiet && s.answers == NONE && cut <= |Plan(s)|
    ensures OnlyAnswers(s.ours, s.theirs, s.base, NONE) && PicksSides(s.ours, s.theirs, s.base, NONE)
    ensures Machine(s.machine) in Cut(w, s, cut).at && s.peer in Cut(w, s, cut).at
    ensures Retries(s, cut, Reading(Cut(w, s, cut), s.machine, s.peer, NONE, quiet))
  {
    UnforcedRetries(s.ours, s.theirs, s.base);
    ReportingCut(w, s, cut);
    ReportingCutBase(w, s, cut);
  }

  lemma PutTwice<K, V>(m: map<K, V>, a: K, b: K, x: V, y: V, z: V)
    ensures m[a := x][b := y][a := z][b := z] == m[a := z][b := z]
  {
  }

  lemma CutThenBoth(w: World, s: Session, cut: nat)
    requires JustRead(w, s) && !s.quiet && cut <= |Plan(s)| && |Plan(s)| >= 2
    ensures Cut(w, s, cut).at[Machine(s.machine) := s.merged][s.peer := s.merged] == Cut(w, s, |Plan(s)|).at
  {
    ReportingCut(w, s, cut);
    ReportingCut(w, s, |Plan(s)|);
    PutTwice(w.at, Machine(s.machine), s.peer, if cut >= 1 then s.merged else s.ours,
             if cut >= 2 then s.merged else s.theirs, s.merged);
  }

  /**
   Over USB the retry of a sync cut off after its first write leaves both copies with the same variables
   exactly when it still has something to report, or the bundle's variables were those of the merge, or the
   bundle had been written.
   */
  lemma UsbRetryIff(w: World, s: Session, cut: nat, others: bool, quiet: bool)
    requires JustRead(w, s) && !s.quiet && s.answers == NONE && s.peer.Bundle? && 1 <= cut <= 3
    requires Machine(s.machine) in Cut(w, s, cut).at && s.peer in Cut(w, s, cut).at
    requires GoesQuiet(Reading(Cut(w, s, cut), s.machine, s.peer, NONE, quiet), others)
    ensures
      var w1 := Cut(w, s, cut);
      var retry := Reading(w1, s.machine, s.peer, NONE, quiet);
      && JustRead(w1, retry)
      && var last := Cut(w1, retry, |Plan(retry)|);
      && Machine(s.machine) in last.at && s.peer in last.at
      && (SameVars(last.at[Machine(s.machine)], last.at[s.peer])
          <==> cut >= 2 || others || s.merged.Keys != s.theirs.Keys || SameVars(s.merged, s.theirs))
  {
    UnforcedRetry(w, s, cut, quiet);
    RetryReads(w, s, cut, NONE, quiet);
    ReportingCut(w, s, cut);
    var w1 := Cut(w, s, cut);
    var retry := Reading(w1, s.machine, s.peer, NONE, quiet);
    QuietIffOurs(retry.ours, retry.theirs, retry.base, NONE);
    if retry.quiet { QuietCut(w1, retry, 1); } else { ReportingCut(w1, retry, 3); }
  }

  /** A finished sync that had something to report leaves local vault, peer and base equal, over USB as over LAN. */
  lemma ReportingRestores(w: World, s: Session)
    requires JustRead(w, s) && !s.quiet
    ensures
      var w' := Cut(w, s, |Plan(s)|);
      && Machine(s.machine) in w'.at && s.peer in w'.at && (s.machine, s.peer) in w'.base
      && w'.at[Machine(s.machine)] == w'.at[s.peer] == w'.base[(s.machine, s.peer)]
  {
    ReportingCut(w, s, |Plan(s)|);
    ReportingCutBase(w, s, |Plan(s)|);
  }

  // ---------- the empty report ----------

  /** Changed here since the base and not there. */
  ghost predicate OursOnly(o: Projects, t: Projects, b: Projects, p: string, k: string) {
    Val(o, p, k) != Val(b, p, k) && Val(t, p, k) == Val(b, p, k)
  }

  /** With an unforced empty report the copies differ exactly in what was changed here and not there. */
  lemma QuietDiffers(o: Projects, t: Projects, b: Projects)
    requires Settles(o, t, b, NONE) && QuietReport(o, t, b, NONE)
    ensures o.Keys == t.Keys
    ensures forall p, k :: Val(o, p, k) != Val(t, p, k) <==> OursOnly(o, t, b, p, k)
    ensures SameVars(o, t) <==> forall p, k :: !OursOnly(o, t, b, p, k)
  {
    QuietMeansOurs(o, t, b, NONE);
    forall p, k ensures Val(o, p, k) != Val(t, p, k) <==> OursOnly(o, t, b, p, k) {
      MergedVal(o, t, b, NONE, p, k);
      if p in o { assert Verdicts(o, t, b, NONE, p, k).Take?; }
    }
    if forall p, k :: !OursOnly(o, t, b, p, k) {
      forall p | p in o ensures o[p].vars == t[p].vars {
        forall k ensures Look(o[p].vars, k) == Look(t[p].vars, k) {
          assert !OursOnly(o, t, b, p, k) && Val(o, p, k) == Look(o[p].vars, k);
        }
        EqualByLook(o[p].vars, t[p].vars);
      }
    } else {
      var p, k :| OursOnly(o, t, b, p, k);
      assert Val(o, p, k) != Val(t, p, k);
    }
  }

  /**
   The empty-report path over USB, or over LAN when the push fails: the base becomes the local vault, and the
   peer agrees with it exactly when nothing was changed here that it lacks.
   */
  lemma BaseOnlyRestoresIff(w: World, s: Session)
    requires JustRead(w, s) && s.quiet && s.answers == NONE
    ensures
      var w' := Cut(w, s, 1);
      && w'.at == w.at && BaseOf(w', s.machine, s.peer) == s.ours
      && (SameVars(s.ours, s.theirs) <==> forall p, k :: !OursOnly(s.ours, s.theirs, s.base, p, k))
  {
    QuietCut(w, s, 1);
    QuietDiffers(s.ours, s.theirs, s.base);
  }

  /** No base is owed: every one is a common ancestor. */
  ghost predicate BasesAreAncestors(w: World) {
    forall c, r :: (c, r) in w.base ==> IsAncestor(w, c, r, w.base[(c, r)])
  }

  lemma BaseOnlyAncestors(w: World, s: Session)
    requires Sound(w) && BasesAreAncestors(w) && JustRead(w, s) && s.quiet
    ensures BasesAreAncestors(Cut(w, s, 1)) <==> Follows(w.log, s.ours, s.theirs)
  {
    var w', c, r := Cut(w, s, 1), s.machine, s.peer;
    QuietCut(w, s, 1);
    assert Cut(w, s, 0) == w && w' == DoWrite(w, s, OwnBase);
    FollowsItself(w.log, s.ours);
    assert w'.base == w.base[(c, r) := s.ours] && w'.log == w.log && w'.at == w.at;
    if Follows(w.log, s.ours, s.theirs) {
      forall d, q | (d, q) in w'.base ensures IsAncestor(w', d, q, w'.base[(d, q)]) {
        if (d, q) != (c, r) { assert IsAncestor(w, d, q, w.base[(d, q)]); }
      }
    } else {
      assert !IsAncestor(w', c, r, w'.base[(c, r)]);
    }
  }

  /** With an empty report, forced or not, the copies differ in what was changed here only and in answered conflicts. */
  lemma QuietForcedDiffers(s: Session, p: string, k: string)
    requires PastGates(s) && s.quiet && OnlyAnswers(s.ours, s.theirs, s.base, s.answers)
    requires Val(s.ours, p, k) != Val(s.theirs, p, k)
    ensures OursOnly(s.ours, s.theirs, s.base, p, k) || Clashing(s.ours, s.theirs, s.base, p, k)
  {
    QuietMeansOurs(s.ours, s.theirs, s.base, s.answers);
    MergedVal(s.ours, s.theirs, s.base, s.answers, p, k);
    assert p in s.ours && p in s.theirs;
    assert Verdicts(s.ours, s.theirs, s.base, s.answers, p, k).Take?;
    assert !Clashing(s.ours, s.theirs, s.base, p, k) ==> Manual(s.answers, p, k).None?;
  }

  /** Of the answered conflicts, those where the peer's entry came out of ours by user actions. */
  ghost predicate ClashesDescend(s: Session, log: Log) {
    forall p, k :: Clashing(s.ours, s.theirs, s.base, p, k) ==>
                     Leads(log, p, k, Val(s.ours, p, k), Val(s.theirs, p, k))
  }

  lemma OursLeadsToTheirs(log: Log, s: Session)
    requires PastGates(s) && s.quiet && OnlyAnswers(s.ours, s.theirs, s.base, s.answers)
    requires Follows(log, s.base, s.ours)
    requires forall p, k :: Val(s.ours, p, k) != Val(s.theirs, p, k) ==> AcyclicAt(log, p, k)
    ensures Follows(log, s.ours, s.theirs)
            <==> (forall p, k :: !OursOnly(s.ours, s.theirs, s.base, p, k)) && ClashesDescend(s, log)
  {
    if p, k :| OursOnly(s.ours, s.theirs, s.base, p, k) {
      assert Leads(log, p, k, Val(s.base, p, k), Val(s.ours, p, k));
      assert Follows(log, s.ours, s.theirs) ==> Leads(log, p, k, Val(s.ours, p, k), Val(s.theirs, p, k));
    } else if ClashesDescend(s, log) {
      forall p, k ensures Leads(log, p, k, Val(s.ours, p, k), Val(s.theirs, p, k)) {
        LeadsNowhere(log, p, k, Val(s.ours, p, k));
        if Val(s.ours, p, k) != Val(s.theirs, p, k) { QuietForcedDiffers(s, p, k); }
      }
    } else {
      var p, k :| Clashing(s.ours, s.theirs, s.base, p, k)
                  && !Leads(log, p, k, Val(s.ours, p, k), Val(s.theirs, p, k));
    }
  }

  /**
   Exactly when such a base is still a common ancestor, forced or not: nothing was changed here only, and where
   a conflict was answered with ours, theirs had come out of ours. Where the two differ the variable's history
   has to be free of cycles: an entry that can come back would be an ancestor and a descendant at once.
   */
  lemma ForcedBaseOnlyIff(w: World, s: Session)
    requires Sound(w) && BasesAreAncestors(w) && JustRead(w, s) && s.quiet
    requires OnlyAnswers(s.ours, s.theirs, s.base, s.answers)
    requires forall p, k :: Val(s.ours, p, k) != Val(s.theirs, p, k) ==> AcyclicAt(w.log, p, k)
    ensures BasesAreAncestors(Cut(w, s, 1))
            <==> (forall p, k :: !OursOnly(s.ours, s.theirs, s.base, p, k)) && ClashesDescend(s, w.log)
  {
    if (s.machine, s.peer) in w.base { assert IsAncestor(w, s.machine, s.peer, w.base[(s.machine, s.peer)]); }
    BaseOnlyAncestors(w, s);
    OursLeadsToTheirs(w.log, s);
  }

  /** Unforced, there was no conflict, and the condition is that nothing was changed here only. */
  lemma BaseOnlyIff(w: World, s: Session)
    requires Sound(w) && BasesAreAncestors(w) && JustRead(w, s) && s.quiet && s.answers == NONE
    requires forall p, k :: Val(s.ours, p, k) != Val(s.theirs, p, k) ==> AcyclicAt(w.log, p, k)
    ensures BasesAreAncestors(Cut(w, s, 1)) <==> forall p, k :: !OursOnly(s.ours, s.theirs, s.base, p, k)
    ensures BasesAreAncestors(Cut(w, s, 1)) <==> SameVars(s.ours, s.theirs)
  {
    NoClashes(s.ours, s.theirs, s.base);
    QuietDiffers(s.ours, s.theirs, s.base);
    ForcedBaseOnlyIff(w, s);
  }

  /** The same answers if nothing was written yet; afterwards nothing conflicts, so none are given. */
  function Again(s: Session, cut: nat): Resolutions {
    if cut == 0 then s.answers else NONE
  }

  /** What a retry of a sync with nothing to report reads, forced or not, and what it will write. */
  lemma QuietRetryReads(w: World, s: Session, cut: nat, quiet: bool)
    requires JustRead(w, s) && s.quiet && cut <= |Plan(s)|
    ensures Machine(s.machine) in Cut(w, s, cut).at && s.peer in Cut(w, s, cut).at
    ensures
      var retry := Reading(Cut(w, s, cut), s.machine, s.peer, Again(s, cut), quiet);
      && Settles(retry.ours, retry.theirs, retry.base, Again(s, cut))
      && (cut == 1 ==> SameVars(retry.merged, s.theirs)) && (cut != 1 ==> retry.merged == s.ours)
  {
    QuietCut(w, s, cut);
    QuietMeansOurs(s.ours, s.theirs, s.base, s.answers);
    if cut == 1 {
      OwnBaseYields(s.ours, s.theirs);
    } else if cut >= 2 {
      MergeItself(s.merged, Reading(Cut(w, s, cut), s.machine, s.peer, Again(s, cut), quiet).base, NONE);
    }
  }

  lemma SameVarsSwap(a: Projects, b: Projects, c: Projects)
    requires SameVars(a, b)
    ensures SameVars(a, c) <==> SameVars(c, b)
  {
  }

  /**
   Over LAN a sync with nothing to report, forced or not, cut off and run again: both vaults are as the uncut
   sync would have left them exactly when it was not cut after its base write, or the two machines agreed.
   */
  lemma QuietRetryIff(w: World, s: Session, cut: nat, others: bool, quiet: bool)
    requires JustRead(w, s) && s.quiet && s.peer.Machine? && cut <= 3
    requires Machine(s.machine) in Cut(w, s, cut).at && s.peer in Cut(w, s, cut).at
    requires GoesQuiet(Reading(Cut(w, s, cut), s.machine, s.peer, Again(s, cut), quiet), others)
    ensures
      var w1 := Cut(w, s, cut);
      var retry := Reading(w1, s.machine, s.peer, Again(s, cut), quiet);
      && JustRead(w1, retry)
      && var last, uncut := Cut(w1, retry, |Plan(retry)|), Cut(w, s, 3);
      && Machine(s.machine) in last.at && s.peer in last.at && Machine(s.machine) in uncut.at && s.peer in uncut.at
      && (SameVars(last.at[Machine(s.machine)], uncut.at[Machine(s.machine)])
          && SameVars(last.at[s.peer], uncut.at[s.peer])
          <==> cut != 1 || SameVars(s.ours, s.theirs))
  {
    QuietRetryReads(w, s, cut, quiet);
    CompletedSync(w, s);
    QuietCut(w, s, 3);
    var w1 := Cut(w, s, cut);
    var retry := Reading(w1, s.machine, s.peer, Again(s, cut), quiet);
    CompletedSync(w1, retry);
    if cut == 1 { SameVarsSwap(retry.merged, s.theirs, s.ours); }
  }

  /** With our own vault as the base, every variable is taken from the other side. */
  lemma OwnBaseYields(o: Projects, t: Projects)
    requires o.Keys == t.Keys
    ensures Settles(o, t, o, NONE) && OnlyAnswers(o, t, o, NONE)
    ensures SameVars(MergedProjects(o, t, o, NONE), t)
  {
    var m := MergedProjects(o, t, o, NONE);
    forall p | p in m ensures m[p].vars == t[p].vars {
      forall k ensures Look(m[p].vars, k) == Look(t[p].vars, k) {
        MergedVal(o, t, o, NONE, p, k);
      }
      EqualByLook(m[p].vars, t[p].vars);
    }
  }

  /**
   After a base-only write, forced or not, the next sync with the untouched peer hands this machine the peer's
   variables back; unforced, what is lost is exactly what was changed here and not there.
   */
  lemma BaseOnlyThenSync(w: World, s: Session)
    requires JustRead(w, s) && s.quiet
    ensures
      var w1 := Cut(w, s, 1);
      && Machine(s.machine) in w1.at && s.peer in w1.at
      && var next := Reading(w1, s.machine, s.peer, NONE, false);
      && JustRead(w1, next)
      && var last := Cut(w1, next, |Plan(next)|);
      && Machine(s.machine) in last.at
      && (forall p, k :: Val(last.at[Machine(s.machine)], p, k) == Val(s.theirs, p, k))
      && (s.answers == NONE ==>
            forall p, k :: Val(last.at[Machine(s.machine)], p, k) == Val(s.ours, p, k)
                           <==> !OursOnly(s.ours, s.theirs, s.base, p, k))
  {
    QuietCut(w, s, 1);
    QuietMeansOurs(s.ours, s.theirs, s.base, s.answers);
    if s.answers == NONE { QuietDiffers(s.ours, s.theirs, s.base); }
    OwnBaseYields(s.ours, s.theirs);
    var w1 := Cut(w, s, 1);
    var next := Reading(w1, s.machine, s.peer, NONE, false);
    ReportingCut(w1, next, |Plan(next)|);
    SameVal(next.merged, s.theirs);
  }

  lemma SameVal(a: Projects, b: Projects)
    requires SameVars(a, b)
    ensures forall p, k :: Val(a, p, k) == Val(b, p, k)
  {
  }
}
