/** The LAN and USB commands, as they write, are runs of `Replicas`, so what holds of runs holds of them. */
module FleetSyncs {
  import opened Wrappers
  import opened Vaults
  import opened Merge
  import opened MergeLaws
  import opened TwoPass
  import opened LanSync
  import opened UsbSync
  import opened History
  import opened Replicas
  import opened Runs
  import opened Cuts
  import opened Fleets

  /** Past the gates the merge of projects is settled; with nothing to report it has no line about projects. */
  lemma GatesPassed(x: Inputs, answers: Resolutions)
    requires forall c :: !IsConflict(x.local, x.remote, x.base, answers, c)
    ensures
      var o, t, b := x.local.projects, x.remote.projects, BaseProjects(x.base);
      && Settles(o, t, b, answers)
      && (NothingToReport(x, answers) ==> QuietReport(o, t, b, answers) && MergedProjects(o, t, b, answers) == o)
  {
    var o, t, b := x.local.projects, x.remote.projects, BaseProjects(x.base);
    forall k ensures !IsProjectConflict(o, t, b, answers, k) {
      assert !IsConflict(x.local, x.remote, x.base, answers, k);
    }
    SettlesIffNoConflict(o, t, b, answers);
    if NothingToReport(x, answers) {
      forall line ensures !IsProjectLine(o, t, b, answers, line) {
        assert !IsLine(x.local, x.remote, x.base, answers, line);
      }
      QuietMeansOurs(o, t, b, answers);
    }
  }

  /** The answers came from asking about, or forcing, the conflicts of the probe, whose names are separate. */
  ghost predicate Answered(x: Inputs, answers: Resolutions, cs: seq<Conflict>, choices: seq<Choice>) {
    || answers == NONE
    || (&& Lists(cs, x.local, x.remote, x.base) && |cs| == |choices| && answers == Collected(cs, choices)
        && KeysSeparate(x.local, x.remote, x.base, cs))
  }

  /** The session is what the command read. */
  ghost predicate Reads(s: Session, x: Inputs, answers: Resolutions) {
    && s.ours == x.local.projects && s.theirs == x.remote.projects && s.base == BaseProjects(x.base)
    && s.answers == answers && s.merged == MergedProjects(s.ours, s.theirs, s.base, answers)
    && (s.quiet <==> NothingToReport(x, answers))
  }

  lemma ReadIsJust(w: World, s: Session, x: Inputs, answers: Resolutions)
    requires Machine(s.machine) in w.at && s.peer in w.at && s.peer != Machine(s.machine)
    requires s == Reading(w, s.machine, s.peer, s.answers, s.quiet) && Reads(s, x, answers)
    requires forall c :: !IsConflict(x.local, x.remote, x.base, answers, c)
    ensures JustRead(w, s) && Sent(x, answers).projects == s.merged
  {
    GatesPassed(x, answers);
  }

  lemma AnsweredOnly(x: Inputs, answers: Resolutions, cs: seq<Conflict>, choices: seq<Choice>)
    requires Answered(x, answers, cs, choices)
    ensures OnlyAnswers(x.local.projects, x.remote.projects, BaseProjects(x.base), answers)
  {
    if answers != NONE {
      SeparateAnswersOnly(x.local, x.remote, x.base, cs, choices);
    }
  }

  // ---------- LAN ----------

  function LanSession(f: Fleet, c: string, h: string, answers: Resolutions, quiet: bool): Session
    requires c in f.machines && h in f.machines
  {
    InEnds(f, Machine(c));
    InEnds(f, Machine(h));
    Reading(View(f, {}, map[]), c, Machine(h), answers, quiet)
  }

  ghost function LanInputs(f: Fleet, c: string, h: string): Inputs
    requires c in f.machines && h in f.machines
  {
    InputsOf(f.machines[c].vault, f.machines[c].bases, f.machines[h].vault, h)
  }

  lemma LanReads(f: Fleet, c: string, h: string, answers: Resolutions, log: Log, open: map<nat, Session>)
    requires Named(f) && c in f.machines && h in f.machines
    ensures
      var x := LanInputs(f, c, h);
      var s := LanSession(f, c, h, answers, NothingToReport(x, answers));
      var w := View(f, log, open);
      && Machine(c) in w.at && Machine(h) in w.at
      && s == Reading(w, c, Machine(h), answers, s.quiet) && Reads(s, x, answers)
  {
    InEnds(f, Machine(c));
    InEnds(f, Machine(h));
    PeerKeys(Machine(h), Machine(h));
    KnownBaseAt(f, c, Machine(h));
  }

  /** How many writes were made when the push was taken, or was not. */
  function LanWritesMade(s: Session, taken: bool): nat {
    if taken then |Plan(s)| else 1
  }

  lemma SavedIsWithBase(stored: Stored, r: Replica, v: Vault)
    requires r.Machine? && r.deviceId != ""
    ensures stored.(bases := SavedBase(stored.bases, LanPeerId(Some(r.deviceId)), v)) == WithBase(stored, r, v)
  {
    PeerKeys(r, r);
  }

  lemma LanWroteOne(f: Fleet, c: string, h: string, s: Session, v: Vault)
    requires Named(f) && c in f.machines && h in f.machines && c != h
    requires s.machine == c && s.peer == Machine(h) && Machine(h) in Ends(f)
    ensures
      var c0 := f.machines[c];
      var c' := if s.quiet then WithBase(c0, Machine(h), v) else c0.(vault := v);
      WroteN(f, s, v, 1) == Put(Put(f, c, c'), h, f.machines[h])
  {
    assert WroteN(f, s, v, 0) == f;
  }

  lemma LanWroteReporting(f: Fleet, c: string, h: string, s: Session, v: Vault)
    requires c in f.machines && h in f.machines && c != h && !s.quiet
    requires s.machine == c && s.peer == Machine(h) && Machine(h) in Ends(f)
    ensures
      var c0, h0 := f.machines[c], f.machines[h];
      WroteN(f, s, v, 4) == Put(Put(f, c, WithBase(c0.(vault := v), Machine(h), v)), h,
                                WithBase(h0.(vault := KeepDeviceLocal(v, h0.vault)), Machine(c), v))
  {
    var c0, h0 := f.machines[c], f.machines[h];
    assert WroteN(f, s, v, 0) == f;
    assert WroteN(f, s, v, 1) == Put(f, c, c0.(vault := v));
    assert WroteN(f, s, v, 2) == Put(Put(f, c, c0.(vault := v)), h, h0.(vault := KeepDeviceLocal(v, h0.vault)));
  }

  lemma LanWroteQuiet(f: Fleet, c: string, h: string, s: Session, v: Vault)
    requires c in f.machines && h in f.machines && c != h && s.quiet
    requires s.machine == c && s.peer == Machine(h) && Machine(h) in Ends(f)
    ensures
      var c0, h0 := f.machines[c], f.machines[h];
      WroteN(f, s, v, 3) == Put(Put(f, c, WithBase(c0, Machine(h), v)), h,
                                WithBase(h0.(vault := KeepDeviceLocal(v, h0.vault)), Machine(c), v))
  {
    assert WroteN(f, s, v, 0) == f;
    assert WroteN(f, s, v, 1) == Put(f, c, WithBase(f.machines[c], Machine(h), v));
  }

  lemma LanWrote(f: Fleet, c: string, h: string, c': Stored, h': Stored, s: Session, x: Inputs, answers: Resolutions,
                 outcome: LanOutcome)
    requires Named(f) && c in f.machines && h in f.machines && c != h && Machine(h) in Ends(f)
    requires LanWrites(x, answers, outcome, c, h, f.machines[c], f.machines[h], c', h')
    requires s.machine == c && s.peer == Machine(h) && (s.quiet <==> !outcome.changed)
    ensures WroteN(f, s, Sent(x, answers), LanWritesMade(s, outcome.Synced?)) == Put(Put(f, c, c'), h, h')
  {
    var v := Sent(x, answers);
    SavedIsWithBase(f.machines[c], Machine(h), v);
    SavedIsWithBase(f.machines[h], Machine(c), v);
    LanWroteOne(f, c, h, s, v);
    if s.quiet { LanWroteQuiet(f, c, h, s, v); } else { LanWroteReporting(f, c, h, s, v); }
  }

  /**
   What `ApplyLanSync` leaves on the two machines is a run of the whole fleet: the read, the writes that were
   made, the end. The log grows by what was approved, and every other machine and stick is as it was.
   */
  lemma LanSyncIsRun(f: Fleet, c: string, h: string, c': Stored, h': Stored, answers: Resolutions,
                     outcome: LanOutcome, id: nat, log: Log, open: map<nat, Session>)
    requires Named(f) && c in f.machines && h in f.machines && c != h && id !in open
    requires LanWrites(LanInputs(f, c, h), answers, outcome, c, h, f.machines[c], f.machines[h], c', h')
    ensures
      var w := View(f, log, open);
      var s := LanSession(f, c, h, answers, !outcome.changed);
      var n := LanWritesMade(s, outcome.Synced?);
      && JustRead(w, s)
      && var steps := Steps(id, s, n) + [Drop(id)];
      && Legal(w, steps) && Run(w, steps) == Cut(w, s, n)
      && Run(w, steps) == View(Put(Put(f, c, c'), h, h'), Run(w, steps).log, open)
  {
    var x := LanInputs(f, c, h);
    var w := View(f, log, open);
    var s := LanSession(f, c, h, answers, !outcome.changed);
    var n := LanWritesMade(s, outcome.Synced?);
    LanReads(f, c, h, answers, log, open);
    ReadIsJust(w, s, x, answers);
    InEnds(f, Machine(h));
    LanWrote(f, c, h, c', h', s, x, answers, outcome);
    WroteNIsCut(f, s, Sent(x, answers), n, log, open);
    EndedIsCut(w, id, s, n);
  }

  /**
   So a LAN sync loses nothing on any machine or stick, with the log grown by nothing but what its user agreed
   to, unless its push was not taken although it had nothing to report and the two machines differed.
   */
  lemma LanSyncLosesNothing(f: Fleet, c: string, h: string, c': Stored, h': Stored, answers: Resolutions,
                            outcome: LanOutcome, cs: seq<Conflict>, choices: seq<Choice>,
                            id: nat, log: Log, open: map<nat, Session>)
    requires Named(f) && c in f.machines && h in f.machines && c != h && id !in open
    requires LanWrites(LanInputs(f, c, h), answers, outcome, c, h, f.machines[c], f.machines[h], c', h')
    requires Answered(LanInputs(f, c, h), answers, cs, choices)
    requires Sound(View(f, log, open)) && NoDebt(open, c, Machine(h))
    requires outcome.PushRefused? && !outcome.changed ==>
               SameVars(f.machines[c].vault.projects, f.machines[h].vault.projects)
    ensures
      var s := LanSession(f, c, h, answers, !outcome.changed);
      var log' := Cut(View(f, log, open), s, LanWritesMade(s, outcome.Synced?)).log;
      var w' := View(Put(Put(f, c, c'), h, h'), log', open);
      Sound(w') && Onward(View(f, log, open), w') && log' <= log + Agreed(s)
  {
    var w := View(f, log, open);
    var s := LanSession(f, c, h, answers, !outcome.changed);
    LanSyncIsRun(f, c, h, c', h', answers, outcome, id, log, open);
    LanReads(f, c, h, answers, log, open);
    AnsweredOnly(LanInputs(f, c, h), answers, cs, choices);
    CutLosesNothing(w, id, s, LanWritesMade(s, outcome.Synced?));
  }

  // ---------- USB ----------

  function StickFile(f: Fleet, l: string): BundleFile
    requires l in f.sticks
  {
    BundleFile(f.sticks[l], Some(l))
  }

  function UsbSession(f: Fleet, c: string, l: string, answers: Resolutions, quiet: bool): Session
    requires c in f.machines && l in f.sticks
  {
    InEnds(f, Machine(c));
    InEnds(f, Bundle(l));
    Reading(View(f, {}, map[]), c, Bundle(l), answers, quiet)
  }

  function StickInputs(f: Fleet, c: string, l: string): Inputs
    requires c in f.machines && l in f.sticks
  {
    UsbInputs(f.machines[c].vault, f.machines[c].bases, StickFile(f, l))
  }

  lemma UsbReads(f: Fleet, c: string, l: string, answers: Resolutions, log: Log, open: map<nat, Session>)
    requires Named(f) && c in f.machines && l in f.sticks
    ensures
      var x := StickInputs(f, c, l);
      var s := UsbSession(f, c, l, answers, NothingToReport(x, answers));
      var w := View(f, log, open);
      && Machine(c) in w.at && Bundle(l) in w.at
      && s == Reading(w, c, Bundle(l), answers, s.quiet) && Reads(s, x, answers)
  {
    InEnds(f, Machine(c));
    InEnds(f, Bundle(l));
    PeerKeys(Bundle(l), Bundle(l));
    KnownBaseAt(f, c, Bundle(l));
  }

  lemma UsbWroteN(f: Fleet, c: string, l: string, s: Session, v: Vault)
    requires Named(f) && c in f.machines && l in f.sticks
    requires s.machine == c && s.peer == Bundle(l) && Bundle(l) in Ends(f)
    ensures
      var c' := Stored(if s.quiet then f.machines[c].vault else v,
                       SavedBase(f.machines[c].bases, UsbPeerId(Some(l)), v));
      var g := Put(f, c, c');
      WroteN(f, s, v, |Plan(s)|) == if s.quiet then g else g.(sticks := g.sticks[l := WithoutDeviceLocal(v)])
  {
    PeerKeys(Bundle(l), Bundle(l));
    assert WroteN(f, s, v, 0) == f;
    var f1 := WroteN(f, s, v, 1);
    if !s.quiet {
      var f2 := WroteN(f, s, v, 2);
      var f3 := WroteN(f, s, v, 3);
    }
  }

  /**
   A USB sync that went through is a run of the whole fleet, and the stick keeps its lineage; on the
   empty-report path it is the base-only write, a debt that nothing pays.
   */
  lemma UsbSyncIsRun(f: Fleet, c: string, l: string, c': Stored, latest: Option<BundleFile>, answers: Resolutions,
                     minted: string, outcome: UsbOutcome, id: nat, log: Log, open: map<nat, Session>)
    requires Named(f) && c in f.machines && l in f.sticks && id !in open
    requires outcome == AlreadyInSync || outcome == Refreshed
    requires UsbResult(outcome, answers, minted, f.machines[c].vault, f.machines[c].bases, StickFile(f, l),
                       c'.vault, c'.bases, latest)
    ensures latest.Some? && latest.value.lineageId == Some(l)
    ensures
      var w := View(f, log, open);
      var s := UsbSession(f, c, l, answers, outcome == AlreadyInSync);
      && JustRead(w, s)
      && var steps := Steps(id, s, |Plan(s)|) + [Drop(id)];
      var g := Put(f, c, c');
      && Legal(w, steps) && Run(w, steps) == Cut(w, s, |Plan(s)|)
      && Run(w, steps) == View(g.(sticks := g.sticks[l := latest.value.vault]), Run(w, steps).log, open)
  {
    var x := StickInputs(f, c, l);
    var w := View(f, log, open);
    var s := UsbSession(f, c, l, answers, outcome == AlreadyInSync);
    UsbReads(f, c, l, answers, log, open);
    ReadIsJust(w, s, x, answers);
    InEnds(f, Bundle(l));
    UsbWroteN(f, c, l, s, Sent(x, answers));
    WroteNIsCut(f, s, Sent(x, answers), |Plan(s)|, log, open);
    EndedIsCut(w, id, s, |Plan(s)|);
    StickUnchanged(Put(f, c, c'), l);
  }

  /**
   A USB sync that had something to report loses nothing; one that had not loses nothing if the stick had
   the same variables.
   */
  lemma UsbSyncLosesNothing(f: Fleet, c: string, l: string, c': Stored, latest: Option<BundleFile>,
                            answers: Resolutions, minted: string, outcome: UsbOutcome, cs: seq<Conflict>,
                            choices: seq<Choice>, id: nat, log: Log, open: map<nat, Session>)
    requires Named(f) && c in f.machines && l in f.sticks && id !in open
    requires outcome == AlreadyInSync || outcome == Refreshed
    requires UsbResult(outcome, answers, minted, f.machines[c].vault, f.machines[c].bases, StickFile(f, l),
                       c'.vault, c'.bases, latest)
    requires Answered(StickInputs(f, c, l), answers, cs, choices)
    requires Sound(View(f, log, open)) && NoDebt(open, c, Bundle(l))
    requires outcome == AlreadyInSync ==> SameVars(f.machines[c].vault.projects, f.sticks[l].projects)
    ensures latest.Some? && latest.value.lineageId == Some(l)
    ensures
      var s := UsbSession(f, c, l, answers, outcome == AlreadyInSync);
      var log' := Cut(View(f, log, open), s, |Plan(s)|).log;
      var g := Put(f, c, c');
      var w' := View(g.(sticks := g.sticks[l := latest.value.vault]), log', open);
      Sound(w') && Onward(View(f, log, open), w') && log' <= log + Agreed(s)
  {
    var w := View(f, log, open);
    var s := UsbSession(f, c, l, answers, outcome == AlreadyInSync);
    UsbSyncIsRun(f, c, l, c', latest, answers, minted, outcome, id, log, open);
    UsbReads(f, c, l, answers, log, open);
    AnsweredOnly(StickInputs(f, c, l), answers, cs, choices);
    CutLosesNothing(w, id, s, |Plan(s)|);
  }

  lemma StickUnchanged(f: Fleet, l: string)
    requires l in f.sticks
    ensures f.(sticks := f.sticks[l := f.sticks[l]]) == f
  {
  }
}
