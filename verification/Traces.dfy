/** The shortest runs in which an entry is lost, each from a sound world. */
module Traces {
  import opened Wrappers
  import opened Vaults
  import opened Merge
  import opened MergeLaws
  import opened History
  import opened Replicas
  import opened Runs
  import opened Cuts
  import opened Recovery

  function One(e: VarEntry): Projects {
    map["app" := Project(0, map["TOKEN" := e])]
  }

  function Two(e: VarEntry, f: VarEntry): Projects {
    map["app" := Project(0, map["TOKEN" := e, "URL" := f])]
  }

  lemma NoWayBack(log: Log, p: string, k: string, a: Option<VarEntry>, b: Option<VarEntry>)
    requires a != b && Unreplaced(log, p, k, a)
    ensures !Leads(log, p, k, a, b)
  {
    if Leads(log, p, k, a, b) { LeadsStarts(log, p, k, a, b); }
  }

  const A := Machine("A")
  const B := Machine("B")
  const STICK := Bundle("stick")

  // ---------- an edit made while the client's user is asked ----------

  /** Both machines hold the entry. */
  function Agreed(e: VarEntry): World {
    World(map[A := One(e), B := One(e)], map[], Edits(map[], One(e)), map[])
  }

  lemma AgreedIsSound(e: VarEntry)
    ensures Sound(Agreed(e))
  {
    EditsFollow(map[], One(e));
  }

  lemma SameIsQuiet(o: Projects, b: Projects)
    ensures Settles(o, o, b, NONE) && OnlyAnswers(o, o, b, NONE) && QuietReport(o, o, b, NONE)
    ensures MergedProjects(o, o, b, NONE) == o
  {
    MergedProjectsIs(o, o, b, NONE, o);
    OursMeansQuiet(o, o, b, NONE);
  }

  function InSync(e: VarEntry, done: nat): Session {
    Session("A", B, One(e), One(e), map[], NONE, true, One(e), done)
  }

  /** A has read both vaults; then B's user edits. */
  function Prompting(was: VarEntry, now: VarEntry, done: nat): World {
    World(map[A := One(was), B := One(now)], if done >= 1 then map[("A", B) := One(was)] else map[],
          Edits(map[], One(was)) + Edits(One(was), One(now)), map[0 := InSync(was, done)])
  }

  lemma ReadThenEdit(was: VarEntry, now: VarEntry)
    ensures
      var w, read, edit := Agreed(was), Read(0, "A", B, NONE, true), Edit("B", One(now));
      && Enabled(w, read) && Careful(w, read) && Enabled(Next(w, read), edit)
      && Next(Next(w, read), edit) == Prompting(was, now, 0)
  {
    SameIsQuiet(One(was), map[]);
    var w := Agreed(was);
    assert Reading(w, "A", B, NONE, true) == InSync(was, 0);
    assert w.at[B := One(now)] == map[A := One(was), B := One(now)];
  }

  lemma BaseWritten(was: VarEntry, now: VarEntry)
    ensures
      var w := Prompting(was, now, 0);
      && Enabled(w, Write(0)) && Careful(w, Write(0)) && Next(w, Write(0)) == Prompting(was, now, 1)
  {
    assert Plan(InSync(was, 0))[0] == OwnBase;
  }

  lemma NobodyApproves(e: VarEntry)
    ensures Approved(One(e), One(e), map[], One(e), One(e)) == {}
  {
    SameIsQuiet(One(e), map[]);
    NothingToApprove(One(e), One(e), map[], One(e), One(e));
  }

  lemma TokenOf(e: VarEntry)
    ensures Val(One(e), "app", "TOKEN") == Some(e)
  {
  }

  lemma PushErases(was: VarEntry, now: VarEntry)
    requires was != now
    ensures
      var w := Prompting(was, now, 1);
      && Enabled(w, Write(0)) && !Careful(w, Write(0))
      && var last := Next(w, Write(0));
      && B in last.at && last.at[B] == One(was) && last.log == w.log
  {
    var w, s := Prompting(was, now, 1), InSync(was, 1);
    NobodyApproves(was);
    TokenOf(was);
    TokenOf(now);
    assert w.open[0] == s && Plan(s)[1] == PeerVault;
    assert !Unspoiled(w.at[B], s.theirs, s.merged) by {
      assert Val(w.at[B], "app", "TOKEN") != Val(s.theirs, "app", "TOKEN");
    }
  }

  /**
   Two machines in sync; A starts a sync, B's user changes a variable while A's user is asked, and A's push of
   its unchanged vault takes the change back. The only careless step is that push.
   */
  lemma PushErasesAnEdit(was: VarEntry, now: VarEntry)
    requires was != now
    ensures
      var read, edit, write := Read(0, "A", B, NONE, true), Edit("B", One(now)), Write(0);
      var w0 := Agreed(was);
      && Sound(w0) && Enabled(w0, read) && Careful(w0, read)
      && var w1 := Next(w0, read);
      && Enabled(w1, edit) && Careful(w1, edit)
      && var w2 := Next(w1, edit);
      && Enabled(w2, write) && Careful(w2, write)
      && var w3 := Next(w2, write);
      && Enabled(w3, write) && !Careful(w3, write)
      && var w4 := Next(w3, write);
      && Val(w2.at[B], "app", "TOKEN") == Some(now) && Val(w4.at[B], "app", "TOKEN") == Some(was)
      && !Leads(w4.log, "app", "TOKEN", Some(now), Some(was))
  {
    AgreedIsSound(was);
    ReadThenEdit(was, now);
    BaseWritten(was, now);
    PushErases(was, now);
    TokenOf(was);
    TokenOf(now);
    NoWayBack(Prompting(was, now, 1).log, "app", "TOKEN", Some(now), Some(was));
  }

  // ---------- an edit the stick has not seen ----------

  /** A backed `was` up to the stick, holds `now`, and knows the stick by `seen`. */
  function Stale(was: VarEntry, now: VarEntry, seen: VarEntry): World {
    World(map[A := One(now), STICK := One(was)], map[("A", STICK) := One(seen)],
          Edits(map[], One(was)) + Edits(One(was), One(now)), map[])
  }

  function Start(e: VarEntry): World {
    World(map[A := One(e)], map[], Edits(map[], One(e)), map[])
  }

  lemma BackupThenEdit(was: VarEntry, now: VarEntry)
    ensures
      var w, backup, edit := Start(was), Backup("A", "stick", true), Edit("A", One(now));
      && Sound(w) && Enabled(w, backup) && Enabled(Next(w, backup), edit)
      && Next(Next(w, backup), edit) == Stale(was, now, was)
  {
    EditsFollow(map[], One(was));
    var w1 := Next(Start(was), Backup("A", "stick", true));
    assert w1.at[A := One(now)] == map[A := One(now), STICK := One(was)];
  }

  lemma EditThenQuiet(was: VarEntry, now: VarEntry)
    ensures Settles(One(now), One(was), One(was), NONE) && OnlyAnswers(One(now), One(was), One(was), NONE)
    ensures QuietReport(One(now), One(was), One(was), NONE)
  {
    var o, t := One(now), One(was);
    MergedProjectsIs(o, t, t, NONE, o);
    OursMeansQuiet(o, t, t, NONE);
  }

  /**
   One machine, one stick: back up, change a variable, sync ("already in sync"), sync again. The second sync
   silently restores the old entry, which no user action put in the place of the new one.
   */
  lemma UsbRevertsAnEdit(was: VarEntry, now: VarEntry)
    requires was != now
    ensures
      var w, backup, edit := Start(was), Backup("A", "stick", true), Edit("A", One(now));
      && Sound(w) && Enabled(w, backup) && Enabled(Next(w, backup), edit)
      && Next(Next(w, backup), edit) == Stale(was, now, was)
    ensures
      var w := Stale(was, now, was);
      var first := Reading(w, "A", STICK, NONE, true);
      && JustRead(w, first)
      && var w1 := Cut(w, first, 1);
      && A in w1.at && STICK in w1.at
      && var second := Reading(w1, "A", STICK, NONE, false);
      && JustRead(w1, second)
      && var last := Cut(w1, second, 3);
      && A in last.at
      && Val(w.at[A], "app", "TOKEN") == Some(now) && Val(last.at[A], "app", "TOKEN") == Some(was)
      && !Leads(w1.log, "app", "TOKEN", Some(now), Some(was))
      && last.log == w1.log == w.log
  {
    var w := Stale(was, now, was);
    var first := Reading(w, "A", STICK, NONE, true);
    BackupThenEdit(was, now);
    EditThenQuiet(was, now);
    assert BaseOf(w, "A", STICK) == One(was) && JustRead(w, first);
    BaseOnlyThenSync(w, first);
    TokenOf(was);
    TokenOf(now);
    SilentSync(w, first);
    NoWayBack(w.log, "app", "TOKEN", Some(now), Some(was));
  }

  /** Neither the base-only write nor the sync after it needs anybody's approval, so neither is logged. */
  lemma SilentSync(w: World, s: Session)
    requires JustRead(w, s) && s.quiet && s.answers == NONE && s.peer.Bundle?
    ensures Machine(s.machine) in Cut(w, s, 1).at && s.peer in Cut(w, s, 1).at
    ensures
      var w1 := Cut(w, s, 1);
      w1.log == w.log && Cut(w1, Reading(w1, s.machine, s.peer, NONE, false), 3).log == w.log
  {
    QuietCut(w, s, 1);
    QuietMeansOurs(s.ours, s.theirs, s.base, NONE);
    OwnBaseYields(s.ours, s.theirs);
    var w1 := Cut(w, s, 1);
    assert Cut(w, s, 0) == w && w1 == DoWrite(w, s, OwnBase);
    var n := Reading(w1, s.machine, s.peer, NONE, false);
    NothingToApprove(n.ours, n.theirs, n.base, n.ours, n.merged);
    NothingToApprove(n.ours, n.theirs, n.base, n.theirs, n.merged);
    UsbCutLog(w1, n);
  }

  lemma UsbCutLog(w: World, s: Session)
    requires !s.quiet && s.peer.Bundle?
    requires Approved(s.ours, s.theirs, s.base, s.ours, s.merged) == {}
    requires Approved(s.ours, s.theirs, s.base, s.theirs, s.merged) == {}
    ensures Cut(w, s, 1).log == Cut(w, s, 2).log == Cut(w, s, 3).log == w.log
  {
    assert Cut(w, s, 0) == w;
    assert Cut(w, s, 1) == DoWrite(w, s, OwnVault);
    assert Cut(w, s, 2) == DoWrite(Cut(w, s, 1), s, PeerVault);
    assert Cut(w, s, 3) == DoWrite(Cut(w, s, 2), s, OwnBase);
  }

  // ---------- a stick that could not be written ----------

  /** A changed TOKEN; the stick got URL from elsewhere; A's base for it has only the old TOKEN. */
  function Apart(was: VarEntry, now: VarEntry, url: VarEntry): World {
    World(map[A := One(now), STICK := Two(was, url)], map[("A", STICK) := One(was)],
          Edits(map[], One(was)) + Edits(One(was), One(now)) + Edits(One(was), Two(was, url)), map[])
  }

  lemma ApartIsSound(was: VarEntry, now: VarEntry, url: VarEntry)
    ensures Sound(Apart(was, now, url))
  {
    var w := Apart(was, now, url);
    EditsFollow(map[], One(was));
    EditsFollow(One(was), One(now));
    EditsFollow(One(was), Two(was, url));
    FollowsStill(Edits(map[], One(was)), w.log, map[], One(was));
    FollowsStill(Edits(One(was), One(now)), w.log, One(was), One(now));
    FollowsStill(Edits(One(was), Two(was, url)), w.log, One(was), Two(was, url));
    FollowsOn(w.log, map[], One(was), One(now));
    FollowsOn(w.log, map[], One(was), Two(was, url));
  }

  /** The sync has something to report: the stick's URL comes over, and our TOKEN stays. */
  lemma ApartMerges(was: VarEntry, now: VarEntry, url: VarEntry)
    requires was != now
    ensures
      var o, t, b, m := One(now), Two(was, url), One(was), Two(now, url);
      && Settles(o, t, b, NONE) && OnlyAnswers(o, t, b, NONE) && MergedProjects(o, t, b, NONE) == m
      && Settles(m, t, b, NONE) && OnlyAnswers(m, t, b, NONE) && QuietReport(m, t, b, NONE)
      && MergedProjects(m, t, b, NONE) == m
  {
    var o, t, b, m := One(now), Two(was, url), One(was), Two(now, url);
    forall p, k ensures p in o && p in t ==> Verdicts(o, t, b, NONE, p, k) == Take(Val(m, p, k)) {
    }
    MergedProjectsIs(o, t, b, NONE, m);
    MergeAgain(o, t, b, b);
    OursMeansQuiet(m, t, b, NONE);
  }

  /** What the cut-off sync leaves: our vault merged, the stick and the base as they were. */
  function HalfDone(was: VarEntry, now: VarEntry, url: VarEntry): World {
    Apart(was, now, url).(at := map[A := Two(now, url), STICK := Two(was, url)])
  }

  lemma StickFails(was: VarEntry, now: VarEntry, url: VarEntry)
    requires was != now
    ensures
      var w := Apart(was, now, url);
      var s := Reading(w, "A", STICK, NONE, false);
      JustRead(w, s) && s.base == One(was) && Cut(w, s, 1) == HalfDone(was, now, url)
  {
    var w := Apart(was, now, url);
    var s := Reading(w, "A", STICK, NONE, false);
    ApartMerges(was, now, url);
    assert BaseOf(w, "A", STICK) == One(was);
    NothingToApprove(s.ours, s.theirs, s.base, s.ours, s.merged);
    assert Cut(w, s, 0) == w && Cut(w, s, 1) == DoWrite(w, s, OwnVault);
    assert w.at[A := Two(now, url)] == map[A := Two(now, url), STICK := Two(was, url)];
  }

  lemma TokenOfTwo(e: VarEntry, f: VarEntry)
    ensures Val(Two(e, f), "app", "TOKEN") == Some(e)
  {
  }

  lemma NewTokenStays(was: VarEntry, now: VarEntry, url: VarEntry)
    requires was != now
    ensures !Leads(Apart(was, now, url).log, "app", "TOKEN", Some(now), Some(was))
  {
    TokenOf(was);
    TokenOf(now);
    TokenOfTwo(was, url);
    var log := Apart(was, now, url).log;
    assert forall x :: Action("app", "TOKEN", Some(now), x) !in Edits(map[], One(was));
    assert forall x :: Action("app", "TOKEN", Some(now), x) !in Edits(One(was), One(now));
    assert forall x :: Action("app", "TOKEN", Some(now), x) !in Edits(One(was), Two(was, url));
    NoWayBack(log, "app", "TOKEN", Some(now), Some(was));
  }

  lemma ApartReports(was: VarEntry, now: VarEntry, url: VarEntry)
    requires was != now
    ensures !QuietReport(One(now), Two(was, url), One(was), NONE)
  {
    ApartMerges(was, now, url);
    QuietIffOurs(One(now), Two(was, url), One(was), NONE);
    assert Val(Two(now, url), "app", "URL") != Val(One(now), "app", "URL");
  }

  /** The retry has nothing to report and writes the base only; the sync after it takes the old TOKEN. */
  lemma RetryThenSync(was: VarEntry, now: VarEntry, url: VarEntry)
    requires was != now
    ensures
      var w1 := HalfDone(was, now, url);
      var retry := Reading(w1, "A", STICK, NONE, true);
      && JustRead(w1, retry)
      && var w2 := Cut(w1, retry, 1);
      && A in w2.at && STICK in w2.at && w2.at[A] == Two(now, url)
      && var third := Reading(w2, "A", STICK, NONE, false);
      && JustRead(w2, third)
      && var w3 := Cut(w2, third, 3);
      && A in w3.at && Val(w3.at[A], "app", "TOKEN") == Some(was) && w3.log == w1.log
  {
    var w1 := HalfDone(was, now, url);
    var retry := Reading(w1, "A", STICK, NONE, true);
    ApartMerges(was, now, url);
    assert BaseOf(w1, "A", STICK) == One(was) && JustRead(w1, retry);
    BaseOnlyThenSync(w1, retry);
    SilentSync(w1, retry);
    QuietCut(w1, retry, 1);
    assert Val(Two(was, url), "app", "TOKEN") == Some(was);
  }

  /**
   A sync that has something to report writes the local vault and then fails on the stick. The retry has
   nothing to report and writes the base only; the sync after it silently restores the old TOKEN.
   */
  lemma UsbRetryReverts(was: VarEntry, now: VarEntry, url: VarEntry)
    requires was != now
    ensures
      var w0 := Apart(was, now, url);
      var first := Reading(w0, "A", STICK, NONE, false);
      && Sound(w0) && JustRead(w0, first) && !QuietReport(first.ours, first.theirs, first.base, NONE)
      && Cut(w0, first, 1) == HalfDone(was, now, url)
      && var w1 := HalfDone(was, now, url);
      && var retry := Reading(w1, "A", STICK, NONE, true);
      && JustRead(w1, retry)
      && var w2 := Cut(w1, retry, 1);
      && A in w2.at && STICK in w2.at
      && var third := Reading(w2, "A", STICK, NONE, false);
      && JustRead(w2, third)
      && var w3 := Cut(w2, third, 3);
      && A in w3.at
      && Val(w2.at[A], "app", "TOKEN") == Some(now) && Val(w3.at[A], "app", "TOKEN") == Some(was)
      && !Leads(w3.log, "app", "TOKEN", Some(now), Some(was))
  {
    ApartIsSound(was, now, url);
    ApartReports(was, now, url);
    StickFails(was, now, url);
    RetryThenSync(was, now, url);
    TokenOfTwo(now, url);
    NewTokenStays(was, now, url);
  }
}
