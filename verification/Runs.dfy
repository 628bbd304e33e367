/** What every run of `Replicas` keeps, as long as its steps are careful, and what is lost when one is not. */
module Runs {
  import opened Wrappers
  import opened Vaults
  import opened Merge
  import opened MergeLaws
  import opened History
  import opened Replicas

  // ---------- one step ----------

  /** The vault a write overwrites. */
  function Target(s: Session, x: Write): Replica {
    if x == OwnVault then Machine(s.machine) else s.peer
  }

  function ReadOf(s: Session, x: Write): Projects {
    if x == OwnVault then s.ours else s.theirs
  }

  lemma VaultWriteFollows(w: World, s: Session, x: Write)
    requires SessionOk(w, s) && (x == OwnVault || x == PeerVault)
    requires Unspoiled(w.at[Target(s, x)], ReadOf(s, x), s.merged)
    ensures Follows(DoWrite(w, s, x).log, w.at[Target(s, x)], s.merged)
  {
    MergeFollows(w.log, s.ours, s.theirs, s.base, s.answers, ReadOf(s, x));
    OverwriteFollows(w.log, DoWrite(w, s, x).log, w.at[Target(s, x)], ReadOf(s, x), s.merged);
  }

  lemma EditFollows(w: World, m: string, after: Projects, x: Replica)
    requires Machine(m) in w.at && x in w.at
    ensures Follows(Next(w, Edit(m, after)).log, w.at[x], Next(w, Edit(m, after)).at[x])
  {
    var log' := Next(w, Edit(m, after)).log;
    if x == Machine(m) {
      EditsFollow(w.at[x], after);
      FollowsStill(Edits(w.at[x], after), log', w.at[x], after);
    } else {
      FollowsItself(log', w.at[x]);
    }
  }

  /** Which copy a write changes. */
  lemma WritePlaces(w: World, s: Session, x: Write, r: Replica)
    requires r in w.at
    ensures
      var w1 := DoWrite(w, s, x);
      && r in w1.at
      && w1.at[r] == (if (x == OwnVault || x == PeerVault) && r == Target(s, x) then s.merged else w.at[r])
  {
  }

  lemma WriteFollows(w: World, id: nat, x: Replica)
    requires Sound(w) && Enabled(w, Write(id)) && Careful(w, Write(id)) && x in w.at
    ensures x in Next(w, Write(id)).at
    ensures Follows(Next(w, Write(id)).log, w.at[x], Next(w, Write(id)).at[x])
  {
    var y := w.open[id];
    var next := Plan(y)[y.done];
    var w1 := DoWrite(w, y, next);
    assert SessionOk(w, y);
    WritePlaces(w, y, next, x);
    if w1.at[x] == w.at[x] {
      FollowsItself(w1.log, w.at[x]);
    } else {
      VaultWriteFollows(w, y, next);
    }
    assert Next(w, Write(id)).at == w1.at && Next(w, Write(id)).log == w1.log;
  }

  /**
   No lost update, one step: whatever a step puts in place of an entry, on whichever copy, came out of that
   entry by user actions: edits, answered conflicts, approved project deletions.
   */
  lemma StepFollows(w: World, s: Step, x: Replica)
    requires Sound(w) && Enabled(w, s) && Careful(w, s) && x in w.at
    ensures x in Next(w, s).at && w.log <= Next(w, s).log
    ensures Follows(Next(w, s).log, w.at[x], Next(w, s).at[x])
  {
    match s
    case Edit(m, after) => EditFollows(w, m, after, x);
    case Write(id) => WriteFollows(w, id, x);
    case Backup(_, _, _) => FollowsItself(w.log, w.at[x]);
    case Read(_, _, _, _, _) => FollowsItself(w.log, w.at[x]);
    case StoreCurrent(_) => FollowsItself(w.log, w.at[x]);
    case Drop(_) => FollowsItself(w.log, w.at[x]);
  }

  /** Every copy only follows, and the log only grows. */
  ghost predicate Onward(w: World, w': World) {
    && w.log <= w'.log
    && forall x :: x in w.at ==> x in w'.at && Follows(w'.log, w.at[x], w'.at[x])
  }

  lemma StepOnward(w: World, s: Step)
    requires Sound(w) && Enabled(w, s) && Careful(w, s)
    ensures Onward(w, Next(w, s))
  {
    forall x | x in w.at ensures x in Next(w, s).at && Follows(Next(w, s).log, w.at[x], Next(w, s).at[x]) {
      StepFollows(w, s, x);
    }
    if w.at.Keys != {} {
      var x :| x in w.at;
      StepFollows(w, s, x);
    }
  }

  lemma FollowsOnward(w: World, w': World, b: Projects, x: Replica)
    requires Onward(w, w') && x in w.at && Follows(w.log, b, w.at[x])
    ensures x in w'.at && Follows(w'.log, b, w'.at[x])
  {
    FollowsStill(w.log, w'.log, b, w.at[x]);
    FollowsOn(w'.log, b, w.at[x], w'.at[x]);
  }

  lemma SessionOnward(w: World, w': World, s: Session)
    requires Onward(w, w') && SessionOk(w, s)
    ensures SessionOk(w', s)
  {
    var c := Machine(s.machine);
    FollowsStill(w.log, w'.log, s.base, s.ours);
    FollowsStill(w.log, w'.log, s.base, s.theirs);
    FollowsOnward(w, w', s.ours, c);
    FollowsOnward(w, w', s.theirs, s.peer);
    if Follows(w.log, s.merged, w.at[c]) { FollowsOnward(w, w', s.merged, c); }
    if Follows(w.log, s.merged, w.at[s.peer]) { FollowsOnward(w, w', s.merged, s.peer); }
  }

  lemma AncestorOnward(w: World, w': World, c: string, r: Replica, b: Projects)
    requires Onward(w, w') && IsAncestor(w, c, r, b)
    ensures IsAncestor(w', c, r, b)
  {
    FollowsOnward(w, w', b, Machine(c));
    FollowsOnward(w, w', b, r);
  }

  lemma OriginsOnward(w: World, s: Step, x: Replica)
    requires Sound(w) && Enabled(w, s) && Careful(w, s) && x in Next(w, s).at
    ensures Follows(Next(w, s).log, map[], Next(w, s).at[x])
  {
    StepOnward(w, s);
    if x in w.at {
      FollowsOnward(w, Next(w, s), map[], x);
    } else {
      FollowsOnward(w, Next(w, s), map[], Machine(s.machine));
    }
  }

  // ---------- the session that writes ----------

  lemma WroteOk(w: World, s: Session)
    requires SessionOk(w, s) && s.done < |Plan(s)|
    requires Onward(w, DoWrite(w, s, Plan(s)[s.done]))
    ensures SessionOk(DoWrite(w, s, Plan(s)[s.done]), s.(done := s.done + 1))
  {
    var x := Plan(s)[s.done];
    var w', s' := DoWrite(w, s, x), s.(done := s.done + 1);
    SessionOnward(w, w', s);
    assert Plan(s') == Plan(s);
    assert forall y :: IsDone(s', y) <==> IsDone(s, y) || y == x;
    FollowsItself(w'.log, s.merged);
  }

  /** What a write of a base may rely on. */
  lemma PlanOrder(s: Session)
    requires s.done < |Plan(s)|
    ensures Plan(s)[s.done] == PeerBase ==> s.peer.Machine? && IsDone(s, PeerVault) && (s.quiet || IsDone(s, OwnVault))
    ensures Plan(s)[s.done] == OwnBase && !s.quiet ==> IsDone(s, PeerVault) && IsDone(s, OwnVault)
    ensures Plan(s)[s.done] == OwnBase && s.quiet ==> s.done == 0
    ensures InDebt(s) ==> Plan(s)[s.done] == PeerVault
  {
    var n := s.done;
    assert n == 0 || n == 1 || n == 2 || n == 3;
    assert n >= 1 ==> IsDone(s, Plan(s)[0]);
    assert n >= 2 ==> IsDone(s, Plan(s)[1]);
  }

  lemma NewBaseOk(w: World, s: Session)
    requires SessionOk(w, s) && s.done < |Plan(s)| && !s.quiet
    requires Plan(s)[s.done] == OwnBase || Plan(s)[s.done] == PeerBase
    ensures IsAncestor(w, s.machine, s.peer, s.merged)
  {
    PlanOrder(s);
  }

  lemma QuietBaseOk(w: World, s: Session)
    requires SessionOk(w, s) && s.done < |Plan(s)| && s.quiet && Plan(s)[s.done] == PeerBase
    ensures IsAncestor(w, s.machine, s.peer, s.merged)
  {
    PlanOrder(s);
  }

  // ---------- every session stays explained ----------

  lemma ReadOk(w: World, id: nat, c: string, r: Replica, answers: Resolutions, quiet: bool)
    requires var s := Read(id, c, r, answers, quiet); Sound(w) && Enabled(w, s) && Careful(w, s)
    ensures SessionOk(w, Reading(w, c, r, answers, quiet))
  {
    var s := Reading(w, c, r, answers, quiet);
    FollowsItself(w.log, s.ours);
    FollowsItself(w.log, s.theirs);
    if quiet { QuietMeansOurs(s.ours, s.theirs, s.base, answers); }
    if (c, r) in w.base {
      assert IsAncestor(w, c, r, w.base[(c, r)]) || Owed(w, c, r, w.base[(c, r)]);
    }
  }

  /** A session looks at the copies and the log only. */
  lemma SessionSame(w: World, w': World, s: Session)
    requires SessionOk(w, s) && w'.at == w.at && w'.log == w.log
    ensures SessionOk(w', s)
  {
  }

  lemma OnwardSame(w: World, a: World, b: World)
    requires Onward(w, a) && a.at == b.at && a.log == b.log
    ensures Onward(w, b)
  {
  }

  lemma WriterOnward(w: World, id: nat)
    requires Sound(w) && Enabled(w, Write(id)) && Careful(w, Write(id))
    ensures Onward(w, DoWrite(w, w.open[id], Plan(w.open[id])[w.open[id].done]))
  {
    StepOnward(w, Write(id));
    OnwardSame(w, Next(w, Write(id)), DoWrite(w, w.open[id], Plan(w.open[id])[w.open[id].done]));
  }

  lemma WriterStaysOk(w: World, id: nat)
    requires Sound(w) && Enabled(w, Write(id)) && Careful(w, Write(id))
    ensures SessionOk(Next(w, Write(id)), Next(w, Write(id)).open[id])
  {
    var x := w.open[id];
    WriterOnward(w, id);
    WroteOk(w, x);
    SessionSame(DoWrite(w, x, Plan(x)[x.done]), Next(w, Write(id)), x.(done := x.done + 1));
  }

  lemma BaseStoredOk(w: World, s: Session)
    requires SessionOk(w, s) && s.quiet && s.peer.Bundle? && s.done == 0
    ensures SessionOk(w, s.(done := 1))
  {
    var t := s.(done := 1);
    assert Plan(t) == Plan(s) == [OwnBase];
    assert !IsDone(t, PeerVault);
  }

  lemma StorerStaysOk(w: World, id: nat)
    requires Sound(w) && Enabled(w, StoreCurrent(id))
    ensures SessionOk(Next(w, StoreCurrent(id)), Next(w, StoreCurrent(id)).open[id])
  {
    BaseStoredOk(w, w.open[id]);
    SessionSame(w, Next(w, StoreCurrent(id)), w.open[id].(done := 1));
  }

  lemma SessionsStayOk(w: World, s: Step, id: nat)
    requires Sound(w) && Enabled(w, s) && Careful(w, s) && id in Next(w, s).open
    ensures SessionOk(Next(w, s), Next(w, s).open[id])
  {
    var w' := Next(w, s);
    if s == Write(id) {
      WriterStaysOk(w, id);
    } else if s == StoreCurrent(id) {
      StorerStaysOk(w, id);
    } else {
      StepOnward(w, s);
      if s.Read? && id == s.id { ReadOk(w, s.id, s.machine, s.peer, s.answers, s.quiet); }
      SessionOnward(w, w', w'.open[id]);
    }
  }

  // ---------- every base stays explained ----------

  /** Somebody still owes the peer its copy after the step. */
  lemma OwedStays(w: World, s: Step, c: string, r: Replica, id: nat)
    requires Sound(w) && Enabled(w, s) && Careful(w, s)
    requires (c, r) in w.base && (c, r) in Next(w, s).base && Next(w, s).base[(c, r)] == w.base[(c, r)]
    requires id in w.open && w.open[id].machine == c && w.open[id].peer == r && InDebt(w.open[id])
    requires r.Machine? ==> w.open[id].merged == w.base[(c, r)]
    requires Machine(c) in w.at && r in w.at
    requires Follows(w.log, w.base[(c, r)], w.at[Machine(c)])
    ensures var w' := Next(w, s); IsAncestor(w', c, r, w.base[(c, r)]) || Owed(w', c, r, w.base[(c, r)])
  {
    var w', x, b := Next(w, s), w.open[id], w.base[(c, r)];
    StepOnward(w, s);
    FollowsOnward(w, w', b, Machine(c));
    if s == Write(id) {
      PlanOrder(x);
      FollowsItself(w'.log, b);
    } else if s == Drop(id) {
      SameVarsFollow(w.log, b, w.at[r]);
    } else {
      assert id in w'.open && w'.open[id] == x;
    }
  }

  lemma SameVarsFollow(log: Log, a: Projects, b: Projects)
    requires SameVars(a, b)
    ensures Follows(log, a, b)
  {
    forall p, k ensures Leads(log, p, k, Val(a, p, k), Val(b, p, k)) {
      assert Val(a, p, k) == Val(b, p, k);
      LeadsNowhere(log, p, k, Val(a, p, k));
    }
  }

  lemma OldBaseStays(w: World, s: Step, c: string, r: Replica)
    requires Sound(w) && Enabled(w, s) && Careful(w, s)
    requires (c, r) in w.base && (c, r) in Next(w, s).base && Next(w, s).base[(c, r)] == w.base[(c, r)]
    ensures
      var w' := Next(w, s);
      IsAncestor(w', c, r, w'.base[(c, r)]) || Owed(w', c, r, w'.base[(c, r)])
  {
    StepOnward(w, s);
    if IsAncestor(w, c, r, w.base[(c, r)]) {
      AncestorOnward(w, Next(w, s), c, r, w.base[(c, r)]);
    } else {
      var id :| id in w.open && w.open[id].machine == c && w.open[id].peer == r && InDebt(w.open[id])
                && (r.Machine? ==> w.open[id].merged == w.base[(c, r)]);
      OwedStays(w, s, c, r, id);
    }
  }

  /** Which base a step writes, and with what. */
  lemma NewBaseIs(w: World, s: Step, c: string, r: Replica)
    requires Enabled(w, s) && (c, r) in Next(w, s).base
    requires !((c, r) in w.base && Next(w, s).base[(c, r)] == w.base[(c, r)])
    ensures s.Write? || s.StoreCurrent? || (s.Backup? && s.based && c == s.machine && r == Bundle(s.lineageId))
    ensures s.StoreCurrent? ==> c == w.open[s.id].machine && r == w.open[s.id].peer
                                && Next(w, s).base[(c, r)] == w.at[Machine(c)]
    ensures s.Write? ==>
              var x := w.open[s.id];
              && Next(w, s).base[(c, r)] == x.merged
              && (|| (Plan(x)[x.done] == OwnBase && c == x.machine && r == x.peer)
                  || (Plan(x)[x.done] == PeerBase && x.peer == Machine(c) && r == Machine(x.machine)))
  {
  }

  lemma NewBaseStays(w: World, s: Step, c: string, r: Replica)
    requires Sound(w) && Enabled(w, s) && Careful(w, s) && (c, r) in Next(w, s).base
    requires !((c, r) in w.base && Next(w, s).base[(c, r)] == w.base[(c, r)])
    ensures
      var w' := Next(w, s);
      IsAncestor(w', c, r, w'.base[(c, r)]) || Owed(w', c, r, w'.base[(c, r)])
  {
    var w' := Next(w, s);
    NewBaseIs(w, s, c, r);
    if s.Backup? {
      FollowsItself(w.log, w.at[Machine(c)]);
    } else if s.StoreCurrent? {
      FollowsItself(w.log, w.at[Machine(c)]);
      assert SessionOk(w, w.open[s.id]) && w'.open[s.id] == w.open[s.id].(done := 1);
    } else {
      var x := w.open[s.id];
      assert SessionOk(w, x);
      PlanOrder(x);
      StepOnward(w, s);
      if x.quiet && Plan(x)[x.done] == OwnBase {
        FollowsOnward(w, w', x.merged, Machine(c));
        assert w'.open[s.id] == x.(done := 1);
      } else if x.quiet {
        QuietBaseOk(w, x);
        AncestorOnward(w, w', x.machine, x.peer, x.merged);
      } else {
        NewBaseOk(w, x);
        AncestorOnward(w, w', x.machine, x.peer, x.merged);
      }
    }
  }

  /** A careful step keeps a sound world sound. */
  lemma StepKeepsSound(w: World, s: Step)
    requires Sound(w) && Enabled(w, s) && Careful(w, s)
    ensures Sound(Next(w, s)) && Onward(w, Next(w, s))
  {
    var w' := Next(w, s);
    StepOnward(w, s);
    forall x | x in w'.at ensures Follows(w'.log, map[], w'.at[x]) {
      OriginsOnward(w, s, x);
    }
    forall c, r | (c, r) in w'.base
      ensures IsAncestor(w', c, r, w'.base[(c, r)]) || Owed(w', c, r, w'.base[(c, r)])
    {
      if (c, r) in w.base && w'.base[(c, r)] == w.base[(c, r)] {
        OldBaseStays(w, s, c, r);
      } else {
        NewBaseStays(w, s, c, r);
      }
    }
    forall id | id in w'.open ensures SessionOk(w', w'.open[id]) {
      SessionsStayOk(w, s, id);
    }
  }

  // ---------- runs ----------

  ghost predicate Legal(w: World, steps: seq<Step>)
    decreases |steps|
  {
    steps != [] ==> Enabled(w, steps[0]) && Legal(Next(w, steps[0]), steps[1..])
  }

  ghost predicate CarefulRun(w: World, steps: seq<Step>)
    requires Legal(w, steps)
    decreases |steps|
  {
    steps != [] ==> Careful(w, steps[0]) && CarefulRun(Next(w, steps[0]), steps[1..])
  }

  ghost function Run(w: World, steps: seq<Step>): World
    requires Legal(w, steps)
    decreases |steps|
  {
    if steps == [] then w else Run(Next(w, steps[0]), steps[1..])
  }

  lemma OnwardOn(a: World, b: World, c: World)
    requires Onward(a, b) && Onward(b, c)
    ensures Onward(a, c)
  {
    forall x | x in a.at ensures x in c.at && Follows(c.log, a.at[x], c.at[x]) {
      FollowsStill(b.log, c.log, a.at[x], b.at[x]);
      FollowsOn(c.log, a.at[x], b.at[x], c.at[x]);
    }
  }

  /**
   No lost update, every run: edits, backups and the single reads and writes of any number of syncs in any
   order, abandoned anywhere, as long as each vault is overwritten unspoiled and no debt is left or built on.
   */
  lemma {:induction false} NoLostUpdate(w: World, steps: seq<Step>)
    requires Sound(w) && Legal(w, steps) && CarefulRun(w, steps)
    ensures Sound(Run(w, steps)) && Onward(w, Run(w, steps))
    decreases |steps|
  {
    if steps == [] {
      forall x | x in w.at ensures Follows(w.log, w.at[x], w.at[x]) { FollowsItself(w.log, w.at[x]); }
    } else {
      var w1 := Next(w, steps[0]);
      StepKeepsSound(w, steps[0]);
      NoLostUpdate(w1, steps[1..]);
      OnwardOn(w, w1, Run(w1, steps[1..]));
    }
  }

  /** Machines that have nothing yet and know of nobody. */
  lemma EmptyIsSound(w: World)
    requires w.base == map[] && w.open == map[] && forall r :: r in w.at ==> w.at[r] == map[]
    ensures Sound(w)
  {
    forall r | r in w.at ensures Follows(w.log, map[], w.at[r]) { FollowsItself(w.log, map[]); }
  }

  /** So every careful run of machines that began with nothing is sound at its end. */
  lemma RunsFromNothing(w: World, steps: seq<Step>)
    requires w.base == map[] && w.open == map[] && forall r :: r in w.at ==> w.at[r] == map[]
    requires Legal(w, steps) && CarefulRun(w, steps)
    ensures Sound(Run(w, steps))
  {
    EmptyIsSound(w);
    NoLostUpdate(w, steps);
  }

  // ---------- no rollback ----------

  ghost predicate Newer(a: Action) {
    a.before.Some? && a.after.Some? ==> a.before.value.updatedAt < a.after.value.updatedAt
  }

  /** In every variable where both have an entry and they differ, the second is the later one. */
  ghost predicate Later(before: Projects, after: Projects, p: string, k: string) {
    var a, b := Val(before, p, k), Val(after, p, k);
    a != b && a.Some? && b.Some? ==> a.value.updatedAt < b.value.updatedAt
  }

  /** Edits stamp later than what they replace; of an answered conflict, what is overwritten is the older side. */
  ghost predicate Forward(w: World, s: Step)
    requires Enabled(w, s)
  {
    match s
    case Edit(m, after) => forall p, k :: Later(w.at[Machine(m)], after, p, k)
    case Write(id) =>
      var x := w.open[id];
      var next := Plan(x)[x.done];
      next == OwnVault || next == PeerVault ==>
        forall p, k :: Clashing(x.ours, x.theirs, x.base, p, k) ==> Later(ReadOf(x, next), x.merged, p, k)
    case _ => true
  }

  /** A deleted project leaves nothing behind, so only answered conflicts need a stamp. */
  lemma ApprovedStamps(x: Session, side: Projects, a: Action)
    requires x.merged == MergedProjects(x.ours, x.theirs, x.base, x.answers)
    requires a in Approved(x.ours, x.theirs, x.base, side, x.merged)
    requires forall p, k :: Clashing(x.ours, x.theirs, x.base, p, k) ==> Later(side, x.merged, p, k)
    ensures Newer(a)
  {
    MergedVal(x.ours, x.theirs, x.base, x.answers, a.project, a.key);
    if Clashing(x.ours, x.theirs, x.base, a.project, a.key) {
      assert Later(side, x.merged, a.project, a.key);
    }
  }

  lemma ForwardStamps(w: World, s: Step)
    requires Sound(w) && Enabled(w, s) && Forward(w, s) && StampsGrow(w.log)
    ensures StampsGrow(Next(w, s).log)
  {
    forall a | a in Next(w, s).log && a !in w.log ensures Newer(a) {
      if s.Edit? {
        assert Later(w.at[Machine(s.machine)], s.after, a.project, a.key);
      } else if s.Write? {
        var x := w.open[s.id];
        assert SessionOk(w, x);
        ApprovedStamps(x, ReadOf(x, Plan(x)[x.done]), a);
      }
    }
  }

  ghost predicate ForwardRun(w: World, steps: seq<Step>)
    requires Legal(w, steps)
    decreases |steps|
  {
    steps != [] ==> Forward(w, steps[0]) && ForwardRun(Next(w, steps[0]), steps[1..])
  }

  lemma {:induction false} StampsStayGrowing(w: World, steps: seq<Step>)
    requires Sound(w) && Legal(w, steps) && CarefulRun(w, steps)
    requires StampsGrow(w.log) && ForwardRun(w, steps)
    ensures StampsGrow(Run(w, steps).log)
    decreases |steps|
  {
    if steps != [] {
      StepKeepsSound(w, steps[0]);
      ForwardStamps(w, steps[0]);
      StampsStayGrowing(Next(w, steps[0]), steps[1..]);
    }
  }

  /** Over a whole run an entry gives way only to a later one, or somebody deleted the variable on the way. */
  lemma NoRollbackInRun(w: World, steps: seq<Step>, x: Replica, p: string, k: string, a: VarEntry, b: VarEntry)
    requires Sound(w) && Legal(w, steps) && CarefulRun(w, steps)
    requires StampsGrow(w.log) && ForwardRun(w, steps) && x in w.at
    requires x in Run(w, steps).at
    requires Val(w.at[x], p, k) == Some(a) && Val(Run(w, steps).at[x], p, k) == Some(b) && a != b
    ensures a.updatedAt < b.updatedAt
            || exists path :: ChainBetween(Run(w, steps).log, p, k, path, Some(a), Some(b)) && !NoGap(path)
  {
    NoLostUpdate(w, steps);
    StampsStayGrowing(w, steps);
    var log := Run(w, steps).log;
    assert Leads(log, p, k, Some(a), Some(b));
    NoRollback(log, p, k, a, b);
  }

  // ---------- exactly when an overwrite loses ----------

  /**
   The next write of a session replaces a vault. If whatever differs there from what was read is still
   unreplaced, as everything typed in meanwhile is, nothing is lost exactly when the vault is unspoiled.
   */
  lemma OverwriteIff(w: World, id: nat)
    requires Sound(w) && Enabled(w, Write(id))
    requires Plan(w.open[id])[w.open[id].done] == OwnVault || Plan(w.open[id])[w.open[id].done] == PeerVault
    requires
      var s := w.open[id];
      var x := Plan(s)[s.done];
      && Target(s, x) in w.at
      && forall p, k :: Val(w.at[Target(s, x)], p, k) != Val(ReadOf(s, x), p, k)
                        ==> Unreplaced(w.log, p, k, Val(w.at[Target(s, x)], p, k))
    ensures
      var s := w.open[id];
      var x := Plan(s)[s.done];
      Follows(Next(w, Write(id)).log, w.at[Target(s, x)], s.merged)
      <==> Unspoiled(w.at[Target(s, x)], ReadOf(s, x), s.merged)
  {
    var s := w.open[id];
    var x := Plan(s)[s.done];
    var copy, read, log' := w.at[Target(s, x)], ReadOf(s, x), Next(w, Write(id)).log;
    assert SessionOk(w, s);
    if Unspoiled(copy, read, s.merged) {
      VaultWriteFollows(w, s, x);
    } else {
      var p, k :| Val(copy, p, k) != Val(read, p, k) && Val(copy, p, k) != Val(s.merged, p, k);
      assert Unreplaced(log', p, k, Val(copy, p, k));
      if Leads(log', p, k, Val(copy, p, k), Val(s.merged, p, k)) {
        LeadsStarts(log', p, k, Val(copy, p, k), Val(s.merged, p, k));
      }
    }
  }

  /** Where the merge would leave the copy as it was read, an entry survives only if it is still what was read. */
  lemma LeftAloneIff(w: World, id: nat, p: string, k: string)
    requires Sound(w) && Enabled(w, Write(id))
    requires Plan(w.open[id])[w.open[id].done] == OwnVault || Plan(w.open[id])[w.open[id].done] == PeerVault
    requires
      var s := w.open[id];
      var x := Plan(s)[s.done];
      && Target(s, x) in w.at && Val(s.merged, p, k) == Val(ReadOf(s, x), p, k)
      && AcyclicAt(Next(w, Write(id)).log, p, k)
    ensures
      var s := w.open[id];
      var x := Plan(s)[s.done];
      Leads(Next(w, Write(id)).log, p, k, Val(w.at[Target(s, x)], p, k), Val(s.merged, p, k))
      <==> Val(w.at[Target(s, x)], p, k) == Val(ReadOf(s, x), p, k)
  {
    var s := w.open[id];
    var x := Plan(s)[s.done];
    var copy, read, log' := w.at[Target(s, x)], ReadOf(s, x), Next(w, Write(id)).log;
    assert SessionOk(w, s);
    LeadsStill(w.log, log', p, k, Val(read, p, k), Val(copy, p, k));
    LeadsNowhere(log', p, k, Val(read, p, k));
  }
}
