/** What the merge promises, for all vaults: the laws the sync protocols rest on. */
module MergeLaws {
  import opened Wrappers
  import opened Vaults
  import opened Merge

  const NONE: Resolutions := map[]

  /** The verdict on one variable of a project both sides have. */
  function Verdicts(o: Projects, t: Projects, b: Projects, resolutions: Resolutions, p: string, k: string): Verdict {
    Decide(Val(o, p, k), Val(t, p, k), Val(b, p, k), Manual(resolutions, p, k))
  }

  /** No variable of a shared project is in conflict. */
  ghost predicate Settles(o: Projects, t: Projects, b: Projects, resolutions: Resolutions) {
    forall p, k :: p in o && p in t ==> Verdicts(o, t, b, resolutions, p, k).Take?
  }

  lemma SettlesIffNoConflict(o: Projects, t: Projects, b: Projects, resolutions: Resolutions)
    ensures Settles(o, t, b, resolutions) <==> forall c :: !IsProjectConflict(o, t, b, resolutions, c)
  {
    if c :| IsProjectConflict(o, t, b, resolutions, c) {
      assert Verdicts(o, t, b, resolutions, c.scope, c.key).Clash?;
    }
    if p, k :| p in o && p in t && Verdicts(o, t, b, resolutions, p, k).Clash? {
      assert IsProjectConflict(o, t, b, resolutions, Conflict(p, k, Val(o, p, k), Val(t, p, k)));
    }
  }

  /** Where each variable of the merged projects comes from. */
  lemma MergedVal(o: Projects, t: Projects, b: Projects, resolutions: Resolutions, p: string, k: string)
    ensures Val(MergedProjects(o, t, b, resolutions), p, k) ==
            if p in o && p in t then
              (var v := Verdicts(o, t, b, resolutions, p, k); if v.Take? then v.entry else None)
            else if p in b then None
            else if p in o then Val(o, p, k)
            else Val(t, p, k)
  {
  }

  /** A project is absent from the result iff both sides lack it or its deletion is listed. */
  lemma Presence(o: Projects, t: Projects, b: Projects, resolutions: Resolutions, p: string)
    ensures p !in MergedProjects(o, t, b, resolutions)
            <==> (p !in o && p !in t) || exists side :: IsDeletion(o, t, b, ProjectDeletion(p, side))
  {
    if p in b {
      if p in o && p !in t { assert IsDeletion(o, t, b, ProjectDeletion(p, Peer)); }
      if p !in o && p in t { assert IsDeletion(o, t, b, ProjectDeletion(p, Here)); }
    }
  }

  /** Whoever merges, the variables come out the same, with conflicts and deletions mirrored. */
  lemma Mirror(o: Projects, t: Projects, b: Projects, resolutions: Resolutions)
    ensures SameVars(MergedProjects(o, t, b, resolutions), MergedProjects(t, o, b, resolutions))
    ensures forall c :: IsProjectConflict(o, t, b, resolutions, c)
              <==> IsProjectConflict(t, o, b, resolutions, Conflict(c.scope, c.key, c.theirs, c.ours))
    ensures forall d :: IsDeletion(o, t, b, d)
              <==> IsDeletion(t, o, b, ProjectDeletion(d.project, if d.side.Here? then Peer else Here))
  {
    var m, m' := MergedProjects(o, t, b, resolutions), MergedProjects(t, o, b, resolutions);
    forall p | p in m
      ensures m[p].vars == m'[p].vars
    {
      forall k
        ensures Look(m[p].vars, k) == Look(m'[p].vars, k)
      {
        MergedVal(o, t, b, resolutions, p, k);
        MergedVal(t, o, b, resolutions, p, k);
      }
      EqualByLook(m[p].vars, m'[p].vars);
    }
  }

  /** Without a base nothing either side holds is dropped or invented, save the keys reported as conflicts. */
  lemma NullBaseKeepsAll(o: Projects, t: Projects, p: string, k: string)
    ensures
      var m := Val(MergedProjects(o, t, map[], NONE), p, k);
      if p in o && p in t && Verdicts(o, t, map[], NONE, p, k).Clash?
      then Val(o, p, k).Some? && Val(t, p, k).Some? && Val(o, p, k) != Val(t, p, k)
      else m == (if Val(o, p, k).Some? then Val(o, p, k) else Val(t, p, k))
    ensures (p in o || p in t) ==> p in MergedProjects(o, t, map[], NONE)
  {
    MergedVal(o, t, map[], NONE, p, k);
  }

  /** What one side changed since the base survives a merge, unless it is reported or its project is deleted. */
  lemma ChangeSurvives(o: Projects, t: Projects, b: Projects, p: string, k: string)
    ensures
      var m := Val(MergedProjects(o, t, b, NONE), p, k);
      || (&& (Val(o, p, k) != Val(b, p, k) ==> m == Val(o, p, k))
          && (Val(t, p, k) != Val(b, p, k) ==> m == Val(t, p, k)))
      || IsProjectConflict(o, t, b, NONE, Conflict(p, k, Val(o, p, k), Val(t, p, k)))
      || exists side :: IsDeletion(o, t, b, ProjectDeletion(p, side))
  {
    MergedVal(o, t, b, NONE, p, k);
    Presence(o, t, b, NONE, p);
  }

  /** What neither side changed stays as it was in the base. */
  lemma UnchangedStays(o: Projects, t: Projects, b: Projects, p: string, k: string)
    requires Val(o, p, k) == Val(t, p, k) == Val(b, p, k)
    requires forall side :: !IsDeletion(o, t, b, ProjectDeletion(p, side))
    ensures Val(MergedProjects(o, t, b, NONE), p, k) == Val(b, p, k)
  {
    MergedVal(o, t, b, NONE, p, k);
    Presence(o, t, b, NONE, p);
  }

  // ---------- stopping half way and merging again ----------

  lemma MergedVarsIs(scope: string, o: VarMap, t: VarMap, b: VarMap, resolutions: Resolutions, m: VarMap)
    requires forall k :: Decide(Look(o, k), Look(t, k), Look(b, k), Manual(resolutions, scope, k)) == Take(Look(m, k))
    ensures MergedVars(scope, o, t, b, resolutions) == m
  {
    var r := MergedVars(scope, o, t, b, resolutions);
    forall k ensures Look(r, k) == Look(m, k) {
      assert Decide(Look(o, k), Look(t, k), Look(b, k), Manual(resolutions, scope, k)) == Take(Look(m, k));
    }
    EqualByLook(r, m);
  }

  /** A merged project list is recognised project by project. */
  lemma MergedProjectsIs(o: Projects, t: Projects, b: Projects, resolutions: Resolutions, m: Projects)
    requires forall p :: p in m <==> (p in o && p in t) || ((p in o || p in t) && p !in b)
    requires forall p, k :: p in o && p in t ==> Verdicts(o, t, b, resolutions, p, k) == Take(Val(m, p, k))
    requires forall p | p in m ::
               if p in o && p in t then m[p].createdAt == o[p].createdAt
               else m[p] == if p in o then o[p] else t[p]
    ensures MergedProjects(o, t, b, resolutions) == m
    ensures Settles(o, t, b, resolutions)
  {
    var r := MergedProjects(o, t, b, resolutions);
    forall p | p in m ensures r[p] == m[p] {
      if p in o && p in t {
        forall k
          ensures VarVerdict(p, o[p].vars, t[p].vars, VarsIn(b, p), resolutions, k) == Take(Look(m[p].vars, k))
        {
          assert Verdicts(o, t, b, resolutions, p, k) == Take(Val(m, p, k));
        }
        MergedVarsIs(p, o[p].vars, t[p].vars, VarsIn(b, p), resolutions, m[p].vars);
      }
    }
  }

  /**
   A conflict-free merge is a fixed point: merging it again with their old vault, with our old
   vault, or with itself over any base changes nothing and finds no conflict.
   */
  lemma MergeAgain(o: Projects, t: Projects, b: Projects, any: Projects)
    requires Settles(o, t, b, NONE)
    ensures
      var m := MergedProjects(o, t, b, NONE);
      && MergedProjects(m, t, b, NONE) == m && Settles(m, t, b, NONE)
      && MergedProjects(o, m, b, NONE) == m && Settles(o, m, b, NONE)
      && MergedProjects(m, m, any, NONE) == m && Settles(m, m, any, NONE)
  {
    var m := MergedProjects(o, t, b, NONE);
    forall p, k
      ensures p in m && p in t ==> Verdicts(m, t, b, NONE, p, k) == Take(Val(m, p, k))
      ensures p in o && p in m ==> Verdicts(o, m, b, NONE, p, k) == Take(Val(m, p, k))
      ensures Verdicts(m, m, any, NONE, p, k) == Take(Val(m, p, k))
    {
      MergedVal(o, t, b, NONE, p, k);
      if p in o && p in t { assert Verdicts(o, t, b, NONE, p, k).Take?; }
    }
    MergedProjectsIs(m, t, b, NONE, m);
    MergedProjectsIs(o, m, b, NONE, m);
    MergedProjectsIs(m, m, any, NONE, m);
  }

  // ---------- the report ----------

  ghost predicate QuietReport(o: Projects, t: Projects, b: Projects, resolutions: Resolutions) {
    forall line :: !IsProjectLine(o, t, b, resolutions, line)
  }

  lemma QuietMeansOurs(o: Projects, t: Projects, b: Projects, resolutions: Resolutions)
    requires QuietReport(o, t, b, resolutions)
    ensures o.Keys == t.Keys
    ensures MergedProjects(o, t, b, resolutions) == o
    ensures forall d :: !IsDeletion(o, t, b, d)
  {
    var m := MergedProjects(o, t, b, resolutions);
    forall p ensures p in o <==> p in t {
      assert !IsProjectLine(o, t, b, resolutions, ProjectPushed(p));
      assert !IsProjectLine(o, t, b, resolutions, ProjectPulled(p));
      assert !IsProjectLine(o, t, b, resolutions, ProjectDeleted(p, Peer));
      assert !IsProjectLine(o, t, b, resolutions, ProjectDeleted(p, Here));
    }
    forall p | p in o ensures m[p] == o[p] {
      assert !IsProjectLine(o, t, b, resolutions, VarsChanged(p, |m[p].vars| - |o[p].vars|));
    }
  }

  lemma OursMeansQuiet(o: Projects, t: Projects, b: Projects, resolutions: Resolutions)
    requires o.Keys == t.Keys && MergedProjects(o, t, b, resolutions) == o
    ensures QuietReport(o, t, b, resolutions)
  {
    forall line ensures !IsProjectLine(o, t, b, resolutions, line) {
      if line.VarsChanged? && line.name in o {
        assert MergedProjects(o, t, b, resolutions)[line.name] == o[line.name];
      }
    }
  }

  /** The project part of the report is empty exactly when both sides name the same projects and merging
      leaves ours as they are. */
  lemma QuietIffOurs(o: Projects, t: Projects, b: Projects, resolutions: Resolutions)
    ensures QuietReport(o, t, b, resolutions)
            <==> o.Keys == t.Keys && MergedProjects(o, t, b, resolutions) == o
  {
    if QuietReport(o, t, b, resolutions) {
      QuietMeansOurs(o, t, b, resolutions);
    } else if o.Keys == t.Keys && MergedProjects(o, t, b, resolutions) == o {
      OursMeansQuiet(o, t, b, resolutions);
    }
  }
}
