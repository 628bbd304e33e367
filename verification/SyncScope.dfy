/** Scoped, one-way sync of named projects (src/core/sync-scope.ts). */
module SyncScope {
  import opened Wrappers
  import opened Vaults
  import opened Text

  const TREASURY_PROJECT := "__abra_treasury__"
  const RESERVED_PROJECT_PREFIX := "__abra_"

  datatype ScopeError = NoNames | EmptyName | Reserved(name: string) | Unknown(names: seq<string>)

  predicate IsReserved(name: string) {
    name == TREASURY_PROJECT || RESERVED_PROJECT_PREFIX <= name
  }

  /** The trimmed names, each once, in order of first appearance. */
  function Cleaned(names: seq<string>): seq<string> {
    if names == [] then []
    else
      var n := |names| - 1;
      var before, name := Cleaned(names[..n]), Trim(names[n]);
      if name in before then before else before + [name]
  }

  /** There are names, and none is empty or reserved once trimmed. */
  predicate ScopeAllowed(names: seq<string>) {
    names != [] && forall n :: n in names ==> Trim(n) != "" && !IsReserved(Trim(n))
  }

  method AssertScopeNamesAllowed(names: seq<string>) returns (r: Result<seq<string>, ScopeError>)
    ensures r.Ok? <==> ScopeAllowed(names)
    ensures r.Ok? ==> r.value == Cleaned(names)
    ensures r.Err? && r.error.Reserved? ==> IsReserved(r.error.name)
  {
    if |names| == 0 { return Err(NoNames); }
    var cleaned: seq<string> := [];
    var seen: set<string> := {};
    for i := 0 to |names|
      invariant cleaned == Cleaned(names[..i])
      invariant forall n :: n in seen <==> n in cleaned
      invariant forall j :: 0 <= j < i ==> Trim(names[j]) != "" && !IsReserved(Trim(names[j]))
    {
      var name := Trim(names[i]);
      if name == "" { return Err(EmptyName); }
      if name == TREASURY_PROJECT || RESERVED_PROJECT_PREFIX <= name { return Err(Reserved(name)); }
      assert names[..i + 1][..i] == names[..i];
      if name in seen { continue; }
      seen := seen + {name};
      cleaned := cleaned + [name];
    }
    assert names[..|names|] == names;
    return Ok(cleaned);
  }

  lemma {:induction false} CleanedNames(names: seq<string>)
    ensures NoDup(Cleaned(names))
    ensures forall x :: x in Cleaned(names) <==> exists i :: 0 <= i < |names| && Trim(names[i]) == x
  {
    if names != [] {
      var n := |names| - 1;
      CleanedNames(names[..n]);
      forall x ensures x in Cleaned(names) <==> exists i :: 0 <= i < |names| && Trim(names[i]) == x {
        if i :| 0 <= i < |names| && Trim(names[i]) == x {
          if i < n { assert names[..n][i] == names[i]; }
        }
        if x in Cleaned(names[..n]) {
          var i :| 0 <= i < n && Trim(names[..n][i]) == x;
          assert Trim(names[i]) == x;
        }
      }
    }
  }

  lemma {:induction false} CleanedIdle(names: seq<string>)
    requires NoDup(names) && forall i :: 0 <= i < |names| ==> Trim(names[i]) == names[i]
    ensures Cleaned(names) == names
  {
    if names != [] {
      var n := |names| - 1;
      var rest, last := names[..n], names[n];
      assert NoDup(rest) && forall i :: 0 <= i < |rest| ==> rest[i] == names[i];
      CleanedIdle(rest);
      assert last !in rest;
      SplitLast(names);
    }
  }

  /** Cleaning a clean list changes nothing. */
  lemma CleanedTwice(names: seq<string>)
    ensures Cleaned(Cleaned(names)) == Cleaned(names)
  {
    var c := Cleaned(names);
    CleanedNames(names);
    forall i | 0 <= i < |c| ensures Trim(c[i]) == c[i] {
      assert c[i] in c;
      var j :| 0 <= j < |names| && Trim(names[j]) == c[i];
      TrimTwice(names[j]);
    }
    CleanedIdle(c);
  }

  method ValidateScope(vault: Vault, names: seq<string>) returns (r: Result<seq<string>, ScopeError>)
    ensures r.Ok? <==> ScopeAllowed(names) && forall x :: x in Cleaned(names) ==> x in vault.projects
    ensures r.Err? && ScopeAllowed(names) ==> r.error.Unknown?
    ensures r.Ok? ==> r.value == Cleaned(names)
  {
    r := AssertScopeNamesAllowed(names);
    if r.Err? { return; }
    var unknown: seq<string> := [];
    for i := 0 to |r.value|
      invariant unknown == [] <==> forall j :: 0 <= j < i ==> r.value[j] in vault.projects
    {
      if r.value[i] !in vault.projects { unknown := unknown + [r.value[i]]; }
    }
    if |unknown| > 0 { r := Err(Unknown(unknown)); }
  }

  /** Copies of the named projects, which the vault must have. */
  method ExtractScopedProjects(vault: Vault, names: seq<string>) returns (r: Result<Projects, ScopeError>)
    ensures r.Ok? <==> forall n :: n in names ==> n in vault.projects
    ensures r.Ok? ==> r.value == map n | n in vault.projects && n in names :: vault.projects[n]
  {
    var out: Projects := map[];
    for i := 0 to |names|
      invariant forall j :: 0 <= j < i ==> names[j] in vault.projects
      invariant out == map n | n in vault.projects && n in names[..i] :: vault.projects[n]
    {
      if names[i] !in vault.projects { return Err(Unknown([names[i]])); }
      out := out[names[i] := vault.projects[names[i]]];
      assert names[..i + 1] == names[..i] + [names[i]];
    }
    assert names[..|names|] == names;
    return Ok(out);
  }

  // ---------- merging what came in ----------

  predicate ContentEq(a: VarEntry, b: VarEntry) {
    a.value == b.value && a.secret == b.secret
  }

  datatype ScopedReport = ScopedReport(
    newProjects: seq<(string, nat)>,
    added: seq<(string, string)>,
    changed: seq<(string, string)>,
    conflicts: seq<(string, string)>)

  /** What becomes of one variable of a project the receiver already has. */
  function ScopedEntry(mine: Option<VarEntry>, sent: Option<VarEntry>, theirs: bool): Option<VarEntry> {
    if sent.None? then mine
    else if mine.None? then sent
    else if ContentEq(mine.value, sent.value) || !theirs then mine
    else sent
  }

  function ScopedVars(mine: VarMap, sent: VarMap, theirs: bool): VarMap {
    map k | k in mine.Keys + sent.Keys :: ScopedEntry(Look(mine, k), Look(sent, k), theirs).value
  }

  function ScopedProjects(mine: Projects, sent: Projects, theirs: bool): Projects {
    map p | p in mine.Keys + sent.Keys ::
      if p !in sent then mine[p]
      else if p !in mine then sent[p]
      else Project(mine[p].createdAt, ScopedVars(mine[p].vars, sent[p].vars, theirs))
  }

  /** `keys` are the keys of `sent`, outside `todo`, that satisfy `member`. */
  ghost predicate ListsOutside(keys: seq<string>, member: set<string>, todo: set<string>) {
    forall k :: k in keys <==> k in member && k !in todo
  }

  lemma ListKey(keys: seq<string>, member: set<string>, todo: set<string>, key: string)
    requires key in todo && ListsOutside(keys, member, todo)
    ensures ListsOutside(if key in member then keys + [key] else keys, member, todo - {key})
  {
  }

  function Added(mine: VarMap, sent: VarMap): set<string> {
    set k | k in sent && k !in mine
  }

  function Differing(mine: VarMap, sent: VarMap): set<string> {
    set k | k in sent && k in mine && !ContentEq(mine[k], sent[k])
  }

  ghost predicate PatchedOutside(vars: VarMap, mine: VarMap, sent: VarMap, theirs: bool, todo: set<string>) {
    forall k :: Look(vars, k) == if k in todo then Look(mine, k) else ScopedEntry(Look(mine, k), Look(sent, k), theirs)
  }

  lemma PatchKey(vars: VarMap, mine: VarMap, sent: VarMap, theirs: bool, todo: set<string>, key: string)
    requires key in todo && key in sent && PatchedOutside(vars, mine, sent, theirs, todo)
    ensures
      var patched :=
        if key !in mine || (theirs && !ContentEq(mine[key], sent[key])) then vars[key := sent[key]] else vars;
      PatchedOutside(patched, mine, sent, theirs, todo - {key})
  {
  }

  datatype VarsReport = VarsReport(vars: VarMap, added: seq<string>, changed: seq<string>, conflicts: seq<string>)

  /** What the loop over the keys of one project has built once only `todo` is left. */
  ghost predicate ScopedSoFar(r: VarsReport, mine: VarMap, sent: VarMap, theirs: bool, todo: set<string>) {
    && PatchedOutside(r.vars, mine, sent, theirs, todo)
    && ListsOutside(r.added, Added(mine, sent), todo)
    && ListsOutside(r.changed, if theirs then Differing(mine, sent) else {}, todo)
    && ListsOutside(r.conflicts, if theirs then {} else Differing(mine, sent), todo)
  }

  /** The body of that loop. */
  method MergeScopedKey(before: VarsReport, mine: VarMap, sent: VarMap, theirs: bool, key: string,
                        ghost todo: set<string>)
    returns (after: VarsReport)
    requires key in todo && key in sent && ScopedSoFar(before, mine, sent, theirs, todo)
    ensures ScopedSoFar(after, mine, sent, theirs, todo - {key})
  {
    PatchKey(before.vars, mine, sent, theirs, todo, key);
    ListKey(before.added, Added(mine, sent), todo, key);
    ListKey(before.changed, if theirs then Differing(mine, sent) else {}, todo, key);
    ListKey(before.conflicts, if theirs then {} else Differing(mine, sent), todo, key);
    if key !in mine {
      after := before.(vars := before.vars[key := sent[key]], added := before.added + [key]);
    } else if ContentEq(mine[key], sent[key]) {
      after := before;
    } else if theirs {
      after := before.(vars := before.vars[key := sent[key]], changed := before.changed + [key]);
    } else {
      after := before.(conflicts := before.conflicts + [key]);
    }
  }

  lemma ScopedDone(r: VarsReport, mine: VarMap, sent: VarMap, theirs: bool)
    requires ScopedSoFar(r, mine, sent, theirs, {})
    ensures r.vars == ScopedVars(mine, sent, theirs)
  {
    forall k ensures Look(r.vars, k) == Look(ScopedVars(mine, sent, theirs), k) {
      assert Look(r.vars, k) == ScopedEntry(Look(mine, k), Look(sent, k), theirs);
    }
    EqualByLook(r.vars, ScopedVars(mine, sent, theirs));
  }

  method MergeScopedVars(mine: VarMap, sent: VarMap, theirs: bool) returns (r: VarsReport)
    ensures r.vars == ScopedVars(mine, sent, theirs)
    ensures ScopedSoFar(r, mine, sent, theirs, {})
  {
    r := VarsReport(mine, [], [], []);
    var keys := sent.Keys;
    while keys != {}
      invariant keys <= sent.Keys
      invariant ScopedSoFar(r, mine, sent, theirs, keys)
      decreases |keys|
    {
      var key :| key in keys;
      r := MergeScopedKey(r, mine, sent, theirs, key, keys);
      keys := keys - {key};
    }
    ScopedDone(r, mine, sent, theirs);
  }

  function InProject(p: string, keys: seq<string>): seq<(string, string)> {
    seq(|keys|, i requires 0 <= i < |keys| => (p, keys[i]))
  }

  lemma InProjectLists(p: string, keys: seq<string>)
    ensures forall x :: x in InProject(p, keys) <==> x.0 == p && x.1 in keys
  {
    forall x: (string, string) | x.0 == p && x.1 in keys ensures x in InProject(p, keys) {
      var i :| 0 <= i < |keys| && keys[i] == x.1;
      assert InProject(p, keys)[i] == x;
    }
  }

  /** Which report the merge gives, up to order. */
  ghost predicate IsScopedReport(mine: Projects, sent: Projects, theirs: bool, todo: set<string>, r: ScopedReport) {
    && (forall x :: x in r.newProjects
          <==> x.0 in sent && x.0 !in mine && x.0 !in todo && x.1 == |sent[x.0].vars|)
    && (forall x :: x in r.added <==> x.0 in sent && x.0 in mine && x.0 !in todo
                                      && x.1 in Added(mine[x.0].vars, sent[x.0].vars))
    && (forall x :: x in r.changed <==> x.0 in sent && x.0 in mine && x.0 !in todo && theirs
                                        && x.1 in Differing(mine[x.0].vars, sent[x.0].vars))
    && (forall x :: x in r.conflicts <==> x.0 in sent && x.0 in mine && x.0 !in todo && !theirs
                                          && x.1 in Differing(mine[x.0].vars, sent[x.0].vars))
  }

  /** One project of the loop: the project as merged and the report extended by its keys. */
  method MergeScopedProject(mine: Projects, sent: Projects, theirs: bool, name: string, todo: set<string>,
                            before: ScopedReport)
    returns (project: Project, report: ScopedReport)
    requires name in todo && name in sent && IsScopedReport(mine, sent, theirs, todo, before)
    ensures project == ScopedProjects(mine, sent, theirs)[name]
    ensures IsScopedReport(mine, sent, theirs, todo - {name}, report)
  {
    if name !in mine {
      project := sent[name];
      report := before.(newProjects := before.newProjects + [(name, |sent[name].vars|)]);
    } else {
      var r := MergeScopedVars(mine[name].vars, sent[name].vars, theirs);
      project := Project(mine[name].createdAt, r.vars);
      InProjectLists(name, r.added);
      InProjectLists(name, r.changed);
      InProjectLists(name, r.conflicts);
      report := before.(added := before.added + InProject(name, r.added),
                        changed := before.changed + InProject(name, r.changed),
                        conflicts := before.conflicts + InProject(name, r.conflicts));
    }
  }

  ghost predicate ProjectsPatched(projects: Projects, mine: Projects, spec: Projects, todo: set<string>) {
    forall p :: Look(projects, p) == if p in todo then Look(mine, p) else Look(spec, p)
  }

  lemma PatchProject(projects: Projects, mine: Projects, spec: Projects, todo: set<string>, name: string)
    requires name in todo && name in spec && ProjectsPatched(projects, mine, spec, todo)
    ensures ProjectsPatched(projects[name := spec[name]], mine, spec, todo - {name})
  {
  }

  method MergeScopedProjects(local: Vault, incoming: Projects, theirs: bool)
    returns (merged: Vault, report: ScopedReport, changed: bool)
    ensures merged == local.(projects := ScopedProjects(local.projects, incoming, theirs))
    ensures IsScopedReport(local.projects, incoming, theirs, {}, report)
    ensures changed <==> report.newProjects != [] || report.added != [] || report.changed != []
  {
    var mine := local.projects;
    var projects := mine;
    report := ScopedReport([], [], [], []);
    var names := incoming.Keys;
    ghost var spec := ScopedProjects(mine, incoming, theirs);
    while names != {}
      invariant names <= incoming.Keys
      invariant ProjectsPatched(projects, mine, spec, names)
      invariant IsScopedReport(mine, incoming, theirs, names, report)
      decreases |names|
    {
      var name :| name in names;
      var project;
      project, report := MergeScopedProject(mine, incoming, theirs, name, names, report);
      PatchProject(projects, mine, spec, names, name);
      projects := projects[name := project];
      names := names - {name};
    }
    assert projects == spec by {
      assert forall p :: Look(projects, p) == Look(spec, p);
      EqualByLook(projects, spec);
    }
    merged := local.(projects := projects);
    changed := |report.newProjects| > 0 || |report.added| > 0 || |report.changed| > 0;
  }

  // ---------- what the scoped merge promises ----------

  /** Every variable: what was sent is added; where both have one, ours stays unless `theirs` and contents differ. */
  lemma ScopedTable(mine: Projects, sent: Projects, theirs: bool, p: string, k: string)
    ensures
      var a, b, v := Val(mine, p, k), Val(sent, p, k), Val(ScopedProjects(mine, sent, theirs), p, k);
      v == if b.None? then a
           else if a.None? then b
           else if theirs && (a.value.value != b.value.value || a.value.secret != b.value.secret) then b
           else a
  {
  }

  /** No project goes; a new one comes whole, and one we have keeps its creation stamp. */
  lemma ScopedWhole(mine: Projects, sent: Projects, theirs: bool, p: string)
    ensures
      var m := ScopedProjects(mine, sent, theirs);
      && (p in m <==> p in mine || p in sent)
      && (p in mine ==> m[p].createdAt == mine[p].createdAt)
      && (p !in mine && p in sent ==> m[p] == sent[p])
  {
  }

  /** What is reported: new projects with their size, variables added, and those that differ, by what became of them. */
  lemma ScopedReportIs(mine: Projects, sent: Projects, theirs: bool, r: ScopedReport, p: string, k: string)
    requires IsScopedReport(mine, sent, theirs, {}, r)
    ensures
      var a, b := Val(mine, p, k), Val(sent, p, k);
      var differ := a.Some? && b.Some? && (a.value.value != b.value.value || a.value.secret != b.value.secret);
      && (forall n :: (p, n) in r.newProjects <==> p in sent && p !in mine && n == |sent[p].vars|)
      && ((p, k) in r.added <==> p in mine && a.None? && b.Some?)
      && ((p, k) in r.changed <==> differ && theirs)
      && ((p, k) in r.conflicts <==> differ && !theirs)
  {
    assert forall x :: x in r.newProjects <==> x.0 in sent && x.0 !in mine && x.1 == |sent[x.0].vars|;
    assert (p, k) in r.added <==> p in sent && p in mine && k in Added(mine[p].vars, sent[p].vars);
    assert (p, k) in r.changed <==> p in sent && p in mine && theirs && k in Differing(mine[p].vars, sent[p].vars);
    assert (p, k) in r.conflicts <==> p in sent && p in mine && !theirs && k in Differing(mine[p].vars, sent[p].vars);
  }

  /** Allowed are names that are not blank and, trimmed, do not begin like a reserved one; the treasury's does. */
  lemma ScopeAllowedIff(names: seq<string>)
    ensures ScopeAllowed(names)
            <==> names != []
                 && forall i :: 0 <= i < |names| ==> !Blank(names[i]) && !("__abra_" <= Trim(names[i]))
  {
    forall n | n in names ensures Trim(n) == "" <==> Blank(n) {
      var left, right := TrimCuts(n);
    }
    assert "__abra_" <= TREASURY_PROJECT;
    if ScopeAllowed(names) {
      forall i | 0 <= i < |names| ensures !Blank(names[i]) && !("__abra_" <= Trim(names[i])) {
        assert names[i] in names;
      }
    }
  }

  /** Nothing local is ever lost: without `theirs` every entry stays; with it only entries that were sent change. */
  lemma NeverDeletes(mine: Projects, sent: Projects, theirs: bool, p: string, k: string)
    requires Val(mine, p, k).Some?
    ensures
      var v := Val(ScopedProjects(mine, sent, theirs), p, k);
      && v.Some?
      && (v != Val(mine, p, k) ==> theirs && v == Val(sent, p, k) && !ContentEq(Val(mine, p, k).value, v.value))
  {
  }

  /** Afterwards everything sent is there, with the sender's content unless a local entry was kept as a conflict. */
  lemma EverythingSentArrives(mine: Projects, sent: Projects, theirs: bool, p: string, k: string)
    requires Val(sent, p, k).Some?
    ensures
      var v := Val(ScopedProjects(mine, sent, theirs), p, k);
      && v.Some?
      && (ContentEq(v.value, Val(sent, p, k).value)
          || (!theirs && p in mine && k in Differing(mine[p].vars, sent[p].vars) && v == Val(mine, p, k)))
  {
  }

  /** Projects that were not sent are untouched. */
  lemma OthersUntouched(mine: Projects, sent: Projects, theirs: bool, p: string)
    requires p !in sent
    ensures Look(ScopedProjects(mine, sent, theirs), p) == Look(mine, p)
  {
  }

  lemma ScopedVarsTwice(mine: VarMap, sent: VarMap, theirs: bool)
    ensures ScopedVars(ScopedVars(mine, sent, theirs), sent, theirs) == ScopedVars(mine, sent, theirs)
  {
  }

  /** Merging the same projects again changes nothing. */
  lemma ScopedTwice(mine: Projects, sent: Projects, theirs: bool)
    ensures
      var once := ScopedProjects(mine, sent, theirs);
      ScopedProjects(once, sent, theirs) == once
  {
    var once := ScopedProjects(mine, sent, theirs);
    forall p | p in once
      ensures ScopedProjects(once, sent, theirs)[p] == once[p]
    {
      if p in sent {
        if p in mine {
          ScopedVarsTwice(mine[p].vars, sent[p].vars, theirs);
        } else {
          assert ScopedVars(sent[p].vars, sent[p].vars, theirs) == sent[p].vars;
        }
      }
    }
  }

  /** `changed` is reported exactly when the projects changed. */
  lemma ChangedIff(mine: Projects, sent: Projects, theirs: bool, r: ScopedReport)
    requires IsScopedReport(mine, sent, theirs, {}, r)
    ensures r.newProjects != [] || r.added != [] || r.changed != []
            <==> ScopedProjects(mine, sent, theirs) != mine
  {
    var m := ScopedProjects(mine, sent, theirs);
    if r.newProjects != [] {
      assert r.newProjects[0] in r.newProjects;
    } else if r.added != [] {
      assert r.added[0] in r.added;
      assert r.added[0].1 in m[r.added[0].0].vars;
    } else if r.changed != [] {
      var x := r.changed[0];
      assert x in r.changed;
      assert m[x.0].vars[x.1] == sent[x.0].vars[x.1];
    } else {
      forall p | p in m ensures p in mine && m[p] == mine[p] {
        if p in sent {
          assert (p, |sent[p].vars|) !in r.newProjects;
          forall k | k in sent[p].vars ensures k in mine[p].vars && m[p].vars[k] == mine[p].vars[k] {
            assert (p, k) !in r.added && (p, k) !in r.changed;
          }
        }
      }
    }
  }

  /** The treasury and every other reserved project never enter a scope. */
  lemma ReservedStaysOut(names: seq<string>)
    requires ScopeAllowed(names)
    ensures ScopeAllowed(Cleaned(names))
    ensures forall x :: x in Cleaned(names) ==> !IsReserved(x) && x != "__abra_treasury__" && !("__abra_" <= x)
  {
    CleanedNames(names);
    assert Trim(names[0]) in Cleaned(names);
    forall x | x in Cleaned(names) ensures Trim(x) == x && x != "" && !IsReserved(x) {
      var i :| 0 <= i < |names| && Trim(names[i]) == x;
      assert names[i] in names;
      TrimTwice(names[i]);
    }
  }
}
