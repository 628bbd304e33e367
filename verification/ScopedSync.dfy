/** One-way sync of named projects over the LAN: pulled, merged here, never pushed (src/usb/lan-client.ts). */
module ScopedSync {
  import opened Wrappers
  import opened Vaults
  import opened SyncScope
  import opened LanSync
  import Text

  /** Whatever a host answered, opened with the PIN; the host need not be one of ours. */
  datatype Served = Unopened | FullPayload | ScopedPayload(projects: Projects, scope: seq<string>)

  datatype ScopedOutcome = ScopedRefused | DryRun(wouldChange: bool) | AlreadyMerged | ScopedNotApproved | Merged

  method NamesOf(ps: Projects) returns (names: seq<string>)
    ensures forall n :: n in names <==> n in ps
  {
    names := [];
    var todo := ps.Keys;
    while todo != {}
      invariant todo <= ps.Keys
      invariant forall n :: n in names <==> n in ps && n !in todo
      decreases |todo|
    {
      var n :| n in todo;
      names := names + [n];
      todo := todo - {n};
    }
  }

  /** No name of the payload is reserved and, if names were asked for, none is unasked for. */
  ghost predicate Admitted(projects: Projects, requested: seq<string>) {
    forall p :: p in projects ==>
                  && Text.Trim(p) != "" && !IsReserved(Text.Trim(p))
                  && (requested != [] ==> p in Cleaned(requested))
  }

  /** The payload may be merged: it declares and holds only allowed names, and none beyond those asked for. */
  ghost predicate PayloadOk(projects: Projects, scope: seq<string>, requested: seq<string>) {
    && ScopeAllowed(scope) && projects.Keys != {} && Admitted(projects, requested)
    && (requested != [] ==> ScopeAllowed(requested) && forall n :: n in scope ==> n in Cleaned(requested))
  }

  predicate Sendable(name: string) {
    !Text.Blank(name) && !("__abra_" <= Text.Trim(name))
  }

  predicate AskedFor(requested: seq<string>, name: string) {
    exists i :: 0 <= i < |requested| && Text.Trim(requested[i]) == name
  }

  lemma AdmittedIff(projects: Projects, requested: seq<string>)
    ensures Admitted(projects, requested)
            <==> forall p :: p in projects ==> Sendable(p) && (requested != [] ==> AskedFor(requested, p))
  {
    CleanedNames(requested);
    forall p ensures Text.Trim(p) != "" && !IsReserved(Text.Trim(p)) <==> Sendable(p) {
      var left, right := Text.TrimCuts(p);
      assert "__abra_" <= TREASURY_PROJECT;
    }
  }

  lemma WithinRequest(scope: seq<string>, requested: seq<string>)
    ensures (forall n :: n in scope ==> n in Cleaned(requested))
            <==> forall i :: 0 <= i < |scope| ==> AskedFor(requested, scope[i])
  {
    CleanedNames(requested);
    if forall n :: n in scope ==> n in Cleaned(requested) {
      forall i | 0 <= i < |scope| ensures AskedFor(requested, scope[i]) {
        assert scope[i] in scope;
      }
    }
  }

  /** Spelled out: names that are not blank or reserved, projects among them, and nothing that was not asked for. */
  lemma PayloadOkIff(projects: Projects, scope: seq<string>, requested: seq<string>)
    ensures PayloadOk(projects, scope, requested)
            <==> && scope != [] && projects != map[] && (forall i :: 0 <= i < |scope| ==> Sendable(scope[i]))
                 && (forall p :: p in projects ==> Sendable(p) && (requested != [] ==> AskedFor(requested, p)))
                 && (forall i :: 0 <= i < |requested| ==> Sendable(requested[i]))
                 && (requested != [] ==> forall i :: 0 <= i < |scope| ==> AskedFor(requested, scope[i]))
  {
    ScopeAllowedIff(scope);
    ScopeAllowedIff(requested);
    AdmittedIff(projects, requested);
    WithinRequest(scope, requested);
    assert projects.Keys == {} <==> projects == map[];
  }

  method CheckPayload(projects: Projects, scope: seq<string>, requested: seq<string>) returns (ok: bool)
    requires requested != [] ==> ScopeAllowed(requested)
    ensures ok <==> PayloadOk(projects, scope, requested)
  {
    var names := NamesOf(projects);
    var declared := AssertScopeNamesAllowed(scope);
    var allowed := AssertScopeNamesAllowed(names);
    assert names == [] <==> projects.Keys == {} by {
      if names != [] { assert names[0] in projects.Keys; }
    }
    if declared.Err? || allowed.Err? { return false; }
    if requested == [] { return true; }
    var cleaned := AssertScopeNamesAllowed(requested);
    return cleaned.Ok? && (forall n | n in scope :: n in cleaned.value) && forall n | n in names :: n in cleaned.value;
  }

  /** Writes nothing but the merged projects, and those only when something changes and was approved. */
  method ScopedLanSync(client: Device, served: Served, requested: seq<string>, theirs: bool, dryRun: bool,
                       approved: bool)
    returns (outcome: ScopedOutcome)
    modifies client
    ensures client.bases == old(client.bases)
    ensures outcome != Merged ==> client.vault == old(client.vault)
    ensures outcome == ScopedRefused <==>
              !(&& (requested != [] ==> ScopeAllowed(requested))
                && served.ScopedPayload? && PayloadOk(served.projects, served.scope, requested))
    ensures outcome != ScopedRefused ==>
              var mine := old(client.vault).projects;
              var m := ScopedProjects(mine, served.projects, theirs);
              && outcome == (if dryRun then DryRun(m != mine) else if m == mine then AlreadyMerged
                             else if !approved then ScopedNotApproved else Merged)
              && (outcome == Merged ==> client.vault == Loaded(old(client.vault)).(projects := m))
  {
    if requested != [] {
      var cleaned := AssertScopeNamesAllowed(requested);
      if cleaned.Err? { return ScopedRefused; }
    }
    if !served.ScopedPayload? { return ScopedRefused; }
    var ok := CheckPayload(served.projects, served.scope, requested);
    if !ok { return ScopedRefused; }
    var local := Loaded(client.vault);
    var merged, report, changed := MergeScopedProjects(local, served.projects, theirs);
    ChangedIff(local.projects, served.projects, theirs, report);
    if dryRun { return DryRun(changed); }
    if !changed { return AlreadyMerged; }
    if !approved { return ScopedNotApproved; }
    client.SaveVault(merged);
    return Merged;
  }

  /** Whatever the host sent, reserved projects and, if names were asked for, all others stay as they were. */
  lemma ScopedSyncStaysInScope(mine: Projects, sent: Projects, theirs: bool, requested: seq<string>, p: string)
    requires Admitted(sent, requested)
    requires "__abra_" <= Text.Trim(p)
             || (requested != [] && forall i :: 0 <= i < |requested| ==> Text.Trim(requested[i]) != p)
    ensures Look(ScopedProjects(mine, sent, theirs), p) == Look(mine, p)
  {
    CleanedNames(requested);
    assert p !in sent;
    OthersUntouched(mine, sent, theirs, p);
  }
}
