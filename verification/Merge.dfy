/**
 The three-way merge (src/core/sync.ts): loops that fill the merged vault and push
 conflicts, report lines and project deletions, each proved against the per-key table
 `Decide`.
 */
module Merge {
  import opened Wrappers
  import opened Vaults

  datatype Conflict = Conflict(scope: string, key: string, ours: Option<VarEntry>, theirs: Option<VarEntry>)

  /** "Here": deleted on this machine; "Peer": deleted on the peer. */
  datatype DeletionSide = Here | Peer

  datatype ProjectDeletion = ProjectDeletion(project: string, side: DeletionSide)

  datatype ReportLine =
    | ProjectPushed(name: string)
    | ProjectPulled(name: string)
    | ProjectDeleted(name: string, side: DeletionSide)
    | VarsChanged(name: string, diff: int)
    | ConnectionSynced(provider: string)

  /** Manual resolutions, keyed "<scope>/<key>"; `None` means delete. */
  type Resolutions = map<string, Option<VarEntry>>

  const CONNECTION_SCOPE := "connections/"

  function ResolutionKey(scope: string, key: string): string {
    scope + "/" + key
  }

  function Manual(resolutions: Resolutions, scope: string, key: string): Option<Option<VarEntry>> {
    var id := ResolutionKey(scope, key);
    if id in resolutions then Some(resolutions[id]) else None
  }

  // ---------- the table ----------

  datatype Verdict = Take(entry: Option<VarEntry>) | Clash

  /** What becomes of one key, given our entry, theirs, the base entry and a manual choice. */
  function Decide(o: Option<VarEntry>, t: Option<VarEntry>, b: Option<VarEntry>,
                  manual: Option<Option<VarEntry>>): Verdict
  {
    if o == t then Take(o)
    else if manual.Some? then Take(manual.value)
    else if t == b then Take(o)
    else if o == b then Take(t)
    else Clash
  }

  function VarVerdict(scope: string, ours: VarMap, theirs: VarMap, base: VarMap,
                      resolutions: Resolutions, key: string): Verdict
  {
    Decide(Look(ours, key), Look(theirs, key), Look(base, key), Manual(resolutions, scope, key))
  }

  function MergedVars(scope: string, ours: VarMap, theirs: VarMap, base: VarMap, resolutions: Resolutions): VarMap {
    map key |
      && key in ours.Keys + theirs.Keys
      && var v := VarVerdict(scope, ours, theirs, base, resolutions, key);
      v.Take? && v.entry.Some?
      :: VarVerdict(scope, ours, theirs, base, resolutions, key).entry.value
  }

  predicate IsVarConflict(scope: string, ours: VarMap, theirs: VarMap, base: VarMap,
                          resolutions: Resolutions, c: Conflict)
  {
    && c.scope == scope
    && c.key in ours.Keys + theirs.Keys
    && c.ours == Look(ours, c.key)
    && c.theirs == Look(theirs, c.key)
    && VarVerdict(scope, ours, theirs, base, resolutions, c.key) == Clash
  }

  ghost predicate ListsVarConflicts(cs: seq<Conflict>, scope: string, ours: VarMap, theirs: VarMap, base: VarMap,
                                    resolutions: Resolutions)
  {
    && NoDup(cs)
    && forall c :: c in cs <==> IsVarConflict(scope, ours, theirs, base, resolutions, c)
  }

  // ---------- projects ----------

  function VarsIn(ps: Projects, name: string): VarMap {
    if name in ps then ps[name].vars else map[]
  }

  function BaseProjects(base: Option<Vault>): Projects {
    if base.Some? then base.value.projects else map[]
  }

  function MergedProject(o: Projects, t: Projects, b: Projects, resolutions: Resolutions, name: string): Project
    requires name in o || name in t
  {
    if name !in t then o[name]
    else if name !in o then t[name]
    else Project(o[name].createdAt, MergedVars(name, o[name].vars, t[name].vars, VarsIn(b, name), resolutions))
  }

  function MergedProjects(o: Projects, t: Projects, b: Projects, resolutions: Resolutions): Projects {
    map name | name in o.Keys + t.Keys && ((name in o && name in t) || name !in b)
      :: MergedProject(o, t, b, resolutions, name)
  }

  predicate IsProjectConflict(o: Projects, t: Projects, b: Projects, resolutions: Resolutions, c: Conflict) {
    && c.scope in o && c.scope in t
    && IsVarConflict(c.scope, o[c.scope].vars, t[c.scope].vars, VarsIn(b, c.scope), resolutions, c)
  }

  predicate IsDeletion(o: Projects, t: Projects, b: Projects, d: ProjectDeletion) {
    && d.project in b
    && if d.side.Peer? then d.project in o && d.project !in t else d.project !in o && d.project in t
  }

  predicate IsProjectLine(o: Projects, t: Projects, b: Projects, resolutions: Resolutions, line: ReportLine) {
    match line
    case ProjectPushed(n) => n in o && n !in t && n !in b
    case ProjectPulled(n) => n !in o && n in t && n !in b
    case ProjectDeleted(n, side) => IsDeletion(o, t, b, ProjectDeletion(n, side))
    case VarsChanged(n, diff) =>
      && n in o && n in t
      && MergedProject(o, t, b, resolutions, n).vars != o[n].vars
      && diff == |MergedProject(o, t, b, resolutions, n).vars| - |o[n].vars|
    case ConnectionSynced(_) => false
  }

  // ---------- connections ----------

  type Connections = map<string, Connection>

  function ConnectionsOf(v: Vault): Connections {
    v.connections.GetOr(map[])
  }

  function BaseConnections(base: Option<Vault>): Connections {
    if base.Some? then ConnectionsOf(base.value) else map[]
  }

  function ConnVarsIn(cs: Connections, provider: string): VarMap {
    if provider in cs then cs[provider].vars else map[]
  }

  function MergedConnection(o: Connections, t: Connections, b: Connections, resolutions: Resolutions,
                            provider: string): Connection
    requires provider in o || provider in t
  {
    if provider !in t then o[provider]
    else if provider !in o then t[provider]
    else o[provider].(
      meta := t[provider].meta + o[provider].meta,
      vars := MergedVars(CONNECTION_SCOPE + provider, o[provider].vars, t[provider].vars,
                         ConnVarsIn(b, provider), resolutions))
  }

  function MergedConnections(o: Connections, t: Connections, b: Connections, resolutions: Resolutions): Connections {
    map provider | provider in o.Keys + t.Keys :: MergedConnection(o, t, b, resolutions, provider)
  }

  predicate IsConnectionConflict(o: Connections, t: Connections, b: Connections, resolutions: Resolutions,
                                 c: Conflict)
  {
    var n := |CONNECTION_SCOPE|;
    && n <= |c.scope| && c.scope[..n] == CONNECTION_SCOPE
    && var provider := c.scope[n..];
    && provider in o && provider in t
    && IsVarConflict(c.scope, o[provider].vars, t[provider].vars, ConnVarsIn(b, provider), resolutions, c)
  }

  // ---------- the whole merge ----------

  datatype MergeResult = MergeResult(
    merged: Vault,
    conflicts: seq<Conflict>,
    report: seq<ReportLine>,
    projectDeletions: seq<ProjectDeletion>)

  function MergedPasskeys(ours: Vault, theirs: Vault, base: Option<Vault>): Option<seq<PasskeyCredential>> {
    var b := if base.Some? then base.value.passkeys.GetOr([]) else [];
    if ours.passkeys.GetOr([]) != b then ours.passkeys else theirs.passkeys
  }

  function MergedApiKeys(ours: Vault, theirs: Vault, base: Option<Vault>): Option<map<string, ApiKey>> {
    var b := if base.Some? then base.value.apiKeys.GetOr(map[]) else map[];
    if ours.apiKeys.GetOr(map[]) != b then ours.apiKeys else theirs.apiKeys
  }

  function MergedVault(ours: Vault, theirs: Vault, base: Option<Vault>, resolutions: Resolutions): Vault {
    Vault(
      MergedProjects(ours.projects, theirs.projects, BaseProjects(base), resolutions),
      Some(MergedConnections(ConnectionsOf(ours), ConnectionsOf(theirs), BaseConnections(base), resolutions)),
      MergedPasskeys(ours, theirs, base),
      MergedApiKeys(ours, theirs, base),
      ours.syncIdentity,
      ours.syncPeers)
  }

  predicate IsConflict(ours: Vault, theirs: Vault, base: Option<Vault>, resolutions: Resolutions, c: Conflict) {
    || IsProjectConflict(ours.projects, theirs.projects, BaseProjects(base), resolutions, c)
    || IsConnectionConflict(ConnectionsOf(ours), ConnectionsOf(theirs), BaseConnections(base), resolutions, c)
  }

  /** The same clash in a connection and in a project named like the connection's scope: listed twice. */
  predicate IsTwinConflict(ours: Vault, theirs: Vault, base: Option<Vault>, resolutions: Resolutions, c: Conflict) {
    && IsProjectConflict(ours.projects, theirs.projects, BaseProjects(base), resolutions, c)
    && IsConnectionConflict(ConnectionsOf(ours), ConnectionsOf(theirs), BaseConnections(base), resolutions, c)
  }

  predicate IsLine(ours: Vault, theirs: Vault, base: Option<Vault>, resolutions: Resolutions, line: ReportLine) {
    || IsProjectLine(ours.projects, theirs.projects, BaseProjects(base), resolutions, line)
    || (line.ConnectionSynced? &&
        ((line.provider in ConnectionsOf(ours)) != (line.provider in ConnectionsOf(theirs))))
  }

  /** What a run of the merge must return: the vault, and exactly the due conflicts, lines and deletions. */
  ghost predicate IsMerge(ours: Vault, theirs: Vault, base: Option<Vault>, resolutions: Resolutions, r: MergeResult) {
    && r.merged == MergedVault(ours, theirs, base, resolutions)
    && (forall c :: c in r.conflicts <==> IsConflict(ours, theirs, base, resolutions, c))
    && (forall i, j :: 0 <= i < j < |r.conflicts| && r.conflicts[i] == r.conflicts[j]
          ==> IsTwinConflict(ours, theirs, base, resolutions, r.conflicts[i]))
    && (forall line :: line in r.report <==> IsLine(ours, theirs, base, resolutions, line))
    && (forall d :: d in r.projectDeletions
          <==> IsDeletion(ours.projects, theirs.projects, BaseProjects(base), d))
    && NoDup(r.projectDeletions)
  }

  /** The conflict list every part of one merge pushes onto. */
  class MergeLog {
    var conflicts: seq<Conflict>

    constructor ()
      ensures conflicts == []
    {
      conflicts := [];
    }
  }

  /** The body of the per-key loop: which entry survives, or a conflict. */
  method DecideKey(scope: string, key: string, o: Option<VarEntry>, t: Option<VarEntry>, b: Option<VarEntry>,
                   resolutions: Resolutions)
    returns (v: Verdict)
    ensures v == Decide(o, t, b, Manual(resolutions, scope, key))
  {
    if o == t { return Take(o); }
    if ResolutionKey(scope, key) in resolutions {
      return Take(resolutions[ResolutionKey(scope, key)]);
    }
    var oursChanged, theirsChanged := o != b, t != b;
    if !theirsChanged {
      v := Take(o);
    } else if !oursChanged {
      v := Take(t);
    } else {
      v := Clash;
    }
  }

  ghost predicate ConflictsOutside(cs: seq<Conflict>, scope: string, ours: VarMap, theirs: VarMap, base: VarMap,
                                   resolutions: Resolutions, todo: set<string>)
  {
    && NoDup(cs)
    && forall c :: c in cs <==> IsVarConflict(scope, ours, theirs, base, resolutions, c) && c.key !in todo
  }

  lemma SettleConflict(cs: seq<Conflict>, scope: string, ours: VarMap, theirs: VarMap, base: VarMap,
                       resolutions: Resolutions, todo: set<string>, key: string)
    requires key in todo && todo <= ours.Keys + theirs.Keys
    requires ConflictsOutside(cs, scope, ours, theirs, base, resolutions, todo)
    ensures
      var c := Conflict(scope, key, Look(ours, key), Look(theirs, key));
      var cs' := if VarVerdict(scope, ours, theirs, base, resolutions, key) == Clash then cs + [c] else cs;
      ConflictsOutside(cs', scope, ours, theirs, base, resolutions, todo - {key})
  {
  }

  method MergeVarMaps(scope: string, ours: VarMap, theirs: VarMap, base: VarMap, log: MergeLog,
                      resolutions: Resolutions)
    returns (merged: VarMap, ghost added: seq<Conflict>)
    modifies log
    ensures merged == MergedVars(scope, ours, theirs, base, resolutions)
    ensures log.conflicts == old(log.conflicts) + added
    ensures ListsVarConflicts(added, scope, ours, theirs, base, resolutions)
  {
    merged, added := map[], [];
    ghost var spec := MergedVars(scope, ours, theirs, base, resolutions);
    var keys := ours.Keys + theirs.Keys;
    while keys != {}
      invariant keys <= ours.Keys + theirs.Keys
      invariant AgreesOutside(merged, spec, keys)
      invariant log.conflicts == old(log.conflicts) + added
      invariant ConflictsOutside(added, scope, ours, theirs, base, resolutions, keys)
      decreases |keys|
    {
      var key :| key in keys;
      var o, t := Look(ours, key), Look(theirs, key);
      var v := DecideKey(scope, key, o, t, Look(base, key), resolutions);
      SettleKey(merged, spec, keys, key);
      SettleConflict(added, scope, ours, theirs, base, resolutions, keys, key);
      match v {
        case Take(Some(entry)) => merged := merged[key := entry];
        case Take(None) =>
        case Clash =>
          ConcatAssoc(old(log.conflicts), added, [Conflict(scope, key, o, t)]);
          log.conflicts := log.conflicts + [Conflict(scope, key, o, t)];
          added := added + [Conflict(scope, key, o, t)];
      }
      keys := keys - {key};
    }
  }

  /** The line the loop of `MergeProjects` reports for one project, if any. */
  function VarsLine(name: string, before: VarMap, after: VarMap): seq<ReportLine> {
    if after == before then [] else [VarsChanged(name, |after| - |before|)]
  }

  function ProjectLine(o: Projects, t: Projects, b: Projects, resolutions: Resolutions, name: string): seq<ReportLine>
    requires name in o || name in t
  {
    if name in o && name in t then
      VarsLine(name, o[name].vars, MergedProject(o, t, b, resolutions, name).vars)
    else if name in b then [ProjectDeleted(name, if name in o then Peer else Here)]
    else [if name in o then ProjectPushed(name) else ProjectPulled(name)]
  }

  function ProjectDeletionOf(o: Projects, t: Projects, b: Projects, name: string): seq<ProjectDeletion> {
    if (name in o) != (name in t) && name in b then [ProjectDeletion(name, if name in o then Peer else Here)] else []
  }

  ghost predicate LinesOutside(lines: seq<ReportLine>, o: Projects, t: Projects, b: Projects,
                               resolutions: Resolutions, todo: set<string>)
  {
    forall line :: line in lines <==> IsProjectLine(o, t, b, resolutions, line) && line.name !in todo
  }

  ghost predicate DeletionsOutside(ds: seq<ProjectDeletion>, o: Projects, t: Projects, b: Projects, todo: set<string>) {
    && NoDup(ds)
    && forall d :: d in ds <==> IsDeletion(o, t, b, d) && d.project !in todo
  }

  ghost predicate ProjectConflictsOutside(cs: seq<Conflict>, o: Projects, t: Projects, b: Projects,
                                          resolutions: Resolutions, todo: set<string>)
  {
    && NoDup(cs)
    && forall c :: c in cs <==> IsProjectConflict(o, t, b, resolutions, c) && c.scope !in todo
  }

  lemma LinesOfProject(o: Projects, t: Projects, b: Projects, resolutions: Resolutions, name: string)
    requires name in o || name in t
    ensures forall line :: line in ProjectLine(o, t, b, resolutions, name)
              <==> IsProjectLine(o, t, b, resolutions, line) && line.name == name
  {
    forall line: ReportLine
      ensures line in ProjectLine(o, t, b, resolutions, name)
              <==> IsProjectLine(o, t, b, resolutions, line) && line.name == name
    {
      match line {
        case ProjectPushed(n) =>
        case ProjectPulled(n) =>
        case ProjectDeleted(n, side) =>
        case VarsChanged(n, diff) =>
        case ConnectionSynced(p) =>
      }
    }
  }

  lemma SettleProjectLine(lines: seq<ReportLine>, o: Projects, t: Projects, b: Projects,
                          resolutions: Resolutions, todo: set<string>, name: string)
    requires name in todo && todo <= o.Keys + t.Keys
    requires LinesOutside(lines, o, t, b, resolutions, todo)
    ensures LinesOutside(lines + ProjectLine(o, t, b, resolutions, name), o, t, b, resolutions, todo - {name})
  {
    LinesOfProject(o, t, b, resolutions, name);
    var more := ProjectLine(o, t, b, resolutions, name);
    forall line: ReportLine
      ensures line in lines + more
              <==> IsProjectLine(o, t, b, resolutions, line) && line.name !in todo - {name}
    {
      assert line in lines + more <==> line in lines || line in more;
    }
  }

  lemma SettleProjectDeletion(ds: seq<ProjectDeletion>, o: Projects, t: Projects, b: Projects,
                              todo: set<string>, name: string)
    requires name in todo && todo <= o.Keys + t.Keys
    requires DeletionsOutside(ds, o, t, b, todo)
    ensures DeletionsOutside(ds + ProjectDeletionOf(o, t, b, name), o, t, b, todo - {name})
  {
  }

  lemma SettleProjectConflicts(cs: seq<Conflict>, pushed: seq<Conflict>, o: Projects, t: Projects, b: Projects,
                               resolutions: Resolutions, todo: set<string>, name: string)
    requires name in todo && ProjectConflictsOutside(cs, o, t, b, resolutions, todo)
    requires if name in o && name in t
             then ListsVarConflicts(pushed, name, o[name].vars, t[name].vars, VarsIn(b, name), resolutions)
             else pushed == []
    ensures ProjectConflictsOutside(cs + pushed, o, t, b, resolutions, todo - {name})
  {
    NoDupConcat(cs, pushed);
  }

  /** Everything the project loop has built agrees with the specification outside `todo`. */
  ghost predicate ProjectsOutside(merged: Projects, lines: seq<ReportLine>, ds: seq<ProjectDeletion>, cs: seq<Conflict>,
                                  o: Projects, t: Projects, b: Projects, resolutions: Resolutions, todo: set<string>)
  {
    && todo <= o.Keys + t.Keys
    && AgreesOutside(merged, MergedProjects(o, t, b, resolutions), todo)
    && LinesOutside(lines, o, t, b, resolutions, todo)
    && DeletionsOutside(ds, o, t, b, todo)
    && ProjectConflictsOutside(cs, o, t, b, resolutions, todo)
  }

  lemma SettleScope(merged: Projects, lines: seq<ReportLine>, ds: seq<ProjectDeletion>, cs: seq<Conflict>,
                    pushed: seq<Conflict>, o: Projects, t: Projects, b: Projects, resolutions: Resolutions,
                    todo: set<string>, name: string)
    requires name in todo && ProjectsOutside(merged, lines, ds, cs, o, t, b, resolutions, todo)
    requires if name in o && name in t
             then ListsVarConflicts(pushed, name, o[name].vars, t[name].vars, VarsIn(b, name), resolutions)
             else pushed == []
    ensures
      var kept := Look(MergedProjects(o, t, b, resolutions), name);
      ProjectsOutside(if kept.Some? then merged[name := kept.value] else merged,
                      lines + ProjectLine(o, t, b, resolutions, name), ds + ProjectDeletionOf(o, t, b, name),
                      cs + pushed, o, t, b, resolutions, todo - {name})
  {
    SettleKey(merged, MergedProjects(o, t, b, resolutions), todo, name);
    SettleProjectLine(lines, o, t, b, resolutions, todo, name);
    SettleProjectDeletion(ds, o, t, b, todo, name);
    SettleProjectConflicts(cs, pushed, o, t, b, resolutions, todo, name);
  }

  /** The body of the per-project loop: the surviving project, its report line and its deletion, if any. */
  method MergeScope(name: string, o: Projects, t: Projects, b: Projects, log: MergeLog, resolutions: Resolutions)
    returns (kept: Option<Project>, lines: seq<ReportLine>, deletions: seq<ProjectDeletion>,
             ghost added: seq<Conflict>)
    requires name in o || name in t
    modifies log
    ensures kept == Look(MergedProjects(o, t, b, resolutions), name)
    ensures lines == ProjectLine(o, t, b, resolutions, name)
    ensures deletions == ProjectDeletionOf(o, t, b, name)
    ensures log.conflicts == old(log.conflicts) + added
    ensures if name in o && name in t
            then ListsVarConflicts(added, name, o[name].vars, t[name].vars, VarsIn(b, name), resolutions)
            else added == []
  {
    kept, lines, deletions, added := None, [], [], [];
    if name !in o || name !in t {
      if name !in b {
        kept := Some(if name in o then o[name] else t[name]);
        lines := [if name in o then ProjectPushed(name) else ProjectPulled(name)];
      } else {
        var side := if name in o then Peer else Here;
        deletions := [ProjectDeletion(name, side)];
        lines := [ProjectDeleted(name, side)];
      }
      return;
    }
    var vars;
    vars, added := MergeVarMaps(name, o[name].vars, t[name].vars, VarsIn(b, name), log, resolutions);
    kept := Some(Project(o[name].createdAt, vars));
    if vars != o[name].vars {
      lines := [VarsChanged(name, |vars| - |o[name].vars|)];
    }
    assert lines == VarsLine(name, o[name].vars, vars);
  }

  method MergeProjects(ours: Vault, theirs: Vault, base: Option<Vault>, log: MergeLog, resolutions: Resolutions)
    returns (merged: Projects, report: seq<ReportLine>, deletions: seq<ProjectDeletion>, ghost added: seq<Conflict>)
    modifies log
    ensures merged == MergedProjects(ours.projects, theirs.projects, BaseProjects(base), resolutions)
    ensures log.conflicts == old(log.conflicts) + added
    ensures NoDup(added)
    ensures forall c :: c in added
              <==> IsProjectConflict(ours.projects, theirs.projects, BaseProjects(base), resolutions, c)
    ensures forall line :: line in report
              <==> IsProjectLine(ours.projects, theirs.projects, BaseProjects(base), resolutions, line)
    ensures forall d :: d in deletions <==> IsDeletion(ours.projects, theirs.projects, BaseProjects(base), d)
    ensures NoDup(deletions)
  {
    merged, report, deletions, added := map[], [], [], [];
    var o, t, b := ours.projects, theirs.projects, BaseProjects(base);
    var scopes := o.Keys + t.Keys;
    while scopes != {}
      invariant log.conflicts == old(log.conflicts) + added
      invariant ProjectsOutside(merged, report, deletions, added, o, t, b, resolutions, scopes)
      decreases |scopes|
    {
      var name :| name in scopes;
      var kept, lines, gone, pushed := MergeScope(name, o, t, b, log, resolutions);
      SettleScope(merged, report, deletions, added, pushed, o, t, b, resolutions, scopes, name);
      if kept.Some? { merged := merged[name := kept.value]; }
      report := report + lines;
      deletions := deletions + gone;
      ConcatAssoc(old(log.conflicts), added, pushed);
      added := added + pushed;
      scopes := scopes - {name};
    }
  }

  ghost predicate ConnectionConflictsOutside(cs: seq<Conflict>, o: Connections, t: Connections, b: Connections,
                                             resolutions: Resolutions, todo: set<string>)
  {
    && NoDup(cs)
    && (forall c :: c in cs
          <==> IsConnectionConflict(o, t, b, resolutions, c) && c.scope[|CONNECTION_SCOPE|..] !in todo)
  }

  lemma SettleConnectionConflicts(cs: seq<Conflict>, pushed: seq<Conflict>, o: Connections, t: Connections,
                                  b: Connections, resolutions: Resolutions, todo: set<string>, provider: string)
    requires provider in todo && ConnectionConflictsOutside(cs, o, t, b, resolutions, todo)
    requires if provider in o && provider in t
             then ListsVarConflicts(pushed, CONNECTION_SCOPE + provider, o[provider].vars, t[provider].vars,
                                    ConnVarsIn(b, provider), resolutions)
             else pushed == []
    ensures ConnectionConflictsOutside(cs + pushed, o, t, b, resolutions, todo - {provider})
  {
    ScopeOfProvider(provider);
    var scope := CONNECTION_SCOPE + provider;
    assert scope[..|CONNECTION_SCOPE|] == CONNECTION_SCOPE && scope[|CONNECTION_SCOPE|..] == provider;
    NoDupConcat(cs, pushed);
  }

  /** The body of the per-provider loop. */
  method MergeProvider(provider: string, o: Connections, t: Connections, b: Connections, log: MergeLog,
                       resolutions: Resolutions)
    returns (kept: Connection, lines: seq<ReportLine>, ghost added: seq<Conflict>)
    requires provider in o || provider in t
    modifies log
    ensures kept == MergedConnection(o, t, b, resolutions, provider)
    ensures lines == if provider in o && provider in t then [] else [ConnectionSynced(provider)]
    ensures log.conflicts == old(log.conflicts) + added
    ensures if provider in o && provider in t
            then ListsVarConflicts(added, CONNECTION_SCOPE + provider, o[provider].vars, t[provider].vars,
                                   ConnVarsIn(b, provider), resolutions)
            else added == []
  {
    lines, added := [], [];
    if provider in o && provider in t {
      var vars;
      vars, added := MergeVarMaps(CONNECTION_SCOPE + provider, o[provider].vars, t[provider].vars,
                                  ConnVarsIn(b, provider), log, resolutions);
      kept := o[provider].(meta := t[provider].meta + o[provider].meta, vars := vars);
    } else {
      kept := if provider in o then o[provider] else t[provider];
      lines := [ConnectionSynced(provider)];
    }
  }

  method MergeConnections(ours: Vault, theirs: Vault, base: Option<Vault>, log: MergeLog, resolutions: Resolutions)
    returns (merged: Connections, report: seq<ReportLine>, ghost added: seq<Conflict>)
    modifies log
    ensures merged
            == MergedConnections(ConnectionsOf(ours), ConnectionsOf(theirs), BaseConnections(base), resolutions)
    ensures log.conflicts == old(log.conflicts) + added
    ensures NoDup(added)
    ensures forall c :: c in added
              <==> IsConnectionConflict(ConnectionsOf(ours), ConnectionsOf(theirs), BaseConnections(base),
                                        resolutions, c)
    ensures forall line :: line in report
              <==> line.ConnectionSynced?
                   && ((line.provider in ConnectionsOf(ours)) != (line.provider in ConnectionsOf(theirs)))
  {
    merged, report, added := map[], [], [];
    var o, t, b := ConnectionsOf(ours), ConnectionsOf(theirs), BaseConnections(base);
    ghost var spec := MergedConnections(o, t, b, resolutions);
    var providers := o.Keys + t.Keys;
    while providers != {}
      invariant providers <= o.Keys + t.Keys
      invariant AgreesOutside(merged, spec, providers)
      invariant log.conflicts == old(log.conflicts) + added
      invariant ConnectionConflictsOutside(added, o, t, b, resolutions, providers)
      invariant forall line :: line in report
                  <==> line.ConnectionSynced? && ((line.provider in o) != (line.provider in t))
                       && line.provider !in providers
      decreases |providers|
    {
      var provider :| provider in providers;
      SettleKey(merged, spec, providers, provider);
      var kept, lines, pushed := MergeProvider(provider, o, t, b, log, resolutions);
      merged := merged[provider := kept];
      report := report + lines;
      SettleConnectionConflicts(added, pushed, o, t, b, resolutions, providers, provider);
      ConcatAssoc(old(log.conflicts), added, pushed);
      added := added + pushed;
      providers := providers - {provider};
    }
  }

  /** A scope string names at most one provider. */
  lemma ScopeOfProvider(provider: string)
    ensures forall s: string :: |CONNECTION_SCOPE| <= |s| && s[..|CONNECTION_SCOPE|] == CONNECTION_SCOPE
              ==> (s[|CONNECTION_SCOPE|..] == provider <==> s == CONNECTION_SCOPE + provider)
  {
    var n := |CONNECTION_SCOPE|;
    forall s: string | n <= |s| && s[..n] == CONNECTION_SCOPE
      ensures s[n..] == provider <==> s == CONNECTION_SCOPE + provider
    {
      assert s == s[..n] + s[n..];
    }
  }

  method ThreeWayMerge(ours: Vault, theirs: Vault, base: Option<Vault>, resolutions: Resolutions)
    returns (r: MergeResult)
    ensures IsMerge(ours, theirs, base, resolutions, r)
  {
    var log := new MergeLog();
    var projects, projectReport, deletions, fromProjects := MergeProjects(ours, theirs, base, log, resolutions);
    var connections, connectionReport, fromConnections := MergeConnections(ours, theirs, base, log, resolutions);
    var merged := KeepDeviceLocal(
      Vault(projects, Some(connections), MergedPasskeys(ours, theirs, base), MergedApiKeys(ours, theirs, base),
            None, None),
      ours);
    r := MergeResult(merged, log.conflicts, projectReport + connectionReport, deletions);
  }
}
