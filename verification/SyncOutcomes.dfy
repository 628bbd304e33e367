/**
 What a sync answers, entry by entry, in terms of what the two sides and the base hold: the merge, a forced or
 answered sync, and what both machines, the stick and the stored bases are left with.
 */
module SyncOutcomes {
  import opened Wrappers
  import opened Vaults
  import opened Merge
  import opened MergeLaws
  import opened TwoPass
  import opened LanSync
  import opened UsbSync
  import opened FleetSyncs

  // ---------- the merge ----------

  predicate InBase(base: Option<Vault>, project: string) {
    base.Some? && project in base.value.projects
  }

  /**
   Every variable and every credential. A connection is never taken away; a project one side lacks is, if the
   base has it.
   */
  lemma MergedEntry(ours: Vault, theirs: Vault, base: Option<Vault>, answers: Resolutions, s: Slot)
    ensures
      var o, t, b := At(ours, s), At(theirs, s), AtBase(base, s);
      var m, id := At(MergedVault(ours, theirs, base, answers), s), ScopeOf(s) + "/" + s.key;
      if Shared(ours, theirs, s) then
        m == if o == t then o else if id in answers then answers[id] else if t == b then o
             else if o == b then t else None
      else
        m == if s.Variable? && InBase(base, s.project) then None else if o.Some? then o else t
  {
    MergedAt(ours, theirs, base, answers, s);
    if !Shared(ours, theirs, s) {
      match s
      case Variable(p, k) => MergedVal(ours.projects, theirs.projects, BaseProjects(base), answers, p, k);
      case Credential(p, k) =>
    }
  }

  /** A project that only one side has comes whole or not at all; one that both have keeps our creation stamp. */
  lemma MergedWhole(ours: Vault, theirs: Vault, base: Option<Vault>, answers: Resolutions, p: string)
    ensures
      var o, t, m := ours.projects, theirs.projects, MergedVault(ours, theirs, base, answers).projects;
      && (p in o && p in t ==> p in m && m[p].createdAt == o[p].createdAt)
      && (p in o && p !in t ==> Look(m, p) == if InBase(base, p) then None else Some(o[p]))
      && (p !in o && p in t ==> Look(m, p) == if InBase(base, p) then None else Some(t[p]))
      && (p !in o && p !in t ==> p !in m)
  {
  }

  /** A connection that only one side has comes whole; of one that both have our own fields and meta win. */
  lemma MergedConnectionWhole(ours: Vault, theirs: Vault, base: Option<Vault>, answers: Resolutions, p: string)
    ensures
      var o, t := ours.connections.GetOr(map[]), theirs.connections.GetOr(map[]);
      var m := MergedVault(ours, theirs, base, answers).connections;
      && m.Some?
      && (p in o && p !in t ==> p in m.value && m.value[p] == o[p])
      && (p !in o && p in t ==> p in m.value && m.value[p] == t[p])
      && (p !in o && p !in t ==> p !in m.value)
      && (p in o && p in t ==>
            && p in m.value && m.value[p].(meta := map[], vars := map[]) == o[p].(meta := map[], vars := map[])
            && forall k ::
                Look(m.value[p].meta, k) == if k in o[p].meta then Some(o[p].meta[k]) else Look(t[p].meta, k))
  {
  }

  /** Passkeys and API keys: ours if we changed them since the base, else theirs. Identity and peers: ours. */
  lemma MergedRest(ours: Vault, theirs: Vault, base: Option<Vault>, answers: Resolutions)
    ensures
      var m := MergedVault(ours, theirs, base, answers);
      var passkeys := if base.Some? then base.value.passkeys.GetOr([]) else [];
      var apiKeys := if base.Some? then base.value.apiKeys.GetOr(map[]) else map[];
      && m.passkeys == (if ours.passkeys.GetOr([]) == passkeys then theirs.passkeys else ours.passkeys)
      && m.apiKeys == (if ours.apiKeys.GetOr(map[]) == apiKeys then theirs.apiKeys else ours.apiKeys)
      && m.syncIdentity == ours.syncIdentity && m.syncPeers == ours.syncPeers
  {
  }

  /** The conflicts are the slots both sides changed to different entries and nobody answered. */
  lemma ConflictsListed(ours: Vault, theirs: Vault, base: Option<Vault>, answers: Resolutions, r: MergeResult,
                        c: Conflict)
    requires IsMerge(ours, theirs, base, answers, r)
    ensures c in r.conflicts
            <==> exists s :: && ClashesAt(ours, theirs, base, s) && ScopeOf(s) + "/" + s.key !in answers
                             && c == Conflict(ScopeOf(s), s.key, At(ours, s), At(theirs, s))
  {
    ConflictsAreClashes(ours, theirs, base, answers);
    forall s ensures ClashesAt(ours, theirs, base, s) && ScopeOf(s) + "/" + s.key !in answers
                     <==> Shared(ours, theirs, s) && SlotVerdict(ours, theirs, base, answers, s).Clash? {}
    if c in r.conflicts {
      var s :| && Shared(ours, theirs, s) && SlotVerdict(ours, theirs, base, answers, s).Clash?
               && c == ConflictAt(ours, theirs, s);
      assert ClashesAt(ours, theirs, base, s);
    }
  }

  /** The deletions are the projects of the base that one side no longer has, under the side that dropped them. */
  lemma DeletionsListed(ours: Vault, theirs: Vault, base: Option<Vault>, answers: Resolutions, r: MergeResult,
                        p: string)
    requires IsMerge(ours, theirs, base, answers, r)
    ensures ProjectDeletion(p, Here) in r.projectDeletions
            <==> InBase(base, p) && p !in ours.projects && p in theirs.projects
    ensures ProjectDeletion(p, Peer) in r.projectDeletions
            <==> InBase(base, p) && p in ours.projects && p !in theirs.projects
  {
  }

  /** What is reported: whole projects that come, go or are deleted, shared ones whose variables change here. */
  lemma LinesListed(ours: Vault, theirs: Vault, base: Option<Vault>, answers: Resolutions, r: MergeResult, p: string)
    requires IsMerge(ours, theirs, base, answers, r)
    ensures
      var o, t := ours.projects, theirs.projects;
      var oc, tc := ours.connections.GetOr(map[]), theirs.connections.GetOr(map[]);
      && (ProjectPushed(p) in r.report <==> p in o && p !in t && !InBase(base, p))
      && (ProjectPulled(p) in r.report <==> p !in o && p in t && !InBase(base, p))
      && (ProjectDeleted(p, Here) in r.report <==> p !in o && p in t && InBase(base, p))
      && (ProjectDeleted(p, Peer) in r.report <==> p in o && p !in t && InBase(base, p))
      && (ConnectionSynced(p) in r.report <==> ((p in oc) != (p in tc)))
      && (forall diff :: VarsChanged(p, diff) in r.report
            <==> && p in o && p in t && r.merged.projects[p].vars != o[p].vars
                 && diff == |r.merged.projects[p].vars| - |o[p].vars|)
  {
    var lines := r.report;
    assert forall line :: line in lines <==> IsLine(ours, theirs, base, answers, line);
    MergedWhole(ours, theirs, base, answers, p);
  }

  // ---------- forced and answered syncs ----------

  /** The entry of the side that was picked, which may be none. */
  lemma AnsweredEntry(x: Inputs, cs: seq<Conflict>, choices: seq<Choice>, i: nat, s: Slot)
    requires Lists(cs, x.local, x.remote, x.base) && |cs| == |choices| && KeysSeparate(x.local, x.remote, x.base, cs)
    requires i < |cs| && ClashesAt(x.local, x.remote, x.base, s)
    requires cs[i] == Conflict(ScopeOf(s), s.key, At(x.local, s), At(x.remote, s))
    ensures At(MergedVault(x.local, x.remote, x.base, Collected(cs, choices)), s)
            == if choices[i].Theirs? then At(x.remote, s) else At(x.local, s)
  {
    SeparateKeysSuffice(x.local, x.remote, x.base, cs, choices);
    assert cs[i] == ConflictAt(x.local, x.remote, s);
  }

  /** Forcing a side: every slot in conflict ends as that side has it, every other as it would unforced. */
  lemma ForcedEntry(x: Inputs, force: Choice, answers: Resolutions, probed: seq<Conflict>, s: Slot)
    requires Forced(x, Some(force), answers, probed) && KeysSeparate(x.local, x.remote, x.base, probed)
    ensures
      var m := At(MergedVault(x.local, x.remote, x.base, answers), s);
      if ClashesAt(x.local, x.remote, x.base, s) then m == if force == Theirs then At(x.remote, s) else At(x.local, s)
      else m == At(MergedVault(x.local, x.remote, x.base, NONE), s)
  {
    var choices := seq(|probed|, _ => force);
    SeparateKeysSuffice(x.local, x.remote, x.base, probed, choices);
    if ClashesAt(x.local, x.remote, x.base, s) {
      ConflictsAreClashes(x.local, x.remote, x.base, NONE);
      assert ConflictAt(x.local, x.remote, s) in probed;
      var i :| 0 <= i < |probed| && probed[i] == ConflictAt(x.local, x.remote, s);
      AnsweredEntry(x, probed, choices, i, s);
    }
  }

  /** The command line asks about each conflict; its slot ends as the side named in the answer. */
  lemma AskedEntry(x: Inputs, ask: Conflict -> Choice, answers: Resolutions, probed: seq<Conflict>, s: Slot)
    requires Asked(x, ask, answers, probed) && KeysSeparate(x.local, x.remote, x.base, probed)
    requires ClashesAt(x.local, x.remote, x.base, s)
    ensures At(MergedVault(x.local, x.remote, x.base, answers), s)
            == if ask(Conflict(ScopeOf(s), s.key, At(x.local, s), At(x.remote, s))).Theirs? then At(x.remote, s)
               else At(x.local, s)
  {
    ConflictsAreClashes(x.local, x.remote, x.base, NONE);
    assert ConflictAt(x.local, x.remote, s) in probed;
    var i :| 0 <= i < |probed| && probed[i] == ConflictAt(x.local, x.remote, s);
    AnsweredEntry(x, probed, seq(|probed|, i requires 0 <= i < |probed| => ask(probed[i])), i, s);
  }

  // ---------- the gates ----------

  /** A sync writes only without open conflicts, without deletions unless they are allowed, and with approval. */
  lemma GatesIff(x: Inputs, answers: Resolutions, answered: bool, allowDeletes: bool, approved: bool,
                 stop: Option<Gate>)
    requires GateStops(x, answers, answered, allowDeletes, approved, stop)
    ensures stop == Some(ConflictsFound)
            <==> !answered && exists s :: && ClashesAt(x.local, x.remote, x.base, s)
                                          && ScopeOf(s) + "/" + s.key !in answers
    ensures stop == Some(DeletesNotAllowed) ==> !allowDeletes
    ensures stop == Some(NotApproved) ==> !approved
    ensures stop == None ==> approved
    ensures stop == None || stop == Some(NotApproved) ==>
              allowDeletes || forall p :: InBase(x.base, p) ==> (p in x.local.projects <==> p in x.remote.projects)
    ensures stop == Some(DeletesNotAllowed) ==>
              exists p :: InBase(x.base, p) && (p in x.local.projects) != (p in x.remote.projects)
  {
    var o, t, b := x.local.projects, x.remote.projects, BaseProjects(x.base);
    ConflictsAreClashes(x.local, x.remote, x.base, answers);
    forall s ensures ClashesAt(x.local, x.remote, x.base, s) && ScopeOf(s) + "/" + s.key !in answers
                     <==> Shared(x.local, x.remote, s) && SlotVerdict(x.local, x.remote, x.base, answers, s).Clash? {}
    forall p | InBase(x.base, p) && (p in o) != (p in t) ensures exists d :: IsDeletion(o, t, b, d) {
      assert IsDeletion(o, t, b, ProjectDeletion(p, if p in o then Peer else Here));
    }
    if stop == Some(DeletesNotAllowed) {
      var d :| IsDeletion(o, t, b, d);
      assert InBase(x.base, d.project);
    }
  }

  // ---------- what travels ----------

  /** Identity and peers stay behind, everything else goes; what comes in keeps the machine's own. */
  lemma Travels(v: Vault, local: Vault)
    ensures WithoutDeviceLocal(v) == Vault(v.projects, v.connections, v.passkeys, v.apiKeys, None, None)
    ensures KeepDeviceLocal(v, local)
            == Vault(v.projects, v.connections, v.passkeys, v.apiKeys, local.syncIdentity, local.syncPeers)
    ensures Loaded(v).projects == v.projects && Loaded(v).passkeys == v.passkeys && SameOwn(Loaded(v), v)
    ensures Loaded(v).connections == Some(if v.connections.Some? then v.connections.value else map[])
    ensures Loaded(v).apiKeys == Some(if v.apiKeys.Some? then v.apiKeys.value else map[])
  {
  }

  // ---------- what a LAN sync leaves ----------

  /** All that travels. */
  predicate SameShared(a: Vault, b: Vault) {
    a.projects == b.projects && a.connections == b.connections && a.passkeys == b.passkeys && a.apiKeys == b.apiKeys
  }

  predicate SameOwn(a: Vault, b: Vault) {
    a.syncIdentity == b.syncIdentity && a.syncPeers == b.syncPeers
  }

  /** The base of one peer is that vault without identity and peers; every other base is as it was. */
  ghost predicate OnlyBase(before: Bases, after: Bases, id: string, v: Vault) {
    && id in after && SameShared(after[id], v) && after[id].syncIdentity.None? && after[id].syncPeers.None?
    && forall other :: other != id ==> Look(after, other) == Look(before, other)
  }

  /** A sync with something to report that went through: both machines and both bases hold the merge. */
  lemma LanLeavesAlike(x: Inputs, answers: Resolutions, client: string, host: string, c: Stored, h: Stored,
                       c': Stored, h': Stored)
    requires client != "" && host != "" && x == InputsOf(c.vault, c.bases, h.vault, host)
    requires LanWrites(x, answers, Synced(true), client, host, c, h, c', h')
    ensures SameShared(c'.vault, MergedVault(x.local, x.remote, x.base, answers)) && SameShared(h'.vault, c'.vault)
    ensures SameOwn(c'.vault, c.vault) && SameOwn(h'.vault, h.vault)
    ensures OnlyBase(c.bases, c'.bases, "lan:" + host, c'.vault)
    ensures OnlyBase(h.bases, h'.bases, "lan:" + client, c'.vault)
  {
  }

  /** With nothing to report both end with our vault as it was, and with it as their base. */
  lemma LanLeavesOurs(x: Inputs, answers: Resolutions, client: string, host: string, c: Stored, h: Stored,
                      c': Stored, h': Stored)
    requires client != "" && host != "" && x == InputsOf(c.vault, c.bases, h.vault, host)
    requires LanWrites(x, answers, Synced(false), client, host, c, h, c', h')
    ensures c'.vault == c.vault && SameShared(h'.vault, Loaded(c.vault)) && SameOwn(h'.vault, h.vault)
    ensures OnlyBase(c.bases, c'.bases, "lan:" + host, Loaded(c.vault))
    ensures OnlyBase(h.bases, h'.bases, "lan:" + client, Loaded(c.vault))
  {
  }

  /** Whatever was forced: the variables in conflict end as the forced side has them, wherever they are written. */
  lemma LanForcedEntry(x: Inputs, force: Choice, answers: Resolutions, probed: seq<Conflict>, outcome: LanOutcome,
                       client: string, host: string, c: Stored, h: Stored, c': Stored, h': Stored, s: Slot)
    requires x == InputsOf(c.vault, c.bases, h.vault, host)
    requires Forced(x, Some(force), answers, probed) && KeysSeparate(x.local, x.remote, x.base, probed)
    requires LanWrites(x, answers, outcome, client, host, c, h, c', h')
    requires ClashesAt(x.local, x.remote, x.base, s) && (s.Variable? || outcome.changed)
    ensures At(c'.vault, s) == if force == Theirs then At(h.vault, s) else At(c.vault, s)
    ensures outcome.Synced? ==> At(h'.vault, s) == At(c'.vault, s)
  {
    ForcedEntry(x, force, answers, probed, s);
    GatesPassed(x, answers);
  }

  /** Without the permission to delete, a sync that passes the gates drops no project of either machine. */
  lemma LanDropsNoProject(x: Inputs, answers: Resolutions, answered: bool, approved: bool, outcome: LanOutcome,
                          client: string, host: string, c: Stored, h: Stored, c': Stored, h': Stored)
    requires x == InputsOf(c.vault, c.bases, h.vault, host)
    requires GateStops(x, answers, answered, false, approved, None)
    requires LanWrites(x, answers, outcome, client, host, c, h, c', h')
    ensures c'.vault.projects.Keys == if outcome.changed then c.vault.projects.Keys + h.vault.projects.Keys
                                      else c.vault.projects.Keys
    ensures h.vault.projects.Keys <= h'.vault.projects.Keys
  {
    NoDeletionKeepsAll(x, answers);
    GatesPassed(x, answers);
  }

  lemma NoDeletionKeepsAll(x: Inputs, answers: Resolutions)
    requires forall d :: !IsDeletion(x.local.projects, x.remote.projects, BaseProjects(x.base), d)
    ensures MergedVault(x.local, x.remote, x.base, answers).projects.Keys
            == x.local.projects.Keys + x.remote.projects.Keys
  {
    forall p ensures p in MergedVault(x.local, x.remote, x.base, answers).projects
                     <==> p in x.local.projects.Keys + x.remote.projects.Keys {
      Presence(x.local.projects, x.remote.projects, BaseProjects(x.base), answers, p);
    }
  }

  /** A host that does not allow deletions keeps every project it has. */
  lemma HostKeepsProjects(hostVault: Vault, sent: Vault, hostApproves: bool)
    requires HostAccepts(hostVault, sent, false, hostApproves)
    ensures hostApproves && hostVault.projects.Keys <= sent.projects.Keys
  {
    assert forall p :: p in hostVault.projects.Keys - sent.projects.Keys
                       <==> p in hostVault.projects && p !in sent.projects;
  }

  // ---------- credentials, which the report does not list ----------

  /**
   With nothing to report both machines end with our credentials. That is what the merge made of them exactly
   if the two agreed or we changed ours: a credential that was changed on the host only is overwritten.
   */
  lemma QuietPushOverCredentials(x: Inputs, client: string, host: string, c: Stored, h: Stored, c': Stored,
                                 h': Stored, s: Slot)
    requires x == InputsOf(c.vault, c.bases, h.vault, host) && s.Credential?
    requires LanWrites(x, NONE, Synced(false), client, host, c, h, c', h')
    ensures At(h'.vault, s) == At(c'.vault, s) == At(c.vault, s)
    ensures At(h'.vault, s) == At(MergedVault(x.local, x.remote, x.base, NONE), s)
            <==> At(c.vault, s) == At(h.vault, s) || At(c.vault, s) != AtBase(x.base, s)
  {
    MergedEntry(x.local, x.remote, x.base, NONE, s);
    assert !IsLine(x.local, x.remote, x.base, NONE, ConnectionSynced(s.provider));
    ConflictsAreClashes(x.local, x.remote, x.base, NONE);
  }

  // ---------- what a USB sync leaves ----------

  /** A refreshed bundle holds the merge under the lineage it had; only one without any gets the minted one. */
  lemma UsbLeavesAlike(answers: Resolutions, minted: string, vault0: Vault, bases0: Bases, file: BundleFile,
                       vault: Vault, bases: Bases, latest: Option<BundleFile>)
    requires UsbResult(Refreshed, answers, minted, vault0, bases0, file, vault, bases, latest)
    ensures latest.Some? && latest.value.lineageId == if file.lineageId.Some? then file.lineageId else Some(minted)
    ensures
      var x := UsbInputs(vault0, bases0, file);
      && SameShared(vault, MergedVault(x.local, file.vault, x.base, answers)) && SameOwn(vault, vault0)
      && SameShared(latest.value.vault, vault)
      && latest.value.vault.syncIdentity.None? && latest.value.vault.syncPeers.None?
    ensures latest.value.lineageId != Some("") ==> OnlyBase(bases0, bases, "usb:" + latest.value.lineageId.value, vault)
  {
  }

  /** With nothing to report the stick and the vault stay as they are and the base becomes our vault. */
  lemma UsbLeavesOurs(answers: Resolutions, minted: string, vault0: Vault, bases0: Bases, file: BundleFile,
                      vault: Vault, bases: Bases, latest: Option<BundleFile>)
    requires UsbResult(AlreadyInSync, answers, minted, vault0, bases0, file, vault, bases, latest)
    ensures vault == vault0 && latest == Some(file)
    ensures if file.lineageId.None? || file.lineageId == Some("") then bases == bases0
            else OnlyBase(bases0, bases, "usb:" + file.lineageId.value, Loaded(vault0))
  {
  }

  /** So whatever any other machine stored for this stick is still found under it. */
  lemma OtherBasesStillFound(outcome: UsbOutcome, answers: Resolutions, minted: string, vault0: Vault, bases0: Bases,
                             file: BundleFile, vault: Vault, bases: Bases, latest: Option<BundleFile>, others: Bases)
    requires UsbResult(outcome, answers, minted, vault0, bases0, file, vault, bases, latest) && file.lineageId.Some?
    ensures latest.Some? && StoredBase(others, UsbPeerId(latest.value.lineageId))
                            == StoredBase(others, UsbPeerId(file.lineageId))
  {
  }

  lemma UsbForcedEntry(force: Choice, answers: Resolutions, probed: seq<Conflict>, outcome: UsbOutcome, minted: string,
                       vault0: Vault, bases0: Bases, file: BundleFile, vault: Vault, bases: Bases,
                       latest: Option<BundleFile>, s: Slot)
    requires outcome == Refreshed || (outcome == AlreadyInSync && s.Variable?)
    requires UsbResult(outcome, answers, minted, vault0, bases0, file, vault, bases, latest)
    requires Forced(UsbInputs(vault0, bases0, file), Some(force), answers, probed)
    requires
      var x := UsbInputs(vault0, bases0, file);
      KeysSeparate(x.local, x.remote, x.base, probed) && ClashesAt(x.local, x.remote, x.base, s)
    ensures At(vault, s) == if force == Theirs then At(file.vault, s) else At(vault0, s)
    ensures outcome == Refreshed ==> At(latest.value.vault, s) == At(vault, s)
  {
    var x := UsbInputs(vault0, bases0, file);
    ForcedEntry(x, force, answers, probed, s);
    GatesPassed(x, answers);
  }

  lemma UsbDropsNoProject(answers: Resolutions, answered: bool, approved: bool, minted: string, vault0: Vault,
                          bases0: Bases, file: BundleFile, vault: Vault, bases: Bases, latest: Option<BundleFile>)
    requires UsbResult(Refreshed, answers, minted, vault0, bases0, file, vault, bases, latest)
    requires GateStops(UsbInputs(vault0, bases0, file), answers, answered, false, approved, None)
    ensures vault.projects.Keys == vault0.projects.Keys + file.vault.projects.Keys
  {
    NoDeletionKeepsAll(UsbInputs(vault0, bases0, file), answers);
  }
}
