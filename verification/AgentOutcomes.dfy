/** What the agent's requests come to, in terms of what was asked before and what the vault file holds. */
module AgentOutcomes {
  import opened Wrappers
  import opened Vaults
  import opened Grants
  import opened AgentStates
  import opened Agents
  import opened AgentRuns
  import Text

  // ---------- one request ----------

  /** Programs other than the abra CLI learn the status and may lock; nothing else is done or answered for them. */
  lemma StrangersGetNothing(r: Rules, v: Snapshot, a: Ask, res: Response)
    requires !a.authorized && Answers(r, v, a, res) && !a.req.GetStatus? && !a.req.LockNow?
    ensures res == Failed(ForbiddenPeer) && After(r, v, a) == v
  {
  }

  /** A pushed key is taken exactly for the agent's own passphrase vault, if it opens that or there is no file yet. */
  lemma UnlockKeyIff(r: Rules, v: Snapshot, a: Ask, res: Response)
    requires a.req.UnlockKey? && Answers(r, v, a, res)
    ensures res == Done
            <==> && a.authorized && r.backend == "passphrase-file"
                 && a.req.binding.path == r.vaultPath && r.vaultPath != "" && a.req.binding.backend == r.backend
                 && a.req.decoded.Some? && |a.req.decoded.value| == 32
                 && (v.file == Absent || exists vault :: v.file == Encrypted(a.req.decoded.value, vault))
  {
    if v.file.Encrypted? && a.req.decoded.Some? && v.file.key == a.req.decoded.value {
      assert v.file == Encrypted(a.req.decoded.value, v.file.vault);
    }
  }

  /** A vault request is refused for a wrong binding first, and then for a key that is not there or too old. */
  lemma VaultRefusals(r: Rules, v: Snapshot, a: Ask, res: Response)
    requires a.authorized && (a.req.VaultLoad? || a.req.VaultSave?) && a.now <= a.later && Answers(r, v, a, res)
    ensures res == Failed(Mismatch)
            <==> !(a.req.binding == Binding(r.vaultPath, r.backend) && r.vaultPath != "" && r.backend != "")
    ensures res == Failed(AgentLocked) ==>
              v.held.key.None? || (r.maxAgeMs > 0.0 && a.later >= v.held.unlockedAt + r.maxAgeMs)
    ensures res != Failed(Mismatch)
            && (v.held.key.None? || (r.maxAgeMs > 0.0 && a.now >= v.held.unlockedAt + r.maxAgeMs)) ==>
              res == Failed(AgentLocked)
    ensures res == SavedVault || res.LoadedVault? || res == Empty || (res == Failed(Internal) && a.req.VaultLoad?)
            || res == Failed(AgentLocked) || res == Failed(Mismatch)
  {
  }

  /** A grant request is refused while there is no key or it is too old, whatever it asks. */
  lemma GrantRefusals(r: Rules, v: Snapshot, a: Ask, res: Response)
    requires a.authorized && (a.req.GrantAdd? || a.req.GrantList? || a.req.GrantRevoke? || a.req.GrantCheck?)
    requires Answers(r, v, a, res)
    ensures res == Failed(AgentLocked)
            <==> v.held.key.None? || (r.maxAgeMs > 0.0 && a.now >= v.held.unlockedAt + r.maxAgeMs)
  {
  }

  /** Within its age an accepted key loads what the file holds. */
  lemma UnlockedKeyLoads(r: Rules, v: Snapshot, a: Ask, res: Response, load: Ask, loaded: Response)
    requires a.req.UnlockKey? && Answers(r, v, a, res) && res == Done
    requires a.now <= a.later <= load.now <= load.later
    requires r.maxAgeMs > 0.0 ==> load.later < a.now + r.maxAgeMs
    requires load.req == VaultLoad(Binding(r.vaultPath, r.backend)) && load.authorized
    requires Answers(r, After(r, v, a), load, loaded)
    ensures !v.file.Corrupt?
    ensures loaded == if v.file.Absent? then Empty
                      else LoadedVault(v.file.vault.(connections := Some(v.file.vault.connections.GetOr(map[])),
                                                     apiKeys := Some(v.file.vault.apiKeys.GetOr(map[]))))
  {
  }

  /** What was saved is what is loaded next, within the age of the key. */
  lemma SavedVaultLoads(r: Rules, v: Snapshot, a: Ask, res: Response, load: Ask, loaded: Response)
    requires a.req.VaultSave? && Answers(r, v, a, res) && res == SavedVault
    requires a.now <= a.later <= load.now <= load.later
    requires r.maxAgeMs > 0.0 ==> load.later < v.held.unlockedAt + r.maxAgeMs
    requires load.req == VaultLoad(Binding(r.vaultPath, r.backend)) && load.authorized
    requires Answers(r, After(r, v, a), load, loaded)
    ensures loaded == LoadedVault(a.req.vault.(connections := Some(a.req.vault.connections.GetOr(map[])),
                                               apiKeys := Some(a.req.vault.apiKeys.GetOr(map[]))))
  {
  }

  /** Nothing moves the absolute deadline of a key, and only `unlock` and vault requests move the idle one. */
  lemma OnlyVaultRequestsExtend(r: Rules, v: Snapshot, a: Ask)
    requires After(r, v, a).held.key.Some? && !a.req.UnlockKey?
    ensures v.held.key == After(r, v, a).held.key && After(r, v, a).held.unlockedAt == v.held.unlockedAt
    ensures After(r, v, a).held.lastActivityAt
            == if a.authorized && (a.req.Unlock?
                                   || ((a.req.VaultLoad? || a.req.VaultSave?)
                                       && a.req.binding == Binding(r.vaultPath, r.backend)
                                       && r.vaultPath != "" && r.backend != ""))
               then a.now else v.held.lastActivityAt
  {
  }

  /** `lock`, from anybody and at any time, leaves no key and no grant. */
  lemma LockTakesAll(r: Rules, v: Snapshot, a: Ask, res: Response)
    requires a.req.LockNow? && Answers(r, v, a, res)
    ensures res == Done && After(r, v, a).held.key == None && After(r, v, a).file == v.file
    ensures forall t, g :: !Live(After(r, v, a).held.log, t, g)
  {
    HeldNext(v.held.log, Cleared);
  }

  /** A pushed key leaves the grants as they are, even if it replaces another. */
  lemma PushedKeyKeepsGrants(r: Rules, v: Snapshot, a: Ask)
    requires a.req.UnlockKey? && After(r, v, a).held.key.Some?
    ensures After(r, v, a).held.log == v.held.log && After(r, v, a).file == v.file
  {
  }

  /** The status is locked from the absolute deadline on; before, it is the time left. */
  lemma StatusTells(r: Rules, v: Snapshot, a: Ask, res: Response)
    requires a.req.GetStatus? && Answers(r, v, a, res)
    ensures res.StatusIs?
    ensures res.status == Locked
            <==> v.held.key.None? || (r.maxAgeMs > 0.0 && a.now >= v.held.unlockedAt + r.maxAgeMs)
    ensures res.status.Unlocked? && a.now <= v.held.lastActivityAt + r.idleMs ==>
              a.now + res.status.idleRemainingMs == v.held.lastActivityAt + r.idleMs
    ensures res.status.Unlocked? && r.maxAgeMs > 0.0 ==>
              a.now + res.status.maxAgeRemainingMs == v.held.unlockedAt + r.maxAgeMs
  {
  }

  // ---------- what gives and takes grants ----------

  /** A grant comes from the abra CLI, asked for while a key is held, for a minute up to eight hours. */
  lemma GivesIff(r: Rules, v: Snapshot, c: Command, g: Grant)
    ensures Logged(r, v, c) == Some(Added(g))
            <==> && c.Asked? && c.ask.authorized && c.ask.req.GrantAdd? && v.held.key.Some? && !Locks(r, v, c)
                 && c.ask.req.ttlSeconds.Some? && 60.0 <= c.ask.req.ttlSeconds.value <= 28800.0
                 && !Text.Blank(c.ask.req.project) && c.ask.req.caller.Some? && c.ask.req.caller.value.exe != ""
                 && g == Grant(c.ask.newId, Text.Trim(c.ask.req.project), c.ask.req.caller.value, c.ask.now,
                               c.ask.now + 1000.0 * c.ask.req.ttlSeconds.value)
  {
    if c.Asked? && c.ask.req.GrantAdd? {
      AddableIff(c.ask.req.project, c.ask.req.caller, c.ask.req.ttlSeconds);
    }
  }

  ghost predicate Takes(r: Rules, v: Snapshot, c: Command, id: string) {
    Logged(r, v, c).Some? && Ends(Logged(r, v, c).value, id)
  }

  /** It is taken by a lock, by revoking all or just it, or by a new grant that drew the same id. */
  lemma TakesIff(r: Rules, v: Snapshot, c: Command, id: string)
    ensures Takes(r, v, c, id)
            <==> || Locks(r, v, c)
                 || (&& c.Asked? && c.ask.authorized && v.held.key.Some? && c.ask.req.GrantRevoke?
                     && (c.ask.req.all || (c.ask.req.grantId == Some(id) && id != "")))
                 || exists g :: Logged(r, v, c) == Some(Added(g)) && g.id == id
  {
    if Logged(r, v, c).Some? && Logged(r, v, c).value.Added? {
      assert Logged(r, v, c) == Some(Added(Logged(r, v, c).value.grant));
    }
  }

  /** A revocation that was served: the key was held, and nothing locked. */
  lemma ServedRevocation(r: Rules, v: Snapshot, c: Command, res: Response)
    requires c.Asked? && c.ask.authorized && c.ask.req.GrantRevoke?
    requires Answers(r, v, c.ask, res) && res.RevokedCount?
    ensures v.held.key.Some? && (c.ask.req.all || c.ask.req.grantId.Some?)
    ensures c.ask.req.all ==> forall id :: Takes(r, v, c, id)
    ensures !c.ask.req.all ==> Takes(r, v, c, c.ask.req.grantId.value)
  {
    forall id | c.ask.req.all || c.ask.req.grantId == Some(id) ensures Takes(r, v, c, id) {
      TakesIff(r, v, c, id);
    }
  }

  /** After a served revoke-all no check is granted until a grant is added again, whatever comes between. */
  lemma RevokeAllEnds(r: Rules, v: Snapshot, cmds: seq<Command>, from: Time, i: nat, revoked: Response,
                      a: Ask, res: Response)
    requires Timely(from, cmds) && Fresh(v) && i < |cmds|
    requires cmds[i].Asked? && cmds[i].ask.authorized && cmds[i].ask.req.GrantRevoke? && cmds[i].ask.req.all
    requires Answers(r, Run(r, v, cmds[..i]), cmds[i].ask, revoked) && revoked.RevokedCount?
    requires forall m :: i < m < |cmds| ==> !(cmds[m].Asked? && cmds[m].ask.req.GrantAdd?)
    requires a.req.GrantCheck? && Answers(r, Run(r, v, cmds), a, res)
    ensures !(res.Checked? && res.result.Granted?)
  {
    ServedRevocation(r, Run(r, v, cmds[..i]), cmds[i], revoked);
    if a.authorized {
      CheckIff(r, v, cmds, from, a, res);
      forall j: nat, g ensures !GivenBy(r, v, cmds, j, g) {
        NotGivenAcross(r, v, cmds, i, j, g);
      }
    }
  }

  /** No grant is in force across a command that takes it. */
  lemma NotGivenAcross(r: Rules, v: Snapshot, cmds: seq<Command>, i: nat, j: nat, g: Grant)
    requires i < |cmds| && Takes(r, Run(r, v, cmds[..i]), cmds[i], g.id)
    requires !(cmds[i].Asked? && cmds[i].ask.req.GrantAdd?)
    requires forall m :: i < m < |cmds| ==> !(cmds[m].Asked? && cmds[m].ask.req.GrantAdd?)
    ensures !GivenBy(r, v, cmds, j, g)
  {
    if j < |cmds| && Logged(r, Run(r, v, cmds[..j]), cmds[j]) == Some(Added(g)) {
      GivesIff(r, Run(r, v, cmds[..j]), cmds[j], g);
    }
  }

  /** Nor is a grant given before it was revoked by its id. */
  lemma RevokedIsGone(r: Rules, v: Snapshot, cmds: seq<Command>, i: nat, revoked: Response, j: nat, g: Grant)
    requires i < |cmds| && cmds[i].Asked? && cmds[i].ask.authorized && cmds[i].ask.req.GrantRevoke?
    requires Answers(r, Run(r, v, cmds[..i]), cmds[i].ask, revoked) && revoked.RevokedCount?
    requires GivenBy(r, v, cmds, j, g) && j < i
    ensures !cmds[i].ask.req.all && cmds[i].ask.req.grantId != Some(g.id)
  {
    ServedRevocation(r, Run(r, v, cmds[..i]), cmds[i], revoked);
  }
}
