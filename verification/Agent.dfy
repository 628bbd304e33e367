/** The vault agent's request handler over its key and its grants (src/agent/server.ts). */
module Agents {
  import opened Wrappers
  import opened Vaults
  import opened Grants
  import opened AgentStates
  import Bytes

  /** What the client says it works on; the path is resolved, and empty if none was given. */
  datatype Binding = Binding(path: string, backend: string)

  datatype Request =
    | GetStatus
    | Unlock
    | UnlockKey(binding: Binding, decoded: Option<seq<Bytes.Byte>>)
    | LockNow
    | VaultLoad(binding: Binding)
    | VaultSave(binding: Binding, vault: Vault)
    | GrantAdd(project: string, caller: Option<Caller>, ttlSeconds: Option<real>)
    | GrantList
    | GrantRevoke(grantId: Option<string>, all: bool)
    | GrantCheck(target: string, exact: Caller)

  datatype Code = AgentLocked | Unavailable | Mismatch | ForbiddenPeer | BadRequest | Internal

  datatype Response =
    | Failed(code: Code)
    | StatusIs(status: Status)
    | Done
    | AwaitsKeystore
    | Empty
    | LoadedVault(vault: Vault)
    | SavedVault
    | AddedGrant(grant: Grant)
    | GrantItems(items: seq<ListItem>)
    | RevokedCount(n: nat)
    | Checked(result: CheckResult)

  /** The vault file: authenticated encryption opens with the key it was written under and no other. */
  datatype VaultFile = Absent | Corrupt | Encrypted(key: seq<Bytes.Byte>, vault: Vault)

  /** Everything but `status`, which says no secret, and `lock`, which only takes access away. */
  predicate Sensitive(req: Request) {
    !req.GetStatus? && !req.LockNow?
  }

  // ---------- what a request does and answers, as a function of what it finds ----------

  datatype Rules = Rules(idleMs: Time, maxAgeMs: Time, vaultPath: string, backend: string)

  datatype Snapshot = Snapshot(held: Holding, file: VaultFile)

  /** A request, whether its peer was found to be the abra CLI, and the readings of chance and clock it uses. */
  datatype Ask = Ask(req: Request, authorized: bool, newId: string, now: Time, later: Time)

  predicate Bound(r: Rules, b: Binding) {
    b.path != "" && b.path == r.vaultPath && b.backend != "" && b.backend == r.backend
  }

  /** A pushed key is taken only for this agent's own passphrase vault, and only if it opens the file. */
  predicate KeyFits(r: Rules, file: VaultFile, binding: Binding, decoded: Option<seq<Bytes.Byte>>) {
    && r.backend == "passphrase-file" && Bound(r, binding) && decoded.Some? && |decoded.value| == 32
    && (file.Absent? || (file.Encrypted? && file.key == decoded.value))
  }

  /** After a vault request: an agent that is unlocked counts it as activity, and reads the clock again for the key. */
  function AfterVaultRequest(r: Rules, v: Snapshot, b: Binding, needsKey: bool, now: Time, later: Time): Snapshot {
    if !Bound(r, b) then v
    else
      var u := Touched(Aged(r.maxAgeMs, v.held, now), now);
      v.(held := if needsKey then Aged(r.maxAgeMs, u, later) else u)
  }

  function AfterGrantRequest(r: Rules, v: Holding, a: Ask): Holding {
    var u := Aged(r.maxAgeMs, v, a.now);
    if u.key.None? then u
    else if a.req.GrantAdd? && Addable(a.req.project, a.req.caller, a.req.ttlSeconds) then
      u.(log := u.log
                + [Added(NewGrant(a.newId, a.req.project, a.req.caller.value, a.req.ttlSeconds.value, a.now))])
    else if a.req.GrantRevoke? && RevokeEntry(a.req.grantId, a.req.all).Some? then
      u.(log := u.log + [RevokeEntry(a.req.grantId, a.req.all).value])
    else u
  }

  function After(r: Rules, v: Snapshot, a: Ask): Snapshot {
    if Sensitive(a.req) && !a.authorized then v
    else
      match a.req
      case GetStatus => v.(held := Aged(r.maxAgeMs, v.held, a.now))
      case Unlock => v.(held := Touched(Aged(r.maxAgeMs, v.held, a.now), a.now))
      case UnlockKey(binding, decoded) =>
        if !KeyFits(r, v.file, binding, decoded) then v
        else v.(held := AfterUnlock(r.maxAgeMs, v.held.log, decoded.value, a.now, a.later))
      case LockNow => v.(held := AfterLock(v.held))
      case VaultLoad(binding) => AfterVaultRequest(r, v, binding, !v.file.Absent?, a.now, a.later)
      case VaultSave(binding, vault) =>
        var u := AfterVaultRequest(r, v, binding, true, a.now, a.later);
        if Bound(r, binding) && Usable(r.maxAgeMs, v.held, a.later)
        then u.(file := Encrypted(v.held.key.value, vault)) else u
      case _ => v.(held := AfterGrantRequest(r, v.held, a))
  }

  /** The answer: what is wrong, in the order it is checked, or what was asked for. */
  ghost predicate Answers(r: Rules, v: Snapshot, a: Ask, res: Response) {
    var usable := Usable(r.maxAgeMs, v.held, a.now);
    var later := Usable(r.maxAgeMs, v.held, a.later);
    if Sensitive(a.req) && !a.authorized then res == Failed(ForbiddenPeer)
    else
      match a.req
      case GetStatus => res == StatusIs(StatusOf(r.idleMs, r.maxAgeMs, v.held, a.now))
      case Unlock =>
        res == if usable then Done else if r.backend == "passphrase-file" then Failed(AgentLocked) else AwaitsKeystore
      case UnlockKey(binding, decoded) =>
        res == if KeyFits(r, v.file, binding, decoded) then Done
               else if r.backend == "passphrase-file" && Bound(r, binding) then Failed(BadRequest)
               else Failed(Mismatch)
      case LockNow => res == Done
      case VaultLoad(binding) =>
        res == if !Bound(r, binding) then Failed(Mismatch)
               else if !usable then Failed(AgentLocked)
               else if v.file.Absent? then Empty
               else if !later then Failed(AgentLocked)
               else if v.file.Corrupt? || v.file.key != v.held.key.value then Failed(Internal)
               else LoadedVault(Loaded(v.file.vault))
      case VaultSave(binding, _) =>
        res == if !Bound(r, binding) then Failed(Mismatch) else if !later then Failed(AgentLocked) else SavedVault
      case GrantAdd(project, caller, ttlSeconds) =>
        res == if !usable then Failed(AgentLocked)
               else if Addable(project, caller, ttlSeconds)
               then AddedGrant(NewGrant(a.newId, project, caller.value, ttlSeconds.value, a.now))
               else Failed(BadRequest)
      case GrantList =>
        if !usable then res == Failed(AgentLocked)
        else
          && res.GrantItems?
          && forall item :: item in res.items <==> exists g :: Live(v.held.log, a.now, g) && item == ItemOf(g, a.now)
      case GrantRevoke(grantId, all) =>
        if !usable then res == Failed(AgentLocked)
        else if RevokeEntry(grantId, all).Some? then res.RevokedCount? else res == Failed(BadRequest)
      case GrantCheck(target, exact) =>
        if !usable then res == Failed(AgentLocked)
        else
          && res.Checked?
          && (res.result.Granted? <==> exists g :: Live(v.held.log, a.now, g) && For(g, target, exact))
  }

  class Agent {
    const state: AgentState
    const vaultPath: string
    const backend: string
    var file: VaultFile

    constructor (idleMs: Time, maxAgeMs: Time, vaultPath: string, backend: string, file: VaultFile, ghost now: Time)
      ensures Valid() && state.Clean() && state.clock == now && state.key == null && state.dropped == {}
      ensures MyRules() == Rules(idleMs, maxAgeMs, vaultPath, backend)
      ensures View() == Snapshot(Holding(None, 0.0, 0.0, []), file)
      ensures fresh(state) && fresh(state.grants)
    {
      var grants := new GrantStore(now);
      this.state := new AgentState(idleMs, maxAgeMs, grants, now);
      this.vaultPath, this.backend, this.file := vaultPath, backend, file;
    }

    ghost predicate Valid()
      reads this, state, state.grants
    {
      state.Valid()
    }

    function MyRules(): Rules {
      Rules(state.idleMs, state.maxAgeMs, vaultPath, backend)
    }

    ghost function View(): Snapshot
      reads this, state, state.grants, state.key
    {
      Snapshot(state.View(), file)
    }

    /** The key buffer is the one it was, or gone. */
    twostate predicate SameOrGone()
      reads this, state
    {
      state.key == null || state.key == old(state.key)
    }

    method LoadOp(a: Ask) returns (res: Response)
      requires Valid() && state.clock <= a.now <= a.later && a.req.VaultLoad? && a.authorized
      modifies state, state.grants, state.key
      ensures Valid() && state.clock <= a.later && (old(state.Clean()) ==> state.Clean()) && SameOrGone()
      ensures View() == After(MyRules(), old(View()), a) && Answers(MyRules(), old(View()), a, res)
    {
      if !Bound(MyRules(), a.req.binding) { return Failed(Mismatch); }
      var locked := state.IsLocked(a.now);
      if locked { return Failed(AgentLocked); }
      state.Touch(a.now);
      if file.Absent? { return Empty; }
      var key := state.RequireKey(a.later);
      if key == null { return Failed(AgentLocked); }
      if file.Corrupt? || file.key != key[..] { return Failed(Internal); }
      return LoadedVault(Loaded(file.vault));
    }

    method SaveOp(a: Ask) returns (res: Response)
      requires Valid() && state.clock <= a.now <= a.later && a.req.VaultSave? && a.authorized
      modifies this`file, state, state.grants, state.key
      ensures Valid() && state.clock <= a.later && (old(state.Clean()) ==> state.Clean()) && SameOrGone()
      ensures View() == After(MyRules(), old(View()), a) && Answers(MyRules(), old(View()), a, res)
    {
      if !Bound(MyRules(), a.req.binding) { return Failed(Mismatch); }
      var locked := state.IsLocked(a.now);
      if locked { return Failed(AgentLocked); }
      state.Touch(a.now);
      var key := state.RequireKey(a.later);
      if key == null { return Failed(AgentLocked); }
      file := Encrypted(key[..], a.req.vault);
      return SavedVault;
    }

    /** The decoded key is overwritten whatever becomes of it; `scratch` is that buffer. */
    method UnlockKeyOp(a: Ask) returns (res: Response, ghost scratch: set<Key>)
      requires Valid() && state.clock <= a.now <= a.later && a.req.UnlockKey? && a.authorized
      modifies state, state.grants, state.key
      ensures Valid() && state.clock <= a.later && (old(state.Clean()) ==> state.Clean())
      ensures state.key == null || state.key == old(state.key) || fresh(state.key)
      ensures forall b :: b in scratch ==> AllZero(b)
      ensures View() == After(MyRules(), old(View()), a) && Answers(MyRules(), old(View()), a, res)
    {
      scratch := {};
      var binding, bytes := a.req.binding, a.req.decoded;
      if backend != "passphrase-file" { return Failed(Mismatch), scratch; }
      if !Bound(MyRules(), binding) { return Failed(Mismatch), scratch; }
      if bytes.None? || |bytes.value| != 32 { return Failed(BadRequest), scratch; }
      var decoded: Key := new Bytes.Byte[32](i requires 0 <= i < 32 => bytes.value[i]);
      scratch := {decoded};
      if file.Corrupt? || (file.Encrypted? && file.key != decoded[..]) {
        Zero(decoded);
        return Failed(BadRequest), scratch;
      }
      assert decoded[..] == bytes.value;
      var _ := state.UnlockWithKey(decoded, a.now, a.later);
      Zero(decoded);
      return Done, scratch;
    }

    /** Grant requests are refused while locked; otherwise the store answers, and no deadline moves. */
    method AddOp(a: Ask) returns (res: Response)
      requires Valid() && state.clock <= a.now && a.req.GrantAdd? && a.authorized
      modifies state, state.grants, state.key
      ensures Valid() && state.clock == a.now && (old(state.Clean()) ==> state.Clean()) && SameOrGone()
      ensures View() == After(MyRules(), old(View()), a) && Answers(MyRules(), old(View()), a, res)
    {
      var locked := state.IsLocked(a.now);
      res := Failed(AgentLocked);
      if !locked {
        var r := state.grants.Add(a.req.project, a.req.caller, a.req.ttlSeconds, a.newId, a.now);
        res := if r.Ok? then AddedGrant(r.value) else Failed(BadRequest);
      }
    }

    method ListOp(a: Ask) returns (res: Response)
      requires Valid() && state.clock <= a.now && a.req.GrantList? && a.authorized
      modifies state, state.grants, state.key
      ensures Valid() && state.clock == a.now && (old(state.Clean()) ==> state.Clean()) && SameOrGone()
      ensures View() == After(MyRules(), old(View()), a) && Answers(MyRules(), old(View()), a, res)
    {
      var locked := state.IsLocked(a.now);
      res := Failed(AgentLocked);
      if !locked {
        var items := state.grants.List(a.now);
        res := GrantItems(items);
      }
    }

    method RevokeOp(a: Ask) returns (res: Response)
      requires Valid() && state.clock <= a.now && a.req.GrantRevoke? && a.authorized
      modifies state, state.grants, state.key
      ensures Valid() && state.clock == a.now && (old(state.Clean()) ==> state.Clean()) && SameOrGone()
      ensures View() == After(MyRules(), old(View()), a) && Answers(MyRules(), old(View()), a, res)
    {
      var locked := state.IsLocked(a.now);
      res := Failed(AgentLocked);
      if !locked {
        var r := state.grants.Revoke(a.req.grantId, a.req.all, a.now);
        res := if r.Ok? then RevokedCount(r.value) else Failed(BadRequest);
      }
    }

    method CheckOp(a: Ask) returns (res: Response)
      requires Valid() && state.clock <= a.now && a.req.GrantCheck? && a.authorized
      modifies state, state.grants, state.key
      ensures Valid() && state.clock == a.now && (old(state.Clean()) ==> state.Clean()) && SameOrGone()
      ensures View() == After(MyRules(), old(View()), a) && Answers(MyRules(), old(View()), a, res)
    {
      var locked := state.IsLocked(a.now);
      res := Failed(AgentLocked);
      if !locked {
        var r := state.grants.Check(a.req.target, a.req.exact, a.now);
        res := Checked(r);
      }
    }

    method UnlockOp(a: Ask) returns (res: Response)
      requires Valid() && state.clock <= a.now && a.req.Unlock? && a.authorized
      modifies state, state.grants, state.key
      ensures Valid() && state.clock == a.now && (old(state.Clean()) ==> state.Clean()) && SameOrGone()
      ensures View() == After(MyRules(), old(View()), a) && Answers(MyRules(), old(View()), a, res)
      ensures old(state.key) == null ==> state.dropped == old(state.dropped)
    {
      if backend == "passphrase-file" {
        var locked := state.IsLocked(a.now);
        if locked { return Failed(AgentLocked); }
      }
      var needsKey := state.UnlockStart(a.now);
      return if needsKey then AwaitsKeystore else Done;
    }

    /** The part of a request before anything is awaited, once the peer has been looked at. */
    method HandleRequest(a: Ask) returns (res: Response, ghost scratch: set<Key>)
      requires Valid() && state.clock <= a.now <= a.later
      modifies this`file, state, state.grants, state.key
      ensures Valid() && state.clock <= a.later && (old(state.Clean()) ==> state.Clean())
      ensures forall b :: b in scratch ==> AllZero(b)
      ensures View() == After(MyRules(), old(View()), a) && Answers(MyRules(), old(View()), a, res)
      ensures SameOrGone() || (fresh(state.key) && a.authorized && a.req.UnlockKey?)
      ensures Sensitive(a.req) && !a.authorized ==> state.SameUnlock()
      ensures a.req.Unlock? && old(state.key) == null ==> state.dropped == old(state.dropped)
    {
      scratch := {};
      if Sensitive(a.req) && !a.authorized { return Failed(ForbiddenPeer), scratch; }
      match a.req
      case GetStatus =>
        var s := state.GetStatus(a.now);
        res := StatusIs(s);
      case Unlock => res := UnlockOp(a);
      case UnlockKey(_, _) => res, scratch := UnlockKeyOp(a);
      case LockNow =>
        state.Lock();
        res := Done;
      case VaultLoad(_) => res := LoadOp(a);
      case VaultSave(_, _) => res := SaveOp(a);
      case GrantAdd(_, _, _) => res := AddOp(a);
      case GrantList => res := ListOp(a);
      case GrantRevoke(_, _) => res := RevokeOp(a);
      case GrantCheck(_, _) => res := CheckOp(a);
    }

    /**
     The rest of `unlock` when the key store has answered or failed. Nothing overlapped exactly when the agent
     is still locked; then no buffer is let go with a key in it.
     */
    method FinishUnlock(resolved: Option<Key>, now: Time, later: Time) returns (res: Response)
      requires Valid() && state.clock <= now <= later
      modifies state, state.grants, state.key
      ensures Valid() && state.clock <= later
      ensures var bytes := if resolved.Some? then Some(old(resolved.value[..])) else None;
              View() == AfterFinish(MyRules(), old(View()), bytes, now, later)
      ensures res == if resolved.Some? && resolved.value.Length == 32 then Done else Failed(Unavailable)
      ensures state.key == null || state.key == old(state.key) || fresh(state.key)
      ensures old(state.key) == null && old(state.Clean()) ==> state.Clean()
      ensures res == Done && state.key != null ==>
                && fresh(state.key)
                && state.dropped == old(state.dropped) + (if old(state.key) == null then {} else {old(state.key)})
      ensures res == Done && old(state.key) != null ==> old(state.key)[..] == old(state.key[..])
      ensures res == Done ==>
                (state.Clean() <==> old(state.Clean()) && (old(state.key) == null || AllZero(old(state.key))))
    {
      if resolved.None? { return Failed(Unavailable); }
      var ok := state.UnlockFinish(resolved.value, now, later);
      return if ok then Done else Failed(Unavailable);
    }

    /** Timers fire late or on time; the key timers lock, the prune timer changes nothing anybody sees. */
    method OnTimer(prunes: bool, now: Time)
      requires Valid() && state.clock <= now
      requires if prunes then state.grants.pruneTimer.Some? else state.idleTimer.Some? || state.maxAgeTimer.Some?
      modifies state, state.grants, state.key
      ensures Valid() && state.clock == now && (old(state.Clean()) ==> state.Clean()) && SameOrGone()
      ensures View() == if prunes then old(View()) else old(View()).(held := AfterLock(old(View()).held))
    {
      if prunes {
        state.OnPruneTimer(now);
      } else {
        state.OnTimer(now);
      }
    }
  }

  /** What `unlock` does when the key store answers with `resolved`, or not at all. */
  function AfterFinish(r: Rules, v: Snapshot, resolved: Option<seq<Bytes.Byte>>, now: Time, later: Time): Snapshot {
    if resolved.None? || |resolved.value| != 32 then v
    else v.(held := AfterUnlock(r.maxAgeMs, v.held.log, resolved.value, now, later))
  }

  /**
   Two unlocks that overlap on a new agent: both start while it is locked, both read the key store, and the
   second to finish lets the first one's buffer go with the key still in it.
   */
  method OverlappingUnlocks(idleMs: Time, maxAgeMs: Time, vaultPath: string, backend: string, file: VaultFile,
                            first: Key, second: Key, at: Time)
    returns (a: Agent)
    requires backend != "passphrase-file"
    requires first.Length == 32 && second.Length == 32 && !AllZero(first)
    ensures fresh(a) && a.Valid() && a.state.key != null && !a.state.Clean()
  {
    a := new Agent(idleMs, maxAgeMs, vaultPath, backend, file, at);
    var start := Ask(Unlock, true, "", at, at);
    var one, _ := a.HandleRequest(start);
    var two, _ := a.HandleRequest(start);
    assert one == AwaitsKeystore && two == AwaitsKeystore;
    var done1 := a.FinishUnlock(Some(first), at, at);
    assert a.View().held.key == Some(first[..]);
    var done2 := a.FinishUnlock(Some(second), at, at);
    assert a.View().held.key == Some(second[..]);
    assert done1 == Done && done2 == Done;
  }
}
