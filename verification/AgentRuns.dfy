/** Runs of the vault agent: any requests, timers and key store answers, one after the other. */
module AgentRuns {
  import opened Wrappers
  import opened Vaults
  import opened Grants
  import opened AgentStates
  import opened Agents
  import Bytes

  /** What reaches the agent: a request, the key store's answer to an `unlock`, a timer, another writer of the file. */
  datatype Command =
    | Asked(ask: Ask)
    | Finishes(resolved: Option<seq<Bytes.Byte>>, at: Time, later: Time)
    | Fires(prunes: bool, at: Time)
    | Written(file: VaultFile, at: Time)

  function Start(c: Command): Time {
    match c
    case Asked(a) => a.now
    case Finishes(_, at, _) => at
    case Fires(_, at) => at
    case Written(_, at) => at
  }

  function End(c: Command): Time {
    match c
    case Asked(a) => a.later
    case Finishes(_, _, later) => later
    case Fires(_, at) => at
    case Written(_, at) => at
  }

  /** The clock does not run backwards. */
  ghost predicate Timely(from: Time, cmds: seq<Command>) {
    && (forall i :: 0 <= i < |cmds| ==> from <= Start(cmds[i]) <= End(cmds[i]))
    && (forall i, j :: 0 <= i < j < |cmds| ==> End(cmds[i]) <= Start(cmds[j]))
  }

  /** A key timer is armed, if deadlines are in use, as long as a key is held; one that is not armed does not fire. */
  function Step(r: Rules, v: Snapshot, c: Command): Snapshot {
    match c
    case Asked(a) => After(r, v, a)
    case Finishes(resolved, at, later) => AfterFinish(r, v, resolved, at, later)
    case Fires(prunes, _) => if prunes || !KeyTimer(r, v.held) then v else v.(held := AfterLock(v.held))
    case Written(file, _) => v.(file := file)
  }

  predicate KeyTimer(r: Rules, v: Holding) {
    v.key.Some? && (r.idleMs > 0.0 || r.maxAgeMs > 0.0)
  }

  function Run(r: Rules, v: Snapshot, cmds: seq<Command>): Snapshot {
    if cmds == [] then v else Step(r, Run(r, v, cmds[..|cmds| - 1]), cmds[|cmds| - 1])
  }

  lemma RunNext(r: Rules, v: Snapshot, cmds: seq<Command>, i: nat)
    requires i < |cmds|
    ensures Run(r, v, cmds[..i + 1]) == Step(r, Run(r, v, cmds[..i]), cmds[i])
  {
    assert cmds[..i + 1][..i] == cmds[..i];
  }

  // ---------- what one command does to the key, the log and the file ----------

  /** A request the agent goes on with: harmless, or from the abra CLI. */
  predicate Admitted(a: Ask) {
    Sensitive(a.req) ==> a.authorized
  }

  /** The key a command brings in, if it brings one that is taken. */
  function Opens(r: Rules, file: VaultFile, c: Command): Option<seq<Bytes.Byte>> {
    match c
    case Asked(Ask(UnlockKey(binding, decoded), authorized, _, _, _)) =>
      if authorized && KeyFits(r, file, binding, decoded) then decoded else None
    case Finishes(resolved, _, _) => if resolved.Some? && |resolved.value| == 32 then resolved else None
    case _ => None
  }

  predicate PastDeadline(r: Rules, unlockedAt: Time, now: Time) {
    r.maxAgeMs > 0.0 && now >= unlockedAt + r.maxAgeMs
  }

  /** The last time a request compares the age of the key with its limit, if it does so at all. */
  function LooksAt(r: Rules, file: VaultFile, a: Ask): Option<Time> {
    if !Admitted(a) then None
    else
      match a.req
      case LockNow => None
      case UnlockKey(_, _) => None
      case VaultLoad(binding) => if !Bound(r, binding) then None else Some(if file.Absent? then a.now else a.later)
      case VaultSave(binding, _) => if !Bound(r, binding) then None else Some(a.later)
      case _ => Some(a.now)
  }

  /** Ends the life of a key unlocked at `since`, and every grant with it, unless it brings in a new key. */
  predicate Closes(r: Rules, file: VaultFile, c: Command, since: Time) {
    match c
    case Asked(a) =>
      a.req.LockNow? || (LooksAt(r, file, a).Some? && PastDeadline(r, since, LooksAt(r, file, a).value))
    case Fires(prunes, _) => !prunes && (r.idleMs > 0.0 || r.maxAgeMs > 0.0)
    case _ => false
  }

  /** A key that is too old by the time its deadline is armed. */
  predicate Stillborn(r: Rules, c: Command) {
    PastDeadline(r, Start(c), End(c))
  }

  predicate Locks(r: Rules, v: Snapshot, c: Command) {
    if Opens(r, v.file, c).Some? then Stillborn(r, c)
    else (v.held.key.Some? && Closes(r, v.file, c, v.held.unlockedAt)) || (c.Asked? && c.ask.req.LockNow?)
  }

  /** What a command adds to the log of grants. */
  function Logged(r: Rules, v: Snapshot, c: Command): Option<Entry> {
    if Locks(r, v, c) then Some(Cleared)
    else if !c.Asked? || !c.ask.authorized || v.held.key.None? then None
    else
      match c.ask.req
      case GrantAdd(project, caller, ttlSeconds) =>
        if Addable(project, caller, ttlSeconds)
        then Some(Added(NewGrant(c.ask.newId, project, caller.value, ttlSeconds.value, c.ask.now))) else None
      case GrantRevoke(grantId, all) => RevokeEntry(grantId, all)
      case _ => None
  }

  /** What a command leaves in the vault file, if it writes it. */
  function Stores(r: Rules, v: Snapshot, c: Command): Option<VaultFile> {
    match c
    case Written(file, _) => Some(file)
    case Asked(Ask(VaultSave(binding, vault), authorized, _, _, later)) =>
      if authorized && Bound(r, binding) && Usable(r.maxAgeMs, v.held, later)
      then Some(Encrypted(v.held.key.value, vault)) else None
    case _ => None
  }

  function Appended(log: seq<Entry>, e: Option<Entry>): seq<Entry> {
    if e.Some? then log + [e.value] else log
  }

  lemma StepDoes(r: Rules, v: Snapshot, c: Command)
    requires Start(c) <= End(c)
    ensures var w := Step(r, v, c);
            && w.held.log == Appended(v.held.log, Logged(r, v, c))
            && w.file == Stores(r, v, c).GetOr(v.file)
            && w.held.key == (if Locks(r, v, c) then None else if Opens(r, v.file, c).Some? then Opens(r, v.file, c)
                              else v.held.key)
            && (w.held.key.Some? ==>
                  w.held.unlockedAt == if Opens(r, v.file, c).Some? then Start(c) else v.held.unlockedAt)
  {
  }

  // ---------- the key ----------

  /** Command `i` brought in `key`, in time, and nothing after it took it away or replaced it. */
  ghost predicate HeldSince(r: Rules, v: Snapshot, cmds: seq<Command>, i: nat, key: seq<Bytes.Byte>) {
    && i < |cmds| && Opens(r, Run(r, v, cmds[..i]).file, cmds[i]) == Some(key) && !Stillborn(r, cmds[i])
    && forall j :: i < j < |cmds| ==>
        && Opens(r, Run(r, v, cmds[..j]).file, cmds[j]).None?
        && !Closes(r, Run(r, v, cmds[..j]).file, cmds[j], Start(cmds[i]))
  }

  lemma HeldSinceNext(r: Rules, v: Snapshot, cmds: seq<Command>, i: nat, key: seq<Bytes.Byte>)
    requires i < |cmds|
    ensures var n := |cmds| - 1;
            var file := Run(r, v, cmds[..n]).file;
            HeldSince(r, v, cmds, i, key) <==>
              if i == n then Opens(r, file, cmds[n]) == Some(key) && !Stillborn(r, cmds[n])
              else HeldSince(r, v, cmds[..n], i, key)
                   && Opens(r, file, cmds[n]).None? && !Closes(r, file, cmds[n], Start(cmds[i]))
  {
    var n := |cmds| - 1;
    forall j | 0 <= j < n ensures cmds[..n][..j] == cmds[..j] && cmds[..n][j] == cmds[j] {
      PrefixOfPrefix(cmds, j, n);
    }
  }

  lemma PrefixOfPrefix<T>(s: seq<T>, j: nat, n: nat)
    requires j <= n <= |s|
    ensures s[..n][..j] == s[..j]
  {
  }

  /** A key is held exactly if it was brought in and nothing ended it since; its age counts from there. */
  lemma {:induction false} KeyHeldIff(r: Rules, v: Snapshot, cmds: seq<Command>, from: Time)
    requires Timely(from, cmds) && v.held.key.None?
    ensures forall key :: Run(r, v, cmds).held.key == Some(key) <==> exists i: nat :: HeldSince(r, v, cmds, i, key)
    ensures forall i: nat, key :: HeldSince(r, v, cmds, i, key) ==> Run(r, v, cmds).held.unlockedAt == Start(cmds[i])
    decreases |cmds|
  {
    if cmds != [] {
      var n := |cmds| - 1;
      KeyHeldIff(r, v, cmds[..n], from);
      var u := Run(r, v, cmds[..n]);
      StepDoes(r, u, cmds[n]);
      forall i: nat, key | i < |cmds|
        ensures HeldSince(r, v, cmds, i, key) ==>
                  Run(r, v, cmds).held.key == Some(key) && Run(r, v, cmds).held.unlockedAt == Start(cmds[i])
      {
        HeldSinceNext(r, v, cmds, i, key);
      }
      forall key | Run(r, v, cmds).held.key == Some(key) ensures exists i: nat :: HeldSince(r, v, cmds, i, key) {
        if Opens(r, u.file, cmds[n]).Some? {
          HeldSinceNext(r, v, cmds, n, key);
        } else {
          var i: nat :| HeldSince(r, v, cmds[..n], i, key);
          HeldSinceNext(r, v, cmds, i, key);
        }
      }
    }
  }

  /** The key serves strictly before its own absolute deadline, and as long as nothing locked in between. */
  ghost predicate InForce(r: Rules, v: Snapshot, cmds: seq<Command>, key: seq<Bytes.Byte>, now: Time) {
    exists i: nat :: HeldSince(r, v, cmds, i, key) && !PastDeadline(r, Start(cmds[i]), now)
  }

  lemma UsableIff(r: Rules, v: Snapshot, cmds: seq<Command>, from: Time, now: Time)
    requires Timely(from, cmds) && v.held.key.None?
    ensures Usable(r.maxAgeMs, Run(r, v, cmds).held, now) <==> exists key :: InForce(r, v, cmds, key, now)
    ensures forall key :: InForce(r, v, cmds, key, now) ==> Run(r, v, cmds).held.key == Some(key)
  {
    KeyHeldIff(r, v, cmds, from);
    var u := Run(r, v, cmds).held;
    if Usable(r.maxAgeMs, u, now) {
      var i: nat :| HeldSince(r, v, cmds, i, u.key.value);
      assert InForce(r, v, cmds, u.key.value, now);
    }
  }

  // ---------- the grants ----------

  /** What `effect` says of each command of a run, in the state it met. */
  function Along<T>(effect: (Rules, Snapshot, Command) -> T, r: Rules, v: Snapshot, cmds: seq<Command>): (es: seq<T>)
    ensures |es| == |cmds|
  {
    if cmds == [] then []
    else
      var n := |cmds| - 1;
      Along(effect, r, v, cmds[..n]) + [effect(r, Run(r, v, cmds[..n]), cmds[n])]
  }

  lemma {:induction false} AlongAt<T>(effect: (Rules, Snapshot, Command) -> T, r: Rules, v: Snapshot,
                                      cmds: seq<Command>)
    ensures forall i :: 0 <= i < |cmds| ==> Along(effect, r, v, cmds)[i] == effect(r, Run(r, v, cmds[..i]), cmds[i])
    decreases |cmds|
  {
    if cmds != [] {
      var n := |cmds| - 1;
      AlongAt(effect, r, v, cmds[..n]);
      forall i | 0 <= i < n ensures cmds[..n][..i] == cmds[..i] {
        PrefixOfPrefix(cmds, i, n);
      }
    }
  }

  function Flat(es: seq<Option<Entry>>): seq<Entry> {
    if es == [] then [] else Appended(Flat(es[..|es| - 1]), es[|es| - 1])
  }

  lemma {:induction false} RunLog(r: Rules, v: Snapshot, cmds: seq<Command>, from: Time)
    requires Timely(from, cmds) && v.held.log == []
    ensures Run(r, v, cmds).held.log == Flat(Along(Logged, r, v, cmds))
    decreases |cmds|
  {
    if cmds != [] {
      var n := |cmds| - 1;
      RunLog(r, v, cmds[..n], from);
      FlatNext(Along(Logged, r, v, cmds[..n]), Logged(r, Run(r, v, cmds[..n]), cmds[n]));
      StepLogs(r, Run(r, v, cmds[..n]), cmds[n]);
    }
  }

  lemma StepLogs(r: Rules, v: Snapshot, c: Command)
    requires Start(c) <= End(c)
    ensures Step(r, v, c).held.log == Appended(v.held.log, Logged(r, v, c))
  {
    StepDoes(r, v, c);
  }

  lemma FlatNext(es: seq<Option<Entry>>, e: Option<Entry>)
    ensures Flat(es + [e]) == Appended(Flat(es), e)
  {
    assert (es + [e])[..|es|] == es;
  }

  /** Entry `j` added the grant, and nothing after it took it back, replaced it or locked. */
  ghost predicate GivenSince(es: seq<Option<Entry>>, j: nat, g: Grant) {
    && j < |es| && es[j] == Some(Added(g))
    && forall m :: j < m < |es| && es[m].Some? ==> !Ends(es[m].value, g.id)
  }

  lemma {:induction false} GivenIff(es: seq<Option<Entry>>, g: Grant)
    ensures Look(Held(Flat(es)), g.id) == Some(g) <==> exists j: nat :: GivenSince(es, j, g)
    decreases |es|
  {
    if es != [] {
      var n := |es| - 1;
      GivenIff(es[..n], g);
      LookAppended(Flat(es[..n]), es[n], g);
      forall j: nat | j < n
        ensures GivenSince(es, j, g) <==> GivenSince(es[..n], j, g) && (es[n].Some? ==> !Ends(es[n].value, g.id))
      {
        assert forall m :: 0 <= m < n ==> es[..n][m] == es[m];
      }
      assert es[n] == Some(Added(g)) <==> GivenSince(es, n, g);
    }
  }

  lemma LookAppended(log: seq<Entry>, e: Option<Entry>, g: Grant)
    ensures Look(Held(Appended(log, e)), g.id) == Some(g) <==>
              e == Some(Added(g)) || (Look(Held(log), g.id) == Some(g) && (e.Some? ==> !Ends(e.value, g.id)))
  {
    if e.Some? { HeldNext(log, e.value); }
  }

  /** Command `j` gave the grant, and it has been in force ever since. */
  ghost predicate GivenBy(r: Rules, v: Snapshot, cmds: seq<Command>, j: nat, g: Grant) {
    && j < |cmds| && Logged(r, Run(r, v, cmds[..j]), cmds[j]) == Some(Added(g))
    && forall m :: j < m < |cmds| ==>
        Logged(r, Run(r, v, cmds[..m]), cmds[m]).Some? ==>
          !Ends(Logged(r, Run(r, v, cmds[..m]), cmds[m]).value, g.id)
  }

  lemma GrantHeldIff(r: Rules, v: Snapshot, cmds: seq<Command>, from: Time, g: Grant)
    requires Timely(from, cmds) && v.held.log == []
    ensures Look(Held(Run(r, v, cmds).held.log), g.id) == Some(g) <==> exists j: nat :: GivenBy(r, v, cmds, j, g)
  {
    var es := Along(Logged, r, v, cmds);
    RunLog(r, v, cmds, from);
    GivenIff(es, g);
    AlongAt(Logged, r, v, cmds);
    forall j: nat ensures GivenBy(r, v, cmds, j, g) <==> GivenSince(es, j, g) {}
  }

  // ---------- the vault file ----------

  /** Command `j` wrote the file, and none after it did. */
  ghost predicate StoredBy(r: Rules, v: Snapshot, cmds: seq<Command>, j: nat, file: VaultFile) {
    && j < |cmds| && Stores(r, Run(r, v, cmds[..j]), cmds[j]) == Some(file)
    && NoneStores(r, v, cmds, j + 1)
  }

  ghost predicate NoneStores(r: Rules, v: Snapshot, cmds: seq<Command>, i: nat) {
    forall m :: i <= m < |cmds| ==> Stores(r, Run(r, v, cmds[..m]), cmds[m]).None?
  }

  /** The file is what the last command that wrote it left there, or what it was at first. */
  ghost predicate FileIs(r: Rules, v: Snapshot, cmds: seq<Command>, file: VaultFile) {
    (exists j: nat :: StoredBy(r, v, cmds, j, file)) || (NoneStores(r, v, cmds, 0) && file == v.file)
  }

  function Latest<T>(ws: seq<Option<T>>, first: T): T {
    if ws == [] then first else ws[|ws| - 1].GetOr(Latest(ws[..|ws| - 1], first))
  }

  ghost predicate WroteLast<T>(ws: seq<Option<T>>, j: nat, x: T) {
    j < |ws| && ws[j] == Some(x) && NoneAfter(ws, j + 1)
  }

  ghost predicate NoneAfter<T>(ws: seq<Option<T>>, i: nat) {
    forall m :: i <= m < |ws| ==> ws[m].None?
  }

  lemma {:induction false} LatestIff<T>(ws: seq<Option<T>>, first: T, x: T)
    ensures x == Latest(ws, first) <==> (exists j: nat :: WroteLast(ws, j, x)) || (NoneAfter(ws, 0) && x == first)
    decreases |ws|
  {
    if ws != [] {
      var n := |ws| - 1;
      LatestIff(ws[..n], first, x);
      if ws[n].Some? {
        assert WroteLast(ws, n, ws[n].value);
      } else {
        forall j: nat ensures WroteLast(ws, j, x) <==> WroteLast(ws[..n], j, x) {}
      }
    }
  }

  lemma {:induction false} RunFile(r: Rules, v: Snapshot, cmds: seq<Command>, from: Time)
    requires Timely(from, cmds)
    ensures Run(r, v, cmds).file == Latest(Along(Stores, r, v, cmds), v.file)
    decreases |cmds|
  {
    if cmds != [] {
      var n := |cmds| - 1;
      RunFile(r, v, cmds[..n], from);
      LatestNext(Along(Stores, r, v, cmds[..n]), Stores(r, Run(r, v, cmds[..n]), cmds[n]), v.file);
      StepStores(r, Run(r, v, cmds[..n]), cmds[n]);
    }
  }

  lemma LatestNext<T>(ws: seq<Option<T>>, w: Option<T>, first: T)
    ensures Latest(ws + [w], first) == w.GetOr(Latest(ws, first))
  {
    assert (ws + [w])[..|ws|] == ws;
  }

  lemma StepStores(r: Rules, v: Snapshot, c: Command)
    requires Start(c) <= End(c)
    ensures Step(r, v, c).file == Stores(r, v, c).GetOr(v.file)
  {
    StepDoes(r, v, c);
  }

  lemma FileIsIff(r: Rules, v: Snapshot, cmds: seq<Command>, from: Time, file: VaultFile)
    requires Timely(from, cmds)
    ensures FileIs(r, v, cmds, file) <==> file == Run(r, v, cmds).file
  {
    var ws := Along(Stores, r, v, cmds);
    RunFile(r, v, cmds, from);
    LatestIff(ws, v.file, file);
    AlongAt(Stores, r, v, cmds);
    forall j: nat ensures NoneStores(r, v, cmds, j) <==> NoneAfter(ws, j) {}
    forall j: nat ensures StoredBy(r, v, cmds, j, file) <==> WroteLast(ws, j, file) {}
  }

  // ---------- what requests get, after any run ----------

  /** The agent as it starts: locked, with nothing granted yet. */
  predicate Fresh(v: Snapshot) {
    v.held.key.None? && v.held.log == []
  }

  /** A check is granted exactly if a key is in force and so is a grant for that project and that binary. */
  lemma CheckIff(r: Rules, v: Snapshot, cmds: seq<Command>, from: Time, a: Ask, res: Response)
    requires Timely(from, cmds) && Fresh(v)
    requires a.req.GrantCheck? && a.authorized && Answers(r, Run(r, v, cmds), a, res)
    ensures res.Checked? && res.result.Granted? <==>
              && (exists key :: InForce(r, v, cmds, key, a.now))
              && exists j: nat, g ::
                  GivenBy(r, v, cmds, j, g) && For(g, a.req.target, a.req.exact) && a.now < g.expiresAt
  {
    UsableIff(r, v, cmds, from, a.now);
    var log := Run(r, v, cmds).held.log;
    forall g ensures Live(log, a.now, g) <==> (exists j: nat :: GivenBy(r, v, cmds, j, g)) && a.now < g.expiresAt {
      GrantHeldIff(r, v, cmds, from, g);
    }
  }

  /** A load gets exactly the vault stored last, if the key in force is the one it was stored under. */
  lemma LoadIff(r: Rules, v: Snapshot, cmds: seq<Command>, from: Time, a: Ask, res: Response, vault: Vault)
    requires Timely(from, cmds) && v.held.key.None? && a.now <= a.later
    requires a.req.VaultLoad? && a.authorized && Answers(r, Run(r, v, cmds), a, res)
    ensures (exists key :: InForce(r, v, cmds, key, a.later) && FileIs(r, v, cmds, Encrypted(key, vault)))
              && Bound(r, a.req.binding) ==>
              res == LoadedVault(Loaded(vault))
    ensures res.LoadedVault? ==>
              && Bound(r, a.req.binding)
              && exists key, stored ::
                  && InForce(r, v, cmds, key, a.later) && FileIs(r, v, cmds, Encrypted(key, stored))
                  && res == LoadedVault(Loaded(stored))
  {
    UsableIff(r, v, cmds, from, a.now);
    UsableIff(r, v, cmds, from, a.later);
    var u := Run(r, v, cmds);
    forall file ensures FileIs(r, v, cmds, file) <==> file == u.file {
      FileIsIff(r, v, cmds, from, file);
    }
    if res.LoadedVault? {
      assert u.file == Encrypted(u.held.key.value, u.file.vault);
      assert FileIs(r, v, cmds, Encrypted(u.held.key.value, u.file.vault));
    }
  }

  predicate NeedsKey(req: Request) {
    !req.GetStatus? && !req.LockNow? && !req.Unlock? && !req.UnlockKey?
  }

  /** Once every unlock lies the maximum age back, nothing that needs the key is served, whatever came between. */
  lemma RefusedPastDeadline(r: Rules, v: Snapshot, cmds: seq<Command>, from: Time, a: Ask, res: Response)
    requires Timely(from, cmds) && v.held.key.None? && a.now <= a.later
    requires forall i :: 0 <= i < |cmds| && Opens(r, Run(r, v, cmds[..i]).file, cmds[i]).Some? ==>
               PastDeadline(r, Start(cmds[i]), a.now)
    requires NeedsKey(a.req) && Answers(r, Run(r, v, cmds), a, res)
    ensures res.Failed?
  {
    UsableIff(r, v, cmds, from, a.now);
    UsableIff(r, v, cmds, from, a.later);
  }

  // ---------- the program's own code ----------

  /** One command on the real agent is one step. */
  method Serve(agent: Agent, c: Command) returns (res: Response)
    requires agent.Valid() && agent.state.clock <= Start(c) <= End(c)
    modifies agent`file, agent.state, agent.state.grants, agent.state.key
    ensures agent.Valid() && agent.state.clock <= End(c)
    ensures agent.View() == Step(agent.MyRules(), old(agent.View()), c)
    ensures c.Asked? ==> Answers(agent.MyRules(), old(agent.View()), c.ask, res)
    ensures agent.state.key == null || agent.state.key == old(agent.state.key) || fresh(agent.state.key)
  {
    res := Done;
    match c
    case Asked(a) =>
      var answer, _ := agent.HandleRequest(a);
      res := answer;
    case Finishes(resolved, at, later) =>
      var bytes: Option<Key> := None;
      if resolved.Some? {
        var b := new Bytes.Byte[|resolved.value|](i requires 0 <= i < |resolved.value| => resolved.value[i]);
        assert b[..] == resolved.value;
        bytes := Some(b);
      }
      res := agent.FinishUnlock(bytes, at, later);
    case Fires(prunes, at) =>
      if if prunes then agent.state.grants.pruneTimer.Some?
         else agent.state.idleTimer.Some? || agent.state.maxAgeTimer.Some?
      {
        agent.OnTimer(prunes, at);
      }
    case Written(file, _) =>
      agent.file := file;
  }

  ghost predicate AllAnswered(r: Rules, v: Snapshot, cmds: seq<Command>, answers: seq<Response>) {
    && |answers| <= |cmds|
    && forall i :: 0 <= i < |answers| && cmds[i].Asked? ==> Answers(r, Run(r, v, cmds[..i]), cmds[i].ask, answers[i])
  }

  /** Any commands on a new agent: the state is that of the run, and so is every answer. */
  method ServeAll(idleMs: Time, maxAgeMs: Time, vaultPath: string, backend: string, file: VaultFile, from: Time,
                  cmds: seq<Command>)
    returns (agent: Agent, answers: seq<Response>)
    requires Timely(from, cmds)
    ensures var r := Rules(idleMs, maxAgeMs, vaultPath, backend);
            var v := Snapshot(Holding(None, 0.0, 0.0, []), file);
            && fresh(agent) && agent.Valid() && agent.View() == Run(r, v, cmds)
            && |answers| == |cmds| && AllAnswered(r, v, cmds, answers)
  {
    agent := new Agent(idleMs, maxAgeMs, vaultPath, backend, file, from);
    answers := [];
    ghost var r, v := agent.MyRules(), agent.View();
    for i := 0 to |cmds|
      invariant fresh(agent) && fresh(agent.state) && fresh(agent.state.grants)
      invariant agent.state.key == null || fresh(agent.state.key)
      invariant agent.Valid() && agent.MyRules() == r && |answers| == i
      invariant i < |cmds| ==> agent.state.clock <= Start(cmds[i])
      invariant agent.View() == Run(r, v, cmds[..i])
      invariant AllAnswered(r, v, cmds, answers)
    {
      var res := ServeNext(agent, r, v, cmds, i);
      answers := answers + [res];
    }
    assert cmds[..|cmds|] == cmds;
  }

  method ServeNext(agent: Agent, ghost r: Rules, ghost v: Snapshot, cmds: seq<Command>, i: nat) returns (res: Response)
    requires i < |cmds| && agent.Valid() && agent.MyRules() == r && agent.View() == Run(r, v, cmds[..i])
    requires agent.state.clock <= Start(cmds[i]) <= End(cmds[i])
    modifies agent`file, agent.state, agent.state.grants, agent.state.key
    ensures agent.Valid() && agent.state.clock <= End(cmds[i])
    ensures agent.View() == Run(r, v, cmds[..i + 1])
    ensures cmds[i].Asked? ==> Answers(r, Run(r, v, cmds[..i]), cmds[i].ask, res)
    ensures agent.state.key == null || agent.state.key == old(agent.state.key) || fresh(agent.state.key)
  {
    RunNext(r, v, cmds, i);
    res := Serve(agent, cmds[i]);
  }
}
