/** Identities and peer tables stay on the machine that made them (src/core/vault.ts and every writer of a vault). */
module DeviceLocal {
  import opened Wrappers
  import opened Vaults
  import opened Merge

  /** The vault's identity, or a new one; one that is there but malformed is never replaced. */
  function GetOrCreateSyncIdentity(v: Vault, minted: SyncIdentity, wellFormed: SyncIdentity -> bool)
    : (r: Result<(Vault, SyncIdentity, bool), string>)
    ensures r.Err? <==> v.syncIdentity.Some? && !wellFormed(v.syncIdentity.value)
    ensures r.Ok? ==> r.value.0.syncIdentity == Some(r.value.1) && (r.value.2 <==> v.syncIdentity.None?)
    ensures r.Ok? ==> r.value.0.(syncIdentity := v.syncIdentity) == v
  {
    if v.syncIdentity.Some? then
      if wellFormed(v.syncIdentity.value) then Ok((v, v.syncIdentity.value, false)) else Err("malformed sync identity")
    else Ok((v.(syncIdentity := Some(minted)), minted, true))
  }

  type PeerTable = map<string, SyncPeer>

  /**
   The vaults of any number of machines. `sent` are the vaults that ever left one, `minted` and `tables` record
   which machine made which identity and which peer table.
   */
  datatype Fleet = Fleet(
    vaults: map<string, Vault>,
    sent: set<Vault>,
    minted: map<SyncIdentity, string>,
    tables: set<(string, PeerTable)>)

  /** `incoming` is whatever arrived, from an honest machine or not. */
  datatype Step =
    | Join(id: string)
    | Edit(id: string, edited: Vault)
    | Mint(id: string, identity: SyncIdentity)
    | SavePeers(id: string, table: PeerTable)
    | Send(id: string)
    | SyncInto(id: string, incoming: Vault, base: Option<Vault>, answers: Resolutions)
    | PushInto(id: string, incoming: Vault)
    | ScopedInto(id: string, projects: Projects)
    | RestoreInto(id: string, incoming: Vault)

  /** A new identity is one that nobody holds: its keys are drawn at random. Commands edit the shared fields only. */
  ghost predicate Enabled(w: Fleet, step: Step) {
    if step.Join? then step.id !in w.vaults
    else
      && step.id in w.vaults
      && (step.Mint? ==> w.vaults[step.id].syncIdentity.None? && step.identity !in w.minted)
      && (step.Edit? ==> KeepDeviceLocal(step.edited, w.vaults[step.id]) == step.edited)
  }

  ghost function Next(w: Fleet, step: Step): Fleet
    requires Enabled(w, step)
  {
    var id := step.id;
    match step
    case Join(_) => w.(vaults := w.vaults[id := EmptyVault()])
    case Edit(_, edited) => w.(vaults := w.vaults[id := edited])
    case Mint(_, identity) =>
      w.(vaults := w.vaults[id := w.vaults[id].(syncIdentity := Some(identity))], minted := w.minted[identity := id])
    case SavePeers(_, table) =>
      w.(vaults := w.vaults[id := w.vaults[id].(syncPeers := Some(table))], tables := w.tables + {(id, table)})
    case Send(_) => w.(sent := w.sent + {WithoutDeviceLocal(w.vaults[id])})
    case SyncInto(_, incoming, base, answers) =>
      w.(vaults := w.vaults[id := MergedVault(Loaded(w.vaults[id]), incoming, base, answers)])
    case PushInto(_, incoming) => w.(vaults := w.vaults[id := KeepDeviceLocal(incoming, Loaded(w.vaults[id]))])
    case ScopedInto(_, projects) => w.(vaults := w.vaults[id := Loaded(w.vaults[id]).(projects := projects)])
    case RestoreInto(_, incoming) => w.(vaults := w.vaults[id := WithoutDeviceLocal(incoming)])
  }

  ghost predicate IsRun(ws: seq<Fleet>, steps: seq<Step>) {
    && |ws| == |steps| + 1 && ws[0] == Fleet(map[], {}, map[], {})
    && forall i :: 0 <= i < |steps| ==> Enabled(ws[i], steps[i]) && ws[i + 1] == Next(ws[i], steps[i])
  }

  /** A machine holds only what it made itself, and what left it carries neither identity nor peers. */
  ghost predicate Isolated(w: Fleet) {
    && (forall id | id in w.vaults ::
          && (w.vaults[id].syncIdentity.Some? ==>
                w.vaults[id].syncIdentity.value in w.minted && w.minted[w.vaults[id].syncIdentity.value] == id)
          && (w.vaults[id].syncPeers.Some? ==> (id, w.vaults[id].syncPeers.value) in w.tables))
    && forall v :: v in w.sent ==> !HasDeviceLocal(v)
  }

  /** What a step does to the device-local fields of its machine, whatever it takes in. */
  ghost predicate KeepsOwn(before: Vault, step: Step, after: Vault) {
    && (after.syncIdentity == before.syncIdentity
        || (step.Mint? && before.syncIdentity.None? && after.syncIdentity == Some(step.identity))
        || (step.RestoreInto? && after.syncIdentity.None?))
    && (after.syncPeers == before.syncPeers
        || (step.SavePeers? && after.syncPeers == Some(step.table))
        || (step.RestoreInto? && after.syncPeers.None?))
  }

  lemma StepKeepsOwn(w: Fleet, step: Step)
    requires Enabled(w, step) && !step.Join?
    ensures KeepsOwn(w.vaults[step.id], step, Next(w, step).vaults[step.id])
    ensures forall id :: id in w.vaults && id != step.id ==> Next(w, step).vaults[id] == w.vaults[id]
  {
  }

  lemma StepKeepsIsolated(w: Fleet, step: Step)
    requires Enabled(w, step) && Isolated(w)
    ensures Isolated(Next(w, step))
  {
    if !step.Join? {
      StepKeepsOwn(w, step);
    }
  }

  lemma {:induction false} RunIsolated(ws: seq<Fleet>, steps: seq<Step>, i: nat)
    requires IsRun(ws, steps) && i < |ws|
    ensures Isolated(ws[i])
    decreases i
  {
    if i > 0 {
      RunIsolated(ws, steps, i - 1);
      assert Enabled(ws[i - 1], steps[i - 1]);
      StepKeepsIsolated(ws[i - 1], steps[i - 1]);
    }
  }

  /** In no run do two machines come to share an identity, however vaults travel between them. */
  lemma NoSharedIdentity(ws: seq<Fleet>, steps: seq<Step>, i: nat, a: string, b: string)
    requires IsRun(ws, steps) && i < |ws| && a in ws[i].vaults && b in ws[i].vaults && a != b
    requires ws[i].vaults[a].syncIdentity.Some? && ws[i].vaults[b].syncIdentity.Some?
    ensures ws[i].vaults[a].syncIdentity != ws[i].vaults[b].syncIdentity
  {
    RunIsolated(ws, steps, i);
  }

  /** Merges, pushes and scoped merges never move an identity or a peer table; only minting and pairing here do. */
  lemma {:induction false} OwnUntilMintOrRestore(ws: seq<Fleet>, steps: seq<Step>, id: string, i: nat, j: nat)
    requires IsRun(ws, steps) && i <= j < |ws| && id in ws[i].vaults
    requires forall k :: i <= k < j && steps[k].id == id ==>
                           !steps[k].Mint? && !steps[k].RestoreInto? && !steps[k].SavePeers?
    ensures id in ws[j].vaults
    ensures ws[j].vaults[id].syncIdentity == ws[i].vaults[id].syncIdentity
    ensures ws[j].vaults[id].syncPeers == ws[i].vaults[id].syncPeers
    decreases j
  {
    if i < j {
      OwnUntilMintOrRestore(ws, steps, id, i, j - 1);
      assert Enabled(ws[j - 1], steps[j - 1]);
      if !steps[j - 1].Join? {
        StepKeepsOwn(ws[j - 1], steps[j - 1]);
      }
    }
  }
}
