/** The table of paired machines and its re-pair rules (src/sync/peers.ts). */
module Peers {
  import opened Wrappers
  import opened Vaults

  function OppositeRole(role: Role): Role {
    if role == Source then Receiver else Source
  }

  /** The connector gets the opposite of the listener; asking for anything else is an error. */
  function ResolveRoles(listener: Role, requested: Option<Role>): (r: Result<(Role, Role), string>)
    ensures r.Err? <==> requested == Some(listener)
    ensures r.Ok? ==> && r.value.0 == listener && r.value.0 != r.value.1
                      && (requested.Some? ==> requested.value == r.value.1)
  {
    var connector := OppositeRole(listener);
    assert requested.Some? ==> requested.value.Source? || requested.value.Receiver?;
    if requested.Some? && requested.value != connector then Err("role mismatch") else Ok((listener, connector))
  }

  predicate IsNameStart(c: char) {
    'a' <= c <= 'z' || '0' <= c <= '9'
  }

  predicate IsPeerName(name: string) {
    && 1 <= |name| <= 64 && IsNameStart(name[0])
    && forall i :: 0 <= i < |name| ==> IsNameStart(name[i]) || name[i] in "._-"
  }

  datatype PeerCandidate = PeerCandidate(
    id: string,
    name: string,
    ed25519: string,
    x25519: string,
    role: Role,
    address: Option<string>)

  datatype Action = Add | Update | Replace

  datatype PeerPlan = PeerPlan(action: Action, vault: Vault, peer: SyncPeer, replaced: Option<string>)

  datatype PeerError =
    | OwnIdentity
    | MalformedKeys
    | DifferentKeys
    | DifferentRole
    | KeysUnderAnotherId(id: string)
    | BadName
    | NameTaken(id: string)

  type Table = map<string, SyncPeer>

  /** Renders the hash of both public keys; nothing if one of them is not the base64 of 32 bytes. */
  type FingerprintOf = (string, string) -> Option<string>

  datatype Options = Options(replace: bool, explicitName: bool, now: int)

  function TableOf(v: Vault): Table {
    v.syncPeers.GetOr(map[])
  }

  ghost predicate PresentsOwn(own: SyncIdentity, id: string, ed25519: string, x25519: string) {
    id == own.id || ed25519 == own.ed25519.publicKey || x25519 == own.x25519.publicKey
  }

  ghost predicate SameKeysElsewhere(peers: Table, cand: PeerCandidate, other: string) {
    other in peers && other != cand.id && peers[other].ed25519 == cand.ed25519
  }

  ghost predicate Clash(peers: Table, id: string, name: string, other: string) {
    other in peers && other != id && peers[other].name == name
  }

  function ChosenName(peers: Table, cand: PeerCandidate, explicitName: bool): string {
    if cand.id in peers && !explicitName then peers[cand.id].name else cand.name
  }

  /** The rules before names come into it. */
  ghost predicate Admissible(v: Vault, cand: PeerCandidate, fp: FingerprintOf) {
    var peers := TableOf(v);
    && (v.syncIdentity.Some? ==> !PresentsOwn(v.syncIdentity.value, cand.id, cand.ed25519, cand.x25519))
    && fp(cand.ed25519, cand.x25519).Some?
    && (cand.id in peers ==>
          && peers[cand.id].ed25519 == cand.ed25519 && peers[cand.id].x25519 == cand.x25519
          && peers[cand.id].role == cand.role)
    && forall other :: !SameKeysElsewhere(peers, cand, other)
  }

  /** The candidate may be stored under the name chosen for it. */
  ghost predicate Accepts(v: Vault, cand: PeerCandidate, o: Options, fp: FingerprintOf) {
    var name := ChosenName(TableOf(v), cand, o.explicitName);
    && Admissible(v, cand, fp) && IsPeerName(name)
    && (o.replace || forall other :: !Clash(TableOf(v), cand.id, name, other))
  }

  /** Which entry is dropped to free the name, if any; the rest of the table is kept. */
  ghost predicate IsPlan(v: Vault, cand: PeerCandidate, o: Options, fp: FingerprintOf, plan: PeerPlan) {
    var peers, name := TableOf(v), ChosenName(TableOf(v), cand, o.explicitName);
    && Admissible(v, cand, fp) && IsPeerName(name)
    && (plan.replaced.Some? ==> o.replace && Clash(peers, cand.id, name, plan.replaced.value))
    && (plan.replaced.None? ==> forall other :: !Clash(peers, cand.id, name, other))
    && plan.action == (if plan.replaced.Some? then Replace else if cand.id in peers then Update else Add)
    && plan.peer.name == name
    && plan.peer.ed25519 == cand.ed25519 && plan.peer.x25519 == cand.x25519 && plan.peer.role == cand.role
    && plan.peer.idFingerprint
       == (if cand.id in peers then peers[cand.id].idFingerprint else fp(cand.ed25519, cand.x25519).value)
    && plan.peer.pairedAt == (if cand.id in peers then peers[cand.id].pairedAt else o.now)
    && plan.peer.lastAddress
       == (if cand.id in peers then (if cand.address.Some? then cand.address else peers[cand.id].lastAddress)
           else if cand.address == Some("") then None else cand.address)
    && plan.vault == v.(syncPeers := Some((if plan.replaced.Some? then peers - {plan.replaced.value} else peers)
                                          [cand.id := plan.peer]))
  }

  method FindSameKeys(peers: Table, cand: PeerCandidate) returns (hit: Option<string>)
    ensures hit.Some? ==> SameKeysElsewhere(peers, cand, hit.value)
    ensures hit.None? ==> forall other :: !SameKeysElsewhere(peers, cand, other)
  {
    var todo := peers.Keys;
    while todo != {}
      invariant todo <= peers.Keys
      invariant forall other :: other !in todo ==> !SameKeysElsewhere(peers, cand, other)
      decreases |todo|
    {
      var other :| other in todo;
      if other != cand.id && peers[other].ed25519 == cand.ed25519 { return Some(other); }
      todo := todo - {other};
    }
    return None;
  }

  method FindClash(peers: Table, id: string, name: string) returns (hit: Option<string>)
    ensures hit.Some? ==> Clash(peers, id, name, hit.value)
    ensures hit.None? ==> forall other :: !Clash(peers, id, name, other)
  {
    var todo := peers.Keys;
    while todo != {}
      invariant todo <= peers.Keys
      invariant forall other :: other !in todo ==> !Clash(peers, id, name, other)
      decreases |todo|
    {
      var other :| other in todo;
      if other != id && peers[other].name == name { return Some(other); }
      todo := todo - {other};
    }
    return None;
  }

  /** Accepts exactly the admissible candidates whose name is valid and free, or may be freed. */
  method PlanPeerUpsert(v: Vault, cand: PeerCandidate, o: Options, fp: FingerprintOf)
    returns (r: Result<PeerPlan, PeerError>)
    ensures r.Ok? ==> IsPlan(v, cand, o, fp, r.value)
    ensures r.Ok? <==> Accepts(v, cand, o, fp)
    ensures r == Err(OwnIdentity)
            <==> v.syncIdentity.Some? && PresentsOwn(v.syncIdentity.value, cand.id, cand.ed25519, cand.x25519)
    ensures r == Err(MalformedKeys) <==> r != Err(OwnIdentity) && fp(cand.ed25519, cand.x25519).None?
    ensures r == Err(DifferentKeys)
            <==> && r != Err(OwnIdentity) && r != Err(MalformedKeys) && cand.id in TableOf(v)
                 && (TableOf(v)[cand.id].ed25519 != cand.ed25519 || TableOf(v)[cand.id].x25519 != cand.x25519)
    ensures r == Err(DifferentRole)
            <==> && r != Err(OwnIdentity) && r != Err(MalformedKeys) && r != Err(DifferentKeys)
                 && cand.id in TableOf(v) && TableOf(v)[cand.id].role != cand.role
    ensures r.Err? && r.error.NameTaken? ==>
              !o.replace && Clash(TableOf(v), cand.id, ChosenName(TableOf(v), cand, o.explicitName), r.error.id)
    ensures r.Err? && r.error.KeysUnderAnotherId? ==> SameKeysElsewhere(TableOf(v), cand, r.error.id)
  {
    if v.syncIdentity.Some? {
      var own := v.syncIdentity.value;
      if cand.id == own.id || cand.ed25519 == own.ed25519.publicKey || cand.x25519 == own.x25519.publicKey {
        return Err(OwnIdentity);
      }
    }
    var candFp := fp(cand.ed25519, cand.x25519);
    if candFp.None? { return Err(MalformedKeys); }
    var peers := TableOf(v);
    var existing := Look(peers, cand.id);
    if existing.Some? {
      if existing.value.ed25519 != cand.ed25519 || existing.value.x25519 != cand.x25519 { return Err(DifferentKeys); }
      if existing.value.role != cand.role { return Err(DifferentRole); }
    }
    var elsewhere := FindSameKeys(peers, cand);
    if elsewhere.Some? { return Err(KeysUnderAnotherId(elsewhere.value)); }
    var name := if existing.Some? && !o.explicitName then existing.value.name else cand.name;
    if !IsPeerName(name) { return Err(BadName); }
    var clash := FindClash(peers, cand.id, name);
    if clash.Some? {
      if !o.replace { return Err(NameTaken(clash.value)); }
      peers := peers - {clash.value};
    }
    var peer := if existing.Some?
      then existing.value.(name := name,
                           lastAddress := if cand.address.Some? then cand.address else existing.value.lastAddress)
      else SyncPeer(name, candFp.value, cand.ed25519, cand.x25519, cand.role, o.now,
                    if cand.address == Some("") then None else cand.address);
    peers := peers[cand.id := peer];
    var action := if clash.Some? then Replace else if existing.Some? then Update else Add;
    return Ok(PeerPlan(action, v.(syncPeers := Some(peers)), peer, clash));
  }

  /** An id wins over a name. */
  ghost predicate IsFound(peers: Table, nameOrId: string, id: string) {
    id in peers && (if nameOrId in peers then id == nameOrId else peers[id].name == nameOrId)
  }

  method FindPeer(v: Vault, nameOrId: string) returns (r: Option<string>)
    ensures r.Some? ==> IsFound(TableOf(v), nameOrId, r.value)
    ensures r.None? ==> forall id :: !IsFound(TableOf(v), nameOrId, id)
    ensures nameOrId in v.syncPeers.GetOr(map[]) ==> r == Some(nameOrId)
    ensures r.Some? && r.value != nameOrId ==>
              r.value in v.syncPeers.GetOr(map[]) && v.syncPeers.GetOr(map[])[r.value].name == nameOrId
    ensures r.None? ==> forall id :: id in v.syncPeers.GetOr(map[]) ==> v.syncPeers.GetOr(map[])[id].name != nameOrId
  {
    var peers := TableOf(v);
    if nameOrId in peers { return Some(nameOrId); }
    var todo := peers.Keys;
    while todo != {}
      invariant todo <= peers.Keys
      invariant forall id :: id !in todo ==> !IsFound(peers, nameOrId, id)
      invariant forall id :: id in peers && id !in todo ==> peers[id].name != nameOrId
      decreases |todo|
    {
      var id :| id in todo;
      if peers[id].name == nameOrId { return Some(id); }
      todo := todo - {id};
    }
    return None;
  }

  method RemovePeer(v: Vault, nameOrId: string) returns (r: Result<(Vault, string), string>)
    ensures r.Ok? <==> exists id :: IsFound(TableOf(v), nameOrId, id)
    ensures r.Ok? ==> IsFound(TableOf(v), nameOrId, r.value.1)
                      && r.value.0 == v.(syncPeers := Some(v.syncPeers.GetOr(map[]) - {r.value.1}))
                      && (nameOrId in v.syncPeers.GetOr(map[]) ==> r.value.1 == nameOrId)
  {
    var found := FindPeer(v, nameOrId);
    if found.None? { return Err("no such peer"); }
    var peers := TableOf(v);
    peers := peers - {found.value};
    return Ok((v.(syncPeers := Some(peers)), found.value));
  }

  // ---------- every sequence of upserts and removals ----------

  datatype PeerStep =
    | Upsert(cand: PeerCandidate, options: Options, plan: PeerPlan)
    | Remove(nameOrId: string, id: string)
    | RefusedStep

  ghost predicate IsStep(v: Vault, step: PeerStep, v': Vault, fp: FingerprintOf) {
    match step
    case Upsert(cand, o, plan) => IsPlan(v, cand, o, fp, plan) && v' == plan.vault
    case Remove(nameOrId, id) => IsFound(TableOf(v), nameOrId, id) && v' == v.(syncPeers := Some(TableOf(v) - {id}))
    case RefusedStep => v' == v
  }

  ghost predicate IsPeerRun(vs: seq<Vault>, steps: seq<PeerStep>, fp: FingerprintOf) {
    |vs| == |steps| + 1 && forall i :: 0 <= i < |steps| ==> IsStep(vs[i], steps[i], vs[i + 1], fp)
  }

  ghost predicate WellFormedPeer(own: SyncIdentity, fp: FingerprintOf, id: string, p: SyncPeer) {
    && IsPeerName(p.name)
    && fp(p.ed25519, p.x25519) == Some(p.idFingerprint)
    && !PresentsOwn(own, id, p.ed25519, p.x25519)
  }

  ghost predicate Distinct(peers: Table, a: string, b: string) {
    a in peers && b in peers && a != b ==> peers[a].name != peers[b].name && peers[a].ed25519 != peers[b].ed25519
  }

  /** Names and signing keys are distinct, fingerprints belong to the keys, and the vault is not its own peer. */
  ghost predicate TableOk(v: Vault, fp: FingerprintOf) {
    var peers := TableOf(v);
    && v.syncIdentity.Some?
    && (forall id | id in peers :: WellFormedPeer(v.syncIdentity.value, fp, id, peers[id]))
    && forall a, b :: Distinct(peers, a, b)
  }

  /** With distinct names at most one entry is in the way, so a replacement leaves nobody else with the name. */
  lemma UpsertKeepsTable(v: Vault, cand: PeerCandidate, o: Options, fp: FingerprintOf, plan: PeerPlan)
    requires TableOk(v, fp) && IsPlan(v, cand, o, fp, plan)
    ensures TableOk(plan.vault, fp)
  {
    var peers, peers' := TableOf(v), TableOf(plan.vault);
    forall a, b ensures Distinct(peers', a, b) {
      assert Distinct(peers, a, b);
      if a in peers' && b in peers' && a != b && (a == cand.id || b == cand.id) {
        var other := if a == cand.id then b else a;
        assert other in peers && other != cand.id && peers'[other] == peers[other];
        assert !SameKeysElsewhere(peers, cand, other);
        if plan.replaced.Some? {
          assert Distinct(peers, plan.replaced.value, other);
        } else {
          assert !Clash(peers, cand.id, plan.peer.name, other);
        }
      }
    }
  }

  lemma {:induction false} TableHolds(vs: seq<Vault>, steps: seq<PeerStep>, fp: FingerprintOf, i: nat)
    requires IsPeerRun(vs, steps, fp) && i < |vs|
    requires vs[0].syncIdentity.Some? && TableOf(vs[0]) == map[]
    ensures TableOk(vs[i], fp) && vs[i].syncIdentity == vs[0].syncIdentity
    decreases i
  {
    if i > 0 {
      TableHolds(vs, steps, fp, i - 1);
      assert IsStep(vs[i - 1], steps[i - 1], vs[i], fp);
      match steps[i - 1]
      case Upsert(cand, o, plan) => UpsertKeepsTable(vs[i - 1], cand, o, fp, plan);
      case Remove(nameOrId, id) =>
        var peers, peers' := TableOf(vs[i - 1]), TableOf(vs[i]);
        forall a, b ensures Distinct(peers', a, b) { assert Distinct(peers, a, b); }
      case RefusedStep =>
    }
  }

  /** The one entry a step may drop. */
  ghost predicate Drops(step: PeerStep, id: string) {
    match step
    case Upsert(_, o, plan) => o.replace && plan.replaced == Some(id)
    case Remove(_, removed) => removed == id
    case RefusedStep => false
  }

  /** Everything that makes an entry the machine it was paired with. */
  ghost predicate SamePeer(p: SyncPeer, q: SyncPeer) {
    && p.ed25519 == q.ed25519 && p.x25519 == q.x25519 && p.idFingerprint == q.idFingerprint
    && p.role == q.role && p.pairedAt == q.pairedAt
  }

  /** One step touches the candidate's entry, drops at most the entry it names, and leaves all others as they were. */
  lemma StepTouches(v: Vault, step: PeerStep, v': Vault, fp: FingerprintOf, id: string)
    requires IsStep(v, step, v', fp) && id in TableOf(v)
    ensures id in TableOf(v') <==> !Drops(step, id)
    ensures id in TableOf(v') ==> SamePeer(TableOf(v)[id], TableOf(v')[id])
    ensures id in TableOf(v') && !(step.Upsert? && step.cand.id == id) ==> TableOf(v')[id] == TableOf(v)[id]
  {
  }

  /** A removal by name or id takes out the one entry that answers to it. */
  lemma RemovesOne(v: Vault, fp: FingerprintOf, nameOrId: string, a: string, b: string)
    requires TableOk(v, fp) && IsFound(TableOf(v), nameOrId, a) && IsFound(TableOf(v), nameOrId, b)
    ensures a == b
  {
    assert Distinct(TableOf(v), a, b);
  }

  /** If an id's keys or role ever change, its entry was dropped in between: nothing overwrites a paired machine. */
  lemma {:induction false} KeysChangeOnlyAfterRemoval(vs: seq<Vault>, steps: seq<PeerStep>, fp: FingerprintOf,
                                                      i: nat, j: nat, id: string)
    requires IsPeerRun(vs, steps, fp) && i <= j < |vs|
    requires id in TableOf(vs[i])
    requires forall k :: i <= k < j ==> !Drops(steps[k], id)
    ensures id in TableOf(vs[j]) && SamePeer(TableOf(vs[i])[id], TableOf(vs[j])[id])
    decreases j
  {
    if i < j {
      KeysChangeOnlyAfterRemoval(vs, steps, fp, i, j - 1, id);
      assert IsStep(vs[j - 1], steps[j - 1], vs[j], fp);
      StepTouches(vs[j - 1], steps[j - 1], vs[j], fp, id);
    }
  }

  // ---------- what an upsert comes to ----------

  predicate InRange(c: char, low: int, high: int) {
    low <= c as int <= high
  }

  /** By their codes: small letters and digits, and behind the first also a hyphen, a dot or an underscore. */
  lemma PeerNameIff(name: string)
    ensures IsPeerName(name)
            <==> && 1 <= |name| <= 64 && (InRange(name[0], 97, 122) || InRange(name[0], 48, 57))
                 && forall i :: 0 <= i < |name| ==> InRange(name[i], 97, 122) || InRange(name[i], 48, 57)
                                                    || InRange(name[i], 45, 46) || InRange(name[i], 95, 95)
  {
    forall c: char ensures c in "._-" <==> InRange(c, 45, 46) || InRange(c, 95, 95) {}
  }

  /**
   Accepted is whoever is not this vault itself, has proper keys, is known under them or not at all, and gets a
   proper name that nobody else has, unless that one may be replaced. The address plays no part.
   */
  lemma AcceptsIff(v: Vault, cand: PeerCandidate, o: Options, fp: FingerprintOf)
    ensures
      var peers := v.syncPeers.GetOr(map[]);
      var known := Look(peers, cand.id);
      var name := if known.Some? && !o.explicitName then known.value.name else cand.name;
      Accepts(v, cand, o, fp)
      <==> && (v.syncIdentity.Some? ==>
                 && cand.id != v.syncIdentity.value.id
                 && cand.ed25519 != v.syncIdentity.value.ed25519.publicKey
                 && cand.x25519 != v.syncIdentity.value.x25519.publicKey)
           && fp(cand.ed25519, cand.x25519).Some?
           && (known.Some? ==> && known.value.ed25519 == cand.ed25519 && known.value.x25519 == cand.x25519
                               && known.value.role == cand.role)
           && (forall id :: id in peers && id != cand.id ==> peers[id].ed25519 != cand.ed25519)
           && IsPeerName(name)
           && (o.replace || forall id :: id in peers && id != cand.id ==> peers[id].name != name)
  {
    var peers, name := TableOf(v), ChosenName(TableOf(v), cand, o.explicitName);
    assert forall id :: Clash(peers, cand.id, name, id)
                        <==> id in peers && id != cand.id && peers[id].name == name;
    assert forall id :: SameKeysElsewhere(peers, cand, id)
                        <==> id in peers && id != cand.id && peers[id].ed25519 == cand.ed25519;
  }

  /** The entry stored, and nothing else but the one that had to give up its name. */
  lemma UpsertLeaves(v: Vault, cand: PeerCandidate, o: Options, fp: FingerprintOf, plan: PeerPlan)
    requires IsPlan(v, cand, o, fp, plan)
    ensures plan.vault.(syncPeers := v.syncPeers) == v && plan.vault.syncPeers.Some?
    ensures
      var before, after := v.syncPeers.GetOr(map[]), plan.vault.syncPeers.value;
      var known := Look(before, cand.id);
      && Look(after, cand.id) == Some(
           if known.Some? then
             known.value.(name := if o.explicitName then cand.name else known.value.name,
                          lastAddress := if cand.address.Some? then cand.address else known.value.lastAddress)
           else SyncPeer(cand.name, fp(cand.ed25519, cand.x25519).value, cand.ed25519, cand.x25519, cand.role, o.now,
                         if cand.address == Some("") then None else cand.address))
      && (forall id :: id != cand.id && Some(id) != plan.replaced ==> Look(after, id) == Look(before, id))
      && (plan.replaced.Some? ==>
            && o.replace && plan.replaced.value in before && plan.replaced.value != cand.id
            && before[plan.replaced.value].name == after[cand.id].name && plan.replaced.value !in after)
  {
  }

  /** Pairing again with the same machine, from wherever it comes now, is accepted. */
  lemma PairAgainAccepted(v: Vault, cand: PeerCandidate, o: Options, fp: FingerprintOf, plan: PeerPlan,
                          address: Option<string>)
    requires IsPlan(v, cand, o, fp, plan)
    ensures Accepts(plan.vault, cand.(address := address), o, fp)
  {
    var peers, peers' := TableOf(v), TableOf(plan.vault);
    var again := cand.(address := address);
    forall other ensures !SameKeysElsewhere(peers', again, other) {
      assert !SameKeysElsewhere(peers, cand, other);
    }
    if !o.replace {
      forall other ensures !Clash(peers', cand.id, plan.peer.name, other) {
        assert !Clash(peers, cand.id, plan.peer.name, other);
      }
    }
  }

  /** And it is an update of its entry, of the address only, that leaves every other entry alone. */
  lemma PairAgain(v: Vault, cand: PeerCandidate, o: Options, fp: FingerprintOf, plan: PeerPlan,
                  address: Option<string>, again: PeerPlan)
    requires IsPlan(v, cand, o, fp, plan)
    requires IsPlan(plan.vault, cand.(address := address), o, fp, again)
    requires o.replace ==> TableOk(v, fp)
    ensures again.action == Update && again.replaced.None?
    ensures again.peer == plan.peer.(lastAddress := if address.Some? then address else plan.peer.lastAddress)
    ensures TableOf(again.vault) == TableOf(plan.vault)[cand.id := again.peer]
  {
    if o.replace {
      UpsertKeepsTable(v, cand, o, fp, plan);
      forall other ensures !Clash(TableOf(plan.vault), cand.id, plan.peer.name, other) {
        assert Distinct(TableOf(plan.vault), cand.id, other);
      }
    }
  }
}
