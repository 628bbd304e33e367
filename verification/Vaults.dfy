/** The vault and the fields of it that never leave the machine (src/core/vault.ts). */
module Vaults {
  import opened Wrappers

  datatype VarEntry = VarEntry(value: string, secret: bool, updatedAt: int)

  type VarMap = map<string, VarEntry>

  datatype Project = Project(createdAt: int, vars: VarMap)

  type Projects = map<string, Project>

  datatype Connection = Connection(
    provider: string,
    caption: Option<string>,
    createdAt: int,
    meta: map<string, string>,
    vars: VarMap)

  datatype PasskeyCredential = PasskeyCredential(
    id: string,
    publicKey: string,
    counter: int,
    rpId: string,
    caption: Option<string>,
    createdAt: int)

  datatype GithubGrant = GithubGrant(repositories: seq<string>, permissions: map<string, string>)

  datatype ApiKey = ApiKey(
    id: string,
    name: string,
    keyHash: string,
    prefix: string,
    projects: Option<seq<string>>,
    createdAt: int,
    expiresAt: Option<int>,
    github: Option<GithubGrant>)

  datatype KeyPair = KeyPair(publicKey: string, privateKey: string)

  datatype SyncIdentity = SyncIdentity(id: string, createdAt: int, ed25519: KeyPair, x25519: KeyPair)

  /** What the peer is relative to this vault. */
  datatype Role = Source | Receiver

  datatype SyncPeer = SyncPeer(
    name: string,
    idFingerprint: string,
    ed25519: string,
    x25519: string,
    role: Role,
    pairedAt: int,
    lastAddress: Option<string>)

  datatype Vault = Vault(
    projects: Projects,
    connections: Option<map<string, Connection>>,
    passkeys: Option<seq<PasskeyCredential>>,
    apiKeys: Option<map<string, ApiKey>>,
    syncIdentity: Option<SyncIdentity>,
    syncPeers: Option<map<string, SyncPeer>>)

  function EmptyVault(): Vault {
    Vault(map[], Some(map[]), None, None, None, None)
  }

  /** The copy that may leave the machine: bundles, sync bases, restores. */
  function WithoutDeviceLocal(v: Vault): Vault {
    v.(syncIdentity := None, syncPeers := None)
  }

  /** `incoming` with the device-local fields of `local`; those of `incoming` are dropped. */
  function KeepDeviceLocal(incoming: Vault, local: Vault): Vault {
    WithoutDeviceLocal(incoming).(syncIdentity := local.syncIdentity, syncPeers := local.syncPeers)
  }

  predicate HasDeviceLocal(v: Vault) {
    v.syncIdentity.Some? || v.syncPeers.Some?
  }

  /** What `loadVault` hands out: absent connection and API-key tables read as empty ones. */
  function Loaded(v: Vault): Vault {
    v.(connections := Some(v.connections.GetOr(map[])), apiKeys := Some(v.apiKeys.GetOr(map[])))
  }

  /** The entry a vault holds for one variable of one project, if any. */
  function Val(ps: Projects, project: string, key: string): Option<VarEntry> {
    if project in ps then Look(ps[project].vars, key) else None
  }

  /** The same projects with the same variables; creation stamps may differ. */
  ghost predicate SameVars(a: Projects, b: Projects) {
    a.Keys == b.Keys && forall p | p in a :: a[p].vars == b[p].vars
  }
}
