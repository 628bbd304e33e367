# abracadabra: vault sync, pairing, agent, and the arithmetic beside them

A Dafny model of the parts of abracadabra where states interleave, branch or compute, with proofs of what those
parts promise.

- **Vault sync.** `threeWayMerge` as loops over the vault (`Merge`), its laws (`MergeLaws`), resolving conflicts in
  two passes (`TwoPass`), the LAN client and host (`LanSync`), the USB commands (`UsbSync`) and one-way scoped sync
  (`SyncScope`, `ScopedSync`). `Replicas` takes every sync apart into one read and single writes, with anything else
  in between, for any number of machines and bundles; `Runs` proves what every run keeps and exactly what is lost
  when a step is not careful, `Traces` shows the shortest losses, `BasePairs` follows the stored bases, `Cuts` and
  `Recovery` stop a sync between its writes and run it again. `Fleets` and `FleetSyncs` show that what the commands
  store, on any number of machines and sticks, is such a run. `SyncOutcomes` says entry by entry what a merge, a forced
  or answered sync and its writes leave. `DeviceLocal` follows identities and peer tables over every writer of a vault.
- **Pairing.** The byte encoding under the transcript (`Bytes`, `Transcript`), the message channel (`LineChannels`),
  admission to the listener (`Admission`), one side as steps (`Pairing`) and as the program's code (`PairSessions`),
  both sides together over an honest and over a hostile channel (`PairWorld`), exactly when both or neither end up
  written (`PairAtomic`), runs in which one side writes alone and in which both do (`PairTrace`), and the peer table
  (`Peers`).
- **Vault agent.** The key buffer and its deadlines (`AgentStates`), reveal grants against a log (`Grants`), the
  request handler (`Agents`), whole runs of requests, timers and key store answers (`AgentRuns`), what requests come
  to in terms of those before them (`AgentOutcomes`) and the request framing (`AgentFraming`).
- **Arithmetic and encodings.** The unlock back-off (`Backoff`), Safe signature selection and packing
  (`SafeSignatures`, `Sorting`), decimal amounts (`Amounts`, `Decimals`).

## How no-lost-update is stated

`History.Follows(log, before, after)` says that every variable of `after` is reached from its entry in `before` by a
chain of user actions: edits, answered conflicts, approved project deletions. A world is `Replicas.Sound` when every
stored base is followed by both copies it belongs to, or a sync under way still owes the peer its copy, and when what
every sync read has only been built on since. The program checks none of the conditions `Replicas.Careful` lists: a
vault is overwritten only if in every variable it holds what was read or what is written; a sync's answers reach no
further than its conflicts, which shared resolution keys can make them do; nobody reads a pair whose sync owes the
peer its copy; such a sync ends only if the copies agree. `Runs.NoLostUpdate`: over every run of careful steps, in
any interleaving and abandoned anywhere, whatever replaces an entry on any copy came out of it by user actions.
`Runs.OverwriteIff`, `TwoPass.TwoPassIff` and `Recovery.ForcedBaseOnlyIff` say that the conditions are exact. With
edits that stamp later and answered conflicts won by the later side, `Runs.NoRollbackInRun` adds that an entry gives
way only to a later one unless somebody deleted the variable on the way.

## Where the program does not do what it promises

Each of these is a lemma about the code as it is, with the exact condition under which the promise holds.

- Nothing guards the time between reading a vault and overwriting it, in which users are asked on both machines. A
  change made meanwhile survives exactly if it is what gets written (`Runs.OverwriteIff`, `Runs.LeftAloneIff`). In
  `Traces.PushErasesAnEdit` two machines are in sync, and the push of an unchanged vault erases the other side's edit.
- A resolution is filed under `scope/key`, and names may contain a slash. Two conflicts can share one answer, and an
  answer can overwrite a variable that was not in conflict. Every set of answers is honoured exactly when the keys
  are separate (`TwoPass.TwoPassIff`); names without slashes, and no shared project named like `connections/…`,
  suffice (`TwoPass.PlainNamesSeparate`); `TwoPass.SlashedNamesShareAnAnswer` is the smallest failing pair.
- With an empty report the USB commands store the local vault as base and leave the bundle alone, and the LAN client
  stores it before it pushes. If the peer's copy stays behind, the next sync takes the peer's older entries back; what
  is lost is exactly what was changed here and not there (`Recovery.BaseOnlyThenSync`). The base is a common ancestor
  exactly when there is no such change, that is when the copies agree (`Recovery.BaseOnlyIff`); for a forced sync, also
  where conflicts were answered with ours and theirs had come out of ours (`Recovery.ForcedBaseOnlyIff`).
  `Traces.UsbRevertsAnEdit` is the two-sync trace.
- Over USB a sync that had something to report is not safe to retry. If it stops after the local write, the retry
  takes the empty-report path whenever merge and bundle name the same projects, and leaves the two copies apart
  unless they agreed (`Recovery.UsbRetryIff`; `Traces.UsbRetryReverts` loses an edit that way). Over LAN the
  retry of a sync that had something to report finishes it (`Recovery.RetryFinishes`). One that had nothing to report
  is not safe to retry there either: if it stopped after its base write, the retry takes our entries back unless the
  machines agreed (`Recovery.QuietRetryIff`).
- The report does not list credentials of connections. With nothing else to report a LAN sync pushes our vault as it
  is, so a credential changed on the host only is overwritten, although the merge would have kept it: both end with
  what the merge says exactly if the two agreed or we changed ours (`SyncOutcomes.QuietPushOverCredentials`).
- Two overlapping `unlock` calls drop a key buffer that still holds the key (`AgentStates.AgentState.UnlockFinish`
  says when, `Agents.OverlappingUnlocks` does it), and a maximum age of zero or less turns the absolute deadline off.
- The agent's frame limit is put on everything buffered, so the end of one request and the start of the
  next are accepted one after the other and refused in one chunk, however small that chunk is (`AgentFraming.OpenIff`,
  `AgentFraming.CutMatters`, `AgentFraming.CutMattersFor`). The pairing channel limits the unfinished
  line only and does not have this property.
- With zero decimals a printed amount is not accepted back (`Amounts.RoundTripIff`).
- Pairing is not atomic: one side may write while the other gives up (`PairTrace.OneSideMayWriteAlone`). Between
  honest sides both have written or neither has, once both ended, unless both users said yes and then exactly one
  side stopped waiting for the other's yes or failed to write (`PairAtomic.AtomicIff`).

## Model

| member | source | states |
|---|---|---|
| `Merge.DecideKey` | src/core/sync.ts:168-189 | one key is decided by the base/ours/theirs table; a manual choice only counts when the sides differ; a clash is pushed onto the shared conflict list |
| `Merge.MergeVarMaps` | src/core/sync.ts:157-192 | the loop yields exactly the keys the table keeps, and pushes each clash once |
| `Merge.MergeProjects` | src/core/sync.ts:194-253 | merged projects, conflicts, report lines and deletions are exactly those of the specification, each once |
| `Merge.MergeConnections` | src/core/sync.ts:255-289 | the same for connections: our own fields win, `meta` is united with ours on top, credentials go through the table |
| `Merge.ThreeWayMerge` | src/core/sync.ts:291-331 | the whole result: merged vault with our device-local fields, conflicts, report, deletions |
| `MergeLaws.SettlesIffNoConflict` | src/core/sync.ts:180-189 | no conflict is listed exactly when every shared variable has a verdict |
| `MergeLaws.MergedVal` | src/core/sync.ts:212-239 | where each variable of the merged projects comes from |
| `MergeLaws.Presence` | src/core/sync.ts:216-237 | a project is absent from the result iff both sides lack it or its deletion is listed |
| `MergeLaws.Mirror` | src/core/sync.ts:157-253 | swapping the sides gives the same variables, with conflicts and deletions mirrored |
| `MergeLaws.NullBaseKeepsAll` | src/core/sync.ts:112-119 | without a base nothing is dropped or invented except keys reported as conflicts |
| `MergeLaws.ChangeSurvives` | src/core/sync.ts:180-189 | what a side changed since the base is in the result, or it is a reported conflict or a listed deletion |
| `MergeLaws.UnchangedStays` | src/core/sync.ts:171-185 | what nobody changed stays |
| `MergeLaws.MergeAgain` | src/core/sync.ts:157-253 | a conflict-free merge is a fixed point: merged again with either old side, or with itself over any base, it is unchanged and conflict-free |
| `MergeLaws.QuietIffOurs` | src/core/sync.ts:218-250 | the project report is empty exactly when both sides name the same projects and the merge is ours |
| `TwoPass.CollectResolutions` | src/commands/usb.ts:180-208 | the loop's map: a later conflict under the same key overwrites an earlier one |
| `TwoPass.CollectedIs` | src/commands/usb.ts:204-206 | a key of that map holds the entry of the side chosen for the last conflict filed under it |
| `TwoPass.SecondPassHasNoConflict` | src/usb/lan-client.ts:363-376 | one choice per probed conflict leaves the second merge without conflicts |
| `TwoPass.TwoPassIff` | src/commands/usb.ts:389-402 | every set of answers is honoured, each conflict ending as the chosen side has it (absent if that side lacks it) and nothing else changed, exactly when no two keys coincide |
| `TwoPass.ResolutionKeyInjective` | src/core/sync.ts:175-176 | for keys without a slash the string key determines scope and key |
| `TwoPass.PlainNamesSeparate` | src/core/sync.ts:175-176 | with plain names the condition of the previous rows holds for every merge |
| `TwoPass.SlashedNamesShareAnAnswer` | src/commands/usb.ts:204-206 | two answers given, one entry stored in both places |
| `SyncOutcomes.MergedEntry` | src/core/sync.ts:157-289 | what every variable and credential of the merge is, by what ours, theirs, the base and the answers hold |
| `SyncOutcomes.MergedWhole` | src/core/sync.ts:216-240 | a project one side has comes whole, or goes if the base had it; a shared one keeps our creation stamp |
| `SyncOutcomes.MergedConnectionWhole` | src/core/sync.ts:269-287 | a connection one side has comes whole; in a shared one our own fields and meta win |
| `SyncOutcomes.MergedRest` | src/core/sync.ts:307-325 | passkeys and API keys: ours if changed since the base, else theirs; identity and peers: ours |
| `SyncOutcomes.ConflictsListed` | src/core/sync.ts:186-188 | the conflicts are exactly the entries both changed differently and nobody answered |
| `SyncOutcomes.DeletionsListed` | src/core/sync.ts:226-229 | the deletions, each under the side that dropped the project |
| `SyncOutcomes.LinesListed` | src/core/sync.ts:219-286 | exactly when each line of the report is there |
| `SyncOutcomes.ForcedEntry` | src/usb/lan-client.ts:363-369 | forcing a side: what was in conflict ends as that side has it, everything else as unforced |
| `SyncOutcomes.AskedEntry` | src/commands/usb.ts:180-208 | asking: each conflict ends as the side named in its answer |
| `History.NoRollback` | src/core/sync.ts:180-189 | along user actions with growing stamps an entry gives way only to a later one, or the variable was deleted on the way |
| `History.GrowingIsAcyclic` | src/core/sync.ts:180-189 | with growing stamps and no deletion no entry of a variable ever comes back |
| `Replicas.MergedSide` | src/core/sync.ts:171-185 | where nothing needs approval the merge takes one side, and the other still holds the base |
| `Replicas.MergeFollows` | src/core/sync.ts:157-253 | from a common ancestor, each side reaches the merge by edits and by what was approved for it |
| `Replicas.NothingToApprove` | src/usb/lan-client.ts:377-380 | without a conflict and without a deletion nothing needs approval |
| `Runs.StepFollows` | src/usb/lan-client.ts:357-397 | one careful step, a single read or write of a sync among them, replaces entries only by what came out of them |
| `Runs.StepKeepsSound` | src/usb/lan-client.ts:385-397 | a careful step keeps every base explained and every open sync's reading an ancestor |
| `Runs.NoLostUpdate` | src/usb/lan-client.ts:350-399 | over every careful run, in any interleaving and abandoned anywhere, no update is lost on any copy; answers may be any, shared keys included, and the careful ones settle conflicts only |
| `Runs.RunsFromNothing` | src/usb/lan-client.ts:350-399 | machines that begin empty are sound after every careful run |
| `Runs.ForwardStamps` | src/commands/usb.ts:193-206 | edits that stamp later and answers won by the later side keep stamps growing |
| `Runs.NoRollbackInRun` | src/usb/lan-client.ts:350-399 | over such a run an entry gives way only to a later one, or somebody deleted the variable |
| `Runs.OverwriteIff` | src/usb/lan-client.ts:393-396 | overwriting a vault loses nothing exactly when in every variable it holds what was read or what is written, given that nobody replaced the difference yet |
| `Runs.LeftAloneIff` | src/usb/lan-host.ts:371-388 | where the merge leaves a copy as it was read, an entry survives exactly if it is still what was read, in an acyclic history |
| `BasePairs.StepKeepsMirrored` | src/usb/lan-host.ts:388-389 | one step keeps the two bases of a pair equal, or between the two writes of one sync |
| `BasePairs.BasesStayMirrored` | src/usb/lan-host.ts:388-389 | over every run in which LAN syncs complete, one at a time per pair, the two bases of every pair are equal |
| `BasePairs.DiffersOnlyWhereChanged` | src/core/sync.ts:128-142 | until a base is written again, its machine differs from it only where an edit or a sync changed the variable there since; user actions, whenever made, lead from the base's entry to it |
| `Cuts.CompletedSync` | src/usb/lan-client.ts:385-398 | a completed LAN sync leaves both vaults' projects and both bases equal |
| `Cuts.EndedIsCut` | src/usb/lan-client.ts:385-397 | a sync with nothing in between is a run of single steps, careful unless it ends in debt |
| `Cuts.CutLosesNothing` | src/usb/lan-client.ts:385-397 | such a sync, cut off anywhere, loses nothing and adds to the log only what was agreed to, unless it ends with its base written and a differing peer |
| `Recovery.RetryFinishes` | src/usb/lan-client.ts:385-397 | over LAN a reporting sync, forced or not, cut off after any write and run again with the same sides picked, ends with the vaults the uncut sync leaves, whichever path the retry takes |
| `Recovery.QuietRetryIff` | src/usb/lan-client.ts:385-397 | over LAN a sync with nothing to report, forced or not, cut off and run again, ends as the uncut one exactly when it was not cut after its base write or the machines agreed |
| `Recovery.UsbRetryIff` | src/commands/usb.ts:443-460 | over USB the retry leaves both copies alike exactly when the bundle was written, or something else is reported, or the project names differ, or the variables agreed |
| `Recovery.ReportingRestores` | src/commands/usb.ts:448-460 | the bundle-writing path leaves local, bundle and base equal |
| `Recovery.QuietDiffers` | src/core/sync.ts:241-250 | with an unforced empty report the copies differ exactly in what was changed here and not there |
| `Recovery.BaseOnlyRestoresIff` | src/commands/usb.ts:1051-1056 | after the empty-report path the base is the local vault, and the peer agrees exactly when nothing was changed here that it lacks |
| `Recovery.BaseOnlyIff` | src/commands/usb.ts:443-446 | unforced, the base so written is a common ancestor exactly when nothing was changed here only, that is when the copies agree |
| `Recovery.ForcedBaseOnlyIff` | src/commands/usb.ts:443-446 | forced or not, exactly when nothing was changed here only and every conflict answered with ours had theirs come out of ours |
| `Recovery.BaseOnlyThenSync` | src/commands/usb.ts:443-446 | the next sync yields to the untouched peer and loses exactly what was changed here and not there |
| `Traces.PushErasesAnEdit` | src/usb/lan-client.ts:383-391 | in sync, an edit on the host while the client's user is asked: the push takes it back, and no user action explains it |
| `Traces.UsbRevertsAnEdit` | src/commands/usb.ts:430-463 | back up, edit, sync, sync: the edit is gone |
| `Traces.UsbRetryReverts` | src/commands/usb.ts:443-460 | a sync that fails on the stick, its retry, and the next sync: the edit is gone |
| `LanSync.PeerIdsDistinct` | src/core/sync.ts:145-151 | peer ids of different peers, and of different kinds, never coincide |
| `LanSync.Device.LoadSyncState` | src/core/sync.ts:116-122 | the stored base of that peer, or none |
| `LanSync.Device.SaveSyncState` | src/core/sync.ts:128-142 | one peer's entry is replaced, without device-local fields, and every other stays; no id, no write |
| `LanSync.LanHost.Gate` | src/usb/lan-host.ts:223-235 | stopped, expired, locked, in that order |
| `LanSync.LanHost.CheckPin` | src/usb/lan-host.ts:254-259 | only the right PIN passes; the eighth wrong one locks, and no more are counted |
| `LanSync.LanHost.ScopedNames` | src/usb/lan-host.ts:261-323 | served iff the names are allowed, known and within the host's scope; otherwise which status |
| `LanSync.LanHost.Pull` | src/usb/lan-host.ts:252-340 | exactly when the full vault or the asked-for projects go out; never changes the vault, never hands out an identity or a reserved project |
| `LanSync.LanHost.ServableIff` | src/usb/lan-host.ts:261-323 | served are non-empty lists of known, unreserved names, none beyond the scope of a host that has one |
| `LanSync.LanHost.ServedInScope` | src/usb/lan-host.ts:278-284 | what goes out are the projects named, all of them within that scope |
| `LanSync.LanHost.Push` | src/usb/lan-host.ts:342-393 | the status of every push, in the order it is checked; when taken, the vault is replaced, own identity and peers kept, base saved, session over; otherwise nothing changes |
| `LanSync.ForceResolutions` | src/usb/lan-client.ts:363-369 | for every conflict of the probe, in the order listed, the forced side; `TwoPass.CollectedIs` says which entry that is |
| `LanSync.MergeAndGate` | src/usb/lan-client.ts:363-383 | which gate stops the sync, if any: unanswered conflicts, then deletions, then the user; past them the merge is conflict-free |
| `LanSync.PushTo` | src/usb/lan-host.ts:342-393 | the host takes a push iff it is still open, may lose the projects missing from it, and its user agrees |
| `LanSync.WriteLanSync` | src/usb/lan-client.ts:385-398 | both machines after the writes, whatever they held when the writes began, and exactly when the push is taken |
| `LanSync.ApplyLanSync` | src/usb/lan-client.ts:350-399 | every outcome exactly, a session that expires or is stopped between pull and push included: refused pulls and gates change nothing, otherwise the writes of the previous row |
| `SyncOutcomes.GatesIff` | src/usb/lan-client.ts:377-383 | which gate stops a sync; past them nothing is in conflict, no deletion is unallowed and the user approved |
| `SyncOutcomes.LanLeavesAlike` | src/usb/lan-client.ts:393-397 | a reporting sync that went through: both machines hold the merge and keep their own identity and peers, both bases hold it, no other base moves |
| `SyncOutcomes.LanLeavesOurs` | src/usb/lan-client.ts:385-390 | one with nothing to report: both hold our vault and have it as base |
| `SyncOutcomes.LanForcedEntry` | src/usb/lan-client.ts:363-397 | under a forced side every variable in conflict ends as that side had it, on every machine written |
| `SyncOutcomes.LanDropsNoProject` | src/usb/lan-client.ts:378-380 | without the permission to delete no project of either machine goes |
| `SyncOutcomes.HostKeepsProjects` | src/usb/lan-host.ts:371-388 | nor does a host that does not allow it lose one to a push |
| `SyncOutcomes.QuietPushOverCredentials` | src/usb/lan-client.ts:385-390 | with nothing to report the credentials end as ours, which is what the merge says exactly if the two agreed or we changed ours |
| `UsbSync.WriteSync` | src/commands/usb.ts:443-460 | the two write paths: base alone, or vault, bundle and base |
| `UsbSync.ApplySync` | src/commands/usb.ts:353-463 | the dash's sync: which gate stops it, refusals change nothing, otherwise one of the two paths with a conflict-free merge |
| `UsbSync.SyncCommand` | src/commands/usb.ts:988-1072 | the command line's sync: one asked answer per conflict of the probe, deletions allowed by flag or by typing, then the same writes |
| `SyncOutcomes.UsbLeavesAlike` | src/commands/usb.ts:448-460 | a refreshed bundle holds the merge under the lineage it had, a minted one only if it had none; the base is kept under that lineage |
| `SyncOutcomes.UsbLeavesOurs` | src/commands/usb.ts:443-446 | with nothing to report stick and vault stay and the base becomes our vault |
| `SyncOutcomes.OtherBasesStillFound` | src/commands/usb.ts:450-460 | whatever another machine stored for this stick is still found under it |
| `SyncOutcomes.UsbForcedEntry` | src/commands/usb.ts:389-402 | under a forced side every variable in conflict ends as that side had it, on machine and stick |
| `SyncOutcomes.UsbDropsNoProject` | src/commands/usb.ts:438 | without the permission to delete no project goes |
| `Fleets.WriteIsStep` | src/usb/lan-client.ts:393-397 | each single write, whatever the machines and sticks hold by then, is one step of the world they make up |
| `Fleets.SeparateAnswersOnly` | src/usb/lan-client.ts:363-369 | answers to a probe's conflicts settle nothing else if no two names share a key |
| `FleetSyncs.LanSyncIsRun` | src/usb/lan-client.ts:382-398 | what a LAN sync stores, pushed or refused, is a run of the whole fleet |
| `FleetSyncs.LanSyncLosesNothing` | src/usb/lan-client.ts:382-398 | so it loses nothing on any machine or stick, with the log grown by nothing but what its user agreed to, unless an empty-report push was refused between differing machines |
| `FleetSyncs.UsbSyncIsRun` | src/commands/usb.ts:443-460 | what a USB sync stores is a run of the whole fleet, the stick's lineage kept, the base-only write exactly on the empty-report path |
| `FleetSyncs.UsbSyncLosesNothing` | src/commands/usb.ts:443-460 | so it loses nothing and the stick keeps its lineage, with the log grown by nothing but what its user agreed to, unless it had nothing to report and the stick differed |
| `SyncScope.AssertScopeNamesAllowed` | src/core/sync-scope.ts:18-40 | accepted iff there are names and each is non-empty and unreserved once trimmed; yields each once |
| `SyncScope.ValidateScope` | src/core/sync-scope.ts:43-50 | additionally every name is a project of the vault |
| `SyncScope.ExtractScopedProjects` | src/core/sync-scope.ts:53-64 | exactly the named projects |
| `SyncScope.ScopeAllowedIff` | src/core/sync-scope.ts:18-40 | allowed are names that are not blank and do not begin like a reserved one |
| `SyncScope.MergeScopedProjects` | src/core/sync-scope.ts:75-134 | only projects change, and the report lists exactly what was new, added, changed or kept in conflict |
| `SyncScope.ScopedTable` | src/core/sync-scope.ts:102-122 | what every variable is afterwards, by what both sides hold |
| `SyncScope.ScopedWhole` | src/core/sync-scope.ts:92-126 | no project goes, a new one comes whole |
| `SyncScope.ScopedReportIs` | src/core/sync-scope.ts:92-122 | exactly what is reported as new, added, changed or in conflict |
| `SyncScope.NeverDeletes` | src/core/sync-scope.ts:71-74 | no local entry is lost; without `theirs` none changes |
| `SyncScope.EverythingSentArrives` | src/core/sync-scope.ts:103-120 | every variable that was sent is there afterwards, with `theirs` in content as sent |
| `SyncScope.OthersUntouched` | src/core/sync-scope.ts:71-74 | projects that were not sent stay as they are |
| `SyncScope.ScopedTwice` | src/core/sync-scope.ts:75-134 | merging the same projects again changes nothing |
| `SyncScope.ChangedIff` | src/core/sync-scope.ts:128-131 | `changed` is true exactly when the projects changed |
| `SyncScope.ReservedStaysOut` | src/core/sync-scope.ts:27-31 | no accepted scope holds the treasury or another reserved project |
| `ScopedSync.ScopedLanSync` | src/usb/lan-client.ts:405-498 | every outcome exactly: refused unless the payload is in scope; bases never change; the vault changes only by the scoped merge, when approved, never on a dry run |
| `ScopedSync.PayloadOkIff` | src/usb/lan-client.ts:430-470 | which payloads are let in: allowed names only, and none that was not asked for |
| `ScopedSync.ScopedSyncStaysInScope` | src/usb/lan-client.ts:445-470 | whatever a host sends, reserved projects and projects not asked for stay as they were |
| `DeviceLocal.GetOrCreateSyncIdentity` | src/sync/identity.ts:117-129 | an identity is minted only where there is none; a malformed one is an error, never replaced |
| `DeviceLocal.StepKeepsOwn` | src/core/vault.ts:116-128 | no merge, push, scoped merge or send changes a machine's identity or peers; a restore only drops them |
| `DeviceLocal.RunIsolated` | src/core/vault.ts:112-132 | in every run machines hold only identities and peer tables made on them, and what leaves them carries neither |
| `DeviceLocal.NoSharedIdentity` | src/core/vault.ts:264-272 | two machines never come to share an identity |
| `DeviceLocal.OwnUntilMintOrRestore` | src/core/sync.ts:316-325 | identity and peers stand still until minted, restored or paired on that machine |
| `Bytes.LengthPrefixed` | src/sync/identity.ts:132-140 | succeeds iff every part is shorter than 2^32, with the framing of the parts |
| `Bytes.UnframeFramed` | src/sync/identity.ts:131-140 | a parser reads the parts back |
| `Bytes.FramedUnframe` | src/sync/identity.ts:131-140 | and accepts nothing but framings |
| `Bytes.FramedInjective` | src/sync/identity.ts:131 | the concatenation is unambiguous |
| `Bytes.Utf8Injective` | src/sync/sas.ts:36-40 | different texts have different UTF-8 bytes |
| `Bytes.Utf8CharReads` | src/sync/sas.ts:36-40 | the bytes of one character are those of its UTF-8 encoding |
| `Bytes.BigEndianReads` | src/sync/identity.ts:135-136 | the length is written most significant byte first |
| `Transcript.NormalizeTwice` | src/sync/sas.ts:32-34 | a normalised fingerprint is hex only and normalises to itself |
| `Transcript.NormalizeKeeps` | src/sync/sas.ts:32-34 | hex digits are kept in order as small letters, everything else is dropped |
| `Transcript.TextsAre` | src/sync/sas.ts:36-55 | which texts are hashed, in which order |
| `Transcript.TranscriptReads` | src/sync/sas.ts:43-55 | the hashed bytes read back as those texts |
| `Transcript.TranscriptBinds` | src/sync/sas.ts:43-55 | equal transcript bytes iff equal certificate, ids, names, keys, nonces and settled roles |
| `Transcript.SignatureBinds` | src/sync/sas.ts:57-79 | a signature verifies for its key, its side and its transcript only |
| `Peers.ResolveRoles` | src/sync/peers.ts:41-52 | refused iff the connector asks for the listener's own role; otherwise the roles differ |
| `Peers.PlanPeerUpsert` | src/sync/peers.ts:92-171 | accepted iff the candidate is admissible and its name valid and free or replaceable; the whole new table |
| `Peers.AcceptsIff` | src/sync/peers.ts:92-147 | exactly who is accepted: not this vault itself, known under the same keys and role or not at all, a proper name nobody else has or that may be replaced |
| `Peers.UpsertLeaves` | src/sync/peers.ts:139-170 | the entry stored, and nothing else but the one that gave up its name |
| `Peers.PeerNameIff` | src/sync/peers.ts:4-15 | which names are proper |
| `Peers.FindPeer` | src/sync/peers.ts:174-179 | an id wins over a name; nothing iff neither matches |
| `Peers.RemovePeer` | src/sync/peers.ts:181-187 | removes exactly the peer found |
| `Peers.UpsertKeepsTable` | src/sync/peers.ts:104-148 | one upsert keeps the invariant of the next row |
| `Peers.TableHolds` | src/sync/peers.ts:86-187 | over every run from an empty table: names and signing keys distinct, fingerprints of the keys, never this vault's own identity |
| `Peers.StepTouches` | src/sync/peers.ts:152-167 | one step drops at most the entry it names and changes no other than the candidate's |
| `Peers.KeysChangeOnlyAfterRemoval` | src/sync/peers.ts:113-126 | an id's keys and role never change without its removal in between |
| `Peers.RemovesOne` | src/sync/peers.ts:173-179 | in a table of any run at most one entry answers to a name or id |
| `Peers.PairAgainAccepted` | src/sync/peers.ts:86-91 | pairing again with the same machine is accepted, from whatever address |
| `Peers.PairAgain` | src/sync/peers.ts:86-91 | pairing again with the same machine, from any address, updates that address and nothing else |
| `LineChannels.AcceptConcat` | src/sync/pair.ts:138-164 | reading in two pieces is reading at once |
| `LineChannels.SplitDoesNotMatter` | src/sync/pair.ts:112-115 | with every line within the limit the messages do not depend on the chunks |
| `LineChannels.ArrivedIsPrefix` | src/sync/pair.ts:165-168 | whatever the lengths, what arrives is a beginning of what the stream means |
| `LineChannels.LinesArrive` | src/sync/pair.ts:138-164 | good lines, however cut, arrive as what they parse to, each once and in order; blank ones contribute nothing, the unfinished one is kept |
| `LineChannels.EveryLineArrives` | src/sync/pair.ts:138-164 | without blank lines: exactly the messages of the lines |
| `LineChannels.BadLineEnds` | src/sync/pair.ts:145-156 | the first bad line closes the channel; what came before it has arrived and nothing after it does |
| `LineChannels.OpenIsBounded` | src/sync/pair.ts:165-168 | an open channel holds back at most 16 KiB |
| `LineChannels.TooLongCloses` | src/sync/pair.ts:165-168 | a longer unfinished line closes it |
| `LineChannels.LineChannel.OnData` | src/sync/pair.ts:138-169 | waiters are served in order, the rest is queued, a bad or over-long line closes the channel after what preceded it |
| `LineChannels.LineChannel.Fail` | src/sync/pair.ts:171-178 | the first error stands, waiters are rejected, queued frames stay |
| `LineChannels.LineChannel.Next` | src/sync/pair.ts:189-200 | a queued frame even after the end, else the error, else a place in the line; each message handed out once |
| `LineChannels.LineChannel.TimeOut` | src/sync/pair.ts:194-197 | a timed-out caller consumes nothing and moves nobody |
| `Admission.PairListener.OnConnection` | src/sync/pair.ts:493-499 | turned away when busy or settled |
| `Admission.PairListener.OnFirst` | src/sync/pair.ts:500-527 | enters iff the PIN is right and nobody entered and nothing settled meanwhile |
| `Admission.PairListener.OnSessionEnd` | src/sync/pair.ts:528-544 | settles with the session's outcome unless settled before |
| `Admission.AdmissionSafe` | src/sync/pair.ts:468-546 | every interleaving: at most one admitted, with the right PIN; at most eight wrong PINs compared; no expiry while a session runs |
| `Admission.SettledForGood` | src/sync/pair.ts:482-489 | once settled, by whatever event, the outcome stands and nobody else is admitted or compared |
| `Admission.SessionDecides` | src/sync/pair.ts:528-544 | the admitted session's end decides the outcome unless the server failed first |
| `Admission.OutcomeIff` | src/sync/pair.ts:482-556 | over every legal run the result is that of the first event that decides: expiry, server error, the session's end, the eighth wrong PIN |
| `Admission.ExpirySettles` | src/sync/pair.ts:552-553 | once the time is up it has expired for good, with nobody admitted and no further PIN compared |
| `Admission.AdmittedIff` | src/sync/pair.ts:508-526 | a socket is admitted exactly if it first brought the right PIN before anything was decided |
| `Admission.SocketAfter` | src/sync/pair.ts:493-546 | what each event does to its socket: let in until someone entered or the outcome is decided |
| `PairSessions.PairSession.OnFirst` | src/sync/pair.ts:587-618 | the listener's introduction: every refusal, or a signed answer |
| `PairSessions.PairSession.OnHello` | src/sync/pair.ts:733-778 | the connector's: nothing is signed before the listener's signature verified |
| `PairSessions.PairSession.OnSig` | src/sync/pair.ts:620-633 | the listener goes on only with a signature over its own transcript |
| `PairSessions.PairSession.OnAnswer` | src/sync/pair.ts:311-324 | the answer is sent, and anything but a yes ends the pairing |
| `PairSessions.PairSession.OnConfirm` | src/sync/pair.ts:326-342 | only an explicit yes goes on to saving |
| `PairSessions.PairSession.OnStore` | src/sync/pair.ts:344-373 | the write: identity unchanged, peer rules applied to the vault just read, acknowledged as it went, and only after both yeses |
| `PairSessions.PairSession.OnAck` | src/sync/pair.ts:375-386 | `peerSaved` iff the peer acknowledged |
| `PairSessions.PairSession.OnMessage` | src/sync/pair.ts:587-633 | any message, or none in time, writes nothing and takes nothing back that was said or written |
| `Pairing.SessionKept` | src/sync/pair.ts:299-397 | every event keeps the session invariant, and nothing said, written or sent is taken back |
| `Pairing.CandidateIff` | src/sync/pair.ts:587-615 | when the roles fit, and what is then recorded of the peer |
| `Pairing.StoreBaseIff` | src/sync/pair.ts:346-357 | which vaults may be written at the end, and on what |
| `Pairing.RefusalIsSent` | src/sync/pair.ts:587-633 | whoever refuses an introduction tells the peer |
| `Pairing.WhyHeard` | src/sync/pair.ts:311-342 | a recorded yes was answered here, and a heard yes arrived after it |
| `Pairing.WriteNeedsBothConfirms` | src/sync/pair.ts:294-363 | against any peer and network a write comes after the local yes and then the peer's, with the peer's key proven |
| `PairWorld.SameDigestAgrees` | src/sync/pair.ts:601-615 | equal digests: both records name the other's id and keys, in complementary roles, and the certificate seen is the one shown |
| `PairWorld.SignatureAgrees` | src/sync/pair.ts:631-633 | over a hostile channel, being shown the peer's real key and accepting its signature suffices for the same |
| `PairWorld.PairingSafe` | src/sync/pair.ts:299-397 | honest sides, every interleaving: a write on either means both said yes to one transcript and the records agree; `peerSaved` never lies |
| `PairWorld.ComparedCodesSuffice` | src/sync/pair.ts:311-320 | on a channel where anything may be changed, even with another certificate, users who compare codes end up with the real peer on record |
| `PairAtomic.WroteIff` | src/sync/pair.ts:326-363 | between honest sides, one that ended has written exactly if both users said yes and it did not give up in that way |
| `PairAtomic.AtomicIff` | src/sync/pair.ts:299-397 | once both ended: both wrote or neither did, exactly unless both users said yes and one side, not the other, gave up waiting for the yes or failed to write |
| `PairTrace.OneSideMayWriteAlone` | src/sync/pair.ts:326-334 | from the first message, for any two sides that can pair: both users say yes, one side writes, the other gives up waiting |
| `PairTrace.OneSideWroteAlone` | src/sync/pair.ts:326-334 | two such sides, with the real transcript hash |
| `PairTrace.BothMayWrite` | src/sync/pair.ts:299-397 | any two sides that can pair do: both say yes, nobody gives up, both write and both know it |
| `PairTrace.SeenByEachOther` | src/sync/pair.ts:234-244 | what each is about to record of the other: id, keys, name, complementary role |
| `PairTrace.BothSidesWrote` | src/sync/pair.ts:299-397 | two such sides, with the real transcript hash |
| `Grants.HeldIffAddedLast` | src/agent/grants.ts:106-136 | a grant is held iff it was added and nothing with its id, and no lock, came after |
| `Grants.GrantStore.Add` | src/agent/grants.ts:55-109 | accepted iff time to live, project and caller are valid; recorded with the trimmed project |
| `Grants.AddableIff` | src/agent/grants.ts:55-95 | a minute up to eight hours, a project that is not blank, a caller with a path |
| `Grants.GrantStore.Check` | src/agent/grants.ts:143-162 | granted iff there is a live grant for that project and the very exe, dev and ino |
| `Grants.GrantStore.List` | src/agent/grants.ts:111-123 | exactly the live grants, each once |
| `Grants.GrantStore.Revoke` | src/agent/grants.ts:125-141 | what is taken back and how many: everything, or exactly the grant of that id |
| `Grants.GrantStore.PruneExpired` | src/agent/grants.ts:165-175 | deletes exactly the expired and changes nothing the log holds |
| `Grants.GrantStore.OnPruneTimer` | src/agent/grants.ts:187-196 | invisible, whenever it fires |
| `Grants.GrantStore.ArmPruneTimer` | src/agent/grants.ts:177-196 | due at the earliest expiry still to come, in the future, and off iff there is none |
| `Grants.DeleteExpired` | src/agent/grants.ts:165-172 | what is left and the count |
| `Grants.Items` | src/agent/grants.ts:113-122 | one item for each grant held, no id twice |
| `Grants.Matching` | src/agent/grants.ts:149-160 | a grant for that project and binary that has not expired, if there is one |
| `AgentStates.AgentState.Lock` | src/agent/state.ts:120-130 | no key, no timers, zero stamps, no grants, and the buffer overwritten |
| `AgentStates.AgentState.GetStatus` | src/agent/state.ts:53-66 | reports the time left until the armed deadlines |
| `AgentStates.AgentState.RequireKey` | src/agent/state.ts:73-81 | a key is returned only strictly before unlock plus maximum age, however late timers run |
| `AgentStates.AgentState.Touch` | src/agent/state.ts:132-137 | moves the idle deadline only |
| `AgentStates.AgentState.UnlockStart` | src/agent/state.ts:83-88 | the part before the key store is read |
| `AgentStates.AgentState.UnlockFinish` | src/agent/state.ts:89-98 | the part after it; buffers stay clean iff no live key was held by then; which buffers were let go |
| `AgentStates.AgentState.UnlockWithKey` | src/agent/state.ts:104-118 | a held key is overwritten first, the age starts anew, grants stay; locked at once if the age ran out meanwhile |
| `AgentStates.AgentState.ArmMaxAgeTimer` | src/agent/state.ts:158-172 | armed at unlock plus maximum age, or locked at once when that has passed |
| `AgentStates.AgentState.OnPruneTimer` | src/agent/grants.ts:187-196 | nothing of the key changes when the grants' timer fires |
| `AgentStates.AgentState.OnTimer` | src/agent/state.ts:147-172 | either timer, whenever it fires, leaves the locked state |
| `Agents.Agent.HandleRequest` | src/agent/server.ts:193-443 | the answer to every request and the whole state after it: key, its age, its activity, the log of grants and the vault file; requests of other programs change nothing; a buffer is let go only overwritten |
| `Agents.Agent.FinishUnlock` | src/agent/server.ts:246-248 | the rest of an unlock: the state after it, and exactly when a buffer is let go with a key in it |
| `Agents.Agent.OnTimer` | src/agent/server.ts:558-566 | any timer, late or on time: a key timer leaves the locked state with the grants gone, the prune timer changes nothing requests can see |
| `Agents.OverlappingUnlocks` | src/agent/state.ts:83-98 | on a new agent, two unlocks started and then finished leave a buffer with a key in it |
| `Agents.Agent.LoadOp` | src/agent/server.ts:299-321 | each refusal in its order, or the vault exactly when bound, usable now and at the later reading, and of this key; counts as activity |
| `Agents.Agent.SaveOp` | src/agent/server.ts:322-339 | refused, or the file afterwards holds that vault under the held key, exactly when bound and usable |
| `Agents.Agent.UnlockKeyOp` | src/agent/server.ts:250-292 | accepted exactly when the binding is right and the key opens the file; then a fresh unlock with grants kept; the decoded buffer is overwritten either way |
| `Agents.Agent.CheckOp` | src/agent/server.ts:404-421 | refused while locked, otherwise granted exactly on a live grant in the log; no deadline moves |
| `AgentRuns.KeyHeldIff` | src/agent/state.ts:73-137 | after any run a key is held exactly if some command brought it in and no later one replaced it, locked, fired a key timer or found it too old; its age counts from there |
| `AgentRuns.GrantHeldIff` | src/agent/grants.ts:106-141 | after any run a grant is held exactly if an authorised, accepted request gave it while unlocked, and nothing since took it back, replaced it or locked |
| `AgentRuns.FileIsIff` | src/agent/server.ts:322-339 | after any run the vault file is what was stored last |
| `AgentRuns.CheckIff` | src/agent/server.ts:404-421 | whatever requests and timers came before, a check is granted exactly if a key is in force and so is a grant for that project and that binary |
| `AgentRuns.LoadIff` | src/agent/server.ts:299-321 | whatever came before, a load gets the vault stored last, exactly if the key in force is the one it was stored under |
| `AgentRuns.RefusedPastDeadline` | src/agent/state.ts:139-145 | once every unlock lies the maximum age back, no request that needs the key or a grant is served, whatever came between |
| `AgentRuns.ServeAll` | src/agent/server.ts:193-443 | the agent's own code over any commands: its state is that of the run, and so is every answer |
| `AgentOutcomes.StrangersGetNothing` | src/agent/server.ts:204-207 | programs other than the abra CLI learn the status and may lock, nothing else |
| `AgentOutcomes.VaultRefusals` | src/agent/server.ts:299-339 | a wrong binding is refused first, then a key that is missing or too old |
| `AgentOutcomes.GrantRefusals` | src/agent/server.ts:340-407 | grant requests are refused exactly while there is no key or it is too old |
| `AgentOutcomes.UnlockKeyIff` | src/agent/server.ts:250-292 | exactly when a pushed key is taken |
| `AgentOutcomes.UnlockedKeyLoads` | src/agent/server.ts:275-320 | within its age an accepted key loads what the file holds |
| `AgentOutcomes.SavedVaultLoads` | src/agent/server.ts:299-339 | what was saved is what is loaded next |
| `AgentOutcomes.OnlyVaultRequestsExtend` | src/agent/state.ts:132-137 | no request moves the absolute deadline, and only `unlock` and vault requests the idle one |
| `AgentOutcomes.LockTakesAll` | src/agent/server.ts:293-298 | `lock` leaves no key and no grant |
| `AgentOutcomes.PushedKeyKeepsGrants` | src/agent/state.ts:104-118 | a pushed key leaves the grants as they are |
| `AgentOutcomes.StatusTells` | src/agent/state.ts:53-66 | locked from the absolute deadline on, before it the time left |
| `AgentOutcomes.GivesIff` | src/agent/server.ts:340-358 | exactly which command gives which grant |
| `AgentOutcomes.TakesIff` | src/agent/server.ts:381-398 | exactly which commands take it: a lock, revoking all or just it, or a new one that drew its id |
| `AgentOutcomes.RevokeAllEnds` | src/agent/grants.ts:125-130 | after a served revoke-all no check is granted until a grant is added again, whatever comes between |
| `AgentOutcomes.RevokedIsGone` | src/agent/grants.ts:131-136 | nor is a grant in force that was given before it was revoked |
| `AgentFraming.AgentConnection.OnData` | src/agent/server.ts:466-504 | the lines to answer and what stays buffered |
| `AgentFraming.OpenReadsAll` | src/agent/server.ts:466-504 | while open, the requests are those of the stream however it was cut |
| `AgentFraming.OpenIff` | src/agent/server.ts:468-473 | exactly when a chunk is refused |
| `AgentFraming.EveryLineIsARequest` | src/agent/server.ts:466-504 | while open every line that is not blank is one request, in order, and the unfinished one is kept |
| `AgentFraming.RoomFor` | src/agent/server.ts:468-473 | a chunk is accepted exactly if it and the unfinished line have 8 MiB at most |
| `AgentFraming.CutMatters` | src/agent/server.ts:468-473 | the last bytes of a request just under the limit and the start of the next are accepted in two chunks and refused in one |
| `AgentFraming.CutMattersFor` | src/agent/server.ts:468-473 | a request of the full limit less its line break: a chunk of two bytes does it |
| `Backoff.UnlockAttempts.AssertUnlockAllowed` | src/platform/unlock-attempts.ts:64-75 | nothing to wait for exactly when the wait has passed; otherwise the seconds left, rounded up |
| `Backoff.UnlockAttempts.VerifyPassphrase` | src/platform/keystore-passphrase.ts:109-124 | refused calls change nothing; wrong guesses count, unreadable files do not, success resets |
| `Backoff.BackoffGrows` | src/platform/unlock-attempts.ts:54-58 | the wait never shrinks, is at most 900 seconds, is that from the fifteenth failure, and zero before the fifth |
| `Backoff.CounterCounts` | src/platform/unlock-attempts.ts:77-89 | over every run the counter counts the failures since the last success and holds the time of the latest |
| `Backoff.FailuresWaited` | src/platform/unlock-attempts.ts:64-84 | over every run each recorded failure waited for the one before it |
| `Backoff.FailuresApart` | src/platform/unlock-attempts.ts:54-84 | from one failure to a later one lies at least the sum of the waits |
| `Backoff.DoublingWaits` | src/platform/unlock-attempts.ts:54-58 | that sum from the fifth failure, in closed form while it doubles |
| `Backoff.GuessesPerWindow` | src/platform/unlock-attempts.ts:54-84 | after fifteen failures any window holds at most one guess and one more per quarter hour |
| `SafeSignatures.PackSignatures` | src/commands/safe.ts:153-170 | packs iff every owner and signature is well formed and no owner repeats |
| `SafeSignatures.PackedBlocks` | src/commands/safe.ts:168-169 | one 65-byte block per signature, strictly ascending by owner, nothing else |
| `SafeSignatures.WellFormedIff` | src/commands/safe.ts:156-163 | checksummed addresses and signatures in either case are taken, trimmed |
| `SafeSignatures.BlockOf` | src/commands/safe.ts:160-169 | each block is one of the signatures without its 0x, in the place of its owner |
| `SafeSignatures.OwnersInOrder` | src/commands/safe.ts:168 | the owners stand in the order of their texts, which is that of the numbers |
| `SafeSignatures.PackedOrderFree` | src/commands/safe.ts:150-170 | the bytes depend on the set of signatures only |
| `SafeSignatures.FilterConfirmations` | src/commands/safe.ts:831-838 | the first confirmation of each current owner that gave one, and nothing else |
| `SafeSignatures.ConfirmSafeTx` | src/commands/safe.ts:869-913 | owners only; own confirmation added after the filtered ones unless there; executes iff asked to and the threshold is met |
| `SafeSignatures.ExecuteVerified` | src/commands/safe.ts:915-933 | succeeds iff enough confirmations, the next nonce, and the first `threshold` well formed |
| `SafeSignatures.ExecutionSigners` | src/commands/safe.ts:915-942 | what reaches the contract is exactly `threshold` signatures of distinct current owners, ascending, in blocks |
| `Sorting.SortedKeeps` | src/commands/safe.ts:168 | sorting loses and repeats nothing |
| `Sorting.SortedAscends` | src/commands/safe.ts:168 | with distinct keys the result ascends strictly |
| `Sorting.AscendingUnique` | src/commands/safe.ts:168 | there is only one ascending order |
| `Amounts.ParseIsExact` | src/commands/treasury.ts:71-84 | accepted iff a numeral with few enough places and positive; its value exactly, nothing rounded |
| `Amounts.NumeralIff` | src/commands/treasury.ts:72-75 | refused as no numeral is exactly what is not digits, or digits, a dot and digits |
| `Amounts.DigitsAccepted` | src/commands/treasury.ts:76-83 | the units are those digits side by side, followed by a zero for each decimal left over |
| `Amounts.FormatIsCanonical` | src/commands/treasury.ts:96-103 | amounts that are not negative print canonically |
| `Amounts.NegativeFormat` | src/commands/treasury.ts:96-103 | negative amounts print as their absolute value behind a minus sign, and are not accepted back |
| `Amounts.RoundTripIff` | src/commands/treasury.ts:71-103 | of all amounts, a printed one reads back as itself iff it is positive and there is at least one decimal |
| `Amounts.NoDecimalsNoRoundTrip` | src/commands/treasury.ts:96-103 | five units with no decimals |
| `Amounts.FormatWhole` | src/commands/treasury.ts:96-103 | without decimals a whole number prints with `.0` behind it |
| `Amounts.CanonicalUnique` | src/commands/treasury.ts:71-103 | every accepted canonical numeral is what its own units print as |
| `Amounts.PrintAfterParse` | src/commands/treasury.ts:71-103 | parse then print gives the one canonical numeral of the same value |

## Left out

- Cryptography, files, sockets, HTTP, prompts, Touch ID, D-Bus and mDNS: each is a parameter, a choice of the step, or an opaque function. SHA-256 is injective, a signature is made by its key's holder, a sealed bundle opens with the right PIN, an encrypted vault opens with its own key only.
- The safety code is 48 bits of a hash; `PairWorld` compares the whole digest instead, so a chance collision of two codes is not modelled.
- Maps stand for JavaScript objects: iteration order, the sorted order of report lines, prototype-named keys such as `__proto__`, and JSON equality that depends on key order are not modelled; entries are compared by structure.
- Time stamps are mathematical integers or reals; the agent's clock and the back-off's clock do not run backwards. A timer may fire at any time once armed. In `AgentRuns` the key store may answer at any time, asked or not.
- `LanSync.ApplyLanSync`: a machine does not sync with itself, and the requests of one host are handled one after another. The vaults it reads and writes are followed through other people's edits in `Replicas`, not in this method.
- A sync reads the peer's copy, its own and its base in one step of `Replicas`; each of its writes is a step of its own. A bundle without a lineage id, which has no base, is not among the replicas until a sync gives it one.
- `Recovery.ForcedBaseOnlyIff`: where the two copies differ, for histories without cycles; `History.GrowingIsAcyclic` says which have none. `Recovery.BaseOnlyIff` is its unforced case.
- `PairAtomic.AtomicIff`: for honest sides whose messages arrive in order, where waiting may end at any time; over a hostile channel `PairWorld` says what a write still means.
- Run-level claims about connections, passkeys and API keys: the report does not list their changes, so none are made. Their merge rules are in `SyncOutcomes.MergedConnectionWhole` and `SyncOutcomes.MergedRest`.
- Sync state in its older formats reads as no base at all; the formats themselves are left out, and so is the time of the last sync.
- Scoped merges from a bundle file (src/commands/usb.ts 466-505): the same merge as `ScopedSync.ScopedLanSync` without a host.
- `Bytes.Utf8Injective`: for texts of Unicode scalar values; JavaScript strings with lone surrogates all encode those as one replacement character.
- Chunks arrive cut at character boundaries in `LineChannels` and `AgentFraming`; the runtime's decoder does that for the pairing channel, and for the agent the limit is counted in bytes of the text.
- `LineChannels`: sending, half-closing and the forced close are left out; they change nothing a reader sees.
- PINs are compared after Unicode normalisation; the model's PIN is the normalised one.
- `Pairing.Config` takes the transcript hash and the fingerprint as functions, so that the steps hold for any; `PairWorld` puts the real transcript hash in where agreement needs it.
- The default peer name made from a host name is a function given to `Pairing`; `Peers.PlanPeerUpsert` checks whatever it yields.
- `AgentStates.AgentState.UnlockFinish`: takes two readings of the clock where the source takes up to four.
- `Backoff.GuessesPerWindow`: checks and records of one process at a time; several processes could check before any records.
- `SafeSignatures.ConfirmSafeTx`: signing, posting the signature and fetching the record are parameters; the hash check before them is not part of this model.
- Previews, dry runs of full syncs, backups' file names and older backup files.
- Web dash, license, treasury payments, API and MCP grants, Vercel, Cloudflare, GitHub and DNS commands: thin wrappers with no state of their own.
