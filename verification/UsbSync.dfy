/** Sync against the bundle on a USB stick (src/commands/usb.ts), from the dash and from the command line. */
module UsbSync {
  import opened Wrappers
  import opened Vaults
  import opened Merge
  import opened MergeLaws
  import opened TwoPass
  import opened LanSync

  /** The newest bundle of a volume; older backup files stay on it but are never read by a sync. */
  datatype BundleFile = BundleFile(vault: Vault, lineageId: Option<string>)

  class Stick {
    var latest: Option<BundleFile>

    constructor ()
      ensures latest == None
    {
      latest := None;
    }

    /** Writes a new bundle and then moves the pointer to it. */
    method WriteBundle(v: Vault, lineageId: string)
      modifies this
      ensures latest == Some(BundleFile(WithoutDeviceLocal(v), Some(lineageId)))
    {
      latest := Some(BundleFile(WithoutDeviceLocal(v), Some(lineageId)));
    }
  }

  datatype UsbOutcome =
    | NoBackup
    | UsbStopped(gate: Gate)
    | AlreadyInSync
    | Refreshed

  /** What the machine and the stick hold after a sync with that outcome. */
  ghost predicate UsbResult(outcome: UsbOutcome, answers: Resolutions, minted: string,
                            vault0: Vault, bases0: Bases, file: BundleFile,
                            vault: Vault, bases: Bases, latest: Option<BundleFile>)
  {
    var local, base := Loaded(vault0), StoredBase(bases0, UsbPeerId(file.lineageId));
    var m := MergedVault(local, file.vault, base, answers);
    var quiet := NothingToReport(Inputs(local, file.vault, base), answers);
    match outcome
    case AlreadyInSync =>
      && quiet && (forall c :: !IsConflict(local, file.vault, base, answers, c))
      && vault == vault0 && latest == Some(file)
      && bases == SavedBase(bases0, UsbPeerId(file.lineageId), local)
    case Refreshed =>
      var lineage := file.lineageId.GetOr(minted);
      && !quiet && (forall c :: !IsConflict(local, file.vault, base, answers, c))
      && vault == m && latest == Some(BundleFile(WithoutDeviceLocal(m), Some(lineage)))
      && bases == SavedBase(bases0, UsbPeerId(Some(lineage)), m)
    case _ => vault == vault0 && latest == Some(file) && bases == bases0
  }

  /** The writes shared by both commands, once the gates are passed. */
  method WriteSync(device: Device, stick: Stick, r: MergeResult, local: Vault, base: Option<Vault>,
                   ghost answers: Resolutions, minted: string)
    returns (outcome: UsbOutcome)
    requires stick.latest.Some? && local == Loaded(device.vault)
    requires base == StoredBase(device.bases, UsbPeerId(stick.latest.value.lineageId))
    requires IsMerge(local, stick.latest.value.vault, base, answers, r)
    requires forall c :: !IsConflict(local, stick.latest.value.vault, base, answers, c)
    modifies device, stick
    ensures outcome == AlreadyInSync || outcome == Refreshed
    ensures UsbResult(outcome, answers, minted, old(device.vault), old(device.bases), old(stick.latest.value),
                      device.vault, device.bases, stick.latest)
  {
    var file := stick.latest.value;
    if |r.report| == 0 && |r.projectDeletions| == 0 {
      device.SaveSyncState(UsbPeerId(file.lineageId), local);
      return AlreadyInSync;
    }
    ReportNonEmpty(Inputs(local, file.vault, base), answers, r);
    device.SaveVault(r.merged);
    var lineage := if file.lineageId.Some? then file.lineageId.value else minted;
    stick.WriteBundle(r.merged, lineage);
    device.SaveSyncState(UsbPeerId(Some(lineage)), r.merged);
    return Refreshed;
  }

  function UsbInputs(vault: Vault, bases: Bases, file: BundleFile): Inputs {
    Inputs(Loaded(vault), file.vault, StoredBase(bases, UsbPeerId(file.lineageId)))
  }

  /** The dash's sync: conflicts need a forced side, project deletions need the flag. */
  method ApplySync(device: Device, stick: Stick, force: Option<Choice>, allowDeletes: bool, approved: bool,
                   minted: string)
    returns (outcome: UsbOutcome, ghost answers: Resolutions, ghost probed: seq<Conflict>)
    modifies device, stick
    ensures outcome == NoBackup <==> old(stick.latest).None?
    ensures outcome == NoBackup ==>
              device.vault == old(device.vault) && device.bases == old(device.bases) && stick.latest == None
    ensures outcome != NoBackup ==>
              var x := UsbInputs(old(device.vault), old(device.bases), old(stick.latest).value);
              && Forced(x, force, answers, probed)
              && GateStops(x, answers, force.Some?, allowDeletes, approved,
                           if outcome.UsbStopped? then Some(outcome.gate) else None)
              && UsbResult(outcome, answers, minted, old(device.vault), old(device.bases), old(stick.latest).value,
                           device.vault, device.bases, stick.latest)
  {
    answers, probed := map[], [];
    if stick.latest.None? { return NoBackup, answers, probed; }
    var file := stick.latest.value;
    var base := device.LoadSyncState(UsbPeerId(file.lineageId));
    var x := Inputs(Loaded(device.vault), file.vault, base);
    var stop, r;
    stop, r, answers, probed := MergeAndGate(x, force, allowDeletes, approved);
    if stop.Some? { return UsbStopped(stop.value), answers, probed; }
    outcome := WriteSync(device, stick, r, x.local, base, answers, minted);
  }

  /** Every conflict of the probe was asked about. */
  ghost predicate Asked(x: Inputs, ask: Conflict -> Choice, answers: Resolutions, probed: seq<Conflict>) {
    && Lists(probed, x.local, x.remote, x.base)
    && answers == Collected(probed, seq(|probed|, i requires 0 <= i < |probed| => ask(probed[i])))
  }

  /** The command line's sync: one answer per conflict is asked for, or taken from the flag. */
  method SyncCommand(device: Device, stick: Stick, ask: Conflict -> Choice, allowDeletes: bool, typedDelete: bool,
                     approved: bool, minted: string)
    returns (outcome: UsbOutcome, ghost answers: Resolutions, ghost probed: seq<Conflict>)
    requires stick.latest.Some?
    modifies device, stick
    ensures
      var x := UsbInputs(old(device.vault), old(device.bases), old(stick.latest).value);
      && Asked(x, ask, answers, probed)
      && GateStops(x, answers, true, allowDeletes || typedDelete, approved,
                   if outcome.UsbStopped? then Some(outcome.gate) else None)
      && outcome != NoBackup
      && UsbResult(outcome, answers, minted, old(device.vault), old(device.bases), old(stick.latest).value,
                   device.vault, device.bases, stick.latest)
  {
    var file, local := stick.latest.value, Loaded(device.vault);
    var base := device.LoadSyncState(UsbPeerId(file.lineageId));
    var first := ThreeWayMerge(local, file.vault, base, map[]);
    var cs := first.conflicts;
    var choices := seq(|cs|, i requires 0 <= i < |cs| => ask(cs[i]));
    var resolutions := CollectResolutions(cs, choices);
    answers, probed := resolutions, cs;
    var r := ThreeWayMerge(local, file.vault, base, resolutions);
    if |r.projectDeletions| > 0 && !allowDeletes && !typedDelete {
      assert r.projectDeletions[0] in r.projectDeletions;
      return UsbStopped(DeletesNotAllowed), answers, probed;
    }
    if !approved { return UsbStopped(NotApproved), answers, probed; }
    SecondPassHasNoConflict(local, file.vault, base, cs, choices);
    outcome := WriteSync(device, stick, r, local, base, resolutions, minted);
  }
}
