/**
 LAN sync as the two machines run it (src/usb/lan-client.ts, src/usb/lan-host.ts): the client pulls,
 merges, gates and writes in order; the host hands out its vault and lets an accepted push replace it.
 */
module LanSync {
  import opened Wrappers
  import opened Pin
  import opened Vaults
  import opened Merge
  import opened MergeLaws
  import opened TwoPass
  import opened SyncScope
  import opened Text

  // ---------- one machine's stored state ----------

  function LanPeerId(deviceId: Option<string>): Option<string> {
    if deviceId.Some? && deviceId.value != "" then Some("lan:" + deviceId.value) else None
  }

  function UsbPeerId(lineageId: Option<string>): Option<string> {
    if lineageId.Some? && lineageId.value != "" then Some("usb:" + lineageId.value) else None
  }

  /** The two kinds of peer never share an entry of the sync state, nor do two peers of one kind. */
  lemma PeerIdsDistinct(a: string, b: string)
    requires a != "" && b != ""
    ensures LanPeerId(Some(a)) != UsbPeerId(Some(b))
    ensures LanPeerId(Some(a)) == LanPeerId(Some(b)) <==> a == b
    ensures UsbPeerId(Some(a)) == UsbPeerId(Some(b)) <==> a == b
  {
    assert LanPeerId(Some(a)).value[0] == 'l' && UsbPeerId(Some(b)).value[0] == 'u';
    assert ("lan:" + a)[4..] == a && ("lan:" + b)[4..] == b;
    assert ("usb:" + a)[4..] == a && ("usb:" + b)[4..] == b;
  }

  type Bases = map<string, Vault>

  function StoredBase(bases: Bases, peerId: Option<string>): Option<Vault> {
    if peerId.Some? then Look(bases, peerId.value) else None
  }

  function SavedBase(bases: Bases, peerId: Option<string>, v: Vault): Bases {
    if peerId.Some? then bases[peerId.value := WithoutDeviceLocal(v)] else bases
  }

  /** A machine: its vault file, its sync-state file and its device id. */
  class Device {
    const deviceId: string
    var vault: Vault
    var bases: Bases

    constructor (deviceId: string)
      ensures this.deviceId == deviceId && vault == EmptyVault() && bases == map[]
    {
      this.deviceId := deviceId;
      vault, bases := EmptyVault(), map[];
    }

    ghost function View(): Stored
      reads this
    {
      Stored(vault, bases)
    }

    method SaveVault(v: Vault)
      modifies this`vault
      ensures vault == v
    {
      vault := v;
    }

    method LoadSyncState(peerId: Option<string>) returns (base: Option<Vault>)
      ensures base == StoredBase(bases, peerId)
    {
      if peerId.None? { return None; }
      if peerId.value !in bases { return None; }
      return Some(bases[peerId.value]);
    }

    /** Updates one peer's entry and leaves every other as it was. */
    method SaveSyncState(peerId: Option<string>, v: Vault)
      modifies this`bases
      ensures bases == SavedBase(old(bases), peerId, v)
      ensures forall id :: id in old(bases) && Some(id) != peerId ==> id in bases && bases[id] == old(bases)[id]
      ensures forall id :: id in bases && id !in old(bases) ==> Some(id) == peerId
    {
      if peerId.None? { return; }
      bases := bases[peerId.value := WithoutDeviceLocal(v)];
    }
  }

  // ---------- the host ----------

  /** The parts of a sealed bundle the protocol reads once it is opened with the right PIN. */
  datatype Payload = Payload(vault: Vault, deviceId: Option<string>)

  datatype PushBody = NoBundle | UnreadableBundle | Sealed(bundle: Payload)

  datatype Pulled =
    | Refused(status: int)
    | FullBundle(bundle: Payload)
    | ScopedBundle(projects: Projects, scope: seq<string>)

  class LanHost {
    const device: Device
    const pin: string
    const expiresAt: int
    const allowDeletes: bool
    const scope: Option<seq<string>>
    var active: bool
    var failCount: nat
    var locked: bool
    var pulled: bool

    constructor (device: Device, pin: string, expiresAt: int, allowDeletes: bool, scope: Option<seq<string>>)
      ensures Valid() && active && failCount == 0 && !pulled
      ensures this.device == device && this.pin == pin && this.expiresAt == expiresAt
      ensures this.allowDeletes == allowDeletes && this.scope == scope
    {
      this.device, this.pin, this.expiresAt := device, pin, expiresAt;
      this.allowDeletes, this.scope := allowDeletes, scope;
      active, failCount, locked, pulled := true, 0, false, false;
    }

    /** At most `PIN_MAX_FAILURES` wrong PINs are ever counted, and the last of them locks the session. */
    ghost predicate Valid()
      reads this
    {
      failCount <= PIN_MAX_FAILURES && (locked <==> failCount == PIN_MAX_FAILURES)
    }

    method Stop()
      requires Valid()
      modifies this`active
      ensures Valid() && !active
    {
      active := false;
    }

    /** The checks in front of every request: stopped, expired, locked. */
    method Gate(now: int) returns (status: int)
      requires Valid()
      modifies this`active
      ensures status == if !old(active) then 503 else if now > expiresAt then 410 else if locked then 429 else 200
      ensures active <==> old(active) && now <= expiresAt
    {
      if !active { return 503; }
      if now > expiresAt {
        active := false;
        return 410;
      }
      if locked { return 429; }
      return 200;
    }

    method CheckPin(given: string) returns (ok: bool)
      requires Valid() && !locked
      modifies this`failCount, this`locked
      ensures Valid()
      ensures ok <==> given == pin
      ensures failCount == old(failCount) + (if ok then 0 else 1)
    {
      ok := given == pin;
      if !ok {
        failCount := failCount + 1;
        if failCount >= PIN_MAX_FAILURES { locked := true; }
      }
    }

    function Asked(requested: seq<string>): seq<string> {
      if requested != [] then requested else scope.GetOr([])
    }

    /** The names are allowed, known, and within what this host shares. */
    predicate Servable(vault: Vault, requested: seq<string>) {
      && ScopeAllowed(Asked(requested))
      && (forall n :: n in Cleaned(Asked(requested)) ==> n in vault.projects)
      && (scope.Some? && requested != [] ==> forall n :: n in Cleaned(requested) ==> n in scope.value)
    }

    /** With nothing asked for, the host's own names are meant; asking never reaches beyond them. */
    lemma ServableIff(vault: Vault, requested: seq<string>)
      requires scope.Some? || requested != []
      ensures Servable(vault, requested)
              <==> var names := if requested != [] then requested else scope.value;
                   && names != []
                   && forall i :: 0 <= i < |names| ==>
                        && Trim(names[i]) != "" && !("__abra_" <= Trim(names[i])) && Trim(names[i]) in vault.projects
                        && (scope.Some? && requested != [] ==> Trim(names[i]) in scope.value)
    {
      var names := Asked(requested);
      CleanedNames(names);
      forall n ensures IsReserved(Trim(n)) <==> "__abra_" <= Trim(n) {}
      if Servable(vault, requested) {
        forall i | 0 <= i < |names|
          ensures Trim(names[i]) != "" && !("__abra_" <= Trim(names[i])) && Trim(names[i]) in vault.projects
          ensures scope.Some? && requested != [] ==> Trim(names[i]) in scope.value
        {
          assert names[i] in names && Trim(names[i]) in Cleaned(names);
        }
      }
    }

    /** What is served are the projects named, all of the host's scope if it has one. */
    lemma ServedInScope(vault: Vault, requested: seq<string>, p: string)
      requires (scope.Some? || requested != []) && Servable(vault, requested)
      ensures
        var names := if requested != [] then requested else scope.value;
        p in Cleaned(Asked(requested)) <==> exists i :: 0 <= i < |names| && Trim(names[i]) == p
      ensures p in Cleaned(Asked(requested)) ==>
                && p in vault.projects && !("__abra_" <= p)
                && (scope.Some? && requested != [] ==> p in scope.value)
                && (scope.Some? ==> exists n :: n in scope.value && Trim(n) == p)
    {
      var names := Asked(requested);
      CleanedNames(names);
      if p in Cleaned(names) {
        ServableIff(vault, requested);
        var i :| 0 <= i < |names| && Trim(names[i]) == p;
        assert names[i] in names;
        TrimTwice(names[i]);
      }
    }

    /** The names a scoped pull serves, or the status it is refused with. */
    method ScopedNames(vault: Vault, requested: seq<string>) returns (r: Result<seq<string>, int>)
      requires scope.Some? || requested != []
      ensures r.Ok? <==> Servable(vault, requested)
      ensures r.Ok? ==> r.value == Cleaned(Asked(requested))
      ensures r.Err? ==>
                r.error == if requested != [] && (!ScopeAllowed(requested)
                                                  || (scope.Some? && exists n :: n in Cleaned(requested)
                                                                                 && n !in scope.value))
                           then 403 else if scope.None? then 404 else 500
    {
      var names := scope.GetOr([]);
      if requested != [] {
        var cleaned := AssertScopeNamesAllowed(requested);
        if cleaned.Err? { return Err(403); }
        CleanedTwice(requested);
        ReservedStaysOut(requested);
        if scope.Some? {
          if exists n | n in cleaned.value :: n !in scope.value { return Err(403); }
        } else {
          var known := ValidateScope(vault, cleaned.value);
          if known.Err? { return Err(if known.error.Unknown? then 404 else 400); }
        }
        names := cleaned.value;
      }
      var validated := ValidateScope(vault, names);
      return if validated.Ok? then Ok(validated.value) else Err(500);
    }

    /** Hands out the vault, or copies of the asked-for projects it may share; never changes the vault. */
    method Pull(given: string, requested: seq<string>, now: int) returns (r: Pulled)
      requires Valid()
      modifies this`active, this`failCount, this`locked, this`pulled
      ensures Valid()
      ensures failCount == old(failCount) + (if r == Refused(401) then 1 else 0)
      ensures !r.Refused? ==> active && !locked && pulled
      ensures r.Refused? ==>
                if !old(active) then r.status == 503 else if now > expiresAt then r.status == 410
                else if old(locked) then r.status == 429 else if given != pin then r.status == 401
                else r.status == 403 || r.status == (if scope.None? then 404 else 500)
      ensures r.FullBundle? <==>
                && given == pin && old(active) && now <= expiresAt && !old(locked) && scope.None? && requested == []
      ensures r.FullBundle? ==> r.bundle == Payload(WithoutDeviceLocal(Loaded(device.vault)), Some(device.deviceId))
      ensures r.ScopedBundle? <==>
                && given == pin && old(active) && now <= expiresAt && !old(locked)
                && (scope.Some? || requested != []) && Servable(device.vault, requested)
      ensures r.ScopedBundle? ==>
                && r.scope == Cleaned(Asked(requested))
                && (forall p :: p in r.projects <==> p in r.scope)
                && (forall p :: p in r.projects ==>
                      p in device.vault.projects && r.projects[p] == device.vault.projects[p] && !IsReserved(p))
    {
      var status := Gate(now);
      if status != 200 { return Refused(status); }
      var ok := CheckPin(given);
      if !ok { return Refused(401); }
      var vault := Loaded(device.vault);
      if scope.None? && requested == [] {
        pulled := true;
        return FullBundle(Payload(WithoutDeviceLocal(vault), Some(device.deviceId)));
      }
      var names := ScopedNames(vault, requested);
      if names.Err? { return Refused(names.error); }
      ReservedStaysOut(Asked(requested));
      var projects := ExtractScopedProjects(vault, names.value);
      if projects.Err? { return Refused(500); }
      pulled := true;
      return ScopedBundle(projects.value, names.value);
    }

    /** The projects a push would remove from this host. */
    function Removed(pushed: Vault): set<string>
      reads device
    {
      device.vault.projects.Keys - pushed.projects.Keys
    }

    /** An accepted push replaces the vault, keeps the host's own identity and peers, saves the base and stops. */
    method Push(given: string, body: PushBody, now: int, approved: bool) returns (status: int)
      requires Valid()
      modifies this`active, this`failCount, this`locked, device
      ensures Valid()
      ensures failCount == old(failCount) + (if status == 401 then 1 else 0)
      ensures status == 200 <==>
                && old(active) && now <= expiresAt && !old(locked) && scope.None? && given == pin
                && body.Sealed? && (allowDeletes || old(Removed(body.bundle.vault)) == {}) && approved
      ensures status == if !old(active) then 503 else if now > expiresAt then 410 else if old(locked) then 429
                        else if scope.Some? then 403 else if given != pin then 401 else if !body.Sealed? then 400
                        else if !allowDeletes && exists p :: p in old(device.vault).projects
                                                             && p !in body.bundle.vault.projects then 409
                        else if !approved then 500 else 200
      ensures status != 200 ==> device.vault == old(device.vault) && device.bases == old(device.bases)
      ensures status == 200 ==>
                && !active
                && device.vault == KeepDeviceLocal(body.bundle.vault, old(device.vault))
                && device.bases
                   == SavedBase(old(device.bases), LanPeerId(body.bundle.deviceId), body.bundle.vault)
    {
      status := Gate(now);
      if status != 200 { return; }
      if scope.Some? { return 403; }
      var ok := CheckPin(given);
      if !ok { return 401; }
      if !body.Sealed? { return 400; }
      var current := Loaded(device.vault);
      var vault := KeepDeviceLocal(body.bundle.vault, current);
      if !allowDeletes {
        var removed := current.projects.Keys - vault.projects.Keys;
        assert removed == Removed(body.bundle.vault);
        if removed != {} {
          assert exists p :: p in removed;
          return 409;
        }
        assert forall p :: p in current.projects && p !in vault.projects ==> p in removed;
      }
      if !approved { return 500; }
      device.SaveVault(vault);
      device.SaveSyncState(LanPeerId(body.bundle.deviceId), vault);
      active := false;
      return 200;
    }
  }

  // ---------- the client ----------

  /** What may stop a sync before its first write. */
  datatype Gate = ConflictsFound | DeletesNotAllowed | NotApproved

  datatype LanOutcome =
    | PullRefused(status: int)
    | Stopped(gate: Gate)
    | PushRefused(changed: bool, status: int)
    | Synced(changed: bool)

  /** One forced choice for every conflict of the probe, recorded under its resolution key. */
  method ForceResolutions(local: Vault, remote: Vault, base: Option<Vault>, force: Option<Choice>)
    returns (resolutions: Resolutions, ghost probed: seq<Conflict>)
    ensures force.None? ==> resolutions == map[]
    ensures force.Some? ==> && Lists(probed, local, remote, base)
                            && resolutions == Collected(probed, seq(|probed|, _ => force.value))
  {
    resolutions, probed := map[], [];
    if force.Some? {
      var probe := ThreeWayMerge(local, remote, base, map[]);
      probed := probe.conflicts;
      resolutions := CollectResolutions(probe.conflicts, seq(|probe.conflicts|, _ => force.value));
    }
  }

  /** What the client read before it merged: both vaults and the base it holds for the host. */
  datatype Inputs = Inputs(local: Vault, remote: Vault, base: Option<Vault>)

  function InputsOf(mine: Vault, bases: Bases, theirs: Vault, host: string): Inputs {
    Inputs(Loaded(mine), WithoutDeviceLocal(Loaded(theirs)), StoredBase(bases, LanPeerId(Some(host))))
  }

  ghost predicate NothingToReport(x: Inputs, resolutions: Resolutions) {
    forall line :: !IsLine(x.local, x.remote, x.base, resolutions, line)
  }

  /** With a forced side every conflict of the probe is answered with it; without one nothing is answered. */
  ghost predicate Forced(x: Inputs, force: Option<Choice>, answers: Resolutions, probed: seq<Conflict>) {
    if force.None? then answers == map[]
    else Lists(probed, x.local, x.remote, x.base) && answers == Collected(probed, seq(|probed|, _ => force.value))
  }

  /** Which of the three gates stops the sync, if any: conflicts nobody answered, then deletions, then the user. */
  ghost predicate GateStops(x: Inputs, answers: Resolutions, answered: bool, allowDeletes: bool, approved: bool,
                            stop: Option<Gate>)
  {
    var clash := !answered && exists c :: IsConflict(x.local, x.remote, x.base, answers, c);
    var base := BaseProjects(x.base);
    var deletes := !allowDeletes && exists d :: IsDeletion(x.local.projects, x.remote.projects, base, d);
    stop == if clash then Some(ConflictsFound)
            else if deletes then Some(DeletesNotAllowed)
            else if !approved then Some(NotApproved)
            else None
  }

  /** Merge, with a side forced or not, and pass the gates; nothing is written yet. */
  method MergeAndGate(x: Inputs, force: Option<Choice>, allowDeletes: bool, approved: bool)
    returns (stop: Option<Gate>, r: MergeResult, ghost answers: Resolutions, ghost probed: seq<Conflict>)
    ensures Forced(x, force, answers, probed) && GateStops(x, answers, force.Some?, allowDeletes, approved, stop)
    ensures IsMerge(x.local, x.remote, x.base, answers, r)
    ensures stop.None? ==> forall c :: !IsConflict(x.local, x.remote, x.base, answers, c)
  {
    var resolutions, forced := ForceResolutions(x.local, x.remote, x.base, force);
    answers, probed := resolutions, forced;
    r := ThreeWayMerge(x.local, x.remote, x.base, resolutions);
    if |r.conflicts| > 0 && force.None? {
      assert r.conflicts[0] in r.conflicts;
      return Some(ConflictsFound), r, answers, probed;
    }
    assert forall c :: !IsConflict(x.local, x.remote, x.base, resolutions, c) by {
      if force.Some? {
        SecondPassHasNoConflict(x.local, x.remote, x.base, probed, seq(|probed|, _ => force.value));
      }
    }
    if |r.projectDeletions| > 0 && !allowDeletes {
      assert r.projectDeletions[0] in r.projectDeletions;
      return Some(DeletesNotAllowed), r, answers, probed;
    }
    if !approved { return Some(NotApproved), r, answers, probed; }
    return None, r, answers, probed;
  }

  /** The push would remove no project of the host, or the host allows that, and its user agrees. */
  predicate HostAccepts(hostVault: Vault, sent: Vault, hostAllowsDeletes: bool, hostApproves: bool) {
    (hostAllowsDeletes || hostVault.projects.Keys - sent.projects.Keys == {}) && hostApproves
  }

  /** One machine's stored state. */
  datatype Stored = Stored(vault: Vault, bases: Bases)

  /** The host takes a push exactly when it is still open and accepts what was sent; then it and its base hold it. */
  method PushTo(client: Device, host: LanHost, given: string, sent: Vault, now: int, hostApproves: bool)
    returns (status: int)
    requires host.Valid() && client != host.device
    modifies host`active, host`failCount, host`locked, host.device
    ensures host.Valid()
    ensures status == 200 <==>
              && given == host.pin && old(host.active) && now <= host.expiresAt && !old(host.locked) && host.scope.None?
              && HostAccepts(old(host.device.vault), sent, host.allowDeletes, hostApproves)
    ensures status != 200 ==> host.device.View() == old(host.device.View())
    ensures status == 200 ==>
              && host.device.vault == KeepDeviceLocal(sent, old(host.device.vault))
              && host.device.bases == SavedBase(old(host.device.bases), LanPeerId(Some(client.deviceId)), sent)
  {
    status := host.Push(given, Sealed(Payload(WithoutDeviceLocal(sent), Some(client.deviceId))), now, hostApproves);
  }

  /** What the writes put on both machines: the merge, or our vault as it was read when there is nothing to report. */
  ghost function Sent(x: Inputs, answers: Resolutions): Vault {
    if NothingToReport(x, answers) then x.local else MergedVault(x.local, x.remote, x.base, answers)
  }

  /**
   The two machines before and after the writes, whatever they held when the writes began; a push that is
   not taken leaves the sync half done.
   */
  ghost predicate LanWrites(x: Inputs, answers: Resolutions, outcome: LanOutcome, clientId: string, hostId: string,
                            c: Stored, h: Stored, c': Stored, h': Stored)
  {
    var mine, theirs := LanPeerId(Some(hostId)), LanPeerId(Some(clientId));
    var sent, changed := Sent(x, answers), !NothingToReport(x, answers);
    && (outcome.PushRefused? || outcome.Synced?) && outcome.changed == changed
    && (forall k :: !IsConflict(x.local, x.remote, x.base, answers, k))
    && c' == Stored(if changed then sent else c.vault,
                    if outcome.Synced? || !changed then SavedBase(c.bases, mine, sent) else c.bases)
    && h' == (if outcome.Synced? then Stored(KeepDeviceLocal(sent, h.vault), SavedBase(h.bases, theirs, sent)) else h)
  }

  /** The writes in order: with nothing to report the base goes first, otherwise last. */
  method WriteLanSync(client: Device, host: LanHost, given: string, now: int, hostApproves: bool,
                      x: Inputs, r: MergeResult, ghost answers: Resolutions)
    returns (outcome: LanOutcome)
    requires host.Valid() && client != host.device
    requires IsMerge(x.local, x.remote, x.base, answers, r)
    requires forall c :: !IsConflict(x.local, x.remote, x.base, answers, c)
    modifies client, host`active, host`failCount, host`locked, host.device
    ensures host.Valid()
    ensures LanWrites(x, answers, outcome, client.deviceId, host.device.deviceId,
                      old(client.View()), old(host.device.View()), client.View(), host.device.View())
    ensures outcome.Synced? <==>
              && given == host.pin && old(host.active) && now <= host.expiresAt && !old(host.locked) && host.scope.None?
              && HostAccepts(old(host.device.vault), Sent(x, answers), host.allowDeletes, hostApproves)
  {
    var peerId := LanPeerId(Some(host.device.deviceId));
    if |r.report| == 0 && |r.projectDeletions| == 0 {
      client.SaveSyncState(peerId, x.local);
      var quietStatus := PushTo(client, host, given, x.local, now, hostApproves);
      return if quietStatus == 200 then Synced(false) else PushRefused(false, quietStatus);
    }
    ReportNonEmpty(x, answers, r);
    client.SaveVault(r.merged);
    var status := PushTo(client, host, given, r.merged, now, hostApproves);
    if status != 200 { return PushRefused(true, status); }
    client.SaveSyncState(peerId, r.merged);
    return Synced(true);
  }

  /**
   Pull, merge, gate, then the writes. Whatever stops it before the writes leaves both machines as they were.
   While the user is asked the host may expire (`pushedAt` is later than `pulledAt`) or be stopped.
   */
  method ApplyLanSync(client: Device, host: LanHost, given: string, force: Option<Choice>, allowDeletes: bool,
                      approved: bool, hostApproves: bool, pulledAt: int, pushedAt: int, stopped: bool)
    returns (outcome: LanOutcome, ghost answers: Resolutions, ghost probed: seq<Conflict>)
    requires host.Valid() && client != host.device && pulledAt <= pushedAt
    modifies client, host`active, host`failCount, host`locked, host`pulled, host.device
    ensures host.Valid()
    ensures outcome.PullRefused? <==>
              !(&& given == host.pin && old(host.active) && pulledAt <= host.expiresAt && !old(host.locked)
                && host.scope.None?)
    ensures
      var x := InputsOf(old(client.vault), old(client.bases), old(host.device.vault), host.device.deviceId);
      var gate := if outcome.Stopped? then Some(outcome.gate) else None;
      !outcome.PullRefused? ==>
        && Forced(x, force, answers, probed)
        && GateStops(x, answers, force.Some?, allowDeletes, approved, gate)
        && (gate.None? ==>
              && LanWrites(x, answers, outcome, client.deviceId, host.device.deviceId,
                           old(client.View()), old(host.device.View()), client.View(), host.device.View())
              && (outcome.Synced? <==>
                    && !stopped && pushedAt <= host.expiresAt
                    && HostAccepts(old(host.device.vault), Sent(x, answers), host.allowDeletes, hostApproves)))
    ensures outcome.PullRefused? || outcome.Stopped? ==>
              client.View() == old(client.View()) && host.device.View() == old(host.device.View())
  {
    answers, probed := map[], [];
    var pull := host.Pull(given, [], pulledAt);
    if !pull.FullBundle? { return PullRefused(if pull.Refused? then pull.status else 403), answers, probed; }
    var base := client.LoadSyncState(LanPeerId(pull.bundle.deviceId));
    var x := Inputs(Loaded(client.vault), pull.bundle.vault, base);
    var stop, r;
    stop, r, answers, probed := MergeAndGate(x, force, allowDeletes, approved);
    if stop.Some? { return Stopped(stop.value), answers, probed; }
    if stopped { host.Stop(); }
    outcome := WriteLanSync(client, host, given, pushedAt, hostApproves, x, r, answers);
  }

  /** A deletion is always reported too, so the empty-report test never hides one. */
  lemma ReportNonEmpty(x: Inputs, resolutions: Resolutions, r: MergeResult)
    requires IsMerge(x.local, x.remote, x.base, resolutions, r)
    requires r.report != [] || r.projectDeletions != []
    ensures !NothingToReport(x, resolutions)
  {
    if r.report != [] {
      assert r.report[0] in r.report;
    } else {
      var d := r.projectDeletions[0];
      assert d in r.projectDeletions;
      assert IsLine(x.local, x.remote, x.base, resolutions, ProjectDeleted(d.project, d.side));
    }
  }
}
