/** The stored state of any number of machines and sticks, seen as a world of replicas. */
module Fleets {
  import opened Wrappers
  import opened Vaults
  import opened Merge
  import opened MergeLaws
  import opened TwoPass
  import opened LanSync
  import opened History
  import opened Replicas
  import opened Runs
  import opened Cuts

  /** Machines by device id, the newest bundle of each stick by lineage id. */
  datatype Fleet = Fleet(machines: map<string, Stored>, sticks: map<string, Vault>)

  predicate Named(f: Fleet) {
    "" !in f.machines && "" !in f.sticks
  }

  /** The key of the sync state under which a machine keeps its base for the other end. */
  function PeerKey(r: Replica): string {
    if r.Machine? then "lan:" + r.deviceId else "usb:" + r.lineageId
  }

  lemma PeerKeys(r: Replica, q: Replica)
    ensures PeerKey(r) == PeerKey(q) <==> r == q
    ensures r.Machine? && r.deviceId != "" ==> LanPeerId(Some(r.deviceId)) == Some(PeerKey(r))
    ensures r.Bundle? && r.lineageId != "" ==> UsbPeerId(Some(r.lineageId)) == Some(PeerKey(r))
  {
    assert PeerKey(r)[0] == (if r.Machine? then 'l' else 'u');
    assert PeerKey(q)[0] == (if q.Machine? then 'l' else 'u');
    assert PeerKey(r)[4..] == if r.Machine? then r.deviceId else r.lineageId;
    assert PeerKey(q)[4..] == if q.Machine? then q.deviceId else q.lineageId;
  }

  function Ends(f: Fleet): set<Replica> {
    (set c | c in f.machines :: Machine(c)) + (set l | l in f.sticks :: Bundle(l))
  }

  lemma InEnds(f: Fleet, r: Replica)
    ensures r in Ends(f) <==> if r.Machine? then r.deviceId in f.machines else r.lineageId in f.sticks
  {
  }

  function CopyOf(f: Fleet, r: Replica): Projects
    requires r in Ends(f)
  {
    if r.Machine? then f.machines[r.deviceId].vault.projects else f.sticks[r.lineageId].projects
  }

  function Copies(f: Fleet): map<Replica, Projects> {
    map r | r in Ends(f) :: CopyOf(f, r)
  }

  predicate HasBase(f: Fleet, c: string, r: Replica) {
    c in f.machines && r in Ends(f) && PeerKey(r) in f.machines[c].bases
  }

  function KnownBases(f: Fleet): map<(string, Replica), Projects> {
    map c, r | c in f.machines && r in Ends(f) && HasBase(f, c, r) :: (c, r) := f.machines[c].bases[PeerKey(r)].projects
  }

  /** Projects only; `log` and the syncs under way are no part of what is stored. */
  function View(f: Fleet, log: Log, open: map<nat, Session>): World {
    World(Copies(f), KnownBases(f), log, open)
  }

  // ---------- one write ----------

  function Put(f: Fleet, c: string, stored: Stored): Fleet {
    f.(machines := f.machines[c := stored])
  }

  function WithBase(stored: Stored, r: Replica, v: Vault): Stored {
    stored.(bases := stored.bases[PeerKey(r) := WithoutDeviceLocal(v)])
  }

  lemma SameEnds(f: Fleet, g: Fleet)
    requires f.machines.Keys == g.machines.Keys && f.sticks.Keys == g.sticks.Keys
    ensures Ends(f) == Ends(g)
  {
    forall r ensures r in Ends(f) <==> r in Ends(g) {
      InEnds(f, r);
      InEnds(g, r);
    }
  }

  lemma PutCopies(f: Fleet, c: string, stored: Stored)
    requires c in f.machines
    ensures Ends(Put(f, c, stored)) == Ends(f)
    ensures Copies(Put(f, c, stored)) == Copies(f)[Machine(c) := stored.vault.projects]
  {
    var g := Put(f, c, stored);
    SameEnds(f, g);
    InEnds(f, Machine(c));
    forall r | r in Ends(f) ensures Copies(g)[r] == Copies(f)[Machine(c) := stored.vault.projects][r] {
      InEnds(f, r);
    }
  }

  lemma PutSameBases(f: Fleet, c: string, v: Vault)
    requires c in f.machines
    ensures KnownBases(Put(f, c, f.machines[c].(vault := v))) == KnownBases(f)
  {
    var g := Put(f, c, f.machines[c].(vault := v));
    SameEnds(f, g);
    assert forall d, r :: HasBase(g, d, r) <==> HasBase(f, d, r);
  }

  lemma OneBase(f: Fleet, c: string, r: Replica, v: Vault, d: string, q: Replica)
    requires c in f.machines && r in Ends(f)
    ensures
      var g := Put(f, c, WithBase(f.machines[c], r, v));
      && Ends(g) == Ends(f)
      && (HasBase(g, d, q) <==> HasBase(f, d, q) || (d, q) == (c, r))
      && (HasBase(g, d, q) ==> g.machines[d].bases[PeerKey(q)].projects
                               == if (d, q) == (c, r) then v.projects else f.machines[d].bases[PeerKey(q)].projects)
  {
    SameEnds(f, Put(f, c, WithBase(f.machines[c], r, v)));
    PeerKeys(q, r);
  }

  lemma KnownBaseAt(f: Fleet, c: string, r: Replica)
    ensures (c, r) in KnownBases(f) <==> HasBase(f, c, r)
    ensures HasBase(f, c, r) ==> KnownBases(f)[(c, r)] == f.machines[c].bases[PeerKey(r)].projects
  {
  }

  lemma PutOneBase(f: Fleet, c: string, r: Replica, v: Vault)
    requires c in f.machines && r in Ends(f)
    ensures Ends(Put(f, c, WithBase(f.machines[c], r, v))) == Ends(f)
    ensures KnownBases(Put(f, c, WithBase(f.machines[c], r, v))) == KnownBases(f)[(c, r) := v.projects]
  {
    var g := Put(f, c, WithBase(f.machines[c], r, v));
    SameEnds(f, g);
    var was, now := KnownBases(f), KnownBases(g);
    forall k
      ensures k in now <==> k in was || k == (c, r)
      ensures k in now ==> now[k] == was[(c, r) := v.projects][k]
    {
      OneBase(f, c, r, v, k.0, k.1);
      KnownBaseAt(f, k.0, k.1);
      KnownBaseAt(g, k.0, k.1);
    }
  }

  lemma PutStick(f: Fleet, l: string, v: Vault)
    requires l in f.sticks
    ensures
      var g := f.(sticks := f.sticks[l := v]);
      && Ends(g) == Ends(f) && KnownBases(g) == KnownBases(f) && Copies(g) == Copies(f)[Bundle(l) := v.projects]
  {
    var g := f.(sticks := f.sticks[l := v]);
    SameEnds(f, g);
    InEnds(f, Bundle(l));
    assert forall d, r :: HasBase(g, d, r) <==> HasBase(f, d, r);
    forall r | r in Ends(f) ensures Copies(g)[r] == Copies(f)[Bundle(l) := v.projects][r] {
      InEnds(f, r);
    }
  }

  /** What one write leaves, on whatever the fleet holds by then. */
  function Wrote(f: Fleet, s: Session, x: Write, v: Vault): Fleet
    requires s.machine in f.machines && s.peer in Ends(f)
  {
    var c, r := s.machine, s.peer;
    match x
    case OwnVault => Put(f, c, f.machines[c].(vault := v))
    case PeerVault =>
      if r.Machine? then
        Put(f, r.deviceId, f.machines[r.deviceId].(vault := KeepDeviceLocal(v, f.machines[r.deviceId].vault)))
      else f.(sticks := f.sticks[r.lineageId := WithoutDeviceLocal(v)])
    case PeerBase =>
      if r.Machine? then Put(f, r.deviceId, WithBase(f.machines[r.deviceId], Machine(c), v)) else f
    case OwnBase => Put(f, c, WithBase(f.machines[c], r, v))
  }

  lemma WroteIsWrite(f: Fleet, s: Session, x: Write, v: Vault, log: Log, open: map<nat, Session>)
    requires s.machine in f.machines && s.peer in Ends(f) && v.projects == s.merged
    ensures
      var w := DoWrite(View(f, log, open), s, x);
      w == View(Wrote(f, s, x, v), w.log, open) && Ends(Wrote(f, s, x, v)) == Ends(f)
  {
    var c, r := s.machine, s.peer;
    InEnds(f, Machine(c));
    match x
    case OwnVault =>
      PutCopies(f, c, f.machines[c].(vault := v));
      PutSameBases(f, c, v);
    case PeerVault =>
      if r.Machine? {
        var kept := KeepDeviceLocal(v, f.machines[r.deviceId].vault);
        PutCopies(f, r.deviceId, f.machines[r.deviceId].(vault := kept));
        PutSameBases(f, r.deviceId, kept);
      } else {
        PutStick(f, r.lineageId, WithoutDeviceLocal(v));
      }
    case PeerBase =>
      if r.Machine? {
        PutCopies(f, r.deviceId, WithBase(f.machines[r.deviceId], Machine(c), v));
        PutOneBase(f, r.deviceId, Machine(c), v);
        SameCopies(f, r.deviceId);
      }
    case OwnBase =>
      PutCopies(f, c, WithBase(f.machines[c], r, v));
      PutOneBase(f, c, r, v);
      SameCopies(f, c);
  }

  lemma SameCopies(f: Fleet, c: string)
    requires c in f.machines
    ensures Copies(f)[Machine(c) := f.machines[c].vault.projects] == Copies(f)
  {
    InEnds(f, Machine(c));
  }

  /**
   Each write of a sync, wherever it comes in the run and whatever the machines and sticks hold by then, is one
   step of the world they make up.
   */
  lemma WriteIsStep(f: Fleet, id: nat, v: Vault, log: Log, open: map<nat, Session>)
    requires id in open && open[id].done < |Plan(open[id])|
    requires open[id].machine in f.machines && open[id].peer in Ends(f) && v.projects == open[id].merged
    ensures
      var w, s := View(f, log, open), open[id];
      && Enabled(w, Write(id))
      && Next(w, Write(id)) == View(Wrote(f, s, Plan(s)[s.done], v), Next(w, Write(id)).log, Next(w, Write(id)).open)
  {
    var s := open[id];
    WroteIsWrite(f, s, Plan(s)[s.done], v, log, open);
  }

  function WroteN(f: Fleet, s: Session, v: Vault, n: nat): (g: Fleet)
    requires s.machine in f.machines && s.peer in Ends(f) && n <= |Plan(s)|
    ensures g.machines.Keys == f.machines.Keys && g.sticks.Keys == f.sticks.Keys
  {
    if n == 0 then f
    else
      var g := WroteN(f, s, v, n - 1);
      SameEnds(f, g);
      InEnds(f, s.peer);
      Wrote(g, s, Plan(s)[n - 1], v)
  }

  lemma {:induction false} WroteNIsCut(f: Fleet, s: Session, v: Vault, n: nat, log: Log, open: map<nat, Session>)
    requires s.machine in f.machines && s.peer in Ends(f) && n <= |Plan(s)| && v.projects == s.merged
    ensures var w := Cut(View(f, log, open), s, n); w == View(WroteN(f, s, v, n), w.log, open)
  {
    if n > 0 {
      WroteNIsCut(f, s, v, n - 1, log, open);
      var g := WroteN(f, s, v, n - 1);
      SameEnds(f, g);
      WroteIsWrite(g, s, Plan(s)[n - 1], v, Cut(View(f, log, open), s, n - 1).log, open);
    }
  }

  // ---------- the answers ----------

  /** Answers to the conflicts of a probe settle nothing else, if no two of the names involved share a key. */
  lemma SeparateAnswersOnly(ours: Vault, theirs: Vault, base: Option<Vault>, cs: seq<Conflict>, answers: seq<Choice>)
    requires Lists(cs, ours, theirs, base) && |cs| == |answers| && KeysSeparate(ours, theirs, base, cs)
    ensures OnlyAnswers(ours.projects, theirs.projects, BaseProjects(base), Collected(cs, answers))
  {
    var o, t, b := ours.projects, theirs.projects, BaseProjects(base);
    forall p, k | p in o && p in t && Val(o, p, k) != Val(t, p, k) && !Clashing(o, t, b, p, k)
      ensures ResolutionKey(p, k) !in Collected(cs, answers)
    {
      var s := Variable(p, k);
      assert Shared(ours, theirs, s) && At(ours, s) != At(theirs, s) && SlotId(s) == ResolutionKey(p, k);
      assert !ClashesAt(ours, theirs, base, s);
      CollectedIs(cs, answers, SlotId(s));
    }
  }
}
