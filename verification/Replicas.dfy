/**
 Any number of machines and USB bundles, and every run of edits, backups and syncs between them. A sync is
 taken apart as the program runs it: it reads, waits for its user, and then writes one thing after the other,
 while anything else goes on (src/usb/lan-client.ts 357-397, src/usb/lan-host.ts 371-389, src/commands/usb.ts
 359-460). Only projects and their variables are followed.
 */
module Replicas {
  import opened Wrappers
  import opened Vaults
  import opened Merge
  import opened MergeLaws
  import opened History

  /** The two kinds of copy a machine syncs with, named like the keys of its sync state. */
  datatype Replica = Machine(deviceId: string) | Bundle(lineageId: string)

  datatype Write = OwnVault | PeerVault | PeerBase | OwnBase

  /** A sync under way: what it read, what it will write, and how many of its writes are done. */
  datatype Session = Session(
    machine: string,
    peer: Replica,
    ours: Projects,
    theirs: Projects,
    base: Projects,
    answers: Resolutions,
    quiet: bool,
    merged: Projects,
    done: nat)

  /**
   The writes in order. With nothing to report the base goes first, and a bundle is not written at all; the
   host writes its vault and then its base.
   */
  function Plan(s: Session): (plan: seq<Write>)
    ensures |plan| <= 4
  {
    if s.quiet then if s.peer.Machine? then [OwnBase, PeerVault, PeerBase] else [OwnBase]
    else if s.peer.Machine? then [OwnVault, PeerVault, PeerBase, OwnBase]
    else [OwnVault, PeerVault, OwnBase]
  }

  datatype World = World(
    at: map<Replica, Projects>,
    base: map<(string, Replica), Projects>,
    log: Log,
    open: map<nat, Session>)

  /**
   `Backup` without a base is `createBackup`; with one it is the first backup of `usb sync`. `StoreCurrent` is
   the base write of the dash's empty-report path over USB, which reads the local vault once more.
   */
  datatype Step =
    | Edit(machine: string, after: Projects)
    | Backup(machine: string, lineageId: string, based: bool)
    | Read(id: nat, machine: string, peer: Replica, answers: Resolutions, quiet: bool)
    | Write(id: nat)
    | StoreCurrent(id: nat)
    | Drop(id: nat)

  function BaseOf(w: World, c: string, r: Replica): Projects {
    if (c, r) in w.base then w.base[(c, r)] else map[]
  }

  predicate Clashing(o: Projects, t: Projects, b: Projects, p: string, k: string) {
    p in o && p in t && Verdicts(o, t, b, NONE, p, k).Clash?
  }

  predicate Deleted(o: Projects, t: Projects, b: Projects, p: string) {
    p in b && ((p in o) != (p in t))
  }

  /** What the user agreed to when `m` replaces `side`: the answers to the conflicts and the project deletions. */
  function Approved(o: Projects, t: Projects, b: Projects, side: Projects, m: Projects): Log {
    set a | a in Edits(side, m) && (Deleted(o, t, b, a.project) || Clashing(o, t, b, a.project, a.key))
  }

  /** The answers settle conflicts and nothing else (see TwoPass for when they do). */
  ghost predicate OnlyAnswers(o: Projects, t: Projects, b: Projects, answers: Resolutions) {
    forall p, k :: p in o && p in t && Val(o, p, k) != Val(t, p, k) && !Clashing(o, t, b, p, k)
      ==> ResolutionKey(p, k) !in answers
  }

  /** What `c` holds when it has read both copies and its base. */
  function Reading(w: World, c: string, r: Replica, answers: Resolutions, quiet: bool): Session
    requires Machine(c) in w.at && r in w.at
  {
    var o, t, b := w.at[Machine(c)], w.at[r], BaseOf(w, c, r);
    Session(c, r, o, t, b, answers, quiet, MergedProjects(o, t, b, answers), 0)
  }

  /** The merge is settled, and with nothing to report it has no line about projects. */
  ghost predicate PastGates(s: Session) {
    && Settles(s.ours, s.theirs, s.base, s.answers)
    && (s.quiet ==> QuietReport(s.ours, s.theirs, s.base, s.answers))
  }

  ghost predicate Enabled(w: World, s: Step) {
    match s
    case Edit(m, _) => Machine(m) in w.at
    case Backup(m, l, _) => Machine(m) in w.at && Bundle(l) !in w.at
    case Read(id, c, r, answers, quiet) =>
      && id !in w.open && Machine(c) in w.at && r in w.at && r != Machine(c)
      && PastGates(Reading(w, c, r, answers, quiet))
    case Write(id) => id in w.open && w.open[id].done < |Plan(w.open[id])|
    case StoreCurrent(id) =>
      && id in w.open && w.open[id].quiet && w.open[id].peer.Bundle? && w.open[id].done == 0
      && Machine(w.open[id].machine) in w.at
    case Drop(id) => id in w.open
  }

  /** One write; an approval counts when the vault it was given for is written. */
  function DoWrite(w: World, s: Session, x: Write): World {
    match x
    case OwnVault =>
      w.(at := w.at[Machine(s.machine) := s.merged],
         log := w.log + Approved(s.ours, s.theirs, s.base, s.ours, s.merged))
    case PeerVault =>
      w.(at := w.at[s.peer := s.merged],
         log := w.log + Approved(s.ours, s.theirs, s.base, s.theirs, s.merged))
    case PeerBase =>
      if s.peer.Machine? then w.(base := w.base[(s.peer.deviceId, Machine(s.machine)) := s.merged]) else w
    case OwnBase => w.(base := w.base[(s.machine, s.peer) := s.merged])
  }

  function Next(w: World, s: Step): World
    requires match s
             case Edit(m, _) => Machine(m) in w.at
             case Backup(m, _, _) => Machine(m) in w.at
             case Read(_, c, r, _, _) => Machine(c) in w.at && r in w.at
             case Write(id) => id in w.open && w.open[id].done < |Plan(w.open[id])|
             case StoreCurrent(id) => id in w.open && Machine(w.open[id].machine) in w.at
             case Drop(_) => true
  {
    match s
    case Edit(m, after) =>
      w.(at := w.at[Machine(m) := after], log := w.log + Edits(w.at[Machine(m)], after))
    case Backup(m, l, based) =>
      w.(at := w.at[Bundle(l) := w.at[Machine(m)]],
         base := if based then w.base[(m, Bundle(l)) := w.at[Machine(m)]] else w.base)
    case Read(id, c, r, answers, quiet) => w.(open := w.open[id := Reading(w, c, r, answers, quiet)])
    case Write(id) =>
      var x := w.open[id];
      DoWrite(w, x, Plan(x)[x.done]).(open := w.open[id := x.(done := x.done + 1)])
    case StoreCurrent(id) =>
      var x := w.open[id];
      w.(base := w.base[(x.machine, x.peer) := w.at[Machine(x.machine)]], open := w.open[id := x.(done := 1)])
    case Drop(id) => w.(open := w.open - {id})
  }

  // ---------- what every state keeps ----------

  ghost predicate IsDone(s: Session, x: Write) {
    exists i :: 0 <= i < s.done && i < |Plan(s)| && Plan(s)[i] == x
  }

  /** The base is written and the peer's copy is not. */
  predicate InDebt(s: Session) {
    s.quiet && s.done == 1
  }

  ghost predicate SessionOk(w: World, s: Session) {
    && Machine(s.machine) in w.at && s.peer in w.at && s.peer != Machine(s.machine) && s.done <= |Plan(s)|
    && s.merged == MergedProjects(s.ours, s.theirs, s.base, s.answers) && PastGates(s)
    && OnlyAnswers(s.ours, s.theirs, s.base, s.answers)
    && Follows(w.log, s.base, s.ours) && Follows(w.log, s.base, s.theirs)
    && Follows(w.log, s.ours, w.at[Machine(s.machine)]) && Follows(w.log, s.theirs, w.at[s.peer])
    && (s.quiet || IsDone(s, OwnVault) ==> Follows(w.log, s.merged, w.at[Machine(s.machine)]))
    && (IsDone(s, PeerVault) ==> Follows(w.log, s.merged, w.at[s.peer]))
  }

  /** A common ancestor of the machine's copy and the peer's. */
  ghost predicate IsAncestor(w: World, c: string, r: Replica, b: Projects) {
    && Machine(c) in w.at && r in w.at
    && Follows(w.log, b, w.at[Machine(c)]) && Follows(w.log, b, w.at[r])
  }

  /** The base is what a sync in debt has just written. */
  ghost predicate Owed(w: World, c: string, r: Replica, b: Projects) {
    && Machine(c) in w.at && r in w.at && Follows(w.log, b, w.at[Machine(c)])
    && exists id :: id in w.open && w.open[id].machine == c && w.open[id].peer == r && InDebt(w.open[id])
                    && (r.Machine? ==> w.open[id].merged == b)
  }

  /**
   Everything was once typed in; every stored base is a common ancestor of the two copies it belongs to, or a
   sync under way still owes the peer its copy; and what each sync read has only been built on since.
   */
  ghost predicate Sound(w: World) {
    && (forall r :: r in w.at ==> Follows(w.log, map[], w.at[r]))
    && (forall c, r :: (c, r) in w.base ==>
          IsAncestor(w, c, r, w.base[(c, r)]) || Owed(w, c, r, w.base[(c, r)]))
    && (forall id :: id in w.open ==> SessionOk(w, w.open[id]))
  }

  // ---------- the conditions nothing in the program checks ----------

  /** In every variable the copy about to be overwritten holds what was read of it, or what is written. */
  ghost predicate Unspoiled(copy: Projects, read: Projects, m: Projects) {
    forall p, k :: Val(copy, p, k) == Val(read, p, k) || Val(copy, p, k) == Val(m, p, k)
  }

  /**
   A vault is overwritten only unspoiled; nobody reads a pair whose sync is in debt, nor gives answers that
   reach further than the conflicts; and a sync in debt ends only if the two copies agree anyway.
   */
  ghost predicate Careful(w: World, s: Step)
    requires Enabled(w, s)
  {
    match s
    case Edit(_, _) => true
    case Backup(_, _, _) => true
    case Read(_, c, r, answers, _) =>
      && OnlyAnswers(w.at[Machine(c)], w.at[r], BaseOf(w, c, r), answers)
      && forall id :: id in w.open && w.open[id].machine == c && w.open[id].peer == r ==> !InDebt(w.open[id])
    case Write(id) =>
      var x := w.open[id];
      && (Plan(x)[x.done] == OwnVault ==>
            Machine(x.machine) in w.at && Unspoiled(w.at[Machine(x.machine)], x.ours, x.merged))
      && (Plan(x)[x.done] == PeerVault ==> x.peer in w.at && Unspoiled(w.at[x.peer], x.theirs, x.merged))
    case StoreCurrent(_) => true
    case Drop(id) =>
      var x := w.open[id];
      InDebt(x) ==>
        && (x.machine, x.peer) in w.base && x.peer in w.at
        && SameVars(w.base[(x.machine, x.peer)], w.at[x.peer])
  }

  // ---------- one merge ----------

  lemma ApprovedLeads(log: Log, o: Projects, t: Projects, b: Projects, side: Projects, m: Projects,
                      p: string, k: string)
    requires Deleted(o, t, b, p) || Clashing(o, t, b, p, k)
    ensures Leads(log + Approved(o, t, b, side, m), p, k, Val(side, p, k), Val(m, p, k))
  {
    var log' := log + Approved(o, t, b, side, m);
    if Val(side, p, k) == Val(m, p, k) {
      LeadsNowhere(log', p, k, Val(m, p, k));
    } else {
      assert (p, k) in VarNames(side) + VarNames(m);
      assert Action(p, k, Val(side, p, k), Val(m, p, k)) in Edits(side, m);
      LeadsByAction(log', p, k, Val(side, p, k), Val(m, p, k));
    }
  }

  /** Where nothing needed approval, the merge takes one of the two sides, and the other still holds the base. */
  lemma MergedSide(o: Projects, t: Projects, b: Projects, answers: Resolutions, p: string, k: string)
    requires Settles(o, t, b, answers) && OnlyAnswers(o, t, b, answers)
    requires !Deleted(o, t, b, p) && !Clashing(o, t, b, p, k)
    ensures
      var vo, vt, vb, vm := Val(o, p, k), Val(t, p, k), Val(b, p, k), Val(MergedProjects(o, t, b, answers), p, k);
      (vm == vo && (vt == vo || vt == vb)) || (vm == vt && vo == vb)
  {
    MergedVal(o, t, b, answers, p, k);
    if p in o && p in t {
      assert Verdicts(o, t, b, answers, p, k).Take?;
      assert Val(o, p, k) != Val(t, p, k) ==> Manual(answers, p, k).None?;
    }
  }

  /** Both sides reach the merged projects by their own edits, the other side's, and what was approved. */
  lemma MergeFollows(log: Log, o: Projects, t: Projects, b: Projects, answers: Resolutions, side: Projects)
    requires Follows(log, b, o) && Follows(log, b, t) && (side == o || side == t)
    requires Settles(o, t, b, answers) && OnlyAnswers(o, t, b, answers)
    ensures
      var m := MergedProjects(o, t, b, answers);
      Follows(log + Approved(o, t, b, side, m), side, m)
  {
    var m := MergedProjects(o, t, b, answers);
    var log' := log + Approved(o, t, b, side, m);
    forall p, k ensures Leads(log', p, k, Val(side, p, k), Val(m, p, k)) {
      if Deleted(o, t, b, p) || Clashing(o, t, b, p, k) {
        ApprovedLeads(log, o, t, b, side, m, p, k);
      } else {
        MergedSide(o, t, b, answers, p, k);
        LeadsNowhere(log', p, k, Val(m, p, k));
        LeadsStill(log, log', p, k, Val(b, p, k), Val(o, p, k));
        LeadsStill(log, log', p, k, Val(b, p, k), Val(t, p, k));
      }
    }
  }

  /** A sync with no conflict and no project deletion needs nobody's approval. */
  lemma NothingToApprove(o: Projects, t: Projects, b: Projects, side: Projects, m: Projects)
    requires Settles(o, t, b, NONE) && forall p :: !Deleted(o, t, b, p)
    ensures Approved(o, t, b, side, m) == {}
  {
    forall p, k ensures !Clashing(o, t, b, p, k) {
      assert p in o && p in t ==> Verdicts(o, t, b, NONE, p, k).Take?;
    }
  }

  /** Overwriting an unspoiled copy with the merge follows from what the copy holds now. */
  lemma OverwriteFollows(log: Log, log': Log, copy: Projects, read: Projects, m: Projects)
    requires Unspoiled(copy, read, m) && Follows(log', read, m)
    ensures Follows(log', copy, m)
  {
    forall p, k ensures Leads(log', p, k, Val(copy, p, k), Val(m, p, k)) {
      LeadsNowhere(log', p, k, Val(m, p, k));
      assert Leads(log', p, k, Val(read, p, k), Val(m, p, k));
    }
  }
}
