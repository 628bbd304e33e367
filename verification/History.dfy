/**
 What users did, as a log, and what it means for one state of the projects to have come out of
 another by nothing but user actions.
 */
module History {
  import opened Wrappers
  import opened Vaults

  /** A user replaced `before` by `after`: an edit, an answered conflict, or an approved project deletion. */
  datatype Action = Action(project: string, key: string, before: Option<VarEntry>, after: Option<VarEntry>)

  type Log = set<Action>

  ghost predicate Chain(log: Log, p: string, k: string, path: seq<Option<VarEntry>>) {
    && path != []
    && forall i :: 0 <= i < |path| - 1 ==> Action(p, k, path[i], path[i + 1]) in log
  }

  ghost predicate ChainBetween(log: Log, p: string, k: string, path: seq<Option<VarEntry>>,
                               a: Option<VarEntry>, b: Option<VarEntry>)
  {
    Chain(log, p, k, path) && path[0] == a && path[|path| - 1] == b
  }

  /** Some chain of user actions takes the variable from `a` to `b`. */
  ghost predicate Leads(log: Log, p: string, k: string, a: Option<VarEntry>, b: Option<VarEntry>) {
    exists path :: ChainBetween(log, p, k, path, a, b)
  }

  lemma LeadsNowhere(log: Log, p: string, k: string, a: Option<VarEntry>)
    ensures Leads(log, p, k, a, a)
  {
    assert ChainBetween(log, p, k, [a], a, a);
  }

  lemma LeadsByAction(log: Log, p: string, k: string, a: Option<VarEntry>, b: Option<VarEntry>)
    requires Action(p, k, a, b) in log
    ensures Leads(log, p, k, a, b)
  {
    assert ChainBetween(log, p, k, [a, b], a, b);
  }

  lemma LeadsOn(log: Log, p: string, k: string, a: Option<VarEntry>, b: Option<VarEntry>, c: Option<VarEntry>)
    requires Leads(log, p, k, a, b) && Leads(log, p, k, b, c)
    ensures Leads(log, p, k, a, c)
  {
    var x :| ChainBetween(log, p, k, x, a, b);
    var y :| ChainBetween(log, p, k, y, b, c);
    var z := x + y[1..];
    forall i | 0 <= i < |z| - 1 ensures Action(p, k, z[i], z[i + 1]) in log {
      if i < |x| - 1 {
        assert z[i] == x[i] && z[i + 1] == x[i + 1];
      } else {
        assert z[i] == y[i - |x| + 1] && z[i + 1] == y[i - |x| + 2];
      }
    }
    assert ChainBetween(log, p, k, z, a, c);
  }

  lemma LeadsStill(log: Log, more: Log, p: string, k: string, a: Option<VarEntry>, b: Option<VarEntry>)
    requires Leads(log, p, k, a, b) && log <= more
    ensures Leads(more, p, k, a, b)
  {
    var x :| ChainBetween(log, p, k, x, a, b);
    assert ChainBetween(more, p, k, x, a, b);
  }

  /** Leaving an entry takes an action on it. */
  lemma LeadsStarts(log: Log, p: string, k: string, a: Option<VarEntry>, b: Option<VarEntry>)
    requires Leads(log, p, k, a, b) && a != b
    ensures exists x :: Action(p, k, a, x) in log
  {
    var path :| ChainBetween(log, p, k, path, a, b);
    assert Action(p, k, path[0], path[1]) in log;
  }

  /** Nobody has replaced this entry yet: true of whatever was just typed in. */
  ghost predicate Unreplaced(log: Log, p: string, k: string, a: Option<VarEntry>) {
    forall x :: Action(p, k, a, x) !in log
  }

  /** No two different entries of the variable lead to each other. */
  ghost predicate AcyclicAt(log: Log, p: string, k: string) {
    forall a, b :: Leads(log, p, k, a, b) && Leads(log, p, k, b, a) ==> a == b
  }

  /** Every variable of `after` came out of its entry in `before` by user actions alone. */
  ghost predicate Follows(log: Log, before: Projects, after: Projects) {
    forall p, k :: Leads(log, p, k, Val(before, p, k), Val(after, p, k))
  }

  lemma FollowsItself(log: Log, ps: Projects)
    ensures Follows(log, ps, ps)
  {
    forall p, k ensures Leads(log, p, k, Val(ps, p, k), Val(ps, p, k)) {
      LeadsNowhere(log, p, k, Val(ps, p, k));
    }
  }

  lemma FollowsOn(log: Log, a: Projects, b: Projects, c: Projects)
    requires Follows(log, a, b) && Follows(log, b, c)
    ensures Follows(log, a, c)
  {
    forall p, k ensures Leads(log, p, k, Val(a, p, k), Val(c, p, k)) {
      LeadsOn(log, p, k, Val(a, p, k), Val(b, p, k), Val(c, p, k));
    }
  }

  lemma FollowsStill(log: Log, more: Log, a: Projects, b: Projects)
    requires Follows(log, a, b) && log <= more
    ensures Follows(more, a, b)
  {
    forall p, k ensures Leads(more, p, k, Val(a, p, k), Val(b, p, k)) {
      LeadsStill(log, more, p, k, Val(a, p, k), Val(b, p, k));
    }
  }

  // ---------- edits ----------

  function VarNames(ps: Projects): set<(string, string)> {
    set p, k | p in ps.Keys && k in ps[p].vars.Keys :: (p, k)
  }

  /** The actions that turn `before` into `after`, one for each variable that differs. */
  function Edits(before: Projects, after: Projects): Log {
    set n | n in VarNames(before) + VarNames(after) && Val(before, n.0, n.1) != Val(after, n.0, n.1)
      :: Action(n.0, n.1, Val(before, n.0, n.1), Val(after, n.0, n.1))
  }

  lemma EditsFollow(before: Projects, after: Projects)
    ensures Follows(Edits(before, after), before, after)
  {
    var log := Edits(before, after);
    forall p, k ensures Leads(log, p, k, Val(before, p, k), Val(after, p, k)) {
      if Val(before, p, k) == Val(after, p, k) {
        LeadsNowhere(log, p, k, Val(before, p, k));
      } else {
        assert (p, k) in VarNames(before) + VarNames(after);
        assert Action(p, k, Val(before, p, k), Val(after, p, k)) in log;
        LeadsByAction(log, p, k, Val(before, p, k), Val(after, p, k));
      }
    }
  }

  // ---------- what the chains say about time stamps ----------

  /** Overwriting an entry always stamps the new one later. */
  ghost predicate StampsGrow(log: Log) {
    forall a :: a in log && a.before.Some? && a.after.Some? ==> a.before.value.updatedAt < a.after.value.updatedAt
  }

  ghost predicate NoGap(path: seq<Option<VarEntry>>) {
    forall i :: 0 <= i < |path| ==> path[i].Some?
  }

  /** Along a chain, an entry gives way only to a later one, or somebody deleted the variable on the way. */
  lemma {:induction false} ChainsGrow(log: Log, p: string, k: string, path: seq<Option<VarEntry>>)
    requires StampsGrow(log) && Chain(log, p, k, path) && NoGap(path)
    ensures |path| == 1 || path[0].value.updatedAt < path[|path| - 1].value.updatedAt
  {
    if |path| > 1 {
      var n := |path| - 1;
      assert Action(p, k, path[n - 1], path[n]) in log;
      ChainsGrow(log, p, k, path[..n]);
    }
  }

  lemma NoRollback(log: Log, p: string, k: string, a: VarEntry, b: VarEntry)
    requires StampsGrow(log) && Leads(log, p, k, Some(a), Some(b)) && a != b
    ensures a.updatedAt < b.updatedAt
            || exists path :: ChainBetween(log, p, k, path, Some(a), Some(b)) && !NoGap(path)
  {
    var path :| ChainBetween(log, p, k, path, Some(a), Some(b));
    if NoGap(path) {
      ChainsGrow(log, p, k, path);
    }
  }

  ghost predicate NeverDeleted(log: Log, p: string, k: string) {
    forall a :: a in log && a.project == p && a.key == k ==> a.after.Some?
  }

  lemma {:induction false} StaysThere(log: Log, p: string, k: string, path: seq<Option<VarEntry>>)
    requires NeverDeleted(log, p, k) && Chain(log, p, k, path)
    ensures forall i :: 0 < i < |path| ==> path[i].Some?
  {
    forall i | 0 < i < |path| ensures path[i].Some? {
      assert Action(p, k, path[i - 1], path[i - 1 + 1]) in log;
    }
  }

  /** With growing stamps and no deletion of the variable, its entries never come back. */
  lemma GrowingIsAcyclic(log: Log, p: string, k: string)
    requires StampsGrow(log) && NeverDeleted(log, p, k)
    ensures AcyclicAt(log, p, k)
  {
    forall a, b | Leads(log, p, k, a, b) && Leads(log, p, k, b, a) ensures a == b {
      var x :| ChainBetween(log, p, k, x, a, b);
      var y :| ChainBetween(log, p, k, y, b, a);
      StaysThere(log, p, k, x);
      StaysThere(log, p, k, y);
      if |x| > 1 && |y| > 1 {
        ChainsGrow(log, p, k, x);
        ChainsGrow(log, p, k, y);
      }
    }
  }
}
