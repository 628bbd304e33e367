/** Reveal grants the agent holds in memory (src/agent/grants.ts), against a log of what was asked. */
module Grants {
  import opened Wrappers
  import Text

  /** Milliseconds. */
  type Time = real

  const GRANT_TTL_MIN_SECONDS := 60.0
  const GRANT_TTL_MAX_SECONDS := 28800.0

  datatype Caller = Caller(exe: string, dev: int, ino: int)

  datatype Grant = Grant(id: string, project: string, caller: Caller, createdAt: Time, expiresAt: Time)

  datatype ListItem = ListItem(id: string, project: string, exe: string, remainingMs: Time)

  datatype CheckResult = NotGranted | Granted(id: string, remainingMs: Time)

  // ---------- the log ----------

  datatype Entry = Added(grant: Grant) | Revoked(id: string) | Cleared

  function HeldAfter(before: map<string, Grant>, e: Entry): map<string, Grant> {
    match e
    case Added(g) => before[g.id := g]
    case Revoked(id) => before - {id}
    case Cleared => map[]
  }

  /** What has been added and not taken back; time plays no part. */
  function Held(log: seq<Entry>): map<string, Grant> {
    if log == [] then map[] else HeldAfter(Held(log[..|log| - 1]), log[|log| - 1])
  }

  /** Ends the life of whatever was added under `id` before: a revocation, a lock, or a new grant of that id. */
  predicate Ends(e: Entry, id: string) {
    match e
    case Added(g) => g.id == id
    case Revoked(r) => r == id
    case Cleared => true
  }

  /** What a revocation asks for, if it names anything. */
  function RevokeEntry(id: Option<string>, all: bool): Option<Entry> {
    if all then Some(Cleared) else if id.Some? && id.value != "" then Some(Revoked(id.value)) else None
  }

  ghost predicate AddedLast(log: seq<Entry>, i: nat, g: Grant) {
    i < |log| && log[i] == Added(g) && forall j :: i < j < |log| ==> !Ends(log[j], g.id)
  }

  lemma {:induction false} HeldIffAddedLast(log: seq<Entry>, g: Grant)
    ensures Look(Held(log), g.id) == Some(g) <==> exists i :: AddedLast(log, i, g)
    ensures forall id :: id in Held(log) ==> Held(log)[id].id == id
    decreases |log|
  {
    if log != [] {
      var n := |log| - 1;
      HeldIffAddedLast(log[..n], g);
      if Ends(log[n], g.id) {
        assert log[n] == Added(g) ==> AddedLast(log, n, g);
        assert forall i: nat :: AddedLast(log, i, g) ==> i == n;
      } else {
        forall i: nat ensures AddedLast(log, i, g) <==> AddedLast(log[..n], i, g) {
          if AddedLast(log[..n], i, g) {
            assert forall j :: i < j < n ==> log[j] == log[..n][j];
          }
          if AddedLast(log, i, g) {
            assert i != n && forall j :: i < j < n ==> log[j] == log[..n][j];
          }
        }
      }
    }
  }

  /** From one minute to eight hours, for a named project and a binary that is fully identified. */
  predicate Addable(project: string, caller: Option<Caller>, ttlSeconds: Option<real>) {
    && ttlSeconds.Some? && GRANT_TTL_MIN_SECONDS <= ttlSeconds.value <= GRANT_TTL_MAX_SECONDS
    && Text.Trim(project) != "" && caller.Some? && caller.value.exe != ""
  }

  lemma AddableIff(project: string, caller: Option<Caller>, ttlSeconds: Option<real>)
    ensures Addable(project, caller, ttlSeconds)
            <==> && ttlSeconds.Some? && 60.0 <= ttlSeconds.value <= 28800.0
                 && !Text.Blank(project) && caller.Some? && caller.value.exe != ""
  {
    var left, right := Text.TrimCuts(project);
  }

  function NewGrant(id: string, project: string, caller: Caller, ttlSeconds: real, now: Time): Grant {
    Grant(id, Text.Trim(project), caller, now, now + ttlSeconds * 1000.0)
  }

  ghost predicate Live(log: seq<Entry>, now: Time, g: Grant) {
    Look(Held(log), g.id) == Some(g) && now < g.expiresAt
  }

  predicate For(g: Grant, project: string, caller: Caller) {
    g.project == project && g.caller == caller
  }

  function ItemOf(g: Grant, now: Time): ListItem {
    ListItem(g.id, g.project, g.caller.exe, if g.expiresAt > now then g.expiresAt - now else 0.0)
  }

  lemma HeldNext(log: seq<Entry>, e: Entry)
    ensures Held(log + [e]) == HeldAfter(Held(log), e)
  {
    assert (log + [e])[..|log|] == log;
  }

  /** A new grant lives beside the others, a revocation ends one life, a lock all of them. */
  lemma LiveAfter(log: seq<Entry>, e: Entry, now: Time, g: Grant)
    requires forall id :: id in Held(log) ==> Held(log)[id].id == id
    ensures e.Added? ==> (Live(log + [e], now, g)
                          <==> if g.id == e.grant.id then g == e.grant && now < g.expiresAt else Live(log, now, g))
    ensures e.Revoked? ==> (Live(log + [e], now, g) <==> Live(log, now, g) && g.id != e.id)
    ensures e.Cleared? ==> !Live(log + [e], now, g)
  {
    HeldNext(log, e);
  }

  /** The map lacks nothing that is held except what has expired. */
  ghost predicate Backed(grants: map<string, Grant>, held: map<string, Grant>, clock: Time) {
    && (forall id :: id in grants ==> id in held && grants[id] == held[id])
    && (forall id :: id in held && id !in grants ==> held[id].expiresAt <= clock)
    && (forall id :: id in grants ==> grants[id].id == id && Text.Trim(grants[id].project) == grants[id].project)
  }

  lemma BackedAfterAdd(grants: map<string, Grant>, held: map<string, Grant>, clock: Time, g: Grant)
    requires Backed(grants, held, clock) && Text.Trim(g.project) == g.project
    ensures Backed(grants[g.id := g], HeldAfter(held, Added(g)), clock)
  {
  }

  lemma BackedAfterRevoke(grants: map<string, Grant>, held: map<string, Grant>, clock: Time, id: string)
    requires Backed(grants, held, clock)
    ensures Backed(grants - {id}, HeldAfter(held, Revoked(id)), clock)
  {
  }

  lemma BackedAfterPrune(grants: map<string, Grant>, held: map<string, Grant>, clock: Time, now: Time)
    requires Backed(grants, held, clock) && clock <= now
    ensures Backed(Unexpired(grants, now), held, now)
  {
  }

  lemma StillBacked(grants: map<string, Grant>, held: map<string, Grant>, clock: Time, now: Time)
    requires Backed(grants, held, clock) && clock <= now
    ensures Backed(grants, held, now)
  {
  }

  /** After a prune the map is exactly what is live. */
  lemma LiveIsLeft(grants: map<string, Grant>, log: seq<Entry>, now: Time)
    requires Backed(grants, Held(log), now) && Unexpired(grants, now) == grants
    ensures forall g :: Live(log, now, g) <==> g.id in grants && grants[g.id] == g
  {
    forall g ensures Live(log, now, g) <==> g.id in grants && grants[g.id] == g {
      if g.id in grants {
        assert g.id in Unexpired(grants, now);
      }
    }
  }

  ghost predicate ItemIn(grants: map<string, Grant>, now: Time, item: ListItem) {
    exists id :: id in grants && item == ItemOf(grants[id], now)
  }

  lemma ItemsAreLive(grants: map<string, Grant>, log: seq<Entry>, now: Time, item: ListItem)
    requires Backed(grants, Held(log), now) && Unexpired(grants, now) == grants
    ensures ItemIn(grants, now, item) <==> exists g :: Live(log, now, g) && item == ItemOf(g, now)
  {
    LiveIsLeft(grants, log, now);
    if ItemIn(grants, now, item) {
      var id :| id in grants && item == ItemOf(grants[id], now);
      assert Live(log, now, grants[id]);
    }
    if g :| Live(log, now, g) && item == ItemOf(g, now) {
      assert g.id in grants && grants[g.id] == g;
    }
  }

  // ---------- the store ----------

  class GrantStore {
    var grants: map<string, Grant>
    var pruneTimer: Option<Time>
    /** Everything asked of the store, and the latest time it was told. */
    ghost var log: seq<Entry>
    ghost var clock: Time
    ghost var held: map<string, Grant>

    constructor (ghost now: Time)
      ensures Valid() && grants == map[] && log == [] && clock == now
    {
      grants, pruneTimer, log, clock, held := map[], None, [], now, map[];
    }

    /** The map lacks nothing the log holds except what has expired; the timer is due at the next expiry. */
    ghost predicate Valid()
      reads this
    {
      held == Held(log) && Backed(grants, held, clock) && IsNextExpiry(grants, pruneTimer, clock)
    }

    method ArmPruneTimer(now: Time)
      modifies this`pruneTimer
      ensures IsNextExpiry(grants, pruneTimer, now)
      ensures pruneTimer.Some? ==> pruneTimer.value > now
    {
      pruneTimer := None;
      var todo := grants.Keys;
      while todo != {}
        invariant todo <= grants.Keys
        invariant IsNextExpiry(grants - todo, pruneTimer, now)
        invariant pruneTimer.Some? ==> pruneTimer.value > now
        decreases |todo|
      {
        var id :| id in todo;
        var at := grants[id].expiresAt;
        assert forall x :: x in grants - (todo - {id}) <==> x in grants - todo || x == id;
        if at > now && (pruneTimer.None? || at < pruneTimer.value) {
          pruneTimer := Some(at);
          assert id in grants - (todo - {id});
        }
        todo := todo - {id};
      }
      assert grants - todo == grants;
    }

    method Clear()
      requires Valid()
      modifies this
      ensures Valid() && grants == map[] && pruneTimer == None && clock == old(clock)
      ensures log == old(log) + [Cleared] && forall t, g :: !Live(log, t, g)
    {
      grants := map[];
      pruneTimer := None;
      HeldNext(log, Cleared);
      log := log + [Cleared];
      held := Held(log);
      assert held == map[];
    }

    /** `id` is drawn at random; drawing one that is in use replaces that grant. */
    method Add(project: string, caller: Option<Caller>, ttlSeconds: Option<real>, id: string, now: Time)
      returns (r: Result<Grant, string>)
      requires Valid() && clock <= now
      modifies this
      ensures Valid() && clock == now
      ensures r.Ok? <==> Addable(project, caller, ttlSeconds)
      ensures r.Ok? ==>
                && r.value == Grant(id, Text.Trim(project), caller.value, now, now + 1000.0 * ttlSeconds.value)
                && log == old(log) + [Added(r.value)]
                && forall g :: Live(log, now, g) <==> if g.id == id then g == r.value else old(Live(log, now, g))
      ensures r.Err? ==> log == old(log) && grants == old(grants)
    {
      clock := now;
      if ttlSeconds.None? || ttlSeconds.value < GRANT_TTL_MIN_SECONDS || ttlSeconds.value > GRANT_TTL_MAX_SECONDS {
        NextExpiryLater(grants, pruneTimer, old(clock), now);
        return Err("bad_request");
      }
      var name := Text.Trim(project);
      if name == "" || caller.None? || caller.value.exe == "" {
        NextExpiryLater(grants, pruneTimer, old(clock), now);
        return Err("bad_request");
      }
      var grant := Grant(id, name, caller.value, now, now + ttlSeconds.value * 1000.0);
      grants := grants[id := grant];
      ArmPruneTimer(now);
      HeldNext(log, Added(grant));
      Text.TrimTwice(project);
      BackedAfterAdd(old(grants), held, now, grant);
      log := log + [Added(grant)];
      held := HeldAfter(held, Added(grant));
      return Ok(grant);
    }

    /** Deletes what has expired; nothing the log holds and that is still live goes with it. */
    method PruneExpired(now: Time) returns (n: nat)
      requires Valid() && clock <= now
      modifies this
      ensures Valid() && clock == now && log == old(log)
      ensures grants == Unexpired(old(grants), now)
      ensures n == |old(grants)| - |grants|
    {
      BackedAfterPrune(grants, held, clock, now);
      StillBacked(grants, held, clock, now);
      NextExpiryLater(grants, pruneTimer, clock, now);
      clock := now;
      grants, n := DeleteExpired(grants, now);
      if n > 0 { ArmPruneTimer(now); }
    }

    /** The timer may fire late; whenever it does, nothing visible changes. */
    method OnPruneTimer(now: Time)
      requires Valid() && clock <= now && pruneTimer.Some?
      modifies this
      ensures Valid() && clock == now && log == old(log) && grants == Unexpired(old(grants), now)
    {
      var _ := PruneExpired(now);
      ArmPruneTimer(now);
    }

    /** Granted exactly when the log has a live grant for this project and this very binary. */
    method Check(project: string, caller: Caller, now: Time) returns (r: CheckResult)
      requires Valid() && clock <= now
      modifies this
      ensures Valid() && clock == now && log == old(log)
      ensures r.Granted? <==>
                exists g :: && Live(log, now, g) && g.project == project
                            && g.caller.exe == caller.exe && g.caller.dev == caller.dev && g.caller.ino == caller.ino
      ensures r.Granted? <==> exists g :: Live(log, now, g) && For(g, project, caller)
      ensures r.Granted? ==> exists g :: && Live(log, now, g) && For(g, project, caller)
                                         && r == Granted(g.id, g.expiresAt - now)
      ensures r.Granted? ==> r.remainingMs > 0.0 && Text.Trim(project) == project
    {
      var _ := PruneExpired(now);
      LiveIsLeft(grants, log, now);
      var hit := Matching(grants, project, caller, now);
      if hit.None? {
        assert forall g :: Live(log, now, g) ==> g.id in grants && grants[g.id] == g;
        return NotGranted;
      }
      var g := grants[hit.value];
      assert Live(log, now, g) && For(g, project, caller);
      return Granted(g.id, g.expiresAt - now);
    }

    /** Each live grant once, and nothing else. */
    method List(now: Time) returns (out: seq<ListItem>)
      requires Valid() && clock <= now
      modifies this
      ensures Valid() && clock == now && log == old(log)
      ensures forall item :: item in out <==> exists g :: Live(log, now, g) && item == ItemOf(g, now)
      ensures forall item :: item in out
                <==> exists g :: Live(log, now, g)
                                 && item == ListItem(g.id, g.project, g.caller.exe, g.expiresAt - now)
      ensures forall i, j :: 0 <= i < j < |out| ==> out[i].id != out[j].id
    {
      var _ := PruneExpired(now);
      out := Items(grants, now);
      forall item ensures item in out <==> exists g :: Live(log, now, g) && item == ItemOf(g, now) {
        ItemsAreLive(grants, log, now, item);
      }
    }

    method Delete(id: string, now: Time) returns (n: nat)
      requires IsNextExpiry(grants, pruneTimer, now)
      modifies this`grants, this`pruneTimer
      ensures grants == old(grants) - {id} && n == |old(grants)| - |grants|
      ensures n == if id in old(grants) then 1 else 0
      ensures IsNextExpiry(grants, pruneTimer, now)
    {
      if id !in grants {
        assert grants - {id} == grants;
        return 0;
      }
      DropOne(grants, id);
      grants := grants - {id};
      ArmPruneTimer(now);
      return 1;
    }

    method RevokeId(id: string, now: Time) returns (n: nat)
      requires Valid() && now == clock
      modifies this`grants, this`pruneTimer, this`log, this`held
      ensures Valid() && log == old(log) + [Revoked(id)]
      ensures n == if id in old(grants) then 1 else 0
    {
      BackedAfterRevoke(grants, held, clock, id);
      HeldNext(log, Revoked(id));
      n := Delete(id, now);
      log := log + [Revoked(id)];
      held := Held(log);
    }

    /** `all` wins over an id; an id that is not held counts as none. */
    method Revoke(id: Option<string>, all: bool, now: Time) returns (r: Result<nat, string>)
      requires Valid() && clock <= now
      modifies this
      ensures Valid() && clock == now
      ensures r.Ok? <==> all || (id.Some? && id.value != "")
      ensures r.Ok? <==> RevokeEntry(id, all).Some?
      ensures all ==> forall t, g :: !Live(log, t, g)
      ensures !all && r.Ok? ==> forall g :: Live(log, now, g) <==> old(Live(log, now, g)) && g.id != id.value
      ensures log == (if r.Ok? then old(log) + [RevokeEntry(id, all).value] else old(log))
      ensures r.Ok? ==> r.value == if all then |old(grants)| else if id.value in old(grants) then 1 else 0
    {
      StillBacked(grants, held, clock, now);
      NextExpiryLater(grants, pruneTimer, clock, now);
      clock := now;
      var n := |grants|;
      if all {
        Clear();
      } else if id.Some? && id.value != "" {
        n := RevokeId(id.value, now);
      } else {
        return Err("bad_request");
      }
      return Ok(n);
    }
  }

  // ---------- the prune timer ----------

  function Unexpired(grants: map<string, Grant>, now: Time): map<string, Grant> {
    map id | id in grants && now < grants[id].expiresAt :: grants[id]
  }

  /** The earliest expiry that is still to come as of `now`. */
  ghost predicate IsNextExpiry(grants: map<string, Grant>, timer: Option<Time>, now: Time) {
    && (timer.None? ==> forall id :: id in grants ==> grants[id].expiresAt <= now)
    && (timer.Some? ==>
          && (forall id :: id in grants ==> grants[id].expiresAt <= now || timer.value <= grants[id].expiresAt)
          && exists id :: id in grants && grants[id].expiresAt == timer.value)
  }

  lemma NextExpiryLater(grants: map<string, Grant>, timer: Option<Time>, now: Time, later: Time)
    requires IsNextExpiry(grants, timer, now) && now <= later
    ensures IsNextExpiry(grants, timer, later)
  {
  }

  // ---------- the loops over the map ----------

  /** What is left and how many went. */
  method DeleteExpired(grants: map<string, Grant>, now: Time) returns (left: map<string, Grant>, n: nat)
    ensures left == Unexpired(grants, now) && n == |grants| - |left|
    ensures n == 0 ==> left == grants
  {
    left, n := grants, 0;
    var todo := grants.Keys;
    while todo != {}
      invariant todo <= grants.Keys
      invariant forall id :: id in left <==> id in grants && (id in todo || now < grants[id].expiresAt)
      invariant forall id :: id in left ==> left[id] == grants[id]
      invariant n == |grants| - |left| && (n == 0 ==> left == grants)
      decreases |todo|
    {
      var id :| id in todo;
      if grants[id].expiresAt <= now {
        DropOne(left, id);
        left := left - {id};
        n := n + 1;
      }
      todo := todo - {id};
    }
  }

  lemma DropOne(m: map<string, Grant>, id: string)
    requires id in m
    ensures |m - {id}| == |m| - 1
  {
    assert (m - {id}).Keys == m.Keys - {id};
    assert |(m - {id}).Keys| == |m - {id}| && |m.Keys| == |m|;
  }

  method Matching(grants: map<string, Grant>, project: string, caller: Caller, now: Time) returns (hit: Option<string>)
    ensures hit.Some? ==> hit.value in grants && For(grants[hit.value], project, caller)
                          && grants[hit.value].expiresAt > now
    ensures hit.None? ==> forall id :: id in grants && For(grants[id], project, caller) ==> grants[id].expiresAt <= now
  {
    var todo := grants.Keys;
    while todo != {}
      invariant todo <= grants.Keys
      invariant forall id :: id in grants && id !in todo && For(grants[id], project, caller)
                  ==> grants[id].expiresAt <= now
      decreases |todo|
    {
      var id :| id in todo;
      var g := grants[id];
      if g.project == project && g.caller == caller && g.expiresAt > now { return Some(id); }
      todo := todo - {id};
    }
    return None;
  }

  method Items(grants: map<string, Grant>, now: Time) returns (out: seq<ListItem>)
    requires forall id :: id in grants ==> grants[id].id == id
    ensures forall item :: item in out <==> ItemIn(grants, now, item)
    ensures forall i, j :: 0 <= i < j < |out| ==> out[i].id != out[j].id
  {
    out := [];
    var todo := grants.Keys;
    ghost var done: map<string, Grant> := map[];
    while todo != {}
      invariant todo <= grants.Keys && done == grants - todo
      invariant forall item :: item in out <==> ItemIn(done, now, item)
      invariant forall i, j :: 0 <= i < j < |out| ==> out[i].id != out[j].id
      decreases |todo|
    {
      var id :| id in todo;
      var item := ItemOf(grants[id], now);
      forall i | 0 <= i < |out| ensures out[i].id != id {
        assert out[i] in out;
        var x :| x in done && out[i] == ItemOf(done[x], now);
      }
      ghost var more := done[id := grants[id]];
      forall k ensures k in out + [item] <==> ItemIn(more, now, k) {
        ItemInMore(done, id, grants[id], now, k);
      }
      out, done := out + [item], more;
      todo := todo - {id};
    }
    assert done == grants;
  }

  lemma ItemInMore(done: map<string, Grant>, id: string, g: Grant, now: Time, item: ListItem)
    requires id !in done
    ensures ItemIn(done[id := g], now, item) <==> ItemIn(done, now, item) || item == ItemOf(g, now)
  {
    var more := done[id := g];
    if ItemIn(more, now, item) {
      var x :| x in more && item == ItemOf(more[x], now);
      assert x != id ==> x in done && item == ItemOf(done[x], now);
    }
    if ItemIn(done, now, item) {
      var x :| x in done && item == ItemOf(done[x], now);
      assert x in more && item == ItemOf(more[x], now);
    }
    if item == ItemOf(g, now) {
      assert id in more && item == ItemOf(more[id], now);
    }
  }
}
