/** The unlocked key, its two deadlines, and what a lock takes away (src/agent/state.ts). */
module AgentStates {
  import opened Wrappers
  import opened Grants
  import Bytes

  datatype Status = Locked | Unlocked(idleRemainingMs: Time, maxAgeRemainingMs: Time)

  function Remaining(deadline: Time, now: Time): Time {
    if deadline > now then deadline - now else 0.0
  }

  type Key = array<Bytes.Byte>

  predicate AllZero(b: Key)
    reads b
  {
    forall i :: 0 <= i < b.Length ==> b[i] == 0
  }

  method Zero(b: Key)
    modifies b
    ensures AllZero(b)
  {
    for i := 0 to b.Length
      invariant forall j :: 0 <= j < i ==> b[j] == 0
    {
      b[i] := 0;
    }
  }

  method Copy(b: Key) returns (r: Key)
    ensures fresh(r) && r[..] == b[..]
  {
    r := new Bytes.Byte[b.Length](i requires 0 <= i < b.Length reads b => b[i]);
  }

  /** What the agent holds, as far as requests can tell: the key, its two stamps, and the log of its grants. */
  datatype Holding = Holding(key: Option<seq<Bytes.Byte>>, unlockedAt: Time, lastActivityAt: Time, log: seq<Entry>)

  function AfterLock(v: Holding): Holding {
    Holding(None, 0.0, 0.0, v.log + [Cleared])
  }

  /** The absolute deadline has passed, whether or not its timer has fired. */
  predicate Expired(maxAgeMs: Time, v: Holding, now: Time) {
    v.key.Some? && maxAgeMs > 0.0 && now >= v.unlockedAt + maxAgeMs
  }

  function Aged(maxAgeMs: Time, v: Holding, now: Time): Holding {
    if Expired(maxAgeMs, v, now) then AfterLock(v) else v
  }

  /** A key is held and its absolute deadline is still to come. */
  predicate Usable(maxAgeMs: Time, v: Holding, now: Time) {
    v.key.Some? && !Expired(maxAgeMs, v, now)
  }

  function Touched(v: Holding, now: Time): Holding {
    if v.key.Some? then v.(lastActivityAt := now) else v
  }

  /** A fresh unlock at `now`; the deadline is armed at `later`, and locks at once if it has passed by then. */
  function AfterUnlock(maxAgeMs: Time, log: seq<Entry>, key: seq<Bytes.Byte>, now: Time, later: Time): Holding {
    Aged(maxAgeMs, Holding(Some(key), now, now, log), later)
  }

  class AgentState {
    const idleMs: Time
    const maxAgeMs: Time
    /** `lock` clears these: the agent wires its grant store to the lock callback. */
    const grants: GrantStore
    var key: array?<Bytes.Byte>
    var lastActivityAt: Time
    var unlockedAt: Time
    var idleTimer: Option<Time>
    var maxAgeTimer: Option<Time>
    ghost var clock: Time
    /** Key buffers this object held once and no longer holds. */
    ghost var dropped: set<Key>

    constructor (idleMs: Time, maxAgeMs: Time, grants: GrantStore, ghost now: Time)
      requires grants.Valid() && grants.clock <= now && grants.grants == map[]
      ensures Valid() && this.idleMs == idleMs && this.maxAgeMs == maxAgeMs && this.grants == grants
      ensures key == null && dropped == {} && clock == now
    {
      this.idleMs, this.maxAgeMs, this.grants := idleMs, maxAgeMs, grants;
      key, lastActivityAt, unlockedAt, idleTimer, maxAgeTimer := null, 0.0, 0.0, None, None;
      clock, dropped := now, {};
    }

    ghost function View(): Holding
      reads this, grants, key
    {
      Holding(if key == null then None else Some(key[..]), unlockedAt, lastActivityAt, grants.log)
    }

    /** Every buffer that was let go has been overwritten. */
    ghost predicate Clean()
      reads this, dropped
    {
      forall b :: b in dropped ==> AllZero(b)
    }

    /** With no key there are no timers, no time stamps and no grants; with one, each deadline is armed. */
    ghost predicate Valid()
      reads this, grants
    {
      && grants.Valid() && grants.clock <= clock
      && (key == null ==>
            && idleTimer.None? && maxAgeTimer.None? && lastActivityAt == 0.0 && unlockedAt == 0.0
            && grants.grants == map[])
      && (key != null ==>
            && key.Length == 32 && key !in dropped
            && unlockedAt <= lastActivityAt <= clock
            && idleTimer == (if idleMs > 0.0 then Some(lastActivityAt + idleMs) else None)
            && maxAgeTimer == (if maxAgeMs > 0.0 then Some(unlockedAt + maxAgeMs) else None))
    }

    /** Nothing about the held key changed. */
    twostate predicate SameUnlock()
      reads this
    {
      key == old(key) && unlockedAt == old(unlockedAt) && lastActivityAt == old(lastActivityAt)
      && idleTimer == old(idleTimer) && maxAgeTimer == old(maxAgeTimer) && dropped == old(dropped)
    }

    /** The key buffer is overwritten in place before it is let go, and the grants go with it. */
    method Lock()
      requires Valid()
      modifies this, grants, key
      ensures Valid() && key == null && clock == old(clock) && View() == AfterLock(old(View()))
      ensures old(key) == null ==> dropped == old(dropped)
      ensures old(key) != null ==> dropped == old(dropped) + {old(key)} && AllZero(old(key))
      ensures old(Clean()) ==> Clean()
    {
      idleTimer, maxAgeTimer := None, None;
      if key != null {
        Zero(key);
        dropped := dropped + {key};
        key := null;
      }
      lastActivityAt, unlockedAt := 0.0, 0.0;
      grants.Clear();
    }

    method EnforceMaxAge(now: Time)
      requires Valid() && clock <= now
      modifies this, grants, key
      ensures Valid() && clock == now && View() == Aged(maxAgeMs, old(View()), now)
      ensures old(Clean()) ==> Clean()
      ensures key != null ==> SameUnlock()
      ensures old(key) == null ==> key == null && dropped == old(dropped)
    {
      clock := now;
      if key == null || maxAgeMs <= 0.0 { return; }
      if now >= unlockedAt + maxAgeMs { Lock(); }
    }

    method IsLocked(now: Time) returns (locked: bool)
      requires Valid() && clock <= now
      modifies this, grants, key
      ensures Valid() && clock == now && View() == Aged(maxAgeMs, old(View()), now)
      ensures old(Clean()) ==> Clean()
      ensures locked <==> key == null
      ensures locked <==> !Usable(maxAgeMs, old(View()), now)
      ensures !locked ==> SameUnlock()
      ensures old(key) == null ==> dropped == old(dropped)
    {
      EnforceMaxAge(now);
      return key == null;
    }

    /** What `status` reports is the time left until the armed deadlines. */
    method GetStatus(now: Time) returns (s: Status)
      requires Valid() && clock <= now
      modifies this, grants, key
      ensures Valid() && clock == now && View() == Aged(maxAgeMs, old(View()), now)
      ensures old(Clean()) ==> Clean()
      ensures s == StatusOf(idleMs, maxAgeMs, old(View()), now)
      ensures key != null ==> SameUnlock()
      ensures s.Unlocked? && idleTimer.Some? ==>
                s.idleRemainingMs == if idleTimer.value > now then idleTimer.value - now else 0.0
      ensures s.Unlocked? && maxAgeTimer.Some? ==> 0.0 < s.maxAgeRemainingMs == maxAgeTimer.value - now
    {
      EnforceMaxAge(now);
      if key == null { return Locked; }
      return Unlocked(Remaining(lastActivityAt + idleMs, now), Remaining(unlockedAt + maxAgeMs, now));
    }

    /** Hands out the key only strictly before the absolute deadline, however late the timers run. */
    method RequireKey(now: Time) returns (k: array?<Bytes.Byte>)
      requires Valid() && clock <= now
      modifies this, grants, key
      ensures Valid() && clock == now && k == key && View() == Aged(maxAgeMs, old(View()), now)
      ensures old(Clean()) ==> Clean()
      ensures k != null ==> SameUnlock() && (maxAgeMs > 0.0 ==> now < old(unlockedAt) + maxAgeMs)
      ensures k != null <==> Usable(maxAgeMs, old(View()), now)
    {
      EnforceMaxAge(now);
      return key;
    }

    /** Moves the idle deadline and nothing else; the absolute deadline stays where the unlock put it. */
    method Touch(now: Time)
      requires Valid() && clock <= now
      modifies this`lastActivityAt, this`idleTimer, this`clock
      ensures Valid() && clock == now && View() == Touched(old(View()), now)
      ensures key == null ==> SameUnlock()
    {
      clock := now;
      if key == null { return; }
      lastActivityAt := now;
      idleTimer := if idleMs > 0.0 then Some(now + idleMs) else None;
    }

    /** Arms the absolute deadline of a key set at `unlockedAt`; a clock that ran past it meanwhile locks at once. */
    method ArmMaxAgeTimer(now: Time)
      requires key != null && key.Length == 32 && key !in dropped
      requires grants.Valid() && grants.clock <= clock <= now && unlockedAt <= lastActivityAt <= clock
      requires idleTimer == (if idleMs > 0.0 then Some(lastActivityAt + idleMs) else None)
      modifies this, grants, key
      ensures Valid() && clock == now && View() == Aged(maxAgeMs, old(View()), now)
      ensures old(Clean()) ==> Clean()
      ensures key == null ==> dropped == old(dropped) + {old(key)} && AllZero(old(key))
      ensures key != null ==> key == old(key) && dropped == old(dropped)
    {
      clock := now;
      maxAgeTimer := None;
      if maxAgeMs <= 0.0 { return; }
      maxAgeTimer := Some(unlockedAt + maxAgeMs);
      if unlockedAt + maxAgeMs - now <= 0.0 { Lock(); }
    }

    /** The synchronous part of `unlock` before the key store is read: nothing to read if a key is held. */
    method UnlockStart(now: Time) returns (needsKey: bool)
      requires Valid() && clock <= now
      modifies this, grants, key
      ensures Valid() && clock == now && (needsKey <==> key == null)
      ensures View() == Touched(Aged(maxAgeMs, old(View()), now), now)
      ensures old(Clean()) ==> Clean()
      ensures needsKey <==> !Usable(maxAgeMs, old(View()), now)
      ensures !needsKey ==> key == old(key) && dropped == old(dropped)
      ensures old(key) == null ==> dropped == old(dropped)
    {
      EnforceMaxAge(now);
      if key == null { return true; }
      Touch(now);
      return false;
    }

    /** Holds `copy` from now on and lets go, as it is, what was held before. */
    method Install(copy: Key, now: Time, later: Time)
      requires Valid() && clock <= now <= later && copy.Length == 32 && copy != key && copy !in dropped
      modifies this, grants, copy
      ensures Valid() && clock == later
      ensures View() == AfterUnlock(maxAgeMs, old(grants.log), old(copy[..]), now, later)
      ensures key == copy || (key == null && AllZero(copy))
      ensures dropped == old(dropped)
                         + (if old(key) == null then {} else {old(key)}) + (if key == null then {copy} else {})
    {
      if key != null { dropped := dropped + {key}; }
      key := copy;
      unlockedAt := now;
      lastActivityAt := now;
      idleTimer := if idleMs > 0.0 then Some(now + idleMs) else None;
      clock := now;
      ArmMaxAgeTimer(later);
    }

    /**
     The rest of `unlock`, when the key store has answered. Meanwhile anything may have happened: a key that
     is held by now is let go as it is, and its grants stay.
     */
    method UnlockFinish(resolved: Key, now: Time, later: Time) returns (ok: bool)
      requires Valid() && clock <= now <= later
      modifies this, grants, key
      ensures Valid() && clock <= later && (ok <==> resolved.Length == 32)
      ensures !ok ==> SameUnlock() && View() == old(View())
      ensures ok ==> View() == AfterUnlock(maxAgeMs, old(grants.log), old(resolved[..]), now, later)
      ensures ok && key != null ==> fresh(key)
      ensures old(key) == null && old(Clean()) ==> Clean()
      ensures ok ==> (Clean() <==> old(Clean()) && (old(key) == null || AllZero(old(key))))
      ensures ok && old(key) != null ==> old(key)[..] == old(key[..])
      ensures ok && key != null ==> dropped == old(dropped) + (if old(key) == null then {} else {old(key)})
      ensures ok && key == null ==> dropped >= old(dropped) + (if old(key) == null then {} else {old(key)})
    {
      if resolved.Length != 32 { return false; }
      var copy := Copy(resolved);
      Install(copy, now, later);
      return true;
    }

    /** A key pushed by the command line: a fresh unlock. A key already held is overwritten first; grants stay. */
    method UnlockWithKey(pushed: Key, now: Time, later: Time) returns (ok: bool)
      requires Valid() && clock <= now <= later
      modifies this, grants, key
      ensures Valid() && clock <= later && (ok <==> pushed.Length == 32)
      ensures old(Clean()) ==> Clean()
      ensures !ok ==> SameUnlock() && View() == old(View())
      ensures ok ==> View() == AfterUnlock(maxAgeMs, old(grants.log), old(pushed[..]), now, later)
      ensures ok && key != null ==> fresh(key)
      ensures ok && old(key) != null ==> AllZero(old(key))
      ensures ok && key != null ==> dropped == old(dropped) + (if old(key) == null then {} else {old(key)})
      ensures ok && key == null ==> dropped >= old(dropped) + (if old(key) == null then {} else {old(key)})
    {
      if pushed.Length != 32 { return false; }
      var copy := Copy(pushed);
      if key != null { Zero(key); }
      Install(copy, now, later);
      return true;
    }

    /** The prune timer of the grants: nothing of the key changes. */
    method OnPruneTimer(now: Time)
      requires Valid() && clock <= now && grants.pruneTimer.Some?
      modifies this`clock, grants
      ensures Valid() && clock == now && View() == old(View())
      ensures grants.grants == Unexpired(old(grants.grants), now)
    {
      assert key != null by { assert grants.grants != map[]; }
      clock := now;
      grants.OnPruneTimer(now);
    }

    /** Either timer, whenever it fires. */
    method OnTimer(now: Time)
      requires Valid() && clock <= now && (idleTimer.Some? || maxAgeTimer.Some?)
      modifies this, grants, key
      ensures Valid() && clock == now && View() == AfterLock(old(View()))
      ensures old(Clean()) ==> Clean()
    {
      clock := now;
      Lock();
    }
  }

  function StatusOf(idleMs: Time, maxAgeMs: Time, v: Holding, now: Time): Status {
    if Usable(maxAgeMs, v, now)
    then Unlocked(Remaining(v.lastActivityAt + idleMs, now), Remaining(v.unlockedAt + maxAgeMs, now))
    else Locked
  }
}
