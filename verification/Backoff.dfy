/** The wait between wrong passphrases (src/platform/unlock-attempts.ts, src/platform/keystore-passphrase.ts). */
module Backoff {
  import opened Wrappers

  const MAX_BACKOFF_SEC := 900
  const FAILURES_BEFORE_BACKOFF := 5

  /** The persistent counter; times are milliseconds. */
  datatype Attempts = Attempts(failures: nat, lastFailureAt: int)

  function Pow2(n: nat): (r: nat)
    ensures r >= 1
  {
    if n == 0 then 1 else 2 * Pow2(n - 1)
  }

  function BackoffSeconds(failures: nat): nat {
    if failures < FAILURES_BEFORE_BACKOFF then 0
    else
      var sec := Pow2(failures - FAILURES_BEFORE_BACKOFF);
      if sec < MAX_BACKOFF_SEC then sec else MAX_BACKOFF_SEC
  }

  lemma {:induction false} Pow2Grows(n: nat, m: nat)
    requires n <= m
    ensures Pow2(n) <= Pow2(m)
  {
    if n < m { Pow2Grows(n, m - 1); }
  }

  /** The wait never shrinks with more failures, and from the fifteenth on it is the full quarter of an hour. */
  lemma BackoffGrows(i: nat, j: nat)
    requires i <= j
    ensures BackoffSeconds(i) <= BackoffSeconds(j) <= 900
    ensures j >= 15 ==> BackoffSeconds(j) == 900
    ensures BackoffSeconds(j) == 0 <==> j < 5
  {
    if i >= 5 { Pow2Grows(i - 5, j - 5); }
    if j >= 15 {
      Pow2Grows(10, j - 5);
      assert Pow2(10) == 2 * Pow2(9) && Pow2(8) == 256;
    }
  }

  /** Milliseconds up to whole seconds. */
  function CeilSeconds(ms: int): int {
    (ms + 999) / 1000
  }

  datatype Outcome = Right | Wrong | Unreadable

  datatype Verdict = Refused(waitSeconds: int) | Opened | WrongPassphrase | IoError

  /** One call: when the wait is checked, when the outcome is known, and what the key file said. */
  datatype Guess = Guess(checkAt: int, doneAt: int, outcome: Outcome)

  predicate Allowed(a: Attempts, now: int) {
    now - a.lastFailureAt >= 1000 * BackoffSeconds(a.failures) || BackoffSeconds(a.failures) == 0
  }

  class UnlockAttempts {
    var state: Attempts

    constructor ()
      ensures state == Attempts(0, 0)
    {
      state := Attempts(0, 0);
    }

    /** The seconds still to wait; nothing exactly when the whole wait has passed. */
    method AssertUnlockAllowed(now: int) returns (wait: Option<int>)
      ensures wait.None? <==> Allowed(state, now)
      ensures wait.Some? ==>
                && wait.value > 0
                && 1000 * (wait.value - 1) < state.lastFailureAt + 1000 * BackoffSeconds(state.failures) - now
                   <= 1000 * wait.value
    {
      var waitSec := BackoffSeconds(state.failures);
      if waitSec <= 0 { return None; }
      var remaining := CeilSeconds(1000 * waitSec - (now - state.lastFailureAt));
      if remaining > 0 { return Some(remaining); }
      return None;
    }

    method RecordFailure(now: int)
      modifies this
      ensures state == Attempts(old(state).failures + 1, now)
    {
      state := Attempts(state.failures + 1, now);
    }

    method Reset()
      modifies this
      ensures state == Attempts(0, 0)
    {
      state := Attempts(0, 0);
    }

    /** Check, try, then record or reset; a refused call never looks at the key file. */
    method VerifyPassphrase(g: Guess) returns (v: Verdict)
      modifies this
      ensures state == After(old(state), g)
      ensures v.Refused? <==> !Allowed(old(state), g.checkAt)
      ensures v == Opened <==> Allowed(old(state), g.checkAt) && g.outcome == Right
      ensures v == WrongPassphrase <==> Allowed(old(state), g.checkAt) && g.outcome == Wrong
    {
      var wait := AssertUnlockAllowed(g.checkAt);
      if wait.Some? { return Refused(wait.value); }
      match g.outcome
      case Wrong =>
        RecordFailure(g.doneAt);
        return WrongPassphrase;
      case Unreadable => return IoError;
      case Right =>
        Reset();
        return Opened;
    }
  }

  // ---------- runs ----------

  function After(a: Attempts, g: Guess): Attempts {
    if !Allowed(a, g.checkAt) then a
    else
      match g.outcome
      case Wrong => Attempts(a.failures + 1, g.doneAt)
      case Unreadable => a
      case Right => Attempts(0, 0)
  }

  function Run(gs: seq<Guess>): Attempts {
    if gs == [] then Attempts(0, 0) else After(Run(gs[..|gs| - 1]), gs[|gs| - 1])
  }

  /** When each wrong guess since the last success was recorded. */
  function Failures(gs: seq<Guess>): seq<int> {
    if gs == [] then []
    else
      var before, g := Failures(gs[..|gs| - 1]), gs[|gs| - 1];
      if !Allowed(Run(gs[..|gs| - 1]), g.checkAt) then before
      else
        match g.outcome
        case Wrong => before + [g.doneAt]
        case Unreadable => before
        case Right => []
  }

  ghost predicate Monotone(gs: seq<Guess>) {
    && (forall i :: 0 <= i < |gs| ==> gs[i].checkAt <= gs[i].doneAt)
    && forall i, j :: 0 <= i < j < |gs| ==> gs[i].doneAt <= gs[j].checkAt
  }

  lemma {:induction false} FailuresAreGuesses(gs: seq<Guess>, t: int)
    requires t in Failures(gs)
    ensures exists i :: 0 <= i < |gs| && t == gs[i].doneAt
    decreases |gs|
  {
    var n := |gs| - 1;
    if t in Failures(gs[..n]) {
      FailuresAreGuesses(gs[..n], t);
      var i :| 0 <= i < n && t == gs[..n][i].doneAt;
      assert gs[i] == gs[..n][i];
    } else {
      assert t == gs[n].doneAt;
    }
  }

  /** The counter counts those failures, and the latest is its time stamp. */
  lemma {:induction false} CounterCounts(gs: seq<Guess>)
    ensures |Failures(gs)| == Run(gs).failures
    ensures Failures(gs) != [] ==> Run(gs).lastFailureAt == Failures(gs)[|Failures(gs)| - 1]
    decreases |gs|
  {
    if gs != [] { CounterCounts(gs[..|gs| - 1]); }
  }

  /** A guess that is let through waited for the failure before it. */
  lemma LetThroughWaited(gs: seq<Guess>, g: Guess)
    requires Failures(gs) != [] && Allowed(Run(gs), g.checkAt) && g.checkAt <= g.doneAt
    requires forall i :: 0 <= i < |gs| ==> gs[i].doneAt <= g.checkAt
    ensures g.doneAt - Failures(gs)[|Failures(gs)| - 1] >= 1000 * BackoffSeconds(|Failures(gs)|)
  {
    CounterCounts(gs);
    FailuresAreGuesses(gs, Failures(gs)[|Failures(gs)| - 1]);
  }

  /** Over every run each recorded failure waited for the one before it. */
  lemma {:induction false} FailuresWaited(gs: seq<Guess>)
    requires Monotone(gs)
    ensures forall k :: 0 < k < |Failures(gs)| ==>
                          Failures(gs)[k] - Failures(gs)[k - 1] >= 1000 * BackoffSeconds(k)
    decreases |gs|
  {
    if gs != [] {
      var n := |gs| - 1;
      FailuresWaited(gs[..n]);
      if Allowed(Run(gs[..n]), gs[n].checkAt) && Failures(gs[..n]) != [] {
        LetThroughWaited(gs[..n], gs[n]);
      }
    }
  }

  /** The waits from the `i`-th failure to the `j`-th, in seconds. */
  function TotalWait(i: nat, j: nat): nat
    decreases j
  {
    if j <= i then 0 else TotalWait(i, j - 1) + BackoffSeconds(j - 1)
  }

  /** Between the `i`-th and the `j`-th failure lies at least the sum of the waits. */
  lemma {:induction false} FailuresApart(gs: seq<Guess>, i: nat, j: nat)
    requires Monotone(gs) && 1 <= i <= j <= |Failures(gs)|
    ensures Failures(gs)[j - 1] - Failures(gs)[i - 1] >= 1000 * TotalWait(i, j)
    decreases j
  {
    if i < j {
      FailuresApart(gs, i, j - 1);
      FailuresWaited(gs);
    }
  }

  lemma {:induction false} FullWaits(i: nat, j: nat)
    requires 15 <= i <= j
    ensures TotalWait(i, j) == MAX_BACKOFF_SEC * (j - i)
    decreases j
  {
    if i < j {
      FullWaits(i, j - 1);
      BackoffGrows(15, j - 1);
    }
  }

  /** From the fifteenth failure on, any window of `seconds` holds at most one guess and one per quarter hour. */
  lemma GuessesPerWindow(gs: seq<Guess>, i: nat, j: nat, start: int, seconds: nat)
    requires Monotone(gs) && 15 <= i <= j <= |Failures(gs)|
    requires start <= Failures(gs)[i - 1] && Failures(gs)[j - 1] <= start + 1000 * seconds
    ensures j - i + 1 <= 1 + seconds / 900
  {
    FailuresApart(gs, i, j);
    FullWaits(i, j);
  }

  /** The bound in closed form while the waits still double. */
  lemma {:induction false} DoublingWaits(j: nat)
    requires 5 <= j <= 15
    ensures TotalWait(5, j) == Pow2(j - 5) - 1
    decreases j
  {
    if j > 5 {
      DoublingWaits(j - 1);
      Pow2Grows(j - 6, 9);
      assert Pow2(9) == 2 * Pow2(8) && Pow2(8) == 256;
    }
  }
}
