/**
 Account lockout: what a password login does to an account's failure counter and lock, and how
 many guesses that leaves an attacker in a given time.
 */
module Lockout {
  import opened Prelude

  const MAX_FAILED_LOGINS := 10
  const LOCKOUT_MS := 15 * 60 * 1000

  datatype Account = Account(failedLoginCount: int, lockedUntil: Option<int>)

  // One login: the clock when the lock is checked, when the password is compared and when a failure
  // is recorded; whether the password matches; whether the failure's write succeeds (its error is
  // swallowed).
  datatype Attempt = Attempt(checkedAt: int, comparedAt: int, recordedAt: int, matches: bool, stored: bool)

  datatype Outcome = LockedOut | Mismatch | SignedIn

  predicate Locked(a: Account, now: int) { a.lockedUntil.Some? && a.lockedUntil.value > now }

  function AfterFailure(a: Account, seen: int, at: int): Account {
    if seen + 1 >= MAX_FAILED_LOGINS then Account(0, Some(at + LOCKOUT_MS)) else a.(failedLoginCount := seen + 1)
  }

  function OutcomeOf(a: Account, x: Attempt): Outcome {
    if Locked(a, x.checkedAt) then LockedOut else if x.matches then SignedIn else Mismatch
  }

  function After(a: Account, x: Attempt): Account {
    match OutcomeOf(a, x)
    case LockedOut => a
    case SignedIn => Account(0, None)
    case Mismatch => if x.stored then AfterFailure(a, a.failedLoginCount, x.recordedAt) else a
  }

  function AfterAll(a: Account, xs: seq<Attempt>): Account {
    if xs == [] then a else After(AfterAll(a, xs[..|xs| - 1]), xs[|xs| - 1])
  }

  // Attempts that do not overlap, in the order they happen.
  predicate Sequential(xs: seq<Attempt>) {
    && (forall i | 0 <= i < |xs| :: xs[i].checkedAt <= xs[i].comparedAt <= xs[i].recordedAt)
    && (forall i, j | 0 <= i < j < |xs| :: xs[i].recordedAt <= xs[j].checkedAt)
  }

  predicate NobodySignsIn(a: Account, xs: seq<Attempt>) {
    forall i | 0 <= i < |xs| :: OutcomeOf(AfterAll(a, xs[..i]), xs[i]) != SignedIn
  }

  predicate Counted(a: Account, x: Attempt, start: int, end: int) {
    OutcomeOf(a, x) == Mismatch && x.stored && start <= x.comparedAt <= end
  }

  // The recorded failed comparisons inside the closed window [start, end].
  function FailuresWithin(a: Account, xs: seq<Attempt>, start: int, end: int): nat {
    if xs == [] then 0
    else
      var k := |xs| - 1;
      FailuresWithin(a, xs[..k], start, end) + (if Counted(AfterAll(a, xs[..k]), xs[k], start, end) then 1 else 0)
  }

  predicate CounterInRange(a: Account) { 0 <= a.failedLoginCount < MAX_FAILED_LOGINS }

  lemma {:induction false} CounterStaysInRange(a: Account, xs: seq<Attempt>)
    requires CounterInRange(a)
    ensures CounterInRange(AfterAll(a, xs))
  {
    if xs != [] {
      CounterStaysInRange(a, xs[..|xs| - 1]);
    }
  }

  // ---------- locks and successes ----------

  // After any attempts: a success clears the account, and it takes the right password and no lock.
  lemma SuccessClears(a: Account, xs: seq<Attempt>, x: Attempt)
    ensures
      var before, after := AfterAll(a, xs), AfterAll(a, xs + [x]);
      && (OutcomeOf(before, x) == SignedIn <==> x.matches && !Locked(before, x.checkedAt))
      && (OutcomeOf(before, x) == SignedIn ==> after.failedLoginCount == 0 && after.lockedUntil == None)
  {
    assert (xs + [x])[..|xs|] == xs;
  }

  // After any attempts: while the lock lasts the right password is refused like a wrong one, and
  // nothing changes.
  lemma LockRefusesAll(a: Account, xs: seq<Attempt>, x: Attempt)
    requires AfterAll(a, xs).lockedUntil.Some? && x.checkedAt < AfterAll(a, xs).lockedUntil.value
    ensures OutcomeOf(AfterAll(a, xs), x) == LockedOut && AfterAll(a, xs + [x]) == AfterAll(a, xs)
  {
    assert (xs + [x])[..|xs|] == xs;
  }

  // The tenth recorded failure, and no earlier one, locks: for fifteen minutes from its recording, and
  // not a moment longer.
  lemma TenthFailureLocks(a: Account, x: Attempt, later: Attempt)
    requires CounterInRange(a) && OutcomeOf(a, x) == Mismatch && x.stored && x.checkedAt <= later.checkedAt
    ensures a.failedLoginCount == 9 ==>
              && After(a, x).failedLoginCount == 0
              && (OutcomeOf(After(a, x), later) == LockedOut <==> later.checkedAt < x.recordedAt + 15 * 60 * 1000)
    ensures a.failedLoginCount < 9 ==>
              && After(a, x).failedLoginCount == a.failedLoginCount + 1
              && OutcomeOf(After(a, x), later) != LockedOut
  {
  }

  // n failures counted so far, of which each tenth set off a lock, and each lock starts when the
  // previous one is over.
  predicate Paced(a: Account, n: nat, locks: nat, start: int, end: int) {
    && CounterInRange(a)
    && n <= MAX_FAILED_LOGINS * locks + a.failedLoginCount
    && n <= MAX_FAILED_LOGINS * ((end - start) / LOCKOUT_MS + 1)
    && (locks > 0 ==> a.lockedUntil.Some? && a.lockedUntil.value >= start + locks * LOCKOUT_MS)
  }

  lemma PacedStep(a: Account, x: Attempt, n: nat, locks: nat, start: int, end: int) returns (after: nat)
    requires Paced(a, n, locks, start, end) && OutcomeOf(a, x) != SignedIn
    requires x.checkedAt <= x.comparedAt <= x.recordedAt && x.comparedAt <= end
    requires x.comparedAt < start ==> n == 0
    ensures Paced(After(a, x), if Counted(a, x, start, end) then n + 1 else n, after, start, end)
  {
    after := locks;
    if Counted(a, x, start, end) {
      LocksFit(locks, start, end);
      if a.failedLoginCount + 1 >= MAX_FAILED_LOGINS {
        after := locks + 1;
      }
    } else if OutcomeOf(a, x) == Mismatch && x.stored {
      after := 0;
    }
  }

  lemma NobodyInPrefix(a: Account, xs: seq<Attempt>, k: nat)
    requires k <= |xs| && NobodySignsIn(a, xs)
    ensures NobodySignsIn(a, xs[..k])
  {
    forall i | 0 <= i < k ensures OutcomeOf(AfterAll(a, xs[..k][..i]), xs[..k][i]) != SignedIn {
      assert xs[..k][..i] == xs[..i];
    }
  }

  lemma {:induction false} RunIsPaced(a: Account, xs: seq<Attempt>, start: int, end: int) returns (locks: nat)
    requires CounterInRange(a) && Sequential(xs) && NobodySignsIn(a, xs) && start <= end
    requires xs != [] ==> xs[|xs| - 1].comparedAt <= end
    ensures Paced(AfterAll(a, xs), FailuresWithin(a, xs, start, end), locks, start, end)
  {
    if xs == [] {
      locks := 0;
    } else {
      var k := |xs| - 1;
      LastAttempt(a, xs);
      var before := RunIsPaced(a, xs[..k], start, end);
      if xs[k].comparedAt < start {
        EarlyAttemptsDoNotCount(a, xs[..k], start, end);
      }
      locks := PacedStep(AfterAll(a, xs[..k]), xs[k], FailuresWithin(a, xs[..k], start, end), before, start, end);
    }
  }

  lemma LastAttempt(a: Account, xs: seq<Attempt>)
    requires xs != [] && Sequential(xs) && NobodySignsIn(a, xs)
    ensures
      var k := |xs| - 1;
      && Sequential(xs[..k]) && NobodySignsIn(a, xs[..k])
      && xs[k].checkedAt <= xs[k].comparedAt <= xs[k].recordedAt
      && (k > 0 ==> xs[k - 1].comparedAt <= xs[k].comparedAt)
      && OutcomeOf(AfterAll(a, xs[..k]), xs[k]) != SignedIn
  {
    var k := |xs| - 1;
    NobodyInPrefix(a, xs, k);
    if k > 0 {
      assert xs[k - 1].recordedAt <= xs[k].checkedAt;
    }
  }

  lemma LocksFit(locks: nat, start: int, end: int)
    requires start + locks * LOCKOUT_MS <= end
    ensures locks <= (end - start) / LOCKOUT_MS
  {
    var span, full := end - start, (end - start) / LOCKOUT_MS;
    assert span < full * LOCKOUT_MS + LOCKOUT_MS;
  }

  lemma {:induction false} EarlyAttemptsDoNotCount(a: Account, xs: seq<Attempt>, start: int, end: int)
    requires Sequential(xs) && (xs != [] ==> xs[|xs| - 1].comparedAt < start)
    ensures FailuresWithin(a, xs, start, end) == 0
  {
    if |xs| > 1 {
      assert xs[|xs| - 2].recordedAt <= xs[|xs| - 1].checkedAt;
    }
    if xs != [] {
      EarlyAttemptsDoNotCount(a, xs[..|xs| - 1], start, end);
    }
  }

  // In any run of non-overlapping logins of which none succeeds, a closed window of T milliseconds
  // sees at most ten recorded wrong guesses per started lockout period.
  lemma {:induction false} GuessesPerWindow(a: Account, xs: seq<Attempt>, start: int, end: int)
    requires CounterInRange(a) && Sequential(xs) && NobodySignsIn(a, xs) && start <= end
    ensures FailuresWithin(a, xs, start, end) <= 10 * ((end - start) / (15 * 60 * 1000) + 1)
  {
    if xs == [] || xs[|xs| - 1].comparedAt <= end {
      var _ := RunIsPaced(a, xs, start, end);
    } else {
      var k := |xs| - 1;
      NobodyInPrefix(a, xs, k);
      GuessesPerWindow(a, xs[..k], start, end);
    }
  }

  // The bound is met: ten immediate guesses fit into an empty window.
  lemma BoundIsReached() returns (xs: seq<Attempt>)
    ensures Sequential(xs) && NobodySignsIn(Account(0, None), xs)
    ensures FailuresWithin(Account(0, None), xs, 0, 0) == 10
  {
    xs := [];
    while |xs| < MAX_FAILED_LOGINS
      invariant |xs| <= MAX_FAILED_LOGINS
      invariant forall i | 0 <= i < |xs| :: xs[i] == Attempt(0, 0, 0, false, true)
      invariant |xs| < MAX_FAILED_LOGINS ==> AfterAll(Account(0, None), xs) == Account(|xs|, None)
      invariant NobodySignsIn(Account(0, None), xs)
      invariant FailuresWithin(Account(0, None), xs, 0, 0) == |xs|
    {
      var more := xs + [Attempt(0, 0, 0, false, true)];
      assert more[..|xs|] == xs;
      assert forall i | 0 <= i < |xs| :: more[..i] == xs[..i];
      xs := more;
    }
  }

  // ---------- all wrong guesses, recorded or not ----------

  predicate Compared(a: Account, x: Attempt, start: int, end: int) {
    OutcomeOf(a, x) == Mismatch && start <= x.comparedAt <= end
  }

  function ComparisonsWithin(a: Account, xs: seq<Attempt>, start: int, end: int): nat {
    if xs == [] then 0
    else
      var k := |xs| - 1;
      ComparisonsWithin(a, xs[..k], start, end) + (if Compared(AfterAll(a, xs[..k]), xs[k], start, end) then 1 else 0)
  }

  // The attempts whose failure could not be stored.
  function Unstored(xs: seq<Attempt>): nat {
    if xs == [] then 0 else Unstored(xs[..|xs| - 1]) + (if xs[|xs| - 1].stored then 0 else 1)
  }

  lemma {:induction false} ComparisonsAreCountedOrLost(a: Account, xs: seq<Attempt>, start: int, end: int)
    ensures ComparisonsWithin(a, xs, start, end) <= FailuresWithin(a, xs, start, end) + Unstored(xs)
  {
    if xs != [] {
      ComparisonsAreCountedOrLost(a, xs[..|xs| - 1], start, end);
    }
  }

  // Each guess beyond the bound needs a failure write that was lost.
  lemma ComparisonsPerWindow(a: Account, xs: seq<Attempt>, start: int, end: int)
    requires CounterInRange(a) && Sequential(xs) && NobodySignsIn(a, xs) && start <= end
    ensures ComparisonsWithin(a, xs, start, end) <= MAX_FAILED_LOGINS * ((end - start) / LOCKOUT_MS + 1) + Unstored(xs)
  {
    ComparisonsAreCountedOrLost(a, xs, start, end);
    GuessesPerWindow(a, xs, start, end);
  }

  // ---------- overlapping logins ----------

  // The account, what each login under way read of it, and the history since a success last reset
  // the account: failures recorded and locks set.
  datatype State = State(account: Account, seen: map<nat, Account>, recorded: nat, locks: nat)

  datatype Action =
    | Read(r: nat, now: int)          // the row is read; a locked account ends the login
    | Fail(r: nat, at: int)           // the password is wrong and the failure is recorded
    | Succeed(r: nat)                 // the password matches
    | Drop(r: nat)                    // the login dies, or its failure write does

  function Step(s: State, a: Action): State {
    match a
    case Read(r, now) => if Locked(s.account, now) then s else s.(seen := s.seen[r := s.account])
    case _ => if a.r in s.seen then Finish(s.(seen := s.seen - {a.r}), s.seen[a.r], a) else s
  }

  // The write of a login that saw the given row.
  function Finish(s: State, saw: Account, a: Action): State {
    match a
    case Fail(_, at) =>
      s.(account := AfterFailure(s.account, saw.failedLoginCount, at), recorded := s.recorded + 1,
         locks := if saw.failedLoginCount + 1 >= MAX_FAILED_LOGINS then s.locks + 1 else s.locks)
    case Succeed(_) =>
      if saw.failedLoginCount > 0 || saw.lockedUntil.Some?
          then s.(account := Account(0, None), recorded := 0, locks := 0) else s
    case _ => s
  }

  function Exec(s: State, tr: seq<Action>): State {
    if tr == [] then s else Step(Exec(s, tr[..|tr| - 1]), tr[|tr| - 1])
  }

  const INITIAL := State(Account(0, None), map[], 0, 0)

  lemma {:induction false} SeenInRange(tr: seq<Action>)
    ensures CounterInRange(Exec(INITIAL, tr).account)
    ensures forall r | r in Exec(INITIAL, tr).seen :: CounterInRange(Exec(INITIAL, tr).seen[r])
  {
    if tr != [] {
      SeenInRange(tr[..|tr| - 1]);
    }
  }

  // Every recorded failure shows: ten for each lock, and the rest on the counter.
  predicate AllShow(s: State) { s.recorded == MAX_FAILED_LOGINS * s.locks + s.account.failedLoginCount }

  // A failure is written over a counter that differs from the one it was computed from.
  predicate Stale(s: State, a: Action) {
    a.Fail? && a.r in s.seen && s.seen[a.r].failedLoginCount != s.account.failedLoginCount
  }

  lemma ShowStep(s: State, a: Action)
    requires AllShow(s) && CounterInRange(s.account) && forall r | r in s.seen :: CounterInRange(s.seen[r])
    ensures AllShow(Step(s, a)) <==> !Stale(s, a)
  {
  }

  // At every moment of the run.
  predicate ShowsThroughout(tr: seq<Action>) {
    AllShow(Exec(INITIAL, tr)) && (tr != [] ==> ShowsThroughout(tr[..|tr| - 1]))
  }

  predicate NeverStale(tr: seq<Action>) {
    tr == [] || (NeverStale(tr[..|tr| - 1]) && !Stale(Exec(INITIAL, tr[..|tr| - 1]), tr[|tr| - 1]))
  }

  lemma {:induction false} ThroughoutIsEverywhere(tr: seq<Action>, k: nat)
    requires k <= |tr|
    ensures ShowsThroughout(tr) ==> AllShow(Exec(INITIAL, tr[..k]))
    ensures NeverStale(tr) && k < |tr| ==> !Stale(Exec(INITIAL, tr[..k]), tr[k])
  {
    if k == |tr| {
      assert tr[..k] == tr;
    } else if k < |tr| - 1 {
      ThroughoutIsEverywhere(tr[..|tr| - 1], k);
      assert tr[..|tr| - 1][..k] == tr[..k];
    } else {
      assert ShowsThroughout(tr) ==> ShowsThroughout(tr[..k]);
    }
  }

  // However logins overlap: no failure is lost, or counted twice, at any moment of a run if and only
  // if no failure was written over a counter that differs from what was read.
  lemma {:induction false} FailuresShowIffNeverStale(tr: seq<Action>)
    ensures ShowsThroughout(tr) <==> NeverStale(tr)
  {
    if tr != [] {
      var n := |tr| - 1;
      FailuresShowIffNeverStale(tr[..n]);
      if ShowsThroughout(tr[..n]) {
        SeenInRange(tr[..n]);
        ShowStep(Exec(INITIAL, tr[..n]), tr[n]);
      }
    }
  }

  function Reads(m: nat, now: int): seq<Action> { if m == 0 then [] else Reads(m - 1, now) + [Read(m - 1, now)] }

  function Fails(m: nat, now: int): seq<Action> { if m == 0 then [] else Fails(m - 1, now) + [Fail(m - 1, now)] }

  lemma {:induction false} AllRead(m: nat, now: int)
    ensures
      var s := Exec(INITIAL, Reads(m, now));
      && s.account == Account(0, None) && s.recorded == 0 && s.locks == 0
      && (forall r | 0 <= r < m :: r in s.seen && s.seen[r] == Account(0, None))
  {
    if m > 0 {
      AllRead(m - 1, now);
      var tr := Reads(m, now);
      assert tr[..|tr| - 1] == Reads(m - 1, now);
      assert Exec(INITIAL, tr) == Step(Exec(INITIAL, Reads(m - 1, now)), Read(m - 1, now));
    }
  }

  lemma {:induction false} AllFail(m: nat, k: nat, now: int)
    requires k <= m
    ensures
      var s := Exec(INITIAL, Reads(m, now) + Fails(k, now));
      && s.recorded == k && s.locks == 0 && s.account == Account(if k == 0 then 0 else 1, None)
      && (forall r | k <= r < m :: r in s.seen && s.seen[r] == Account(0, None))
  {
    if k == 0 {
      AllRead(m, now);
      assert Reads(m, now) + Fails(0, now) == Reads(m, now);
    } else {
      AllFail(m, k - 1, now);
      var tr := Reads(m, now) + Fails(k, now);
      assert tr[..|tr| - 1] == Reads(m, now) + Fails(k - 1, now);
    }
  }

  // So the bound on guesses breaks by any amount: as many failures as one likes can be recorded at
  // one instant, without a lock and with the counter at one.
  lemma OverlapLosesFailures(m: nat, now: int) returns (tr: seq<Action>)
    requires m > 0
    ensures
      var s := Exec(INITIAL, tr);
      s.recorded == m && s.locks == 0 && s.account == Account(1, None)
    ensures forall k | 0 <= k < |tr| :: (tr[k].Read? && tr[k].now == now) || (tr[k].Fail? && tr[k].at == now)
  {
    AllFail(m, m, now);
    tr := Reads(m, now) + Fails(m, now);
    OnlyReadsAndFails(m, now);
  }

  lemma {:induction false} OnlyReadsAndFails(m: nat, now: int)
    ensures forall a | a in Reads(m, now) :: a.Read? && a.now == now
    ensures forall a | a in Fails(m, now) :: a.Fail? && a.at == now
  {
    if m > 0 {
      OnlyReadsAndFails(m - 1, now);
    }
  }

  // A login that nobody overlaps is a read followed at once by its write.
  lemma LoneLoginIsARun(s: State, r: nat, x: Attempt) returns (tr: seq<Action>)
    requires r !in s.seen && CounterInRange(s.account)
    ensures Exec(s, tr).account == After(s.account, x) && Exec(s, tr).seen == s.seen
  {
    var first := Read(r, x.checkedAt);
    assert [first][..0] == [] && Exec(s, [first]) == Step(s, first);
    if OutcomeOf(s.account, x) == LockedOut {
      tr := [first];
    } else {
      var last := if x.matches then Succeed(r) else if x.stored then Fail(r, x.recordedAt) else Drop(r);
      tr := [first, last];
      assert tr[..1] == [first];
      assert s.seen[r := s.account] - {r} == s.seen;
    }
  }

  // ---------- the service ----------

  /** One user's row; the login method reads it, then writes it. */
  class User {
    var failedLoginCount: int
    var lockedUntil: Option<int>

    ghost function Value(): Account
      reads this
    {
      Account(failedLoginCount, lockedUntil)
    }

    method RecordFailedLogin(current: int, at: int, stored: bool)
      modifies this
      ensures Value() == if stored then AfterFailure(old(Value()), current, at) else old(Value())
    {
      if stored {
        var next := current + 1;
        if next >= MAX_FAILED_LOGINS {
          failedLoginCount, lockedUntil := 0, Some(at + LOCKOUT_MS);
        } else {
          failedLoginCount := next;
        }
      }
    }

    method Login(x: Attempt) returns (outcome: Outcome)
      requires CounterInRange(Value())
      modifies this
      ensures outcome == OutcomeOf(old(Value()), x)
      ensures Value() == After(old(Value()), x) && CounterInRange(Value())
    {
      if lockedUntil.Some? && lockedUntil.value > x.checkedAt {
        return LockedOut;
      }
      if !x.matches {
        RecordFailedLogin(failedLoginCount, x.recordedAt, x.stored);
        return Mismatch;
      }
      if failedLoginCount > 0 || lockedUntil.Some? {
        failedLoginCount, lockedUntil := 0, None;
      }
      return SignedIn;
    }
  }
}
