/** The per-account login lockout, for logins that do not overlap. */
module Lockout {
  // apps/control-plane/src/modules/auth/auth.service.ts: failures counted in Redis within a 15-minute
  // window, and a 15-minute lock after the fifth.

  import opened Text
  import opened RedisModel

  const MAX_FAILED_ATTEMPTS := 5
  const LOGIN_LOCKOUT_MS := 900_000

  datatype Key = CountKey(email: string) | LockKey(email: string)

  /** How a login goes once it has passed the lock check. */
  datatype Outcome = UnknownUser | WrongPassword | TotpMissing | TotpWrong | Authenticated

  predicate Fails(o: Outcome) {
    o.UnknownUser? || o.WrongPassword? || o.TotpWrong?
  }

  datatype Result = TooManyAttempts | Rejected | TotpRequired | SignedIn

  /** The clock readings of the Redis commands one login issues, in order. */
  datatype Clock = Clock(check: int, incr: int, pexpire: int, lock: int, del: int)

  predicate Ordered(c: Clock) {
    c.check <= c.incr <= c.pexpire <= c.lock <= c.del
  }

  datatype Attempt = Attempt(email: string, outcome: Outcome, clock: Clock)

  // ---- Specification: each login as a function on the store ----

  predicate Locked(s: Store<Key>, email: string, now: int) {
    Get(s, LockKey(email), now).Some?
  }

  function RecordFailure(s: Store<Key>, email: string, c: Clock): Store<Key> {
    var count := Incremented(s, CountKey(email), c.incr);
    var s1 := Incr(s, CountKey(email), c.incr);
    var s2 := if count == 1 then PExpire(s1, CountKey(email), LOGIN_LOCKOUT_MS, c.pexpire) else s1;
    if count >= MAX_FAILED_ATTEMPTS
    then Del(SetPx(s2, LockKey(email), 1, LOGIN_LOCKOUT_MS, c.lock), CountKey(email))
    else s2
  }

  function ClearFailures(s: Store<Key>, email: string): Store<Key> {
    Del(Del(s, CountKey(email)), LockKey(email))
  }

  function ResultOf(s: Store<Key>, a: Attempt): Result {
    if Locked(s, a.email, a.clock.check) then TooManyAttempts
    else if Fails(a.outcome) then Rejected
    else if a.outcome.TotpMissing? then TotpRequired
    else SignedIn
  }

  function After(s: Store<Key>, a: Attempt): Store<Key> {
    match ResultOf(s, a)
    case TooManyAttempts => s
    case Rejected => RecordFailure(s, a.email, a.clock)
    case TotpRequired => s
    case SignedIn => ClearFailures(s, a.email)
  }

  // ---- The service ----

  class AuthService {
    var store: Store<Key>

    constructor ()
      ensures store == map[]
    {
      store := map[];
    }

    method AssertNotLocked(email: string, now: int) returns (locked: bool)
      ensures locked == Locked(store, email, now)
    {
      var value := Get(store, LockKey(email), now);
      locked := value.Some?;
    }

    method RecordLoginFailure(email: string, c: Clock)
      modifies this
      ensures store == RecordFailure(old(store), email, c)
    {
      var count := Incremented(store, CountKey(email), c.incr);
      store := Incr(store, CountKey(email), c.incr);
      if count == 1 {
        store := PExpire(store, CountKey(email), LOGIN_LOCKOUT_MS, c.pexpire);
      }
      if count >= MAX_FAILED_ATTEMPTS {
        store := SetPx(store, LockKey(email), 1, LOGIN_LOCKOUT_MS, c.lock);
        store := Del(store, CountKey(email));
      }
    }

    method Login(a: Attempt) returns (r: Result)
      modifies this
      ensures r == ResultOf(old(store), a)
      ensures store == After(old(store), a)
    {
      var locked := AssertNotLocked(a.email, a.clock.check);
      if locked {
        return TooManyAttempts;
      }
      if a.outcome.UnknownUser? || a.outcome.WrongPassword? {
        RecordLoginFailure(a.email, a.clock);
        return Rejected;
      }
      if a.outcome.TotpMissing? {
        return TotpRequired;
      }
      if a.outcome.TotpWrong? {
        RecordLoginFailure(a.email, a.clock);
        return Rejected;
      }
      store := Del(store, CountKey(a.email));
      store := Del(store, LockKey(a.email));
      return SignedIn;
    }
  }

  // ---- Runs ----

  /** Logins on one account do not overlap; those on different accounts may. */
  ghost predicate Sequential(run: seq<Attempt>) {
    && (forall i :: 0 <= i < |run| ==> Ordered(run[i].clock))
    && forall i, j :: 0 <= i < j < |run| && run[i].email == run[j].email ==>
         run[i].clock.del <= run[j].clock.check
  }

  ghost predicate NeverSignsIn(run: seq<Attempt>, email: string) {
    forall a :: a in run && a.email == email ==> !a.outcome.Authenticated?
  }

  ghost predicate IsCounted(s: Store<Key>, a: Attempt, email: string, lo: int, hi: int) {
    a.email == email && ResultOf(s, a).Rejected? && lo <= a.clock.incr < hi
  }

  /** The failures on `email` that a run from `s` counts within [lo, hi). */
  ghost function Counted(s: Store<Key>, run: seq<Attempt>, email: string, lo: int, hi: int): nat
    decreases run
  {
    if run == [] then 0
    else
      (if IsCounted(s, run[0], email, lo, hi) then 1 else 0)
        + Counted(After(s, run[0]), run[1..], email, lo, hi)
  }

  // ---- The invariant between logins ----

  /** A stored failure count lies in 1..4 and carries an expiry, and so does a lock. */
  ghost predicate Inv(s: Store<Key>, email: string) {
    && (CountKey(email) in s ==>
          1 <= s[CountKey(email)].value < MAX_FAILED_ATTEMPTS && s[CountKey(email)].expiresAt.Some?)
    && (LockKey(email) in s ==> s[LockKey(email)].expiresAt.Some?)
  }

  lemma InvKept(s: Store<Key>, a: Attempt, email: string)
    requires Inv(s, email) && Ordered(a.clock)
    ensures Inv(After(s, a), email)
  {
  }

  /** What the failures of the account, this one included, come to. */
  ghost function CountOf(s: Store<Key>, a: Attempt): int {
    if Live(s, CountKey(a.email), a.clock.incr) then s[CountKey(a.email)].value + 1 else 1
  }

  /** An unknown user, a wrong password and a wrong code are failures: the first opens a window, the
      next ones count within it, and the fifth locks the account. */
  lemma FailureIsRecorded(s: Store<Key>, a: Attempt)
    requires Inv(s, a.email) && Ordered(a.clock) && !Live(s, LockKey(a.email), a.clock.check)
    requires a.outcome in {UnknownUser, WrongPassword, TotpWrong}
    ensures ResultOf(s, a) == Rejected
    ensures var s', n := After(s, a), CountOf(s, a);
            if n >= 5 then CountKey(a.email) !in s' && LockKey(a.email) in s'
                           && s'[LockKey(a.email)] == Entry(1, Some(a.clock.lock + 900_000))
            else && CountKey(a.email) in s'
                 && s'[CountKey(a.email)]
                    == Entry(n, if n == 1 then Some(a.clock.pexpire + 900_000) else s[CountKey(a.email)].expiresAt)
                 && Get(s', LockKey(a.email), a.clock.check) == None
  {
  }

  /** Anything else is not: a locked account answers nothing, a missing code asks for it, and a sign-in
      clears the count and the lock. */
  lemma OthersAreNotRecorded(s: Store<Key>, a: Attempt)
    ensures Live(s, LockKey(a.email), a.clock.check) ==> ResultOf(s, a) == TooManyAttempts && After(s, a) == s
    ensures !Live(s, LockKey(a.email), a.clock.check) && a.outcome == TotpMissing ==>
              ResultOf(s, a) == TotpRequired && After(s, a) == s
    ensures !Live(s, LockKey(a.email), a.clock.check) && a.outcome == Authenticated ==>
              ResultOf(s, a) == SignedIn && CountKey(a.email) !in After(s, a) && LockKey(a.email) !in After(s, a)
    ensures forall k :: k !in {CountKey(a.email), LockKey(a.email)} ==>
              (k in s <==> k in After(s, a)) && (k in s ==> s[k] == After(s, a)[k])
  {
  }

  // ---- The bound on what can still be counted ----

  /** Five failures for every window, or part of one, from `x` to `hi`. */
  ghost function WindowsFrom(x: int, hi: int): nat {
    if x >= hi then 0 else 5 * ((hi - x + LOGIN_LOCKOUT_MS - 1) / LOGIN_LOCKOUT_MS)
  }

  lemma WindowsShrink(x: int, y: int, hi: int)
    requires x <= y
    ensures WindowsFrom(y, hi) <= WindowsFrom(x, hi)
  {
  }

  lemma WindowsStep(x: int, hi: int)
    requires x < hi
    ensures WindowsFrom(x, hi) == 5 + WindowsFrom(x + LOGIN_LOCKOUT_MS, hi)
  {
  }

  ghost function Max(a: int, b: int): int {
    if a >= b then a else b
  }

  /** What a budget needs to know of the store; it also holds while a failure is half recorded. */
  ghost predicate Dated(s: Store<Key>, email: string) {
    && (CountKey(email) in s ==> 1 <= s[CountKey(email)].value)
    && (LockKey(email) in s ==> s[LockKey(email)].expiresAt.Some?)
  }

  /** The failures it takes to trip the lock from a count of `value`. */
  ghost function ToTrip(value: int): int {
    if value < MAX_FAILED_ATTEMPTS then MAX_FAILED_ATTEMPTS - value else 1
  }

  /** An upper bound on the failures still to be counted before `hi` by logins that reach Redis
      at or after `x`: an open window ends by expiry, if it has one, or by a lock, and every later
      window starts at least one window length after the one before. */
  ghost function Budget(s: Store<Key>, email: string, x: int, hi: int): int
    requires Dated(s, email)
  {
    if x >= hi then 0
    else if Live(s, CountKey(email), x) then
      var e := s[CountKey(email)];
      var tripped := ToTrip(e.value) + WindowsFrom(x + LOGIN_LOCKOUT_MS, hi);
      if e.expiresAt.None? then tripped
      else Max(ToTrip(e.value) - 1 + WindowsFrom(e.expiresAt.value, hi), tripped)
    else if LockKey(email) in s then WindowsFrom(Max(x, s[LockKey(email)].expiresAt.value), hi)
    else WindowsFrom(x, hi)
  }

  lemma InvIsDated(s: Store<Key>, email: string)
    requires Inv(s, email)
    ensures Dated(s, email)
  {
  }

  lemma BudgetNonNegative(s: Store<Key>, email: string, x: int, hi: int)
    requires Dated(s, email)
    ensures 0 <= Budget(s, email, x, hi) && (x >= hi ==> Budget(s, email, x, hi) == 0)
  {
  }

  lemma BudgetShrinks(s: Store<Key>, email: string, x: int, y: int, hi: int)
    requires Dated(s, email) && x <= y
    ensures Budget(s, email, y, hi) <= Budget(s, email, x, hi)
  {
    if y < hi {
      WindowsShrink(x + LOGIN_LOCKOUT_MS, y + LOGIN_LOCKOUT_MS, hi);
      if LockKey(email) in s {
        var until := s[LockKey(email)].expiresAt.value;
        WindowsShrink(Max(x, until), Max(y, until), hi);
        WindowsShrink(y, Max(y, until), hi);
      }
      WindowsShrink(x, y, hi);
      if Live(s, CountKey(email), x) && !Live(s, CountKey(email), y) {
        WindowsShrink(s[CountKey(email)].expiresAt.value, y, hi);
      }
    }
  }

  /** A failure that opens a window: at most four more, or a lock. */
  lemma OpeningPays(s: Store<Key>, email: string, c: Clock, hi: int)
    requires Inv(s, email) && Ordered(c) && !Locked(s, email, c.incr)
    requires c.incr < hi && !Live(s, CountKey(email), c.incr)
    ensures Inv(RecordFailure(s, email, c), email)
    ensures 1 + Budget(RecordFailure(s, email, c), email, c.del, hi) <= Budget(s, email, c.incr, hi)
  {
    assert RecordFailure(s, email, c)[CountKey(email)] == Entry(1, Some(c.pexpire + LOGIN_LOCKOUT_MS));
    WindowsStep(c.incr, hi);
    WindowsShrink(c.incr + LOGIN_LOCKOUT_MS, c.del + LOGIN_LOCKOUT_MS, hi);
    WindowsShrink(c.incr + LOGIN_LOCKOUT_MS, c.pexpire + LOGIN_LOCKOUT_MS, hi);
  }

  /** A failure within an open window, short of the fifth. */
  lemma CountingPays(s: Store<Key>, email: string, c: Clock, hi: int)
    requires Inv(s, email) && Ordered(c)
    requires c.incr < hi && Live(s, CountKey(email), c.incr)
    requires s[CountKey(email)].value < MAX_FAILED_ATTEMPTS - 1
    ensures Inv(RecordFailure(s, email, c), email)
    ensures 1 + Budget(RecordFailure(s, email, c), email, c.del, hi) <= Budget(s, email, c.incr, hi)
  {
    var e := s[CountKey(email)];
    var s' := RecordFailure(s, email, c);
    assert s' == s[CountKey(email) := Entry(e.value + 1, e.expiresAt)];
    WindowsShrink(c.incr + LOGIN_LOCKOUT_MS, c.del + LOGIN_LOCKOUT_MS, hi);
    var from := if LockKey(email) in s then Max(c.del, s[LockKey(email)].expiresAt.value) else c.del;
    if e.expiresAt.value <= c.del {
      WindowsShrink(e.expiresAt.value, from, hi);
    }
  }

  /** The fifth failure of a window trips the lock. */
  lemma TrippingPays(s: Store<Key>, email: string, c: Clock, hi: int)
    requires Inv(s, email) && Ordered(c)
    requires c.incr < hi && Live(s, CountKey(email), c.incr)
    requires s[CountKey(email)].value == MAX_FAILED_ATTEMPTS - 1
    ensures Inv(RecordFailure(s, email, c), email)
    ensures 1 + Budget(RecordFailure(s, email, c), email, c.del, hi) <= Budget(s, email, c.incr, hi)
  {
    assert CountKey(email) !in RecordFailure(s, email, c);
    assert RecordFailure(s, email, c)[LockKey(email)] == Entry(1, Some(c.lock + LOGIN_LOCKOUT_MS));
    WindowsShrink(c.incr + LOGIN_LOCKOUT_MS, Max(c.del, c.lock + LOGIN_LOCKOUT_MS), hi);
  }

  /** One failure recorded while the account is not locked pays for itself out of the budget. */
  lemma {:induction false} FailurePays(s: Store<Key>, email: string, c: Clock, x: int, hi: int)
    requires Inv(s, email) && Ordered(c) && !Locked(s, email, c.incr)
    requires x <= c.incr < hi
    ensures Inv(RecordFailure(s, email, c), email)
    ensures 1 + Budget(RecordFailure(s, email, c), email, c.del, hi) <= Budget(s, email, x, hi)
  {
    BudgetShrinks(s, email, x, c.incr, hi);
    if !Live(s, CountKey(email), c.incr) {
      OpeningPays(s, email, c, hi);
    } else if s[CountKey(email)].value < MAX_FAILED_ATTEMPTS - 1 {
      CountingPays(s, email, c, hi);
    } else {
      TrippingPays(s, email, c, hi);
    }
  }

  /** A login on another account, a blocked one, or one that only lacks its TOTP code changes
      nothing for this account. */
  lemma UncountedKeepsBudget(s: Store<Key>, a: Attempt, email: string, x: int, hi: int)
    requires Inv(s, email) && (a.email != email || !ResultOf(s, a).Rejected?)
    requires a.email == email ==> !a.outcome.Authenticated?
    ensures Inv(After(s, a), email) && Budget(After(s, a), email, x, hi) == Budget(s, email, x, hi)
  {
  }

  /** Runs whose logins on `email` all reach Redis at or after `x` stay within the budget. */
  lemma {:induction false} RunWithinBudget(s: Store<Key>, run: seq<Attempt>, email: string, x: int, lo: int, hi: int)
    requires Inv(s, email) && Sequential(run) && NeverSignsIn(run, email)
    requires forall a :: a in run && a.email == email ==> x <= a.clock.incr
    ensures Counted(s, run, email, lo, hi) <= Budget(s, email, x, hi)
    decreases run
  {
    hide Budget, RecordFailure, Inv, Dated;
    InvIsDated(s, email);
    BudgetNonNegative(s, email, x, hi);
    if run != [] {
      var a, rest := run[0], run[1..];
      assert forall b :: b in rest ==> b in run;
      assert a in run;
      if a.email == email && ResultOf(s, a).Rejected? && a.clock.incr < hi {
        InvKept(s, a, email);
        FailurePays(s, email, a.clock, x, hi);
        assert forall i :: 0 <= i < |rest| ==> rest[i] == run[i + 1];
        RunWithinBudget(After(s, a), rest, email, a.clock.del, lo, hi);
      } else if a.email == email && ResultOf(s, a).Rejected? {
        InvKept(s, a, email);
        assert forall i :: 0 <= i < |rest| ==> rest[i] == run[i + 1];
        RunWithinBudget(After(s, a), rest, email, a.clock.del, lo, hi);
        BudgetNonNegative(After(s, a), email, a.clock.del, hi);
      } else {
        UncountedKeepsBudget(s, a, email, x, hi);
        RunWithinBudget(After(s, a), rest, email, x, lo, hi);
      }
    }
  }

  /** Whatever the store holds when the interval opens, its budget is at most 5k + 3. */
  lemma BudgetAtStart(s: Store<Key>, email: string, lo: int, k: nat)
    requires Dated(s, email) && k >= 1
    ensures Budget(s, email, lo, lo + k * LOGIN_LOCKOUT_MS) <= MAX_FAILED_ATTEMPTS * k + MAX_FAILED_ATTEMPTS - 2
  {
    var hi := lo + k * LOGIN_LOCKOUT_MS;
    WindowsStep(lo, hi);
    assert WindowsFrom(lo, hi) == 5 * k;
    if Live(s, CountKey(email), lo) {
      if s[CountKey(email)].expiresAt.Some? {
        WindowsShrink(lo, s[CountKey(email)].expiresAt.value, hi);
      }
    } else if LockKey(email) in s {
      WindowsShrink(lo, Max(lo, s[LockKey(email)].expiresAt.value), hi);
    }
  }

  lemma {:induction false} FailuresBoundedFrom(s: Store<Key>, run: seq<Attempt>, email: string, lo: int, k: nat)
    requires Inv(s, email) && Sequential(run) && NeverSignsIn(run, email) && k >= 1
    ensures Counted(s, run, email, lo, lo + k * LOGIN_LOCKOUT_MS)
         <= MAX_FAILED_ATTEMPTS * k + MAX_FAILED_ATTEMPTS - 2
    decreases run
  {
    var hi := lo + k * LOGIN_LOCKOUT_MS;
    BudgetAtStart(s, email, lo, k);
    if run != [] {
      var a, rest := run[0], run[1..];
      assert forall i :: 0 <= i < |rest| ==> rest[i] == run[i + 1];
      assert forall b :: b in rest ==> b in run;
      if a.email == email && lo <= a.clock.incr {
        RunWithinBudget(s, run, email, lo, lo, hi);
      } else {
        InvKept(s, a, email);
        FailuresBoundedFrom(After(s, a), rest, email, lo, k);
      }
    }
  }

  /** Over any run of logins on any accounts, a half-open interval of k windows counts at most
      5k + 3 failures on one account that never signs in. */
  lemma FailuresBounded(run: seq<Attempt>, email: string, lo: int, k: nat)
    requires Sequential(run) && NeverSignsIn(run, email) && k >= 1
    ensures Counted(map[], run, email, lo, lo + k * LOGIN_LOCKOUT_MS)
         <= MAX_FAILED_ATTEMPTS * k + MAX_FAILED_ATTEMPTS - 2
  {
    FailuresBoundedFrom(map[], run, email, lo, k);
  }

  // ---- The bound is attained ----

  function At(email: string, t: int): Attempt {
    Attempt(email, WrongPassword, Clock(t, t, t, t, t))
  }

  function Repeat(email: string, t: int, n: nat): (r: seq<Attempt>)
    ensures |r| == n && forall i :: 0 <= i < n ==> r[i] == At(email, t)
  {
    seq(n, _ => At(email, t))
  }

  /** `k` bursts of five, one window length apart, the first at `t`. */
  function Bursts(email: string, t: int, k: nat): seq<Attempt>
    decreases k
  {
    if k == 0 then [] else Repeat(email, t, 5) + Bursts(email, t + LOGIN_LOCKOUT_MS, k - 1)
  }

  /** One failure just before `lo`, three at `lo`, then the bursts as soon as each window opens. */
  function WorstRun(email: string, lo: int, k: nat): seq<Attempt> {
    [At(email, lo - 1)] + Repeat(email, lo, 3) + Bursts(email, lo - 1 + LOGIN_LOCKOUT_MS, k)
  }

  ghost function AfterAll(s: Store<Key>, run: seq<Attempt>): Store<Key>
    decreases run
  {
    if run == [] then s else AfterAll(After(s, run[0]), run[1..])
  }

  lemma {:induction false} CountedConcat(s: Store<Key>, a: seq<Attempt>, b: seq<Attempt>, email: string,
                                         lo: int, hi: int)
    ensures Counted(s, a + b, email, lo, hi)
         == Counted(s, a, email, lo, hi) + Counted(AfterAll(s, a), b, email, lo, hi)
    decreases a
  {
    if a == [] {
      assert a + b == b;
    } else {
      assert (a + b)[1..] == a[1..] + b;
      CountedConcat(After(s, a[0]), a[1..], b, email, lo, hi);
    }
  }

  /** From a count of `c`, `n` simultaneous failures are all counted and add up. */
  lemma {:induction false} RepeatCounts(s: Store<Key>, email: string, t: int, n: nat, lo: int, hi: int)
    requires lo <= t < hi && !Locked(s, email, t) && Live(s, CountKey(email), t)
    requires s[CountKey(email)].expiresAt.Some?
    requires 1 <= s[CountKey(email)].value && s[CountKey(email)].value + n < MAX_FAILED_ATTEMPTS
    ensures Counted(s, Repeat(email, t, n), email, lo, hi) == n
    ensures AfterAll(s, Repeat(email, t, n))
         == s[CountKey(email) := s[CountKey(email)].(value := s[CountKey(email)].value + n)]
    decreases n
  {
    if n > 0 {
      assert Repeat(email, t, n)[1..] == Repeat(email, t, n - 1);
      RepeatCounts(After(s, At(email, t)), email, t, n - 1, lo, hi);
    }
  }

  /** A burst of five on a clear account is counted in full and leaves a lock of one window. */
  lemma BurstCounts(s: Store<Key>, email: string, t: int, lo: int, hi: int)
    requires lo <= t < hi && !Locked(s, email, t) && !Live(s, CountKey(email), t)
    ensures Counted(s, Repeat(email, t, 5), email, lo, hi) == 5
    ensures var s' := AfterAll(s, Repeat(email, t, 5));
            CountKey(email) !in s' && LockKey(email) in s'
            && s'[LockKey(email)] == Entry(1, Some(t + LOGIN_LOCKOUT_MS))
  {
    var one, three, last := [At(email, t)], Repeat(email, t, 3), [At(email, t)];
    assert Repeat(email, t, 5) == one + (three + last);
    CountedConcat(s, one, three + last, email, lo, hi);
    var s1 := After(s, At(email, t));
    assert AfterAll(s, one) == s1;
    CountedConcat(s1, three, last, email, lo, hi);
    RepeatCounts(s1, email, t, 3, lo, hi);
    AfterAllConcat(s, one, three + last);
    AfterAllConcat(s1, three, last);
  }

  lemma {:induction false} AfterAllConcat(s: Store<Key>, a: seq<Attempt>, b: seq<Attempt>)
    ensures AfterAll(s, a + b) == AfterAll(AfterAll(s, a), b)
    decreases a
  {
    if a == [] {
      assert a + b == b;
    } else {
      assert (a + b)[1..] == a[1..] + b;
      AfterAllConcat(After(s, a[0]), a[1..], b);
    }
  }

  lemma {:induction false} BurstsCount(s: Store<Key>, email: string, t: int, k: nat, lo: int, hi: int)
    requires !Locked(s, email, t) && !Live(s, CountKey(email), t)
    requires lo <= t && (k > 0 ==> t + (k - 1) * LOGIN_LOCKOUT_MS < hi)
    ensures Counted(s, Bursts(email, t, k), email, lo, hi) == 5 * k
    decreases k
  {
    if k > 0 {
      BurstCounts(s, email, t, lo, hi);
      CountedConcat(s, Repeat(email, t, 5), Bursts(email, t + LOGIN_LOCKOUT_MS, k - 1), email, lo, hi);
      BurstsCount(AfterAll(s, Repeat(email, t, 5)), email, t + LOGIN_LOCKOUT_MS, k - 1, lo, hi);
    }
  }

  lemma {:induction false} BurstsOrdered(email: string, t: int, k: nat)
    ensures forall i, j :: 0 <= i < j < |Bursts(email, t, k)| ==>
              Bursts(email, t, k)[i].clock.del <= Bursts(email, t, k)[j].clock.check
    ensures forall a :: a in Bursts(email, t, k) ==>
              a.email == email && a.outcome.WrongPassword? && Ordered(a.clock) && t <= a.clock.check
    decreases k
  {
    if k > 0 {
      BurstsOrdered(email, t + LOGIN_LOCKOUT_MS, k - 1);
    }
  }

  /** The bound is exact: for every interval of k windows there is a run that attains it. */
  lemma BoundIsAttained(email: string, lo: int, k: nat)
    requires k >= 1
    ensures Sequential(WorstRun(email, lo, k)) && NeverSignsIn(WorstRun(email, lo, k), email)
    ensures Counted(map[], WorstRun(email, lo, k), email, lo, lo + k * LOGIN_LOCKOUT_MS)
         == MAX_FAILED_ATTEMPTS * k + MAX_FAILED_ATTEMPTS - 2
  {
    WorstRunOrdered(email, lo, k);
    hide After, RecordFailure;
    var hi := lo + k * LOGIN_LOCKOUT_MS;
    var first, three, rest := [At(email, lo - 1)], Repeat(email, lo, 3), Bursts(email, lo - 1 + LOGIN_LOCKOUT_MS, k);
    assert WorstRun(email, lo, k) == first + (three + rest);
    CountedConcat(map[], first, three + rest, email, lo, hi);
    FirstFailure(email, lo - 1);
    var s1 := After(map[], At(email, lo - 1));
    assert AfterAll(map[], first) == s1;
    CountedConcat(s1, three, rest, email, lo, hi);
    RepeatCounts(s1, email, lo, 3, lo, hi);
    BurstsCount(AfterAll(s1, three), email, lo - 1 + LOGIN_LOCKOUT_MS, k, lo, hi);
  }

  lemma WorstRunOrdered(email: string, lo: int, k: nat)
    ensures Sequential(WorstRun(email, lo, k)) && NeverSignsIn(WorstRun(email, lo, k), email)
  {
    hide Bursts;
    BurstsOrdered(email, lo - 1 + LOGIN_LOCKOUT_MS, k);
  }

  lemma FirstFailure(email: string, t: int)
    ensures After(map[], At(email, t)) == map[CountKey(email) := Entry(1, Some(t + LOGIN_LOCKOUT_MS))]
  {
  }
}
