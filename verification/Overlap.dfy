/** The login lockout when logins overlap, with every Redis command a step of its own. */
module Overlap {
  // apps/control-plane/src/modules/auth/auth.service.ts: any number of logins are under way, and the
  // process may die inside one.

  import opened Text
  import opened RedisModel
  import opened Lockout

  /** Where a failing login stands: past the lock check, or before the PEXPIRE, SET or DEL that its
      recording still has to send. */
  datatype Stage = Passed | Expiring | Tripping | Clearing

  datatype Login = Login(email: string, stage: Stage)

  /** `logins` are those under way, by their own ids. */
  datatype Machine = Machine(store: Store<Key>, logins: map<nat, Login>)

  /** One Redis command, or the death of the process that runs login `id`. */
  datatype Command =
    | Check(id: nat, email: string, now: int)
    | Next(id: nat, now: int)
    | Crash(id: nat, now: int)
    | SignIn(email: string, now: int)

  /** The command that login `id` sends next. */
  function Sent(m: Machine, id: nat, now: int): Machine
    requires id in m.logins
  {
    var email := m.logins[id].email;
    match m.logins[id].stage
    case Passed =>
      var count := Incremented(m.store, CountKey(email), now);
      var store := Incr(m.store, CountKey(email), now);
      if count == 1 then Machine(store, m.logins[id := Login(email, Expiring)])
      else if count >= MAX_FAILED_ATTEMPTS then Machine(store, m.logins[id := Login(email, Tripping)])
      else Machine(store, m.logins - {id})
    case Expiring =>
      Machine(PExpire(m.store, CountKey(email), LOGIN_LOCKOUT_MS, now), m.logins - {id})
    case Tripping =>
      Machine(SetPx(m.store, LockKey(email), 1, LOGIN_LOCKOUT_MS, now), m.logins[id := Login(email, Clearing)])
    case Clearing =>
      Machine(Del(m.store, CountKey(email)), m.logins - {id})
  }

  /** A check lets its login pass only while the account is not locked. */
  function Step(m: Machine, c: Command): Machine {
    match c
    case Check(id, email, now) =>
      if id in m.logins || Locked(m.store, email, now) then m
      else m.(logins := m.logins[id := Login(email, Passed)])
    case Next(id, now) => if id in m.logins then Sent(m, id, now) else m
    case Crash(id, _) => m.(logins := m.logins - {id})
    case SignIn(email, _) => m.(store := ClearFailures(m.store, email))
  }

  const START := Machine(map[], map[])

  /** What is left of a recording that nothing interrupts. */
  function Finished(m: Machine, id: nat, c: Clock): Machine {
    var m1 := Step(m, Next(id, c.incr));
    if id !in m1.logins then m1
    else if m1.logins[id].stage == Expiring then Step(m1, Next(id, c.pexpire))
    else Step(Step(m1, Next(id, c.lock)), Next(id, c.del))
  }

  /** Uninterrupted, the commands of a recording do what `RecordFailure` does at once. */
  lemma AloneIsRecordFailure(m: Machine, id: nat, c: Clock)
    requires id in m.logins && m.logins[id].stage == Passed
    ensures Finished(m, id, c).store == RecordFailure(m.store, m.logins[id].email, c)
    ensures Finished(m, id, c).logins == m.logins - {id}
  {
    hide Incr, PExpire, SetPx, Del;
  }

  // ---- Counting what a run records ----

  ghost predicate InOrder(run: seq<Command>) {
    forall i, j :: 0 <= i < j < |run| ==> run[i].now <= run[j].now
  }

  ghost predicate NeverClears(run: seq<Command>, email: string) {
    forall c :: c in run && c.SignIn? ==> c.email != email
  }

  ghost predicate Has(m: Machine, email: string, stage: Stage) {
    exists id :: id in m.logins && m.logins[id] == Login(email, stage)
  }

  /** A recording on the account has counted the fifth failure and not yet finished. */
  ghost predicate TripUnderWay(m: Machine, email: string) {
    Has(m, email, Tripping) || Has(m, email, Clearing)
  }

  /** The command counts a failure on the account. */
  ghost predicate IsFailure(m: Machine, c: Command, email: string) {
    c.Next? && c.id in m.logins && m.logins[c.id] == Login(email, Passed)
  }

  datatype Kind =
    | Failure   // a failure that is counted
    | Late      // one that is counted while the account is locked
    | Racing    // one that is counted unlocked while another recording is tripping the lock
    | MidTrip   // the death of a recording that is tripping the lock

  ghost predicate Is(kind: Kind, m: Machine, c: Command, email: string) {
    match kind
    case Failure => IsFailure(m, c, email)
    case Late => IsFailure(m, c, email) && Locked(m.store, email, c.now)
    case Racing => IsFailure(m, c, email) && !Locked(m.store, email, c.now) && TripUnderWay(m, email)
    case MidTrip =>
      c.Crash? && c.id in m.logins && m.logins[c.id] in {Login(email, Tripping), Login(email, Clearing)}
  }

  ghost function One(b: bool): int {
    if b then 1 else 0
  }

  /** How many commands of a run are of a kind, within [lo, hi). */
  ghost function Tally(kind: Kind, m: Machine, run: seq<Command>, email: string, lo: int, hi: int): int
    decreases run
  {
    if run == [] then 0
    else
      One(lo <= run[0].now < hi && Is(kind, m, run[0], email))
        + Tally(kind, Step(m, run[0]), run[1..], email, lo, hi)
  }

  // ---- The budget while recordings are under way ----

  /** No lock outlasts one window from now, and a recording about to clear the count has set it. */
  ghost predicate Sound(m: Machine, email: string, now: int) {
    && Dated(m.store, email)
    && (LockKey(email) in m.store ==> m.store[LockKey(email)].expiresAt.value <= now + LOGIN_LOCKOUT_MS)
    && (Has(m, email, Clearing) ==> LockKey(email) in m.store)
  }

  /** A recording that is tripping the lock will leave it set and the count cleared. */
  ghost function Potential(m: Machine, email: string, x: int, hi: int): int
    requires Sound(m, email, x)
  {
    if x >= hi then 0
    else if Has(m, email, Tripping) then WindowsFrom(x + LOGIN_LOCKOUT_MS, hi)
    else if Has(m, email, Clearing) then WindowsFrom(Max(x, m.store[LockKey(email)].expiresAt.value), hi)
    else Budget(m.store, email, x, hi)
  }

  lemma SoundLater(m: Machine, email: string, x: int, y: int)
    requires Sound(m, email, x) && x <= y
    ensures Sound(m, email, y)
  {
  }

  lemma PotentialShrinks(m: Machine, email: string, x: int, y: int, hi: int)
    requires Sound(m, email, x) && x <= y
    ensures Sound(m, email, y) && 0 <= Potential(m, email, y, hi) <= Potential(m, email, x, hi)
  {
    hide Budget;
    WindowsShrink(x + LOGIN_LOCKOUT_MS, y + LOGIN_LOCKOUT_MS, hi);
    if LockKey(email) in m.store {
      var until := m.store[LockKey(email)].expiresAt.value;
      WindowsShrink(Max(x, until), Max(y, until), hi);
    }
    BudgetShrinks(m.store, email, x, y, hi);
    BudgetNonNegative(m.store, email, x, hi);
    BudgetNonNegative(m.store, email, y, hi);
  }

  /** What a command costs beyond the bound. */
  ghost function Cost(m: Machine, c: Command, email: string): int {
    5 * One(Is(Late, m, c, email)) + One(Is(Racing, m, c, email)) + 8 * One(Is(MidTrip, m, c, email))
  }

  /** Only login `id` of the account changes its stage. */
  lemma OthersKeepStage(m: Machine, m': Machine, id: nat, email: string, stage: Stage)
    requires forall k :: k != id ==>
               (k in m.logins <==> k in m'.logins) && (k in m.logins ==> m.logins[k] == m'.logins[k])
    requires id in m.logins ==> m.logins[id] != Login(email, stage)
    requires id in m'.logins ==> m'.logins[id] != Login(email, stage)
    ensures Has(m, email, stage) <==> Has(m', email, stage)
  {
    if Has(m, email, stage) {
      var k :| k in m.logins && m.logins[k] == Login(email, stage);
      assert k in m'.logins && m'.logins[k] == Login(email, stage);
    }
    if Has(m', email, stage) {
      var k :| k in m'.logins && m'.logins[k] == Login(email, stage);
      assert k in m.logins && m.logins[k] == Login(email, stage);
    }
  }

  /** The account's own keys, and the recordings that are tripping its lock, stay as they are. */
  ghost predicate SameFor(m: Machine, m': Machine, email: string) {
    && (forall k :: k in {CountKey(email), LockKey(email)} ==>
          (k in m.store <==> k in m'.store) && (k in m.store ==> m.store[k] == m'.store[k]))
    && (Has(m, email, Tripping) <==> Has(m', email, Tripping))
    && (Has(m, email, Clearing) <==> Has(m', email, Clearing))
  }

  lemma SameKeepsPotential(m: Machine, m': Machine, email: string, x: int, hi: int)
    requires Sound(m, email, x) && SameFor(m, m', email)
    ensures Sound(m', email, x) && Potential(m', email, x, hi) == Potential(m, email, x, hi)
  {
    hide Has;
    assert CountKey(email) in {CountKey(email), LockKey(email)};
    assert LockKey(email) in {CountKey(email), LockKey(email)};
  }

  /** Checks, and commands of logins on other accounts, do not touch the account. */
  lemma OthersKeep(m: Machine, c: Command, email: string)
    requires match c
             case Check(_, _, _) => true
             case Next(id, _) => id in m.logins ==> m.logins[id].email != email
             case Crash(id, _) =>
               id in m.logins ==>
                 m.logins[id].email != email || m.logins[id].stage == Passed || m.logins[id].stage == Expiring
             case SignIn(other, _) => other != email
    ensures SameFor(m, Step(m, c), email)
  {
    hide Locked, Live;
    if !c.SignIn? && !(c.Check? && c.id in m.logins) {
      OthersKeepStage(m, Step(m, c), c.id, email, Tripping);
      OthersKeepStage(m, Step(m, c), c.id, email, Clearing);
    }
  }

  /** The machine after a recording's INCR. */
  lemma IncrStages(m: Machine, id: nat, email: string, now: int)
    requires id in m.logins && m.logins[id] == Login(email, Passed)
    ensures var m' := Step(m, Next(id, now));
            && m'.store == Incr(m.store, CountKey(email), now)
            && (Has(m', email, Clearing) <==> Has(m, email, Clearing))
            && (Has(m', email, Tripping) <==>
                  Has(m, email, Tripping) || Incremented(m.store, CountKey(email), now) >= MAX_FAILED_ATTEMPTS)
  {
    hide Incr, Incremented;
    var m' := Step(m, Next(id, now));
    if Incremented(m.store, CountKey(email), now) >= MAX_FAILED_ATTEMPTS
       && Incremented(m.store, CountKey(email), now) != 1 {
      assert m'.logins[id] == Login(email, Tripping);
    } else {
      hide Has;
      OthersKeepStage(m, m', id, email, Tripping);
    }
    OthersKeepStage(m, m', id, email, Clearing);
  }

  /** A counted failure costs one, five under a lock, and is paid for otherwise. */
  lemma IncrPays(m: Machine, id: nat, email: string, now: int, hi: int)
    requires Sound(m, email, now) && now < hi
    requires id in m.logins && m.logins[id] == Login(email, Passed)
    ensures var m' := Step(m, Next(id, now));
            && Sound(m', email, now)
            && 1 + Potential(m', email, now, hi) <= Potential(m, email, now, hi) + Cost(m, Next(id, now), email)
  {
    hide Has, Step;
    IncrStages(m, id, email, now);
    WindowsStep(now, hi);
    if LockKey(email) in m.store {
      WindowsShrink(Max(now, m.store[LockKey(email)].expiresAt.value), now + LOGIN_LOCKOUT_MS, hi);
    }
  }

  lemma ExpirePays(m: Machine, id: nat, email: string, now: int, hi: int)
    requires Sound(m, email, now) && now < hi
    requires id in m.logins && m.logins[id] == Login(email, Expiring)
    ensures var m' := Step(m, Next(id, now));
            Sound(m', email, now) && Potential(m', email, now, hi) <= Potential(m, email, now, hi)
  {
    var m' := Step(m, Next(id, now));
    OthersKeepStage(m, m', id, email, Tripping);
    OthersKeepStage(m, m', id, email, Clearing);
    hide Has;
  }

  lemma SetPays(m: Machine, id: nat, email: string, now: int, hi: int)
    requires Sound(m, email, now) && now < hi
    requires id in m.logins && m.logins[id] == Login(email, Tripping)
    ensures var m' := Step(m, Next(id, now));
            Sound(m', email, now) && Potential(m', email, now, hi) <= Potential(m, email, now, hi)
  {
    var m' := Step(m, Next(id, now));
    assert m'.logins[id] == Login(email, Clearing);
    assert Has(m, email, Tripping) && Has(m', email, Clearing);
    hide Has;
  }

  lemma DelPays(m: Machine, id: nat, email: string, now: int, hi: int)
    requires Sound(m, email, now) && now < hi
    requires id in m.logins && m.logins[id] == Login(email, Clearing)
    ensures var m' := Step(m, Next(id, now));
            Sound(m', email, now) && Potential(m', email, now, hi) <= Potential(m, email, now, hi)
  {
    var m' := Step(m, Next(id, now));
    OthersKeepStage(m, m', id, email, Tripping);
    assert Has(m, email, Clearing);
    assert Has(m', email, Clearing) ==> Has(m, email, Clearing);
    hide Has;
  }

  /** A recording that dies while it trips the lock leaves whatever was counted meanwhile. */
  lemma MidTripPays(m: Machine, id: nat, email: string, now: int, hi: int)
    requires Sound(m, email, now) && now < hi
    requires Is(MidTrip, m, Crash(id, now), email)
    ensures var m' := Step(m, Crash(id, now));
            Sound(m', email, now) && Potential(m', email, now, hi) <= Potential(m, email, now, hi) + 8
  {
    var m' := Step(m, Crash(id, now));
    assert Has(m, email, Tripping) || Has(m, email, Clearing);
    assert forall stage :: Has(m', email, stage) ==> Has(m, email, stage);
    hide Has;
    WindowsStep(now, hi);
    if LockKey(email) in m.store {
      WindowsShrink(Max(now, m.store[LockKey(email)].expiresAt.value), now + LOGIN_LOCKOUT_MS, hi);
      WindowsShrink(now, Max(now, m.store[LockKey(email)].expiresAt.value), hi);
    }
    if CountKey(email) in m.store && m.store[CountKey(email)].expiresAt.Some? {
      var until := m.store[CountKey(email)].expiresAt.value;
      WindowsShrink(now, Max(now, until), hi);
    }
  }

  /** A command pays for the failure it counts, up to its cost. */
  lemma {:induction false} CommandPays(m: Machine, c: Command, email: string, x: int, hi: int)
    requires Sound(m, email, x) && x <= c.now && (c.SignIn? ==> c.email != email)
    ensures Sound(Step(m, c), email, c.now)
    ensures c.now < hi ==>
              One(IsFailure(m, c, email)) + Potential(Step(m, c), email, c.now, hi)
                <= Potential(m, email, x, hi) + Cost(m, c, email)
  {
    hide Step, Sound, Potential, TripUnderWay, Locked;
    PotentialShrinks(m, email, x, c.now, hi);
    // Soundness is kept whatever the interval.
    var end := if c.now < hi then hi else c.now + 1;
    PotentialShrinks(m, email, x, c.now, end);
    if (c.Next? || c.Crash?) && c.id in m.logins && m.logins[c.id].email == email
       && !(c.Crash? && (m.logins[c.id].stage == Passed || m.logins[c.id].stage == Expiring)) {
      assert m.logins[c.id] == Login(email, m.logins[c.id].stage);
      if c.Crash? {
        MidTripPays(m, c.id, email, c.now, end);
      } else {
        match m.logins[c.id].stage
        case Passed => IncrPays(m, c.id, email, c.now, end);
        case Expiring => ExpirePays(m, c.id, email, c.now, end);
        case Tripping => SetPays(m, c.id, email, c.now, end);
        case Clearing => DelPays(m, c.id, email, c.now, end);
      }
    } else {
      OthersKeep(m, c, email);
      SameKeepsPotential(m, Step(m, c), email, c.now, hi);
    }
  }

  /** All costs of a run within [lo, hi). */
  ghost function Excess(m: Machine, run: seq<Command>, email: string, lo: int, hi: int): int {
    5 * Tally(Late, m, run, email, lo, hi) + Tally(Racing, m, run, email, lo, hi)
      + 8 * Tally(MidTrip, m, run, email, lo, hi)
  }

  lemma {:induction false} TallyNonNegative(kind: Kind, m: Machine, run: seq<Command>, email: string, lo: int, hi: int)
    ensures Tally(kind, m, run, email, lo, hi) >= 0
    decreases run
  {
    if run != [] {
      TallyNonNegative(kind, Step(m, run[0]), run[1..], email, lo, hi);
    }
  }

  lemma {:induction false} TallyAfterwards(kind: Kind, m: Machine, run: seq<Command>, email: string, lo: int, hi: int)
    requires forall c :: c in run ==> hi <= c.now
    ensures Tally(kind, m, run, email, lo, hi) == 0
    decreases run
  {
    if run != [] {
      assert run[0] in run && forall c :: c in run[1..] ==> c in run;
      TallyAfterwards(kind, Step(m, run[0]), run[1..], email, lo, hi);
    }
  }

  lemma {:induction false} RunPays(m: Machine, run: seq<Command>, email: string, x: int, lo: int, hi: int)
    requires InOrder(run) && NeverClears(run, email) && Sound(m, email, x) && lo <= x
    requires forall c :: c in run ==> x <= c.now
    ensures Tally(Failure, m, run, email, lo, hi) <= Potential(m, email, x, hi) + Excess(m, run, email, lo, hi)
    decreases run
  {
    hide Sound, Potential, Step;
    PotentialShrinks(m, email, x, x, hi);
    if run != [] {
      var c, rest := run[0], run[1..];
      assert c in run && forall d :: d in rest ==> d in run;
      assert forall i :: 0 <= i < |rest| ==> rest[i] == run[i + 1];
      if c.now < hi {
        CommandPays(m, c, email, x, hi);
        RunPays(Step(m, c), rest, email, c.now, lo, hi);
      } else {
        assert forall d :: d in run ==> hi <= d.now;
        TallyAfterwards(Failure, m, run, email, lo, hi);
        TallyNonNegative(Late, m, run, email, lo, hi);
        TallyNonNegative(Racing, m, run, email, lo, hi);
        TallyNonNegative(MidTrip, m, run, email, lo, hi);
      }
    }
  }

  lemma {:induction false} BoundedFrom(m: Machine, run: seq<Command>, email: string, x: int, lo: int, k: nat)
    requires InOrder(run) && NeverClears(run, email) && Sound(m, email, x) && k >= 1
    requires forall c :: c in run ==> x <= c.now
    ensures var hi := lo + k * LOGIN_LOCKOUT_MS;
            Tally(Failure, m, run, email, lo, hi)
              <= MAX_FAILED_ATTEMPTS * k + MAX_FAILED_ATTEMPTS - 2 + Excess(m, run, email, lo, hi)
    decreases run
  {
    hide Sound, Potential, Step;
    var hi := lo + k * LOGIN_LOCKOUT_MS;
    if run != [] {
      var c, rest := run[0], run[1..];
      assert c in run && forall d :: d in rest ==> d in run;
      assert forall i :: 0 <= i < |rest| ==> rest[i] == run[i + 1];
      if lo <= c.now {
        PotentialShrinks(m, email, x, c.now, hi);
        PotentialShrinks(m, email, x, Max(x, lo), hi);
        PotentialAtStart(m, email, x, lo, k);
        RunPays(m, run, email, Max(x, lo), lo, hi);
      } else {
        CommandPays(m, c, email, x, hi);
        BoundedFrom(Step(m, c), rest, email, c.now, lo, k);
      }
    }
  }

  /** Whatever is under way when the interval opens, the potential is at most 5k + 3. */
  lemma PotentialAtStart(m: Machine, email: string, x: int, lo: int, k: nat)
    requires Sound(m, email, x) && k >= 1
    ensures Sound(m, email, Max(x, lo))
    ensures Potential(m, email, Max(x, lo), lo + k * LOGIN_LOCKOUT_MS)
         <= MAX_FAILED_ATTEMPTS * k + MAX_FAILED_ATTEMPTS - 2
  {
    hide Budget, Has;
    var y, hi := Max(x, lo), lo + k * LOGIN_LOCKOUT_MS;
    SoundLater(m, email, x, y);
    BudgetAtStart(m.store, email, lo, k);
    BudgetShrinks(m.store, email, lo, y, hi);
    WindowsStep(lo, hi);
    assert WindowsFrom(lo, hi) == 5 * k;
    WindowsShrink(lo, y + LOGIN_LOCKOUT_MS, hi);
    if LockKey(email) in m.store {
      WindowsShrink(lo, Max(y, m.store[LockKey(email)].expiresAt.value), hi);
    }
  }

  /** Whatever the interleaving, k windows count at most 5k + 3 failures of an account that never
      signs in, and beyond that five for each failure counted under the lock, one for each counted
      while another recording is tripping it, and eight for each recording that dies doing so. */
  lemma OverlappingFailuresBounded(run: seq<Command>, email: string, lo: int, k: nat)
    requires InOrder(run) && NeverClears(run, email) && k >= 1
    ensures var hi := lo + k * LOGIN_LOCKOUT_MS;
            Tally(Failure, START, run, email, lo, hi)
              <= MAX_FAILED_ATTEMPTS * k + MAX_FAILED_ATTEMPTS - 2
                 + 5 * Tally(Late, START, run, email, lo, hi)
                 + Tally(Racing, START, run, email, lo, hi)
                 + 8 * Tally(MidTrip, START, run, email, lo, hi)
  {
    hide Tally;
    assert run != [] ==> forall c :: c in run ==> run[0].now <= c.now;
    BoundedFrom(START, run, email, if run == [] then 0 else run[0].now, lo, k);
  }

  // ---- Between recordings ----

  /** A count of five or more is about to be cleared, and one without expiry about to get it. */
  ghost predicate WellKept(m: Machine, email: string) {
    CountKey(email) in m.store ==>
      && 1 <= m.store[CountKey(email)].value
      && (m.store[CountKey(email)].value >= MAX_FAILED_ATTEMPTS ==> TripUnderWay(m, email))
      && (m.store[CountKey(email)].expiresAt.None? ==> Has(m, email, Expiring))
  }

  /** A login on the account dies after its INCR and before its last command. */
  ghost predicate CutsShort(m: Machine, c: Command, email: string) {
    c.Crash? && c.id in m.logins && m.logins[c.id].email == email && m.logins[c.id].stage != Passed
  }

  lemma StepKeepsWellKept(m: Machine, c: Command, email: string)
    requires WellKept(m, email) && !CutsShort(m, c, email)
    ensures WellKept(Step(m, c), email)
  {
    var m' := Step(m, c);
    if c.Next? && c.id in m.logins && m.logins[c.id].email == email {
      match m.logins[c.id].stage
      case Passed => NextKeepsWellKept(m, c.id, email, c.now);
      case Expiring => ExpireKeepsWellKept(m, c.id, email, c.now);
      case Tripping => assert m'.logins[c.id] == Login(email, Clearing);
                       OthersKeepStage(m, m', c.id, email, Expiring);
      case Clearing =>
    } else if c.SignIn? {
    } else if !(c.Check? && c.id in m.logins) {
      OthersKeepStage(m, m', c.id, email, Expiring);
      OthersKeepStage(m, m', c.id, email, Tripping);
      OthersKeepStage(m, m', c.id, email, Clearing);
    }
  }

  lemma NextKeepsWellKept(m: Machine, id: nat, email: string, now: int)
    requires WellKept(m, email) && id in m.logins && m.logins[id] == Login(email, Passed)
    ensures WellKept(Step(m, Next(id, now)), email)
  {
    var m' := Step(m, Next(id, now));
    if id in m'.logins {
      assert Has(m', email, m'.logins[id].stage);
    }
    IncrStages(m, id, email, now);
    if Has(m, email, Expiring) {
      var k :| k in m.logins && m.logins[k] == Login(email, Expiring);
      assert m'.logins[k] == Login(email, Expiring);
    }
    hide Has;
  }

  lemma ExpireKeepsWellKept(m: Machine, id: nat, email: string, now: int)
    requires WellKept(m, email) && id in m.logins && m.logins[id] == Login(email, Expiring)
    ensures WellKept(Step(m, Next(id, now)), email)
  {
    OthersKeepStage(m, Step(m, Next(id, now)), id, email, Tripping);
    OthersKeepStage(m, Step(m, Next(id, now)), id, email, Clearing);
    hide Has;
  }

  ghost function AfterAll(m: Machine, run: seq<Command>): Machine {
    if run == [] then m else Step(AfterAll(m, run[..|run| - 1]), run[|run| - 1])
  }

  lemma {:induction false} RunKeepsWellKept(run: seq<Command>, email: string)
    requires forall i :: 0 <= i < |run| ==> !CutsShort(AfterAll(START, run[..i]), run[i], email)
    ensures WellKept(AfterAll(START, run), email)
  {
    hide Step, CutsShort;
    if run != [] {
      var n := |run| - 1;
      assert forall i :: 0 <= i < n ==> run[..n][..i] == run[..i];
      RunKeepsWellKept(run[..n], email);
      StepKeepsWellKept(AfterAll(START, run[..n]), run[n], email);
    }
  }

  /** While no recording on the account is half done and none of it was cut short, a stored count lies
      in 1..4 and carries an expiry. */
  lemma {:induction false} QuietCountIsSound(run: seq<Command>, email: string)
    requires forall i :: 0 <= i < |run| ==> !CutsShort(AfterAll(START, run[..i]), run[i], email)
    requires var m := AfterAll(START, run);
             forall id :: id in m.logins && m.logins[id].email == email ==> m.logins[id].stage == Passed
    ensures var s := AfterAll(START, run).store;
            CountKey(email) in s ==>
              1 <= s[CountKey(email)].value < MAX_FAILED_ATTEMPTS && s[CountKey(email)].expiresAt.Some?
  {
    RunKeepsWellKept(run, email);
  }

  // ---- Counts without an expiry ----

  ghost predicate NeverExpires(m: Machine, email: string) {
    CountKey(email) in m.store && m.store[CountKey(email)].expiresAt.None?
  }

  /** The INCR that creates the count. */
  ghost predicate Creates(m: Machine, c: Command, email: string) {
    IsFailure(m, c, email) && !Live(m.store, CountKey(email), c.now)
  }

  /** A PEXPIRE or DEL of a login on the account, or a sign-in to it. */
  ghost predicate Settles(m: Machine, c: Command, email: string) {
    || (c.SignIn? && c.email == email)
    || (c.Next? && c.id in m.logins && m.logins[c.id] in {Login(email, Expiring), Login(email, Clearing)})
  }

  lemma StepExpiry(m: Machine, c: Command, email: string)
    ensures NeverExpires(Step(m, c), email) <==>
            Creates(m, c, email) || (NeverExpires(m, email) && !Settles(m, c, email))
  {
  }

  /** Step `j` creates the count, and no step after it settles it. */
  ghost predicate UnsettledSince(run: seq<Command>, email: string, j: int) {
    && 0 <= j < |run| && Creates(AfterAll(START, run[..j]), run[j], email)
    && forall k :: j < k < |run| ==> !Settles(AfterAll(START, run[..k]), run[k], email)
  }

  /** Over every run, deaths included: the count is stored without an expiry exactly when, since the
      INCR that created it, no recording has sent its PEXPIRE or DEL and nobody has signed in. */
  lemma {:induction false} CountNeverExpiresExactly(run: seq<Command>, email: string)
    ensures NeverExpires(AfterAll(START, run), email) <==> exists j :: UnsettledSince(run, email, j)
  {
    hide Step, NeverExpires, Creates, Settles;
    if run == [] {
      StartHasNoCount(email);
    } else {
      var n := |run| - 1;
      var before := run[..n];
      assert forall i :: 0 <= i <= n ==> before[..i] == run[..i];
      assert before[..n] == before && run[..n] == before && forall i :: 0 <= i < n ==> before[i] == run[i];
      CountNeverExpiresExactly(before, email);
      StepExpiry(AfterAll(START, before), run[n], email);
      if Creates(AfterAll(START, before), run[n], email) {
        assert UnsettledSince(run, email, n);
      } else {
        assert forall j :: UnsettledSince(run, email, j) <==>
                           UnsettledSince(before, email, j) && !Settles(AfterAll(START, before), run[n], email) by {
          forall j ensures UnsettledSince(run, email, j) <==>
                           UnsettledSince(before, email, j) && !Settles(AfterAll(START, before), run[n], email) {
            UnsettledLonger(run, email, j);
          }
        }
      }
    }
  }

  lemma UnsettledLonger(run: seq<Command>, email: string, j: int)
    requires run != [] && !Creates(AfterAll(START, run[..|run| - 1]), run[|run| - 1], email)
    ensures var n := |run| - 1;
            UnsettledSince(run, email, j) <==>
              UnsettledSince(run[..n], email, j) && !Settles(AfterAll(START, run[..n]), run[n], email)
  {
    hide Creates, Settles, AfterAll;
    var n := |run| - 1;
    assert forall i :: 0 <= i <= n ==> run[..n][..i] == run[..i];
  }

  lemma StartHasNoCount(email: string)
    ensures !NeverExpires(AfterAll(START, []), email)
  {
  }

  /** So a recording that dies before its PEXPIRE leaves a count that no clock ends, whatever commands
      other than those follow. */
  lemma CrashLeavesCount(email: string, id: nat, now: int, more: seq<Command>, later: int)
    requires var run := [Check(id, email, now), Next(id, now), Crash(id, now)] + more;
             forall k :: 3 <= k < |run| ==> !Settles(AfterAll(START, run[..k]), run[k], email)
    ensures var m := AfterAll(START, [Check(id, email, now), Next(id, now), Crash(id, now)] + more);
            Live(m.store, CountKey(email), later)
  {
    var c1, c2, c3 := Check(id, email, now), Next(id, now), Crash(id, now);
    var run := [c1, c2, c3] + more;
    assert run[..0] == [] && run[..1] == [c1] && run[..2] == [c1, c2];
    assert [c1][..0] == [] && [c1, c2][..1] == [c1];
    assert AfterAll(START, run[..1]) == Step(START, c1);
    assert Creates(AfterAll(START, run[..1]), run[1], email);
    assert run[2] == c3 && !Settles(AfterAll(START, run[..2]), c3, email);
    assert UnsettledSince(run, email, 1);
    CountNeverExpiresExactly(run, email);
  }

  // ---- The exceptions are real ----

  function Checks(email: string, t: int, from: nat, n: nat): seq<Command>
    requires from <= n
    decreases n - from
  {
    if from == n then [] else [Check(from, email, t)] + Checks(email, t, from + 1, n)
  }

  function Increments(t: int, from: nat, n: nat): seq<Command>
    requires from <= n
    decreases n - from
  {
    if from == n then [] else [Next(from, t)] + Increments(t, from + 1, n)
  }

  lemma {:induction false} AtOneTime(email: string, t: int, from: nat, n: nat)
    requires from <= n
    ensures forall c :: c in Checks(email, t, from, n) + Increments(t, from, n) ==>
              c.now == t && !c.Crash? && !c.SignIn?
    decreases n - from
  {
    if from < n {
      AtOneTime(email, t, from + 1, n);
    }
  }

  lemma {:induction false} IncrementsCounted(m: Machine, email: string, t: int, from: nat, n: nat)
    requires from <= n && LockKey(email) !in m.store
    requires forall j :: from <= j < n ==> j in m.logins && m.logins[j] == Login(email, Passed)
    requires if from == 0 then CountKey(email) !in m.store
             else CountKey(email) in m.store && m.store[CountKey(email)] == Entry(from, None)
    ensures var run := Increments(t, from, n);
            && Tally(Failure, m, run, email, t, t + 1) == n - from
            && Tally(Late, m, run, email, t, t + 1) == 0
            && Tally(MidTrip, m, run, email, t, t + 1) == 0
    decreases n - from
  {
    if from < n {
      var run := Increments(t, from, n);
      assert run[0] == Next(from, t) && run[1..] == Increments(t, from + 1, n);
      IncrementAdds(m, email, t, from, n);
      IncrementsCounted(Step(m, run[0]), email, t, from + 1, n);
      hide Step, TripUnderWay;
    }
  }

  lemma IncrementAdds(m: Machine, email: string, t: int, from: nat, n: nat)
    requires from < n && LockKey(email) !in m.store
    requires forall j :: from <= j < n ==> j in m.logins && m.logins[j] == Login(email, Passed)
    requires if from == 0 then CountKey(email) !in m.store
             else CountKey(email) in m.store && m.store[CountKey(email)] == Entry(from, None)
    ensures var m' := Step(m, Next(from, t));
            && LockKey(email) !in m'.store
            && (forall j :: from < j < n ==> j in m'.logins && m'.logins[j] == Login(email, Passed))
            && CountKey(email) in m'.store && m'.store[CountKey(email)] == Entry(from + 1, None)
  {
  }

  /** The first `n` logins are past the check. */
  function PassedLogins(email: string, n: nat): (logins: map<nat, Login>)
    ensures forall id :: id in logins <==> 0 <= id < n
    ensures forall id :: id in logins ==> logins[id] == Login(email, Passed)
  {
    if n == 0 then map[] else PassedLogins(email, n - 1)[n - 1 := Login(email, Passed)]
  }

  /** And nothing is recorded. */
  function AllPassed(email: string, n: nat): Machine {
    Machine(map[], PassedLogins(email, n))
  }

  lemma {:induction false} ChecksThenIncrements(email: string, t: int, from: nat, n: nat)
    requires from <= n
    ensures var m, run := AllPassed(email, from), Checks(email, t, from, n) + Increments(t, 0, n);
            && Tally(Failure, m, run, email, t, t + 1) == n
            && Tally(Late, m, run, email, t, t + 1) == 0
            && Tally(MidTrip, m, run, email, t, t + 1) == 0
    decreases n - from
  {
    hide Step, Tally, Increments, TripUnderWay;
    var m, run := AllPassed(email, from), Checks(email, t, from, n) + Increments(t, 0, n);
    if from == n {
      assert run == Increments(t, 0, n);
      IncrementsCounted(m, email, t, 0, n);
    } else {
      var c, rest := Check(from, email, t), Checks(email, t, from + 1, n) + Increments(t, 0, n);
      assert run == [c] + rest;
      CheckPasses(email, t, from);
      hide Checks, AllPassed;
      ChecksThenIncrements(email, t, from + 1, n);
      TallyFirst(Failure, m, c, rest, email, t, t + 1);
      TallyFirst(Late, m, c, rest, email, t, t + 1);
      TallyFirst(MidTrip, m, c, rest, email, t, t + 1);
    }
  }

  lemma TallyFirst(kind: Kind, m: Machine, c: Command, rest: seq<Command>, email: string, lo: int, hi: int)
    ensures Tally(kind, m, [c] + rest, email, lo, hi)
         == One(lo <= c.now < hi && Is(kind, m, c, email)) + Tally(kind, Step(m, c), rest, email, lo, hi)
  {
    hide Step, Is;
    assert ([c] + rest)[1..] == rest;
  }

  lemma CheckPasses(email: string, t: int, from: nat)
    ensures Step(AllPassed(email, from), Check(from, email, t)) == AllPassed(email, from + 1)
  {
  }

  /** `n` logins that all pass the check before the lock is set are all counted at one instant, and
      none of them under the lock, for every `n`. */
  lemma OverlapEscapes(email: string, t: int, n: nat)
    ensures var run := Checks(email, t, 0, n) + Increments(t, 0, n);
            && InOrder(run) && NeverClears(run, email)
            && Tally(Failure, START, run, email, t, t + 1) == n
            && Tally(Late, START, run, email, t, t + 1) == 0
            && Tally(MidTrip, START, run, email, t, t + 1) == 0
  {
    AtOneTime(email, t, 0, n);
    assert AllPassed(email, 0) == START;
    ChecksThenIncrements(email, t, 0, n);
  }
}
