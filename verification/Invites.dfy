/** One-time invites: a claim that is rolled back when the invite is bound to another e-mail. */
module Invites {
  // `consume` of apps/control-plane/src/modules/invites/invites.service.ts, with any number of calls
  // interleaved and crashes allowed between the two updates.

  import opened Text

  /** The row of one invite; `email` binds it to a recipient. */
  datatype Invite = Invite(email: Option<string>, expiresAt: int, usedAt: Option<int>)

  /** The claiming update matches an unused, unexpired row. */
  predicate Claimable(row: Option<Invite>, now: int) {
    row.Some? && row.value.usedAt.None? && row.value.expiresAt > now
  }

  /** A bound, non-empty e-mail that is not the registering one; `lower` is `toLowerCase`. */
  predicate Mismatch(row: Invite, registerEmail: string, lower: string -> string) {
    row.email.Some? && row.email.value != "" && row.email.value != lower(registerEmail)
  }

  function Claimed(row: Option<Invite>, now: int): Option<Invite> {
    if Claimable(row, now) then Some(row.value.(usedAt := Some(now))) else row
  }

  function RolledBack(row: Option<Invite>): Option<Invite> {
    if row.Some? then Some(row.value.(usedAt := None)) else row
  }

  /** One invite's row in the database; None once revoked. */
  class InviteTable {
    var row: Option<Invite>

    method Claim(now: int) returns (claimed: Option<Invite>)
      modifies this
      ensures row == Claimed(old(row), now)
      ensures claimed == if Claimable(old(row), now) then row else None
    {
      claimed := None;
      if row.Some? && row.value.usedAt.None? && row.value.expiresAt > now {
        row := Some(row.value.(usedAt := Some(now)));
        claimed := row;
      }
    }

    method RollBack()
      modifies this
      ensures row == RolledBack(old(row))
    {
      if row.Some? {
        row := Some(row.value.(usedAt := None));
      }
    }

    method Revoke() returns (found: bool)
      modifies this
      ensures found == old(row).Some? && row == None
    {
      found := row.Some?;
      row := None;
    }
  }

  // ---- Interleaved calls ----

  /** A call that holds the claim: about to return, or to roll back. */
  datatype Pc = Holds(email: string, row: Invite) | MustRollBack | Returned(email: string, row: Invite) | Refused

  datatype State = State(now: int, row: Option<Invite>, calls: map<nat, Pc>)

  datatype Action =
    | Tick(time: int)
    | Claim(c: nat, email: string)
    | Compare(c: nat)
    | RollBack(c: nat)
    | Crash(c: nat)
    | Revoke

  predicate Enabled(s: State, a: Action) {
    match a
    case Tick(t) => s.now <= t
    case Claim(c, _) => c !in s.calls
    case Compare(c) => c in s.calls && s.calls[c].Holds?
    case RollBack(c) => c in s.calls && s.calls[c].MustRollBack?
    case Crash(c) => c in s.calls && (s.calls[c].Holds? || s.calls[c].MustRollBack?)
    case Revoke => s.row.Some?
  }

  function Apply(lower: string -> string, s: State, a: Action): State
    requires Enabled(s, a)
  {
    match a
    case Tick(t) => s.(now := t)
    case Claim(c, email) =>
      s.(row := Claimed(s.row, s.now),
         calls := s.calls[c := if Claimable(s.row, s.now) then Holds(email, Claimed(s.row, s.now).value) else Refused])
    case Compare(c) =>
      var p := s.calls[c];
      s.(calls := s.calls[c := if Mismatch(p.row, p.email, lower) then MustRollBack else Returned(p.email, p.row)])
    case RollBack(c) => s.(row := RolledBack(s.row), calls := s.calls[c := Refused])
    case Crash(c) => s.(calls := s.calls[c := Refused])
    case Revoke => s.(row := None)
  }

  ghost predicate IsRun(lower: string -> string, run: seq<State>, actions: seq<Action>) {
    && |run| == |actions| + 1 && run[0].calls == map[]
    && forall i :: 0 <= i < |actions| ==>
         Enabled(run[i], actions[i]) && run[i + 1] == Apply(lower, run[i], actions[i])
  }

  ghost predicate HoldsClaim(p: Pc) {
    !p.Refused?
  }

  /** At most one call holds the claim or has succeeded, and while it does the row is used. */
  ghost predicate Inv(lower: string -> string, s: State) {
    && (forall a, b | a in s.calls && b in s.calls ::
          HoldsClaim(s.calls[a]) && HoldsClaim(s.calls[b]) ==> a == b)
    && (forall c :: c in s.calls && HoldsClaim(s.calls[c]) ==> s.row.None? || s.row.value.usedAt.Some?)
    && (forall c :: c in s.calls && s.calls[c].Holds? ==> WasValid(s.calls[c].row))
    && (forall c :: c in s.calls && s.calls[c].Returned? ==>
          WasValid(s.calls[c].row) && !Mismatch(s.calls[c].row, s.calls[c].email, lower))
  }

  /** The claim was made before the invite expired. */
  ghost predicate WasValid(row: Invite) {
    row.usedAt.Some? && row.usedAt.value < row.expiresAt
  }

  lemma StepKeepsInv(lower: string -> string, s: State, a: Action)
    requires Inv(lower, s) && Enabled(s, a)
    ensures Inv(lower, Apply(lower, s, a))
  {
  }

  lemma {:induction false} RunKeepsInv(lower: string -> string, run: seq<State>, actions: seq<Action>, i: nat)
    requires IsRun(lower, run, actions) && i < |run|
    ensures Inv(lower, run[i])
  {
    if i > 0 {
      RunKeepsInv(lower, run, actions, i - 1);
      StepKeepsInv(lower, run[i - 1], actions[i - 1]);
    }
  }

  /** In every interleaving at most one call at a time holds the claim or has returned, so at most one
      ever returns, and while a rollback is pending no other call holds the claim; a call that
      returned was made in time and with a matching e-mail. */
  lemma ConsumedAtMostOnce(lower: string -> string, run: seq<State>, actions: seq<Action>, i: nat, a: nat, b: nat)
    requires IsRun(lower, run, actions) && i < |run|
    requires a in run[i].calls && b in run[i].calls && HoldsClaim(run[i].calls[a]) && HoldsClaim(run[i].calls[b])
    ensures a == b
    ensures run[i].calls[a].Returned? ==>
              WasValid(run[i].calls[a].row) && !Mismatch(run[i].calls[a].row, run[i].calls[a].email, lower)
  {
    RunKeepsInv(lower, run, actions, i);
  }

  /** Only its recipient consumes a bound invite: in every run the row that a call returned has no
      e-mail, an empty one, or the one the call registers. */
  lemma ReturnedToItsRecipient(lower: string -> string, run: seq<State>, actions: seq<Action>, i: nat, c: nat)
    requires IsRun(lower, run, actions) && i < |run| && c in run[i].calls && run[i].calls[c].Returned?
    ensures run[i].calls[c].row.email in {None, Some(""), Some(lower(run[i].calls[c].email))}
  {
    RunKeepsInv(lower, run, actions, i);
  }

  /** A comparison returns the row exactly then, and otherwise leads to the rollback. */
  lemma ComparesExactly(lower: string -> string, s: State, c: nat)
    requires Enabled(s, Compare(c))
    ensures var p, p' := s.calls[c], Apply(lower, s, Compare(c)).calls[c];
            p' == if p.row.email in {None, Some(""), Some(lower(p.email))} then Returned(p.email, p.row)
                  else MustRollBack
  {
  }

  /** And its recipient can: a claim of a present, unused, unexpired row that is unbound or bound to the
      registering e-mail, compared next, returns that row, now used. */
  lemma RecipientConsumes(lower: string -> string, s: State, c: nat, email: string)
    requires Enabled(s, Claim(c, email)) && s.row.Some?
    requires s.row.value.usedAt.None? && s.now < s.row.value.expiresAt
    requires s.row.value.email in {None, Some(""), Some(lower(email))}
    ensures var s1 := Apply(lower, s, Claim(c, email));
            && Enabled(s1, Compare(c))
            && var s2 := Apply(lower, s1, Compare(c));
               && s2.calls[c] == Returned(email, s.row.value.(usedAt := Some(s.now)))
               && s2.row == Some(s.row.value.(usedAt := Some(s.now)))
  {
  }

  /** Nobody claims a row that is gone, used or expired. */
  lemma OthersAreRefused(lower: string -> string, s: State, c: nat, email: string)
    requires Enabled(s, Claim(c, email))
    requires s.row.None? || s.row.value.usedAt.Some? || s.row.value.expiresAt <= s.now
    ensures Apply(lower, s, Claim(c, email)) == s.(calls := s.calls[c := Refused])
  {
  }

  /** A success is final: from then on the call stays the one that returned, and the row, unless
      revoked, stays used. */
  lemma {:induction false} SuccessIsFinal(lower: string -> string, run: seq<State>, actions: seq<Action>, c: nat,
                                          i: nat, j: nat)
    requires IsRun(lower, run, actions) && i <= j < |run|
    requires c in run[i].calls && run[i].calls[c].Returned?
    ensures c in run[j].calls && run[j].calls[c] == run[i].calls[c]
    ensures run[j].row.Some? ==> run[j].row.value.usedAt.Some?
    decreases j
  {
    RunKeepsInv(lower, run, actions, j);
    if i < j {
      SuccessIsFinal(lower, run, actions, c, i, j - 1);
      assert run[j] == Apply(lower, run[j - 1], actions[j - 1]);
    }
  }

  // ---- Who has the invite when its row is used ----

  ghost predicate Claimant(s: State) {
    exists c :: c in s.calls && HoldsClaim(s.calls[c])
  }

  ghost predicate Crashed(actions: seq<Action>, n: nat)
    requires n <= |actions|
  {
    exists j :: 0 <= j < n && actions[j].Crash?
  }

  /** Without a crash the row is used exactly while a call has it; a crash leaves it used and with
      nobody. */
  ghost predicate Accounted(s: State, crashed: bool) {
    && (crashed ==> !Claimant(s) && (s.row.Some? ==> s.row.value.usedAt.Some?))
    && (!crashed && s.row.Some? ==> (s.row.value.usedAt.Some? <==> Claimant(s)))
  }

  lemma StepKeepsAccounted(lower: string -> string, s: State, a: Action, crashed: bool)
    requires Inv(lower, s) && Accounted(s, crashed) && Enabled(s, a)
    ensures Accounted(Apply(lower, s, a), crashed || a.Crash?)
  {
    var s' := Apply(lower, s, a);
    if a.Claim? || a.Compare? || a.RollBack? || a.Crash? {
      assert forall c :: c != a.c ==> (c in s.calls <==> c in s'.calls) && (c in s.calls ==> s.calls[c] == s'.calls[c]);
      if a.Claim? && Claimable(s.row, s.now) {
        assert HoldsClaim(s'.calls[a.c]);
      }
      if a.Compare? {
        assert HoldsClaim(s.calls[a.c]) && HoldsClaim(s'.calls[a.c]);
      }
      if a.Claim? && !Claimable(s.row, s.now) && Claimant(s) {
        var c :| c in s.calls && HoldsClaim(s.calls[c]);
        assert HoldsClaim(s'.calls[c]);
      }
    }
  }

  /** Apart from when it was used, the row is the one the run began with. */
  ghost predicate SameInvite(s: State, first: Invite) {
    s.row.Some? ==> s.row.value.(usedAt := None) == first
  }

  lemma {:induction false} RunKeepsAccounted(lower: string -> string, run: seq<State>, actions: seq<Action>, i: nat)
    requires IsRun(lower, run, actions) && i <= |actions|
    requires run[0].row.Some? && run[0].row.value.usedAt.None?
    ensures Accounted(run[i], Crashed(actions, i)) && SameInvite(run[i], run[0].row.value)
  {
    hide Inv, Accounted;
    if i == 0 {
      StartsAccounted(run[0]);
    } else {
      RunKeepsAccounted(lower, run, actions, i - 1);
      RunKeepsInv(lower, run, actions, i - 1);
      StepKeepsAccounted(lower, run[i - 1], actions[i - 1], Crashed(actions, i - 1));
      assert Crashed(actions, i) == (Crashed(actions, i - 1) || actions[i - 1].Crash?);
    }
  }

  lemma StartsAccounted(s: State)
    requires s.calls == map[] && s.row.Some? && s.row.value.usedAt.None?
    ensures Accounted(s, false)
  {
  }

  /** In every interleaving an invite that is not revoked is used exactly when a call has it or a
      call has died between its claim and its end. */
  lemma UsedMeansHeldOrCrashed(lower: string -> string, run: seq<State>, actions: seq<Action>, i: nat)
    requires IsRun(lower, run, actions) && i <= |actions|
    requires run[0].row.Some? && run[0].row.value.usedAt.None?
    ensures run[i].row.Some? ==>
              (run[i].row.value.usedAt.Some? <==> Claimant(run[i]) || Crashed(actions, i))
  {
    RunKeepsAccounted(lower, run, actions, i);
  }

  /** A mismatched call that runs to its end leaves the row as the run found it, whatever calls came
      between, so the intended recipient can still use the invite. */
  lemma MismatchLeavesInvite(lower: string -> string, run: seq<State>, actions: seq<Action>, i: nat)
    requires IsRun(lower, run, actions) && i < |actions| && actions[i].RollBack?
    requires run[0].row.Some? && run[0].row.value.usedAt.None?
    ensures run[i + 1].row.Some? ==> run[i + 1].row == run[0].row
  {
    RunKeepsAccounted(lower, run, actions, i);
    RunKeepsAccounted(lower, run, actions, i + 1);
    assert HoldsClaim(run[i].calls[actions[i].c]);
    assert run[i + 1] == Apply(lower, run[i], actions[i]);
  }

  /** A crash between the claim and the end of a call spends the invite: from then on nobody has it,
      and it can only be revoked. */
  lemma CrashSpendsInvite(lower: string -> string, run: seq<State>, actions: seq<Action>, i: nat)
    requires IsRun(lower, run, actions) && i <= |actions| && Crashed(actions, i)
    requires run[0].row.Some? && run[0].row.value.usedAt.None?
    ensures !Claimant(run[i])
    ensures run[i].row.Some? ==> !Claimable(run[i].row, run[i].now)
  {
    RunKeepsAccounted(lower, run, actions, i);
  }
}
