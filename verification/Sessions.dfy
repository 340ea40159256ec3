/** Refresh rotation, reuse detection and session epochs, interleaved at every await. */
module Sessions {
  // `refresh`, `consumeRefreshJti`, `issueTokens` and `logout` of
  // apps/control-plane/src/modules/auth/auth.service.ts and `validate` of
  // apps/control-plane/src/modules/auth/jwt.strategy.ts.

  import opened Text
  import opened RedisModel

  type User = string
  type Jti = string

  // ---- The one-shot mark ----

  datatype ConsumeOutcome = Ok | Reuse | Skip

  const WEEK_MS := 7 * 24 * 60 * 60 * 1000

  function Max(a: int, b: int): int {
    if a >= b then a else b
  }

  /** `exp` is in seconds, the result in milliseconds. */
  function RefreshJtiTtlMs(exp: Option<int>, now: int): int {
    if exp.None? then WEEK_MS else Max(exp.value * 1000 - now, 1_000)
  }

  function ConsumeResult(s: Store<Jti>, jti: Jti, now: int, up: bool): ConsumeOutcome {
    if !up then Skip else if Live(s, jti, now) then Reuse else Ok
  }

  /** SET jti 1 PX ttl NX */
  function ConsumeStore(s: Store<Jti>, jti: Jti, ttlMs: int, now: int, up: bool): Store<Jti> {
    if ConsumeResult(s, jti, now, up).Ok? then SetPx(s, jti, 1, Max(ttlMs, 1_000), now) else s
  }

  class RefreshMarks {
    var store: Store<Jti>

    method ConsumeRefreshJti(jti: Jti, ttlMs: int, now: int, up: bool) returns (r: ConsumeOutcome)
      modifies this
      ensures r == ConsumeResult(old(store), jti, now, up)
      ensures store == ConsumeStore(old(store), jti, ttlMs, now, up)
    {
      if !up {
        return Skip;
      }
      if Live(store, jti, now) {
        return Reuse;
      }
      store := SetPx(store, jti, 1, Max(ttlMs, 1_000), now);
      r := Ok;
    }
  }

  /** The lifetime is computed from a clock reading taken before Redis sets the mark, and is still
      long enough to reach the token's expiry. */
  lemma MarkReachesExpiry(s: Store<Jti>, jti: Jti, exp: int, readAt: int, setAt: int)
    requires readAt <= setAt && ConsumeResult(s, jti, setAt, true).Ok?
    ensures var s' := ConsumeStore(s, jti, RefreshJtiTtlMs(Some(exp), readAt), setAt, true);
            jti in s' && s'[jti].expiresAt.Some?
            && s'[jti].expiresAt.value >= Max(exp * 1000, setAt + 1_000)
  {
  }

  /** The lifetime is what remains until the expiry, but a second at least, and a week when there is
      none. */
  lemma LifetimeExactly(exp: Option<int>, now: int)
    ensures exp == None ==> RefreshJtiTtlMs(exp, now) == 604_800_000
    ensures exp.Some? ==>
              var ttl := RefreshJtiTtlMs(exp, now);
              ttl >= 1_000 && now + ttl >= exp.value * 1000 && (ttl > 1_000 ==> now + ttl == exp.value * 1000)
  {
  }

  // ---- The interleaved system ----

  datatype Token =
    | Access(user: User, tv: int)
    | Refresh(user: User, tv: int, jti: Jti, exp: int)

  /** Where a handler stands between two awaits. */
  datatype Pc =
    | Verified(token: Token)
    | UserRead(token: Token, readAt: int)
    | Replayed(user: User)
    | Signing(user: User, tv: int)
    | SigningRefresh(user: User, tv: int)

  datatype Rotation = Rotation(jti: Jti, exp: int, at: int)

  /** `epoch` is each user's tokenVersion; `rotations` logs the redemptions Redis answered. */
  datatype State = State(
    now: int, epoch: map<User, int>, redis: Store<Jti>, issued: set<Token>, jtis: set<Jti>,
    handlers: map<nat, Pc>, rotations: seq<Rotation>)

  datatype Action =
    | Tick(time: int)
    | VerifyRefresh(h: nat, token: Token)
    | ReadUser(h: nat)
    | Consume(h: nat, up: bool)
    | BumpReplayed(h: nat)
    | StartSession(h: nat, user: User)
    | SignAccess(h: nat)
    | SignRefresh(h: nat, jti: Jti, exp: int)
    | Bump(user: User)
    | RemoveUser(user: User)
    | ValidateAccess(token: Token)

  predicate Enabled(s: State, a: Action) {
    match a
    case Tick(t) => s.now <= t
    case VerifyRefresh(h, t) => h !in s.handlers && t in s.issued && t.Refresh? && s.now < t.exp * 1000
    case ReadUser(h) => h in s.handlers && s.handlers[h].Verified?
    case Consume(h, _) => h in s.handlers && s.handlers[h].UserRead? && s.handlers[h].token.Refresh?
    case BumpReplayed(h) => h in s.handlers && s.handlers[h].Replayed?
    case StartSession(h, u) => h !in s.handlers && u in s.epoch
    case SignAccess(h) => h in s.handlers && s.handlers[h].Signing?
    case SignRefresh(h, jti, _) => h in s.handlers && s.handlers[h].SigningRefresh? && jti !in s.jtis
    case Bump(u) => u in s.epoch
    case RemoveUser(u) => u in s.epoch
    case ValidateAccess(t) => t in s.issued && t.Access?
  }

  /** The epoch comparison of `refresh` and of `validate`, against the user as read now. */
  predicate EpochMatches(s: State, t: Token) {
    t.user in s.epoch && t.tv == s.epoch[t.user]
  }

  /** The token an action accepts, if any. */
  function Accepts(s: State, a: Action): Option<Token>
    requires Enabled(s, a)
  {
    match a
    case ReadUser(h) =>
      if EpochMatches(s, s.handlers[h].token) then Some(s.handlers[h].token) else None
    case ValidateAccess(t) => if EpochMatches(s, t) then Some(t) else None
    case _ => None
  }

  function BumpEpoch(s: State, u: User): State {
    if u in s.epoch then s.(epoch := s.epoch[u := s.epoch[u] + 1]) else s
  }

  function Apply(s: State, a: Action): State
    requires Enabled(s, a)
  {
    match a
    case Tick(t) => s.(now := t)
    case VerifyRefresh(h, t) => s.(handlers := s.handlers[h := Verified(t)])
    case ReadUser(h) =>
      var t := s.handlers[h].token;
      if EpochMatches(s, t) then s.(handlers := s.handlers[h := UserRead(t, s.now)])
      else s.(handlers := s.handlers - {h})
    case Consume(h, up) =>
      var t := s.handlers[h].token;
      var ttlMs := RefreshJtiTtlMs(Some(t.exp), s.handlers[h].readAt);
      var s' := s.(redis := ConsumeStore(s.redis, t.jti, ttlMs, s.now, up));
      (match ConsumeResult(s.redis, t.jti, s.now, up)
       case Reuse => s'.(handlers := s.handlers[h := Replayed(t.user)])
       case Skip => s'.(handlers := s.handlers[h := Signing(t.user, t.tv)])
       case Ok => s'.(handlers := s.handlers[h := Signing(t.user, t.tv)],
                      rotations := s.rotations + [Rotation(t.jti, t.exp, s.now)]))
    case BumpReplayed(h) => BumpEpoch(s.(handlers := s.handlers - {h}), s.handlers[h].user)
    case StartSession(h, u) => s.(handlers := s.handlers[h := Signing(u, s.epoch[u])])
    case SignAccess(h) =>
      var p := s.handlers[h];
      s.(issued := s.issued + {Access(p.user, p.tv)},
         handlers := s.handlers[h := SigningRefresh(p.user, p.tv)])
    case SignRefresh(h, jti, exp) =>
      var p := s.handlers[h];
      s.(issued := s.issued + {Refresh(p.user, p.tv, jti, exp)}, jtis := s.jtis + {jti},
         handlers := s.handlers - {h})
    case Bump(u) => BumpEpoch(s, u)
    case RemoveUser(u) => s.(epoch := s.epoch - {u})
    case ValidateAccess(_) => s
  }

  ghost predicate Init(s: State) {
    s.redis == map[] && s.issued == {} && s.jtis == {} && s.handlers == map[] && s.rotations == []
  }

  ghost predicate IsRun(run: seq<State>, actions: seq<Action>) {
    && |run| == |actions| + 1 && Init(run[0])
    && forall i :: 0 <= i < |actions| ==>
         Enabled(run[i], actions[i]) && run[i + 1] == Apply(run[i], actions[i])
  }

  // ---- Epochs ----

  /** The epoch a handler will sign with, or has read a token at. */
  function EpochOf(p: Pc): (User, Option<int>) {
    match p
    case Verified(t) => (t.user, Some(t.tv))
    case UserRead(t, _) => (t.user, Some(t.tv))
    case Replayed(u) => (u, None)
    case Signing(u, tv) => (u, Some(tv))
    case SigningRefresh(u, tv) => (u, Some(tv))
  }

  ghost predicate EpochInv(s: State) {
    && (forall t :: t in s.issued && t.user in s.epoch ==> t.tv <= s.epoch[t.user])
    && (forall h :: h in s.handlers ==>
          var (u, tv) := EpochOf(s.handlers[h]);
          tv.Some? && u in s.epoch ==> tv.value <= s.epoch[u])
  }

  lemma StepKeepsEpochInv(s: State, a: Action)
    requires EpochInv(s) && Enabled(s, a)
    ensures EpochInv(Apply(s, a))
  {
    hide ConsumeStore, ConsumeResult, RefreshJtiTtlMs;
  }

  /** Every token issued or about to be signed carries at most its user's current epoch. */
  lemma {:induction false} IssuedEpochsBounded(run: seq<State>, actions: seq<Action>, i: nat)
    requires IsRun(run, actions) && i < |run|
    ensures EpochInv(run[i])
  {
    if i > 0 {
      IssuedEpochsBounded(run, actions, i - 1);
      StepKeepsEpochInv(run[i - 1], actions[i - 1]);
    }
  }

  lemma {:induction false} EpochsOnlyGrow(run: seq<State>, actions: seq<Action>, u: User, i: nat, j: nat)
    requires IsRun(run, actions) && i <= j < |run| && u in run[j].epoch
    ensures u in run[i].epoch && run[i].epoch[u] <= run[j].epoch[u]
    decreases j
  {
    if i < j {
      assert run[j] == Apply(run[j - 1], actions[j - 1]);
      EpochsOnlyGrow(run, actions, u, i, j - 1);
    }
  }

  /** Once a user's epoch has passed a token's, no later step of any interleaving accepts the
      token, whenever it was signed and whether or not Redis answers. */
  lemma StaleTokensStayDead(run: seq<State>, actions: seq<Action>, t: Token, i: nat, j: nat)
    requires IsRun(run, actions) && i <= j < |actions|
    requires t.user in run[i].epoch ==> t.tv < run[i].epoch[t.user]
    ensures Accepts(run[j], actions[j]) != Some(t)
  {
    if t.user in run[j].epoch {
      EpochsOnlyGrow(run, actions, t.user, i, j);
    }
  }

  /** Logout, a 2FA disable and a detected replay kill every session of the user: no token issued
      so far, or signed later by a handler already under way, is accepted afterwards. */
  lemma BumpKillsSessions(run: seq<State>, actions: seq<Action>, i: nat, j: nat, t: Token, u: User)
    requires IsRun(run, actions) && i < j < |actions| && u in run[i].epoch
    requires actions[i] == Bump(u)
      || (actions[i].BumpReplayed? && run[i].handlers[actions[i].h] == Replayed(u))
    requires t.user == u
    requires t in run[i].issued
      || (exists h :: h in run[i].handlers && EpochOf(run[i].handlers[h]) == (u, Some(t.tv)))
    ensures Accepts(run[j], actions[j]) != Some(t)
  {
    IssuedEpochsBounded(run, actions, i);
    StaleTokensStayDead(run, actions, t, i + 1, j);
  }

  // ---- One-shot rotation ----

  ghost predicate HeldToken(s: State, p: Pc) {
    match p
    case Verified(t) => t in s.issued && t.Refresh?
    case UserRead(t, readAt) => t in s.issued && t.Refresh? && readAt <= s.now
    case _ => true
  }

  ghost predicate MarkHolds(s: State, r: Rotation) {
    && r.at <= s.now
    && r.jti in s.redis && s.redis[r.jti].expiresAt.Some?
    && s.redis[r.jti].expiresAt.value >= Max(r.exp * 1000, r.at + 1_000)
  }

  ghost predicate HasToken(s: State, r: Rotation) {
    exists t :: t in s.issued && t.Refresh? && t.jti == r.jti && t.exp == r.exp
  }

  ghost predicate RotationInv(s: State) {
    && (forall t :: t in s.issued && t.Refresh? ==> t.jti in s.jtis)
    && (forall a, b :: a in s.issued && b in s.issued && a.Refresh? && b.Refresh? && a.jti == b.jti ==> a == b)
    && (forall h :: h in s.handlers ==> HeldToken(s, s.handlers[h]))
    && (forall r :: r in s.rotations ==> MarkHolds(s, r) && HasToken(s, r))
  }

  /** Two redemptions of one jti: the later only once the first mark, and the token, have expired. */
  ghost predicate OneShot(rotations: seq<Rotation>) {
    forall i, j :: 0 <= i < j < |rotations| && rotations[i].jti == rotations[j].jti ==>
      rotations[i].exp == rotations[j].exp
      && rotations[j].at >= Max(rotations[i].exp * 1000, rotations[i].at + 1_000)
  }

  /** Redis answers OK only when no earlier redemption of the jti is still covered by its mark. */
  lemma RedeemStaysOneShot(s: State, t: Token)
    requires RotationInv(s) && OneShot(s.rotations)
    requires t in s.issued && t.Refresh? && !Live(s.redis, t.jti, s.now)
    ensures OneShot(s.rotations + [Rotation(t.jti, t.exp, s.now)])
  {
    forall i | 0 <= i < |s.rotations| && s.rotations[i].jti == t.jti
      ensures s.rotations[i].exp == t.exp
        && s.now >= Max(s.rotations[i].exp * 1000, s.rotations[i].at + 1_000)
    {
      var r := s.rotations[i];
      assert r in s.rotations;
      assert HasToken(s, r);
    }
  }

  lemma ConsumeKeepsRotationInv(s: State, h: nat, up: bool)
    requires RotationInv(s) && OneShot(s.rotations) && Enabled(s, Consume(h, up))
    ensures RotationInv(Apply(s, Consume(h, up))) && OneShot(Apply(s, Consume(h, up)).rotations)
  {
    var t, p, s' := s.handlers[h].token, s.handlers[h], Apply(s, Consume(h, up));
    assert HeldToken(s, p);
    if ConsumeResult(s.redis, t.jti, s.now, up).Ok? {
      MarkReachesExpiry(s.redis, t.jti, t.exp, p.readAt, s.now);
      RedeemStaysOneShot(s, t);
      assert HasToken(s', Rotation(t.jti, t.exp, s.now));
      forall r | r in s.rotations
        ensures MarkHolds(s', r) && HasToken(s', r)
      {
        assert MarkHolds(s, r) && HasToken(s, r);
      }
    }
  }

  lemma StepKeepsRotationInv(s: State, a: Action)
    requires RotationInv(s) && OneShot(s.rotations) && Enabled(s, a)
    ensures RotationInv(Apply(s, a)) && OneShot(Apply(s, a).rotations)
  {
    if a.Consume? {
      ConsumeKeepsRotationInv(s, a.h, a.up);
    } else {
      var s' := Apply(s, a);
      forall r | r in s'.rotations
        ensures MarkHolds(s', r) && HasToken(s', r)
      {
        assert r in s.rotations;
      }
    }
  }

  lemma {:induction false} RunKeepsRotationInv(run: seq<State>, actions: seq<Action>, i: nat)
    requires IsRun(run, actions) && i < |run|
    ensures RotationInv(run[i]) && OneShot(run[i].rotations)
  {
    if i > 0 {
      RunKeepsRotationInv(run, actions, i - 1);
      StepKeepsRotationInv(run[i - 1], actions[i - 1]);
    }
  }

  /** In every interleaving a refresh jti is redeemed again only once its token has expired and a
      second has passed since; before the expiry it is redeemed at most once. */
  lemma RedeemedAtMostOnce(run: seq<State>, actions: seq<Action>, i: nat, j: nat)
    requires IsRun(run, actions)
    requires var rs := run[|run| - 1].rotations; i < j < |rs| && rs[i].jti == rs[j].jti
    ensures var rs := run[|run| - 1].rotations;
            rs[j].exp == rs[i].exp && rs[j].at >= Max(rs[i].exp * 1000, rs[i].at + 1_000)
  {
    RunKeepsRotationInv(run, actions, |run| - 1);
  }

  // ---- What a consume leads to ----

  /** Step `i` is a consume that Redis answered and after which its handler goes on to sign. */
  ghost predicate Redeems(run: seq<State>, actions: seq<Action>, i: nat)
    requires IsRun(run, actions) && i < |actions|
  {
    && actions[i].Consume? && actions[i].up
    && actions[i].h in run[i + 1].handlers && run[i + 1].handlers[actions[i].h].Signing?
  }

  /** The token, and the time, of each such step among the first `n`. */
  ghost function Redeemed(run: seq<State>, actions: seq<Action>, n: nat): seq<Rotation>
    requires IsRun(run, actions) && n <= |actions|
  {
    if n == 0 then []
    else
      Redeemed(run, actions, n - 1)
        + if Redeems(run, actions, n - 1)
          then var t := run[n - 1].handlers[actions[n - 1].h].token; [Rotation(t.jti, t.exp, run[n - 1].now)]
          else []
  }

  /** Over every run the log holds exactly the consumes that lead to a signature, in order. */
  lemma {:induction false} LogIsExact(run: seq<State>, actions: seq<Action>, n: nat)
    requires IsRun(run, actions) && n <= |actions|
    ensures run[n].rotations == Redeemed(run, actions, n)
  {
    if n > 0 {
      LogIsExact(run, actions, n - 1);
      assert Enabled(run[n - 1], actions[n - 1]) && run[n] == Apply(run[n - 1], actions[n - 1]);
    }
  }

  /** Every mark was set by a logged redemption. */
  ghost predicate MarksLogged(s: State) {
    forall jti :: jti in s.redis ==> exists k :: 0 <= k < |s.rotations| && s.rotations[k].jti == jti
  }

  lemma StepKeepsMarksLogged(s: State, a: Action)
    requires MarksLogged(s) && Enabled(s, a)
    ensures MarksLogged(Apply(s, a))
  {
    var s' := Apply(s, a);
    if a.Consume? && ConsumeResult(s.redis, s.handlers[a.h].token.jti, s.now, a.up).Ok? {
      assert s'.rotations[|s.rotations|].jti == s.handlers[a.h].token.jti;
      assert forall k :: 0 <= k < |s.rotations| ==> s'.rotations[k] == s.rotations[k];
    } else {
      assert s'.redis == s.redis && s'.rotations == s.rotations;
    }
  }

  lemma {:induction false} RunKeepsMarksLogged(run: seq<State>, actions: seq<Action>, i: nat)
    requires IsRun(run, actions) && i < |run|
    ensures MarksLogged(run[i])
  {
    hide MarksLogged;
    if i == 0 {
      StartsUnmarked(run[0]);
    } else {
      RunKeepsMarksLogged(run, actions, i - 1);
      StepKeepsMarksLogged(run[i - 1], actions[i - 1]);
    }
  }

  lemma StartsUnmarked(s: State)
    requires Init(s)
    ensures MarksLogged(s)
  {
  }

  ghost predicate RedeemedBefore(s: State, jti: Jti) {
    exists k :: 0 <= k < |s.rotations| && s.rotations[k].jti == jti
  }

  /** A redemption that covers the jti until its token has expired and a second has passed. */
  ghost predicate Covered(s: State, jti: Jti) {
    exists k :: 0 <= k < |s.rotations| && s.rotations[k].jti == jti
                && s.now < Max(s.rotations[k].exp * 1000, s.rotations[k].at + 1_000)
  }

  /** What an action is a step of. */
  function HandlerOf(a: Action): Option<nat> {
    match a
    case VerifyRefresh(h, _) => Some(h)
    case ReadUser(h) => Some(h)
    case Consume(h, _) => Some(h)
    case BumpReplayed(h) => Some(h)
    case StartSession(h, _) => Some(h)
    case SignAccess(h) => Some(h)
    case SignRefresh(h, _, _) => Some(h)
    case _ => None
  }

  /** A handler goes past the read of its user exactly when its token is accepted, that is when it
      carries the epoch of a user that is still there; otherwise it ends. */
  lemma ReadLeadsTo(s: State, h: nat)
    requires Enabled(s, ReadUser(h))
    ensures var t, s' := s.handlers[h].token, Apply(s, ReadUser(h));
            && (h in s'.handlers <==> t.user in s.epoch && t.tv == s.epoch[t.user])
            && (h in s'.handlers <==> Accepts(s, ReadUser(h)) == Some(t))
            && (h in s'.handlers ==> s'.handlers[h] == UserRead(t, s.now))
            && s'.issued == s.issued && s'.epoch == s.epoch
  {
  }

  /** A first consume, or one that Redis does not answer, goes on to sign for the token's user and
      epoch; one that is answered while a redemption covers the jti can only bump. */
  lemma ConsumeLeadsTo(run: seq<State>, actions: seq<Action>, i: nat)
    requires IsRun(run, actions) && i < |actions| && actions[i].Consume?
    ensures var h, s, s' := actions[i].h, run[i], run[i + 1];
            h in s.handlers && s.handlers[h].UserRead? && s.handlers[h].token.Refresh? && h in s'.handlers
    ensures var h, s, s' := actions[i].h, run[i], run[i + 1];
            var t := s.handlers[h].token;
            && (!actions[i].up || !RedeemedBefore(s, t.jti) ==> s'.handlers[h] == Signing(t.user, t.tv))
            && (actions[i].up && Covered(s, t.jti) ==>
                  && s'.handlers[h] == Replayed(t.user)
                  && forall a :: Enabled(s', a) && HandlerOf(a) == Some(h) ==> a == BumpReplayed(h))
            && (s'.handlers[h] == Signing(t.user, t.tv) || (actions[i].up && s'.handlers[h] == Replayed(t.user)))
  {
    var h, s := actions[i].h, run[i];
    RunKeepsRotationInv(run, actions, i);
    RunKeepsMarksLogged(run, actions, i);
    assert Enabled(s, actions[i]) && run[i + 1] == Apply(s, actions[i]);
    if Covered(s, s.handlers[h].token.jti) {
      var k :| 0 <= k < |s.rotations| && s.rotations[k].jti == s.handlers[h].token.jti
               && s.now < Max(s.rotations[k].exp * 1000, s.rotations[k].at + 1_000);
      assert s.rotations[k] in s.rotations && MarkHolds(s, s.rotations[k]);
    }
  }

  /** So no jti is signed for twice while its token lives: of two answered consumes of one jti that
      lead to a signature, the later comes once the token has expired and a second has passed. */
  lemma SignedAtMostOnce(run: seq<State>, actions: seq<Action>, i: nat, j: nat)
    requires IsRun(run, actions) && i < j < |actions| && Redeems(run, actions, i) && Redeems(run, actions, j)
    requires run[i].handlers[actions[i].h].token.jti == run[j].handlers[actions[j].h].token.jti
    ensures var t := run[i].handlers[actions[i].h].token;
            run[j].now >= Max(t.exp * 1000, run[i].now + 1_000)
  {
    LogIsExact(run, actions, i);
    LogIsExact(run, actions, j);
    LogIsExact(run, actions, i + 1);
    LogIsExact(run, actions, j + 1);
    LogGrows(run, actions, i + 1, j);
    RunKeepsRotationInv(run, actions, j + 1);
    var rs := run[j + 1].rotations;
    assert rs[|run[i].rotations|] == run[i + 1].rotations[|run[i].rotations|];
    assert rs[|run[j].rotations|].at == run[j].now;
  }

  lemma {:induction false} LogGrows(run: seq<State>, actions: seq<Action>, i: nat, j: nat)
    requires IsRun(run, actions) && i <= j <= |actions|
    ensures run[i].rotations <= run[j].rotations
    decreases j
  {
    if i < j {
      LogGrows(run, actions, i, j - 1);
      assert Enabled(run[j - 1], actions[j - 1]) && run[j] == Apply(run[j - 1], actions[j - 1]);
    }
  }

  lemma {:induction false} StaysReplayed(run: seq<State>, actions: seq<Action>, h: nat, u: User, i: nat, k: nat)
    requires IsRun(run, actions) && i <= k <= |actions|
    requires h in run[i].handlers && run[i].handlers[h] == Replayed(u)
    requires forall m :: i <= m < k ==> actions[m] != BumpReplayed(h)
    ensures h in run[k].handlers && run[k].handlers[h] == Replayed(u)
    decreases k
  {
    if i < k {
      StaysReplayed(run, actions, h, u, i, k - 1);
      assert Enabled(run[k - 1], actions[k - 1]) && run[k] == Apply(run[k - 1], actions[k - 1]);
    }
  }

  /** A detected reuse ends in the bump, and after it no token of the user issued until then is ever
      accepted. */
  lemma ReplayKillsSessions(run: seq<State>, actions: seq<Action>, i: nat, k: nat, j: nat, t: Token)
    requires IsRun(run, actions) && i < k < j < |actions| && actions[i].Consume? && actions[i].up
    requires var h := actions[i].h;
             && h in run[i].handlers && run[i].handlers[h].UserRead?
             && run[i].handlers[h].token.Refresh? && Covered(run[i], run[i].handlers[h].token.jti)
             && t.user == run[i].handlers[h].token.user
    requires actions[k] == BumpReplayed(actions[i].h)
    requires forall m :: i < m < k ==> actions[m] != BumpReplayed(actions[i].h)
    requires t in run[k].issued
    ensures Accepts(run[j], actions[j]) != Some(t)
  {
    ConsumeLeadsTo(run, actions, i);
    StaysReplayed(run, actions, actions[i].h, t.user, i + 1, k);
    if t.user in run[k].epoch {
      BumpKillsSessions(run, actions, k, j, t, t.user);
    } else {
      RemovedStays(run, actions, t.user, k, j);
    }
  }

  lemma {:induction false} RemovedStays(run: seq<State>, actions: seq<Action>, u: User, i: nat, j: nat)
    requires IsRun(run, actions) && i <= j <= |actions| && u !in run[i].epoch
    ensures u !in run[j].epoch
    decreases j
  {
    if i < j {
      RemovedStays(run, actions, u, i, j - 1);
      assert Enabled(run[j - 1], actions[j - 1]) && run[j] == Apply(run[j - 1], actions[j - 1]);
    }
  }

  // ---- How long a session lives ----

  /** A logout, a 2FA disable or a detected reuse of the user. */
  ghost predicate Bumps(s: State, a: Action, u: User)
    requires Enabled(s, a)
  {
    a == Bump(u) || (a.BumpReplayed? && s.handlers[a.h] == Replayed(u))
  }

  lemma EpochStep(s: State, a: Action, u: User)
    requires Enabled(s, a) && u in Apply(s, a).epoch
    ensures u in s.epoch
    ensures Apply(s, a).epoch[u] == s.epoch[u] + if Bumps(s, a, u) then 1 else 0
  {
    hide ConsumeStore, ConsumeResult, RefreshJtiTtlMs;
  }

  lemma {:induction false} EpochStays(run: seq<State>, actions: seq<Action>, u: User, i: nat, j: nat)
    requires IsRun(run, actions) && i <= j <= |actions| && u in run[j].epoch
    ensures u in run[i].epoch
    ensures run[i].epoch[u] == run[j].epoch[u] <==>
            forall m :: i <= m < j ==> Enabled(run[m], actions[m]) && !Bumps(run[m], actions[m], u)
    decreases j
  {
    hide Apply, Enabled, Bumps, Init;
    EpochsOnlyGrow(run, actions, u, i, j);
    if i < j {
      var s, a := run[j - 1], actions[j - 1];
      assert Enabled(s, a) && run[j] == Apply(s, a);
      EpochStep(s, a, u);
      EpochStays(run, actions, u, i, j - 1);
      EpochsOnlyGrow(run, actions, u, i, j - 1);
    }
  }

  lemma {:induction false} StaysSigning(run: seq<State>, actions: seq<Action>, h: nat, u: User, tv: int, i: nat, k: nat)
    requires IsRun(run, actions) && i <= k <= |actions|
    requires h in run[i].handlers && run[i].handlers[h] == Signing(u, tv)
    requires forall m :: i <= m < k ==> actions[m] != SignAccess(h)
    ensures h in run[k].handlers && run[k].handlers[h] == Signing(u, tv)
    decreases k
  {
    if i < k {
      StaysSigning(run, actions, h, u, tv, i, k - 1);
      assert Enabled(run[k - 1], actions[k - 1]) && run[k] == Apply(run[k - 1], actions[k - 1]);
    }
  }

  /** The access token of a session is valid from then on exactly until the user is removed or the
      epoch bumped, counted from the moment the session began, however late it was signed. */
  lemma SessionLivesUntilBump(run: seq<State>, actions: seq<Action>, h: nat, u: User, i: nat, k: nat, j: nat)
    requires IsRun(run, actions) && i < k < j < |actions|
    requires actions[i] == StartSession(h, u) && actions[k] == SignAccess(h)
    requires forall m :: i < m < k ==> actions[m] != SignAccess(h)
    ensures u in run[i].epoch && Access(u, run[i].epoch[u]) in run[k + 1].issued
    ensures actions[j] == ValidateAccess(Access(u, run[i].epoch[u])) ==>
              (Accepts(run[j], actions[j]) == Some(Access(u, run[i].epoch[u])) <==>
                 u in run[j].epoch
                 && forall m :: i <= m < j ==> Enabled(run[m], actions[m]) && !Bumps(run[m], actions[m], u))
  {
    assert Enabled(run[i], actions[i]) && run[i + 1] == Apply(run[i], actions[i]);
    StaysSigning(run, actions, h, u, run[i].epoch[u], i + 1, k);
    assert Enabled(run[k], actions[k]) && run[k + 1] == Apply(run[k], actions[k]);
    if u in run[j].epoch {
      EpochStays(run, actions, u, i, j);
    }
  }

  lemma Extend(run: seq<State>, actions: seq<Action>, a: Action)
    requires IsRun(run, actions) && Enabled(run[|actions|], a)
    ensures IsRun(run + [Apply(run[|actions|], a)], actions + [a])
  {
  }

  /** A session is opened for `u`, which issues a refresh token. */
  lemma TokenIssued(s: State, u: User, jti: Jti, exp: int) returns (run: seq<State>, actions: seq<Action>)
    requires Init(s) && u in s.epoch
    ensures IsRun(run, actions) && run[0] == s
    ensures var last := run[|actions|];
            && last.now == s.now && last.redis == map[] && last.rotations == [] && last.handlers == map[]
            && last.epoch == s.epoch && Refresh(u, s.epoch[u], jti, exp) in last.issued
  {
    var s1 := Apply(s, StartSession(0, u));
    Extend([s], [], StartSession(0, u));
    run, actions := [s] + [s1], [] + [StartSession(0, u)];
    var s2 := Apply(s1, SignAccess(0));
    Extend(run, actions, SignAccess(0));
    run, actions := run + [s2], actions + [SignAccess(0)];
    var s3 := Apply(s2, SignRefresh(0, jti, exp));
    Extend(run, actions, SignRefresh(0, jti, exp));
    run, actions := run + [s3], actions + [SignRefresh(0, jti, exp)];
    assert s3.handlers == map[];
  }

  /** And handlers 1 and 2 both read it before it expires. */
  lemma TwoReaders(s: State, u: User, jti: Jti, exp: int) returns (run: seq<State>, actions: seq<Action>)
    requires Init(s) && u in s.epoch && s.now < exp * 1000
    ensures IsRun(run, actions) && run[0] == s
    ensures var t, last := Refresh(u, s.epoch[u], jti, exp), run[|actions|];
            && last.now == s.now && last.redis == map[] && last.rotations == []
            && last.handlers == map[1 := UserRead(t, s.now), 2 := UserRead(t, s.now)]
  {
    var t := Refresh(u, s.epoch[u], jti, exp);
    run, actions := TokenIssued(s, u, jti, exp);
    var s4 := Apply(run[|actions|], VerifyRefresh(1, t));
    Extend(run, actions, VerifyRefresh(1, t));
    run, actions := run + [s4], actions + [VerifyRefresh(1, t)];
    var s5 := Apply(s4, VerifyRefresh(2, t));
    Extend(run, actions, VerifyRefresh(2, t));
    run, actions := run + [s5], actions + [VerifyRefresh(2, t)];
    var s6 := Apply(s5, ReadUser(1));
    Extend(run, actions, ReadUser(1));
    run, actions := run + [s6], actions + [ReadUser(1)];
    var s7 := Apply(s6, ReadUser(2));
    Extend(run, actions, ReadUser(2));
    run, actions := run + [s7], actions + [ReadUser(2)];
  }

  /** The bound is exact: from the start two handlers can read a token at once, the first redeem it
      then or at any later time, and the second as soon as the first one's mark has run out or at any
      time after. For a first redemption at the reading that is the bound itself. */
  lemma HandlersRedeemTwice(s: State, u: User, jti: Jti, exp: int, first: int, second: int)
      returns (run: seq<State>, actions: seq<Action>)
    requires Init(s) && u in s.epoch && s.now < exp * 1000
    requires s.now <= first && first + Max(exp * 1000 - s.now, 1_000) <= second
    ensures IsRun(run, actions) && run[0] == s
    ensures run[|actions|].rotations == [Rotation(jti, exp, first), Rotation(jti, exp, second)]
    ensures first == s.now ==> first + Max(exp * 1000 - s.now, 1_000) == Max(exp * 1000, first + 1_000)
  {
    run, actions := TwoReaders(s, u, jti, exp);
    var s0 := run[|actions|];
    var s1 := Apply(s0, Tick(first));
    Extend(run, actions, Tick(first));
    run, actions := run + [s1], actions + [Tick(first)];
    var s2 := Apply(s1, Consume(1, true));
    Extend(run, actions, Consume(1, true));
    run, actions := run + [s2], actions + [Consume(1, true)];
    var s3 := Apply(s2, Tick(second));
    Extend(run, actions, Tick(second));
    run, actions := run + [s3], actions + [Tick(second)];
    var s4 := Apply(s3, Consume(2, true));
    Extend(run, actions, Consume(2, true));
    run, actions := run + [s4], actions + [Consume(2, true)];
  }
}
