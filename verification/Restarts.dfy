/** What a restart changes of the license verdict, over every order in which updates land. */
module Restarts {
  // Memory applies a success or a key reset when it is recorded, the installation row when its update
  // lands, and a restart replaces the one by the other
  // (apps/control-plane/src/common/licensing/entitlements.service.ts).

  import opened Text
  import opened Activation

  // ---- Memory and row as two copies of the same dates ----

  /** The row that would hold exactly the timestamps in memory. */
  function MemoryRow(m: Memory): Row {
    Row(m.baselineAt, if m.lastOkAt > 0 then Some(m.lastOkAt) else None)
  }

  ghost predicate Synced(s: State) {
    s.row == MemoryRow(s.mem)
  }

  ghost predicate Dated(s: State) {
    && 0 < s.now && 0 <= s.mem.lastOkAt
    && (s.row.lastOk.Some? ==> s.row.lastOk.value > 0)
    && (forall id :: id in s.pending ==> s.pending[id].at > 0)
  }

  lemma StepKeepsDated(c: Config, s: State, a: Action)
    requires Dated(s) && Enabled(s, a)
    ensures Dated(Apply(c, s, a))
  {
    hide CacheHit, Effective;
  }

  lemma {:induction false} RunKeepsDated(c: Config, run: seq<State>, actions: seq<Action>, i: nat)
    requires IsRun(c, run, actions) && i < |run|
    ensures Dated(run[i])
  {
    hide Apply;
    if i > 0 {
      RunKeepsDated(c, run, actions, i - 1);
      StepKeepsDated(c, run[i - 1], actions[i - 1]);
    }
  }

  /** An update that lands leaves the row in step exactly when it carries the date memory goes by,
      and a success only onto the baseline in memory. */
  lemma LandingSyncs(c: Config, s: State, id: nat)
    requires Dated(s) && id in s.pending
    ensures s.pending[id].Success? ==>
              (Synced(Apply(c, s, Land(id))) <==>
                 s.pending[id].at == s.mem.lastOkAt && s.row.baseline == s.mem.baselineAt)
    ensures s.pending[id].NewBaseline? ==>
              (Synced(Apply(c, s, Land(id))) <==> s.pending[id].at == s.mem.baselineAt && s.mem.lastOkAt == 0)
  {
  }

  // ---- Landing orders ----

  ghost predicate IsLanding(order: seq<nat>, pending: map<nat, Update>) {
    && (forall i, j :: 0 <= i < j < |order| ==> order[i] != order[j])
    && forall id :: id in order <==> id in pending
  }

  function RowAfter(row: Row, order: seq<nat>, pending: map<nat, Update>): Row
    requires forall id :: id in order ==> id in pending
  {
    if order == [] then row
    else
      assert order[|order| - 1] in order;
      Effect(RowAfter(row, order[..|order| - 1], pending), pending[order[|order| - 1]])
  }

  /** In whatever order the pending updates land, the row ends in step. */
  ghost predicate EndsInStep(s: State) {
    forall order :: IsLanding(order, s.pending) ==> RowAfter(s.row, order, s.pending) == MemoryRow(s.mem)
  }

  /** Any one of the pending updates alone would bring the row in step. */
  ghost predicate Orderly(s: State) {
    if s.pending == map[] then Synced(s)
    else forall id :: id in s.pending ==> Effect(s.row, s.pending[id]) == MemoryRow(s.mem)
  }

  lemma {:induction false} LandingOf(ids: set<nat>) returns (order: seq<nat>)
    ensures (forall i, j :: 0 <= i < j < |order| ==> order[i] != order[j]) && forall id :: id in order <==> id in ids
  {
    order := [];
    if ids != {} {
      var id :| id in ids;
      var rest := LandingOf(ids - {id});
      order := rest + [id];
    }
  }

  /** An order in which update `id` lands last. */
  lemma LandsLast(s: State, id: nat) returns (order: seq<nat>)
    requires id in s.pending
    ensures IsLanding(order + [id], s.pending)
    ensures RowAfter(s.row, order + [id], s.pending) == Effect(RowAfter(s.row, order, s.pending), s.pending[id])
  {
    order := LandingOf(s.pending.Keys - {id});
    assert (order + [id])[..|order|] == order;
  }

  /** Equal updates do together what one of them does. */
  lemma {:induction false} EqualUpdatesLand(row: Row, order: seq<nat>, pending: map<nat, Update>, u: Update)
    requires order != [] && forall id :: id in order ==> id in pending && pending[id] == u
    ensures RowAfter(row, order, pending) == Effect(row, u)
  {
    var n := |order| - 1;
    assert order[n] in order && forall id :: id in order[..n] ==> id in order;
    if n > 0 {
      EqualUpdatesLand(row, order[..n], pending, u);
    }
  }

  /** Different updates leave different rows, on whatever rows they land. */
  lemma EffectsDiffer(r: Row, u: Update, r': Row, u': Update)
    requires u != u'
    ensures Effect(r, u) != Effect(r', u')
  {
  }

  lemma EndsInStepIsOrderly(s: State)
    ensures EndsInStep(s) <==> Orderly(s)
  {
    hide Effect;
    if EndsInStep(s) {
      InStepIsOrderly(s);
    }
    if Orderly(s) {
      OrderlyIsInStep(s);
    }
  }

  lemma InStepIsOrderly(s: State)
    requires EndsInStep(s)
    ensures Orderly(s)
  {
    hide Effect;
    if s.pending == map[] {
      assert IsLanding([], s.pending);
    } else {
      forall id | id in s.pending
        ensures Effect(s.row, s.pending[id]) == MemoryRow(s.mem)
      {
        var order := LandsLast(s, id);
        forall other | other in s.pending
          ensures s.pending[other] == s.pending[id]
        {
          if s.pending[other] != s.pending[id] {
            var order' := LandsLast(s, other);
            EffectsDiffer(RowAfter(s.row, order, s.pending), s.pending[id],
                          RowAfter(s.row, order', s.pending), s.pending[other]);
          }
        }
        EqualUpdatesLand(s.row, order + [id], s.pending, s.pending[id]);
      }
    }
  }

  lemma OrderlyIsInStep(s: State)
    requires Orderly(s)
    ensures EndsInStep(s)
  {
    hide Effect;
    forall order | IsLanding(order, s.pending)
      ensures RowAfter(s.row, order, s.pending) == MemoryRow(s.mem)
    {
      if order != [] {
        var u := s.pending[order[0]];
        assert order[0] in order;
        forall id | id in order ensures id in s.pending && s.pending[id] == u {
          if s.pending[id] != u {
            EffectsDiffer(s.row, u, s.row, s.pending[id]);
          }
        }
        EqualUpdatesLand(s.row, order, s.pending, u);
      } else {
        assert forall id :: id !in s.pending;
      }
    }
  }

  /** Nothing is recorded while a different update is pending, no process dies with an update pending
      that would still change the row, and no such update is lost. */
  ghost predicate InTurn(s: State, a: Action)
    requires Enabled(s, a)
  {
    match a
    case HeartbeatOk(_) => forall id :: id in s.pending ==> s.pending[id] == Success(s.now)
    case ResetKey(_) => forall id :: id in s.pending ==> s.pending[id] == NewBaseline(s.now)
    case Restart => forall id :: id in s.pending ==> Effect(s.row, s.pending[id]) == s.row
    case Drop(id) =>
      || Effect(s.row, s.pending[id]) == s.row
      || exists k :: k in s.pending && k != id && s.pending[k] == s.pending[id]
    case _ => true
  }

  lemma StepKeepsOrderly(c: Config, s: State, a: Action)
    requires Dated(s) && Enabled(s, a) && Orderly(s)
    ensures Orderly(Apply(c, s, a)) <==> InTurn(s, a)
  {
    hide CacheHit, Effective;
    var s' := Apply(c, s, a);
    match a
    case HeartbeatOk(id) =>
      assert s'.pending[id] == Success(s.now);
      assert forall k :: k in s.pending ==> s'.pending[k] == s.pending[k];
    case ResetKey(id) =>
      assert s'.pending[id] == NewBaseline(s.now);
      assert forall k :: k in s.pending ==> s'.pending[k] == s.pending[k];
    case Land(id) =>
      assert forall k :: k in s.pending ==> s.pending[k] == s.pending[id] by {
        forall k | k in s.pending ensures s.pending[k] == s.pending[id] {
          if s.pending[k] != s.pending[id] {
            EffectsDiffer(s.row, s.pending[k], s.row, s.pending[id]);
          }
        }
      }
    case Drop(id) => DropKeepsOrderly(c, s, id);
    case _ =>
  }

  lemma DropKeepsOrderly(c: Config, s: State, id: nat)
    requires Dated(s) && Enabled(s, Drop(id)) && Orderly(s)
    ensures Orderly(Apply(c, s, Drop(id))) <==> InTurn(s, Drop(id))
  {
    hide Effect;
    var s' := Apply(c, s, Drop(id));
    assert forall k :: k in s'.pending <==> k in s.pending && k != id;
    if k :| k in s'.pending {
      assert Effect(s.row, s.pending[k]) == Effect(s.row, s.pending[id]);
      if s.pending[k] != s.pending[id] {
        EffectsDiffer(s.row, s.pending[k], s.row, s.pending[id]);
      }
    } else {
      assert s'.pending == map[];
    }
  }

  /** Over every run: at each of its first moments every landing order would end in step exactly when
      every step so far was in its turn. */
  lemma {:induction false} InStepExactly(c: Config, run: seq<State>, actions: seq<Action>, n: nat)
    requires IsRun(c, run, actions) && n <= |actions|
    ensures (forall i :: 0 <= i <= n ==> EndsInStep(run[i])) <==>
            (forall i :: 0 <= i < n ==> InTurn(run[i], actions[i]))
  {
    hide EndsInStep, Orderly, InTurn, Enabled, Apply;
    EndsInStepIsOrderly(run[n]);
    if n == 0 {
      StartsOrderly(run[0]);
    } else {
      InStepExactly(c, run, actions, n - 1);
      RunKeepsDated(c, run, actions, n - 1);
      EndsInStepIsOrderly(run[n - 1]);
      if EndsInStep(run[n - 1]) {
        StepKeepsOrderly(c, run[n - 1], actions[n - 1]);
      }
    }
  }

  lemma StartsOrderly(s: State)
    requires Init(s)
    ensures Orderly(s)
  {
  }

  // ---- Restarts ----

  /** The date the grace window in memory is measured from. */
  function MemoryDate(m: Memory): int {
    if m.lastOkAt > 0 then m.lastOkAt else m.baselineAt
  }

  function RowDate(row: Row): int {
    if row.lastOk.Some? then row.lastOk.value else row.baseline
  }

  /** When the success or reset that sent update `id` last was recorded. */
  ghost function SentDate(run: seq<State>, actions: seq<Action>, i: nat, id: nat): int
    requires |run| == |actions| + 1 && i <= |actions|
  {
    if i == 0 then run[0].now
    else if actions[i - 1] in {HeartbeatOk(id), ResetKey(id)} then run[i - 1].now
    else SentDate(run, actions, i - 1, id)
  }

  /** When the one whose update landed last was recorded; the first start if none landed. */
  ghost function LandedDate(run: seq<State>, actions: seq<Action>, i: nat): int
    requires |run| == |actions| + 1 && i <= |actions|
  {
    if i == 0 then run[0].now
    else if actions[i - 1].Land? then SentDate(run, actions, i - 1, actions[i - 1].id)
    else LandedDate(run, actions, i - 1)
  }

  lemma {:induction false} PendingDates(c: Config, run: seq<State>, actions: seq<Action>, i: nat, id: nat)
    requires IsRun(c, run, actions) && i <= |actions| && id in run[i].pending
    ensures run[i].pending[id].at == SentDate(run, actions, i, id)
  {
    hide CacheHit, Effective;
    assert i > 0 ==> Enabled(run[i - 1], actions[i - 1]) && run[i] == Apply(c, run[i - 1], actions[i - 1]);
    if i > 0 && actions[i - 1] !in {HeartbeatOk(id), ResetKey(id)} {
      PendingDates(c, run, actions, i - 1, id);
    }
  }

  /** The last success or reset the running process recorded; what had landed when it started if it
      recorded none. */
  ghost function RecordedDate(run: seq<State>, actions: seq<Action>, i: nat): int
    requires |run| == |actions| + 1 && i <= |actions|
  {
    if i == 0 then run[0].now
    else if actions[i - 1].HeartbeatOk? || actions[i - 1].ResetKey? then run[i - 1].now
    else if actions[i - 1].Restart? then LandedDate(run, actions, i - 1)
    else RecordedDate(run, actions, i - 1)
  }

  lemma StepDates(c: Config, s: State, a: Action)
    requires Dated(s) && Enabled(s, a)
    ensures var s' := Apply(c, s, a);
            && RowDate(s'.row) == (if a.Land? then s.pending[a.id].at else RowDate(s.row))
            && MemoryDate(s'.mem) == (if a.HeartbeatOk? || a.ResetKey? then s.now
                                      else if a.Restart? then RowDate(s.row) else MemoryDate(s.mem))
  {
    hide CacheHit, Effective;
  }

  lemma EnabledHere(c: Config, run: seq<State>, actions: seq<Action>, i: nat)
    requires IsRun(c, run, actions) && i < |actions|
    ensures Enabled(run[i], actions[i]) && (actions[i].Land? ==> actions[i].id in run[i].pending)
  {
  }

  /** Memory goes by the date last recorded, and the row by the date that landed last. */
  lemma {:induction false} DatesOfRun(c: Config, run: seq<State>, actions: seq<Action>, i: nat)
    requires IsRun(c, run, actions) && i <= |actions|
    ensures RowDate(run[i].row) == LandedDate(run, actions, i)
    ensures MemoryDate(run[i].mem) == RecordedDate(run, actions, i)
  {
    hide Apply, Enabled;
    if i > 0 {
      DatesOfRun(c, run, actions, i - 1);
      RunKeepsDated(c, run, actions, i - 1);
      StepDates(c, run[i - 1], actions[i - 1]);
      assert run[i] == Apply(c, run[i - 1], actions[i - 1]);
      if actions[i - 1].Land? {
        EnabledHere(c, run, actions, i - 1);
        PendingDates(c, run, actions, i - 1, actions[i - 1].id);
      }
    }
  }

  /** The verdict on activation at time `t`, and the one after a restart at `t`. */
  predicate OkAt(c: Config, s: State, t: int) {
    ActivationOk(s.mem, t, c.maxAgeMs)
  }

  predicate OkAfterRestart(c: Config, s: State, t: int)
    requires s.now <= t
  {
    ActivationOk(Apply(c, Apply(c, s, Tick(t)), Restart).mem, t, c.maxAgeMs)
  }

  /** Over every run, whatever updates are pending, lost or landed out of order: a restart changes the
      verdict exactly when it forgets a definitive denial within the window of the date that landed
      last, or, with no denial, when that window and the one of the date last recorded disagree. */
  lemma RestartChangesVerdict(c: Config, run: seq<State>, actions: seq<Action>, n: nat, t: int)
    requires IsRun(c, run, actions) && n <= |actions| && run[n].now <= t
    ensures var landed, recorded := LandedDate(run, actions, n), RecordedDate(run, actions, n);
            && (OkAfterRestart(c, run[n], t) <==> t < landed + c.maxAgeMs)
            && (OkAt(c, run[n], t) <==> !Denied(run[n].mem) && t < recorded + c.maxAgeMs)
            && (OkAfterRestart(c, run[n], t) != OkAt(c, run[n], t) <==>
                  if Denied(run[n].mem) then t < landed + c.maxAgeMs
                  else (t < landed + c.maxAgeMs) != (t < recorded + c.maxAgeMs))
  {
    DatesOfRun(c, run, actions, n);
    RunKeepsDated(c, run, actions, n);
  }

  /** So from any moment on a restart changes the verdict only by forgetting a denial exactly when
      there is one, or the two dates agree, or both windows have passed. */
  lemma RestartForgetsOnlyDenials(c: Config, run: seq<State>, actions: seq<Action>, n: nat)
    requires IsRun(c, run, actions) && n <= |actions|
    ensures var landed, recorded := LandedDate(run, actions, n), RecordedDate(run, actions, n);
            (forall t ::
               run[n].now <= t && OkAfterRestart(c, run[n], t) != OkAt(c, run[n], t) ==> Denied(run[n].mem)) <==>
              (Denied(run[n].mem) || landed == recorded || Max(landed, recorded) + c.maxAgeMs <= run[n].now)
  {
    hide OkAt, OkAfterRestart;
    var landed, recorded, now := LandedDate(run, actions, n), RecordedDate(run, actions, n), run[n].now;
    forall t | now <= t
      ensures OkAfterRestart(c, run[n], t) <==> t < landed + c.maxAgeMs
      ensures OkAt(c, run[n], t) <==> !Denied(run[n].mem) && t < recorded + c.maxAgeMs
    {
      RestartChangesVerdict(c, run, actions, n, t);
    }
    // The first time at which one of the windows has passed.
    var first := Max(now, (if landed < recorded then landed else recorded) + c.maxAgeMs);
    assert now <= first;
    assert OkAt(c, run[n], first) <==> !Denied(run[n].mem) && first < recorded + c.maxAgeMs;
  }

  function Max(a: int, b: int): int {
    if a >= b then a else b
  }

  /** In turn and with nothing pending, the two dates do agree. */
  lemma InTurnDatesAgree(c: Config, run: seq<State>, actions: seq<Action>, n: nat)
    requires IsRun(c, run, actions) && n <= |actions| && run[n].pending == map[]
    requires forall i :: 0 <= i < n ==> InTurn(run[i], actions[i])
    ensures Synced(run[n]) && LandedDate(run, actions, n) == RecordedDate(run, actions, n)
  {
    InStepExactly(c, run, actions, n);
    EndsInStepIsOrderly(run[n]);
    DatesOfRun(c, run, actions, n);
    RunKeepsDated(c, run, actions, n);
    hide Enabled, Apply, InTurn, EndsInStep;
  }

  // ---- The verdict from the history ----

  /** A heartbeat's answer, a key reset or a restart. */
  predicate DecidesDenial(a: Action) {
    a.HeartbeatOk? || a.HeartbeatFailed? || a.HeartbeatWithoutKey? || a.ResetKey? || a.Restart?
  }

  /** Action `k` is the last of those before step `i`, and it is a definitive refusal. */
  predicate DeniedSince(actions: seq<Action>, i: nat, k: int)
    requires i <= |actions|
  {
    && 0 <= k < i && actions[k].HeartbeatFailed?
    && actions[k].reason in {Revoked, RejectedKey, ExpiredKey, SeatLimit, Http(401), Http(403)}
    && forall m :: k < m < i ==> !DecidesDenial(actions[m])
  }

  ghost predicate DeniedBy(actions: seq<Action>, i: nat)
    requires i <= |actions|
  {
    exists k :: DeniedSince(actions, i, k)
  }

  lemma StepDenial(c: Config, s: State, a: Action)
    requires Enabled(s, a)
    ensures Denied(Apply(c, s, a).mem) <==>
            if DecidesDenial(a)
            then a.HeartbeatFailed? && a.reason in {Revoked, RejectedKey, ExpiredKey, SeatLimit, Http(401), Http(403)}
            else Denied(s.mem)
  {
    hide CacheHit, Effective;
  }

  /** Over every run an installation is denied exactly when the last heartbeat's answer, key reset or
      restart was a definitive refusal: a success, a transient failure, a new key and a restart lift it. */
  lemma {:induction false} DeniedExactly(c: Config, run: seq<State>, actions: seq<Action>, i: nat)
    requires IsRun(c, run, actions) && i <= |actions|
    ensures Denied(run[i].mem) <==> DeniedBy(actions, i)
  {
    hide Apply, Enabled, Denied;
    if i == 0 {
      StartsUndenied(run[0]);
    } else {
      DeniedExactly(c, run, actions, i - 1);
      StepDenial(c, run[i - 1], actions[i - 1]);
      if DecidesDenial(actions[i - 1]) {
        assert DeniedBy(actions, i) <==> DeniedSince(actions, i, i - 1);
      } else {
        var n := i - 1;
        if k :| DeniedSince(actions, n, k) {
          assert DeniedSince(actions, i, k);
        }
        if k :| DeniedSince(actions, i, k) {
          assert DeniedSince(actions, n, k);
        }
      }
    }
  }

  lemma StartsUndenied(s: State)
    requires Init(s)
    ensures !Denied(s.mem)
  {
  }

  /** The key a call of `get` has read stays its key until it answers. */
  lemma {:induction false} KeyIsKept(c: Config, run: seq<State>, actions: seq<Action>, h: nat, r: nat, i: nat)
    requires IsRun(c, run, actions) && r < i <= |actions| && actions[r] == ReadKey(h)
    requires forall m :: r < m < i ==> actions[m] != FinishGet(h) && !actions[m].Restart?
    ensures h in run[i].gets && run[i].gets[h].KeyRead? && run[i].gets[h].key == run[r].key
    decreases i
  {
    hide CacheHit, Effective;
    assert Enabled(run[i - 1], actions[i - 1]) && run[i] == Apply(c, run[i - 1], actions[i - 1]);
    if r < i - 1 {
      KeyIsKept(c, run, actions, h, r, i - 1);
    }
  }

  /** When a resolved answer to a paid key is licensed, from the history alone: the key read is
      unexpired, no definitive refusal stands, and the window of the date last recorded is open. It then
      grants the tier's and the key's modules and the tier's limits. */
  lemma PaidAnswerExactly(c: Config, run: seq<State>, actions: seq<Action>, h: nat, r: nat, i: nat)
    requires IsRun(c, run, actions) && r < i < |actions| && actions[r] == ReadKey(h) && actions[i] == FinishGet(h)
    requires forall m :: r < m < i ==> actions[m] != FinishGet(h) && !actions[m].Restart?
    requires run[r].key.Some? && run[r].key.value.tier != Free
    ensures Answer(c, run[i], actions[i]).Some?
    ensures var p, e := run[r].key.value, Answer(c, run[i], actions[i]).value;
            && (e.licensed <==>
                  && (p.exp <= 0 || run[i].now / 1000 <= p.exp)
                  && !DeniedBy(actions, i) && run[i].now < RecordedDate(run, actions, i) + c.maxAgeMs)
            && (e.licensed ==>
                  && e.tier == p.tier && e.limits == TierLimits(p.tier)
                  && (forall m :: m in e.modules <==> m in TierModules(p.tier) || m in p.modules))
            && (!e.licensed ==> e.modules == {} && e.limits == TierLimits(Free))
  {
    KeyIsKept(c, run, actions, h, r, i);
    DeniedExactly(c, run, actions, i);
    DatesOfRun(c, run, actions, i);
    RunKeepsDated(c, run, actions, i);
    hide DeniedBy, TierModules;
  }

  /** What drops the cache, or replaces it. */
  predicate MayDropCache(a: Action) {
    || a.HeartbeatFailed? || a.HeartbeatWithoutKey? || a.ResetKey? || a.Restart? || a.Land? || a.Drop?
    || a.FinishGet?
  }

  /** The cache is dropped by a refused heartbeat, by one without a key, by a key reset, by a restart,
      and when an accepted heartbeat of this process has waited for its update; by nothing else. */
  lemma CacheDrops(c: Config, s: State, a: Action)
    requires Enabled(s, a) && s.mem.cache.Some? && !a.FinishGet?
    ensures Apply(c, s, a).mem.cache ==
            if || a.HeartbeatFailed? || a.HeartbeatWithoutKey? || a.ResetKey? || a.Restart?
               || ((a.Land? || a.Drop?) && a.id in s.mine && s.pending[a.id].Success?)
            then None else s.mem.cache
  {
  }

  lemma {:induction false} CacheStays(c: Config, run: seq<State>, actions: seq<Action>, i: nat, j: nat)
    requires IsRun(c, run, actions) && i <= j <= |actions|
    requires forall m :: i <= m < j ==> !MayDropCache(actions[m])
    ensures run[j].mem.cache == run[i].mem.cache && run[j].mem.cachedAt == run[i].mem.cachedAt
    decreases j
  {
    hide CacheHit, Effective;
    if i < j {
      CacheStays(c, run, actions, i, j - 1);
      assert Enabled(run[j - 1], actions[j - 1]) && run[j] == Apply(c, run[j - 1], actions[j - 1]);
    }
  }

  /** An answer is repeated to every unforced call within the cache lifetime of the call that resolved
      it, and to no other, while nothing drops it. */
  lemma AnswerRepeats(c: Config, run: seq<State>, actions: seq<Action>, i: nat, j: nat)
    requires IsRun(c, run, actions) && i < j < |actions| && actions[i].FinishGet? && actions[j].BeginGet?
    requires forall m :: i < m < j ==> !MayDropCache(actions[m])
    ensures actions[i].h in run[i].gets
    ensures Answer(c, run[j], actions[j]) ==
            if !actions[j].force && run[j].now < run[i].gets[actions[i].h].at + c.ttlMs
            then Answer(c, run[i], actions[i]) else None
  {
    hide Effective;
    assert Enabled(run[i], actions[i]) && run[i + 1] == Apply(c, run[i], actions[i]);
    CacheStays(c, run, actions, i + 1, j);
  }

  // ---- Runs in which a restart locks early ----

  function Played(c: Config, s: State, actions: seq<Action>): Option<State>
    decreases actions
  {
    if actions == [] then Some(s)
    else if Enabled(s, actions[0]) then Played(c, Apply(c, s, actions[0]), actions[1..])
    else None
  }

  lemma PlayStep(c: Config, s: State, a: Action, more: seq<Action>)
    requires Enabled(s, a)
    ensures Played(c, s, [a] + more) == Played(c, Apply(c, s, a), more)
  {
    assert ([a] + more)[1..] == more;
  }

  /** A success or a key reset. */
  function Record(success: bool, id: nat): Action {
    if success then HeartbeatOk(id) else ResetKey(id)
  }

  /** Two records from the first start on, whose updates land in the wrong order. */
  function WrongOrder(first: bool, second: bool, later: int): seq<Action> {
    [Record(first, 0)] + ([Tick(later)] + ([Record(second, 1)] + ([Land(1)] + ([Land(0)] + []))))
  }

  /** A success whose update has not landed. */
  function Unlanded(later: int): seq<Action> {
    [Tick(later)] + ([HeartbeatOk(0)] + [])
  }

  ghost predicate LocksEarly(c: Config, s: State, t: int) {
    s.now <= t && !Denied(s.mem) && OkAt(c, s, t) && !OkAfterRestart(c, s, t)
  }

  /** Whichever two they are, and for one that a restart overtakes, the restart locks a plan that
      memory holds activated, from the older window's end to the newer one's. */
  lemma OverlappingWritesDesync(c: Config, s: State, first: bool, second: bool, later: int, t: int)
    requires Init(s) && c.maxAgeMs > 0 && s.now < later <= t && s.now + c.maxAgeMs <= t < later + c.maxAgeMs
    ensures var s' := Played(c, s, WrongOrder(first, second, later));
            s'.Some? && s'.value.pending == map[] && !Synced(s'.value) && LocksEarly(c, s'.value, t)
    ensures var s' := Played(c, s, Unlanded(later)); s'.Some? && LocksEarly(c, s'.value, t)
  {
    hide Played;
    PlayWrongOrder(c, s, first, second, later);
    PlayUnlanded(c, s, later);
  }

  lemma PlayWrongOrder(c: Config, s: State, first: bool, second: bool, later: int)
    requires Init(s) && s.now < later
    ensures var s' := Played(c, s, WrongOrder(first, second, later));
            && s'.Some? && s'.value.pending == map[] && s'.value.now == later && !Denied(s'.value.mem)
            && RowDate(s'.value.row) == s.now && MemoryDate(s'.value.mem) == later
  {
    hide Played, Effective, CacheHit;
    var a1, a2, a3 := Record(first, 0), Tick(later), Record(second, 1);
    var s1 := Apply(c, s, a1);
    PlayStep(c, s, a1, [a2] + ([a3] + ([Land(1)] + ([Land(0)] + []))));
    var s2 := Apply(c, s1, a2);
    PlayStep(c, s1, a2, [a3] + ([Land(1)] + ([Land(0)] + [])));
    var s3 := Apply(c, s2, a3);
    PlayStep(c, s2, a3, [Land(1)] + ([Land(0)] + []));
    var s4 := Apply(c, s3, Land(1));
    PlayStep(c, s3, Land(1), [Land(0)] + []);
    var s5 := Apply(c, s4, Land(0));
    PlayStep(c, s4, Land(0), []);
    assert s5.pending == map[];
    PlayNothing(c, s5);
  }

  lemma PlayNothing(c: Config, s: State)
    ensures Played(c, s, []) == Some(s)
  {
  }

  lemma PlayUnlanded(c: Config, s: State, later: int)
    requires s.now <= later && s.pending == map[]
    ensures Played(c, s, Unlanded(later)) == Some(Apply(c, Apply(c, s, Tick(later)), HeartbeatOk(0)))
  {
    hide Played;
    PlayStep(c, s, Tick(later), [HeartbeatOk(0)] + []);
    PlayStep(c, Apply(c, s, Tick(later)), HeartbeatOk(0), []);
    PlayNothing(c, Apply(c, Apply(c, s, Tick(later)), HeartbeatOk(0)));
  }
}
