/** Online license activation: grace window, definitive denials and the entitlement cache. */
module Activation {
  // The service of apps/control-plane/src/common/licensing/entitlements.service.ts with
  // `entitlementsFromKey` of apps/control-plane/src/common/licensing/license.ts.

  import opened Text

  // ---- Keys and entitlements ----

  datatype Tier = Free | HomeLab | Pro

  /** The signed payload of a key that verifies; `exp` is in seconds, 0 or less for perpetual. */
  datatype Payload = Payload(tier: Tier, modules: set<string>, exp: int)

  datatype Limits = Limits(maxNodes: Option<nat>, maxTunnels: Option<nat>)

  datatype Entitlements = Entitlements(
    tier: Tier, modules: set<string>, limits: Limits, expiresAt: Option<int>, licensed: bool)

  function TierModules(t: Tier): set<string> {
    match t
    case Free => {}
    case HomeLab => {"reverse-tunnels", "service-cron"}
    case Pro => {"reverse-tunnels", "service-cron", "preview-envs", "offsite-backups", "alerts",
                 "metrics-history", "sso", "audit-export", "api-cli", "white-label", "email"}
  }

  function TierLimits(t: Tier): Limits {
    match t
    case Free => Limits(Some(1), Some(0))
    case HomeLab => Limits(Some(3), Some(3))
    case Pro => Limits(None, None)
  }

  const FREE_ENTITLEMENTS := Entitlements(Free, {}, TierLimits(Free), None, false)

  /** `key` is None for a missing, malformed or wrongly signed key. */
  function EntitlementsFromKey(key: Option<Payload>, now: int): Entitlements {
    match key
    case None => FREE_ENTITLEMENTS
    case Some(p) =>
      if p.exp > 0 && p.exp < now / 1000 then FREE_ENTITLEMENTS
      else Entitlements(p.tier, TierModules(p.tier) + p.modules, TierLimits(p.tier),
                        if p.exp > 0 then Some(p.exp) else None, p.tier != Free)
  }

  predicate AtMostLimit(a: Option<nat>, b: Option<nat>) {
    b.None? || (a.Some? && a.value <= b.value)
  }

  /** Each tier has the modules of the one below and no lower limits; the Free tier has one node, no
      tunnels and no modules, and the Pro tier no limits. */
  lemma TiersAreNested()
    ensures TierModules(Free) == {} && TierModules(Free) < TierModules(HomeLab) < TierModules(Pro)
    ensures AtMostLimit(TierLimits(Free).maxNodes, TierLimits(HomeLab).maxNodes)
    ensures AtMostLimit(TierLimits(Free).maxTunnels, TierLimits(HomeLab).maxTunnels)
    ensures TierLimits(Free) == Limits(Some(1), Some(0)) && TierLimits(Pro) == Limits(None, None)
  {
    assert "sso" in TierModules(Pro) && "service-cron" in TierModules(HomeLab);
    assert "sso" !in TierModules(HomeLab) by {
      assert "sso"[0] != "reverse-tunnels"[0] && |"sso"| != |"service-cron"|;
    }
  }

  // ---- Activation state ----

  datatype Reason =
    | Revoked | RejectedKey | ExpiredKey | SeatLimit | Http(status: int) | Unreachable | Other(text: string)

  predicate DefinitiveDeny(r: Reason) {
    r.Revoked? || r.RejectedKey? || r.ExpiredKey? || r.SeatLimit? || r == Http(401) || r == Http(403)
  }

  datatype Attempt = Succeeded | Failed(reason: Reason)

  datatype Memory = Memory(
    cache: Option<Entitlements>, cachedAt: int, lastOkAt: int, lastAttempt: Option<Attempt>,
    baselineAt: int)

  /** The installation row. */
  datatype Row = Row(baseline: int, lastOk: Option<int>)

  /** The two windows, fixed at start-up. */
  datatype Config = Config(maxAgeMs: int, ttlMs: int)

  predicate Denied(m: Memory) {
    m.lastAttempt.Some? && m.lastAttempt.value.Failed? && DefinitiveDeny(m.lastAttempt.value.reason)
  }

  /** Within the grace window of the last success, or of the baseline if there was none. */
  predicate Timely(m: Memory, now: int, maxAgeMs: int) {
    now - (if m.lastOkAt > 0 then m.lastOkAt else m.baselineAt) < maxAgeMs
  }

  predicate ActivationOk(m: Memory, now: int, maxAgeMs: int) {
    !Denied(m) && Timely(m, now, maxAgeMs)
  }

  function Effective(m: Memory, key: Option<Payload>, now: int, maxAgeMs: int): Entitlements {
    var base := EntitlementsFromKey(key, now);
    if base.tier.Free? || !base.licensed || ActivationOk(m, now, maxAgeMs) then base
    else Entitlements(base.tier, {}, TierLimits(Free), base.expiresAt, false)
  }

  function CacheHit(m: Memory, force: bool, now: int, ttlMs: int): Option<Entitlements> {
    if !force && m.cache.Some? && now - m.cachedAt < ttlMs then m.cache else None
  }

  function AfterSuccess(m: Memory, now: int): Memory {
    m.(lastOkAt := now, lastAttempt := Some(Succeeded))
  }

  function AfterOutcome(m: Memory, outcome: Attempt): Memory {
    m.(lastAttempt := Some(outcome), cache := None)
  }

  function Uncached(m: Memory): Memory {
    m.(cache := None)
  }

  function AfterHeartbeat(m: Memory, hasKey: bool, reply: Attempt, now: int): Memory {
    if !hasKey then AfterOutcome(m, Succeeded)
    else if reply.Succeeded? then Uncached(AfterSuccess(m, now))
    else AfterOutcome(m, reply)
  }

  /** A result is cached under the time its call began. */
  function Resolved(m: Memory, key: Option<Payload>, startedAt: int, now: int, maxAgeMs: int): Memory {
    m.(cache := Some(Effective(m, key, now, maxAgeMs)), cachedAt := startedAt)
  }

  function Reset(m: Memory, now: int): Memory {
    Memory(None, m.cachedAt, 0, None, now)
  }

  function Loaded(row: Row): Memory {
    Memory(None, 0, if row.lastOk.Some? then row.lastOk.value else 0, None, row.baseline)
  }

  // ---- The service: each method is one stretch between two awaits ----

  class EntitlementsService {
    var cache: Option<Entitlements>
    var cachedAt: int
    var lastOkAt: int
    var lastAttempt: Option<Attempt>
    var activationBaselineAt: int
    const config: Config

    ghost function Value(): Memory
      reads this
    {
      Memory(cache, cachedAt, lastOkAt, lastAttempt, activationBaselineAt)
    }

    /** A restart that has loaded its persisted timestamps. */
    constructor (config: Config, row: Row)
      ensures Value() == Loaded(row) && this.config == config
    {
      this.config := config;
      cache, cachedAt, lastAttempt := None, 0, None;
      activationBaselineAt := row.baseline;
      lastOkAt := if row.lastOk.Some? then row.lastOk.value else 0;
    }

    method RecordSuccess(now: int)
      modifies this
      ensures Value() == AfterSuccess(old(Value()), now)
    {
      lastOkAt := now;
      lastAttempt := Some(Succeeded);
    }

    method RecordOutcome(outcome: Attempt)
      modifies this
      ensures Value() == AfterOutcome(old(Value()), outcome)
    {
      lastAttempt := Some(outcome);
      cache := None;
    }

    method DropCache()
      modifies this
      ensures Value() == Uncached(old(Value()))
    {
      cache := None;
    }

    method ResetActivation(now: int)
      modifies this
      ensures Value() == Reset(old(Value()), now)
    {
      cache := None;
      lastOkAt := 0;
      lastAttempt := None;
      activationBaselineAt := now;
    }

    method IsActivationOk(now: int) returns (ok: bool)
      ensures ok == ActivationOk(Value(), now, config.maxAgeMs)
    {
      if lastAttempt.Some? && lastAttempt.value.Failed? && DefinitiveDeny(lastAttempt.value.reason) {
        return false;
      }
      if lastOkAt > 0 {
        return now - lastOkAt < config.maxAgeMs;
      }
      ok := now - activationBaselineAt < config.maxAgeMs;
    }

    method FromCache(force: bool, now: int) returns (hit: Option<Entitlements>)
      ensures hit == CacheHit(Value(), force, now, config.ttlMs)
    {
      hit := if !force && cache.Some? && now - cachedAt < config.ttlMs then cache else None;
    }

    /** The rest of `get` once the key has been read; `startedAt` is when the call began. */
    method Resolve(key: Option<Payload>, startedAt: int, now: int) returns (ent: Entitlements)
      modifies this
      ensures ent == Effective(old(Value()), key, now, config.maxAgeMs)
      ensures Value() == Resolved(old(Value()), key, startedAt, now, config.maxAgeMs)
    {
      ent := EntitlementsFromKey(key, now);
      var ok := IsActivationOk(now);
      if !ent.tier.Free? && ent.licensed && !ok {
        ent := Entitlements(ent.tier, {}, TierLimits(Free), ent.expiresAt, false);
      }
      cache, cachedAt := Some(ent), startedAt;
    }

    /** A heartbeat that nothing interrupts; `reply` is the license server's, or the failure to get
        one. */
    method Heartbeat(hasKey: bool, reply: Attempt, now: int)
      modifies this
      ensures Value() == AfterHeartbeat(old(Value()), hasKey, reply, now)
    {
      if !hasKey {
        RecordOutcome(Succeeded);
        return;
      }
      if reply.Succeeded? {
        RecordSuccess(now);
        // The row is saved here.
        DropCache();
      } else {
        RecordOutcome(reply);
      }
    }

    /** A call of `get` that nothing interrupts. */
    method Get(force: bool, key: Option<Payload>, startedAt: int, now: int) returns (ent: Entitlements)
      modifies this
      ensures var hit := CacheHit(old(Value()), force, startedAt, config.ttlMs);
              if hit.Some? then ent == hit.value && Value() == old(Value())
              else && ent == Effective(old(Value()), key, now, config.maxAgeMs)
                   && Value() == Resolved(old(Value()), key, startedAt, now, config.maxAgeMs)
    {
      var hit := FromCache(force, startedAt);
      if hit.Some? {
        return hit.value;
      }
      ent := Resolve(key, startedAt, now);
    }
  }

  // ---- The system, interleaved at every await ----

  datatype Get = Started(at: int) | KeyRead(at: int, key: Option<Payload>)

  /** An update of the row: a success to record, or a reset. */
  datatype Update = Success(at: int) | NewBaseline(at: int)

  function Effect(row: Row, u: Update): Row {
    match u
    case Success(t) => row.(lastOk := Some(t))
    case NewBaseline(t) => Row(t, None)
  }

  /** `pending` are the row updates sent and not yet applied, and `mine` those among them that the
      running process sent and waits for. */
  datatype State = State(
    now: int, mem: Memory, row: Row, key: Option<Payload>,
    pending: map<nat, Update>, mine: set<nat>, gets: map<nat, Get>)

  datatype Action =
    | Tick(time: int)
    | StoreKey(key: Option<Payload>)
    | HeartbeatOk(id: nat)
    | HeartbeatFailed(reason: Reason)
    | HeartbeatWithoutKey
    | ResetKey(id: nat)
    | Land(id: nat)
    | Drop(id: nat)
    | Restart
    | BeginGet(h: nat, force: bool)
    | ReadKey(h: nat)
    | FinishGet(h: nat)

  predicate Enabled(s: State, a: Action) {
    match a
    case Tick(t) => s.now <= t
    case HeartbeatOk(id) => id !in s.pending
    case ResetKey(id) => id !in s.pending
    case Land(id) => id in s.pending
    case Drop(id) => id in s.pending
    case BeginGet(h, _) => h !in s.gets
    case ReadKey(h) => h in s.gets && s.gets[h].Started?
    case FinishGet(h) => h in s.gets && s.gets[h].KeyRead?
    case _ => true
  }

  function Sends(s: State, id: nat, u: Update): State {
    s.(pending := s.pending[id := u], mine := s.mine + {id})
  }

  /** An update has been applied or has failed; a heartbeat that waited for it drops the cache. */
  function Settled(s: State, id: nat): State
    requires id in s.pending
  {
    s.(pending := s.pending - {id}, mine := s.mine - {id},
       mem := if id in s.mine && s.pending[id].Success? then Uncached(s.mem) else s.mem)
  }

  function Apply(c: Config, s: State, a: Action): State
    requires Enabled(s, a)
  {
    match a
    case Tick(t) => s.(now := t)
    case StoreKey(k) => s.(key := k)
    case HeartbeatOk(id) => Sends(s.(mem := AfterSuccess(s.mem, s.now)), id, Success(s.now))
    case HeartbeatFailed(r) => s.(mem := AfterOutcome(s.mem, Failed(r)))
    case HeartbeatWithoutKey => s.(mem := AfterOutcome(s.mem, Succeeded))
    case ResetKey(id) => Sends(s.(mem := Reset(s.mem, s.now)), id, NewBaseline(s.now))
    case Land(id) => Settled(s, id).(row := Effect(s.row, s.pending[id]))
    case Drop(id) => Settled(s, id)
    case Restart => s.(mem := Loaded(s.row), mine := {}, gets := map[])
    case BeginGet(h, force) =>
      if CacheHit(s.mem, force, s.now, c.ttlMs).Some? then s
      else s.(gets := s.gets[h := Started(s.now)])
    case ReadKey(h) => s.(gets := s.gets[h := KeyRead(s.gets[h].at, s.key)])
    case FinishGet(h) =>
      var g := s.gets[h];
      s.(mem := Resolved(s.mem, g.key, g.at, s.now, c.maxAgeMs),
         gets := s.gets - {h})
  }

  /** What an action answers to a caller of `get`. */
  function Answer(c: Config, s: State, a: Action): Option<Entitlements>
    requires Enabled(s, a)
  {
    match a
    case BeginGet(_, force) => CacheHit(s.mem, force, s.now, c.ttlMs)
    case FinishGet(h) => Some(Effective(s.mem, s.gets[h].key, s.now, c.maxAgeMs))
    case _ => None
  }

  /** First start: the row holds the baseline anchored then. */
  ghost predicate Init(s: State) {
    s.now > 0 && s.row == Row(s.now, None) && s.mem == Loaded(s.row)
    && s.pending == map[] && s.mine == {} && s.gets == map[]
  }

  ghost predicate IsRun(c: Config, run: seq<State>, actions: seq<Action>) {
    && |run| == |actions| + 1 && Init(run[0]) && c.maxAgeMs > 0 && c.ttlMs > 0
    && forall i :: 0 <= i < |actions| ==>
         Enabled(run[i], actions[i]) && run[i + 1] == Apply(c, run[i], actions[i])
  }

  /** The last success since the last key reset, or that reset; the first start if neither. */
  ghost function Anchor(run: seq<State>, actions: seq<Action>, i: nat): int
    requires i <= |actions| && |run| == |actions| + 1
  {
    if i == 0 then run[0].now
    else if actions[i - 1].HeartbeatOk? || actions[i - 1].ResetKey? then run[i - 1].now
    else Anchor(run, actions, i - 1)
  }

  // ---- The grace window over whole runs ----

  /** Entitlements that are not licensed have the limits of Free, and no modules unless the key itself
      is a Free one. */
  ghost predicate LockedIsFree(e: Entitlements) {
    && (e.licensed ==> !e.tier.Free?)
    && (!e.licensed ==> e.limits == TierLimits(Free) && (e.modules == {} || e.tier.Free?))
  }

  ghost predicate Inv(c: Config, s: State, anchor: int) {
    && 0 < anchor <= s.now
    && s.mem.lastOkAt <= anchor && s.mem.baselineAt <= anchor
    && s.row.baseline <= anchor && (s.row.lastOk.Some? ==> s.row.lastOk.value <= anchor)
    && (forall id :: id in s.pending ==> s.pending[id].at <= anchor)
    && (forall h :: h in s.gets ==> s.gets[h].at <= s.now)
    && (s.mem.cache.Some? ==> LockedIsFree(s.mem.cache.value))
    && (s.mem.cache.Some? && s.mem.cache.value.licensed ==>
          && s.mem.cachedAt < anchor + c.maxAgeMs
          && !Denied(s.mem)
          && (s.mem.cache.value.expiresAt.Some? ==>
                s.mem.cachedAt < (s.mem.cache.value.expiresAt.value + 1) * 1000))
  }

  /** A freshly computed licensed result: activation is timely, not denied, and the key has not
      expired by more than the rounding to whole seconds. */
  lemma LicensedMeansTimely(m: Memory, key: Option<Payload>, now: int, maxAgeMs: int)
    requires Effective(m, key, now, maxAgeMs).licensed
    ensures ActivationOk(m, now, maxAgeMs)
    ensures var e := Effective(m, key, now, maxAgeMs).expiresAt; e.Some? ==> now < (e.value + 1) * 1000
  {
  }

  lemma StepKeepsInv(c: Config, s: State, a: Action, anchor: int)
    requires Inv(c, s, anchor) && Enabled(s, a) && c.maxAgeMs > 0
    ensures Inv(c, Apply(c, s, a), if a.HeartbeatOk? || a.ResetKey? then s.now else anchor)
  {
    if a.FinishGet? {
      var g := s.gets[a.h];
      if Effective(s.mem, g.key, s.now, c.maxAgeMs).licensed {
        LicensedMeansTimely(s.mem, g.key, s.now, c.maxAgeMs);
      }
    }
  }

  lemma {:induction false} RunKeepsInv(c: Config, run: seq<State>, actions: seq<Action>, i: nat)
    requires IsRun(c, run, actions) && i < |run|
    ensures Inv(c, run[i], Anchor(run, actions, i))
  {
    if i > 0 {
      RunKeepsInv(c, run, actions, i - 1);
      StepKeepsInv(c, run[i - 1], actions[i - 1], Anchor(run, actions, i - 1));
    }
  }

  /** Over any run of heartbeats, key changes, restarts and reads, a paid plan is reported only
      within maxAge, plus the cache lifetime, of the last success since the last key reset, or of
      that reset; never past the key's expiry by more than the cache lifetime and one second; and
      never while the last heartbeat was a definitive denial. */
  lemma PaidOnlyWhileActivated(c: Config, run: seq<State>, actions: seq<Action>, i: nat)
    requires IsRun(c, run, actions) && i < |actions|
    requires Answer(c, run[i], actions[i]).Some? && Answer(c, run[i], actions[i]).value.licensed
    ensures run[i].now < Anchor(run, actions, i) + c.maxAgeMs + c.ttlMs
    ensures var e := Answer(c, run[i], actions[i]).value.expiresAt;
            e.Some? ==> run[i].now < (e.value + 1) * 1000 + c.ttlMs
    ensures !Denied(run[i].mem)
  {
    RunKeepsInv(c, run, actions, i);
    if actions[i].FinishGet? {
      LicensedMeansTimely(run[i].mem, run[i].gets[actions[i].h].key, run[i].now, c.maxAgeMs);
    }
  }

  /** More than an unlicensed installation has. */
  predicate GrantsMore(e: Entitlements) {
    e.modules != {} || e.limits != TierLimits(Free)
  }

  /** Over any run, whatever an answer grants beyond Free it grants within those bounds, unless it is
      the modules of a key of the Free tier. */
  lemma GrantsOnlyWhileActivated(c: Config, run: seq<State>, actions: seq<Action>, i: nat)
    requires IsRun(c, run, actions) && i < |actions|
    requires Answer(c, run[i], actions[i]).Some? && GrantsMore(Answer(c, run[i], actions[i]).value)
    ensures var e := Answer(c, run[i], actions[i]).value;
            if e.tier.Free? then e.limits == TierLimits(Free)
            else && e.licensed && !Denied(run[i].mem)
                 && run[i].now < Anchor(run, actions, i) + c.maxAgeMs + c.ttlMs
  {
    RunKeepsInv(c, run, actions, i);
    var e := Answer(c, run[i], actions[i]).value;
    if e.licensed {
      PaidOnlyWhileActivated(c, run, actions, i);
    }
  }

  predicate Expired(p: Payload, now: int) {
    p.exp > 0 && p.exp < now / 1000
  }

  /** A freshly resolved answer grants more exactly when its key has not expired and is either an
      activated paid one or a Free one that lists modules: such a key is never locked. */
  lemma FreshGrantsExactly(c: Config, s: State, h: nat)
    requires Enabled(s, FinishGet(h))
    ensures var key, e := s.gets[h].key, Answer(c, s, FinishGet(h)).value;
            GrantsMore(e) <==>
              (&& key.Some? && !Expired(key.value, s.now)
               && if key.value.tier.Free? then key.value.modules != {} else ActivationOk(s.mem, s.now, c.maxAgeMs))
  {
  }
}
