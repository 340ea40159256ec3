/** Daemon-secret rotation between the panel and an agent. */
module Rotation {
  // `tokenState` and its handlers in services/agent/internal/api/server.go, written through to the state
  // file of services/agent/internal/enroll/enroll.go and reloaded by services/agent/cmd/agent/main.go.

  import opened Text

  /** The secrets an agent accepts: in memory, and as the state file holds them. */
  datatype Secrets = Secrets(current: string, next: string)

  // ---- Specification ----

  function Observed(s: Secrets, matched: string): Secrets {
    if s.next != "" && matched == s.next then Secrets(s.next, "") else s
  }

  function Staged(s: Secrets, newToken: string): Secrets {
    if newToken == "" || newToken == s.current then s else s.(next := newToken)
  }

  /** A request is authenticated by a secret exactly when it was signed with it; an empty secret
      never authenticates. */
  predicate Matches(signedWith: string, secret: string) {
    secret != "" && signedWith == secret
  }

  function MatchedSecret(s: Secrets, signedWith: string): Option<string> {
    if Matches(signedWith, s.current) then Some(s.current)
    else if Matches(signedWith, s.next) then Some(s.next)
    else None
  }

  // ---- The state file ----

  /** What the state file holds: secrets, or text that does not parse. */
  datatype File = Holds(secrets: Secrets) | Unreadable

  /** How a save can end. The file is truncated before it is written, so a save that fails may
      leave the old text or a part of the new one. */
  datatype Save = Saved | NotWritten | Torn

  function FileAfter(file: File, s: Secrets, save: Save): File {
    match save
    case Saved => Holds(s)
    case NotWritten => file
    case Torn => Unreadable
  }

  /** What start-up accepts: nothing, until it enrolls again, when no state can be loaded. */
  function Loaded(file: File): Secrets {
    match file
    case Holds(s) => if s.current == "" then Secrets("", "") else s
    case Unreadable => Secrets("", "")
  }

  /** Whether `observe` and `setNext` save. */
  predicate Promotes(s: Secrets, matched: string) {
    s.next != "" && matched == s.next
  }

  predicate Stages(s: Secrets, newToken: string) {
    newToken != "" && newToken != s.current
  }

  // ---- The agent ----

  class Store {
    var file: File

    constructor (file: File)
      ensures this.file == file
    {
      this.file := file;
    }

    method SaveState(s: Secrets, save: Save)
      modifies this
      ensures file == FileAfter(old(file), s, save)
    {
      match save {
        case Saved => file := Holds(s);
        case NotWritten =>
        case Torn => file := Unreadable;
      }
    }

    method LoadState() returns (state: Option<Secrets>)
      ensures Loaded(file) == if state.Some? then state.value else Secrets("", "")
      ensures state.Some? ==> state.value.current != ""
    {
      if file.Unreadable? || file.secrets.current == "" {
        return None;
      }
      state := Some(file.secrets);
    }
  }

  class TokenState {
    var current: string
    var next: string
    const store: Store?

    ghost function Value(): Secrets
      reads this
    {
      Secrets(current, next)
    }

    /** Start-up: what was loaded is what is accepted. `store` is null for the dev agent. */
    constructor (loaded: Secrets, store: Store?)
      ensures Value() == loaded && this.store == store
    {
      current, next, this.store := loaded.current, loaded.next, store;
    }

    method Snapshot() returns (c: string, n: string)
      ensures Secrets(c, n) == Value()
    {
      c, n := current, next;
    }

    /** The loop over both secrets, on one snapshot. */
    method Authenticate(signedWith: string) returns (matched: Option<string>)
      ensures matched == MatchedSecret(Value(), signedWith)
    {
      var c, n := Snapshot();
      var secrets := [c, n];
      for i := 0 to 2
        invariant forall k :: 0 <= k < i ==> !Matches(signedWith, secrets[k])
      {
        if Matches(signedWith, secrets[i]) {
          return Some(secrets[i]);
        }
      }
      assert secrets[0] == c && secrets[1] == n;
      matched := None;
    }

    method Observe(matched: string, save: Save)
      modifies this, store
      ensures Value() == Observed(old(Value()), matched)
      ensures store != null ==>
                store.file == if Promotes(old(Value()), matched) then FileAfter(old(store.file), Value(), save)
                              else old(store.file)
    {
      if next != "" && matched == next {
        current := next;
        next := "";
        if store != null {
          store.SaveState(Secrets(current, next), save);
        }
      }
    }

    method SetNext(newToken: string, save: Save)
      modifies this, store
      ensures Value() == Staged(old(Value()), newToken)
      ensures store != null ==>
                store.file == if Stages(old(Value()), newToken) then FileAfter(old(store.file), Value(), save)
                              else old(store.file)
    {
      if newToken == "" || newToken == current {
        return;
      }
      next := newToken;
      if store != null {
        store.SaveState(Secrets(current, next), save);
      }
    }

    /** The body of a rotate request, once authenticated. */
    method HandleRotate(newToken: string, save: Save) returns (ok: bool)
      modifies this, store
      ensures ok == (TrimSpace(newToken) != "")
      ensures Value() == if ok then Staged(old(Value()), TrimSpace(newToken)) else old(Value())
      ensures store != null ==>
                store.file == if ok && Stages(old(Value()), TrimSpace(newToken))
                              then FileAfter(old(store.file), Value(), save) else old(store.file)
    {
      if TrimSpace(newToken) == "" {
        return false;
      }
      SetNext(TrimSpace(newToken), save);
      ok := true;
    }
  }

  /** Start-up from the state file; null when the agent has to enroll first. */
  method StartAgent(store: Store) returns (tokens: TokenState?)
    ensures tokens == null <==> Loaded(store.file).current == ""
    ensures tokens != null ==> fresh(tokens) && tokens.Value() == Loaded(store.file) && tokens.store == store
  {
    var state := store.LoadState();
    if state.None? {
      return null;
    }
    tokens := new TokenState(state.value, store);
  }

  // ---- The protocol ----

  datatype Kind = Plain | Rotate(newToken: string)

  /** How far the agent has taken a request: `authenticate` reads a snapshot, `observe` takes the
      lock again, and the handler runs last. */
  datatype Stage = Sent | Authenticated(matched: string) | Past

  datatype Request = Request(secret: string, kind: Kind, stage: Stage)

  /** `pending` is the new secret of a rotation the panel has asked for and not yet seen
      acknowledged. */
  datatype Panel = Panel(secret: string, prev: Option<string>, pending: Option<string>)

  /** `held` and `used` record every secret the panel has ever switched to, or generated. */
  datatype State = State(
    agent: Secrets, disk: File, panel: Panel, requests: map<nat, Request>,
    acks: set<string>, beats: set<string>, held: set<string>, used: set<string>)

  datatype Action =
    | SendPlain(id: nat)
    | BeginRotation(id: nat, newToken: string)
    | Authenticate(id: nat)
    | Observe(id: nat, save: Save)
    | Handle(id: nat, save: Save)
    | ReceiveAck(token: string)
    | Abandon
    | Lose(id: nat)
    | Restart
    | SendBeat
    | ReceiveBeat(token: string)

  predicate Enabled(s: State, a: Action) {
    match a
    case SendPlain(id) => id !in s.requests
    case BeginRotation(id, tok) =>
      id !in s.requests && s.panel.pending.None? && tok != "" && tok !in s.used
    case Authenticate(id) => id in s.requests && s.requests[id].stage.Sent?
    case Observe(id, _) => id in s.requests && s.requests[id].stage.Authenticated?
    case Handle(id, _) => id in s.requests && s.requests[id].stage.Past?
    case ReceiveAck(tok) => tok in s.acks
    case Abandon => s.panel.pending.Some?
    case Lose(id) => id in s.requests
    case Restart => true
    case SendBeat => true
    case ReceiveBeat(tok) => tok in s.beats
  }

  /** What the agent accepts changes, and with it the file if the change is saved. */
  function WithAgent(s: State, agent: Secrets, saves: bool, save: Save): State {
    s.(agent := agent, disk := if saves then FileAfter(s.disk, agent, save) else s.disk)
  }

  function Apply(s: State, a: Action): State
    requires Enabled(s, a)
  {
    match a
    case SendPlain(id) =>
      s.(requests := s.requests[id := Request(s.panel.secret, Plain, Sent)])
    case BeginRotation(id, tok) =>
      s.(requests := s.requests[id := Request(s.panel.secret, Rotate(tok), Sent)],
         panel := s.panel.(pending := Some(tok)),
         used := s.used + {tok})
    case Authenticate(id) =>
      (match MatchedSecret(s.agent, s.requests[id].secret)
       case Some(m) => s.(requests := s.requests[id := s.requests[id].(stage := Authenticated(m))])
       case None => s.(requests := s.requests - {id}))
    case Observe(id, save) =>
      var matched := s.requests[id].stage.matched;
      WithAgent(s.(requests := s.requests[id := s.requests[id].(stage := Past)]),
                Observed(s.agent, matched), Promotes(s.agent, matched), save)
    case Handle(id, save) =>
      var s' := s.(requests := s.requests - {id});
      (match s.requests[id].kind
       case Plain => s'
       case Rotate(tok) =>
         WithAgent(s', Staged(s.agent, tok), Stages(s.agent, tok), save).(acks := s.acks + {tok}))
    case ReceiveAck(tok) =>
      var s' := s.(acks := s.acks - {tok});
      if s.panel.pending == Some(tok)
      then s'.(panel := Panel(tok, Some(s.panel.secret), None), held := s.held + {tok})
      else s'
    case Abandon =>
      // An abandoned rotate request is never delivered later, nor is its acknowledgement.
      var tok := s.panel.pending.value;
      s.(panel := s.panel.(pending := None),
         requests := map id | id in s.requests && s.requests[id].kind != Rotate(tok) :: s.requests[id],
         acks := s.acks - {tok})
    case Lose(id) => s.(requests := s.requests - {id})
    case Restart =>
      s.(agent := Loaded(s.disk),
         requests := map id | id in s.requests && s.requests[id].stage.Sent? :: s.requests[id])
    case SendBeat => s.(beats := s.beats + {s.agent.current})
    case ReceiveBeat(tok) =>
      // A heartbeat that presents the new secret lets the panel retire the old one.
      if tok == s.panel.secret then s.(panel := s.panel.(prev := None)) else s
  }

  /** Freshly enrolled with `secret`. */
  ghost predicate Init(s: State, secret: string) {
    && secret != ""
    && s == State(Secrets(secret, ""), Holds(Secrets(secret, "")), Panel(secret, None, None), map[], {}, {},
                  {secret}, {secret})
  }

  /** `run` is a sequence of states, each reached from the one before by an enabled action. */
  ghost predicate IsRun(run: seq<State>, actions: seq<Action>, secret: string) {
    && |run| == |actions| + 1 && Init(run[0], secret)
    && forall i :: 0 <= i < |actions| ==> Enabled(run[i], actions[i]) && run[i + 1] == Apply(run[i], actions[i])
  }

  // ---- What every reachable state satisfies ----

  /** The agent accepts the panel's secret, and the panel the agent's. */
  ghost predicate InStep(s: State) {
    && s.panel.secret in {s.agent.current, s.agent.next} && s.panel.secret != ""
    && (s.agent.current == s.panel.secret || s.panel.prev == Some(s.agent.current))
    && s.agent.next != s.agent.current
  }

  /** And the state file agrees with memory. */
  ghost predicate Safe(s: State) {
    InStep(s) && s.disk == Holds(s.agent)
  }

  ghost predicate RequestInv(s: State, r: Request) {
    && r.secret in s.held
    && (r.stage.Authenticated? ==> r.stage.matched == r.secret)
    && (r.kind.Rotate? ==>
          && s.panel.pending == Some(r.kind.newToken)
          && r.secret == s.panel.secret
          && s.acks == {}
          && (r.stage.Past? ==> s.agent.current == s.panel.secret))
  }

  ghost predicate MemoryInv(s: State) {
    && InStep(s)
    && s.panel.secret in s.held && s.agent.current in s.held && s.held <= s.used && "" !in s.used
    && (s.agent.next == "" || s.agent.next in s.used)
    // A staged secret the panel has ever used is the one it uses now.
    && (s.agent.next in s.held ==> s.agent.next == s.panel.secret)
    && (s.panel.pending.Some? ==> s.panel.pending.value in s.used - s.held)
    && (forall id :: id in s.requests ==> RequestInv(s, s.requests[id]))
    && (forall a, b | a in s.requests && b in s.requests ::
          s.requests[a].kind.Rotate? && s.requests[b].kind.Rotate? ==> a == b)
    // An acknowledgement in flight: the agent has staged the secret and nothing has used it yet.
    && (forall tok :: tok in s.acks ==>
          s.panel.pending == Some(tok) && s.agent == Secrets(s.panel.secret, tok))
    // A heartbeat with the panel's own secret proves the agent has converged.
    && s.beats <= s.held
    && (s.panel.secret in s.beats ==> s.agent.current == s.panel.secret)
  }

  ghost predicate Inv(s: State) {
    MemoryInv(s) && s.disk == Holds(s.agent)
  }

  /** The save an action makes, if it makes one. */
  function SaveOf(s: State, a: Action): Option<Save>
    requires Enabled(s, a)
  {
    match a
    case Observe(id, save) => if Promotes(s.agent, s.requests[id].stage.matched) then Some(save) else None
    case Handle(id, save) =>
      (match s.requests[id].kind
       case Plain => None
       case Rotate(tok) => if Stages(s.agent, tok) then Some(save) else None)
    case _ => None
  }

  lemma InitInv(s: State, secret: string)
    requires Init(s, secret)
    ensures Inv(s)
  {
  }

  lemma ObserveKeepsInv(s: State, id: nat, save: Save)
    requires MemoryInv(s) && Enabled(s, Action.Observe(id, save))
    ensures MemoryInv(Apply(s, Action.Observe(id, save)))
  {
    var r, s' := s.requests[id], Apply(s, Action.Observe(id, save));
    assert RequestInv(s, r);
    assert s'.agent != s.agent ==> s'.agent == Secrets(s.panel.secret, "");
    assert forall k :: k in s'.requests && k != id ==> s'.requests[k] == s.requests[k];
  }

  lemma HandleKeepsInv(s: State, id: nat, save: Save)
    requires MemoryInv(s) && Enabled(s, Handle(id, save))
    ensures MemoryInv(Apply(s, Handle(id, save)))
  {
    var r, s' := s.requests[id], Apply(s, Handle(id, save));
    assert RequestInv(s, r);
    assert forall k :: k in s'.requests ==> RequestInv(s, s'.requests[k]);
  }

  lemma AuthenticateKeepsInv(s: State, id: nat)
    requires MemoryInv(s) && Enabled(s, Action.Authenticate(id))
    ensures MemoryInv(Apply(s, Action.Authenticate(id)))
  {
    var s' := Apply(s, Action.Authenticate(id));
    assert RequestInv(s, s.requests[id]);
    assert forall k :: k in s'.requests && k in s.requests ==> RequestInv(s, s.requests[k]);
  }

  lemma RequestStepKeepsInv(s: State, a: Action)
    requires MemoryInv(s) && Enabled(s, a)
    requires a.SendPlain? || a.Lose? || (a.Restart? && Loaded(s.disk) == s.agent)
    ensures MemoryInv(Apply(s, a))
  {
    var s' := Apply(s, a);
    assert forall k :: k in s'.requests && k in s.requests ==> RequestInv(s, s.requests[k]);
  }

  lemma PanelStepKeepsInv(s: State, a: Action)
    requires MemoryInv(s) && Enabled(s, a)
    requires a.BeginRotation? || a.ReceiveAck? || a.Abandon? || a.SendBeat? || a.ReceiveBeat?
    ensures MemoryInv(Apply(s, a))
  {
    var s' := Apply(s, a);
    assert forall k :: k in s'.requests && k in s.requests ==> RequestInv(s, s.requests[k]);
  }

  /** However saves end, agent and panel stay in step until a restart loads something else than
      what was in memory. */
  lemma StepKeepsMemoryInv(s: State, a: Action)
    requires MemoryInv(s) && Enabled(s, a) && (a.Restart? ==> Loaded(s.disk) == s.agent)
    ensures MemoryInv(Apply(s, a))
  {
    match a
    case Observe(id, save) => ObserveKeepsInv(s, id, save);
    case Handle(id, save) => HandleKeepsInv(s, id, save);
    case SendPlain(_) => RequestStepKeepsInv(s, a);
    case Authenticate(id) => AuthenticateKeepsInv(s, id);
    case Lose(_) => RequestStepKeepsInv(s, a);
    case Restart => RequestStepKeepsInv(s, a);
    case _ => PanelStepKeepsInv(s, a);
  }

  lemma StepKeepsInv(s: State, a: Action)
    requires Inv(s) && Enabled(s, a) && SaveOf(s, a) in {None, Some(Saved)}
    ensures Inv(Apply(s, a))
  {
    assert Loaded(s.disk) == s.agent;
    StepKeepsMemoryInv(s, a);
    hide MemoryInv;
  }

  ghost predicate AllSaved(run: seq<State>, actions: seq<Action>, secret: string)
    requires IsRun(run, actions, secret)
  {
    forall i :: 0 <= i < |actions| ==> SaveOf(run[i], actions[i]) in {None, Some(Saved)}
  }

  lemma {:induction false} RunKeepsInv(run: seq<State>, actions: seq<Action>, secret: string, i: nat)
    requires IsRun(run, actions, secret) && AllSaved(run, actions, secret) && i < |run|
    ensures Inv(run[i])
  {
    hide Inv;
    if i == 0 {
      InitInv(run[0], secret);
    } else {
      RunKeepsInv(run, actions, secret, i - 1);
      StepKeepsInv(run[i - 1], actions[i - 1]);
    }
  }

  /** While saves succeed, rotation never strands either side: at every point of every run the
      panel's secret is one the agent accepts, the agent's own secret is one the panel accepts, the
      state file agrees with memory, and so a restart changes neither secret. */
  lemma RotationIsSafe(run: seq<State>, actions: seq<Action>, secret: string, i: nat)
    requires IsRun(run, actions, secret) && AllSaved(run, actions, secret) && i < |run|
    ensures Safe(run[i])
    ensures MatchedSecret(run[i].agent, run[i].panel.secret) == Some(run[i].panel.secret)
    ensures Apply(run[i], Restart).agent == run[i].agent
  {
    RunKeepsInv(run, actions, secret, i);
  }

  /** An authenticated request of the panel leaves the agent on the panel's secret: one plain
      request after a switch closes the rotation window. */
  lemma PlainRequestConverges(s: State, id: nat, save: Save)
    requires MemoryInv(s) && Enabled(s, SendPlain(id))
    ensures var s1 := Apply(s, SendPlain(id));
            && Enabled(s1, Action.Authenticate(id))
            && var s2 := Apply(s1, Action.Authenticate(id));
               && Enabled(s2, Action.Observe(id, save))
               && Apply(s2, Action.Observe(id, save)).agent.current == s.panel.secret
  {
  }

  // ---- Saves that fail ----

  /** A restart now would leave the agent refusing the panel. */
  ghost predicate RestartStrands(s: State) {
    MatchedSecret(Loaded(s.disk), s.panel.secret).None?
  }

  predicate InFile(s: State, secret: string) {
    secret in {Loaded(s.disk).current, Loaded(s.disk).next}
  }

  /** A save tears the file, or the panel switches to a secret the file does not hold. */
  ghost predicate Forgets(s: State, a: Action)
    requires Enabled(s, a)
  {
    || SaveOf(s, a) == Some(Torn)
    || (a.ReceiveAck? && s.panel.pending == Some(a.token) && !InFile(s, a.token))
  }

  ghost predicate FileInv(s: State) {
    var l := Loaded(s.disk);
    (l.current == "" || l.current in s.used) && (l.next == "" || l.next in s.used)
  }

  lemma StepKeepsFileInv(s: State, a: Action)
    requires MemoryInv(s) && FileInv(s) && Enabled(s, a) && !a.Restart?
    ensures FileInv(Apply(s, a))
  {
    StepKeepsMemoryInv(s, a);
    hide RequestInv;
  }

  lemma StepStrands(s: State, a: Action)
    requires MemoryInv(s) && Enabled(s, a) && !a.Restart?
    ensures SaveOf(s, a) == Some(Saved) ==> !RestartStrands(Apply(s, a))
    ensures !RestartStrands(s) ==> (RestartStrands(Apply(s, a)) <==> Forgets(s, a))
  {
    StepKeepsMemoryInv(s, a);
    hide RequestInv;
  }

  /** The panel's secret is lost to the file, and no rotation under way can bring it back. */
  ghost predicate Forgotten(s: State) {
    RestartStrands(s) && (s.panel.pending.Some? ==> !InFile(s, s.panel.pending.value))
  }

  lemma StepKeepsForgotten(s: State, a: Action)
    requires MemoryInv(s) && FileInv(s) && Enabled(s, a) && !a.Restart?
    requires Forgets(s, a) || (Forgotten(s) && SaveOf(s, a) != Some(Saved))
    ensures Forgotten(Apply(s, a))
  {
    StepKeepsMemoryInv(s, a);
    hide RequestInv;
  }

  ghost predicate NoRestart(actions: seq<Action>, n: nat)
    requires n <= |actions|
  {
    forall i :: 0 <= i < n ==> !actions[i].Restart?
  }

  lemma {:induction false} RunKeepsMemoryInv(run: seq<State>, actions: seq<Action>, secret: string, n: nat)
    requires IsRun(run, actions, secret) && n <= |actions| && NoRestart(actions, n)
    ensures MemoryInv(run[n]) && FileInv(run[n])
  {
    hide MemoryInv, FileInv;
    if n == 0 {
      InitInv(run[0], secret);
      InitFileInv(run[0], secret);
    } else {
      RunKeepsMemoryInv(run, actions, secret, n - 1);
      StepKeepsMemoryInv(run[n - 1], actions[n - 1]);
      StepKeepsFileInv(run[n - 1], actions[n - 1]);
    }
  }

  lemma InitFileInv(s: State, secret: string)
    requires Init(s, secret)
    ensures MemoryInv(s) && FileInv(s) && !RestartStrands(s)
  {
  }

  /** Step `j` forgets, and no save before step `n` succeeds after it. */
  ghost predicate ForgottenSince(run: seq<State>, actions: seq<Action>, secret: string, j: nat, n: nat)
    requires IsRun(run, actions, secret) && j < n <= |actions|
  {
    Forgets(run[j], actions[j]) && forall k :: j < k < n ==> SaveOf(run[k], actions[k]) != Some(Saved)
  }

  lemma {:induction false} StaysForgotten(run: seq<State>, actions: seq<Action>, secret: string, j: nat, n: nat)
    requires IsRun(run, actions, secret) && j < n <= |actions| && NoRestart(actions, n)
    requires ForgottenSince(run, actions, secret, j, n)
    ensures Forgotten(run[n])
    decreases n
  {
    hide MemoryInv, FileInv, Forgotten, Forgets;
    RunKeepsMemoryInv(run, actions, secret, n - 1);
    if j < n - 1 {
      StaysForgotten(run, actions, secret, j, n - 1);
    }
    StepKeepsForgotten(run[n - 1], actions[n - 1]);
  }

  /** However saves end, the first restart strands the panel exactly when, since the last save that
      succeeded, a save tore the file or the panel switched to a secret the file does not hold. */
  lemma {:induction false} SavesDecideRestart(run: seq<State>, actions: seq<Action>, secret: string, n: nat)
    requires IsRun(run, actions, secret) && n <= |actions| && NoRestart(actions, n)
    ensures MatchedSecret(Apply(run[n], Restart).agent, run[n].panel.secret).None?
       <==> exists j :: 0 <= j < n && ForgottenSince(run, actions, secret, j, n)
  {
    hide MemoryInv, FileInv, Forgets;
    if n == 0 {
      InitFileInv(run[0], secret);
    } else {
      var s, a := run[n - 1], actions[n - 1];
      RunKeepsMemoryInv(run, actions, secret, n - 1);
      SavesDecideRestart(run, actions, secret, n - 1);
      StepStrands(s, a);
      if RestartStrands(run[n]) {
        if RestartStrands(s) {
          var j :| 0 <= j < n - 1 && ForgottenSince(run, actions, secret, j, n - 1);
          assert ForgottenSince(run, actions, secret, j, n);
        } else {
          assert ForgottenSince(run, actions, secret, n - 1, n);
        }
      }
      if j :| 0 <= j < n && ForgottenSince(run, actions, secret, j, n) {
        StaysForgotten(run, actions, secret, j, n);
      }
    }
  }

  // ---- Runs that reach the failures ----

  /** The state after a list of actions, if each is enabled in turn. */
  function Played(s: State, actions: seq<Action>): Option<State>
    decreases actions
  {
    if actions == [] then Some(s)
    else if Enabled(s, actions[0]) then Played(Apply(s, actions[0]), actions[1..])
    else None
  }

  lemma {:induction false} PlayedIsRun(run: seq<State>, actions: seq<Action>, secret: string, more: seq<Action>)
      returns (run': seq<State>)
    requires IsRun(run, actions, secret) && Played(run[|actions|], more).Some?
    ensures IsRun(run', actions + more, secret)
    ensures run'[|actions| + |more|] == Played(run[|actions|], more).value
    decreases more
  {
    hide Enabled, Apply, Init;
    if more == [] {
      assert actions + more == actions;
      run' := run;
    } else {
      var a, s := more[0], run[|actions|];
      Extend(run, actions, secret, a);
      run' := PlayedIsRun(run + [Apply(s, a)], actions + [a], secret, more[1..]);
      assert actions + [a] + more[1..] == actions + more;
    }
  }

  lemma Extend(run: seq<State>, actions: seq<Action>, secret: string, a: Action)
    requires IsRun(run, actions, secret) && Enabled(run[|actions|], a)
    ensures IsRun(run + [Apply(run[|actions|], a)], actions + [a], secret)
  {
  }

  lemma PlayStep(s: State, a: Action, more: seq<Action>)
    requires Enabled(s, a)
    ensures Played(s, [a] + more) == Played(Apply(s, a), more)
  {
    assert ([a] + more)[1..] == more;
  }

  /** The actions of a rotation that the panel completes, as request `id`. */
  function Rotation(id: nat, tok: string, save: Save): seq<Action> {
    [BeginRotation(id, tok)]
    + ([Action.Authenticate(id)] + ([Action.Observe(id, Saved)] + ([Handle(id, save)] + ([ReceiveAck(tok)] + []))))
  }

  /** What is left when a quiet state completes a rotation. */
  function Rotated(s: State, tok: string, save: Save): State {
    s.(agent := Secrets(s.agent.current, tok),
       disk := FileAfter(s.disk, Secrets(s.agent.current, tok), save),
       panel := Panel(tok, Some(s.panel.secret), None),
       held := s.held + {tok}, used := s.used + {tok})
  }

  lemma RotationPlays(s: State, id: nat, tok: string, save: Save)
    requires s.requests == map[] && s.acks == {} && s.panel.pending.None? && s.agent.next == ""
    requires s.panel.secret == s.agent.current != "" && tok != "" && tok !in s.used && tok != s.agent.current
    ensures Played(s, Rotation(id, tok, save)) == Some(Rotated(s, tok, save))
  {
    hide Played;
    var a1, a2, a3, a4, a5 :=
      BeginRotation(id, tok), Action.Authenticate(id), Action.Observe(id, Saved), Handle(id, save), ReceiveAck(tok);
    var s1 := Apply(s, a1);
    assert s1.requests == map[id := Request(s.panel.secret, Rotate(tok), Sent)];
    PlayStep(s, a1, [a2] + ([a3] + ([a4] + ([a5] + []))));
    var s2 := Apply(s1, a2);
    assert s2.requests == map[id := Request(s.panel.secret, Rotate(tok), Authenticated(s.panel.secret))];
    PlayStep(s1, a2, [a3] + ([a4] + ([a5] + [])));
    var s3 := Apply(s2, a3);
    assert s3.requests == map[id := Request(s.panel.secret, Rotate(tok), Past)];
    PlayStep(s2, a3, [a4] + ([a5] + []));
    var s4 := Apply(s3, a4);
    assert s4.requests == map[] && s4.acks == {tok};
    PlayStep(s3, a4, [a5] + []);
    var s5 := Apply(s4, a5);
    assert s5.acks == {} && s5 == Rotated(s, tok, save);
    PlayStep(s4, a5, []);
    PlayNothing(s5);
  }

  lemma PlayNothing(s: State)
    ensures Played(s, []) == Some(s)
  {
  }

  /** The first rotation of an agent, then the first request with the new secret: a restart strands
      the panel after an unsaved staging, and after a promotion whose save tore the file or that
      left such a staging unsaved. */
  lemma FailedSaves(s: State, first: string, tok: string, staging: Save, promoting: Save)
    requires Init(s, first) && tok != "" && tok != first
    ensures Played(s, Rotation(0, tok, staging)).Some?
    ensures var s1 := Played(s, Rotation(0, tok, staging)).value;
            var plain := [SendPlain(1)] + ([Action.Authenticate(1)] + ([Action.Observe(1, promoting)] + []));
            && (RestartStrands(s1) <==> staging != Saved)
            && Played(s1, plain).Some?
            && (RestartStrands(Played(s1, plain).value) <==>
                  promoting == Torn || (promoting == NotWritten && staging != Saved))
  {
    hide Played;
    RotationPlays(s, 0, tok, staging);
    var s1 := Rotated(s, tok, staging);
    var a1, a2, a3 := SendPlain(1), Action.Authenticate(1), Action.Observe(1, promoting);
    PlayStep(s1, a1, [a2] + ([a3] + []));
    PlayStep(Apply(s1, a1), a2, [a3] + []);
    PlayStep(Apply(Apply(s1, a1), a2), a3, []);
    PlayNothing(Apply(Apply(Apply(s1, a1), a2), a3));
  }

  // ---- Requests that arrive late ----

  /** The agent takes one more request off the network, from authentication to its handler. */
  function TakesIn(s: State, id: nat, r: Request): Option<State>
    requires id !in s.requests
  {
    Played(s.(requests := s.requests[id := r]),
           [Action.Authenticate(id)] + ([Action.Observe(id, Saved)] + ([Handle(id, Saved)] + [])))
  }

  /** A rotate request that arrives after the panel abandoned it locks the panel out exactly when
      it brings a secret the agent does not hold, was signed with the agent's current secret, and
      the panel has meanwhile switched to the staged one. */
  lemma LateDeliveryStrands(s: State, id: nat, signedWith: string, late: string)
    requires MemoryInv(s) && id !in s.requests
    requires signedWith in s.held && MatchedSecret(s.agent, signedWith).Some?
    ensures TakesIn(s, id, Request(signedWith, Rotate(late), Sent)).Some?
    ensures var s' := TakesIn(s, id, Request(signedWith, Rotate(late), Sent)).value;
            MatchedSecret(s'.agent, s'.panel.secret).None? <==>
              (&& late !in {"", s.agent.current, s.agent.next}
               && s.panel.secret == s.agent.next && signedWith == s.agent.current)
  {
    hide Played;
    var s1 := s.(requests := s.requests[id := Request(signedWith, Rotate(late), Sent)]);
    var a1, a2, a3 := Action.Authenticate(id), Action.Observe(id, Saved), Handle(id, Saved);
    PlayStep(s1, a1, [a2] + ([a3] + []));
    PlayStep(Apply(s1, a1), a2, [a3] + []);
    PlayStep(Apply(Apply(s1, a1), a2), a3, []);
    PlayNothing(Apply(Apply(Apply(s1, a1), a2), a3));
    hide RequestInv;
  }

  /** The exception is reachable: abandon a rotation, complete another, and let the first arrive. */
  lemma LateDeliveryIsReachable(s: State, first: string, late: string, acked: string) returns (run: seq<State>)
    requires Init(s, first) && late != "" && acked != "" && first != late && first != acked && late != acked
    ensures var actions := AbandonThenRotate(late, acked);
            && IsRun(run, actions, first) && AllSaved(run, actions, first)
            && run[|actions|].requests == map[]
            && var s' := TakesIn(run[|actions|], 0, Request(first, Rotate(late), Sent));
               s'.Some? && MatchedSecret(s'.value.agent, s'.value.panel.secret).None?
  {
    hide Apply, MemoryInv, TakesIn, AbandonThenRotate;
    run := PlayToSwitch(s, first, late, acked);
    var actions := AbandonThenRotate(late, acked);
    RunKeepsInv(run, actions, first, |actions|);
    LateDeliveryStrands(run[|actions|], 0, first, late);
  }

  function AbandonThenRotate(late: string, acked: string): seq<Action> {
    [BeginRotation(0, late)] + ([Abandon] + Rotation(1, acked, Saved))
  }

  lemma PlayToSwitch(s: State, first: string, late: string, acked: string) returns (run: seq<State>)
    requires Init(s, first) && late != "" && acked != "" && first != late && first != acked && late != acked
    ensures var actions := AbandonThenRotate(late, acked);
            && IsRun(run, actions, first) && AllSaved(run, actions, first)
            && run[|actions|] == Rotated(s.(used := {first, late}), acked, Saved)
  {
    hide Played, Apply, Enabled, OnlySaved;
    var actions := AbandonThenRotate(late, acked);
    AbandonPlays(s, first, late, Rotation(1, acked, Saved));
    RotationPlays(s.(used := {first, late}), 1, acked, Saved);
    run := PlayedIsRun([s], [], first, actions);
    assert [] + actions == actions;
    SavedThroughout(late, acked);
    AllSavedHere(run, actions, first);
  }

  ghost predicate OnlySaved(actions: seq<Action>) {
    forall a :: a in actions && (a.Observe? || a.Handle?) ==> a.save == Saved
  }

  lemma SavedThroughout(late: string, acked: string)
    ensures OnlySaved(AbandonThenRotate(late, acked))
  {
  }

  lemma AbandonPlays(s: State, first: string, late: string, more: seq<Action>)
    requires Init(s, first) && late != "" && first != late
    ensures Played(s, [BeginRotation(0, late)] + ([Abandon] + more)) == Played(s.(used := {first, late}), more)
  {
    hide Played;
    var a1, a2 := BeginRotation(0, late), Abandon;
    PlayStep(s, a1, [a2] + more);
    PlayStep(Apply(s, a1), a2, more);
    assert Apply(Apply(s, a1), a2) == s.(used := {first, late});
  }

  lemma AllSavedHere(run: seq<State>, actions: seq<Action>, secret: string)
    requires IsRun(run, actions, secret)
    requires OnlySaved(actions)
    ensures AllSaved(run, actions, secret)
  {
    hide Apply;
  }
}
