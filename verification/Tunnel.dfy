/** The one shared client session of the tunnel server: `handleControl` and the read in `relay` of
    services/agent/internal/tunnel/server.go, with any number of handlers running concurrently.
    Sessions are numbered by the handler that created them. */
module Tunnel {
  import opened Text

  /** The field the lock protects, and which sessions are open. */
  datatype Registry = Registry(session: Option<nat>, open: set<nat>)

  function Installed(r: Registry, sess: nat): Registry {
    Registry(Some(sess), if r.session.Some? then r.open - {r.session.value} else r.open)
  }

  function CleanedUp(r: Registry, sess: nat): Registry {
    if r.session == Some(sess) then r.(session := None) else r
  }

  function Relayed(r: Registry): Option<nat> {
    if r.session.Some? && r.session.value in r.open then r.session else None
  }

  class Server {
    var session: Option<nat>
    var open: set<nat>

    ghost function Value(): Registry
      reads this
    {
      Registry(session, open)
    }

    constructor ()
      ensures Value() == Registry(None, {})
    {
      session, open := None, {};
    }

    /** The lock section that replaces a stale client. */
    method Install(sess: nat)
      modifies this
      ensures Value() == Installed(old(Value()), sess)
    {
      if session.Some? {
        open := open - {session.value};
      }
      session := Some(sess);
    }

    /** The lock section after the handler's own session has closed. */
    method Cleanup(sess: nat)
      modifies this
      ensures Value() == CleanedUp(old(Value()), sess)
    {
      if session == Some(sess) {
        session := None;
      }
    }

    /** The read lock section of `relay`. */
    method CurrentSession() returns (sess: Option<nat>)
      ensures sess == Value().session
    {
      sess := session;
    }

    /** A public connection: dropped, or relayed over a stream of the session, which only an open
        session gives. */
    method Relay() returns (stream: Option<nat>)
      ensures stream == Relayed(Value())
    {
      var sess := CurrentSession();
      if sess.None? || sess.value !in open {
        return None;
      }
      stream := sess;
    }
  }

  // ---- Concurrent handlers ----

  /** Connected: the session exists and is not installed yet. Serving: installed and waiting for
      the session to close. */
  datatype Pc = Connected | Serving | Finished

  /** `order` lists the sessions in the order they were installed. */
  datatype State = State(reg: Registry, pcs: map<nat, Pc>, order: seq<nat>)

  datatype Action =
    | Connect(h: nat)
    | Install(h: nat)
    | SessionEnds(h: nat)
    | Cleanup(h: nat)

  predicate Enabled(s: State, a: Action) {
    match a
    case Connect(h) => h !in s.pcs
    case Install(h) => h in s.pcs && s.pcs[h].Connected?
    case SessionEnds(h) => h in s.reg.open
    case Cleanup(h) => h in s.pcs && s.pcs[h].Serving? && h !in s.reg.open
  }

  function Apply(s: State, a: Action): State
    requires Enabled(s, a)
  {
    match a
    case Connect(h) =>
      s.(reg := s.reg.(open := s.reg.open + {h}), pcs := s.pcs[h := Connected])
    case Install(h) =>
      State(Installed(s.reg, h), s.pcs[h := Serving], s.order + [h])
    case SessionEnds(h) => s.(reg := s.reg.(open := s.reg.open - {h}))
    case Cleanup(h) => s.(reg := CleanedUp(s.reg, h), pcs := s.pcs[h := Finished])
  }

  ghost predicate IsRun(run: seq<State>, actions: seq<Action>) {
    && |run| == |actions| + 1 && run[0] == State(Registry(None, {}), map[], [])
    && forall i :: 0 <= i < |actions| ==>
         Enabled(run[i], actions[i]) && run[i + 1] == Apply(run[i], actions[i])
  }

  function Newest(s: State): Option<nat> {
    if s.order == [] then None else Some(s.order[|s.order| - 1])
  }

  /** No lost session, and no lost client: of the installed sessions only the newest can be open,
      and while its handler has not cleaned up it is the one the relays read. */
  ghost predicate Inv(s: State) {
    && (forall h :: h in s.order <==> h in s.pcs && !s.pcs[h].Connected?)
    && s.reg.open <= s.pcs.Keys
    && (forall i, j :: 0 <= i < j < |s.order| ==> s.order[i] != s.order[j])
    && (forall h :: h in s.order && h in s.reg.open ==> Newest(s) == Some(h))
    && (forall h :: h in s.pcs && s.pcs[h].Finished? ==> h !in s.reg.open)
    && s.reg.session == (if s.order != [] && s.pcs[s.order[|s.order| - 1]].Serving? then Newest(s) else None)
  }

  lemma StepKeepsInv(s: State, a: Action)
    requires Inv(s) && Enabled(s, a)
    ensures Inv(Apply(s, a))
  {
    var s' := Apply(s, a);
    if a.Install? {
      assert s'.order[|s'.order| - 1] == a.h;
      assert forall h :: h in s'.order <==> h in s.order || h == a.h;
      assert a.h !in s.order;
      assert s.order != [] ==> s.order[|s.order| - 1] in s.order;
    }
  }

  lemma {:induction false} RunKeepsInv(run: seq<State>, actions: seq<Action>, i: nat)
    requires IsRun(run, actions) && i < |run|
    ensures Inv(run[i])
  {
    if i > 0 {
      RunKeepsInv(run, actions, i - 1);
      StepKeepsInv(run[i - 1], actions[i - 1]);
    }
  }

  /** In every interleaving at most one installed session is open; it is the newest, and it is what
      relays are handed. Relays are never handed an older one, and once every handler that
      installed a session has finished they are handed none. */
  lemma OneLiveSession(run: seq<State>, actions: seq<Action>, i: nat)
    requires IsRun(run, actions) && i < |run|
    ensures var s := run[i];
            && (forall a, b :: a in s.order && b in s.order && a in s.reg.open && b in s.reg.open ==> a == b)
            && (forall h :: h in s.order && h in s.reg.open ==> Newest(s) == Some(h))
            && (Newest(s).Some? && Newest(s).value in s.reg.open ==> s.reg.session == Newest(s))
            && (s.reg.session.Some? ==> s.reg.session == Newest(s))
            && Relayed(s.reg) == (if Newest(s).Some? && Newest(s).value in s.reg.open then Newest(s) else None)
            && ((forall h :: h in s.pcs && !s.pcs[h].Connected? ==> s.pcs[h].Finished?) ==> s.reg.session == None)
  {
    RunKeepsInv(run, actions, i);
    var s := run[i];
    assert s.order != [] ==> s.order[|s.order| - 1] in s.order;
  }

  lemma {:induction false} OrderOnlyGrows(run: seq<State>, actions: seq<Action>, i: nat, j: nat)
    requires IsRun(run, actions) && i <= j < |run|
    ensures run[i].order <= run[j].order
    decreases j
  {
    if i < j {
      OrderOnlyGrows(run, actions, i, j - 1);
      assert run[j] == Apply(run[j - 1], actions[j - 1]);
    }
  }

  /** A relay that reads the session and opens its stream later, after any other steps, still only
      reaches the newest session; on any other the stream cannot be opened. */
  lemma LateRelayReachesNewest(run: seq<State>, actions: seq<Action>, i: nat, j: nat)
    requires IsRun(run, actions) && i <= j < |run| && run[i].reg.session.Some?
    ensures var h := run[i].reg.session.value;
            h in run[j].reg.open <==> Relayed(run[j].reg) == Some(h)
    ensures run[i].reg.session.value in run[j].reg.open ==> run[i].reg.session == Newest(run[j])
  {
    RunKeepsInv(run, actions, i);
    RunKeepsInv(run, actions, j);
    OrderOnlyGrows(run, actions, i, j);
    var h := run[i].reg.session.value;
    assert h == run[i].order[|run[i].order| - 1] == run[j].order[|run[i].order| - 1];
    assert h in run[j].order;
    OneLiveSession(run, actions, j);
  }

  /** The cleanup of a handler whose session was replaced leaves the newer session in place. */
  lemma StaleCleanupIsHarmless(run: seq<State>, actions: seq<Action>, i: nat)
    requires IsRun(run, actions) && i < |actions| && actions[i].Cleanup?
    requires Newest(run[i]) != Some(actions[i].h)
    ensures run[i + 1].reg == run[i].reg
  {
    RunKeepsInv(run, actions, i);
  }
}
