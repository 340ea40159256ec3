/** The alert ledger, its dispatch and the node checks, over any number of evaluators sharing one
    database and any run of them. */
module Alerts {
  // `dispatch` of apps/control-plane/src/modules/alerts/alerts.service.ts and the node checks of
  // apps/control-plane/src/modules/alerts/alerts.evaluator.ts.

  import opened Text
  import opened Numerals

  datatype Status = Sent | Failed(error: string)

  /** A ledger row; `at` is the evaluator's clock reading behind it. Rows are in insertion order. */
  datatype EventRow = EventRow(event: string, dedupeKey: string, status: Status, at: int)

  type Ledger = seq<EventRow>

  predicate IsClaimed(l: Ledger, key: string) {
    exists i :: 0 <= i < |l| && l[i].dedupeKey == key
  }

  /** The insert claims the key, or conflicts and nothing happens. */
  function Claimed(l: Ledger, event: string, key: string, at: int): Ledger {
    if IsClaimed(l, key) then l else l + [EventRow(event, key, Sent, at)]
  }

  const ERROR_LIMIT := 1000

  function JoinErrors(errors: seq<string>): string {
    if errors == [] then ""
    else if |errors| == 1 then errors[0]
    else errors[0] + "; " + JoinErrors(errors[1..])
  }

  /** The text stored for delivery errors. */
  function ErrorText(errors: seq<string>): string {
    var text := JoinErrors(errors);
    if |text| <= ERROR_LIMIT then text else text[..ERROR_LIMIT]
  }

  /** The update after the sends, of the claimed row. */
  function Reported(l: Ledger, row: nat, errors: seq<string>): Ledger
    requires row < |l|
  {
    l[row := l[row].(status := Failed(ErrorText(errors)))]
  }

  /** A dispatch that nothing interrupts. */
  function Dispatched(l: Ledger, event: string, key: string, at: int, errors: seq<string>): Ledger {
    if IsClaimed(l, key) || errors == [] then Claimed(l, event, key, at)
    else Reported(Claimed(l, event, key, at), |l|, errors)
  }

  // ---- Keys ----

  const OFFLINE := "node.offline"
  const ONLINE := "node.online"

  predicate IsUuidChar(c: char) {
    '0' <= c <= '9' || 'a' <= c <= 'f' || c == '-'
  }

  /** `[0-9a-f-]{36}` */
  predicate IsUuid(id: string) {
    |id| == 36 && forall c :: c in id ==> IsUuidChar(c)
  }

  function StateKey(event: string, id: string, stamp: string): string {
    event + ":" + id + ":" + stamp
  }

  /** `^${event}:([0-9a-f-]{36}):` */
  function MatchId(event: string, key: string): Option<string> {
    var n := |event| + 1;
    if |key| > n + 36 && key[..n] == event + ":" && IsUuid(key[n..n + 36]) && key[n + 36] == ':'
    then Some(key[n..n + 36]) else None
  }

  /** `replace(/^node\.offline:/, 'node.online:')` */
  function ToOnlineKey(key: string): string {
    if HasPrefix(key, OFFLINE + ":") then ONLINE + ":" + key[|OFFLINE| + 1..] else key
  }

  // ---- Latest incidents ----

  const INCIDENT_LIMIT := 500

  /** Rows of one event, newest first. */
  function Incidents(l: Ledger, event: string): seq<string> {
    if l == [] then []
    else
      var last := l[|l| - 1];
      (if last.event == event then [last.dedupeKey] else []) + Incidents(l[..|l| - 1], event)
  }

  function Limited(keys: seq<string>): seq<string> {
    if |keys| <= INCIDENT_LIMIT then keys else keys[..INCIDENT_LIMIT]
  }

  /** For each id the first key, in order, that names it. */
  function FirstById(event: string, keys: seq<string>): map<string, string> {
    if keys == [] then map[]
    else
      var m, key := FirstById(event, keys[..|keys| - 1]), keys[|keys| - 1];
      var id := MatchId(event, key);
      if id.Some? && id.value !in m then m[id.value := key] else m
  }

  function LatestIncidentKeys(l: Ledger, event: string): map<string, string> {
    FirstById(event, Limited(Incidents(l, event)))
  }

  // ---- Deliveries ----

  datatype Rule = Rule(event: string, channelId: string, enabled: bool)

  datatype Channel = Channel(name: string, enabled: bool)

  /** The wiring a dispatch reads, and what sending to each channel would answer. */
  datatype Delivery = Delivery(rules: seq<Rule>, channels: map<string, Channel>, send: string -> Option<string>)

  /** The failures among the enabled channels that enabled rules wire to `event`, in rule order. */
  function Errors(rules: seq<Rule>, d: Delivery, event: string): seq<string> {
    if rules == [] then []
    else
      var before, r := Errors(rules[..|rules| - 1], d, event), rules[|rules| - 1];
      if r.event == event && r.enabled && r.channelId in d.channels && d.channels[r.channelId].enabled
         && d.send(r.channelId).Some?
      then before + [d.channels[r.channelId].name + ": " + d.send(r.channelId).value] else before
  }

  function Delivered(l: Ledger, event: string, key: string, at: int, d: Delivery): Ledger {
    Dispatched(l, event, key, at, Errors(d.rules, d, event))
  }

  // ---- The checks on nodes ----

  datatype Node = Node(id: string, online: bool, lastSeen: Option<int>)

  /** A metrics sample; `None` is a missing reading. */
  datatype Sample = Sample(node: string, cpu: Option<real>, mem: Option<real>, disk: Option<real>)

  datatype Thresholds = Thresholds(cpu: real, mem: real, disk: real)

  const RESOURCE_EVENTS := ["node.cpu.high", "node.mem.high", "node.disk.high"]

  predicate IsResourceEvent(e: string) {
    e in RESOURCE_EVENTS
  }

  predicate Breaches(s: Sample, event: string, t: Thresholds) {
    match event
    case "node.cpu.high" => s.cpu.Some? && s.cpu.value >= t.cpu
    case "node.mem.high" => s.mem.Some? && s.mem.value >= t.mem
    case "node.disk.high" => s.disk.Some? && s.disk.value >= t.disk
    case _ => false
  }

  predicate NodeIn(samples: seq<Sample>, node: string) {
    exists i :: 0 <= i < |samples| && samples[i].node == node
  }

  /** Sample `i` is the first of its node. */
  ghost predicate IsFirst(samples: seq<Sample>, i: int) {
    0 <= i < |samples| && forall k :: 0 <= k < i ==> samples[k].node != samples[i].node
  }

  /** The first sample of each node, in order. */
  function FirstPerNode(samples: seq<Sample>): (r: seq<Sample>)
    ensures forall j :: 0 <= j < |r| ==> exists i :: IsFirst(samples, i) && samples[i] == r[j]
    ensures forall node :: NodeIn(r, node) <==> NodeIn(samples, node)
    ensures forall i, j :: 0 <= i < j < |r| ==> r[i].node != r[j].node
  {
    if samples == [] then []
    else
      var n := |samples| - 1;
      var before, s := FirstPerNode(samples[..n]), samples[n];
      NodeInConcat(samples[..n], s);
      NodeInConcat(before, s);
      assert samples == samples[..n] + [s];
      assert forall i :: IsFirst(samples[..n], i) ==> IsFirst(samples, i) && samples[i] == samples[..n][i];
      if NodeIn(before, s.node) then before
      else
        assert IsFirst(samples, n) by {
          assert forall k :: 0 <= k < n ==> samples[..n][k] == samples[k];
        }
        before + [s]
  }

  lemma NodeInConcat(samples: seq<Sample>, s: Sample)
    ensures forall node :: NodeIn(samples + [s], node) <==> NodeIn(samples, node) || s.node == node
  {
    assert (samples + [s])[|samples|] == s;
    assert forall i :: 0 <= i < |samples| ==> (samples + [s])[i] == samples[i];
  }

  /** Offline and last seen before the cutoff. */
  predicate IsDue(n: Node, now: int, offlineMs: int) {
    !n.online && n.lastSeen.Some? && n.lastSeen.value < now - offlineMs
  }

  function OfflineStep(l: Ledger, n: Node, now: int, offlineMs: int, stampOf: int -> string, d: Delivery): Ledger {
    if IsDue(n, now, offlineMs)
    then Delivered(l, OFFLINE, StateKey(OFFLINE, n.id, stampOf(n.lastSeen.value)), now, d)
    else l
  }

  function OfflinePass(l: Ledger, nodes: seq<Node>, now: int, offlineMs: int, stampOf: int -> string,
                       d: Delivery): Ledger
  {
    if nodes == [] then l
    else
      var before := OfflinePass(l, nodes[..|nodes| - 1], now, offlineMs, stampOf, d);
      OfflineStep(before, nodes[|nodes| - 1], now, offlineMs, stampOf, d)
  }

  function Recovered(l: Ledger, latest: map<string, string>, id: string, now: int, errors: seq<string>): Ledger {
    if id in latest then Dispatched(l, ONLINE, ToOnlineKey(latest[id]), now, errors) else l
  }

  function RecoveryPass(l: Ledger, nodes: seq<Node>, latest: map<string, string>, now: int, d: Delivery): Ledger {
    if nodes == [] then l
    else
      var before, n := RecoveryPass(l, nodes[..|nodes| - 1], latest, now, d), nodes[|nodes| - 1];
      if n.online then Recovered(before, latest, n.id, now, Errors(d.rules, d, ONLINE)) else before
  }

  /** `rearm` is the re-arm window in milliseconds. */
  function ResourceKey(event: string, node: string, at: int, rearm: int): string
    requires at >= 0 && rearm > 0
  {
    StateKey(event, node, Decimal(at / rearm))
  }

  function SamplePass(l: Ledger, s: Sample, events: seq<string>, active: set<string>, t: Thresholds,
                      now: int, rearm: int, d: Delivery): Ledger
    requires now >= 0 && rearm > 0
  {
    if events == [] then l
    else
      var before, e := SamplePass(l, s, events[..|events| - 1], active, t, now, rearm, d), events[|events| - 1];
      if e in active && Breaches(s, e, t)
      then Delivered(before, e, ResourceKey(e, s.node, now, rearm), now, d) else before
  }

  function ResourcePass(l: Ledger, samples: seq<Sample>, active: set<string>, t: Thresholds,
                        now: int, rearm: int, d: Delivery): Ledger
    requires now >= 0 && rearm > 0
  {
    if samples == [] then l
    else
      SamplePass(ResourcePass(l, samples[..|samples| - 1], active, t, now, rearm, d),
                 samples[|samples| - 1], RESOURCE_EVENTS, active, t, now, rearm, d)
  }

  class Alerting {
    var events: Ledger

    method Dispatch(event: string, key: string, at: int, d: Delivery)
      modifies this
      ensures events == Delivered(old(events), event, key, at, d)
    {
      if exists i :: 0 <= i < |events| && events[i].dedupeKey == key {
        return;
      }
      var claimed := |events|;
      events := events + [EventRow(event, key, Sent, at)];
      var errors: seq<string> := [];
      for i := 0 to |d.rules|
        invariant errors == Errors(d.rules[..i], d, event)
        invariant events == old(events) + [EventRow(event, key, Sent, at)]
      {
        assert d.rules[..i + 1][..i] == d.rules[..i];
        var rule := d.rules[i];
        if rule.event != event || !rule.enabled {
          continue;
        }
        if rule.channelId !in d.channels || !d.channels[rule.channelId].enabled {
          continue;
        }
        var error := d.send(rule.channelId);
        if error.Some? {
          errors := errors + [d.channels[rule.channelId].name + ": " + error.value];
        }
      }
      assert d.rules[..|d.rules|] == d.rules;
      if errors != [] {
        events := events[claimed := events[claimed].(status := Failed(ErrorText(errors)))];
      }
    }

    method LatestKeys(event: string) returns (latest: map<string, string>)
      ensures latest == LatestIncidentKeys(events, event)
    {
      hide MatchId, Incidents, Limited;
      var keys := Limited(Incidents(events, event));
      latest := map[];
      for i := 0 to |keys|
        invariant latest == FirstById(event, keys[..i])
      {
        assert keys[..i + 1][..i] == keys[..i];
        var id := MatchId(event, keys[i]);
        if id.Some? && id.value !in latest {
          latest := latest[id.value := keys[i]];
        }
      }
      assert keys[..|keys|] == keys;
    }

    /** Fires for each node offline since before the cutoff. */
    method NodeOffline(nodes: seq<Node>, now: int, offlineMs: int, stampOf: int -> string, d: Delivery)
      modifies this
      ensures events == OfflinePass(old(events), nodes, now, offlineMs, stampOf, d)
    {
      var cutoff := now - offlineMs;
      for i := 0 to |nodes|
        invariant events == OfflinePass(old(events), nodes[..i], now, offlineMs, stampOf, d)
      {
        assert nodes[..i + 1][..i] == nodes[..i];
        var n := nodes[i];
        if !n.online && n.lastSeen.Some? && n.lastSeen.value < cutoff {
          Dispatch(OFFLINE, StateKey(OFFLINE, n.id, stampOf(n.lastSeen.value)), now, d);
        }
      }
      assert nodes[..|nodes|] == nodes;
    }

    /** Fires once for each node that had an incident and is back. */
    method NodeOnline(nodes: seq<Node>, now: int, d: Delivery)
      modifies this
      ensures events == RecoveryPass(old(events), nodes, LatestIncidentKeys(old(events), OFFLINE), now, d)
    {
      hide Delivered, Dispatched, LatestIncidentKeys, ToOnlineKey;
      var latest := LatestKeys(OFFLINE);
      for i := 0 to |nodes|
        invariant events == RecoveryPass(old(events), nodes[..i], latest, now, d)
      {
        assert nodes[..i + 1][..i] == nodes[..i];
        var n := nodes[i];
        if n.online && n.id in latest {
          DeliveredIsDispatched(events, ONLINE, ToOnlineKey(latest[n.id]), now, d);
          Dispatch(ONLINE, ToOnlineKey(latest[n.id]), now, d);
        }
      }
      assert nodes[..|nodes|] == nodes;
    }

    /** Fires for each reading over its threshold in the newest sample of each node.
        `samples` are the fresh ones, newest first. */
    method NodeResources(samples: seq<Sample>, active: set<string>, t: Thresholds, now: int, rearm: int, d: Delivery)
      requires now >= 0 && rearm > 0
      modifies this
      ensures events == ResourcePass(old(events), FirstPerNode(samples), active, t, now, rearm, d)
    {
      hide SamplePass, FirstPerNode;
      var latest := NewestPerNode(samples);
      for i := 0 to |latest|
        invariant events == ResourcePass(old(events), latest[..i], active, t, now, rearm, d)
      {
        assert latest[..i + 1][..i] == latest[..i];
        CheckSample(latest[i], active, t, now, rearm, d);
      }
      assert latest[..|latest|] == latest;
    }

    method NewestPerNode(samples: seq<Sample>) returns (latest: seq<Sample>)
      ensures latest == FirstPerNode(samples)
    {
      latest := [];
      for i := 0 to |samples|
        invariant latest == FirstPerNode(samples[..i])
      {
        assert samples[..i + 1][..i] == samples[..i];
        if !exists j :: 0 <= j < |latest| && latest[j].node == samples[i].node {
          latest := latest + [samples[i]];
        }
      }
      assert samples[..|samples|] == samples;
    }

    method CheckSample(s: Sample, active: set<string>, t: Thresholds, now: int, rearm: int, d: Delivery)
      requires now >= 0 && rearm > 0
      modifies this
      ensures events == SamplePass(old(events), s, RESOURCE_EVENTS, active, t, now, rearm, d)
    {
      hide Delivered, Breaches, ResourceKey;
      for k := 0 to |RESOURCE_EVENTS|
        invariant events == SamplePass(old(events), s, RESOURCE_EVENTS[..k], active, t, now, rearm, d)
      {
        assert RESOURCE_EVENTS[..k + 1][..k] == RESOURCE_EVENTS[..k];
        var event := RESOURCE_EVENTS[k];
        if event in active && Breaches(s, event, t) {
          Dispatch(event, ResourceKey(event, s.node, now, rearm), now, d);
        }
      }
      assert RESOURCE_EVENTS[..|RESOURCE_EVENTS|] == RESOURCE_EVENTS;
    }
  }

  lemma DeliveredIsDispatched(l: Ledger, event: string, key: string, at: int, d: Delivery)
    ensures Delivered(l, event, key, at, d) == Dispatched(l, event, key, at, Errors(d.rules, d, event))
  {
  }

  // ---- Runs: every update of any number of evaluators, in the order they commit ----

  datatype Action =
    | Offline(node: string, stamp: string, at: int)
    // `seen` is how much of the ledger the pass had read when it looked up the incidents.
    | Recovery(node: string, seen: nat, at: int)
    | Resource(event: string, node: string, at: int)
    | Other(event: string, key: string, at: int)
    // The end of a dispatch, when some of its sends failed.
    | Report(row: nat, errors: seq<string>)

  predicate Enabled(l: Ledger, a: Action) {
    match a
    case Offline(node, _, _) => IsUuid(node)
    case Recovery(_, seen, _) => seen <= |l|
    case Resource(e, node, at) => IsResourceEvent(e) && IsUuid(node) && at >= 0
    case Other(e, _, _) => !IsResourceEvent(e) && e != OFFLINE && e != ONLINE
    case Report(row, _) => row < |l|
  }

  function Apply(l: Ledger, a: Action, rearm: int): Ledger
    requires Enabled(l, a) && rearm > 0
  {
    match a
    case Offline(node, stamp, at) => Claimed(l, OFFLINE, StateKey(OFFLINE, node, stamp), at)
    case Recovery(node, seen, at) =>
      var latest := LatestIncidentKeys(l[..seen], OFFLINE);
      if node in latest then Claimed(l, ONLINE, ToOnlineKey(latest[node]), at) else l
    case Resource(e, node, at) => Claimed(l, e, ResourceKey(e, node, at, rearm), at)
    case Other(e, key, at) => Claimed(l, e, key, at)
    case Report(row, errors) => Reported(l, row, errors)
  }

  /** The actions, each enabled in turn, lead from `l` to `l'`. */
  ghost predicate RunsTo(l: Ledger, actions: seq<Action>, l': Ledger, rearm: int)
    decreases |actions|
  {
    rearm > 0 &&
    if actions == [] then l' == l
    else
      var n := |actions| - 1;
      exists m :: RunsTo(l, actions[..n], m, rearm) && Enabled(m, actions[n]) && l' == Apply(m, actions[n], rearm)
  }

  ghost predicate Reachable(l: Ledger, rearm: int) {
    exists actions :: RunsTo([], actions, l, rearm)
  }

  lemma {:induction false} RunsConcat(l: Ledger, a: seq<Action>, m: Ledger, b: seq<Action>, l': Ledger, rearm: int)
    requires RunsTo(l, a, m, rearm) && RunsTo(m, b, l', rearm)
    ensures RunsTo(l, a + b, l', rearm)
    decreases |b|
  {
    hide Enabled, Apply;
    if b == [] {
      assert a + b == a;
    } else {
      var n := |b| - 1;
      var k :| RunsTo(m, b[..n], k, rearm) && Enabled(k, b[n]) && l' == Apply(k, b[n], rearm);
      RunsConcat(l, a, m, b[..n], k, rearm);
      RunsMore(l, a + b[..n], k, b[n], rearm);
      assert a + b == a + b[..n] + [b[n]];
    }
  }

  lemma RunsMore(l: Ledger, actions: seq<Action>, m: Ledger, a: Action, rearm: int)
    requires RunsTo(l, actions, m, rearm) && Enabled(m, a)
    ensures RunsTo(l, actions + [a], Apply(m, a, rearm), rearm)
  {
    hide Enabled, Apply;
    assert (actions + [a])[..|actions|] == actions;
  }

  // ---- What the ledger always satisfies ----

  ghost predicate KeysUnique(l: Ledger) {
    forall i, j :: 0 <= i < j < |l| ==> l[i].dedupeKey != l[j].dedupeKey
  }

  /** Offline rows carry a node and a stamp. */
  ghost predicate IncidentRow(r: EventRow) {
    exists node, stamp :: IsUuid(node) && r.dedupeKey == StateKey(OFFLINE, node, stamp)
  }

  /** Row `i` reports the end of the incident in row `j`. */
  ghost predicate Ends(l: Ledger, i: nat, j: nat)
    requires i < |l| && j < |l|
  {
    l[j].event == OFFLINE && l[i].dedupeKey == ToOnlineKey(l[j].dedupeKey)
  }

  ghost predicate ResourceRow(r: EventRow, rearm: int) {
    rearm > 0 && r.at >= 0 && exists node :: IsUuid(node) && r.dedupeKey == ResourceKey(r.event, node, r.at, rearm)
  }

  ghost predicate Inv(l: Ledger, rearm: int) {
    && KeysUnique(l)
    && (forall i :: 0 <= i < |l| && l[i].event == OFFLINE ==> IncidentRow(l[i]))
    && (forall i :: 0 <= i < |l| && l[i].event == ONLINE ==> exists j :: 0 <= j < i && Ends(l, i, j))
    && (forall i :: 0 <= i < |l| && IsResourceEvent(l[i].event) ==> ResourceRow(l[i], rearm))
  }

  lemma {:induction false} IncidentsComeFromRows(l: Ledger, event: string)
    ensures forall k :: k in Incidents(l, event) ==>
              exists j :: 0 <= j < |l| && l[j].event == event && l[j].dedupeKey == k
  {
    if l != [] {
      IncidentsComeFromRows(l[..|l| - 1], event);
      forall k | k in Incidents(l, event)
        ensures exists j :: 0 <= j < |l| && l[j].event == event && l[j].dedupeKey == k
      {
        if k in Incidents(l[..|l| - 1], event) {
          var j :| 0 <= j < |l| - 1 && l[..|l| - 1][j].event == event && l[..|l| - 1][j].dedupeKey == k;
          assert l[j].dedupeKey == k;
        } else {
          assert l[|l| - 1].dedupeKey == k;
        }
      }
    }
  }

  ghost predicate Names(event: string, keys: seq<string>, i: int, id: string) {
    0 <= i < |keys| && MatchId(event, keys[i]) == Some(id)
  }

  /** The map holds exactly the ids that some key names, each with its first such key. */
  lemma {:induction false} FirstByIdIsFirst(event: string, keys: seq<string>, id: string)
    ensures id in FirstById(event, keys) <==> exists i :: Names(event, keys, i, id)
    ensures id in FirstById(event, keys) ==>
              exists i :: Names(event, keys, i, id) && FirstById(event, keys)[id] == keys[i]
                          && forall k :: 0 <= k < i ==> !Names(event, keys, k, id)
  {
    hide MatchId;
    if keys != [] {
      var n := |keys| - 1;
      var before := keys[..n];
      FirstByIdIsFirst(event, before, id);
      assert forall i :: 0 <= i < n ==> Names(event, before, i, id) == Names(event, keys, i, id);
      if id in FirstById(event, before) {
        var i :| Names(event, before, i, id) && FirstById(event, before)[id] == before[i]
                 && forall k :: 0 <= k < i ==> !Names(event, before, k, id);
        assert Names(event, keys, i, id) && FirstById(event, keys)[id] == keys[i];
      } else if id in FirstById(event, keys) {
        assert Names(event, keys, n, id);
      } else {
        assert !Names(event, keys, n, id);
      }
    }
  }

  /** The key looked up for a node names that node and is an incident already in the ledger. */
  lemma LatestIsAnIncident(l: Ledger, event: string, id: string)
    requires id in LatestIncidentKeys(l, event)
    ensures MatchId(event, LatestIncidentKeys(l, event)[id]) == Some(id)
    ensures exists j :: 0 <= j < |l| && l[j].event == event && l[j].dedupeKey == LatestIncidentKeys(l, event)[id]
  {
    hide MatchId, Incidents, FirstById;
    var keys := Incidents(l, event);
    FirstByIdIsFirst(event, Limited(keys), id);
    IncidentsComeFromRows(l, event);
    var key := LatestIncidentKeys(l, event)[id];
    assert key in Limited(keys);
    assert key in keys;
  }

  lemma ClaimKeepsInv(l: Ledger, event: string, key: string, at: int, rearm: int)
    requires Inv(l, rearm)
    requires var r := EventRow(event, key, Sent, at);
             && (event == OFFLINE ==> IncidentRow(r))
             && (event == ONLINE ==>
                   exists j :: 0 <= j < |l| && l[j].event == OFFLINE && key == ToOnlineKey(l[j].dedupeKey))
             && (IsResourceEvent(event) ==> ResourceRow(r, rearm))
    ensures Inv(Claimed(l, event, key, at), rearm)
  {
    hide ToOnlineKey, IsResourceEvent, IncidentRow, ResourceRow;
    var l' := Claimed(l, event, key, at);
    forall i | 0 <= i < |l'| && l'[i].event == ONLINE
      ensures exists j :: 0 <= j < i && Ends(l', i, j)
    {
      if i < |l| {
        var j :| 0 <= j < i && Ends(l, i, j);
        assert Ends(l', i, j);
      } else {
        var j :| 0 <= j < |l| && l[j].event == OFFLINE && key == ToOnlineKey(l[j].dedupeKey);
        assert Ends(l', i, j);
      }
    }
  }

  lemma {:induction false} ReportKeepsInv(l: Ledger, row: nat, errors: seq<string>, rearm: int)
    requires Inv(l, rearm) && row < |l|
    ensures Inv(Reported(l, row, errors), rearm)
  {
    hide ToOnlineKey, IsResourceEvent, ErrorText, StateKey, Decimal;
    var l' := Reported(l, row, errors);
    assert forall i :: 0 <= i < |l| ==>
             l'[i].event == l[i].event && l'[i].dedupeKey == l[i].dedupeKey && l'[i].at == l[i].at;
    assert forall i, j :: 0 <= i < |l| && 0 <= j < |l| && Ends(l, i, j) ==> Ends(l', i, j);
    assert forall i :: 0 <= i < |l| && IncidentRow(l[i]) ==> IncidentRow(l'[i]);
    assert forall i :: 0 <= i < |l| && ResourceRow(l[i], rearm) ==> ResourceRow(l'[i], rearm);
    hide IncidentRow, ResourceRow;
  }

  lemma {:induction false} StepKeepsInv(l: Ledger, a: Action, rearm: int)
    requires Inv(l, rearm) && rearm > 0 && Enabled(l, a)
    ensures Inv(Apply(l, a, rearm), rearm)
  {
    hide ToOnlineKey, StateKey, IsUuid, LatestIncidentKeys, Inv;
    match a
    case Offline(node, stamp, at) => ClaimKeepsInv(l, OFFLINE, StateKey(OFFLINE, node, stamp), at, rearm);
    case Recovery(node, seen, at) =>
      if node in LatestIncidentKeys(l[..seen], OFFLINE) {
        LatestIsAnIncident(l[..seen], OFFLINE, node);
        ClaimKeepsInv(l, ONLINE, ToOnlineKey(LatestIncidentKeys(l[..seen], OFFLINE)[node]), at, rearm);
      }
    case Resource(e, node, at) => ClaimKeepsInv(l, e, ResourceKey(e, node, at, rearm), at, rearm);
    case Other(e, key, at) => ClaimKeepsInv(l, e, key, at, rearm);
    case Report(row, errors) => ReportKeepsInv(l, row, errors, rearm);
  }

  lemma {:induction false} RunKeepsInv(l: Ledger, actions: seq<Action>, l': Ledger, rearm: int)
    requires Inv(l, rearm) && RunsTo(l, actions, l', rearm)
    ensures Inv(l', rearm)
    decreases |actions|
  {
    hide Inv, Enabled, Apply;
    if actions != [] {
      var n := |actions| - 1;
      var m :| RunsTo(l, actions[..n], m, rearm) && Enabled(m, actions[n]) && l' == Apply(m, actions[n], rearm);
      RunKeepsInv(l, actions[..n], m, rearm);
      StepKeepsInv(m, actions[n], rearm);
    }
  }

  /** Over all runs of any number of evaluators each key is claimed at most once, and every row has
      the shape of its event. */
  lemma ReachableIsSound(l: Ledger, rearm: int)
    requires Reachable(l, rearm)
    ensures Inv(l, rearm)
  {
    hide Inv, RunsTo;
    EmptyInv(rearm);
    var actions :| RunsTo([], actions, l, rearm);
    RunKeepsInv([], actions, l, rearm);
  }

  lemma EmptyInv(rearm: int)
    ensures Inv([], rearm)
  {
  }

  // ---- The checks are runs of these steps ----

  lemma {:induction false} ReachableOn(l: Ledger, actions: seq<Action>, l': Ledger, rearm: int)
    requires Reachable(l, rearm) && RunsTo(l, actions, l', rearm)
    ensures Reachable(l', rearm)
  {
    hide RunsTo;
    var before :| RunsTo([], before, l, rearm);
    RunsConcat([], before, l, actions, l', rearm);
  }

  lemma StepRuns(l: Ledger, a: Action, rearm: int)
    requires Enabled(l, a) && rearm > 0
    ensures RunsTo(l, [a], Apply(l, a, rearm), rearm)
  {
    hide Enabled, Apply;
    assert [a][..0] == [];
    assert RunsTo(l, [a][..0], l, rearm);
  }

  /** A dispatch is its claim, followed by its report when some sends failed. */
  lemma DispatchRuns(l: Ledger, a: Action, event: string, key: string, at: int, errors: seq<string>, rearm: int)
      returns (actions: seq<Action>)
    requires Enabled(l, a) && rearm > 0 && Apply(l, a, rearm) == Claimed(l, event, key, at)
    ensures RunsTo(l, actions, Dispatched(l, event, key, at, errors), rearm)
  {
    hide Apply, RunsTo;
    StepRuns(l, a, rearm);
    actions := [a];
    if !IsClaimed(l, key) && errors != [] {
      var report := Report(|l|, errors);
      assert Apply(Claimed(l, event, key, at), report, rearm) == Reported(Claimed(l, event, key, at), |l|, errors) by {
        ApplyReport(Claimed(l, event, key, at), |l|, errors, rearm);
      }
      StepRuns(Claimed(l, event, key, at), report, rearm);
      RunsConcat(l, [a], Claimed(l, event, key, at), [report], Dispatched(l, event, key, at, errors), rearm);
      actions := [a] + [report];
    }
  }

  lemma ApplyReport(l: Ledger, row: nat, errors: seq<string>, rearm: int)
    requires row < |l| && rearm > 0
    ensures Apply(l, Report(row, errors), rearm) == Reported(l, row, errors)
  {
  }

  lemma NothingRuns(l: Ledger, rearm: int)
    requires rearm > 0
    ensures RunsTo(l, [], l, rearm)
  {
  }

  ghost predicate EachNamed(nodes: seq<Node>) {
    forall i :: 0 <= i < |nodes| ==> IsUuid(nodes[i].id)
  }

  lemma {:induction false} OfflinePassRuns(l: Ledger, nodes: seq<Node>, now: int, offlineMs: int,
                                           stampOf: int -> string, d: Delivery, rearm: int)
      returns (actions: seq<Action>)
    requires rearm > 0 && EachNamed(nodes)
    ensures RunsTo(l, actions, OfflinePass(l, nodes, now, offlineMs, stampOf, d), rearm)
  {
    hide StateKey, IsUuid, Dispatched, RunsTo;
    actions := [];
    NothingRuns(l, rearm);
    if nodes != [] {
      var n, errors := nodes[|nodes| - 1], Errors(d.rules, d, OFFLINE);
      var before := OfflinePass(l, nodes[..|nodes| - 1], now, offlineMs, stampOf, d);
      actions := OfflinePassRuns(l, nodes[..|nodes| - 1], now, offlineMs, stampOf, d, rearm);
      if IsDue(n, now, offlineMs) {
        var stamp := stampOf(n.lastSeen.value);
        var more := DispatchRuns(before, Offline(n.id, stamp, now), OFFLINE, StateKey(OFFLINE, n.id, stamp), now,
                                 errors, rearm);
        RunsConcat(l, actions, before, more, OfflinePass(l, nodes, now, offlineMs, stampOf, d), rearm);
        actions := actions + more;
      }
    }
  }

  lemma DispatchAppends(l: Ledger, event: string, key: string, at: int, errors: seq<string>)
    ensures l <= Dispatched(l, event, key, at, errors)
  {
  }

  /** The incidents are looked up once, before the pass appends anything. */
  lemma {:induction false} RecoveryPassRuns(l: Ledger, nodes: seq<Node>, now: int, d: Delivery, rearm: int)
      returns (actions: seq<Action>)
    requires rearm > 0
    ensures var l' := RecoveryPass(l, nodes, LatestIncidentKeys(l, OFFLINE), now, d);
            l <= l' && RunsTo(l, actions, l', rearm)
  {
    hide LatestIncidentKeys, ToOnlineKey, Dispatched, RunsTo;
    actions := [];
    NothingRuns(l, rearm);
    if nodes != [] {
      var n, errors, latest := nodes[|nodes| - 1], Errors(d.rules, d, ONLINE), LatestIncidentKeys(l, OFFLINE);
      var before := RecoveryPass(l, nodes[..|nodes| - 1], latest, now, d);
      actions := RecoveryPassRuns(l, nodes[..|nodes| - 1], now, d, rearm);
      if n.online && n.id in latest {
        assert before[..|l|] == l;
        var key := ToOnlineKey(latest[n.id]);
        DispatchAppends(before, ONLINE, key, now, errors);
        var more := DispatchRuns(before, Recovery(n.id, |l|, now), ONLINE, key, now, errors, rearm);
        RunsConcat(l, actions, before, more, RecoveryPass(l, nodes, latest, now, d), rearm);
        actions := actions + more;
      }
    }
  }

  lemma {:induction false} SamplePassRuns(l: Ledger, s: Sample, events: seq<string>, active: set<string>, t: Thresholds,
                                          now: int, rearm: int, d: Delivery)
      returns (actions: seq<Action>)
    requires now >= 0 && rearm > 0 && IsUuid(s.node)
    requires forall e :: e in events ==> IsResourceEvent(e)
    ensures RunsTo(l, actions, SamplePass(l, s, events, active, t, now, rearm, d), rearm)
  {
    hide IsResourceEvent, IsUuid, ResourceKey, Breaches, Dispatched, RunsTo;
    actions := [];
    NothingRuns(l, rearm);
    if events != [] {
      var e := events[|events| - 1];
      var before := SamplePass(l, s, events[..|events| - 1], active, t, now, rearm, d);
      actions := SamplePassRuns(l, s, events[..|events| - 1], active, t, now, rearm, d);
      if e in active && Breaches(s, e, t) {
        var more := DispatchRuns(before, Resource(e, s.node, now), e, ResourceKey(e, s.node, now, rearm), now,
                                 Errors(d.rules, d, e), rearm);
        RunsConcat(l, actions, before, more, SamplePass(l, s, events, active, t, now, rearm, d), rearm);
        actions := actions + more;
      }
    }
  }

  lemma {:induction false} ResourcePassRuns(l: Ledger, samples: seq<Sample>, active: set<string>, t: Thresholds,
                                            now: int, rearm: int, d: Delivery)
      returns (actions: seq<Action>)
    requires now >= 0 && rearm > 0
    requires forall i :: 0 <= i < |samples| ==> IsUuid(samples[i].node)
    ensures RunsTo(l, actions, ResourcePass(l, samples, active, t, now, rearm, d), rearm)
  {
    hide IsUuid, SamplePass, RunsTo;
    actions := [];
    NothingRuns(l, rearm);
    if samples != [] {
      var n := |samples| - 1;
      var before := ResourcePass(l, samples[..n], active, t, now, rearm, d);
      actions := ResourcePassRuns(l, samples[..n], active, t, now, rearm, d);
      var more := SamplePassRuns(before, samples[n], RESOURCE_EVENTS, active, t, now, rearm, d);
      RunsConcat(l, actions, before, more, ResourcePass(l, samples, active, t, now, rearm, d), rearm);
      actions := actions + more;
    }
  }

  /** So what holds of every reachable ledger holds after any pass from one. */
  lemma ChecksStayReachable(l: Ledger, nodes: seq<Node>, samples: seq<Sample>, active: set<string>, t: Thresholds,
                            now: int, offlineMs: int, stampOf: int -> string, rearm: int, d: Delivery)
    requires Reachable(l, rearm) && now >= 0 && rearm > 0 && EachNamed(nodes)
    requires forall i :: 0 <= i < |samples| ==> IsUuid(samples[i].node)
    ensures Reachable(OfflinePass(l, nodes, now, offlineMs, stampOf, d), rearm)
    ensures Reachable(RecoveryPass(l, nodes, LatestIncidentKeys(l, OFFLINE), now, d), rearm)
    ensures Reachable(ResourcePass(l, samples, active, t, now, rearm, d), rearm)
  {
    hide Reachable, RunsTo, OfflinePass, RecoveryPass, ResourcePass, LatestIncidentKeys;
    var offline := OfflinePassRuns(l, nodes, now, offlineMs, stampOf, d, rearm);
    ReachableOn(l, offline, OfflinePass(l, nodes, now, offlineMs, stampOf, d), rearm);
    var online := RecoveryPassRuns(l, nodes, now, d, rearm);
    ReachableOn(l, online, RecoveryPass(l, nodes, LatestIncidentKeys(l, OFFLINE), now, d), rearm);
    var resources := ResourcePassRuns(l, samples, active, t, now, rearm, d);
    ReachableOn(l, resources, ResourcePass(l, samples, active, t, now, rearm, d), rearm);
  }

  // ---- The checks leave nothing unreported ----

  lemma ClaimedStays(l: Ledger, key: string, event: string, other: string, at: int, errors: seq<string>)
    requires IsClaimed(l, key)
    ensures IsClaimed(Dispatched(l, event, other, at, errors), key)
  {
    var i :| 0 <= i < |l| && l[i].dedupeKey == key;
    assert Dispatched(l, event, other, at, errors)[i] == l[i];
  }

  lemma DispatchClaims(l: Ledger, event: string, key: string, at: int, errors: seq<string>)
    ensures IsClaimed(Dispatched(l, event, key, at, errors), key)
  {
    var l' := Dispatched(l, event, key, at, errors);
    assert !IsClaimed(l, key) ==> l'[|l|].dedupeKey == key;
    assert IsClaimed(l, key) ==> l' == l;
  }

  /** After a pass every node that was due has its incident claimed. */
  lemma {:induction false} OfflineFires(l: Ledger, nodes: seq<Node>, now: int, offlineMs: int,
                                        stampOf: int -> string, d: Delivery, i: nat)
    requires i < |nodes| && IsDue(nodes[i], now, offlineMs)
    ensures IsClaimed(OfflinePass(l, nodes, now, offlineMs, stampOf, d),
                      StateKey(OFFLINE, nodes[i].id, stampOf(nodes[i].lastSeen.value)))
  {
    hide StateKey, Dispatched, IsClaimed;
    var n := |nodes| - 1;
    var before, errors := OfflinePass(l, nodes[..n], now, offlineMs, stampOf, d), Errors(d.rules, d, OFFLINE);
    var key := StateKey(OFFLINE, nodes[i].id, stampOf(nodes[i].lastSeen.value));
    if i < n {
      OfflineFires(l, nodes[..n], now, offlineMs, stampOf, d, i);
      if IsDue(nodes[n], now, offlineMs) {
        var other := StateKey(OFFLINE, nodes[n].id, stampOf(nodes[n].lastSeen.value));
        ClaimedStays(before, key, OFFLINE, other, now, errors);
      }
    } else {
      DispatchClaims(before, OFFLINE, key, now, errors);
    }
  }

  lemma {:induction false} RecoveryClaims(l: Ledger, nodes: seq<Node>, latest: map<string, string>, now: int,
                                          d: Delivery, i: nat)
    requires i < |nodes| && nodes[i].online && nodes[i].id in latest
    ensures IsClaimed(RecoveryPass(l, nodes, latest, now, d), ToOnlineKey(latest[nodes[i].id]))
  {
    hide ToOnlineKey, Dispatched, IsClaimed;
    var n := |nodes| - 1;
    var before, errors := RecoveryPass(l, nodes[..n], latest, now, d), Errors(d.rules, d, ONLINE);
    var key := ToOnlineKey(latest[nodes[i].id]);
    if i < n {
      RecoveryClaims(l, nodes[..n], latest, now, d, i);
      if nodes[n].online && nodes[n].id in latest {
        ClaimedStays(before, key, ONLINE, ToOnlineKey(latest[nodes[n].id]), now, errors);
      }
    } else {
      DispatchClaims(before, ONLINE, key, now, errors);
    }
  }

  /** After a pass every node that is back and has an incident among the newest rows has its newest
      incident answered. */
  lemma {:induction false} RecoveryFires(l: Ledger, nodes: seq<Node>, now: int, d: Delivery, i: nat)
    requires i < |nodes| && nodes[i].online
    requires var keys := Limited(Incidents(l, OFFLINE)); exists k :: Names(OFFLINE, keys, k, nodes[i].id)
    ensures var keys := Limited(Incidents(l, OFFLINE));
            exists k :: Names(OFFLINE, keys, k, nodes[i].id)
              && (forall j :: 0 <= j < k ==> !Names(OFFLINE, keys, j, nodes[i].id))
              && IsClaimed(RecoveryPass(l, nodes, LatestIncidentKeys(l, OFFLINE), now, d), ToOnlineKey(keys[k]))
  {
    hide ToOnlineKey, IsClaimed, RecoveryPass, FirstById, Incidents, Names;
    FirstByIdIsFirst(OFFLINE, Limited(Incidents(l, OFFLINE)), nodes[i].id);
    RecoveryClaims(l, nodes, LatestIncidentKeys(l, OFFLINE), now, d, i);
  }

  /** A pass claims nothing but the online keys of the incidents it looked up for online nodes. */
  lemma {:induction false} RecoveryClaimsOnly(l: Ledger, nodes: seq<Node>, latest: map<string, string>, now: int,
                                              d: Delivery, key: string)
    requires IsClaimed(RecoveryPass(l, nodes, latest, now, d), key)
    ensures IsClaimed(l, key) || exists i :: Answers(nodes, latest, i, key)
  {
    hide ToOnlineKey, Dispatched, IsClaimed, Answers;
    if nodes != [] {
      var n := |nodes| - 1;
      var before, errors := RecoveryPass(l, nodes[..n], latest, now, d), Errors(d.rules, d, ONLINE);
      if IsClaimed(before, key) {
        RecoveryClaimsOnly(l, nodes[..n], latest, now, d, key);
        if i :| Answers(nodes[..n], latest, i, key) {
          AnswersLonger(nodes, latest, i, key);
        }
      } else {
        DispatchClaimsOnly(before, ONLINE, ToOnlineKey(latest[nodes[n].id]), now, errors, key);
        LastAnswers(nodes, latest, key);
      }
    }
  }

  /** Node `i` is online and its incident is the one `key` answers. */
  ghost predicate Answers(nodes: seq<Node>, latest: map<string, string>, i: int, key: string) {
    0 <= i < |nodes| && nodes[i].online && nodes[i].id in latest && ToOnlineKey(latest[nodes[i].id]) == key
  }

  lemma AnswersLonger(nodes: seq<Node>, latest: map<string, string>, i: int, key: string)
    requires nodes != [] && Answers(nodes[..|nodes| - 1], latest, i, key)
    ensures Answers(nodes, latest, i, key)
  {
  }

  lemma LastAnswers(nodes: seq<Node>, latest: map<string, string>, key: string)
    requires nodes != []
    requires var n := nodes[|nodes| - 1]; n.online && n.id in latest && ToOnlineKey(latest[n.id]) == key
    ensures Answers(nodes, latest, |nodes| - 1, key)
  {
  }

  lemma DispatchClaimsOnly(l: Ledger, event: string, other: string, at: int, errors: seq<string>, key: string)
    requires !IsClaimed(l, key) && IsClaimed(Dispatched(l, event, other, at, errors), key)
    ensures key == other
  {
    var l' := Dispatched(l, event, other, at, errors);
    assert forall k :: 0 <= k < |l| ==> l'[k].dedupeKey == l[k].dedupeKey;
    var i :| 0 <= i < |l'| && l'[i].dedupeKey == key;
  }

  lemma OnlineKeysDiffer(a: string, b: string, id: string, other: string)
    requires MatchId(OFFLINE, a) == Some(id) && MatchId(OFFLINE, b) == Some(other)
    requires ToOnlineKey(a) == ToOnlineKey(b)
    ensures a == b && id == other
  {
    var n := |OFFLINE| + 1;
    assert a == OFFLINE + ":" + a[n..] && b == OFFLINE + ":" + b[n..];
    assert ToOnlineKey(a) == ONLINE + ":" + a[n..] && ToOnlineKey(b) == ONLINE + ":" + b[n..];
    assert ToOnlineKey(a)[|ONLINE| + 1..] == a[n..] && ToOnlineKey(b)[|ONLINE| + 1..] == b[n..];
  }

  /** For every incident of a node that is back: a pass answers it exactly when it is the node's
      newest one among the newest rows, unless it was answered before. */
  lemma RecoveryFiresExactly(l: Ledger, nodes: seq<Node>, now: int, d: Delivery, i: nat, incident: string)
    requires i < |nodes| && nodes[i].online && MatchId(OFFLINE, incident) == Some(nodes[i].id)
    ensures var latest := LatestIncidentKeys(l, OFFLINE);
            IsClaimed(RecoveryPass(l, nodes, latest, now, d), ToOnlineKey(incident)) <==>
              (IsClaimed(l, ToOnlineKey(incident)) || (nodes[i].id in latest && latest[nodes[i].id] == incident))
  {
    hide ToOnlineKey, MatchId, IsClaimed, RecoveryPass, LatestIncidentKeys;
    var latest, key := LatestIncidentKeys(l, OFFLINE), ToOnlineKey(incident);
    var l' := RecoveryPass(l, nodes, latest, now, d);
    if IsClaimed(l', key) {
      RecoveryClaimsOnly(l, nodes, latest, now, d, key);
      if j :| Answers(nodes, latest, j, key) {
        LatestIsAnIncident(l, OFFLINE, nodes[j].id);
        OnlineKeysDiffer(incident, latest[nodes[j].id], nodes[i].id, nodes[j].id);
      }
    }
    if IsClaimed(l, key) {
      PassKeepsClaims(l, nodes, latest, now, d, key);
    }
    if nodes[i].id in latest && latest[nodes[i].id] == incident {
      RecoveryClaims(l, nodes, latest, now, d, i);
    }
  }

  lemma {:induction false} PassKeepsClaims(l: Ledger, nodes: seq<Node>, latest: map<string, string>, now: int,
                                           d: Delivery, key: string)
    requires IsClaimed(l, key)
    ensures IsClaimed(RecoveryPass(l, nodes, latest, now, d), key)
  {
    hide ToOnlineKey, Dispatched, IsClaimed;
    if nodes != [] {
      var n := |nodes| - 1;
      PassKeepsClaims(l, nodes[..n], latest, now, d, key);
      if nodes[n].online && nodes[n].id in latest {
        ClaimedStays(RecoveryPass(l, nodes[..n], latest, now, d), key, ONLINE, ToOnlineKey(latest[nodes[n].id]), now,
                     Errors(d.rules, d, ONLINE));
      }
    }
  }

  lemma {:induction false} SampleKeeps(l: Ledger, key: string, s: Sample, events: seq<string>, active: set<string>,
                                       t: Thresholds, now: int, rearm: int, d: Delivery)
    requires now >= 0 && rearm > 0 && IsClaimed(l, key)
    ensures IsClaimed(SamplePass(l, s, events, active, t, now, rearm, d), key)
  {
    hide ResourceKey, Dispatched, IsClaimed, Breaches;
    if events != [] {
      var e, n := events[|events| - 1], |events| - 1;
      SampleKeeps(l, key, s, events[..n], active, t, now, rearm, d);
      if e in active && Breaches(s, e, t) {
        ClaimedStays(SamplePass(l, s, events[..n], active, t, now, rearm, d), key, e,
                     ResourceKey(e, s.node, now, rearm), now, Errors(d.rules, d, e));
      }
    }
  }

  lemma {:induction false} SampleFires(l: Ledger, s: Sample, events: seq<string>, event: string, active: set<string>,
                                       t: Thresholds, now: int, rearm: int, d: Delivery)
    requires now >= 0 && rearm > 0 && event in events && event in active && Breaches(s, event, t)
    ensures IsClaimed(SamplePass(l, s, events, active, t, now, rearm, d), ResourceKey(event, s.node, now, rearm))
  {
    hide ResourceKey, Dispatched, IsClaimed, Breaches;
    var e, n := events[|events| - 1], |events| - 1;
    var before := SamplePass(l, s, events[..n], active, t, now, rearm, d);
    if e == event {
      DispatchClaims(before, e, ResourceKey(e, s.node, now, rearm), now, Errors(d.rules, d, e));
    } else {
      assert events == events[..n] + [e];
      SampleFires(l, s, events[..n], event, active, t, now, rearm, d);
      if e in active && Breaches(s, e, t) {
        ClaimedStays(before, ResourceKey(event, s.node, now, rearm), e, ResourceKey(e, s.node, now, rearm),
                     now, Errors(d.rules, d, e));
      }
    }
  }

  /** After a pass every reading over its threshold has its alert claimed for the current window. */
  lemma {:induction false} ResourceFires(l: Ledger, samples: seq<Sample>, event: string, active: set<string>,
                                         t: Thresholds, now: int, rearm: int, d: Delivery, i: nat)
    requires now >= 0 && rearm > 0 && i < |samples|
    requires IsResourceEvent(event) && event in active && Breaches(samples[i], event, t)
    ensures IsClaimed(ResourcePass(l, samples, active, t, now, rearm, d),
                      ResourceKey(event, samples[i].node, now, rearm))
  {
    hide ResourceKey, IsClaimed, Breaches, SamplePass;
    var n := |samples| - 1;
    var before := ResourcePass(l, samples[..n], active, t, now, rearm, d);
    if i < n {
      ResourceFires(l, samples[..n], event, active, t, now, rearm, d, i);
      SampleKeeps(before, ResourceKey(event, samples[i].node, now, rearm), samples[n], RESOURCE_EVENTS, active, t,
                  now, rearm, d);
    } else {
      SampleFires(before, samples[n], RESOURCE_EVENTS, event, active, t, now, rearm, d);
    }
  }

  // ---- What the checks report, from their inputs ----

  lemma DispatchClaimsExactly(l: Ledger, event: string, other: string, at: int, errors: seq<string>, key: string)
    ensures IsClaimed(Dispatched(l, event, other, at, errors), key) <==> IsClaimed(l, key) || key == other
  {
    hide IsClaimed;
    if IsClaimed(l, key) {
      ClaimedStays(l, key, event, other, at, errors);
    }
    DispatchClaims(l, event, other, at, errors);
    if !IsClaimed(l, key) && IsClaimed(Dispatched(l, event, other, at, errors), key) {
      DispatchClaimsOnly(l, event, other, at, errors, key);
    }
  }

  /** Node `i` has been offline since before the cutoff, and `key` is its incident's. */
  ghost predicate DueUnder(nodes: seq<Node>, now: int, offlineMs: int, stampOf: int -> string, i: int, key: string) {
    && 0 <= i < |nodes| && !nodes[i].online && nodes[i].lastSeen.Some?
    && nodes[i].lastSeen.value < now - offlineMs
    && key == OFFLINE + ":" + nodes[i].id + ":" + stampOf(nodes[i].lastSeen.value)
  }

  /** The offline check claims exactly the incidents of the nodes that are due. */
  lemma {:induction false} OfflineFiresExactly(l: Ledger, nodes: seq<Node>, now: int, offlineMs: int,
                                               stampOf: int -> string, d: Delivery, key: string)
    ensures IsClaimed(OfflinePass(l, nodes, now, offlineMs, stampOf, d), key) <==>
            (IsClaimed(l, key) || exists i :: DueUnder(nodes, now, offlineMs, stampOf, i, key))
  {
    hide Dispatched, IsClaimed;
    if nodes != [] {
      var n := |nodes| - 1;
      var before := OfflinePass(l, nodes[..n], now, offlineMs, stampOf, d);
      OfflineFiresExactly(l, nodes[..n], now, offlineMs, stampOf, d, key);
      if i :| DueUnder(nodes[..n], now, offlineMs, stampOf, i, key) {
        assert DueUnder(nodes, now, offlineMs, stampOf, i, key);
      }
      if i :| DueUnder(nodes, now, offlineMs, stampOf, i, key) {
        assert i < n ==> DueUnder(nodes[..n], now, offlineMs, stampOf, i, key);
      }
      assert DueUnder(nodes, now, offlineMs, stampOf, n, key) <==>
             IsDue(nodes[n], now, offlineMs) && key == StateKey(OFFLINE, nodes[n].id, stampOf(nodes[n].lastSeen.value));
      if nodes[n].lastSeen.Some? {
        DispatchClaimsExactly(before, OFFLINE, StateKey(OFFLINE, nodes[n].id, stampOf(nodes[n].lastSeen.value)), now,
                              Errors(d.rules, d, OFFLINE), key);
      }
    }
  }

  /** A reading of the sample is at or over the threshold of an event that is wired, and `key` is its
      alert's for the current window. */
  ghost predicate OverUnder(s: Sample, event: string, active: set<string>, t: Thresholds, now: int, rearm: int,
                            key: string)
    requires now >= 0 && rearm > 0
  {
    && event in active
    && (|| (event == "node.cpu.high" && s.cpu.Some? && s.cpu.value >= t.cpu)
        || (event == "node.mem.high" && s.mem.Some? && s.mem.value >= t.mem)
        || (event == "node.disk.high" && s.disk.Some? && s.disk.value >= t.disk))
    && key == event + ":" + s.node + ":" + Decimal(now / rearm)
  }

  lemma EventsDiffer()
    ensures "node.cpu.high" != "node.mem.high" && "node.cpu.high" != "node.disk.high"
    ensures "node.mem.high" != "node.disk.high"
  {
    assert "node.cpu.high"[5] != "node.mem.high"[5] && "node.cpu.high"[5] != "node.disk.high"[5];
    assert "node.mem.high"[5] != "node.disk.high"[5];
  }

  lemma OverIsBreach(s: Sample, event: string, active: set<string>, t: Thresholds, now: int, rearm: int, key: string)
    requires now >= 0 && rearm > 0
    ensures OverUnder(s, event, active, t, now, rearm, key) <==>
            event in active && Breaches(s, event, t) && key == ResourceKey(event, s.node, now, rearm)
    ensures Breaches(s, event, t) ==> event in RESOURCE_EVENTS
  {
    EventsDiffer();
    assert event in RESOURCE_EVENTS <==>
           event == RESOURCE_EVENTS[0] || event == RESOURCE_EVENTS[1] || event == RESOURCE_EVENTS[2];
  }

  lemma {:induction false} SampleFiresExactly(l: Ledger, s: Sample, events: seq<string>, active: set<string>,
                                              t: Thresholds, now: int, rearm: int, d: Delivery, key: string)
    requires now >= 0 && rearm > 0
    ensures IsClaimed(SamplePass(l, s, events, active, t, now, rearm, d), key) <==>
            (IsClaimed(l, key) || exists e :: e in events && OverUnder(s, e, active, t, now, rearm, key))
  {
    hide Dispatched, IsClaimed, OverUnder, Breaches, ResourceKey;
    if events != [] {
      var n, e := |events| - 1, events[|events| - 1];
      var before := SamplePass(l, s, events[..n], active, t, now, rearm, d);
      SampleFiresExactly(l, s, events[..n], active, t, now, rearm, d, key);
      OverIsBreach(s, e, active, t, now, rearm, key);
      DispatchClaimsExactly(before, e, ResourceKey(e, s.node, now, rearm), now, Errors(d.rules, d, e), key);
      assert events == events[..n] + [e];
      assert forall x :: x in events <==> x in events[..n] || x == e;
    }
  }

  ghost predicate SampleOver(samples: seq<Sample>, active: set<string>, t: Thresholds, now: int, rearm: int,
                             i: int, event: string, key: string)
    requires now >= 0 && rearm > 0
  {
    0 <= i < |samples| && OverUnder(samples[i], event, active, t, now, rearm, key)
  }

  /** The resource check claims exactly the alerts of the readings that are at or over. */
  lemma {:induction false} ResourceFiresExactly(l: Ledger, samples: seq<Sample>, active: set<string>, t: Thresholds,
                                                now: int, rearm: int, d: Delivery, key: string)
    requires now >= 0 && rearm > 0
    ensures IsClaimed(ResourcePass(l, samples, active, t, now, rearm, d), key) <==>
            (IsClaimed(l, key) || exists i, e :: SampleOver(samples, active, t, now, rearm, i, e, key))
  {
    hide IsClaimed, OverUnder, SamplePass;
    if samples != [] {
      var n := |samples| - 1;
      var before := ResourcePass(l, samples[..n], active, t, now, rearm, d);
      ResourceFiresExactly(l, samples[..n], active, t, now, rearm, d, key);
      SampleFiresExactly(before, samples[n], RESOURCE_EVENTS, active, t, now, rearm, d, key);
      assert forall i, e :: SampleOver(samples, active, t, now, rearm, i, e, key) <==>
                            SampleOver(samples[..n], active, t, now, rearm, i, e, key)
                            || (i == n && OverUnder(samples[n], e, active, t, now, rearm, key));
      forall e | OverUnder(samples[n], e, active, t, now, rearm, key) ensures e in RESOURCE_EVENTS {
        OverIsBreach(samples[n], e, active, t, now, rearm, key);
      }
      if e :| e in RESOURCE_EVENTS && OverUnder(samples[n], e, active, t, now, rearm, key) {
        assert SampleOver(samples, active, t, now, rearm, n, e, key);
      }
    }
  }

  // ---- The newest incidents, counted in rows ----

  /** The rows of an event from position `j` on. */
  ghost function RowsFrom(l: Ledger, event: string, j: nat): nat
    requires j <= |l|
    decreases |l| - j
  {
    if j == |l| then 0 else RowsFrom(l, event, j + 1) + if l[j].event == event then 1 else 0
  }

  /** Newest first, a row comes after the rows of its event that follow it. */
  lemma {:induction false} IncidentPosition(l: Ledger, event: string, j: nat)
    requires j < |l| && l[j].event == event
    ensures RowsFrom(l, event, j + 1) < |Incidents(l, event)|
    ensures Incidents(l, event)[RowsFrom(l, event, j + 1)] == l[j].dedupeKey
    decreases |l|
  {
    var n := |l| - 1;
    if j < n {
      IncidentPosition(l[..n], event, j);
      RowsOfPrefix(l, event, j + 1);
    }
  }

  lemma {:induction false} RowsOfPrefix(l: Ledger, event: string, j: nat)
    requires j < |l|
    ensures RowsFrom(l, event, j) == RowsFrom(l[..|l| - 1], event, j) + if l[|l| - 1].event == event then 1 else 0
    decreases |l| - j
  {
    if j < |l| - 1 {
      RowsOfPrefix(l, event, j + 1);
    }
  }

  lemma {:induction false} IncidentRowOf(l: Ledger, event: string, k: nat) returns (j: nat)
    requires k < |Incidents(l, event)|
    ensures j < |l| && l[j].event == event && RowsFrom(l, event, j + 1) == k && Incidents(l, event)[k] == l[j].dedupeKey
    decreases |l|
  {
    var n := |l| - 1;
    if l[n].event == event && k == 0 {
      j := n;
    } else {
      j := IncidentRowOf(l[..n], event, if l[n].event == event then k - 1 else k);
      RowsOfPrefix(l, event, j + 1);
    }
  }

  /** Row `j` is the newest of the event that names `id`. */
  ghost predicate IsNewestOf(l: Ledger, event: string, j: int, id: string) {
    && 0 <= j < |l| && l[j].event == event && MatchId(event, l[j].dedupeKey) == Some(id)
    && forall k :: j < k < |l| && l[k].event == event ==> MatchId(event, l[k].dedupeKey) != Some(id)
  }

  /** The lookup finds a node's newest incident exactly when fewer than 500 rows of the event follow
      it. */
  lemma LatestIsNewestRow(l: Ledger, event: string, j: nat, id: string)
    requires IsNewestOf(l, event, j, id)
    ensures var latest := LatestIncidentKeys(l, event);
            && (id in latest <==> RowsFrom(l, event, j + 1) < 500)
            && (id in latest ==> latest[id] == l[j].dedupeKey)
  {
    hide MatchId, FirstById, Incidents;
    var all := Incidents(l, event);
    var keys, k := Limited(all), RowsFrom(l, event, j + 1);
    IncidentPosition(l, event, j);
    FirstByIdIsFirst(event, keys, id);
    forall m | Names(event, keys, m, id)
      ensures m >= k
    {
      var i := IncidentRowOf(l, event, m);
      assert !(j < i);
      RowsGrow(l, event, i + 1, j + 1);
    }
    if k < 500 {
      assert Names(event, keys, k, id);
    }
  }

  lemma {:induction false} RowsGrow(l: Ledger, event: string, i: nat, j: nat)
    requires i <= j <= |l|
    ensures RowsFrom(l, event, j) <= RowsFrom(l, event, i)
    decreases j - i
  {
    if i < j {
      RowsGrow(l, event, i + 1, j);
    }
  }

  // ---- Delivery errors, from the rules ----

  /** A rule that delivers the event to an enabled channel which fails. */
  ghost predicate FailsFor(r: Rule, d: Delivery, event: string) {
    && r.event == event && r.enabled
    && r.channelId in d.channels && d.channels[r.channelId].enabled && d.send(r.channelId).Some?
  }

  /** The errors are those of the failing rules, in their order. */
  lemma {:induction false} ErrorsInOrder(a: seq<Rule>, b: seq<Rule>, d: Delivery, event: string)
    ensures Errors(a + b, d, event) == Errors(a, d, event) + Errors(b, d, event)
  {
    if b == [] {
      assert a + b == a;
    } else {
      var n := |b| - 1;
      assert (a + b)[..|a| + n] == a + b[..n];
      ErrorsInOrder(a, b[..n], d, event);
    }
  }

  lemma ErrorOfRule(r: Rule, d: Delivery, event: string)
    ensures Errors([r], d, event) ==
            if FailsFor(r, d, event) then [d.channels[r.channelId].name + ": " + d.send(r.channelId).value] else []
  {
    assert [r][..0] == [];
  }

  lemma {:induction false} NoErrors(rules: seq<Rule>, d: Delivery, event: string)
    ensures Errors(rules, d, event) == [] <==> forall i :: 0 <= i < |rules| ==> !FailsFor(rules[i], d, event)
  {
    hide FailsFor;
    if rules != [] {
      var n := |rules| - 1;
      NoErrors(rules[..n], d, event);
      assert rules == rules[..n] + [rules[n]];
      ErrorsInOrder(rules[..n], [rules[n]], d, event);
      ErrorOfRule(rules[n], d, event);
      hide Errors;
    }
  }

  /** A new row ends as sent exactly when no rule failed. */
  lemma RowStatus(l: Ledger, event: string, key: string, at: int, d: Delivery)
    requires !IsClaimed(l, key)
    ensures var row := Delivered(l, event, key, at, d)[|l|];
            && row.event == event && row.dedupeKey == key && row.at == at
            && (row.status == Sent <==> forall i :: 0 <= i < |d.rules| ==> !FailsFor(d.rules[i], d, event))
  {
    hide FailsFor, Errors, IsClaimed;
    NoErrors(d.rules, d, event);
  }

  /** One failing rule leaves its channel and its error, cut to 1000 characters. */
  lemma OneFailure(l: Ledger, event: string, key: string, at: int, d: Delivery, r: Rule)
    requires !IsClaimed(l, key) && d.rules == [r] && FailsFor(r, d, event)
    ensures var text := d.channels[r.channelId].name + ": " + d.send(r.channelId).value;
            Delivered(l, event, key, at, d)[|l|].status == Failed(if |text| <= 1000 then text else text[..1000])
  {
    hide Errors, IsClaimed;
    ErrorOfRule(r, d, event);
  }

  // ---- Recoveries pair with incidents ----

  lemma OnlineKeyOf(node: string, stamp: string)
    ensures ToOnlineKey(StateKey(OFFLINE, node, stamp)) == StateKey(ONLINE, node, stamp)
  {
    var rest := node + ":" + stamp;
    assert StateKey(OFFLINE, node, stamp) == OFFLINE + ":" + rest;
    assert StateKey(ONLINE, node, stamp) == ONLINE + ":" + rest;
    assert (OFFLINE + ":" + rest)[|OFFLINE| + 1..] == rest;
  }

  /** Every recovery follows an incident of the same node and stamp, and no incident is reported
      recovered twice. */
  lemma {:induction false} RecoveriesPairWithIncidents(l: Ledger, rearm: int)
    requires Reachable(l, rearm)
    ensures KeysUnique(l)
    ensures forall i :: 0 <= i < |l| && l[i].event == ONLINE ==>
              exists j, node, stamp ::
                0 <= j < i && l[j].event == OFFLINE && l[j].dedupeKey == StateKey(OFFLINE, node, stamp)
                && l[i].dedupeKey == StateKey(ONLINE, node, stamp)
    ensures forall i, k, j :: 0 <= i < |l| && 0 <= k < |l| && 0 <= j < |l| && Ends(l, i, j) && Ends(l, k, j) ==> i == k
  {
    hide ToOnlineKey, StateKey, IsUuid;
    ReachableIsSound(l, rearm);
    forall i | 0 <= i < |l| && l[i].event == ONLINE
      ensures exists j, node, stamp ::
                0 <= j < i && l[j].event == OFFLINE && l[j].dedupeKey == StateKey(OFFLINE, node, stamp)
                && l[i].dedupeKey == StateKey(ONLINE, node, stamp)
    {
      var j :| 0 <= j < i && Ends(l, i, j);
      assert IncidentRow(l[j]);
      var node, stamp :| IsUuid(node) && l[j].dedupeKey == StateKey(OFFLINE, node, stamp);
      OnlineKeyOf(node, stamp);
    }
  }

  // ---- Counting rows ----

  ghost function Image<T, U>(f: T -> U, s: set<T>): set<U> {
    set x | x in s :: f(x)
  }

  lemma {:induction false} ImageIsNoLarger<T, U>(f: T -> U, s: set<T>)
    ensures |Image(f, s)| <= |s|
    ensures (forall x, y :: x in s && y in s && f(x) == f(y) ==> x == y) ==> |Image(f, s)| == |s|
  {
    if s != {} {
      var x :| x in s;
      ImageIsNoLarger(f, s - {x});
      assert Image(f, s) == Image(f, s - {x}) + {f(x)};
    }
  }

  lemma SubsetIsNoLarger<T>(a: set<T>, b: set<T>)
    requires a <= b
    ensures |a| <= |b|
  {
    assert b == a + (b - a);
  }

  /** Rows whose keys all come from `s` through `f` are no more than `s`. */
  lemma RowsAreNoMore<T>(l: Ledger, rows: set<int>, s: set<T>, f: T -> string)
    requires KeysUnique(l)
    requires forall i :: i in rows ==> 0 <= i < |l| && exists x :: x in s && l[i].dedupeKey == f(x)
    ensures |rows| <= |s|
  {
    var key := (i: int) => if 0 <= i < |l| then l[i].dedupeKey else "";
    ImageIsNoLarger(key, rows);
    ImageIsNoLarger(f, s);
    forall k | k in Image(key, rows) ensures k in Image(f, s) {
      var i :| i in rows && k == key(i);
      assert k == l[i].dedupeKey;
    }
    SubsetIsNoLarger(Image(key, rows), Image(f, s));
  }

  ghost function RowsOf(l: Ledger, event: string): set<int> {
    set i | 0 <= i < |l| && l[i].event == event
  }

  /** Recoveries never outnumber incidents. */
  lemma RecoveriesAreNoMoreThanIncidents(l: Ledger, rearm: int)
    requires Reachable(l, rearm)
    ensures |RowsOf(l, ONLINE)| <= |RowsOf(l, OFFLINE)|
  {
    hide ToOnlineKey;
    ReachableIsSound(l, rearm);
    var partnerKey := (j: int) => if 0 <= j < |l| then ToOnlineKey(l[j].dedupeKey) else "";
    forall i | i in RowsOf(l, ONLINE)
      ensures exists j :: j in RowsOf(l, OFFLINE) && l[i].dedupeKey == partnerKey(j)
    {
      var j :| 0 <= j < i && Ends(l, i, j);
      assert j in RowsOf(l, OFFLINE) && l[i].dedupeKey == partnerKey(j);
    }
    RowsAreNoMore(l, RowsOf(l, ONLINE), RowsOf(l, OFFLINE), partnerKey);
  }

  // ---- How often a resource alert fires ----

  /** The rows of one event about one node stamped within [t0, t1]. */
  ghost function RowsWithin(l: Ledger, event: string, node: string, t0: int, t1: int): set<int> {
    set i | 0 <= i < |l| && l[i].event == event && MatchId(event, l[i].dedupeKey) == Some(node) && t0 <= l[i].at <= t1
  }

  /** The key of an event names its node, whatever the stamp. */
  lemma KeyNamesNode(event: string, id: string, stamp: string)
    requires IsUuid(id)
    ensures MatchId(event, StateKey(event, id, stamp)) == Some(id)
  {
    var key := StateKey(event, id, stamp);
    assert key[..|event| + 1] == event + ":";
    assert key[|event| + 1..|event| + 37] == id;
  }

  function Buckets(a: int, b: int): (s: set<int>)
    requires a <= b + 1
    ensures |s| == b + 1 - a
    ensures forall x :: x in s <==> a <= x <= b
    decreases b + 1 - a
  {
    if a == b + 1 then {} else {a} + Buckets(a + 1, b)
  }

  lemma {:induction false} DivisionIsMonotone(x: int, y: int, d: int)
    requires x <= y && d > 0
    ensures x / d <= y / d
  {
    ProductsOrder(x / d, y / d, d);
  }

  lemma {:induction false} ProductsOrder(a: int, b: int, d: int)
    requires d > 0 && d * a < d * b + d
    ensures a <= b
  {
    if b < a {
      ProductIsMonotone(b + 1, a, d);
      Distribute(b, d);
    }
  }

  lemma ProductIsMonotone(a: int, b: int, d: int)
    requires a <= b && d > 0
    ensures d * a <= d * b
  {
  }

  lemma Distribute(b: int, d: int)
    ensures d * (b + 1) == d * b + d
  {
  }

  /** A resource alert of a node fires at most once in each re-arm window that the interval meets. */
  lemma ResourceAlertsAreRateLimited(l: Ledger, rearm: int, event: string, node: string, t0: int, t1: int)
    requires Reachable(l, rearm) && rearm > 0
    requires IsResourceEvent(event) && t0 <= t1
    ensures |RowsWithin(l, event, node, t0, t1)| <= t1 / rearm - t0 / rearm + 1
  {
    hide MatchId, StateKey, IsResourceEvent, IsUuid;
    ReachableIsSound(l, rearm);
    DivisionIsMonotone(t0, t1, rearm);
    var rows, buckets := RowsWithin(l, event, node, t0, t1), Buckets(t0 / rearm, t1 / rearm);
    var bucketKey := (b: int) => if b >= 0 then StateKey(event, node, Decimal(b)) else "";
    forall i | i in rows
      ensures exists b :: b in buckets && l[i].dedupeKey == bucketKey(b)
    {
      assert ResourceRow(l[i], rearm);
      var other :| IsUuid(other) && l[i].dedupeKey == ResourceKey(event, other, l[i].at, rearm);
      KeyNamesNode(event, other, Decimal(l[i].at / rearm));
      DivisionIsMonotone(t0, l[i].at, rearm);
      DivisionIsMonotone(l[i].at, t1, rearm);
      assert l[i].at / rearm in buckets;
    }
    RowsAreNoMore(l, rows, buckets, bucketKey);
  }
}
