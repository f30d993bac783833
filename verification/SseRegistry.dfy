/**
 * The server's registry of analytics streams (apps/api/src/sse/connection-manager.ts).
 *
 * A click is handled in two halves around the await of the statistics. The first half keeps a reference to a
 * JavaScript Set, which later adds and removes may change, empty, or cut off from the registry; so Sets are
 * modelled as objects in a store, named by handles. Connection ids carry a counter that only grows, so a Map or
 * Set of connections is iterated in ascending id order.
 */
module SseRegistry {
  import opened Types
  import SseStream

  type Message = SseStream.Message

  datatype Conn = Conn(shortCode: string, userId: string)

  /** A Set of connection ids. `code` is history: the channel the Set was made for. */
  datatype IdSet = IdSet(code: string, ids: set<nat>)

  /** The connections by id, the Sets of their channels, and the last id handed out. */
  datatype Maps = Maps(
    connections: map<nat, Conn>,
    subscriptions: map<string, nat>,
    sets: seq<IdSet>,
    idCounter: nat)

  /** A click handler waiting for its statistics. */
  datatype Broadcast = Broadcast(code: string, handle: nat)

  /**
   * `owners` is the owner column of the links, which changes at most once. `log` and `cleared` are history: what
   * was written to each connection, and how many connections shutdowns dropped.
   */
  datatype Registry = Registry(
    limit: nat,
    maps: Maps,
    gauge: nat,
    eventsSent: nat,
    waiting: seq<Broadcast>,
    owners: map<string, string>,
    log: map<nat, seq<Message>>,
    cleared: nat)

  const SHUTDOWN: Message := SseStream.Event("shutdown", "{\"message\":\"Server shutting down\"}")

  // ---------------------------------------------------------------- the operations

  /** The Set a channel is subscribed with. */
  function SetOf(m: Maps, code: string): Option<nat> {
    if code in m.subscriptions && m.subscriptions[code] < |m.sets| then Some(m.subscriptions[code]) else None
  }

  function Unlink(m: Maps, id: nat): Maps {
    if id !in m.connections then m
    else
      var code := m.connections[id].shortCode;
      var left := m.(connections := m.connections - {id});
      match SetOf(m, code)
      case None => left
      case Some(h) =>
        var ids := m.sets[h].ids - {id};
        left.(sets := m.sets[h := IdSet(m.sets[h].code, ids)],
              subscriptions := if ids == {} then m.subscriptions - {code} else m.subscriptions)
  }

  function Link(m: Maps, code: string, user: string): Maps {
    var id := m.idCounter + 1;
    var h := if SetOf(m, code).Some? then SetOf(m, code).value else |m.sets|;
    var sets := if h < |m.sets| then m.sets else m.sets + [IdSet(code, {})];
    Maps(m.connections[id := Conn(code, user)], m.subscriptions[code := h],
         sets[h := IdSet(sets[h].code, sets[h].ids + {id})], id)
  }

  /** removeConnection; the gauge never goes below zero. */
  function Remove(r: Registry, id: nat): Registry {
    if id !in r.maps.connections then r
    else r.(maps := Unlink(r.maps, id), gauge := if r.gauge == 0 then 0 else r.gauge - 1)
  }

  function Logged(log: map<nat, seq<Message>>, id: nat): seq<Message> {
    if id in log then log[id] else []
  }

  /** Writes one message; a failing write removes the connection. Pings are not counted as events. */
  function Send(r: Registry, id: nat, m: Message, failing: set<nat>): Registry {
    if id !in r.maps.connections then r
    else if id in failing then Remove(r, id)
    else
      r.(log := r.log[id := Logged(r.log, id) + [m]],
         eventsSent := if m.Event? then r.eventsSent + 1 else r.eventsSent)
  }

  /** Sends to the ids below n of a Set or Map, in iteration order. */
  function SendUpTo(r: Registry, ids: set<nat>, n: nat, m: Message, failing: set<nat>): Registry {
    if n == 0 then r
    else
      var q := SendUpTo(r, ids, n - 1, m, failing);
      if n - 1 in ids then Send(q, n - 1, m, failing) else q
  }

  function Register(r: Registry, code: string, user: string): Registry {
    r.(maps := Link(r.maps, code, user), gauge := r.gauge + 1)
  }

  /** addConnection; at the limit it answers 503 and changes nothing. `json` is the serialised payload. */
  function Add(r: Registry, code: string, user: string, json: string, failing: set<nat>): Registry {
    if |r.maps.connections| >= r.limit then r
    else Send(Register(r, code, user), r.maps.idCounter + 1, SseStream.Event("connected", json), failing)
  }

  /** handleClick up to its await. */
  function ClickArrives(r: Registry, code: string): Registry {
    match SetOf(r.maps, code)
    case None => r
    case Some(h) =>
      if r.maps.sets[h].ids * r.maps.connections.Keys == {} then r
      else r.(waiting := r.waiting + [Broadcast(code, h)])
  }

  /** handleClick after its await: with statistics it broadcasts, after an error it does nothing. */
  function StatsReady(r: Registry, i: nat, stats: Option<string>, failing: set<nat>): Registry
    requires i < |r.waiting| && r.waiting[i].handle < |r.maps.sets|
  {
    var resumed := r.(waiting := r.waiting[..i] + r.waiting[i + 1..]);
    match stats
    case None => resumed
    case Some(json) =>
      SendUpTo(resumed, r.maps.sets[r.waiting[i].handle].ids, r.maps.idCounter + 1,
               SseStream.Event("analytics", json), failing)
  }

  function KeepAlive(r: Registry, failing: set<nat>): Registry {
    SendUpTo(r, r.maps.connections.Keys, r.maps.idCounter + 1, SseStream.Ping, failing)
  }

  function Farewell(log: map<nat, seq<Message>>, told: set<nat>, n: nat): map<nat, seq<Message>> {
    if n == 0 then log
    else
      var grown := Farewell(log, told, n - 1);
      if n - 1 in told then grown[n - 1 := Logged(grown, n - 1) + [SHUTDOWN]] else grown
  }

  /** broadcastShutdown: no failing connection is removed on the way, and the gauge is left alone. */
  function Shutdown(r: Registry, failing: set<nat>): Registry {
    r.(log := Farewell(r.log, r.maps.connections.Keys - failing, r.maps.idCounter + 1),
       maps := r.maps.(connections := map[], subscriptions := map[]),
       cleared := r.cleared + |r.maps.connections|)
  }

  // ---------------------------------------------------------------- runs

  datatype Step =
    | OwnLink(code: string, user: string)
    | AddConnection(code: string, user: string, json: string, failing: set<nat>)
    | RemoveConnection(id: nat)
    | Click(code: string)
    | Stats(i: nat, stats: Option<string>, failing: set<nat>)
    | Ping(failing: set<nat>)
    | BroadcastShutdown(failing: set<nat>)

  /**
   * A link gets an owner once. A stream is opened only after the owner check. Serialised payloads have no line
   * break.
   */
  predicate Enabled(r: Registry, step: Step) {
    match step
    case OwnLink(code, _) => code !in r.owners
    case AddConnection(code, user, json, _) =>
      code in r.owners && r.owners[code] == user && SseStream.OneLine(json)
    case Stats(i, stats, _) =>
      && i < |r.waiting| && r.waiting[i].handle < |r.maps.sets|
      && (stats.Some? ==> SseStream.OneLine(stats.value))
    case _ => true
  }

  function Apply(r: Registry, step: Step): Registry
    requires Enabled(r, step)
  {
    match step
    case OwnLink(code, user) => r.(owners := r.owners[code := user])
    case AddConnection(code, user, json, failing) => Add(r, code, user, json, failing)
    case RemoveConnection(id) => Remove(r, id)
    case Click(code) => ClickArrives(r, code)
    case Stats(i, stats, failing) => StatsReady(r, i, stats, failing)
    case Ping(failing) => KeepAlive(r, failing)
    case BroadcastShutdown(failing) => Shutdown(r, failing)
  }

  function Init(limit: nat): Registry {
    Registry(limit, Maps(map[], map[], [], 0), 0, 0, [], map[], map[], 0)
  }

  ghost predicate CanRun(r: Registry, run: seq<Step>)
    decreases |run|
  {
    run == [] || (Enabled(r, run[0]) && CanRun(Apply(r, run[0]), run[1..]))
  }

  ghost function Run(r: Registry, run: seq<Step>): Registry
    requires CanRun(r, run)
    decreases |run|
  {
    if run == [] then r else Run(Apply(r, run[0]), run[1..])
  }

  // ---------------------------------------------------------------- the invariant

  /** Connection id is in the Set its channel is subscribed with. */
  predicate Listed(m: Maps, id: nat)
    requires id in m.connections
  {
    var code := m.connections[id].shortCode;
    code in m.subscriptions && m.subscriptions[code] < |m.sets| && id in m.sets[m.subscriptions[code]].ids
  }

  /** A subscribed channel has a Set of its own, which is not empty and holds live connections of that channel. */
  ghost predicate ChannelOk(m: Maps, code: string)
    requires code in m.subscriptions
  {
    var h := m.subscriptions[code];
    && h < |m.sets| && m.sets[h].code == code && m.sets[h].ids != {}
    && forall id <- m.sets[h].ids :: id in m.connections && m.connections[id].shortCode == code
  }

  /** A Set that is not subscribed holds no live connection. */
  ghost predicate SetOk(m: Maps, h: nat)
    requires h < |m.sets|
  {
    forall id <- m.sets[h].ids ::
      && id <= m.idCounter
      && (id in m.connections ==> m.sets[h].code in m.subscriptions && m.subscriptions[m.sets[h].code] == h)
  }

  /** The two maps are exact inverses of each other. */
  ghost predicate Inverse(m: Maps) {
    && (forall id {:trigger Listed(m, id)} | id in m.connections :: id <= m.idCounter && Listed(m, id))
    && (forall code {:trigger ChannelOk(m, code)} | code in m.subscriptions :: ChannelOk(m, code))
    && (forall h: nat {:trigger SetOk(m, h)} | h < |m.sets| :: SetOk(m, h))
  }

  /** Every connection on a channel belongs to the owner of the link. */
  ghost predicate Owned(m: Maps, owners: map<string, string>) {
    forall id {:trigger OwnedBy(m, owners, id)} | id in m.connections :: OwnedBy(m, owners, id)
  }

  predicate OwnedBy(m: Maps, owners: map<string, string>, id: nat)
    requires id in m.connections
  {
    var c := m.connections[id];
    c.shortCode in owners && owners[c.shortCode] == c.userId
  }

  predicate IsUpdate(m: Message) {
    m.Ping? || (m.name == "analytics" && SseStream.OneLine(m.data))
  }

  /** Written to a live connection: first the greeting, then only pings and updates. */
  ghost predicate LogOk(log: seq<Message>) {
    && log != [] && log[0].Event? && log[0].name == "connected" && SseStream.OneLine(log[0].data)
    && forall m <- log[1..] :: IsUpdate(m)
  }

  ghost predicate LogsOk(log: map<nat, seq<Message>>, m: Maps) {
    && (forall id: nat {:trigger Logged(log, id)} | m.idCounter < id :: Logged(log, id) == [])
    && (forall id {:trigger LogOk(Logged(log, id))} | id in m.connections :: LogOk(Logged(log, id)))
  }

  ghost predicate Counted(r: Registry) {
    |r.maps.connections| <= r.limit && r.gauge == |r.maps.connections| + r.cleared
  }

  ghost predicate WaitingOk(waiting: seq<Broadcast>, sets: seq<IdSet>) {
    forall b <- waiting :: b.handle < |sets| && sets[b.handle].code == b.code
  }

  ghost predicate Inv(r: Registry) {
    && Inverse(r.maps) && Owned(r.maps, r.owners)
    && Counted(r) && LogsOk(r.log, r.maps) && WaitingOk(r.waiting, r.maps.sets)
  }

  // ---------------------------------------------------------------- the maps

  predicate SameCodes(a: seq<IdSet>, b: seq<IdSet>) {
    |a| <= |b| && forall h :: 0 <= h < |a| ==> a[h].code == b[h].code
  }

  lemma UnlinkKeeps(m: Maps, id: nat)
    requires Inverse(m)
    ensures Inverse(Unlink(m, id)) && SameCodes(m.sets, Unlink(m, id).sets)
    ensures Unlink(m, id).connections == m.connections - {id} && Unlink(m, id).idCounter == m.idCounter
    ensures |Unlink(m, id).sets| == |m.sets|
  {
    if id in m.connections {
      assert Listed(m, id);
      var code := m.connections[id].shortCode;
      assert ChannelOk(m, code);
      var h := m.subscriptions[code];
      var q := Unlink(m, id);
      assert q.sets == m.sets[h := IdSet(code, m.sets[h].ids - {id})];
      forall j <- q.connections ensures Listed(q, j) && j <= q.idCounter {
        assert Listed(m, j);
        if m.connections[j].shortCode == code {
          assert j in q.sets[h].ids;
        } else {
          assert ChannelOk(m, m.connections[j].shortCode);
        }
      }
      forall c <- q.subscriptions ensures ChannelOk(q, c) {
        assert ChannelOk(m, c);
      }
      forall g: nat | g < |q.sets| ensures SetOk(q, g) {
        UnlinkKeepsSet(m, id, g);
      }
    } else {
      assert m.connections - {id} == m.connections;
    }
  }

  lemma UnlinkKeepsSet(m: Maps, id: nat, g: nat)
    requires Inverse(m) && id in m.connections && g < |m.sets|
    ensures g < |Unlink(m, id).sets| && SetOk(Unlink(m, id), g)
  {
    assert Listed(m, id) && ChannelOk(m, m.connections[id].shortCode);
    var q := Unlink(m, id);
    assert SetOk(m, g);
    forall j <- q.sets[g].ids | j in q.connections
      ensures q.sets[g].code in q.subscriptions && q.subscriptions[q.sets[g].code] == g
    {
      assert j in m.sets[g].ids && j in m.connections;
      assert m.subscriptions[m.sets[g].code] == g;
    }
  }

  lemma IdsInUse(m: Maps)
    requires Inverse(m)
    ensures forall id <- m.connections :: id <= m.idCounter
  {
    forall id <- m.connections ensures id <= m.idCounter {
      assert Listed(m, id);
    }
  }

  lemma LinkKeeps(m: Maps, code: string, user: string)
    requires Inverse(m)
    ensures Inverse(Link(m, code, user)) && SameCodes(m.sets, Link(m, code, user).sets)
    ensures m.idCounter + 1 !in m.connections
    ensures Link(m, code, user).connections == m.connections[m.idCounter + 1 := Conn(code, user)]
  {
    var q, id := Link(m, code, user), m.idCounter + 1;
    IdsInUse(m);
    var h := q.subscriptions[code];
    if code in m.subscriptions {
      assert ChannelOk(m, code);
      assert h == m.subscriptions[code];
    } else {
      assert h == |m.sets|;
    }
    forall j <- q.connections ensures Listed(q, j) && j <= id {
      if j != id {
        assert Listed(m, j);
        assert ChannelOk(m, m.connections[j].shortCode);
      }
    }
    forall c <- q.subscriptions ensures ChannelOk(q, c) {
      if c in m.subscriptions {
        assert ChannelOk(m, c);
        assert forall j <- m.sets[m.subscriptions[c]].ids :: j in m.connections;
      }
    }
    forall g: nat | g < |q.sets| ensures SetOk(q, g) {
      if g < |m.sets| {
        assert SetOk(m, g);
      }
    }
  }

  /** The failing connections of a loop, unlinked one by one. */
  function UnlinkUpTo(m: Maps, ids: set<nat>, n: nat): Maps {
    if n == 0 then m
    else
      var q := UnlinkUpTo(m, ids, n - 1);
      if n - 1 in ids then Unlink(q, n - 1) else q
  }

  function Below(ids: set<nat>, n: nat): set<nat> {
    set id | id in ids && id < n
  }

  lemma NextBelow(ids: set<nat>, n: nat)
    ensures Below(ids, n + 1) == Below(ids, n) + (if n in ids then {n} else {})
    ensures n !in Below(ids, n) && Below(ids, 0) == {}
  {
  }

  lemma {:induction false} UnlinkUpToKeeps(m: Maps, ids: set<nat>, n: nat)
    requires Inverse(m)
    ensures var q := UnlinkUpTo(m, ids, n);
            && Inverse(q) && SameCodes(m.sets, q.sets) && |q.sets| == |m.sets| && q.idCounter == m.idCounter
            && q.connections == m.connections - Below(ids, n)
  {
    if n == 0 {
      NextBelow(ids, 0);
    } else {
      UnlinkUpToKeeps(m, ids, n - 1);
      NextBelow(ids, n - 1);
      UnlinkKeeps(UnlinkUpTo(m, ids, n - 1), n - 1);
    }
  }

  // ---------------------------------------------------------------- sending

  lemma {:induction false} SendUpToMaps(r: Registry, ids: set<nat>, n: nat, m: Message, failing: set<nat>)
    ensures var q := SendUpTo(r, ids, n, m, failing);
            && q.maps == UnlinkUpTo(r.maps, ids * failing, n)
            && q.limit == r.limit && q.waiting == r.waiting && q.owners == r.owners && q.cleared == r.cleared
  {
    if n > 0 {
      SendUpToMaps(r, ids, n - 1, m, failing);
    }
  }

  /** What a loop of writes does: who is removed, and that nobody else is. */
  lemma SendUpToConnections(r: Registry, ids: set<nat>, n: nat, m: Message, failing: set<nat>)
    requires Inverse(r.maps)
    ensures SendUpTo(r, ids, n, m, failing).maps.connections == r.maps.connections - Below(ids * failing, n)
  {
    SendUpToMaps(r, ids, n, m, failing);
    UnlinkUpToKeeps(r.maps, ids * failing, n);
  }

  lemma OwnedShrinks(m: Maps, q: Maps, owners: map<string, string>)
    requires Owned(m, owners) && forall id <- q.connections :: id in m.connections && q.connections[id] == m.connections[id]
    ensures Owned(q, owners)
  {
    forall id <- q.connections ensures OwnedBy(q, owners, id) {
      assert OwnedBy(m, owners, id);
    }
  }

  lemma OneMore(m: map<nat, Conn>, id: nat, c: Conn)
    requires id !in m
    ensures |m[id := c]| == |m| + 1
  {
    assert m[id := c].Keys == m.Keys + {id};
  }

  lemma RemovedOne(m: map<nat, Conn>, id: nat)
    requires id in m
    ensures |m - {id}| == |m| - 1
  {
    assert m.Keys == (m - {id}).Keys + {id};
  }

  lemma {:induction false} SendUpToGauge(r: Registry, ids: set<nat>, n: nat, m: Message, failing: set<nat>)
    requires Inverse(r.maps) && r.gauge == |r.maps.connections| + r.cleared
    ensures var q := SendUpTo(r, ids, n, m, failing);
            q.gauge == |q.maps.connections| + r.cleared && |q.maps.connections| <= |r.maps.connections|
  {
    if n > 0 {
      SendUpToGauge(r, ids, n - 1, m, failing);
      var q := SendUpTo(r, ids, n - 1, m, failing);
      if n - 1 in ids && n - 1 in q.maps.connections && n - 1 in failing {
        SendUpToMaps(r, ids, n - 1, m, failing);
        UnlinkUpToKeeps(r.maps, ids * failing, n - 1);
        UnlinkKeeps(q.maps, n - 1);
        RemovedOne(q.maps.connections, n - 1);
      }
    }
  }

  /** Who a loop over `ids` writes to without failing. */
  function Told(r: Registry, ids: set<nat>, n: nat, failing: set<nat>): set<nat> {
    Below(ids * r.maps.connections.Keys - failing, n)
  }

  /**
   * Writing while iterating, with failing connections removed under the iteration, still reaches each other live
   * connection of the Set once, and nobody else.
   */
  lemma {:induction false} SendUpToWrites(r: Registry, ids: set<nat>, n: nat, m: Message, failing: set<nat>, id: nat)
    requires Inverse(r.maps)
    ensures Logged(SendUpTo(r, ids, n, m, failing).log, id)
         == Logged(r.log, id) + (if id in Told(r, ids, n, failing) then [m] else [])
  {
    if n > 0 {
      SendUpToWrites(r, ids, n - 1, m, failing, id);
      SendUpToConnections(r, ids, n - 1, m, failing);
      NextBelow(ids * r.maps.connections.Keys - failing, n - 1);
      NextBelow(ids * failing, n - 1);
    }
  }

  lemma {:induction false} SendUpToCounts(r: Registry, ids: set<nat>, n: nat, m: Message, failing: set<nat>)
    requires Inverse(r.maps)
    ensures SendUpTo(r, ids, n, m, failing).eventsSent
         == r.eventsSent + (if m.Event? then |Told(r, ids, n, failing)| else 0)
  {
    var reached := ids * r.maps.connections.Keys - failing;
    if n == 0 {
      NextBelow(reached, 0);
    } else {
      SendUpToCounts(r, ids, n - 1, m, failing);
      SendUpToConnections(r, ids, n - 1, m, failing);
      NextBelow(reached, n - 1);
      NextBelow(ids * failing, n - 1);
    }
  }

  lemma LogGrows(log: seq<Message>, m: Message)
    requires LogOk(log) && IsUpdate(m)
    ensures LogOk(log + [m])
  {
    assert (log + [m])[1..] == log[1..] + [m];
  }

  lemma SendUpToLogs(r: Registry, ids: set<nat>, n: nat, m: Message, failing: set<nat>)
    requires Inverse(r.maps) && LogsOk(r.log, r.maps) && IsUpdate(m)
    ensures var q := SendUpTo(r, ids, n, m, failing); LogsOk(q.log, q.maps)
  {
    SendUpToMaps(r, ids, n, m, failing);
    UnlinkUpToKeeps(r.maps, ids * failing, n);
    var q := SendUpTo(r, ids, n, m, failing);
    forall id: nat | q.maps.idCounter < id ensures Logged(q.log, id) == [] {
      SendUpToWrites(r, ids, n, m, failing, id);
      IdsInUse(r.maps);
    }
    forall id <- q.maps.connections ensures LogOk(Logged(q.log, id)) {
      SendUpToWrites(r, ids, n, m, failing, id);
      LogGrows(Logged(r.log, id), m);
      assert LogOk(Logged(r.log, id));
    }
  }

  lemma SendUpToKeeps(r: Registry, ids: set<nat>, n: nat, m: Message, failing: set<nat>)
    requires Inv(r) && IsUpdate(m)
    ensures Inv(SendUpTo(r, ids, n, m, failing))
  {
    SendUpToMaps(r, ids, n, m, failing);
    UnlinkUpToKeeps(r.maps, ids * failing, n);
    OwnedShrinks(r.maps, SendUpTo(r, ids, n, m, failing).maps, r.owners);
    SendUpToGauge(r, ids, n, m, failing);
    SendUpToLogs(r, ids, n, m, failing);
  }

  // ---------------------------------------------------------------- every run

  lemma RemoveKeeps(r: Registry, id: nat)
    requires Inv(r)
    ensures Inv(Remove(r, id))
  {
    if id in r.maps.connections {
      UnlinkKeeps(r.maps, id);
      RemovedOne(r.maps.connections, id);
      OwnedShrinks(r.maps, Unlink(r.maps, id), r.owners);
      LogsShrink(r.log, r.maps, Unlink(r.maps, id));
    }
  }

  lemma LogsShrink(log: map<nat, seq<Message>>, m: Maps, q: Maps)
    requires LogsOk(log, m) && q.connections.Keys <= m.connections.Keys && m.idCounter <= q.idCounter
    ensures LogsOk(log, q)
  {
    forall id <- q.connections ensures LogOk(Logged(log, id)) {
      assert id in m.connections;
    }
  }

  /** A new connection is greeted and stays, or the greeting fails and it is gone again. */
  lemma AddForm(r: Registry, code: string, user: string, json: string, failing: set<nat>)
    requires |r.maps.connections| < r.limit
    ensures var linked, id := Link(r.maps, code, user), r.maps.idCounter + 1;
            Add(r, code, user, json, failing) ==
            if id in failing then r.(maps := Unlink(linked, id))
            else r.(maps := linked, gauge := r.gauge + 1, eventsSent := r.eventsSent + 1,
                    log := r.log[id := Logged(r.log, id) + [SseStream.Event("connected", json)]])
  {
    var mid, id := Register(r, code, user), r.maps.idCounter + 1;
    var m := SseStream.Event("connected", json);
    assert id in mid.maps.connections;
    assert Add(r, code, user, json, failing) == Send(mid, id, m, failing);
    SendForm(mid, id, m, failing);
  }

  lemma SendForm(r: Registry, id: nat, m: Message, failing: set<nat>)
    requires id in r.maps.connections && r.gauge > 0 && m.Event?
    ensures Send(r, id, m, failing) ==
            if id in failing then r.(maps := Unlink(r.maps, id), gauge := r.gauge - 1)
            else r.(eventsSent := r.eventsSent + 1, log := r.log[id := Logged(r.log, id) + [m]])
  {
  }

  lemma AddMapsShape(m: Maps, code: string, user: string)
    requires Inverse(m)
    ensures var linked, id := Link(m, code, user), m.idCounter + 1;
            && id !in m.connections && linked.idCounter == id && Unlink(linked, id).idCounter == id
            && linked.connections == m.connections[id := Conn(code, user)]
            && Unlink(linked, id).connections == m.connections
  {
    LinkKeeps(m, code, user);
    var linked, id := Link(m, code, user), m.idCounter + 1;
    UnlinkKeeps(linked, id);
    assert m.connections[id := Conn(code, user)] - {id} == m.connections;
  }

  lemma LogsGreeted(log: map<nat, seq<Message>>, m: Maps, q: Maps, id: nat, greeting: Message)
    requires LogsOk(log, m) && m.idCounter < id == q.idCounter && q.connections.Keys == m.connections.Keys + {id}
    requires LogOk([greeting])
    ensures LogsOk(log[id := Logged(log, id) + [greeting]], q)
  {
    var grown := log[id := Logged(log, id) + [greeting]];
    assert Logged(log, id) + [greeting] == [greeting];
    forall j <- q.connections ensures LogOk(Logged(grown, j)) {
      assert j == id || LogOk(Logged(log, j));
    }
    forall j: nat | id < j ensures Logged(grown, j) == [] {
      assert Logged(log, j) == [];
    }
  }

  lemma AddOwned(r: Registry, code: string, user: string)
    requires Inverse(r.maps) && Owned(r.maps, r.owners) && code in r.owners && r.owners[code] == user
    ensures Owned(Link(r.maps, code, user), r.owners)
  {
    LinkKeeps(r.maps, code, user);
    var q := Link(r.maps, code, user);
    forall id <- q.connections ensures OwnedBy(q, r.owners, id) {
      if id in r.maps.connections {
        assert OwnedBy(r.maps, r.owners, id);
      }
    }
  }

  lemma AddMaps(r: Registry, code: string, user: string)
    requires MapsInv(r, r.maps) && code in r.owners && r.owners[code] == user
    ensures var linked := Link(r.maps, code, user);
            MapsInv(r, linked) && MapsInv(r, Unlink(linked, r.maps.idCounter + 1))
  {
    LinkKeeps(r.maps, code, user);
    AddOwned(r, code, user);
    var linked, id := Link(r.maps, code, user), r.maps.idCounter + 1;
    UnlinkKeeps(linked, id);
    OwnedShrinks(linked, Unlink(linked, id), r.owners);
  }

  ghost predicate MapsInv(r: Registry, m: Maps) {
    Inverse(m) && Owned(m, r.owners) && WaitingOk(r.waiting, m.sets)
  }

  lemma GreetedInv(r: Registry, linked: Maps, c: Conn, greeting: Message)
    requires Inv(r) && |r.maps.connections| < r.limit && MapsInv(r, linked) && LogOk([greeting])
    requires var id := r.maps.idCounter + 1;
             linked.idCounter == id && id !in r.maps.connections && linked.connections == r.maps.connections[id := c]
    ensures var id := r.maps.idCounter + 1;
            Inv(r.(maps := linked, gauge := r.gauge + 1, eventsSent := r.eventsSent + 1,
                   log := r.log[id := Logged(r.log, id) + [greeting]]))
  {
    LogsGreeted(r.log, r.maps, linked, r.maps.idCounter + 1, greeting);
    OneMore(r.maps.connections, r.maps.idCounter + 1, c);
  }

  lemma UngreetedInv(r: Registry, maps: Maps)
    requires Inv(r) && MapsInv(r, maps)
    requires maps.idCounter >= r.maps.idCounter && maps.connections == r.maps.connections
    ensures Inv(r.(maps := maps))
  {
    LogsShrink(r.log, r.maps, maps);
  }

  lemma AddFailedKeeps(r: Registry, code: string, user: string)
    requires Inv(r) && code in r.owners && r.owners[code] == user
    ensures Inv(r.(maps := Unlink(Link(r.maps, code, user), r.maps.idCounter + 1)))
  {
    AddMaps(r, code, user);
    AddMapsShape(r.maps, code, user);
    UngreetedInv(r, Unlink(Link(r.maps, code, user), r.maps.idCounter + 1));
  }

  lemma AddGreetedKeeps(r: Registry, code: string, user: string, json: string)
    requires Inv(r) && code in r.owners && r.owners[code] == user && SseStream.OneLine(json)
    requires |r.maps.connections| < r.limit
    ensures var id := r.maps.idCounter + 1;
            Inv(r.(maps := Link(r.maps, code, user), gauge := r.gauge + 1, eventsSent := r.eventsSent + 1,
                   log := r.log[id := Logged(r.log, id) + [SseStream.Event("connected", json)]]))
  {
    AddMaps(r, code, user);
    AddMapsShape(r.maps, code, user);
    GreetedInv(r, Link(r.maps, code, user), Conn(code, user), SseStream.Event("connected", json));
  }

  lemma AddKeeps(r: Registry, code: string, user: string, json: string, failing: set<nat>)
    requires Inv(r) && code in r.owners && r.owners[code] == user && SseStream.OneLine(json)
    ensures Inv(Add(r, code, user, json, failing))
  {
    if |r.maps.connections| < r.limit {
      AddForm(r, code, user, json, failing);
      if r.maps.idCounter + 1 in failing {
        AddFailedKeeps(r, code, user);
      } else {
        AddGreetedKeeps(r, code, user, json);
      }
    }
  }

  lemma WaitingKeeps(r: Registry, waiting: seq<Broadcast>)
    requires Inv(r) && WaitingOk(waiting, r.maps.sets)
    ensures Inv(r.(waiting := waiting))
  {
    forall id <- r.maps.connections ensures LogOk(Logged(r.log, id)) {
    }
  }

  lemma ClickKeeps(r: Registry, code: string)
    requires Inv(r)
    ensures Inv(ClickArrives(r, code))
  {
    if SetOf(r.maps, code).Some? {
      assert ChannelOk(r.maps, code);
      WaitingKeeps(r, r.waiting + [Broadcast(code, r.maps.subscriptions[code])]);
    }
  }

  lemma StatsKeeps(r: Registry, i: nat, stats: Option<string>, failing: set<nat>)
    requires Inv(r) && Enabled(r, Stats(i, stats, failing))
    ensures Inv(StatsReady(r, i, stats, failing))
  {
    var resumed := r.(waiting := r.waiting[..i] + r.waiting[i + 1..]);
    WaitingKeeps(r, resumed.waiting);
    if stats.Some? {
      var ids := r.maps.sets[r.waiting[i].handle].ids;
      SendUpToKeeps(resumed, ids, r.maps.idCounter + 1, SseStream.Event("analytics", stats.value), failing);
    }
  }

  lemma {:induction false} FarewellWrites(log: map<nat, seq<Message>>, told: set<nat>, n: nat, id: nat)
    ensures Logged(Farewell(log, told, n), id) == Logged(log, id) + (if id in Below(told, n) then [SHUTDOWN] else [])
  {
    if n > 0 {
      FarewellWrites(log, told, n - 1, id);
    }
  }

  /** A shutdown is written to every connection that can be written, and to nobody else; then nobody is left. */
  lemma ShutdownReaches(r: Registry, failing: set<nat>, id: nat)
    requires Inv(r)
    ensures var q := Shutdown(r, failing);
            && Logged(q.log, id) == Logged(r.log, id) + (if id in r.maps.connections && id !in failing then [SHUTDOWN] else [])
            && q.maps.connections == map[] && q.maps.subscriptions == map[] && q.gauge == r.gauge
  {
    FarewellWrites(r.log, r.maps.connections.Keys - failing, r.maps.idCounter + 1, id);
    IdsInUse(r.maps);
  }

  lemma ShutdownKeeps(r: Registry, failing: set<nat>)
    requires Inv(r)
    ensures Inv(Shutdown(r, failing))
  {
    var q := Shutdown(r, failing);
    forall h: nat | h < |q.maps.sets| ensures SetOk(q.maps, h) {
      assert SetOk(r.maps, h);
    }
    IdsInUse(r.maps);
    forall id: nat | q.maps.idCounter < id ensures Logged(q.log, id) == [] {
      FarewellWrites(r.log, r.maps.connections.Keys - failing, r.maps.idCounter + 1, id);
      assert Logged(r.log, id) == [];
    }
  }

  lemma OwnKeeps(r: Registry, code: string, user: string)
    requires Inv(r) && code !in r.owners
    ensures Inv(r.(owners := r.owners[code := user]))
  {
    var q := r.(owners := r.owners[code := user]);
    forall id <- q.maps.connections ensures OwnedBy(q.maps, q.owners, id) && LogOk(Logged(q.log, id)) {
      assert OwnedBy(r.maps, r.owners, id) && LogOk(Logged(r.log, id));
    }
  }

  lemma StepKeeps(r: Registry, step: Step)
    requires Inv(r) && Enabled(r, step)
    ensures Inv(Apply(r, step))
  {
    match step
    case OwnLink(code, user) => OwnKeeps(r, code, user);
    case AddConnection(code, user, json, failing) => AddKeeps(r, code, user, json, failing);
    case RemoveConnection(id) => RemoveKeeps(r, id);
    case Click(code) => ClickKeeps(r, code);
    case Stats(i, stats, failing) => StatsKeeps(r, i, stats, failing);
    case Ping(failing) => SendUpToKeeps(r, r.maps.connections.Keys, r.maps.idCounter + 1, SseStream.Ping, failing);
    case BroadcastShutdown(failing) => ShutdownKeeps(r, failing);
  }

  /** The invariant holds after every run of adds, removals, clicks, resumed broadcasts, pings and shutdowns. */
  lemma {:induction false} RunKeeps(r: Registry, run: seq<Step>)
    requires Inv(r) && CanRun(r, run)
    ensures Inv(Run(r, run))
    decreases |run|
  {
    if run != [] {
      StepKeeps(r, run[0]);
      RunKeeps(Apply(r, run[0]), run[1..]);
    }
  }

  lemma InitInv(limit: nat)
    ensures Inv(Init(limit))
  {
  }

  // ---------------------------------------------------------------- main results

  /** How many connections the shutdowns of a run dropped. */
  ghost function Dropped(r: Registry, run: seq<Step>): nat
    requires CanRun(r, run)
    decreases |run|
  {
    if run == [] then 0
    else
      (if run[0].BroadcastShutdown? then |r.maps.connections| else 0) + Dropped(Apply(r, run[0]), run[1..])
  }

  lemma StepClears(r: Registry, step: Step)
    requires Enabled(r, step)
    ensures var q := Apply(r, step);
            && q.limit == r.limit
            && q.cleared == r.cleared + if step.BroadcastShutdown? then |r.maps.connections| else 0
  {
    match step
    case Stats(i, stats, failing) =>
      if stats.Some? {
        var resumed := r.(waiting := r.waiting[..i] + r.waiting[i + 1..]);
        SendUpToMaps(resumed, r.maps.sets[r.waiting[i].handle].ids, r.maps.idCounter + 1,
                     SseStream.Event("analytics", stats.value), failing);
      }
    case Ping(failing) => SendUpToMaps(r, r.maps.connections.Keys, r.maps.idCounter + 1, SseStream.Ping, failing);
    case _ =>
  }

  lemma {:induction false} RunClears(r: Registry, run: seq<Step>)
    requires CanRun(r, run)
    ensures Run(r, run).limit == r.limit && Run(r, run).cleared == r.cleared + Dropped(r, run)
    decreases |run|
  {
    if run != [] {
      StepClears(r, run[0]);
      RunClears(Apply(r, run[0]), run[1..]);
    }
  }

  /**
   * After every run: a channel is subscribed exactly while it has a connection, its Set holds exactly its
   * connections, each of these belongs to the owner of the link, the limit is kept, and the gauge is the number
   * of connections plus those that shutdowns dropped without counting them down.
   */
  lemma RegistryOverEveryRun(limit: nat, run: seq<Step>, code: string, id: nat)
    requires CanRun(Init(limit), run)
    ensures var r := Run(Init(limit), run);
            var m := r.maps;
            && (id in m.connections && m.connections[id].shortCode == code <==>
                  SetOf(m, code).Some? && id in m.sets[SetOf(m, code).value].ids)
            && (code in m.subscriptions <==> exists j <- m.connections :: m.connections[j].shortCode == code)
            && (id in m.connections && m.connections[id].shortCode == code ==>
                  code in r.owners && r.owners[code] == m.connections[id].userId)
            && |m.connections| <= limit
            && r.gauge == |m.connections| + Dropped(Init(limit), run)
  {
    InitInv(limit);
    RunKeeps(Init(limit), run);
    RunClears(Init(limit), run);
    var r := Run(Init(limit), run);
    ChannelHoldsItsConnections(r, code, id);
  }

  lemma ChannelHoldsItsConnections(r: Registry, code: string, id: nat)
    requires Inv(r)
    ensures var m := r.maps;
            && (id in m.connections && m.connections[id].shortCode == code <==>
                  SetOf(m, code).Some? && id in m.sets[SetOf(m, code).value].ids)
            && (code in m.subscriptions <==> exists j <- m.connections :: m.connections[j].shortCode == code)
            && (id in m.connections && m.connections[id].shortCode == code ==>
                  code in r.owners && r.owners[code] == m.connections[id].userId)
  {
    var m := r.maps;
    if id in m.connections {
      assert Listed(m, id) && OwnedBy(m, r.owners, id);
    }
    if code in m.subscriptions {
      assert ChannelOk(m, code);
      var j :| j in m.sets[m.subscriptions[code]].ids;
      assert j in m.connections && m.connections[j].shortCode == code;
    }
    forall j | j in m.connections && m.connections[j].shortCode == code ensures code in m.subscriptions {
      assert Listed(m, j);
    }
  }

  /**
   * A resumed broadcast writes to live connections of its own short code only. If its Set is still subscribed it
   * reaches all of them that can be written, and removes those that cannot; if the Set was emptied during the
   * await it reaches nobody, not even clients that have connected to the code since.
   */
  lemma BroadcastReaches(r: Registry, i: nat, json: string, failing: set<nat>, id: nat)
    requires Inv(r) && Enabled(r, Stats(i, Some(json), failing))
    ensures var q, code := StatsReady(r, i, Some(json), failing), r.waiting[i].code;
            var meant := && SetOf(r.maps, code) == Some(r.waiting[i].handle)
                         && id in r.maps.connections && r.maps.connections[id].shortCode == code;
            && Logged(q.log, id) == Logged(r.log, id)
                 + (if meant && id !in failing then [SseStream.Event("analytics", json)] else [])
            && (id in q.maps.connections <==> id in r.maps.connections && !(meant && id in failing))
            && (id in q.maps.connections ==> q.maps.connections[id] == r.maps.connections[id])
  {
    var b := r.waiting[i];
    var ids, n, m := r.maps.sets[b.handle].ids, r.maps.idCounter + 1, SseStream.Event("analytics", json);
    var resumed := r.(waiting := r.waiting[..i] + r.waiting[i + 1..]);
    WaitingKeeps(r, resumed.waiting);
    SendUpToWrites(resumed, ids, n, m, failing, id);
    SendUpToConnections(resumed, ids, n, m, failing);
    assert b in r.waiting;
    SetHoldsItsChannel(r.maps, b.handle, id);
    IdsInUse(r.maps);
  }

  lemma SetHoldsItsChannel(m: Maps, h: nat, id: nat)
    requires Inverse(m) && h < |m.sets|
    ensures id in m.connections ==>
              (id in m.sets[h].ids <==>
                 SetOf(m, m.sets[h].code) == Some(h) && m.connections[id].shortCode == m.sets[h].code)
  {
    if id in m.connections {
      assert Listed(m, id) && SetOk(m, h);
      assert ChannelOk(m, m.connections[id].shortCode);
      if id in m.sets[h].ids {
        assert ChannelOk(m, m.sets[h].code);
      }
    }
  }

  // ---------------------------------------------------------------- the registry and its clients

  function EventNames(ms: seq<Message>): seq<string> {
    if ms == [] then []
    else (if ms[0].Ping? then [] else [ms[0].name]) + EventNames(ms[1..])
  }

  lemma {:induction false} NamesOfUpdates(ms: seq<Message>, last: seq<Message>)
    requires forall m <- ms :: m.Ping? || m.name != "shutdown"
    requires last == [] || last == [SHUTDOWN]
    ensures SseStream.NamesUntilShutdown(ms + last) == EventNames(ms) + (if last == [] then [] else ["shutdown"])
  {
    if ms == [] {
      assert ms + last == last;
    } else {
      assert (ms + last)[1..] == ms[1..] + last;
      NamesOfUpdates(ms[1..], last);
    }
  }

  lemma TrimmedNames()
    ensures SseStream.Trim("connected") == "connected" && SseStream.OneLine("connected")
    ensures SseStream.Trim("analytics") == "analytics" && SseStream.OneLine("analytics")
    ensures SseStream.Trim("shutdown") == "shutdown" && SseStream.OneLine("shutdown")
  {
  }

  lemma ShutdownIsPrintable()
    ensures SseStream.Printable(SHUTDOWN)
  {
    TrimmedNames();
    var head, tail := "{\"message\":\"Server ", "shutting down\"}";
    assert SseStream.OneLine(head) && SseStream.OneLine(tail);
    assert SHUTDOWN.data == head + tail;
  }

  lemma LogIsPrintable(log: seq<Message>)
    requires LogOk(log)
    ensures forall m <- log :: SseStream.Printable(m) && (m.Ping? || m.name != "shutdown")
  {
    TrimmedNames();
    forall m <- log ensures SseStream.Printable(m) && (m.Ping? || m.name != "shutdown") {
      assert m == log[0] || m in log[1..];
      assert "connected" != "shutdown" && "analytics" != "shutdown";
    }
  }

  /**
   * From the server's log to the browser: while a connection lives, a client reading what was written to it, in
   * any chunks, has dispatched every event sent; and if a shutdown is written after that, it dispatches the same
   * events and then the shutdown.
   */
  lemma ClientOfLiveConnection(r: Registry, id: nat, last: seq<Message>, v: SseStream.View, chunks: seq<string>)
    requires Inv(r) && id in r.maps.connections && !v.stopped
    requires last == [] || last == [SHUTDOWN]
    requires SseStream.Join(chunks) == SseStream.PrintAll(Logged(r.log, id) + last)
    ensures SseStream.FeedAll(v, "", chunks).0.dispatched
         == v.dispatched + EventNames(Logged(r.log, id)) + (if last == [] then [] else ["shutdown"])
  {
    var log := Logged(r.log, id);
    assert LogOk(log);
    LogIsPrintable(log);
    ShutdownIsPrintable();
    NamesOfUpdates(log, last);
    SseStream.ClientReadsWhatServerSent(v, log + last, chunks);
  }

  lemma {:induction false} NoNamesCut(ms: seq<Message>, last: seq<Message>, k: nat)
    requires (forall m <- ms :: m.Ping? || m.name != "shutdown") && (last == [] || last == [SHUTDOWN])
    requires k <= |ms + last|
    ensures SseStream.NamesUntilShutdown((ms + last)[..k]) == EventNames((ms + last)[..k])
  {
    var all := (ms + last)[..k];
    if k > 0 {
      if ms == [] {
        assert all == [SHUTDOWN] && all[1..] == [];
      } else {
        assert (ms + last)[1..] == ms[1..] + last;
        assert all[1..] == (ms[1..] + last)[..k - 1];
        NoNamesCut(ms[1..], last, k - 1);
      }
    }
  }

  /**
   * The same at any moment: a client that has read any part of what was written to it, in any chunks, has dispatched
   * exactly the events of the messages that have arrived completely.
   */
  lemma ClientPartway(r: Registry, id: nat, last: seq<Message>, v: SseStream.View, chunks: seq<string>)
    requires Inv(r) && id in r.maps.connections && !v.stopped
    requires last == [] || last == [SHUTDOWN]
    requires SseStream.Join(chunks) <= SseStream.PrintAll(Logged(r.log, id) + last)
    ensures var written := Logged(r.log, id) + last;
            SseStream.FeedAll(v, "", chunks).0.dispatched
            == v.dispatched + EventNames(written[..SseStream.Complete(written, |SseStream.Join(chunks)|)])
  {
    var log := Logged(r.log, id);
    assert LogOk(log);
    LogIsPrintable(log);
    ShutdownIsPrintable();
    SseStream.ClientReadsWhatArrived(v, log + last, chunks);
    NoNamesCut(log, last, SseStream.Complete(log + last, |SseStream.Join(chunks)|));
  }

  // ---------------------------------------------------------------- the operations connection by connection

  /** The message is the next thing written to these connections, and nothing is written to any other. */
  ghost predicate WrittenTo(before: map<nat, seq<Message>>, after: map<nat, seq<Message>>, told: set<nat>, m: Message) {
    forall id: nat {:trigger Logged(after, id)} ::
      Logged(after, id) == if id in told then Logged(before, id) + [m] else Logged(before, id)
  }

  /** A removed connection is counted down, and nothing else changes about the others. */
  ghost predicate Removed(before: Registry, after: Registry, id: nat) {
    && after.maps.connections == before.maps.connections - {id}
    && after.log == before.log && after.eventsSent == before.eventsSent && after.waiting == before.waiting
    && after.gauge == if id in before.maps.connections && before.gauge > 0 then before.gauge - 1 else before.gauge
  }

  /** A new connection has the next id and a greeting; if that cannot be written it is gone, and at the limit refused. */
  ghost predicate Added(before: Registry, after: Registry, code: string, user: string, json: string, failing: set<nat>,
                        id: nat)
  {
    if |before.maps.connections| >= before.limit then id == 0 && after == before
    else
      && id == before.maps.idCounter + 1 == after.maps.idCounter && after.waiting == before.waiting
      && if id in failing then
           && after.maps.connections == before.maps.connections - {id}
           && after.log == before.log && after.gauge == before.gauge && after.eventsSent == before.eventsSent
         else
           && after.maps.connections == before.maps.connections[id := Conn(code, user)]
           && after.gauge == before.gauge + 1 && after.eventsSent == before.eventsSent + 1
           && WrittenTo(before.log, after.log, {id}, SseStream.Event("connected", json))
  }

  lemma RemoveMeans(r: Registry, id: nat)
    ensures Removed(r, Remove(r, id), id)
  {
    assert id !in r.maps.connections ==> r.maps.connections - {id} == r.maps.connections;
  }

  lemma LinkedConnections(m: Maps, code: string, user: string)
    ensures var linked, id := Link(m, code, user), m.idCounter + 1;
            && linked.connections == m.connections[id := Conn(code, user)] && linked.idCounter == id
            && Unlink(linked, id).connections == m.connections - {id} && Unlink(linked, id).idCounter == id
  {
    var linked, id := Link(m, code, user), m.idCounter + 1;
    UnlinkedConnections(linked, id);
    assert m.connections[id := Conn(code, user)] - {id} == m.connections - {id};
  }

  lemma UnlinkedConnections(m: Maps, id: nat)
    ensures Unlink(m, id).connections == m.connections - {id} && Unlink(m, id).idCounter == m.idCounter
  {
    assert id !in m.connections ==> m.connections - {id} == m.connections;
  }

  lemma WrittenToOne(log: map<nat, seq<Message>>, id: nat, m: Message)
    ensures WrittenTo(log, log[id := Logged(log, id) + [m]], {id}, m)
  {
  }

  lemma AddMeans(r: Registry, code: string, user: string, json: string, failing: set<nat>)
    ensures var id := if |r.maps.connections| >= r.limit then 0 else r.maps.idCounter + 1;
            Added(r, Add(r, code, user, json, failing), code, user, json, failing, id)
  {
    if |r.maps.connections| < r.limit {
      AddForm(r, code, user, json, failing);
      LinkedConnections(r.maps, code, user);
      WrittenToOne(r.log, r.maps.idCounter + 1, SseStream.Event("connected", json));
      var linked, id := Link(r.maps, code, user), r.maps.idCounter + 1;
      AddedForm(r, linked, Unlink(linked, id), code, user, json, failing);
    }
  }

  lemma AddedForm(r: Registry, linked: Maps, unlinked: Maps, code: string, user: string, json: string, failing: set<nat>)
    requires |r.maps.connections| < r.limit
    requires var id := r.maps.idCounter + 1;
             && linked.connections == r.maps.connections[id := Conn(code, user)] && linked.idCounter == id
             && unlinked.connections == r.maps.connections - {id} && unlinked.idCounter == id
             && WrittenTo(r.log, r.log[id := Logged(r.log, id) + [SseStream.Event("connected", json)]], {id},
                          SseStream.Event("connected", json))
    ensures var id := r.maps.idCounter + 1;
            var after :=
              if id in failing then r.(maps := unlinked)
              else r.(maps := linked, gauge := r.gauge + 1, eventsSent := r.eventsSent + 1,
                      log := r.log[id := Logged(r.log, id) + [SseStream.Event("connected", json)]]);
            Added(r, after, code, user, json, failing, id)
  {
  }

  /** Somebody is connected to the code. */
  ghost predicate Watched(m: Maps, code: string) {
    exists id <- m.connections :: m.connections[id].shortCode == code
  }

  lemma ClickMeans(r: Registry, code: string)
    requires Inv(r)
    ensures var q := ClickArrives(r, code);
            && q == r.(waiting := q.waiting) && |q.waiting| == |r.waiting| + (if Watched(r.maps, code) then 1 else 0)
            && r.waiting <= q.waiting && (Watched(r.maps, code) ==> q.waiting[|r.waiting|].code == code)
  {
    if SetOf(r.maps, code).Some? {
      assert ChannelOk(r.maps, code);
      var h := r.maps.subscriptions[code];
      var id :| id in r.maps.sets[h].ids;
      assert id in r.maps.sets[h].ids * r.maps.connections.Keys;
    }
    if id :| id in r.maps.connections && r.maps.connections[id].shortCode == code {
      assert Listed(r.maps, id);
    }
  }

  /** Those a broadcast over Set h is for: the connections of its code, unless the Set was emptied meanwhile. */
  ghost function Audience(m: Maps, b: Broadcast): set<nat> {
    set id | id in m.connections && SetOf(m, b.code) == Some(b.handle) && m.connections[id].shortCode == b.code
  }

  lemma StatsMeans(r: Registry, i: nat, json: string, failing: set<nat>)
    requires Inv(r) && Enabled(r, Stats(i, Some(json), failing))
    ensures var q, meant := StatsReady(r, i, Some(json), failing), Audience(r.maps, r.waiting[i]);
            && WrittenTo(r.log, q.log, meant - failing, SseStream.Event("analytics", json))
            && q.maps.connections == r.maps.connections - (meant * failing)
  {
    var q := StatsReady(r, i, Some(json), failing);
    forall id: nat
      ensures var meant := Audience(r.maps, r.waiting[i]);
              && Logged(q.log, id) == Logged(r.log, id) + (if id in meant - failing then [SseStream.Event("analytics", json)] else [])
              && (id in q.maps.connections <==> id in r.maps.connections && !(id in meant && id in failing))
              && (id in q.maps.connections ==> q.maps.connections[id] == r.maps.connections[id])
    {
      BroadcastReaches(r, i, json, failing, id);
    }
  }

  lemma StatsKeepsWaiting(r: Registry, i: nat, stats: Option<string>, failing: set<nat>)
    requires i < |r.waiting| && r.waiting[i].handle < |r.maps.sets|
    ensures StatsReady(r, i, stats, failing).waiting == r.waiting[..i] + r.waiting[i + 1..]
  {
    if stats.Some? {
      SendUpToMaps(r.(waiting := r.waiting[..i] + r.waiting[i + 1..]), r.maps.sets[r.waiting[i].handle].ids,
                   r.maps.idCounter + 1, SseStream.Event("analytics", stats.value), failing);
    }
  }

  lemma PingMeans(r: Registry, failing: set<nat>)
    requires Inv(r)
    ensures var q := KeepAlive(r, failing);
            && WrittenTo(r.log, q.log, r.maps.connections.Keys - failing, SseStream.Ping)
            && q.maps.connections == r.maps.connections - failing && q.eventsSent == r.eventsSent
  {
    var q, ids, n := KeepAlive(r, failing), r.maps.connections.Keys, r.maps.idCounter + 1;
    IdsInUse(r.maps);
    SendUpToConnections(r, ids, n, SseStream.Ping, failing);
    SendUpToCounts(r, ids, n, SseStream.Ping, failing);
    forall id: nat
      ensures Logged(q.log, id) == Logged(r.log, id) + (if id in r.maps.connections.Keys - failing then [SseStream.Ping] else [])
    {
      SendUpToWrites(r, ids, n, SseStream.Ping, failing, id);
    }
    assert r.maps.connections - Below(ids * failing, n) == r.maps.connections - failing;
  }

  lemma ShutdownMeans(r: Registry, failing: set<nat>)
    requires Inv(r)
    ensures var q := Shutdown(r, failing);
            WrittenTo(r.log, q.log, r.maps.connections.Keys - failing,
                      SseStream.Event("shutdown", "{\"message\":\"Server shutting down\"}"))
  {
    forall id: nat
      ensures Logged(Shutdown(r, failing).log, id)
           == Logged(r.log, id) + (if id in r.maps.connections.Keys - failing then [SHUTDOWN] else [])
    {
      ShutdownReaches(r, failing, id);
    }
  }

  // ---------------------------------------------------------------- the manager

  class SseConnectionManager {
    const limit: nat
    var connections: map<nat, Conn>
    var subscriptions: map<string, nat>
    var sets: seq<IdSet>
    var idCounter: nat
    var gauge: nat
    var eventsSent: nat
    var waiting: seq<Broadcast>
    ghost var owners: map<string, string>
    ghost var log: map<nat, seq<Message>>
    ghost var cleared: nat

    ghost function State(): Registry
      reads this
    {
      Registry(limit, Maps(connections, subscriptions, sets, idCounter), gauge, eventsSent, waiting, owners, log, cleared)
    }

    constructor (limit: nat)
      ensures State() == Init(limit)
    {
      this.limit := limit;
      connections, subscriptions, sets, idCounter, waiting := map[], map[], [], 0, [];
      gauge, eventsSent, owners, log, cleared := 0, 0, map[], map[], 0;
    }

    method RemoveConnection(id: nat)
      modifies this
      ensures State() == Remove(old(State()), id) && Removed(old(State()), State(), id)
    {
      RemoveMeans(State(), id);
      if id !in connections {
        return;
      }
      var conn := connections[id];
      connections := connections - {id};
      if conn.shortCode in subscriptions && subscriptions[conn.shortCode] < |sets| {
        var h := subscriptions[conn.shortCode];
        sets := sets[h := IdSet(sets[h].code, sets[h].ids - {id})];
        if sets[h].ids == {} {
          subscriptions := subscriptions - {conn.shortCode};
        }
      }
      gauge := if gauge == 0 then 0 else gauge - 1;
    }

    /** sendEvent for events; the keepalive writes pings the same way, uncounted. */
    method SendMessage(id: nat, m: Message, failing: set<nat>)
      modifies this
      ensures State() == Send(old(State()), id, m, failing)
    {
      if id !in connections {
        return;
      }
      if id in failing {
        RemoveConnection(id);
      } else {
        log := log[id := Logged(log, id) + [m]];
        if m.Event? {
          eventsSent := eventsSent + 1;
        }
      }
    }

    /** Returns 0 in place of the empty id when the limit is reached. */
    method AddConnection(shortCode: string, userId: string, json: string, failing: set<nat>) returns (id: nat)
      modifies this
      ensures State() == Add(old(State()), shortCode, userId, json, failing)
      ensures Added(old(State()), State(), shortCode, userId, json, failing, id)
    {
      AddMeans(State(), shortCode, userId, json, failing);
      if |connections| >= limit {
        return 0;
      }
      id := RegisterConnection(shortCode, userId);
      SendMessage(id, SseStream.Event("connected", json), failing);
    }

    method RegisterConnection(shortCode: string, userId: string) returns (id: nat)
      modifies this
      ensures State() == Register(old(State()), shortCode, userId) && id == old(idCounter) + 1
    {
      ghost var before := subscriptions;
      idCounter := idCounter + 1;
      id := idCounter;
      connections := connections[id := Conn(shortCode, userId)];
      var h := |sets|;
      if shortCode in subscriptions && subscriptions[shortCode] < |sets| {
        h := subscriptions[shortCode];
      } else {
        sets := sets + [IdSet(shortCode, {})];
        subscriptions := subscriptions[shortCode := h];
      }
      assert subscriptions == before[shortCode := h];
      sets := sets[h := IdSet(sets[h].code, sets[h].ids + {id})];
      gauge := gauge + 1;
    }

    method HandleClick(shortCode: string)
      modifies this
      ensures State() == ClickArrives(old(State()), shortCode)
      ensures Inv(old(State())) ==>
                && |waiting| == |old(waiting)| + (if Watched(old(State()).maps, shortCode) then 1 else 0)
                && old(waiting) <= waiting && (|waiting| > |old(waiting)| ==> waiting[|old(waiting)|].code == shortCode)
    {
      if Inv(State()) {
        ClickMeans(State(), shortCode);
      }
      if shortCode !in subscriptions || subscriptions[shortCode] >= |sets| {
        return;
      }
      var h := subscriptions[shortCode];
      if sets[h].ids * connections.Keys != {} {
        waiting := waiting + [Broadcast(shortCode, h)];
      }
    }

    /** Resumed with the statistics, it iterates over the Set while failing writes delete from it. */
    method ResumeClick(i: nat, stats: Option<string>, failing: set<nat>)
      requires Inv(State())
      requires i < |waiting| && waiting[i].handle < |sets|
      modifies this
      ensures State() == StatsReady(old(State()), i, stats, failing)
      ensures waiting == old(waiting)[..i] + old(waiting)[i + 1..]
      ensures stats.None? ==> connections == old(connections) && log == old(log)
      ensures stats.Some? && SseStream.OneLine(stats.value) ==>
                var meant := Audience(old(State()).maps, old(waiting)[i]);
                && WrittenTo(old(log), log, meant - failing, SseStream.Event("analytics", stats.value))
                && connections == old(connections) - (meant * failing)
    {
      if stats.Some? && SseStream.OneLine(stats.value) {
        StatsMeans(State(), i, stats.value, failing);
      }
      ghost var before := State();
      SendStats(i, stats, failing);
      StatsKeepsWaiting(before, i, stats, failing);
    }

    method SendStats(i: nat, stats: Option<string>, failing: set<nat>)
      requires Inv(State())
      requires i < |waiting| && waiting[i].handle < |sets|
      modifies this
      ensures State() == StatsReady(old(State()), i, stats, failing)
    {
      var h := waiting[i].handle;
      ghost var before := State();
      waiting := waiting[..i] + waiting[i + 1..];
      ghost var resumed := State();
      WaitingKeeps(before, waiting);
      if stats.Some? {
        ghost var ids := sets[h].ids;
        var m := SseStream.Event("analytics", stats.value);
        var last := idCounter;
        for id := 0 to last + 1
          invariant State() == SendUpTo(resumed, ids, id, m, failing)
          invariant h < |sets|
          invariant forall j :: j in connections ==> (j in sets[h].ids <==> j in ids)
        {
          if id in sets[h].ids && id in connections {
            IterationKeepsSet(resumed, ids, id, m, failing, h);
            SendMessage(id, m, failing);
          }
          IterationKeepsSet(resumed, ids, id + 1, m, failing, h);
        }
      }
    }

    method Ping(failing: set<nat>)
      requires Inv(State())
      modifies this
      ensures State() == KeepAlive(old(State()), failing)
      ensures WrittenTo(old(log), log, old(connections).Keys - failing, SseStream.Ping)
      ensures connections == old(connections) - failing && eventsSent == old(eventsSent)
    {
      PingMeans(State(), failing);
      PingAll(failing);
    }

    method PingAll(failing: set<nat>)
      requires Inv(State())
      modifies this
      ensures State() == KeepAlive(old(State()), failing)
    {
      ghost var before := State();
      ghost var ids := connections.Keys;
      var last := idCounter;
      for id := 0 to last + 1
        invariant State() == SendUpTo(before, ids, id, SseStream.Ping, failing)
        invariant connections == before.maps.connections - Below(ids * failing, id)
      {
        if id in connections {
          SendMessage(id, SseStream.Ping, failing);
        }
        SendUpToConnections(before, ids, id + 1, SseStream.Ping, failing);
      }
    }

    method BroadcastShutdown(failing: set<nat>)
      modifies this
      ensures State() == Shutdown(old(State()), failing)
      ensures Inv(old(State())) ==>
                WrittenTo(old(log), log, old(connections).Keys - failing,
                          SseStream.Event("shutdown", "{\"message\":\"Server shutting down\"}"))
      ensures connections == map[] && subscriptions == map[] && gauge == old(gauge)
    {
      if Inv(State()) {
        ShutdownMeans(State(), failing);
      }
      ghost var before := State();
      ghost var told := connections.Keys - failing;
      var last := idCounter;
      for id := 0 to last + 1
        invariant State() == before.(log := log)
        invariant log == Farewell(before.log, told, id)
      {
        if id in connections && id !in failing {
          log := log[id := Logged(log, id) + [SHUTDOWN]];
        }
      }
      cleared := cleared + |connections|;
      connections := map[];
      subscriptions := map[];
    }
  }

  /** Under an iteration over Set h, the live connections still to come are those of the Set at its start. */
  lemma IterationKeepsSet(r: Registry, ids: set<nat>, n: nat, m: Message, failing: set<nat>, h: nat)
    requires Inv(r) && h < |r.maps.sets| && ids == r.maps.sets[h].ids
    ensures var q := SendUpTo(r, ids, n, m, failing).maps;
            && Inverse(q) && |q.sets| == |r.maps.sets|
            && forall j: nat :: j in q.connections ==> (j in q.sets[h].ids <==> j in ids)
  {
    SendUpToMaps(r, ids, n, m, failing);
    UnlinkUpToKeeps(r.maps, ids * failing, n);
    UnlinkUpToSets(r.maps, ids * failing, n, h);
  }

  lemma {:induction false} UnlinkUpToSets(m: Maps, ids: set<nat>, n: nat, h: nat)
    requires Inverse(m) && h < |m.sets|
    ensures var q := UnlinkUpTo(m, ids, n);
            && h < |q.sets|
            && forall j: nat :: j in q.connections ==> (j in q.sets[h].ids <==> j in m.sets[h].ids)
  {
    if n > 0 {
      UnlinkUpToSets(m, ids, n - 1, h);
      UnlinkUpToKeeps(m, ids, n - 1);
      UnlinkKeeps(UnlinkUpTo(m, ids, n - 1), n - 1);
    }
  }
}
