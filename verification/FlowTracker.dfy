// The flow tracker as the source keeps it: mutable flows in two ordered tables, updated in place.
module FlowTracker {
  import opened Base
  import opened FlowModel
  import FlowSpec
  import opened FlowInvariant

  // One live flow. Its endpoints, start and number never change; its counters and state do.
  class LiveFlow {
    const id: FlowId
    const protocol: Protocol
    const a: Endpoint
    const b: Endpoint
    const startTime: real
    const number: nat
    const occurrence: nat
    var lastSeen: real
    var appProtocol: string
    var appRank: nat
    var forwardPackets: nat
    var forwardBytes: nat
    var backwardPackets: nat
    var backwardBytes: nat
    var synCount: nat
    var ackCount: nat
    var finCount: nat
    var rstCount: nat
    var state: Option<TcpState>
    var finDirections: seq<Direction>

    function Fields(): FlowFields
      reads this
    {
      Flow(id, protocol, a, b, startTime, lastSeen, appProtocol, appRank, forwardPackets, forwardBytes,
           backwardPackets, backwardBytes, synCount, ackCount, finCount, rstCount, state, finDirections, number,
           occurrence)
    }

    constructor (p: Observation, replaced: Option<Flow>, number: nat)
      ensures Fields() == Create(p, replaced, number)
    {
      var f := Create(p, replaced, number);
      id, protocol, a, b, startTime, lastSeen := f.id, f.protocol, f.a, f.b, f.startTime, f.lastSeen;
      appProtocol, appRank := f.appProtocol, f.appRank;
      forwardPackets, forwardBytes, backwardPackets, backwardBytes := 0, 0, 0, 0;
      synCount, ackCount, finCount, rstCount := 0, 0, 0, 0;
      state, finDirections := None, [];
      this.number, occurrence := f.number, f.occurrence;
    }

    // The traffic part of a packet: its time, and its bytes in one direction.
    method CountTraffic(p: Observation, forward: bool)
      modifies this
      ensures Fields() == old(Fields()).(
                lastSeen := Max(old(lastSeen), p.timestamp),
                forwardPackets := old(forwardPackets) + One(forward),
                forwardBytes := old(forwardBytes) + if forward then p.length else 0,
                backwardPackets := old(backwardPackets) + One(!forward),
                backwardBytes := old(backwardBytes) + if forward then 0 else p.length)
    {
      lastSeen := Max(lastSeen, p.timestamp);
      if forward {
        forwardPackets := forwardPackets + 1;
        forwardBytes := forwardBytes + p.length;
      } else {
        backwardPackets := backwardPackets + 1;
        backwardBytes := backwardBytes + p.length;
      }
    }

    method Count(p: Observation, forward: bool)
      modifies this
      ensures Fields() == FlowModel.Count(old(Fields()), p, forward)
    {
      CountTraffic(p, forward);
      synCount := synCount + One(SYN in p.flags);
      ackCount := ackCount + One(ACK in p.flags);
      finCount := finCount + One(FIN in p.flags);
      rstCount := rstCount + One(RST in p.flags);
      Detect(p);
    }

    // Counts one packet, and follows the TCP table: by the given step, or as the first packet of the flow.
    method Absorb(p: Observation, step: Option<Step>) returns (direction: Direction)
      modifies this
      ensures direction == DirectionOf(a, p)
      ensures var counted := FlowModel.Count(old(Fields()), p, direction == Forward);
              var taken := if step.Some? then step.value else FirstStep(p.flags, direction);
              Fields()
              == if protocol == TCP then counted.(state := Some(taken.state), finDirections := taken.finDirections)
                 else counted
    {
      direction := DirectionOf(a, p);
      Count(p, direction == Forward);
      if protocol == TCP {
        var taken := if step.Some? then step.value else FirstStep(p.flags, direction);
        state, finDirections := Some(taken.state), taken.finDirections;
      }
    }

    method Detect(p: Observation)
      modifies this`appProtocol, this`appRank
      ensures appProtocol == if p.rank > old(appRank) then p.appProtocol else old(appProtocol)
      ensures appRank == if p.rank > old(appRank) then p.rank else old(appRank)
    {
      if p.rank > appRank {
        appProtocol, appRank := p.appProtocol, p.rank;
      }
    }
  }

  datatype Slot = Slot(key: Key, flow: LiveFlow)

  function Objects(t: seq<Slot>): set<object> { set s | s in t :: s.flow }

  // The slots show exactly the entries of a table of the specification.
  ghost predicate Shows(t: seq<Slot>, table: FlowSpec.Table)
    reads Objects(t)
  {
    && |t| == |table|
    && forall i :: 0 <= i < |t| ==> t[i].key == table[i].key && t[i].flow.Fields() == table[i].flow
  }

  function FindSlot(t: seq<Slot>, key: Key): (i: nat)
    ensures i <= |t|
    ensures i < |t| ==> t[i].key == key
    ensures forall j :: 0 <= j < i ==> t[j].key != key
  {
    if t == [] || t[0].key == key then 0 else 1 + FindSlot(t[1..], key)
  }

  // ---------- Deleting keys ----------

  function Without(t: seq<Slot>, keys: set<Key>): seq<Slot> {
    if t == [] then [] else if t[0].key in keys then Without(t[1..], keys) else [t[0]] + Without(t[1..], keys)
  }

  ghost predicate DistinctSlots(t: seq<Slot>) { forall i, j :: 0 <= i < j < |t| ==> t[i].key != t[j].key }

  lemma {:induction false} WithoutNone(t: seq<Slot>, keys: set<Key>)
    requires forall i :: 0 <= i < |t| ==> t[i].key !in keys
    ensures Without(t, keys) == t
  {
    if t != [] {
      WithoutNone(t[1..], keys);
    }
  }

  // Deleting the keys of a prefix leaves the rest.
  lemma {:induction false} WithoutPrefix(t: seq<Slot>, n: nat, keys: set<Key>)
    requires DistinctSlots(t) && n <= |t|
    requires forall i :: 0 <= i < |t| ==> (t[i].key in keys <==> i < n)
    ensures Without(t, keys) == t[n..]
  {
    if n == 0 {
      WithoutNone(t, keys);
    } else {
      WithoutPrefix(t[1..], n - 1, keys);
    }
  }

  function RemoveSlot(t: seq<Slot>, key: Key): seq<Slot> {
    var i := FindSlot(t, key);
    if i < |t| then t[..i] + t[i + 1..] else t
  }

  // Deleting one present key removes its slot, and deleting more keys deletes them one by one.
  lemma {:induction false} WithoutOne(t: seq<Slot>, key: Key)
    requires DistinctSlots(t)
    ensures Without(t, {key}) == RemoveSlot(t, key)
  {
    if t != [] {
      if t[0].key == key {
        WithoutNone(t[1..], {key});
      } else {
        WithoutOne(t[1..], key);
      }
    }
  }

  lemma {:induction false} WithoutBoth(t: seq<Slot>, keys: set<Key>, more: set<Key>)
    ensures Without(Without(t, keys), more) == Without(t, keys + more)
  {
    if t != [] {
      WithoutBoth(t[1..], keys, more);
      var rest := Without(t[1..], keys);
      assert ([t[0]] + rest)[1..] == rest;
    }
  }

  lemma {:induction false} WithoutKeeps(t: seq<Slot>, keys: set<Key>)
    ensures forall s :: s in Without(t, keys) ==> s in t && s.key !in keys
    ensures DistinctSlots(t) ==> DistinctSlots(Without(t, keys))
  {
    if t != [] {
      WithoutKeeps(t[1..], keys);
      var rest := Without(t[1..], keys);
      if DistinctSlots(t) {
        forall i | 0 <= i < |rest| ensures rest[i].key != t[0].key {
          assert rest[i] in t[1..];
        }
      }
    }
  }

  function KeysOf(es: seq<FlowSpec.Entry>, protocol: Protocol): set<Key> {
    set e | e in es && e.flow.protocol == protocol :: e.key
  }

  lemma {:induction false} KeysOfSnoc(es: seq<FlowSpec.Entry>, e: FlowSpec.Entry, protocol: Protocol)
    ensures KeysOf(es + [e], protocol) == KeysOf(es, protocol) + if e.flow.protocol == protocol then {e.key} else {}
  {
    assert forall x :: x in es + [e] <==> x in es || x == e;
  }

  // The keys that deleting one flow removes from the table of a protocol.
  function OnlyFor(table: Protocol, protocol: Protocol, key: Key): set<Key> {
    if table == protocol then {key} else {}
  }

  // One more deletion, in the table of its protocol and in the other one.
  lemma {:induction false} DeleteNext(t: seq<Slot>, es: seq<FlowSpec.Entry>, i: nat, protocol: Protocol)
    requires i < |es| && DistinctSlots(t)
    ensures Without(t, KeysOf(es[..i + 1], protocol))
            == Without(Without(t, KeysOf(es[..i], protocol)), OnlyFor(protocol, es[i].flow.protocol, es[i].key))
    ensures DistinctSlots(Without(t, KeysOf(es[..i + 1], protocol)))
  {
    assert es[..i + 1] == es[..i] + [es[i]];
    KeysOfSnoc(es[..i], es[i], protocol);
    WithoutBoth(t, KeysOf(es[..i], protocol), OnlyFor(protocol, es[i].flow.protocol, es[i].key));
    WithoutKeeps(t, KeysOf(es[..i + 1], protocol));
  }

  // A table the tracker can scan and delete from.
  ghost predicate Ready(table: FlowSpec.Table, protocol: Protocol) {
    && DistinctKeys(table)
    && forall i :: 0 <= i < |table| ==>
         table[i].flow.protocol == protocol && table[i].key == MakeKey(table[i].flow.a, table[i].flow.b)
  }

  lemma {:induction false} SlotsAreDistinct(t: seq<Slot>, table: FlowSpec.Table)
    requires Shows(t, table) && DistinctKeys(table)
    ensures DistinctSlots(t)
  {
  }

  // The idle flows at the front of one table, as the scan reads them until the first that is not idle.
  method IdleFront(t: seq<Slot>, time: real, timeout: real, ghost table: FlowSpec.Table)
    returns (expired: seq<FlowSpec.Entry>)
    requires Shows(t, table)
    ensures expired == table[..FlowSpec.IdlePrefix(table, time, timeout)]
  {
    var i := 0;
    expired := [];
    while i < |t| && time - t[i].flow.lastSeen > timeout
      invariant i <= |t|
      invariant expired == table[..i]
      invariant forall j :: 0 <= j < i ==> FlowSpec.Idle(table[j].flow, time, timeout)
    {
      assert t[i].flow.Fields() == table[i].flow;
      expired := expired + [FlowSpec.Entry(t[i].key, t[i].flow.Fields())];
      i := i + 1;
    }
    assert i < |t| ==> t[i].flow.Fields() == table[i].flow;
    assert FlowSpec.IdlePrefix(table, time, timeout) == i;
  }

  class FlowTracker {
    const cfg: FlowSpec.Config
    var tcp: seq<Slot>
    var udp: seq<Slot>
    var now: Option<real>
    var created: nat
    var pending: seq<Export>
    // The abstract state of the tracker.
    ghost var state: FlowSpec.State

    function Table(protocol: Protocol): seq<Slot>
      reads this
    {
      if protocol == TCP then tcp else udp
    }

    ghost function Flows(): set<object>
      reads this`tcp, this`udp
    {
      Objects(tcp) + Objects(udp)
    }

    // The tables and the creation count are those of a state.
    ghost predicate Reached(s: FlowSpec.State)
      reads this`tcp, this`udp, this`created, Objects(tcp), Objects(udp)
    {
      Shows(tcp, s.tcp) && Shows(udp, s.udp) && created == s.created
    }

    ghost predicate Valid()
      reads this, Flows()
    {
      && cfg.Valid()
      && Consistent(state)
      && state.Size() <= cfg.maxFlows
      && Reached(state)
      && now == state.now
      && pending == []
    }

    constructor (cfg: FlowSpec.Config)
      requires cfg.Valid()
      ensures Valid() && state == FlowSpec.EMPTY && this.cfg == cfg
    {
      this.cfg := cfg;
      tcp, udp, now, created, pending := [], [], None, 0, [];
      state := FlowSpec.EMPTY;
    }

    method Delete(protocol: Protocol, key: Key)
      requires DistinctSlots(tcp) && DistinctSlots(udp)
      modifies this`tcp, this`udp
      ensures tcp == Without(old(tcp), OnlyFor(TCP, protocol, key))
      ensures udp == Without(old(udp), OnlyFor(UDP, protocol, key))
    {
      WithoutNone(tcp, {});
      WithoutNone(udp, {});
      WithoutOne(Table(protocol), key);
      SetTable(protocol, RemoveSlot(Table(protocol), key));
    }

    method SetTable(protocol: Protocol, t: seq<Slot>)
      modifies this`tcp, this`udp
      ensures tcp == if protocol == TCP then t else old(tcp)
      ensures udp == if protocol == TCP then old(udp) else t
    {
      if protocol == TCP { tcp := t; } else { udp := t; }
    }

    // A table is replaced by one that shows the entries of the next state.
    method ShowTable(protocol: Protocol, t: seq<Slot>, ghost table: FlowSpec.Table, ghost s: FlowSpec.State,
                     ghost after: FlowSpec.State)
      requires Shows(tcp, s.tcp) && Shows(udp, s.udp) && Shows(t, table)
      requires after == s.With(protocol, table).(created := created)
      modifies this`tcp, this`udp
      ensures Reached(after) && Flows() <= old(Flows()) + Objects(t)
    {
      if protocol == TCP { tcp := t; } else { udp := t; }
    }

    // Takes flows out of both tables and appends their final values to what is pending.
    method Release(flows: seq<FlowSpec.Entry>, reason: EndReason, ghost left: FlowSpec.State)
      requires DistinctSlots(tcp) && DistinctSlots(udp) && created == left.created
      requires var t := Without(tcp, KeysOf(flows, TCP)); Shows(t, left.tcp) && Objects(t) <= Objects(tcp)
      requires var u := Without(udp, KeysOf(flows, UDP)); Shows(u, left.udp) && Objects(u) <= Objects(udp)
      modifies this`tcp, this`udp, this`pending
      ensures Reached(left) && Flows() <= old(Flows())
      ensures pending == old(pending) + FlowSpec.Exported(flows, reason)
      ensures tcp == Without(old(tcp), KeysOf(flows, TCP))
      ensures udp == Without(old(udp), KeysOf(flows, UDP))
    {
      pending := pending + FlowSpec.Exported(flows, reason);
      DeleteAll(flows);
    }

    method DeleteAll(flows: seq<FlowSpec.Entry>)
      requires DistinctSlots(tcp) && DistinctSlots(udp)
      modifies this`tcp, this`udp
      ensures tcp == Without(old(tcp), KeysOf(flows, TCP))
      ensures udp == Without(old(udp), KeysOf(flows, UDP))
    {
      WithoutNone(tcp, {});
      WithoutNone(udp, {});
      var i := 0;
      assert KeysOf(flows[..0], TCP) == {} && KeysOf(flows[..0], UDP) == {};
      while i < |flows|
        invariant i <= |flows|
        invariant tcp == Without(old(tcp), KeysOf(flows[..i], TCP)) && DistinctSlots(tcp)
        invariant udp == Without(old(udp), KeysOf(flows[..i], UDP)) && DistinctSlots(udp)
      {
        DeleteNext(old(tcp), flows, i, TCP);
        DeleteNext(old(udp), flows, i, UDP);
        Delete(flows[i].flow.protocol, flows[i].key);
        i := i + 1;
      }
      assert flows[..i] == flows;
    }

    // Exports the idle flows at the front of both tables, oldest first.
    method Expire(ghost s: FlowSpec.State, ghost after: FlowSpec.State)
      requires Ready(s.tcp, TCP) && Ready(s.udp, UDP) && Reached(s) && pending == [] && now.Some?
      requires after == FlowSpec.AfterExpiry(cfg, s, now.value)
      modifies this`tcp, this`udp, this`pending
      ensures Reached(after) && Flows() <= old(Flows())
      ensures pending == FlowSpec.Exported(FlowSpec.ExpiredEntries(cfg, s, now.value), IdleTimeout)
    {
      ghost var m := FlowSpec.IdlePrefix(s.tcp, now.value, cfg.tcpTimeout);
      ghost var n := FlowSpec.IdlePrefix(s.udp, now.value, cfg.udpTimeout);
      ReleasedPrefixes(tcp, udp, s, m, n, FlowSpec.ExpiredEntries(cfg, s, now.value));
      var expired := IdleFront(tcp, now.value, cfg.tcpTimeout, s.tcp);
      var more := IdleFront(udp, now.value, cfg.udpTimeout, s.udp);
      Release(FlowSpec.SortBy(FlowSpec.SeenLeq, expired + more), IdleTimeout, after);
    }

    // Reaches the tables of FlowSpec.MakeRoom: one front flow is released when no place is left.
    method MakeRoom(ghost s: FlowSpec.State, ghost room: FlowSpec.State)
      requires cfg.Valid() && Ready(s.tcp, TCP) && Ready(s.udp, UDP) && Reached(s)
      requires room == FlowSpec.MakeRoom(cfg, s).state
      modifies this`tcp, this`udp, this`pending
      ensures pending == old(pending) + FlowSpec.MakeRoom(cfg, s).exported
      ensures Reached(room) && Flows() <= old(Flows())
    {
      if |tcp| + |udp| < cfg.maxFlows {
        return;
      }
      var victim: Slot;
      if tcp == [] {
        victim := udp[0];
      } else if udp == [] || FlowSpec.SeenLeq(tcp[0].flow.Fields(), udp[0].flow.Fields()) {
        victim := tcp[0];
      } else {
        victim := udp[0];
      }
      var entry := FlowSpec.Entry(victim.key, victim.flow.Fields());
      SlotsAreDistinct(tcp, s.tcp);
      SlotsAreDistinct(udp, s.udp);
      FrontOnly(tcp, entry, TCP);
      FrontOnly(udp, entry, UDP);
      Release([entry], Evicted, room);
    }

    // A packet joins a live flow, in place when it is late, and otherwise at the end of its table.
    method JoinFlow(p: Observation, i: nat, step: Option<Step>, late: bool, ghost s: FlowSpec.State,
                    ghost after: FlowSpec.State)
      returns (id: FlowId, direction: Direction)
      requires Ready(s.tcp, TCP) && Ready(s.udp, UDP) && Reached(s)
      requires i < |Table(p.protocol)| && !Restarts(s.Of(p.protocol)[i].flow, p)
      requires step == if p.protocol == TCP then Some(StepOf(s.Of(p.protocol)[i].flow, p)) else None
      requires after == FlowSpec.Join(s, p, i, late)
      modifies this`tcp, this`udp, Table(p.protocol)[i].flow
      ensures Reached(after) && Flows() <= old(Flows()) && now == old(now) && state == old(state)
      ensures var f := Joined(s.Of(p.protocol)[i].flow, p); id == f.id && direction == DirectionOf(f.a, p)
    {
      var t := Table(p.protocol);
      ghost var table := s.Of(p.protocol);
      ghost var entry := table[i].(flow := Joined(table[i].flow, p));
      OneFlowChanges(tcp, udp, s, p.protocol, i);
      direction := t[i].flow.Absorb(p, step);
      id := t[i].flow.id;
      assert Shows(t, table[i := entry]);
      if !late {
        ShowsMoved(t, table[i := entry], i);
        ghost var kept := s.With(p.protocol, table[i := entry]);
        ShowTable(p.protocol, t[..i] + t[i + 1..] + [t[i]], FlowSpec.RemoveAt(table, i) + [entry], kept, after);
      }
    }

    // A packet starts a flow at the end of its table, behind every other flow.
    method StartFlow(p: Observation, replaced: Option<Flow>, ghost s: FlowSpec.State, ghost f: Flow,
                     ghost after: FlowSpec.State)
      returns (id: FlowId, direction: Direction, ghost flow: LiveFlow)
      requires Reached(s) && f == Started(p, replaced, s.created + 1) && after == FlowSpec.Append(s, p, f)
      modifies this`tcp, this`udp, this`created
      ensures Reached(after) && id == f.id && direction == DirectionOf(f.a, p)
      ensures fresh(flow) && Flows() <= old(Flows()) + {flow}
    {
      var live;
      live, direction := FirstPacket(p, replaced, created + 1);
      created := created + 1;
      id := live.id;
      flow := live;
      ghost var table := s.Of(p.protocol);
      ShowsSnoc(Table(p.protocol), table, Slot(KeyOf(p), live), f);
      ShowTable(p.protocol, Table(p.protocol) + [Slot(KeyOf(p), live)], table + [FlowSpec.Entry(KeyOf(p), f)], s,
                after);
    }

    // The old flow of a reused endpoint pair leaves, as a new connection replaces it.
    method Replace(protocol: Protocol, i: nat, ghost s: FlowSpec.State, ghost without: FlowSpec.State)
      requires Ready(s.tcp, TCP) && Ready(s.udp, UDP) && Reached(s) && i < |Table(protocol)|
      requires without == s.With(protocol, FlowSpec.RemoveAt(s.Of(protocol), i))
      modifies this`tcp, this`udp, this`pending
      ensures Reached(without) && Flows() <= old(Flows())
      ensures pending == old(pending) + [Export(s.Of(protocol)[i].flow, NewConnection)]
    {
      var slot := Table(protocol)[i];
      var entry := FlowSpec.Entry(slot.key, slot.flow.Fields());
      ReleasedEntry(tcp, udp, s, protocol, i, entry, without);
      Release([entry], NewConnection, without);
    }

    // A packet starts a flow, after it made room for it.
    method OpenFlow(p: Observation, replaced: Option<Flow>, ghost s: FlowSpec.State, ghost r: FlowSpec.Placed)
      returns (id: FlowId, direction: Direction, ghost added: set<object>)
      requires cfg.Valid() && Ready(s.tcp, TCP) && Ready(s.udp, UDP) && Reached(s)
      requires r == FlowSpec.Open(cfg, s, p, replaced)
      modifies this`tcp, this`udp, this`pending, this`created
      ensures Reached(r.state) && Told(r, p, id, direction) && pending == old(pending) + r.exported
      ensures fresh(added) && Flows() <= old(Flows()) + added
    {
      ghost var room := FlowSpec.MakeRoom(cfg, s).state;
      assert room.created == s.created;
      assert r.state == FlowSpec.Append(room, p, r.flow) && r.flow == Started(p, replaced, room.created + 1);
      MakeRoom(s, room);
      ghost var flow;
      id, direction, flow := StartFlow(p, replaced, room, r.flow, r.state);
      added := {flow};
    }

    // What the caller is told about a placed packet.
    static ghost predicate Told(r: FlowSpec.Placed, p: Observation, id: FlowId, direction: Direction) {
      id == r.flow.id && direction == DirectionOf(r.flow.a, p)
    }

    // The state without the flow that is replaced, and what starting the new one there gives.
    static lemma {:induction false} ReuseParts(cfg: FlowSpec.Config, s: FlowSpec.State, p: Observation, i: nat,
                                               late: bool, r: FlowSpec.Placed)
      returns (without: FlowSpec.State, next: FlowSpec.Placed)
      requires cfg.Valid() && Ready(s.tcp, TCP) && Ready(s.udp, UDP)
      requires i < |s.Of(p.protocol)| && Restarts(s.Of(p.protocol)[i].flow, p)
      requires FlowSpec.Find(s.Of(p.protocol), KeyOf(p)) == i && r == FlowSpec.Place(cfg, s, p, late)
      ensures without == s.With(p.protocol, FlowSpec.RemoveAt(s.Of(p.protocol), i))
      ensures next == FlowSpec.Open(cfg, without, p, Some(s.Of(p.protocol)[i].flow))
      ensures Ready(without.tcp, TCP) && Ready(without.udp, UDP)
      ensures r
              == FlowSpec.Placed(next.state, next.flow,
                                 [Export(s.Of(p.protocol)[i].flow, NewConnection)] + next.exported)
    {
      without := s.With(p.protocol, FlowSpec.RemoveAt(s.Of(p.protocol), i));
      next := FlowSpec.Open(cfg, without, p, Some(s.Of(p.protocol)[i].flow));
      ReadyRemove(s.Of(p.protocol), i, p.protocol);
    }

    // A packet starts a new connection on the endpoints of a flow that ended.
    method Reuse(p: Observation, i: nat, flow: Flow, ghost late: bool, ghost s: FlowSpec.State,
                 ghost r: FlowSpec.Placed)
      returns (id: FlowId, direction: Direction, ghost added: set<object>)
      requires cfg.Valid() && Ready(s.tcp, TCP) && Ready(s.udp, UDP) && Reached(s)
      requires i < |Table(p.protocol)| && flow == s.Of(p.protocol)[i].flow && Restarts(flow, p)
      requires FlowSpec.Find(s.Of(p.protocol), KeyOf(p)) == i && r == FlowSpec.Place(cfg, s, p, late)
      modifies this`tcp, this`udp, this`pending, this`created
      ensures Reached(r.state) && Told(r, p, id, direction) && pending == old(pending) + r.exported
      ensures fresh(added) && Flows() <= old(Flows()) + added
    {
      ghost var without, next := ReuseParts(cfg, s, p, i, late, r);
      Replace(p.protocol, i, s, without);
      id, direction, added := OpenFlow(p, Some(flow), without, next);
    }

    // The packet finds, replaces or starts its flow.
    method Place(p: Observation, late: bool, ghost s: FlowSpec.State, ghost r: FlowSpec.Placed)
      returns (id: FlowId, direction: Direction, ghost added: set<object>)
      requires cfg.Valid() && Ready(s.tcp, TCP) && Ready(s.udp, UDP) && Reached(s)
      requires r == FlowSpec.Place(cfg, s, p, late)
      modifies this`tcp, this`udp, this`pending, this`created, Flows()
      ensures Reached(r.state) && Told(r, p, id, direction) && pending == old(pending) + r.exported
      ensures fresh(added) && Flows() <= old(Flows()) + added
      ensures now == old(now) && state == old(state)
    {
      var t := Table(p.protocol);
      var i := FindSlot(t, KeyOf(p));
      FindShown(t, s.Of(p.protocol), KeyOf(p));
      if i == |t| {
        assert r == FlowSpec.Open(cfg, s, p, None);
        id, direction, added := OpenFlow(p, None, s, r);
        return;
      }
      var flow: Flow := t[i].flow.Fields();
      var step := if p.protocol == TCP then Some(StepOf(flow, p)) else None;
      if step.Some? && step.value.restart {
        id, direction, added := Reuse(p, i, flow, late, s, r);
      } else {
        assert r == FlowSpec.Placed(FlowSpec.Join(s, p, i, late), Joined(flow, p), []);
        id, direction := JoinFlow(p, i, step, late, s, r.state);
        added := {};
      }
    }

    // The clock moves to the packet, unless it is late, and the idle flows leave.
    method Tick(p: Observation, ghost s: FlowSpec.State, ghost expired: FlowSpec.State) returns (late: bool)
      requires Ready(s.tcp, TCP) && Ready(s.udp, UDP) && Reached(s) && now == s.now && pending == []
      requires expired == FlowSpec.AfterExpiry(cfg, s, FlowSpec.Clock(s.now, p.timestamp))
      modifies this`tcp, this`udp, this`pending, this`now
      ensures Reached(expired) && Flows() <= old(Flows()) && late == FlowSpec.Late(s.now, p)
      ensures now == Some(FlowSpec.Clock(s.now, p.timestamp))
      ensures pending == FlowSpec.Exported(FlowSpec.ExpiredEntries(cfg, s, now.value), IdleTimeout)
    {
      late := FlowSpec.Late(now, p);
      now := Some(FlowSpec.Clock(now, p.timestamp));
      Expire(s, expired);
    }

    // Adds one packet: expiry, placement, and the flows that left.
    method Advance(p: Observation, ghost s: FlowSpec.State, ghost expired: FlowSpec.State,
                   ghost placed: FlowSpec.Placed)
      returns (id: FlowId, direction: Direction, exported: seq<Export>, ghost added: set<object>)
      requires cfg.Valid() && Ready(s.tcp, TCP) && Ready(s.udp, UDP) && Ready(expired.tcp, TCP)
               && Ready(expired.udp, UDP)
      requires Reached(s) && now == s.now && pending == []
      requires expired == FlowSpec.AfterExpiry(cfg, s, FlowSpec.Clock(s.now, p.timestamp))
      requires placed == FlowSpec.Place(cfg, expired, p, FlowSpec.Late(s.now, p))
      modifies this`tcp, this`udp, this`pending, this`created, this`now, Flows()
      ensures Reached(placed.state) && now == Some(FlowSpec.Clock(s.now, p.timestamp)) && pending == []
      ensures Told(placed, p, id, direction)
      ensures exported == FlowSpec.Exported(FlowSpec.ExpiredEntries(cfg, s, now.value), IdleTimeout) + placed.exported
      ensures fresh(added) && Flows() <= old(Flows()) + added
    {
      var late := Tick(p, s, expired);
      id, direction, added := Place(p, late, expired, placed);
      exported := Drain(placed.state);
    }

    // Hands over what left the tables.
    method Drain(ghost s: FlowSpec.State) returns (exported: seq<Export>)
      requires Reached(s)
      modifies this`pending
      ensures exported == old(pending) && pending == [] && Reached(s)
    {
      exported := pending;
      pending := [];
    }

    // The new abstract state, once the tables have reached it.
    ghost method Settle(s: FlowSpec.State)
      requires Reached(s)
      modifies this`state
      ensures state == s && Reached(s)
    {
      state := s;
    }

    // One packet, in place: the abstract state moves as FlowSpec.Update says, and what is pending is handed over.
    method Update(p: Observation) returns (id: FlowId, direction: Direction, exported: seq<Export>)
      requires Valid()
      modifies this, Flows()
      ensures Valid()
      ensures FlowSpec.Result(state, id, direction, exported) == FlowSpec.Update(cfg, old(state), p)
      ensures fresh(Flows() - old(Flows()))
    {
      ghost var expired := FlowSpec.AfterExpiry(cfg, state, FlowSpec.Clock(state.now, p.timestamp));
      ghost var placed := FlowSpec.Place(cfg, expired, p, FlowSpec.Late(state.now, p));
      UpdateIsReady(cfg, state, p);
      ghost var added;
      id, direction, exported, added := Advance(p, state, expired, placed);
      Settle(placed.state);
    }

    // The flow of a packet as it is now, if there is one. It changes nothing.
    method Context(p: Observation) returns (c: Option<FlowContext>)
      requires Valid()
      ensures c == FlowSpec.ContextOf(state, p)
    {
      var t := Table(p.protocol);
      var i := FindSlot(t, KeyOf(p));
      FindShown(t, state.Of(p.protocol), KeyOf(p));
      if i == |t| {
        return None;
      }
      var f := t[i].flow;
      assert f.Fields() == state.Of(p.protocol)[i].flow;
      c := Some(FlowContext(f.id, DirectionOf(f.a, p), f.state, f.forwardPackets, f.backwardPackets));
    }

    // Exports every flow and empties both tables.
    method Flush() returns (records: seq<Export>)
      requires Valid()
      modifies this
      ensures Valid()
      ensures records == FlowSpec.Flush(old(state))
      ensures state == old(state).(tcp := [], udp := [])
    {
      var tcpFlows := Snapshot(tcp, state.tcp);
      var udpFlows := Snapshot(udp, state.udp);
      records := pending + FlowSpec.Exported(FlowSpec.SortBy(FlowSpec.StartLeq, tcpFlows + udpFlows), EndOfInput);
      pending := [];
      tcp, udp := [], [];
      state := state.(tcp := [], udp := []);
    }
  }

  // What an update needs of the state, and what it leaves.
  lemma {:induction false} UpdateIsReady(cfg: FlowSpec.Config, s: FlowSpec.State, p: Observation)
    requires cfg.Valid() && Consistent(s) && s.Size() <= cfg.maxFlows
    ensures var expired := FlowSpec.AfterExpiry(cfg, s, FlowSpec.Clock(s.now, p.timestamp));
            var placed := FlowSpec.Place(cfg, expired, p, FlowSpec.Late(s.now, p));
            && Ready(s.tcp, TCP) && Ready(s.udp, UDP) && Ready(expired.tcp, TCP) && Ready(expired.udp, UDP)
            && Consistent(placed.state) && placed.state.Size() <= cfg.maxFlows
            && placed.state.now == Some(FlowSpec.Clock(s.now, p.timestamp))
  {
    UpdateKeeps(cfg, s, p);
    AfterExpiryKeeps(cfg, s, FlowSpec.Clock(s.now, p.timestamp));
    ConsistentIsReady(s);
    ConsistentIsReady(FlowSpec.AfterExpiry(cfg, s, FlowSpec.Clock(s.now, p.timestamp)));
  }

  lemma {:induction false} ConsistentIsReady(s: FlowSpec.State)
    requires Consistent(s)
    ensures Ready(s.tcp, TCP) && Ready(s.udp, UDP)
  {
  }

  lemma {:induction false} ReadyRemove(table: FlowSpec.Table, i: nat, protocol: Protocol)
    requires Ready(table, protocol) && i < |table|
    ensures Ready(FlowSpec.RemoveAt(table, i), protocol)
  {
  }

  lemma {:induction false} FindDistinct(t: seq<Slot>, i: nat)
    requires DistinctSlots(t) && i < |t|
    ensures FindSlot(t, t[i].key) == i
  {
  }

  // The values of the flows of a table.
  method Snapshot(t: seq<Slot>, ghost table: FlowSpec.Table) returns (entries: seq<FlowSpec.Entry>)
    requires Shows(t, table)
    ensures entries == table
  {
    entries := [];
    for i := 0 to |t|
      invariant entries == table[..i]
    {
      assert t[i].flow.Fields() == table[i].flow;
      entries := entries + [FlowSpec.Entry(t[i].key, t[i].flow.Fields())];
    }
  }

  lemma {:induction false} FindShown(t: seq<Slot>, table: FlowSpec.Table, key: Key)
    requires Shows(t, table)
    ensures FindSlot(t, key) == FlowSpec.Find(table, key)
  {
    var i, j := FindSlot(t, key), FlowSpec.Find(table, key);
    if i < |t| { assert table[i].key == key; }
    if j < |t| { assert t[j].key == key; }
  }

  lemma {:induction false} ShowsRemoved(t: seq<Slot>, table: FlowSpec.Table, i: nat)
    requires Shows(t, table) && i < |t|
    ensures Shows(t[..i] + t[i + 1..], FlowSpec.RemoveAt(table, i))
    ensures Objects(t[..i] + t[i + 1..]) <= Objects(t)
  {
  }

  // Deleting one entry removes its slot from its own table, and nothing from the other one.
  lemma {:induction false} OneOnly(t: seq<Slot>, e: FlowSpec.Entry, protocol: Protocol)
    requires DistinctSlots(t)
    ensures Without(t, KeysOf([e], protocol)) == if e.flow.protocol == protocol then RemoveSlot(t, e.key) else t
  {
    KeysOfSnoc([], e, protocol);
    assert [] + [e] == [e] && KeysOf([e], protocol) == if e.flow.protocol == protocol then {e.key} else {};
    WithoutOne(t, e.key);
    WithoutNone(t, {});
  }

  // A new flow that has counted its first packet.
  method FirstPacket(p: Observation, replaced: Option<Flow>, number: nat) returns (live: LiveFlow, direction: Direction)
    ensures fresh(live) && live.Fields() == Started(p, replaced, number) && direction == DirectionOf(live.a, p)
  {
    live := new LiveFlow(p, replaced, number);
    direction := live.Absorb(p, None);
  }

  lemma {:induction false} ShowsDrop(t: seq<Slot>, table: FlowSpec.Table, n: nat)
    requires Shows(t, table) && n <= |t|
    ensures Shows(t[n..], table[n..]) && Objects(t[n..]) <= Objects(t)
  {
  }

  lemma {:induction false} ShowsSnoc(t: seq<Slot>, table: FlowSpec.Table, slot: Slot, f: Flow)
    requires Shows(t, table) && slot.flow.Fields() == f
    ensures Shows(t + [slot], table + [FlowSpec.Entry(slot.key, f)])
    ensures Objects(t + [slot]) == Objects(t) + {slot.flow}
  {
  }

  lemma {:induction false} ShowsMoved(t: seq<Slot>, table: FlowSpec.Table, i: nat)
    requires Shows(t, table) && i < |t|
    ensures Shows(t[..i] + t[i + 1..] + [t[i]], FlowSpec.RemoveAt(table, i) + [table[i]])
    ensures Objects(t[..i] + t[i + 1..] + [t[i]]) <= Objects(t)
  {
  }

  // The flow of one slot is the flow of no other slot of either table.
  lemma {:induction false} OneFlowChanges(t: seq<Slot>, u: seq<Slot>, s: FlowSpec.State, protocol: Protocol, i: nat)
    requires Ready(s.tcp, TCP) && Ready(s.udp, UDP) && Shows(t, s.tcp) && Shows(u, s.udp)
    requires i < if protocol == TCP then |t| else |u|
    ensures var flow := if protocol == TCP then t[i].flow else u[i].flow;
            && (forall j :: 0 <= j < |t| && !(protocol == TCP && j == i) ==> t[j].flow != flow)
            && (forall j :: 0 <= j < |u| && !(protocol == UDP && j == i) ==> u[j].flow != flow)
  {
    assert forall j :: 0 <= j < |t| ==> t[j].flow.Fields() == s.tcp[j].flow;
    assert forall j :: 0 <= j < |u| ==> u[j].flow.Fields() == s.udp[j].flow;
  }

  // Releasing one entry leaves the rest of its table, and the other table as it is.
  lemma {:induction false} ReleasedEntry(
    t: seq<Slot>, u: seq<Slot>, s: FlowSpec.State, protocol: Protocol, i: nat, e: FlowSpec.Entry,
    without: FlowSpec.State)
    requires Ready(s.tcp, TCP) && Ready(s.udp, UDP) && Shows(t, s.tcp) && Shows(u, s.udp)
    requires i < |s.Of(protocol)| && e == s.Of(protocol)[i]
    requires without == s.With(protocol, FlowSpec.RemoveAt(s.Of(protocol), i))
    ensures DistinctSlots(t) && DistinctSlots(u)
    ensures Objects(Without(t, KeysOf([e], TCP))) <= Objects(t) && Shows(Without(t, KeysOf([e], TCP)), without.tcp)
    ensures Objects(Without(u, KeysOf([e], UDP))) <= Objects(u) && Shows(Without(u, KeysOf([e], UDP)), without.udp)
  {
    SlotsAreDistinct(t, s.tcp);
    SlotsAreDistinct(u, s.udp);
    OneOnly(t, e, TCP);
    OneOnly(u, e, UDP);
    if protocol == TCP {
      ShowsRemoved(t, s.tcp, i);
      FindDistinct(t, i);
    } else {
      ShowsRemoved(u, s.udp, i);
      FindDistinct(u, i);
    }
  }

  // Deleting one front entry leaves the rest of its table, and the other table as it is.
  lemma {:induction false} FrontOnly(t: seq<Slot>, e: FlowSpec.Entry, protocol: Protocol)
    requires DistinctSlots(t) && (e.flow.protocol == protocol ==> t != [] && t[0].key == e.key)
    ensures Without(t, KeysOf([e], protocol)) == if e.flow.protocol == protocol then t[1..] else t
  {
    KeysOfSnoc([], e, protocol);
    assert [] + [e] == [e] && KeysOf([e], protocol) == if e.flow.protocol == protocol then {e.key} else {};
    if e.flow.protocol == protocol {
      WithoutPrefix(t, 1, {e.key});
    } else {
      WithoutNone(t, {});
    }
  }

  // Releasing the expired prefixes of both tables leaves their other parts.
  lemma {:induction false} ReleasedPrefixes(
    t: seq<Slot>, u: seq<Slot>, s: FlowSpec.State, m: nat, n: nat, sorted: seq<FlowSpec.Entry>)
    requires Ready(s.tcp, TCP) && Ready(s.udp, UDP) && Shows(t, s.tcp) && Shows(u, s.udp) && m <= |t| && n <= |u|
    requires sorted == FlowSpec.SortBy(FlowSpec.SeenLeq, s.tcp[..m] + s.udp[..n])
    ensures DistinctSlots(t) && Without(t, KeysOf(sorted, TCP)) == t[m..]
    ensures DistinctSlots(u) && Without(u, KeysOf(sorted, UDP)) == u[n..]
    ensures Shows(t[m..], s.tcp[m..]) && Objects(t[m..]) <= Objects(t)
    ensures Shows(u[n..], s.udp[n..]) && Objects(u[n..]) <= Objects(u)
  {
    ShowsDrop(t, s.tcp, m);
    ShowsDrop(u, s.udp, n);
    SortKeepsMembers(FlowSpec.SeenLeq, s.tcp[..m] + s.udp[..n]);
    SlotsAreDistinct(t, s.tcp);
    SlotsAreDistinct(u, s.udp);
    PrefixKeys(s.tcp, m, s.udp[..n], sorted, TCP);
    PrefixKeys(s.udp, n, s.tcp[..m], sorted, UDP);
    WithoutPrefix(t, m, KeysOf(sorted, TCP));
    WithoutPrefix(u, n, KeysOf(sorted, UDP));
  }

  // The keys of an expired prefix are those of no other slot of its table.
  lemma {:induction false} PrefixKeys(
    table: FlowSpec.Table, n: nat, others: seq<FlowSpec.Entry>, es: seq<FlowSpec.Entry>, protocol: Protocol)
    requires Ready(table, protocol) && n <= |table|
    requires forall e :: e in es <==> e in table[..n] || e in others
    requires forall e :: e in others ==> e.flow.protocol != protocol
    ensures forall i :: 0 <= i < |table| ==> (table[i].key in KeysOf(es, protocol) <==> i < n)
  {
    forall i | 0 <= i < |table| ensures table[i].key in KeysOf(es, protocol) <==> i < n {
      if i < n {
        assert table[..n][i] in es;
      }
    }
  }
}
