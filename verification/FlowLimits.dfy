// Where the hypotheses of the flow results are needed: concrete runs that break them.
module FlowLimits {
  import opened Base
  import opened FlowModel
  import opened FlowSpec

  function Datagram(port: int, timestamp: real): Observation {
    Observation(UDP, Endpoint("a", port), Endpoint("b", 53), timestamp, 60, {}, "UNKNOWN", 0)
  }

  function FlowOf(port: int, timestamp: real, number: nat): Flow { Started(Datagram(port, timestamp), None, number) }

  function EntryOf(port: int, timestamp: real, number: nat): Entry {
    Entry(KeyOf(Datagram(port, timestamp)), FlowOf(port, timestamp, number))
  }

  lemma {:induction false} KeysDiffer(port: int, other: int)
    requires port != other
    ensures KeyOf(Datagram(port, 0.0)) != KeyOf(Datagram(other, 0.0))
  {
    KeyIsUnorderedPair(Endpoint("a", port), Endpoint("b", 53), Endpoint("a", other), Endpoint("b", 53));
    assert "a"[0] != "b"[0];
  }

  lemma {:induction false} FirstDatagram(cfg: Config, port: int, timestamp: real)
    requires cfg.Valid()
    ensures Play(cfg, [Datagram(port, timestamp)])
            == Trace(State([], [EntryOf(port, timestamp, 1)], Some(timestamp), 1),
                     [Output(FlowOf(port, timestamp, 1).id, Forward)], [])
  {
    var p := Datagram(port, timestamp);
    assert [p][..0] == [];
    var expired := AfterExpiry(cfg, EMPTY, timestamp);
    assert expired == State([], [], Some(timestamp), 0);
    assert ExpiredEntries(cfg, EMPTY, timestamp) == [];
  }

  // A full table evicts the only flow, and the same endpoints at the same time then get the same flow id again.
  lemma {:induction false} EvictionRepeatsAnIdentity(cfg: Config, p: Observation, q: Observation)
    requires cfg.Valid() && cfg.maxFlows == 1 && p == Datagram(1, 0.0) && q == Datagram(2, 0.0)
    ensures var t := Play(cfg, [p] + [q] + [p]);
            |t.outputs| == 3 && t.outputs[0].id == t.outputs[2].id && t.state.created == 3
  {
    FirstDatagram(cfg, 1, 0.0);
    Evicts(cfg, 1, 2, 1);
    Evicts(cfg, 2, 1, 2);
    PlaySnoc(cfg, [p], q);
    PlaySnoc(cfg, [p] + [q], p);
  }

  lemma {:induction false} PlaySnoc(cfg: Config, ps: seq<Observation>, p: Observation)
    requires cfg.Valid()
    ensures var t := Play(cfg, ps);
            var r := Update(cfg, t.state, p);
            Play(cfg, ps + [p]) == Trace(r.state, t.outputs + [Output(r.id, r.direction)], t.exported + r.exported)
  {
    assert (ps + [p])[..|ps|] == ps;
  }

  lemma {:induction false} Evicts(cfg: Config, held: int, port: int, number: nat)
    requires cfg.Valid() && cfg.maxFlows == 1 && held != port
    ensures var r := Update(cfg, State([], [EntryOf(held, 0.0, number)], Some(0.0), number), Datagram(port, 0.0));
            r.state == State([], [EntryOf(port, 0.0, number + 1)], Some(0.0), number + 1)
            && r.id == FlowOf(port, 0.0, 1).id
  {
    var s := State([], [EntryOf(held, 0.0, number)], Some(0.0), number);
    KeysDiffer(held, port);
    assert !Idle(FlowOf(held, 0.0, number), 0.0, cfg.udpTimeout);
    assert AfterExpiry(cfg, s, 0.0) == s;
    assert Find(s.udp, KeyOf(Datagram(port, 0.0))) == 1;
    assert MakeRoom(cfg, s).state == State([], [], Some(0.0), number);
  }

  // A late packet starts a flow behind a newer one, where the front-only scan does not see that it is idle.
  lemma {:induction false} LatePacketHidesAnIdleFlow(cfg: Config)
    requires cfg.Valid() && cfg.maxFlows >= 2
    ensures var now := 1.0 + cfg.udpTimeout;
            var t := Play(cfg, [Datagram(1, now), Datagram(2, 0.0)]);
            t.state.udp == [EntryOf(1, now, 1), EntryOf(2, 0.0, 2)]
            && Idle(t.state.udp[1].flow, t.state.now.value, cfg.udpTimeout)
  {
    var now := 1.0 + cfg.udpTimeout;
    var p, q := Datagram(1, now), Datagram(2, 0.0);
    FirstDatagram(cfg, 1, now);
    KeysDiffer(1, 2);
    var s := State([], [EntryOf(1, now, 1)], Some(now), 1);
    assert [p, q][..1] == [p];
    assert !Idle(FlowOf(1, now, 1), now, cfg.udpTimeout);
    assert AfterExpiry(cfg, s, now) == s;
    assert Find(s.udp, KeyOf(q)) == 1;
  }

  lemma {:induction false} RoomForOne(cfg: Config, udp: Table, now: real, created: nat)
    requires cfg.Valid() && |udp| <= cfg.maxFlows
    ensures var full := |udp| == cfg.maxFlows;
            MakeRoom(cfg, State([], udp, Some(now), created))
            == Room(State([], if full then udp[1..] else udp, Some(now), created),
                    if full then [Export(udp[0].flow, Evicted)] else [])
  {
  }

  // A datagram that finds no flow, while no front is idle: it stands last, and a full table loses its front.
  lemma {:induction false} OpensLast(cfg: Config, udp: Table, now: real, created: nat, port: int, timestamp: real)
    requires cfg.Valid() && timestamp <= now && (udp == [] || !Idle(udp[0].flow, now, cfg.udpTimeout))
    requires Find(udp, KeyOf(Datagram(port, timestamp))) == |udp| <= cfg.maxFlows
    ensures var r := Update(cfg, State([], udp, Some(now), created), Datagram(port, timestamp));
            var full := |udp| == cfg.maxFlows;
            && r.state
               == State([], (if full then udp[1..] else udp) + [EntryOf(port, timestamp, created + 1)], Some(now),
                        created + 1)
            && r.exported == (if full then [Export(udp[0].flow, Evicted)] else [])
            && r.id == FlowOf(port, timestamp, 1).id
  {
    var s, p := State([], udp, Some(now), created), Datagram(port, timestamp);
    assert IdlePrefix(udp, now, cfg.udpTimeout) == 0 && udp[0..] == udp;
    assert AfterExpiry(cfg, s, now) == s;
    NothingExpires(cfg, s, now);
    RoomForOne(cfg, udp, now, created);
    assert Place(cfg, s, p, Late(s.now, p)) == Open(cfg, s, p, None);
    assert Entry(KeyOf(p), Started(p, None, created + 1)) == EntryOf(port, timestamp, created + 1);
  }

  lemma {:induction false} NothingExpires(cfg: Config, s: State, now: real)
    requires IdlePrefix(s.tcp, now, cfg.tcpTimeout) == 0 && IdlePrefix(s.udp, now, cfg.udpTimeout) == 0
    ensures Exported(ExpiredEntries(cfg, s, now), IdleTimeout) == []
  {
    assert s.tcp[..0] + s.udp[..0] == [];
  }

  lemma {:induction false} FindNone(ports: seq<int>, udp: Table, port: int, timestamp: real)
    requires |ports| == |udp| && forall i :: 0 <= i < |udp| ==>
               udp[i].key == KeyOf(Datagram(ports[i], 0.0)) && ports[i] != port
    ensures Find(udp, KeyOf(Datagram(port, timestamp))) == |udp|
  {
    forall i | 0 <= i < |udp| ensures udp[i].key != KeyOf(Datagram(port, timestamp)) {
      KeysDiffer(ports[i], port);
    }
  }

  lemma {:induction false} Expires(cfg: Config)
    requires cfg.Valid() && cfg.maxFlows >= 2
    ensures var now := 1.0 + cfg.udpTimeout;
            var r := Update(cfg, State([], [EntryOf(1, 0.0, 1)], Some(0.0), 1), Datagram(2, now));
            && r.state == State([], [EntryOf(2, now, 2)], Some(now), 2)
            && forall x :: x in r.exported ==> x.reason == IdleTimeout
  {
    var now := 1.0 + cfg.udpTimeout;
    var s := State([], [EntryOf(1, 0.0, 1)], Some(0.0), 1);
    assert Idle(FlowOf(1, 0.0, 1), now, cfg.udpTimeout);
    assert s.udp[1..] == [] && IdlePrefix(s.udp, now, cfg.udpTimeout) == 1;
    var t := AfterExpiry(cfg, s, now);
    assert t == State([], [], Some(now), 1);
    assert MakeRoom(cfg, t) == Room(t, []);
  }

  // A late packet can start its flow a second time, without any eviction: the clock has ended the first one early.
  lemma {:induction false} LatePacketRepeatsAnIdentity(cfg: Config, p: Observation, q: Observation)
    requires cfg.Valid() && cfg.maxFlows >= 2 && p == Datagram(1, 0.0) && q == Datagram(2, 1.0 + cfg.udpTimeout)
    ensures var t := Play(cfg, [p] + [q] + [p]);
            && |t.outputs| == 3 && t.outputs[0].id == t.outputs[2].id && t.state.created == 3
            && forall x :: x in t.exported ==> x.reason != Evicted
  {
    var now := q.timestamp;
    FirstDatagram(cfg, 1, 0.0);
    Expires(cfg);
    FindNone([2], [EntryOf(2, now, 2)], 1, 0.0);
    OpensLast(cfg, [EntryOf(2, now, 2)], now, 2, 1, 0.0);
    PlaySnoc(cfg, [p], q);
    PlaySnoc(cfg, [p] + [q], p);
  }

  lemma {:induction false} LateSecond(cfg: Config, now: real)
    requires cfg.Valid() && cfg.maxFlows == 2 && now == cfg.udpTimeout
    ensures var r := Update(cfg, State([], [EntryOf(1, now, 1)], Some(now), 1), Datagram(2, 0.0));
            r.state == State([], [EntryOf(1, now, 1), EntryOf(2, 0.0, 2)], Some(now), 2) && r.exported == []
  {
    FindNone([1], [EntryOf(1, now, 1)], 2, 0.0);
    OpensLast(cfg, [EntryOf(1, now, 1)], now, 1, 2, 0.0);
    assert [EntryOf(1, now, 1)] + [EntryOf(2, 0.0, 2)] == [EntryOf(1, now, 1), EntryOf(2, 0.0, 2)];
  }

  lemma {:induction false} FullThird(cfg: Config, now: real)
    requires cfg.Valid() && cfg.maxFlows == 2 && now == cfg.udpTimeout
    ensures var r := Update(cfg, State([], [EntryOf(1, now, 1), EntryOf(2, 0.0, 2)], Some(now), 2), Datagram(3, now));
            r.state.udp == [EntryOf(2, 0.0, 2)] + [EntryOf(3, now, 3)]
            && r.exported == [Export(FlowOf(1, now, 1), Evicted)]
  {
    var udp := [EntryOf(1, now, 1), EntryOf(2, 0.0, 2)];
    FindNone([1, 2], udp, 3, now);
    OpensLast(cfg, udp, now, 2, 3, now);
    assert udp[1..] == [EntryOf(2, 0.0, 2)];
  }

  // Behind a newer flow that fills the tables with it, the older flow of a late packet outlives the newer one.
  lemma {:induction false} LatePacketEvictsANewerFlow(cfg: Config, p: Observation, q: Observation, r: Observation)
    requires cfg.Valid() && cfg.maxFlows == 2
    requires p == Datagram(1, cfg.udpTimeout) && q == Datagram(2, 0.0) && r == Datagram(3, cfg.udpTimeout)
    ensures var t := Play(cfg, [p] + [q] + [r]);
            && t.exported == [Export(FlowOf(1, p.timestamp, 1), Evicted)]
            && EntryOf(2, 0.0, 2) in t.state.udp && FlowOf(2, 0.0, 2).lastSeen < FlowOf(1, p.timestamp, 1).lastSeen
  {
    FirstDatagram(cfg, 1, p.timestamp);
    LateSecond(cfg, p.timestamp);
    FullThird(cfg, p.timestamp);
    PlaySnoc(cfg, [p], q);
    PlaySnoc(cfg, [p] + [q], r);
  }
}
