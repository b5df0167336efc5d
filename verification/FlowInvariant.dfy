// What every update keeps, for packets in any order: consistent tables, the flow limit, sound expiry.
module FlowInvariant {
  import opened Base
  import opened FlowModel
  import opened FlowSpec

  // A flow that the tracker built: its id names it, and its times and its number lie in the run so far.
  ghost predicate FlowOk(f: Flow, s: State) {
    && f.id == FlowId(f.protocol, f.a, f.b, f.startTime, f.occurrence)
    && f.startTime <= f.lastSeen
    && s.now.Some?
    && f.lastSeen <= s.now.value
    && 1 <= f.number <= s.created
  }

  ghost predicate TableOk(t: Table, protocol: Protocol, s: State) {
    && (forall i :: 0 <= i < |t| ==>
          t[i].flow.protocol == protocol && t[i].key == MakeKey(t[i].flow.a, t[i].flow.b) && FlowOk(t[i].flow, s))
    && DistinctKeys(t)
  }

  ghost predicate DistinctKeys(t: Table) {
    forall i, j :: 0 <= i < j < |t| ==> t[i].key != t[j].key
  }

  ghost predicate Consistent(s: State) {
    TableOk(s.tcp, TCP, s) && TableOk(s.udp, UDP, s)
  }

  ghost predicate ExportsOk(xs: seq<Export>, s: State) {
    forall x :: x in xs ==> FlowOk(x.flow, s)
  }

  // ---------- Sorting keeps the entries ----------

  lemma {:induction false} InsertKeeps(leq: Order, f: Entry, s: seq<Entry>)
    ensures multiset(Insert(leq, f, s)) == multiset(s) + multiset{f}
  {
    if s == [] || leq(f.flow, s[0].flow) {
    } else {
      InsertKeeps(leq, f, s[1..]);
      assert s == [s[0]] + s[1..];
    }
  }

  lemma {:induction false} SortKeeps(leq: Order, s: seq<Entry>)
    ensures multiset(SortBy(leq, s)) == multiset(s)
  {
    if s != [] {
      SortKeeps(leq, s[1..]);
      InsertKeeps(leq, s[0], SortBy(leq, s[1..]));
      assert s == [s[0]] + s[1..];
    }
  }

  lemma {:induction false} SortKeepsMembers(leq: Order, s: seq<Entry>)
    ensures |SortBy(leq, s)| == |s|
    ensures forall e :: e in SortBy(leq, s) <==> e in s
  {
    SortKeeps(leq, s);
    assert |multiset(SortBy(leq, s))| == |multiset(s)|;
    forall e ensures e in SortBy(leq, s) <==> e in s {
      assert e in SortBy(leq, s) <==> e in multiset(SortBy(leq, s));
      assert e in s <==> e in multiset(s);
    }
  }

  // ---------- Every exported flow in terms of the tables ----------

  // An idle export comes from the tables before the packet, and it was idle for longer than its timeout.
  lemma {:induction false} IdleExportsAreIdle(cfg: Config, s: State, now: real, x: Export)
    requires Consistent(s) && x in Exported(ExpiredEntries(cfg, s, now), IdleTimeout)
    ensures now - x.flow.lastSeen > cfg.Timeout(x.flow.protocol)
    ensures FlowOk(x.flow, s)
  {
    var m, n := IdlePrefix(s.tcp, now, cfg.tcpTimeout), IdlePrefix(s.udp, now, cfg.udpTimeout);
    SortKeepsMembers(SeenLeq, s.tcp[..m] + s.udp[..n]);
    var e :| e in ExpiredEntries(cfg, s, now) && x == Export(e.flow, IdleTimeout);
    assert e in s.tcp[..m] || e in s.udp[..n];
  }

  // ---------- One update keeps the tables consistent ----------

  // A flow, and so a table, stays as it was described when the clock and the creation count move on.
  lemma {:induction false} FlowOkGrows(f: Flow, s: State, t: State)
    requires FlowOk(f, s) && s.created <= t.created && t.now.Some? && s.now.value <= t.now.value
    ensures FlowOk(f, t)
  {
  }

  lemma {:induction false} TableGrows(table: Table, protocol: Protocol, s: State, t: State)
    requires TableOk(table, protocol, s) && s.created <= t.created
    requires s.now.Some? ==> t.now.Some? && s.now.value <= t.now.value
    ensures TableOk(table, protocol, t)
  {
    forall i | 0 <= i < |table| ensures FlowOk(table[i].flow, t) {
      FlowOkGrows(table[i].flow, s, t);
    }
  }

  ghost predicate EntryOk(e: Entry, protocol: Protocol, s: State) {
    e.flow.protocol == protocol && e.key == MakeKey(e.flow.a, e.flow.b) && FlowOk(e.flow, s)
  }

  lemma {:induction false} TableSnoc(table: Table, e: Entry, protocol: Protocol, s: State)
    requires TableOk(table, protocol, s) && EntryOk(e, protocol, s) && Absent(table, e.key)
    ensures TableOk(table + [e], protocol, s)
  {
  }

  lemma {:induction false} TableReplace(table: Table, i: nat, e: Entry, protocol: Protocol, s: State)
    requires TableOk(table, protocol, s) && EntryOk(e, protocol, s) && i < |table| && e.key == table[i].key
    ensures TableOk(table[i := e], protocol, s)
  {
  }

  lemma {:induction false} TableRemove(table: Table, i: nat, protocol: Protocol, s: State)
    requires TableOk(table, protocol, s) && i < |table|
    ensures TableOk(RemoveAt(table, i), protocol, s) && Absent(RemoveAt(table, i), table[i].key)
  {
  }

  lemma {:induction false} AfterExpiryKeeps(cfg: Config, s: State, now: real)
    requires Consistent(s) && (s.now.Some? ==> s.now.value <= now)
    ensures Consistent(AfterExpiry(cfg, s, now))
    ensures AfterExpiry(cfg, s, now).Size() <= s.Size()
  {
  }

  lemma {:induction false} MakeRoomKeeps(cfg: Config, s: State, protocol: Protocol, key: Key)
    requires cfg.Valid() && Consistent(s) && s.Size() <= cfg.maxFlows
    ensures var r := MakeRoom(cfg, s);
            && Consistent(r.state)
            && r.state.Size() < cfg.maxFlows
            && r.state.now == s.now
            && r.state.created == s.created
            && |r.exported| <= 1
            && ExportsOk(r.exported, s)
            && (forall x :: x in r.exported ==> x.reason == Evicted)
            && (Absent(s.Of(protocol), key) ==> Absent(r.state.Of(protocol), key))
  {
  }

  ghost predicate Absent(t: Table, key: Key) { forall i :: 0 <= i < |t| ==> t[i].key != key }

  lemma {:induction false} NewFlowFits(p: Observation, replaced: Option<Flow>, s: State)
    requires s.now.Some? && p.timestamp <= s.now.value
    ensures var f := Started(p, replaced, s.created + 1);
            && FlowOk(f, s.(created := s.created + 1))
            && f.protocol == p.protocol
            && MakeKey(f.a, f.b) == KeyOf(p)
  {
    var f := Started(p, replaced, s.created + 1);
    KeyIsUnorderedPair(f.a, f.b, p.source, p.destination);
  }

  lemma {:induction false} AppendKeeps(s: State, p: Observation, f: Flow)
    requires Consistent(s) && Absent(s.Of(p.protocol), KeyOf(p))
    requires FlowOk(f, s.(created := s.created + 1)) && f.protocol == p.protocol && MakeKey(f.a, f.b) == KeyOf(p)
    ensures Consistent(Append(s, p, f))
  {
    var t := Append(s, p, f);
    TableGrows(s.tcp, TCP, s, t);
    TableGrows(s.udp, UDP, s, t);
    TableSnoc(s.Of(p.protocol), Entry(KeyOf(p), f), p.protocol, t);
  }

  lemma {:induction false} OpenKeeps(cfg: Config, s: State, p: Observation, replaced: Option<Flow>)
    requires cfg.Valid() && Consistent(s) && s.Size() <= cfg.maxFlows
    requires s.now.Some? && p.timestamp <= s.now.value && Absent(s.Of(p.protocol), KeyOf(p))
    ensures var r := Open(cfg, s, p, replaced);
            && Consistent(r.state)
            && r.state.now == s.now
            && r.state.created == s.created + 1
            && r.state.Size() <= cfg.maxFlows
            && ExportsOk(r.exported, s)
            && |r.exported| <= 1
            && (forall x :: x in r.exported ==> x.reason == Evicted)
  {
    var room := MakeRoom(cfg, s);
    var f := Started(p, replaced, s.created + 1);
    MakeRoomKeeps(cfg, s, p.protocol, KeyOf(p));
    NewFlowFits(p, replaced, room.state);
    AppendKeeps(room.state, p, f);
    AppendCounts(room.state, p, f);
    assert Open(cfg, s, p, replaced) == Placed(Append(room.state, p, f), f, room.exported);
  }

  lemma {:induction false} AppendCounts(s: State, p: Observation, f: Flow)
    ensures var t := Append(s, p, f); t.Size() == s.Size() + 1 && t.created == s.created + 1 && t.now == s.now
  {
  }

  lemma {:induction false} RemoveKeeps(s: State, protocol: Protocol, i: nat)
    requires Consistent(s) && i < |s.Of(protocol)|
    ensures var t := s.With(protocol, RemoveAt(s.Of(protocol), i));
            Consistent(t) && t.Size() == s.Size() - 1 && Absent(t.Of(protocol), s.Of(protocol)[i].key)
  {
    var t := s.With(protocol, RemoveAt(s.Of(protocol), i));
    TableGrows(s.tcp, TCP, s, t);
    TableGrows(s.udp, UDP, s, t);
    TableRemove(s.Of(protocol), i, protocol, t);
  }

  lemma {:induction false} JoinedOk(f: Flow, p: Observation, s: State)
    requires FlowOk(f, s) && p.timestamp <= s.now.value
    ensures var g := Joined(f, p); FlowOk(g, s) && g.protocol == f.protocol && g.a == f.a && g.b == f.b
  {
  }

  lemma {:induction false} JoinKeeps(s: State, p: Observation, i: nat, late: bool)
    requires Consistent(s) && s.now.Some? && p.timestamp <= s.now.value
    requires i < |s.Of(p.protocol)|
    ensures Consistent(Join(s, p, i, late)) && Join(s, p, i, late).Size() == s.Size()
  {
    var table := s.Of(p.protocol);
    var entry := table[i].(flow := Joined(table[i].flow, p));
    JoinedOk(table[i].flow, p, s);
    TableReplace(table, i, entry, p.protocol, s);
    TableRemove(table, i, p.protocol, s);
    TableSnoc(RemoveAt(table, i), entry, p.protocol, s);
    var t := Join(s, p, i, late);
    TableGrows(t.tcp, TCP, s, t);
    TableGrows(t.udp, UDP, s, t);
  }

  // A packet of a live flow joins it or reuses its endpoints, and neither evicts a flow.
  ghost predicate ReusesOrJoins(s: State, p: Observation) {
    Find(s.Of(p.protocol), KeyOf(p)) < |s.Of(p.protocol)|
  }

  lemma {:induction false} PlaceKeeps(cfg: Config, s: State, p: Observation, late: bool)
    requires cfg.Valid() && Consistent(s) && s.Size() <= cfg.maxFlows
    requires s.now.Some? && p.timestamp <= s.now.value
    ensures var r := Place(cfg, s, p, late);
            && Consistent(r.state)
            && r.state.now == s.now
            && s.created <= r.state.created
            && r.state.Size() <= cfg.maxFlows
            && ExportsOk(r.exported, s)
            && |r.exported| <= 1
            && (forall x :: x in r.exported ==> x.reason == if ReusesOrJoins(s, p) then NewConnection else Evicted)
  {
    var table := s.Of(p.protocol);
    var i := Find(table, KeyOf(p));
    if i == |table| {
      OpenKeeps(cfg, s, p, None);
    } else if Restarts(table[i].flow, p) {
      RemoveKeeps(s, p.protocol, i);
      var without := s.With(p.protocol, RemoveAt(table, i));
      OpenKeeps(cfg, without, p, Some(table[i].flow));
      assert MakeRoom(cfg, without).exported == [];
    } else {
      JoinKeeps(s, p, i, late);
    }
  }

  lemma {:induction false} OneAtTheEnd(idle: seq<Export>, placed: seq<Export>)
    requires (forall x :: x in idle ==> x.reason == IdleTimeout) && |placed| <= 1
    ensures forall i :: 0 <= i < |idle + placed| - 1 ==> (idle + placed)[i].reason == IdleTimeout
  {
    assert forall i :: 0 <= i < |idle| ==> (idle + placed)[i] == idle[i] && idle[i] in idle;
  }

  // The main step: consistent tables, at most maxFlows flows, at most one eviction, and only sound expiry.
  lemma {:induction false} UpdateKeeps(cfg: Config, s: State, p: Observation)
    requires cfg.Valid() && Consistent(s) && s.Size() <= cfg.maxFlows
    ensures var r := Update(cfg, s, p);
            && Consistent(r.state)
            && r.state.Size() <= cfg.maxFlows
            && r.state.now == Some(Clock(s.now, p.timestamp))
            && s.created <= r.state.created
            && ExportsOk(r.exported, r.state)
            && (forall x :: x in r.exported && x.reason == IdleTimeout ==>
                  r.state.now.value - x.flow.lastSeen > cfg.Timeout(x.flow.protocol))
            && (forall i :: 0 <= i < |r.exported| - 1 ==> r.exported[i].reason == IdleTimeout)
            && (forall x :: x in r.exported ==> x.reason in {IdleTimeout, NewConnection, Evicted})
  {
    var now := Clock(s.now, p.timestamp);
    var expired := AfterExpiry(cfg, s, now);
    AfterExpiryKeeps(cfg, s, now);
    PlaceKeeps(cfg, expired, p, Late(s.now, p));
    var idle, placed := Exported(ExpiredEntries(cfg, s, now), IdleTimeout), Place(cfg, expired, p, Late(s.now, p));
    var r := Update(cfg, s, p);
    assert r.exported == idle + placed.exported;
    OneAtTheEnd(idle, placed.exported);
    forall x | x in r.exported
      ensures FlowOk(x.flow, r.state) && x.reason in {IdleTimeout, NewConnection, Evicted}
      ensures x.reason == IdleTimeout ==> now - x.flow.lastSeen > cfg.Timeout(x.flow.protocol)
    {
      if x in idle {
        IdleExportsAreIdle(cfg, s, now, x);
        FlowOkGrows(x.flow, s, r.state);
      } else {
        FlowOkGrows(x.flow, expired, r.state);
      }
    }
  }

  // A packet that joins a live flow, or reuses the endpoints of one, never evicts anything.
  lemma {:induction false} JoinAndReuseEvictNothing(cfg: Config, s: State, p: Observation)
    requires cfg.Valid() && Consistent(s) && s.Size() <= cfg.maxFlows
    requires ReusesOrJoins(AfterExpiry(cfg, s, Clock(s.now, p.timestamp)), p)
    ensures forall x :: x in Update(cfg, s, p).exported ==> x.reason != Evicted
  {
    var now := Clock(s.now, p.timestamp);
    AfterExpiryKeeps(cfg, s, now);
    PlaceKeeps(cfg, AfterExpiry(cfg, s, now), p, Late(s.now, p));
  }

  // The live flow that a packet joins, unless the packet starts a flow.
  function JoinedBy(s: State, p: Observation): Option<Flow> {
    var t := s.Of(p.protocol);
    var i := Find(t, KeyOf(p));
    if i < |t| && !Restarts(t[i].flow, p) then Some(t[i].flow) else None
  }

  // What the rule engine is told of a started flow: one packet, and the first state of the table.
  ghost predicate TellsStart(c: FlowContext, p: Observation) {
    var direction := DirectionOf(Initiator(p), p);
    && c.direction == direction
    && c.state == (if p.protocol == TCP then Some(FirstStep(p.flags, direction).state) else None)
    && c.forwardPackets == One(direction == Forward) && c.backwardPackets == One(direction == Backward)
  }

  // What it is told of a joined flow: the same id, one more packet in its direction, and the next state of the table.
  ghost predicate TellsJoin(c: FlowContext, f: Flow, p: Observation) {
    var direction := DirectionOf(f.a, p);
    && c.id == f.id && c.direction == direction
    && c.state == (if f.protocol == TCP then Some(StepOf(f, p).state) else f.state)
    && c.forwardPackets == f.forwardPackets + One(direction == Forward)
    && c.backwardPackets == f.backwardPackets + One(direction == Backward)
  }

  // Right after an update, the tables tell the flow that the update named, in the direction it named, with the packets
  // and the state that it has with this packet.
  lemma {:induction false} ContextAfterUpdate(cfg: Config, s: State, p: Observation)
    requires cfg.Valid() && Consistent(s)
    ensures var r, joined := Update(cfg, s, p), JoinedBy(AfterExpiry(cfg, s, Clock(s.now, p.timestamp)), p);
            var c := ContextOf(r.state, p);
            && c.Some? && c.value.id == r.id && c.value.direction == r.direction
            && if joined.Some? then TellsJoin(c.value, joined.value, p) else TellsStart(c.value, p)
  {
    var now := Clock(s.now, p.timestamp);
    var expired := AfterExpiry(cfg, s, now);
    AfterExpiryKeeps(cfg, s, now);
    ContextAfterPlace(cfg, expired, p, Late(s.now, p));
    PlacedFlow(cfg, expired, p, Late(s.now, p));
  }

  lemma {:induction false} PlacedFlow(cfg: Config, s: State, p: Observation, late: bool)
    requires cfg.Valid() && Consistent(s)
    ensures var f, joined := Place(cfg, s, p, late).flow, JoinedBy(s, p);
            var c := FlowContext(f.id, DirectionOf(f.a, p), f.state, f.forwardPackets, f.backwardPackets);
            if joined.Some? then TellsJoin(c, joined.value, p) else TellsStart(c, p)
  {
  }

  lemma {:induction false} ContextAfterPlace(cfg: Config, s: State, p: Observation, late: bool)
    requires cfg.Valid() && Consistent(s)
    ensures var r := Place(cfg, s, p, late);
            var t := r.state.Of(p.protocol);
            var i := Find(t, KeyOf(p));
            i < |t| && t[i].flow == r.flow
  {
    var table := s.Of(p.protocol);
    var i := Find(table, KeyOf(p));
    if i == |table| {
      ContextAfterOpen(cfg, s, p, None);
    } else {
      RemoveKeeps(s, p.protocol, i);
      if Restarts(table[i].flow, p) {
        ContextAfterOpen(cfg, s.With(p.protocol, RemoveAt(table, i)), p, Some(table[i].flow));
      } else {
        var entry := table[i].(flow := Joined(table[i].flow, p));
        FindLast(RemoveAt(table, i), entry);
        assert table[i := entry][i].key == KeyOf(p);
      }
    }
  }

  lemma {:induction false} ContextAfterOpen(cfg: Config, s: State, p: Observation, replaced: Option<Flow>)
    requires cfg.Valid() && Absent(s.Of(p.protocol), KeyOf(p))
    ensures var r := Open(cfg, s, p, replaced);
            var t := r.state.Of(p.protocol);
            var i := Find(t, KeyOf(p));
            i < |t| && t[i].flow == r.flow
  {
    var room := MakeRoom(cfg, s).state;
    assert Absent(room.Of(p.protocol), KeyOf(p));
    FindLast(room.Of(p.protocol), Entry(KeyOf(p), Started(p, replaced, s.created + 1)));
  }

  lemma {:induction false} FindLast(t: Table, e: Entry)
    requires Absent(t, e.key)
    ensures Find(t + [e], e.key) == |t|
  {
    assert (t + [e])[|t|].key == e.key;
  }

  // ---------- Every reachable state ----------

  lemma {:induction false} PlayKeeps(cfg: Config, ps: seq<Observation>)
    requires cfg.Valid()
    ensures var t := Play(cfg, ps);
            && Consistent(t.state)
            && t.state.Size() <= cfg.maxFlows
            && ExportsOk(t.exported, t.state)
            && (t.state.now.None? <==> ps == [])
            && (forall x :: x in t.exported ==> x.reason != EndOfInput)
    decreases |ps|
  {
    if ps != [] {
      var before := Play(cfg, ps[..|ps| - 1]);
      PlayKeeps(cfg, ps[..|ps| - 1]);
      UpdateKeeps(cfg, before.state, ps[|ps| - 1]);
      var after := Play(cfg, ps);
      forall x | x in before.exported ensures FlowOk(x.flow, after.state) {
        FlowOkGrows(x.flow, before.state, after.state);
      }
    }
  }
}
