// The tracker refines the offline split: in order, flows of different endpoints interfere by evictions and nothing
// else.
module FlowRefinement {
  import opened Base
  import opened FlowModel
  import opened FlowSpec
  import opened FlowInvariant
  import opened FlowCapacity
  import opened FlowOrder
  import opened FlowOffline
  import FlowTotals

  // ---------- What concerns one protocol and one key ----------

  function About(protocol: Protocol, key: Key): Flow -> bool {
    (f: Flow) => f.protocol == protocol && MakeKey(f.a, f.b) == key
  }

  function FlowsOf(t: seq<Entry>): seq<Flow> { seq(|t|, i requires 0 <= i < |t| => t[i].flow) }

  function OutFlows(xs: seq<Export>): seq<Flow> { seq(|xs|, i requires 0 <= i < |xs| => xs[i].flow) }

  function Select(fs: seq<Flow>, holds: Flow -> bool): seq<Flow> {
    if fs == [] then [] else (if holds(fs[0]) then [Strip(fs[0])] else []) + Select(fs[1..], holds)
  }

  // The flows of one key, in order and without their numbers.
  function At(fs: seq<Flow>, protocol: Protocol, key: Key): seq<Flow> { Select(fs, About(protocol, key)) }

  function LiveIn(t: Table, key: Key): seq<Flow> {
    var i := Find(t, key);
    if i < |t| then [Strip(t[i].flow)] else []
  }

  function LiveAt(s: State, protocol: Protocol, key: Key): seq<Flow> { LiveIn(s.Of(protocol), key) }

  // The packets of one key, in order.
  function Project(ps: seq<Observation>, protocol: Protocol, key: Key): seq<Observation>
    decreases |ps|
  {
    if ps == [] then []
    else
      var p := ps[|ps| - 1];
      Project(ps[..|ps| - 1], protocol, key) + if p.protocol == protocol && KeyOf(p) == key then [p] else []
  }

  // ---------- Selecting commutes with the operations on tables ----------

  // A flow on its own.
  function Keep(f: Flow, holds: Flow -> bool): seq<Flow> { if holds(f) then [Strip(f)] else [] }

  lemma {:induction false} SelectFirst(f: Flow, fs: seq<Flow>, holds: Flow -> bool)
    ensures Select([f] + fs, holds) == Keep(f, holds) + Select(fs, holds)
  {
    assert ([f] + fs)[1..] == fs;
  }

  lemma {:induction false} SelectConcat(fs: seq<Flow>, gs: seq<Flow>, holds: Flow -> bool)
    ensures Select(fs + gs, holds) == Select(fs, holds) + Select(gs, holds)
  {
    if fs == [] {
      assert fs + gs == gs;
    } else {
      SelectConcat(fs[1..], gs, holds);
      assert fs == [fs[0]] + fs[1..] && fs + gs == [fs[0]] + (fs[1..] + gs);
      SelectFirst(fs[0], fs[1..], holds);
      SelectFirst(fs[0], fs[1..] + gs, holds);
      ConcatAssociates(Keep(fs[0], holds), Select(fs[1..], holds), Select(gs, holds));
    }
  }

  lemma {:induction false} ConcatAssociates(fs: seq<Flow>, gs: seq<Flow>, hs: seq<Flow>)
    ensures fs + (gs + hs) == fs + gs + hs
  {
  }

  lemma {:induction false} SelectOne(f: Flow, holds: Flow -> bool)
    ensures Select([f], holds) == if holds(f) then [Strip(f)] else []
  {
    assert [f][1..] == [];
  }

  lemma {:induction false} SelectNone(fs: seq<Flow>, holds: Flow -> bool)
    requires forall i :: 0 <= i < |fs| ==> !holds(fs[i])
    ensures Select(fs, holds) == []
  {
    if fs != [] {
      SelectNone(fs[1..], holds);
    }
  }

  // In a table with distinct keys, at most one flow concerns a key.
  lemma {:induction false} AtTable(t: Table, protocol: Protocol, key: Key)
    requires DistinctKeys(t)
    requires forall i :: 0 <= i < |t| ==>
               t[i].flow.protocol == protocol && t[i].key == MakeKey(t[i].flow.a, t[i].flow.b)
    ensures At(FlowsOf(t), protocol, key) == LiveIn(t, key)
  {
    var i := Find(t, key);
    if i == |t| {
      SelectNone(FlowsOf(t), About(protocol, key));
    } else {
      var front, back := FlowsOf(t[..i]), FlowsOf(t[i + 1..]);
      assert FlowsOf(t) == front + ([t[i].flow] + back);
      SelectConcat(front, [t[i].flow] + back, About(protocol, key));
      SelectNone(front, About(protocol, key));
      SelectNone(back, About(protocol, key));
    }
  }

  lemma {:induction false} FlowsOfConcat(xs: seq<Entry>, ys: seq<Entry>)
    ensures FlowsOf(xs + ys) == FlowsOf(xs) + FlowsOf(ys)
  {
  }

  lemma {:induction false} AtTwo(t: Table, u: Table, protocol: Protocol, key: Key)
    ensures At(FlowsOf(t + u), protocol, key) == At(FlowsOf(t), protocol, key) + At(FlowsOf(u), protocol, key)
  {
    FlowsOfConcat(t, u);
    SelectConcat(FlowsOf(t), FlowsOf(u), About(protocol, key));
  }

  lemma {:induction false} AtOther(s: State, other: Protocol, protocol: Protocol, key: Key)
    requires Consistent(s) && other != protocol
    ensures At(FlowsOf(s.Of(other)), protocol, key) == []
  {
    SelectNone(FlowsOf(s.Of(other)), About(protocol, key));
  }

  lemma {:induction false} AtLive(s: State, protocol: Protocol, key: Key)
    requires Consistent(s)
    ensures At(FlowsOf(s.Of(protocol)), protocol, key) == LiveAt(s, protocol, key)
    ensures At(FlowsOf(s.tcp + s.udp), protocol, key) == LiveAt(s, protocol, key)
  {
    AtTable(s.Of(protocol), protocol, key);
    AtOther(s, if protocol == TCP then UDP else TCP, protocol, key);
    AtTwo(s.tcp, s.udp, protocol, key);
  }

  lemma {:induction false} SelectInsert(leq: Order, e: Entry, es: seq<Entry>, holds: Flow -> bool)
    requires !holds(e.flow) || Select(FlowsOf(es), holds) == []
    ensures Select(FlowsOf(Insert(leq, e, es)), holds) == Select(FlowsOf([e] + es), holds)
  {
    assert FlowsOf([e] + es)[1..] == FlowsOf(es);
    if !(es == [] || leq(e.flow, es[0].flow)) {
      assert FlowsOf(es)[1..] == FlowsOf(es[1..]);
      assert FlowsOf([e] + es[1..])[1..] == FlowsOf(es[1..]);
      var rest := Insert(leq, e, es[1..]);
      SelectInsert(leq, e, es[1..], holds);
      assert FlowsOf([es[0]] + rest)[1..] == FlowsOf(rest);
    }
  }

  // Sorting cannot change the order of at most one flow.
  lemma {:induction false} SelectSort(leq: Order, es: seq<Entry>, holds: Flow -> bool)
    requires |Select(FlowsOf(es), holds)| <= 1
    ensures Select(FlowsOf(SortBy(leq, es)), holds) == Select(FlowsOf(es), holds)
  {
    if es != [] {
      assert FlowsOf(es)[1..] == FlowsOf(es[1..]);
      SelectSort(leq, es[1..], holds);
      SelectInsert(leq, es[0], SortBy(leq, es[1..]), holds);
      assert FlowsOf([es[0]] + SortBy(leq, es[1..]))[1..] == FlowsOf(SortBy(leq, es[1..]));
    }
  }

  // ---------- One update, seen from one key ----------

  function OutAt(xs: seq<Export>, protocol: Protocol, key: Key): seq<Flow> { At(OutFlows(xs), protocol, key) }

  lemma {:induction false} OutAtConcat(xs: seq<Export>, ys: seq<Export>, protocol: Protocol, key: Key)
    ensures OutAt(xs + ys, protocol, key) == OutAt(xs, protocol, key) + OutAt(ys, protocol, key)
  {
    assert OutFlows(xs + ys) == OutFlows(xs) + OutFlows(ys);
    SelectConcat(OutFlows(xs), OutFlows(ys), About(protocol, key));
  }

  lemma {:induction false} TablePrefix(t: Table, n: nat, key: Key)
    requires n <= |t| && DistinctKeys(t)
    ensures Find(t[..n], key) == if Find(t, key) < n then Find(t, key) else n
    ensures Find(t[n..], key) == if Find(t, key) < n then |t| - n else Find(t, key) - n
  {
    var i := Find(t, key);
    if i < |t| && n <= i { assert t[n..][i - n].key == key; }
    if i < n { assert t[..n][i].key == key; }
  }

  // The front parts of the tables, which expiry exports.
  function Front(cfg: Config, s: State, now: real): State {
    State(s.tcp[..IdlePrefix(s.tcp, now, cfg.tcpTimeout)], s.udp[..IdlePrefix(s.udp, now, cfg.udpTimeout)], s.now,
          s.created)
  }

  lemma {:induction false} ExportedFront(cfg: Config, s: State, now: real, protocol: Protocol, key: Key)
    requires Consistent(s)
    ensures OutAt(Exported(ExpiredEntries(cfg, s, now), IdleTimeout), protocol, key)
            == LiveAt(Front(cfg, s, now), protocol, key)
  {
    var front, expired := Front(cfg, s, now), ExpiredEntries(cfg, s, now);
    AtLive(front, protocol, key);
    SelectSort(SeenLeq, front.tcp + front.udp, About(protocol, key));
    assert OutFlows(Exported(expired, IdleTimeout)) == FlowsOf(expired);
  }

  lemma {:induction false} IdleExactly(t: Table, now: real, timeout: real, i: nat)
    requires Sorted(t) && i < |t|
    ensures i < IdlePrefix(t, now, timeout) <==> Idle(t[i].flow, now, timeout)
  {
  }

  lemma {:induction false} TableSplits(t: Table, n: nat, now: real, timeout: real, key: Key)
    requires Sorted(t) && DistinctKeys(t) && n == IdlePrefix(t, now, timeout)
    ensures var live := LiveIn(t, key);
            var idle := live != [] && Idle(live[0], now, timeout);
            LiveIn(t[..n], key) == (if idle then live else []) && LiveIn(t[n..], key) == if idle then [] else live
  {
    var i := Find(t, key);
    TablePrefix(t, n, key);
    if i < |t| {
      IdleExactly(t, now, timeout, i);
    }
  }

  lemma {:induction false} ExpirySplits(cfg: Config, s: State, now: real, protocol: Protocol, key: Key)
    requires Consistent(s) && SortedState(s)
    ensures var live, left := LiveAt(s, protocol, key), LiveAt(AfterExpiry(cfg, s, now), protocol, key);
            var idle := live != [] && Idle(live[0], now, cfg.Timeout(protocol));
            && LiveAt(Front(cfg, s, now), protocol, key) == (if idle then live else [])
            && left == if idle then [] else live
  {
    TableSplits(s.Of(protocol), IdlePrefix(s.Of(protocol), now, cfg.Timeout(protocol)), now, cfg.Timeout(protocol),
                key);
  }

  // Expiry moves an idle flow from the table to the exports, and touches no other.
  lemma {:induction false} ExpiryAt(cfg: Config, s: State, now: real, protocol: Protocol, key: Key)
    requires Consistent(s) && SortedState(s)
    ensures var live, left := LiveAt(s, protocol, key), LiveAt(AfterExpiry(cfg, s, now), protocol, key);
            && OutAt(Exported(ExpiredEntries(cfg, s, now), IdleTimeout), protocol, key) + left == live
            && left == if live != [] && Idle(live[0], now, cfg.Timeout(protocol)) then [] else live
  {
    ExportedFront(cfg, s, now, protocol, key);
    ExpirySplits(cfg, s, now, protocol, key);
  }

  // One of the exports is the evicted flow of the key.
  predicate Evicts(xs: seq<Export>, protocol: Protocol, key: Key) {
    exists x :: x in xs && x.reason == Evicted && About(protocol, key)(x.flow)
  }

  lemma {:induction false} FindSnoc(t: Table, e: Entry, key: Key)
    ensures Find(t + [e], key) == if Find(t, key) < |t| || e.key != key then
                                    (if Find(t, key) < |t| then Find(t, key) else |t| + 1) else |t|
  {
    var i, j := Find(t, key), Find(t + [e], key);
    if i < |t| { assert (t + [e])[i].key == key; }
    if i == |t| && e.key == key { assert (t + [e])[|t|].key == key; }
  }

  lemma {:induction false} FindRemove(t: Table, i: nat, key: Key)
    requires i < |t| && DistinctKeys(t)
    ensures t[i].key == key ==> Find(RemoveAt(t, i), key) == |t| - 1
    ensures t[i].key != key && Find(t, key) == |t| ==> Find(RemoveAt(t, i), key) == |t| - 1
    ensures t[i].key != key && Find(t, key) < |t| ==>
              Find(RemoveAt(t, i), key) < |t| - 1 && RemoveAt(t, i)[Find(RemoveAt(t, i), key)] == t[Find(t, key)]
  {
    var rest, j := RemoveAt(t, i), Find(t, key);
    if t[i].key != key && j < |t| {
      assert rest[if j < i then j else j - 1] == t[j];
    }
  }

  // A packet that starts a flow adds it to its own key, and changes no other key.
  lemma {:induction false} AppendAt(s: State, p: Observation, f: Flow, protocol: Protocol, key: Key)
    requires Absent(s.Of(p.protocol), KeyOf(p))
    ensures LiveAt(Append(s, p, f), protocol, key)
            == if protocol == p.protocol && key == KeyOf(p) then [Strip(f)] else LiveAt(s, protocol, key)
  {
    FindSnoc(s.Of(p.protocol), Entry(KeyOf(p), f), key);
  }

  lemma {:induction false} RemoveLiveAt(s: State, p: Protocol, i: nat, protocol: Protocol, key: Key)
    requires Consistent(s) && i < |s.Of(p)|
    ensures LiveAt(s.With(p, RemoveAt(s.Of(p), i)), protocol, key)
            == if protocol == p && key == s.Of(p)[i].key then [] else LiveAt(s, protocol, key)
  {
    FindRemove(s.Of(p), i, key);
  }

  lemma {:induction false} StripJoined(f: Flow, p: Observation)
    ensures Strip(Joined(f, p)) == Joined(Strip(f), p)
    ensures Restarts(f, p) == Restarts(Strip(f), p)
  {
  }

  lemma {:induction false} StripStarted(p: Observation, f: Flow, number: nat)
    ensures Strip(Started(p, Some(f), number)) == Strip(Started(p, Some(Strip(f)), 0))
    ensures Strip(Started(p, None, number)) == Strip(Started(p, None, 0))
  {
  }

  lemma {:induction false} OneExport(f: Flow, reason: EndReason, protocol: Protocol, key: Key)
    ensures var xs, own := [Export(f, reason)], f.protocol == protocol && MakeKey(f.a, f.b) == key;
            && (Evicts(xs, protocol, key) <==> reason == Evicted && own)
            && OutAt(xs, protocol, key) == if own then [Strip(f)] else []
  {
    var xs := [Export(f, reason)];
    assert xs[0] in xs && OutFlows(xs) == [f];
    SelectOne(f, About(protocol, key));
  }

  lemma {:induction false} FindFront(t: Table)
    requires t != []
    ensures Find(t, t[0].key) == 0 && RemoveAt(t, 0) == t[1..]
  {
  }

  // What the key holds when the front of a table is gone.
  lemma {:induction false} FrontAt(s: State, v: Protocol, protocol: Protocol, key: Key)
    requires Consistent(s) && s.Of(v) != []
    ensures var own, live, f := protocol == v && key == s.Of(v)[0].key, LiveAt(s, protocol, key), s.Of(v)[0].flow;
            && LiveAt(s.With(v, s.Of(v)[1..]), protocol, key) == (if own then [] else live)
            && (own ==> live == [Strip(f)])
            && (own <==> f.protocol == protocol && MakeKey(f.a, f.b) == key)
  {
    FindFront(s.Of(v));
    RemoveLiveAt(s, v, 0, protocol, key);
  }

  // Making room takes the live flow of a key exactly when it evicts it.
  lemma {:induction false} RoomAt(cfg: Config, s: State, protocol: Protocol, key: Key)
    requires cfg.Valid() && Consistent(s)
    ensures var r, live := MakeRoom(cfg, s), LiveAt(s, protocol, key);
            var cut := Evicts(r.exported, protocol, key);
            LiveAt(r.state, protocol, key) == (if cut then [] else live)
            && OutAt(r.exported, protocol, key) == if cut then live else []
  {
    if s.Size() >= cfg.maxFlows {
      FrontAt(s, Victim(s), protocol, key);
      OneExport(s.Of(Victim(s))[0].flow, Evicted, protocol, key);
    }
  }

  // What a packet makes of the live flow of its own key, if any.
  function LiveNext(live: seq<Flow>, p: Observation): Flow {
    if live == [] then Strip(Started(p, None, 0))
    else if Restarts(live[0], p) then Strip(Started(p, Some(live[0]), 0))
    else Joined(live[0], p)
  }

  // A placed packet changes its own key, and can evict the flow of another.
  ghost predicate PlacedAt(r: Placed, s: State, p: Observation, protocol: Protocol, key: Key) {
    var live, cut := LiveAt(s, protocol, key), Evicts(r.exported, protocol, key);
    if protocol == p.protocol && key == KeyOf(p) then
      && LiveAt(r.state, protocol, key) == [LiveNext(live, p)]
      && Strip(r.flow) == LiveNext(live, p)
      && OutAt(r.exported, protocol, key) == if live != [] && Restarts(live[0], p) then live else []
    else
      && LiveAt(r.state, protocol, key) == (if cut then [] else live)
      && OutAt(r.exported, protocol, key) == if cut then live else []
  }

  // The opened flow stands in the tables that made room for it.
  lemma {:induction false} OpenedAt(s: State, room: Room, p: Observation, protocol: Protocol, key: Key)
    requires LiveAt(s, p.protocol, KeyOf(p)) == [] && Absent(room.state.Of(p.protocol), KeyOf(p))
    requires var live, cut := LiveAt(s, protocol, key), Evicts(room.exported, protocol, key);
             && LiveAt(room.state, protocol, key) == (if cut then [] else live)
             && OutAt(room.exported, protocol, key) == if cut then live else []
    ensures var f := Started(p, None, s.created + 1);
            PlacedAt(Placed(Append(room.state, p, f), f, room.exported), s, p, protocol, key)
  {
    var f := Started(p, None, s.created + 1);
    StripStarted(p, f, s.created + 1);
    AppendAt(room.state, p, f, protocol, key);
  }

  lemma {:induction false} OpenAt(cfg: Config, s: State, p: Observation, late: bool, protocol: Protocol, key: Key)
    requires cfg.Valid() && Consistent(s) && s.Size() <= cfg.maxFlows
    requires Find(s.Of(p.protocol), KeyOf(p)) == |s.Of(p.protocol)|
    ensures PlacedAt(Place(cfg, s, p, late), s, p, protocol, key)
  {
    RoomAt(cfg, s, protocol, key);
    MakeRoomKeeps(cfg, s, p.protocol, KeyOf(p));
    OpenedAt(s, MakeRoom(cfg, s), p, protocol, key);
    OpenParts(cfg, s, p, late);
  }

  lemma {:induction false} OpenParts(cfg: Config, s: State, p: Observation, late: bool)
    requires cfg.Valid() && Find(s.Of(p.protocol), KeyOf(p)) == |s.Of(p.protocol)|
    ensures var room, f := MakeRoom(cfg, s), Started(p, None, s.created + 1);
            Place(cfg, s, p, late) == Placed(Append(room.state, p, f), f, room.exported)
  {
  }

  // A reuse makes room without an eviction.
  lemma {:induction false} ReuseParts(cfg: Config, s: State, p: Observation, i: nat, late: bool)
    requires cfg.Valid() && s.Size() <= cfg.maxFlows
    requires i < |s.Of(p.protocol)| && Find(s.Of(p.protocol), KeyOf(p)) == i && Restarts(s.Of(p.protocol)[i].flow, p)
    ensures var f, without := s.Of(p.protocol)[i].flow, s.With(p.protocol, RemoveAt(s.Of(p.protocol), i));
            var g := Started(p, Some(f), s.created + 1);
            Place(cfg, s, p, late) == Placed(Append(without, p, g), g, [Export(f, NewConnection)])
  {
    var without := s.With(p.protocol, RemoveAt(s.Of(p.protocol), i));
    assert without.Size() < cfg.maxFlows;
    assert MakeRoom(cfg, without) == Room(without, []);
  }

  // A key that a flow started on holds that flow and exported the one before it. All others stay as they are.
  lemma {:induction false} ReusePlaced(r: Placed, s: State, p: Observation, f: Flow, g: Flow, protocol: Protocol,
                                       key: Key)
    requires LiveAt(s, p.protocol, KeyOf(p)) == [Strip(f)] && Restarts(f, p)
    requires Strip(g) == Strip(Started(p, Some(Strip(f)), 0)) && r.flow == g
    requires var own := protocol == p.protocol && key == KeyOf(p);
             && LiveAt(r.state, protocol, key) == (if own then [Strip(g)] else LiveAt(s, protocol, key))
             && OutAt(r.exported, protocol, key) == (if own then [Strip(f)] else [])
             && !Evicts(r.exported, protocol, key)
    ensures PlacedAt(r, s, p, protocol, key)
  {
    StripJoined(f, p);
  }

  lemma {:induction false} ReusedLiveAt(s: State, p: Observation, i: nat, g: Flow, protocol: Protocol, key: Key)
    requires Consistent(s) && i < |s.Of(p.protocol)| && Find(s.Of(p.protocol), KeyOf(p)) == i
    ensures LiveAt(Append(s.With(p.protocol, RemoveAt(s.Of(p.protocol), i)), p, g), protocol, key)
            == if protocol == p.protocol && key == KeyOf(p) then [Strip(g)] else LiveAt(s, protocol, key)
  {
    RemoveKeeps(s, p.protocol, i);
    RemoveLiveAt(s, p.protocol, i, protocol, key);
    AppendAt(s.With(p.protocol, RemoveAt(s.Of(p.protocol), i)), p, g, protocol, key);
  }

  lemma {:induction false} ReusedAt(s: State, p: Observation, i: nat, protocol: Protocol, key: Key)
    requires Consistent(s)
    requires i < |s.Of(p.protocol)| && Find(s.Of(p.protocol), KeyOf(p)) == i && Restarts(s.Of(p.protocol)[i].flow, p)
    ensures var f, without := s.Of(p.protocol)[i].flow, s.With(p.protocol, RemoveAt(s.Of(p.protocol), i));
            var g := Started(p, Some(f), s.created + 1);
            PlacedAt(Placed(Append(without, p, g), g, [Export(f, NewConnection)]), s, p, protocol, key)
  {
    var f := s.Of(p.protocol)[i].flow;
    var without := s.With(p.protocol, RemoveAt(s.Of(p.protocol), i));
    var g := Started(p, Some(f), s.created + 1);
    OneExport(f, NewConnection, protocol, key);
    StripStarted(p, f, s.created + 1);
    ReusedLiveAt(s, p, i, g, protocol, key);
    ReusePlaced(Placed(Append(without, p, g), g, [Export(f, NewConnection)]), s, p, f, g, protocol, key);
  }

  lemma {:induction false} JoinedFind(t: Table, i: nat, e: Entry, key: Key)
    requires DistinctKeys(t) && i < |t| && e.key == t[i].key
    ensures var next, j := RemoveAt(t, i) + [e], Find(RemoveAt(t, i) + [e], key);
            if key == e.key then j < |next| && next[j] == e
            else if Find(t, key) == |t| then j == |next|
            else j < |next| && next[j] == t[Find(t, key)]
  {
    FindRemove(t, i, key);
    FindSnoc(RemoveAt(t, i), e, key);
  }

  lemma {:induction false} ReplacedFind(t: Table, i: nat, e: Entry, key: Key)
    requires DistinctKeys(t) && i < |t| && e.key == t[i].key
    ensures Find(t[i := e], key) == Find(t, key)
  {
    var j, k := Find(t[i := e], key), Find(t, key);
    if j < |t| { assert t[j].key == key; }
    if k < |t| { assert t[i := e][k].key == key; }
  }

  lemma {:induction false} JoinedInPlace(t: Table, i: nat, e: Entry, key: Key)
    requires DistinctKeys(t) && i < |t| && e.key == t[i].key
    ensures LiveIn(t[i := e], key) == if key == e.key then [Strip(e.flow)] else LiveIn(t, key)
  {
    ReplacedFind(t, i, e, key);
  }

  lemma {:induction false} JoinedAtEnd(t: Table, i: nat, e: Entry, key: Key)
    requires DistinctKeys(t) && i < |t| && e.key == t[i].key
    ensures LiveIn(RemoveAt(t, i) + [e], key) == if key == e.key then [Strip(e.flow)] else LiveIn(t, key)
  {
    JoinedFind(t, i, e, key);
  }

  lemma {:induction false} JoinedLiveAt(s: State, p: Observation, i: nat, late: bool, protocol: Protocol, key: Key)
    requires Consistent(s) && i < |s.Of(p.protocol)| && Find(s.Of(p.protocol), KeyOf(p)) == i
    ensures LiveAt(Join(s, p, i, late), protocol, key)
            == if protocol == p.protocol && key == KeyOf(p) then [Strip(Joined(s.Of(p.protocol)[i].flow, p))]
               else LiveAt(s, protocol, key)
  {
    var table := s.Of(p.protocol);
    var entry := table[i].(flow := Joined(table[i].flow, p));
    JoinedInPlace(table, i, entry, key);
    JoinedAtEnd(table, i, entry, key);
  }

  lemma {:induction false} JoinAt(cfg: Config, s: State, p: Observation, late: bool, protocol: Protocol, key: Key)
    requires cfg.Valid() && Consistent(s)
    requires var table := s.Of(p.protocol);
             var i := Find(table, KeyOf(p));
             i < |table| && !Restarts(table[i].flow, p)
    ensures PlacedAt(Place(cfg, s, p, late), s, p, protocol, key)
  {
    var table := s.Of(p.protocol);
    var i := Find(table, KeyOf(p));
    StripJoined(table[i].flow, p);
    JoinedLiveAt(s, p, i, late, protocol, key);
  }

  lemma {:induction false} PlaceAt(cfg: Config, s: State, p: Observation, late: bool, protocol: Protocol, key: Key)
    requires cfg.Valid() && Consistent(s) && s.Size() <= cfg.maxFlows
    ensures PlacedAt(Place(cfg, s, p, late), s, p, protocol, key)
  {
    var table := s.Of(p.protocol);
    var i := Find(table, KeyOf(p));
    if i == |table| {
      OpenAt(cfg, s, p, late, protocol, key);
    } else if Restarts(table[i].flow, p) {
      ReuseParts(cfg, s, p, i, late);
      ReusedAt(s, p, i, protocol, key);
    } else {
      JoinAt(cfg, s, p, late, protocol, key);
    }
  }

  // What is left of a key's live flow once a packet at this time has expired the idle flows.
  function StillLive(cfg: Config, live: seq<Flow>, protocol: Protocol, now: real): seq<Flow> {
    if live != [] && Idle(live[0], now, cfg.Timeout(protocol)) then [] else live
  }

  // What a key exports: its idle flow, the ended connection that a packet replaces, or the flow that a packet evicts.
  function Leaves(cfg: Config, live: seq<Flow>, p: Observation, protocol: Protocol, own: bool, cut: bool): seq<Flow> {
    var left := StillLive(cfg, live, protocol, p.timestamp);
    (if left == [] then live else []) + if (if own then left != [] && Restarts(left[0], p) else cut) then left else []
  }

  // What a key holds afterwards.
  function Holds(cfg: Config, live: seq<Flow>, p: Observation, protocol: Protocol, own: bool, cut: bool): seq<Flow> {
    var left := StillLive(cfg, live, protocol, p.timestamp);
    if own then [LiveNext(left, p)] else if cut then [] else left
  }

  // An update, as expiry followed by placement.
  lemma {:induction false} UpdateParts(cfg: Config, s: State, p: Observation, protocol: Protocol, key: Key)
    requires cfg.Valid() && Consistent(s) && s.Size() <= cfg.maxFlows
    ensures var now := Clock(s.now, p.timestamp);
            var expired := AfterExpiry(cfg, s, now);
            var placed, r := Place(cfg, expired, p, Late(s.now, p)), Update(cfg, s, p);
            && Consistent(expired) && expired.Size() <= cfg.maxFlows
            && (Evicts(placed.exported, protocol, key) <==> Evicts(r.exported, protocol, key))
            && r == Result(placed.state, placed.flow.id, DirectionOf(placed.flow.a, p),
                           Exported(ExpiredEntries(cfg, s, now), IdleTimeout) + placed.exported)
  {
    var now := Clock(s.now, p.timestamp);
    AfterExpiryKeeps(cfg, s, now);
    var idle, placed := Exported(ExpiredEntries(cfg, s, now), IdleTimeout),
                        Place(cfg, AfterExpiry(cfg, s, now), p, Late(s.now, p));
    IdleEvictsNothing(idle, placed.exported, protocol, key);
  }

  lemma {:induction false} IdleEvictsNothing(idle: seq<Export>, xs: seq<Export>, protocol: Protocol, key: Key)
    requires forall x :: x in idle ==> x.reason == IdleTimeout
    ensures Evicts(idle + xs, protocol, key) <==> Evicts(xs, protocol, key)
  {
    assert forall x :: x in idle + xs <==> x in idle || x in xs;
  }

  // One update, seen from one key: it depends on nothing but that key's live flow, the packet, and whether it evicts
  // the flow.
  lemma {:induction false} UpdateAt(cfg: Config, s: State, p: Observation, protocol: Protocol, key: Key)
    requires cfg.Valid() && Consistent(s) && SortedState(s) && s.Size() <= cfg.maxFlows && !Late(s.now, p)
    ensures var r, live := Update(cfg, s, p), LiveAt(s, protocol, key);
            var own, cut := protocol == p.protocol && key == KeyOf(p), Evicts(r.exported, protocol, key);
            var left := StillLive(cfg, live, protocol, p.timestamp);
            && LiveAt(r.state, protocol, key) == Holds(cfg, live, p, protocol, own, cut)
            && OutAt(r.exported, protocol, key) == Leaves(cfg, live, p, protocol, own, cut)
            && (own ==> r.id == LiveNext(left, p).id && r.direction == DirectionOf(LiveNext(left, p).a, p))
  {
    var expired := AfterExpiry(cfg, s, p.timestamp);
    var idle, placed := Exported(ExpiredEntries(cfg, s, p.timestamp), IdleTimeout), Place(cfg, expired, p, false);
    assert Clock(s.now, p.timestamp) == p.timestamp;
    UpdateParts(cfg, s, p, protocol, key);
    ExpiryAt(cfg, s, p.timestamp, protocol, key);
    var live, left := LiveAt(s, protocol, key), LiveAt(expired, protocol, key);
    assert left == StillLive(cfg, live, protocol, p.timestamp);
    assert OutAt(idle, protocol, key) == if left == [] then live else [];
    PlaceAt(cfg, expired, p, false, protocol, key);
    OutAtConcat(idle, placed.exported, protocol, key);
  }

  // ---------- Whole runs ----------

  lemma {:induction false} ProjectIsChronological(ps: seq<Observation>, protocol: Protocol, key: Key, last: real)
    requires InOrder(ps) && forall i :: 0 <= i < |ps| ==> ps[i].timestamp <= last
    ensures Chronological(Project(ps, protocol, key), protocol)
    ensures forall p :: p in Project(ps, protocol, key) ==> p.timestamp <= last
    decreases |ps|
  {
    if ps != [] {
      ProjectIsChronological(ps[..|ps| - 1], protocol, key, ps[|ps| - 1].timestamp);
    }
  }

  // Which packets cut, given the packets before them.
  type Cut = (seq<Observation>, Observation) -> bool

  // The packets of one key, in order, with a cut at each of the given ones.
  function CutAt(ps: seq<Observation>, protocol: Protocol, key: Key, cut: Cut): (ss: seq<seq<Observation>>)
    ensures ss != []
    decreases |ps|
  {
    if ps == [] then [[]]
    else
      var before, p := ps[..|ps| - 1], ps[|ps| - 1];
      NextStretches(CutAt(before, protocol, key, cut), p, protocol == p.protocol && key == KeyOf(p), cut(before, p))
  }

  function NextStretches(ss: seq<seq<Observation>>, p: Observation, own: bool, cut: bool): (next: seq<seq<Observation>>)
    requires ss != []
    ensures next != []
  {
    if own then ss[..|ss| - 1] + [ss[|ss| - 1] + [p]] else if cut then ss + [[]] else ss
  }

  // A packet that evicts the flow of the key.
  function Evicting(cfg: Config, protocol: Protocol, key: Key): Cut
    requires cfg.Valid()
  {
    (ps: seq<Observation>, p: Observation) => Evicts(Update(cfg, Play(cfg, ps).state, p).exported, protocol, key)
  }

  // The packets of one key, cut where an update of another key evicts its flow.
  function Stretches(cfg: Config, ps: seq<Observation>, protocol: Protocol, key: Key): (ss: seq<seq<Observation>>)
    requires cfg.Valid()
    ensures ss != []
  {
    CutAt(ps, protocol, key, Evicting(cfg, protocol, key))
  }

  function Concat(ss: seq<seq<Observation>>): seq<Observation> {
    if ss == [] then [] else Concat(ss[..|ss| - 1]) + ss[|ss| - 1]
  }

  lemma {:induction false} ConcatNext(ss: seq<seq<Observation>>, p: Observation, own: bool, cut: bool)
    requires ss != []
    ensures Concat(NextStretches(ss, p, own, cut)) == Concat(ss) + if own then [p] else []
  {
    var next := NextStretches(ss, p, own, cut);
    if own {
      assert next[..|next| - 1] == ss[..|ss| - 1];
    } else if cut {
      assert next[..|next| - 1] == ss;
    }
  }

  // The stretches are the packets of the key: none is lost, repeated or moved.
  lemma {:induction false} StretchesArePackets(ps: seq<Observation>, protocol: Protocol, key: Key, cut: Cut)
    ensures Concat(CutAt(ps, protocol, key, cut)) == Project(ps, protocol, key)
    decreases |ps|
  {
    if ps != [] {
      var before, p := ps[..|ps| - 1], ps[|ps| - 1];
      StretchesArePackets(before, protocol, key, cut);
      ConcatNext(CutAt(before, protocol, key, cut), p, protocol == p.protocol && key == KeyOf(p), cut(before, p));
    } else {
      assert Concat([[]]) == [];
    }
  }

  lemma {:induction false} LastStretchFits(ss: seq<seq<Observation>>, ps: seq<Observation>, protocol: Protocol)
    requires ss != [] && Concat(ss) == ps && Chronological(ps, protocol)
    ensures Chronological(ss[|ss| - 1], protocol)
  {
    var front, last := Concat(ss[..|ss| - 1]), ss[|ss| - 1];
    assert ps == front + last;
    assert forall i :: 0 <= i < |last| ==> last[i] == ps[|front| + i];
  }

  // The flows of the stretches, each split offline on its own.
  function OfflineOf(cfg: Config, ss: seq<seq<Observation>>): seq<Flow> {
    if ss == [] then [] else OfflineOf(cfg, ss[..|ss| - 1]) + Offline(cfg, ss[|ss| - 1])
  }

  // The exported flows and then the live one are the offline flows. An expired one may still be open offline.
  ghost predicate Agrees(
    cfg: Config, exported: seq<Flow>, live: seq<Flow>, earlier: seq<Flow>, flows: seq<Flow>, protocol: Protocol,
    now: Option<real>)
  {
    && exported + live == earlier + flows
    && |live| <= 1 && |live| <= |flows|
    && (live == [] && flows != [] ==> now.Some? && Idle(flows[|flows| - 1], now.value, cfg.Timeout(protocol)))
  }

  // The flows of one key so far, in the tracker and offline.
  ghost predicate TraceAgrees(cfg: Config, t: Trace, ss: seq<seq<Observation>>, protocol: Protocol, key: Key)
    requires ss != []
  {
    Agrees(cfg, OutAt(t.exported, protocol, key), LiveAt(t.state, protocol, key),
           OfflineOf(cfg, ss[..|ss| - 1]), Offline(cfg, ss[|ss| - 1]), protocol, t.state.now)
  }

  ghost predicate RefinesAt(cfg: Config, ps: seq<Observation>, protocol: Protocol, key: Key)
    requires cfg.Valid()
  {
    TraceAgrees(cfg, Play(cfg, ps), Stretches(cfg, ps, protocol, key), protocol, key)
  }

  // The next packet of a key takes the tracker and the offline split to the same flows.
  lemma {:induction false} OwnStepAgrees(
    cfg: Config, exported: seq<Flow>, live: seq<Flow>, earlier: seq<Flow>, flows: seq<Flow>, p: Observation,
    now: Option<real>, cut: bool)
    requires Agrees(cfg, exported, live, earlier, flows, p.protocol, now) && (now.Some? ==> now.value <= p.timestamp)
    ensures Agrees(cfg, exported + Leaves(cfg, live, p, p.protocol, true, cut),
                   Holds(cfg, live, p, p.protocol, true, cut), earlier, OfflineNext(cfg, flows, p), p.protocol,
                   Some(p.timestamp))
  {
    if live != [] {
      assert live == [live[0]];
      assert (exported + live)[|exported|] == (earlier + flows)[|exported|] == flows[|flows| - 1];
      assert exported == (exported + live)[..|exported|] == (earlier + flows)[..|exported|]
             == earlier + flows[..|flows| - 1];
    }
  }

  // A packet of another key can only expire or evict the live flow, and an eviction starts a new stretch.
  lemma {:induction false} OtherStepAgrees(
    cfg: Config, exported: seq<Flow>, live: seq<Flow>, earlier: seq<Flow>, flows: seq<Flow>,
    p: Observation, protocol: Protocol, now: Option<real>, cut: bool)
    requires Agrees(cfg, exported, live, earlier, flows, protocol, now) && (now.Some? ==> now.value <= p.timestamp)
    ensures Agrees(cfg, exported + Leaves(cfg, live, p, protocol, false, cut),
                   Holds(cfg, live, p, protocol, false, cut),
                   if cut then earlier + flows else earlier, if cut then [] else flows, protocol, Some(p.timestamp))
  {
    if live != [] {
      assert live == [live[0]];
      assert (exported + live)[|exported|] == (earlier + flows)[|exported|] == flows[|flows| - 1];
    }
  }

  lemma {:induction false} PrefixOfRun(cfg: Config, ps: seq<Observation>)
    requires cfg.Valid() && ps != [] && InOrder(ps)
    ensures var before, p := ps[..|ps| - 1], ps[|ps| - 1];
            var s := Play(cfg, before).state;
            InOrder(before) && Consistent(s) && SortedState(s) && s.Size() <= cfg.maxFlows && !Late(s.now, p)
  {
    var before, p := ps[..|ps| - 1], ps[|ps| - 1];
    assert ps == before + [p];
    NextIsNotLate(cfg, before, p);
    PlayKeeps(cfg, before);
  }

  // The main refinement: per key, exported flows then the live flow are the offline flows of the key's stretches.
  lemma {:induction false} Refines(cfg: Config, ps: seq<Observation>, protocol: Protocol, key: Key)
    requires cfg.Valid() && InOrder(ps)
    ensures RefinesAt(cfg, ps, protocol, key)
    decreases |ps|
  {
    if ps != [] {
      PrefixOfRun(cfg, ps);
      Refines(cfg, ps[..|ps| - 1], protocol, key);
      RefinesNext(cfg, ps, protocol, key);
    }
  }

  // One update of a run, seen from one key.
  ghost predicate StepsAt(cfg: Config, t: Trace, after: Trace, p: Observation, protocol: Protocol, key: Key, cut: bool)
  {
    var own, live := protocol == p.protocol && key == KeyOf(p), LiveAt(t.state, protocol, key);
    && after.state.now == Some(p.timestamp)
    && (t.state.now.Some? ==> t.state.now.value <= p.timestamp)
    && LiveAt(after.state, protocol, key) == Holds(cfg, live, p, protocol, own, cut)
    && OutAt(after.exported, protocol, key)
       == OutAt(t.exported, protocol, key) + Leaves(cfg, live, p, protocol, own, cut)
    && (own ==> after.outputs != [] && LiveAt(after.state, protocol, key) != []
                && var f := LiveAt(after.state, protocol, key)[0];
                   after.outputs[|after.outputs| - 1] == Output(f.id, DirectionOf(f.a, p)))
  }

  lemma {:induction false} RunStepAt(cfg: Config, ps: seq<Observation>, protocol: Protocol, key: Key)
    requires cfg.Valid() && ps != [] && InOrder(ps)
    ensures var before, p := ps[..|ps| - 1], ps[|ps| - 1];
            StepsAt(cfg, Play(cfg, before), Play(cfg, ps), p, protocol, key, Evicting(cfg, protocol, key)(before, p))
  {
    var p, t := ps[|ps| - 1], Play(cfg, ps[..|ps| - 1]);
    PrefixOfRun(cfg, ps);
    UpdateAt(cfg, t.state, p, protocol, key);
    UpdateKeeps(cfg, t.state, p);
    OutAtConcat(t.exported, Update(cfg, t.state, p).exported, protocol, key);
  }

  lemma {:induction false} LastStretchIsChronological(ps: seq<Observation>, protocol: Protocol, key: Key, cut: Cut)
    requires InOrder(ps)
    ensures var ss := CutAt(ps, protocol, key, cut); Chronological(ss[|ss| - 1], protocol)
  {
    StretchesArePackets(ps, protocol, key, cut);
    ProjectIsChronological(ps, protocol, key, if ps == [] then 0.0 else ps[|ps| - 1].timestamp);
    LastStretchFits(CutAt(ps, protocol, key, cut), Project(ps, protocol, key), protocol);
  }

  // Offline, a packet of the key adds itself, an eviction starts a new stretch, and any other packet changes nothing.
  lemma {:induction false} StretchStep(cfg: Config, ss: seq<seq<Observation>>, p: Observation, own: bool, cut: bool)
    requires cfg.Valid() && ss != []
    requires own ==> Chronological(ss[|ss| - 1] + [p], p.protocol)
    ensures var next := NextStretches(ss, p, own, cut);
            var earlier, flows := OfflineOf(cfg, ss[..|ss| - 1]), Offline(cfg, ss[|ss| - 1]);
            && OfflineOf(cfg, next[..|next| - 1]) == (if !own && cut then earlier + flows else earlier)
            && Offline(cfg, next[|next| - 1]) == if own then OfflineNext(cfg, flows, p) else if cut then [] else flows
  {
    var next := NextStretches(ss, p, own, cut);
    if own {
      OfflineStep(cfg, ss[|ss| - 1], p);
      assert next[..|next| - 1] == ss[..|ss| - 1];
    } else if cut {
      assert next[..|next| - 1] == ss;
    }
  }

  // One more packet takes agreeing flows to agreeing flows.
  lemma {:induction false} AgreesNext(
    cfg: Config, t: Trace, after: Trace, ss: seq<seq<Observation>>, p: Observation, protocol: Protocol, key: Key,
    cut: bool)
    requires cfg.Valid() && ss != [] && TraceAgrees(cfg, t, ss, protocol, key)
    requires StepsAt(cfg, t, after, p, protocol, key, cut)
    requires protocol == p.protocol && key == KeyOf(p) ==> Chronological(ss[|ss| - 1] + [p], protocol)
    ensures TraceAgrees(cfg, after, NextStretches(ss, p, protocol == p.protocol && key == KeyOf(p), cut), protocol, key)
  {
    var own := protocol == p.protocol && key == KeyOf(p);
    var exported, live := OutAt(t.exported, protocol, key), LiveAt(t.state, protocol, key);
    var earlier, flows := OfflineOf(cfg, ss[..|ss| - 1]), Offline(cfg, ss[|ss| - 1]);
    StretchStep(cfg, ss, p, own, cut);
    if own {
      OwnStepAgrees(cfg, exported, live, earlier, flows, p, t.state.now, cut);
    } else {
      OtherStepAgrees(cfg, exported, live, earlier, flows, p, protocol, t.state.now, cut);
    }
  }

  lemma {:induction false} AgreesByStep(
    cfg: Config, ps: seq<Observation>, t: Trace, after: Trace, protocol: Protocol, key: Key, cut: Cut)
    requires cfg.Valid() && ps != [] && InOrder(ps)
    requires TraceAgrees(cfg, t, CutAt(ps[..|ps| - 1], protocol, key, cut), protocol, key)
    requires StepsAt(cfg, t, after, ps[|ps| - 1], protocol, key, cut(ps[..|ps| - 1], ps[|ps| - 1]))
    ensures TraceAgrees(cfg, after, CutAt(ps, protocol, key, cut), protocol, key)
  {
    var before, p := ps[..|ps| - 1], ps[|ps| - 1];
    if protocol == p.protocol && key == KeyOf(p) {
      LastOwnIsChronological(ps, protocol, key, cut);
    }
    AgreesNext(cfg, t, after, CutAt(before, protocol, key, cut), p, protocol, key, cut(before, p));
  }

  lemma {:induction false} RefinesNext(cfg: Config, ps: seq<Observation>, protocol: Protocol, key: Key)
    requires cfg.Valid() && ps != [] && InOrder(ps)
    requires RefinesAt(cfg, ps[..|ps| - 1], protocol, key)
    ensures RefinesAt(cfg, ps, protocol, key)
  {
    RunStepAt(cfg, ps, protocol, key);
    AgreesByStep(cfg, ps, Play(cfg, ps[..|ps| - 1]), Play(cfg, ps), protocol, key, Evicting(cfg, protocol, key));
  }

  lemma {:induction false} LastOwnIsChronological(ps: seq<Observation>, protocol: Protocol, key: Key, cut: Cut)
    requires ps != [] && InOrder(ps) && protocol == ps[|ps| - 1].protocol && key == KeyOf(ps[|ps| - 1])
    ensures var ss := CutAt(ps[..|ps| - 1], protocol, key, cut); Chronological(ss[|ss| - 1] + [ps[|ps| - 1]], protocol)
  {
    var ss := CutAt(ps[..|ps| - 1], protocol, key, cut);
    LastStretchIsChronological(ps, protocol, key, cut);
    assert CutAt(ps, protocol, key, cut) == ss[..|ss| - 1] + [ss[|ss| - 1] + [ps[|ps| - 1]]];
  }

  // The flow id and the direction of the last packet, from the packets of its own key alone.
  function OfflineOutput(cfg: Config, ps: seq<Observation>): Output
    requires ps != []
  {
    var flows := Offline(cfg, ps);
    var last := flows[|flows| - 1];
    Output(last.id, DirectionOf(last.a, ps[|ps| - 1]))
  }

  // ---------- The main results ----------

  // Everything a key has exported or holds.
  lemma {:induction false} AllAt(t: Trace, protocol: Protocol, key: Key)
    requires Consistent(t.state)
    ensures OutAt(t.exported + Flush(t.state), protocol, key)
            == OutAt(t.exported, protocol, key) + LiveAt(t.state, protocol, key)
  {
    AtLive(t.state, protocol, key);
    var all := t.state.tcp + t.state.udp;
    SelectSort(StartLeq, all, About(protocol, key));
    assert OutFlows(Flush(t.state)) == FlowsOf(SortBy(StartLeq, all));
    OutAtConcat(t.exported, Flush(t.state), protocol, key);
  }

  lemma {:induction false} AgreeingFlows(
    cfg: Config, exported: seq<Flow>, live: seq<Flow>, ss: seq<seq<Observation>>, protocol: Protocol, now: Option<real>)
    requires ss != []
             && Agrees(cfg, exported, live, OfflineOf(cfg, ss[..|ss| - 1]), Offline(cfg, ss[|ss| - 1]), protocol, now)
    ensures exported + live == OfflineOf(cfg, ss)
  {
  }

  // Of all flows written, those of one key are the offline flows of its stretches, in order, with the same final
  // values.
  lemma {:induction false} RunIsOfflineSplit(cfg: Config, ps: seq<Observation>, protocol: Protocol, key: Key)
    requires cfg.Valid() && InOrder(ps)
    ensures OutAt(FlowTotals.AllExports(cfg, ps), protocol, key) == OfflineOf(cfg, Stretches(cfg, ps, protocol, key))
  {
    var t := Play(cfg, ps);
    Refines(cfg, ps, protocol, key);
    PlayKeeps(cfg, ps);
    AllAt(t, protocol, key);
    AgreeingFlows(cfg, OutAt(t.exported, protocol, key), LiveAt(t.state, protocol, key),
                  Stretches(cfg, ps, protocol, key), protocol, t.state.now);
  }

  ghost predicate Uncut(ps: seq<Observation>, cut: Cut) { forall k :: 0 <= k < |ps| ==> !cut(ps[..k], ps[k]) }

  lemma {:induction false} UncutIsProject(ps: seq<Observation>, protocol: Protocol, key: Key, cut: Cut)
    requires Uncut(ps, cut)
    ensures CutAt(ps, protocol, key, cut) == [Project(ps, protocol, key)]
    decreases |ps|
  {
    if ps != [] {
      var before := ps[..|ps| - 1];
      assert forall k :: 0 <= k < |before| ==> before[..k] == ps[..k] && before[k] == ps[k];
      UncutIsProject(before, protocol, key, cut);
      assert before == ps[..|before|] && !cut(ps[..|before|], ps[|before|]);
      assert [Project(before, protocol, key)][..0] == [];
      assert Project(before, protocol, key) + [] == Project(before, protocol, key);
    }
  }

  lemma {:induction false} CalmEvictsNothing(xs: seq<Export>, protocol: Protocol, key: Key)
    requires NoEviction(xs)
    ensures !Evicts(xs, protocol, key)
  {
  }

  lemma {:induction false} CalmUpdate(cfg: Config, ps: seq<Observation>, p: Observation, protocol: Protocol, key: Key)
    requires cfg.Valid() && !Overflows(cfg, Play(cfg, ps).state, p)
    ensures !Evicting(cfg, protocol, key)(ps, p)
  {
    PlayKeeps(cfg, ps);
    EvictsExactlyWhenFull(cfg, Play(cfg, ps).state, p);
    CalmEvictsNothing(Update(cfg, Play(cfg, ps).state, p).exported, protocol, key);
  }

  lemma {:induction false} CalmRunIsUncut(cfg: Config, ps: seq<Observation>, protocol: Protocol, key: Key)
    requires cfg.Valid() && NoEviction(Play(cfg, ps).exported)
    ensures Uncut(ps, Evicting(cfg, protocol, key))
  {
    RunEvictsNothingExactly(cfg, ps);
    forall k | 0 <= k < |ps| ensures !Evicting(cfg, protocol, key)(ps[..k], ps[k]) {
      CalmUpdate(cfg, ps[..k], ps[k], protocol, key);
    }
  }

  // Without an eviction a key has one stretch.
  lemma {:induction false} OneStretch(cfg: Config, ps: seq<Observation>, protocol: Protocol, key: Key)
    requires cfg.Valid() && NoEviction(Play(cfg, ps).exported)
    ensures Stretches(cfg, ps, protocol, key) == [Project(ps, protocol, key)]
  {
    CalmRunIsUncut(cfg, ps, protocol, key);
    UncutIsProject(ps, protocol, key, Evicting(cfg, protocol, key));
  }

  lemma {:induction false} OfflineOfOne(cfg: Config, ps: seq<Observation>)
    ensures OfflineOf(cfg, [ps]) == Offline(cfg, ps)
  {
    assert [ps][..0] == [];
  }

  // In order and without an eviction, the flows of a key are the offline split of its packets.
  lemma {:induction false} CalmRunSplitsOffline(cfg: Config, ps: seq<Observation>, protocol: Protocol, key: Key)
    requires cfg.Valid() && InOrder(ps) && NoEviction(Play(cfg, ps).exported)
    ensures OutAt(FlowTotals.AllExports(cfg, ps), protocol, key) == Offline(cfg, Project(ps, protocol, key))
  {
    RunIsOfflineSplit(cfg, ps, protocol, key);
    OneStretch(cfg, ps, protocol, key);
    OfflineOfOne(cfg, Project(ps, protocol, key));
  }

  // In particular with no more endpoint pairs than the tables may hold.
  lemma {:induction false} FewPairsSplitOffline(cfg: Config, ps: seq<Observation>, protocol: Protocol, key: Key)
    requires cfg.Valid() && InOrder(ps) && |Pairs(ps)| <= cfg.maxFlows
    ensures OutAt(FlowTotals.AllExports(cfg, ps), protocol, key) == Offline(cfg, Project(ps, protocol, key))
  {
    FewPairsEvictNothing(cfg, ps);
    CalmRunSplitsOffline(cfg, ps, protocol, key);
  }

  lemma {:induction false} OneMorePlayed(cfg: Config, ps: seq<Observation>, p: Observation)
    requires cfg.Valid()
    ensures Play(cfg, ps + [p]).outputs[..|ps|] == Play(cfg, ps).outputs
  {
    assert (ps + [p])[..|ps|] == ps;
  }

  // One more packet only adds to the outputs.
  ghost predicate Extends(outputs: seq<Observation> -> seq<Output>, ps: seq<Observation>, p: Observation) {
    && |outputs(ps)| == |ps| && |outputs(ps + [p])| == |ps| + 1
    && outputs(ps + [p])[..|ps|] == outputs(ps)
  }

  lemma {:induction false} PrefixesExtend(outputs: seq<Observation> -> seq<Output>, ps: seq<Observation>,
                                          more: seq<Observation>)
    requires forall qs, q :: Extends(outputs, qs, q)
    ensures |outputs(ps)| == |ps| && |outputs(ps + more)| == |ps + more|
    ensures outputs(ps + more)[..|ps|] == outputs(ps)
    decreases |more|
  {
    if more == [] {
      assert ps + more == ps;
      assert Extends(outputs, ps, NOBODY);
    } else {
      var front, last := more[..|more| - 1], more[|more| - 1];
      PrefixesExtend(outputs, ps, front);
      assert Extends(outputs, ps + front, last);
      assert ps + more == (ps + front) + [last];
      PrefixOfPrefix(outputs(ps + more), outputs(ps + front), |ps|);
    }
  }

  const NOBODY := Observation(UDP, NOWHERE, NOWHERE, 0.0, 0, {}, "UNKNOWN", 0)

  lemma {:induction false} PrefixExtends(outputs: seq<Observation> -> seq<Output>, ps: seq<Observation>, k: nat)
    requires (forall qs, q :: Extends(outputs, qs, q)) && k < |ps|
    ensures |outputs(ps)| == |ps| && |outputs(ps[..k + 1])| == k + 1
    ensures outputs(ps)[k] == outputs(ps[..k + 1])[k]
  {
    PrefixesExtend(outputs, ps[..k + 1], ps[k + 1..]);
    assert ps[..k + 1] + ps[k + 1..] == ps;
  }

  lemma {:induction false} PrefixOfPrefix<T>(all: seq<T>, middle: seq<T>, n: nat)
    requires n <= |middle| <= |all| && all[..|middle|] == middle
    ensures all[..n] == middle[..n]
  {
    assert all[..|middle|][..n] == all[..n];
  }

  // The packets of a packet's own key since its flow was last evicted.
  function OwnStretch(cfg: Config, ps: seq<Observation>): (own: seq<Observation>)
    requires cfg.Valid() && ps != []
    ensures own != [] && own[|own| - 1] == ps[|ps| - 1]
  {
    var p := ps[|ps| - 1];
    var ss := Stretches(cfg, ps, p.protocol, KeyOf(p));
    ss[|ss| - 1]
  }

  // The offline flow of the last packet is the live one.
  lemma {:induction false} AgreeingOutput(
    cfg: Config, exported: seq<Flow>, live: seq<Flow>, earlier: seq<Flow>, own: seq<Observation>, protocol: Protocol,
    now: Option<real>)
    requires own != [] && live != [] && Agrees(cfg, exported, live, earlier, Offline(cfg, own), protocol, now)
    ensures OfflineOutput(cfg, own) == Output(live[0].id, DirectionOf(live[0].a, own[|own| - 1]))
  {
    var flows := Offline(cfg, own);
    assert (exported + live)[|exported|] == (earlier + flows)[|exported|] == flows[|flows| - 1];
  }

  lemma {:induction false} LastOutputIsOffline(cfg: Config, ps: seq<Observation>)
    requires cfg.Valid() && ps != [] && InOrder(ps)
    ensures Play(cfg, ps).outputs[|ps| - 1] == OfflineOutput(cfg, OwnStretch(cfg, ps))
  {
    var protocol, key := ps[|ps| - 1].protocol, KeyOf(ps[|ps| - 1]);
    var ss := Stretches(cfg, ps, protocol, key);
    RunStepAt(cfg, ps, protocol, key);
    Refines(cfg, ps, protocol, key);
    AgreeingOutput(cfg, OutAt(Play(cfg, ps).exported, protocol, key), LiveAt(Play(cfg, ps).state, protocol, key),
                   OfflineOf(cfg, ss[..|ss| - 1]), OwnStretch(cfg, ps), protocol, Play(cfg, ps).state.now);
  }

  // A run gives its packets what the run of its first packets gives them.
  lemma {:induction false} OutputOfPrefix(cfg: Config, ps: seq<Observation>, k: nat)
    requires cfg.Valid() && k < |ps|
    ensures Play(cfg, ps).outputs[k] == Play(cfg, ps[..k + 1]).outputs[k]
  {
    var outputs := (qs: seq<Observation>) => Play(cfg, qs).outputs;
    forall qs, q ensures Extends(outputs, qs, q) {
      OneMorePlayed(cfg, qs, q);
    }
    PrefixExtends(outputs, ps, k);
  }

  // The id and the direction that a packet gets depend only on the packets of its own key since an eviction last took
  // its flow.
  lemma {:induction false} OutputIsOffline(cfg: Config, ps: seq<Observation>, k: nat)
    requires cfg.Valid() && InOrder(ps) && k < |ps|
    ensures Play(cfg, ps).outputs[k] == OfflineOutput(cfg, OwnStretch(cfg, ps[..k + 1]))
  {
    var qs := ps[..k + 1];
    OutputOfPrefix(cfg, ps, k);
    assert InOrder(qs);
    LastOutputIsOffline(cfg, qs);
  }

  lemma {:induction false} UncutPrefix(ps: seq<Observation>, n: nat, cut: Cut)
    requires Uncut(ps, cut) && n <= |ps|
    ensures Uncut(ps[..n], cut)
  {
    forall k | 0 <= k < n ensures !cut(ps[..n][..k], ps[..n][k]) {
      assert ps[..n][..k] == ps[..k] && !cut(ps[..k], ps[k]);
    }
  }

  // In order and without an eviction, they depend only on all packets of its own key so far.
  lemma {:induction false} CalmOutputIsOffline(cfg: Config, ps: seq<Observation>, k: nat)
    requires cfg.Valid() && InOrder(ps) && k < |ps| && NoEviction(Play(cfg, ps).exported)
    ensures Project(ps[..k + 1], ps[k].protocol, KeyOf(ps[k])) != []
    ensures Play(cfg, ps).outputs[k] == OfflineOutput(cfg, Project(ps[..k + 1], ps[k].protocol, KeyOf(ps[k])))
  {
    var protocol, key, qs := ps[k].protocol, KeyOf(ps[k]), ps[..k + 1];
    CalmRunIsUncut(cfg, ps, protocol, key);
    UncutPrefix(ps, k + 1, Evicting(cfg, protocol, key));
    UncutIsProject(qs, protocol, key, Evicting(cfg, protocol, key));
    assert qs[|qs| - 1] == ps[k];
    OutputIsOffline(cfg, ps, k);
  }

  // Two runs that show a key the same packets, and evict its flow between the same ones, write the same flows for it,
  // whatever else they carry.
  lemma {:induction false} NonInterference(cfg: Config, ps: seq<Observation>, qs: seq<Observation>, protocol: Protocol,
                                           key: Key)
    requires cfg.Valid() && InOrder(ps) && InOrder(qs)
    requires Stretches(cfg, ps, protocol, key) == Stretches(cfg, qs, protocol, key)
    ensures OutAt(FlowTotals.AllExports(cfg, ps), protocol, key)
            == OutAt(FlowTotals.AllExports(cfg, qs), protocol, key)
  {
    RunIsOfflineSplit(cfg, ps, protocol, key);
    RunIsOfflineSplit(cfg, qs, protocol, key);
  }

  // Without evictions, the same packets are enough.
  lemma {:induction false} CalmRunsDoNotInterfere(cfg: Config, ps: seq<Observation>, qs: seq<Observation>,
                                                  protocol: Protocol, key: Key)
    requires cfg.Valid() && InOrder(ps) && InOrder(qs)
    requires NoEviction(Play(cfg, ps).exported) && NoEviction(Play(cfg, qs).exported)
    requires Project(ps, protocol, key) == Project(qs, protocol, key)
    ensures OutAt(FlowTotals.AllExports(cfg, ps), protocol, key)
            == OutAt(FlowTotals.AllExports(cfg, qs), protocol, key)
  {
    CalmRunSplitsOffline(cfg, ps, protocol, key);
    CalmRunSplitsOffline(cfg, qs, protocol, key);
  }

  // In particular with no more endpoint pairs than the tables may hold.
  lemma {:induction false} FewPairsDoNotInterfere(cfg: Config, ps: seq<Observation>, qs: seq<Observation>,
                                                  protocol: Protocol, key: Key)
    requires cfg.Valid() && InOrder(ps) && InOrder(qs)
    requires |Pairs(ps)| <= cfg.maxFlows && |Pairs(qs)| <= cfg.maxFlows
    requires Project(ps, protocol, key) == Project(qs, protocol, key)
    ensures OutAt(FlowTotals.AllExports(cfg, ps), protocol, key)
            == OutAt(FlowTotals.AllExports(cfg, qs), protocol, key)
  {
    FewPairsEvictNothing(cfg, ps);
    FewPairsEvictNothing(cfg, qs);
    CalmRunsDoNotInterfere(cfg, ps, qs, protocol, key);
  }

  // ---------- The segment behind each written flow ----------

  function SegmentsOf(cfg: Config, ss: seq<seq<Observation>>): seq<Segment> {
    if ss == [] then [] else SegmentsOf(cfg, ss[..|ss| - 1]) + Segments(cfg, ss[|ss| - 1])
  }

  // Every offline flow of the stretches is the summary of its own segment.
  lemma {:induction false} FlowsAreSummaries(cfg: Config, ss: seq<seq<Observation>>)
    ensures |OfflineOf(cfg, ss)| == |SegmentsOf(cfg, ss)|
    ensures forall k :: 0 <= k < |OfflineOf(cfg, ss)| ==>
              OfflineOf(cfg, ss)[k] == SummaryOf(SegmentsOf(cfg, ss)[k], OfflineOf(cfg, ss)[k].occurrence)
  {
    if ss != [] {
      FlowsAreSummaries(cfg, ss[..|ss| - 1]);
      var segs, flows := Segments(cfg, ss[|ss| - 1]), Offline(cfg, ss[|ss| - 1]);
      assert forall k :: 0 <= k < |flows| ==> flows[k] == SummaryOf(segs[k], flows[k].occurrence);
    }
  }

  ghost predicate AllOf(ps: seq<Observation>, protocol: Protocol) {
    forall i :: 0 <= i < |ps| ==> ps[i].protocol == protocol
  }

  lemma {:induction false} SegmentsOfKeepProtocol(cfg: Config, ss: seq<seq<Observation>>, protocol: Protocol)
    requires forall s :: s in ss ==> AllOf(s, protocol)
    ensures forall k :: 0 <= k < |SegmentsOf(cfg, ss)| ==> SegmentsOf(cfg, ss)[k][0].protocol == protocol
  {
    if ss != [] {
      SegmentsOfKeepProtocol(cfg, ss[..|ss| - 1], protocol);
      assert AllOf(ss[|ss| - 1], protocol);
      SegmentsKeepProtocol(cfg, ss[|ss| - 1], protocol);
    }
  }

  lemma {:induction false} StretchesKeepProtocol(ps: seq<Observation>, protocol: Protocol, key: Key, cut: Cut)
    ensures forall s :: s in CutAt(ps, protocol, key, cut) ==> AllOf(s, protocol)
    decreases |ps|
  {
    if ps != [] {
      StretchesKeepProtocol(ps[..|ps| - 1], protocol, key, cut);
      var ss := CutAt(ps[..|ps| - 1], protocol, key, cut);
      assert AllOf(ss[|ss| - 1], protocol);
    }
  }

  // A written TCP flow is CLOSED exactly when its own packets show FIN, FIN of the other side, ACK, and no earlier RST.
  lemma {:induction false} WrittenCloseIsReal(cfg: Config, ps: seq<Observation>, key: Key, k: nat)
    requires cfg.Valid() && InOrder(ps)
    requires k < |OutAt(FlowTotals.AllExports(cfg, ps), TCP, key)|
    ensures k < |SegmentsOf(cfg, Stretches(cfg, ps, TCP, key))|
    ensures var seg := SegmentsOf(cfg, Stretches(cfg, ps, TCP, key))[k];
            OutAt(FlowTotals.AllExports(cfg, ps), TCP, key)[k].state == Some(CLOSED)
            <==> TcpRuns.Closes(TcpPackets(seg))
  {
    var ss := Stretches(cfg, ps, TCP, key);
    RunIsOfflineSplit(cfg, ps, TCP, key);
    FlowsAreSummaries(cfg, ss);
    StretchesKeepProtocol(ps, TCP, key, Evicting(cfg, TCP, key));
    SegmentsOfKeepProtocol(cfg, ss, TCP);
    TcpRuns.ClosedExactlyWhen(TcpPackets(SegmentsOf(cfg, ss)[k]));
  }

  // ---------- Identities of one key ----------

  ghost predicate IdLess(f: Flow, g: Flow) {
    f.startTime < g.startTime || (f.startTime == g.startTime && f.occurrence < g.occurrence)
  }

  ghost predicate Increasing(flows: seq<Flow>) { forall i, j :: 0 <= i < j < |flows| ==> IdLess(flows[i], flows[j]) }

  // The flows of some packets have increasing identities, and the last of them was last seen with the last packet.
  ghost predicate Rises(flows: seq<Flow>, ps: seq<Observation>) {
    && Increasing(flows)
    && (ps != [] ==>
          flows != [] && var last := flows[|flows| - 1]; last.startTime <= last.lastSeen == ps[|ps| - 1].timestamp)
  }

  // Successive offline flows of one key have strictly increasing (start time, occurrence) pairs.
  lemma {:induction false} IdentitiesIncrease(cfg: Config, ps: seq<Observation>, protocol: Protocol)
    requires cfg.Valid() && Chronological(ps, protocol)
    ensures Rises(Offline(cfg, ps), ps)
    decreases |ps|
  {
    if ps != [] {
      var before, p := ps[..|ps| - 1], ps[|ps| - 1];
      assert ps == before + [p];
      IdentitiesIncrease(cfg, before, protocol);
      OfflineStep(cfg, before, p);
      RisesNext(cfg, Offline(cfg, before), before, p);
    }
  }

  lemma {:induction false} RisesWithOneMore(flows: seq<Flow>, f: Flow, ps: seq<Observation>, p: Observation)
    requires Rises(flows, ps) && (flows != [] ==> IdLess(flows[|flows| - 1], f))
    requires f.startTime <= f.lastSeen == p.timestamp
    ensures Rises(flows + [f], ps + [p])
  {
  }

  lemma {:induction false} RisesWithLast(flows: seq<Flow>, f: Flow, ps: seq<Observation>, p: Observation)
    requires Rises(flows, ps) && flows != []
    requires var last := flows[|flows| - 1]; f.startTime == last.startTime && f.occurrence == last.occurrence
    requires f.startTime <= f.lastSeen == p.timestamp
    ensures Rises(flows[..|flows| - 1] + [f], ps + [p])
  {
  }

  lemma {:induction false} RisesNext(cfg: Config, flows: seq<Flow>, ps: seq<Observation>, p: Observation)
    requires cfg.Valid() && Rises(flows, ps) && (flows == [] <==> ps == [])
    requires ps != [] ==> ps[|ps| - 1].timestamp <= p.timestamp
    ensures Rises(OfflineNext(cfg, flows, p), ps + [p])
  {
    if flows == [] {
      RisesWithOneMore(flows, Strip(Started(p, None, 0)), ps, p);
    } else {
      var last := flows[|flows| - 1];
      if Idle(last, p.timestamp, cfg.Timeout(p.protocol)) {
        RisesWithOneMore(flows, Strip(Started(p, None, 0)), ps, p);
      } else if Restarts(last, p) {
        RisesWithOneMore(flows, Strip(Started(p, Some(last), 0)), ps, p);
      } else {
        RisesWithLast(flows, Joined(last, p), ps, p);
      }
    }
  }

  // Every written flow carries the id that its own fields spell, and ended no earlier than it started.
  lemma {:induction false} AllExportsOk(cfg: Config, ps: seq<Observation>, i: nat)
    requires cfg.Valid() && i < |FlowTotals.AllExports(cfg, ps)|
    ensures var f := FlowTotals.AllExports(cfg, ps)[i].flow;
            f.id == FlowId(f.protocol, f.a, f.b, f.startTime, f.occurrence) && f.startTime <= f.lastSeen
  {
    var t := Play(cfg, ps);
    PlayKeeps(cfg, ps);
    var x := FlowTotals.AllExports(cfg, ps)[i];
    if i < |t.exported| {
      assert x in t.exported;
    } else {
      FlowTotals.FlushIsOrderedAndComplete(t.state);
      assert x in Flush(t.state);
      var e :| e in t.state.tcp + t.state.udp && e.flow == x.flow;
      assert e in t.state.tcp || e in t.state.udp;
    }
  }
}
