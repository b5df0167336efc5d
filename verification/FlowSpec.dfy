// The flow tracker as a function of its state: the specification that the class in FlowTracker.dfy meets.
module FlowSpec {
  import opened Base
  import opened FlowModel

  datatype Entry = Entry(key: Key, flow: Flow)

  // A table in the order of its ordered dictionary: the front entry is the first that expiry reads.
  type Table = seq<Entry>

  datatype Config = Config(tcpTimeout: real, udpTimeout: real, maxFlows: int) {
    // What the command line accepts.
    predicate Valid() { tcpTimeout > 0.0 && udpTimeout > 0.0 && maxFlows >= 1 }

    function Timeout(protocol: Protocol): real {
      if protocol == TCP then tcpTimeout else udpTimeout
    }
  }

  // The clock is None before the first packet.
  datatype State = State(tcp: Table, udp: Table, now: Option<real>, created: nat) {
    function Of(protocol: Protocol): Table { if protocol == TCP then tcp else udp }

    function With(protocol: Protocol, table: Table): State {
      if protocol == TCP then this.(tcp := table) else this.(udp := table)
    }

    function Size(): nat { |tcp| + |udp| }
  }

  const EMPTY := State([], [], None, 0)

  // ---------- Sorting: what list.sort computes ----------

  type Order = (Flow, Flow) -> bool

  function Insert(leq: Order, f: Entry, s: seq<Entry>): seq<Entry> {
    if s == [] || leq(f.flow, s[0].flow) then [f] + s else [s[0]] + Insert(leq, f, s[1..])
  }

  function SortBy(leq: Order, s: seq<Entry>): seq<Entry> {
    if s == [] then [] else Insert(leq, s[0], SortBy(leq, s[1..]))
  }

  predicate SeenLeq(f: Flow, g: Flow) {
    f.lastSeen < g.lastSeen || (f.lastSeen == g.lastSeen && f.number <= g.number)
  }

  predicate StartLeq(f: Flow, g: Flow) {
    f.startTime < g.startTime || (f.startTime == g.startTime && f.number <= g.number)
  }

  function Exported(s: seq<Entry>, reason: EndReason): seq<Export> {
    seq(|s|, i requires 0 <= i < |s| => Export(s[i].flow, reason))
  }

  // ---------- Tables ----------

  // The position of a key, or the length of the table.
  function Find(t: Table, key: Key): (i: nat)
    ensures i <= |t|
    ensures i < |t| ==> t[i].key == key
    ensures forall j :: 0 <= j < i ==> t[j].key != key
  {
    if t == [] || t[0].key == key then 0 else 1 + Find(t[1..], key)
  }

  function RemoveAt(t: Table, i: nat): Table
    requires i < |t|
  {
    t[..i] + t[i + 1..]
  }

  // ---------- Expiry ----------

  predicate Idle(f: Flow, now: real, timeout: real) { now - f.lastSeen > timeout }

  // How many entries the front-only scan reads as idle before it stops.
  function IdlePrefix(t: Table, now: real, timeout: real): (n: nat)
    ensures n <= |t|
    ensures forall i :: 0 <= i < n ==> Idle(t[i].flow, now, timeout)
    ensures n < |t| ==> !Idle(t[n].flow, now, timeout)
  {
    if t == [] || !Idle(t[0].flow, now, timeout) then 0 else 1 + IdlePrefix(t[1..], now, timeout)
  }

  function ExpiredEntries(cfg: Config, s: State, now: real): seq<Entry> {
    SortBy(SeenLeq, s.tcp[..IdlePrefix(s.tcp, now, cfg.tcpTimeout)] + s.udp[..IdlePrefix(s.udp, now, cfg.udpTimeout)])
  }

  function AfterExpiry(cfg: Config, s: State, now: real): State {
    State(s.tcp[IdlePrefix(s.tcp, now, cfg.tcpTimeout)..], s.udp[IdlePrefix(s.udp, now, cfg.udpTimeout)..], Some(now),
          s.created)
  }

  // ---------- Eviction ----------

  // The table whose front leaves when the tables are full.
  function Victim(s: State): Protocol
    requires s.Size() > 0
  {
    if s.tcp == [] then UDP
    else if s.udp == [] then TCP
    else if SeenLeq(s.tcp[0].flow, s.udp[0].flow) then TCP else UDP
  }

  datatype Room = Room(state: State, exported: seq<Export>)

  function MakeRoom(cfg: Config, s: State): Room
    requires cfg.Valid()
  {
    if s.Size() < cfg.maxFlows then Room(s, [])
    else
      var table := s.Of(Victim(s));
      Room(s.With(Victim(s), table[1..]), [Export(table[0].flow, Evicted)])
  }

  // ---------- One packet ----------

  datatype Result = Result(state: State, id: FlowId, direction: Direction, exported: seq<Export>)

  function Clock(now: Option<real>, timestamp: real): real {
    if now.None? then timestamp else Max(now.value, timestamp)
  }

  predicate Late(now: Option<real>, p: Observation) { now.Some? && p.timestamp < now.value }

  // A packet of a live flow: the flow counts it and, unless the packet is late, moves to the end of its table.
  function Join(s: State, p: Observation, i: nat, late: bool): State
    requires i < |s.Of(p.protocol)|
  {
    var table := s.Of(p.protocol);
    var entry := table[i].(flow := Joined(table[i].flow, p));
    s.With(p.protocol, if late then table[i := entry] else RemoveAt(table, i) + [entry])
  }

  // A flow that starts stands behind every other flow.
  function Append(s: State, p: Observation, flow: Flow): State {
    s.With(p.protocol, s.Of(p.protocol) + [Entry(KeyOf(p), flow)]).(created := s.created + 1)
  }

  datatype Placed = Placed(state: State, flow: Flow, exported: seq<Export>)

  // A packet that starts a flow, after it made room for it.
  function Open(cfg: Config, s: State, p: Observation, replaced: Option<Flow>): Placed
    requires cfg.Valid()
  {
    var room := MakeRoom(cfg, s);
    var flow := Started(p, replaced, s.created + 1);
    Placed(Append(room.state, p, flow), flow, room.exported)
  }

  // What the packet does to tables that have already expired their idle flows.
  function Place(cfg: Config, s: State, p: Observation, late: bool): Placed
    requires cfg.Valid()
  {
    var table := s.Of(p.protocol);
    var i := Find(table, KeyOf(p));
    if i == |table| then Open(cfg, s, p, None)
    else
      var flow := table[i].flow;
      if Restarts(flow, p) then
        // Open counts the tables without the replaced flow, so it finds room.
        var placed := Open(cfg, s.With(p.protocol, RemoveAt(table, i)), p, Some(flow));
        placed.(exported := [Export(flow, NewConnection)] + placed.exported)
      else Placed(Join(s, p, i, late), Joined(flow, p), [])
  }

  // The whole of one update.
  function Update(cfg: Config, s: State, p: Observation): Result
    requires cfg.Valid()
  {
    var now := Clock(s.now, p.timestamp);
    var placed := Place(cfg, AfterExpiry(cfg, s, now), p, Late(s.now, p));
    Result(placed.state, placed.flow.id, DirectionOf(placed.flow.a, p),
           Exported(ExpiredEntries(cfg, s, now), IdleTimeout) + placed.exported)
  }

  // The flow of a packet as the tables hold it.
  function ContextOf(s: State, p: Observation): Option<FlowContext> {
    var table := s.Of(p.protocol);
    var i := Find(table, KeyOf(p));
    if i == |table| then None
    else
      var f := table[i].flow;
      Some(FlowContext(f.id, DirectionOf(f.a, p), f.state, f.forwardPackets, f.backwardPackets))
  }

  // The flows that leave at the end of the input, ordered by start and creation.
  function Flush(s: State): seq<Export> {
    Exported(SortBy(StartLeq, s.tcp + s.udp), EndOfInput)
  }

  // ---------- Whole runs ----------

  datatype Output = Output(id: FlowId, direction: Direction)

  datatype Trace = Trace(state: State, outputs: seq<Output>, exported: seq<Export>)

  // Every packet in order, from empty tables.
  function Play(cfg: Config, ps: seq<Observation>): (t: Trace)
    requires cfg.Valid()
    ensures |t.outputs| == |ps|
    decreases |ps|
  {
    if ps == [] then Trace(EMPTY, [], [])
    else
      var before := Play(cfg, ps[..|ps| - 1]);
      var r := Update(cfg, before.state, ps[|ps| - 1]);
      Trace(r.state, before.outputs + [Output(r.id, r.direction)], before.exported + r.exported)
  }
}
