// The values the flow tracker works on: endpoints, packets, flows, and the TCP transition table.
module FlowModel {
  import opened Base

  datatype Protocol = TCP | UDP

  datatype Endpoint = Endpoint(ip: string, port: int)

  datatype Direction = Forward | Backward

  datatype TcpState = HANDSHAKE | ESTABLISHED | CLOSING | CLOSED | RESET

  datatype Flag = SYN | ACK | FIN | RST | PSH | URG | ECE | CWR

  // One packet as the tracker reads it. The tracker only asks whether a flag is in the list.
  datatype Observation = Observation(
    protocol: Protocol,
    source: Endpoint,
    destination: Endpoint,
    timestamp: real,
    length: nat,
    flags: set<Flag>,
    appProtocol: string,
    rank: nat)

  // The text that the flow id hashes. The digest is taken to be injective.
  datatype FlowId = FlowId(protocol: Protocol, a: Endpoint, b: Endpoint, startTime: real, occurrence: nat)

  datatype FlowFields = Flow(
    id: FlowId,
    protocol: Protocol,
    a: Endpoint,
    b: Endpoint,
    startTime: real,
    lastSeen: real,
    appProtocol: string,
    appRank: nat,
    forwardPackets: nat,
    forwardBytes: nat,
    backwardPackets: nat,
    backwardBytes: nat,
    synCount: nat,
    ackCount: nat,
    finCount: nat,
    rstCount: nat,
    state: Option<TcpState>,
    finDirections: seq<Direction>,
    number: nat,
    occurrence: nat)
  {
    function Packets(): nat { forwardPackets + backwardPackets }

    function Bytes(): nat { forwardBytes + backwardBytes }
  }

  const NOWHERE := Endpoint("", 0)

  // A flow that the tracker holds: a TCP flow has a state and a UDP flow has none.
  type Flow = f: FlowFields | f.protocol == TCP <==> f.state.Some?
    witness Flow(FlowId(UDP, NOWHERE, NOWHERE, 0.0, 0), UDP, NOWHERE, NOWHERE, 0.0, 0.0, "UNKNOWN",
                 0, 0, 0, 0, 0, 0, 0, 0, 0, None, [], 0, 0)

  // What the rule engine is told about the flow of one packet.
  datatype FlowContext = FlowContext(
    id: FlowId, direction: Direction, state: Option<TcpState>, forwardPackets: nat, backwardPackets: nat)

  datatype EndReason = IdleTimeout | Evicted | NewConnection | EndOfInput

  // A flow that left the tables, with the final value of every field its record is made of.
  datatype Export = Export(flow: Flow, reason: EndReason)

  // ---------- The key of a flow: its two endpoints in sorted order ----------

  // Text order by code point, as Python compares strings.
  predicate TextLess(s: string, t: string) {
    if t == "" then false
    else if s == "" then true
    else s[0] < t[0] || (s[0] == t[0] && TextLess(s[1..], t[1..]))
  }

  predicate EndpointLess(x: Endpoint, y: Endpoint) {
    TextLess(x.ip, y.ip) || (x.ip == y.ip && x.port < y.port)
  }

  datatype Key = Key(low: Endpoint, high: Endpoint)

  function MakeKey(x: Endpoint, y: Endpoint): Key {
    if EndpointLess(y, x) then Key(y, x) else Key(x, y)
  }

  lemma {:induction false} TextOrderIsTotal(s: string, t: string)
    ensures TextLess(s, t) || TextLess(t, s) || s == t
    ensures !(TextLess(s, t) && TextLess(t, s))
  {
    if s != [] && t != [] {
      TextOrderIsTotal(s[1..], t[1..]);
      assert s == [s[0]] + s[1..] && t == [t[0]] + t[1..];
    }
  }

  // Two packets share a key exactly when they have the same unordered endpoint pair.
  lemma {:induction false} KeyIsUnorderedPair(a: Endpoint, b: Endpoint, c: Endpoint, d: Endpoint)
    ensures MakeKey(a, b) == MakeKey(c, d) <==> (a == c && b == d) || (a == d && b == c)
  {
    TextOrderIsTotal(a.ip, b.ip);
    TextOrderIsTotal(c.ip, d.ip);
  }

  function KeyOf(p: Observation): Key { MakeKey(p.source, p.destination) }

  // ---------- The TCP transition table ----------

  datatype Step = Step(state: TcpState, finDirections: seq<Direction>, restart: bool)

  function WithFin(direction: Direction, finDirections: seq<Direction>): seq<Direction> {
    if direction in finDirections then finDirections else finDirections + [direction]
  }

  predicate Ended(state: TcpState) { state in {CLOSING, CLOSED, RESET} }

  function FirstStep(flags: set<Flag>, direction: Direction): Step {
    if SYN in flags then Step(HANDSHAKE, [], false)
    else if RST in flags then Step(RESET, [], false)
    else if FIN in flags then Step(CLOSING, [direction], false)
    else Step(ESTABLISHED, [], false)
  }

  // Each branch is a row of the table, tried from the top.
  function NextStep(state: TcpState, flags: set<Flag>, direction: Direction, fins: seq<Direction>): Step {
    if SYN in flags && ACK !in flags && Ended(state) then Step(state, fins, true)
    else if SYN in flags then Step(state, fins, false)
    else if RST in flags && state != CLOSED then Step(RESET, fins, false)
    else if RST in flags then Step(state, fins, false)
    else if FIN in flags && state in {HANDSHAKE, ESTABLISHED} then Step(CLOSING, WithFin(direction, fins), false)
    else if FIN in flags && state == CLOSING then Step(CLOSING, WithFin(direction, fins), false)
    else if ACK in flags && state == HANDSHAKE then Step(ESTABLISHED, fins, false)
    else if ACK in flags && state == CLOSING && |fins| == 2 && direction != fins[1] then Step(CLOSED, fins, false)
    else Step(state, fins, false)
  }

  // ---------- One packet joins or starts a flow ----------

  function DirectionOf(a: Endpoint, p: Observation): Direction {
    if p.source == a then Forward else Backward
  }

  // The side that opened the connection: the sender of the first packet, but the receiver of a SYN/ACK.
  function Initiator(p: Observation): Endpoint {
    if p.protocol == TCP && SYN in p.flags && ACK in p.flags then p.destination else p.source
  }

  function Max(x: real, y: real): real { if x < y then y else x }

  function Count(f: FlowFields, p: Observation, forward: bool): FlowFields {
    var better := p.rank > f.appRank;
    f.(lastSeen := Max(f.lastSeen, p.timestamp),
       forwardPackets := f.forwardPackets + One(forward),
       forwardBytes := f.forwardBytes + if forward then p.length else 0,
       backwardPackets := f.backwardPackets + One(!forward),
       backwardBytes := f.backwardBytes + if forward then 0 else p.length,
       synCount := f.synCount + One(SYN in p.flags),
       ackCount := f.ackCount + One(ACK in p.flags),
       finCount := f.finCount + One(FIN in p.flags),
       rstCount := f.rstCount + One(RST in p.flags),
       appProtocol := if better then p.appProtocol else f.appProtocol,
       appRank := if better then p.rank else f.appRank)
  }

  function Create(p: Observation, replaced: Option<Flow>, number: nat): FlowFields {
    var a := Initiator(p);
    var b := if a == p.source then p.destination else p.source;
    var occurrence :=
      if replaced.Some? && replaced.value.startTime == p.timestamp then replaced.value.occurrence + 1 else 0;
    Flow(FlowId(p.protocol, a, b, p.timestamp, occurrence), p.protocol, a, b, p.timestamp, p.timestamp,
         "UNKNOWN", 0, 0, 0, 0, 0, 0, 0, 0, 0, None, [], number, occurrence)
  }

  // The step the TCP table takes for a packet of a live flow.
  function StepOf(f: Flow, p: Observation): Step
    requires f.protocol == TCP
  {
    NextStep(f.state.value, p.flags, DirectionOf(f.a, p), f.finDirections)
  }

  predicate Restarts(f: Flow, p: Observation) {
    f.protocol == TCP && StepOf(f, p).restart
  }

  function Joined(f: Flow, p: Observation): Flow {
    var counted := Count(f, p, DirectionOf(f.a, p) == Forward);
    if f.protocol == TCP then
      var step := StepOf(f, p);
      counted.(state := Some(step.state), finDirections := step.finDirections)
    else counted
  }

  function Started(p: Observation, replaced: Option<Flow>, number: nat): Flow {
    var f := Create(p, replaced, number);
    var direction := DirectionOf(f.a, p);
    var counted := Count(f, p, direction == Forward);
    if f.protocol == TCP then
      var step := FirstStep(p.flags, direction);
      counted.(state := Some(step.state), finDirections := step.finDirections)
    else counted
  }
}
