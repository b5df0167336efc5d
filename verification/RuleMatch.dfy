// Matching one rule against one packet record: header, flow, packet options, contents, in that order.
module RuleMatch {
  import opened Base
  import opened FlowModel
  import opened ContentMatch

  datatype RuleProtocol = Tcp | Udp | Ip

  datatype PortRange = PortRange(low: int, high: int)

  // An IPv4 network as the range of its addresses.
  datatype Network = Network(first: nat, last: nat)

  datatype Arrow = OneWay | BothWays

  datatype Side = ToServer | ToClient

  datatype FlowOption = FlowOption(direction: Option<Side>, established: Option<bool>)

  datatype FlagsModifier = Exactly | AllOf | AnyOf | NoneOf

  datatype FlagsOption = FlagsOption(flags: set<Flag>, modifier: FlagsModifier)

  datatype DsizeOperator = Equal | Greater | Less | Between

  datatype DsizeOption = DsizeOption(operator: DsizeOperator, value: nat, upper: Option<nat>)

  // The parts of a rule that decide a match. None leaves its part open.
  datatype Rule = Rule(
    sid: int,
    protocol: RuleProtocol,
    srcIp: Option<Network>,
    srcPort: Option<PortRange>,
    arrow: Arrow,
    dstIp: Option<Network>,
    dstPort: Option<PortRange>,
    contents: seq<Content>,
    flow: Option<FlowOption>,
    flags: Option<FlagsOption>,
    dsize: Option<DsizeOption>)

  // The normalized view of a record. An address that is not IPv4 text is None.
  datatype Normalized = Normalized(
    protocol: Option<string>,
    srcIp: Option<nat>,
    srcPort: Option<int>,
    dstIp: Option<nat>,
    dstPort: Option<int>,
    tcpFlags: set<Flag>,
    payloadLen: Option<nat>)

  datatype Stage = HeaderStage | FlowStage | PacketStage | ContentStage

  datatype MatchedItem =
    | FlowItem(flow: FlowOption)
    | FlagsItem(flags: FlagsOption)
    | DsizeItem(dsize: DsizeOption)
    | ContentItem(text: string, position: nat)

  datatype MatchResult = MatchResult(sid: int, matched: bool, failedStage: Option<Stage>, items: seq<MatchedItem>)

  // ---------- Protocol names, compared without case ----------

  function UpperChar(c: char): char { if 'a' <= c <= 'z' then c - 'a' + 'A' else c }

  function LowerChar(c: char): char { if 'A' <= c <= 'Z' then c - 'A' + 'a' else c }

  function Upper(s: string): (r: string)
    ensures |r| == |s| && forall i :: 0 <= i < |s| ==> r[i] == UpperChar(s[i])
  {
    if s == "" then "" else [UpperChar(s[0])] + Upper(s[1..])
  }

  function Lower(s: string): (r: string)
    ensures |r| == |s| && forall i :: 0 <= i < |s| ==> r[i] == LowerChar(s[i])
  {
    if s == "" then "" else [LowerChar(s[0])] + Lower(s[1..])
  }

  function ProtocolName(p: RuleProtocol): string {
    match p
    case Tcp => "tcp"
    case Udp => "udp"
    case Ip => "ip"
  }

  // The matcher compares in upper case and the index in lower case: both read the same protocol.
  lemma {:induction false} SameProtocolEitherCase(s: string, p: RuleProtocol)
    ensures Upper(s) == Upper(ProtocolName(p)) <==> Lower(s) == ProtocolName(p)
  {
    var name := ProtocolName(p);
    if |s| == |name| {
      assert forall i :: 0 <= i < |s| ==> (UpperChar(s[i]) == UpperChar(name[i]) <==> LowerChar(s[i]) == name[i]);
      assert Upper(s) == Upper(name) <==> forall i :: 0 <= i < |s| ==> Upper(s)[i] == Upper(name)[i];
      assert Lower(s) == name <==> forall i :: 0 <= i < |s| ==> Lower(s)[i] == name[i];
    }
  }

  // ---------- The stages ----------

  predicate EndpointMatches(network: Option<Network>, ports: Option<PortRange>, address: Option<nat>, port: Option<int>)
  {
    && (network.Some? ==> address.Some? && network.value.first <= address.value <= network.value.last)
    && (ports.Some? ==> port.Some? && ports.value.low <= port.value <= ports.value.high)
  }

  function RecordProtocol(n: Normalized): string { Upper(GetOr(n.protocol, "")) }

  predicate HeaderMatches(rule: Rule, n: Normalized) {
    var protocol := RecordProtocol(n);
    if rule.protocol != Ip && Upper(ProtocolName(rule.protocol)) != protocol then false
    else if rule.protocol == Ip && protocol !in ["TCP", "UDP"] then false
    else if
      && EndpointMatches(rule.srcIp, rule.srcPort, n.srcIp, n.srcPort)
      && EndpointMatches(rule.dstIp, rule.dstPort, n.dstIp, n.dstPort)
    then true
    else
      // With source and destination of the record exchanged.
      && rule.arrow == BothWays
      && EndpointMatches(rule.srcIp, rule.srcPort, n.dstIp, n.dstPort)
      && EndpointMatches(rule.dstIp, rule.dstPort, n.srcIp, n.srcPort)
  }

  function Reversed(n: Normalized): Normalized {
    n.(srcIp := n.dstIp, srcPort := n.dstPort, dstIp := n.srcIp, dstPort := n.srcPort)
  }

  // A rule for both directions matches a record exactly when the same rule for one direction matches the record or its
  // reverse, so it cannot tell them apart.
  lemma {:induction false} BothWaysIsEitherWay(rule: Rule, n: Normalized)
    requires rule.arrow == BothWays
    ensures HeaderMatches(rule, n)
            <==> HeaderMatches(rule.(arrow := OneWay), n) || HeaderMatches(rule.(arrow := OneWay), Reversed(n))
    ensures HeaderMatches(rule, n) <==> HeaderMatches(rule, Reversed(n))
  {
  }

  predicate IsEstablished(flow: FlowContext) {
    if flow.state.None? then flow.forwardPackets > 0 && flow.backwardPackets > 0
    else flow.state.value in {ESTABLISHED, CLOSING}
  }

  predicate FlowMatches(option: FlowOption, flow: FlowContext) {
    && (option.direction.Some? ==> flow.direction == if option.direction.value == ToServer then Forward else Backward)
    && (option.established.Some? ==> IsEstablished(flow) == option.established.value)
  }

  predicate FlagsMatch(option: FlagsOption, n: Normalized) {
    && RecordProtocol(n) == "TCP"
    && match option.modifier
       case AllOf => option.flags <= n.tcpFlags
       case AnyOf => option.flags * n.tcpFlags != {}
       case NoneOf => option.flags * n.tcpFlags == {}
       case Exactly => option.flags == n.tcpFlags
  }

  predicate DsizeMatches(option: DsizeOption, size: Option<nat>) {
    && size.Some?
    && match option.operator
       case Greater => size.value > option.value
       case Less => size.value < option.value
       case Between => option.value <= size.value <= GetOr(option.upper, option.value)
       case Equal => size.value == option.value
  }

  predicate FlowStagePasses(rule: Rule, flow: Option<FlowContext>) {
    rule.flow.Some? ==> flow.Some? && FlowMatches(rule.flow.value, flow.value)
  }

  predicate PacketStagePasses(rule: Rule, n: Normalized) {
    && (rule.flags.Some? ==> FlagsMatch(rule.flags.value, n))
    && (rule.dsize.Some? ==> DsizeMatches(rule.dsize.value, n.payloadLen))
  }

  ghost predicate ContentStagePasses(rule: Rule, payload: Bytes) {
    exists ps :: IsPlacement(rule.contents, payload, ps)
  }

  // The rule matches when every stage passes.
  ghost predicate Matches(rule: Rule, n: Normalized, payload: Bytes, flow: Option<FlowContext>) {
    && HeaderMatches(rule, n)
    && FlowStagePasses(rule, flow)
    && PacketStagePasses(rule, n)
    && ContentStagePasses(rule, payload)
  }

  // Otherwise the first stage that fails is reported.
  ghost function FirstFailure(rule: Rule, n: Normalized, flow: Option<FlowContext>): Stage {
    if !HeaderMatches(rule, n) then HeaderStage
    else if !FlowStagePasses(rule, flow) then FlowStage
    else if !PacketStagePasses(rule, n) then PacketStage
    else ContentStage
  }

  function OptionItems(rule: Rule): seq<MatchedItem> {
    (if rule.flow.Some? then [FlowItem(rule.flow.value)] else [])
    + (if rule.flags.Some? then [FlagsItem(rule.flags.value)] else [])
    + (if rule.dsize.Some? then [DsizeItem(rule.dsize.value)] else [])
  }

  function ContentItems(contents: seq<Content>, positions: seq<nat>): seq<MatchedItem>
    requires |contents| == |positions|
  {
    seq(|contents|, i requires 0 <= i < |contents| => ContentItem(contents[i].text, positions[i]))
  }

  // What the matcher must report for a rule and a record.
  ghost predicate Reports(rule: Rule, n: Normalized, payload: Bytes, flow: Option<FlowContext>, r: MatchResult) {
    && r.sid == rule.sid
    && (r.matched <==> Matches(rule, n, payload, flow))
    && r.failedStage == (if r.matched then None else Some(FirstFailure(rule, n, flow)))
    && (if r.matched then
          exists ps ::
            && IsLeastPlacement(rule.contents, payload, ps)
            && r.items == OptionItems(rule) + ContentItems(rule.contents, ps)
        else r.items == [])
  }

  // The report is unique, so it does not depend on which rules were tried before.
  lemma {:induction false} ReportsAgree(
    rule: Rule, n: Normalized, payload: Bytes, flow: Option<FlowContext>, r: MatchResult, s: MatchResult)
    requires Reports(rule, n, payload, flow, r) && Reports(rule, n, payload, flow, s)
    ensures r == s
  {
    if r.matched {
      var ps :|
        IsLeastPlacement(rule.contents, payload, ps) && r.items == OptionItems(rule) + ContentItems(rule.contents, ps);
      var qs :|
        IsLeastPlacement(rule.contents, payload, qs) && s.items == OptionItems(rule) + ContentItems(rule.contents, qs);
      AnswersAgree(rule.contents, payload, Some(ps), Some(qs));
    }
  }

  method Match(rule: Rule, n: Normalized, payload: Bytes, flow: Option<FlowContext>) returns (r: MatchResult)
    ensures Reports(rule, n, payload, flow, r)
  {
    if !HeaderMatches(rule, n) {
      return MatchResult(rule.sid, false, Some(HeaderStage), []);
    }
    var items := [];
    if rule.flow.Some? {
      if flow.None? || !FlowMatches(rule.flow.value, flow.value) {
        return MatchResult(rule.sid, false, Some(FlowStage), []);
      }
      items := items + [FlowItem(rule.flow.value)];
    }
    if rule.flags.Some? {
      if !FlagsMatch(rule.flags.value, n) {
        return MatchResult(rule.sid, false, Some(PacketStage), []);
      }
      items := items + [FlagsItem(rule.flags.value)];
    }
    if rule.dsize.Some? {
      if !DsizeMatches(rule.dsize.value, n.payloadLen) {
        return MatchResult(rule.sid, false, Some(PacketStage), []);
      }
      items := items + [DsizeItem(rule.dsize.value)];
    }
    ghost var finds;
    var positions;
    positions, finds := ContentPositions(rule.contents, payload);
    if positions.None? {
      return MatchResult(rule.sid, false, Some(ContentStage), []);
    }
    assert IsPlacement(rule.contents, payload, positions.value);
    assert items == OptionItems(rule);
    r := MatchResult(rule.sid, true, None, items + ContentItems(rule.contents, positions.value));
  }
}
