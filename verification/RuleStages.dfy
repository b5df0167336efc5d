// What each stage of a match means, told from the packets of the flow and from the fields of the record.
module RuleStages {
  import opened Base
  import opened FlowModel
  import opened FlowSpec
  import opened FlowInvariant
  import opened FlowOffline
  import opened FlowRefinement
  import opened FlowAttribution
  import opened RuleMatch
  import TcpRuns

  // ---------- The flow stage, right after the packet was counted ----------

  // The side that opened the connection of a piece.
  function Client(seg: Segment): Endpoint {
    if seg[0].protocol == TCP && SYN in seg[0].flags && ACK in seg[0].flags then seg[0].destination else seg[0].source
  }

  // What the flow of a piece tells the rules about one packet.
  ghost predicate TellsOf(context: FlowContext, seg: Segment, p: Observation) {
    && context.direction == (if p.source == Client(seg) then Forward else Backward)
    && context.state == (if seg[0].protocol == TCP then Some(TcpRuns.Run(TcpPackets(seg)).state) else None)
    && (context.forwardPackets > 0 <==> exists i :: 0 <= i < |seg| && seg[i].source == Client(seg))
    && (context.backwardPackets > 0 <==> exists i :: 0 <= i < |seg| && seg[i].source != Client(seg))
  }

  lemma {:induction false} CountsSome(seg: seq<Observation>, holds: Observation -> bool)
    ensures CountIf(seg, holds) > 0 <==> exists i :: 0 <= i < |seg| && holds(seg[i])
    decreases |seg|
  {
    if seg != [] {
      var front := seg[..|seg| - 1];
      CountsSome(front, holds);
      assert forall i :: 0 <= i < |front| ==> front[i] == seg[i];
      assert holds(seg[|seg| - 1]) || forall i :: 0 <= i < |seg| && holds(seg[i]) ==> i < |front|;
    }
  }

  lemma {:induction false} PieceTells(seg: Segment, occurrence: nat, p: Observation)
    ensures var f := FlowOfSegment(seg, occurrence);
            TellsOf(FlowContext(f.id, DirectionOf(f.a, p), f.state, f.forwardPackets, f.backwardPackets), seg, p)
  {
    CountsSome(seg, From(Client(seg)));
    CountsSome(seg, NotFrom(Client(seg)));
    assert Initiator(seg[0]) == Client(seg);
  }

  lemma {:induction false} ContextOfLive(s: State, p: Observation)
    ensures var live, context := LiveAt(s, p.protocol, KeyOf(p)), ContextOf(s, p);
            && (context.Some? <==> live != [])
            && (live != [] ==>
                  var f := live[0];
                  context.value == FlowContext(f.id, DirectionOf(f.a, p), f.state, f.forwardPackets, f.backwardPackets))
  {
  }

  lemma {:induction false} LivePieceTells(live: seq<Flow>, segs: seq<Segment>, p: Observation)
    requires live != [] && IsLastPiece(live, segs, p.protocol)
    ensures segs != []
    ensures var f := live[0];
            TellsOf(FlowContext(f.id, DirectionOf(f.a, p), f.state, f.forwardPackets, f.backwardPackets),
                    segs[|segs| - 1], p)
  {
    PieceTells(segs[|segs| - 1], live[0].occurrence, p);
  }

  // A packet that was just counted has a live flow.
  lemma {:induction false} CountedIsLive(cfg: Config, ps: seq<Observation>, p: Observation)
    requires cfg.Valid()
    ensures LiveAt(Play(cfg, ps + [p]).state, p.protocol, KeyOf(p)) != []
  {
    assert (ps + [p])[..|ps|] == ps;
    RunMoves(cfg, ps + [p], p.protocol, KeyOf(p));
  }

  // The packets of the flow that a packet was just counted in.
  function OwnPiece(cfg: Config, ps: seq<Observation>, p: Observation): (seg: Segment)
    requires cfg.Valid()
  {
    var segs := OwnSegments(cfg, ps + [p], p.protocol, KeyOf(p));
    if segs == [] then [p] else segs[|segs| - 1]
  }

  // Right after each packet of a run, in any order and with any evictions, the rules are told the side that sent it,
  // the state of its flow and whether each side has sent, all from the packets of that flow.
  lemma {:induction false} ContextTellsPiece(cfg: Config, ps: seq<Observation>, p: Observation)
    requires cfg.Valid()
    ensures var context := ContextOf(Play(cfg, ps + [p]).state, p);
            context.Some? && TellsOf(context.value, OwnPiece(cfg, ps, p), p)
  {
    var live := LiveAt(Play(cfg, ps + [p]).state, p.protocol, KeyOf(p));
    CountedIsLive(cfg, ps, p);
    ContextOfLive(Play(cfg, ps + [p]).state, p);
    LiveIsLastPiece(cfg, ps + [p], p.protocol, KeyOf(p));
    LivePieceTells(live, OwnSegments(cfg, ps + [p], p.protocol, KeyOf(p)), p);
  }

  // A connection that is up: over TCP it was neither closed nor reset, and it has left its handshake, since it began
  // without SYN or an ACK or a FIN came without SYN and RST. Over UDP both sides have sent.
  ghost predicate IsUp(seg: Segment) {
    if seg[0].protocol == TCP then
      && !TcpRuns.Closes(TcpPackets(seg))
      && (forall i :: 0 <= i < |seg| && RST in seg[i].flags ==> SYN in seg[i].flags)
      && (SYN !in seg[0].flags
          || exists i :: 0 <= i < |seg| && SYN !in seg[i].flags && RST !in seg[i].flags
                         && (ACK in seg[i].flags || FIN in seg[i].flags))
    else
      && (exists i :: 0 <= i < |seg| && seg[i].source == Client(seg))
      && (exists i :: 0 <= i < |seg| && seg[i].source != Client(seg))
  }

  lemma {:induction false} UpStates(seg: Segment)
    requires seg[0].protocol == TCP
    ensures TcpRuns.Run(TcpPackets(seg)).state !in {HANDSHAKE, CLOSED, RESET} <==> IsUp(seg)
  {
    var ps := TcpPackets(seg);
    TcpRuns.RunCharacterised(ps);
    assert forall i :: 0 <= i < |seg| ==> ps[i].flags == seg[i].flags;
    assert TcpRuns.HasRst(ps) <==> exists i :: 0 <= i < |seg| && TcpRuns.PureRst(ps[i]);
    assert TcpRuns.HasFin(ps) || TcpRuns.HasAck(ps)
      <==> exists i :: 0 <= i < |seg| && (TcpRuns.PureFin(ps[i]) || TcpRuns.PureAck(ps[i]));
  }

  lemma {:induction false} FiveStates(state: TcpState)
    ensures state in {ESTABLISHED, CLOSING} <==> state !in {HANDSHAKE, CLOSED, RESET}
  {
    match state
    case HANDSHAKE =>
    case ESTABLISHED =>
    case CLOSING =>
    case CLOSED =>
    case RESET =>
  }

  lemma {:induction false} ToldEstablished(context: FlowContext, seg: Segment, p: Observation)
    requires TellsOf(context, seg, p)
    ensures IsEstablished(context) <==> IsUp(seg)
  {
    if seg[0].protocol == TCP {
      UpStates(seg);
      FiveStates(TcpRuns.Run(TcpPackets(seg)).state);
    }
  }

  // A flow check on a packet that was just counted: `to_server` asks that the side that opened its flow sent it,
  // `to_client` that the other side did, and `established` and `not_established` whether its connection is up.
  lemma {:induction false} FlowStageAfterPacket(cfg: Config, ps: seq<Observation>, p: Observation, rule: Rule)
    requires cfg.Valid()
    ensures var seg := OwnPiece(cfg, ps, p);
            FlowStagePasses(rule, ContextOf(Play(cfg, ps + [p]).state, p)) <==>
              rule.flow.Some? ==>
                && (rule.flow.value.direction == Some(ToServer) ==> p.source == Client(seg))
                && (rule.flow.value.direction == Some(ToClient) ==> p.source != Client(seg))
                && (rule.flow.value.established == Some(true) ==> IsUp(seg))
                && (rule.flow.value.established == Some(false) ==> !IsUp(seg))
  {
    ContextTellsPiece(cfg, ps, p);
    ToldEstablished(ContextOf(Play(cfg, ps + [p]).state, p).value, OwnPiece(cfg, ps, p), p);
  }

  // ---------- The header stage ----------

  // A text that spells a lower-case name, in any mixture of cases.
  predicate Named(s: string, name: string) {
    && |s| == |name|
    && forall i :: 0 <= i < |s| ==> s[i] == name[i] || ('a' <= name[i] <= 'z' && s[i] as int + 32 == name[i] as int)
  }

  lemma {:induction false} NameIsRead(protocol: Option<string>, name: string, upper: string)
    requires |name| == |upper| > 0
    requires forall i :: 0 <= i < |name| ==> 'a' <= name[i] <= 'z' && upper[i] as int + 32 == name[i] as int
    ensures Upper(GetOr(protocol, "")) == upper <==> protocol.Some? && Named(protocol.value, name)
  {
    var s := GetOr(protocol, "");
    if |s| == |name| {
      forall i | 0 <= i < |s|
        ensures Upper(s)[i] == upper[i]
                <==> s[i] == name[i] || ('a' <= name[i] <= 'z' && s[i] as int + 32 == name[i] as int)
      {
      }
      assert Upper(s) == upper <==> forall i :: 0 <= i < |s| ==> Upper(s)[i] == upper[i];
    }
  }

  // Nothing is asked of this end, or what is asked holds: an address inside the network, and a port inside the range.
  predicate Allowed(network: Option<Network>, ports: Option<PortRange>, address: Option<nat>, port: Option<int>) {
    && !(network.Some?
         && (address.None? || address.value < network.value.first || address.value > network.value.last))
    && !(ports.Some? && (port.None? || port.value < ports.value.low || port.value > ports.value.high))
  }

  // The header of a rule asks for its protocol in any mixture of cases, where `ip` is TCP or UDP, and for its two ends
  // in the direction of the arrow, or in both directions.
  lemma {:induction false} HeaderMeans(rule: Rule, n: Normalized)
    ensures HeaderMatches(rule, n) <==>
              && n.protocol.Some?
              && (match rule.protocol
                  case Tcp => Named(n.protocol.value, "tcp")
                  case Udp => Named(n.protocol.value, "udp")
                  case Ip => Named(n.protocol.value, "tcp") || Named(n.protocol.value, "udp"))
              && ((Allowed(rule.srcIp, rule.srcPort, n.srcIp, n.srcPort)
                   && Allowed(rule.dstIp, rule.dstPort, n.dstIp, n.dstPort))
                  || (rule.arrow == BothWays
                      && Allowed(rule.srcIp, rule.srcPort, n.dstIp, n.dstPort)
                      && Allowed(rule.dstIp, rule.dstPort, n.srcIp, n.srcPort)))
  {
    NameIsRead(n.protocol, "tcp", "TCP");
    NameIsRead(n.protocol, "udp", "UDP");
    UpperNames();
  }

  lemma {:induction false} UpperNames()
    ensures Upper(ProtocolName(Tcp)) == "TCP" && Upper(ProtocolName(Udp)) == "UDP"
  {
    assert Upper("tcp")[0] == 'T' && Upper("tcp")[1] == 'C' && Upper("tcp")[2] == 'P';
    assert Upper("udp")[0] == 'U' && Upper("udp")[1] == 'D' && Upper("udp")[2] == 'P';
  }

  // ---------- The packet stage ----------

  // A check of flags asks for each flag of the packet, or for some of them, by its modifier.
  lemma {:induction false} FlagsMean(flags: set<Flag>, n: Normalized)
    ensures var tcp := n.protocol.Some? && Named(n.protocol.value, "tcp");
            && (FlagsMatch(FlagsOption(flags, AllOf), n) <==> tcp && forall f :: f in flags ==> f in n.tcpFlags)
            && (FlagsMatch(FlagsOption(flags, AnyOf), n) <==> tcp && exists f :: f in flags && f in n.tcpFlags)
            && (FlagsMatch(FlagsOption(flags, NoneOf), n) <==> tcp && !exists f :: f in flags && f in n.tcpFlags)
            && (FlagsMatch(FlagsOption(flags, Exactly), n)
                <==> tcp && forall f: Flag :: f in flags <==> f in n.tcpFlags)
  {
    NameIsRead(n.protocol, "tcp", "TCP");
    assert forall f :: f in flags * n.tcpFlags <==> f in flags && f in n.tcpFlags;
  }

  // Of the checks against one size exactly one holds, each for its side of the size, and a range asks for neither side.
  lemma {:induction false} DsizeMeans(value: nat, upper: nat, size: nat)
    ensures DsizeMatches(DsizeOption(Less, value, None), Some(size)) <==> size + 1 <= value
    ensures DsizeMatches(DsizeOption(Greater, value, None), Some(size)) <==> value + 1 <= size
    ensures DsizeMatches(DsizeOption(Equal, value, None), Some(size)) <==> !(size < value) && !(size > value)
    ensures DsizeMatches(DsizeOption(Between, value, Some(upper)), Some(size))
            <==> !DsizeMatches(DsizeOption(Less, value, None), Some(size))
                 && !DsizeMatches(DsizeOption(Greater, upper, None), Some(size))
    ensures forall o :: !DsizeMatches(o, None)
  {
  }
}
