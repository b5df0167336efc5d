// The offline meaning of a flow: the packets of one endpoint pair, cut where a new flow starts, and counted.
module FlowOffline {
  import opened Base
  import opened FlowModel
  import opened FlowSpec
  import TcpRuns

  type Segment = s: seq<Observation> | s != [] witness [Observation(UDP, NOWHERE, NOWHERE, 0.0, 0, {}, "UNKNOWN", 0)]

  function Last(seg: Segment): Observation { seg[|seg| - 1] }

  // ---------- Cutting ----------

  // The packets of a segment as the TCP table sees them.
  function TcpPackets(seg: Segment): (ps: seq<TcpRuns.Packet>)
    ensures ps != []
  {
    seq(|seg|, i requires 0 <= i < |seg| => TcpRuns.Packet(seg[i].flags, DirectionOf(Initiator(seg[0]), seg[i])))
  }

  // A pure SYN restarts a TCP connection in which one side has sent a FIN or an RST, without SYN.
  predicate NewConnectionAfter(seg: Segment, p: Observation) {
    && p.protocol == TCP
    && SYN in p.flags
    && ACK !in p.flags
    && exists i :: 0 <= i < |seg| && SYN !in seg[i].flags && (FIN in seg[i].flags || RST in seg[i].flags)
  }

  predicate CutBefore(cfg: Config, seg: Segment, p: Observation) {
    p.timestamp - Last(seg).timestamp > cfg.Timeout(p.protocol) || NewConnectionAfter(seg, p)
  }

  function Segments(cfg: Config, ps: seq<Observation>): (segs: seq<Segment>)
    ensures segs == [] <==> ps == []
    decreases |ps|
  {
    if ps == [] then []
    else
      var segs, p := Segments(cfg, ps[..|ps| - 1]), ps[|ps| - 1];
      if segs == [] || CutBefore(cfg, segs[|segs| - 1], p) then segs + [[p]]
      else segs[..|segs| - 1] + [segs[|segs| - 1] + [p]]
  }

  // ---------- Counting ----------

  function CountIf(seg: seq<Observation>, holds: Observation -> bool): nat {
    if seg == [] then 0 else CountIf(seg[..|seg| - 1], holds) + One(holds(seg[|seg| - 1]))
  }

  function BytesIf(seg: seq<Observation>, holds: Observation -> bool): nat {
    if seg == [] then 0
    else BytesIf(seg[..|seg| - 1], holds) + if holds(seg[|seg| - 1]) then seg[|seg| - 1].length else 0
  }

  function From(a: Endpoint): Observation -> bool { (p: Observation) => p.source == a }

  function NotFrom(a: Endpoint): Observation -> bool { (p: Observation) => p.source != a }

  function Carries(flag: Flag): Observation -> bool { (p: Observation) => flag in p.flags }

  // The first detection of the highest rank, and rank 0 for none.
  datatype Detection = Detection(appProtocol: string, rank: nat)

  function Detect(seg: seq<Observation>): Detection {
    if seg == [] then Detection("UNKNOWN", 0)
    else
      var best, p := Detect(seg[..|seg| - 1]), seg[|seg| - 1];
      if p.rank > best.rank then Detection(p.appProtocol, p.rank) else best
  }

  // How many segments just before this one start at the same time.
  function Occurrence(segs: seq<Segment>, k: nat): nat
    requires k < |segs|
  {
    if k > 0 && segs[k - 1][0].timestamp == segs[k][0].timestamp then Occurrence(segs, k - 1) + 1 else 0
  }

  // The flow of one segment, without the number that orders flows of different endpoints.
  function SummaryOf(seg: Segment, occurrence: nat): Flow {
    var first := seg[0];
    var a := Initiator(first);
    var b := if a == first.source then first.destination else first.source;
    var detected, run := Detect(seg), TcpRuns.Run(TcpPackets(seg));
    Flow(
      FlowId(first.protocol, a, b, first.timestamp, occurrence), first.protocol, a, b, first.timestamp,
      Last(seg).timestamp,
      detected.appProtocol, detected.rank,
      CountIf(seg, From(a)), BytesIf(seg, From(a)), CountIf(seg, NotFrom(a)), BytesIf(seg, NotFrom(a)),
      CountIf(seg, Carries(SYN)), CountIf(seg, Carries(ACK)), CountIf(seg, Carries(FIN)), CountIf(seg, Carries(RST)),
      if first.protocol == TCP then Some(run.state) else None,
      if first.protocol == TCP then run.finDirections else [],
      0, occurrence)
  }

  function Summary(segs: seq<Segment>, k: nat): Flow
    requires k < |segs|
  {
    SummaryOf(segs[k], Occurrence(segs, k))
  }

  function Summaries(segs: seq<Segment>): seq<Flow> {
    seq(|segs|, k requires 0 <= k < |segs| => Summary(segs, k))
  }

  // The flows of the packets of one endpoint pair, in order.
  function Offline(cfg: Config, ps: seq<Observation>): (flows: seq<Flow>)
    ensures flows == [] <==> ps == []
  {
    Summaries(Segments(cfg, ps))
  }

  // ---------- One more packet ----------

  function Strip(f: Flow): Flow { f.(number := 0) }

  // Packets of one protocol in time order.
  ghost predicate Chronological(ps: seq<Observation>, protocol: Protocol) {
    && (forall i :: 0 <= i < |ps| ==> ps[i].protocol == protocol)
    && (forall i, j :: 0 <= i < j < |ps| ==> ps[i].timestamp <= ps[j].timestamp)
  }

  lemma {:induction false} CountSnoc(seg: seq<Observation>, p: Observation, holds: Observation -> bool)
    ensures CountIf(seg + [p], holds) == CountIf(seg, holds) + One(holds(p))
    ensures BytesIf(seg + [p], holds) == BytesIf(seg, holds) + if holds(p) then p.length else 0
  {
    assert (seg + [p])[..|seg + [p]| - 1] == seg;
  }

  lemma {:induction false} RunSnoc(seg: Segment, p: Observation)
    ensures var run := TcpRuns.Run(TcpPackets(seg));
            TcpRuns.Run(TcpPackets(seg + [p]))
            == NextStep(run.state, p.flags, DirectionOf(Initiator(seg[0]), p), run.finDirections)
  {
    var longer: Segment := seg + [p];
    assert TcpPackets(longer)[..|longer| - 1] == TcpPackets(seg);
  }

  lemma {:induction false} DetectSnoc(seg: seq<Observation>, p: Observation)
    ensures var best := Detect(seg);
            Detect(seg + [p]) == if p.rank > best.rank then Detection(p.appProtocol, p.rank) else best
  {
    assert (seg + [p])[..|seg + [p]| - 1] == seg;
  }

  // A joining packet extends the summary exactly as the tracker counts it.
  lemma {:induction false} SummaryJoins(seg: Segment, occurrence: nat, p: Observation)
    requires p.protocol == seg[0].protocol && Last(seg).timestamp <= p.timestamp
    ensures Joined(SummaryOf(seg, occurrence), p) == SummaryOf(seg + [p], occurrence)
  {
    var a := Initiator(seg[0]);
    CountSnoc(seg, p, From(a));
    CountSnoc(seg, p, NotFrom(a));
    CountSnoc(seg, p, Carries(SYN));
    CountSnoc(seg, p, Carries(ACK));
    CountSnoc(seg, p, Carries(FIN));
    CountSnoc(seg, p, Carries(RST));
    DetectSnoc(seg, p);
    RunSnoc(seg, p);
  }

  lemma {:induction false} SinglePacket(p: Observation, holds: Observation -> bool)
    ensures CountIf([p], holds) == One(holds(p))
    ensures BytesIf([p], holds) == if holds(p) then p.length else 0
  {
    CountSnoc([], p, holds);
    assert [p] == [] + [p];
  }

  lemma {:induction false} SingleRun(p: Observation)
    ensures TcpRuns.Run(TcpPackets([p])) == FirstStep(p.flags, DirectionOf(Initiator(p), p))
    ensures Detect([p]) == if p.rank > 0 then Detection(p.appProtocol, p.rank) else Detection("UNKNOWN", 0)
  {
    DetectSnoc([], p);
    assert [p] == [] + [p];
    assert TcpPackets([p]) == [TcpRuns.Packet(p.flags, DirectionOf(Initiator(p), p))];
  }

  // A packet that starts a segment gives the flow that the tracker starts.
  lemma {:induction false} SummaryStarts(p: Observation, replaced: Option<Flow>)
    ensures var f := Started(p, replaced, 0); f == SummaryOf([p], f.occurrence)
  {
    var a := Initiator(p);
    SinglePacket(p, From(a));
    SinglePacket(p, NotFrom(a));
    SinglePacket(p, Carries(SYN));
    SinglePacket(p, Carries(ACK));
    SinglePacket(p, Carries(FIN));
    SinglePacket(p, Carries(RST));
    SingleRun(p);
  }

  lemma {:induction false} OccurrenceOfPrefix(segs: seq<Segment>, more: seq<Segment>, k: nat)
    requires k < |segs| && k < |more|
    requires forall i :: 0 <= i <= k ==> segs[i][0] == more[i][0]
    ensures Occurrence(segs, k) == Occurrence(more, k)
  {
    if k > 0 {
      OccurrenceOfPrefix(segs, more, k - 1);
    }
  }

  lemma {:induction false} LastPackets(ps: seq<Observation>, seg: seq<Observation>)
    requires ps != [] && |seg| < |ps| && ps[..|ps| - 1][|ps| - 1 - |seg|..] == seg
    ensures ps[|ps| - |seg| - 1..] == seg + [ps[|ps| - 1]]
  {
  }

  lemma {:induction false} SegmentsCover(cfg: Config, ps: seq<Observation>)
    requires ps != []
    ensures var segs := Segments(cfg, ps);
            var seg := segs[|segs| - 1];
            |seg| <= |ps| && ps[|ps| - |seg|..] == seg
    decreases |ps|
  {
    var before, p := ps[..|ps| - 1], ps[|ps| - 1];
    if before == [] {
      assert ps[0..] == [p];
    } else {
      SegmentsCover(cfg, before);
      var earlier := Segments(cfg, before);
      LastPackets(ps, earlier[|earlier| - 1]);
      assert ps[|ps| - 1..] == [p];
    }
  }

  function Flatten(segs: seq<Segment>): seq<Observation> {
    if segs == [] then [] else Flatten(segs[..|segs| - 1]) + segs[|segs| - 1]
  }

  lemma {:induction false} FlattenCut(segs: seq<Segment>, p: Observation)
    ensures Flatten(segs + [[p]]) == Flatten(segs) + [p]
  {
    assert (segs + [[p]])[..|segs|] == segs;
  }

  lemma {:induction false} FlattenJoined(front: seq<Segment>, seg: Segment, p: Observation)
    ensures Flatten(front + [seg + [p]]) == Flatten(front + [seg]) + [p]
  {
    assert (front + [seg + [p]])[..|front|] == front && (front + [seg])[..|front|] == front;
    assert Flatten(front) + (seg + [p]) == (Flatten(front) + seg) + [p];
  }

  // The segments are the packets, cut: none is lost, repeated or moved.
  lemma {:induction false} SegmentsPartition(cfg: Config, ps: seq<Observation>)
    ensures Flatten(Segments(cfg, ps)) == ps
    decreases |ps|
  {
    if ps != [] {
      var before, p := ps[..|ps| - 1], ps[|ps| - 1];
      var segs := Segments(cfg, before);
      SegmentsPartition(cfg, before);
      FlattenCut(segs, p);
      if segs != [] {
        FlattenJoined(segs[..|segs| - 1], segs[|segs| - 1], p);
        assert segs[..|segs| - 1] + [segs[|segs| - 1]] == segs;
      }
      assert ps == before + [p];
    }
  }

  lemma {:induction false} SegmentsKeepProtocol(cfg: Config, ps: seq<Observation>, protocol: Protocol)
    requires forall i :: 0 <= i < |ps| ==> ps[i].protocol == protocol
    ensures forall k :: 0 <= k < |Segments(cfg, ps)| ==> Segments(cfg, ps)[k][0].protocol == protocol
    decreases |ps|
  {
    if ps != [] {
      SegmentsKeepProtocol(cfg, ps[..|ps| - 1], protocol);
    }
  }

  // What one more packet does to the offline flows, in the tracker's own terms.
  function OfflineNext(cfg: Config, flows: seq<Flow>, p: Observation): seq<Flow> {
    if flows == [] then [Strip(Started(p, None, 0))]
    else
      var last := flows[|flows| - 1];
      if Idle(last, p.timestamp, cfg.Timeout(p.protocol)) then flows + [Strip(Started(p, None, 0))]
      else if Restarts(last, p) then flows + [Strip(Started(p, Some(last), 0))]
      else flows[..|flows| - 1] + [Joined(last, p)]
  }

  lemma {:induction false} EndIsAnnounced(seg: Segment)
    ensures TcpRuns.Run(TcpPackets(seg)).state in {CLOSING, CLOSED, RESET} <==>
              exists i :: 0 <= i < |seg| && SYN !in seg[i].flags && (FIN in seg[i].flags || RST in seg[i].flags)
  {
    var ps := TcpPackets(seg);
    TcpRuns.EndedExactlyWhen(ps);
    assert forall i :: 0 <= i < |seg| ==> ps[i].flags == seg[i].flags;
  }

  // The table restarts a connection exactly when its packets have announced its end.
  lemma {:induction false} RestartsMatch(seg: Segment, occurrence: nat, p: Observation)
    requires seg[0].protocol == p.protocol
    ensures NewConnectionAfter(seg, p) <==> Restarts(SummaryOf(seg, occurrence), p)
  {
    EndIsAnnounced(seg);
  }

  // How the last segment so far stands to the next packet.
  lemma {:induction false} LastSegment(cfg: Config, ps: seq<Observation>, p: Observation)
    requires ps != [] && Chronological(ps + [p], p.protocol)
    ensures var segs := Segments(cfg, ps);
            var seg := segs[|segs| - 1];
            seg[0].protocol == p.protocol && seg[0].timestamp <= Last(seg).timestamp <= p.timestamp
  {
    var all := ps + [p];
    SegmentsCover(cfg, ps);
    var segs := Segments(cfg, ps);
    var seg := segs[|segs| - 1];
    var start := |ps| - |seg|;
    assert seg[0] == ps[start] == all[start];
    assert Last(seg) == ps[|ps| - 1] == all[|ps| - 1];
    assert p == all[|ps|];
  }

  lemma {:induction false} FirstPacket(cfg: Config, p: Observation)
    ensures Offline(cfg, [p]) == [Strip(Started(p, None, 0))]
  {
    SummaryStarts(p, None);
    assert [p][..0] == [];
    assert Segments(cfg, [p]) == [[p]];
  }

  lemma {:induction false} NextPacket(cfg: Config, segs: seq<Segment>, p: Observation)
    requires cfg.Valid() && segs != []
    requires var seg := segs[|segs| - 1];
             seg[0].protocol == p.protocol && seg[0].timestamp <= Last(seg).timestamp <= p.timestamp
    ensures var k := |segs| - 1;
            var next := if CutBefore(cfg, segs[k], p) then segs + [[p]] else segs[..k] + [segs[k] + [p]];
            Summaries(next) == OfflineNext(cfg, Summaries(segs), p)
  {
    var k := |segs| - 1;
    RestartsMatch(segs[k], Occurrence(segs, k), p);
    assert Summaries(segs)[k] == Summary(segs, k);
    assert Idle(Summary(segs, k), p.timestamp, cfg.Timeout(p.protocol))
      <==> p.timestamp - Last(segs[k]).timestamp > cfg.Timeout(p.protocol);
    if CutBefore(cfg, segs[k], p) {
      CutStep(cfg, segs, p);
    } else {
      JoinStep(segs, p);
    }
  }

  lemma {:induction false} OfflineStep(cfg: Config, ps: seq<Observation>, p: Observation)
    requires cfg.Valid() && Chronological(ps + [p], p.protocol)
    ensures Offline(cfg, ps + [p]) == OfflineNext(cfg, Offline(cfg, ps), p)
  {
    var all := ps + [p];
    assert all[..|all| - 1] == ps && all[|all| - 1] == p;
    if ps == [] {
      assert all == [p];
      FirstPacket(cfg, p);
    } else {
      LastSegment(cfg, ps, p);
      NextPacket(cfg, Segments(cfg, ps), p);
    }
  }

  // A cut counts on only when the packet restarts a connection at the instant at which it started.
  lemma {:induction false} CutOccurrence(cfg: Config, segs: seq<Segment>, p: Observation)
    requires cfg.Valid() && segs != []
    requires var seg := segs[|segs| - 1];
             seg[0].protocol == p.protocol && seg[0].timestamp <= Last(seg).timestamp && CutBefore(cfg, seg, p)
    ensures var last := Summary(segs, |segs| - 1);
            var replaced := if Idle(last, p.timestamp, cfg.Timeout(p.protocol)) then None else Some(last);
            Occurrence(segs + [[p]], |segs|) == Started(p, replaced, 0).occurrence
  {
    OccurrenceOfPrefix(segs, segs + [[p]], |segs| - 1);
  }

  lemma {:induction false} CutStep(cfg: Config, segs: seq<Segment>, p: Observation)
    requires cfg.Valid() && segs != []
    requires var seg := segs[|segs| - 1];
             seg[0].protocol == p.protocol && seg[0].timestamp <= Last(seg).timestamp && CutBefore(cfg, seg, p)
    ensures var last := Summary(segs, |segs| - 1);
            var replaced := if Idle(last, p.timestamp, cfg.Timeout(p.protocol)) then None else Some(last);
            Summaries(segs + [[p]]) == Summaries(segs) + [Strip(Started(p, replaced, 0))]
  {
    var k := |segs| - 1;
    var last, next := Summary(segs, k), segs + [[p]];
    var replaced := if Idle(last, p.timestamp, cfg.Timeout(p.protocol)) then None else Some(last);
    SummaryStarts(p, replaced);
    SummariesOfPrefix(segs, next, |segs|);
    CutOccurrence(cfg, segs, p);
  }

  lemma {:induction false} JoinStep(segs: seq<Segment>, p: Observation)
    requires segs != []
    requires var seg := segs[|segs| - 1]; seg[0].protocol == p.protocol && Last(seg).timestamp <= p.timestamp
    ensures var k := |segs| - 1;
            Summaries(segs[..k] + [segs[k] + [p]]) == Summaries(segs)[..k] + [Joined(Summary(segs, k), p)]
  {
    var k := |segs| - 1;
    var longer: Segment := segs[k] + [p];
    var next := segs[..k] + [longer];
    SummaryJoins(segs[k], Occurrence(segs, k), p);
    SummariesOfPrefix(segs, next, k);
    OccurrenceOfPrefix(segs, next, k);
  }

  lemma {:induction false} SummariesOfPrefix(segs: seq<Segment>, more: seq<Segment>, n: nat)
    requires n <= |segs| && n <= |more| && segs[..n] == more[..n]
    ensures forall k :: 0 <= k < n ==> Summary(segs, k) == Summary(more, k)
  {
    forall k | 0 <= k < n ensures Summary(segs, k) == Summary(more, k) {
      assert forall i :: 0 <= i <= k ==> segs[i] == segs[..n][i] == more[i];
      OccurrenceOfPrefix(segs, more, k);
    }
  }
}
