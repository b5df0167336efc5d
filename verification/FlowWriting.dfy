// What is written of each flow, in which order and with which fields, told from the packets and the records alone.
module FlowWriting {
  import opened Base
  import opened FlowModel
  import opened FlowSpec
  import opened FlowInvariant
  import opened FlowOrder
  import opened FlowOffline
  import opened FlowRefinement
  import opened FlowAttribution
  import FlowIdentity
  import FlowTotals
  import TcpRuns

  // ---------- Order ----------

  lemma {:induction false} LaterAreDistinct(xs: seq<Export>, ys: seq<Export>)
    requires FlowIdentity.DistinctNumbers(xs + ys)
    ensures FlowIdentity.DistinctNumbers(xs) && FlowIdentity.DistinctNumbers(ys)
  {
    var all := xs + ys;
    forall i, j | 0 <= i < j < |ys| ensures ys[i].flow.number != ys[j].flow.number {
      assert all[|xs| + i] == ys[i] && all[|xs| + j] == ys[j];
    }
    forall i, j | 0 <= i < j < |xs| ensures xs[i].flow.number != xs[j].flow.number {
      assert all[i] == xs[i] && all[j] == xs[j];
    }
  }

  lemma {:induction false} NumbersAreDistinct(cfg: Config, ps: seq<Observation>)
    requires cfg.Valid()
    ensures FlowIdentity.DistinctNumbers(Play(cfg, ps).exported)
    ensures FlowIdentity.DistinctNumbers(Flush(Play(cfg, ps).state))
  {
    FlowIdentity.EachStartIsWrittenOnce(cfg, ps);
    LaterAreDistinct(Play(cfg, ps).exported, Flush(Play(cfg, ps).state));
  }

  // A flush writes earlier starts first, and flows of one start time as they were created.
  lemma {:induction false} FlushIsInOrder(cfg: Config, ps: seq<Observation>, i: nat, j: nat)
    requires cfg.Valid() && i < j < |Flush(Play(cfg, ps).state)|
    ensures var f, g := Flush(Play(cfg, ps).state)[i].flow, Flush(Play(cfg, ps).state)[j].flow;
            f.startTime < g.startTime || (f.startTime == g.startTime && f.number < g.number)
  {
    NumbersAreDistinct(cfg, ps);
    FlowTotals.FlushIsOrderedAndComplete(Play(cfg, ps).state);
  }

  // The flow carries the time of the start that its number counts.
  ghost predicate CountsStart(f: Flow, bs: seq<FlowIdentity.Birth>) {
    1 <= f.number <= |bs| && f.startTime == bs[f.number - 1].packet.timestamp
  }

  lemma {:induction false} NamedCountsStart(f: Flow, bs: seq<FlowIdentity.Birth>)
    requires FlowIdentity.Named(f, bs) && f.id.startTime == f.startTime
    ensures CountsStart(f, bs)
  {
  }

  lemma {:induction false} WrittenCountsStart(cfg: Config, ps: seq<Observation>, x: Export)
    requires cfg.Valid() && x in FlowTotals.AllExports(cfg, ps)
    ensures CountsStart(x.flow, FlowIdentity.Births(cfg, ps))
  {
    var i :| 0 <= i < |FlowTotals.AllExports(cfg, ps)| && FlowTotals.AllExports(cfg, ps)[i] == x;
    FlowIdentity.AllExportsAreNamed(cfg, ps);
    AllExportsOk(cfg, ps, i);
    NamedCountsStart(x.flow, FlowIdentity.Births(cfg, ps));
  }

  lemma {:induction false} FlushedCountsStart(cfg: Config, ps: seq<Observation>, i: nat)
    requires cfg.Valid() && i < |Flush(Play(cfg, ps).state)|
    ensures CountsStart(Flush(Play(cfg, ps).state)[i].flow, FlowIdentity.Births(cfg, ps))
  {
    WrittenCountsStart(cfg, ps, Flush(Play(cfg, ps).state)[i]);
  }

  lemma {:induction false} EarlierStartIsCounted(f: Flow, g: Flow, bs: seq<FlowIdentity.Birth>)
    requires FlowIdentity.BirthsInOrder(bs)
    requires CountsStart(f, bs) && CountsStart(g, bs)
    requires f.startTime < g.startTime || (f.startTime == g.startTime && f.number < g.number)
    ensures f.number < g.number
  {
  }

  // In order, a flush writes the flows as they were created.
  lemma {:induction false} FlushNumbersIncrease(cfg: Config, ps: seq<Observation>, i: nat, j: nat)
    requires cfg.Valid() && InOrder(ps) && i < j < |Flush(Play(cfg, ps).state)|
    ensures Flush(Play(cfg, ps).state)[i].flow.number < Flush(Play(cfg, ps).state)[j].flow.number
  {
    FlushIsInOrder(cfg, ps, i, j);
    FlushedCountsStart(cfg, ps, i);
    FlushedCountsStart(cfg, ps, j);
    FlowIdentity.BirthsFollowRun(cfg, ps);
    EarlierStartIsCounted(Flush(Play(cfg, ps).state)[i].flow, Flush(Play(cfg, ps).state)[j].flow,
                          FlowIdentity.Births(cfg, ps));
  }

  // The parts of what an update writes.
  lemma {:induction false} WrittenParts(cfg: Config, s: State, p: Observation)
    requires cfg.Valid() && Consistent(s) && s.Size() <= cfg.maxFlows
    ensures var now := Clock(s.now, p.timestamp);
            var idle := Exported(ExpiredEntries(cfg, s, now), IdleTimeout);
            var placed := Place(cfg, AfterExpiry(cfg, s, now), p, Late(s.now, p)).exported;
            && Update(cfg, s, p).exported == idle + placed && |idle| == |ExpiredEntries(cfg, s, now)|
            && forall x :: x in placed ==> x.reason != IdleTimeout
  {
    var now := Clock(s.now, p.timestamp);
    AfterExpiryKeeps(cfg, s, now);
    PlaceKeeps(cfg, AfterExpiry(cfg, s, now), p, Late(s.now, p));
  }

  lemma {:induction false} ExpiredAreInOrder(cfg: Config, s: State, now: real)
    ensures FlowTotals.Ordered(SeenLeq, ExpiredEntries(cfg, s, now))
  {
    FlowTotals.SortOrders(SeenLeq, s.tcp[..IdlePrefix(s.tcp, now, cfg.tcpTimeout)]
                                   + s.udp[..IdlePrefix(s.udp, now, cfg.udpTimeout)]);
  }

  lemma {:induction false} IdleAreFirst(idle: seq<Export>, placed: seq<Export>, j: nat)
    requires forall k :: 0 <= k < |placed| ==> placed[k].reason != IdleTimeout
    requires j < |idle + placed| && (idle + placed)[j].reason == IdleTimeout
    ensures j < |idle|
  {
  }

  lemma {:induction false} UpdateHasDistinctNumbers(cfg: Config, ps: seq<Observation>, p: Observation)
    requires cfg.Valid()
    ensures FlowIdentity.DistinctNumbers(Update(cfg, Play(cfg, ps).state, p).exported)
  {
    NumbersAreDistinct(cfg, ps + [p]);
    assert (ps + [p])[..|ps|] == ps;
    LaterAreDistinct(Play(cfg, ps).exported, Update(cfg, Play(cfg, ps).state, p).exported);
  }

  // Of the flows that one update expires, those seen last longer ago are written first, and flows last seen at one time
  // as they were created. They all stand before the flow that makes room or is replaced.
  lemma {:induction false} IdleExportsAreInOrder(cfg: Config, ps: seq<Observation>, p: Observation, i: nat, j: nat)
    requires cfg.Valid() && i < j < |Update(cfg, Play(cfg, ps).state, p).exported|
    requires Update(cfg, Play(cfg, ps).state, p).exported[j].reason == IdleTimeout
    ensures var written := Update(cfg, Play(cfg, ps).state, p).exported;
            var x, y := written[i], written[j];
            && x.reason == IdleTimeout
            && (x.flow.lastSeen < y.flow.lastSeen
                || (x.flow.lastSeen == y.flow.lastSeen && x.flow.number < y.flow.number))
  {
    var s := Play(cfg, ps).state;
    var now := Clock(s.now, p.timestamp);
    PlayKeeps(cfg, ps);
    WrittenParts(cfg, s, p);
    var idle, placed := Exported(ExpiredEntries(cfg, s, now), IdleTimeout),
                        Place(cfg, AfterExpiry(cfg, s, now), p, Late(s.now, p)).exported;
    IdleAreFirst(idle, placed, j);
    UpdateHasDistinctNumbers(cfg, ps, p);
    ExpiredAreInOrder(cfg, s, now);
    assert (idle + placed)[i] == idle[i] && (idle + placed)[j] == idle[j];
  }

  // An evicted flow is the front of a table, and no front was seen longer ago, or as long ago and created before it.
  lemma {:induction false} EvictedIsTheOlderFront(cfg: Config, s: State, p: Observation, x: Export)
    requires cfg.Valid() && Consistent(s) && s.Size() <= cfg.maxFlows
    requires x in Update(cfg, s, p).exported && x.reason == Evicted
    ensures var t := AfterExpiry(cfg, s, Clock(s.now, p.timestamp));
            && ((t.tcp != [] && x.flow == t.tcp[0].flow) || (t.udp != [] && x.flow == t.udp[0].flow))
            && forall front :: (t.tcp != [] && front == t.tcp[0].flow) || (t.udp != [] && front == t.udp[0].flow) ==>
                 || x.flow.lastSeen < front.lastSeen
                 || (x.flow.lastSeen == front.lastSeen && x.flow.number <= front.number)
  {
    EvictedByRoom(cfg, s, p, x);
  }

  // ---------- Fields ----------

  // The places of the packets of one kind.
  ghost function Places(seg: seq<Observation>, holds: Observation -> bool): set<nat> {
    set i: nat | i < |seg| && holds(seg[i])
  }

  lemma {:induction false} PlacesGrow(front: seq<Observation>, p: Observation, holds: Observation -> bool)
    ensures |Places(front + [p], holds)| == |Places(front, holds)| + One(holds(p))
  {
    assert Places(front + [p], holds) == Places(front, holds) + if holds(p) then {|front|} else {};
  }

  // How often a kind of packet is counted is how many places hold one.
  lemma {:induction false} CountIfCounts(seg: seq<Observation>, holds: Observation -> bool)
    ensures CountIf(seg, holds) == |Places(seg, holds)|
    decreases |seg|
  {
    if seg == [] {
      assert Places(seg, holds) == {};
    } else {
      var front := seg[..|seg| - 1];
      CountIfCounts(front, holds);
      PlacesGrow(front, seg[|seg| - 1], holds);
      assert seg == front + [seg[|seg| - 1]];
    }
  }

  lemma {:induction false} DetectedRank(seg: seq<Observation>)
    ensures Detect(seg).rank == 0 || exists k :: 0 <= k < |seg| && seg[k].rank == Detect(seg).rank
    ensures Detect(seg).rank == 0 ==> Detect(seg) == Detection("UNKNOWN", 0)
    decreases |seg|
  {
    if seg != [] {
      var front := seg[..|seg| - 1];
      DetectedRank(front);
      if Detect(seg) == Detect(front) && Detect(seg).rank > 0 {
        var k :| 0 <= k < |front| && front[k].rank == Detect(front).rank;
        assert seg[k].rank == Detect(seg).rank;
      }
    }
  }

  // The first packet of the highest rank, which is not zero.
  predicate FirstBest(seg: seq<Observation>, i: nat) {
    && i < |seg| && seg[i].rank > 0
    && (forall k :: 0 <= k < i ==> seg[k].rank < seg[i].rank)
    && forall k :: i < k < |seg| ==> seg[k].rank <= seg[i].rank
  }

  // The detection of a piece is that of its first packet of the highest rank.
  lemma {:induction false} DetectIsFirstBest(seg: seq<Observation>, i: nat)
    requires FirstBest(seg, i)
    ensures Detect(seg) == Detection(seg[i].appProtocol, seg[i].rank)
    decreases |seg|
  {
    var front := seg[..|seg| - 1];
    if i < |front| {
      assert FirstBest(front, i);
      DetectIsFirstBest(front, i);
    } else {
      DetectedRank(front);
      assert forall k :: 0 <= k < |front| ==> front[k].rank < seg[i].rank;
    }
  }

  // No detection without a rank.
  lemma {:induction false} DetectsNothing(seg: seq<Observation>)
    requires forall i :: 0 <= i < |seg| ==> seg[i].rank == 0
    ensures Detect(seg) == Detection("UNKNOWN", 0)
  {
    DetectedRank(seg);
  }

  // The side that opened a flow, told from its first packet.
  lemma {:induction false} OpeningSide(seg: Segment, occurrence: nat)
    ensures var f, p := FlowOfSegment(seg, occurrence), seg[0];
            if p.protocol == TCP && {SYN, ACK} <= p.flags then f.a == p.destination && f.b == p.source
            else f.a == p.source && f.b == p.destination
  {
  }

  // A record holds what its own packets show: who opened the flow, from its first to its latest packet, how many
  // packets went each way and carried each flag, and what was detected.
  ghost predicate Shows(f: Flow, seg: Segment) {
    var p := seg[0];
    && f.protocol == p.protocol && f.startTime == p.timestamp
    && (exists i :: 0 <= i < |seg| && f.lastSeen == seg[i].timestamp)
    && (forall i :: 0 <= i < |seg| ==> seg[i].timestamp <= f.lastSeen)
    && (if p.protocol == TCP && {SYN, ACK} <= p.flags then f.a == p.destination && f.b == p.source
        else f.a == p.source && f.b == p.destination)
    && f.id == FlowId(f.protocol, f.a, f.b, f.startTime, f.occurrence)
    && f.forwardPackets == |set i: nat | i < |seg| && seg[i].source == f.a|
    && f.backwardPackets == |set i: nat | i < |seg| && seg[i].source != f.a|
    && f.synCount == |set i: nat | i < |seg| && SYN in seg[i].flags|
    && f.ackCount == |set i: nat | i < |seg| && ACK in seg[i].flags|
    && f.finCount == |set i: nat | i < |seg| && FIN in seg[i].flags|
    && f.rstCount == |set i: nat | i < |seg| && RST in seg[i].flags|
    && (forall i: nat :: FirstBest(seg, i) ==> f.appProtocol == seg[i].appProtocol)
    && ((forall i :: 0 <= i < |seg| ==> seg[i].rank == 0) ==> f.appProtocol == "UNKNOWN")
    && (f.state.Some? <==> p.protocol == TCP)
  }

  lemma {:induction false} SidesCount(seg: Segment, occurrence: nat)
    ensures var f := FlowOfSegment(seg, occurrence);
            && f.forwardPackets == |set i: nat | i < |seg| && seg[i].source == f.a|
            && f.backwardPackets == |set i: nat | i < |seg| && seg[i].source != f.a|
  {
    var a := FlowOfSegment(seg, occurrence).a;
    CountIfCounts(seg, From(a));
    CountIfCounts(seg, NotFrom(a));
    assert Places(seg, From(a)) == set i: nat | i < |seg| && seg[i].source == a;
    assert Places(seg, NotFrom(a)) == set i: nat | i < |seg| && seg[i].source != a;
  }

  lemma {:induction false} FlagsCount(seg: Segment, flag: Flag)
    ensures CountIf(seg, Carries(flag)) == |set i: nat | i < |seg| && flag in seg[i].flags|
  {
    CountIfCounts(seg, Carries(flag));
    assert Places(seg, Carries(flag)) == set i: nat | i < |seg| && flag in seg[i].flags;
  }

  lemma {:induction false} PieceShows(seg: Segment, occurrence: nat)
    ensures Shows(FlowOfSegment(seg, occurrence), seg)
  {
    LatestIsGreatest(seg);
    OpeningSide(seg, occurrence);
    SidesCount(seg, occurrence);
    FlagsCount(seg, SYN);
    FlagsCount(seg, ACK);
    FlagsCount(seg, FIN);
    FlagsCount(seg, RST);
    forall i: nat | FirstBest(seg, i) ensures FlowOfSegment(seg, occurrence).appProtocol == seg[i].appProtocol {
      DetectIsFirstBest(seg, i);
    }
    if forall i :: 0 <= i < |seg| ==> seg[i].rank == 0 {
      DetectsNothing(seg);
    }
  }

  // In every run each written flow shows its own packets.
  lemma {:induction false} WrittenFlowsShowTheirPackets(cfg: Config, ps: seq<Observation>, protocol: Protocol, key: Key,
                                                        k: nat)
    requires cfg.Valid() && k < |OutAt(FlowTotals.AllExports(cfg, ps), protocol, key)|
    ensures k < |OwnSegments(cfg, ps, protocol, key)|
    ensures Shows(OutAt(FlowTotals.AllExports(cfg, ps), protocol, key)[k], OwnSegments(cfg, ps, protocol, key)[k])
  {
    WrittenFlowsAreSegments(cfg, ps, protocol, key);
    PieceShows(OwnSegments(cfg, ps, protocol, key)[k],
               OutAt(FlowTotals.AllExports(cfg, ps), protocol, key)[k].occurrence);
  }
}
