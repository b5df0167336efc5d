// In every run, in any packet order: each written flow counts its own packets, and each packet is in one flow.
module FlowAttribution {
  import opened Base
  import opened FlowModel
  import opened FlowSpec
  import opened FlowInvariant
  import opened FlowOffline
  import opened FlowRefinement
  import FlowTotals
  import TcpRuns

  // ---------- The packets of a pair, cut where it starts a flow ----------

  // A packet that starts a flow, given the packets before it.
  function Starting(cfg: Config): Cut
    requires cfg.Valid()
  {
    (ps: seq<Observation>, p: Observation) =>
      Update(cfg, Play(cfg, ps).state, p).state.created > Play(cfg, ps).state.created
  }

  function NextSegments(segs: seq<Segment>, p: Observation, own: bool, starts: bool): seq<Segment> {
    if !own then segs
    else if starts || segs == [] then segs + [[p]]
    else segs[..|segs| - 1] + [segs[|segs| - 1] + [p]]
  }

  function SegmentsBy(ps: seq<Observation>, protocol: Protocol, key: Key, starts: Cut): seq<Segment>
    decreases |ps|
  {
    if ps == [] then []
    else
      var before, p := ps[..|ps| - 1], ps[|ps| - 1];
      NextSegments(SegmentsBy(before, protocol, key, starts), p, protocol == p.protocol && key == KeyOf(p),
                   starts(before, p))
  }

  // The packets of one key, each piece from a packet that started a flow to the next such packet.
  function OwnSegments(cfg: Config, ps: seq<Observation>, protocol: Protocol, key: Key): seq<Segment>
    requires cfg.Valid()
  {
    SegmentsBy(ps, protocol, key, Starting(cfg))
  }

  lemma {:induction false} FlattenNext(segs: seq<Segment>, p: Observation, own: bool, starts: bool)
    ensures Flatten(NextSegments(segs, p, own, starts)) == Flatten(segs) + if own then [p] else []
  {
    var next := NextSegments(segs, p, own, starts);
    if own {
      assert next[..|next| - 1] == if starts || segs == [] then segs else segs[..|segs| - 1];
    }
  }

  // The pieces are the packets of the key: none is lost, repeated or moved.
  lemma {:induction false} SegmentsArePackets(ps: seq<Observation>, protocol: Protocol, key: Key, starts: Cut)
    ensures Flatten(SegmentsBy(ps, protocol, key, starts)) == Project(ps, protocol, key)
    decreases |ps|
  {
    if ps != [] {
      var before, p := ps[..|ps| - 1], ps[|ps| - 1];
      SegmentsArePackets(before, protocol, key, starts);
      FlattenNext(SegmentsBy(before, protocol, key, starts), p, protocol == p.protocol && key == KeyOf(p),
                  starts(before, p));
    }
  }

  // ---------- The flow of a piece ----------

  // The latest time in a piece, which need not be that of its last packet.
  function Latest(seg: Segment): real
    decreases |seg|
  {
    if |seg| == 1 then seg[0].timestamp else Max(Latest(seg[..|seg| - 1]), Last(seg).timestamp)
  }

  lemma {:induction false} LatestIsGreatest(seg: Segment)
    ensures forall i :: 0 <= i < |seg| ==> seg[i].timestamp <= Latest(seg)
    ensures exists i :: 0 <= i < |seg| && seg[i].timestamp == Latest(seg)
    decreases |seg|
  {
    if |seg| == 1 {
      assert seg[0].timestamp == Latest(seg);
    } else {
      var front: Segment := seg[..|seg| - 1];
      LatestIsGreatest(front);
      var i :| 0 <= i < |front| && front[i].timestamp == Latest(front);
      assert seg[if Latest(front) <= Last(seg).timestamp then |seg| - 1 else i].timestamp == Latest(seg);
      assert forall k :: 0 <= k < |front| ==> seg[k] == front[k];
    }
  }

  // The counters, the detection and the TCP state of the packets of a piece, from its first to its latest time.
  function FlowOfSegment(seg: Segment, occurrence: nat): Flow { SummaryOf(seg, occurrence).(lastSeen := Latest(seg)) }

  lemma {:induction false} SegmentStarts(p: Observation, occurrence: nat)
    ensures FlowOfSegment([p], occurrence) == SummaryOf([p], occurrence)
  {
  }

  // What joining counts does not depend on when the flow was last seen.
  lemma {:induction false} JoinedAtAnyTime(f: Flow, p: Observation, seen: real)
    ensures Joined(f.(lastSeen := seen), p) == Joined(f, p).(lastSeen := Max(seen, p.timestamp))
  {
  }

  lemma {:induction false} JoinedAtLast(f: Flow, p: Observation, time: real)
    ensures Joined(f, p.(timestamp := time)) == Joined(f, p).(lastSeen := Max(f.lastSeen, time))
  {
  }

  lemma {:induction false} LaterPacket(seg: Segment, p: Observation, time: real, occurrence: nat)
    ensures SummaryOf(seg + [p.(timestamp := time)], occurrence)
            == SummaryOf(seg + [p], occurrence).(lastSeen := time)
  {
    var q := p.(timestamp := time);
    var a := Initiator(seg[0]);
    CountSnoc(seg, p, From(a));
    CountSnoc(seg, q, From(a));
    CountSnoc(seg, p, NotFrom(a));
    CountSnoc(seg, q, NotFrom(a));
    CountSnoc(seg, p, Carries(SYN));
    CountSnoc(seg, q, Carries(SYN));
    CountSnoc(seg, p, Carries(ACK));
    CountSnoc(seg, q, Carries(ACK));
    CountSnoc(seg, p, Carries(FIN));
    CountSnoc(seg, q, Carries(FIN));
    CountSnoc(seg, p, Carries(RST));
    CountSnoc(seg, q, Carries(RST));
    DetectSnoc(seg, p);
    DetectSnoc(seg, q);
    RunSnoc(seg, p);
    RunSnoc(seg, q);
  }

  lemma {:induction false} LatestSnoc(seg: Segment, p: Observation)
    ensures Latest(seg + [p]) == Max(Latest(seg), p.timestamp)
  {
    assert (seg + [p])[..|seg + [p]| - 1] == seg;
  }

  // A joining packet, late or not, extends the flow of a piece by itself.
  lemma {:induction false} SegmentJoins(seg: Segment, occurrence: nat, p: Observation)
    requires p.protocol == seg[0].protocol
    ensures Joined(FlowOfSegment(seg, occurrence), p) == FlowOfSegment(seg + [p], occurrence)
  {
    var f, time := SummaryOf(seg, occurrence), Max(Last(seg).timestamp, p.timestamp);
    SummaryJoins(seg, occurrence, p.(timestamp := time));
    JoinedAtLast(f, p, time);
    LaterPacket(seg, p, time, occurrence);
    JoinedAtAnyTime(f, p, Latest(seg));
    LatestSnoc(seg, p);
  }

  // ---------- One update, in any order ----------

  // What leaves a key and what it holds afterwards: another key's packet moves its flow at most, and its own packet
  // either starts a flow, when all others have left, or joins the one it holds.
  ghost predicate Moves(live: seq<Flow>, gone: seq<Flow>, next: seq<Flow>, p: Observation, own: bool, starts: bool) {
    if !own then gone + next == live
    else if starts then gone == live && |next| == 1 && next[0] == SummaryOf([p], next[0].occurrence)
    else live != [] && gone == [] && next == [Joined(live[0], p)]
  }

  lemma {:induction false} TableParts(t: Table, n: nat, key: Key)
    requires n <= |t| && DistinctKeys(t)
    ensures LiveIn(t[..n], key) + LiveIn(t[n..], key) == LiveIn(t, key)
  {
    TablePrefix(t, n, key);
  }

  // Whatever expiry takes from a key, the key does not hold afterwards.
  lemma {:induction false} ExpiryMoves(cfg: Config, s: State, now: real, protocol: Protocol, key: Key)
    requires Consistent(s)
    ensures OutAt(Exported(ExpiredEntries(cfg, s, now), IdleTimeout), protocol, key)
            + LiveAt(AfterExpiry(cfg, s, now), protocol, key)
            == LiveAt(s, protocol, key)
  {
    ExportedFront(cfg, s, now, protocol, key);
    TableParts(s.Of(protocol), IdlePrefix(s.Of(protocol), now, cfg.Timeout(protocol)), key);
  }

  lemma {:induction false} RoomCreatesNothing(cfg: Config, s: State)
    requires cfg.Valid()
    ensures MakeRoom(cfg, s).state.created == s.created
  {
  }

  // A placed packet starts a flow exactly when its key holds none, or one that it restarts.
  lemma {:induction false} PlaceStarts(cfg: Config, s: State, p: Observation, late: bool)
    requires cfg.Valid()
    ensures var live := LiveAt(s, p.protocol, KeyOf(p));
            Place(cfg, s, p, late).state.created
            == s.created + One(live == [] || Restarts(live[0], p))
  {
    var table := s.Of(p.protocol);
    var i := Find(table, KeyOf(p));
    RoomCreatesNothing(cfg, s);
    if i < |table| {
      StripJoined(table[i].flow, p);
      RoomCreatesNothing(cfg, s.With(p.protocol, RemoveAt(table, i)));
    }
  }

  lemma {:induction false} LiveNextStarts(live: seq<Flow>, p: Observation)
    requires live == [] || Restarts(live[0], p)
    ensures LiveNext(live, p) == SummaryOf([p], LiveNext(live, p).occurrence)
  {
    var replaced := if live == [] then None else Some(live[0]);
    SummaryStarts(p, replaced);
    assert LiveNext(live, p) == Strip(Started(p, replaced, 0)) == Started(p, replaced, 0);
  }

  // Placement from the live flow that expiry left.
  lemma {:induction false} PlacementMoves(r: Placed, s: State, p: Observation, protocol: Protocol, key: Key)
    requires PlacedAt(r, s, p, protocol, key)
    ensures var left, own := LiveAt(s, protocol, key), protocol == p.protocol && key == KeyOf(p);
            Moves(left, OutAt(r.exported, protocol, key), LiveAt(r.state, protocol, key), p, own,
                  left == [] || Restarts(left[0], p))
  {
    var left := LiveAt(s, protocol, key);
    if left == [] || Restarts(left[0], p) {
      LiveNextStarts(left, p);
    }
  }

  lemma {:induction false} MovesAfterExpiry(
    live: seq<Flow>, idle: seq<Flow>, left: seq<Flow>, gone: seq<Flow>, next: seq<Flow>, p: Observation, own: bool,
    starts: bool)
    requires idle + left == live && |live| <= 1 && Moves(left, gone, next, p, own, starts)
    ensures Moves(live, idle + gone, next, p, own, starts)
  {
    if !own {
      assert idle + gone + next == idle + (gone + next);
    } else if left != [] {
      assert idle == [] && left == live;
    }
  }

  // One update of any state, seen from one key.
  lemma {:induction false} UpdateMoves(cfg: Config, s: State, p: Observation, protocol: Protocol, key: Key)
    requires cfg.Valid() && Consistent(s) && s.Size() <= cfg.maxFlows
    ensures var r, own := Update(cfg, s, p), protocol == p.protocol && key == KeyOf(p);
            Moves(LiveAt(s, protocol, key), OutAt(r.exported, protocol, key), LiveAt(r.state, protocol, key), p, own,
                  r.state.created > s.created)
  {
    var now, late, own := Clock(s.now, p.timestamp), Late(s.now, p), protocol == p.protocol && key == KeyOf(p);
    var expired := AfterExpiry(cfg, s, now);
    var idle, placed := Exported(ExpiredEntries(cfg, s, now), IdleTimeout), Place(cfg, expired, p, late);
    var left := LiveAt(expired, protocol, key);
    UpdateParts(cfg, s, p, protocol, key);
    ExpiryMoves(cfg, s, now, protocol, key);
    PlaceAt(cfg, expired, p, late, protocol, key);
    PlacementMoves(placed, expired, p, protocol, key);
    PlaceStarts(cfg, expired, p, late);
    MovesAfterExpiry(LiveAt(s, protocol, key), OutAt(idle, protocol, key), left, OutAt(placed.exported, protocol, key),
                     LiveAt(placed.state, protocol, key), p, own, left == [] || Restarts(left[0], p));
    OutAtConcat(idle, placed.exported, protocol, key);
  }

  // ---------- Whole runs ----------

  // Each flow is that of the piece at its place.
  ghost predicate Attributed(flows: seq<Flow>, segs: seq<Segment>, protocol: Protocol) {
    && |flows| == |segs|
    && forall k :: 0 <= k < |flows| ==>
         segs[k][0].protocol == protocol && flows[k] == FlowOfSegment(segs[k], flows[k].occurrence)
  }

  lemma {:induction false} OneMoreAttributed(flows: seq<Flow>, segs: seq<Segment>, p: Observation, f: Flow)
    requires Attributed(flows, segs, p.protocol) && f == SummaryOf([p], f.occurrence)
    ensures Attributed(flows + [f], segs + [[p]], p.protocol)
  {
    SegmentStarts(p, f.occurrence);
  }

  lemma {:induction false} LastAttributed(flows: seq<Flow>, segs: seq<Segment>, p: Observation)
    requires Attributed(flows, segs, p.protocol) && flows != []
    ensures Attributed(flows[..|flows| - 1] + [Joined(flows[|flows| - 1], p)],
                       segs[..|segs| - 1] + [segs[|segs| - 1] + [p]], p.protocol)
  {
    var n := |flows| - 1;
    var f := flows[n];
    SegmentJoins(segs[n], f.occurrence, p);
    assert Joined(f, p).occurrence == f.occurrence;
  }

  lemma {:induction false} WithoutLast(out: seq<Flow>, live: seq<Flow>)
    requires |live| == 1
    ensures out + live != [] && (out + live)[..|out + live| - 1] == out && (out + live)[|out + live| - 1] == live[0]
  {
  }

  lemma {:induction false} LiveAttributed(out: seq<Flow>, live: seq<Flow>, segs: seq<Segment>, p: Observation)
    requires Attributed(out + live, segs, p.protocol) && |live| == 1
    ensures segs != []
    ensures Attributed(out + [Joined(live[0], p)], segs[..|segs| - 1] + [segs[|segs| - 1] + [p]], p.protocol)
  {
    WithoutLast(out, live);
    LastAttributed(out + live, segs, p);
  }

  lemma {:induction false} AttributedNext(
    out: seq<Flow>, live: seq<Flow>, gone: seq<Flow>, next: seq<Flow>, segs: seq<Segment>, p: Observation,
    protocol: Protocol, own: bool, starts: bool)
    requires Attributed(out + live, segs, protocol) && |live| <= 1 && Moves(live, gone, next, p, own, starts)
    requires own ==> protocol == p.protocol
    ensures Attributed(out + gone + next, NextSegments(segs, p, own, starts), protocol)
  {
    if !own {
      ConcatAssociates(out, gone, next);
    } else if starts {
      OneMoreAttributed(out + live, segs, p, next[0]);
      assert next == [next[0]];
    } else {
      LiveAttributed(out, live, segs, p);
      assert out + [] == out;
    }
  }

  // The flows of a key that have left and then the one it holds.
  function FlowsSoFar(t: Trace, protocol: Protocol, key: Key): seq<Flow> {
    OutAt(t.exported, protocol, key) + LiveAt(t.state, protocol, key)
  }

  lemma {:induction false} RunMoves(cfg: Config, ps: seq<Observation>, protocol: Protocol, key: Key)
    requires cfg.Valid() && ps != []
    ensures var t, after, p := Play(cfg, ps[..|ps| - 1]), Play(cfg, ps), ps[|ps| - 1];
            exists gone ::
              && OutAt(after.exported, protocol, key) == OutAt(t.exported, protocol, key) + gone
              && Moves(LiveAt(t.state, protocol, key), gone, LiveAt(after.state, protocol, key), p,
                       protocol == p.protocol && key == KeyOf(p), Starting(cfg)(ps[..|ps| - 1], p))
  {
    var t, p := Play(cfg, ps[..|ps| - 1]), ps[|ps| - 1];
    PlayKeeps(cfg, ps[..|ps| - 1]);
    UpdateMoves(cfg, t.state, p, protocol, key);
    OutAtConcat(t.exported, Update(cfg, t.state, p).exported, protocol, key);
  }

  // After every packet of every run, the flows of a key are those of its pieces.
  lemma {:induction false} RunIsAttributed(cfg: Config, ps: seq<Observation>, protocol: Protocol, key: Key)
    requires cfg.Valid()
    ensures Attributed(FlowsSoFar(Play(cfg, ps), protocol, key), OwnSegments(cfg, ps, protocol, key), protocol)
    decreases |ps|
  {
    if ps != [] {
      var before, p := ps[..|ps| - 1], ps[|ps| - 1];
      var t, after := Play(cfg, before), Play(cfg, ps);
      RunIsAttributed(cfg, before, protocol, key);
      RunMoves(cfg, ps, protocol, key);
      var own, starts := protocol == p.protocol && key == KeyOf(p), Starting(cfg)(before, p);
      var gone :|
        && OutAt(after.exported, protocol, key) == OutAt(t.exported, protocol, key) + gone
        && Moves(LiveAt(t.state, protocol, key), gone, LiveAt(after.state, protocol, key), p, own, starts);
      AttributedNext(OutAt(t.exported, protocol, key), LiveAt(t.state, protocol, key), gone,
                     LiveAt(after.state, protocol, key), OwnSegments(cfg, before, protocol, key), p, protocol, own,
                     starts);
    }
  }

  // The flow of the last piece, and the protocol of its packets.
  ghost predicate IsLastPiece(live: seq<Flow>, segs: seq<Segment>, protocol: Protocol) {
    live != [] ==>
      && segs != [] && segs[|segs| - 1][0].protocol == protocol
      && live[0] == FlowOfSegment(segs[|segs| - 1], live[0].occurrence)
  }

  lemma {:induction false} LastPieceIsLive(out: seq<Flow>, live: seq<Flow>, segs: seq<Segment>, protocol: Protocol)
    requires Attributed(out + live, segs, protocol) && |live| <= 1
    ensures IsLastPiece(live, segs, protocol)
  {
    if live != [] {
      WithoutLast(out, live);
    }
  }

  lemma {:induction false} LiveIsLastPiece(cfg: Config, ps: seq<Observation>, protocol: Protocol, key: Key)
    requires cfg.Valid()
    ensures IsLastPiece(LiveAt(Play(cfg, ps).state, protocol, key), OwnSegments(cfg, ps, protocol, key), protocol)
  {
    var t := Play(cfg, ps);
    RunIsAttributed(cfg, ps, protocol, key);
    LastPieceIsLive(OutAt(t.exported, protocol, key), LiveAt(t.state, protocol, key),
                    OwnSegments(cfg, ps, protocol, key), protocol);
  }

  lemma {:induction false} PieceRestarts(seg: Segment, occurrence: nat, p: Observation)
    requires seg[0].protocol == p.protocol
    ensures Restarts(FlowOfSegment(seg, occurrence), p) <==> NewConnectionAfter(seg, p)
  {
    RestartsMatch(seg, occurrence, p);
  }

  lemma {:induction false} LiveRestarts(live: seq<Flow>, segs: seq<Segment>, p: Observation)
    requires live != [] && IsLastPiece(live, segs, p.protocol)
    ensures segs != [] && (Restarts(live[0], p) <==> NewConnectionAfter(segs[|segs| - 1], p))
  {
    PieceRestarts(segs[|segs| - 1], live[0].occurrence, p);
  }

  lemma {:induction false} LeftIsLive(cfg: Config, s: State, now: real, protocol: Protocol, key: Key)
    requires Consistent(s)
    ensures var left := LiveAt(AfterExpiry(cfg, s, now), protocol, key);
            left == [] || left == LiveAt(s, protocol, key)
  {
    ExpiryMoves(cfg, s, now, protocol, key);
  }

  lemma {:induction false} UpdateStarts(cfg: Config, s: State, p: Observation)
    requires cfg.Valid() && Consistent(s)
    ensures var live := LiveAt(s, p.protocol, KeyOf(p));
            var left := LiveAt(AfterExpiry(cfg, s, Clock(s.now, p.timestamp)), p.protocol, KeyOf(p));
            && (left != [] ==> left == live)
            && (Update(cfg, s, p).state.created > s.created <==> left == [] || Restarts(left[0], p))
  {
    var now := Clock(s.now, p.timestamp);
    PlaceStarts(cfg, AfterExpiry(cfg, s, now), p, Late(s.now, p));
    LeftIsLive(cfg, s, now, p.protocol, KeyOf(p));
  }

  lemma {:induction false} StartsFrom(starts: bool, live: seq<Flow>, left: seq<Flow>, segs: seq<Segment>,
                                      p: Observation)
    requires (left != [] ==> left == live) && IsLastPiece(live, segs, p.protocol)
    requires starts <==> left == [] || Restarts(left[0], p)
    ensures starts <==> left == [] || (segs != [] && NewConnectionAfter(segs[|segs| - 1], p))
  {
    if left != [] {
      LiveRestarts(live, segs, p);
    }
  }

  // A packet starts a flow exactly when its pair has none left after expiry, or when it is a SYN without ACK and a
  // packet of the pair's last piece carried FIN or RST without SYN.
  lemma {:induction false} StartsExactlyWhen(cfg: Config, ps: seq<Observation>, p: Observation)
    requires cfg.Valid()
    ensures var s := Play(cfg, ps).state;
            var left := LiveAt(AfterExpiry(cfg, s, Clock(s.now, p.timestamp)), p.protocol, KeyOf(p));
            var segs := OwnSegments(cfg, ps, p.protocol, KeyOf(p));
            Starting(cfg)(ps, p) <==> left == [] || (segs != [] && NewConnectionAfter(segs[|segs| - 1], p))
  {
    var s := Play(cfg, ps).state;
    var left := LiveAt(AfterExpiry(cfg, s, Clock(s.now, p.timestamp)), p.protocol, KeyOf(p));
    PlayKeeps(cfg, ps);
    UpdateStarts(cfg, s, p);
    LiveIsLastPiece(cfg, ps, p.protocol, KeyOf(p));
    StartsFrom(Starting(cfg)(ps, p), LiveAt(s, p.protocol, KeyOf(p)), left, OwnSegments(cfg, ps, p.protocol, KeyOf(p)),
               p);
  }

  // In every run, in any order and with any evictions, the packets of a pair are cut where they start a flow, and the
  // flows written for the pair are those of the pieces, one each and in order.
  lemma {:induction false} WrittenFlowsAreSegments(cfg: Config, ps: seq<Observation>, protocol: Protocol, key: Key)
    requires cfg.Valid()
    ensures var flows := OutAt(FlowTotals.AllExports(cfg, ps), protocol, key);
            var segs := OwnSegments(cfg, ps, protocol, key);
            && Flatten(segs) == Project(ps, protocol, key) && |flows| == |segs|
            && forall k :: 0 <= k < |flows| ==> flows[k] == FlowOfSegment(segs[k], flows[k].occurrence)
  {
    PlayKeeps(cfg, ps);
    AllAt(Play(cfg, ps), protocol, key);
    RunIsAttributed(cfg, ps, protocol, key);
    SegmentsArePackets(ps, protocol, key, Starting(cfg));
  }

  // A written TCP flow is CLOSED exactly when its own packets show FIN, FIN of the other side, ACK, and no earlier RST,
  // in every run.
  lemma {:induction false} WrittenCloseIsAlwaysReal(cfg: Config, ps: seq<Observation>, key: Key, k: nat)
    requires cfg.Valid() && k < |OutAt(FlowTotals.AllExports(cfg, ps), TCP, key)|
    ensures k < |OwnSegments(cfg, ps, TCP, key)|
    ensures OutAt(FlowTotals.AllExports(cfg, ps), TCP, key)[k].state == Some(CLOSED)
            <==> TcpRuns.Closes(TcpPackets(OwnSegments(cfg, ps, TCP, key)[k]))
  {
    PlayKeeps(cfg, ps);
    AllAt(Play(cfg, ps), TCP, key);
    RunIsAttributed(cfg, ps, TCP, key);
    TcpRuns.ClosedExactlyWhen(TcpPackets(OwnSegments(cfg, ps, TCP, key)[k]));
  }
}
