// When the flow limit evicts, told from the packets: never while their endpoint pairs fit into the tables.
module FlowCapacity {
  import opened Base
  import opened FlowModel
  import opened FlowSpec
  import opened FlowInvariant

  ghost predicate NoEviction(xs: seq<Export>) { forall x :: x in xs ==> x.reason != Evicted }

  // The guard of eviction: after expiry the packet finds no flow, and the tables are full.
  ghost predicate Overflows(cfg: Config, s: State, p: Observation) {
    var t := AfterExpiry(cfg, s, Clock(s.now, p.timestamp));
    !ReusesOrJoins(t, p) && t.Size() == cfg.maxFlows
  }

  lemma {:induction false} RoomExports(cfg: Config, s: State)
    requires cfg.Valid() && s.Size() <= cfg.maxFlows
    ensures s.Size() < cfg.maxFlows ==> MakeRoom(cfg, s).exported == []
    ensures s.Size() == cfg.maxFlows ==>
              |MakeRoom(cfg, s).exported| == 1 && MakeRoom(cfg, s).exported[0].reason == Evicted
  {
  }

  lemma {:induction false} PlacedWithoutFlow(cfg: Config, s: State, p: Observation, late: bool)
    requires cfg.Valid() && !ReusesOrJoins(s, p)
    ensures Place(cfg, s, p, late).exported == MakeRoom(cfg, s).exported
  {
  }

  lemma {:induction false} CalmConcat(xs: seq<Export>, ys: seq<Export>)
    ensures NoEviction(xs + ys) <==> NoEviction(xs) && NoEviction(ys)
  {
    assert forall x :: x in xs + ys <==> x in xs || x in ys;
  }

  lemma {:induction false} PlacedCalm(cfg: Config, s: State, p: Observation, late: bool)
    requires cfg.Valid() && Consistent(s) && s.Size() <= cfg.maxFlows && s.now.Some? && p.timestamp <= s.now.value
    ensures !NoEviction(Place(cfg, s, p, late).exported) <==> !ReusesOrJoins(s, p) && s.Size() == cfg.maxFlows
  {
    var placed := Place(cfg, s, p, late).exported;
    if ReusesOrJoins(s, p) {
      PlaceKeeps(cfg, s, p, late);
    } else {
      PlacedWithoutFlow(cfg, s, p, late);
      RoomExports(cfg, s);
      assert s.Size() == cfg.maxFlows ==> placed[0] in placed;
    }
  }

  // An update evicts exactly when its guard holds.
  lemma {:induction false} EvictsExactlyWhenFull(cfg: Config, s: State, p: Observation)
    requires cfg.Valid() && Consistent(s) && s.Size() <= cfg.maxFlows
    ensures !NoEviction(Update(cfg, s, p).exported) <==> Overflows(cfg, s, p)
  {
    var now, late := Clock(s.now, p.timestamp), Late(s.now, p);
    AfterExpiryKeeps(cfg, s, now);
    PlacedCalm(cfg, AfterExpiry(cfg, s, now), p, late);
    CalmConcat(Exported(ExpiredEntries(cfg, s, now), IdleTimeout),
               Place(cfg, AfterExpiry(cfg, s, now), p, late).exported);
  }

  // ---------- Whole runs ----------

  lemma {:induction false} PlayNext(cfg: Config, ps: seq<Observation>, p: Observation)
    requires cfg.Valid()
    ensures Play(cfg, ps + [p]).state == Update(cfg, Play(cfg, ps).state, p).state
    ensures Play(cfg, ps + [p]).exported == Play(cfg, ps).exported + Update(cfg, Play(cfg, ps).state, p).exported
  {
    assert (ps + [p])[..|ps|] == ps;
  }

  // A run stays calm for one more packet exactly when the packet does not overflow the tables.
  ghost predicate CalmStep(
    calm: seq<Observation> -> bool, over: (seq<Observation>, Observation) -> bool, ps: seq<Observation>, p: Observation)
  {
    calm(ps + [p]) <==> calm(ps) && !over(ps, p)
  }

  lemma {:induction false} CalmRuns(
    calm: seq<Observation> -> bool, over: (seq<Observation>, Observation) -> bool, ps: seq<Observation>)
    requires calm([]) && forall qs, q :: CalmStep(calm, over, qs, q)
    ensures calm(ps) <==> forall k :: 0 <= k < |ps| ==> !over(ps[..k], ps[k])
    decreases |ps|
  {
    if ps != [] {
      var n := |ps| - 1;
      var before := ps[..n];
      CalmRuns(calm, over, before);
      assert ps == before + [ps[n]];
      assert CalmStep(calm, over, before, ps[n]);
      assert forall k :: 0 <= k < n ==> before[..k] == ps[..k] && before[k] == ps[k];
    }
  }

  lemma {:induction false} CalmNext(cfg: Config, ps: seq<Observation>, p: Observation)
    requires cfg.Valid()
    ensures NoEviction(Play(cfg, ps + [p]).exported) <==>
              NoEviction(Play(cfg, ps).exported) && !Overflows(cfg, Play(cfg, ps).state, p)
  {
    var s := Play(cfg, ps).state;
    PlayNext(cfg, ps, p);
    PlayKeeps(cfg, ps);
    EvictsExactlyWhenFull(cfg, s, p);
    CalmConcat(Play(cfg, ps).exported, Update(cfg, s, p).exported);
  }

  // A run evicts nothing exactly when no packet of it meets the guard.
  lemma {:induction false} RunEvictsNothingExactly(cfg: Config, ps: seq<Observation>)
    requires cfg.Valid()
    ensures NoEviction(Play(cfg, ps).exported) <==>
              forall k :: 0 <= k < |ps| ==> !Overflows(cfg, Play(cfg, ps[..k]).state, ps[k])
  {
    var calm := (qs: seq<Observation>) => NoEviction(Play(cfg, qs).exported);
    var over := (qs: seq<Observation>, q: Observation) => Overflows(cfg, Play(cfg, qs).state, q);
    forall qs, q ensures CalmStep(calm, over, qs, q) {
      CalmNext(cfg, qs, q);
    }
    CalmRuns(calm, over, ps);
    assert forall k :: 0 <= k < |ps| ==> over(ps[..k], ps[k]) == Overflows(cfg, Play(cfg, ps[..k]).state, ps[k]);
  }

  // ---------- The endpoint pairs of a run ----------

  type Pair = (Protocol, Key)

  function PairOf(p: Observation): Pair { (p.protocol, KeyOf(p)) }

  function Pairs(ps: seq<Observation>): set<Pair> { set p | p in ps :: PairOf(p) }

  function KeysIn(t: Table, protocol: Protocol): set<Pair> { set e | e in t :: (protocol, e.key) }

  function Held(s: State): set<Pair> { KeysIn(s.tcp, TCP) + KeysIn(s.udp, UDP) }

  lemma {:induction false} KeysCount(t: Table, protocol: Protocol)
    requires DistinctKeys(t)
    ensures |KeysIn(t, protocol)| == |t|
  {
    if t != [] {
      var front, last := t[..|t| - 1], t[|t| - 1];
      KeysCount(front, protocol);
      assert t == front + [last];
      assert KeysIn(t, protocol) == KeysIn(front, protocol) + {(protocol, last.key)};
      assert forall i :: 0 <= i < |front| ==> front[i].key != last.key;
    } else {
      assert KeysIn(t, protocol) == {};
    }
  }

  lemma {:induction false} HeldCount(s: State)
    requires Consistent(s)
    ensures |Held(s)| == s.Size()
  {
    KeysCount(s.tcp, TCP);
    KeysCount(s.udp, UDP);
    assert KeysIn(s.tcp, TCP) !! KeysIn(s.udp, UDP);
  }

  lemma {:induction false} RemovedKeys(t: Table, i: nat, protocol: Protocol)
    requires i < |t|
    ensures KeysIn(RemoveAt(t, i), protocol) <= KeysIn(t, protocol)
  {
  }

  lemma {:induction false} SnocKeys(t: Table, e: Entry, protocol: Protocol)
    ensures KeysIn(t + [e], protocol) == KeysIn(t, protocol) + {(protocol, e.key)}
  {
    assert forall x :: x in t + [e] <==> x in t || x == e;
  }

  lemma {:induction false} ExpiryHolds(cfg: Config, s: State, now: real)
    ensures Held(AfterExpiry(cfg, s, now)) <= Held(s)
  {
  }

  lemma {:induction false} OpenHolds(cfg: Config, s: State, p: Observation, replaced: Option<Flow>)
    requires cfg.Valid()
    ensures Held(Open(cfg, s, p, replaced).state) <= Held(s) + {PairOf(p)}
  {
    var room := MakeRoom(cfg, s).state;
    assert Held(room) <= Held(s);
    SnocKeys(room.Of(p.protocol), Entry(KeyOf(p), Started(p, replaced, s.created + 1)), p.protocol);
  }

  lemma {:induction false} JoinHolds(s: State, p: Observation, i: nat, late: bool)
    requires i < |s.Of(p.protocol)|
    ensures Held(Join(s, p, i, late)) <= Held(s)
  {
    var table := s.Of(p.protocol);
    var e := table[i].(flow := Joined(table[i].flow, p));
    RemovedKeys(table, i, p.protocol);
    SnocKeys(RemoveAt(table, i), e, p.protocol);
    assert (p.protocol, e.key) in KeysIn(table, p.protocol) by {
      assert table[i] in table;
    }
    forall x | x in table[i := e] ensures (p.protocol, x.key) in KeysIn(table, p.protocol) {
      assert x == e || x in table;
    }
  }

  lemma {:induction false} PlaceHolds(cfg: Config, s: State, p: Observation, late: bool)
    requires cfg.Valid()
    ensures Held(Place(cfg, s, p, late).state) <= Held(s) + {PairOf(p)}
  {
    var table := s.Of(p.protocol);
    var i := Find(table, KeyOf(p));
    if i == |table| {
      OpenHolds(cfg, s, p, None);
    } else if Restarts(table[i].flow, p) {
      RemovedKeys(table, i, p.protocol);
      OpenHolds(cfg, s.With(p.protocol, RemoveAt(table, i)), p, Some(table[i].flow));
    } else {
      JoinHolds(s, p, i, late);
    }
  }

  lemma {:induction false} UpdateHolds(cfg: Config, s: State, p: Observation)
    requires cfg.Valid()
    ensures Held(Update(cfg, s, p).state) <= Held(s) + {PairOf(p)}
  {
    var now := Clock(s.now, p.timestamp);
    ExpiryHolds(cfg, s, now);
    PlaceHolds(cfg, AfterExpiry(cfg, s, now), p, Late(s.now, p));
  }

  ghost predicate HoldsMore(held: seq<Observation> -> set<Pair>, ps: seq<Observation>, p: Observation) {
    held(ps + [p]) <= held(ps) + {PairOf(p)}
  }

  lemma {:induction false} HeldRuns(held: seq<Observation> -> set<Pair>, ps: seq<Observation>)
    requires held([]) == {} && forall qs, q :: HoldsMore(held, qs, q)
    ensures held(ps) <= Pairs(ps)
    decreases |ps|
  {
    if ps != [] {
      var before, p := ps[..|ps| - 1], ps[|ps| - 1];
      HeldRuns(held, before);
      assert ps == before + [p];
      assert HoldsMore(held, before, p);
      assert forall q :: q in before ==> q in ps;
    }
  }

  // The tables hold only pairs that sent a packet.
  lemma {:induction false} PlayHolds(cfg: Config, ps: seq<Observation>)
    requires cfg.Valid()
    ensures Held(Play(cfg, ps).state) <= Pairs(ps)
  {
    var held := (qs: seq<Observation>) => Held(Play(cfg, qs).state);
    forall qs, q ensures HoldsMore(held, qs, q) {
      PlayNext(cfg, qs, q);
      UpdateHolds(cfg, Play(cfg, qs).state, q);
    }
    assert held([]) == {};
    HeldRuns(held, ps);
  }

  // A packet that overflows the tables brings one pair more than the limit.
  lemma {:induction false} OverflowNeedsPairs(cfg: Config, s: State, p: Observation, pairs: set<Pair>)
    requires Consistent(s) && Held(s) <= pairs && PairOf(p) in pairs && Overflows(cfg, s, p)
    ensures |pairs| > cfg.maxFlows
  {
    var now := Clock(s.now, p.timestamp);
    var t := AfterExpiry(cfg, s, now);
    AfterExpiryKeeps(cfg, s, now);
    ExpiryHolds(cfg, s, now);
    HeldCount(t);
    NotHeld(t, p);
    SubsetCount(Held(t) + {PairOf(p)}, pairs);
  }

  lemma {:induction false} NotHeld(s: State, p: Observation)
    requires !ReusesOrJoins(s, p)
    ensures PairOf(p) !in Held(s)
  {
    var table := s.Of(p.protocol);
    assert forall e :: e in table ==> e.key != KeyOf(p);
  }

  lemma {:induction false} PrefixPairs(ps: seq<Observation>, k: nat)
    requires k < |ps|
    ensures Pairs(ps[..k]) <= Pairs(ps) && PairOf(ps[k]) in Pairs(ps)
  {
    assert forall p :: p in ps[..k] ==> p in ps;
    assert ps[k] in ps;
  }

  // A run whose endpoint pairs are at most as many as the tables may hold evicts nothing, in whatever order it comes.
  lemma {:induction false} FewPairsEvictNothing(cfg: Config, ps: seq<Observation>)
    requires cfg.Valid() && |Pairs(ps)| <= cfg.maxFlows
    ensures NoEviction(Play(cfg, ps).exported)
  {
    RunEvictsNothingExactly(cfg, ps);
    forall k | 0 <= k < |ps| ensures !Overflows(cfg, Play(cfg, ps[..k]).state, ps[k]) {
      PlayKeeps(cfg, ps[..k]);
      PlayHolds(cfg, ps[..k]);
      PrefixPairs(ps, k);
      if Overflows(cfg, Play(cfg, ps[..k]).state, ps[k]) {
        OverflowNeedsPairs(cfg, Play(cfg, ps[..k]).state, ps[k], Pairs(ps));
      }
    }
  }
}
