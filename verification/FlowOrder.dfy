// When the tables are least-recently-used queues, so that reading only the front is exact.
module FlowOrder {
  import opened Base
  import opened FlowModel
  import opened FlowSpec
  import opened FlowInvariant

  ghost predicate Sorted(t: Table) {
    forall i, j :: 0 <= i < j < |t| ==> t[i].flow.lastSeen <= t[j].flow.lastSeen
  }

  ghost predicate SortedState(s: State) { Sorted(s.tcp) && Sorted(s.udp) }

  ghost predicate InOrder(ps: seq<Observation>) {
    forall i, j :: 0 <= i < j < |ps| ==> ps[i].timestamp <= ps[j].timestamp
  }

  // ---------- When one update keeps the order ----------

  lemma {:induction false} SortedSnoc(t: Table, e: Entry)
    requires Sorted(t)
    ensures Sorted(t + [e]) <==> t == [] || t[|t| - 1].flow.lastSeen <= e.flow.lastSeen
  {
    assert (t + [e])[|t|] == e;
    if t != [] {
      assert (t + [e])[|t| - 1] == t[|t| - 1];
    }
  }

  lemma {:induction false} SortedReplace(t: Table, i: nat, e: Entry)
    requires Sorted(t) && i < |t| && t[i].flow.lastSeen <= e.flow.lastSeen
    ensures Sorted(t[i := e]) <==> i + 1 == |t| || e.flow.lastSeen <= t[i + 1].flow.lastSeen
  {
    if i + 1 < |t| {
      assert t[i := e][i] == e && t[i := e][i + 1] == t[i + 1];
    }
  }

  lemma {:induction false} SortedRemove(t: Table, i: nat)
    requires Sorted(t) && i < |t|
    ensures Sorted(RemoveAt(t, i))
  {
  }

  lemma {:induction false} ExpiryKeepsOrder(cfg: Config, s: State, now: real)
    requires SortedState(s)
    ensures SortedState(AfterExpiry(cfg, s, now))
  {
  }

  lemma {:induction false} RoomKeepsOrder(cfg: Config, s: State)
    requires cfg.Valid() && SortedState(s)
    ensures SortedState(MakeRoom(cfg, s).state)
  {
  }

  // The flows that a flow will stand behind when this packet starts it.
  function Behind(cfg: Config, s: State, p: Observation): Table
    requires cfg.Valid()
  {
    var table := s.Of(p.protocol);
    var i := Find(table, KeyOf(p));
    var without := if i == |table| then s else s.With(p.protocol, RemoveAt(table, i));
    MakeRoom(cfg, without).state.Of(p.protocol)
  }

  // The packet leaves its flow where the flow belongs: a joined flow moves to the end or is not newer than the next
  // one, and a started flow is not older than the one before it.
  ghost predicate FitsInPlace(cfg: Config, s: State, p: Observation, late: bool)
    requires cfg.Valid()
  {
    var table := s.Of(p.protocol);
    var i := Find(table, KeyOf(p));
    if i < |table| && !Restarts(table[i].flow, p) then
      !late || i + 1 == |table| || p.timestamp <= table[i + 1].flow.lastSeen
    else
      var behind := Behind(cfg, s, p);
      behind == [] || behind[|behind| - 1].flow.lastSeen <= p.timestamp
  }

  lemma {:induction false} OpenOrder(cfg: Config, s: State, p: Observation, replaced: Option<Flow>)
    requires cfg.Valid() && SortedState(s)
    ensures var behind := MakeRoom(cfg, s).state.Of(p.protocol);
            SortedState(Open(cfg, s, p, replaced).state) <==>
              behind == [] || behind[|behind| - 1].flow.lastSeen <= p.timestamp
  {
    var room, f := MakeRoom(cfg, s).state, Started(p, replaced, s.created + 1);
    RoomKeepsOrder(cfg, s);
    SortedSnoc(room.Of(p.protocol), Entry(KeyOf(p), f));
    assert f.lastSeen == p.timestamp;
    assert Open(cfg, s, p, replaced).state == Append(room, p, f);
  }

  lemma {:induction false} JoinOrder(s: State, p: Observation, i: nat, late: bool)
    requires Consistent(s) && SortedState(s) && i < |s.Of(p.protocol)|
    requires s.now.Some? && p.timestamp <= s.now.value && (!late ==> s.now == Some(p.timestamp))
    ensures var table := s.Of(p.protocol);
            SortedState(Join(s, p, i, late)) <==> !late || i + 1 == |table| || p.timestamp <= table[i + 1].flow.lastSeen
  {
    var table := s.Of(p.protocol);
    var e := table[i].(flow := Joined(table[i].flow, p));
    assert e.flow.lastSeen == Max(table[i].flow.lastSeen, p.timestamp);
    if late {
      SortedReplace(table, i, e);
    } else {
      SortedRemove(table, i);
      SortedSnoc(RemoveAt(table, i), e);
      assert forall j :: 0 <= j < |table| ==> table[j].flow.lastSeen <= s.now.value;
    }
  }

  lemma {:induction false} StartOrder(cfg: Config, s: State, p: Observation, late: bool)
    requires cfg.Valid() && SortedState(s)
    requires var table := s.Of(p.protocol);
             var i := Find(table, KeyOf(p));
             i == |table| || Restarts(table[i].flow, p)
    ensures var behind := Behind(cfg, s, p);
            SortedState(Place(cfg, s, p, late).state) <==>
              behind == [] || behind[|behind| - 1].flow.lastSeen <= p.timestamp
  {
    var table := s.Of(p.protocol);
    var i := Find(table, KeyOf(p));
    if i == |table| {
      OpenOrder(cfg, s, p, None);
    } else {
      SortedRemove(table, i);
      OpenOrder(cfg, s.With(p.protocol, RemoveAt(table, i)), p, Some(table[i].flow));
    }
  }

  lemma {:induction false} PlaceOrder(cfg: Config, s: State, p: Observation, late: bool)
    requires cfg.Valid() && Consistent(s) && SortedState(s)
    requires s.now.Some? && p.timestamp <= s.now.value && (!late ==> s.now == Some(p.timestamp))
    ensures SortedState(Place(cfg, s, p, late).state) <==> FitsInPlace(cfg, s, p, late)
  {
    var table := s.Of(p.protocol);
    var i := Find(table, KeyOf(p));
    if i == |table| || Restarts(table[i].flow, p) {
      StartOrder(cfg, s, p, late);
    } else {
      JoinOrder(s, p, i, late);
      assert Place(cfg, s, p, late).state == Join(s, p, i, late);
    }
  }

  // The guard of one update, read after expiry.
  ghost predicate UpdateFits(cfg: Config, s: State, p: Observation)
    requires cfg.Valid()
  {
    FitsInPlace(cfg, AfterExpiry(cfg, s, Clock(s.now, p.timestamp)), p, Late(s.now, p))
  }

  // An update of sorted tables leaves them sorted exactly when the packet fits, whatever its timestamp.
  lemma {:induction false} UpdateKeepsOrderExactly(cfg: Config, s: State, p: Observation)
    requires cfg.Valid() && Consistent(s) && SortedState(s)
    ensures SortedState(Update(cfg, s, p).state) <==> UpdateFits(cfg, s, p)
  {
    var now := Clock(s.now, p.timestamp);
    AfterExpiryKeeps(cfg, s, now);
    ExpiryKeepsOrder(cfg, s, now);
    PlaceOrder(cfg, AfterExpiry(cfg, s, now), p, Late(s.now, p));
  }

  lemma {:induction false} RoomSubset(cfg: Config, s: State, protocol: Protocol)
    requires cfg.Valid()
    ensures forall e :: e in MakeRoom(cfg, s).state.Of(protocol) ==> e in s.Of(protocol)
  {
  }

  lemma {:induction false} BehindSubset(cfg: Config, s: State, p: Observation)
    requires cfg.Valid()
    ensures forall e :: e in Behind(cfg, s, p) ==> e in s.Of(p.protocol)
  {
    var table := s.Of(p.protocol);
    var i := Find(table, KeyOf(p));
    if i == |table| {
      RoomSubset(cfg, s, p.protocol);
    } else {
      RoomSubset(cfg, s.With(p.protocol, RemoveAt(table, i)), p.protocol);
    }
  }

  lemma {:induction false} NewestFits(cfg: Config, s: State, p: Observation)
    requires cfg.Valid() && forall e :: e in s.Of(p.protocol) ==> e.flow.lastSeen <= p.timestamp
    ensures FitsInPlace(cfg, s, p, false)
  {
    BehindSubset(cfg, s, p);
  }

  // A packet that is not late always fits.
  lemma {:induction false} OnTimeFits(cfg: Config, s: State, p: Observation)
    requires cfg.Valid() && Consistent(s) && !Late(s.now, p)
    ensures UpdateFits(cfg, s, p)
  {
    var expired := AfterExpiry(cfg, s, p.timestamp);
    AfterExpiryKeeps(cfg, s, p.timestamp);
    assert Clock(s.now, p.timestamp) == p.timestamp;
    NewestFits(cfg, expired, p);
  }

  // ---------- Whole runs ----------

  ghost predicate StaysSorted(cfg: Config, ps: seq<Observation>)
    requires cfg.Valid()
  {
    forall n :: 0 <= n <= |ps| ==> SortedState(Play(cfg, ps[..n]).state)
  }

  ghost predicate StepFits(cfg: Config, ps: seq<Observation>, k: nat)
    requires cfg.Valid() && k < |ps|
  {
    UpdateFits(cfg, Play(cfg, ps[..k]).state, ps[k])
  }

  lemma {:induction false} NextState(cfg: Config, ps: seq<Observation>, k: nat)
    requires cfg.Valid() && k < |ps|
    ensures Play(cfg, ps[..k + 1]).state == Update(cfg, Play(cfg, ps[..k]).state, ps[k]).state
  {
    assert ps[..k + 1][..k] == ps[..k] && ps[..k + 1][k] == ps[k];
  }

  lemma {:induction false} StepOrder(cfg: Config, ps: seq<Observation>, k: nat)
    requires cfg.Valid() && k < |ps| && SortedState(Play(cfg, ps[..k]).state)
    ensures SortedState(Play(cfg, ps[..k + 1]).state) <==> StepFits(cfg, ps, k)
  {
    PlayKeeps(cfg, ps[..k]);
    NextState(cfg, ps, k);
    UpdateKeepsOrderExactly(cfg, Play(cfg, ps[..k]).state, ps[k]);
  }

  lemma {:induction false} FittingStepsSort(cfg: Config, ps: seq<Observation>, n: nat)
    requires cfg.Valid() && n <= |ps| && forall k :: 0 <= k < n ==> StepFits(cfg, ps, k)
    ensures SortedState(Play(cfg, ps[..n]).state)
  {
    if n > 0 {
      FittingStepsSort(cfg, ps, n - 1);
      assert StepFits(cfg, ps, n - 1);
      StepOrder(cfg, ps, n - 1);
    }
  }

  // The tables stay sorted all through a run exactly when every packet of it fits.
  lemma {:induction false} RunStaysSortedExactly(cfg: Config, ps: seq<Observation>)
    requires cfg.Valid()
    ensures StaysSorted(cfg, ps) <==> forall k :: 0 <= k < |ps| ==> StepFits(cfg, ps, k)
  {
    if StaysSorted(cfg, ps) {
      forall k | 0 <= k < |ps| ensures StepFits(cfg, ps, k) {
        StepOrder(cfg, ps, k);
      }
    }
    if forall k :: 0 <= k < |ps| ==> StepFits(cfg, ps, k) {
      forall n | 0 <= n <= |ps| ensures SortedState(Play(cfg, ps[..n]).state) {
        FittingStepsSort(cfg, ps, n);
      }
    }
  }

  lemma {:induction false} ClockInOrder(cfg: Config, ps: seq<Observation>)
    requires cfg.Valid() && InOrder(ps)
    ensures Play(cfg, ps).state.now == if ps == [] then None else Some(ps[|ps| - 1].timestamp)
    decreases |ps|
  {
    if ps != [] {
      ClockInOrder(cfg, ps[..|ps| - 1]);
      PlayKeeps(cfg, ps[..|ps| - 1]);
      UpdateKeeps(cfg, Play(cfg, ps[..|ps| - 1]).state, ps[|ps| - 1]);
    }
  }

  // Timestamps that never decrease keep the tables sorted all through a run.
  lemma {:induction false} PlayIsSorted(cfg: Config, ps: seq<Observation>)
    requires cfg.Valid() && InOrder(ps)
    ensures StaysSorted(cfg, ps)
  {
    forall k | 0 <= k < |ps| ensures StepFits(cfg, ps, k) {
      ClockInOrder(cfg, ps[..k]);
      PlayKeeps(cfg, ps[..k]);
      assert k > 0 ==> ps[..k][k - 1] == ps[k - 1];
      OnTimeFits(cfg, Play(cfg, ps[..k]).state, ps[k]);
    }
    RunStaysSortedExactly(cfg, ps);
  }

  lemma {:induction false} NextIsNotLate(cfg: Config, ps: seq<Observation>, p: Observation)
    requires cfg.Valid() && InOrder(ps + [p])
    ensures InOrder(ps) && SortedState(Play(cfg, ps).state) && !Late(Play(cfg, ps).state.now, p)
  {
    var all := ps + [p];
    assert ps == all[..|ps|] && p == all[|ps|];
    PlayIsSorted(cfg, ps);
    ClockInOrder(cfg, ps);
    assert ps[..|ps|] == ps;
    if ps != [] {
      assert all[|ps| - 1] == ps[|ps| - 1];
    }
  }

  // ---------- When the front-only scan is a full scan ----------

  // The entries a scan of the whole table would keep, or would expire.
  function Scan(t: Table, now: real, timeout: real, idle: bool): Table {
    if t == [] then []
    else (if Idle(t[0].flow, now, timeout) == idle then [t[0]] else []) + Scan(t[1..], now, timeout, idle)
  }

  // An idle flow stands behind one that is not idle.
  ghost predicate IdleBehindLive(t: Table, now: real, timeout: real) {
    exists i, j :: 0 <= i < j < |t| && !Idle(t[i].flow, now, timeout) && Idle(t[j].flow, now, timeout)
  }

  lemma {:induction false} ScanSplits(t: Table, now: real, timeout: real)
    ensures |Scan(t, now, timeout, true)| + |Scan(t, now, timeout, false)| == |t|
    ensures Scan(t, now, timeout, true) == [] <==> forall i :: 0 <= i < |t| ==> !Idle(t[i].flow, now, timeout)
    ensures Scan(t, now, timeout, true) == [] ==> Scan(t, now, timeout, false) == t
  {
    if t != [] {
      ScanSplits(t[1..], now, timeout);
      assert t == [t[0]] + t[1..];
    }
  }

  lemma {:induction false} DropIdleFront(t: Table, now: real, timeout: real)
    requires t != [] && Idle(t[0].flow, now, timeout)
    ensures IdleBehindLive(t, now, timeout) <==> IdleBehindLive(t[1..], now, timeout)
  {
    if IdleBehindLive(t, now, timeout) {
      var i, j :| 0 <= i < j < |t| && !Idle(t[i].flow, now, timeout) && Idle(t[j].flow, now, timeout);
      assert t[1..][i - 1] == t[i] && t[1..][j - 1] == t[j];
    }
    if IdleBehindLive(t[1..], now, timeout) {
      var i, j :| 0 <= i < j < |t[1..]| && !Idle(t[1..][i].flow, now, timeout) && Idle(t[1..][j].flow, now, timeout);
      assert t[i + 1] == t[1..][i] && t[j + 1] == t[1..][j];
    }
  }

  lemma {:induction false} LiveFront(t: Table, now: real, timeout: real)
    requires t == [] || !Idle(t[0].flow, now, timeout)
    ensures IdleBehindLive(t, now, timeout) <==> exists j :: 0 <= j < |t| && Idle(t[j].flow, now, timeout)
  {
  }

  ghost predicate FrontIsScan(t: Table, now: real, timeout: real) {
    var n := IdlePrefix(t, now, timeout);
    && (t[..n] == Scan(t, now, timeout, true) <==> !IdleBehindLive(t, now, timeout))
    && (t[n..] == Scan(t, now, timeout, false) <==> !IdleBehindLive(t, now, timeout))
  }

  lemma {:induction false} LiveFrontIsScan(t: Table, now: real, timeout: real)
    requires IdlePrefix(t, now, timeout) == 0
    ensures FrontIsScan(t, now, timeout)
  {
    ScanSplits(t, now, timeout);
    LiveFront(t, now, timeout);
  }

  lemma {:induction false} IdleFrontIsScan(t: Table, now: real, timeout: real)
    requires t != [] && Idle(t[0].flow, now, timeout) && FrontIsScan(t[1..], now, timeout)
    ensures FrontIsScan(t, now, timeout)
  {
    var rest, n := t[1..], IdlePrefix(t, now, timeout);
    DropIdleFront(t, now, timeout);
    ScanOfIdleFront(t, now, timeout);
    assert IdlePrefix(rest, now, timeout) == n - 1;
    assert t[n..] == rest[n - 1..] && t[..n] == [t[0]] + rest[..n - 1];
    SameFront(t[0], rest[..n - 1], Scan(rest, now, timeout, true));
  }

  // For every table: the scan that stops at the first live flow finds what a full scan would, exactly when no idle flow
  // stands behind one that is not idle.
  lemma {:induction false} FrontScanIsFullScan(t: Table, now: real, timeout: real)
    ensures var n := IdlePrefix(t, now, timeout);
            && (t[..n] == Scan(t, now, timeout, true) <==> !IdleBehindLive(t, now, timeout))
            && (t[n..] == Scan(t, now, timeout, false) <==> !IdleBehindLive(t, now, timeout))
  {
    AlwaysFrontIsScan(t, now, timeout);
  }

  lemma {:induction false} AlwaysFrontIsScan(t: Table, now: real, timeout: real)
    ensures FrontIsScan(t, now, timeout)
  {
    if IdlePrefix(t, now, timeout) == 0 {
      LiveFrontIsScan(t, now, timeout);
    } else {
      AlwaysFrontIsScan(t[1..], now, timeout);
      IdleFrontIsScan(t, now, timeout);
    }
  }

  lemma {:induction false} SameFront(e: Entry, s: Table, t: Table)
    ensures [e] + s == [e] + t <==> s == t
  {
    if [e] + s == [e] + t {
      assert s == ([e] + s)[1..] && t == ([e] + t)[1..];
    }
  }

  lemma {:induction false} ScanOfIdleFront(t: Table, now: real, timeout: real)
    requires t != [] && Idle(t[0].flow, now, timeout)
    ensures Scan(t, now, timeout, true) == [t[0]] + Scan(t[1..], now, timeout, true)
    ensures Scan(t, now, timeout, false) == Scan(t[1..], now, timeout, false)
  {
  }

  lemma {:induction false} SortedHidesNothing(t: Table, now: real, timeout: real)
    requires Sorted(t)
    ensures !IdleBehindLive(t, now, timeout)
  {
  }

  // The expiry of an update takes exactly the flows that a scan of both tables would.
  ghost predicate ExpiresExactly(cfg: Config, s: State, now: real) {
    && AfterExpiry(cfg, s, now).tcp == Scan(s.tcp, now, cfg.tcpTimeout, false)
    && AfterExpiry(cfg, s, now).udp == Scan(s.udp, now, cfg.udpTimeout, false)
    && multiset(ExpiredEntries(cfg, s, now))
       == multiset(Scan(s.tcp, now, cfg.tcpTimeout, true) + Scan(s.udp, now, cfg.udpTimeout, true))
  }

  // In every state expiry is exact exactly when neither table hides an idle flow behind a live one.
  lemma {:induction false} ExpiryIsExact(cfg: Config, s: State, now: real)
    ensures ExpiresExactly(cfg, s, now) <==>
              !IdleBehindLive(s.tcp, now, cfg.tcpTimeout) && !IdleBehindLive(s.udp, now, cfg.udpTimeout)
  {
    FrontScanIsFullScan(s.tcp, now, cfg.tcpTimeout);
    FrontScanIsFullScan(s.udp, now, cfg.udpTimeout);
    var m, n := IdlePrefix(s.tcp, now, cfg.tcpTimeout), IdlePrefix(s.udp, now, cfg.udpTimeout);
    SortKeeps(SeenLeq, s.tcp[..m] + s.udp[..n]);
  }

  // In particular in every sorted state, and so all through a run whose packets fit.
  lemma {:induction false} SortedExpiryIsExact(cfg: Config, ps: seq<Observation>, k: nat)
    requires cfg.Valid() && StaysSorted(cfg, ps) && k < |ps|
    ensures var s := Play(cfg, ps[..k]).state; ExpiresExactly(cfg, s, Clock(s.now, ps[k].timestamp))
  {
    var s := Play(cfg, ps[..k]).state;
    var now := Clock(s.now, ps[k].timestamp);
    SortedHidesNothing(s.tcp, now, cfg.tcpTimeout);
    SortedHidesNothing(s.udp, now, cfg.udpTimeout);
    ExpiryIsExact(cfg, s, now);
  }

  // ---------- When the evicted flow is the oldest ----------

  // A flow somewhere in the tables is older than the front of each.
  ghost predicate OlderThanFronts(s: State) {
    exists e :: e in s.tcp + s.udp
      && (s.tcp != [] ==> e.flow.lastSeen < s.tcp[0].flow.lastSeen)
      && (s.udp != [] ==> e.flow.lastSeen < s.udp[0].flow.lastSeen)
  }

  ghost predicate IsOldest(x: Flow, s: State) {
    forall e :: e in s.tcp + s.udp ==> x.lastSeen <= e.flow.lastSeen
  }

  lemma {:induction false} VictimIsOldest(s: State)
    requires s.Size() > 0
    ensures IsOldest(s.Of(Victim(s))[0].flow, s) <==> !OlderThanFronts(s)
  {
    var v := s.Of(Victim(s))[0];
    assert s.tcp != [] ==> v.flow.lastSeen <= s.tcp[0].flow.lastSeen;
    assert s.udp != [] ==> v.flow.lastSeen <= s.udp[0].flow.lastSeen;
    assert (s.tcp != [] && v == s.tcp[0]) || (s.udp != [] && v == s.udp[0]);
    if !IsOldest(v.flow, s) {
      var e :| e in s.tcp + s.udp && !(v.flow.lastSeen <= e.flow.lastSeen);
      assert OlderThanFronts(s);
    }
  }

  lemma {:induction false} SortedFrontsAreOldest(s: State)
    requires SortedState(s)
    ensures !OlderThanFronts(s)
  {
    forall e | e in s.tcp + s.udp
      ensures (s.tcp != [] && s.tcp[0].flow.lastSeen <= e.flow.lastSeen)
              || (s.udp != [] && s.udp[0].flow.lastSeen <= e.flow.lastSeen)
    {
      assert e in s.tcp || e in s.udp;
    }
  }

  // An evicted flow of an update is the front flow that made room in the expired tables.
  lemma {:induction false} EvictedByRoom(cfg: Config, s: State, p: Observation, x: Export)
    requires cfg.Valid() && Consistent(s) && s.Size() <= cfg.maxFlows
    requires x in Update(cfg, s, p).exported && x.reason == Evicted
    ensures var t := AfterExpiry(cfg, s, Clock(s.now, p.timestamp));
            t.Size() > 0 && x.flow == t.Of(Victim(t))[0].flow
  {
    var now, late := Clock(s.now, p.timestamp), Late(s.now, p);
    var t := AfterExpiry(cfg, s, now);
    AfterExpiryKeeps(cfg, s, now);
    var idle, placed := Exported(ExpiredEntries(cfg, s, now), IdleTimeout), Place(cfg, t, p, late).exported;
    assert Update(cfg, s, p).exported == idle + placed;
    assert x !in idle;
    EvictedWhenPlaced(cfg, t, p, late, x);
  }

  lemma {:induction false} EvictedWhenPlaced(cfg: Config, s: State, p: Observation, late: bool, x: Export)
    requires cfg.Valid() && Consistent(s) && s.Size() <= cfg.maxFlows && s.now.Some? && p.timestamp <= s.now.value
    requires x in Place(cfg, s, p, late).exported && x.reason == Evicted
    ensures s.Size() > 0 && x.flow == s.Of(Victim(s))[0].flow
  {
    PlaceKeeps(cfg, s, p, late);
    assert !ReusesOrJoins(s, p);
    assert x in MakeRoom(cfg, s).exported;
  }

  // The flow that an update evicts is the oldest one exactly when no flow is older than the front of each table.
  lemma {:induction false} EvictedFlowIsOldest(cfg: Config, s: State, p: Observation, x: Export)
    requires cfg.Valid() && Consistent(s) && s.Size() <= cfg.maxFlows
    requires x in Update(cfg, s, p).exported && x.reason == Evicted
    ensures var t := AfterExpiry(cfg, s, Clock(s.now, p.timestamp)); IsOldest(x.flow, t) <==> !OlderThanFronts(t)
  {
    EvictedByRoom(cfg, s, p, x);
    VictimIsOldest(AfterExpiry(cfg, s, Clock(s.now, p.timestamp)));
  }

  // All through a run whose packets fit, every evicted flow was the least recently seen one left after expiry.
  lemma {:induction false} EvictedFlowIsLeastRecent(cfg: Config, ps: seq<Observation>, k: nat, x: Export)
    requires cfg.Valid() && StaysSorted(cfg, ps) && k < |ps|
    requires x in Update(cfg, Play(cfg, ps[..k]).state, ps[k]).exported && x.reason == Evicted
    ensures var s := Play(cfg, ps[..k]).state; IsOldest(x.flow, AfterExpiry(cfg, s, Clock(s.now, ps[k].timestamp)))
  {
    var s := Play(cfg, ps[..k]).state;
    PlayKeeps(cfg, ps[..k]);
    ExpiryKeepsOrder(cfg, s, Clock(s.now, ps[k].timestamp));
    SortedFrontsAreOldest(AfterExpiry(cfg, s, Clock(s.now, ps[k].timestamp)));
    EvictedFlowIsOldest(cfg, s, ps[k], x);
  }
}
