// When two flows of a run get the same identity, told from the packets that started them.
module FlowIdentity {
  import opened Base
  import opened FlowModel
  import opened FlowSpec
  import opened FlowInvariant
  import opened FlowCapacity
  import opened FlowOrder
  import FlowTotals

  // ---------- The starts of a run ----------

  // A packet that started a flow, and whether its endpoint pair had no live flow then.
  datatype Birth = Birth(packet: Observation, opens: bool)

  // What a packet starts in tables that have already expired their idle flows.
  function BirthIn(s: State, p: Observation): seq<Birth> {
    var t := s.Of(p.protocol);
    var i := Find(t, KeyOf(p));
    if i == |t| then [Birth(p, true)] else if Restarts(t[i].flow, p) then [Birth(p, false)] else []
  }

  function Births(cfg: Config, ps: seq<Observation>): seq<Birth>
    requires cfg.Valid()
    decreases |ps|
  {
    if ps == [] then []
    else
      var before, p := ps[..|ps| - 1], ps[|ps| - 1];
      var s := Play(cfg, before).state;
      Births(cfg, before) + BirthIn(AfterExpiry(cfg, s, Clock(s.now, p.timestamp)), p)
  }

  // How many restarts in a row, all at one instant, lead to a start from the one before them.
  function Depth(bs: seq<Birth>, b: Birth): nat
    decreases |bs|
  {
    if b.opens || bs == [] then 0
    else
      var before, last := bs[..|bs| - 1], bs[|bs| - 1];
      if PairOf(last.packet) != PairOf(b.packet) then Depth(before, b)
      else if last.packet.timestamp == b.packet.timestamp then Depth(before, last) + 1
      else 0
  }

  function DepthAt(bs: seq<Birth>, n: nat): nat
    requires n < |bs|
  {
    Depth(bs[..n], bs[n])
  }

  function Other(p: Observation): Endpoint { if Initiator(p) == p.source then p.destination else p.source }

  // The identity that the tracker gives to a start.
  function IdAt(bs: seq<Birth>, n: nat): FlowId
    requires n < |bs|
  {
    var p := bs[n].packet;
    FlowId(p.protocol, Initiator(p), Other(p), p.timestamp, DepthAt(bs, n))
  }

  // ---------- Every flow is named by its start ----------

  ghost predicate Named(f: Flow, bs: seq<Birth>) {
    1 <= f.number <= |bs| && f.id == IdAt(bs, f.number - 1)
  }

  // The flow of a pair is named by the last start of the pair.
  ghost predicate Latest(e: Entry, protocol: Protocol, bs: seq<Birth>) {
    && Named(e.flow, bs)
    && PairOf(bs[e.flow.number - 1].packet) == (protocol, e.key)
    && forall m :: e.flow.number <= m < |bs| ==> PairOf(bs[m].packet) != (protocol, e.key)
  }

  ghost predicate TableNamed(t: Table, protocol: Protocol, bs: seq<Birth>) {
    forall e :: e in t ==> Latest(e, protocol, bs)
  }

  ghost predicate StateNamed(s: State, bs: seq<Birth>) {
    |bs| == s.created && TableNamed(s.tcp, TCP, bs) && TableNamed(s.udp, UDP, bs)
  }

  ghost predicate ExportsNamed(xs: seq<Export>, bs: seq<Birth>) { forall x :: x in xs ==> Named(x.flow, bs) }

  lemma {:induction false} NamedGrows(f: Flow, bs: seq<Birth>, more: seq<Birth>)
    requires Named(f, bs)
    ensures Named(f, bs + more)
  {
    var n := f.number - 1;
    assert (bs + more)[..n] == bs[..n] && (bs + more)[n] == bs[n];
  }

  lemma {:induction false} LatestGrows(e: Entry, protocol: Protocol, bs: seq<Birth>, b: Birth)
    requires Latest(e, protocol, bs) && PairOf(b.packet) != (protocol, e.key)
    ensures Latest(e, protocol, bs + [b])
  {
    NamedGrows(e.flow, bs, [b]);
  }

  // Starts of other pairs do not count.
  lemma {:induction false} DepthSkips(bs: seq<Birth>, n: nat, b: Birth)
    requires n < |bs| && !b.opens && PairOf(bs[n].packet) == PairOf(b.packet)
    requires forall m :: n < m < |bs| ==> PairOf(bs[m].packet) != PairOf(b.packet)
    ensures Depth(bs, b) == if bs[n].packet.timestamp == b.packet.timestamp then DepthAt(bs, n) + 1 else 0
    decreases |bs|
  {
    var before := bs[..|bs| - 1];
    if n < |bs| - 1 {
      DepthSkips(before, n, b);
      assert before[..n] == bs[..n] && before[n] == bs[n];
    }
  }

  lemma {:induction false} ReplacedDepth(f: Flow, key: Key, bs: seq<Birth>, p: Observation)
    requires Latest(Entry(key, f), p.protocol, bs) && key == KeyOf(p)
    requires f.id == FlowId(f.protocol, f.a, f.b, f.startTime, f.occurrence)
    ensures Depth(bs, Birth(p, false)) == if f.startTime == p.timestamp then f.occurrence + 1 else 0
  {
    DepthSkips(bs, f.number - 1, Birth(p, false));
  }

  lemma {:induction false} StartedNamed(p: Observation, replaced: Option<Flow>, bs: seq<Birth>)
    requires replaced.Some? ==>
               && Latest(Entry(KeyOf(p), replaced.value), p.protocol, bs)
               && replaced.value.id
                  == FlowId(replaced.value.protocol, replaced.value.a, replaced.value.b, replaced.value.startTime,
                            replaced.value.occurrence)
    ensures Latest(Entry(KeyOf(p), Started(p, replaced, |bs| + 1)), p.protocol, bs + [Birth(p, replaced.None?)])
  {
    var all := bs + [Birth(p, replaced.None?)];
    assert all[..|bs|] == bs && all[|bs|] == Birth(p, replaced.None?);
    if replaced.Some? {
      ReplacedDepth(replaced.value, KeyOf(p), bs, p);
    }
  }

  lemma {:induction false} TableNamedGrows(t: Table, protocol: Protocol, bs: seq<Birth>, b: Birth)
    requires TableNamed(t, protocol, bs) && forall e :: e in t ==> PairOf(b.packet) != (protocol, e.key)
    ensures TableNamed(t, protocol, bs + [b])
  {
    forall e | e in t ensures Latest(e, protocol, bs + [b]) {
      LatestGrows(e, protocol, bs, b);
    }
  }

  lemma {:induction false} ExportsNamedGrow(xs: seq<Export>, bs: seq<Birth>, more: seq<Birth>)
    requires ExportsNamed(xs, bs)
    ensures ExportsNamed(xs, bs + more)
  {
    forall x | x in xs ensures Named(x.flow, bs + more) {
      NamedGrows(x.flow, bs, more);
    }
  }

  lemma {:induction false} AppendNames(s: State, p: Observation, replaced: Option<Flow>, bs: seq<Birth>)
    requires StateNamed(s, bs) && Absent(s.Of(p.protocol), KeyOf(p))
    requires Latest(Entry(KeyOf(p), Started(p, replaced, |bs| + 1)), p.protocol, bs + [Birth(p, replaced.None?)])
    ensures StateNamed(Append(s, p, Started(p, replaced, s.created + 1)), bs + [Birth(p, replaced.None?)])
  {
    var b := Birth(p, replaced.None?);
    assert forall e :: e in s.Of(p.protocol) ==> e.key != KeyOf(p);
    TableNamedGrows(s.tcp, TCP, bs, b);
    TableNamedGrows(s.udp, UDP, bs, b);
  }

  lemma {:induction false} RoomNames(cfg: Config, s: State, bs: seq<Birth>)
    requires cfg.Valid() && StateNamed(s, bs)
    ensures StateNamed(MakeRoom(cfg, s).state, bs) && ExportsNamed(MakeRoom(cfg, s).exported, bs)
  {
    if s.Size() >= cfg.maxFlows {
      var v := s.Of(Victim(s))[0];
      assert v in s.Of(Victim(s));
      assert Latest(v, Victim(s), bs);
    }
  }

  lemma {:induction false} OpenNames(cfg: Config, s: State, p: Observation, replaced: Option<Flow>, bs: seq<Birth>)
    requires cfg.Valid() && StateNamed(s, bs) && Absent(s.Of(p.protocol), KeyOf(p))
    requires replaced.Some? ==>
               && Latest(Entry(KeyOf(p), replaced.value), p.protocol, bs)
               && replaced.value.id
                  == FlowId(replaced.value.protocol, replaced.value.a, replaced.value.b, replaced.value.startTime,
                            replaced.value.occurrence)
    ensures var r, all := Open(cfg, s, p, replaced), bs + [Birth(p, replaced.None?)];
            StateNamed(r.state, all) && ExportsNamed(r.exported, all)
  {
    var room := MakeRoom(cfg, s).state;
    RoomNames(cfg, s, bs);
    ExportsNamedGrow(MakeRoom(cfg, s).exported, bs, [Birth(p, replaced.None?)]);
    RoomSubset(cfg, s, p.protocol);
    assert Absent(room.Of(p.protocol), KeyOf(p)) by {
      forall i | 0 <= i < |room.Of(p.protocol)| ensures room.Of(p.protocol)[i].key != KeyOf(p) {
        assert room.Of(p.protocol)[i] in s.Of(p.protocol);
      }
    }
    StartedNamed(p, replaced, bs);
    AppendNames(room, p, replaced, bs);
  }

  lemma {:induction false} JoinNames(s: State, p: Observation, i: nat, late: bool, bs: seq<Birth>)
    requires StateNamed(s, bs) && i < |s.Of(p.protocol)|
    ensures StateNamed(Join(s, p, i, late), bs)
  {
    var table := s.Of(p.protocol);
    var e := table[i].(flow := Joined(table[i].flow, p));
    assert Latest(table[i], p.protocol, bs);
    assert Latest(e, p.protocol, bs);
    assert forall x :: x in table[i := e] ==> x == e || x in table;
    assert forall x :: x in RemoveAt(table, i) + [e] ==> x == e || x in table;
  }

  lemma {:induction false} ReuseNames(cfg: Config, s: State, p: Observation, i: nat, bs: seq<Birth>)
    requires cfg.Valid() && Consistent(s) && StateNamed(s, bs)
    requires i < |s.Of(p.protocol)| && s.Of(p.protocol)[i].key == KeyOf(p)
    ensures var f, without := s.Of(p.protocol)[i].flow, s.With(p.protocol, RemoveAt(s.Of(p.protocol), i));
            var r, all := Open(cfg, without, p, Some(f)), bs + [Birth(p, false)];
            StateNamed(r.state, all) && ExportsNamed([Export(f, NewConnection)] + r.exported, all)
  {
    var table := s.Of(p.protocol);
    var e := table[i];
    assert Latest(e, p.protocol, bs);
    TableRemove(table, i, p.protocol, s);
    OpenNames(cfg, s.With(p.protocol, RemoveAt(table, i)), p, Some(e.flow), bs);
    NamedGrows(e.flow, bs, [Birth(p, false)]);
  }

  lemma {:induction false} PlaceNames(cfg: Config, s: State, p: Observation, late: bool, bs: seq<Birth>)
    requires cfg.Valid() && Consistent(s) && StateNamed(s, bs)
    ensures var r, all := Place(cfg, s, p, late), bs + BirthIn(s, p);
            StateNamed(r.state, all) && ExportsNamed(r.exported, all)
  {
    var table := s.Of(p.protocol);
    var i := Find(table, KeyOf(p));
    if i == |table| {
      OpenNames(cfg, s, p, None, bs);
    } else if Restarts(table[i].flow, p) {
      ReuseNames(cfg, s, p, i, bs);
    } else {
      JoinNames(s, p, i, late, bs);
      assert bs + [] == bs;
    }
  }

  lemma {:induction false} ExpiryNames(cfg: Config, s: State, now: real, bs: seq<Birth>)
    requires StateNamed(s, bs)
    ensures StateNamed(AfterExpiry(cfg, s, now), bs)
    ensures ExportsNamed(Exported(ExpiredEntries(cfg, s, now), IdleTimeout), bs)
  {
    var m, n := IdlePrefix(s.tcp, now, cfg.tcpTimeout), IdlePrefix(s.udp, now, cfg.udpTimeout);
    SortKeepsMembers(SeenLeq, s.tcp[..m] + s.udp[..n]);
    forall x | x in Exported(ExpiredEntries(cfg, s, now), IdleTimeout) ensures Named(x.flow, bs) {
      var e :| e in ExpiredEntries(cfg, s, now) && x == Export(e.flow, IdleTimeout);
      assert e in s.tcp[..m] || e in s.udp[..n];
      assert e in s.tcp || e in s.udp;
    }
  }

  lemma {:induction false} UpdateNames(cfg: Config, s: State, p: Observation, bs: seq<Birth>)
    requires cfg.Valid() && Consistent(s) && StateNamed(s, bs)
    ensures var r, all := Update(cfg, s, p), bs + BirthIn(AfterExpiry(cfg, s, Clock(s.now, p.timestamp)), p);
            StateNamed(r.state, all) && ExportsNamed(r.exported, all)
  {
    var now := Clock(s.now, p.timestamp);
    var expired := AfterExpiry(cfg, s, now);
    AfterExpiryKeeps(cfg, s, now);
    ExpiryNames(cfg, s, now, bs);
    PlaceNames(cfg, expired, p, Late(s.now, p), bs);
    ExportsNamedGrow(Exported(ExpiredEntries(cfg, s, now), IdleTimeout), bs, BirthIn(expired, p));
  }

  // ---------- Whole runs ----------

  // What one more packet keeps.
  ghost predicate Keeps(holds: seq<Observation> -> bool, ps: seq<Observation>, p: Observation) {
    holds(ps) ==> holds(ps + [p])
  }

  lemma {:induction false} HoldsForRuns(holds: seq<Observation> -> bool, ps: seq<Observation>)
    requires holds([]) && forall qs, q :: Keeps(holds, qs, q)
    ensures holds(ps)
    decreases |ps|
  {
    if ps != [] {
      var before, p := ps[..|ps| - 1], ps[|ps| - 1];
      HoldsForRuns(holds, before);
      assert ps == before + [p];
      assert Keeps(holds, before, p);
    }
  }

  ghost predicate RunNamed(cfg: Config, ps: seq<Observation>)
    requires cfg.Valid()
  {
    StateNamed(Play(cfg, ps).state, Births(cfg, ps)) && ExportsNamed(Play(cfg, ps).exported, Births(cfg, ps))
  }

  lemma {:induction false} BirthsNext(cfg: Config, ps: seq<Observation>, p: Observation)
    requires cfg.Valid()
    ensures var s := Play(cfg, ps).state;
            Births(cfg, ps + [p]) == Births(cfg, ps) + BirthIn(AfterExpiry(cfg, s, Clock(s.now, p.timestamp)), p)
  {
    assert (ps + [p])[..|ps|] == ps;
  }

  lemma {:induction false} NamedNext(cfg: Config, ps: seq<Observation>, p: Observation)
    requires cfg.Valid() && RunNamed(cfg, ps)
    ensures RunNamed(cfg, ps + [p])
  {
    var s, bs := Play(cfg, ps).state, Births(cfg, ps);
    PlayNext(cfg, ps, p);
    BirthsNext(cfg, ps, p);
    PlayKeeps(cfg, ps);
    UpdateNames(cfg, s, p, bs);
    ExportsNamedGrow(Play(cfg, ps).exported, bs, BirthIn(AfterExpiry(cfg, s, Clock(s.now, p.timestamp)), p));
  }

  lemma {:induction false} RunIsNamed(cfg: Config, ps: seq<Observation>)
    requires cfg.Valid()
    ensures RunNamed(cfg, ps)
  {
    var holds := (qs: seq<Observation>) => RunNamed(cfg, qs);
    forall qs, q ensures Keeps(holds, qs, q) {
      if RunNamed(cfg, qs) {
        NamedNext(cfg, qs, q);
      }
    }
    assert RunNamed(cfg, []);
    HoldsForRuns(holds, ps);
  }

  // ---------- Everything written ----------

  lemma {:induction false} FlushNamed(s: State, bs: seq<Birth>)
    requires StateNamed(s, bs)
    ensures ExportsNamed(Flush(s), bs)
  {
    FlowTotals.FlushIsOrderedAndComplete(s);
    forall x | x in Flush(s) ensures Named(x.flow, bs) {
      var e :| e in s.tcp + s.udp && e.flow == x.flow;
      assert e in s.tcp || e in s.udp;
    }
  }

  // Every written flow has the identity of the start that its number counts.
  lemma {:induction false} AllExportsAreNamed(cfg: Config, ps: seq<Observation>)
    requires cfg.Valid()
    ensures ExportsNamed(FlowTotals.AllExports(cfg, ps), Births(cfg, ps))
            && |Births(cfg, ps)| == Play(cfg, ps).state.created
  {
    RunIsNamed(cfg, ps);
    FlushNamed(Play(cfg, ps).state, Births(cfg, ps));
  }

  // How often a number is exported bounds how many exports carry it.
  lemma {:induction false} CountAtLeast(xs: seq<Export>, n: nat)
    ensures FlowTotals.SumOut(FlowTotals.IsNumber(n), xs) >= 0
    ensures FlowTotals.SumOut(FlowTotals.IsNumber(n), xs) >= 1 <==> exists i :: 0 <= i < |xs| && xs[i].flow.number == n
  {
    if xs != [] {
      CountAtLeast(xs[1..], n);
      if exists i :: 0 <= i < |xs[1..]| && xs[1..][i].flow.number == n {
        var i :| 0 <= i < |xs[1..]| && xs[1..][i].flow.number == n;
        assert xs[i + 1].flow.number == n;
      }
      if exists i :: 0 < i < |xs| && xs[i].flow.number == n {
        var i :| 0 < i < |xs| && xs[i].flow.number == n;
        assert xs[1..][i - 1].flow.number == n;
      }
    }
  }

  lemma {:induction false} CountTwo(xs: seq<Export>, n: nat, i: nat, j: nat)
    requires i < j < |xs| && xs[i].flow.number == n && xs[j].flow.number == n
    ensures FlowTotals.SumOut(FlowTotals.IsNumber(n), xs) >= 2
    decreases |xs|
  {
    if i == 0 {
      assert xs[1..][j - 1].flow.number == n;
      CountAtLeast(xs[1..], n);
    } else {
      CountTwo(xs[1..], n, i - 1, j - 1);
    }
  }

  ghost predicate Carries(xs: seq<Export>, n: nat) { exists i :: 0 <= i < |xs| && xs[i].flow.number == n }

  ghost predicate DistinctNumbers(xs: seq<Export>) {
    forall i, j :: 0 <= i < j < |xs| ==> xs[i].flow.number != xs[j].flow.number
  }

  ghost predicate CountedOnce(xs: seq<Export>, n: nat, created: nat) {
    FlowTotals.SumOut(FlowTotals.IsNumber(n), xs) == One(1 <= n <= created)
  }

  lemma {:induction false} OnceEach(xs: seq<Export>, created: nat)
    requires forall n: nat :: CountedOnce(xs, n, created)
    ensures DistinctNumbers(xs) && forall n :: 1 <= n <= created ==> Carries(xs, n)
  {
    forall i, j | 0 <= i < j < |xs| ensures xs[i].flow.number != xs[j].flow.number {
      if xs[i].flow.number == xs[j].flow.number {
        assert CountedOnce(xs, xs[i].flow.number, created);
        CountTwo(xs, xs[i].flow.number, i, j);
        assert false;
      }
    }
    forall n | 1 <= n <= created ensures Carries(xs, n) {
      assert CountedOnce(xs, n, created);
      CountAtLeast(xs, n);
    }
  }

  // Exports that carry the identity of every start, each exactly once.
  ghost predicate WritesEachStart(xs: seq<Export>, bs: seq<Birth>) {
    ExportsNamed(xs, bs) && DistinctNumbers(xs) && forall n :: 1 <= n <= |bs| ==> Carries(xs, n)
  }

  lemma {:induction false} EachStartIsCounted(cfg: Config, ps: seq<Observation>, n: nat)
    requires cfg.Valid()
    ensures CountedOnce(FlowTotals.AllExports(cfg, ps), n, Play(cfg, ps).state.created)
  {
    FlowTotals.WholeRunIsConserved(cfg, ps, n);
  }

  // Each start of a run is written exactly once, with its identity.
  lemma {:induction false} EachStartIsWrittenOnce(cfg: Config, ps: seq<Observation>)
    requires cfg.Valid()
    ensures WritesEachStart(FlowTotals.AllExports(cfg, ps), Births(cfg, ps))
  {
    AllExportsAreNamed(cfg, ps);
    forall n: nat ensures CountedOnce(FlowTotals.AllExports(cfg, ps), n, Play(cfg, ps).state.created) {
      EachStartIsCounted(cfg, ps, n);
    }
    OnceEach(FlowTotals.AllExports(cfg, ps), Play(cfg, ps).state.created);
  }

  // ---------- When an identity repeats ----------

  ghost predicate Repeats(xs: seq<Export>) { exists i, j :: 0 <= i < j < |xs| && xs[i].flow.id == xs[j].flow.id }

  // Two starts of one instant, with the same initiator and the same counterpart, as many restarts deep.
  predicate Twins(bs: seq<Birth>, m: nat, n: nat)
    requires m < |bs| && n < |bs|
  {
    var p, q := bs[m].packet, bs[n].packet;
    && PairOf(p) == PairOf(q) && Initiator(p) == Initiator(q) && p.timestamp == q.timestamp
    && DepthAt(bs, m) == DepthAt(bs, n)
  }

  ghost predicate HasTwins(bs: seq<Birth>) { exists m, n :: 0 <= m < n < |bs| && Twins(bs, m, n) }

  lemma {:induction false} TwinsShareTheirId(bs: seq<Birth>, m: nat, n: nat)
    requires m < |bs| && n < |bs|
    ensures Twins(bs, m, n) <==> IdAt(bs, m) == IdAt(bs, n)
  {
    var p, q := bs[m].packet, bs[n].packet;
    KeyIsUnorderedPair(p.source, p.destination, q.source, q.destination);
  }

  lemma {:induction false} RepeatsHaveTwins(xs: seq<Export>, bs: seq<Birth>, i: nat, j: nat)
    requires WritesEachStart(xs, bs) && i < j < |xs| && xs[i].flow.id == xs[j].flow.id
    ensures HasTwins(bs)
  {
    assert xs[i] in xs && xs[j] in xs;
    var m, n := xs[i].flow.number - 1, xs[j].flow.number - 1;
    TwinsShareTheirId(bs, m, n);
    assert if m < n then Twins(bs, m, n) else Twins(bs, n, m);
  }

  lemma {:induction false} TwinsRepeat(xs: seq<Export>, bs: seq<Birth>, m: nat, n: nat)
    requires WritesEachStart(xs, bs) && m < n < |bs| && Twins(bs, m, n)
    ensures Repeats(xs)
  {
    TwinsShareTheirId(bs, m, n);
    var i := WrittenStart(xs, bs, m);
    var j := WrittenStart(xs, bs, n);
    var low, high := if i < j then i else j, if i < j then j else i;
    assert low < high && xs[low].flow.id == xs[high].flow.id;
  }

  lemma {:induction false} WrittenStart(xs: seq<Export>, bs: seq<Birth>, n: nat) returns (i: nat)
    requires WritesEachStart(xs, bs) && n < |bs|
    ensures i < |xs| && xs[i].flow.number == n + 1 && xs[i].flow.id == IdAt(bs, n)
  {
    assert Carries(xs, n + 1);
    i :| 0 <= i < |xs| && xs[i].flow.number == n + 1;
    assert xs[i] in xs;
  }

  // Among exports that write each start once, two share an identity exactly when two starts do.
  lemma {:induction false} RepeatsAreTwins(xs: seq<Export>, bs: seq<Birth>)
    requires WritesEachStart(xs, bs)
    ensures Repeats(xs) <==> HasTwins(bs)
  {
    if Repeats(xs) {
      var i, j :| 0 <= i < j < |xs| && xs[i].flow.id == xs[j].flow.id;
      RepeatsHaveTwins(xs, bs, i, j);
    }
    if HasTwins(bs) {
      var m, n :| 0 <= m < n < |bs| && Twins(bs, m, n);
      TwinsRepeat(xs, bs, m, n);
    }
  }

  // For every run, in whatever order and with whatever evictions: two flows share an identity exactly when two of its
  // packets started flows at one instant, from one initiator to one counterpart, as many restarts deep.
  lemma {:induction false} IdentityRepeatsExactlyWhen(cfg: Config, ps: seq<Observation>)
    requires cfg.Valid()
    ensures Repeats(FlowTotals.AllExports(cfg, ps)) <==> HasTwins(Births(cfg, ps))
  {
    EachStartIsWrittenOnce(cfg, ps);
    RepeatsAreTwins(FlowTotals.AllExports(cfg, ps), Births(cfg, ps));
  }

  // ---------- Runs in order ----------

  // A pair without a live flow starts one at an instant at which it already started one.
  ghost predicate Reopens(bs: seq<Birth>, m: nat, n: nat)
    requires m < |bs| && n < |bs|
  {
    && m < n && bs[n].opens
    && PairOf(bs[m].packet) == PairOf(bs[n].packet) && bs[m].packet.timestamp == bs[n].packet.timestamp
  }

  ghost predicate HasReopening(bs: seq<Birth>) { exists m, n :: 0 <= m < n < |bs| && Reopens(bs, m, n) }

  ghost predicate BirthsInOrder(bs: seq<Birth>) {
    forall m, n :: 0 <= m < n < |bs| ==> bs[m].packet.timestamp <= bs[n].packet.timestamp
  }

  // The starts are packets of the run, in its order.
  ghost predicate BirthsFollow(bs: seq<Birth>, ps: seq<Observation>) {
    InOrder(ps) ==> BirthsInOrder(bs) && forall b :: b in bs ==> b.packet in ps
  }

  lemma {:induction false} OneMoreFollows(bs: seq<Birth>, ps: seq<Observation>, more: seq<Birth>, p: Observation)
    requires BirthsFollow(bs, ps) && |more| <= 1 && forall b :: b in more ==> b.packet == p
    ensures BirthsFollow(bs + more, ps + [p])
  {
    var all := ps + [p];
    if InOrder(all) {
      assert forall i :: 0 <= i < |ps| ==> all[i] == ps[i];
      forall b | b in bs ensures b.packet.timestamp <= p.timestamp && b.packet in all {
        var i :| 0 <= i < |ps| && ps[i] == b.packet;
        assert all[i] == b.packet && all[|ps|] == p;
      }
    }
  }

  lemma {:induction false} NextBirths(cfg: Config, ps: seq<Observation>, p: Observation) returns (more: seq<Birth>)
    requires cfg.Valid()
    ensures Births(cfg, ps + [p]) == Births(cfg, ps) + more
    ensures |more| <= 1 && forall b :: b in more ==> b.packet == p
  {
    var s := Play(cfg, ps).state;
    BirthsNext(cfg, ps, p);
    more := BirthIn(AfterExpiry(cfg, s, Clock(s.now, p.timestamp)), p);
  }

  lemma {:induction false} FollowsNext(cfg: Config, ps: seq<Observation>, p: Observation)
    requires cfg.Valid() && BirthsFollow(Births(cfg, ps), ps)
    ensures BirthsFollow(Births(cfg, ps + [p]), ps + [p])
  {
    var more := NextBirths(cfg, ps, p);
    OneMoreFollows(Births(cfg, ps), ps, more, p);
  }

  lemma {:induction false} BirthsFollowRun(cfg: Config, ps: seq<Observation>)
    requires cfg.Valid()
    ensures BirthsFollow(Births(cfg, ps), ps)
  {
    var holds := (qs: seq<Observation>) => BirthsFollow(Births(cfg, qs), qs);
    forall qs, q ensures Keeps(holds, qs, q) {
      if BirthsFollow(Births(cfg, qs), qs) {
        FollowsNext(cfg, qs, q);
      }
    }
    assert BirthsFollow([], []);
    HoldsForRuns(holds, ps);
  }

  // The last start of the pair before another one.
  lemma {:induction false} LastBefore(bs: seq<Birth>, m: nat, n: nat) returns (j: nat)
    requires m < n < |bs| && PairOf(bs[m].packet) == PairOf(bs[n].packet)
    ensures m <= j < n && PairOf(bs[j].packet) == PairOf(bs[n].packet)
    ensures forall k :: j < k < n ==> PairOf(bs[k].packet) != PairOf(bs[n].packet)
  {
    j := n - 1;
    while PairOf(bs[j].packet) != PairOf(bs[n].packet)
      invariant m <= j < n
      invariant forall k :: j < k < n ==> PairOf(bs[k].packet) != PairOf(bs[n].packet)
      decreases j - m
    {
      j := j - 1;
    }
  }

  // Without a reopening, each start of one instant is a restart deeper than those before it.
  lemma {:induction false} DepthGrows(bs: seq<Birth>, m: nat, n: nat)
    requires BirthsInOrder(bs) && !HasReopening(bs) && m < n < |bs|
    requires PairOf(bs[m].packet) == PairOf(bs[n].packet) && bs[m].packet.timestamp == bs[n].packet.timestamp
    ensures DepthAt(bs, m) < DepthAt(bs, n)
    decreases n
  {
    assert !Reopens(bs, m, n);
    var j := LastBefore(bs, m, n);
    DepthSkips(bs[..n], j, bs[n]);
    assert bs[..n][..j] == bs[..j] && bs[..n][j] == bs[j];
    assert bs[m].packet.timestamp <= bs[j].packet.timestamp <= bs[n].packet.timestamp;
    if m < j {
      DepthGrows(bs, m, j);
    }
  }

  // In order, evictions or not, no identity repeats unless a pair reopens at an instant at which it already started a
  // flow.
  lemma {:induction false} IdentitiesAreUniqueUnlessReopened(cfg: Config, ps: seq<Observation>)
    requires cfg.Valid() && InOrder(ps) && !HasReopening(Births(cfg, ps))
    ensures !Repeats(FlowTotals.AllExports(cfg, ps))
  {
    var bs := Births(cfg, ps);
    BirthsFollowRun(cfg, ps);
    IdentityRepeatsExactlyWhen(cfg, ps);
    forall m, n | 0 <= m < n < |bs| ensures !Twins(bs, m, n) {
      if Twins(bs, m, n) {
        DepthGrows(bs, m, n);
      }
    }
  }

  // A pair that opens twice at one instant from the same side does repeat an identity, in any order.
  lemma {:induction false} ReopeningRepeats(cfg: Config, ps: seq<Observation>, m: nat, n: nat)
    requires cfg.Valid() && m < n < |Births(cfg, ps)| && Reopens(Births(cfg, ps), m, n) && Births(cfg, ps)[m].opens
    requires Initiator(Births(cfg, ps)[m].packet) == Initiator(Births(cfg, ps)[n].packet)
    ensures Repeats(FlowTotals.AllExports(cfg, ps))
  {
    IdentityRepeatsExactlyWhen(cfg, ps);
    assert Twins(Births(cfg, ps), m, n);
  }

  // ---------- A reopening needs an eviction at its instant ----------

  function PairOfFlow(f: Flow): Pair { (f.protocol, MakeKey(f.a, f.b)) }

  // A flow of the pair was evicted at the instant at which it started.
  ghost predicate EvictedAtOnce(xs: seq<Export>, pair: Pair, time: real) {
    exists x ::
      x in xs && x.reason == Evicted && PairOfFlow(x.flow) == pair && x.flow.startTime == time == x.flow.lastSeen
  }

  // Every pair that started a flow at this very instant is live, or lost it to an eviction at this instant.
  ghost predicate LiveOrEvicted(s: State, xs: seq<Export>, bs: seq<Birth>, time: real) {
    forall b :: b in bs && b.packet.timestamp == time ==>
      PairOf(b.packet) in Held(s) || EvictedAtOnce(xs, PairOf(b.packet), time)
  }

  lemma {:induction false} HeldEntry(s: State, pair: Pair) returns (e: Entry)
    requires pair in Held(s)
    ensures e in s.Of(pair.0) && e.key == pair.1
  {
    if pair in KeysIn(s.tcp, TCP) {
      e :| e in s.tcp && (TCP, e.key) == pair;
    } else {
      e :| e in s.udp && (UDP, e.key) == pair;
    }
  }

  lemma {:induction false} EntryIsHeld(s: State, protocol: Protocol, e: Entry)
    requires e in s.Of(protocol)
    ensures (protocol, e.key) in Held(s)
  {
    assert (protocol, e.key) in KeysIn(s.Of(protocol), protocol);
  }

  lemma {:induction false} RoomKeepsOthers(cfg: Config, s: State, protocol: Protocol, e: Entry)
    requires cfg.Valid() && e in s.Of(protocol)
    ensures e in MakeRoom(cfg, s).state.Of(protocol) || Export(e.flow, Evicted) in MakeRoom(cfg, s).exported
  {
    if s.Size() >= cfg.maxFlows && Victim(s) == protocol {
      var table := s.Of(protocol);
      assert table == [table[0]] + table[1..];
    }
  }

  lemma {:induction false} RemoveKeepsOthers(t: Table, i: nat, e: Entry)
    requires i < |t| && e in t && e.key != t[i].key
    ensures e in RemoveAt(t, i)
  {
    var j :| 0 <= j < |t| && t[j] == e;
    assert RemoveAt(t, i)[if j < i then j else j - 1] == e;
  }

  lemma {:induction false} JoinKeepsOthers(s: State, p: Observation, i: nat, late: bool, protocol: Protocol, e: Entry)
    requires i < |s.Of(p.protocol)| && s.Of(p.protocol)[i].key == KeyOf(p)
    requires e in s.Of(protocol) && (protocol, e.key) != PairOf(p)
    ensures e in Join(s, p, i, late).Of(protocol)
  {
    if protocol == p.protocol {
      var table := s.Of(p.protocol);
      RemoveKeepsOthers(table, i, e);
      var j :| 0 <= j < |table| && table[j] == e;
      assert table[i := table[i].(flow := Joined(table[i].flow, p))][j] == e;
    }
  }

  lemma {:induction false} PlaceKeepsOthers(cfg: Config, s: State, p: Observation, late: bool, protocol: Protocol,
                                            e: Entry)
    requires cfg.Valid() && e in s.Of(protocol) && (protocol, e.key) != PairOf(p)
    ensures var r := Place(cfg, s, p, late);
            e in r.state.Of(protocol) || Export(e.flow, Evicted) in r.exported
  {
    var table := s.Of(p.protocol);
    var i := Find(table, KeyOf(p));
    if i == |table| {
      RoomKeepsOthers(cfg, s, protocol, e);
    } else if Restarts(table[i].flow, p) {
      var without := s.With(p.protocol, RemoveAt(table, i));
      if protocol == p.protocol {
        RemoveKeepsOthers(table, i, e);
      }
      RoomKeepsOthers(cfg, without, protocol, e);
    } else {
      JoinKeepsOthers(s, p, i, late, protocol, e);
    }
  }

  // A flow that started at this instant is not idle, so only an eviction can take it.
  lemma {:induction false} FreshFlowStays(cfg: Config, s: State, p: Observation, protocol: Protocol, e: Entry)
    requires cfg.Valid() && Consistent(s) && e in s.Of(protocol) && s.now == Some(p.timestamp)
    requires e.flow.startTime == p.timestamp && (protocol, e.key) != PairOf(p)
    ensures var r := Update(cfg, s, p);
            (protocol, e.key) in Held(r.state) || EvictedAtOnce(r.exported, (protocol, e.key), p.timestamp)
  {
    var now := p.timestamp;
    var expired := AfterExpiry(cfg, s, now);
    assert Clock(s.now, p.timestamp) == now;
    FreshIsNotIdle(cfg, s, protocol, e, now);
    PlaceKeepsOthers(cfg, expired, p, Late(s.now, p), protocol, e);
    var r, placed := Update(cfg, s, p), Place(cfg, expired, p, Late(s.now, p));
    if e in placed.state.Of(protocol) {
      EntryIsHeld(placed.state, protocol, e);
    } else {
      assert Export(e.flow, Evicted) in r.exported;
    }
  }

  lemma {:induction false} FreshIsNotIdle(cfg: Config, s: State, protocol: Protocol, e: Entry, now: real)
    requires cfg.Valid() && Consistent(s) && e in s.Of(protocol) && s.now == Some(now) && e.flow.startTime == now
    ensures e in AfterExpiry(cfg, s, now).Of(protocol) && e.flow.lastSeen == now
    ensures e.flow.protocol == protocol && e.key == MakeKey(e.flow.a, e.flow.b)
  {
    var t := s.Of(protocol);
    var i :| 0 <= i < |t| && t[i] == e;
    var n := IdlePrefix(t, now, cfg.Timeout(protocol));
    assert !Idle(t[i].flow, now, cfg.Timeout(protocol));
    assert t[n..][i - n] == e;
  }

  lemma {:induction false} OwnFlowIsHeld(cfg: Config, s: State, p: Observation)
    requires cfg.Valid() && Consistent(s)
    ensures PairOf(p) in Held(Update(cfg, s, p).state)
  {
    var now := Clock(s.now, p.timestamp);
    var t := Update(cfg, s, p).state;
    AfterExpiryKeeps(cfg, s, now);
    ContextAfterPlace(cfg, AfterExpiry(cfg, s, now), p, Late(s.now, p));
    var table := t.Of(p.protocol);
    var i := Find(table, KeyOf(p));
    EntryIsHeld(t, p.protocol, table[i]);
  }

  // The flow of a pair that started one at this instant started at this instant itself.
  lemma {:induction false} LatestIsFresh(s: State, bs: seq<Birth>, b: Birth, time: real) returns (e: Entry)
    requires Consistent(s) && StateNamed(s, bs) && BirthsInOrder(bs) && b in bs && b.packet.timestamp == time
    requires s.now == Some(time) && PairOf(b.packet) in Held(s)
    ensures e in s.Of(b.packet.protocol) && e.key == KeyOf(b.packet) && e.flow.startTime == time
  {
    e := HeldEntry(s, PairOf(b.packet));
    var protocol := b.packet.protocol;
    assert Latest(e, protocol, bs);
    var i :| 0 <= i < |s.Of(protocol)| && s.Of(protocol)[i] == e;
    assert FlowOk(s.Of(protocol)[i].flow, s);
    LatestIsNoEarlier(e, protocol, bs, b);
    assert e.flow.startTime == bs[e.flow.number - 1].packet.timestamp;
  }

  lemma {:induction false} LatestIsNoEarlier(e: Entry, protocol: Protocol, bs: seq<Birth>, b: Birth)
    requires Latest(e, protocol, bs) && BirthsInOrder(bs) && b in bs && PairOf(b.packet) == (protocol, e.key)
    ensures b.packet.timestamp <= bs[e.flow.number - 1].packet.timestamp
  {
    var m :| 0 <= m < |bs| && bs[m] == b;
    assert m <= e.flow.number - 1;
  }

  lemma {:induction false} LiveOrEvictedNext(cfg: Config, s: State, p: Observation, xs: seq<Export>, bs: seq<Birth>,
                                             b: Birth)
    requires cfg.Valid() && Consistent(s) && StateNamed(s, bs) && BirthsInOrder(bs)
    requires b in bs && b.packet.timestamp == p.timestamp && s.now == Some(p.timestamp)
    requires LiveOrEvicted(s, xs, bs, p.timestamp)
    ensures var r := Update(cfg, s, p);
            PairOf(b.packet) in Held(r.state) || EvictedAtOnce(xs + r.exported, PairOf(b.packet), p.timestamp)
  {
    var pair, r := PairOf(b.packet), Update(cfg, s, p);
    if pair == PairOf(p) {
      OwnFlowIsHeld(cfg, s, p);
    } else if pair in Held(s) {
      var e := LatestIsFresh(s, bs, b, p.timestamp);
      FreshFlowStays(cfg, s, p, pair.0, e);
      if EvictedAtOnce(r.exported, pair, p.timestamp) {
        EvictedStays(r.exported, xs, pair, p.timestamp);
      }
    } else {
      EvictedStays(xs, r.exported, pair, p.timestamp);
    }
  }

  lemma {:induction false} EvictedStays(xs: seq<Export>, more: seq<Export>, pair: Pair, time: real)
    requires EvictedAtOnce(xs, pair, time)
    ensures EvictedAtOnce(xs + more, pair, time) && EvictedAtOnce(more + xs, pair, time)
  {
    var x :|
      x in xs && x.reason == Evicted && PairOfFlow(x.flow) == pair && x.flow.startTime == time == x.flow.lastSeen;
    assert x in xs + more && x in more + xs;
  }

  lemma {:induction false} InstantOfBirth(bs: seq<Birth>, ps: seq<Observation>, p: Observation, b: Birth)
    requires InOrder(ps + [p]) && BirthsFollow(bs, ps) && b in bs && b.packet.timestamp == p.timestamp
    ensures ps != [] && InOrder(ps) && BirthsInOrder(bs) && ps[|ps| - 1].timestamp == p.timestamp
  {
    PrefixInOrder(ps, p);
    var i :| 0 <= i < |ps| && ps[i] == b.packet;
    assert ps[i].timestamp <= ps[|ps| - 1].timestamp;
  }

  lemma {:induction false} PrefixInOrder(ps: seq<Observation>, p: Observation)
    requires InOrder(ps + [p])
    ensures InOrder(ps) && forall i :: 0 <= i < |ps| ==> ps[i].timestamp <= p.timestamp
  {
    var all := ps + [p];
    assert all[|ps|] == p && forall i :: 0 <= i < |ps| ==> all[i] == ps[i];
  }

  // In order, a start at the time of the next packet is at the time of the clock.
  lemma {:induction false} SameInstant(cfg: Config, ps: seq<Observation>, p: Observation, b: Birth)
    requires cfg.Valid() && InOrder(ps + [p]) && b in Births(cfg, ps) && b.packet.timestamp == p.timestamp
    ensures ps != [] && InOrder(ps) && Play(cfg, ps).state.now == Some(p.timestamp) == Some(ps[|ps| - 1].timestamp)
    ensures BirthsInOrder(Births(cfg, ps))
  {
    BirthsFollowRun(cfg, ps);
    InstantOfBirth(Births(cfg, ps), ps, p, b);
    ClockInOrder(cfg, ps);
  }

  ghost predicate RunLiveOrEvicted(cfg: Config, ps: seq<Observation>)
    requires cfg.Valid()
  {
    InOrder(ps) && ps != [] ==>
      LiveOrEvicted(Play(cfg, ps).state, Play(cfg, ps).exported, Births(cfg, ps), ps[|ps| - 1].timestamp)
  }

  lemma {:induction false} LiveOrEvictedStep(cfg: Config, ps: seq<Observation>, p: Observation, b: Birth)
    requires cfg.Valid() && RunLiveOrEvicted(cfg, ps) && InOrder(ps + [p])
    requires b in Births(cfg, ps) && b.packet.timestamp == p.timestamp
    ensures var r := Update(cfg, Play(cfg, ps).state, p);
            PairOf(b.packet) in Held(r.state)
            || EvictedAtOnce(Play(cfg, ps).exported + r.exported, PairOf(b.packet), p.timestamp)
  {
    SameInstant(cfg, ps, p, b);
    PlayKeeps(cfg, ps);
    RunIsNamed(cfg, ps);
    LiveOrEvictedNext(cfg, Play(cfg, ps).state, p, Play(cfg, ps).exported, Births(cfg, ps), b);
  }

  lemma {:induction false} RunLiveOrEvictedNext(cfg: Config, ps: seq<Observation>, p: Observation)
    requires cfg.Valid() && RunLiveOrEvicted(cfg, ps)
    ensures RunLiveOrEvicted(cfg, ps + [p])
  {
    if InOrder(ps + [p]) {
      var more := NextBirths(cfg, ps, p);
      PlayNext(cfg, ps, p);
      PlayKeeps(cfg, ps);
      OwnFlowIsHeld(cfg, Play(cfg, ps).state, p);
      forall b | b in Births(cfg, ps) + more && b.packet.timestamp == p.timestamp
        ensures PairOf(b.packet) in Held(Play(cfg, ps + [p]).state)
                || EvictedAtOnce(Play(cfg, ps + [p]).exported, PairOf(b.packet), p.timestamp)
      {
        if b in Births(cfg, ps) {
          LiveOrEvictedStep(cfg, ps, p, b);
        }
      }
    }
  }

  lemma {:induction false} RunStartsLiveOrEvicted(cfg: Config, ps: seq<Observation>)
    requires cfg.Valid()
    ensures RunLiveOrEvicted(cfg, ps)
  {
    var holds := (qs: seq<Observation>) => RunLiveOrEvicted(cfg, qs);
    forall qs, q ensures Keeps(holds, qs, q) {
      if RunLiveOrEvicted(cfg, qs) {
        RunLiveOrEvictedNext(cfg, qs, q);
      }
    }
    assert RunLiveOrEvicted(cfg, []);
    HoldsForRuns(holds, ps);
  }

  // Every reopening follows an eviction at its instant.
  ghost predicate Accounted(bs: seq<Birth>, xs: seq<Export>) {
    forall m, n :: 0 <= m < n < |bs| && Reopens(bs, m, n) ==>
      EvictedAtOnce(xs, PairOf(bs[n].packet), bs[n].packet.timestamp)
  }

  ghost predicate ReopeningsFollowEvictions(cfg: Config, ps: seq<Observation>)
    requires cfg.Valid()
  {
    InOrder(ps) ==> Accounted(Births(cfg, ps), Play(cfg, ps).exported)
  }

  lemma {:induction false} AccountedNext(bs: seq<Birth>, xs: seq<Export>, more: seq<Birth>, out: seq<Export>)
    requires Accounted(bs, xs) && |more| <= 1
    requires forall b ::
               b in bs && more != [] && more[0].opens && PairOf(b.packet) == PairOf(more[0].packet)
               && b.packet.timestamp == more[0].packet.timestamp ==>
               EvictedAtOnce(xs, PairOf(b.packet), b.packet.timestamp)
    ensures Accounted(bs + more, xs + out)
  {
    var all := bs + more;
    forall m, n | 0 <= m < n < |all| && Reopens(all, m, n)
      ensures EvictedAtOnce(xs + out, PairOf(all[n].packet), all[n].packet.timestamp)
    {
      assert all[m] == bs[m];
      if n < |bs| {
        assert Reopens(bs, m, n);
      } else {
        assert all[n] == more[0];
      }
      EvictedStays(xs, out, PairOf(all[n].packet), all[n].packet.timestamp);
    }
  }

  lemma {:induction false} NewReopening(cfg: Config, ps: seq<Observation>, p: Observation, b: Birth)
    requires cfg.Valid() && InOrder(ps + [p]) && b in Births(cfg, ps)
    requires b.packet.timestamp == p.timestamp && PairOf(b.packet) == PairOf(p)
    requires var s := Play(cfg, ps).state;
             BirthIn(AfterExpiry(cfg, s, Clock(s.now, p.timestamp)), p) == [Birth(p, true)]
    ensures EvictedAtOnce(Play(cfg, ps).exported, PairOf(p), p.timestamp)
  {
    var s := Play(cfg, ps).state;
    SameInstant(cfg, ps, p, b);
    RunStartsLiveOrEvicted(cfg, ps);
    if PairOf(p) in Held(s) {
      PlayKeeps(cfg, ps);
      RunIsNamed(cfg, ps);
      var e := LatestIsFresh(s, Births(cfg, ps), b, p.timestamp);
      FreshIsNotIdle(cfg, s, p.protocol, e, p.timestamp);
      NoLiveFlow(AfterExpiry(cfg, s, p.timestamp), p, e);
    }
  }

  lemma {:induction false} NoLiveFlow(s: State, p: Observation, e: Entry)
    requires e in s.Of(p.protocol) && e.key == KeyOf(p)
    ensures BirthIn(s, p) != [Birth(p, true)]
  {
    var t := s.Of(p.protocol);
    var i :| 0 <= i < |t| && t[i] == e;
    assert Find(t, KeyOf(p)) <= i;
  }

  lemma {:induction false} ReopeningsNext(cfg: Config, ps: seq<Observation>, p: Observation)
    requires cfg.Valid() && ReopeningsFollowEvictions(cfg, ps)
    ensures ReopeningsFollowEvictions(cfg, ps + [p])
  {
    if InOrder(ps + [p]) {
      var s, bs := Play(cfg, ps).state, Births(cfg, ps);
      var more := BirthIn(AfterExpiry(cfg, s, Clock(s.now, p.timestamp)), p);
      BirthsNext(cfg, ps, p);
      PlayNext(cfg, ps, p);
      PrefixInOrder(ps, p);
      forall b | b in bs && more != [] && more[0].opens
                 && PairOf(b.packet) == PairOf(more[0].packet) && b.packet.timestamp == more[0].packet.timestamp
        ensures EvictedAtOnce(Play(cfg, ps).exported, PairOf(b.packet), b.packet.timestamp)
      {
        assert more == [Birth(p, true)];
        NewReopening(cfg, ps, p, b);
      }
      AccountedNext(bs, Play(cfg, ps).exported, more, Update(cfg, s, p).exported);
    }
  }

  lemma {:induction false} ReopeningNeedsEviction(cfg: Config, ps: seq<Observation>)
    requires cfg.Valid()
    ensures ReopeningsFollowEvictions(cfg, ps)
  {
    var holds := (qs: seq<Observation>) => ReopeningsFollowEvictions(cfg, qs);
    forall qs, q ensures Keeps(holds, qs, q) {
      if ReopeningsFollowEvictions(cfg, qs) {
        ReopeningsNext(cfg, qs, q);
      }
    }
    assert ReopeningsFollowEvictions(cfg, []);
    HoldsForRuns(holds, ps);
  }

  // In order no identity repeats unless a flow was evicted at the very instant at which it started.
  lemma {:induction false} IdentitiesAreUniqueUnlessEvictedAtOnce(cfg: Config, ps: seq<Observation>)
    requires cfg.Valid() && InOrder(ps)
    requires forall x :: x in Play(cfg, ps).exported && x.reason == Evicted ==> x.flow.startTime < x.flow.lastSeen
    ensures !Repeats(FlowTotals.AllExports(cfg, ps))
  {
    var bs := Births(cfg, ps);
    ReopeningNeedsEviction(cfg, ps);
    forall m, n | 0 <= m < n < |bs| ensures !Reopens(bs, m, n) {
    }
    IdentitiesAreUniqueUnlessReopened(cfg, ps);
  }

  // In particular in every run in order whose endpoint pairs fit into the tables.
  lemma {:induction false} IdentitiesAreUniqueForFewPairs(cfg: Config, ps: seq<Observation>)
    requires cfg.Valid() && InOrder(ps) && |Pairs(ps)| <= cfg.maxFlows
    ensures !Repeats(FlowTotals.AllExports(cfg, ps))
  {
    FewPairsEvictNothing(cfg, ps);
    IdentitiesAreUniqueUnlessEvictedAtOnce(cfg, ps);
  }
}
