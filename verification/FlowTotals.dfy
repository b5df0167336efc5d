// Conservation, for packets in any order: nothing the tracker counts is lost, and no flow leaves twice.
module FlowTotals {
  import opened Base
  import opened FlowModel
  import opened FlowSpec
  import opened FlowInvariant

  type Weight = Flow -> int

  function Sum(w: Weight, t: seq<Entry>): int {
    if t == [] then 0 else w(t[0].flow) + Sum(w, t[1..])
  }

  function SumOut(w: Weight, xs: seq<Export>): int {
    if xs == [] then 0 else w(xs[0].flow) + SumOut(w, xs[1..])
  }

  function Held(w: Weight, s: State): int { Sum(w, s.tcp) + Sum(w, s.udp) }

  // ---------- Sums over the operations on tables ----------

  lemma {:induction false} SumConcat(w: Weight, s: seq<Entry>, t: seq<Entry>)
    ensures Sum(w, s + t) == Sum(w, s) + Sum(w, t)
  {
    if s == [] {
      assert s + t == t;
    } else {
      SumConcat(w, s[1..], t);
      assert (s + t)[1..] == s[1..] + t;
    }
  }

  lemma {:induction false} SumOutConcat(w: Weight, xs: seq<Export>, ys: seq<Export>)
    ensures SumOut(w, xs + ys) == SumOut(w, xs) + SumOut(w, ys)
  {
    if xs == [] {
      assert xs + ys == ys;
    } else {
      SumOutConcat(w, xs[1..], ys);
      assert (xs + ys)[1..] == xs[1..] + ys;
    }
  }

  lemma {:induction false} SumSplit(w: Weight, t: seq<Entry>, i: nat)
    requires i <= |t|
    ensures Sum(w, t) == Sum(w, t[..i]) + Sum(w, t[i..])
  {
    SumConcat(w, t[..i], t[i..]);
    assert t == t[..i] + t[i..];
  }

  lemma {:induction false} SumRemove(w: Weight, t: seq<Entry>, i: nat)
    requires i < |t|
    ensures Sum(w, RemoveAt(t, i)) == Sum(w, t) - w(t[i].flow)
  {
    SumSplit(w, t, i);
    assert t[i..][1..] == t[i + 1..];
    SumConcat(w, t[..i], t[i + 1..]);
  }

  lemma {:induction false} SumReplace(w: Weight, t: seq<Entry>, i: nat, e: Entry)
    requires i < |t|
    ensures Sum(w, t[i := e]) == Sum(w, t) - w(t[i].flow) + w(e.flow)
  {
    SumRemove(w, t, i);
    SumRemove(w, t[i := e], i);
    assert RemoveAt(t, i) == RemoveAt(t[i := e], i);
  }

  lemma {:induction false} SumSnoc(w: Weight, t: seq<Entry>, e: Entry)
    ensures Sum(w, t + [e]) == Sum(w, t) + w(e.flow)
  {
    SumConcat(w, t, [e]);
  }

  lemma {:induction false} SumInsert(w: Weight, leq: Order, e: Entry, t: seq<Entry>)
    ensures Sum(w, Insert(leq, e, t)) == Sum(w, t) + w(e.flow)
  {
    if !(t == [] || leq(e.flow, t[0].flow)) {
      SumInsert(w, leq, e, t[1..]);
    }
  }

  lemma {:induction false} SumSort(w: Weight, leq: Order, t: seq<Entry>)
    ensures Sum(w, SortBy(leq, t)) == Sum(w, t)
  {
    if t != [] {
      SumSort(w, leq, t[1..]);
      SumInsert(w, leq, t[0], SortBy(leq, t[1..]));
    }
  }

  lemma {:induction false} SumExported(w: Weight, t: seq<Entry>, reason: EndReason)
    ensures SumOut(w, Exported(t, reason)) == Sum(w, t)
  {
    if t != [] {
      SumExported(w, t[1..], reason);
      assert Exported(t, reason)[1..] == Exported(t[1..], reason);
    }
  }

  // ---------- One update ----------

  lemma {:induction false} ExpiryTotals(w: Weight, cfg: Config, s: State, now: real)
    ensures Held(w, AfterExpiry(cfg, s, now)) + SumOut(w, Exported(ExpiredEntries(cfg, s, now), IdleTimeout))
            == Held(w, s)
  {
    var m, n := IdlePrefix(s.tcp, now, cfg.tcpTimeout), IdlePrefix(s.udp, now, cfg.udpTimeout);
    SumSplit(w, s.tcp, m);
    SumSplit(w, s.udp, n);
    SumConcat(w, s.tcp[..m], s.udp[..n]);
    SumSort(w, SeenLeq, s.tcp[..m] + s.udp[..n]);
    SumExported(w, ExpiredEntries(cfg, s, now), IdleTimeout);
  }

  lemma {:induction false} OpenTotals(w: Weight, cfg: Config, s: State, p: Observation, replaced: Option<Flow>)
    requires cfg.Valid()
    ensures var r := Open(cfg, s, p, replaced);
            Held(w, r.state) + SumOut(w, r.exported) == Held(w, s) + w(Started(p, replaced, s.created + 1))
  {
    var room := MakeRoom(cfg, s);
    SumSnoc(w, room.state.Of(p.protocol), Entry(KeyOf(p), Started(p, replaced, s.created + 1)));
  }

  // What a packet adds: the change of the flow it joins, or the whole of the flow it starts.
  function Gain(w: Weight, s: State, p: Observation): int {
    var table := s.Of(p.protocol);
    var i := Find(table, KeyOf(p));
    if i == |table| then w(Started(p, None, s.created + 1))
    else if Restarts(table[i].flow, p) then w(Started(p, Some(table[i].flow), s.created + 1))
    else w(Joined(table[i].flow, p)) - w(table[i].flow)
  }

  lemma {:induction false} PlaceTotals(w: Weight, cfg: Config, s: State, p: Observation, late: bool)
    requires cfg.Valid()
    ensures var r := Place(cfg, s, p, late);
            Held(w, r.state) + SumOut(w, r.exported) == Held(w, s) + Gain(w, s, p)
  {
    var table := s.Of(p.protocol);
    var i := Find(table, KeyOf(p));
    if i == |table| {
      OpenTotals(w, cfg, s, p, None);
    } else if Restarts(table[i].flow, p) {
      SumRemove(w, table, i);
      var without := s.With(p.protocol, RemoveAt(table, i));
      OpenTotals(w, cfg, without, p, Some(table[i].flow));
      SumOutConcat(w, [Export(table[i].flow, NewConnection)], Open(cfg, without, p, Some(table[i].flow)).exported);
    } else {
      var entry := table[i].(flow := Joined(table[i].flow, p));
      SumReplace(w, table, i, entry);
      SumRemove(w, table, i);
      SumSnoc(w, RemoveAt(table, i), entry);
    }
  }

  lemma {:induction false} UpdateTotals(w: Weight, cfg: Config, s: State, p: Observation)
    requires cfg.Valid()
    ensures var r := Update(cfg, s, p);
            Held(w, r.state) + SumOut(w, r.exported)
            == Held(w, s) + Gain(w, AfterExpiry(cfg, s, Clock(s.now, p.timestamp)), p)
  {
    var now := Clock(s.now, p.timestamp);
    var expired := AfterExpiry(cfg, s, now);
    ExpiryTotals(w, cfg, s, now);
    PlaceTotals(w, cfg, expired, p, Late(s.now, p));
    SumOutConcat(w, Exported(ExpiredEntries(cfg, s, now), IdleTimeout),
                 Place(cfg, expired, p, Late(s.now, p)).exported);
  }

  // ---------- Whole runs ----------

  function PacketsOf(f: Flow): int { f.Packets() }

  function BytesOf(f: Flow): int { f.Bytes() }

  function IsNumber(n: nat): Weight { (f: Flow) => One(f.number == n) }

  function Lengths(ps: seq<Observation>): nat {
    if ps == [] then 0 else Lengths(ps[..|ps| - 1]) + ps[|ps| - 1].length
  }

  // The totals over a run and its next packet.
  lemma {:induction false} PlayTotals(w: Weight, cfg: Config, ps: seq<Observation>)
    requires cfg.Valid() && ps != []
    ensures var t, before := Play(cfg, ps), Play(cfg, ps[..|ps| - 1]);
            var p := ps[|ps| - 1];
            Held(w, t.state) + SumOut(w, t.exported)
            == Held(w, before.state) + SumOut(w, before.exported)
               + Gain(w, AfterExpiry(cfg, before.state, Clock(before.state.now, p.timestamp)), p)
  {
    var before, p := Play(cfg, ps[..|ps| - 1]), ps[|ps| - 1];
    UpdateTotals(w, cfg, before.state, p);
    SumOutConcat(w, before.exported, Update(cfg, before.state, p).exported);
  }

  lemma {:induction false} JoinedTraffic(f: Flow, p: Observation)
    ensures Joined(f, p).Packets() == f.Packets() + 1 && Joined(f, p).Bytes() == f.Bytes() + p.length
  {
  }

  lemma {:induction false} StartedTraffic(p: Observation, replaced: Option<Flow>, number: nat)
    ensures Started(p, replaced, number).Packets() == 1 && Started(p, replaced, number).Bytes() == p.length
  {
  }

  lemma {:induction false} TrafficGain(s: State, p: Observation)
    ensures Gain(PacketsOf, s, p) == 1
    ensures Gain(BytesOf, s, p) == p.length
  {
    var table := s.Of(p.protocol);
    var i := Find(table, KeyOf(p));
    if i == |table| {
      StartedTraffic(p, None, s.created + 1);
    } else if Restarts(table[i].flow, p) {
      StartedTraffic(p, Some(table[i].flow), s.created + 1);
    } else {
      JoinedTraffic(table[i].flow, p);
    }
  }

  // After every packet, the active and the exported flows hold every packet seen.
  lemma {:induction false} PacketsAreConserved(cfg: Config, ps: seq<Observation>)
    requires cfg.Valid()
    ensures var t := Play(cfg, ps); Held(PacketsOf, t.state) + SumOut(PacketsOf, t.exported) == |ps|
    decreases |ps|
  {
    if ps != [] {
      PacketsAreConserved(cfg, ps[..|ps| - 1]);
      PlayTotals(PacketsOf, cfg, ps);
      var before, p := Play(cfg, ps[..|ps| - 1]).state, ps[|ps| - 1];
      TrafficGain(AfterExpiry(cfg, before, Clock(before.now, p.timestamp)), p);
    }
  }

  // They hold every byte seen.
  lemma {:induction false} BytesAreConserved(cfg: Config, ps: seq<Observation>)
    requires cfg.Valid()
    ensures var t := Play(cfg, ps); Held(BytesOf, t.state) + SumOut(BytesOf, t.exported) == Lengths(ps)
    decreases |ps|
  {
    if ps != [] {
      BytesAreConserved(cfg, ps[..|ps| - 1]);
      PlayTotals(BytesOf, cfg, ps);
      var before, p := Play(cfg, ps[..|ps| - 1]).state, ps[|ps| - 1];
      TrafficGain(AfterExpiry(cfg, before, Clock(before.now, p.timestamp)), p);
    }
  }

  // Each flow created so far is in exactly one place: one of the tables, or the exports, once.
  lemma {:induction false} EachFlowIsInOnePlace(cfg: Config, ps: seq<Observation>, n: nat)
    requires cfg.Valid()
    ensures var t := Play(cfg, ps);
            Held(IsNumber(n), t.state) + SumOut(IsNumber(n), t.exported) == One(1 <= n <= t.state.created)
    decreases |ps|
  {
    if ps != [] {
      EachFlowIsInOnePlace(cfg, ps[..|ps| - 1], n);
      PlayTotals(IsNumber(n), cfg, ps);
      var before, p := Play(cfg, ps[..|ps| - 1]).state, ps[|ps| - 1];
      NumberGain(cfg, AfterExpiry(cfg, before, Clock(before.now, p.timestamp)), p, Late(before.now, p), n);
    }
  }

  lemma {:induction false} NumberGain(cfg: Config, s: State, p: Observation, late: bool, n: nat)
    requires cfg.Valid()
    ensures Gain(IsNumber(n), s, p) == One(1 <= n <= Place(cfg, s, p, late).state.created) - One(1 <= n <= s.created)
  {
    var table := s.Of(p.protocol);
    var i := Find(table, KeyOf(p));
    var created := Place(cfg, s, p, late).state.created;
    if i < |table| && !Restarts(table[i].flow, p) {
      assert created == s.created;
    } else {
      assert created == s.created + 1;
    }
  }

  // Everything the tracker writes in a run that ends with a flush.
  function AllExports(cfg: Config, ps: seq<Observation>): seq<Export>
    requires cfg.Valid()
  {
    Play(cfg, ps).exported + Flush(Play(cfg, ps).state)
  }

  // The written flows hold every packet and byte, and each created flow was written exactly once.
  lemma {:induction false} WholeRunIsConserved(cfg: Config, ps: seq<Observation>, n: nat)
    requires cfg.Valid()
    ensures SumOut(PacketsOf, AllExports(cfg, ps)) == |ps|
    ensures SumOut(BytesOf, AllExports(cfg, ps)) == Lengths(ps)
    ensures SumOut(IsNumber(n), AllExports(cfg, ps)) == One(1 <= n <= Play(cfg, ps).state.created)
  {
    PacketsAreConserved(cfg, ps);
    BytesAreConserved(cfg, ps);
    EachFlowIsInOnePlace(cfg, ps, n);
    FlushTotals(PacketsOf, Play(cfg, ps));
    FlushTotals(BytesOf, Play(cfg, ps));
    FlushTotals(IsNumber(n), Play(cfg, ps));
  }

  lemma {:induction false} FlushTotals(w: Weight, t: Trace)
    ensures SumOut(w, t.exported + Flush(t.state)) == SumOut(w, t.exported) + Held(w, t.state)
  {
    var all := t.state.tcp + t.state.udp;
    SumConcat(w, t.state.tcp, t.state.udp);
    SumSort(w, StartLeq, all);
    SumExported(w, SortBy(StartLeq, all), EndOfInput);
    SumOutConcat(w, t.exported, Flush(t.state));
  }

  // ---------- The order of the flush ----------

  ghost predicate Ordered(leq: Order, s: seq<Entry>) {
    forall i, j :: 0 <= i < j < |s| ==> leq(s[i].flow, s[j].flow)
  }

  ghost predicate TotalPreorder(leq: Order) {
    && (forall f, g :: leq(f, g) || leq(g, f))
    && (forall f, g, h :: leq(f, g) && leq(g, h) ==> leq(f, h))
  }

  lemma {:induction false} InsertOrders(leq: Order, e: Entry, s: seq<Entry>)
    requires TotalPreorder(leq) && Ordered(leq, s)
    ensures Ordered(leq, Insert(leq, e, s))
  {
    if !(s == [] || leq(e.flow, s[0].flow)) {
      InsertOrders(leq, e, s[1..]);
      InsertKeeps(leq, e, s[1..]);
      var rest := Insert(leq, e, s[1..]);
      forall j | 0 <= j < |rest| ensures leq(s[0].flow, rest[j].flow) {
        assert rest[j] in multiset(rest);
        assert rest[j] == e || rest[j] in s[1..];
      }
    } else if s != [] {
      forall j | 0 <= j < |s| ensures leq(e.flow, s[j].flow) {}
    }
  }

  lemma {:induction false} SortOrders(leq: Order, s: seq<Entry>)
    requires TotalPreorder(leq)
    ensures Ordered(leq, SortBy(leq, s))
  {
    if s != [] {
      SortOrders(leq, s[1..]);
      InsertOrders(leq, s[0], SortBy(leq, s[1..]));
    }
  }

  // A flush writes exactly the flows of both tables, ordered by start time and then by creation.
  lemma {:induction false} FlushIsOrderedAndComplete(s: State)
    ensures forall i, j :: 0 <= i < j < |Flush(s)| ==>
              var f, g := Flush(s)[i].flow, Flush(s)[j].flow;
              f.startTime < g.startTime || (f.startTime == g.startTime && f.number <= g.number)
    ensures forall e :: e in s.tcp + s.udp ==> Export(e.flow, EndOfInput) in Flush(s)
    ensures forall x :: x in Flush(s) ==> x.reason == EndOfInput && exists e :: e in s.tcp + s.udp && e.flow == x.flow
    ensures |Flush(s)| == s.Size()
  {
    SortOrders(StartLeq, s.tcp + s.udp);
    SortKeepsMembers(StartLeq, s.tcp + s.udp);
    var sorted := SortBy(StartLeq, s.tcp + s.udp);
    forall e | e in s.tcp + s.udp ensures Export(e.flow, EndOfInput) in Flush(s) {
      var i :| 0 <= i < |sorted| && sorted[i] == e;
      assert Flush(s)[i] == Export(e.flow, EndOfInput);
    }
    forall x | x in Flush(s) ensures x.reason == EndOfInput && exists e :: e in s.tcp + s.udp && e.flow == x.flow {
      var i :| 0 <= i < |sorted| && Flush(s)[i] == x;
      assert sorted[i] in s.tcp + s.udp;
    }
  }
}
