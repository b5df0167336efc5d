// What the TCP transition table computes over a whole flow, from the packets alone.
module TcpRuns {
  import opened FlowModel

  datatype Packet = Packet(flags: set<Flag>, direction: Direction)

  // The state and the FIN directions after a non-empty run of packets of one flow.
  function Run(ps: seq<Packet>): Step
    requires ps != []
  {
    var p := ps[|ps| - 1];
    if |ps| == 1 then FirstStep(p.flags, p.direction)
    else
      var before := Run(ps[..|ps| - 1]);
      NextStep(before.state, p.flags, p.direction, before.finDirections)
  }

  // ---------- The packets that matter ----------

  predicate PureFin(p: Packet) { FIN in p.flags && SYN !in p.flags && RST !in p.flags }

  predicate PureAck(p: Packet) { ACK in p.flags && SYN !in p.flags && RST !in p.flags && FIN !in p.flags }

  predicate PureRst(p: Packet) { RST in p.flags && SYN !in p.flags }

  ghost predicate HasRst(ps: seq<Packet>) { exists h :: 0 <= h < |ps| && PureRst(ps[h]) }

  ghost predicate FirstFin(ps: seq<Packet>, i: int) {
    0 <= i < |ps| && PureFin(ps[i]) && forall h :: 0 <= h < i ==> !PureFin(ps[h])
  }

  // Packet i is the first FIN, and packet j a FIN of the other side after it.
  ghost predicate BothFins(ps: seq<Packet>, i: int, j: int) {
    FirstFin(ps, i) && i < j < |ps| && PureFin(ps[j]) && ps[j].direction != ps[i].direction
  }

  // Packet k acknowledges a close that both sides announced, and no RST came before it.
  ghost predicate ClosesAt(ps: seq<Packet>, i: int, j: int, k: int) {
    && BothFins(ps, i, j)
    && j < k < |ps|
    && PureAck(ps[k])
    && ps[k].direction == ps[i].direction
    && !HasRst(ps[..k])
  }

  ghost predicate Closes(ps: seq<Packet>) { exists i, j, k :: ClosesAt(ps, i, j, k) }

  // ---------- The run as a function of those packets ----------

  // The last packet is the one that closes the run.
  ghost predicate ClosesNow(ps: seq<Packet>) { exists i, j, k :: ClosesAt(ps, i, j, k) && k == |ps| - 1 }

  // The FIN directions a run has collected, as long as it is neither closed nor reset.
  ghost predicate FinsMatch(ps: seq<Packet>, fins: seq<Direction>) {
    match |fins|
    case 0 => forall h :: 0 <= h < |ps| ==> !PureFin(ps[h])
    case 1 =>
      (exists i :: FirstFin(ps, i)) && forall h :: 0 <= h < |ps| && PureFin(ps[h]) ==> ps[h].direction == fins[0]
    case 2 => fins[0] != fins[1] && exists i, j :: BothFins(ps, i, j) && ps[i].direction == fins[0]
    case _ => false
  }

  lemma {:induction false} BothSides(d: Direction, fins: seq<Direction>)
    requires |fins| == 2 && fins[0] != fins[1]
    ensures d in fins
  {
    assert forall x: Direction :: x.Forward? || x.Backward?;
    assert fins[0] == d || fins[1] == d;
  }

  lemma {:induction false} BothFinsExtend(ps: seq<Packet>, i: int, j: int)
    requires |ps| > 0
    ensures BothFins(ps, i, j) && j < |ps| - 1 <==> BothFins(ps[..|ps| - 1], i, j)
    ensures FirstFin(ps, i) && i < |ps| - 1 <==> FirstFin(ps[..|ps| - 1], i)
  {
  }

  lemma {:induction false} ClosesExtend(ps: seq<Packet>, i: int, j: int, k: int)
    requires |ps| > 0
    ensures ClosesAt(ps, i, j, k) && k < |ps| - 1 <==> ClosesAt(ps[..|ps| - 1], i, j, k)
  {
    BothFinsExtend(ps, i, j);
    var before := ps[..|ps| - 1];
    if 0 <= k < |before| {
      assert before[..k] == ps[..k];
    }
  }

  lemma {:induction false} ClosesStep(ps: seq<Packet>)
    requires |ps| > 0
    ensures var before := ps[..|ps| - 1];
            Closes(ps) <==> Closes(before) || ClosesNow(ps)
  {
    var before := ps[..|ps| - 1];
    if Closes(before) {
      var i, j, k :| ClosesAt(before, i, j, k);
      ClosesExtend(ps, i, j, k);
    }
    if Closes(ps) {
      var i, j, k :| ClosesAt(ps, i, j, k);
      ClosesExtend(ps, i, j, k);
    }
  }

  lemma {:induction false} FinsMatchStep(ps: seq<Packet>, fins: seq<Direction>)
    requires |ps| > 0 && FinsMatch(ps[..|ps| - 1], fins)
    ensures var p := ps[|ps| - 1]; FinsMatch(ps, if PureFin(p) then WithFin(p.direction, fins) else fins)
  {
    var n := |ps| - 1;
    var before, p := ps[..n], ps[n];
    if |fins| == 0 {
      if PureFin(p) { assert FirstFin(ps, n); }
    } else if |fins| == 1 {
      var i :| FirstFin(before, i);
      assert FirstFin(ps, i);
      if PureFin(p) && p.direction != fins[0] { assert BothFins(ps, i, n); }
    } else {
      var i, j :| BothFins(before, i, j) && before[i].direction == fins[0];
      assert BothFins(ps, i, j) && ps[i].direction == fins[0];
      BothSides(p.direction, fins);
    }
  }

  lemma {:induction false} RunSoFar(ps: seq<Packet>)
    requires ps != []
    ensures var r := Run(ps);
            && (r.state == CLOSED <==> Closes(ps))
            && (r.state == RESET <==> HasRst(ps) && !Closes(ps))
            && (r.state in {HANDSHAKE, ESTABLISHED, CLOSING} ==> FinsMatch(ps, r.finDirections))
            && (r.state in {HANDSHAKE, ESTABLISHED} ==> r.finDirections == [])
            && (r.state == CLOSING ==> r.finDirections != [])
    decreases |ps|
  {
    var n := |ps| - 1;
    var before, p := ps[..n], ps[n];
    ClosesStep(ps);
    if n == 0 {
      if PureFin(p) { assert FirstFin(ps, 0); }
    } else {
      RunSoFar(before);
      assert HasRst(ps) <==> HasRst(before) || PureRst(p) by {
        if HasRst(before) { var h :| 0 <= h < |before| && PureRst(before[h]); assert PureRst(ps[h]); }
      }
      var was := Run(before);
      if was.state in {HANDSHAKE, ESTABLISHED, CLOSING} {
        FinsMatchStep(ps, was.finDirections);
        LastAckCloses(ps, was.finDirections);
      }
    }
  }

  // While the run is open, its last packet closes it exactly when the table's ACK row matches.
  lemma {:induction false} LastAckCloses(ps: seq<Packet>, fins: seq<Direction>)
    requires |ps| > 0 && FinsMatch(ps[..|ps| - 1], fins) && !HasRst(ps[..|ps| - 1])
    ensures var p := ps[|ps| - 1];
            ClosesNow(ps) <==> PureAck(p) && |fins| == 2 && p.direction != fins[1]
  {
    var n := |ps| - 1;
    var before, p := ps[..n], ps[n];
    if ClosesNow(ps) {
      var i, j :| ClosesAt(ps, i, j, n);
      BothFinsExtend(ps, i, j);
      assert BothFins(before, i, j);
    }
    if PureAck(p) && |fins| == 2 && p.direction != fins[1] {
      var i, j :| BothFins(before, i, j);
      BothFinsExtend(ps, i, j);
      assert ClosesAt(ps, i, j, n);
    }
  }

  ghost predicate Open(ps: seq<Packet>) { !HasRst(ps) && !Closes(ps) }

  ghost predicate HasFin(ps: seq<Packet>) { exists h :: 0 <= h < |ps| && PureFin(ps[h]) }

  ghost predicate HasAck(ps: seq<Packet>) { exists h :: 0 <= h < |ps| && PureAck(ps[h]) }

  lemma {:induction false} OneMorePacket(ps: seq<Packet>)
    requires ps != []
    ensures var before, p := ps[..|ps| - 1], ps[|ps| - 1];
            && (HasFin(ps) <==> HasFin(before) || PureFin(p)) && (HasAck(ps) <==> HasAck(before) || PureAck(p))
            && (HasRst(ps) <==> HasRst(before) || PureRst(p))
  {
    var before := ps[..|ps| - 1];
    assert forall h :: 0 <= h < |before| ==> before[h] == ps[h];
  }

  lemma {:induction false} OpenStates(ps: seq<Packet>)
    requires ps != []
    ensures Run(ps).state == CLOSING <==> Open(ps) && HasFin(ps)
    ensures Run(ps).state == HANDSHAKE <==> Open(ps) && !HasFin(ps) && !HasAck(ps) && SYN in ps[0].flags
    decreases |ps|
  {
    OneMorePacket(ps);
    RunSoFar(ps);
    ClosesStep(ps);
    if |ps| > 1 {
      OpenStates(ps[..|ps| - 1]);
      RunSoFar(ps[..|ps| - 1]);
    } else {
      assert !HasFin(ps[..0]) && !HasAck(ps[..0]);
    }
  }

  // The packets before the one that resets or closes the run, or all of them.
  ghost predicate OpenPart(ps: seq<Packet>, n: nat) {
    && n <= |ps| && Open(ps[..n])
    && (n < |ps| ==> PureRst(ps[n]) || ClosesNow(ps[..n + 1]))
  }

  // The packet that resets or closes a run leaves the FIN directions as they were.
  lemma {:induction false} LastPacketEnds(ps: seq<Packet>)
    requires ps != [] && !Open(ps) && Open(ps[..|ps| - 1])
    ensures PureRst(ps[|ps| - 1]) || ClosesNow(ps)
    ensures FinsMatch(ps[..|ps| - 1], Run(ps).finDirections)
  {
    OneMorePacket(ps);
    ClosesStep(ps);
    if |ps| > 1 {
      RunSoFar(ps[..|ps| - 1]);
      LastAckCloses(ps, Run(ps[..|ps| - 1]).finDirections);
    }
  }

  // The FIN directions are those of the open part: an RST, and whatever follows the end, adds none.
  lemma {:induction false} FinsOfOpenPart(ps: seq<Packet>) returns (n: nat)
    requires ps != []
    ensures OpenPart(ps, n) && FinsMatch(ps[..n], Run(ps).finDirections)
    decreases |ps|
  {
    var before := ps[..|ps| - 1];
    assert ps[..|ps|] == ps;
    RunSoFar(ps);
    if Open(ps) {
      n := |ps|;
    } else if |ps| == 1 || Open(before) {
      n := |ps| - 1;
      LastPacketEnds(ps);
    } else {
      n := FinsOfOpenPart(before);
      assert before[..n] == ps[..n] && before[..n + 1] == ps[..n + 1];
      RunSoFar(before);
    }
  }

  // The state of a run is decided by its packets: closed by FIN, FIN and ACK, else reset by an RST, else closing after
  // a FIN, else in its handshake while there was a SYN first and no ACK. Its FIN directions are the sides that sent
  // FINs before it was closed or reset, in their order.
  lemma {:induction false} RunCharacterised(ps: seq<Packet>)
    requires ps != []
    ensures var r := Run(ps);
            && (r.state == CLOSED <==> Closes(ps))
            && (r.state == RESET <==> HasRst(ps) && !Closes(ps))
            && (r.state == CLOSING <==> Open(ps) && HasFin(ps))
            && (r.state == HANDSHAKE <==> Open(ps) && !HasFin(ps) && !HasAck(ps) && SYN in ps[0].flags)
            && exists n: nat :: OpenPart(ps, n) && FinsMatch(ps[..n], r.finDirections)
  {
    RunSoFar(ps);
    OpenStates(ps);
    var n := FinsOfOpenPart(ps);
  }

  // A connection has announced its end exactly when a FIN or an RST without SYN came.
  lemma {:induction false} EndedExactlyWhen(ps: seq<Packet>)
    requires ps != []
    ensures Run(ps).state in {CLOSING, CLOSED, RESET} <==>
              exists h :: 0 <= h < |ps| && SYN !in ps[h].flags && (FIN in ps[h].flags || RST in ps[h].flags)
  {
    RunCharacterised(ps);
    if Closes(ps) {
      var i, j, k :| ClosesAt(ps, i, j, k);
      assert PureFin(ps[i]);
    }
    assert HasFin(ps) || HasRst(ps) <==> exists h :: 0 <= h < |ps| && (PureFin(ps[h]) || PureRst(ps[h]));
  }

  // The last packet restarts the connection exactly when it carries SYN without ACK behind such a packet.
  lemma {:induction false} RestartsExactlyWhen(ps: seq<Packet>)
    requires ps != []
    ensures var n := |ps| - 1;
            Run(ps).restart <==>
              && SYN in ps[n].flags && ACK !in ps[n].flags
              && exists h :: 0 <= h < n && SYN !in ps[h].flags && (FIN in ps[h].flags || RST in ps[h].flags)
  {
    var before := ps[..|ps| - 1];
    assert forall h :: 0 <= h < |before| ==> ps[h] == before[h];
    if before != [] {
      EndedExactlyWhen(before);
    }
  }

  // The close in one line: FIN, FIN of the other side, ACK of the first side, and no RST before the ACK.
  lemma {:induction false} ClosedExactlyWhen(ps: seq<Packet>)
    requires ps != []
    ensures Run(ps).state == CLOSED <==> exists i, j, k :: ClosesAt(ps, i, j, k)
  {
    RunCharacterised(ps);
  }

  // ---------- What every step keeps ----------

  function Progress(state: TcpState): nat {
    match state
    case HANDSHAKE => 0
    case ESTABLISHED => 1
    case CLOSING => 2
    case CLOSED => 3
    case RESET => 3
  }

  // The state never moves back, and CLOSED and RESET are absorbing, with their FIN directions.
  lemma {:induction false} NeverMovesBack(ps: seq<Packet>, n: nat)
    requires 0 < n <= |ps|
    ensures Progress(Run(ps[..n]).state) <= Progress(Run(ps).state)
    ensures Run(ps[..n]).state in {CLOSED, RESET} ==>
              Run(ps).state == Run(ps[..n]).state && Run(ps).finDirections == Run(ps[..n]).finDirections
    decreases |ps| - n
  {
    if n == |ps| {
      assert ps[..n] == ps;
    } else {
      assert ps[..n + 1][..n] == ps[..n];
      NeverMovesBack(ps, n + 1);
    }
  }

  // The FIN directions as the state demands: none, at least one, or both sides.
  lemma {:induction false} FinDirectionsFitState(ps: seq<Packet>)
    requires ps != []
    ensures var r := Run(ps);
            && (r.state in {HANDSHAKE, ESTABLISHED} ==> r.finDirections == [])
            && (r.state == CLOSING ==> 1 <= |r.finDirections|)
            && (r.state == CLOSED ==> |r.finDirections| == 2)
            && |r.finDirections| <= 2
            && (|r.finDirections| == 2 ==> r.finDirections[0] != r.finDirections[1])
    decreases |ps|
  {
    if |ps| > 1 {
      FinDirectionsFitState(ps[..|ps| - 1]);
      var fins, d := Run(ps[..|ps| - 1]).finDirections, ps[|ps| - 1].direction;
      if |fins| == 2 { BothSides(d, fins); }
    }
  }
}
