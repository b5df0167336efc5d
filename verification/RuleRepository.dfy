// The rule repository: which parsed rules it accepts, and the protocol and port index over them.
module RuleRepository {
  import opened Base
  import opened RuleMatch

  datatype RuleStatus = Valid | Invalid | Unsupported | Disabled

  datatype Reason = NoReason | DuplicateSid(sid: int) | DisabledSid(sid: int) | ParserReason(text: string)

  datatype ParsedRule = ParsedRule(file: string, line: nat, text: string, status: RuleStatus, reason: Reason,
                                   rule: Option<Rule>)

  datatype ProtocolIndex = ProtocolIndex(byPort: map<int, seq<Rule>>, wildcard: seq<Rule>)

  // ---------- Which rules are accepted ----------

  predicate Usable(parsed: ParsedRule) { parsed.rule.Some? && parsed.status == Valid }

  // An earlier entry has claimed the sid, whether or not that entry was disabled.
  ghost predicate Claimed(parsed: seq<ParsedRule>, sid: int) {
    exists j :: 0 <= j < |parsed| && Usable(parsed[j]) && parsed[j].rule.value.sid == sid
  }

  ghost predicate AcceptedAt(parsed: seq<ParsedRule>, disabled: set<int>, i: nat)
    requires i < |parsed|
  {
    && Usable(parsed[i])
    && !Claimed(parsed[..i], parsed[i].rule.value.sid)
    && parsed[i].rule.value.sid !in disabled
  }

  // The accepted rules and the report entries of the others, in file order.
  ghost function Accepted(parsed: seq<ParsedRule>, disabled: set<int>): seq<Rule> {
    if parsed == [] then []
    else
      var n := |parsed| - 1;
      Accepted(parsed[..n], disabled) + if AcceptedAt(parsed, disabled, n) then [parsed[n].rule.value] else []
  }

  ghost function Rejected(parsed: seq<ParsedRule>, disabled: set<int>): seq<ParsedRule> {
    if parsed == [] then []
    else
      var n := |parsed| - 1;
      var entry := parsed[n];
      Rejected(parsed[..n], disabled)
      + if !Usable(entry) || AcceptedAt(parsed, disabled, n) then []
        else if Claimed(parsed[..n], entry.rule.value.sid) then
          [entry.(status := Invalid, reason := DuplicateSid(entry.rule.value.sid), rule := None)]
        else [entry.(status := Disabled, reason := DisabledSid(entry.rule.value.sid))]
  }

  ghost predicate DistinctSids(rules: seq<Rule>) {
    forall i, j :: 0 <= i < j < |rules| ==> rules[i].sid != rules[j].sid
  }

  // No two accepted rules share a sid, and no accepted rule is disabled.
  lemma {:induction false} AcceptedSids(parsed: seq<ParsedRule>, disabled: set<int>)
    ensures DistinctSids(Accepted(parsed, disabled))
    ensures forall r :: r in Accepted(parsed, disabled) ==> r.sid !in disabled && Claimed(parsed, r.sid)
  {
    if parsed != [] {
      var n := |parsed| - 1;
      AcceptedSids(parsed[..n], disabled);
      forall r | r in Accepted(parsed, disabled) ensures r.sid !in disabled && Claimed(parsed, r.sid) {
        if r in Accepted(parsed[..n], disabled) {
          var j :| 0 <= j < n && Usable(parsed[..n][j]) && parsed[..n][j].rule.value.sid == r.sid;
          assert Usable(parsed[j]);
        } else {
          assert Usable(parsed[n]) && parsed[n].rule.value.sid == r.sid;
        }
      }
    }
  }

  // A report entry is that of an entry: its own file, line and text, and why it is not accepted.
  ghost predicate IsReportOf(report: ParsedRule, entry: ParsedRule, claimed: bool)
    requires entry.rule.Some?
  {
    && report.file == entry.file && report.line == entry.line && report.text == entry.text
    && if claimed then
         report.status == Invalid && report.reason == DuplicateSid(entry.rule.value.sid) && report.rule == None
       else
         report.status == Disabled && report.reason == DisabledSid(entry.rule.value.sid) && report.rule == entry.rule
  }

  // A usable entry stands in one list, at the place behind those of the entries before it.
  ghost predicate Filed(parsed: seq<ParsedRule>, disabled: set<int>, i: nat)
    requires i < |parsed| && Usable(parsed[i])
  {
    var accepted, rejected := Accepted(parsed, disabled), Rejected(parsed, disabled);
    var m, n := |Accepted(parsed[..i], disabled)|, |Rejected(parsed[..i], disabled)|;
    if AcceptedAt(parsed, disabled, i) then m < |accepted| && accepted[m] == parsed[i].rule.value
    else n < |rejected| && IsReportOf(rejected[n], parsed[i], Claimed(parsed[..i], parsed[i].rule.value.sid))
  }

  lemma {:induction false} ListsGrow(parsed: seq<ParsedRule>, disabled: set<int>, i: nat)
    requires i <= |parsed|
    ensures Accepted(parsed[..i], disabled) <= Accepted(parsed, disabled)
    ensures Rejected(parsed[..i], disabled) <= Rejected(parsed, disabled)
    decreases |parsed|
  {
    if i == |parsed| {
      assert parsed[..i] == parsed;
    } else {
      var front := parsed[..|parsed| - 1];
      ListsGrow(front, disabled, i);
      assert front[..i] == parsed[..i];
    }
  }

  lemma {:induction false} FiledAtOnce(parsed: seq<ParsedRule>, disabled: set<int>)
    requires parsed != [] && Usable(parsed[|parsed| - 1])
    ensures Filed(parsed, disabled, |parsed| - 1)
  {
  }

  lemma {:induction false} EntryIsFiled(parsed: seq<ParsedRule>, disabled: set<int>, i: nat)
    requires i < |parsed| && Usable(parsed[i])
    ensures Filed(parsed, disabled, i)
  {
    var upTo := parsed[..i + 1];
    assert upTo[..i] == parsed[..i] && upTo[i] == parsed[i];
    FiledAtOnce(upTo, disabled);
    ListsGrow(parsed, disabled, i + 1);
  }

  // Every usable entry is in exactly one list, the accepted rules or the report, at its own place, and neither list
  // holds anything else.
  lemma {:induction false} NoEntryIsLost(parsed: seq<ParsedRule>, disabled: set<int>)
    ensures forall i :: 0 <= i < |parsed| && Usable(parsed[i]) ==> Filed(parsed, disabled, i)
    ensures |Accepted(parsed, disabled)| + |Rejected(parsed, disabled)| == UsableCount(parsed)
  {
    forall i | 0 <= i < |parsed| && Usable(parsed[i]) ensures Filed(parsed, disabled, i) {
      EntryIsFiled(parsed, disabled, i);
    }
    EntriesAreCounted(parsed, disabled);
  }

  lemma {:induction false} EntriesAreCounted(parsed: seq<ParsedRule>, disabled: set<int>)
    ensures |Accepted(parsed, disabled)| + |Rejected(parsed, disabled)| == UsableCount(parsed)
  {
    if parsed != [] {
      EntriesAreCounted(parsed[..|parsed| - 1], disabled);
    }
  }

  function UsableCount(parsed: seq<ParsedRule>): nat {
    if parsed == [] then 0 else UsableCount(parsed[..|parsed| - 1]) + if Usable(parsed[|parsed| - 1]) then 1 else 0
  }

  // ---------- The index ----------

  predicate Single(port: Option<PortRange>) { port.Some? && port.value.low == port.value.high }

  // A matching record shows one of these ports. A rule without such a port is listed under the wildcard.
  function SinglePorts(rule: Rule): seq<int> {
    if rule.arrow == OneWay then (if Single(rule.dstPort) then [rule.dstPort.value.low] else [])
    else
      (if Single(rule.srcPort) then [rule.srcPort.value.low] else [])
      + (if Single(rule.dstPort) then [rule.dstPort.value.low] else [])
  }

  function RuleProtocolOf(n: Normalized): Option<RuleProtocol> {
    var name := if n.protocol.Some? then Lower(n.protocol.value) else "none";
    if name == "tcp" then Some(Tcp) else if name == "udp" then Some(Udp) else None
  }

  predicate ShowsPort(n: Normalized, port: int) { n.srcPort == Some(port) || n.dstPort == Some(port) }

  // What the index returns a rule for.
  predicate Candidate(rule: Rule, n: Normalized) {
    && RuleProtocolOf(n).Some?
    && (rule.protocol == Ip
        || (rule.protocol == RuleProtocolOf(n).value
            && (SinglePorts(rule) == [] || exists port :: port in SinglePorts(rule) && ShowsPort(n, port))))
  }

  lemma {:induction false} UpperNames()
    ensures Upper("tcp") == "TCP" && Upper("udp") == "UDP"
  {
    assert Upper("tcp") == "TCP" && Upper("udp") == "UDP";
  }

  // The index drops no rule whose header matches, in either orientation and for every protocol.
  lemma {:induction false} IndexDropsNoMatch(rule: Rule, n: Normalized)
    requires HeaderMatches(rule, n)
    ensures Candidate(rule, n)
  {
    var name := GetOr(n.protocol, "");
    SameProtocolEitherCase(name, Tcp);
    SameProtocolEitherCase(name, Udp);
    UpperNames();
    var ports := SinglePorts(rule);
    if rule.protocol != Ip && ports != [] {
      assert ShowsPort(n, ports[0]);
    }
  }

  lemma {:induction false} SinglePortsSaid(rule: Rule)
    ensures forall port :: port in SinglePorts(rule) <==>
              (!Several(rule.dstPort) && port == rule.dstPort.value.low)
              || (rule.arrow != OneWay && !Several(rule.srcPort) && port == rule.srcPort.value.low)
    ensures SinglePorts(rule) == [] <==> Several(rule.dstPort) && (rule.arrow == OneWay || Several(rule.srcPort))
  {
  }

  // A record of no protocol the rules know has no candidates. A record over TCP or UDP has the ip rules, and the rules
  // of its protocol unless they name a single port on a side that decides and the record shows none of those.
  lemma {:induction false} CandidatesSaid(rule: Rule, n: Normalized)
    ensures Candidate(rule, n) <==>
              && n.protocol.Some? && Lower(n.protocol.value) in {"tcp", "udp"}
              && (rule.protocol == Ip
                  || (rule.protocol == (if Lower(n.protocol.value) == "tcp" then Tcp else Udp) && PortsAllow(rule, n)))
  {
    assert "none" != "tcp" && "none" != "udp";
    SinglePortsSaid(rule);
    if Shown(rule.srcPort, n) { assert ShowsPort(n, rule.srcPort.value.low); }
    if Shown(rule.dstPort, n) { assert ShowsPort(n, rule.dstPort.value.low); }
  }

  // A side names one port, and that port is one of the record's.
  predicate Shown(port: Option<PortRange>, n: Normalized) {
    port.Some? && port.value.low == port.value.high
    && (n.srcPort == Some(port.value.low) || n.dstPort == Some(port.value.low))
  }

  predicate Several(port: Option<PortRange>) { port.None? || port.value.low != port.value.high }

  // A one-way rule is decided by its destination, a two-way rule by both sides.
  predicate PortsAllow(rule: Rule, n: Normalized) {
    if rule.arrow == OneWay then Several(rule.dstPort) || Shown(rule.dstPort, n)
    else (Several(rule.srcPort) && Several(rule.dstPort)) || Shown(rule.srcPort, n) || Shown(rule.dstPort, n)
  }

  predicate Listed(index: ProtocolIndex, port: int, r: Rule) { port in index.byPort && r in index.byPort[port] }

  // An index holds each accepted rule of its protocol where a lookup will find it, and nothing else.
  ghost predicate IndexHolds(index: ProtocolIndex, p: RuleProtocol, accepted: seq<Rule>) {
    && (forall r :: r in index.wildcard <==> r in accepted && r.protocol == p && SinglePorts(r) == [])
    && (forall port, r :: Listed(index, port, r) <==> r in accepted && r.protocol == p && port in SinglePorts(r))
  }

  ghost predicate TableHolds(rules: map<int, Rule>, ipRules: seq<Rule>, accepted: seq<Rule>) {
    && DistinctSids(accepted)
    && (forall r :: r in accepted ==> r.sid in rules && rules[r.sid] == r)
    && (forall sid :: sid in rules ==> rules[sid] in accepted && rules[sid].sid == sid)
    && (forall r :: r in ipRules <==> r in accepted && r.protocol == Ip)
  }

  function OneListed(index: ProtocolIndex, port: int, rule: Rule): (next: ProtocolIndex)
    ensures next.wildcard == index.wildcard
    ensures forall q, r :: Listed(next, q, r) <==> Listed(index, q, r) || (r == rule && q == port)
  {
    var listed := if port in index.byPort then index.byPort[port] else [];
    index.(byPort := index.byPort[port := listed + [rule]])
  }

  method WithListed(index: ProtocolIndex, ports: seq<int>, rule: Rule) returns (next: ProtocolIndex)
    ensures next.wildcard == index.wildcard
    ensures forall port, r :: Listed(next, port, r) <==> Listed(index, port, r) || (r == rule && port in ports)
  {
    next := index;
    for k := 0 to |ports|
      invariant next.wildcard == index.wildcard
      invariant forall port, r :: Listed(next, port, r) <==> Listed(index, port, r) || (r == rule && port in ports[..k])
    {
      assert forall port :: port in ports[..k + 1] <==> port in ports[..k] || port == ports[k];
      next := OneListed(next, ports[k], rule);
    }
    assert ports[..|ports|] == ports;
  }

  // One more rule of the protocol of an index.
  method WithRule(index: ProtocolIndex, rule: Rule, ghost accepted: seq<Rule>) returns (next: ProtocolIndex)
    requires IndexHolds(index, rule.protocol, accepted)
    ensures IndexHolds(next, rule.protocol, accepted + [rule])
  {
    var ports := SinglePorts(rule);
    next := index;
    if ports == [] {
      next := next.(wildcard := next.wildcard + [rule]);
    }
    next := WithListed(next, ports, rule);
    assert forall port, r :: Listed(next, port, r) <==> Listed(index, port, r) || (r == rule && port in ports);
    assert forall r :: r in accepted + [rule] <==> r in accepted || r == rule;
  }

  class Repository {
    var rules: map<int, Rule>
    var ipRules: seq<Rule>
    var tcp: ProtocolIndex
    var udp: ProtocolIndex
    var rejected: seq<ParsedRule>
    ghost var accepted: seq<Rule>

    ghost predicate Holds()
      reads this
    {
      && TableHolds(rules, ipRules, accepted)
      && IndexHolds(tcp, Tcp, accepted)
      && IndexHolds(udp, Udp, accepted)
    }

    constructor (parsed: seq<ParsedRule>, disabledSids: set<int>)
      ensures Holds()
      ensures accepted == Accepted(parsed, disabledSids)
      ensures rejected == Rejected(parsed, disabledSids)
    {
      rules, ipRules, rejected, accepted := map[], [], [], [];
      tcp, udp := ProtocolIndex(map[], []), ProtocolIndex(map[], []);
      new;
      var seen: set<int> := {};
      var i := 0;
      while i < |parsed|
        invariant i <= |parsed| && Holds()
        invariant accepted == Accepted(parsed[..i], disabledSids)
        invariant rejected == Rejected(parsed[..i], disabledSids)
        invariant forall sid :: sid in seen <==> Claimed(parsed[..i], sid)
      {
        ClaimedNext(parsed, i);
        AcceptedNext(parsed, disabledSids, i, seen);
        seen := AddEntry(parsed[i], seen, disabledSids);
        i := i + 1;
      }
      assert parsed[..i] == parsed;
    }

    // One parsed entry: skipped, reported as duplicate or disabled, or added.
    method AddEntry(entry: ParsedRule, seen: set<int>, disabled: set<int>) returns (now: set<int>)
      requires Holds() && forall r :: r in accepted ==> r.sid in seen
      modifies this
      ensures Holds()
      ensures now == if Usable(entry) then seen + {entry.rule.value.sid} else seen
      ensures accepted == old(accepted) + if Usable(entry) then Taken(entry, seen, disabled) else []
      ensures rejected == old(rejected) + if Usable(entry) then Reported(entry, seen, disabled) else []
    {
      if entry.rule.None? || entry.status != Valid {
        return seen;
      }
      var rule := entry.rule.value;
      now := seen + {rule.sid};
      if rule.sid in seen || rule.sid in disabled {
        rejected := rejected + Reported(entry, seen, disabled);
      } else {
        Add(rule);
      }
    }

    method Add(rule: Rule)
      requires Holds() && forall r :: r in accepted ==> r.sid != rule.sid
      modifies this
      ensures Holds() && accepted == old(accepted) + [rule] && rejected == old(rejected)
    {
      TableGains(rules, ipRules, accepted, rule);
      if rule.protocol != Tcp { IndexIgnores(tcp, Tcp, accepted, rule); }
      if rule.protocol != Udp { IndexIgnores(udp, Udp, accepted, rule); }
      rules := rules[rule.sid := rule];
      match rule.protocol {
        case Ip => ipRules := ipRules + [rule];
        case Tcp => tcp := WithRule(tcp, rule, accepted);
        case Udp => udp := WithRule(udp, rule, accepted);
      }
      accepted := accepted + [rule];
    }

    // The rules to try for a record, in sid order.
    method Candidates(n: Normalized) returns (found: seq<Rule>)
      requires Holds()
      ensures SidsIncrease(found)
      ensures forall r :: r in found <==> r in accepted && Candidate(r, n)
    {
      var protocol := RuleProtocolOf(n);
      if protocol.None? {
        return [];
      }
      var index := if protocol.value == Tcp then tcp else udp;
      var all := index.wildcard + ipRules + PortRules(index, n.srcPort) + PortRules(index, n.dstPort);
      CandidatesAreListed(index, protocol.value, ipRules, accepted, n);
      found := BySid(all, accepted);
    }
  }

  function PortRules(index: ProtocolIndex, port: Option<int>): seq<Rule> {
    if port.Some? && port.value in index.byPort then index.byPort[port.value] else []
  }

  // The lookups of an index and the ip rules give exactly the candidates.
  lemma {:induction false} CandidatesAreListed(
    index: ProtocolIndex, p: RuleProtocol, ipRules: seq<Rule>, accepted: seq<Rule>, n: Normalized)
    requires IndexHolds(index, p, accepted) && RuleProtocolOf(n) == Some(p)
    requires forall r :: r in ipRules <==> r in accepted && r.protocol == Ip
    ensures forall r :: r in index.wildcard + ipRules + PortRules(index, n.srcPort) + PortRules(index, n.dstPort) <==>
              r in accepted && Candidate(r, n)
  {
    forall r
      ensures r in index.wildcard + ipRules + PortRules(index, n.srcPort) + PortRules(index, n.dstPort) <==>
                r in accepted && Candidate(r, n)
    {
      assert r in PortRules(index, n.srcPort) <==> n.srcPort.Some? && Listed(index, n.srcPort.value, r);
      assert r in PortRules(index, n.dstPort) <==> n.dstPort.Some? && Listed(index, n.dstPort.value, r);
      if r in accepted && Candidate(r, n) && r.protocol == p && SinglePorts(r) != [] {
        var port :| port in SinglePorts(r) && ShowsPort(n, port);
        assert Listed(index, port, r);
      }
      if r in PortRules(index, n.srcPort) { assert ShowsPort(n, n.srcPort.value); }
      if r in PortRules(index, n.dstPort) { assert ShowsPort(n, n.dstPort.value); }
    }
  }

  // ---------- Collecting by sid: a dictionary keyed by sid, read in sorted order ----------

  ghost predicate SidsIncrease(rules: seq<Rule>) {
    forall i, j :: 0 <= i < j < |rules| ==> rules[i].sid < rules[j].sid
  }

  method BySid(rules: seq<Rule>, ghost accepted: seq<Rule>) returns (sorted: seq<Rule>)
    requires DistinctSids(accepted) && forall r :: r in rules ==> r in accepted
    ensures SidsIncrease(sorted)
    ensures forall r :: r in sorted <==> r in rules
  {
    sorted := [];
    for i := 0 to |rules|
      invariant SidsIncrease(sorted)
      invariant forall r :: r in sorted <==> r in rules[..i]
    {
      OneRulePerSid(accepted, sorted, rules[i]);
      sorted := Put(sorted, rules[i]);
    }
    assert rules[..|rules|] == rules;
  }

  lemma {:induction false} OneRulePerSid(accepted: seq<Rule>, sorted: seq<Rule>, rule: Rule)
    requires DistinctSids(accepted) && rule in accepted && forall r :: r in sorted ==> r in accepted
    ensures forall r :: r in sorted && r.sid == rule.sid ==> r == rule
  {
    forall r | r in sorted && r.sid == rule.sid ensures r == rule {
      var i :| 0 <= i < |accepted| && accepted[i] == r;
      var j :| 0 <= j < |accepted| && accepted[j] == rule;
    }
  }

  // A rule takes its place in sid order, and the place of an entry with the same sid.
  function Put(sorted: seq<Rule>, rule: Rule): (r: seq<Rule>)
    requires SidsIncrease(sorted) && forall x :: x in sorted && x.sid == rule.sid ==> x == rule
    ensures SidsIncrease(r)
    ensures forall x :: x in r <==> x in sorted || x == rule
  {
    if sorted == [] || rule.sid < sorted[0].sid then [rule] + sorted
    else if rule.sid == sorted[0].sid then sorted
    else
      var rest := Put(sorted[1..], rule);
      assert sorted == [sorted[0]] + sorted[1..];
      assert forall i :: 0 <= i < |rest| ==> rest[i] in rest;
      [sorted[0]] + rest
  }

  // What one usable entry adds to the accepted rules, and to the report.
  function Taken(entry: ParsedRule, seen: set<int>, disabled: set<int>): seq<Rule>
    requires Usable(entry)
  {
    var sid := entry.rule.value.sid;
    if sid in seen || sid in disabled then [] else [entry.rule.value]
  }

  function Reported(entry: ParsedRule, seen: set<int>, disabled: set<int>): seq<ParsedRule>
    requires Usable(entry)
  {
    var sid := entry.rule.value.sid;
    if sid in seen then [entry.(status := Invalid, reason := DuplicateSid(sid), rule := None)]
    else if sid in disabled then [entry.(status := Disabled, reason := DisabledSid(sid))]
    else []
  }

  lemma {:induction false} AcceptedNext(parsed: seq<ParsedRule>, disabled: set<int>, i: nat, seen: set<int>)
    requires i < |parsed| && forall sid :: sid in seen <==> Claimed(parsed[..i], sid)
    ensures var entry := parsed[i];
            && Accepted(parsed[..i + 1], disabled)
               == Accepted(parsed[..i], disabled) + (if Usable(entry) then Taken(entry, seen, disabled) else [])
            && Rejected(parsed[..i + 1], disabled)
               == Rejected(parsed[..i], disabled) + (if Usable(entry) then Reported(entry, seen, disabled) else [])
    ensures forall r :: r in Accepted(parsed[..i], disabled) ==> r.sid in seen
  {
    assert parsed[..i + 1][..i] == parsed[..i];
    AcceptedSids(parsed[..i], disabled);
  }

  lemma {:induction false} TableGains(rules: map<int, Rule>, ipRules: seq<Rule>, accepted: seq<Rule>, rule: Rule)
    requires TableHolds(rules, ipRules, accepted) && forall r :: r in accepted ==> r.sid != rule.sid
    ensures TableHolds(rules[rule.sid := rule], if rule.protocol == Ip then ipRules + [rule] else ipRules,
                       accepted + [rule])
  {
  }

  lemma {:induction false} IndexIgnores(index: ProtocolIndex, p: RuleProtocol, accepted: seq<Rule>, rule: Rule)
    requires IndexHolds(index, p, accepted) && rule.protocol != p
    ensures IndexHolds(index, p, accepted + [rule])
  {
  }

  lemma {:induction false} ClaimedNext(parsed: seq<ParsedRule>, i: nat)
    requires i < |parsed|
    ensures forall sid :: Claimed(parsed[..i + 1], sid) <==>
              Claimed(parsed[..i], sid) || (Usable(parsed[i]) && parsed[i].rule.value.sid == sid)
  {
    forall sid
      ensures Claimed(parsed[..i + 1], sid)
              <==> Claimed(parsed[..i], sid) || (Usable(parsed[i]) && parsed[i].rule.value.sid == sid)
    {
      if Claimed(parsed[..i], sid) {
        var j :| 0 <= j < i && Usable(parsed[..i][j]) && parsed[..i][j].rule.value.sid == sid;
        assert parsed[..i + 1][j] == parsed[..i][j];
      }
      if Usable(parsed[i]) && parsed[i].rule.value.sid == sid {
        assert parsed[..i + 1][i] == parsed[i];
      }
      if Claimed(parsed[..i + 1], sid) {
        var j :| 0 <= j < i + 1 && Usable(parsed[..i + 1][j]) && parsed[..i + 1][j].rule.value.sid == sid;
        assert j < i ==> parsed[..i][j] == parsed[..i + 1][j];
      }
    }
  }
}
