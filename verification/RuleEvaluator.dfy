// Evaluating one record against its candidate rules, and the counters of the run.
module RuleEvaluator {
  import opened Base
  import opened FlowModel
  import opened ContentMatch
  import opened RuleMatch
  import opened RuleRepository

  // A record as the evaluator reads it. A non-empty value under "normalized" that is not an object raises an error. An
  // empty one reads as an object without fields, which has no candidates.
  datatype View = Malformed | View(normalized: Normalized)

  datatype Record = Record(keep: bool, view: View, payloadHex: Option<Bytes>, payloadPreview: Option<Bytes>)

  // The stored payload, else the preview, else nothing.
  function PayloadOf(record: Record): Bytes {
    if record.payloadHex.Some? then record.payloadHex.value
    else GetOr(record.payloadPreview, [])
  }

  // The preview counts only without the stored payload, which may be empty.
  lemma {:induction false} StoredPayloadGoesFirst(record: Record, bytes: Bytes)
    ensures PayloadOf(record.(payloadHex := Some(bytes))) == bytes
    ensures PayloadOf(record.(payloadHex := None, payloadPreview := Some(bytes))) == bytes
    ensures PayloadOf(record.(payloadHex := None, payloadPreview := None)) == []
  {
  }

  datatype Hit = Hit(rule: Rule, result: MatchResult)

  // What evaluating every accepted rule must give: the matching rules, once each, in sid order, with their reports.
  ghost predicate IsEvaluation(accepted: seq<Rule>, n: Normalized, payload: Bytes, flow: Option<FlowContext>,
                               hits: seq<Hit>)
  {
    && (forall i, j :: 0 <= i < j < |hits| ==> hits[i].rule.sid < hits[j].rule.sid)
    && (forall i :: 0 <= i < |hits| ==>
          hits[i].rule in accepted && Matches(hits[i].rule, n, payload, flow)
          && Reports(hits[i].rule, n, payload, flow, hits[i].result))
    && (forall r :: r in accepted && Matches(r, n, payload, flow) ==> exists i :: 0 <= i < |hits| && hits[i].rule == r)
  }

  // There is only one such list.
  lemma {:induction false} EvaluationIsUnique(
    accepted: seq<Rule>, n: Normalized, payload: Bytes, flow: Option<FlowContext>, xs: seq<Hit>, ys: seq<Hit>)
    requires DistinctSids(accepted)
    requires IsEvaluation(accepted, n, payload, flow, xs) && IsEvaluation(accepted, n, payload, flow, ys)
    ensures xs == ys
  {
    SameHits(accepted, n, payload, flow, xs, ys, 0);
    SameHits(accepted, n, payload, flow, ys, xs, 0);
  }

  // Both lists agree from a common prefix on, as long as the first one goes on.
  lemma {:induction false} PrefixGrows(xs: seq<Hit>, ys: seq<Hit>, k: nat)
    requires k < |xs| && k < |ys| && xs[..k] == ys[..k] && xs[k] == ys[k]
    ensures xs[..k + 1] == ys[..k + 1]
  {
    assert xs[..k + 1] == xs[..k] + [xs[k]] && ys[..k + 1] == ys[..k] + [ys[k]];
  }

  lemma {:induction false} WholePrefix(xs: seq<Hit>, ys: seq<Hit>)
    requires |xs| <= |ys| && xs[..|xs|] == ys[..|xs|]
    ensures xs == ys[..|xs|]
  {
    assert xs[..|xs|] == xs;
  }

  lemma {:induction false} SameHits(
    accepted: seq<Rule>, n: Normalized, payload: Bytes, flow: Option<FlowContext>, xs: seq<Hit>, ys: seq<Hit>, k: nat)
    requires IsEvaluation(accepted, n, payload, flow, xs) && IsEvaluation(accepted, n, payload, flow, ys)
    requires k <= |xs| && k <= |ys| && xs[..k] == ys[..k]
    ensures |xs| <= |ys| && xs == ys[..|xs|]
    decreases |xs| - k
  {
    if k == |xs| {
      WholePrefix(xs, ys);
    } else {
      SameHit(accepted, n, payload, flow, xs, ys, k);
      PrefixGrows(xs, ys, k);
      SameHits(accepted, n, payload, flow, xs, ys, k + 1);
    }
  }

  lemma {:induction false} SameHit(
    accepted: seq<Rule>, n: Normalized, payload: Bytes, flow: Option<FlowContext>, xs: seq<Hit>, ys: seq<Hit>, k: nat)
    requires IsEvaluation(accepted, n, payload, flow, xs) && IsEvaluation(accepted, n, payload, flow, ys)
    requires k < |xs| && k <= |ys| && xs[..k] == ys[..k]
    ensures k < |ys| && xs[k] == ys[k]
  {
    var i := HitPosition(accepted, n, payload, flow, xs, ys, k);
    var j := HitPosition(accepted, n, payload, flow, ys, xs, k);
    assert i == k;
    ReportsAgree(xs[k].rule, n, payload, flow, xs[k].result, ys[k].result);
  }

  // Where a hit of one list stands in the other, not before the common prefix ends.
  lemma {:induction false} HitPosition(
    accepted: seq<Rule>, n: Normalized, payload: Bytes, flow: Option<FlowContext>, xs: seq<Hit>, ys: seq<Hit>, k: nat)
    returns (i: nat)
    requires IsEvaluation(accepted, n, payload, flow, xs) && IsEvaluation(accepted, n, payload, flow, ys)
    requires k < |xs| && k <= |ys| && xs[..k] == ys[..k]
    ensures k <= i < |ys| && ys[i].rule == xs[k].rule
  {
    i :| 0 <= i < |ys| && ys[i].rule == xs[k].rule;
    assert forall q :: 0 <= q < k ==> xs[q] == xs[..k][q] && ys[q] == ys[..k][q];
  }

  predicate Counts(rejected: map<Stage, nat>) {
    HeaderStage in rejected && FlowStage in rejected && PacketStage in rejected && ContentStage in rejected
  }

  function Total(rejected: map<Stage, nat>): nat
    requires Counts(rejected)
  {
    rejected[HeaderStage] + rejected[FlowStage] + rejected[PacketStage] + rejected[ContentStage]
  }

  // How many of the first results failed at a stage.
  function Failed(results: seq<Hit>, stage: Stage): nat {
    if results == [] then 0
    else Failed(results[..|results| - 1], stage) + One(results[|results| - 1].result.failedStage == Some(stage))
  }

  // The accepted rules that the index returns for a record, and those of them that fail first at a stage.
  ghost function CandidateSet(accepted: seq<Rule>, n: Normalized): set<Rule> {
    set r | r in accepted && Candidate(r, n)
  }

  ghost function FailingAt(accepted: seq<Rule>, n: Normalized, payload: Bytes, flow: Option<FlowContext>,
                           stage: Stage): set<Rule>
  {
    set r | r in accepted && Candidate(r, n) && FailsAt(r, n, payload, flow, stage)
  }

  ghost predicate FailsAt(r: Rule, n: Normalized, payload: Bytes, flow: Option<FlowContext>, stage: Stage) {
    !Matches(r, n, payload, flow) && FirstFailure(r, n, flow) == stage
  }

  class Evaluator {
    const repository: Repository
    var recordsEvaluated: nat
    var candidateRules: nat
    var rejected: map<Stage, nat>
    var ruleMatches: nat
    var engineErrors: nat

    // Every candidate was counted once, as rejected at one stage or as a match.
    ghost predicate Valid()
      reads this, repository
    {
      && repository.Holds()
      && Counts(rejected)
      && candidateRules == Total(rejected) + ruleMatches
    }

    constructor (repository: Repository)
      requires repository.Holds()
      ensures Valid() && this.repository == repository
      ensures recordsEvaluated == candidateRules == ruleMatches == engineErrors == 0
      ensures forall stage :: stage in rejected ==> rejected[stage] == 0
    {
      this.repository := repository;
      recordsEvaluated, candidateRules, ruleMatches, engineErrors := 0, 0, 0, 0;
      rejected := map[HeaderStage := 0, FlowStage := 0, PacketStage := 0, ContentStage := 0];
    }

    // A kept and well-formed record gives its evaluation and grows the counters by it. An error grows engineErrors
    // alone.
    method Evaluate(record: Record, flow: Option<FlowContext>) returns (hits: seq<Hit>)
      requires Valid()
      modifies this
      ensures Valid()
      ensures candidateRules == rejected[HeaderStage] + rejected[FlowStage] + rejected[PacketStage]
                                + rejected[ContentStage] + ruleMatches
      ensures record.keep && record.view.View? ==>
                IsEvaluation(repository.accepted, record.view.normalized, PayloadOf(record), flow, hits)
                && recordsEvaluated == old(recordsEvaluated) + 1
                && ruleMatches == old(ruleMatches) + |hits|
                && candidateRules == old(candidateRules) + |CandidateSet(repository.accepted, record.view.normalized)|
                && (forall stage :: stage in old(rejected) ==>
                      stage in rejected
                      && rejected[stage]
                         == old(rejected[stage])
                            + |FailingAt(repository.accepted, record.view.normalized, PayloadOf(record), flow, stage)|)
                && engineErrors == old(engineErrors)
      ensures !(record.keep && record.view.View?) ==>
                && hits == []
                && recordsEvaluated == old(recordsEvaluated) && ruleMatches == old(ruleMatches)
                && candidateRules == old(candidateRules) && rejected == old(rejected)
                && engineErrors == old(engineErrors) + if record.keep then 1 else 0
    {
      if !record.keep {
        return [];
      }
      if record.view.Malformed? {
        engineErrors := engineErrors + 1;
        return [];
      }
      var n, payload := record.view.normalized, PayloadOf(record);
      var candidates := repository.Candidates(n);
      var results := MatchAll(candidates, n, payload, flow);
      recordsEvaluated := recordsEvaluated + 1;
      candidateRules := candidateRules + |candidates|;
      var counted;
      hits, counted := Sift(results, rejected);
      rejected := counted;
      ruleMatches := ruleMatches + |hits|;
      HitsAreEvaluation(repository.accepted, candidates, results, n, payload, flow, hits);
      CountsAreExact(repository.accepted, candidates, results, n, payload, flow);
    }
  }

  method MatchAll(rules: seq<Rule>, n: Normalized, payload: Bytes, flow: Option<FlowContext>)
    returns (results: seq<Hit>)
    ensures |results| == |rules|
    ensures forall i :: 0 <= i < |rules| ==>
              results[i].rule == rules[i] && Reports(rules[i], n, payload, flow, results[i].result)
  {
    results := [];
    for i := 0 to |rules|
      invariant |results| == i
      invariant forall k :: 0 <= k < i ==>
                  results[k].rule == rules[k] && Reports(rules[k], n, payload, flow, results[k].result)
    {
      var result := Match(rules[i], n, payload, flow);
      results := results + [Hit(rules[i], result)];
    }
  }

  // The results that matched, in order.
  function Matched(results: seq<Hit>): seq<Hit> {
    if results == [] then []
    else
      var last := results[|results| - 1];
      Matched(results[..|results| - 1]) + if last.result.matched then [last] else []
  }

  function Increment(counts: map<Stage, nat>, stage: Stage): (r: map<Stage, nat>)
    requires Counts(counts)
    ensures r.Keys == counts.Keys && Total(r) == Total(counts) + 1
    ensures stage in r && forall s :: s in counts ==> r[s] == counts[s] + if s == stage then 1 else 0
  {
    match stage
    case HeaderStage => counts[HeaderStage := counts[HeaderStage] + 1]
    case FlowStage => counts[FlowStage := counts[FlowStage] + 1]
    case PacketStage => counts[PacketStage := counts[PacketStage] + 1]
    case ContentStage => counts[ContentStage := counts[ContentStage] + 1]
  }

  // Separates the matches from the failures, and counts each failure at its stage.
  method Sift(results: seq<Hit>, before: map<Stage, nat>) returns (hits: seq<Hit>, counted: map<Stage, nat>)
    requires Counts(before) && forall i :: 0 <= i < |results| ==>
               results[i].result.matched == results[i].result.failedStage.None?
    ensures hits == Matched(results)
    ensures Counts(counted)
    ensures forall stage :: stage in before ==>
              stage in counted && counted[stage] == before[stage] + Failed(results, stage)
    ensures Total(counted) + |hits| == Total(before) + |results|
  {
    hits, counted := [], before;
    for i := 0 to |results|
      invariant hits == Matched(results[..i])
      invariant Counts(counted)
      invariant forall stage :: stage in before ==>
                  stage in counted && counted[stage] == before[stage] + Failed(results[..i], stage)
      invariant Total(counted) + |hits| == Total(before) + i
    {
      assert results[..i + 1][..i] == results[..i];
      var result := results[i].result;
      if result.matched {
        hits := hits + [results[i]];
      } else {
        var stage := result.failedStage.value;
        counted := Increment(counted, stage);
      }
    }
    assert results[..|results|] == results;
  }

  lemma {:induction false} MatchedAreMatches(results: seq<Hit>)
    ensures forall x :: x in Matched(results) <==> x in results && x.result.matched
  {
    if results != [] {
      MatchedAreMatches(results[..|results| - 1]);
      assert results == results[..|results| - 1] + [results[|results| - 1]];
    }
  }

  predicate SidsGrow(hits: seq<Hit>) { forall i, j :: 0 <= i < j < |hits| ==> hits[i].rule.sid < hits[j].rule.sid }

  lemma {:induction false} MatchedGrow(results: seq<Hit>)
    requires SidsGrow(results)
    ensures SidsGrow(Matched(results))
  {
    if results != [] {
      var front, last := results[..|results| - 1], results[|results| - 1];
      MatchedGrow(front);
      MatchedAreMatches(front);
      var kept := Matched(front);
      forall i | 0 <= i < |kept| ensures kept[i].rule.sid < last.rule.sid {
        assert kept[i] in front;
      }
    }
  }

  // Trying only the candidates gives the evaluation of every accepted rule.
  lemma {:induction false} HitsAreEvaluation(
    accepted: seq<Rule>, candidates: seq<Rule>, results: seq<Hit>, n: Normalized, payload: Bytes,
    flow: Option<FlowContext>, hits: seq<Hit>)
    requires SidsIncrease(candidates) && forall r :: r in candidates <==> r in accepted && Candidate(r, n)
    requires |results| == |candidates| && hits == Matched(results)
    requires forall i :: 0 <= i < |candidates| ==>
               results[i].rule == candidates[i] && Reports(candidates[i], n, payload, flow, results[i].result)
    ensures IsEvaluation(accepted, n, payload, flow, hits)
  {
    MatchedAreMatches(results);
    MatchedGrow(results);
    forall i | 0 <= i < |hits|
      ensures hits[i].rule in accepted && Matches(hits[i].rule, n, payload, flow)
              && Reports(hits[i].rule, n, payload, flow, hits[i].result)
    {
      assert hits[i] in results;
    }
    forall r | r in accepted && Matches(r, n, payload, flow) ensures exists i :: 0 <= i < |hits| && hits[i].rule == r {
      IndexDropsNoMatch(r, n);
      var k :| 0 <= k < |candidates| && candidates[k] == r;
      assert results[k] in hits;
    }
  }

  // One result for every candidate, which reports its rule.
  ghost predicate Tried(candidates: seq<Rule>, results: seq<Hit>, n: Normalized, payload: Bytes,
                        flow: Option<FlowContext>)
  {
    && |results| == |candidates|
    && forall i :: 0 <= i < |candidates| ==>
         results[i].rule == candidates[i] && Reports(candidates[i], n, payload, flow, results[i].result)
  }

  lemma {:induction false} CandidatesAreRules(
    candidates: seq<Rule>, results: seq<Hit>, n: Normalized, payload: Bytes, flow: Option<FlowContext>)
    requires Tried(candidates, results, n, payload, flow)
    ensures forall r :: r in candidates <==> r in RulesOf(results)
  {
    forall r | r in candidates ensures r in RulesOf(results) {
      var i :| 0 <= i < |candidates| && candidates[i] == r;
      assert results[i] in results;
    }
  }

  lemma {:induction false} FailuresAreRules(
    candidates: seq<Rule>, results: seq<Hit>, n: Normalized, payload: Bytes, flow: Option<FlowContext>, stage: Stage)
    requires Tried(candidates, results, n, payload, flow)
    ensures forall r :: r in FailedRules(results, stage) <==> r in candidates && FailsAt(r, n, payload, flow, stage)
  {
    forall r | r in candidates && FailsAt(r, n, payload, flow, stage) ensures r in FailedRules(results, stage) {
      var i :| 0 <= i < |candidates| && candidates[i] == r;
      assert results[i] in results;
    }
  }

  // The counters count rules, not list positions.
  lemma {:induction false} CountsAreExact(
    accepted: seq<Rule>, candidates: seq<Rule>, results: seq<Hit>, n: Normalized, payload: Bytes,
    flow: Option<FlowContext>)
    requires SidsIncrease(candidates) && forall r :: r in candidates <==> r in accepted && Candidate(r, n)
    requires Tried(candidates, results, n, payload, flow)
    ensures |candidates| == |CandidateSet(accepted, n)|
    ensures forall stage :: Failed(results, stage) == |FailingAt(accepted, n, payload, flow, stage)|
  {
    RulesCount(results);
    CandidatesAreRules(candidates, results, n, payload, flow);
    assert RulesOf(results) == CandidateSet(accepted, n);
    forall stage ensures Failed(results, stage) == |FailingAt(accepted, n, payload, flow, stage)| {
      FailedCount(results, stage);
      FailuresAreRules(candidates, results, n, payload, flow, stage);
      assert FailedRules(results, stage) == FailingAt(accepted, n, payload, flow, stage);
    }
  }

  function RulesOf(results: seq<Hit>): set<Rule> { set x | x in results :: x.rule }

  function FailedRules(results: seq<Hit>, stage: Stage): set<Rule> {
    set x | x in results && x.result.failedStage == Some(stage) :: x.rule
  }

  lemma {:induction false} RulesCount(results: seq<Hit>)
    requires forall i, j :: 0 <= i < j < |results| ==> results[i].rule.sid < results[j].rule.sid
    ensures |RulesOf(results)| == |results|
  {
    if results != [] {
      var n := |results| - 1;
      RulesCount(results[..n]);
      assert results == results[..n] + [results[n]];
      assert RulesOf(results) == RulesOf(results[..n]) + {results[n].rule};
    } else {
      assert RulesOf(results) == {};
    }
  }

  lemma {:induction false} FailedSnoc(results: seq<Hit>, x: Hit, stage: Stage)
    ensures FailedRules(results + [x], stage)
            == FailedRules(results, stage) + if x.result.failedStage == Some(stage) then {x.rule} else {}
  {
    assert forall y :: y in results + [x] <==> y in results || y == x;
  }

  lemma {:induction false} OneMoreRule(rules: set<Rule>, rule: Rule, holds: bool)
    requires rule !in rules
    ensures |rules + if holds then {rule} else {}| == |rules| + One(holds)
  {
  }

  lemma {:induction false} LastIsNew(results: seq<Hit>, stage: Stage)
    requires results != []
    requires forall i, j :: 0 <= i < j < |results| ==> results[i].rule.sid < results[j].rule.sid
    ensures results[|results| - 1].rule !in FailedRules(results[..|results| - 1], stage)
  {
    var front, last := results[..|results| - 1], results[|results| - 1];
    forall x | x in front ensures x.rule != last.rule {
      var i :| 0 <= i < |front| && front[i] == x;
      assert results[i] == x && results[i].rule.sid < last.rule.sid;
    }
  }

  lemma {:induction false} FailedGrow(front: seq<Hit>, last: Hit, stage: Stage)
    requires last.rule !in FailedRules(front, stage)
    ensures |FailedRules(front + [last], stage)|
            == |FailedRules(front, stage)| + One(last.result.failedStage == Some(stage))
    ensures Failed(front + [last], stage) == Failed(front, stage) + One(last.result.failedStage == Some(stage))
  {
    FailedSnoc(front, last, stage);
    OneMoreRule(FailedRules(front, stage), last.rule, last.result.failedStage == Some(stage));
    assert (front + [last])[..|front + [last]| - 1] == front;
  }

  lemma {:induction false} FailedCount(results: seq<Hit>, stage: Stage)
    requires forall i, j :: 0 <= i < j < |results| ==> results[i].rule.sid < results[j].rule.sid
    ensures Failed(results, stage) == |FailedRules(results, stage)|
    decreases |results|
  {
    if results != [] {
      var front, last := results[..|results| - 1], results[|results| - 1];
      FailedCount(front, stage);
      LastIsNew(results, stage);
      FailedGrow(front, last, stage);
      assert results == front + [last];
    } else {
      assert FailedRules(results, stage) == {};
    }
  }
}
