// Placing the contents of a rule in a payload: the memoised backtracking search against what a placement is.
module ContentMatch {
  import opened Base

  // A pattern and its window: absolute by offset and depth, or relative to the hit before it by distance, the only one
  // that may be negative, and within.
  datatype Content = Content(
    text: string,
    pattern: Bytes,
    nocase: bool,
    offset: Option<nat>,
    depth: Option<nat>,
    distance: Option<int>,
    within: Option<nat>)

  // ---------- What a placement is ----------

  // One byte is an ASCII capital, and the other is the same letter in lower case.
  predicate OtherCase(x: Byte, y: Byte) {
    ('A' as int <= x <= 'Z' as int && y == x + 32) || ('A' as int <= y <= 'Z' as int && x == y + 32)
  }

  predicate SameByte(nocase: bool, x: Byte, y: Byte) { x == y || (nocase && OtherCase(x, y)) }

  // The whole pattern lies in the payload, byte for byte.
  predicate OccursAt(c: Content, payload: Bytes, p: nat) {
    && p + |c.pattern| <= |payload|
    && forall k :: 0 <= k < |c.pattern| ==> SameByte(c.nocase, payload[p + k], c.pattern[k])
  }

  // The whole pattern lies in the window of the content, which a relative content measures from the previous end.
  predicate InWindow(c: Content, previousEnd: nat, p: nat) {
    if c.distance.Some? || c.within.Some? then
      var start := previousEnd + if c.distance.Some? then c.distance.value else 0;
      p >= start && (c.within.Some? ==> p + |c.pattern| <= (if start < 0 then 0 else start) + c.within.value)
    else
      && (c.offset.Some? ==> p >= c.offset.value)
      && (c.depth.Some? ==> p + |c.pattern| <= c.depth.value + if c.offset.Some? then c.offset.value else 0)
  }

  predicate Fits(c: Content, previousEnd: nat, payload: Bytes, p: nat) {
    OccursAt(c, payload, p) && InWindow(c, previousEnd, p)
  }

  function EndBefore(contents: seq<Content>, ps: seq<nat>, k: nat): nat
    requires k <= |ps| && k <= |contents|
  {
    if k == 0 then 0 else ps[k - 1] + |contents[k - 1].pattern|
  }

  // One position for every content, each in its window after the one before.
  ghost predicate IsPlacement(contents: seq<Content>, payload: Bytes, ps: seq<nat>) {
    && |ps| == |contents|
    && forall k :: 0 <= k < |ps| ==> Fits(contents[k], EndBefore(contents, ps, k), payload, ps[k])
  }

  predicate LexLeq(ps: seq<nat>, qs: seq<nat>)
    requires |ps| == |qs|
  {
    ps == [] || ps[0] < qs[0] || (ps[0] == qs[0] && LexLeq(ps[1..], qs[1..]))
  }

  ghost predicate IsLeastPlacement(contents: seq<Content>, payload: Bytes, ps: seq<nat>) {
    IsPlacement(contents, payload, ps) && forall qs :: IsPlacement(contents, payload, qs) ==> LexLeq(ps, qs)
  }

  // What the search must answer: the least placement if there is a placement at all.
  ghost predicate Answers(contents: seq<Content>, payload: Bytes, r: Option<seq<nat>>) {
    match r
    case Some(ps) => IsLeastPlacement(contents, payload, ps)
    case None => forall ps :: !IsPlacement(contents, payload, ps)
  }

  lemma {:induction false} LexLeqIsAntisymmetric(ps: seq<nat>, qs: seq<nat>)
    requires |ps| == |qs| && LexLeq(ps, qs) && LexLeq(qs, ps)
    ensures ps == qs
  {
    if ps != [] {
      LexLeqIsAntisymmetric(ps[1..], qs[1..]);
      assert ps == [ps[0]] + ps[1..] && qs == [qs[0]] + qs[1..];
    }
  }

  // The answer is unique.
  lemma {:induction false} AnswersAgree(contents: seq<Content>, payload: Bytes, r: Option<seq<nat>>,
                                        s: Option<seq<nat>>)
    requires Answers(contents, payload, r) && Answers(contents, payload, s)
    ensures r == s
  {
    if r.Some? && s.Some? {
      LexLeqIsAntisymmetric(r.value, s.value);
    }
  }

  // ---------- The placements of the contents from one index on ----------

  ghost predicate PlacedFrom(contents: seq<Content>, payload: Bytes, i: nat, previousEnd: nat, ps: seq<nat>)
    requires i <= |contents|
    decreases |contents| - i
  {
    if i == |contents| then ps == []
    else
      && ps != []
      && Fits(contents[i], previousEnd, payload, ps[0])
      && PlacedFrom(contents, payload, i + 1, ps[0] + |contents[i].pattern|, ps[1..])
  }

  ghost predicate FitsAt(contents: seq<Content>, payload: Bytes, i: nat, previousEnd: nat, ps: seq<nat>, k: nat)
    requires i <= |contents| && |ps| == |contents| - i && k < |ps|
  {
    Fits(contents[i + k], if k == 0 then previousEnd else EndBefore(contents[i..], ps, k), payload, ps[k])
  }

  ghost predicate AllFit(contents: seq<Content>, payload: Bytes, i: nat, previousEnd: nat, ps: seq<nat>)
    requires i <= |contents| && |ps| == |contents| - i
  {
    forall k :: 0 <= k < |ps| ==> FitsAt(contents, payload, i, previousEnd, ps, k)
  }

  lemma {:induction false} FitsAtNext(contents: seq<Content>, payload: Bytes, i: nat, previousEnd: nat, ps: seq<nat>,
                                      k: nat)
    requires i < |contents| && |ps| == |contents| - i && k < |ps| - 1
    ensures FitsAt(contents, payload, i, previousEnd, ps, k + 1)
            == FitsAt(contents, payload, i + 1, ps[0] + |contents[i].pattern|, ps[1..], k)
  {
    assert contents[i + 1..] == contents[i..][1..];
  }

  lemma {:induction false} FirstAndRestFit(contents: seq<Content>, payload: Bytes, i: nat, previousEnd: nat,
                                           ps: seq<nat>)
    requires i < |contents| && |ps| == |contents| - i
    ensures AllFit(contents, payload, i, previousEnd, ps)
            <==> Fits(contents[i], previousEnd, payload, ps[0])
                 && AllFit(contents, payload, i + 1, ps[0] + |contents[i].pattern|, ps[1..])
  {
    var after := ps[0] + |contents[i].pattern|;
    if AllFit(contents, payload, i, previousEnd, ps) {
      assert FitsAt(contents, payload, i, previousEnd, ps, 0);
      var next, rest := i + 1, ps[1..];
      forall k | 0 <= k < |rest| ensures FitsAt(contents, payload, next, after, rest, k) {
        FitsAtNext(contents, payload, i, previousEnd, ps, k);
      }
    } else {
      var k :| 0 <= k < |ps| && !FitsAt(contents, payload, i, previousEnd, ps, k);
      if k > 0 {
        FitsAtNext(contents, payload, i, previousEnd, ps, k - 1);
      }
    }
  }

  lemma {:induction false} PlacedFromMeans(contents: seq<Content>, payload: Bytes, i: nat, previousEnd: nat,
                                           ps: seq<nat>)
    requires i <= |contents|
    ensures PlacedFrom(contents, payload, i, previousEnd, ps)
            <==> |ps| == |contents| - i && AllFit(contents, payload, i, previousEnd, ps)
    decreases |contents| - i
  {
    if i < |contents| && ps != [] {
      PlacedFromMeans(contents, payload, i + 1, ps[0] + |contents[i].pattern|, ps[1..]);
      if |ps| == |contents| - i {
        FirstAndRestFit(contents, payload, i, previousEnd, ps);
      }
    }
  }

  lemma {:induction false} PlacedFromStart(contents: seq<Content>, payload: Bytes, ps: seq<nat>)
    ensures PlacedFrom(contents, payload, 0, 0, ps) <==> IsPlacement(contents, payload, ps)
  {
    PlacedFromMeans(contents, payload, 0, 0, ps);
    assert contents[0..] == contents;
    if |ps| == |contents| {
      assert forall k :: 0 <= k < |ps| ==>
          FitsAt(contents, payload, 0, 0, ps, k) == Fits(contents[k], EndBefore(contents, ps, k), payload, ps[k]);
    }
  }

  // ---------- Case does not matter ----------

  // The same text, with the case of any of its letters exchanged.
  predicate CaseChanged(s: Bytes, t: Bytes) {
    |s| == |t| && forall k :: 0 <= k < |s| ==> s[k] == t[k] || OtherCase(s[k], t[k])
  }

  // The same content, but a nocase pattern may have its letters in other cases.
  predicate Recased(c: Content, d: Content) {
    && d == c.(pattern := d.pattern)
    && if c.nocase then CaseChanged(c.pattern, d.pattern) else c.pattern == d.pattern
  }

  lemma {:induction false} SameInEitherCase(x: Byte, x': Byte, y: Byte, y': Byte)
    requires (x == x' || OtherCase(x, x')) && (y == y' || OtherCase(y, y'))
    ensures SameByte(true, x, y) <==> SameByte(true, x', y')
  {
  }

  lemma {:induction false} RecasedFits(c: Content, d: Content, previousEnd: nat, s: Bytes, t: Bytes, p: nat)
    requires Recased(c, d) && CaseChanged(s, t) && (!c.nocase ==> s == t)
    ensures Fits(c, previousEnd, s, p) <==> Fits(d, previousEnd, t, p)
  {
    if p + |c.pattern| <= |s| && c.nocase {
      forall k | 0 <= k < |c.pattern|
        ensures SameByte(true, s[p + k], c.pattern[k]) <==> SameByte(true, t[p + k], d.pattern[k])
      {
        SameInEitherCase(s[p + k], t[p + k], c.pattern[k], d.pattern[k]);
      }
    }
  }

  // Other cases of any letters of nocase patterns change no placement, and neither do other cases of the letters of the
  // payload while all contents are nocase.
  lemma {:induction false} CaseChangesNoPlacement(cs: seq<Content>, ds: seq<Content>, s: Bytes, t: Bytes, ps: seq<nat>)
    requires |cs| == |ds| && forall i :: 0 <= i < |cs| ==> Recased(cs[i], ds[i])
    requires CaseChanged(s, t) && (s == t || forall i :: 0 <= i < |cs| ==> cs[i].nocase)
    ensures IsPlacement(cs, s, ps) <==> IsPlacement(ds, t, ps)
  {
    if |ps| == |cs| {
      forall k | 0 <= k < |ps|
        ensures Fits(cs[k], EndBefore(cs, ps, k), s, ps[k]) <==> Fits(ds[k], EndBefore(ds, ps, k), t, ps[k])
      {
        assert Recased(cs[k], ds[k]) && (k > 0 ==> Recased(cs[k - 1], ds[k - 1]));
        RecasedFits(cs[k], ds[k], EndBefore(cs, ps, k), s, t, ps[k]);
      }
    }
  }

  // ---------- The bytes search ----------

  function LowerByte(b: Byte): Byte { if 65 <= b <= 90 then b + 32 else b }

  function AtLeastZero(x: int): nat { if x < 0 then 0 else x }

  predicate Relative(c: Content) { c.distance.Some? || c.within.Some? }

  function Lowered(bytes: Bytes): (r: Bytes)
    ensures |r| == |bytes| && forall k :: 0 <= k < |r| ==> r[k] == LowerByte(bytes[k])
  {
    if bytes == [] then [] else [LowerByte(bytes[0])] + Lowered(bytes[1..])
  }

  predicate Occurs(buffer: Bytes, pattern: Bytes, p: nat, end: nat)
    requires end <= |buffer|
  {
    p + |pattern| <= end && buffer[p..p + |pattern|] == pattern
  }

  // What bytes.find answers for bounds that are not negative: the first whole occurrence in the slice.
  function Find(buffer: Bytes, pattern: Bytes, start: nat, end: nat): (r: Option<nat>)
    requires end <= |buffer|
    ensures r.Some? ==> start <= r.value && Occurs(buffer, pattern, r.value, end)
    ensures r.Some? ==> forall q :: start <= q < r.value ==> !Occurs(buffer, pattern, q, end)
    ensures r.None? ==> forall q :: start <= q ==> !Occurs(buffer, pattern, q, end)
    decreases |buffer| - start
  {
    if start + |pattern| > end then None
    else if buffer[start..start + |pattern|] == pattern then Some(start)
    else Find(buffer, pattern, start + 1, end)
  }

  // The search window of a content, as slice bounds.
  function Region(c: Content, previousEnd: nat, size: nat): (nat, nat) {
    var start := if Relative(c) then AtLeastZero(previousEnd + GetOr(c.distance, 0)) else GetOr(c.offset, 0);
    var length := if Relative(c) then c.within else c.depth;
    (start, if length.None? || size < start + length.value then size else start + length.value)
  }

  function Buffer(c: Content, payload: Bytes): Bytes { if c.nocase then Lowered(payload) else payload }

  function Pattern(c: Content): Bytes { if c.nocase then Lowered(c.pattern) else c.pattern }

  // A hit of the slice search is exactly a fitting position.
  lemma {:induction false} HitsFit(c: Content, previousEnd: nat, payload: Bytes, p: nat)
    ensures var (start, end) := Region(c, previousEnd, |payload|);
            && end <= |payload|
            && |Pattern(c)| == |c.pattern|
            && |Buffer(c, payload)| == |payload|
            && (Fits(c, previousEnd, payload, p) <==> start <= p && Occurs(Buffer(c, payload), Pattern(c), p, end))
  {
    var buffer, pattern := Buffer(c, payload), Pattern(c);
    if p + |pattern| <= |payload| {
      var slice := buffer[p..p + |pattern|];
      assert slice == pattern <==> forall k :: 0 <= k < |pattern| ==> slice[k] == pattern[k];
      assert forall k :: 0 <= k < |pattern| ==>
               (slice[k] == pattern[k] <==> SameByte(c.nocase, payload[p + k], c.pattern[k]));
    }
  }

  // ---------- The search ----------

  // No placement of the contents from an index on continues this end.
  ghost predicate Hopeless(contents: seq<Content>, payload: Bytes, i: nat, previousEnd: nat)
    requires i <= |contents|
  {
    forall ps :: !PlacedFrom(contents, payload, i, previousEnd, ps)
  }

  ghost predicate LeastFrom(contents: seq<Content>, payload: Bytes, i: nat, previousEnd: nat, ps: seq<nat>)
    requires i <= |contents|
  {
    && PlacedFrom(contents, payload, i, previousEnd, ps)
    && |ps| == |contents| - i
    && forall qs :: PlacedFrom(contents, payload, i, previousEnd, qs) ==> |qs| == |ps| && LexLeq(ps, qs)
  }

  // The first fitting position at a bound or after it, if there is one.
  ghost predicate FirstFit(c: Content, previousEnd: nat, payload: Bytes, from: nat, r: Option<nat>) {
    && (r.Some? ==> from <= r.value && Fits(c, previousEnd, payload, r.value))
    && (forall q: nat :: from <= q && Fits(c, previousEnd, payload, q) ==> r.Some? && r.value <= q)
  }

  // A find call inside the window answers it.
  lemma {:induction false} FindIsFirstFit(c: Content, previousEnd: nat, payload: Bytes, from: nat)
    requires from >= Region(c, previousEnd, |payload|).0
    ensures Region(c, previousEnd, |payload|).1 <= |Buffer(c, payload)|
    ensures FirstFit(c, previousEnd, payload, from,
                     Find(Buffer(c, payload), Pattern(c), from, Region(c, previousEnd, |payload|).1))
  {
    HitsFit(c, previousEnd, payload, 0);
    forall p: nat
      ensures Fits(c, previousEnd, payload, p) <==>
                Region(c, previousEnd, |payload|).0 <= p
                && Occurs(Buffer(c, payload), Pattern(c), p, Region(c, previousEnd, |payload|).1)
    {
      HitsFit(c, previousEnd, payload, p);
    }
  }

  // No fitting position before a bound, or none at all, leads to a placement.
  ghost predicate NoneBefore(contents: seq<Content>, payload: Bytes, i: nat, previousEnd: nat, bound: Option<nat>)
    requires i < |contents|
  {
    forall q: nat :: Fits(contents[i], previousEnd, payload, q) && (bound.Some? ==> q < bound.value) ==>
      Hopeless(contents, payload, i + 1, q + |contents[i].pattern|)
  }

  // Before the window starts nothing fits.
  lemma {:induction false} NoneBeforeFirst(contents: seq<Content>, payload: Bytes, i: nat, previousEnd: nat,
                                           position: Option<nat>)
    requires i < |contents|
    requires FirstFit(contents[i], previousEnd, payload, Region(contents[i], previousEnd, |payload|).0, position)
    ensures NoneBefore(contents, payload, i, previousEnd, position)
  {
  }

  // A fitting position that leads nowhere is passed.
  lemma {:induction false} NoneBeforeNext(
    contents: seq<Content>, payload: Bytes, i: nat, previousEnd: nat, passed: Option<nat>, next: nat,
    position: Option<nat>)
    requires i < |contents| && passed.Some? && NoneBefore(contents, payload, i, previousEnd, passed)
    requires next == passed.value + |contents[i].pattern| && Hopeless(contents, payload, i + 1, next)
    requires FirstFit(contents[i], previousEnd, payload, passed.value + 1, position)
    ensures NoneBefore(contents, payload, i, previousEnd, position)
  {
  }

  lemma {:induction false} HopelessHere(contents: seq<Content>, payload: Bytes, i: nat, previousEnd: nat)
    requires i < |contents| && NoneBefore(contents, payload, i, previousEnd, None)
    ensures Hopeless(contents, payload, i, previousEnd)
  {
    forall ps ensures !PlacedFrom(contents, payload, i, previousEnd, ps) {
      if ps != [] && Fits(contents[i], previousEnd, payload, ps[0]) {
        assert Hopeless(contents, payload, i + 1, ps[0] + |contents[i].pattern|);
      }
    }
  }

  function Prepend(p: nat, rest: seq<nat>): seq<nat> { [p] + rest }

  lemma {:induction false} LeastHere(
    contents: seq<Content>, payload: Bytes, i: nat, previousEnd: nat, hit: Option<nat>, next: nat, rest: seq<nat>)
    requires i < |contents| && hit.Some? && NoneBefore(contents, payload, i, previousEnd, hit)
    requires Fits(contents[i], previousEnd, payload, hit.value)
    requires next == hit.value + |contents[i].pattern| && LeastFrom(contents, payload, i + 1, next, rest)
    ensures LeastFrom(contents, payload, i, previousEnd, Prepend(hit.value, rest))
  {
    var p, ps := hit.value, Prepend(hit.value, rest);
    assert ps[1..] == rest;
    forall qs | PlacedFrom(contents, payload, i, previousEnd, qs) ensures |qs| == |ps| && LexLeq(ps, qs) {
      assert PlacedFrom(contents, payload, i + 1, qs[0] + |contents[i].pattern|, qs[1..]);
      assert Hopeless(contents, payload, i + 1, qs[0] + |contents[i].pattern|) || qs[0] >= p;
      PlacedFromMeans(contents, payload, i, previousEnd, qs);
    }
  }

  // How many find calls one search body can need: one for every position, and one that fails.
  function PerBody(contents: seq<Content>, payload: Bytes): nat {
    |payload| + if forall c :: c in contents ==> c.pattern != [] then 1 else 2
  }

  // A hit lies in the payload and in its window, and leaves calls for the positions before it and two more.
  lemma {:induction false} HitIsInside(contents: seq<Content>, payload: Bytes, i: nat, previousEnd: nat, p: nat)
    requires i < |contents| && Fits(contents[i], previousEnd, payload, p)
    ensures p + |contents[i].pattern| <= |payload| && p >= Region(contents[i], previousEnd, |payload|).0
    ensures p + 2 <= PerBody(contents, payload)
  {
    assert contents[i] in contents;
  }

  // What so many search bodies may spend.
  function Budget(perBody: nat, bodies: nat): nat {
    if bodies == 0 then 0 else perBody + Budget(perBody, bodies - 1)
  }

  lemma {:induction false} BudgetAdds(perBody: nat, m: nat, n: nat)
    ensures Budget(perBody, m + n) == Budget(perBody, m) + Budget(perBody, n)
  {
    if n > 0 {
      BudgetAdds(perBody, m, n - 1);
    }
  }

  lemma {:induction false} BudgetIsProduct(perBody: nat, n: nat)
    ensures Budget(perBody, n) == perBody * n
  {
    if n > 0 {
      BudgetIsProduct(perBody, n - 1);
    }
  }

  type Pair = (nat, nat)

  // A pair that a search body may run for, given the index it started at.
  ghost predicate Within(pair: Pair, index: nat, contents: seq<Content>, payload: Bytes) {
    index <= pair.0 < |contents| && pair.1 <= |payload|
  }

  class ContentSearch {
    const contents: seq<Content>
    const payload: Bytes
    // The pairs (index, previous end) that an earlier search body found to have no placement.
    var failed: set<Pair>
    ghost var finds: nat

    ghost predicate Valid()
      reads this
    {
      forall pair :: pair in failed ==> pair.0 < |contents| && Hopeless(contents, payload, pair.0, pair.1)
    }

    constructor (contents: seq<Content>, payload: Bytes)
      ensures Valid() && this.contents == contents && this.payload == payload && failed == {} && finds == 0
    {
      this.contents, this.payload := contents, payload;
      failed, finds := {}, 0;
    }

    // One find call for a content, from a bound inside its window.
    method NextPosition(content: Content, previousEnd: nat, from: nat) returns (position: Option<nat>)
      requires from >= Region(content, previousEnd, |payload|).0
      modifies this`finds
      ensures FirstFit(content, previousEnd, payload, from, position) && finds == old(finds) + 1
    {
      FindIsFirstFit(content, previousEnd, payload, from);
      position := Find(Buffer(content, payload), Pattern(content), from, Region(content, previousEnd, |payload|).1);
      finds := finds + 1;
    }

    // Places the contents from an index on. The ghost result is the set of pairs whose search body ran, each once.
    method Place(index: nat, previousEnd: nat) returns (r: Option<seq<nat>>, ghost ran: set<Pair>)
      requires Valid() && index <= |contents| && previousEnd <= |payload|
      modifies this
      ensures Valid()
      ensures r.Some? ==> LeastFrom(contents, payload, index, previousEnd, r.value)
      ensures r.None? ==> Hopeless(contents, payload, index, previousEnd)
      ensures ran !! old(failed) && forall pair :: pair in ran ==> Within(pair, index, contents, payload)
      ensures old(failed) <= failed <= old(failed) + ran
      ensures r.None? ==> failed == old(failed) + ran
      ensures finds <= old(finds) + Budget(PerBody(contents, payload), |ran|)
      decreases |contents| - index, 1
    {
      if index == |contents| {
        return Some([]), {};
      }
      if (index, previousEnd) in failed {
        return None, {};
      }
      r, ran := SearchBody(index, previousEnd);
      Spend(PerBody(contents, payload), old(failed), ran, {(index, previousEnd)});
      ran := ran + {(index, previousEnd)};
      if r.None? {
        failed := failed + {(index, previousEnd)};
      }
    }

    // Tries every fitting position of one content in turn.
    method SearchBody(index: nat, previousEnd: nat) returns (r: Option<seq<nat>>, ghost ran: set<Pair>)
      requires Valid() && index < |contents| && previousEnd <= |payload|
      modifies this
      ensures Valid()
      ensures r.Some? ==> LeastFrom(contents, payload, index, previousEnd, r.value)
      ensures r.None? ==> Hopeless(contents, payload, index, previousEnd)
      ensures ran !! old(failed) && forall pair :: pair in ran ==> Within(pair, index + 1, contents, payload)
      ensures old(failed) <= failed <= old(failed) + ran
      ensures r.None? ==> failed == old(failed) + ran
      ensures finds <= old(finds) + Budget(PerBody(contents, payload), |ran|) + PerBody(contents, payload)
      decreases |contents| - index, 0
    {
      ran := {};
      var content := contents[index];
      var position := NextPosition(content, previousEnd, Region(content, previousEnd, |payload|).0);
      NoneBeforeFirst(contents, payload, index, previousEnd, position);
      ghost var calls, perBody := 1, PerBody(contents, payload);
      while position.Some?
        invariant Valid() && failed == old(failed) + ran && ran !! old(failed)
        invariant forall pair :: pair in ran ==> Within(pair, index + 1, contents, payload)
        invariant position.Some? ==> Fits(content, previousEnd, payload, position.value)
        invariant NoneBefore(contents, payload, index, previousEnd, position)
        invariant calls <= if position.Some? then position.value + 1 else perBody
        invariant finds <= old(finds) + Budget(perBody, |ran|) + calls
        decreases if position.Some? then |payload| - position.value + 1 else 0
      {
        HitIsInside(contents, payload, index, previousEnd, position.value);
        var rest;
        ghost var more;
        var next := position.value + |content.pattern|;
        rest, more := Place(index + 1, next);
        Spend(perBody, old(failed), ran, more);
        ran := ran + more;
        if rest.Some? {
          LeastHere(contents, payload, index, previousEnd, position, next, rest.value);
          return Some(Prepend(position.value, rest.value)), ran;
        }
        ghost var passed := position;
        position := NextPosition(content, previousEnd, position.value + 1);
        NoneBeforeNext(contents, payload, index, previousEnd, passed, next, position);
        calls := calls + 1;
      }
      HopelessHere(contents, payload, index, previousEnd);
      r := None;
    }
  }

  // Disjoint sets of search bodies spend their budgets side by side.
  lemma {:induction false} Spend(perBody: nat, before: set<Pair>, s: set<Pair>, t: set<Pair>)
    requires s !! before && t !! before + s
    ensures s + t !! before && before + s + t == before + (s + t)
    ensures |s + t| == |s| + |t|
    ensures Budget(perBody, |s + t|) == Budget(perBody, |s|) + Budget(perBody, |t|)
  {
    BudgetAdds(perBody, |s|, |t|);
  }

  // ---------- The whole search ----------

  ghost function Row(i: nat, size: nat): (row: set<Pair>)
    ensures |row| == size && forall pair :: pair in row <==> pair.0 == i && pair.1 < size
  {
    if size == 0 then {} else Row(i, size - 1) + {(i, size - 1)}
  }

  ghost function Pairs(n: nat, size: nat): (pairs: set<Pair>)
    ensures |pairs| == n * size && forall pair :: pair in pairs <==> pair.0 < n && pair.1 < size
  {
    if n == 0 then {} else
    assert n * size == (n - 1) * size + size;
    Pairs(n - 1, size) + Row(n - 1, size)
  }

  // Each search body runs at most once for each index and previous end, so the calls are bounded by a polynomial.
  lemma {:induction false} TotalFinds(contents: seq<Content>, payload: Bytes, ran: set<Pair>, finds: nat)
    requires forall pair :: pair in ran ==> Within(pair, 0, contents, payload)
    requires finds <= Budget(PerBody(contents, payload), |ran|)
    ensures |ran| <= |contents| * (|payload| + 1)
    ensures (forall c :: c in contents ==> c.pattern != []) ==> finds <= |contents| * (|payload| + 1) * (|payload| + 1)
  {
    SubsetCount(ran, Pairs(|contents|, |payload| + 1));
    BudgetIsProduct(PerBody(contents, payload), |ran|);
    if forall c :: c in contents ==> c.pattern != [] {
      ProductMonotone(|payload| + 1, |ran|, |contents| * (|payload| + 1));
    }
  }

  lemma {:induction false} ProductMonotone(k: nat, m: nat, n: nat)
    requires m <= n
    ensures k * m <= n * k
  {
  }

  // Searches for a placement of all contents. `finds` counts the find calls for the bound on the work.
  method ContentPositions(contents: seq<Content>, payload: Bytes) returns (r: Option<seq<nat>>, ghost finds: nat)
    ensures Answers(contents, payload, r)
    ensures (forall c :: c in contents ==> c.pattern != []) ==> finds <= |contents| * (|payload| + 1) * (|payload| + 1)
  {
    var search := new ContentSearch(contents, payload);
    ghost var ran;
    r, ran := search.Place(0, 0);
    finds := search.finds;
    TotalFinds(contents, payload, ran, finds);
    forall ps ensures PlacedFrom(contents, payload, 0, 0, ps) <==> IsPlacement(contents, payload, ps) {
      PlacedFromStart(contents, payload, ps);
    }
  }
}
