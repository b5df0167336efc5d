// Why options are rejected. Whether their rule is invalid or unsupported depends on it.
module RuleFaults {
  import opened Base
  import opened RuleMatch
  import opened RuleTokens
  import opened RuleContents
  import opened RuleValues
  import opened RuleOptions

  // ---------- Flags checks ----------

  // Letters of flags and digits of the old reserved bits, with one of those two bits.
  predicate Legacy(letters: string) {
    && (forall c :: c in letters ==> FlagOf(c).Some? || c == '0' || c == '1' || c == '2')
    && ('1' in letters || '2' in letters)
  }

  // A zero that does not stand alone.
  predicate MixedZero(letters: string) {
    && (forall c :: c in letters ==> FlagOf(c).Some? || c == '0')
    && '0' in letters && letters != "0"
  }

  lemma {:induction false} KnownAreClean(letters: string)
    requires forall c :: c in letters ==> FlagOf(c).Some? || c == '0' || c == '1' || c == '2'
    ensures forall c :: c in letters ==> !IsMark(c) && c != ','
  {
  }

  lemma {:induction false} LettersRejected(modifier: FlagsModifier, letters: string)
    ensures LettersOf(modifier, letters) == Err(Unsupported(LegacyFlags)) <==> Legacy(letters)
    ensures LettersOf(modifier, letters) == Err(Invalid(ZeroWithFlags)) <==> MixedZero(letters)
    ensures LettersOf(modifier, letters).Err? ==>
              LettersOf(modifier, letters).error
              in {Invalid(EmptyFlags), Invalid(BadFlag), Unsupported(LegacyFlags), Invalid(ZeroWithFlags)}
  {
    assert forall c: char :: c in "012" <==> c == '0' || c == '1' || c == '2';
  }

  lemma {:induction false} OnlyAMark(value: string)
    ensures SplitMark(value).1 == "" <==> value in {"", "+", "*", "!"}
  {
    if |value| == 1 {
      assert value == [value[0]] && value[1..] == "" && (value[0] == '+' ==> value == "+");
    }
  }

  // A comma makes a check unsupported, whatever else is in it, and so do the digits 1 and 2 among letters that are all
  // known. Without these a check that is rejected is invalid: it has no letter, an unknown one, or a zero among others.
  lemma {:induction false} FlagsRejected(value: string)
    ensures FlagsOf(value) == Err(Unsupported(FlagsMask)) <==> ',' in value
    ensures FlagsOf(value) == Err(Unsupported(LegacyFlags))
            <==> exists modifier, letters :: Marked(value, modifier, letters) && Legacy(letters)
    ensures FlagsOf(value) == Err(Invalid(ZeroWithFlags))
            <==> exists modifier, letters :: Marked(value, modifier, letters) && MixedZero(letters)
    ensures FlagsOf(value) == Err(Invalid(EmptyFlags)) <==> value in {"", "+", "*", "!"}
    ensures FlagsOf(value).Err? ==>
              FlagsOf(value).error in {Unsupported(FlagsMask), Unsupported(LegacyFlags), Invalid(ZeroWithFlags),
                                       Invalid(EmptyFlags), Invalid(BadFlag)}
  {
    var (modifier, letters) := SplitMark(value);
    MarkStands(value);
    LettersRejected(modifier, letters);
    OnlyAMark(value);
    forall m, l | Marked(value, m, l) && (Legacy(l) || MixedZero(l))
      ensures ',' !in value && modifier == m && letters == l
    {
      KnownAreClean(l);
      MarkSplits(value, m, l);
    }
  }

  // ---------- Size checks ----------

  // A range with its limits in the wrong order.
  ghost predicate Reversed(value: string) {
    exists low, before, behind, high :: IsReversed(value, low, before, behind, high)
  }

  predicate IsReversed(value: string, low: string, before: nat, behind: nat, high: string) {
    && ShortDigits(low) && ShortDigits(high) && Decimal(low) > Decimal(high)
    && value == RenderDsize(RangeText(low, before, behind, high))
  }

  lemma {:induction false} ReversedReads(value: string, low: string, before: nat, behind: nat, high: string)
    requires IsReversed(value, low, before, behind, high)
    ensures DsizeOf(value) == Err(Invalid(ReversedDsize))
  {
    RenderedRangeReads(low, before, behind, high);
  }

  lemma {:induction false} ReversedBegins(value: string, n: nat)
    requires DsizeOf(value) == Err(Invalid(ReversedDsize)) && n == DigitCount(value)
    ensures ShortDigits(value[..n])
            && RangeOf(Decimal(value[..n]), DropSpaces(value[n..])) == Err(Invalid(ReversedDsize))
  {
  }

  lemma {:induction false} ReversedRenders(value: string, low: string, behind: string)
    requires value == low + behind && ShortDigits(low)
    requires RangeOf(Decimal(low), DropSpaces(behind)) == Err(Invalid(ReversedDsize))
    ensures Reversed(value)
  {
    var t := AcceptedRangeRenders(low, behind);
    assert t == RangeText(t.low, t.before, t.behind, t.high);
    assert IsReversed(value, t.low, t.before, t.behind, t.high);
  }

  lemma {:induction false} DsizeFaults(value: string)
    ensures DsizeOf(value).Err? ==> DsizeOf(value).error in {Invalid(BadDsize), Invalid(ReversedDsize)}
  {
  }

  // A size check that is rejected has its limits reversed, or it is written in none of the three ways.
  lemma {:induction false} DsizeRejected(value: string)
    ensures DsizeOf(value) == Err(Invalid(ReversedDsize)) <==> Reversed(value)
    ensures DsizeOf(value).Err? ==> DsizeOf(value).error in {Invalid(BadDsize), Invalid(ReversedDsize)}
  {
    DsizeFaults(value);
    if Reversed(value) {
      var low, before, behind, high :| IsReversed(value, low, before, behind, high);
      ReversedReads(value, low, before, behind, high);
    }
    if DsizeOf(value) == Err(Invalid(ReversedDsize)) {
      var n := DigitCount(value);
      ReversedBegins(value, n);
      assert value == value[..n] + value[n..];
      ReversedRenders(value, value[..n], value[n..]);
    }
  }

  // ---------- Modifiers ----------

  // A content is rejected for mixing the two kinds of windows before it is for a window that is too small.
  lemma {:induction false} FinishRejected(d: Draft)
    requires ValidDraft(d)
    ensures FinishContent(d) == Err(Invalid(MixedWindows))
            <==> exists a, r :: a in {Offset, Depth} && r in {Distance, Within} && {a, r} <= d.modifiers.Keys
    ensures FinishContent(d).Err? ==> FinishContent(d).error in {Invalid(MixedWindows), Invalid(WindowTooSmall)}
  {
    if FinishContent(d) == Err(Invalid(MixedWindows)) {
      var a := if Offset in d.modifiers then Offset else Depth;
      var r := if Distance in d.modifiers then Distance else Within;
      assert {a, r} <= d.modifiers.Keys;
    }
    forall a, r | a in {Offset, Depth} && r in {Distance, Within} && {a, r} <= d.modifiers.Keys
      ensures FinishContent(d) == Err(Invalid(MixedWindows))
    {
      assert a in {a, r} && r in {a, r};
    }
  }

  // A modifier is rejected without a content before it, then for coming twice, then for its value. The later check for
  // a negative number rejects nothing, since only a distance may begin with a minus sign.
  lemma {:induction false} ModifierRejected(drafts: seq<Draft>, m: Modifier, value: string)
    ensures var r, n := AddModifier(drafts, m, value), |drafts| - 1;
            && (r == Err(Invalid(NoContentBefore)) <==> drafts == [])
            && (drafts != [] ==> (r == Err(Invalid(ModifierTwice)) <==> m in drafts[n].modifiers))
            && (drafts != [] && m !in drafts[n].modifiers && m == Nocase ==>
                  (r.Ok? <==> value == "") && (r.Err? ==> r == Err(Invalid(NocaseValue))))
            && (drafts != [] && m !in drafts[n].modifiers && m != Nocase ==>
                  (r.Ok? <==> NumberOf(value, m == Distance).Ok?) && (r.Err? ==> r == Err(Invalid(NotANumber))))
  {
    if drafts != [] && m != Nocase {
      NumberFaults(value, m == Distance);
    }
  }

  // ---------- Invalid or unsupported ----------

  // What a rule may ask for elsewhere but not here, and nothing else, makes it unsupported.
  predicate RightKind(e: Reject) {
    e.Unsupported? <==> e.fault in {UnknownKeyword, NegatedContent, UnknownFlowValue, FlagsMask, LegacyFlags}
  }

  predicate RightlyRejected<T>(r: Result<T, Reject>) { r.Err? ==> RightKind(r.error) }

  lemma {:induction false} NumberFaults(value: string, negative: bool)
    ensures NumberOf(value, negative).Err? ==> NumberOf(value, negative) == Err(Invalid(NotANumber))
    ensures NumberOf(value, negative).Ok? && !negative ==> NumberOf(value, negative).value >= 0
  {
  }

  lemma {:induction false} FlowFaults(words: seq<FlowWord>, o: FlowOption)
    ensures RightlyRejected(TakeWords(words, o))
    decreases |words|
  {
    if words != [] && TakeWord(words[0], o).Ok? {
      FlowFaults(words[1..], TakeWord(words[0], o).value);
    }
  }

  lemma {:induction false} ScanFaults(text: string, hex: bool, digits: string)
    requires |digits| < 2
    ensures RightlyRejected(RuleContents.Scanned(text, hex, digits))
    decreases |text|
  {
    if text == "" {
    } else if text[0] == '|' {
      ScanFaults(text[1..], !hex, digits);
    } else if hex {
      ScanFaults(text[1..], true, if text[0] == ' ' then digits else if digits == "" then [text[0]] else "");
    } else if text[0] == '\\' {
      if |text| >= 2 {
        ScanFaults(text[2..], false, digits);
      }
    } else {
      ScanFaults(text[1..], false, digits);
    }
  }

  lemma {:induction false} ContentFaults(value: string)
    ensures RightlyRejected(Content(value))
  {
    match Unquoted(value)
    case None =>
    case Some(inner) => ScanFaults(inner, false, "");
  }

  lemma {:induction false} ValueFaults(option: SingleOption, value: string)
    ensures RightlyRejected(ValueOf(option, value))
  {
    FlowFaults(WordsOf(Parts(',', value)), UNCHECKED);
    FlagsRejected(value);
    DsizeFaults(value);
    NumberFaults(value, false);
  }

  lemma {:induction false} PieceFaults(piece: Piece, p: Parsed)
    ensures RightlyRejected(TakePiece(piece, p))
  {
    match piece.kind
    case Single(option) => ValueFaults(option, piece.value);
    case Contents => ContentFaults(piece.value);
    case Modifies(m) => ModifierRejected(p.drafts, m, piece.value);
    case Unknown =>
  }

  lemma {:induction false} ListFaults(pieces: seq<Piece>, p: Parsed)
    ensures RightlyRejected(TakeAll(pieces, p))
    decreases |pieces|
  {
    if pieces != [] {
      PieceFaults(pieces[0], p);
      if TakePiece(pieces[0], p).Ok? {
        ListFaults(pieces[1..], TakePiece(pieces[0], p).value);
      }
    }
  }

  lemma {:induction false} FinishFaults(drafts: seq<Draft>)
    requires AllValid(drafts)
    ensures RightlyRejected(FinishAll(drafts))
    decreases |drafts|
  {
    if drafts != [] {
      FinishRejected(drafts[0]);
      FinishFaults(drafts[1..]);
    }
  }

  // Rejected options are unsupported exactly for an unknown keyword, a negated content, an unknown flow value, a mask
  // of flags or the old flags 1 and 2. For everything else they are invalid.
  lemma {:induction false} OptionsRejected(text: string)
    ensures RightlyRejected(OptionsOf(text))
  {
    if Split(text).Ok? {
      var pieces := Pieces(Split(text).value);
      ListFaults(pieces, NOTHING);
      TakeAllKeepsValid(pieces, NOTHING);
      if TakeAll(pieces, NOTHING).Ok? {
        FinishFaults(TakeAll(pieces, NOTHING).value.drafts);
      }
    }
  }
}
