// The values of the single options of a rule: numbers, texts, and the flow, flags and dsize checks.
module RuleValues {
  import opened Base
  import opened RuleTokens
  import opened RuleMatch
  import FlowModel
  import RuleContents

  type Flag = FlowModel.Flag

  // The options that a rule may set once.
  datatype SingleOption = Sid | Rev | Msg | Classtype | Priority | FlowCheck | FlagsCheck | DsizeCheck

  datatype OptionValue =
    | Number(n: int) | Words(text: string)
    | FlowValue(flow: FlowOption) | FlagsValue(flags: FlagsOption) | DsizeValue(dsize: DsizeOption)

  // ---------- Numbers ----------

  predicate ShortDigits(s: string) { 1 <= |s| <= 10 && IsDigits(s) }

  function NumberOf(value: string, negative: bool): (r: Result<int, Reject>)
    ensures r.Ok? && !negative ==> r.value >= 0
  {
    var minus := value != "" && value[0] == '-';
    var digits := if minus then value[1..] else value;
    if !ShortDigits(digits) || (minus && !negative) then Err(Invalid(NotANumber))
    else
      var n: int := Decimal(digits);
      Ok(if minus then -n else n)
  }

  // A number in at most ten digits, with zeros in front of it or not.
  ghost predicate InDigits(s: string, n: nat) { |s| <= 10 && exists zeros :: s == Zeros(zeros) + Spelled(n) }

  lemma {:induction false} InDigitsExactly(s: string, n: nat)
    ensures InDigits(s, n) <==> ShortDigits(s) && Decimal(s) == n
  {
    if ShortDigits(s) {
      var zeros := DigitsAreSpelled(s);
    }
    if InDigits(s, n) {
      var zeros :| s == Zeros(zeros) + Spelled(n);
      ZerosAddNothing(zeros, Spelled(n));
      SpelledIsDecimal(n);
    }
  }

  lemma {:induction false} SignReads(digits: string, negative: bool)
    ensures NumberOf("-" + digits, negative)
            == if negative && ShortDigits(digits) then Ok(-(Decimal(digits) as int)) else Err(Invalid(NotANumber))
  {
    assert ("-" + digits)[0] == '-' && ("-" + digits)[1..] == digits;
  }

  lemma {:induction false} DigitsRead(digits: string, n: nat, negative: bool)
    requires ShortDigits(digits) && Decimal(digits) == n
    ensures NumberOf(digits, negative) == Ok(n)
    ensures NumberOf("-" + digits, negative) == if negative then Ok(-(n as int)) else Err(Invalid(NotANumber))
  {
    assert '0' <= digits[0] <= '9';
    SignReads(digits, negative);
  }

  // What a text says as a number, with a minus sign only where one is allowed.
  ghost predicate SaysNumber(value: string, negative: bool, n: int) {
    || (n >= 0 && InDigits(value, n))
    || (negative && n <= 0 && exists digits :: value == "-" + digits && InDigits(digits, -n))
  }

  // A number is accepted exactly when the text is its digits, in at most ten places, behind a minus sign where one is
  // allowed. Zeros may stand in front. There is one error for all other texts.
  lemma {:induction false} NumberIsItsDigits(value: string, negative: bool, n: int)
    ensures NumberOf(value, negative) == Ok(n) <==> SaysNumber(value, negative, n)
    ensures NumberOf(value, negative).Err? ==> NumberOf(value, negative) == Err(Invalid(NotANumber))
  {
    if value != "" && value[0] == '-' {
      var digits := value[1..];
      assert value == "-" + digits;
      SignReads(digits, negative);
      InDigitsExactly(digits, if n <= 0 then -n else 0);
      InDigitsExactly(value, if n >= 0 then n else 0);
      assert forall d :: value == "-" + d ==> d == digits;
    } else {
      InDigitsExactly(value, if n >= 0 then n else 0);
      assert forall d :: ("-" + d)[0] == '-';
    }
  }

  // In particular every number of up to ten digits reads back as itself.
  lemma {:induction false} NumberRoundTrip(n: nat, negative: bool)
    requires |Spelled(n)| <= 10
    ensures NumberOf(Spelled(n), negative) == Ok(n)
    ensures NumberOf("-" + Spelled(n), negative) == if negative then Ok(-(n as int)) else Err(Invalid(NotANumber))
  {
    SpelledIsDecimal(n);
    DigitsRead(Spelled(n), n, negative);
  }

  // ---------- Messages ----------

  // A backslash goes and the character behind it stays, except at a line feed and at the end.
  function Unescaped(s: string): (r: string)
    ensures s != "" ==> r != ""
    decreases |s|
  {
    if s == "" then ""
    else if s[0] == '\\' && |s| >= 2 && s[1] != '\n' then [s[1]] + Unescaped(s[2..])
    else [s[0]] + Unescaped(s[1..])
  }

  function Message(value: string): Result<string, Reject> {
    var quoted := value != "" && value[0] == '"';
    if quoted && RuleContents.Unquoted(value).None? then Err(Invalid(NotQuoted))
    else
      var text := if quoted then RuleContents.Unquoted(value).value else value;
      if text == "" then Err(Invalid(EmptyMessage)) else Ok(Unescaped(text))
  }

  // A character of a message: as it stands, or behind a backslash that is not part of the message.
  datatype Glyph = Kept(c: char) | Slashed(c: char)

  function Said(glyphs: seq<Glyph>): string { seq(|glyphs|, i requires 0 <= i < |glyphs| => glyphs[i].c) }

  function Written(glyphs: seq<Glyph>): (s: string)
    ensures glyphs != [] ==> s != ""
  {
    if glyphs == [] then ""
    else (if glyphs[0].Kept? then [glyphs[0].c] else ['\\', glyphs[0].c]) + Written(glyphs[1..])
  }

  // No line feed is escaped, and a backslash stands for itself only before a line feed and at the end.
  predicate LegalGlyphs(glyphs: seq<Glyph>) {
    && (forall i :: 0 <= i < |glyphs| ==> glyphs[i] != Slashed('\n'))
    && forall i :: 0 <= i < |glyphs| - 1 && glyphs[i] == Kept('\\') ==> glyphs[i + 1] == Kept('\n')
  }

  lemma {:induction false} GlyphsSay(glyphs: seq<Glyph>)
    requires LegalGlyphs(glyphs)
    ensures Unescaped(Written(glyphs)) == Said(glyphs)
  {
    if glyphs != [] {
      var rest := Written(glyphs[1..]);
      GlyphsSay(glyphs[1..]);
      assert Said(glyphs) == [glyphs[0].c] + Said(glyphs[1..]);
      if glyphs[0].Kept? {
        assert Written(glyphs)[0] == glyphs[0].c && Written(glyphs)[1..] == rest;
        assert glyphs[0].c == '\\' && |glyphs| > 1 ==> glyphs[1] == Kept('\n') && rest[0] == '\n';
      } else {
        assert Written(glyphs)[0] == '\\' && Written(glyphs)[1] == glyphs[0].c && Written(glyphs)[2..] == rest;
      }
    }
  }

  lemma {:induction false} GlyphsOf(s: string) returns (glyphs: seq<Glyph>)
    ensures LegalGlyphs(glyphs) && Written(glyphs) == s
    ensures s != "" ==> glyphs != [] && (s[0] == '\n' ==> glyphs[0] == Kept('\n'))
    decreases |s|
  {
    if s == "" {
      glyphs := [];
    } else if s[0] == '\\' && |s| >= 2 && s[1] != '\n' {
      var rest := GlyphsOf(s[2..]);
      glyphs := [Slashed(s[1])] + rest;
      assert glyphs[1..] == rest && s == ['\\', s[1]] + s[2..];
    } else {
      var rest := GlyphsOf(s[1..]);
      glyphs := [Kept(s[0])] + rest;
      assert glyphs[1..] == rest && s == [s[0]] + s[1..];
    }
  }

  // A message is written bare or in quotes, but bare only when it does not begin with a quote.
  ghost predicate SaysMessage(value: string, s: string) {
    exists glyphs ::
      && LegalGlyphs(glyphs) && glyphs != [] && Said(glyphs) == s
      && (value == "\"" + Written(glyphs) + "\"" || (value == Written(glyphs) && value[0] != '"'))
  }

  lemma {:induction false} QuotedUnquotes(text: string)
    ensures RuleContents.Unquoted("\"" + text + "\"") == Some(text)
  {
    var value := "\"" + text + "\"";
    assert value[0] == '"' && value[|value| - 1] == '"' && value[1..|value| - 1] == text;
  }

  lemma {:induction false} UnquotedWasQuoted(value: string)
    ensures RuleContents.Unquoted(value).Some? ==> value == "\"" + RuleContents.Unquoted(value).value + "\""
  {
    if RuleContents.Unquoted(value).Some? {
      assert value == [value[0]] + value[1..|value| - 1] + [value[|value| - 1]];
    }
  }

  lemma {:induction false} AcceptedMessageSays(value: string)
    requires Message(value).Ok?
    ensures SaysMessage(value, Message(value).value)
  {
    UnquotedWasQuoted(value);
    var text := if value[0] == '"' then RuleContents.Unquoted(value).value else value;
    var glyphs := GlyphsOf(text);
    GlyphsSay(glyphs);
  }

  lemma {:induction false} SayingMessageReads(value: string, s: string)
    requires SaysMessage(value, s)
    ensures Message(value) == Ok(s)
  {
    var glyphs :|
      && LegalGlyphs(glyphs) && glyphs != [] && Said(glyphs) == s
      && (value == "\"" + Written(glyphs) + "\"" || (value == Written(glyphs) && value[0] != '"'));
    GlyphsSay(glyphs);
    QuotedUnquotes(Written(glyphs));
  }

  // A message is accepted exactly when it is written so, and it is the characters behind the backslashes. The errors
  // are an open quote and an empty text.
  lemma {:induction false} MessageIsItsText(value: string, s: string)
    ensures Message(value) == Ok(s) <==> SaysMessage(value, s)
    ensures Message(value) == Err(Invalid(EmptyMessage)) <==> value == "" || value == "\"\""
    ensures Message(value) == Err(Invalid(NotQuoted))
            <==> value != "" && value[0] == '"' && (|value| == 1 || value[|value| - 1] != '"')
  {
    if Message(value).Ok? {
      AcceptedMessageSays(value);
    }
    if SaysMessage(value, s) {
      SayingMessageReads(value, s);
    }
    UnquotedWasQuoted(value);
    QuotedUnquotes("");
    assert "\"" + "" + "\"" == "\"\"";
  }

  // A text with its quotes, semicolons and backslashes escaped.
  function EscapedText(s: string): (r: string)
    ensures |r| >= |s|
  {
    if s == "" then ""
    else (if RuleContents.Escapable(s[0]) then ['\\', s[0]] else [s[0]]) + EscapedText(s[1..])
  }

  function QuotedText(s: string): string { "\"" + EscapedText(s) + "\"" }

  lemma {:induction false} UnescapedUndoesEscaped(s: string)
    ensures Unescaped(EscapedText(s)) == s
  {
    if s != "" {
      var rest := EscapedText(s[1..]);
      UnescapedUndoesEscaped(s[1..]);
      if RuleContents.Escapable(s[0]) {
        assert EscapedText(s)[2..] == rest;
      } else {
        assert EscapedText(s)[1..] == rest;
      }
      assert s == [s[0]] + s[1..];
    }
  }

  // Every message that is not empty reads back from its quoted and escaped text.
  lemma {:induction false} MessageRoundTrip(s: string)
    ensures Message(QuotedText(s)) == if s == "" then Err(Invalid(EmptyMessage)) else Ok(s)
  {
    var value := QuotedText(s);
    assert value[0] == '"' && value[|value| - 1] == '"' && value[1..|value| - 1] == EscapedText(s);
    UnescapedUndoesEscaped(s);
  }

  // ---------- Flow checks ----------

  // The parts of a text between its separators.
  function Parts(c: char, s: string): (parts: seq<string>)
    ensures parts != []
    decreases |s|
  {
    var i := Position(c, s);
    if i == |s| then [s] else [s[..i]] + Parts(c, s[i + 1..])
  }

  datatype FlowWord = SideWord(side: Side) | StateWord(established: bool) | NoWord | OtherWord

  function WordOf(name: string): FlowWord {
    if name == "to_server" then SideWord(ToServer)
    else if name == "to_client" then SideWord(ToClient)
    else if name == "established" then StateWord(true)
    else if name == "not_established" then StateWord(false)
    else if name == "" then NoWord
    else OtherWord
  }

  function WordsOf(parts: seq<string>): seq<FlowWord> {
    seq(|parts|, i requires 0 <= i < |parts| => WordOf(Strip(parts[i])))
  }

  function TakeWord(word: FlowWord, o: FlowOption): Result<FlowOption, Reject> {
    match word
    case SideWord(side) =>
      if o.direction.Some? && o.direction.value != side then Err(Invalid(BothDirections))
      else Ok(o.(direction := Some(side)))
    case StateWord(established) =>
      if o.established.Some? && o.established.value != established then Err(Invalid(BothStates))
      else Ok(o.(established := Some(established)))
    case NoWord => Err(Invalid(EmptyFlowValue))
    case OtherWord => Err(Unsupported(UnknownFlowValue))
  }

  function TakeWords(words: seq<FlowWord>, o: FlowOption): Result<FlowOption, Reject> {
    if words == [] then Ok(o)
    else
      match TakeWord(words[0], o)
      case Err(e) => Err(e)
      case Ok(next) => TakeWords(words[1..], next)
  }

  const UNCHECKED := FlowOption(None, None)

  function FlowOf(value: string): Result<FlowOption, Reject> { TakeWords(WordsOf(Parts(',', value)), UNCHECKED) }

  method ParseFlow(value: string) returns (r: Result<FlowOption, Reject>)
    ensures r == FlowOf(value)
  {
    var parts := Parts(',', value);
    var direction: Option<Side>, established: Option<bool> := None, None;
    assert parts[0..] == parts;
    for i := 0 to |parts|
      invariant FlowOf(value) == TakeWords(WordsOf(parts[i..]), FlowOption(direction, established))
    {
      var name := Strip(parts[i]);
      assert WordsOf(parts[i..])[0] == WordOf(name) && WordsOf(parts[i..])[1..] == WordsOf(parts[i + 1..]);
      if name == "to_server" || name == "to_client" {
        var side := if name == "to_server" then ToServer else ToClient;
        if direction != None && direction != Some(side) {
          return Err(Invalid(BothDirections));
        }
        direction := Some(side);
      } else if name == "established" || name == "not_established" {
        if established != None && established != Some(name == "established") {
          return Err(Invalid(BothStates));
        }
        established := Some(name == "established");
      } else if name != "" {
        return Err(Unsupported(UnknownFlowValue));
      } else {
        return Err(Invalid(EmptyFlowValue));
      }
    }
    r := Ok(FlowOption(direction, established));
  }

  predicate Fits(word: FlowWord, o: FlowOption) {
    || (word.SideWord? && o.direction == Some(word.side))
    || (word.StateWord? && o.established == Some(word.established))
  }

  // Every word fits, and what is checked was said before or by one of the words.
  ghost predicate SaysAfter(words: seq<FlowWord>, before: FlowOption, o: FlowOption) {
    && (forall w :: w in words ==> Fits(w, o))
    && (before.direction.Some? ==> o.direction == before.direction)
    && (before.established.Some? ==> o.established == before.established)
    && (o.direction.Some? ==> o.direction == before.direction || SideWord(o.direction.value) in words)
    && (o.established.Some? ==> o.established == before.established || StateWord(o.established.value) in words)
  }

  lemma {:induction false} FirstWordSays(w: FlowWord, rest: seq<FlowWord>, before: FlowOption, o: FlowOption)
    ensures match TakeWord(w, before)
            case Err(_) => !SaysAfter([w] + rest, before, o)
            case Ok(next) => SaysAfter([w] + rest, before, o) <==> SaysAfter(rest, next, o)
  {
    var words := [w] + rest;
    assert words[0] == w && forall x :: x in words <==> x == w || x in rest;
    assert SaysAfter(words, before, o) ==> Fits(w, o);
  }

  lemma {:induction false} TakenWordsSay(words: seq<FlowWord>, before: FlowOption, o: FlowOption)
    ensures TakeWords(words, before) == Ok(o) <==> SaysAfter(words, before, o)
  {
    if words != [] {
      FirstWordSays(words[0], words[1..], before, o);
      assert words == [words[0]] + words[1..];
      if TakeWord(words[0], before).Ok? {
        TakenWordsSay(words[1..], TakeWord(words[0], before).value, o);
      }
    }
  }

  // Every word fits, and what is checked was said.
  ghost predicate SaysFlow(value: string, o: FlowOption) {
    var words := WordsOf(Parts(',', value));
    && (forall w :: w in words ==> Fits(w, o))
    && (o.direction.Some? ==> SideWord(o.direction.value) in words)
    && (o.established.Some? ==> StateWord(o.established.value) in words)
  }

  // A flow check is accepted exactly when all its words are known and none contradicts another, and it checks what they
  // say.
  lemma {:induction false} FlowIsItsWords(value: string, o: FlowOption)
    ensures FlowOf(value) == Ok(o) <==> SaysFlow(value, o)
  {
    TakenWordsSay(WordsOf(Parts(',', value)), UNCHECKED, o);
  }

  function SideText(side: Side): string { if side == ToServer then "to_server" else "to_client" }

  function StateText(established: bool): string { if established then "established" else "not_established" }

  // A flow check as a matched item shows it.
  function FlowText(o: FlowOption): string {
    if o.direction.Some? && o.established.Some? then SideText(o.direction.value) + "," + StateText(o.established.value)
    else if o.direction.Some? then SideText(o.direction.value)
    else if o.established.Some? then StateText(o.established.value)
    else ""
  }

  lemma {:induction false} OnePart(s: string)
    requires ',' !in s
    ensures Parts(',', s) == [s]
  {
    assert Position(',', s) < |s| ==> s[Position(',', s)] in s;
  }

  lemma {:induction false} TwoParts(s: string, t: string)
    requires ',' !in s && ',' !in t
    ensures Parts(',', s + "," + t) == [s, t]
  {
    var all := s + "," + t;
    assert all[..|s|] == s && all[|s| + 1..] == t;
    PositionIs(',', all, |s|);
    OnePart(t);
  }

  lemma {:induction false} SideTextReads(side: Side)
    ensures ',' !in SideText(side) && WordOf(Strip(SideText(side))) == SideWord(side)
  {
    StripsToItself(SideText(side));
  }

  lemma {:induction false} StateTextReads(established: bool)
    ensures ',' !in StateText(established) && WordOf(Strip(StateText(established))) == StateWord(established)
  {
    StripsToItself(StateText(established));
  }

  lemma {:induction false} FlowWords(o: FlowOption)
    requires o != UNCHECKED
    ensures WordsOf(Parts(',', FlowText(o)))
            == (if o.direction.Some? then [SideWord(o.direction.value)] else [])
               + (if o.established.Some? then [StateWord(o.established.value)] else [])
  {
    if o.direction.Some? {
      SideTextReads(o.direction.value);
    }
    if o.established.Some? {
      StateTextReads(o.established.value);
    }
    if o.direction.Some? && o.established.Some? {
      TwoParts(SideText(o.direction.value), StateText(o.established.value));
    } else {
      OnePart(FlowText(o));
    }
  }

  // The text of a matched flow item reads back as its check. A check of nothing has no text that a rule may hold.
  lemma {:induction false} FlowRoundTrip(o: FlowOption)
    ensures FlowOf(FlowText(o)) == if o == UNCHECKED then Err(Invalid(EmptyFlowValue)) else Ok(o)
  {
    if o == UNCHECKED {
      OnePart("");
      assert WordsOf([""])[0] == WordOf(Strip("")) == NoWord;
    } else {
      FlowWords(o);
      FlowIsItsWords(FlowText(o), o);
    }
  }

  // ---------- Flags checks ----------

  function FlagOf(c: char): Option<Flag> {
    if c == 'F' then Some(FlowModel.FIN)
    else if c == 'S' then Some(FlowModel.SYN)
    else if c == 'R' then Some(FlowModel.RST)
    else if c == 'P' then Some(FlowModel.PSH)
    else if c == 'A' then Some(FlowModel.ACK)
    else if c == 'U' then Some(FlowModel.URG)
    else if c == 'C' then Some(FlowModel.CWR)
    else if c == 'E' then Some(FlowModel.ECE)
    else None
  }

  predicate IsMark(c: char) { c == '+' || c == '*' || c == '!' }

  function ModifierOf(c: char): FlagsModifier
    requires IsMark(c)
  {
    if c == '+' then AllOf else if c == '*' then AnyOf else NoneOf
  }

  // The modifier of a value, before or behind the flags, and the rest.
  function SplitMark(value: string): (FlagsModifier, string) {
    if value != "" && IsMark(value[0]) then (ModifierOf(value[0]), value[1..])
    else if value != "" && IsMark(value[|value| - 1]) then (ModifierOf(value[|value| - 1]), value[..|value| - 1])
    else (Exactly, value)
  }

  function FlagSet(letters: string): set<Flag> { set c | c in letters && FlagOf(c).Some? :: FlagOf(c).value }

  // What the letters behind the modifier say.
  function LettersOf(modifier: FlagsModifier, letters: string): Result<FlagsOption, Reject> {
    if letters == "" then Err(Invalid(EmptyFlags))
    else if exists c :: c in letters && FlagOf(c).None? && c !in "012" then Err(Invalid(BadFlag))
    else if '1' in letters || '2' in letters then Err(Unsupported(LegacyFlags))
    else if '0' in letters then
      if letters != "0" then Err(Invalid(ZeroWithFlags)) else Ok(FlagsOption({}, modifier))
    else Ok(FlagsOption(FlagSet(letters), modifier))
  }

  function FlagsOf(value: string): Result<FlagsOption, Reject> {
    if ',' in value then Err(Unsupported(FlagsMask))
    else
      var (modifier, letters) := SplitMark(value);
      LettersOf(modifier, letters)
  }

  function Mark(modifier: FlagsModifier): string {
    match modifier
    case Exactly => ""
    case AllOf => "+"
    case AnyOf => "*"
    case NoneOf => "!"
  }

  // Letters for these flags, in any order and repeated at will, or a zero for none.
  predicate Spells(letters: string, flags: set<Flag>) {
    || (letters == "0" && flags == {})
    || (letters != "" && (forall c :: c in letters ==> FlagOf(c).Some?) && FlagSet(letters) == flags)
  }

  predicate Marked(value: string, modifier: FlagsModifier, letters: string) {
    value == Mark(modifier) + letters || value == letters + Mark(modifier)
  }

  lemma {:induction false} SpelledLetters(letters: string, flags: set<Flag>)
    requires Spells(letters, flags)
    ensures letters != "" && forall c :: c in letters ==> (FlagOf(c).Some? || c == '0') && !IsMark(c) && c != ','
  {
  }

  lemma {:induction false} MarkSplits(value: string, modifier: FlagsModifier, letters: string)
    requires letters != "" && (forall c :: c in letters ==> !IsMark(c) && c != ',') && Marked(value, modifier, letters)
    ensures SplitMark(value) == (modifier, letters) && ',' !in value
  {
    assert !IsMark(letters[0]) && !IsMark(letters[|letters| - 1]);
    if modifier == Exactly {
      assert value == letters;
    } else if value == Mark(modifier) + letters {
      assert value[0] == Mark(modifier)[0] && value[1..] == letters;
    } else {
      assert value[0] == letters[0] && value[|value| - 1] == Mark(modifier)[0] && value[..|value| - 1] == letters;
    }
  }

  lemma {:induction false} MarkStands(value: string)
    ensures var (modifier, letters) := SplitMark(value); Marked(value, modifier, letters)
  {
    if value != "" {
      assert value == [value[0]] + value[1..] && value == value[..|value| - 1] + [value[|value| - 1]];
    }
  }

  lemma {:induction false} LettersRead(letters: string, flags: set<Flag>)
    requires Spells(letters, flags) && letters != "0"
    ensures '0' !in letters && '1' !in letters && '2' !in letters && FlagSet(letters) == flags
  {
  }

  lemma {:induction false} AcceptedLettersSpell(modifier: FlagsModifier, letters: string, o: FlagsOption)
    requires LettersOf(modifier, letters) == Ok(o)
    ensures Spells(letters, o.flags) && o.modifier == modifier
  {
    if letters != "0" {
      forall c | c in letters ensures FlagOf(c).Some? {
        assert c in "012" ==> c == '0' || c == '1' || c == '2';
      }
    }
  }

  lemma {:induction false} SpellingLettersRead(letters: string, o: FlagsOption)
    requires Spells(letters, o.flags)
    ensures LettersOf(o.modifier, letters) == Ok(o)
  {
    if letters != "0" {
      LettersRead(letters, o.flags);
    }
  }

  ghost predicate SaysFlags(value: string, o: FlagsOption) {
    exists letters :: Spells(letters, o.flags) && Marked(value, o.modifier, letters)
  }

  // A flags check is accepted exactly when it is letters of flags, or a zero, with one modifier before or behind them.
  lemma {:induction false} FlagsAreTheirLetters(value: string, o: FlagsOption)
    ensures FlagsOf(value) == Ok(o) <==> SaysFlags(value, o)
  {
    var (modifier, letters) := SplitMark(value);
    if FlagsOf(value) == Ok(o) {
      MarkStands(value);
      AcceptedLettersSpell(modifier, letters, o);
    }
    if SaysFlags(value, o) {
      var l :| Spells(l, o.flags) && Marked(value, o.modifier, l);
      SpelledLetters(l, o.flags);
      MarkSplits(value, o.modifier, l);
      SpellingLettersRead(l, o);
    }
  }

  // ---------- Size checks ----------

  function DropSpaces(s: string): (r: string)
    ensures |r| <= |s|
  {
    if s != "" && s[0] == ' ' then DropSpaces(s[1..]) else s
  }

  // How many digits a text begins with.
  function DigitCount(s: string): (n: nat)
    ensures n <= |s| && IsDigits(s[..n])
    ensures n < |s| ==> !('0' <= s[n] <= '9')
  {
    if s == "" || !('0' <= s[0] <= '9') then 0
    else
      var n := DigitCount(s[1..]);
      assert s[..1 + n] == [s[0]] + s[1..][..n];
      1 + n
  }

  function DsizeOf(value: string): Result<DsizeOption, Reject> {
    if value != "" && (value[0] == '<' || value[0] == '>') then
      var digits := DropSpaces(value[1..]);
      if ShortDigits(digits) then Ok(DsizeOption(if value[0] == '<' then Less else Greater, Decimal(digits), None))
      else Err(Invalid(BadDsize))
    else
      var n := DigitCount(value);
      if !ShortDigits(value[..n]) then Err(Invalid(BadDsize))
      else if n == |value| then Ok(DsizeOption(Equal, Decimal(value[..n]), None))
      else RangeOf(Decimal(value[..n]), DropSpaces(value[n..]))
  }

  // The rest of a range behind its lower limit.
  function RangeOf(low: nat, rest: string): Result<DsizeOption, Reject> {
    if !("<>" <= rest) then Err(Invalid(BadDsize))
    else
      var digits := DropSpaces(rest[2..]);
      if !ShortDigits(digits) then Err(Invalid(BadDsize))
      else if low > Decimal(digits) then Err(Invalid(ReversedDsize))
      else Ok(DsizeOption(Between, low, Some(Decimal(digits))))
  }

  // The three ways to write a size check, with spaces between the digits and the signs.
  datatype DsizeText =
    | BoundText(less: bool, spaces: nat, digits: string)
    | RangeText(low: string, before: nat, behind: nat, high: string)
    | ExactText(digits: string)

  function Spaces(n: nat): (s: string)
    ensures |s| == n
  {
    if n == 0 then "" else " " + Spaces(n - 1)
  }

  predicate LegalDsize(t: DsizeText) {
    match t
    case BoundText(_, _, digits) => ShortDigits(digits)
    case RangeText(low, _, _, high) => ShortDigits(low) && ShortDigits(high) && Decimal(low) <= Decimal(high)
    case ExactText(digits) => ShortDigits(digits)
  }

  function RenderDsize(t: DsizeText): string {
    match t
    case BoundText(less, spaces, digits) => (if less then "<" else ">") + (Spaces(spaces) + digits)
    case RangeText(low, before, behind, high) => low + (Spaces(before) + ("<>" + (Spaces(behind) + high)))
    case ExactText(digits) => digits
  }

  function DsizeMeaning(t: DsizeText): DsizeOption
    requires LegalDsize(t)
  {
    match t
    case BoundText(less, _, digits) => DsizeOption(if less then Less else Greater, Decimal(digits), None)
    case RangeText(low, _, _, high) => DsizeOption(Between, Decimal(low), Some(Decimal(high)))
    case ExactText(digits) => DsizeOption(Equal, Decimal(digits), None)
  }

  lemma {:induction false} SpacesDrop(n: nat, s: string)
    requires s != "" && s[0] != ' '
    ensures DropSpaces(Spaces(n) + s) == s
  {
    if n == 0 {
      assert Spaces(0) + s == s;
    } else {
      assert (Spaces(n) + s)[1..] == Spaces(n - 1) + s;
      SpacesDrop(n - 1, s);
    }
  }

  lemma {:induction false} DroppedSpaces(s: string) returns (n: nat)
    ensures s == Spaces(n) + DropSpaces(s)
  {
    if s != "" && s[0] == ' ' {
      var m := DroppedSpaces(s[1..]);
      n := m + 1;
      assert s == [s[0]] + s[1..];
    } else {
      n := 0;
    }
  }

  lemma {:induction false} DigitsCount(digits: string, rest: string)
    requires IsDigits(digits) && (rest == "" || !('0' <= rest[0] <= '9'))
    ensures DigitCount(digits + rest) == |digits|
  {
    var s := digits + rest;
    var n := DigitCount(s);
    assert forall j :: 0 <= j < n ==> s[..n][j] == s[j];
    assert forall j :: 0 <= j < |digits| ==> s[j] == digits[j];
    assert rest != "" ==> s[|digits|] == rest[0];
  }

  // Every legal text reads as its meaning.
  lemma {:induction false} RenderedDsizeReads(t: DsizeText)
    requires LegalDsize(t)
    ensures DsizeOf(RenderDsize(t)) == Ok(DsizeMeaning(t))
  {
    var value := RenderDsize(t);
    match t
    case BoundText(less, spaces, digits) =>
      assert value[1..] == Spaces(spaces) + digits;
      SpacesDrop(spaces, digits);
    case RangeText(low, before, behind, high) => RenderedRangeReads(low, before, behind, high);
    case ExactText(digits) =>
      DigitsCount(digits, "");
      assert digits + "" == digits && digits[..|digits|] == digits;
  }

  lemma {:induction false} RenderedRangeReads(low: string, before: nat, behind: nat, high: string)
    requires ShortDigits(low) && ShortDigits(high)
    ensures DsizeOf(low + (Spaces(before) + ("<>" + (Spaces(behind) + high))))
            == if Decimal(low) <= Decimal(high) then Ok(DsizeOption(Between, Decimal(low), Some(Decimal(high))))
               else Err(Invalid(ReversedDsize))
  {
    var signs := "<>" + (Spaces(behind) + high);
    var rest := Spaces(before) + signs;
    assert before > 0 ==> rest[0] == ' ';
    assert before == 0 ==> rest == signs;
    SpacesDrop(before, signs);
    RangeBehindDigits(low, rest);
    assert signs[..2] == "<>" && signs[2..] == Spaces(behind) + high;
    SpacesDrop(behind, high);
  }

  // Digits and then something else are read as the lower limit of a range.
  lemma {:induction false} RangeBehindDigits(low: string, rest: string)
    requires ShortDigits(low) && rest != "" && !('0' <= rest[0] <= '9')
    ensures DsizeOf(low + rest) == RangeOf(Decimal(low), DropSpaces(rest))
  {
    var value := low + rest;
    DigitsCount(low, rest);
    assert value[0] == low[0] && value[..|low|] == low && value[|low|..] == rest;
  }

  lemma {:induction false} SignsStand(rest: string)
    requires "<>" <= rest
    ensures rest == "<>" + rest[2..]
  {
  }

  lemma {:induction false} AcceptedRangeRenders(low: string, behind: string) returns (t: DsizeText)
    requires ShortDigits(low)
    requires RangeOf(Decimal(low), DropSpaces(behind)) != Err(Invalid(BadDsize))
    ensures t.RangeText? && ShortDigits(t.low) && ShortDigits(t.high) && RenderDsize(t) == low + behind
    ensures Decimal(t.low) <= Decimal(t.high) <==> RangeOf(Decimal(low), DropSpaces(behind)).Ok?
  {
    var rest := DropSpaces(behind);
    var m := DroppedSpaces(behind);
    var n := DroppedSpaces(rest[2..]);
    t := RangeText(low, m, n, DropSpaces(rest[2..]));
    SignsStand(rest);
  }

  lemma {:induction false} AcceptedBoundRenders(value: string) returns (t: DsizeText)
    requires value != "" && (value[0] == '<' || value[0] == '>') && ShortDigits(DropSpaces(value[1..]))
    ensures LegalDsize(t) && RenderDsize(t) == value
  {
    var n := DroppedSpaces(value[1..]);
    t := BoundText(value[0] == '<', n, DropSpaces(value[1..]));
    assert value == [value[0]] + value[1..];
  }

  lemma {:induction false} AcceptedDigitsRender(value: string, n: nat) returns (t: DsizeText)
    requires n <= |value| && ShortDigits(value[..n])
    requires n < |value| ==> RangeOf(Decimal(value[..n]), DropSpaces(value[n..])).Ok?
    ensures LegalDsize(t) && RenderDsize(t) == value
  {
    if n == |value| {
      t := ExactText(value);
      assert value[..n] == value;
    } else {
      t := AcceptedRangeRenders(value[..n], value[n..]);
      assert value == value[..n] + value[n..];
    }
  }

  // Whatever is accepted is such a text.
  lemma {:induction false} AcceptedDsizeRenders(value: string) returns (t: DsizeText)
    requires DsizeOf(value).Ok?
    ensures LegalDsize(t) && RenderDsize(t) == value
  {
    if value != "" && (value[0] == '<' || value[0] == '>') {
      t := AcceptedBoundRenders(value);
    } else {
      t := AcceptedDigitsRender(value, DigitCount(value));
    }
  }

  ghost predicate SaysDsize(value: string, o: DsizeOption) {
    exists t :: LegalDsize(t) && RenderDsize(t) == value && DsizeMeaning(t) == o
  }

  // A size check is accepted exactly when it is written in one of the three ways, with its limits in order, and it then
  // checks what is written.
  lemma {:induction false} DsizeIsItsText(value: string, o: DsizeOption)
    ensures DsizeOf(value) == Ok(o) <==> SaysDsize(value, o)
  {
    if SaysDsize(value, o) {
      var t :| LegalDsize(t) && RenderDsize(t) == value && DsizeMeaning(t) == o;
      RenderedDsizeReads(t);
    }
    if DsizeOf(value) == Ok(o) {
      var t := AcceptedDsizeRenders(value);
      RenderedDsizeReads(t);
    }
  }

  // A size check that a rule can write.
  predicate WritableDsize(o: DsizeOption) {
    && |Spelled(o.value)| <= 10
    && (o.operator == Between <==> o.upper.Some?)
    && (o.upper.Some? ==> |Spelled(o.upper.value)| <= 10 && o.value <= o.upper.value)
  }

  // A size check as a matched item shows it.
  function DsizeItemText(o: DsizeOption): string {
    var value := Spelled(o.value);
    match o.operator
    case Between => value + "<>" + if o.upper.Some? then Spelled(o.upper.value) else "None"
    case Equal => value
    case Greater => ">" + value
    case Less => "<" + value
  }

  lemma {:induction false} WithoutSpaces(front: string, sign: string, back: string)
    ensures Spaces(0) + back == back
    ensures front + (Spaces(0) + (sign + (Spaces(0) + back))) == front + sign + back
  {
    assert Spaces(0) == "";
  }

  lemma {:induction false} BoundRoundTrip(less: bool, digits: string)
    requires ShortDigits(digits)
    ensures DsizeOf((if less then "<" else ">") + digits)
            == Ok(DsizeOption(if less then Less else Greater, Decimal(digits), None))
  {
    RenderedDsizeReads(BoundText(less, 0, digits));
    WithoutSpaces("", "", digits);
  }

  lemma {:induction false} RangeRoundTrip(low: string, high: string)
    requires ShortDigits(low) && ShortDigits(high) && Decimal(low) <= Decimal(high)
    ensures DsizeOf(low + "<>" + high) == Ok(DsizeOption(Between, Decimal(low), Some(Decimal(high))))
  {
    RenderedRangeReads(low, 0, 0, high);
    WithoutSpaces(low, "<>", high);
  }

  // The text of a matched dsize item reads back as its check.
  lemma {:induction false} DsizeRoundTrip(o: DsizeOption)
    requires WritableDsize(o)
    ensures DsizeOf(DsizeItemText(o)) == Ok(o)
  {
    SpelledIsDecimal(o.value);
    match o.operator
    case Between =>
      SpelledIsDecimal(o.upper.value);
      RangeRoundTrip(Spelled(o.value), Spelled(o.upper.value));
    case Equal => RenderedDsizeReads(ExactText(Spelled(o.value)));
    case Greater => BoundRoundTrip(false, Spelled(o.value));
    case Less => BoundRoundTrip(true, Spelled(o.value));
  }

  // ---------- One single option ----------

  function ValueOf(option: SingleOption, value: string): Result<OptionValue, Reject> {
    match option
    case Msg =>
      (match Message(value)
       case Err(e) => Err(e)
       case Ok(text) => Ok(Words(text)))
    case Classtype => if value == "" then Err(Invalid(EmptyClasstype)) else Ok(Words(value))
    case FlowCheck =>
      (match FlowOf(value)
       case Err(e) => Err(e)
       case Ok(o) => Ok(FlowValue(o)))
    case FlagsCheck =>
      (match FlagsOf(value)
       case Err(e) => Err(e)
       case Ok(o) => Ok(FlagsValue(o)))
    case DsizeCheck =>
      (match DsizeOf(value)
       case Err(e) => Err(e)
       case Ok(o) => Ok(DsizeValue(o)))
    case _ =>
      (match NumberOf(value, false)
       case Err(e) => Err(e)
       case Ok(n) => Ok(Number(n)))
  }

  // What the text of an option says.
  ghost predicate Says(option: SingleOption, value: string, v: OptionValue) {
    match option
    case Msg => v.Words? && SaysMessage(value, v.text)
    case Classtype => v == Words(value) && value != ""
    case FlowCheck => v.FlowValue? && SaysFlow(value, v.flow)
    case FlagsCheck => v.FlagsValue? && SaysFlags(value, v.flags)
    case DsizeCheck => v.DsizeValue? && SaysDsize(value, v.dsize)
    case _ => v.Number? && SaysNumber(value, false, v.n)
  }

  // An option is accepted exactly when its text says a value for it, and it has the value that the text says.
  lemma {:induction false} ValueIsItsText(option: SingleOption, value: string, v: OptionValue)
    ensures ValueOf(option, value) == Ok(v) <==> Says(option, value, v)
  {
    match option
    case Msg =>
      if v.Words? {
        MessageIsItsText(value, v.text);
      }
    case Classtype =>
    case FlowCheck =>
      if v.FlowValue? {
        FlowIsItsWords(value, v.flow);
      }
    case FlagsCheck =>
      if v.FlagsValue? {
        FlagsAreTheirLetters(value, v.flags);
      }
    case DsizeCheck =>
      if v.DsizeValue? {
        DsizeIsItsText(value, v.dsize);
      }
    case _ =>
      if v.Number? {
        NumberIsItsDigits(value, false, v.n);
      }
  }

  method ParseValue(option: SingleOption, value: string) returns (r: Result<OptionValue, Reject>)
    ensures r == ValueOf(option, value)
  {
    if option == FlowCheck {
      var flow := ParseFlow(value);
      r := match flow case Err(e) => Err(e) case Ok(o) => Ok(FlowValue(o));
    } else {
      r := ValueOf(option, value);
    }
  }

  // What the matcher and the records may rely on: numbers that are not negative, texts that are not empty, a flow check
  // that checks something, and limits in order.
  predicate Typed(option: SingleOption, v: OptionValue) {
    match option
    case Msg => v.Words? && v.text != ""
    case Classtype => v.Words? && v.text != ""
    case FlowCheck => v.FlowValue? && v.flow != UNCHECKED
    case FlagsCheck => v.FlagsValue?
    case DsizeCheck =>
      && v.DsizeValue?
      && (v.dsize.operator == Between <==> v.dsize.upper.Some?)
      && (v.dsize.operator == Between ==> v.dsize.value <= v.dsize.upper.value)
    case _ => v.Number? && v.n >= 0
  }

  lemma {:induction false} AcceptedValueIsTyped(option: SingleOption, value: string)
    requires ValueOf(option, value).Ok?
    ensures Typed(option, ValueOf(option, value).value)
  {
    if option == FlowCheck {
      FlowIsItsWords(value, FlowOf(value).value);
      var words := WordsOf(Parts(',', value));
      assert words[0] in words && Fits(words[0], FlowOf(value).value);
    } else if option == DsizeCheck {
      var t := AcceptedDsizeRenders(value);
      RenderedDsizeReads(t);
    }
  }
}
