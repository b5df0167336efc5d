// The options of a rule printed as tokens, each of which reads back among any other options.
module RulePrinting {
  import opened Base
  import opened RuleTokens
  import opened RuleContents
  import opened RuleMatch
  import opened RuleValues
  import opened RuleOptions

  // ---------- Printing a content ----------

  function HexDigit(n: nat): char
    requires n < 16
  {
    if n < 10 then '0' + n as char else 'A' + (n - 10) as char
  }

  // Printable text as it is, the three escapable characters escaped, and everything else as a hex run.
  function PrintByte(b: Byte): Item {
    if b == 0x22 || b == 0x3B || b == 0x5C then Escaped(b as char)
    else if 0x20 <= b <= 0x7E && b != 0x7C then Plain(b as char)
    else HexRun([HexDigit(b / 16), HexDigit(b % 16)])
  }

  function Print(bytes: Bytes): seq<Item> {
    if bytes == [] then [] else [PrintByte(bytes[0])] + Print(bytes[1..])
  }

  function ContentToken(items: seq<Item>): string { "content:\"" + RenderAll(items) + "\"" }

  lemma {:induction false} HexDigitMeans(n: nat)
    requires n < 16
    ensures IsHex(HexDigit(n)) && HexDigit(n) != '|' && HexValue(HexDigit(n)) == n
  {
  }

  lemma {:induction false} PrintByteMeans(b: Byte)
    ensures LegalItem(PrintByte(b)) && Meaning(PrintByte(b)) == [b]
  {
    if PrintByte(b).HexRun? {
      var run := PrintByte(b).run;
      HexDigitMeans(b / 16);
      HexDigitMeans(b % 16);
      assert run[1..][1..] == "" && Digits(run[1..]) == [run[1]];
      assert Digits(run) == run && run[2..] == "";
      assert HexBytes(run) == [HexByte(run[0], run[1])] + HexBytes(run[2..]);
      assert HexByte(run[0], run[1]) == b;
    }
  }

  lemma {:induction false} PrintMeans(bytes: Bytes)
    ensures AllLegal(Print(bytes)) && MeaningAll(Print(bytes)) == bytes
  {
    if bytes != [] {
      PrintByteMeans(bytes[0]);
      PrintMeans(bytes[1..]);
      assert Print(bytes)[1..] == Print(bytes[1..]);
      assert bytes == [bytes[0]] + bytes[1..];
    }
  }

  // ---------- A content among other options ----------

  lemma {:induction false} PlainPasses(s: string, rest: string, quoted: bool)
    requires forall c :: c in s ==> c != '\\' && c != '"' && (c == ';' ==> quoted)
    ensures Closed(s + rest, quoted) == Closed(rest, quoted)
    ensures ClosedOrCut(s + rest, quoted) == ClosedOrCut(rest, quoted)
    decreases |s|
  {
    if s == "" {
      assert s + rest == rest;
    } else {
      assert s[0] in s && (s + rest)[1..] == s[1..] + rest;
      assert forall c :: c in s[1..] ==> c in s;
      PlainPasses(s[1..], rest, quoted);
    }
  }

  lemma {:induction false} RunIsPlain(run: string)
    requires AllHex(Digits(run))
    ensures forall c :: c in run ==> c == ' ' || IsHex(c)
    decreases |run|
  {
    if run != "" {
      var more := Digits(run[1..]);
      if run[0] != ' ' {
        assert Digits(run) == [run[0]] + more;
        assert Digits(run)[0] == run[0];
        assert forall i :: 0 <= i < |more| ==> more[i] == Digits(run)[i + 1];
      } else {
        assert Digits(run) == more;
      }
      RunIsPlain(run[1..]);
      forall c | c in run ensures c == ' ' || IsHex(c) {
        assert c == run[0] || c in run[1..];
      }
    }
  }

  lemma {:induction false} ItemPasses(item: Item, rest: string)
    requires LegalItem(item)
    ensures Closed(Render(item) + rest, true) == Closed(rest, true)
  {
    match item
    case Plain(c) => PlainPasses([c], rest, true);
    case Escaped(c) => assert (Render(item) + rest)[2..] == rest;
    case HexRun(run) =>
      RunIsPlain(run);
      PlainPasses(Render(item), rest, true);
  }

  lemma {:induction false} ItemsPass(items: seq<Item>, rest: string)
    requires AllLegal(items)
    ensures Closed(RenderAll(items) + rest, true) == Closed(rest, true)
    decreases |items|
  {
    if items == [] {
      assert "" + rest == rest;
    } else {
      assert RenderAll(items) + rest == Render(items[0]) + (RenderAll(items[1..]) + rest);
      ItemPasses(items[0], RenderAll(items[1..]) + rest);
      ItemsPass(items[1..], rest);
    }
  }

  lemma {:induction false} ContentTokenIsClosed(items: seq<Item>)
    requires AllLegal(items)
    ensures Closed(ContentToken(items), false)
  {
    var inner := RenderAll(items) + "\"";
    assert ContentToken(items) == "content:" + ("\"" + inner);
    PlainPasses("content:", "\"" + inner, false);
    assert ("\"" + inner)[1..] == inner;
    ItemsPass(items, "\"");
    assert "\""[1..] == "";
  }

  predicate Bare(s: string) { s == "" || (!IsSpace(s[0]) && !IsSpace(s[|s| - 1])) }

  lemma {:induction false} KeyValueParts(key: string, value: string)
    requires key != "" && ':' !in key && Bare(key) && value != "" && Bare(value)
    ensures var token := key + ":" + value;
            Strip(token) == token != "" && Key(token) == key && Value(token) == value
  {
    var token := key + ":" + value;
    assert token[..|key|] == key && token[|key|] == ':' && token[|key| + 1..] == value;
    PositionIs(':', token, |key|);
    StripsToItself(key);
    StripsToItself(value);
    StripsToItself(token);
  }

  lemma {:induction false} ClosedTokensJoin(tokens: seq<string>)
    requires tokens != [] && forall i :: 0 <= i < |tokens| ==> Closed(tokens[i], false)
    ensures TokensOf(Join(tokens), tokens)
    decreases |tokens|
  {
    ClosedIsClosedOrCut(tokens[0], false);
    if |tokens| > 1 {
      ClosedTokensJoin(tokens[1..]);
    }
  }

  lemma {:induction false} ClosedIsClosedOrCut(text: string, quoted: bool)
    requires Closed(text, quoted)
    ensures ClosedOrCut(text, quoted)
    decreases |text|
  {
    if text != "" {
      if text[0] == '\\' {
        ClosedIsClosedOrCut(text[2..], quoted);
      } else {
        ClosedIsClosedOrCut(text[1..], quoted != (text[0] == '"'));
      }
    }
  }

  lemma {:induction false} ContentKeyword()
    ensures KeywordOf("content") == Contents
  {
    assert "content"[0] == 'c' && "classtype"[1] == 'l';
  }

  lemma {:induction false} ClosedOptionsSplit(before: seq<string>, token: string, after: seq<string>)
    requires Closed(token, false) && Strip(token) == token != ""
    requires forall t :: t in before + after ==> Closed(t, false)
    ensures Split(Join(before + [token] + after)) == Ok(StripAll(before) + [token] + StripAll(after))
  {
    var tokens := before + [token] + after;
    forall i | 0 <= i < |tokens| ensures Closed(tokens[i], false) {
      assert tokens[i] == token || tokens[i] in before + after;
    }
    ClosedTokensJoin(tokens);
    SplitIsTokens(Join(tokens));
    StripAllConcat(before + [token], after);
    StripAllConcat(before, [token]);
    assert StripAll([token]) == [token];
  }

  lemma {:induction false} ContentPiece(value: string)
    requires value != "" && Bare(value)
    ensures var token := "content:" + value;
            Strip(token) == token != "" && PieceOf(token) == Piece(Contents, value)
  {
    KeyValueParts("content", value);
    assert "content" + ":" + value == "content:" + value;
    ContentKeyword();
  }

  lemma {:induction false} ContentTokenParts(items: seq<Item>)
    ensures var token := ContentToken(items);
            Strip(token) == token != "" && PieceOf(token) == Piece(Contents, "\"" + RenderAll(items) + "\"")
  {
    var value := "\"" + RenderAll(items) + "\"";
    ContentPiece(value);
    TokenIsKeyAndValue(items);
  }

  lemma {:induction false} TokenIsKeyAndValue(items: seq<Item>)
    ensures ContentToken(items) == "content:" + ("\"" + RenderAll(items) + "\"")
  {
  }

  lemma {:induction false} WrittenContentReads(items: seq<Item>)
    requires AllLegal(items) && MeaningAll(items) != []
    ensures Content("\"" + RenderAll(items) + "\"") == Ok(Draft(RenderAll(items), MeaningAll(items), map[]))
  {
    var value := "\"" + RenderAll(items) + "\"";
    assert Writes(value, items);
    WrittenItemsRead(value, items);
  }

  // A content written in any legal way stands unchanged among any other closed options: no option is split or
  // merged, and the content reads back as the bytes that it means.
  lemma {:induction false} WrittenContentSurvives(before: seq<string>, items: seq<Item>, after: seq<string>)
    requires AllLegal(items) && MeaningAll(items) != []
    requires forall t :: t in before + after ==> Closed(t, false)
    ensures var token := ContentToken(items);
            && Split(Join(before + [token] + after)) == Ok(StripAll(before) + [token] + StripAll(after))
            && PieceOf(token).kind == Contents
            && Content(PieceOf(token).value) == Ok(Draft(RenderAll(items), MeaningAll(items), map[]))
  {
    ContentTokenIsClosed(items);
    ContentTokenParts(items);
    ClosedOptionsSplit(before, ContentToken(items), after);
    WrittenContentReads(items);
  }

  // In particular every byte string, printed.
  lemma {:induction false} PrintedContentSurvives(before: seq<string>, bytes: Bytes, after: seq<string>)
    requires bytes != [] && forall t :: t in before + after ==> Closed(t, false)
    ensures var token := ContentToken(Print(bytes));
            && Split(Join(before + [token] + after)) == Ok(StripAll(before) + [token] + StripAll(after))
            && PieceOf(token).kind == Contents
            && Content(PieceOf(token).value).Ok? && Content(PieceOf(token).value).value.pattern == bytes
  {
    PrintMeans(bytes);
    WrittenContentSurvives(before, Print(bytes), after);
  }

  // ---------- A message among other options ----------

  lemma {:induction false} EscapedTextPasses(s: string, rest: string)
    ensures Closed(EscapedText(s) + rest, true) == Closed(rest, true)
    decreases |s|
  {
    if s == "" {
      assert "" + rest == rest;
    } else {
      var front := if Escapable(s[0]) then ['\\', s[0]] else [s[0]];
      var all := EscapedText(s[1..]) + rest;
      assert EscapedText(s) + rest == front + all;
      if Escapable(s[0]) {
        assert (front + all)[2..] == all;
      } else {
        PlainPasses([s[0]], all, true);
      }
      EscapedTextPasses(s[1..], rest);
    }
  }

  lemma {:induction false} QuotedTextIsClosed(s: string)
    ensures Closed(QuotedText(s), false)
  {
    var inner := EscapedText(s) + "\"";
    assert QuotedText(s) == "\"" + inner && ("\"" + inner)[1..] == inner;
    EscapedTextPasses(s, "\"");
    assert "\""[1..] == "";
  }

  function MessageToken(s: string): string { "msg:" + QuotedText(s) }

  lemma {:induction false} MessageTokenIsClosed(s: string)
    ensures Closed(MessageToken(s), false)
  {
    PlainPasses("msg:", QuotedText(s), false);
    QuotedTextIsClosed(s);
  }

  lemma {:induction false} MessageKeyword()
    ensures KeywordOf("msg") == Single(Msg)
  {
    assert "msg"[0] == 'm' && "sid"[0] == 's' && "rev"[0] == 'r';
  }

  lemma {:induction false} MessagePiece(value: string)
    requires value != "" && Bare(value)
    ensures var token := "msg:" + value;
            Strip(token) == token != "" && PieceOf(token) == Piece(Single(Msg), value)
  {
    KeyValueParts("msg", value);
    assert "msg" + ":" + value == "msg:" + value;
    MessageKeyword();
  }

  lemma {:induction false} QuotedTextIsBare(s: string)
    ensures QuotedText(s) != "" && Bare(QuotedText(s))
  {
    var value := QuotedText(s);
    assert value[0] == '"' && value[|value| - 1] == '"';
  }

  // Every message that is not empty, printed with escapes among any closed options, reads back as itself.
  lemma {:induction false} PrintedMessageSurvives(before: seq<string>, s: string, after: seq<string>)
    requires s != "" && forall t :: t in before + after ==> Closed(t, false)
    ensures var token := MessageToken(s);
            && Split(Join(before + [token] + after)) == Ok(StripAll(before) + [token] + StripAll(after))
            && PieceOf(token).kind == Single(Msg) && ValueOf(Msg, PieceOf(token).value) == Ok(Words(s))
  {
    MessageTokenIsClosed(s);
    QuotedTextIsBare(s);
    MessagePiece(QuotedText(s));
    ClosedOptionsSplit(before, MessageToken(s), after);
    MessageRoundTrip(s);
  }

  // ---------- The text of a value ----------

  // Characters that neither split, quote nor escape anything, and no white space.
  predicate IsPlain(c: char) { !Escapable(c) && !IsSpace(c) }

  predicate AllPlain(s: string) { forall i :: 0 <= i < |s| ==> IsPlain(s[i]) }

  lemma {:induction false} PlainIsClosed(s: string)
    requires AllPlain(s)
    ensures Bare(s) && Closed(s, false)
  {
    PlainPasses(s, "", false);
    assert s + "" == s;
  }

  lemma {:induction false} PlainJoin(s: string, t: string)
    requires AllPlain(s) && AllPlain(t)
    ensures AllPlain(s + t)
  {
  }

  // The letters of some flags, in this order.
  function LettersIn(order: string, flags: set<Flag>): string {
    if order == "" then ""
    else
      (if FlagOf(order[0]).Some? && FlagOf(order[0]).value in flags then [order[0]] else "")
        + LettersIn(order[1..], flags)
  }

  function FlagsText(o: FlagsOption): string {
    Mark(o.modifier) + if o.flags == {} then "0" else LettersIn("FSRPAUCE", o.flags)
  }

  lemma {:induction false} LettersAre(order: string, flags: set<Flag>)
    ensures forall c :: c in LettersIn(order, flags) <==> c in order && FlagOf(c).Some? && FlagOf(c).value in flags
    decreases |order|
  {
    if order != "" {
      LettersAre(order[1..], flags);
      assert forall c :: c in order <==> c == order[0] || c in order[1..];
    }
  }

  function LetterOf(f: Flag): (c: char)
    ensures FlagOf(c) == Some(f) && c in "FSRPAUCE"
  {
    match f
    case FIN => 'F'
    case SYN => 'S'
    case RST => 'R'
    case PSH => 'P'
    case ACK => 'A'
    case URG => 'U'
    case CWR => 'C'
    case ECE => 'E'
  }

  lemma {:induction false} LettersSpell(flags: set<Flag>)
    requires flags != {}
    ensures Spells(LettersIn("FSRPAUCE", flags), flags)
  {
    var letters := LettersIn("FSRPAUCE", flags);
    LettersAre("FSRPAUCE", flags);
    forall f | f in flags ensures f in FlagSet(letters) {
      assert LetterOf(f) in letters;
    }
    var some :| some in flags;
    assert LetterOf(some) in letters;
    assert FlagSet(letters) == flags;
  }

  lemma {:induction false} MarkIsPlain(modifier: FlagsModifier)
    ensures AllPlain(Mark(modifier))
  {
  }

  lemma {:induction false} SpellingIsPlain(letters: string, flags: set<Flag>)
    requires Spells(letters, flags)
    ensures letters != "" && AllPlain(letters)
  {
    SpelledLetters(letters, flags);
    forall i | 0 <= i < |letters| ensures IsPlain(letters[i]) {
      assert letters[i] in letters;
    }
  }

  lemma {:induction false} MarkedLettersRead(o: FlagsOption, letters: string)
    requires Spells(letters, o.flags)
    ensures var s := Mark(o.modifier) + letters; FlagsOf(s) == Ok(o) && s != "" && AllPlain(s)
  {
    FlagsAreTheirLetters(Mark(o.modifier) + letters, o);
    assert Marked(Mark(o.modifier) + letters, o.modifier, letters);
    MarkIsPlain(o.modifier);
    SpellingIsPlain(letters, o.flags);
    PlainJoin(Mark(o.modifier), letters);
  }

  lemma {:induction false} FlagsTextReads(o: FlagsOption)
    ensures FlagsOf(FlagsText(o)) == Ok(o) && FlagsText(o) != "" && AllPlain(FlagsText(o))
  {
    if o.flags == {} {
      MarkedLettersRead(o, "0");
    } else {
      LettersSpell(o.flags);
      MarkedLettersRead(o, LettersIn("FSRPAUCE", o.flags));
    }
  }

  // A value that has a text. All but a class type are printed plainly or in quotes. A class type is printed as it is.
  predicate Printable(option: SingleOption, v: OptionValue) {
    match option
    case Msg => v.Words? && v.text != ""
    case Classtype => v.Words? && v.text != "" && Bare(v.text) && ClosedOrCut(v.text, false)
    case FlowCheck => v.FlowValue? && v.flow != UNCHECKED
    case FlagsCheck => v.FlagsValue?
    case DsizeCheck => v.DsizeValue? && WritableDsize(v.dsize)
    case _ => v.Number? && v.n >= 0 && |Spelled(v.n)| <= 10
  }

  function ValueText(option: SingleOption, v: OptionValue): string
    requires Printable(option, v)
  {
    match option
    case Msg => QuotedText(v.text)
    case Classtype => v.text
    case FlowCheck => FlowText(v.flow)
    case FlagsCheck => FlagsText(v.flags)
    case DsizeCheck => DsizeItemText(v.dsize)
    case _ => Spelled(v.n)
  }

  // The text of a value is read by the parser of its option.
  ghost predicate TextReads(option: SingleOption, s: string, v: OptionValue) {
    match option
    case Msg => v.Words? && Message(s) == Ok(v.text)
    case Classtype => v == Words(s) && s != ""
    case FlowCheck => v.FlowValue? && FlowOf(s) == Ok(v.flow)
    case FlagsCheck => v.FlagsValue? && FlagsOf(s) == Ok(v.flags)
    case DsizeCheck => v.DsizeValue? && DsizeOf(s) == Ok(v.dsize)
    case _ => v.Number? && NumberOf(s, false) == Ok(v.n)
  }

  lemma {:induction false} ReadTextIsValue(option: SingleOption, s: string, v: OptionValue)
    requires TextReads(option, s, v)
    ensures ValueOf(option, s) == Ok(v)
  {
  }

  lemma {:induction false} OwnTextReads(option: SingleOption, v: OptionValue)
    requires Printable(option, v)
    ensures TextReads(option, ValueText(option, v), v)
  {
    match option
    case Msg => MessageRoundTrip(v.text);
    case Classtype =>
    case FlowCheck => FlowRoundTrip(v.flow);
    case FlagsCheck => FlagsTextReads(v.flags);
    case DsizeCheck => DsizeRoundTrip(v.dsize);
    case _ => NumberRoundTrip(v.n, false);
  }

  lemma {:induction false} ValueTextReads(option: SingleOption, v: OptionValue)
    requires Printable(option, v)
    ensures ValueOf(option, ValueText(option, v)) == Ok(v)
  {
    OwnTextReads(option, v);
    ReadTextIsValue(option, ValueText(option, v), v);
  }

  lemma {:induction false} DigitsArePlain(n: nat)
    ensures AllPlain(Spelled(n))
  {
  }

  lemma {:induction false} SideTextIsPlain(side: Side)
    ensures AllPlain(SideText(side)) && SideText(side) != ""
  {
  }

  lemma {:induction false} StateTextIsPlain(established: bool)
    ensures AllPlain(StateText(established)) && StateText(established) != ""
  {
  }

  lemma {:induction false} PlainList(s: string, t: string)
    requires AllPlain(s) && AllPlain(t)
    ensures AllPlain(s + "," + t) && s + "," + t != ""
  {
    PlainJoin(s, ",");
    PlainJoin(s + ",", t);
  }

  lemma {:induction false} FlowTextIsPlain(o: FlowOption)
    requires o != UNCHECKED
    ensures AllPlain(FlowText(o)) && FlowText(o) != ""
  {
    if o.direction.Some? {
      SideTextIsPlain(o.direction.value);
    }
    if o.established.Some? {
      StateTextIsPlain(o.established.value);
    }
    if o.direction.Some? && o.established.Some? {
      PlainList(SideText(o.direction.value), StateText(o.established.value));
    }
  }

  lemma {:induction false} DsizeTextIsPlain(o: DsizeOption)
    ensures AllPlain(DsizeItemText(o)) && DsizeItemText(o) != ""
  {
    DigitsArePlain(o.value);
    if o.upper.Some? {
      DigitsArePlain(o.upper.value);
    }
  }

  lemma {:induction false} ValueTextIsPlain(option: SingleOption, v: OptionValue)
    requires Printable(option, v) && option != Msg && option != Classtype
    ensures AllPlain(ValueText(option, v)) && ValueText(option, v) != ""
  {
    match option
    case Msg =>
    case Classtype =>
    case FlowCheck => FlowTextIsPlain(v.flow);
    case FlagsCheck => FlagsTextReads(v.flags);
    case DsizeCheck => DsizeTextIsPlain(v.dsize);
    case _ => DigitsArePlain(v.n);
  }

  lemma {:induction false} PlainStands(s: string)
    requires AllPlain(s)
    ensures Bare(s) && ClosedOrCut(s, false) && Closed(s, false)
  {
    PlainIsClosed(s);
    ClosedIsClosedOrCut(s, false);
  }

  lemma {:induction false} QuotedTextStands(s: string)
    ensures QuotedText(s) != "" && Bare(QuotedText(s)) && ClosedOrCut(QuotedText(s), false)
            && Closed(QuotedText(s), false)
  {
    QuotedTextIsBare(s);
    QuotedTextIsClosed(s);
    ClosedIsClosedOrCut(QuotedText(s), false);
  }

  // The text of a value stays whole between other options. Only a class type can be cut, and is then the last.
  lemma {:induction false} ValueTextStands(option: SingleOption, v: OptionValue)
    requires Printable(option, v)
    ensures var s := ValueText(option, v);
            s != "" && Bare(s) && ClosedOrCut(s, false) && (option != Classtype ==> Closed(s, false))
  {
    if option == Msg {
      QuotedTextStands(v.text);
    } else if option != Classtype {
      ValueTextIsPlain(option, v);
      PlainStands(ValueText(option, v));
    }
  }

  // ---------- The token of an option ----------

  function OptionName(option: SingleOption): string {
    match option
    case Sid => "sid"
    case Rev => "rev"
    case Msg => "msg"
    case Classtype => "classtype"
    case Priority => "priority"
    case FlowCheck => "flow"
    case FlagsCheck => "flags"
    case DsizeCheck => "dsize"
  }

  function ModifierName(m: Modifier): string {
    match m
    case Nocase => "nocase"
    case Offset => "offset"
    case Depth => "depth"
    case Distance => "distance"
    case Within => "within"
  }

  predicate IsName(s: string) { s != "" && forall i :: 0 <= i < |s| ==> 'a' <= s[i] <= 'z' }

  lemma {:induction false} NameIsPlain(s: string)
    requires IsName(s)
    ensures AllPlain(s) && Bare(s) && ':' !in s
  {
  }

  lemma {:induction false} OptionNameIsName(option: SingleOption)
    ensures IsName(OptionName(option))
  {
  }

  lemma {:induction false} ModifierNameIsName(m: Modifier)
    ensures IsName(ModifierName(m))
  {
  }

  lemma {:induction false} OptionNameReads(option: SingleOption)
    ensures KeywordOf(OptionName(option)) == Single(option)
  {
    assert "sid"[0] == 's' && "rev"[0] == 'r' && "msg"[0] == 'm' && "classtype"[0] == 'c' && "priority"[0] == 'p';
    assert "flow"[0] == 'f' && "flags"[2] == 'a' && "flow"[2] == 'o' && "dsize"[0] == 'd';
  }

  lemma {:induction false} ModifierNameReads(m: Modifier)
    ensures KeywordOf(ModifierName(m)) == Modifies(m)
  {
    assert "nocase"[0] == 'n' && "offset"[0] == 'o' && "depth"[1] == 'e' && "distance"[1] == 'i' && "within"[0] == 'w';
    assert "dsize"[1] == 's';
  }

  function Token(name: string, value: string): string { name + ":" + value }

  // A token is as closed as its value.
  lemma {:induction false} TokenIsLikeValue(name: string, value: string)
    requires AllPlain(name)
    ensures Closed(Token(name, value), false) == Closed(value, false)
    ensures ClosedOrCut(Token(name, value), false) == ClosedOrCut(value, false)
  {
    PlainPasses(name + ":", value, false);
  }

  // A printed token: it is not changed by stripping, it reads as this piece, and only the last one may be cut.
  ghost predicate StandsAlone(token: string, piece: Piece, cut: bool) {
    && Strip(token) == token != "" && PieceOf(token) == piece
    && ClosedOrCut(token, false) && (cut || Closed(token, false))
  }

  lemma {:induction false} NamedTokenStands(name: string, value: string, kind: Keyword, cut: bool)
    requires IsName(name) && KeywordOf(name) == kind && value != "" && Bare(value)
    requires ClosedOrCut(value, false) && (cut || Closed(value, false))
    ensures StandsAlone(Token(name, value), Piece(kind, value), cut)
  {
    NameIsPlain(name);
    KeyValueParts(name, value);
    TokenIsLikeValue(name, value);
  }

  function OptionToken(option: SingleOption, v: OptionValue): string
    requires Printable(option, v)
  {
    Token(OptionName(option), ValueText(option, v))
  }

  lemma {:induction false} OptionTokenStands(option: SingleOption, v: OptionValue)
    requires Printable(option, v)
    ensures StandsAlone(OptionToken(option, v), Piece(Single(option), ValueText(option, v)), option == Classtype)
  {
    OptionNameIsName(option);
    OptionNameReads(option);
    ValueTextStands(option, v);
    NamedTokenStands(OptionName(option), ValueText(option, v), Single(option), option == Classtype);
  }

  // A modifier that has a text.
  predicate PrintableModifier(m: Modifier, n: int) {
    if m == Nocase then n == 1 else |Spelled(Magnitude(n))| <= 10 && (n < 0 ==> m == Distance)
  }

  function Magnitude(n: int): nat { if n < 0 then -n else n }

  function NumberText(n: int): string {
    if n < 0 then "-" + Spelled(Magnitude(n)) else Spelled(Magnitude(n))
  }

  function ModifierValue(m: Modifier, n: int): string { if m == Nocase then "" else NumberText(n) }

  function ModifierToken(m: Modifier, n: int): string {
    if m == Nocase then "nocase" else Token(ModifierName(m), NumberText(n))
  }

  lemma {:induction false} NumberTextIsPlain(n: int)
    ensures AllPlain(NumberText(n)) && NumberText(n) != ""
  {
    DigitsArePlain(Magnitude(n));
    if n < 0 {
      PlainJoin("-", Spelled(Magnitude(n)));
    }
  }

  lemma {:induction false} NumberTextReads(n: int, negative: bool)
    requires |Spelled(Magnitude(n))| <= 10 && (n < 0 ==> negative)
    ensures NumberOf(NumberText(n), negative) == Ok(n)
  {
    NumberRoundTrip(Magnitude(n), negative);
  }

  lemma {:induction false} ReadNumberSets(m: Modifier, s: string, n: int)
    requires if m == Nocase then s == "" && n == 1 else NumberOf(s, m == Distance) == Ok(n)
    ensures Sets(m, s, n)
  {
  }

  lemma {:induction false} ModifierValueSets(m: Modifier, n: int)
    requires PrintableModifier(m, n)
    ensures Sets(m, ModifierValue(m, n), n)
  {
    if m != Nocase {
      NumberTextReads(n, m == Distance);
    }
    ReadNumberSets(m, ModifierValue(m, n), n);
  }

  lemma {:induction false} BareWordStands(name: string, kind: Keyword)
    requires IsName(name) && KeywordOf(name) == kind
    ensures StandsAlone(name, Piece(kind, ""), false)
  {
    NameIsPlain(name);
    PlainStands(name);
    StripsToItself(name);
    assert name[..|name|] == name;
  }

  lemma {:induction false} ModifierTokenStands(m: Modifier, n: int)
    ensures StandsAlone(ModifierToken(m, n), Piece(Modifies(m), ModifierValue(m, n)), false)
  {
    ModifierNameIsName(m);
    ModifierNameReads(m);
    if m == Nocase {
      BareWordStands("nocase", Modifies(Nocase));
    } else {
      NumberTextIsPlain(n);
      PlainStands(NumberText(n));
      NamedTokenStands(ModifierName(m), NumberText(n), Modifies(m), false);
    }
  }
}
