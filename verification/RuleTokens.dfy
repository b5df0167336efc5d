// Splitting the options of a rule at the semicolons that are neither quoted nor escaped.
module RuleTokens {
  import opened Base

  datatype Reject = Invalid(fault: Fault) | Unsupported(fault: Fault)

  datatype Fault =
    | OpenQuote | OptionTwice | UnknownKeyword | MissingOption
    | NegatedContent | NotQuoted | OddHexRun | BadHexDigits | BadEscape | BareQuote | OpenHexRun | EmptyContent
    | NoContentBefore | ModifierTwice | NocaseValue | NotANumber | NegativeModifier | MixedWindows | WindowTooSmall
    | EmptyMessage | EmptyClasstype | BothDirections | BothStates | UnknownFlowValue | EmptyFlowValue
    | FlagsMask | EmptyFlags | BadFlag | LegacyFlags | ZeroWithFlags | BadDsize | ReversedDsize

  // ---------- White space ----------

  // The characters that str.isspace accepts.
  predicate IsSpace(c: char) {
    var n := c as int;
    || 9 <= n <= 13 || 28 <= n <= 32 || n == 0x85 || n == 0xA0 || n == 0x1680
    || 0x2000 <= n <= 0x200A || n == 0x2028 || n == 0x2029 || n == 0x202F || n == 0x205F || n == 0x3000
  }

  lemma {:induction false} SpacesSaid(c: char)
    ensures IsSpace(c)
            <==> c as int in {0x09, 0x0A, 0x0B, 0x0C, 0x0D, 0x1C, 0x1D, 0x1E, 0x1F, 0x20, 0x85, 0xA0, 0x1680, 0x2000,
                              0x2001, 0x2002, 0x2003, 0x2004, 0x2005, 0x2006, 0x2007, 0x2008, 0x2009, 0x200A, 0x2028,
                              0x2029, 0x202F, 0x205F, 0x3000}
  {
  }

  function StripLeft(s: string): string {
    if s != "" && IsSpace(s[0]) then StripLeft(s[1..]) else s
  }

  function StripRight(s: string): string {
    if s != "" && IsSpace(s[|s| - 1]) then StripRight(s[..|s| - 1]) else s
  }

  function Strip(s: string): string { StripRight(StripLeft(s)) }

  function StripAll(tokens: seq<string>): seq<string> {
    if tokens == [] then []
    else
      var first := Strip(tokens[0]);
      (if first == "" then [] else [first]) + StripAll(tokens[1..])
  }

  lemma {:induction false} StripAllConcat(xs: seq<string>, ys: seq<string>)
    ensures StripAll(xs + ys) == StripAll(xs) + StripAll(ys)
    decreases |xs|
  {
    if xs == [] {
      assert xs + ys == ys;
    } else {
      assert (xs + ys)[1..] == xs[1..] + ys;
      StripAllConcat(xs[1..], ys);
    }
  }

  lemma {:induction false} StripsToItself(s: string)
    requires s != "" ==> !IsSpace(s[0]) && !IsSpace(s[|s| - 1])
    ensures Strip(s) == s
  {
  }

  // ---------- The scan ----------

  // The tokens of a text, and whether it ends inside quotes.
  datatype Scanned = Scanned(tokens: seq<string>, quoted: bool)

  function Before(tokens: seq<string>, rest: Scanned): Scanned { Scanned(tokens + rest.tokens, rest.quoted) }

  // The rest of a scan, when a token was begun and a quote may be open. A backslash takes the next character with it.
  function Scan(text: string, current: string, quoted: bool): (s: Scanned)
    ensures s.tokens != []
    decreases |text|
  {
    if text == "" then Scanned([current], quoted)
    else if text[0] == '\\' then
      var n := Min(2, |text|);
      Scan(text[n..], current + text[..n], quoted)
    else if text[0] == ';' && !quoted then Before([current], Scan(text[1..], "", false))
    else Scan(text[1..], current + [text[0]], quoted != (text[0] == '"'))
  }

  function Split(text: string): Result<seq<string>, Reject> {
    var s := Scan(text, "", false);
    if s.quoted then Err(Invalid(OpenQuote)) else Ok(StripAll(s.tokens))
  }

  lemma {:induction false} BeforeTwice(xs: seq<string>, ys: seq<string>, rest: Scanned)
    ensures Before(xs, Before(ys, rest)) == Before(xs + ys, rest)
  {
    assert xs + (ys + rest.tokens) == (xs + ys) + rest.tokens;
  }

  // One step of the scan at an index.
  lemma {:induction false} ScanStep(text: string, index: nat, tokens: seq<string>, current: string, quoted: bool)
    requires index < |text|
    ensures var c, n := text[index], Min(2, |text| - index);
            Before(tokens, Scan(text[index..], current, quoted))
            == if c == '\\' then Before(tokens, Scan(text[index + n..], current + text[index..index + n], quoted))
               else if c == ';' && !quoted then Before(tokens + [current], Scan(text[index + 1..], "", false))
               else Before(tokens, Scan(text[index + 1..], current + [c], quoted != (c == '"')))
  {
    var rest, n := text[index..], Min(2, |text| - index);
    assert rest[n..] == text[index + n..] && rest[..n] == text[index..index + n] && rest[1..] == text[index + 1..];
    BeforeTwice(tokens, [current], Scan(rest[1..], "", false));
  }

  method SplitOptions(text: string) returns (r: Result<seq<string>, Reject>)
    ensures r == Split(text)
  {
    var tokens: seq<string>, current: string, quoted, index: nat := [], "", false, 0;
    ghost var whole := Scan(text, "", false);
    assert text[0..] == text && tokens + whole.tokens == whole.tokens;
    while index < |text|
      invariant whole == Before(tokens, Scan(text[Min(index, |text|)..], current, quoted))
    {
      ScanStep(text, index, tokens, current, quoted);
      var c := text[index];
      if c == '\\' {
        var n := Min(2, |text| - index);
        current := current + text[index..index + n];
        index := index + 2;
        continue;
      }
      if c == '"' {
        quoted := !quoted;
      }
      if c == ';' && !quoted {
        tokens := tokens + [current];
        current := "";
      } else {
        current := current + [c];
      }
      index := index + 1;
    }
    if quoted {
      return Err(Invalid(OpenQuote));
    }
    tokens := tokens + [current];
    r := Ok(StripAll(tokens));
  }

  // ---------- What the tokens are ----------

  function Join(tokens: seq<string>): string
    requires tokens != []
  {
    if |tokens| == 1 then tokens[0] else tokens[0] + ";" + Join(tokens[1..])
  }

  // A text that neither ends inside quotes or an escape nor holds a separator.
  predicate Closed(text: string, quoted: bool) {
    if text == "" then !quoted
    else if text[0] == '\\' then |text| >= 2 && Closed(text[2..], quoted)
    else if text[0] == ';' && !quoted then false
    else Closed(text[1..], quoted != (text[0] == '"'))
  }

  // The same, but the text may be cut right after a backslash.
  predicate ClosedOrCut(text: string, quoted: bool) {
    if text == "" then !quoted
    else if text[0] == '\\' then if |text| == 1 then !quoted else ClosedOrCut(text[2..], quoted)
    else if text[0] == ';' && !quoted then false
    else ClosedOrCut(text[1..], quoted != (text[0] == '"'))
  }

  // Every token but the last is closed. The first may begin inside quotes.
  predicate AllClosed(tokens: seq<string>, quoted: bool)
    requires tokens != []
  {
    if |tokens| == 1 then ClosedOrCut(tokens[0], quoted)
    else Closed(tokens[0], quoted) && AllClosed(tokens[1..], false)
  }

  // The tokens of a text: it is their join, and they hold every separator that is neither quoted nor escaped.
  predicate TokensOf(text: string, tokens: seq<string>) {
    tokens != [] && Join(tokens) == text && AllClosed(tokens, false)
  }

  // A closed text is passed over as a whole.
  lemma {:induction false} ClosedPasses(text: string, quoted: bool, current: string, rest: string)
    requires Closed(text, quoted)
    ensures Scan(text + rest, current, quoted) == Scan(rest, current + text, false)
    decreases |text|
  {
    if text == "" {
      assert text + rest == rest && current + text == current;
    } else if text[0] == '\\' {
      assert (text + rest)[2..] == text[2..] + rest && (text + rest)[..2] == text[..2];
      ClosedPasses(text[2..], quoted, current + text[..2], rest);
      assert current + text[..2] + text[2..] == current + text;
    } else {
      assert (text + rest)[1..] == text[1..] + rest;
      ClosedPasses(text[1..], quoted != (text[0] == '"'), current + [text[0]], rest);
      assert current + [text[0]] + text[1..] == current + text;
    }
  }

  lemma {:induction false} LastPasses(text: string, quoted: bool, current: string)
    requires ClosedOrCut(text, quoted)
    ensures Scan(text, current, quoted) == Scanned([current + text], false)
    decreases |text|
  {
    if text == "" {
      assert current + text == current;
    } else if text[0] == '\\' {
      var n := Min(2, |text|);
      assert n == 1 ==> text[n..] == "";
      LastPasses(text[n..], quoted, current + text[..n]);
      assert current + text[..n] + text[n..] == current + text;
    } else {
      LastPasses(text[1..], quoted != (text[0] == '"'), current + [text[0]]);
      assert current + [text[0]] + text[1..] == current + text;
    }
  }

  // No token is split and no two tokens are merged.
  lemma {:induction false} ScanUndoesJoin(text: string, tokens: seq<string>)
    requires TokensOf(text, tokens)
    ensures Scan(text, "", false) == Scanned(tokens, false)
    decreases |tokens|
  {
    var first := tokens[0];
    assert "" + first == first;
    if |tokens| == 1 {
      LastPasses(first, false, "");
    } else {
      var tail := Join(tokens[1..]);
      assert text == first + (";" + tail);
      ClosedPasses(first, false, "", ";" + tail);
      assert (";" + tail)[1..] == tail;
      ScanUndoesJoin(tail, tokens[1..]);
      assert tokens == [first] + tokens[1..];
    }
  }

  // What is still to be scanned, put behind a token that was begun.
  function Prefixed(current: string, tokens: seq<string>): seq<string>
    requires tokens != []
  {
    [current + tokens[0]] + tokens[1..]
  }

  lemma {:induction false} ScanCarries(text: string, current: string, quoted: bool)
    ensures Scan(text, current, quoted).tokens == Prefixed(current, Scan(text, "", quoted).tokens)
    ensures Scan(text, current, quoted).quoted == Scan(text, "", quoted).quoted
    decreases |text|, 0
  {
    if text == "" {
      assert current + "" == current;
    } else if text[0] == '\\' {
      CarryTwice(text[Min(2, |text|)..], current, text[..Min(2, |text|)], quoted);
    } else if text[0] == ';' && !quoted {
      assert current + "" == current;
    } else {
      CarryTwice(text[1..], current, [text[0]], quoted != (text[0] == '"'));
    }
  }

  lemma {:induction false} CarryTwice(text: string, current: string, more: string, quoted: bool)
    ensures Scan(text, current + more, quoted).tokens == Prefixed(current, Scan(text, "" + more, quoted).tokens)
    ensures Scan(text, current + more, quoted).quoted == Scan(text, "" + more, quoted).quoted
    decreases |text|, 1
  {
    ScanCarries(text, current + more, quoted);
    ScanCarries(text, "" + more, quoted);
    var tokens := Scan(text, "", quoted).tokens;
    assert "" + more == more;
    assert (current + more) + tokens[0] == current + (more + tokens[0]);
  }

  lemma {:induction false} JoinPrefixed(current: string, tokens: seq<string>)
    requires tokens != []
    ensures Join(Prefixed(current, tokens)) == current + Join(tokens)
  {
    assert Prefixed(current, tokens)[1..] == tokens[1..];
    if |tokens| > 1 {
      assert (current + tokens[0]) + ";" + Join(tokens[1..]) == current + (tokens[0] + ";" + Join(tokens[1..]));
    }
  }

  // A piece that the scan passes over is put before the first token.
  lemma {:induction false} FirstGrows(piece: string, tokens: seq<string>, quoted: bool, after: bool)
    requires tokens != [] && AllClosed(tokens, after)
    requires forall t :: Closed(t, after) ==> Closed(piece + t, quoted)
    requires forall t :: ClosedOrCut(t, after) ==> ClosedOrCut(piece + t, quoted)
    ensures AllClosed(Prefixed(piece, tokens), quoted)
  {
    assert Prefixed(piece, tokens)[1..] == tokens[1..];
  }

  lemma {:induction false} PieceOfTwo(piece: string, quoted: bool)
    requires |piece| == 2 && piece[0] == '\\'
    ensures forall t :: Closed(t, quoted) ==> Closed(piece + t, quoted)
    ensures forall t :: ClosedOrCut(t, quoted) ==> ClosedOrCut(piece + t, quoted)
  {
    forall t ensures (piece + t)[2..] == t {
    }
  }

  lemma {:induction false} PieceOfOne(c: char, quoted: bool)
    requires c != '\\' && (c == ';' ==> quoted)
    ensures var after := quoted != (c == '"');
            && (forall t :: Closed(t, after) ==> Closed([c] + t, quoted))
            && (forall t :: ClosedOrCut(t, after) ==> ClosedOrCut([c] + t, quoted))
  {
    forall t: string ensures ([c] + t)[1..] == t {
    }
  }

  // Nothing is lost: what a scan finds are the tokens of its text.
  lemma {:induction false} JoinUndoesScan(text: string, quoted: bool)
    requires !Scan(text, "", quoted).quoted
    ensures var tokens := Scan(text, "", quoted).tokens; Join(tokens) == text && AllClosed(tokens, quoted)
    decreases |text|
  {
    if text == "" {
    } else if text == "\\" {
      assert text[1..] == "" && text[..1] == text && "" + text == text;
      assert Scan(text, "", quoted).tokens == [text];
    } else if text[0] == '\\' {
      var piece, rest := text[..2], text[2..];
      assert "" + piece == piece && text == piece + rest;
      ScanCarries(rest, piece, quoted);
      JoinUndoesScan(rest, quoted);
      JoinPrefixed(piece, Scan(rest, "", quoted).tokens);
      PieceOfTwo(piece, quoted);
      FirstGrows(piece, Scan(rest, "", quoted).tokens, quoted, quoted);
    } else if text[0] == ';' && !quoted {
      JoinUndoesScan(text[1..], false);
      var tokens := Scan(text[1..], "", false).tokens;
      assert ([""] + tokens)[1..] == tokens;
      assert text == "" + ";" + text[1..];
    } else {
      var piece, rest, after := [text[0]], text[1..], quoted != (text[0] == '"');
      assert "" + piece == piece && text == piece + rest;
      ScanCarries(rest, piece, after);
      JoinUndoesScan(rest, after);
      JoinPrefixed(piece, Scan(rest, "", after).tokens);
      PieceOfOne(text[0], quoted);
      FirstGrows(piece, Scan(rest, "", after).tokens, quoted, after);
    }
  }

  lemma {:induction false} TokensSplit(text: string, tokens: seq<string>)
    requires TokensOf(text, tokens)
    ensures Split(text) == Ok(StripAll(tokens))
  {
    ScanUndoesJoin(text, tokens);
  }

  lemma {:induction false} SplitTokens(text: string) returns (tokens: seq<string>)
    requires Split(text).Ok?
    ensures TokensOf(text, tokens) && Split(text) == Ok(StripAll(tokens))
  {
    JoinUndoesScan(text, false);
    tokens := Scan(text, "", false).tokens;
  }

  // The split succeeds exactly on the joins of tokens, and then gives those tokens, stripped, without the empty ones.
  // A text is the join of no other tokens.
  lemma {:induction false} SplitIsTokens(text: string)
    ensures Split(text).Ok? <==> exists tokens :: TokensOf(text, tokens)
    ensures forall tokens :: TokensOf(text, tokens) ==> Split(text) == Ok(StripAll(tokens))
    ensures forall xs, ys :: TokensOf(text, xs) && TokensOf(text, ys) ==> xs == ys
  {
    forall tokens | TokensOf(text, tokens)
      ensures Scan(text, "", false) == Scanned(tokens, false)
    {
      ScanUndoesJoin(text, tokens);
    }
    if Split(text).Ok? {
      JoinUndoesScan(text, false);
      assert TokensOf(text, Scan(text, "", false).tokens);
    }
  }
}
