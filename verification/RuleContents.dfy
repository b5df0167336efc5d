// The content option of a rule: text, escapes and hex runs that give a byte pattern, and the modifiers behind it.
module RuleContents {
  import opened Base
  import opened RuleTokens

  // ---------- Characters as bytes ----------

  // UTF-8 (section 3 of RFC 3629).
  function Utf8(c: char): (bytes: Bytes)
    ensures 1 <= |bytes| <= 4
  {
    var n := c as int;
    if n < 0x80 then [n]
    else if n < 0x800 then [0xC0 + n / 64, 0x80 + n % 64]
    else if n < 0x10000 then [0xE0 + n / 4096, 0x80 + n / 64 % 64, 0x80 + n % 64]
    else [0xF0 + n / 262144, 0x80 + n / 4096 % 64, 0x80 + n / 64 % 64, 0x80 + n % 64]
  }

  // A character takes as few bytes as its number allows.
  lemma {:induction false} Utf8Size(c: char)
    ensures |Utf8(c)| <= 1 <==> c as int <= 0x7F
    ensures |Utf8(c)| <= 2 <==> c as int <= 0x7FF
    ensures |Utf8(c)| <= 3 <==> c as int <= 0xFFFF
  {
  }

  // A byte that goes on a character: the bits 10, and six bits of its number.
  predicate GoesOn(b: Byte) { b / 64 == 2 }

  predicate OfTwo(b: Byte, x: Byte, n: nat) { b / 32 == 6 && GoesOn(x) && b % 32 * 64 + x % 64 == n }

  predicate OfThree(b: Byte, x: Byte, y: Byte, n: nat) {
    b / 16 == 14 && GoesOn(x) && GoesOn(y) && b % 16 * 4096 + x % 64 * 64 + y % 64 == n
  }

  predicate OfFour(b: Byte, x: Byte, y: Byte, z: Byte, n: nat) {
    b / 8 == 30 && GoesOn(x) && GoesOn(y) && GoesOn(z) && b % 8 * 262144 + x % 64 * 4096 + y % 64 * 64 + z % 64 == n
  }

  lemma {:induction false} Follower(x: nat)
    requires x < 64
    ensures GoesOn(0x80 + x) && (0x80 + x) % 64 == x
  {
  }

  lemma {:induction false} Sextets(n: nat)
    ensures n == n / 64 * 64 + n % 64 && n / 64 == n / 4096 * 64 + n / 64 % 64
    ensures n / 4096 == n / 262144 * 64 + n / 4096 % 64
  {
  }

  lemma {:induction false} ThreeBytes(n: nat)
    requires 0x800 <= n < 0x10000
    ensures OfThree(0xE0 + n / 4096, 0x80 + n / 64 % 64, 0x80 + n % 64, n)
  {
    Sextets(n);
    Follower(n / 64 % 64);
    Follower(n % 64);
    assert n / 4096 < 16;
  }

  lemma {:induction false} FourBytes(n: nat)
    requires 0x10000 <= n < 0x110000
    ensures OfFour(0xF0 + n / 262144, 0x80 + n / 4096 % 64, 0x80 + n / 64 % 64, 0x80 + n % 64, n)
  {
    Sextets(n);
    Follower(n / 4096 % 64);
    Follower(n / 64 % 64);
    Follower(n % 64);
    assert n / 262144 < 8;
  }

  // The first byte says how many there are, and the bits behind these marks are the number.
  lemma {:induction false} Utf8TellsItsNumber(c: char)
    ensures var n, u := c as int, Utf8(c);
            if |u| == 1 then u[0] == n
            else if |u| == 2 then OfTwo(u[0], u[1], n)
            else if |u| == 3 then OfThree(u[0], u[1], u[2], n)
            else |u| == 4 && OfFour(u[0], u[1], u[2], u[3], n)
  {
    var n := c as int;
    if n >= 0x10000 {
      FourBytes(n);
    } else if n >= 0x800 {
      ThreeBytes(n);
    }
  }

  predicate IsHex(c: char) { '0' <= c <= '9' || 'A' <= c <= 'F' || 'a' <= c <= 'f' }

  function HexValue(c: char): (n: nat)
    requires IsHex(c)
    ensures n < 16
  {
    if c <= '9' then c as int - '0' as int
    else if c <= 'F' then c as int - 'A' as int + 10
    else c as int - 'a' as int + 10
  }

  // The digits of a hex run and their values.
  lemma {:induction false} HexDigitsSaid(c: char)
    ensures IsHex(c) <==> c in "0123456789ABCDEFabcdef"
    ensures IsHex(c) ==>
              c == "0123456789ABCDEF"[HexValue(c)] || c == "0123456789abcdef"[HexValue(c)]
  {
    var digits := "0123456789ABCDEFabcdef";
    if IsHex(c) {
      assert digits[if c <= 'F' then HexValue(c) else 6 + HexValue(c)] == c;
    }
  }

  function HexByte(high: char, low: char): Byte
    requires IsHex(high) && IsHex(low)
  {
    16 * HexValue(high) + HexValue(low)
  }

  // ---------- The scan ----------

  function WithFront(front: Bytes, rest: Result<Bytes, Reject>): Result<Bytes, Reject> {
    match rest
    case Ok(bytes) => Ok(front + bytes)
    case Err(e) => Err(e)
  }

  predicate Escapable(c: char) { c == '"' || c == ';' || c == '\\' }

  // The bytes of the rest of a text, inside or outside a hex run, when at most one digit of a byte was read.
  function Scanned(text: string, hex: bool, digits: string): Result<Bytes, Reject>
    requires |digits| < 2
    decreases |text|
  {
    if text == "" then
      if hex then Err(Invalid(OpenHexRun)) else Ok([])
    else if text[0] == '|' then
      if hex && digits != "" then Err(Invalid(OddHexRun)) else Scanned(text[1..], !hex, digits)
    else if hex then
      if text[0] == ' ' then Scanned(text[1..], true, digits)
      else if digits == "" then Scanned(text[1..], true, [text[0]])
      else if !IsHex(digits[0]) || !IsHex(text[0]) then Err(Invalid(BadHexDigits))
      else WithFront([HexByte(digits[0], text[0])], Scanned(text[1..], true, ""))
    else if text[0] == '\\' then
      if |text| < 2 || !Escapable(text[1]) then Err(Invalid(BadEscape))
      else WithFront(Utf8(text[1]), Scanned(text[2..], false, digits))
    else if text[0] == '"' then Err(Invalid(BareQuote))
    else WithFront(Utf8(text[0]), Scanned(text[1..], false, digits))
  }

  // One content option, with the modifiers read so far.
  datatype Draft = Draft(text: string, pattern: Bytes, modifiers: map<Modifier, int>)

  datatype Modifier = Nocase | Offset | Depth | Distance | Within

  function Unquoted(value: string): Option<string> {
    if |value| < 2 || value[0] != '"' || value[|value| - 1] != '"' then None else Some(value[1..|value| - 1])
  }

  function Content(value: string): Result<Draft, Reject> {
    if value != "" && value[0] == '!' then Err(Unsupported(NegatedContent))
    else
      match Unquoted(value)
      case None => Err(Invalid(NotQuoted))
      case Some(inner) =>
        match Scanned(inner, false, "")
        case Err(e) => Err(e)
        case Ok(pattern) => if pattern == [] then Err(Invalid(EmptyContent)) else Ok(Draft(inner, pattern, map[]))
  }

  lemma {:induction false} FrontTwice(xs: Bytes, ys: Bytes, rest: Result<Bytes, Reject>)
    ensures WithFront(xs, WithFront(ys, rest)) == WithFront(xs + ys, rest)
  {
    if rest.Ok? {
      assert xs + (ys + rest.value) == (xs + ys) + rest.value;
    }
  }

  lemma {:induction false} NoFront(rest: Result<Bytes, Reject>)
    ensures WithFront([], rest) == rest
  {
    if rest.Ok? {
      assert [] + rest.value == rest.value;
    }
  }

  method ParseContent(value: string) returns (r: Result<Draft, Reject>)
    ensures r == Content(value)
  {
    if value != "" && value[0] == '!' {
      return Err(Unsupported(NegatedContent));
    }
    if Unquoted(value).None? {
      return Err(Invalid(NotQuoted));
    }
    var inner := value[1..|value| - 1];
    var pattern: Bytes, hexMode, index: nat, hexDigits: string := [], false, 0, "";
    ghost var whole := Scanned(inner, false, "");
    NoFront(whole);
    assert inner[0..] == inner;
    while index < |inner|
      invariant index <= |inner| && |hexDigits| < 2 && (hexDigits != "" ==> hexMode)
      invariant whole == WithFront(pattern, Scanned(inner[index..], hexMode, hexDigits))
    {
      var c := inner[index];
      ghost var rest := inner[index..];
      assert rest[1..] == inner[index + 1..];
      if c == '|' {
        if hexMode && hexDigits != "" {
          return Err(Invalid(OddHexRun));
        }
        hexMode := !hexMode;
      } else if hexMode {
        if c != ' ' {
          assert hexDigits == "" ==> hexDigits + [c] == [c];
          hexDigits := hexDigits + [c];
          if |hexDigits| == 2 {
            if !IsHex(hexDigits[0]) || !IsHex(hexDigits[1]) {
              return Err(Invalid(BadHexDigits));
            }
            var byte := HexByte(hexDigits[0], hexDigits[1]);
            FrontTwice(pattern, [byte], Scanned(rest[1..], true, ""));
            pattern := pattern + [byte];
            hexDigits := "";
          }
        }
      } else {
        if c == '\\' {
          if index + 1 == |inner| || !Escapable(inner[index + 1]) {
            return Err(Invalid(BadEscape));
          }
          c := inner[index + 1];
          index := index + 1;
          assert rest[2..] == inner[index + 1..];
        } else if c == '"' {
          return Err(Invalid(BareQuote));
        }
        FrontTwice(pattern, Utf8(c), Scanned(inner[index + 1..], false, hexDigits));
        pattern := pattern + Utf8(c);
      }
      index := index + 1;
    }
    if hexMode {
      return Err(Invalid(OpenHexRun));
    }
    assert pattern + [] == pattern;
    if pattern == [] {
      return Err(Invalid(EmptyContent));
    }
    r := Ok(Draft(inner, pattern, map[]));
  }

  // ---------- What a content text is ----------

  datatype Item = Plain(c: char) | Escaped(c: char) | HexRun(run: string)

  function Digits(run: string): string {
    if run == "" then "" else (if run[0] == ' ' then "" else [run[0]]) + Digits(run[1..])
  }

  predicate AllHex(digits: string) { forall i :: 0 <= i < |digits| ==> IsHex(digits[i]) }

  predicate LegalItem(item: Item) {
    match item
    case Plain(c) => c != '\\' && c != '"' && c != '|'
    case Escaped(c) => Escapable(c)
    case HexRun(run) => '|' !in run && AllHex(Digits(run)) && |Digits(run)| % 2 == 0
  }

  function Render(item: Item): string {
    match item
    case Plain(c) => [c]
    case Escaped(c) => ['\\', c]
    case HexRun(run) => "|" + run + "|"
  }

  function HexBytes(digits: string): Bytes
    requires AllHex(digits) && |digits| % 2 == 0
  {
    if digits == "" then [] else [HexByte(digits[0], digits[1])] + HexBytes(digits[2..])
  }

  function Meaning(item: Item): Bytes
    requires LegalItem(item)
  {
    match item
    case Plain(c) => Utf8(c)
    case Escaped(c) => Utf8(c)
    case HexRun(run) => HexBytes(Digits(run))
  }

  predicate AllLegal(items: seq<Item>) { forall i :: 0 <= i < |items| ==> LegalItem(items[i]) }

  function RenderAll(items: seq<Item>): string {
    if items == [] then "" else Render(items[0]) + RenderAll(items[1..])
  }

  function MeaningAll(items: seq<Item>): Bytes
    requires AllLegal(items)
  {
    if items == [] then [] else Meaning(items[0]) + MeaningAll(items[1..])
  }

  // The rest of a hex run, and what follows it.
  lemma {:induction false} RunReads(run: string, digits: string, rest: string)
    requires |digits| < 2 && '|' !in run && AllHex(digits + Digits(run)) && |digits + Digits(run)| % 2 == 0
    ensures Scanned(run + "|" + rest, true, digits)
            == WithFront(HexBytes(digits + Digits(run)), Scanned(rest, false, ""))
    decreases |run|
  {
    var text := run + "|" + rest;
    if run == "" {
      assert text[1..] == rest && digits + "" == digits;
      NoFront(Scanned(rest, false, ""));
    } else {
      var more := Digits(run[1..]);
      assert text[0] == run[0] && text[1..] == run[1..] + "|" + rest;
      assert run[0] in run && forall c :: c in run[1..] ==> c in run;
      if run[0] == ' ' {
        assert Digits(run) == more;
        RunReads(run[1..], digits, rest);
      } else if digits == "" {
        assert digits + Digits(run) == [run[0]] + more;
        RunReads(run[1..], [run[0]], rest);
      } else {
        var all := digits + Digits(run);
        assert all == digits + ([run[0]] + more) && all[0] == digits[0] && all[1] == run[0] && all[2..] == "" + more;
        RunReads(run[1..], "", rest);
        FrontTwice([HexByte(all[0], all[1])], HexBytes(all[2..]), Scanned(rest, false, ""));
      }
    }
  }

  lemma {:induction false} ItemReads(item: Item, rest: string)
    requires LegalItem(item)
    ensures Scanned(Render(item) + rest, false, "") == WithFront(Meaning(item), Scanned(rest, false, ""))
  {
    var text := Render(item) + rest;
    match item
    case Plain(c) => assert text[1..] == rest;
    case Escaped(c) => assert text[2..] == rest;
    case HexRun(run) =>
      assert text[1..] == run + "|" + rest && "" + Digits(run) == Digits(run);
      RunReads(run, "", rest);
  }

  lemma {:induction false} ItemsRead(items: seq<Item>)
    requires AllLegal(items)
    ensures Scanned(RenderAll(items), false, "") == Ok(MeaningAll(items))
    decreases |items|
  {
    if items != [] {
      ItemReads(items[0], RenderAll(items[1..]));
      ItemsRead(items[1..]);
    }
  }

  // A text is the rest of a hex run, behind at most one digit, and what follows the run.
  predicate IsRun(text: string, digits: string, run: string, rest: string) {
    && text == run + "|" + rest && '|' !in run
    && AllHex(digits + Digits(run)) && |digits + Digits(run)| % 2 == 0
  }

  lemma {:induction false} RunGrows(text: string, digits: string, after: string, run: string, rest: string)
    requires text != "" && text[0] != '|' && IsRun(text[1..], after, run, rest)
    requires if text[0] == ' ' then after == digits else if digits == "" then after == [text[0]]
             else |digits| == 1 && IsHex(digits[0]) && IsHex(text[0]) && after == ""
    ensures IsRun(text, digits, [text[0]] + run, rest)
  {
    var grown := [text[0]] + run;
    assert grown[1..] == run && text == [text[0]] + text[1..];
    if text[0] == ' ' {
      assert Digits(grown) == Digits(run);
    } else if digits == "" {
      assert digits + Digits(grown) == [text[0]] + Digits(run);
    } else {
      assert digits + Digits(grown) == digits + [text[0]] + ("" + Digits(run));
    }
  }

  lemma {:induction false} ReadRun(text: string, digits: string) returns (run: string, rest: string)
    requires |digits| < 2 && Scanned(text, true, digits).Ok?
    ensures IsRun(text, digits, run, rest) && Scanned(rest, false, "").Ok?
    decreases |text|
  {
    if text[0] == '|' {
      run, rest := "", text[1..];
      assert digits + Digits(run) == "";
    } else {
      var after := if text[0] == ' ' then digits else if digits == "" then [text[0]] else "";
      run, rest := ReadRun(text[1..], after);
      RunGrows(text, digits, after, run, rest);
      run := [text[0]] + run;
    }
  }

  lemma {:induction false} ReadItems(text: string) returns (items: seq<Item>)
    requires Scanned(text, false, "").Ok?
    ensures AllLegal(items) && RenderAll(items) == text
    decreases |text|
  {
    if text == "" {
      items := [];
    } else {
      var item, rest;
      if text[0] == '|' {
        var run;
        run, rest := ReadRun(text[1..], "");
        assert "" + Digits(run) == Digits(run);
        item := HexRun(run);
        assert text == "|" + (run + "|" + rest);
      } else if text[0] == '\\' {
        item, rest := Escaped(text[1]), text[2..];
      } else {
        item, rest := Plain(text[0]), text[1..];
      }
      assert text == Render(item) + rest;
      var more := ReadItems(rest);
      items := [item] + more;
      assert items[1..] == more;
    }
  }

  // A value is a quoted list of plain characters, escapes and hex runs.
  ghost predicate Writes(value: string, items: seq<Item>) {
    AllLegal(items) && value == "\"" + RenderAll(items) + "\""
  }

  lemma {:induction false} WrittenItemsRead(value: string, items: seq<Item>)
    requires Writes(value, items)
    ensures Content(value) == if MeaningAll(items) == [] then Err(Invalid(EmptyContent))
                              else Ok(Draft(RenderAll(items), MeaningAll(items), map[]))
  {
    assert Unquoted(value) == Some(RenderAll(items));
    ItemsRead(items);
  }

  lemma {:induction false} ReadContentIsWritten(value: string) returns (items: seq<Item>)
    requires Content(value).Ok?
    ensures Writes(value, items)
  {
    var inner := Unquoted(value).value;
    items := ReadItems(inner);
    assert value == "\"" + inner + "\"";
  }

  // A value is accepted exactly when it is written so and means at least one byte, and then its pattern is what it
  // means.
  lemma {:induction false} ContentIsItsItems(value: string)
    ensures Content(value).Ok? <==> exists items :: Writes(value, items) && MeaningAll(items) != []
    ensures forall items :: Writes(value, items) && MeaningAll(items) != [] ==>
              Content(value) == Ok(Draft(RenderAll(items), MeaningAll(items), map[]))
  {
    forall items | Writes(value, items)
      ensures Content(value) == if MeaningAll(items) == [] then Err(Invalid(EmptyContent))
                                else Ok(Draft(RenderAll(items), MeaningAll(items), map[]))
    {
      WrittenItemsRead(value, items);
    }
    if Content(value).Ok? {
      var items := ReadContentIsWritten(value);
      assert Writes(value, items);
    }
  }
}
