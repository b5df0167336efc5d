// The options of a rule: which token is a content, which modifies the content before it, and which stands alone.
module RuleOptions {
  import opened Base
  import opened RuleTokens
  import opened RuleContents
  import opened RuleValues
  import ContentMatch

  // ---------- Keys and values ----------

  function Key(token: string): string { Strip(token[..Position(':', token)]) }

  function Value(token: string): string {
    var i := Position(':', token);
    if i == |token| then "" else Strip(token[i + 1..])
  }

  datatype Keyword = Single(option: SingleOption) | Contents | Modifies(m: Modifier) | Unknown

  function KeywordOf(key: string): Keyword {
    if key == "sid" then Single(Sid)
    else if key == "rev" then Single(Rev)
    else if key == "msg" then Single(Msg)
    else if key == "classtype" then Single(Classtype)
    else if key == "priority" then Single(Priority)
    else if key == "flow" then Single(FlowCheck)
    else if key == "flags" then Single(FlagsCheck)
    else if key == "dsize" then Single(DsizeCheck)
    else if key == "content" then Contents
    else if key == "nocase" then Modifies(Nocase)
    else if key == "offset" then Modifies(Offset)
    else if key == "depth" then Modifies(Depth)
    else if key == "distance" then Modifies(Distance)
    else if key == "within" then Modifies(Within)
    else Unknown
  }

  // A token as its keyword asks to read it.
  datatype Piece = Piece(kind: Keyword, value: string)

  function PieceOf(token: string): Piece { Piece(KeywordOf(Key(token)), Value(token)) }

  function Pieces(tokens: seq<string>): seq<Piece> {
    seq(|tokens|, i requires 0 <= i < |tokens| => PieceOf(tokens[i]))
  }

  // ---------- One token ----------

  ghost predicate ValidDraft(d: Draft) {
    && d.pattern != []
    && forall m :: m in d.modifiers && m != Distance ==> d.modifiers[m] >= 0
  }

  ghost predicate AllValid(drafts: seq<Draft>) { forall i :: 0 <= i < |drafts| ==> ValidDraft(drafts[i]) }

  function AddModifier(drafts: seq<Draft>, m: Modifier, value: string): (r: Result<seq<Draft>, Reject>)
    ensures r.Ok? ==> |r.value| == |drafts| > 0 && r.value[..|drafts| - 1] == drafts[..|drafts| - 1]
    ensures r.Ok? ==>
              var d, e := drafts[|drafts| - 1], r.value[|drafts| - 1];
              && e.text == d.text && e.pattern == d.pattern
              && m !in d.modifiers && e.modifiers.Keys == d.modifiers.Keys + {m}
              && forall k :: k in d.modifiers ==> e.modifiers[k] == d.modifiers[k]
    ensures r.Ok? && AllValid(drafts) ==> AllValid(r.value)
  {
    if drafts == [] then Err(Invalid(NoContentBefore))
    else
      var d := drafts[|drafts| - 1];
      if m in d.modifiers then Err(Invalid(ModifierTwice))
      else if m == Nocase then
        if value != "" then Err(Invalid(NocaseValue))
        else Ok(drafts[..|drafts| - 1] + [d.(modifiers := d.modifiers[m := 1])])
      else
        match NumberOf(value, m == Distance)
        case Err(e) => Err(e)
        case Ok(n) =>
          if m != Distance && n < 0 then Err(Invalid(NegativeModifier))
          else Ok(drafts[..|drafts| - 1] + [d.(modifiers := d.modifiers[m := n])])
  }

  // The single options so far and the contents so far.
  datatype Parsed = Parsed(values: map<SingleOption, OptionValue>, drafts: seq<Draft>)

  function TakePiece(piece: Piece, p: Parsed): Result<Parsed, Reject> {
    match piece.kind
    case Single(option) =>
      if option in p.values then Err(Invalid(OptionTwice))
      else
        (match ValueOf(option, piece.value)
         case Err(e) => Err(e)
         case Ok(v) => Ok(p.(values := p.values[option := v])))
    case Contents =>
      (match Content(piece.value)
       case Err(e) => Err(e)
       case Ok(d) => Ok(p.(drafts := p.drafts + [d])))
    case Modifies(m) =>
      (match AddModifier(p.drafts, m, piece.value)
       case Err(e) => Err(e)
       case Ok(drafts) => Ok(p.(drafts := drafts)))
    case Unknown => Err(Unsupported(UnknownKeyword))
  }

  function TakeAll(pieces: seq<Piece>, p: Parsed): Result<Parsed, Reject> {
    if pieces == [] then Ok(p)
    else
      match TakePiece(pieces[0], p)
      case Err(e) => Err(e)
      case Ok(next) => TakeAll(pieces[1..], next)
  }

  // ---------- The end ----------

  function Optional(d: Draft, m: Modifier): Option<int> {
    if m in d.modifiers then Some(d.modifiers[m]) else None
  }

  function AsNat(o: Option<int>): Option<nat>
    requires o.Some? ==> o.value >= 0
  {
    if o.Some? then Some(o.value) else None
  }

  function FinishContent(d: Draft): Result<ContentMatch.Content, Reject>
    requires ValidDraft(d)
  {
    if (Offset in d.modifiers || Depth in d.modifiers) && (Distance in d.modifiers || Within in d.modifiers) then
      Err(Invalid(MixedWindows))
    else if
      || (Depth in d.modifiers && d.modifiers[Depth] < |d.pattern|)
      || (Within in d.modifiers && d.modifiers[Within] < |d.pattern|)
    then
      Err(Invalid(WindowTooSmall))
    else
      Ok(ContentMatch.Content(d.text, d.pattern, Nocase in d.modifiers, AsNat(Optional(d, Offset)),
                              AsNat(Optional(d, Depth)), Optional(d, Distance), AsNat(Optional(d, Within))))
  }

  function FinishAll(drafts: seq<Draft>): Result<seq<ContentMatch.Content>, Reject>
    requires AllValid(drafts)
  {
    if drafts == [] then Ok([])
    else
      match FinishContent(drafts[0])
      case Err(e) => Err(e)
      case Ok(c) =>
        match FinishAll(drafts[1..])
        case Err(e) => Err(e)
        case Ok(rest) => Ok([c] + rest)
  }

  datatype Options = Options(values: map<SingleOption, OptionValue>, contents: seq<ContentMatch.Content>)

  const NOTHING := Parsed(map[], [])

  lemma {:induction false} TakeAllKeepsValid(pieces: seq<Piece>, p: Parsed)
    requires AllValid(p.drafts)
    ensures var r := TakeAll(pieces, p); r.Ok? ==> AllValid(r.value.drafts)
    decreases |pieces|
  {
    if pieces != [] && TakePiece(pieces[0], p).Ok? {
      TakeAllKeepsValid(pieces[1..], TakePiece(pieces[0], p).value);
    }
  }

  function WithDefaults(values: map<SingleOption, OptionValue>): map<SingleOption, OptionValue> {
    if Rev in values then values else values[Rev := Number(1)]
  }

  function OptionsOf(text: string): Result<Options, Reject> {
    match Split(text)
    case Err(e) => Err(e)
    case Ok(tokens) =>
      match TakeAll(Pieces(tokens), NOTHING)
      case Err(e) => Err(e)
      case Ok(p) =>
        if Sid !in p.values || Msg !in p.values then Err(Invalid(MissingOption))
        else
          TakeAllKeepsValid(Pieces(tokens), NOTHING);
          match FinishAll(p.drafts)
          case Err(e) => Err(e)
          case Ok(contents) => Ok(Options(WithDefaults(p.values), contents))
  }

  lemma {:induction false} TakeStep(pieces: seq<Piece>, i: nat, p: Parsed)
    requires i < |pieces|
    ensures TakeAll(pieces[i..], p)
            == match TakePiece(pieces[i], p)
               case Err(e) => Err(e)
               case Ok(next) => TakeAll(pieces[i + 1..], next)
  {
    assert pieces[i..][1..] == pieces[i + 1..];
  }

  method ParseTokens(tokens: seq<string>) returns (r: Result<Parsed, Reject>)
    ensures r == TakeAll(Pieces(tokens), NOTHING)
  {
    var seen: set<SingleOption>, values: map<SingleOption, OptionValue>, drafts: seq<Draft> := {}, map[], [];
    ghost var pieces := Pieces(tokens);
    assert pieces[0..] == pieces;
    for i := 0 to |tokens|
      invariant seen == values.Keys
      invariant TakeAll(pieces, NOTHING) == TakeAll(pieces[i..], Parsed(values, drafts))
    {
      TakeStep(pieces, i, Parsed(values, drafts));
      var piece := PieceOf(tokens[i]);
      if piece.kind.Single? {
        if piece.kind.option in seen {
          return Err(Invalid(OptionTwice));
        }
        seen := seen + {piece.kind.option};
      }
      if piece.kind.Contents? {
        var content := ParseContent(piece.value);
        if content.Err? {
          return Err(content.error);
        }
        drafts := drafts + [content.value];
      } else if piece.kind.Modifies? {
        var modified := AddModifier(drafts, piece.kind.m, piece.value);
        if modified.Err? {
          return Err(modified.error);
        }
        drafts := modified.value;
      } else if piece.kind.Single? {
        var v := ParseValue(piece.kind.option, piece.value);
        if v.Err? {
          return Err(v.error);
        }
        values := values[piece.kind.option := v.value];
      } else {
        return Err(Unsupported(UnknownKeyword));
      }
    }
    r := Ok(Parsed(values, drafts));
  }

  method ParseOptions(text: string) returns (r: Result<Options, Reject>)
    ensures r == OptionsOf(text)
  {
    var split := SplitOptions(text);
    if split.Err? {
      return Err(split.error);
    }
    var parsed := ParseTokens(split.value);
    if parsed.Err? {
      return Err(parsed.error);
    }
    var values, drafts := parsed.value.values, parsed.value.drafts;
    if Sid !in values || Msg !in values {
      return Err(Invalid(MissingOption));
    }
    TakeAllKeepsValid(Pieces(split.value), NOTHING);
    var contents := FinishAll(drafts);
    r := match contents case Err(e) => Err(e) case Ok(cs) => Ok(Options(WithDefaults(values), cs));
  }

  // ---------- What an accepted option list says ----------

  function CountContents(pieces: seq<Piece>): nat {
    if pieces == [] then 0
    else CountContents(pieces[..|pieces| - 1]) + if pieces[|pieces| - 1].kind.Contents? then 1 else 0
  }

  predicate Sets(m: Modifier, value: string, n: int) {
    if m == Nocase then value == "" && n == 1 else NumberOf(value, m == Distance) == Ok(n)
  }

  // A piece stands in the result: a single option under its key, a content in its place, and a modifier at the
  // last content before it.
  ghost predicate Stands(pieces: seq<Piece>, i: nat, p: Parsed)
    requires i < |pieces|
  {
    var value, before := pieces[i].value, CountContents(pieces[..i]);
    match pieces[i].kind
    case Single(option) => option in p.values && ValueOf(option, value) == Ok(p.values[option])
    case Contents =>
      && Content(value).Ok? && before < |p.drafts|
      && p.drafts[before].text == Content(value).value.text && p.drafts[before].pattern == Content(value).value.pattern
    case Modifies(m) =>
      && 1 <= before <= |p.drafts|
      && m in p.drafts[before - 1].modifiers && Sets(m, value, p.drafts[before - 1].modifiers[m])
    case Unknown => false
  }

  // Two pieces that would set the same thing twice.
  predicate Clash(pieces: seq<Piece>, i: nat, k: nat)
    requires i < |pieces| && k < |pieces|
  {
    match pieces[i].kind
    case Single(option) => pieces[k].kind == Single(option)
    case Modifies(m) => pieces[k].kind == Modifies(m) && CountContents(pieces[..i]) == CountContents(pieces[..k])
    case _ => false
  }

  ghost predicate FromSingle(pieces: seq<Piece>, option: SingleOption) {
    exists i :: 0 <= i < |pieces| && pieces[i].kind == Single(option)
  }

  ghost predicate FromModifier(pieces: seq<Piece>, j: nat, m: Modifier) {
    exists i :: 0 <= i < |pieces| && pieces[i].kind == Modifies(m) && CountContents(pieces[..i]) == j + 1
  }

  // Every piece stands in the result, nothing in the result comes from elsewhere, and nothing is set twice.
  ghost predicate IsReading(pieces: seq<Piece>, p: Parsed) {
    && |p.drafts| == CountContents(pieces)
    && (forall i :: 0 <= i < |pieces| ==> Stands(pieces, i, p))
    && (forall option :: option in p.values ==> FromSingle(pieces, option))
    && (forall j, m :: 0 <= j < |p.drafts| && m in p.drafts[j].modifiers ==> FromModifier(pieces, j, m))
    && (forall i, k :: 0 <= i < k < |pieces| ==> !Clash(pieces, i, k))
  }

  lemma {:induction false} TakeLast(pieces: seq<Piece>, piece: Piece, p: Parsed)
    ensures TakeAll(pieces + [piece], p)
            == match TakeAll(pieces, p)
               case Err(e) => Err(e)
               case Ok(q) => TakePiece(piece, q)
    decreases |pieces|
  {
    var all := pieces + [piece];
    if pieces == [] {
      assert all[0] == piece && all[1..] == [];
    } else {
      assert all[0] == pieces[0] && all[1..] == pieces[1..] + [piece];
      match TakePiece(pieces[0], p)
      case Err(_) =>
      case Ok(next) => TakeLast(pieces[1..], piece, next);
    }
  }

  // What a piece adds to what was read before it, and what it leaves alone.
  ghost predicate Adds(piece: Piece, p: Parsed, q: Parsed) {
    var value := piece.value;
    match piece.kind
    case Single(option) =>
      && ValueOf(option, value).Ok? && option !in p.values
      && q == Parsed(p.values[option := ValueOf(option, value).value], p.drafts)
    case Contents => Content(value).Ok? && q == Parsed(p.values, p.drafts + [Content(value).value])
    case Modifies(m) =>
      && q.values == p.values && |q.drafts| == |p.drafts| > 0
      && (forall j :: 0 <= j < |p.drafts| - 1 ==> q.drafts[j] == p.drafts[j])
      && var d, e := p.drafts[|p.drafts| - 1], q.drafts[|p.drafts| - 1];
         && m !in d.modifiers && m in e.modifiers && Sets(m, value, e.modifiers[m])
         && e == Draft(d.text, d.pattern, d.modifiers[m := e.modifiers[m]])
    case Unknown => false
  }

  lemma {:induction false} ModifierAdds(drafts: seq<Draft>, m: Modifier, value: string)
    requires AddModifier(drafts, m, value).Ok?
    ensures var r, n := AddModifier(drafts, m, value).value, |drafts| - 1;
            && m in r[n].modifiers && Sets(m, value, r[n].modifiers[m])
            && r[n] == Draft(drafts[n].text, drafts[n].pattern, drafts[n].modifiers[m := r[n].modifiers[m]])
            && forall j :: 0 <= j < n ==> r[j] == drafts[j]
  {
    var r, n := AddModifier(drafts, m, value).value, |drafts| - 1;
    assert forall j :: 0 <= j < n ==> r[j] == r[..n][j] && drafts[j] == drafts[..n][j];
  }

  lemma {:induction false} TakenAdds(piece: Piece, p: Parsed, q: Parsed)
    requires TakePiece(piece, p) == Ok(q)
    ensures Adds(piece, p, q)
  {
    if piece.kind.Modifies? {
      ModifierAdds(p.drafts, piece.kind.m, piece.value);
    }
  }

  // Everything read before is still there.
  ghost predicate Stays(p: Parsed, q: Parsed) {
    && (forall option :: option in p.values ==> option in q.values && q.values[option] == p.values[option])
    && |p.drafts| <= |q.drafts|
    && forall j :: 0 <= j < |p.drafts| ==>
         && q.drafts[j].text == p.drafts[j].text && q.drafts[j].pattern == p.drafts[j].pattern
         && forall m :: m in p.drafts[j].modifiers ==>
              m in q.drafts[j].modifiers && q.drafts[j].modifiers[m] == p.drafts[j].modifiers[m]
  }

  lemma {:induction false} AddsStays(piece: Piece, p: Parsed, q: Parsed)
    requires Adds(piece, p, q)
    ensures Stays(p, q)
  {
  }

  lemma {:induction false} StandsLater(pieces: seq<Piece>, piece: Piece, i: nat, p: Parsed, q: Parsed)
    requires i < |pieces| && Stands(pieces, i, p) && Stays(p, q)
    ensures Stands(pieces + [piece], i, q)
  {
    assert (pieces + [piece])[..i] == pieces[..i];
  }

  lemma {:induction false} StandsNow(pieces: seq<Piece>, piece: Piece, p: Parsed, q: Parsed)
    requires |p.drafts| == CountContents(pieces) && Adds(piece, p, q)
    ensures Stands(pieces + [piece], |pieces|, q) && |q.drafts| == CountContents(pieces + [piece])
  {
    var all := pieces + [piece];
    assert all[..|pieces|] == pieces && all[..|all| - 1] == pieces && all[|pieces|] == piece;
  }

  lemma {:induction false} NoClashYet(pieces: seq<Piece>, piece: Piece, i: nat, p: Parsed, q: Parsed)
    requires |p.drafts| == CountContents(pieces) && Adds(piece, p, q)
    requires i < |pieces| && Stands(pieces, i, p)
    ensures !Clash(pieces + [piece], i, |pieces|)
  {
    var all := pieces + [piece];
    assert all[..|pieces|] == pieces && all[..i] == pieces[..i];
  }

  lemma {:induction false} ClashesStay(pieces: seq<Piece>, piece: Piece, i: nat, k: nat)
    requires i < |pieces| && k < |pieces|
    ensures Clash(pieces + [piece], i, k) == Clash(pieces, i, k)
  {
    var all := pieces + [piece];
    assert all[..k] == pieces[..k] && all[..i] == pieces[..i];
  }

  lemma {:induction false} SourcesStay(pieces: seq<Piece>, piece: Piece)
    ensures forall option :: FromSingle(pieces, option) ==> FromSingle(pieces + [piece], option)
    ensures forall j: nat, m :: FromModifier(pieces, j, m) ==> FromModifier(pieces + [piece], j, m)
  {
    var all := pieces + [piece];
    forall option | FromSingle(pieces, option) ensures FromSingle(all, option) {
      var i :| 0 <= i < |pieces| && pieces[i].kind == Single(option);
      assert all[i] == pieces[i];
    }
    forall j: nat, m | FromModifier(pieces, j, m) ensures FromModifier(all, j, m) {
      var i :| 0 <= i < |pieces| && pieces[i].kind == Modifies(m) && CountContents(pieces[..i]) == j + 1;
      assert all[i] == pieces[i] && all[..i] == pieces[..i];
    }
  }

  lemma {:induction false} ValuesNow(pieces: seq<Piece>, piece: Piece, p: Parsed, q: Parsed)
    requires Adds(piece, p, q)
    ensures forall option :: option in q.values && option !in p.values ==> FromSingle(pieces + [piece], option)
  {
    assert (pieces + [piece])[|pieces|] == piece;
  }

  lemma {:induction false} NewModifiers(piece: Piece, p: Parsed, q: Parsed)
    requires Adds(piece, p, q)
    ensures forall j, m ::
              0 <= j < |q.drafts| && m in q.drafts[j].modifiers && (j >= |p.drafts| || m !in p.drafts[j].modifiers) ==>
              piece.kind == Modifies(m) && j + 1 == |p.drafts|
  {
  }

  lemma {:induction false} ModifiersNow(pieces: seq<Piece>, piece: Piece, p: Parsed, q: Parsed)
    requires |p.drafts| == CountContents(pieces) && Adds(piece, p, q)
    ensures forall j, m ::
              0 <= j < |q.drafts| && m in q.drafts[j].modifiers && (j >= |p.drafts| || m !in p.drafts[j].modifiers) ==>
              FromModifier(pieces + [piece], j, m)
  {
    var all, n := pieces + [piece], |pieces|;
    assert all[n] == piece && all[..n] == pieces;
    NewModifiers(piece, p, q);
    forall m | piece.kind == Modifies(m) && |p.drafts| > 0 ensures FromModifier(all, |p.drafts| - 1, m) {
      assert all[n].kind == Modifies(m);
    }
  }

  lemma {:induction false} ReadingStep(pieces: seq<Piece>, piece: Piece, p: Parsed, q: Parsed)
    requires IsReading(pieces, p) && Adds(piece, p, q)
    ensures IsReading(pieces + [piece], q)
  {
    var all := pieces + [piece];
    StandsNow(pieces, piece, p, q);
    AddsStays(piece, p, q);
    forall i | 0 <= i < |all| ensures Stands(all, i, q) {
      if i < |pieces| {
        StandsLater(pieces, piece, i, p, q);
      }
    }
    forall i, k | 0 <= i < k < |all| ensures !Clash(all, i, k) {
      if k < |pieces| {
        ClashesStay(pieces, piece, i, k);
      } else {
        NoClashYet(pieces, piece, i, p, q);
      }
    }
    SourcesStay(pieces, piece);
    ValuesNow(pieces, piece, p, q);
    ModifiersNow(pieces, piece, p, q);
  }

  // One more piece adds to what was taken before.
  ghost predicate TakesOn(all: seq<Piece> -> Result<Parsed, Reject>, pieces: seq<Piece>, piece: Piece) {
    all(pieces + [piece]).Ok? ==> all(pieces).Ok? && Adds(piece, all(pieces).value, all(pieces + [piece]).value)
  }

  lemma {:induction false} TakingReads(all: seq<Piece> -> Result<Parsed, Reject>, pieces: seq<Piece>)
    requires all([]) == Ok(NOTHING) && forall ts, t :: TakesOn(all, ts, t)
    requires all(pieces).Ok?
    ensures IsReading(pieces, all(pieces).value)
    decreases |pieces|
  {
    if pieces != [] {
      var front, last := pieces[..|pieces| - 1], pieces[|pieces| - 1];
      assert pieces == front + [last] && TakesOn(all, front, last);
      TakingReads(all, front);
      ReadingStep(front, last, all(front).value, all(pieces).value);
    }
  }

  lemma {:induction false} TakeAllTakesOn(pieces: seq<Piece>, piece: Piece)
    requires TakeAll(pieces + [piece], NOTHING).Ok?
    ensures TakeAll(pieces, NOTHING).Ok?
    ensures Adds(piece, TakeAll(pieces, NOTHING).value, TakeAll(pieces + [piece], NOTHING).value)
  {
    TakeLast(pieces, piece, NOTHING);
    TakenAdds(piece, TakeAll(pieces, NOTHING).value, TakeAll(pieces + [piece], NOTHING).value);
  }

  lemma {:induction false} TakenIsReading(pieces: seq<Piece>)
    requires TakeAll(pieces, NOTHING).Ok?
    ensures IsReading(pieces, TakeAll(pieces, NOTHING).value)
  {
    var all := (ts: seq<Piece>) => TakeAll(ts, NOTHING);
    forall ts, t ensures TakesOn(all, ts, t) {
      if TakeAll(ts + [t], NOTHING).Ok? {
        TakeAllTakesOn(ts, t);
      }
    }
    assert TakeAll([], NOTHING) == Ok(NOTHING);
    TakingReads(all, pieces);
  }

  lemma {:induction false} PrefixOfPrefix(pieces: seq<Piece>, n: nat, i: nat)
    requires i < n <= |pieces|
    ensures pieces[..n][i] == pieces[i] && pieces[..n][..i] == pieces[..i]
  {
  }

  lemma {:induction false} NothingClashes(pieces: seq<Piece>, i: nat, k: nat, p: Parsed)
    requires IsReading(pieces, p) && i < k < |pieces|
    ensures !Clash(pieces, i, k)
  {
  }

  lemma {:induction false} OptionIsNew(pieces: seq<Piece>, n: nat, option: SingleOption, p: Parsed)
    requires IsReading(pieces, p) && n < |pieces| && pieces[n].kind == Single(option)
    ensures !FromSingle(pieces[..n], option)
  {
    if FromSingle(pieces[..n], option) {
      var i :| 0 <= i < n && pieces[..n][i].kind == Single(option);
      NothingClashes(pieces, i, n, p);
    }
  }

  lemma {:induction false} ModifierIsNew(pieces: seq<Piece>, n: nat, j: nat, m: Modifier, p: Parsed)
    requires IsReading(pieces, p) && n < |pieces| && pieces[n].kind == Modifies(m)
    requires CountContents(pieces[..n]) == j + 1
    ensures !FromModifier(pieces[..n], j, m)
  {
    if FromModifier(pieces[..n], j, m) {
      var i :| 0 <= i < n && pieces[..n][i].kind == Modifies(m) && CountContents(pieces[..n][..i]) == j + 1;
      PrefixOfPrefix(pieces, n, i);
      NothingClashes(pieces, i, n, p);
    }
  }

  // What a piece would set is not set by the pieces before it.
  lemma {:induction false} NotSetBefore(pieces: seq<Piece>, n: nat, p: Parsed, q: Parsed)
    requires n < |pieces| && IsReading(pieces, p) && IsReading(pieces[..n], q)
    ensures pieces[n].kind.Single? ==> pieces[n].kind.option !in q.values
    ensures pieces[n].kind.Modifies? ==> q.drafts != [] && pieces[n].kind.m !in q.drafts[|q.drafts| - 1].modifiers
  {
    assert Stands(pieces, n, p);
    match pieces[n].kind
    case Single(option) => OptionIsNew(pieces, n, option, p);
    case Modifies(m) => ModifierIsNew(pieces, n, |q.drafts| - 1, m, p);
    case _ =>
  }

  lemma {:induction false} StandingIsTaken(pieces: seq<Piece>, n: nat, p: Parsed, q: Parsed)
    requires n < |pieces| && Stands(pieces, n, p)
    requires pieces[n].kind.Single? ==> pieces[n].kind.option !in q.values
    requires pieces[n].kind.Modifies? ==> q.drafts != [] && pieces[n].kind.m !in q.drafts[|q.drafts| - 1].modifiers
    ensures TakePiece(pieces[n], q).Ok?
  {
  }

  lemma {:induction false} NextIsTaken(pieces: seq<Piece>, n: nat, p: Parsed, q: Parsed)
    requires n < |pieces| && IsReading(pieces, p) && IsReading(pieces[..n], q)
    ensures TakePiece(pieces[n], q).Ok?
  {
    NotSetBefore(pieces, n, p, q);
    StandingIsTaken(pieces, n, p, q);
  }

  // One more piece of a list with a reading is taken.
  lemma {:induction false} OneMoreIsTaken(pieces: seq<Piece>, n: nat, p: Parsed)
    requires n < |pieces| && IsReading(pieces, p) && TakeAll(pieces[..n], NOTHING).Ok?
    ensures TakeAll(pieces[..n] + [pieces[n]], NOTHING).Ok?
  {
    TakenIsReading(pieces[..n]);
    NextIsTaken(pieces, n, p, TakeAll(pieces[..n], NOTHING).value);
    TakeLast(pieces[..n], pieces[n], NOTHING);
  }

  lemma {:induction false} ReadingIsTaken(pieces: seq<Piece>, p: Parsed, n: nat)
    requires IsReading(pieces, p) && n <= |pieces|
    ensures TakeAll(pieces[..n], NOTHING).Ok?
  {
    if n > 0 {
      ReadingIsTaken(pieces, p, n - 1);
      OneMoreIsTaken(pieces, n - 1, p);
      assert pieces[..n] == pieces[..n - 1] + [pieces[n - 1]];
    }
  }

  lemma {:induction false} ContentAt(pieces: seq<Piece>, j: nat) returns (i: nat)
    requires j < CountContents(pieces)
    ensures i < |pieces| && pieces[i].kind.Contents? && CountContents(pieces[..i]) == j
    decreases |pieces|
  {
    var front := pieces[..|pieces| - 1];
    if j < CountContents(front) {
      i := ContentAt(front, j);
      PrefixOfPrefix(pieces, |pieces| - 1, i);
    } else {
      i := |pieces| - 1;
    }
  }

  lemma {:induction false} ValuesAgree(pieces: seq<Piece>, p: Parsed, q: Parsed)
    requires IsReading(pieces, p) && IsReading(pieces, q)
    ensures forall option :: option in p.values ==> option in q.values && q.values[option] == p.values[option]
  {
    forall option | option in p.values ensures option in q.values && q.values[option] == p.values[option] {
      assert FromSingle(pieces, option);
      var i :| 0 <= i < |pieces| && pieces[i].kind == Single(option);
      assert Stands(pieces, i, p) && Stands(pieces, i, q);
    }
  }

  lemma {:induction false} ModifierAgrees(pieces: seq<Piece>, i: nat, p: Parsed, q: Parsed, j: nat, m: Modifier)
    requires i < |pieces| && pieces[i].kind == Modifies(m) && CountContents(pieces[..i]) == j + 1
    requires j < |p.drafts| && j < |q.drafts| && Stands(pieces, i, p) && Stands(pieces, i, q)
    ensures m in p.drafts[j].modifiers && m in q.drafts[j].modifiers
    ensures q.drafts[j].modifiers[m] == p.drafts[j].modifiers[m]
  {
  }

  lemma {:induction false} ModifiersAgree(pieces: seq<Piece>, p: Parsed, q: Parsed, j: nat)
    requires IsReading(pieces, p) && IsReading(pieces, q) && j < |p.drafts|
    ensures forall m :: m in p.drafts[j].modifiers ==>
              m in q.drafts[j].modifiers && q.drafts[j].modifiers[m] == p.drafts[j].modifiers[m]
  {
    forall m | m in p.drafts[j].modifiers
      ensures m in q.drafts[j].modifiers && q.drafts[j].modifiers[m] == p.drafts[j].modifiers[m]
    {
      assert FromModifier(pieces, j, m);
      var i :| 0 <= i < |pieces| && pieces[i].kind == Modifies(m) && CountContents(pieces[..i]) == j + 1;
      ModifierAgrees(pieces, i, p, q, j, m);
    }
  }

  lemma {:induction false} DraftsAgree(pieces: seq<Piece>, p: Parsed, q: Parsed, j: nat)
    requires IsReading(pieces, p) && IsReading(pieces, q) && j < |p.drafts|
    ensures p.drafts[j] == q.drafts[j]
  {
    var i := ContentAt(pieces, j);
    assert Stands(pieces, i, p) && Stands(pieces, i, q);
    ModifiersAgree(pieces, p, q, j);
    ModifiersAgree(pieces, q, p, j);
    assert p.drafts[j].modifiers == q.drafts[j].modifiers;
  }

  lemma {:induction false} ReadingsAgree(pieces: seq<Piece>, p: Parsed, q: Parsed)
    requires IsReading(pieces, p) && IsReading(pieces, q)
    ensures p == q
  {
    ValuesAgree(pieces, p, q);
    ValuesAgree(pieces, q, p);
    assert p.values == q.values;
    forall j | 0 <= j < |p.drafts| ensures p.drafts[j] == q.drafts[j] {
      DraftsAgree(pieces, p, q, j);
    }
  }

  // An option list is accepted exactly when it has a reading, and its result is that reading, the only one.
  lemma {:induction false} AcceptedIsReading(pieces: seq<Piece>, p: Parsed)
    ensures TakeAll(pieces, NOTHING) == Ok(p) <==> IsReading(pieces, p)
  {
    if TakeAll(pieces, NOTHING).Ok? {
      TakenIsReading(pieces);
    }
    if IsReading(pieces, p) {
      ReadingIsTaken(pieces, p, |pieces|);
      assert pieces[..|pieces|] == pieces;
      TakenIsReading(pieces);
      ReadingsAgree(pieces, p, TakeAll(pieces, NOTHING).value);
    }
  }

  // Each value of a reading has the type of its option.
  lemma {:induction false} ReadingIsTyped(pieces: seq<Piece>, p: Parsed)
    requires IsReading(pieces, p)
    ensures forall option :: option in p.values ==> Typed(option, p.values[option])
  {
    forall option | option in p.values ensures Typed(option, p.values[option]) {
      assert FromSingle(pieces, option);
      var i :| 0 <= i < |pieces| && pieces[i].kind == Single(option);
      assert Stands(pieces, i, p);
      AcceptedValueIsTyped(option, pieces[i].value);
    }
  }

  // ---------- What the matcher may rely on ----------

  // The pattern is not empty, its window can hold it, and it is either absolute or relative.
  predicate Usable(c: ContentMatch.Content) {
    && c.pattern != []
    && (c.depth.Some? ==> c.depth.value >= |c.pattern|)
    && (c.within.Some? ==> c.within.value >= |c.pattern|)
    && !((c.offset.Some? || c.depth.Some?) && (c.distance.Some? || c.within.Some?))
  }

  predicate Finished(d: Draft, c: ContentMatch.Content) {
    && c.text == d.text && c.pattern == d.pattern && c.nocase == (Nocase in d.modifiers)
    && (c.offset.Some? <==> Offset in d.modifiers) && (c.offset.Some? ==> c.offset.value == d.modifiers[Offset])
    && (c.depth.Some? <==> Depth in d.modifiers) && (c.depth.Some? ==> c.depth.value == d.modifiers[Depth])
    && (c.distance.Some? <==> Distance in d.modifiers)
    && (c.distance.Some? ==> c.distance.value == d.modifiers[Distance])
    && (c.within.Some? <==> Within in d.modifiers) && (c.within.Some? ==> c.within.value == d.modifiers[Within])
  }

  // A content is accepted exactly when its modifiers describe a usable content, and it is that content, the only one.
  lemma {:induction false} FinishedExactlyWhenUsable(d: Draft, c: ContentMatch.Content)
    requires ValidDraft(d)
    ensures FinishContent(d) == Ok(c) <==> Finished(d, c) && Usable(c)
  {
  }

  ghost predicate AllFinished(drafts: seq<Draft>, cs: seq<ContentMatch.Content>) {
    |cs| == |drafts| && forall i :: 0 <= i < |cs| ==> Finished(drafts[i], cs[i]) && Usable(cs[i])
  }

  lemma {:induction false} FinishAllExactly(drafts: seq<Draft>, cs: seq<ContentMatch.Content>)
    requires AllValid(drafts)
    ensures FinishAll(drafts) == Ok(cs) <==> AllFinished(drafts, cs)
    decreases |drafts|
  {
    if drafts != [] && cs != [] {
      FinishedExactlyWhenUsable(drafts[0], cs[0]);
      FinishAllExactly(drafts[1..], cs[1..]);
      FirstAndRestFinished(drafts, cs);
      assert cs == [cs[0]] + cs[1..];
    }
  }

  lemma {:induction false} FirstAndRestFinished(drafts: seq<Draft>, cs: seq<ContentMatch.Content>)
    requires drafts != [] && cs != []
    ensures AllFinished(drafts, cs)
            <==> Finished(drafts[0], cs[0]) && Usable(cs[0]) && AllFinished(drafts[1..], cs[1..])
  {
    if Finished(drafts[0], cs[0]) && Usable(cs[0]) && AllFinished(drafts[1..], cs[1..]) {
      forall i | 0 <= i < |cs| ensures Finished(drafts[i], cs[i]) && Usable(cs[i]) {
        assert i > 0 ==> Finished(drafts[1..][i - 1], cs[1..][i - 1]) && Usable(cs[1..][i - 1]);
      }
    }
  }

  lemma {:induction false} AcceptedParts(text: string) returns (p: Parsed)
    requires OptionsOf(text).Ok?
    ensures Split(text).Ok? && TakeAll(Pieces(Split(text).value), NOTHING) == Ok(p)
    ensures {Sid, Msg} <= p.values.Keys && AllValid(p.drafts) && FinishAll(p.drafts).Ok?
    ensures OptionsOf(text).value == Options(WithDefaults(p.values), FinishAll(p.drafts).value)
  {
    var pieces := Pieces(Split(text).value);
    p := TakeAll(pieces, NOTHING).value;
    TakeAllKeepsValid(pieces, NOTHING);
  }

  // What some tokens say: their reading, with its required options, the default revision and its contents finished.
  ghost predicate Tell(tokens: seq<string>, p: Parsed, o: Options) {
    && IsReading(Pieces(tokens), p) && {Sid, Msg} <= p.values.Keys
    && o.values == (if Rev in p.values then p.values else p.values[Rev := Number(1)])
    && AllFinished(p.drafts, o.contents)
  }

  lemma {:induction false} TellingTokensRead(text: string, tokens: seq<string>, p: Parsed, o: Options)
    requires TokensOf(text, tokens) && Tell(StripAll(tokens), p, o)
    ensures OptionsOf(text) == Ok(o)
  {
    TokensSplit(text, tokens);
    AcceptedIsReading(Pieces(StripAll(tokens)), p);
    TakeAllKeepsValid(Pieces(StripAll(tokens)), NOTHING);
    FinishAllExactly(p.drafts, o.contents);
  }

  lemma {:induction false} AcceptedTokensTell(text: string) returns (tokens: seq<string>, p: Parsed)
    requires OptionsOf(text).Ok?
    ensures TokensOf(text, tokens) && Tell(StripAll(tokens), p, OptionsOf(text).value)
  {
    p := AcceptedParts(text);
    tokens := SplitTokens(text);
    AcceptedIsReading(Pieces(StripAll(tokens)), p);
    FinishAllExactly(p.drafts, OptionsOf(text).value.contents);
  }

  ghost predicate SaysOptions(text: string, o: Options) {
    exists tokens, p :: TokensOf(text, tokens) && Tell(StripAll(tokens), p, o)
  }

  // A text is accepted exactly when it is a join of tokens that have a reading with a sid and a message, whose contents
  // are all usable. It gives the values of that reading, and those contents in their order.
  lemma {:induction false} OptionsAreTheirTokens(text: string, o: Options)
    ensures OptionsOf(text) == Ok(o) <==> SaysOptions(text, o)
  {
    if OptionsOf(text) == Ok(o) {
      var tokens, p := AcceptedTokensTell(text);
    }
    if SaysOptions(text, o) {
      var tokens, p :| TokensOf(text, tokens) && Tell(StripAll(tokens), p, o);
      TellingTokensRead(text, tokens, p, o);
    }
  }

  // Every accepted rule gives the matcher what it needs: typed values, and usable contents, one for every content token
  // and in their order, read from exactly the tokens of the text.
  lemma {:induction false} AcceptedOptionsAreUsable(text: string) returns (tokens: seq<string>, p: Parsed)
    requires OptionsOf(text).Ok?
    ensures TokensOf(text, tokens) && Tell(StripAll(tokens), p, OptionsOf(text).value)
    ensures forall option :: option in p.values ==> Typed(option, p.values[option])
  {
    tokens, p := AcceptedTokensTell(text);
    ReadingIsTyped(Pieces(StripAll(tokens)), p);
  }
}
