// Whole option lists printed as text, and read back.
module RuleRoundTrip {
  import opened Base
  import opened RuleTokens
  import opened RuleContents
  import opened RuleValues
  import opened RuleOptions
  import opened RulePrinting
  import ContentMatch

  // ---------- Lists of printed tokens ----------

  // A printed token and how it reads.
  datatype Line = Line(token: string, piece: Piece)

  function TokensIn(lines: seq<Line>): seq<string> { seq(|lines|, i requires 0 <= i < |lines| => lines[i].token) }

  function PiecesIn(lines: seq<Line>): seq<Piece> { seq(|lines|, i requires 0 <= i < |lines| => lines[i].piece) }

  ghost predicate AllStand(lines: seq<Line>, cut: bool) {
    forall i :: 0 <= i < |lines| ==> StandsAlone(lines[i].token, lines[i].piece, cut && i == |lines| - 1)
  }

  lemma {:induction false} StandTogether(xs: seq<Line>, ys: seq<Line>, cut: bool)
    requires AllStand(xs, false) && AllStand(ys, cut)
    ensures AllStand(xs + ys, cut)
  {
    forall i | 0 <= i < |xs + ys|
      ensures StandsAlone((xs + ys)[i].token, (xs + ys)[i].piece, cut && i == |xs + ys| - 1)
    {
      assert i < |xs| ==> StandsAlone(xs[i].token, xs[i].piece, false);
      assert i >= |xs| ==> StandsAlone(ys[i - |xs|].token, ys[i - |xs|].piece, cut && i - |xs| == |ys| - 1);
    }
  }

  lemma {:induction false} StandingTokensStrip(tokens: seq<string>)
    requires forall i :: 0 <= i < |tokens| ==> Strip(tokens[i]) == tokens[i] != ""
    ensures StripAll(tokens) == tokens
    decreases |tokens|
  {
    if tokens != [] {
      StandingTokensStrip(tokens[1..]);
      assert tokens == [tokens[0]] + tokens[1..];
    }
  }

  lemma {:induction false} TokensClose(tokens: seq<string>)
    requires tokens != [] && ClosedOrCut(tokens[|tokens| - 1], false)
    requires forall i :: 0 <= i < |tokens| - 1 ==> Closed(tokens[i], false)
    ensures AllClosed(tokens, false)
    decreases |tokens|
  {
    if |tokens| > 1 {
      TokensClose(tokens[1..]);
    }
  }

  // Printed tokens are split where they were joined, and each reads as its own piece.
  lemma {:induction false} LinesRead(lines: seq<Line>)
    requires lines != [] && AllStand(lines, true)
    ensures var tokens := TokensIn(lines);
            TokensOf(Join(tokens), tokens) && StripAll(tokens) == tokens && Pieces(tokens) == PiecesIn(lines)
  {
    var tokens := TokensIn(lines);
    forall i | 0 <= i < |tokens| ensures StandsAlone(tokens[i], lines[i].piece, i == |tokens| - 1) {
      assert StandsAlone(lines[i].token, lines[i].piece, i == |lines| - 1);
    }
    TokensClose(tokens);
    StandingTokensStrip(tokens);
  }

  lemma {:induction false} TakenTogether(xs: seq<Piece>, ys: seq<Piece>, p: Parsed)
    ensures TakeAll(xs + ys, p)
            == match TakeAll(xs, p)
               case Err(e) => Err(e)
               case Ok(q) => TakeAll(ys, q)
    decreases |xs|
  {
    if xs == [] {
      assert xs + ys == ys;
    } else {
      assert (xs + ys)[0] == xs[0] && (xs + ys)[1..] == xs[1..] + ys;
      match TakePiece(xs[0], p)
      case Err(_) =>
      case Ok(next) => TakenTogether(xs[1..], ys, next);
    }
  }

  lemma {:induction false} PiecesTogether(xs: seq<Line>, ys: seq<Line>)
    ensures PiecesIn(xs + ys) == PiecesIn(xs) + PiecesIn(ys)
  {
  }

  // Reading these lines on from there ends there.
  ghost predicate LinesTake(lines: seq<Line>, p: Parsed, q: Parsed) { TakeAll(PiecesIn(lines), p) == Ok(q) }

  lemma {:induction false} LinesTakeTogether(xs: seq<Line>, ys: seq<Line>, p: Parsed, q: Parsed, r: Parsed)
    requires LinesTake(xs, p, q) && LinesTake(ys, q, r)
    ensures LinesTake(xs + ys, p, r)
  {
    PiecesTogether(xs, ys);
    TakenTogether(PiecesIn(xs), PiecesIn(ys), p);
  }

  lemma {:induction false} LineTakes(line: Line, p: Parsed, q: Parsed)
    requires TakePiece(line.piece, p) == Ok(q)
    ensures LinesTake([line], p, q)
  {
    assert PiecesIn([line]) == [line.piece] && [line.piece][1..] == [];
  }

  lemma {:induction false} NoLinesTake(p: Parsed)
    ensures LinesTake([], p, p)
  {
    assert PiecesIn([]) == [];
  }

  // ---------- Single options ----------

  function Restricted<K, V>(m: map<K, V>, order: seq<K>): map<K, V> { map k | k in m && k in order :: m[k] }

  ghost predicate Distinct<K>(order: seq<K>) { forall i, j :: 0 <= i < j < |order| ==> order[i] != order[j] }

  lemma {:induction false} RestrictedGrows<K, V>(base: map<K, V>, m: map<K, V>, order: seq<K>)
    requires order != [] && Distinct(order) && order[0] in m
    ensures base[order[0] := m[order[0]]] + Restricted(m, order[1..]) == base + Restricted(m, order)
  {
    assert forall k :: k in order <==> k == order[0] || k in order[1..];
  }

  lemma {:induction false} RestrictedStays<K, V>(m: map<K, V>, order: seq<K>)
    requires order != [] && order[0] !in m
    ensures Restricted(m, order[1..]) == Restricted(m, order)
  {
    assert forall k :: k in order <==> k == order[0] || k in order[1..];
  }

  predicate AllPrintable(values: map<SingleOption, OptionValue>) {
    forall option :: option in values ==> Printable(option, values[option])
  }

  function OptionLine(option: SingleOption, v: OptionValue): Line
    requires Printable(option, v)
  {
    Line(OptionToken(option, v), Piece(Single(option), ValueText(option, v)))
  }

  // Those of some options that have a value, in this order.
  function OptionLines(order: seq<SingleOption>, values: map<SingleOption, OptionValue>): seq<Line>
    requires AllPrintable(values)
  {
    if order == [] then []
    else
      (if order[0] in values then [OptionLine(order[0], values[order[0]])] else []) + OptionLines(order[1..], values)
  }

  lemma {:induction false} OptionLinesStand(order: seq<SingleOption>, values: map<SingleOption, OptionValue>)
    requires AllPrintable(values) && Classtype !in order
    ensures AllStand(OptionLines(order, values), false)
    decreases |order|
  {
    if order != [] {
      assert forall option :: option in order[1..] ==> option in order;
      OptionLinesStand(order[1..], values);
      if order[0] in values {
        OptionTokenStands(order[0], values[order[0]]);
        StandTogether([OptionLine(order[0], values[order[0]])], OptionLines(order[1..], values), false);
      } else {
        assert [] + OptionLines(order[1..], values) == OptionLines(order[1..], values);
      }
    }
  }

  lemma {:induction false} OptionLineTakes(option: SingleOption, v: OptionValue, p: Parsed)
    requires Printable(option, v) && option !in p.values
    ensures LinesTake([OptionLine(option, v)], p, Parsed(p.values[option := v], p.drafts))
  {
    ValueTextReads(option, v);
    LineTakes(OptionLine(option, v), p, Parsed(p.values[option := v], p.drafts));
  }

  lemma {:induction false} FirstOptionTakes(order: seq<SingleOption>, values: map<SingleOption, OptionValue>, p: Parsed,
                                            q: Parsed)
    requires AllPrintable(values) && order != [] && order[0] in values && order[0] !in p.values
    requires LinesTake(OptionLines(order[1..], values), Parsed(p.values[order[0] := values[order[0]]], p.drafts), q)
    ensures LinesTake(OptionLines(order, values), p, q)
  {
    var first, v := order[0], values[order[0]];
    OptionLineTakes(first, v, p);
    LinesTakeTogether([OptionLine(first, v)], OptionLines(order[1..], values), p,
                      Parsed(p.values[first := v], p.drafts), q);
  }

  lemma {:induction false} NoOptionTakes(order: seq<SingleOption>, values: map<SingleOption, OptionValue>)
    requires AllPrintable(values) && order != [] && order[0] !in values
    ensures OptionLines(order, values) == OptionLines(order[1..], values)
  {
    assert [] + OptionLines(order[1..], values) == OptionLines(order[1..], values);
  }

  lemma {:induction false} OptionLinesTake(order: seq<SingleOption>, values: map<SingleOption, OptionValue>, p: Parsed)
    requires AllPrintable(values) && Distinct(order) && forall option :: option in order ==> option !in p.values
    ensures LinesTake(OptionLines(order, values), p, Parsed(p.values + Restricted(values, order), p.drafts))
    decreases |order|
  {
    if order == [] {
      NoLinesTake(p);
      assert p.values + Restricted(values, order) == p.values;
    } else {
      assert forall option :: option in order[1..] ==> option in order && option != order[0];
      if order[0] in values {
        RestrictedGrows(p.values, values, order);
        OptionLinesTake(order[1..], values, Parsed(p.values[order[0] := values[order[0]]], p.drafts));
        FirstOptionTakes(order, values, p, Parsed(p.values + Restricted(values, order), p.drafts));
      } else {
        OptionLinesTake(order[1..], values, p);
        RestrictedStays(values, order);
        NoOptionTakes(order, values);
      }
    }
  }

  // ---------- Contents ----------

  function ModifierIn(c: ContentMatch.Content, m: Modifier): Option<int> {
    match m
    case Nocase => if c.nocase then Some(1) else None
    case Offset => c.offset
    case Depth => c.depth
    case Distance => c.distance
    case Within => c.within
  }

  function ModifiersOf(c: ContentMatch.Content): map<Modifier, int> {
    map m: Modifier | ModifierIn(c, m).Some? :: ModifierIn(c, m).value
  }

  function DraftOf(c: ContentMatch.Content): Draft { Draft(c.text, c.pattern, ModifiersOf(c)) }

  // A content that has a text: its own one, which means its pattern.
  ghost predicate PrintableContent(c: ContentMatch.Content) {
    && Usable(c)
    && (exists items :: AllLegal(items) && RenderAll(items) == c.text && MeaningAll(items) == c.pattern)
    && forall m :: ModifierIn(c, m).Some? ==> PrintableModifier(m, ModifierIn(c, m).value)
  }

  function ModifierLine(m: Modifier, n: int): Line {
    Line(ModifierToken(m, n), Piece(Modifies(m), ModifierValue(m, n)))
  }

  function ModifierLines(order: seq<Modifier>, modifiers: map<Modifier, int>): seq<Line> {
    if order == [] then []
    else
      (if order[0] in modifiers then [ModifierLine(order[0], modifiers[order[0]])] else [])
      + ModifierLines(order[1..], modifiers)
  }

  lemma {:induction false} ModifierLinesStand(order: seq<Modifier>, modifiers: map<Modifier, int>)
    ensures AllStand(ModifierLines(order, modifiers), false)
    decreases |order|
  {
    if order != [] {
      var rest := ModifierLines(order[1..], modifiers);
      ModifierLinesStand(order[1..], modifiers);
      if order[0] in modifiers {
        ModifierTokenStands(order[0], modifiers[order[0]]);
        StandTogether([ModifierLine(order[0], modifiers[order[0]])], rest, false);
      } else {
        assert [] + rest == rest;
      }
    }
  }

  function WithModifiers(values: map<SingleOption, OptionValue>, drafts: seq<Draft>, d: Draft,
                         modifiers: map<Modifier, int>): Parsed
  {
    Parsed(values, drafts + [Draft(d.text, d.pattern, modifiers)])
  }

  lemma {:induction false} ModifierAddsLast(drafts: seq<Draft>, d: Draft, m: Modifier, s: string, n: int)
    requires m !in d.modifiers && Sets(m, s, n) && (m != Distance ==> n >= 0)
    ensures AddModifier(drafts + [d], m, s) == Ok(drafts + [Draft(d.text, d.pattern, d.modifiers[m := n])])
  {
    var all := drafts + [d];
    assert all[|all| - 1] == d && all[..|all| - 1] == drafts;
  }

  lemma {:induction false} ModifierPieceTakes(
    m: Modifier, s: string, n: int, values: map<SingleOption, OptionValue>, drafts: seq<Draft>, d: Draft)
    requires m !in d.modifiers && Sets(m, s, n) && (m != Distance ==> n >= 0)
    ensures TakePiece(Piece(Modifies(m), s), Parsed(values, drafts + [d]))
            == Ok(Parsed(values, drafts + [Draft(d.text, d.pattern, d.modifiers[m := n])]))
  {
    ModifierAddsLast(drafts, d, m, s, n);
  }

  lemma {:induction false} ModifierLineTakes(
    m: Modifier, n: int, values: map<SingleOption, OptionValue>, drafts: seq<Draft>, d: Draft,
    modifiers: map<Modifier, int>)
    requires PrintableModifier(m, n) && m !in modifiers
    ensures LinesTake([ModifierLine(m, n)], WithModifiers(values, drafts, d, modifiers),
                      WithModifiers(values, drafts, d, modifiers[m := n]))
  {
    ModifierValueSets(m, n);
    ModifierPieceTakes(m, ModifierValue(m, n), n, values, drafts, Draft(d.text, d.pattern, modifiers));
    LineTakes(ModifierLine(m, n), WithModifiers(values, drafts, d, modifiers),
              WithModifiers(values, drafts, d, modifiers[m := n]));
  }

  lemma {:induction false} ModifierLinesTake(
    order: seq<Modifier>, present: map<Modifier, int>, values: map<SingleOption, OptionValue>, drafts: seq<Draft>,
    d: Draft, modifiers: map<Modifier, int>)
    requires Distinct(order) && forall m :: m in order ==> m !in modifiers
    requires forall m :: m in present ==> PrintableModifier(m, present[m])
    ensures LinesTake(ModifierLines(order, present), WithModifiers(values, drafts, d, modifiers),
                      WithModifiers(values, drafts, d, modifiers + Restricted(present, order)))
    decreases |order|
  {
    var p := WithModifiers(values, drafts, d, modifiers);
    if order == [] {
      NoLinesTake(p);
      assert modifiers + Restricted(present, order) == modifiers;
    } else {
      var first, rest := order[0], ModifierLines(order[1..], present);
      assert forall m :: m in order[1..] ==> m in order && m != first;
      if first in present {
        var n := present[first];
        ModifierLineTakes(first, n, values, drafts, d, modifiers);
        ModifierLinesTake(order[1..], present, values, drafts, d, modifiers[first := n]);
        RestrictedGrows(modifiers, present, order);
        LinesTakeTogether([ModifierLine(first, n)], rest, p, WithModifiers(values, drafts, d, modifiers[first := n]),
                          WithModifiers(values, drafts, d, modifiers + Restricted(present, order)));
      } else {
        ModifierLinesTake(order[1..], present, values, drafts, d, modifiers);
        RestrictedStays(present, order);
        assert [] + rest == rest;
      }
    }
  }

  function QuotedContent(c: ContentMatch.Content): string { "\"" + c.text + "\"" }

  function ContentLine(c: ContentMatch.Content): Line {
    Line("content:" + QuotedContent(c), Piece(Contents, QuotedContent(c)))
  }

  const MODIFIERS := [Nocase, Offset, Depth, Distance, Within]

  function ContentLines(c: ContentMatch.Content): seq<Line> {
    [ContentLine(c)] + ModifierLines(MODIFIERS, ModifiersOf(c))
  }

  lemma {:induction false} ContentLineStands(c: ContentMatch.Content)
    requires PrintableContent(c)
    ensures StandsAlone(ContentLine(c).token, ContentLine(c).piece, false)
  {
    var items :| AllLegal(items) && RenderAll(items) == c.text && MeaningAll(items) == c.pattern;
    TokenIsKeyAndValue(items);
    ContentTokenIsClosed(items);
    ContentTokenParts(items);
    ClosedIsClosedOrCut(ContentToken(items), false);
  }

  lemma {:induction false} ContentLineTakes(c: ContentMatch.Content, values: map<SingleOption, OptionValue>,
                                            drafts: seq<Draft>)
    requires PrintableContent(c)
    ensures LinesTake([ContentLine(c)], Parsed(values, drafts), WithModifiers(values, drafts, DraftOf(c), map[]))
  {
    var items :| AllLegal(items) && RenderAll(items) == c.text && MeaningAll(items) == c.pattern;
    WrittenContentReads(items);
    LineTakes(ContentLine(c), Parsed(values, drafts), WithModifiers(values, drafts, DraftOf(c), map[]));
  }

  lemma {:induction false} AllModifiers(c: ContentMatch.Content)
    ensures Distinct(MODIFIERS) && map[] + Restricted(ModifiersOf(c), MODIFIERS) == ModifiersOf(c)
  {
    forall m: Modifier ensures m in MODIFIERS {
      match m
      case Nocase => assert MODIFIERS[0] == m;
      case Offset => assert MODIFIERS[1] == m;
      case Depth => assert MODIFIERS[2] == m;
      case Distance => assert MODIFIERS[3] == m;
      case Within => assert MODIFIERS[4] == m;
    }
  }

  lemma {:induction false} ContentLinesTake(c: ContentMatch.Content, values: map<SingleOption, OptionValue>,
                                            drafts: seq<Draft>)
    requires PrintableContent(c)
    ensures LinesTake(ContentLines(c), Parsed(values, drafts), Parsed(values, drafts + [DraftOf(c)]))
  {
    ContentLineTakes(c, values, drafts);
    AllModifiers(c);
    ModifierLinesTake(MODIFIERS, ModifiersOf(c), values, drafts, DraftOf(c), map[]);
    LinesTakeTogether([ContentLine(c)], ModifierLines(MODIFIERS, ModifiersOf(c)), Parsed(values, drafts),
                      WithModifiers(values, drafts, DraftOf(c), map[]), Parsed(values, drafts + [DraftOf(c)]));
  }

  lemma {:induction false} ContentLinesStand(c: ContentMatch.Content)
    requires PrintableContent(c)
    ensures AllStand(ContentLines(c), false)
  {
    ContentLineStands(c);
    ModifierLinesStand(MODIFIERS, ModifiersOf(c));
    StandTogether([ContentLine(c)], ModifierLines(MODIFIERS, ModifiersOf(c)), false);
  }

  lemma {:induction false} DraftIsFinished(c: ContentMatch.Content)
    requires Usable(c)
    ensures Finished(DraftOf(c), c)
  {
  }

  function AllContentLines(cs: seq<ContentMatch.Content>): seq<Line> {
    if cs == [] then [] else ContentLines(cs[0]) + AllContentLines(cs[1..])
  }

  function DraftsOf(cs: seq<ContentMatch.Content>): seq<Draft> {
    seq(|cs|, i requires 0 <= i < |cs| => DraftOf(cs[i]))
  }

  lemma {:induction false} AllContentLinesStand(cs: seq<ContentMatch.Content>)
    requires forall c :: c in cs ==> PrintableContent(c)
    ensures AllStand(AllContentLines(cs), false)
    decreases |cs|
  {
    if cs != [] {
      ContentLinesStand(cs[0]);
      assert forall c :: c in cs[1..] ==> c in cs;
      AllContentLinesStand(cs[1..]);
      StandTogether(ContentLines(cs[0]), AllContentLines(cs[1..]), false);
    }
  }

  lemma {:induction false} MoreDrafts(cs: seq<ContentMatch.Content>, drafts: seq<Draft>)
    requires cs != []
    ensures drafts + [DraftOf(cs[0])] + DraftsOf(cs[1..]) == drafts + DraftsOf(cs)
  {
  }

  lemma {:induction false} NoDrafts(drafts: seq<Draft>)
    ensures drafts + DraftsOf([]) == drafts
  {
  }

  lemma {:induction false} AllContentLinesTake(cs: seq<ContentMatch.Content>, values: map<SingleOption, OptionValue>,
                                               drafts: seq<Draft>)
    requires forall c :: c in cs ==> PrintableContent(c)
    ensures LinesTake(AllContentLines(cs), Parsed(values, drafts), Parsed(values, drafts + DraftsOf(cs)))
    decreases |cs|
  {
    if cs == [] {
      NoLinesTake(Parsed(values, drafts));
      NoDrafts(drafts);
    } else {
      var next := drafts + [DraftOf(cs[0])];
      ContentLinesTake(cs[0], values, drafts);
      assert forall c :: c in cs[1..] ==> c in cs;
      AllContentLinesTake(cs[1..], values, next);
      MoreDrafts(cs, drafts);
      LinesTakeTogether(ContentLines(cs[0]), AllContentLines(cs[1..]), Parsed(values, drafts), Parsed(values, next),
                        Parsed(values, drafts + DraftsOf(cs)));
    }
  }

  // ---------- Whole option lists ----------

  ghost predicate PrintableOptions(o: Options) {
    && {Sid, Rev, Msg} <= o.values.Keys && AllPrintable(o.values)
    && forall c :: c in o.contents ==> PrintableContent(c)
  }

  const FRONT := [Sid, Rev, Msg, Priority, FlowCheck, FlagsCheck, DsizeCheck]

  // All but the class type, then the contents with their modifiers, and the class type last, because its text may end
  // with a backslash.
  function Lines(o: Options): seq<Line>
    requires AllPrintable(o.values)
  {
    OptionLines(FRONT, o.values) + (AllContentLines(o.contents) + OptionLines([Classtype], o.values))
  }

  function Printed(o: Options): string
    requires AllPrintable(o.values) && Sid in o.values
  {
    assert Lines(o)[0] == OptionLine(Sid, o.values[Sid]);
    Join(TokensIn(Lines(o)))
  }

  lemma {:induction false} ClasstypeStands(values: map<SingleOption, OptionValue>)
    requires AllPrintable(values)
    ensures AllStand(OptionLines([Classtype], values), true)
  {
    assert [Classtype][1..] == [];
    if Classtype in values {
      OptionTokenStands(Classtype, values[Classtype]);
      assert OptionLines([Classtype], values) == [OptionLine(Classtype, values[Classtype])] + [];
    }
  }

  lemma {:induction false} LinesStand(o: Options)
    requires PrintableOptions(o)
    ensures AllStand(Lines(o), true)
  {
    OptionLinesStand(FRONT, o.values);
    AllContentLinesStand(o.contents);
    ClasstypeStands(o.values);
    StandTogether(AllContentLines(o.contents), OptionLines([Classtype], o.values), true);
    StandTogether(OptionLines(FRONT, o.values), AllContentLines(o.contents) + OptionLines([Classtype], o.values), true);
  }

  lemma {:induction false} AllOptions(values: map<SingleOption, OptionValue>)
    ensures Distinct(FRONT) && Distinct([Classtype])
    ensures map[] + Restricted(values, FRONT) + Restricted(values, [Classtype]) == values
  {
    forall option: SingleOption ensures option in FRONT || option in [Classtype] {
      match option
      case Sid => assert FRONT[0] == option;
      case Rev => assert FRONT[1] == option;
      case Msg => assert FRONT[2] == option;
      case Priority => assert FRONT[3] == option;
      case FlowCheck => assert FRONT[4] == option;
      case FlagsCheck => assert FRONT[5] == option;
      case DsizeCheck => assert FRONT[6] == option;
      case Classtype =>
    }
  }

  function FrontValues(o: Options): map<SingleOption, OptionValue> { map[] + Restricted(o.values, FRONT) }

  lemma {:induction false} FrontTakes(o: Options)
    requires AllPrintable(o.values)
    ensures LinesTake(OptionLines(FRONT, o.values), NOTHING, Parsed(FrontValues(o), []))
  {
    AllOptions(o.values);
    OptionLinesTake(FRONT, o.values, NOTHING);
  }

  lemma {:induction false} ContentsTake(o: Options)
    requires PrintableOptions(o)
    ensures LinesTake(AllContentLines(o.contents), Parsed(FrontValues(o), []),
                      Parsed(FrontValues(o), DraftsOf(o.contents)))
  {
    AllContentLinesTake(o.contents, FrontValues(o), []);
    assert [] + DraftsOf(o.contents) == DraftsOf(o.contents);
  }

  lemma {:induction false} ClasstypeTakes(o: Options, drafts: seq<Draft>)
    requires AllPrintable(o.values)
    ensures LinesTake(OptionLines([Classtype], o.values), Parsed(FrontValues(o), drafts), Parsed(o.values, drafts))
  {
    AllOptions(o.values);
    OptionLinesTake([Classtype], o.values, Parsed(FrontValues(o), drafts));
  }

  lemma {:induction false} AllLinesTake(o: Options)
    requires PrintableOptions(o)
    ensures LinesTake(Lines(o), NOTHING, Parsed(o.values, DraftsOf(o.contents)))
  {
    var drafts := DraftsOf(o.contents);
    FrontTakes(o);
    ContentsTake(o);
    ClasstypeTakes(o, drafts);
    LinesTakeTogether(AllContentLines(o.contents), OptionLines([Classtype], o.values), Parsed(FrontValues(o), []),
                      Parsed(FrontValues(o), drafts), Parsed(o.values, drafts));
    LinesTakeTogether(OptionLines(FRONT, o.values), AllContentLines(o.contents) + OptionLines([Classtype], o.values),
                      NOTHING, Parsed(FrontValues(o), []), Parsed(o.values, drafts));
  }

  lemma {:induction false} DraftsAreFinished(cs: seq<ContentMatch.Content>)
    requires forall c :: c in cs ==> PrintableContent(c)
    ensures AllFinished(DraftsOf(cs), cs)
  {
    forall i | 0 <= i < |cs| ensures Finished(DraftsOf(cs)[i], cs[i]) && Usable(cs[i]) {
      assert cs[i] in cs;
      DraftIsFinished(cs[i]);
    }
  }

  lemma {:induction false} LinesTell(o: Options)
    requires PrintableOptions(o) && Pieces(TokensIn(Lines(o))) == PiecesIn(Lines(o))
    ensures Tell(TokensIn(Lines(o)), Parsed(o.values, DraftsOf(o.contents)), o)
  {
    AllLinesTake(o);
    AcceptedIsReading(PiecesIn(Lines(o)), Parsed(o.values, DraftsOf(o.contents)));
    DraftsAreFinished(o.contents);
  }

  // Whatever options have a text read back from it: every value, every content and every modifier, and nothing else.
  lemma {:induction false} PrintedOptionsRead(o: Options)
    requires PrintableOptions(o)
    ensures OptionsOf(Printed(o)) == Ok(o)
  {
    assert Lines(o)[0] == OptionLine(Sid, o.values[Sid]);
    LinesStand(o);
    LinesRead(Lines(o));
    LinesTell(o);
    TellingTokensRead(Printed(o), TokensIn(Lines(o)), Parsed(o.values, DraftsOf(o.contents)), o);
  }

  // ---------- Every accepted option list has a text ----------

  lemma {:induction false} StripLeftIsClosed(s: string)
    ensures ClosedOrCut(StripLeft(s), false) == ClosedOrCut(s, false)
  {
    if s != "" && IsSpace(s[0]) {
      StripLeftIsClosed(s[1..]);
    }
  }

  lemma {:induction false} LastSpaceGoes(s: string, quoted: bool)
    requires s != "" && IsSpace(s[|s| - 1]) && ClosedOrCut(s, quoted)
    ensures ClosedOrCut(s[..|s| - 1], quoted)
    decreases |s|
  {
    var front := s[..|s| - 1];
    if s[0] == '\\' {
      if |s| > 2 {
        LastSpaceGoes(s[2..], quoted);
        assert front[2..] == s[2..][..|s| - 3];
      }
    } else if |s| > 1 {
      LastSpaceGoes(s[1..], quoted != (s[0] == '"'));
      assert front[1..] == s[1..][..|s| - 2];
    }
  }

  lemma {:induction false} StripRightIsClosed(s: string)
    requires ClosedOrCut(s, false)
    ensures ClosedOrCut(StripRight(s), false)
    decreases |s|
  {
    if s != "" && IsSpace(s[|s| - 1]) {
      LastSpaceGoes(s, false);
      StripRightIsClosed(s[..|s| - 1]);
    }
  }

  lemma {:induction false} StripIsClosed(s: string)
    requires ClosedOrCut(s, false)
    ensures ClosedOrCut(Strip(s), false)
  {
    StripLeftIsClosed(s);
    StripRightIsClosed(StripLeft(s));
  }

  lemma {:induction false} StrippedLeft(s: string)
    ensures StripLeft(s) == "" || !IsSpace(StripLeft(s)[0])
    ensures forall c :: c in s ==> IsSpace(c) || c in StripLeft(s)
  {
    if s != "" && IsSpace(s[0]) {
      StrippedLeft(s[1..]);
      assert forall c :: c in s ==> c == s[0] || c in s[1..];
    }
  }

  lemma {:induction false} StrippedRight(s: string)
    ensures StripRight(s) == "" || (!IsSpace(StripRight(s)[|StripRight(s)| - 1]) && StripRight(s)[0] == s[0])
    ensures forall c :: c in s ==> IsSpace(c) || c in StripRight(s)
    decreases |s|
  {
    if s != "" && IsSpace(s[|s| - 1]) {
      StrippedRight(s[..|s| - 1]);
      assert forall c :: c in s ==> c == s[|s| - 1] || c in s[..|s| - 1];
    }
  }

  lemma {:induction false} StrippedIsBare(s: string)
    ensures Bare(Strip(s)) && forall c :: c in s ==> IsSpace(c) || c in Strip(s)
  {
    StrippedLeft(s);
    StrippedRight(StripLeft(s));
  }

  lemma {:induction false} StrippedTokensAreClosed(tokens: seq<string>)
    requires tokens != [] && AllClosed(tokens, false)
    ensures forall token :: token in StripAll(tokens) ==> ClosedOrCut(token, false)
    decreases |tokens|
  {
    ClosedIsClosedOrCutOf(tokens);
    StripIsClosed(tokens[0]);
    if |tokens| > 1 {
      StrippedTokensAreClosed(tokens[1..]);
    }
  }

  lemma {:induction false} ClosedIsClosedOrCutOf(tokens: seq<string>)
    requires tokens != [] && AllClosed(tokens, false)
    ensures ClosedOrCut(tokens[0], false)
  {
    if |tokens| > 1 {
      ClosedIsClosedOrCut(tokens[0], false);
    }
  }

  lemma {:induction false} NameBeforeColon(token: string)
    requires IsName(Key(token)) && Position(':', token) < |token|
    ensures token == token[..Position(':', token)] + ":" + token[Position(':', token) + 1..]
    ensures forall c :: c in token[..Position(':', token)] + ":" ==> !Escapable(c)
  {
    var i := Position(':', token);
    assert token == token[..i] + [token[i]] + token[i + 1..];
    StrippedIsBare(token[..i]);
    forall c | c in token[..i] + ":" ensures !Escapable(c) {
      assert c in token[..i] || c == ':';
    }
  }

  // The value of a named option is as closed as its token.
  lemma {:induction false} ValueIsClosed(token: string)
    requires IsName(Key(token)) && ClosedOrCut(token, false)
    ensures Bare(Value(token)) && ClosedOrCut(Value(token), false)
  {
    var i := Position(':', token);
    if i < |token| {
      NameBeforeColon(token);
      PlainPasses(token[..i] + ":", token[i + 1..], false);
      StrippedIsBare(token[i + 1..]);
      StripIsClosed(token[i + 1..]);
    }
  }

  lemma {:induction false} ShortDigitsSpell(digits: string)
    requires ShortDigits(digits)
    ensures |Spelled(Decimal(digits))| <= 10
  {
    var zeros := DigitsAreSpelled(digits);
  }

  lemma {:induction false} ReadNumberIsShort(value: string, negative: bool)
    requires NumberOf(value, negative).Ok?
    ensures |Spelled(Magnitude(NumberOf(value, negative).value))| <= 10
  {
    var digits := if value[0] == '-' then value[1..] else value;
    ShortDigitsSpell(digits);
    assert Magnitude(NumberOf(value, negative).value) == Decimal(digits);
  }

  lemma {:induction false} ReadDsizeIsWritable(value: string)
    requires DsizeOf(value).Ok?
    ensures WritableDsize(DsizeOf(value).value)
  {
    var t := AcceptedDsizeRenders(value);
    RenderedDsizeReads(t);
    match t
    case BoundText(_, _, digits) => ShortDigitsSpell(digits);
    case RangeText(low, _, _, high) =>
      ShortDigitsSpell(low);
      ShortDigitsSpell(high);
    case ExactText(digits) => ShortDigitsSpell(digits);
  }

  // Every accepted value has a text.
  lemma {:induction false} ReadValueIsPrintable(option: SingleOption, value: string)
    requires ValueOf(option, value).Ok?
    requires option == Classtype ==> Bare(value) && ClosedOrCut(value, false)
    ensures Printable(option, ValueOf(option, value).value)
  {
    AcceptedValueIsTyped(option, value);
    match option
    case Msg =>
    case Classtype =>
    case FlowCheck =>
    case FlagsCheck =>
    case DsizeCheck => ReadDsizeIsWritable(value);
    case _ => ReadNumberIsShort(value, false);
  }

  lemma {:induction false} ClasstypeKey(key: string)
    requires KeywordOf(key) == Single(Classtype)
    ensures IsName(key)
  {
    assert key == "classtype";
  }

  // A single option of a split text has a value with a text.
  lemma {:induction false} TokenIsPrintable(token: string, option: SingleOption)
    requires ClosedOrCut(token, false) && PieceOf(token).kind == Single(option) && ValueOf(option, Value(token)).Ok?
    ensures Printable(option, ValueOf(option, Value(token)).value)
  {
    if option == Classtype {
      ClasstypeKey(Key(token));
      ValueIsClosed(token);
    }
    ReadValueIsPrintable(option, Value(token));
  }

  lemma {:induction false} ReadingIsPrintable(tokens: seq<string>, p: Parsed)
    requires IsReading(Pieces(tokens), p) && forall token :: token in tokens ==> ClosedOrCut(token, false)
    ensures AllPrintable(p.values)
  {
    var pieces := Pieces(tokens);
    forall option | option in p.values ensures Printable(option, p.values[option]) {
      assert FromSingle(pieces, option);
      var i :| 0 <= i < |pieces| && pieces[i].kind == Single(option);
      assert RuleOptions.Stands(pieces, i, p) && tokens[i] in tokens;
      TokenIsPrintable(tokens[i], option);
    }
  }

  lemma {:induction false} SetModifierIsPrintable(m: Modifier, value: string, n: int)
    requires Sets(m, value, n)
    ensures PrintableModifier(m, n)
  {
    if m != Nocase {
      ReadNumberIsShort(value, m == Distance);
    }
  }

  lemma {:induction false} ReadModifiersArePrintable(pieces: seq<Piece>, p: Parsed, j: nat, m: Modifier)
    requires IsReading(pieces, p) && j < |p.drafts| && m in p.drafts[j].modifiers
    ensures PrintableModifier(m, p.drafts[j].modifiers[m])
  {
    assert FromModifier(pieces, j, m);
    var i :| 0 <= i < |pieces| && pieces[i].kind == Modifies(m) && CountContents(pieces[..i]) == j + 1;
    ModifierAgrees(pieces, i, p, p, j, m);
    SetModifierIsPrintable(m, pieces[i].value, p.drafts[j].modifiers[m]);
  }

  lemma {:induction false} ReadTextIsWritten(pieces: seq<Piece>, p: Parsed, j: nat) returns (items: seq<Item>)
    requires IsReading(pieces, p) && j < |p.drafts|
    ensures AllLegal(items) && RenderAll(items) == p.drafts[j].text && MeaningAll(items) == p.drafts[j].pattern
  {
    var i := ContentAt(pieces, j);
    assert RuleOptions.Stands(pieces, i, p);
    items := ReadContentIsWritten(pieces[i].value);
    WrittenItemsRead(pieces[i].value, items);
  }

  lemma {:induction false} FinishedModifiers(d: Draft, c: ContentMatch.Content, m: Modifier)
    requires Finished(d, c) && ModifierIn(c, m).Some?
    requires forall k :: k in d.modifiers ==> PrintableModifier(k, d.modifiers[k])
    ensures PrintableModifier(m, ModifierIn(c, m).value)
  {
    assert m in d.modifiers && PrintableModifier(m, d.modifiers[m]);
  }

  lemma {:induction false} ReadContentIsPrintable(pieces: seq<Piece>, p: Parsed, j: nat, c: ContentMatch.Content)
    requires IsReading(pieces, p) && j < |p.drafts| && Finished(p.drafts[j], c) && Usable(c)
    ensures PrintableContent(c)
  {
    var items := ReadTextIsWritten(pieces, p, j);
    forall m | m in p.drafts[j].modifiers ensures PrintableModifier(m, p.drafts[j].modifiers[m]) {
      ReadModifiersArePrintable(pieces, p, j, m);
    }
    forall m | ModifierIn(c, m).Some? ensures PrintableModifier(m, ModifierIn(c, m).value) {
      FinishedModifiers(p.drafts[j], c, m);
    }
  }

  lemma {:induction false} RevisionIsPrintable()
    ensures Printable(Rev, Number(1))
  {
    SpelledGrows(0, 1);
  }

  // Options that are accepted can be printed.
  lemma {:induction false} AcceptedIsPrintable(text: string)
    requires OptionsOf(text).Ok?
    ensures PrintableOptions(OptionsOf(text).value)
  {
    var o := OptionsOf(text).value;
    var tokens, p := AcceptedTokensTell(text);
    StrippedTokensAreClosed(tokens);
    ReadingIsPrintable(StripAll(tokens), p);
    RevisionIsPrintable();
    forall c | c in o.contents ensures PrintableContent(c) {
      var j :| 0 <= j < |o.contents| && o.contents[j] == c;
      ReadContentIsPrintable(Pieces(StripAll(tokens)), p, j, c);
    }
  }

  // Every accepted text has a printed form that reads as the same options.
  lemma {:induction false} AcceptedOptionsPrint(text: string)
    requires OptionsOf(text).Ok?
    ensures PrintableOptions(OptionsOf(text).value) && OptionsOf(Printed(OptionsOf(text).value)) == OptionsOf(text)
  {
    AcceptedIsPrintable(text);
    PrintedOptionsRead(OptionsOf(text).value);
  }
}
