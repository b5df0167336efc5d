// Reading the lines of an events file in bounded chunks, against the split of the whole file at its line feeds.
module LineReader {
  import opened Base

  const LF := 10
  const CR := 13
  const DISCARD_CHUNK_BYTES := 65536
  const UTF8_BOM: Bytes := [0xEF, 0xBB, 0xBF]

  // A line to be parsed, or the mark of one that is too long, with its number.
  datatype Entry = Line(number: nat, content: Bytes) | TooLong(number: nat)

  predicate EndsWith(s: Bytes, b: Byte) { s != [] && s[|s| - 1] == b }

  function Without(s: Bytes, b: Byte): Bytes { if EndsWith(s, b) then s[..|s| - 1] else s }

  // The content of a line: without one line feed and one carriage return.
  function Content(line: Bytes): Bytes { Without(Without(line, LF), CR) }

  function WithoutBom(s: Bytes): Bytes { if |s| >= 3 && s[..3] == UTF8_BOM then s[3..] else s }

  predicate IsBlank(s: Bytes) { forall i :: 0 <= i < |s| ==> IsSpaceByte(s[i]) }

  // ---------- The whole file ----------

  function EndOfLine(data: Bytes, p: nat): (e: nat)
    requires p <= |data|
    ensures p <= e <= |data| && (p < |data| ==> p < e)
    ensures forall i :: p <= i < e - 1 ==> data[i] != LF
    ensures e < |data| ==> p < e && data[e - 1] == LF
    decreases |data| - p
  {
    if p == |data| then p else if data[p] == LF then p + 1 else EndOfLine(data, p + 1)
  }

  // The lines from a position, each with its line feed.
  function LinesFrom(data: Bytes, p: nat): seq<Bytes>
    requires p <= |data|
    decreases |data| - p
  {
    if p == |data| then [] else [data[p..EndOfLine(data, p)]] + LinesFrom(data, EndOfLine(data, p))
  }

  function Lines(data: Bytes): seq<Bytes> { LinesFrom(data, 0) }

  // What one line gives: a mark when its content is over the limit, nothing when it is blank, and else its content.
  // Only the first line may begin with a byte order mark.
  function EntryOf(line: Bytes, number: nat, limit: nat): (e: Option<Entry>)
    ensures e.Some? ==> e.value.number == number
  {
    Judged(Content(line), number, limit)
  }

  function Judged(content: Bytes, number: nat, limit: nat): (e: Option<Entry>)
    ensures e.Some? ==> e.value.number == number
  {
    if |content| > limit then Some(TooLong(number))
    else
      var text := if number == 1 then WithoutBom(content) else content;
      if IsBlank(text) then None else Some(Line(number, text))
  }

  function Entries(lines: seq<Bytes>, before: nat, limit: nat): seq<Entry> {
    if lines == [] then []
    else AsList(EntryOf(lines[0], before + 1, limit)) + Entries(lines[1..], before + 1, limit)
  }

  function AsList<T>(o: Option<T>): seq<T> { if o.Some? then [o.value] else [] }

  // ---------- The reader ----------

  class ByteFile {
    const data: Bytes
    var position: nat

    constructor (data: Bytes)
      ensures this.data == data && position == 0
    {
      this.data := data;
      position := 0;
    }

    // At most so many bytes, up to the end of the line. Nothing at the end of the file.
    method ReadLine(size: nat) returns (chunk: Bytes)
      requires position <= |data|
      modifies this
      ensures old(position) <= position <= |data|
      ensures position == Min(EndOfLine(data, old(position)), old(position) + size)
      ensures chunk == data[old(position)..position]
    {
      var start := position;
      while position < |data| && position < start + size && (position == start || data[position - 1] != LF)
        invariant start <= position <= |data| && position <= start + size
        invariant position > start ==>
                    EndOfLine(data, start) == if data[position - 1] == LF then position else EndOfLine(data, position)
        decreases |data| - position
      {
        position := position + 1;
      }
      chunk := data[start..position];
    }
  }

  lemma {:induction false} EndFromMiddle(data: Bytes, p: nat, q: nat)
    requires p < q <= |data| && q <= EndOfLine(data, p) && data[q - 1] != LF
    ensures EndOfLine(data, q) == EndOfLine(data, p)
    decreases q - p
  {
    if p + 1 < q {
      EndFromMiddle(data, p + 1, q);
    }
  }

  // Moves the cursor behind the line whose first chunk held no line feed.
  method SkipLine(file: ByteFile, first: Bytes)
    requires file.position <= |file.data| && first != [] && !EndsWith(first, LF)
    modifies file
    ensures file.position == EndOfLine(file.data, old(file.position))
  {
    var chunk := first;
    while chunk != [] && !EndsWith(chunk, LF)
      invariant file.position <= |file.data|
      invariant if chunk != [] && !EndsWith(chunk, LF)
                then EndOfLine(file.data, file.position) == EndOfLine(file.data, old(file.position))
                else file.position == EndOfLine(file.data, old(file.position))
      decreases |file.data| - file.position, |chunk|
    {
      ghost var start := file.position;
      chunk := file.ReadLine(DISCARD_CHUNK_BYTES);
      if chunk != [] && !EndsWith(chunk, LF) {
        EndFromMiddle(file.data, start, file.position);
      }
    }
  }

  // The content of the line of which a chunk was read, or None when it is too long. The rest of the line is gone then.
  method ReadContent(file: ByteFile, chunk: Bytes, limit: nat, ghost start: nat) returns (content: Option<Bytes>)
    requires start < |file.data| && file.position == Min(EndOfLine(file.data, start), start + limit + 2)
    requires chunk == file.data[start..file.position]
    modifies file
    ensures file.position == EndOfLine(file.data, start)
    ensures var line := file.data[start..EndOfLine(file.data, start)];
            content == if |Content(line)| > limit then None else Some(Content(line))
  {
    if !EndsWith(chunk, LF) && |chunk| == limit + 2 {
      EndFromMiddle(file.data, start, file.position);
      SkipLine(file, chunk);
      return None;
    }
    assert EndsWith(chunk, LF) ==> file.data[file.position - 1] == LF;
    var c := Without(Without(chunk, LF), CR);
    if |c| > limit {
      return None;
    }
    return Some(c);
  }

  // What the lines from a position still give.
  ghost predicate Continues(data: Bytes, p: nat, number: nat, limit: nat, entries: seq<Entry>, whole: seq<Entry>) {
    p <= |data| && whole == entries + Entries(LinesFrom(data, p), number, limit)
  }

  lemma {:induction false} FirstLine(data: Bytes, limit: nat)
    ensures Continues(data, 0, 0, limit, [], Entries(Lines(data), 0, limit))
  {
    assert [] + Entries(Lines(data), 0, limit) == Entries(Lines(data), 0, limit);
  }

  lemma {:induction false} NoMoreLines(data: Bytes, number: nat, limit: nat, entries: seq<Entry>, whole: seq<Entry>)
    requires Continues(data, |data|, number, limit, entries, whole)
    ensures whole == entries
  {
    assert entries + [] == entries;
  }

  lemma {:induction false} NextLine(data: Bytes, p: nat, number: nat, limit: nat, entries: seq<Entry>,
                                    whole: seq<Entry>)
    requires p < |data| && Continues(data, p, number, limit, entries, whole)
    ensures var e := EndOfLine(data, p);
            Continues(data, e, number + 1, limit, entries + AsList(EntryOf(data[p..e], number + 1, limit)), whole)
  {
    var e := EndOfLine(data, p);
    var lines, more := LinesFrom(data, p), Entries(LinesFrom(data, e), number + 1, limit);
    var first := AsList(EntryOf(data[p..e], number + 1, limit));
    assert lines[0] == data[p..e] && lines[1..] == LinesFrom(data, e);
    assert entries + (first + more) == (entries + first) + more;
  }

  // What a line gives, once a chunk of it was read.
  method ReadEntry(file: ByteFile, chunk: Bytes, number: nat, limit: nat, ghost start: nat)
    returns (entry: Option<Entry>)
    requires start < |file.data| && file.position == Min(EndOfLine(file.data, start), start + limit + 2)
    requires chunk == file.data[start..file.position]
    modifies file
    ensures file.position == EndOfLine(file.data, start)
    ensures entry == EntryOf(file.data[start..EndOfLine(file.data, start)], number, limit)
  {
    var content := ReadContent(file, chunk, limit, start);
    if content.None? {
      return Some(TooLong(number));
    }
    var text := content.value;
    if number == 1 {
      text := WithoutBom(text);
    }
    if IsBlank(text) {
      return None;
    }
    return Some(Line(number, text));
  }

  // Every line of the file gives its entry, in order and under its number.
  method ReadEvents(file: ByteFile, limit: nat) returns (entries: seq<Entry>)
    requires file.position == 0
    modifies file
    ensures file.position == |file.data|
    ensures entries == Entries(Lines(file.data), 0, limit)
  {
    entries := [];
    var number: nat := 0;
    ghost var whole := Entries(Lines(file.data), 0, limit);
    FirstLine(file.data, limit);
    while true
      invariant Continues(file.data, file.position, number, limit, entries, whole)
      decreases |file.data| - file.position
    {
      ghost var start := file.position;
      var chunk := file.ReadLine(limit + 2);
      if chunk == [] {
        NoMoreLines(file.data, number, limit, entries, whole);
        return;
      }
      NextLine(file.data, start, number, limit, entries, whole);
      number := number + 1;
      var entry := ReadEntry(file, chunk, number, limit, start);
      entries := entries + AsList(entry);
    }
  }

  // ---------- What the lines and the entries are ----------

  function Concat(lines: seq<Bytes>): Bytes { if lines == [] then [] else lines[0] + Concat(lines[1..]) }

  predicate IsLine(line: Bytes) { line != [] && forall i :: 0 <= i < |line| - 1 ==> line[i] != LF }

  // A list of lines whose line feeds stand at their ends, and only the last of which may have none.
  predicate IsSplit(lines: seq<Bytes>) {
    forall i :: 0 <= i < |lines| ==> IsLine(lines[i]) && (i + 1 < |lines| ==> EndsWith(lines[i], LF))
  }

  lemma {:induction false} LinesFromSplit(data: Bytes, p: nat)
    requires p <= |data|
    ensures IsSplit(LinesFrom(data, p)) && Concat(LinesFrom(data, p)) == data[p..]
    decreases |data| - p
  {
    if p < |data| {
      var e := EndOfLine(data, p);
      LinesFromSplit(data, e);
      assert data[p..e] + data[e..] == data[p..];
    }
  }

  lemma {:induction false} ConcatHead(data: Bytes, p: nat, lines: seq<Bytes>)
    requires p <= |data| && lines != [] && Concat(lines) == data[p..]
    ensures var e := p + |lines[0]|; e <= |data| && data[p..e] == lines[0] && data[e..] == Concat(lines[1..])
  {
    var e := p + |lines[0]|;
    assert |data[p..]| == |lines[0]| + |Concat(lines[1..])|;
    assert data[p..e] == data[p..][..|lines[0]|] && data[e..] == data[p..][|lines[0]|..];
  }

  // The first line of a split is the first line of the file, and the others are a split of the rest.
  lemma {:induction false} SplitStep(data: Bytes, p: nat, lines: seq<Bytes>)
    requires p <= |data| && lines != [] && IsSplit(lines) && Concat(lines) == data[p..]
    ensures p < |data|
    ensures var e := EndOfLine(data, p);
            lines[0] == data[p..e] && IsSplit(lines[1..]) && Concat(lines[1..]) == data[e..]
  {
    ConcatHead(data, p, lines);
    LastByte(lines, data, p);
    EndIs(data, p, p + |lines[0]|);
  }

  lemma {:induction false} SplitFrom(data: Bytes, p: nat, lines: seq<Bytes>)
    requires p <= |data| && IsSplit(lines) && Concat(lines) == data[p..]
    ensures lines == LinesFrom(data, p)
    decreases |lines|
  {
    if lines != [] {
      SplitStep(data, p, lines);
      SplitFrom(data, EndOfLine(data, p), lines[1..]);
      assert lines == [lines[0]] + lines[1..];
    }
  }

  lemma {:induction false} LastByte(lines: seq<Bytes>, data: Bytes, p: nat)
    requires p <= |data| && lines != [] && IsSplit(lines) && Concat(lines) == data[p..]
    ensures var e := p + |lines[0]|; p < e <= |data| && IsLine(data[p..e]) && (e < |data| ==> data[e - 1] == LF)
  {
    var e := p + |lines[0]|;
    ConcatHead(data, p, lines);
    assert data[e - 1] == lines[0][|lines[0]| - 1];
    if |lines| == 1 {
      assert Concat(lines[1..]) == [];
    }
  }

  lemma {:induction false} EndIs(data: Bytes, p: nat, e: nat)
    requires p < e <= |data| && IsLine(data[p..e]) && (e < |data| ==> data[e - 1] == LF)
    ensures EndOfLine(data, p) == e
    decreases e - p
  {
    assert forall i :: p <= i < e - 1 ==> data[i] == data[p..e][i - p];
    if p + 1 < e {
      assert data[p + 1..e] == data[p..e][1..];
      EndIs(data, p + 1, e);
    }
  }

  // The lines of a file are the only list of lines that joins to it.
  lemma {:induction false} LinesAreTheSplit(data: Bytes, lines: seq<Bytes>)
    ensures lines == Lines(data) <==> IsSplit(lines) && Concat(lines) == data
  {
    LinesFromSplit(data, 0);
    assert data[0..] == data;
    if IsSplit(lines) && Concat(lines) == data {
      SplitFrom(data, 0, lines);
    }
  }

  // An entry speaks of the line that has its number.
  predicate Speaks(e: Entry, lines: seq<Bytes>, before: nat, limit: nat) {
    before < e.number <= before + |lines| && EntryOf(lines[e.number - before - 1], e.number, limit) == Some(e)
  }

  lemma {:induction false} EntriesSpeak(lines: seq<Bytes>, before: nat, limit: nat)
    ensures forall e :: e in Entries(lines, before, limit) ==> Speaks(e, lines, before, limit)
    decreases |lines|
  {
    if lines != [] {
      EntriesSpeak(lines[1..], before + 1, limit);
      var first, rest := EntryOf(lines[0], before + 1, limit), Entries(lines[1..], before + 1, limit);
      forall e | e in Entries(lines, before, limit) ensures Speaks(e, lines, before, limit) {
        if e in rest {
          assert Speaks(e, lines[1..], before + 1, limit);
          assert lines[1..][e.number - before - 2] == lines[e.number - before - 1];
        } else {
          assert first == Some(e);
        }
      }
    }
  }

  lemma {:induction false} LinesAreHeard(lines: seq<Bytes>, before: nat, limit: nat, i: nat)
    requires i < |lines|
    ensures var e := EntryOf(lines[i], before + 1 + i, limit); e.Some? ==> e.value in Entries(lines, before, limit)
    decreases |lines|
  {
    if i > 0 {
      LinesAreHeard(lines[1..], before + 1, limit, i - 1);
      assert lines[1..][i - 1] == lines[i];
    }
  }

  // Numbers over a bound, each over the one before.
  predicate Growing(entries: seq<Entry>, before: nat) {
    && (forall k :: 0 <= k < |entries| ==> entries[k].number > before)
    && forall k, m :: 0 <= k < m < |entries| ==> entries[k].number < entries[m].number
  }

  lemma {:induction false} NumbersGrow(lines: seq<Bytes>, before: nat, limit: nat)
    ensures Growing(Entries(lines, before, limit), before)
    decreases |lines|
  {
    if lines != [] {
      NumbersGrow(lines[1..], before + 1, limit);
      GrowingBefore(EntryOf(lines[0], before + 1, limit), Entries(lines[1..], before + 1, limit), before);
    }
  }

  lemma {:induction false} GrowingBefore(first: Option<Entry>, rest: seq<Entry>, before: nat)
    requires (first.Some? ==> first.value.number == before + 1) && Growing(rest, before + 1)
    ensures Growing(AsList(first) + rest, before)
  {
  }

  // Every line that gives an entry gives one, under its own number, and entries stand in the order of their lines.
  lemma {:induction false} EntriesAreTheLines(data: Bytes, limit: nat)
    ensures var lines, entries := Lines(data), Entries(Lines(data), 0, limit);
            && (forall e: Entry :: e in entries <==>
                  1 <= e.number <= |lines| && EntryOf(lines[e.number - 1], e.number, limit) == Some(e))
            && Growing(entries, 0)
  {
    var lines, entries := Lines(data), Entries(Lines(data), 0, limit);
    EntriesSpeak(lines, 0, limit);
    NumbersGrow(lines, 0, limit);
    forall e: Entry | 1 <= e.number <= |lines| && EntryOf(lines[e.number - 1], e.number, limit) == Some(e)
      ensures e in entries
    {
      LinesAreHeard(lines, 0, limit, e.number - 1);
    }
    forall e | e in entries ensures Speaks(e, lines, 0, limit) {
    }
  }

  // ---------- Writing lines ----------

  // A text that ends where its line is ended.
  predicate OneLine(text: Bytes) { 10 !in text && !EndsWith(text, 13) }

  predicate HoldsInk(text: Bytes) { exists i :: 0 <= i < |text| && text[i] !in {9, 10, 11, 12, 13, 32} }

  // A text that can stand on a line of its own: it has no line end of its own and is not blank.
  predicate Plain(text: Bytes) { OneLine(text) && HoldsInk(text) }

  predicate NoBom(text: Bytes) { !([0xEF, 0xBB, 0xBF] <= text) }

  function WithEnd(text: Bytes, crlf: bool): Bytes { if crlf then text + [13, 10] else text + [10] }

  function WrittenLines(texts: seq<Bytes>, crlf: bool): seq<Bytes> {
    if texts == [] then [] else [WithEnd(texts[0], crlf)] + WrittenLines(texts[1..], crlf)
  }

  function Numbered(texts: seq<Bytes>, before: nat): seq<Entry> {
    if texts == [] then [] else [Line(before + 1, texts[0])] + Numbered(texts[1..], before + 1)
  }

  predicate Fits(texts: seq<Bytes>, limit: nat) {
    forall i :: 0 <= i < |texts| ==> Plain(texts[i]) && |texts[i]| <= limit
  }

  lemma {:induction false} WithoutLast(text: Bytes, b: Byte)
    ensures Without(text + [b], b) == text
  {
    assert (text + [b])[..|text|] == text;
  }

  lemma {:induction false} EndIsRemoved(text: Bytes, crlf: bool)
    requires OneLine(text)
    ensures Content(WithEnd(text, crlf)) == text
  {
    if crlf {
      assert WithEnd(text, crlf) == text + [CR] + [LF];
      WithoutLast(text + [CR], LF);
      WithoutLast(text, CR);
    } else {
      WithoutLast(text, LF);
    }
  }

  lemma {:induction false} EndedIsLine(text: Bytes, crlf: bool)
    requires OneLine(text)
    ensures IsLine(WithEnd(text, crlf)) && EndsWith(WithEnd(text, crlf), LF)
  {
    var line := WithEnd(text, crlf);
    forall i | 0 <= i < |line| - 1 ensures line[i] != LF {
      assert i < |text| ==> line[i] == text[i] && text[i] in text;
    }
  }

  lemma {:induction false} InkIsNotBlank(text: Bytes)
    ensures HoldsInk(text) <==> !IsBlank(text)
  {
    if !IsBlank(text) {
      var i :| 0 <= i < |text| && !IsSpaceByte(text[i]);
      assert text[i] !in {9, 10, 11, 12, 13, 32};
    }
  }

  // A line with either end gives a mark when its text is over the limit, nothing when only white space is left behind a
  // byte order mark on line 1, and else what is left.
  lemma {:induction false} LineSaid(text: Bytes, crlf: bool, number: nat, limit: nat)
    requires OneLine(text)
    ensures var bom := number == 1 && [0xEF, 0xBB, 0xBF] <= text;
            var left := if bom then text[3..] else text;
            EntryOf(WithEnd(text, crlf), number, limit)
              == if |text| > limit then Some(TooLong(number)) else if HoldsInk(left) then Some(Line(number, left))
                else None
  {
    EndIsRemoved(text, crlf);
    InkIsNotBlank(text);
    if |text| >= 3 {
      InkIsNotBlank(text[3..]);
    }
  }

  lemma {:induction false} WrittenLinesAre(texts: seq<Bytes>, crlf: bool)
    ensures |WrittenLines(texts, crlf)| == |texts|
    ensures forall i :: 0 <= i < |texts| ==> WrittenLines(texts, crlf)[i] == WithEnd(texts[i], crlf)
    decreases |texts|
  {
    if texts != [] {
      WrittenLinesAre(texts[1..], crlf);
    }
  }

  lemma {:induction false} WrittenLinesSplit(texts: seq<Bytes>, crlf: bool, limit: nat)
    requires Fits(texts, limit)
    ensures IsSplit(WrittenLines(texts, crlf))
  {
    WrittenLinesAre(texts, crlf);
    forall i | 0 <= i < |texts| ensures IsLine(WithEnd(texts[i], crlf)) && EndsWith(WithEnd(texts[i], crlf), LF) {
      assert Plain(texts[i]);
      EndedIsLine(texts[i], crlf);
    }
  }

  // Each text would be read under its own number.
  ghost predicate EachReads(texts: seq<Bytes>, crlf: bool, before: nat, limit: nat) {
    forall i :: 0 <= i < |texts| ==>
      EntryOf(WithEnd(texts[i], crlf), before + i + 1, limit) == Some(Line(before + i + 1, texts[i]))
  }

  lemma {:induction false} WrittenEntries(texts: seq<Bytes>, crlf: bool, before: nat, limit: nat)
    requires EachReads(texts, crlf, before, limit)
    ensures Entries(WrittenLines(texts, crlf), before, limit) == Numbered(texts, before)
    decreases |texts|
  {
    if texts != [] {
      var more := texts[1..];
      assert forall i :: 0 <= i < |more| ==> more[i] == texts[i + 1];
      WrittenEntries(more, crlf, before + 1, limit);
      assert EntryOf(WithEnd(texts[0], crlf), before + 0 + 1, limit) == Some(Line(before + 0 + 1, texts[0]));
      EntriesStep(WithEnd(texts[0], crlf), WrittenLines(more, crlf), before, limit, Line(before + 1, texts[0]));
    }
  }

  lemma {:induction false} WrittenEntry(text: Bytes, crlf: bool, number: nat, limit: nat)
    requires Plain(text) && |text| <= limit && (number == 1 ==> NoBom(text))
    ensures EntryOf(WithEnd(text, crlf), number, limit) == Some(Line(number, text))
  {
    LineSaid(text, crlf, number, limit);
  }

  lemma {:induction false} EntriesStep(line: Bytes, lines: seq<Bytes>, before: nat, limit: nat, entry: Entry)
    requires EntryOf(line, before + 1, limit) == Some(entry)
    ensures Entries([line] + lines, before, limit) == [entry] + Entries(lines, before + 1, limit)
  {
    assert ([line] + lines)[1..] == lines;
  }

  // Texts written one to a line, with either line end, are read back in order under the numbers 1, 2, 3 and so on.
  lemma {:induction false} WrittenTextsReadBack(texts: seq<Bytes>, crlf: bool, limit: nat)
    requires Fits(texts, limit) && (texts != [] ==> NoBom(texts[0]))
    ensures Entries(Lines(Concat(WrittenLines(texts, crlf))), 0, limit) == Numbered(texts, 0)
  {
    WrittenLinesSplit(texts, crlf, limit);
    LinesAreTheSplit(Concat(WrittenLines(texts, crlf)), WrittenLines(texts, crlf));
    forall i | 0 <= i < |texts|
      ensures EntryOf(WithEnd(texts[i], crlf), 0 + i + 1, limit) == Some(Line(0 + i + 1, texts[i]))
    {
      WrittenEntry(texts[i], crlf, i + 1, limit);
    }
    WrittenEntries(texts, crlf, 0, limit);
  }
}
