// Cutting an SMTP message at its end marker and removing the dots that a sender adds (section 4.5.2 of RFC 5321).
module SmtpFrame {
  import opened Base

  const CR: Byte := 13
  const LF: Byte := 10
  const DOT: Byte := 46

  // CRLF, a dot and CRLF stand at an offset.
  predicate MarkerAt(data: Bytes, i: nat) {
    && i + 5 <= |data|
    && data[i] == CR && data[i + 1] == LF && data[i + 2] == DOT && data[i + 3] == CR && data[i + 4] == LF
  }

  // The first marker from an offset on.
  function FindEnd(data: Bytes, i: nat): (r: Option<nat>)
    ensures r.Some? ==> i <= r.value && MarkerAt(data, r.value) && forall k :: i <= k < r.value ==> !MarkerAt(data, k)
    ensures r.None? ==> forall k: nat :: i <= k ==> !MarkerAt(data, k)
    decreases |data| - i
  {
    if i + 5 > |data| then None else if MarkerAt(data, i) then Some(i) else FindEnd(data, i + 1)
  }

  // Two dots at the start of a line become one. A line starts at the beginning and after every line feed.
  function Unstuff(data: Bytes, start: bool): Bytes {
    if data == [] then []
    else if start && |data| >= 2 && data[0] == DOT && data[1] == DOT then [DOT] + Unstuff(data[2..], false)
    else [data[0]] + Unstuff(data[1..], data[0] == LF)
  }

  // The message before the first marker with its line end, and whether there is a marker.
  function Frame(data: Bytes): (Bytes, bool) {
    match FindEnd(data, 0)
    case Some(end) => (Unstuff(data[..end + 2], true), true)
    case None => (Unstuff(data, true), false)
  }

  // ---------- The sender ----------

  // A dot before every line that begins with a dot. For the sender a line starts at the beginning and after CRLF.
  function Stuff(message: Bytes, start: bool, cr: bool): Bytes {
    if message == [] then []
    else
      var c := message[0];
      (if start && c == DOT then [DOT] else []) + [c] + Stuff(message[1..], cr && c == LF, c == CR)
  }

  predicate EndsLine(message: Bytes) {
    |message| >= 2 && message[|message| - 2..] == [13, 10]
  }

  // What travels: the stuffed message, the end marker behind its last line end, and whatever follows.
  function Sent(message: Bytes, rest: Bytes): Bytes { Stuff(message, true, false) + [46, 13, 10] + rest }

  predicate BareLineFeed(message: Bytes, i: nat) {
    i < |message| && message[i] == LF && (i == 0 || message[i - 1] != CR)
  }

  // A line feed without carriage return, and two dots behind it.
  predicate LooseDots(message: Bytes, i: nat) {
    BareLineFeed(message, i) && i + 2 < |message| && message[i + 1] == DOT && message[i + 2] == DOT
  }

  // ---------- No marker inside a stuffed message ----------

  // In a stuffed text no dot that starts a line stands alone.
  predicate Doubled(s: Bytes, start: bool, cr: bool) {
    s == [] ||
    if start && s[0] == DOT then |s| >= 2 && s[1] == DOT && Doubled(s[2..], false, false)
    else Doubled(s[1..], cr && s[0] == LF, s[0] == CR)
  }

  lemma {:induction false} StuffDoubles(message: Bytes, start: bool, cr: bool)
    ensures Doubled(Stuff(message, start, cr), start, cr)
    decreases |message|
  {
    if message != [] {
      var c := message[0];
      var rest := Stuff(message[1..], cr && c == LF, c == CR);
      StuffDoubles(message[1..], cr && c == LF, c == CR);
      if start && c == DOT {
        assert Stuff(message, start, cr)[2..] == rest;
      } else {
        assert Stuff(message, start, cr) == [c] + rest;
      }
    }
  }

  // A dot behind CRLF in a doubled text is followed by a dot.
  lemma {:induction false} DoubledAfterLineEnd(s: Bytes, start: bool, cr: bool, i: nat)
    requires Doubled(s, start, cr) && i + 2 < |s| && s[i] == CR && s[i + 1] == LF && s[i + 2] == DOT
    ensures i + 3 < |s| && s[i + 3] == DOT
    decreases |s|
  {
    if start && s[0] == DOT {
      DoubledAfterLineEnd(s[2..], false, false, i - 2);
    } else if i > 0 {
      DoubledAfterLineEnd(s[1..], cr && s[0] == LF, s[0] == CR, i - 1);
    } else {
      assert s[1..][0] == LF && s[1..][1..] == s[2..] && s[2..][0] == DOT;
      assert Doubled(s[2..], true, false);
    }
  }

  lemma {:induction false} StuffKeepsLineEnd(message: Bytes, start: bool, cr: bool)
    requires EndsLine(message)
    ensures EndsLine(Stuff(message, start, cr))
    decreases |message|
  {
    var c := message[0];
    if |message| == 2 {
      assert message[1..] == [LF] && message[1..][1..] == [];
      assert Stuff([LF], false, true) == [LF];
      assert Stuff(message, start, cr) == [CR, LF];
    } else {
      StuffKeepsLineEnd(message[1..], cr && c == LF, c == CR);
    }
  }

  lemma {:induction false} NoMarkerInside(s: Bytes, tail: Bytes, k: nat)
    requires Doubled(s, true, false) && k + 2 < |s|
    ensures !MarkerAt(s + tail, k)
  {
    var sent := s + tail;
    if s[k] == CR && s[k + 1] == LF && s[k + 2] == DOT {
      DoubledAfterLineEnd(s, true, false, k);
      assert sent[k + 3] == DOT;
    }
  }

  // Whatever the message holds, the first marker is the one behind it.
  lemma {:induction false} FirstMarkerIsTheEnd(message: Bytes, rest: Bytes)
    requires EndsLine(message)
    ensures FindEnd(Sent(message, rest), 0) == Some(|Stuff(message, true, false)| - 2)
  {
    var s, sent := Stuff(message, true, false), Sent(message, rest);
    StuffDoubles(message, true, false);
    StuffKeepsLineEnd(message, true, false);
    var n := |s| - 2;
    forall k: nat | k < n ensures !MarkerAt(sent, k) {
      assert sent == s + ([DOT, CR, LF] + rest);
      NoMarkerInside(s, [DOT, CR, LF] + rest, k);
    }
    assert MarkerAt(sent, n);
    assert FindEnd(sent, 0).Some?;
  }

  // ---------- What comes back ----------

  predicate Loose(message: Bytes, start: bool, lf: bool, cr: bool) {
    || (lf && !start && |message| >= 2 && message[0] == DOT && message[1] == DOT)
    || (message != [] && Loose(message[1..], cr && message[0] == LF, message[0] == LF, message[0] == CR))
  }

  lemma {:induction false} StuffHead(message: Bytes, start: bool, cr: bool)
    requires message != []
    ensures var rest := Stuff(message[1..], cr && message[0] == LF, message[0] == CR);
            Stuff(message, start, cr) == if start && message[0] == DOT then [DOT, DOT] + rest else [message[0]] + rest
  {
  }

  lemma {:induction false} UnstuffHead(c: Byte, rest: Bytes, start: bool)
    requires !(start && c == DOT && rest != [] && rest[0] == DOT)
    ensures Unstuff([c] + rest, start) == [c] + Unstuff(rest, c == LF)
  {
    assert ([c] + rest)[1..] == rest;
  }

  lemma {:induction false} UnstuffDots(rest: Bytes)
    ensures Unstuff([DOT, DOT] + rest, true) == [DOT] + Unstuff(rest, false)
  {
    assert ([DOT, DOT] + rest)[2..] == rest;
  }

  // How a text that comes back compares with the message.
  predicate Returns(back: Bytes, message: Bytes, loose: bool) {
    && |back| <= |message|
    && (loose ==> |back| < |message|)
    && (!loose ==> back == message)
  }

  lemma {:induction false} ReturnsBehind(c: Byte, back: Bytes, tail: Bytes, loose: bool)
    requires Returns(back, tail, loose)
    ensures Returns([c] + back, [c] + tail, loose)
  {
  }

  lemma {:induction false} PlainDot(rest: Bytes)
    ensures Stuff([DOT] + rest, false, false) == [DOT] + Stuff(rest, false, false)
  {
    assert ([DOT] + rest)[1..] == rest;
  }

  lemma {:induction false} LooseHere(more: Bytes, back: Bytes)
    requires |back| <= |more| && back == Unstuff(Stuff(more, false, false), false)
    ensures |Unstuff(Stuff([DOT, DOT] + more, false, false), true)| < |more| + 2
  {
    var stuffed := Stuff(more, false, false);
    assert [DOT, DOT] + more == [DOT] + ([DOT] + more);
    PlainDot(more);
    PlainDot([DOT] + more);
    assert [DOT] + ([DOT] + stuffed) == [DOT, DOT] + stuffed;
    UnstuffDots(stuffed);
  }

  // Without loose dots nothing is lost. With them the text gets shorter.
  lemma {:induction false} UnstuffUndoesStuff(message: Bytes, start: bool, lf: bool, cr: bool)
    requires start ==> lf
    ensures Returns(Unstuff(Stuff(message, start, cr), lf), message, Loose(message, start, lf, cr))
    decreases |message|
  {
    if message != [] {
      var c, tail := message[0], message[1..];
      var nextStart := cr && c == LF;
      var rest := Stuff(tail, nextStart, c == CR);
      assert message == [c] + tail;
      if lf && !start && c == DOT && tail != [] && tail[0] == DOT {
        UnstuffUndoesStuff(tail[1..], false, false, false);
        assert message == [DOT, DOT] + tail[1..];
        LooseHere(tail[1..], Unstuff(Stuff(tail[1..], false, false), false));
        StuffHead(message, start, cr);
        StuffHead([DOT, DOT] + tail[1..], false, false);
      } else {
        StuffHead(message, start, cr);
        UnstuffUndoesStuff(tail, nextStart, c == LF, c == CR);
        ReturnsBehind(c, Unstuff(rest, c == LF), tail, Loose(tail, nextStart, c == LF, c == CR));
        if start && c == DOT {
          UnstuffDots(rest);
        } else {
          if tail != [] {
            StuffHead(tail, nextStart, c == CR);
          }
          UnstuffHead(c, rest, lf);
        }
      }
    }
  }

  lemma {:induction false} LooseIsLooseDots(message: Bytes, start: bool, lf: bool, cr: bool)
    ensures Loose(message, start, lf, cr) <==>
              || (lf && !start && |message| >= 2 && message[0] == DOT && message[1] == DOT)
              || (|message| >= 3 && message[0] == LF && !cr && message[1] == DOT && message[2] == DOT)
              || exists i :: 0 < i && LooseDots(message, i)
    decreases |message|
  {
    if message != [] {
      var tail := message[1..];
      LooseIsLooseDots(tail, cr && message[0] == LF, message[0] == LF, message[0] == CR);
      forall i | 0 < i && LooseDots(tail, i) ensures LooseDots(message, i + 1) {
        assert tail[i - 1] == message[i];
      }
      forall i | 1 < i && LooseDots(message, i) ensures LooseDots(tail, i - 1) {
        assert tail[i - 2] == message[i - 1];
      }
      assert LooseDots(message, 1)
             <==> |tail| >= 3 && tail[0] == LF && message[0] != CR && tail[1] == DOT && tail[2] == DOT;
    }
  }

  // A non-empty message comes back whole exactly when no line feed in it lacks its carriage return and has two dots
  // behind it. The end is found in any case.
  lemma {:induction false} FrameUndoesSent(message: Bytes, rest: Bytes)
    requires EndsLine(message)
    ensures Frame(Sent(message, rest)).1
    ensures Frame(Sent(message, rest)) == (message, true) <==> forall i :: !LooseDots(message, i)
  {
    var s := Stuff(message, true, false);
    FirstMarkerIsTheEnd(message, rest);
    assert Sent(message, rest)[..|s|] == s;
    UnstuffUndoesStuff(message, true, true, false);
    LooseIsLooseDots(message, true, true, false);
    assert LooseDots(message, 0) ==> message[0] == LF && message[1] == DOT && message[2] == DOT;
  }

  // A letter, a bare line feed and two dots: a message that loses a dot.
  lemma {:induction false} BareLineFeedLosesADot(message: Bytes, rest: Bytes)
    requires message == [65, LF, DOT, DOT, CR, LF]
    ensures Frame(Sent(message, rest)).1 && Frame(Sent(message, rest)).0 != message
  {
    assert LooseDots(message, 1);
    FrameUndoesSent(message, rest);
  }

  // The trailing bytes begin with a dot and CRLF, or hold an end marker of their own.
  ghost predicate EndsLater(rest: Bytes) {
    [DOT, CR, LF] <= rest || exists k: nat :: MarkerAt(rest, k)
  }

  lemma {:induction false} EmptyMarkers(rest: Bytes, i: nat)
    ensures MarkerAt([DOT, CR, LF] + rest, i)
            <==> (i == 1 && [DOT, CR, LF] <= rest) || (i >= 3 && MarkerAt(rest, i - 3))
  {
    var sent := [DOT, CR, LF] + rest;
    assert sent[0] == DOT && sent[1] == CR && sent[2] == LF;
    assert forall j :: 3 <= j < |sent| ==> sent[j] == rest[j - 3];
    if |rest| >= 3 {
      assert rest[..3] == [rest[0], rest[1], rest[2]];
      assert [DOT, CR, LF] <= rest <==> rest[..3] == [DOT, CR, LF];
    }
  }

  lemma {:induction false} UnstuffKeepsLineEnd(rest: Bytes)
    ensures [DOT, CR, LF] <= Unstuff([DOT, CR, LF] + rest, true)
  {
    assert [DOT, CR, LF] + rest == [DOT] + ([CR] + ([LF] + rest));
    UnstuffHead(LF, rest, false);
    UnstuffHead(CR, [LF] + rest, false);
    UnstuffHead(DOT, [CR] + ([LF] + rest), true);
  }

  lemma {:induction false} EmptyMarkersAll(rest: Bytes)
    ensures (exists i: nat :: MarkerAt([DOT, CR, LF] + rest, i)) <==> EndsLater(rest)
  {
    if i: nat :| MarkerAt([DOT, CR, LF] + rest, i) {
      EmptyMarkers(rest, i);
    }
    if k: nat :| MarkerAt(rest, k) {
      EmptyMarkers(rest, k + 3);
    }
    EmptyMarkers(rest, 1);
  }

  lemma {:induction false} CutKeepsMarkerBytes(rest: Bytes, end: nat)
    requires MarkerAt([DOT, CR, LF] + rest, end)
    ensures [DOT, CR, LF] <= Unstuff(([DOT, CR, LF] + rest)[..end + 2], true)
  {
    EmptyMarkers(rest, end);
    var sent := [DOT, CR, LF] + rest;
    assert sent[..end + 2] == [DOT, CR, LF] + sent[3..end + 2];
    UnstuffKeepsLineEnd(sent[3..end + 2]);
  }

  // An empty message never comes back, because no line end stands before its marker: whatever follows it, the bytes of
  // the marker come first in what is returned, and an end is found exactly when the bytes behind it bring one.
  lemma {:induction false} EmptyMessageNeverReturns(rest: Bytes)
    ensures [DOT, CR, LF] <= Frame(Sent([], rest)).0
    ensures Frame(Sent([], rest)).1 <==> EndsLater(rest)
  {
    var sent := [DOT, CR, LF] + rest;
    assert Stuff([], true, false) == [] && Sent([], rest) == sent;
    EmptyMarkersAll(rest);
    match FindEnd(sent, 0)
    case None => UnstuffKeepsLineEnd(rest);
    case Some(end) => CutKeepsMarkerBytes(rest, end);
  }
}
