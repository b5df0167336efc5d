// Removing dot segments from a request path: the segment stack against the buffers of section 5.2.4 of RFC 3986.
module DotSegments {
  import opened Base

  // ---------- Segments ----------

  // The pieces of a text between its slashes.
  function Split(s: string): (parts: seq<string>)
    ensures parts != [] && forall i :: 0 <= i < |parts| ==> '/' !in parts[i]
  {
    if s == "" then [""]
    else
      var rest := Split(s[1..]);
      if s[0] == '/' then [""] + rest else [[s[0]] + rest[0]] + rest[1..]
  }

  function Join(parts: seq<string>): string {
    if parts == [] then ""
    else if |parts| == 1 then parts[0]
    else parts[0] + "/" + Join(parts[1..])
  }

  // Every part with its slash before it.
  function Slashed(parts: seq<string>): string {
    if parts == [] then "" else Slashed(parts[..|parts| - 1]) + "/" + parts[|parts| - 1]
  }

  predicate NoSlashes(parts: seq<string>) { forall i :: 0 <= i < |parts| ==> '/' !in parts[i] }

  predicate IsDots(part: string) { part == "." || part == ".." }

  predicate NoDots(parts: seq<string>) { forall i :: 0 <= i < |parts| ==> !IsDots(parts[i]) }

  // The parts behind the first slash.
  function Segments(path: string): (segments: seq<string>)
    requires path != "" && path[0] == '/'
    ensures segments != [] && NoSlashes(segments)
  {
    Split(path)[1..]
  }

  lemma {:induction false} JoinSplit(s: string)
    ensures Join(Split(s)) == s
    decreases |s|
  {
    if s != "" {
      var rest := Split(s[1..]);
      JoinSplit(s[1..]);
      assert s == [s[0]] + s[1..];
      if s[0] == '/' {
        assert ([""] + rest)[1..] == rest;
      } else {
        assert Split(s)[1..] == rest[1..];
        if |rest| > 1 {
          assert ([s[0]] + rest[0]) + "/" + Join(rest[1..]) == [s[0]] + (rest[0] + "/" + Join(rest[1..]));
        }
      }
    }
  }

  lemma {:induction false} SplitPart(part: string, rest: string)
    requires '/' !in part
    ensures Split(part + "/" + rest) == [part] + Split(rest)
    decreases |part|
  {
    var s := part + "/" + rest;
    if part == "" {
      assert s[1..] == rest;
    } else {
      assert part[0] in part && s[0] == part[0] && s[1..] == part[1..] + "/" + rest;
      assert forall c :: c in part[1..] ==> c in part;
      SplitPart(part[1..], rest);
      assert [part[0]] + part[1..] == part;
    }
  }

  lemma {:induction false} SplitWhole(part: string)
    requires '/' !in part
    ensures Split(part) == [part]
    decreases |part|
  {
    if part != "" {
      assert part[0] in part && forall c :: c in part[1..] ==> c in part;
      SplitWhole(part[1..]);
      assert [part[0]] + part[1..] == part;
    }
  }

  lemma {:induction false} SplitJoin(parts: seq<string>)
    requires parts != [] && NoSlashes(parts)
    ensures Split(Join(parts)) == parts
    decreases |parts|
  {
    if |parts| == 1 {
      SplitWhole(parts[0]);
    } else {
      SplitPart(parts[0], Join(parts[1..]));
      SplitJoin(parts[1..]);
      assert parts == [parts[0]] + parts[1..];
    }
  }

  lemma {:induction false} SlashedIsJoin(parts: seq<string>)
    requires parts != []
    ensures Slashed(parts) == "/" + Join(parts)
    decreases |parts|
  {
    var front, last := parts[..|parts| - 1], parts[|parts| - 1];
    if front == [] {
      assert Slashed(front) == "" && "" + "/" == "/";
    } else {
      SlashedIsJoin(front);
      JoinLast(front, last);
      assert parts == front + [last];
      assert ("/" + Join(front)) + "/" + last == "/" + (Join(front) + "/" + last);
    }
  }

  lemma {:induction false} JoinLast(parts: seq<string>, last: string)
    requires parts != []
    ensures Join(parts + [last]) == Join(parts) + "/" + last
    decreases |parts|
  {
    var all := parts + [last];
    if |parts| == 1 {
      assert all[1..] == [last];
    } else {
      assert all[1..] == parts[1..] + [last];
      JoinLast(parts[1..], last);
    }
  }

  // ---------- The segment stack ----------

  function Popped(kept: seq<string>): seq<string> { if kept == [] then [] else kept[..|kept| - 1] }

  function Push(segment: string, kept: seq<string>): seq<string> {
    if segment == ".." then Popped(kept) else if segment == "." then kept else kept + [segment]
  }

  // The stack after the segments, closed by an empty segment when they end with a dot segment.
  function Normal(segments: seq<string>, kept: seq<string>): seq<string> {
    if segments == [] then kept
    else if |segments| == 1 && IsDots(segments[0]) then Push(segments[0], kept) + [""]
    else Normal(segments[1..], Push(segments[0], kept))
  }

  function Removed(path: string): string
    requires path != "" && path[0] == '/'
  {
    "/" + Join(Normal(Segments(path), []))
  }

  lemma {:induction false} OneSegment(segments: seq<string>, i: nat, kept: seq<string>)
    requires i < |segments|
    ensures i + 1 < |segments| || !IsDots(segments[i]) ==>
              Normal(segments[i..], kept) == Normal(segments[i + 1..], Push(segments[i], kept))
    ensures i + 1 == |segments| && IsDots(segments[i]) ==> Normal(segments[i..], kept) == Push(segments[i], kept) + [""]
  {
    assert segments[i..][1..] == segments[i + 1..];
  }

  method RemoveDotSegments(path: string) returns (r: string)
    requires path != "" && path[0] == '/'
    ensures r == Removed(path) == Rfc(path, "")
  {
    RemovedIsRfc(path);
    var segments := Segments(path);
    var kept: seq<string> := [];
    ghost var last := segments[|segments| - 1];
    ghost var normal := Normal(segments, []);
    assert segments[0..] == segments;
    for i := 0 to |segments|
      invariant i < |segments| ==> normal == Normal(segments[i..], kept)
      invariant i == |segments| ==> normal == kept + if IsDots(last) then [""] else []
    {
      var segment := segments[i];
      OneSegment(segments, i, kept);
      ghost var pushed := Push(segment, kept);
      if segment == ".." {
        if kept != [] {
          kept := kept[..|kept| - 1];
        }
      } else if segment != "." {
        kept := kept + [segment];
      }
      assert kept == pushed && kept + [] == kept;
    }
    assert kept + [] == kept;
    if segments[|segments| - 1] == "." || segments[|segments| - 1] == ".." {
      kept := kept + [""];
    }
    r := "/" + Join(kept);
  }

  // ---------- Section 5.2.4 of RFC 3986 ----------

  predicate StartsWith(s: string, prefix: string) { |s| >= |prefix| && s[..|prefix|] == prefix }

  function SlashIn(s: string): nat { if s == "" || s[0] == '/' then 0 else 1 + SlashIn(s[1..]) }

  // The end of the first segment, its slash included.
  function FirstEnd(input: string): (n: nat)
    requires input != ""
    ensures 1 <= n
  {
    1 + SlashIn(input[1..])
  }

  lemma {:induction false} SlashInBound(s: string)
    ensures SlashIn(s) <= |s|
    decreases |s|
  {
    if s != "" && s[0] != '/' {
      SlashInBound(s[1..]);
    }
  }

  // The output without its last segment and the slash before that.
  function WithoutLast(output: string): string {
    if output == "" then ""
    else if output[|output| - 1] == '/' then output[..|output| - 1]
    else WithoutLast(output[..|output| - 1])
  }

  // Steps 2A to 2E, in their order, until the input is empty.
  function Rfc(input: string, output: string): string
    decreases |input|
  {
    if input == "" then output
    else if StartsWith(input, "../") then Rfc(input[3..], output)
    else if StartsWith(input, "./") then Rfc(input[2..], output)
    else if StartsWith(input, "/./") then Rfc("/" + input[3..], output)
    else if input == "/." then Rfc("/", output)
    else if StartsWith(input, "/../") then Rfc("/" + input[4..], WithoutLast(output))
    else if input == "/.." then Rfc("/", WithoutLast(output))
    else if input == "." || input == ".." then Rfc("", output)
    else
      SlashInBound(input[1..]);
      var n := FirstEnd(input);
      Rfc(input[n..], output + input[..n])
  }

  lemma {:induction false} SlashInPart(part: string, rest: string)
    requires '/' !in part && (rest == "" || rest[0] == '/')
    ensures SlashIn(part + rest) == |part|
    decreases |part|
  {
    if part == "" {
      assert part + rest == rest;
    } else {
      assert part[0] in part && (part + rest)[1..] == part[1..] + rest;
      assert forall c :: c in part[1..] ==> c in part;
      SlashInPart(part[1..], rest);
    }
  }

  lemma {:induction false} WithoutLastPart(output: string, part: string)
    requires '/' !in part
    ensures WithoutLast(output + "/" + part) == output
    decreases |part|
  {
    var all := output + "/" + part;
    var n := |part| - 1;
    if part == "" {
      assert all[..|all| - 1] == output;
    } else {
      assert part[n] in part && all[|all| - 1] == part[n] && all[..|all| - 1] == output + "/" + part[..n];
      assert forall c :: c in part[..n] ==> c in part;
      WithoutLastPart(output, part[..n]);
    }
  }

  lemma {:induction false} WithoutLastSlashed(kept: seq<string>)
    requires NoSlashes(kept)
    ensures WithoutLast(Slashed(kept)) == Slashed(Popped(kept))
  {
    if kept != [] {
      WithoutLastPart(Slashed(Popped(kept)), kept[|kept| - 1]);
    }
  }

  lemma {:induction false} SlashedLast(kept: seq<string>, part: string)
    ensures Slashed(kept + [part]) == Slashed(kept) + "/" + part
  {
    assert (kept + [part])[..|kept|] == kept;
  }

  lemma {:induction false} RfcRoot(output: string)
    ensures Rfc("/", output) == output + "/"
  {
    assert "/"[1..] == "" && FirstEnd("/") == 1 && "/"[..1] == "/";
    assert Rfc("", output + "/") == output + "/";
  }

  // A segment that is no dot segment moves to the output.
  lemma {:induction false} RfcMoves(part: string, rest: string, output: string)
    requires '/' !in part && !IsDots(part) && (rest == "" || rest[0] == '/')
    ensures Rfc("/" + part + rest, output) == Rfc(rest, output + "/" + part)
  {
    var input := "/" + part + rest;
    assert input[1..] == part + rest;
    SlashInPart(part, rest);
    var n := FirstEnd(input);
    assert input[..n] == "/" + part && input[n..] == rest;
    assert output + ("/" + part) == output + "/" + part;
    NotADotStep(part, rest);
  }

  lemma {:induction false} NotADotStep(part: string, rest: string)
    requires '/' !in part && !IsDots(part) && (rest == "" || rest[0] == '/')
    ensures var input := "/" + part + rest;
            && !StartsWith(input, "../") && !StartsWith(input, "./") && input != "." && input != ".."
            && !StartsWith(input, "/./") && input != "/." && !StartsWith(input, "/../") && input != "/.."
  {
    var input := "/" + part + rest;
    assert input[0] == '/';
    SlashInPart(part, rest);
    assert input[1..] == part + rest && part == input[1..1 + |part|];
    assert |part| < |input| - 1 ==> input[1 + |part|] == '/';
    assert forall i :: 1 <= i <= |part| ==> input[i] == part[i - 1] && input[i] in part;
    assert |part| == 1 ==> part == [part[0]];
    assert |part| == 2 ==> part == [part[0], part[1]];
    assert |input| >= 4 ==> input[..4] == [input[0], input[1], input[2], input[3]];
  }

  // ---------- Both agree ----------

  lemma {:induction false} DotAtEnd(part: string, output: string)
    requires IsDots(part)
    ensures Rfc("/" + part, output) == (if part == "." then output else WithoutLast(output)) + "/"
  {
    var input := "/" + part;
    if part == "." {
      assert input == "/." && !StartsWith(input, "./");
      RfcRoot(output);
    } else {
      assert input == "/.." && !StartsWith(input, "./") && input[..3][2] == '.' && input[..3][0] == '/';
      RfcRoot(WithoutLast(output));
    }
  }

  lemma {:induction false} DotStep(rest: string, output: string)
    requires rest != "" && rest[0] == '/'
    ensures Rfc("/" + "." + rest, output) == Rfc(rest, output)
  {
    var input := "/" + "." + rest;
    assert input[..3] == "/./" && "/" + input[3..] == rest;
    assert input[0] == '/' && !StartsWith(input, "../") && !StartsWith(input, "./");
  }

  lemma {:induction false} DotsStep(rest: string, output: string)
    requires rest != "" && rest[0] == '/'
    ensures Rfc("/" + ".." + rest, output) == Rfc(rest, WithoutLast(output))
  {
    var input := "/" + ".." + rest;
    assert input[..4] == "/../" && "/" + input[4..] == rest;
    assert input[0] == '/' && input[2] == '.' && !StartsWith(input, "../") && !StartsWith(input, "./");
    assert !StartsWith(input, "/./") && input != "/.";
  }

  lemma {:induction false} LastSegment(part: string, kept: seq<string>)
    requires '/' !in part && NoSlashes(kept)
    ensures Rfc("/" + part, Slashed(kept)) == Slashed(if IsDots(part) then Push(part, kept) + [""] else kept + [part])
  {
    if IsDots(part) {
      WithoutLastSlashed(kept);
      DotAtEnd(part, Slashed(kept));
      SlashedLast(Push(part, kept), "");
    } else {
      assert "/" + part + "" == "/" + part;
      RfcMoves(part, "", Slashed(kept));
      SlashedLast(kept, part);
    }
  }

  lemma {:induction false} InnerSegment(part: string, rest: string, kept: seq<string>)
    requires '/' !in part && rest != "" && rest[0] == '/' && NoSlashes(kept)
    ensures Rfc("/" + part + rest, Slashed(kept)) == Rfc(rest, Slashed(Push(part, kept)))
  {
    if part == "." {
      DotStep(rest, Slashed(kept));
    } else if part == ".." {
      WithoutLastSlashed(kept);
      DotsStep(rest, Slashed(kept));
    } else {
      RfcMoves(part, rest, Slashed(kept));
      SlashedLast(kept, part);
    }
  }

  // The stack does to the segments what the buffers do to their text.
  lemma {:induction false} StackIsBuffers(segments: seq<string>, kept: seq<string>)
    requires segments != [] && NoSlashes(segments) && NoSlashes(kept)
    ensures Normal(segments, kept) != []
    ensures Rfc("/" + Join(segments), Slashed(kept)) == Slashed(Normal(segments, kept))
    decreases |segments|
  {
    var first, more := segments[0], segments[1..];
    if more == [] {
      LastSegment(first, kept);
    } else {
      var rest := "/" + Join(more);
      assert "/" + Join(segments) == "/" + first + rest;
      InnerSegment(first, rest, kept);
      StackIsBuffers(more, Push(first, kept));
    }
  }

  lemma {:induction false} SegmentsJoin(path: string)
    requires path != "" && path[0] == '/'
    ensures "/" + Join(Segments(path)) == path
  {
    JoinSplit(path[1..]);
    assert Split(path)[1..] == Split(path[1..]);
  }

  // For every path that starts with a slash, the result is that of section 5.2.4.
  lemma {:induction false} RemovedIsRfc(path: string)
    requires path != "" && path[0] == '/'
    ensures Removed(path) == Rfc(path, "")
  {
    SegmentsJoin(path);
    StackIsBuffers(Segments(path), []);
    SlashedIsJoin(Normal(Segments(path), []));
  }

  // ---------- The result ----------

  lemma {:induction false} NormalHasNoDots(segments: seq<string>, kept: seq<string>)
    requires segments != [] && NoSlashes(segments) && NoSlashes(kept) && NoDots(kept)
    ensures var normal := Normal(segments, kept); normal != [] && NoSlashes(normal) && NoDots(normal)
    decreases |segments|
  {
    if |segments| > 1 {
      NormalHasNoDots(segments[1..], Push(segments[0], kept));
    }
  }

  lemma {:induction false} NoDotsStays(segments: seq<string>, kept: seq<string>)
    requires NoDots(segments)
    ensures Normal(segments, kept) == kept + segments
    decreases |segments|
  {
    if segments == [] {
      assert kept + segments == kept;
    } else {
      NoDotsStays(segments[1..], kept + [segments[0]]);
      assert kept + [segments[0]] + segments[1..] == kept + segments;
    }
  }

  lemma {:induction false} SegmentsOfJoin(parts: seq<string>)
    requires parts != [] && NoSlashes(parts)
    ensures Segments("/" + Join(parts)) == parts
  {
    var path := "/" + Join(parts);
    assert path[1..] == Join(parts);
    SplitJoin(parts);
    assert Split(path) == [""] + parts;
  }

  // The result holds no dot segment, and a path is left unchanged exactly when it holds none itself: empty segments
  // and all others stay.
  lemma {:induction false} ResultHasNoDots(path: string)
    requires path != "" && path[0] == '/'
    ensures var r := Removed(path); r != "" && r[0] == '/' && NoDots(Segments(r))
    ensures Removed(path) == path <==> NoDots(Segments(path))
  {
    var segments := Segments(path);
    SegmentsJoin(path);
    NormalHasNoDots(segments, []);
    SegmentsOfJoin(Normal(segments, []));
    if NoDots(segments) {
      NoDotsStays(segments, []);
      assert [] + segments == segments;
    }
  }

  // Removing twice is removing once.
  lemma {:induction false} RemovedIsIdempotent(path: string)
    requires path != "" && path[0] == '/'
    ensures Removed(path)[0] == '/' && Removed(Removed(path)) == Removed(path)
  {
    ResultHasNoDots(path);
    ResultHasNoDots(Removed(path));
  }

  // ---------- The target of a request ----------

  // The path and the query of a target, when it is a text that starts with a slash.
  method PathAndQuery(target: Option<string>) returns (path: Option<string>, query: Option<string>)
    ensures path.Some? <==> target.Some? && target.value != "" && target.value[0] == '/'
    ensures path.None? ==> query.None?
    ensures path.Some? ==>
              var t := target.value;
              var i := Position('?', t);
              && path == Some(Rfc(t[..i], ""))
              && query == if i < |t| then Some(t[i + 1..]) else None
  {
    if target.None? || target.value == "" || target.value[0] != '/' {
      return None, None;
    }
    var t := target.value;
    var i := Position('?', t);
    var r := RemoveDotSegments(t[..i]);
    return Some(r), if i < |t| then Some(t[i + 1..]) else None;
  }
}
