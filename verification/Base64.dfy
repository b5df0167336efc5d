// Base64 (section 4 of RFC 4648) as the decoder of a mail body reads it: white space dropped, a cut tail tolerated.
module Base64 {
  import opened Base

  const PAD: Byte := 61

  // ---------- The alphabet ----------

  predicate IsLetter(b: Byte) { 65 <= b <= 90 || 97 <= b <= 122 || 48 <= b <= 57 || b == 43 || b == 47 }

  function Letter(v: nat): (b: Byte)
    requires v < 64
    ensures IsLetter(b) && Sextet(b) == v
    ensures v < 26 ==> b == 'A' as int + v
    ensures 26 <= v < 52 ==> b == 'a' as int + (v - 26)
    ensures 52 <= v < 62 ==> b == '0' as int + (v - 52)
    ensures v == 62 ==> b == '+' as int
    ensures v == 63 ==> b == '/' as int
  {
    if v < 26 then v + 65 else if v < 52 then v + 71 else if v < 62 then v - 4 else if v == 62 then 43 else 47
  }

  function Sextet(b: Byte): (v: nat)
    requires IsLetter(b)
    ensures v < 64
  {
    if 65 <= b <= 90 then b - 65
    else if 97 <= b <= 122 then b - 71
    else if 48 <= b <= 57 then b + 4
    else if b == 43 then 62 else 63
  }

  // No other byte is a letter.
  lemma {:induction false} LetterOfSextet(b: Byte)
    requires IsLetter(b)
    ensures Letter(Sextet(b)) == b
  {
  }

  predicate AllLetters(s: Bytes) { forall i :: 0 <= i < |s| ==> IsLetter(s[i]) }

  predicate AllPads(s: Bytes) { forall i :: 0 <= i < |s| ==> s[i] == PAD }

  predicate InAlphabet(s: Bytes) { forall i :: 0 <= i < |s| ==> IsLetter(s[i]) || s[i] == PAD }

  function Compact(data: Bytes): Bytes {
    if data == [] then [] else (if IsSpaceByte(data[0]) then [] else [data[0]]) + Compact(data[1..])
  }

  // ---------- Groups ----------

  // Four letters make three bytes, and the last two or three letters one or two. Spare bits are dropped.
  function Groups(body: Bytes): Bytes
    requires AllLetters(body) && |body| % 4 != 1
  {
    if |body| == 0 then []
    else
      var first := Sextet(body[0]) * 4 + Sextet(body[1]) / 16;
      if |body| == 2 then [first]
      else
        var second := Sextet(body[1]) % 16 * 16 + Sextet(body[2]) / 4;
        if |body| == 3 then [first, second]
        else [first, second, Sextet(body[2]) % 4 * 64 + Sextet(body[3])] + Groups(body[4..])
  }

  datatype Problem = InvalidCharacter | InvalidPadding | InvalidLength

  datatype Decoded = Decoded(data: Option<Bytes>, problems: seq<Problem>)

  function BodyEnd(s: Bytes): (n: nat)
    ensures n <= |s| && (forall i :: 0 <= i < n ==> s[i] != PAD) && (n < |s| ==> s[n] == PAD)
  {
    if s == [] || s[0] == PAD then 0 else 1 + BodyEnd(s[1..])
  }

  // The letters that can be decoded: a single last one is dropped.
  function Usable(body: Bytes): Bytes { if |body| % 4 == 1 then body[..|body| - 1] else body }

  // ---------- Well-formed text ----------

  // Whole groups of four, of which only the last two characters can be padding, the last one first.
  predicate WellFormed(s: Bytes) {
    && InAlphabet(s) && |s| % 4 == 0
    && (forall i :: 0 <= i < |s| - 2 ==> s[i] != PAD)
    && (s != [] && s[|s| - 2] == PAD ==> s[|s| - 1] == PAD)
  }

  // What is left when such a text is cut.
  ghost predicate CutOff(s: Bytes) { exists more :: WellFormed(s + more) }

  // A complete text must be well formed, and a cut one must have been.
  ghost predicate Sound(s: Bytes, complete: bool) { if complete then WellFormed(s) else CutOff(s) }

  predicate Padded(s: Bytes, n: nat)
    requires n < |s|
  {
    (n % 4 == 2 || n % 4 == 3) && AllPads(s[n + 1..]) && n % 4 + 1 + |s[n + 1..]| == 4
  }

  lemma {:induction false} WellFormedIs(s: Bytes)
    requires InAlphabet(s)
    ensures var n := BodyEnd(s); WellFormed(s) <==> if n < |s| then Padded(s, n) else n % 4 == 0
  {
    var n := BodyEnd(s);
    if n < |s| {
      assert forall i :: n < i < |s| ==> s[i] == s[n + 1..][i - n - 1];
    }
  }

  lemma {:induction false} LettersExtend(s: Bytes)
    requires AllLetters(s)
    ensures CutOff(s)
  {
    var more: Bytes := [65, 65, 65, 65][..(4 - |s| % 4) % 4];
    assert WellFormed(s + more);
  }

  lemma {:induction false} CutOffIs(s: Bytes)
    requires InAlphabet(s)
    ensures var n := BodyEnd(s); CutOff(s) <==> n == |s| || Padded(s, n) || (n % 4 == 2 && n + 1 == |s|)
  {
    var n := BodyEnd(s);
    if n == |s| {
      LettersExtend(s);
    } else if Padded(s, n) {
      WellFormedIs(s);
      assert s + [] == s;
      assert WellFormed(s + []);
    } else if n % 4 == 2 && n + 1 == |s| {
      assert WellFormed(s + [PAD]);
    }
    if n < |s| {
      forall more | WellFormed(s + more) ensures Padded(s, n) || (n % 4 == 2 && n + 1 == |s|) {
        NoCutOff(s, more);
      }
    }
  }

  // Where the padding of a text stands that can be completed.
  lemma {:induction false} CutPadding(s: Bytes, more: Bytes)
    requires BodyEnd(s) < |s| && WellFormed(s + more)
    ensures var n, size := BodyEnd(s), |s| + |more|;
            && size % 4 == 0 && size - 2 <= n && AllPads(s[n + 1..])
  {
    var n, whole := BodyEnd(s), s + more;
    assert whole[n] == s[n] == PAD;
    assert forall j :: n < j < |s| ==> whole[j] == s[j] == PAD;
  }

  lemma {:induction false} NoCutOff(s: Bytes, more: Bytes)
    requires BodyEnd(s) < |s| && WellFormed(s + more)
    ensures var n := BodyEnd(s); Padded(s, n) || (n % 4 == 2 && n + 1 == |s|)
  {
    CutPadding(s, more);
    var n, size := BodyEnd(s), |s| + |more|;
    assert n == size - 2 || n == size - 1;
    assert n % 4 == if n == size - 2 then 2 else 3;
  }

  lemma {:induction false} SoundIs(s: Bytes, complete: bool)
    requires InAlphabet(s)
    ensures var n := BodyEnd(s);
            Sound(s, complete) <==>
              if n < |s| then Padded(s, n) || (!complete && n % 4 == 2 && s[n + 1..] == []) else !complete || n % 4 == 0
  {
    if complete {
      WellFormedIs(s);
    } else {
      CutOffIs(s);
    }
  }

  // ---------- The decoder ----------

  // What the decoder promises: the bytes of the letters before the padding, and one problem at most, which is about
  // characters first, then about the padding, then about the length.
  ghost function Decode(data: Bytes, complete: bool): Decoded {
    var compact := Compact(data);
    if !InAlphabet(compact) then Decoded(None, [InvalidCharacter])
    else
      var n := BodyEnd(compact);
      Decoded(Some(Groups(Usable(compact[..n]))),
              if Sound(compact, complete) then []
              else if n == |compact| && n % 4 == 1 then [InvalidLength]
              else [InvalidPadding])
  }

  // The problems by the place of the padding.
  function ProblemsAt(s: Bytes, n: nat, complete: bool): seq<Problem>
    requires InAlphabet(s) && n == BodyEnd(s)
  {
    if n < |s| then
      if Padded(s, n) || (!complete && n % 4 == 2 && s[n + 1..] == []) then [] else [InvalidPadding]
    else if !complete || n % 4 == 0 then []
    else if n % 4 == 1 then [InvalidLength]
    else [InvalidPadding]
  }

  lemma {:induction false} DecodeIs(data: Bytes, complete: bool)
    requires InAlphabet(Compact(data))
    ensures var s := Compact(data);
            Decode(data, complete)
              == Decoded(Some(Groups(Usable(s[..BodyEnd(s)]))), ProblemsAt(s, BodyEnd(s), complete))
  {
    SoundIs(Compact(data), complete);
  }

  lemma {:induction false} BodyIsUsable(s: Bytes)
    requires InAlphabet(s)
    ensures var body := s[..BodyEnd(s)]; AllLetters(Usable(body)) && |Usable(body)| % 4 != 1
  {
  }

  // The problems as the remainder of the body and what stands behind it show them.
  lemma {:induction false} ProblemsAre(s: Bytes, complete: bool)
    requires InAlphabet(s)
    ensures var n := BodyEnd(s);
            var remainder, tail := n % 4, if n < |s| then s[n + 1..] else [];
            ProblemsAt(s, n, complete)
            == if n < |s| then
                 if || ((remainder == 2 || remainder == 3) && AllPads(tail) && remainder + 1 + |tail| == 4)
                    || (!complete && remainder == 2 && tail == [])
                 then []
                 else [InvalidPadding]
               else if remainder == 1 && complete then [InvalidLength]
               else if (remainder == 2 || remainder == 3) && complete then [InvalidPadding]
               else []
  {
  }

  method DecodeBase64(data: Bytes, complete: bool) returns (r: Decoded)
    ensures r == Decode(data, complete)
  {
    var compact := Compact(data);
    if !InAlphabet(compact) {
      return Decoded(None, [InvalidCharacter]);
    }
    DecodeIs(data, complete);
    BodyIsUsable(compact);
    ProblemsAre(compact, complete);
    var n := BodyEnd(compact);
    var body, equals := compact[..n], n < |compact|;
    var tail := if equals then compact[n + 1..] else [];
    var remainder := |body| % 4;
    var problems := [];
    if equals {
      var padded := (remainder == 2 || remainder == 3) && AllPads(tail) && remainder + 1 + |tail| == 4;
      var cutInsidePadding := !complete && remainder == 2 && tail == [];
      if !(padded || cutInsidePadding) {
        problems := problems + [InvalidPadding];
      }
    } else if remainder == 1 && complete {
      problems := problems + [InvalidLength];
    } else if (remainder == 2 || remainder == 3) && complete {
      problems := problems + [InvalidPadding];
    }
    var usable := if remainder == 1 then body[..|body| - 1] else body;
    assert usable == Usable(body);
    r := Decoded(Some(Groups(usable)), problems);
  }

  // ---------- The encoder ----------

  function Letters(x: Bytes): (s: Bytes)
    ensures AllLetters(s)
  {
    if |x| == 0 then []
    else if |x| == 1 then [Letter(x[0] / 4), Letter(x[0] % 4 * 16)]
    else if |x| == 2 then [Letter(x[0] / 4), Letter(x[0] % 4 * 16 + x[1] / 16), Letter(x[1] % 16 * 4)]
    else Group(x[0], x[1], x[2]) + Letters(x[3..])
  }

  function Group(a: Byte, b: Byte, c: Byte): (s: Bytes)
    ensures |s| == 4 && AllLetters(s)
  {
    [Letter(a / 4), Letter(a % 4 * 16 + b / 16), Letter(b % 16 * 4 + c / 64), Letter(c % 64)]
  }

  // Equals signs up to a whole group (section 4 of RFC 4648).
  function Padding(n: nat): Bytes { if n % 3 == 0 then [] else if n % 3 == 1 then [61, 61] else [61] }

  function Encode(x: Bytes): Bytes { Letters(x) + Padding(|x|) }

  // The whole bytes that so many letters hold.
  function WholeBytes(letters: nat): nat { letters / 4 * 3 + if letters % 4 == 0 then 0 else letters % 4 - 1 }

  // How many letters some bytes take.
  function LettersFor(n: nat): nat { n / 3 * 4 + if n % 3 == 0 then 0 else n % 3 + 1 }

  lemma {:induction false} LettersAre(x: Bytes)
    ensures |Letters(x)| == LettersFor(|x|)
    decreases |x|
  {
    if |x| >= 3 {
      LettersAre(x[3..]);
      ThreeMore(|x| - 3);
    }
  }

  lemma {:induction false} ThreeMore(n: nat)
    ensures LettersFor(n + 3) == LettersFor(n) + 4
  {
    assert (n + 3) / 3 == n / 3 + 1 && (n + 3) % 3 == n % 3;
  }

  lemma {:induction false} LettersHold(n: nat)
    ensures WholeBytes(LettersFor(n)) == n
    ensures LettersFor(n) % 4 == if n % 3 == 0 then 0 else n % 3 + 1
  {
    var more := if n % 3 == 0 then 0 else n % 3 + 1;
    assert LettersFor(n) == n / 3 * 4 + more && LettersFor(n) / 4 == n / 3;
  }

  lemma {:induction false} LettersCount(x: Bytes)
    ensures WholeBytes(|Letters(x)|) == |x|
    ensures |Letters(x)| % 4 == if |x| % 3 == 0 then 0 else |x| % 3 + 1
  {
    LettersAre(x);
    LettersHold(|x|);
  }

  lemma {:induction false} SixBits(a: Byte, b: Byte, c: Byte)
    ensures a / 4 * 4 + (a % 4 * 16 + b / 16) / 16 == a
    ensures (a % 4 * 16 + b / 16) % 16 * 16 + (b % 16 * 4 + c / 64) / 4 == b
    ensures (b % 16 * 4 + c / 64) % 4 * 64 + c % 64 == c
  {
    assert (a % 4 * 16 + b / 16) / 16 == a % 4 && (a % 4 * 16 + b / 16) % 16 == b / 16;
    assert (b % 16 * 4 + c / 64) / 4 == b % 16 && (b % 16 * 4 + c / 64) % 4 == c / 64;
  }

  lemma {:induction false} GroupDecodes(a: Byte, b: Byte, c: Byte, rest: Bytes)
    requires AllLetters(rest) && |rest| % 4 != 1
    ensures Groups(Group(a, b, c) + rest) == [a, b, c] + Groups(rest)
  {
    var all := Group(a, b, c) + rest;
    SixBits(a, b, c);
    assert all[4..] == rest;
    assert Sextet(all[0]) == a / 4 && Sextet(all[1]) == a % 4 * 16 + b / 16;
    assert Sextet(all[2]) == b % 16 * 4 + c / 64 && Sextet(all[3]) == c % 64;
  }

  lemma {:induction false} TwoLetters(a: Byte, b: Byte)
    ensures Groups(Group(a, b, 0)[..2]) == [a]
  {
    SixBits(a, b, 0);
  }

  lemma {:induction false} ThreeLetters(a: Byte, b: Byte, c: Byte)
    ensures Groups(Group(a, b, c)[..3]) == [a, b]
  {
    SixBits(a, b, c);
  }

  lemma {:induction false} TwoDecode(x: Bytes)
    requires |Letters(x)| >= 2 && x != []
    ensures Groups(Letters(x)[..2]) == x[..1]
  {
    var b := if |x| > 1 then x[1] else 0;
    assert Letters(x)[..2] == Group(x[0], b, 0)[..2] && x[..1] == [x[0]];
    TwoLetters(x[0], b);
  }

  lemma {:induction false} ThreeDecode(x: Bytes)
    requires |Letters(x)| >= 3 && |x| >= 2
    ensures Groups(Letters(x)[..3]) == x[..2]
  {
    var c := if |x| > 2 then x[2] else 0;
    assert Letters(x)[..3] == Group(x[0], x[1], c)[..3] && x[..2] == [x[0], x[1]];
    ThreeLetters(x[0], x[1], c);
  }

  lemma {:induction false} ShortDecodes(x: Bytes, k: nat)
    requires k <= |Letters(x)| && (k == 0 || k == 2 || k == 3)
    ensures WholeBytes(k) <= |x| && Groups(Letters(x)[..k]) == x[..WholeBytes(k)]
  {
    if k == 2 {
      TwoDecode(x);
    } else if k == 3 {
      ThreeDecode(x);
    }
  }

  lemma {:induction false} AfterFirstGroup(x: Bytes, k: nat, j: nat)
    requires |x| >= 3 && 4 <= k <= |Letters(x)| && j == WholeBytes(k - 4) && j <= |x[3..]|
    ensures k - 4 <= |Letters(x[3..])| && Letters(x)[..k] == Group(x[0], x[1], x[2]) + Letters(x[3..])[..k - 4]
    ensures WholeBytes(k) == 3 + j && x[..3 + j] == [x[0], x[1], x[2]] + x[3..][..j]
  {
    assert x == [x[0], x[1], x[2]] + x[3..];
  }

  // Any number of letters of an encoding, but for a single one over, give the bytes that they hold.
  lemma {:induction false} LettersDecode(x: Bytes, k: nat)
    requires k <= |Letters(x)| && k % 4 != 1
    ensures WholeBytes(k) <= |x| && Groups(Letters(x)[..k]) == x[..WholeBytes(k)]
    decreases |x|
  {
    if k < 4 {
      ShortDecodes(x, k);
    } else {
      assert (k - 4) % 4 == k % 4;
      LettersDecode(x[3..], k - 4);
      FourMoreDecode(x, k);
    }
  }

  lemma {:induction false} FourMoreDecode(x: Bytes, k: nat)
    requires |x| >= 3 && 4 <= k <= |Letters(x)| && k - 4 <= |Letters(x[3..])| && k % 4 != 1 && (k - 4) % 4 != 1
    requires WholeBytes(k - 4) <= |x[3..]| && Groups(Letters(x[3..])[..k - 4]) == x[3..][..WholeBytes(k - 4)]
    ensures WholeBytes(k) <= |x| && Groups(Letters(x)[..k]) == x[..WholeBytes(k)]
  {
    AfterFirstGroup(x, k, WholeBytes(k - 4));
    GroupDecodes(x[0], x[1], x[2], Letters(x[3..])[..k - 4]);
  }

  lemma {:induction false} PaddedIsWellFormed(letters: Bytes, n: nat)
    requires AllLetters(letters) && |letters| % 4 == if n % 3 == 0 then 0 else n % 3 + 1
    ensures WellFormed(letters + Padding(n))
  {
  }

  lemma {:induction false} EncodingIsWellFormed(x: Bytes)
    ensures WellFormed(Encode(x))
  {
    LettersCount(x);
    PaddedIsWellFormed(Letters(x), |x|);
  }

  lemma {:induction false} BodyOfPrefix(x: Bytes, k: nat)
    requires k <= |Encode(x)|
    ensures var s := Encode(x)[..k]; InAlphabet(s) && s[..BodyEnd(s)] == Letters(x)[..Min(k, |Letters(x)|)]
  {
    var s, m := Encode(x)[..k], Min(k, |Letters(x)|);
    assert forall i :: 0 <= i < m ==> s[i] == Letters(x)[i];
    assert m < k ==> s[m] == PAD;
    assert s[..m] == Letters(x)[..m];
  }

  lemma {:induction false} CutEncodingIsCutOff(x: Bytes, k: nat)
    requires k <= |Encode(x)|
    ensures CutOff(Encode(x)[..k])
  {
    EncodingIsWellFormed(x);
    assert Encode(x)[..k] + Encode(x)[k..] == Encode(x);
  }

  lemma {:induction false} UsableDecodes(x: Bytes, m: nat)
    requires m <= |Letters(x)|
    ensures WholeBytes(m) <= |x| && Groups(Usable(Letters(x)[..m])) == x[..WholeBytes(m)]
  {
    var usable := if m % 4 == 1 then m - 1 else m;
    assert Usable(Letters(x)[..m]) == Letters(x)[..usable] && WholeBytes(usable) == WholeBytes(m);
    LettersDecode(x, usable);
  }

  // Every cut of an encoding, at any character and with white space anywhere, gives the whole bytes that its letters
  // hold, which are a prefix of the encoded bytes, and no problem.
  lemma {:induction false} CutEncodingDecodes(data: Bytes, x: Bytes, k: nat)
    requires k <= |Encode(x)| && Compact(data) == Encode(x)[..k]
    ensures WholeBytes(Min(k, |Letters(x)|)) <= |x|
    ensures Decode(data, false) == Decoded(Some(x[..WholeBytes(Min(k, |Letters(x)|))]), [])
  {
    BodyOfPrefix(x, k);
    CutEncodingIsCutOff(x, k);
    UsableDecodes(x, Min(k, |Letters(x)|));
  }

  // The whole encoding, with white space anywhere, gives the encoded bytes, and no problem.
  lemma {:induction false} EncodingDecodes(data: Bytes, x: Bytes)
    requires Compact(data) == Encode(x)
    ensures Decode(data, true) == Decoded(Some(x), [])
  {
    var n := |Letters(x)|;
    BodyOfPrefix(x, |Encode(x)|);
    assert Encode(x)[..|Encode(x)|] == Encode(x) && Letters(x)[..n] == Letters(x);
    LettersCount(x);
    EncodingIsWellFormed(x);
    LettersDecode(x, n);
    assert x[..|x|] == x;
  }

  // White space inserted anywhere changes nothing.
  lemma {:induction false} SpaceIsIgnored(front: Bytes, space: Byte, back: Bytes)
    requires IsSpaceByte(space)
    ensures Compact(front + [space] + back) == Compact(front + back)
    decreases |front|
  {
    var all := front + [space] + back;
    if front == [] {
      assert all[1..] == back && front + back == back && [] + Compact(back) == Compact(back);
    } else {
      assert all[1..] == front[1..] + [space] + back && (front + back)[1..] == front[1..] + back;
      SpaceIsIgnored(front[1..], space, back);
    }
  }

  // Without its white space, a complete text has no problem exactly when it is well formed, and a cut one exactly when
  // it can be completed to a well-formed one.
  lemma {:induction false} ProblemsAreMalformations(data: Bytes)
    ensures Decode(data, true).problems == [] <==> WellFormed(Compact(data))
    ensures Decode(data, false).problems == [] <==> exists more :: WellFormed(Compact(data) + more)
  {
    forall more | WellFormed(Compact(data) + more) ensures InAlphabet(Compact(data)) {
      assert forall i :: 0 <= i < |Compact(data)| ==> (Compact(data) + more)[i] == Compact(data)[i];
    }
  }
}
