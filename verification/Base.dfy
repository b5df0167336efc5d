// What the modules share: an optional value, a value-or-error result, byte strings, positions and decimal numbers.
module Base {

  datatype Option<+T> = None | Some(value: T)

  function GetOr<T>(o: Option<T>, default: T): T { if o.Some? then o.value else default }

  datatype Result<+T, +E> = Ok(value: T) | Err(error: E)

  type Byte = b: int | 0 <= b < 256

  type Bytes = seq<Byte>

  // White space among the ASCII bytes.
  predicate IsSpaceByte(b: Byte) { 9 <= b <= 13 || b == 32 }

  lemma {:induction false} SpaceBytes(b: Byte)
    ensures IsSpaceByte(b) <==> b as int in {9, 10, 11, 12, 13, 32}
  {
  }

  function Min(a: nat, b: nat): nat { if a < b then a else b }

  function One(condition: bool): nat { if condition then 1 else 0 }

  lemma {:induction false} SubsetCount<T>(s: set<T>, t: set<T>)
    requires s <= t
    ensures |s| <= |t|
  {
    assert t == s + (t - s);
    assert s !! (t - s);
  }

  // ---------- Positions ----------

  // The position of a character, or the length of the text.
  function Position(c: char, s: string): (i: nat)
    ensures i <= |s| && c !in s[..i] && (i < |s| ==> s[i] == c)
  {
    if s == "" || s[0] == c then 0
    else
      var rest := Position(c, s[1..]);
      assert s[..1 + rest] == [s[0]] + s[1..][..rest];
      1 + rest
  }

  lemma {:induction false} PositionIs(c: char, s: string, i: nat)
    requires i < |s| && s[i] == c && c !in s[..i]
    ensures Position(c, s) == i
  {
    var k := Position(c, s);
    assert forall j :: 0 <= j < k ==> s[j] == s[..k][j];
    assert forall j :: 0 <= j < i ==> s[j] == s[..i][j];
  }

  // ---------- Decimal numbers ----------

  predicate IsDigits(s: string) { forall i :: 0 <= i < |s| ==> '0' <= s[i] <= '9' }

  function Decimal(s: string): nat
    requires IsDigits(s)
  {
    if s == "" then 0 else 10 * Decimal(s[..|s| - 1]) + (s[|s| - 1] as int - '0' as int)
  }

  // A number without leading zeros.
  function Spelled(n: nat): (s: string)
    ensures s != "" && IsDigits(s)
  {
    (if n < 10 then "" else Spelled(n / 10)) + ['0' + (n % 10) as char]
  }

  lemma {:induction false} SpelledIsDecimal(n: nat)
    ensures Decimal(Spelled(n)) == n
  {
    var s := Spelled(n);
    if n >= 10 {
      SpelledIsDecimal(n / 10);
      assert s[..|s| - 1] == Spelled(n / 10);
    } else {
      assert s[..|s| - 1] == "" && Decimal("") == 0;
    }
  }

  function Zeros(n: nat): (s: string)
    ensures |s| == n && IsDigits(s)
  {
    if n == 0 then "" else Zeros(n - 1) + "0"
  }

  lemma {:induction false} ZerosAddNothing(zeros: nat, s: string)
    requires IsDigits(s)
    ensures IsDigits(Zeros(zeros) + s) && Decimal(Zeros(zeros) + s) == Decimal(s)
    decreases |s|, zeros
  {
    var all := Zeros(zeros) + s;
    if s != "" {
      ZerosAddNothing(zeros, s[..|s| - 1]);
      assert all[..|all| - 1] == Zeros(zeros) + s[..|s| - 1];
    } else if zeros > 0 {
      ZerosAddNothing(zeros - 1, "");
      assert all[..|all| - 1] == Zeros(zeros - 1) + "";
    }
  }

  lemma {:induction false} DecimalGrows(front: string, digit: nat)
    requires IsDigits(front) && digit < 10
    ensures IsDigits(front + ['0' + digit as char])
    ensures Decimal(front + ['0' + digit as char]) == 10 * Decimal(front) + digit
  {
    var s := front + ['0' + digit as char];
    assert s[..|s| - 1] == front;
  }

  lemma {:induction false} SpelledGrows(n: nat, digit: nat)
    requires digit < 10
    ensures Spelled(10 * n + digit) == (if n == 0 then "" else Spelled(n)) + ['0' + digit as char]
  {
    assert (10 * n + digit) / 10 == n && (10 * n + digit) % 10 == digit;
  }

  lemma {:induction false} ZeroIsSpelled()
    ensures Spelled(0) == "0"
  {
  }

  // One more digit behind zeros and a number.
  lemma {:induction false} ZerosGrow(zeros: nat, number: string, last: string) returns (more: nat)
    ensures Zeros(zeros) + number + last == Zeros(more) + ((if number == "0" then "" else number) + last)
  {
    more := if number == "0" then zeros + 1 else zeros;
    if number == "0" {
      assert Zeros(more) == Zeros(zeros) + "0";
    }
  }

  lemma {:induction false} NotZero(n: nat)
    ensures Spelled(n) == "0" <==> n == 0
  {
    SpelledIsDecimal(n);
    ZeroIsSpelled();
    SpelledIsDecimal(0);
  }

  lemma {:induction false} DigitIsSpelled(s: string, digit: nat)
    requires digit < 10 && s == ['0' + digit as char]
    ensures IsDigits(s) && s == Zeros(0) + Spelled(Decimal(s))
  {
    DecimalGrows("", digit);
    SpelledGrows(0, digit);
    assert "" + s == s;
  }

  lemma {:induction false} NextDigitIsSpelled(front: string, n: nat, zeros: nat, digit: nat) returns (more: nat)
    requires digit < 10 && front == Zeros(zeros) + Spelled(n)
    ensures front + ['0' + digit as char] == Zeros(more) + Spelled(10 * n + digit)
  {
    SpelledGrows(n, digit);
    NotZero(n);
    more := ZerosGrow(zeros, Spelled(n), ['0' + digit as char]);
  }

  // Digits are a number without leading zeros, and zeros in front of it.
  lemma {:induction false} DigitsAreSpelled(s: string) returns (zeros: nat)
    requires s != "" && IsDigits(s)
    ensures s == Zeros(zeros) + Spelled(Decimal(s))
  {
    var front, digit := s[..|s| - 1], s[|s| - 1] as int - '0' as int;
    assert s == front + ['0' + digit as char];
    if front == "" {
      zeros := 0;
      DigitIsSpelled(s, digit);
    } else {
      zeros := DigitsAreSpelled(front);
      DecimalGrows(front, digit);
      zeros := NextDigitIsSpelled(front, Decimal(front), zeros, digit);
    }
  }
}
