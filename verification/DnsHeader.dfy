// The second word of a DNS header (section 4.1.1 of RFC 1035), and the names of types and response codes.
module DnsHeader {
  import opened Base

  datatype HeaderFlag = AA | TC | RD | RA

  // What the word says. Its three reserved bits say nothing.
  datatype Header = Header(isResponse: bool, opcode: nat, flags: seq<HeaderFlag>, rcode: nat)

  // A single bit, by its mask.
  predicate Bit(word: nat, mask: nat)
    requires mask > 0
  {
    word / mask % 2 == 1
  }

  function IfSet(word: nat, mask: nat, flag: HeaderFlag): seq<HeaderFlag>
    requires mask > 0
  {
    if Bit(word, mask) then [flag] else []
  }

  function FlagsIn(word: nat): seq<HeaderFlag> {
    IfSet(word, 0x0400, AA) + IfSet(word, 0x0200, TC) + IfSet(word, 0x0100, RD) + IfSet(word, 0x0080, RA)
  }

  function HeaderOf(word: nat): Header { Header(Bit(word, 0x8000), word / 0x800 % 16, FlagsIn(word), word % 16) }

  // ---------- The word of a header ----------

  // Every field of a word, the reserved bits too.
  datatype Fields = Fields(qr: bool, opcode: nat, aa: bool, tc: bool, rd: bool, ra: bool, reserved: nat, rcode: nat)

  predicate LegalFields(f: Fields) { f.opcode < 16 && f.reserved < 8 && f.rcode < 16 }

  function WriteWord(f: Fields): (word: nat)
    ensures LegalFields(f) ==> word < 0x1_0000
  {
    0x8000 * One(f.qr) + 0x800 * f.opcode + 0x400 * One(f.aa) + 0x200 * One(f.tc) + 0x100 * One(f.rd) + 0x80 * One(f.ra)
    + 0x10 * f.reserved + f.rcode
  }

  function Only(b: bool, flag: HeaderFlag): seq<HeaderFlag> { if b then [flag] else [] }

  function Says(f: Fields): Header {
    Header(f.qr, f.opcode, Only(f.aa, AA) + Only(f.tc, TC) + Only(f.rd, RD) + Only(f.ra, RA), f.rcode)
  }

  lemma {:induction false} TopFields(f: Fields)
    requires LegalFields(f)
    ensures Bit(WriteWord(f), 0x8000) == f.qr && WriteWord(f) / 0x800 % 16 == f.opcode
  {
    var word := WriteWord(f);
    assert word / 0x8000 == One(f.qr);
    assert word / 0x800 == 16 * One(f.qr) + f.opcode;
  }

  lemma {:induction false} FlagBits(f: Fields)
    requires LegalFields(f)
    ensures Bit(WriteWord(f), 0x400) == f.aa && Bit(WriteWord(f), 0x200) == f.tc
    ensures Bit(WriteWord(f), 0x100) == f.rd && Bit(WriteWord(f), 0x80) == f.ra
  {
    var word, top := WriteWord(f), 16 * One(f.qr) + f.opcode;
    assert word / 0x400 == 2 * top + One(f.aa);
    assert word / 0x200 == 2 * (2 * top + One(f.aa)) + One(f.tc);
    assert word / 0x100 == 2 * (2 * (2 * top + One(f.aa)) + One(f.tc)) + One(f.rd);
    assert word / 0x80 == 2 * (2 * (2 * (2 * top + One(f.aa)) + One(f.tc)) + One(f.rd)) + One(f.ra);
  }

  // Every word written from its fields says them, whatever its reserved bits are.
  lemma {:induction false} HeaderRoundTrip(f: Fields)
    requires LegalFields(f)
    ensures HeaderOf(WriteWord(f)) == Says(f)
  {
    TopFields(f);
    FlagBits(f);
    assert WriteWord(f) % 16 == f.rcode;
  }

  function FieldsOf(word: nat): Fields {
    Fields(Bit(word, 0x8000), word / 0x800 % 16, Bit(word, 0x400), Bit(word, 0x200), Bit(word, 0x100), Bit(word, 0x80),
           word / 0x10 % 8, word % 16)
  }

  lemma {:induction false} LowBits(word: nat)
    ensures word == 0x80 * (word / 0x80) + 0x10 * (word / 0x10 % 8) + word % 16
  {
    assert word / 0x10 / 8 == word / 0x80;
  }

  lemma {:induction false} LowFlags(word: nat)
    ensures word / 0x80 == 2 * (word / 0x100) + One(Bit(word, 0x80))
    ensures word / 0x100 == 2 * (word / 0x200) + One(Bit(word, 0x100))
  {
    assert word / 0x80 / 2 == word / 0x100;
    assert word / 0x100 / 2 == word / 0x200;
  }

  lemma {:induction false} HighFlags(word: nat)
    ensures word / 0x200 == 2 * (word / 0x400) + One(Bit(word, 0x200))
    ensures word / 0x400 == 2 * (word / 0x800) + One(Bit(word, 0x400))
  {
    assert word / 0x200 / 2 == word / 0x400;
    assert word / 0x400 / 2 == word / 0x800;
  }

  // Every word has such fields.
  lemma {:induction false} EveryWordIsWritten(word: nat)
    requires word < 0x1_0000
    ensures LegalFields(FieldsOf(word)) && WriteWord(FieldsOf(word)) == word
  {
    LowBits(word);
    LowFlags(word);
    HighFlags(word);
    TopBits(word);
    var f := FieldsOf(word);
    assert word / 0x400 == 32 * One(f.qr) + 2 * f.opcode + One(f.aa);
    assert word / 0x100 == 4 * (word / 0x400) + 2 * One(f.tc) + One(f.rd);
  }

  lemma {:induction false} TopBits(word: nat)
    requires word < 0x1_0000
    ensures word / 0x800 == 16 * One(Bit(word, 0x8000)) + word / 0x800 % 16
  {
    assert word / 0x800 / 16 == word / 0x8000;
  }

  // Two words say the same exactly when they differ in nothing but the reserved bits.
  lemma {:induction false} SameHeaderExactly(word: nat, other: nat)
    requires word < 0x1_0000 && other < 0x1_0000
    ensures HeaderOf(word) == HeaderOf(other) <==> FieldsOf(word).(reserved := 0) == FieldsOf(other).(reserved := 0)
  {
    FlagsTell(FieldsOf(word));
    FlagsTell(FieldsOf(other));
  }

  lemma {:induction false} FlagsTell(f: Fields)
    ensures var flags := Says(f).flags;
            && (AA in flags <==> f.aa) && (TC in flags <==> f.tc) && (RD in flags <==> f.rd) && (RA in flags <==> f.ra)
  {
  }

  // ---------- Names ----------

  const TYPE_A := 1
  const TYPE_NS := 2
  const TYPE_CNAME := 5
  const TYPE_SOA := 6
  const TYPE_PTR := 12
  const TYPE_MX := 15
  const TYPE_TXT := 16
  const TYPE_AAAA := 28

  // The name of a type, or its number.
  function TypeName(rtype: nat): string {
    if rtype == TYPE_A then "A"
    else if rtype == TYPE_NS then "NS"
    else if rtype == TYPE_CNAME then "CNAME"
    else if rtype == TYPE_SOA then "SOA"
    else if rtype == TYPE_PTR then "PTR"
    else if rtype == TYPE_MX then "MX"
    else if rtype == TYPE_TXT then "TXT"
    else if rtype == TYPE_AAAA then "AAAA"
    else Spelled(rtype)
  }

  // The name of a response code, or its number.
  function RcodeName(rcode: nat): string {
    if rcode == 0 then "NOERROR"
    else if rcode == 1 then "FORMERR"
    else if rcode == 2 then "SERVFAIL"
    else if rcode == 3 then "NXDOMAIN"
    else if rcode == 4 then "NOTIMP"
    else if rcode == 5 then "REFUSED"
    else Spelled(rcode)
  }

  // The number that a name stands for (section 3.2.2 of RFC 1035, section 2.1 of RFC 3596).
  function TypeNamed(name: string): nat {
    if name == "A" then 1
    else if name == "NS" then 2
    else if name == "CNAME" then 5
    else if name == "SOA" then 6
    else if name == "PTR" then 12
    else if name == "MX" then 15
    else if name == "TXT" then 16
    else if name == "AAAA" then 28
    else if IsDigits(name) then Decimal(name)
    else 0
  }

  function RcodeNamed(name: string): nat {
    if name == "NOERROR" then 0
    else if name == "FORMERR" then 1
    else if name == "SERVFAIL" then 2
    else if name == "NXDOMAIN" then 3
    else if name == "NOTIMP" then 4
    else if name == "REFUSED" then 5
    else if IsDigits(name) then Decimal(name)
    else 0
  }

  lemma {:induction false} DigitsAreNoType(s: string)
    requires s != "" && IsDigits(s)
    ensures TypeNamed(s) == Decimal(s)
  {
    assert '0' <= s[0] <= '9';
  }

  lemma {:induction false} DigitsAreNoRcode(s: string)
    requires s != "" && IsDigits(s)
    ensures RcodeNamed(s) == Decimal(s)
  {
    assert '0' <= s[0] <= '9';
  }

  lemma {:induction false} TypeNameTells(n: nat)
    requires n in {TYPE_A, TYPE_NS, TYPE_CNAME, TYPE_SOA, TYPE_PTR, TYPE_MX, TYPE_TXT, TYPE_AAAA}
    ensures TypeNamed(TypeName(n)) == n
  {
    var name := TypeName(n);
    assert name[0] == if n == TYPE_A || n == TYPE_AAAA then 'A'
                      else if n == TYPE_NS then 'N'
                      else if n == TYPE_CNAME then 'C'
                      else if n == TYPE_SOA then 'S'
                      else if n == TYPE_PTR then 'P'
                      else if n == TYPE_MX then 'M'
                      else 'T';
    assert n == TYPE_AAAA ==> |name| == 4;
  }

  lemma {:induction false} RcodeNameTells(n: nat)
    requires n < 6
    ensures RcodeNamed(RcodeName(n)) == n
  {
    var name := RcodeName(n);
    assert name[0] == if n == 1 then 'F' else if n == 2 then 'S' else if n == 5 then 'R' else 'N';
    assert n == 0 ==> name[1] == 'O' && name[2] == 'E';
    assert n == 3 ==> name[1] == 'X';
    assert n == 4 ==> name[1] == 'O' && name[2] == 'T';
  }

  lemma {:induction false} TypeNameTellsNumber(n: nat)
    ensures TypeNamed(TypeName(n)) == n
  {
    if n in {TYPE_A, TYPE_NS, TYPE_CNAME, TYPE_SOA, TYPE_PTR, TYPE_MX, TYPE_TXT, TYPE_AAAA} {
      TypeNameTells(n);
    } else {
      SpelledIsDecimal(n);
      DigitsAreNoType(Spelled(n));
    }
  }

  lemma {:induction false} RcodeNameTellsNumber(n: nat)
    ensures RcodeNamed(RcodeName(n)) == n
  {
    if n < 6 {
      RcodeNameTells(n);
    } else {
      SpelledIsDecimal(n);
      DigitsAreNoRcode(Spelled(n));
    }
  }

  // The name of a type or a response code tells its number.
  lemma {:induction false} NamesTellNumbers(n: nat)
    ensures TypeNamed(TypeName(n)) == n && RcodeNamed(RcodeName(n)) == n
  {
    TypeNameTellsNumber(n);
    RcodeNameTellsNumber(n);
  }
}
