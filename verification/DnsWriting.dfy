// Writing DNS messages, with or without compression pointers, and reading them back.
module DnsWriting {
  import opened Base
  import opened DnsHeader
  import opened DnsNames
  import opened DnsMessage

  // ---------- Numbers ----------

  // The low bytes of a number, the highest first.
  function BytesOf(n: nat, width: nat): (bytes: Bytes)
    ensures |bytes| == width
  {
    if width == 0 then [] else BytesOf(n / 256, width - 1) + [n % 256]
  }

  function Two(n: nat): (bytes: Bytes)
    ensures |bytes| == 2
  {
    BytesOf(n, 2)
  }

  function Four(n: nat): (bytes: Bytes)
    ensures |bytes| == 4
  {
    BytesOf(n, 4)
  }

  function Capacity(width: nat): nat { if width == 0 then 1 else 256 * Capacity(width - 1) }

  // A number that fits into its bytes reads back as itself.
  lemma {:induction false} NumberRoundTrip(data: Bytes, start: nat, n: nat, width: nat)
    requires n < Capacity(width) && Has(data, start, BytesOf(n, width))
    ensures start + width <= |data| && Number(data, start, width) == n
    decreases width
  {
    if width > 0 {
      HasParts(data, start, BytesOf(n / 256, width - 1), [n % 256]);
      HasByte(data, start + width - 1, n % 256);
      NumberRoundTrip(data, start, n / 256, width - 1);
    }
  }

  lemma {:induction false} TwoRoundTrip(data: Bytes, start: nat, n: nat)
    requires n < 0x1_0000 && Has(data, start, Two(n))
    ensures start + 2 <= |data| && Number(data, start, 2) == n
  {
    assert Capacity(1) == 256 && Capacity(2) == 0x1_0000;
    NumberRoundTrip(data, start, n, 2);
  }

  lemma {:induction false} FourRoundTrip(data: Bytes, start: nat, n: nat)
    requires n < 0x1_0000_0000 && Has(data, start, Four(n))
    ensures start + 4 <= |data| && Number(data, start, 4) == n
  {
    assert Capacity(1) == 256 && Capacity(2) == 0x1_0000 && Capacity(3) == 0x100_0000 && Capacity(4) == 0x1_0000_0000;
    NumberRoundTrip(data, start, n, 4);
  }

  lemma {:induction false} ThreeParts(data: Bytes, start: nat, x: Bytes, y: Bytes, z: Bytes)
    requires Has(data, start, x + (y + z))
    ensures Has(data, start, x) && Has(data, start + |x|, y) && Has(data, start + |x| + |y|, z)
  {
    HasParts(data, start, x, y + z);
    HasParts(data, start + |x|, y, z);
  }

  // ---------- Names ----------

  // Labels, and how they end: at the root, or with a pointer to where the rest of the name stands.
  datatype Tail = Root | PointTo(target: nat, rest: seq<Bytes>)

  datatype Spelt = Spelt(labels: seq<Bytes>, tail: Tail)

  ghost predicate LegalSpelt(n: Spelt) {
    && (forall l :: l in n.labels ==> LegalLabel(l))
    && (n.tail.Root? ==> Size(n.labels) + 1 <= MAX_NAME)
    && (n.tail.PointTo? ==> n.tail.target < 64 * 256)
  }

  // How many bytes a name takes.
  function NameSize(n: Spelt): nat { Size(n.labels) + if n.tail.Root? then 1 else 2 }

  function WriteSpelt(n: Spelt): (bytes: Bytes)
    ensures |bytes| == NameSize(n)
  {
    if n.tail.Root? then WriteName(n.labels) else WriteLabels(n.labels) + WritePointer(n.tail.target)
  }

  // The labels that a reader should find.
  function LabelsOf(n: Spelt): seq<Bytes> { if n.tail.Root? then n.labels else n.labels + n.tail.rest }

  function TextOfName(n: Spelt): string { Joined(LabelsOf(n)) }

  // These labels stand at an offset of a message, itself with pointers or not, and a name may put more before them.
  ghost predicate Reachable(data: Bytes, target: nat, rest: seq<Bytes>, more: nat) {
    exists w :: IsLegalWalk(data, target, w) && LeavesRoom(TraceOf(data, target, w).value, rest, more)
  }

  ghost predicate LeavesRoom(t: Trace, rest: seq<Bytes>, more: nat) {
    t.labels == rest && t.jumps < MAX_JUMPS && more + t.length + 1 <= MAX_NAME
  }

  // The pointer of a name that is written at an offset leads back, to the rest of the name.
  ghost predicate Anchored(data: Bytes, offset: nat, n: Spelt) {
    n.tail.PointTo? ==>
      n.tail.target < offset + Size(n.labels) && Reachable(data, n.tail.target, n.tail.rest, Size(n.labels))
  }

  lemma {:induction false} SpeltRoundTrip(data: Bytes, offset: nat, n: Spelt)
    requires LegalSpelt(n) && Anchored(data, offset, n) && Has(data, offset, WriteSpelt(n))
    ensures NameAt(data, offset) == Ok(Name(LabelsOf(n), offset + NameSize(n)))
  {
    if n.tail.Root? {
      PlainNameRoundTrip(data, offset, n.labels);
    } else {
      var w :| IsLegalWalk(data, n.tail.target, w)
        && LeavesRoom(TraceOf(data, n.tail.target, w).value, n.tail.rest, Size(n.labels));
      CompressedNameRoundTrip(data, offset, n.labels, n.tail.target, w);
    }
  }

  lemma {:induction false} SizeSplits(labels: seq<Bytes>, k: nat)
    requires k <= |labels|
    ensures Size(labels) == Size(labels[..k]) + Size(labels[k..])
  {
    if k > 0 {
      SizeSplits(labels[1..], k - 1);
      assert labels[..k][1..] == labels[1..][..k - 1] && labels[1..][k - 1..] == labels[k..];
    } else {
      assert labels[..0] == [] && labels[0..] == labels;
    }
  }

  lemma {:induction false} SuffixStands(data: Bytes, position: nat, labels: seq<Bytes>, k: nat)
    requires NameStands(data, position, labels) && k <= |labels|
    ensures NameStands(data, position + Size(labels[..k]), labels[k..])
    decreases k
  {
    if k > 0 {
      SuffixStands(data, position + 1 + |labels[0]|, labels[1..], k - 1);
      assert labels[..k][1..] == labels[1..][..k - 1] && labels[1..][k - 1..] == labels[k..];
    } else {
      assert labels[..0] == [] && labels[0..] == labels;
    }
  }

  // Every label of a plainly written name, and its end, can be pointed to.
  lemma {:induction false} WrittenNameIsReachable(data: Bytes, position: nat, labels: seq<Bytes>, k: nat, more: nat)
    requires LegalName(labels) && Has(data, position, WriteName(labels)) && k <= |labels|
    requires more + Size(labels[k..]) + 1 <= MAX_NAME
    ensures Reachable(data, position + Size(labels[..k]), labels[k..], more)
  {
    WrittenNameStands(data, position, labels);
    SuffixStands(data, position, labels, k);
    StandingNameWalk(data, position + Size(labels[..k]), labels[k..]);
    assert IsLegalWalk(data, position + Size(labels[..k]), LabelWalk(labels[k..], End));
  }

  // ---------- Records one behind the other ----------

  // Each of some records stands as it should at its own offset, behind those before it.
  ghost predicate Laid<A>(stands: (nat, A) -> bool, size: A -> nat, offset: nat, items: seq<A>)
    decreases |items|
  {
    items != [] ==> stands(offset, items[0]) && Laid(stands, size, offset + size(items[0]), items[1..])
  }

  function Total<A>(size: A -> nat, items: seq<A>): nat {
    if items == [] then 0 else size(items[0]) + Total(size, items[1..])
  }

  function Mapped<A, T>(told: A -> T, items: seq<A>): seq<T> {
    if items == [] then [] else [told(items[0])] + Mapped(told, items[1..])
  }

  lemma {:induction false} FirstOfSection<T>(read: nat -> Result<(T, nat), Fault>, count: nat, offset: nat, record: T,
                                             next: nat)
    requires count > 0 && read(offset) == Ok((record, next))
    ensures SectionAt(read, count, offset) == Following([record], SectionAt(read, count - 1, next))
  {
  }

  // A record that stands as it should, and is written, reads back as what it tells.
  ghost predicate ReadsOne<A, T>(
    stands: (nat, A) -> bool, written: (nat, A) -> bool, size: A -> nat, told: A -> T,
    read: nat -> Result<(T, nat), Fault>,
    offset: nat, a: A)
  {
    stands(offset, a) && written(offset, a) ==> read(offset) == Ok((told(a), offset + size(a)))
  }

  // Records one behind the other, each of which reads back in its place.
  ghost predicate Layout<A(!new), T>(
    stands: (nat, A) -> bool, written: (nat, A) -> bool, size: A -> nat, told: A -> T,
    read: nat -> Result<(T, nat), Fault>,
    offset: nat, items: seq<A>)
  {
    && Laid(stands, size, offset, items) && Laid(written, size, offset, items)
    && forall o: nat, a :: ReadsOne(stands, written, size, told, read, o, a)
  }

  // They read back as a section.
  lemma {:induction false} LayoutReadsBack<A(!new), T>(
    stands: (nat, A) -> bool, written: (nat, A) -> bool, size: A -> nat, told: A -> T,
    read: nat -> Result<(T, nat), Fault>, offset: nat, items: seq<A>)
    requires Layout(stands, written, size, told, read, offset, items)
    ensures SectionAt(read, |items|, offset) == Section(Mapped(told, items), offset + Total(size, items), None)
    decreases |items|
  {
    if items != [] {
      var next := offset + size(items[0]);
      assert ReadsOne(stands, written, size, told, read, offset, items[0]);
      FirstOfSection(read, |items|, offset, told(items[0]), next);
      LayoutReadsBack(stands, written, size, told, read, next, items[1..]);
    }
  }

  function WriteAll<A>(write: A -> Bytes, items: seq<A>): Bytes {
    if items == [] then [] else write(items[0]) + WriteAll(write, items[1..])
  }

  // The bytes of a record stand at an offset.
  ghost function WrittenAs<A>(data: Bytes, write: A -> Bytes): (nat, A) -> bool {
    (o: nat, a: A) => Has(data, o, write(a))
  }

  lemma {:induction false} SizeOfAll<A(!new)>(write: A -> Bytes, size: A -> nat, items: seq<A>)
    requires forall a :: |write(a)| == size(a)
    ensures |WriteAll(write, items)| == Total(size, items)
  {
    if items != [] {
      SizeOfAll(write, size, items[1..]);
    }
  }

  lemma {:induction false} WrittenLaid<A(!new)>(data: Bytes, write: A -> Bytes, size: A -> nat, offset: nat,
                                                items: seq<A>)
    requires (forall a :: |write(a)| == size(a)) && Has(data, offset, WriteAll(write, items))
    ensures Laid(WrittenAs(data, write), size, offset, items)
    decreases |items|
  {
    if items != [] {
      HasParts(data, offset, write(items[0]), WriteAll(write, items[1..]));
      WrittenLaid(data, write, size, offset + size(items[0]), items[1..]);
    }
  }

  // ---------- Questions ----------

  datatype Asked = Asked(name: Spelt, qtype: nat, qclass: nat)

  ghost predicate LegalQuestion(q: Asked) { LegalSpelt(q.name) && q.qtype < 0x1_0000 && q.qclass < 0x1_0000 }

  function QuestionSize(q: Asked): nat { NameSize(q.name) + 4 }

  function WriteQuestion(q: Asked): (bytes: Bytes)
    ensures |bytes| == QuestionSize(q)
  {
    WriteSpelt(q.name) + (Two(q.qtype) + Two(q.qclass))
  }

  // A legal question whose pointer leads back from where it stands.
  ghost function FitsQuestion(data: Bytes): (nat, Asked) -> bool {
    (o: nat, q: Asked) => LegalQuestion(q) && Anchored(data, o, q.name)
  }

  function Told(q: Asked): Question { Question(TextOfName(q.name), q.qtype, TypeName(q.qtype), q.qclass) }

  // The meaning of one question, as a value.
  ghost predicate ReadsQuestions(read: nat -> Result<(Question, nat), Fault>, data: Bytes) {
    forall o: nat {:trigger QuestionAt(data, o)} :: read(o) == QuestionAt(data, o)
  }

  // A question whose name and numbers can be read is read as them.
  lemma {:induction false} QuestionFrom(
    data: Bytes, offset: nat, found: Name, qtype: nat, qclass: nat, read: nat -> Result<(Question, nat), Fault>)
    requires ReadsQuestions(read, data)
    requires NameAt(data, offset) == Ok(found) && found.after + 4 <= |data|
    requires Number(data, found.after, 2) == qtype && Number(data, found.after + 2, 2) == qclass
    ensures read(offset) == Ok((Question(Joined(found.labels), qtype, TypeName(qtype), qclass), found.after + 4))
  {
    assert read(offset) == QuestionAt(data, offset);
  }

  // A question that fits and is written has a name and numbers that can be read.
  ghost predicate QuestionReads(data: Bytes, offset: nat, found: Name, qtype: nat, qclass: nat) {
    && NameAt(data, offset) == Ok(found) && found.after + 4 <= |data|
    && Number(data, found.after, 2) == qtype && Number(data, found.after + 2, 2) == qclass
  }

  ghost predicate PiecesRead(data: Bytes, fits: (nat, Asked) -> bool, written: (nat, Asked) -> bool, offset: nat,
                             q: Asked)
  {
    fits(offset, q) && written(offset, q) ==>
      QuestionReads(data, offset, Name(LabelsOf(q.name), offset + NameSize(q.name)), q.qtype, q.qclass)
  }

  lemma {:induction false} PiecesReadBack(data: Bytes, offset: nat, q: Asked)
    requires LegalQuestion(q) && Anchored(data, offset, q.name) && Has(data, offset, WriteQuestion(q))
    ensures QuestionReads(data, offset, Name(LabelsOf(q.name), offset + NameSize(q.name)), q.qtype, q.qclass)
  {
    var p := offset + NameSize(q.name);
    ThreeParts(data, offset, WriteSpelt(q.name), Two(q.qtype), Two(q.qclass));
    SpeltRoundTrip(data, offset, q.name);
    TwoRoundTrip(data, p, q.qtype);
    TwoRoundTrip(data, p + 2, q.qclass);
  }

  lemma {:induction false} FittingPiecesRead(data: Bytes, offset: nat, q: Asked)
    ensures PiecesRead(data, FitsQuestion(data), WrittenAs(data, WriteQuestion), offset, q)
  {
    if FitsQuestion(data)(offset, q) && WrittenAs(data, WriteQuestion)(offset, q) {
      PiecesReadBack(data, offset, q);
    }
  }

  lemma {:induction false} OneQuestionReadsBack(
    data: Bytes, fits: (nat, Asked) -> bool, written: (nat, Asked) -> bool, read: nat -> Result<(Question, nat), Fault>,
    offset: nat, q: Asked)
    requires ReadsQuestions(read, data) && PiecesRead(data, fits, written, offset, q)
    ensures ReadsOne(fits, written, QuestionSize, Told, read, offset, q)
  {
    if fits(offset, q) && written(offset, q) {
      QuestionFrom(data, offset, Name(LabelsOf(q.name), offset + NameSize(q.name)), q.qtype, q.qclass, read);
    }
  }

  lemma {:induction false} QuestionLayout(data: Bytes, offset: nat, qs: seq<Asked>,
                                          read: nat -> Result<(Question, nat), Fault>)
    requires Has(data, offset, WriteAll(WriteQuestion, qs)) && Laid(FitsQuestion(data), QuestionSize, offset, qs)
    requires ReadsQuestions(read, data)
    ensures Layout(FitsQuestion(data), WrittenAs(data, WriteQuestion), QuestionSize, Told, read, offset, qs)
  {
    WrittenLaid(data, WriteQuestion, QuestionSize, offset, qs);
    forall o: nat, q
      ensures ReadsOne(FitsQuestion(data), WrittenAs(data, WriteQuestion), QuestionSize, Told, read, o, q)
    {
      FittingPiecesRead(data, o, q);
      OneQuestionReadsBack(data, FitsQuestion(data), WrittenAs(data, WriteQuestion), read, o, q);
    }
  }

  // Every list of questions, written one after the other anywhere in a message, reads back as itself.
  lemma {:induction false} QuestionsRoundTrip(data: Bytes, offset: nat, qs: seq<Asked>)
    requires Has(data, offset, WriteAll(WriteQuestion, qs)) && Laid(FitsQuestion(data), QuestionSize, offset, qs)
    ensures SectionAt(Questions(data), |qs|, offset)
            == Section(Mapped(Told, qs), offset + Total(QuestionSize, qs), None)
  {
    QuestionLayout(data, offset, qs, Questions(data));
    LayoutReadsBack(FitsQuestion(data), WrittenAs(data, WriteQuestion), QuestionSize, Told, Questions(data), offset,
                    qs);
  }

  // ---------- Texts ----------

  ghost predicate LegalStrings(strings: seq<Bytes>) { forall s :: s in strings ==> |s| < 256 }

  function WriteTexts(strings: seq<Bytes>): (bytes: Bytes)
    ensures |bytes| == TextsSize(strings)
  {
    if strings == [] then [] else [|strings[0]| % 256] + strings[0] + WriteTexts(strings[1..])
  }

  lemma {:induction false} TextStands(data: Bytes, start: nat, s: Bytes, rest: Bytes)
    requires |s| < 256 && Has(data, start, [|s| % 256] + s + rest)
    ensures start + 1 + |s| <= |data| && data[start] == |s| && data[start + 1..start + 1 + |s|] == s
    ensures Has(data, start + 1 + |s|, rest)
  {
    HasParts(data, start, [|s| % 256] + s, rest);
    HasParts(data, start, [|s| % 256], s);
    HasByte(data, start, |s|);
    HasSlice(data, start + 1, s);
  }

  // The strings of a text record read back as themselves, empty ones too.
  lemma {:induction false} TextsRoundTrip(data: Bytes, start: nat, strings: seq<Bytes>)
    requires LegalStrings(strings) && Has(data, start, WriteTexts(strings))
    ensures start + TextsSize(strings) <= |data|
    ensures TextsAt(data, start, start + TextsSize(strings)) == Ok(strings)
    decreases |strings|
  {
    if strings != [] {
      var s := strings[0];
      assert s in strings && forall t :: t in strings[1..] ==> t in strings;
      TextStands(data, start, s, WriteTexts(strings[1..]));
      TextsRoundTrip(data, start + 1 + |s|, strings[1..]);
      assert strings == [s] + strings[1..];
    }
  }

  // ---------- Record data ----------

  // What is written for a record, by the kind of its data.
  datatype Put =
    | PutAddress(bytes: Bytes)
    | PutHost(name: Spelt)
    | PutExchange(preference: nat, host: Spelt)
    | PutTexts(strings: seq<Bytes>)
    | PutAuthority(mname: Spelt, rname: Spelt, numbers: seq<nat>)
    | PutRaw(raw: Bytes)

  ghost predicate LegalNumbers(ns: seq<nat>) { |ns| == 5 && forall n :: n in ns ==> n < 0x1_0000_0000 }

  // Data that its record type reads as this kind.
  ghost predicate LegalPut(rtype: nat, d: Put) {
    match d
    case PutAddress(bytes) => (rtype == TYPE_A && |bytes| == 4) || (rtype == TYPE_AAAA && |bytes| == 16)
    case PutHost(name) => rtype in {TYPE_CNAME, TYPE_NS, TYPE_PTR} && LegalSpelt(name)
    case PutExchange(preference, host) => rtype == TYPE_MX && preference < 0x1_0000 && LegalSpelt(host)
    case PutTexts(strings) => rtype == TYPE_TXT && LegalStrings(strings)
    case PutAuthority(mname, rname, numbers) =>
      rtype == TYPE_SOA && LegalSpelt(mname) && LegalSpelt(rname) && LegalNumbers(numbers)
    case PutRaw(raw) =>
      && rtype !in {TYPE_CNAME, TYPE_NS, TYPE_PTR, TYPE_MX, TYPE_TXT, TYPE_SOA}
      && (rtype == TYPE_A ==> |raw| != 4) && (rtype == TYPE_AAAA ==> |raw| != 16)
  }

  function WriteNumbers(ns: seq<nat>): (bytes: Bytes)
    ensures |bytes| == 4 * |ns|
  {
    if ns == [] then [] else Four(ns[0]) + WriteNumbers(ns[1..])
  }

  function TextsSize(strings: seq<Bytes>): nat {
    if strings == [] then 0 else 1 + |strings[0]| + TextsSize(strings[1..])
  }

  function DataSize(d: Put): nat {
    match d
    case PutAddress(bytes) => |bytes|
    case PutHost(name) => NameSize(name)
    case PutExchange(_, host) => 2 + NameSize(host)
    case PutTexts(strings) => TextsSize(strings)
    case PutAuthority(mname, rname, numbers) => NameSize(mname) + NameSize(rname) + 4 * |numbers|
    case PutRaw(raw) => |raw|
  }

  function WriteData(d: Put): (bytes: Bytes)
    ensures |bytes| == DataSize(d)
  {
    match d
    case PutAddress(bytes) => bytes
    case PutHost(name) => WriteSpelt(name)
    case PutExchange(preference, host) => Two(preference) + WriteSpelt(host)
    case PutTexts(strings) => WriteTexts(strings)
    case PutAuthority(mname, rname, numbers) => WriteSpelt(mname) + (WriteSpelt(rname) + WriteNumbers(numbers))
    case PutRaw(raw) => raw
  }

  // The pointers in the data of a record lead back, from where its names stand.
  ghost predicate PutAnchored(data: Bytes, start: nat, d: Put) {
    match d
    case PutHost(name) => Anchored(data, start, name)
    case PutExchange(_, host) => Anchored(data, start + 2, host)
    case PutAuthority(mname, rname, _) => Anchored(data, start, mname) && Anchored(data, start + NameSize(mname), rname)
    case _ => true
  }

  function DataTold(d: Put): Data {
    match d
    case PutAddress(bytes) => Address(bytes)
    case PutHost(name) => Host(TextOfName(name))
    case PutExchange(preference, host) => Exchange(preference, TextOfName(host))
    case PutTexts(strings) => Texts(strings)
    case PutAuthority(mname, rname, numbers) => Authority(TextOfName(mname), TextOfName(rname), numbers)
    case PutRaw(raw) => Raw(raw)
  }

  lemma {:induction false} HostRoundTrip(data: Bytes, start: nat, n: Spelt)
    requires LegalSpelt(n) && Anchored(data, start, n) && Has(data, start, WriteSpelt(n))
    ensures start + NameSize(n) <= |data| && HostAt(data, start, start + NameSize(n)) == Ok(TextOfName(n))
  {
    SpeltRoundTrip(data, start, n);
  }

  lemma {:induction false} ExchangeRoundTrip(data: Bytes, start: nat, preference: nat, host: Spelt)
    requires preference < 0x1_0000 && LegalSpelt(host) && Anchored(data, start + 2, host)
    requires Has(data, start, Two(preference) + WriteSpelt(host))
    ensures start + 2 + NameSize(host) <= |data|
    ensures DataAt(data, TYPE_MX, start, start + 2 + NameSize(host)) == Ok(Exchange(preference, TextOfName(host)))
  {
    HasParts(data, start, Two(preference), WriteSpelt(host));
    TwoRoundTrip(data, start, preference);
    HostRoundTrip(data, start + 2, host);
  }

  lemma {:induction false} NumbersRoundTrip(data: Bytes, start: nat, ns: seq<nat>)
    requires (forall n :: n in ns ==> n < 0x1_0000_0000) && Has(data, start, WriteNumbers(ns))
    ensures start + 4 * |ns| <= |data| && forall i :: 0 <= i < |ns| ==> Number(data, start + 4 * i, 4) == ns[i]
    decreases |ns|
  {
    if ns != [] {
      assert ns[0] in ns && forall n :: n in ns[1..] ==> n in ns;
      HasParts(data, start, Four(ns[0]), WriteNumbers(ns[1..]));
      FourRoundTrip(data, start, ns[0]);
      NumbersRoundTrip(data, start + 4, ns[1..]);
      forall i | 0 <= i < |ns| ensures Number(data, start + 4 * i, 4) == ns[i] {
        if i > 0 {
          assert Number(data, start + 4 + 4 * (i - 1), 4) == ns[1..][i - 1];
        }
      }
    }
  }

  lemma {:induction false} FiveRoundTrip(data: Bytes, start: nat, ns: seq<nat>)
    requires LegalNumbers(ns) && Has(data, start, WriteNumbers(ns))
    ensures start + 20 <= |data| && FiveNumbers(data, start) == ns
  {
    NumbersRoundTrip(data, start, ns);
    assert Number(data, start + 4 * 0, 4) == ns[0] && Number(data, start + 4 * 1, 4) == ns[1];
    assert Number(data, start + 4 * 2, 4) == ns[2] && Number(data, start + 4 * 3, 4) == ns[3];
    assert Number(data, start + 4 * 4, 4) == ns[4];
  }

  lemma {:induction false} AuthorityFrom(data: Bytes, start: nat, mname: Name, rname: Name)
    requires NameAt(data, start) == Ok(mname) && NameAt(data, mname.after) == Ok(rname) && rname.after + 20 <= |data|
    ensures AuthorityAt(data, start, rname.after + 20)
            == Ok(Authority(Joined(mname.labels), Joined(rname.labels), FiveNumbers(data, rname.after)))
  {
  }

  lemma {:induction false} TwoNamesReadBack(data: Bytes, start: nat, mname: Spelt, rname: Spelt, rest: Bytes)
    requires LegalSpelt(mname) && LegalSpelt(rname)
    requires Anchored(data, start, mname) && Anchored(data, start + NameSize(mname), rname)
    requires Has(data, start, WriteSpelt(mname) + (WriteSpelt(rname) + rest))
    ensures var middle := start + NameSize(mname);
            var last := middle + NameSize(rname);
            && NameAt(data, start) == Ok(Name(LabelsOf(mname), middle))
            && NameAt(data, middle) == Ok(Name(LabelsOf(rname), last)) && Has(data, last, rest)
  {
    ThreeParts(data, start, WriteSpelt(mname), WriteSpelt(rname), rest);
    SpeltRoundTrip(data, start, mname);
    SpeltRoundTrip(data, start + NameSize(mname), rname);
  }

  lemma {:induction false} AuthorityRoundTrip(data: Bytes, start: nat, mname: Spelt, rname: Spelt, ns: seq<nat>)
    requires LegalSpelt(mname) && LegalSpelt(rname) && LegalNumbers(ns)
    requires Anchored(data, start, mname) && Anchored(data, start + NameSize(mname), rname)
    requires Has(data, start, WriteSpelt(mname) + (WriteSpelt(rname) + WriteNumbers(ns)))
    ensures var end := start + NameSize(mname) + NameSize(rname) + 20;
            end <= |data| && AuthorityAt(data, start, end) == Ok(Authority(TextOfName(mname), TextOfName(rname), ns))
  {
    var middle := start + NameSize(mname);
    TwoNamesReadBack(data, start, mname, rname, WriteNumbers(ns));
    FiveRoundTrip(data, middle + NameSize(rname), ns);
    AuthorityFrom(data, start, Name(LabelsOf(mname), middle), Name(LabelsOf(rname), middle + NameSize(rname)));
  }

  ghost predicate DataReads(data: Bytes, start: nat, rtype: nat, d: Put) {
    start + DataSize(d) <= |data| && DataAt(data, rtype, start, start + DataSize(d)) == Ok(DataTold(d))
  }

  lemma {:induction false} PlainDataRoundTrip(data: Bytes, start: nat, rtype: nat, d: Put)
    requires (d.PutAddress? || d.PutRaw?) && LegalPut(rtype, d) && Has(data, start, WriteData(d))
    ensures DataReads(data, start, rtype, d)
  {
    HasSlice(data, start, WriteData(d));
  }

  lemma {:induction false} NamedDataRoundTrip(data: Bytes, start: nat, rtype: nat, d: Put)
    requires (d.PutHost? || d.PutExchange?) && LegalPut(rtype, d) && PutAnchored(data, start, d)
             && Has(data, start, WriteData(d))
    ensures DataReads(data, start, rtype, d)
  {
    if d.PutHost? {
      HostRoundTrip(data, start, d.name);
    } else {
      ExchangeRoundTrip(data, start, d.preference, d.host);
    }
  }

  lemma {:induction false} ListedDataRoundTrip(data: Bytes, start: nat, rtype: nat, d: Put)
    requires (d.PutTexts? || d.PutAuthority?) && LegalPut(rtype, d) && PutAnchored(data, start, d)
             && Has(data, start, WriteData(d))
    ensures DataReads(data, start, rtype, d)
  {
    if d.PutTexts? {
      TextsRoundTrip(data, start, d.strings);
    } else {
      AuthorityRoundTrip(data, start, d.mname, d.rname, d.numbers);
    }
  }

  // Record data of every kind reads back as itself.
  lemma {:induction false} DataRoundTrip(data: Bytes, start: nat, rtype: nat, d: Put)
    requires LegalPut(rtype, d) && PutAnchored(data, start, d) && Has(data, start, WriteData(d))
    ensures DataReads(data, start, rtype, d)
  {
    if d.PutAddress? || d.PutRaw? {
      PlainDataRoundTrip(data, start, rtype, d);
    } else if d.PutHost? || d.PutExchange? {
      NamedDataRoundTrip(data, start, rtype, d);
    } else {
      ListedDataRoundTrip(data, start, rtype, d);
    }
  }

  // ---------- Answers ----------

  datatype Given = Given(name: Spelt, rtype: nat, rclass: nat, ttl: nat, data: Put)

  ghost predicate LegalAnswer(a: Given) {
    && LegalSpelt(a.name) && a.rtype < 0x1_0000 && a.rclass < 0x1_0000 && a.ttl < 0x1_0000_0000
    && LegalPut(a.rtype, a.data) && DataSize(a.data) < 0x1_0000
  }

  // The numbers between the name of a record and its data.
  function WriteFixed(rtype: nat, rclass: nat, ttl: nat, size: nat): (bytes: Bytes)
    ensures |bytes| == 10
  {
    Two(rtype) + (Two(rclass) + (Four(ttl) + Two(size)))
  }

  function AnswerSize(a: Given): nat { NameSize(a.name) + 10 + DataSize(a.data) }

  function WriteAnswer(a: Given): (bytes: Bytes)
    ensures |bytes| == AnswerSize(a)
  {
    WriteSpelt(a.name) + (WriteFixed(a.rtype, a.rclass, a.ttl, DataSize(a.data)) + WriteData(a.data))
  }

  // The pointers of an answer lead back from where its names stand.
  ghost predicate AnswerAnchored(data: Bytes, offset: nat, a: Given) {
    Anchored(data, offset, a.name) && PutAnchored(data, offset + NameSize(a.name) + 10, a.data)
  }

  // A legal answer whose pointers lead back.
  ghost function FitsAnswer(data: Bytes): (nat, Given) -> bool {
    (o: nat, a: Given) => LegalAnswer(a) && AnswerAnchored(data, o, a)
  }

  function AnswerTold(a: Given): Answer {
    Answer(TextOfName(a.name), a.rtype, TypeName(a.rtype), a.rclass, a.ttl, DataTold(a.data))
  }

  lemma {:induction false} FixedRoundTrip(data: Bytes, p: nat, rtype: nat, rclass: nat, ttl: nat, size: nat)
    requires rtype < 0x1_0000 && rclass < 0x1_0000 && ttl < 0x1_0000_0000 && size < 0x1_0000
    requires Has(data, p, WriteFixed(rtype, rclass, ttl, size))
    ensures Number(data, p, 2) == rtype && Number(data, p + 2, 2) == rclass && Number(data, p + 4, 4) == ttl
    ensures Number(data, p + 8, 2) == size
  {
    ThreeParts(data, p, Two(rtype), Two(rclass), Four(ttl) + Two(size));
    HasParts(data, p + 4, Four(ttl), Two(size));
    TwoRoundTrip(data, p, rtype);
    TwoRoundTrip(data, p + 2, rclass);
    FourRoundTrip(data, p + 4, ttl);
    TwoRoundTrip(data, p + 8, size);
  }

  ghost predicate ReadsNameAndFixed(
    data: Bytes, offset: nat, name: Name, rtype: nat, rclass: nat, ttl: nat, size: nat)
  {
    var p := name.after;
    && NameAt(data, offset) == Ok(name) && p + 10 <= |data|
    && Number(data, p, 2) == rtype && Number(data, p + 2, 2) == rclass && Number(data, p + 4, 4) == ttl
    && Number(data, p + 8, 2) == size
  }

  // A record whose name, fixed part and data can be read is read as them.
  ghost predicate ReadsInParts(
    data: Bytes, offset: nat, name: Name, rtype: nat, rclass: nat, ttl: nat, size: nat, d: Data)
  {
    var p := name.after + 10;
    && ReadsNameAndFixed(data, offset, name, rtype, rclass, ttl, size)
    && p + size <= |data| && DataAt(data, rtype, p, p + size) == Ok(d)
  }

  lemma {:induction false} AnswerFrom(data: Bytes, offset: nat, name: Name, rtype: nat, rclass: nat, ttl: nat,
                                      size: nat, d: Data)
    requires ReadsInParts(data, offset, name, rtype, rclass, ttl, size, d)
    ensures AnswerAt(data, offset)
            == Ok((Answer(Joined(name.labels), rtype, TypeName(rtype), rclass, ttl, d), name.after + 10 + size))
  {
  }

  lemma {:induction false} AnswerParts(data: Bytes, offset: nat, a: Given)
    requires Has(data, offset, WriteAnswer(a))
    ensures var p := offset + NameSize(a.name);
            && Has(data, offset, WriteSpelt(a.name))
            && Has(data, p, WriteFixed(a.rtype, a.rclass, a.ttl, DataSize(a.data)))
            && Has(data, p + 10, WriteData(a.data))
  {
    ThreeParts(data, offset, WriteSpelt(a.name), WriteFixed(a.rtype, a.rclass, a.ttl, DataSize(a.data)),
               WriteData(a.data));
  }

  lemma {:induction false} DataPartReadsBack(data: Bytes, start: nat, a: Given)
    requires LegalPut(a.rtype, a.data) && PutAnchored(data, start, a.data) && Has(data, start, WriteData(a.data))
    ensures start + DataSize(a.data) <= |data|
    ensures DataAt(data, a.rtype, start, start + DataSize(a.data)) == Ok(DataTold(a.data))
  {
    DataRoundTrip(data, start, a.rtype, a.data);
  }

  // Its own name, fixed part and data, read one after the other.
  lemma {:induction false} PartsReadBack(data: Bytes, offset: nat, a: Given)
    requires LegalAnswer(a) && AnswerAnchored(data, offset, a) && Has(data, offset, WriteAnswer(a))
    ensures ReadsInParts(data, offset, Name(LabelsOf(a.name), offset + NameSize(a.name)), a.rtype, a.rclass, a.ttl,
                         DataSize(a.data), DataTold(a.data))
  {
    AnswerParts(data, offset, a);
    NameAndFixedReadBack(data, offset, a);
    DataPartReadsBack(data, offset + NameSize(a.name) + 10, a);
  }

  lemma {:induction false} NameAndFixedReadBack(data: Bytes, offset: nat, a: Given)
    requires LegalAnswer(a) && Anchored(data, offset, a.name) && Has(data, offset, WriteSpelt(a.name))
    requires Has(data, offset + NameSize(a.name), WriteFixed(a.rtype, a.rclass, a.ttl, DataSize(a.data)))
    ensures ReadsNameAndFixed(data, offset, Name(LabelsOf(a.name), offset + NameSize(a.name)), a.rtype, a.rclass, a.ttl,
                              DataSize(a.data))
  {
    SpeltRoundTrip(data, offset, a.name);
    FixedRoundTrip(data, offset + NameSize(a.name), a.rtype, a.rclass, a.ttl, DataSize(a.data));
  }

  lemma {:induction false} AnswerFromAs(
    data: Bytes, offset: nat, name: Name, rtype: nat, rclass: nat, ttl: nat, size: nat, d: Data,
    read: nat -> Result<(Answer, nat), Fault>)
    requires ReadsAnswers(read, data) && ReadsInParts(data, offset, name, rtype, rclass, ttl, size, d)
    ensures read(offset)
            == Ok((Answer(Joined(name.labels), rtype, TypeName(rtype), rclass, ttl, d), name.after + 10 + size))
  {
    AnswerFrom(data, offset, name, rtype, rclass, ttl, size, d);
  }

  // A record that fits and is written is read in its parts.
  ghost predicate PartsRead(data: Bytes, fits: (nat, Given) -> bool, written: (nat, Given) -> bool, offset: nat,
                            a: Given)
  {
    fits(offset, a) && written(offset, a) ==>
      ReadsInParts(data, offset, Name(LabelsOf(a.name), offset + NameSize(a.name)), a.rtype, a.rclass, a.ttl,
                   DataSize(a.data), DataTold(a.data))
  }

  lemma {:induction false} FittingPartsRead(data: Bytes, offset: nat, a: Given)
    ensures PartsRead(data, FitsAnswer(data), WrittenAs(data, WriteAnswer), offset, a)
  {
    if FitsAnswer(data)(offset, a) && WrittenAs(data, WriteAnswer)(offset, a) {
      PartsReadBack(data, offset, a);
    }
  }

  lemma {:induction false} OneAnswerReadsBack(
    data: Bytes, fits: (nat, Given) -> bool, written: (nat, Given) -> bool, read: nat -> Result<(Answer, nat), Fault>,
    offset: nat, a: Given)
    requires ReadsAnswers(read, data) && PartsRead(data, fits, written, offset, a)
    ensures ReadsOne(fits, written, AnswerSize, AnswerTold, read, offset, a)
  {
    if fits(offset, a) && written(offset, a) {
      AnswerFromAs(data, offset, Name(LabelsOf(a.name), offset + NameSize(a.name)), a.rtype, a.rclass, a.ttl,
                   DataSize(a.data), DataTold(a.data), read);
    }
  }

  lemma {:induction false} AnswerLayout(data: Bytes, offset: nat, gs: seq<Given>,
                                        read: nat -> Result<(Answer, nat), Fault>)
    requires Has(data, offset, WriteAll(WriteAnswer, gs)) && Laid(FitsAnswer(data), AnswerSize, offset, gs)
    requires ReadsAnswers(read, data)
    ensures Layout(FitsAnswer(data), WrittenAs(data, WriteAnswer), AnswerSize, AnswerTold, read, offset, gs)
  {
    WrittenLaid(data, WriteAnswer, AnswerSize, offset, gs);
    forall o: nat, a
      ensures ReadsOne(FitsAnswer(data), WrittenAs(data, WriteAnswer), AnswerSize, AnswerTold, read, o, a)
    {
      FittingPartsRead(data, o, a);
      OneAnswerReadsBack(data, FitsAnswer(data), WrittenAs(data, WriteAnswer), read, o, a);
    }
  }

  // Every list of answers, of every kind of data, reads back as itself.
  lemma {:induction false} AnswersRoundTrip(data: Bytes, offset: nat, gs: seq<Given>)
    requires Has(data, offset, WriteAll(WriteAnswer, gs)) && Laid(FitsAnswer(data), AnswerSize, offset, gs)
    ensures SectionAt(Answers(data), |gs|, offset)
            == Section(Mapped(AnswerTold, gs), offset + Total(AnswerSize, gs), None)
  {
    AnswerLayout(data, offset, gs, Answers(data));
    LayoutReadsBack(FitsAnswer(data), WrittenAs(data, WriteAnswer), AnswerSize, AnswerTold, Answers(data), offset, gs);
  }

  // ---------- Whole messages ----------

  datatype Written = Written(
    id: nat, fields: Fields, authorities: nat, additional: nat, questions: seq<Asked>, answers: seq<Given>)

  ghost predicate LegalMessage(m: Written) {
    && m.id < 0x1_0000 && LegalFields(m.fields) && m.authorities < 0x1_0000 && m.additional < 0x1_0000
    && |m.questions| <= MAX_RECORDS && |m.answers| <= MAX_RECORDS
  }

  function WriteHeader(m: Written): (bytes: Bytes)
    ensures |bytes| == HEADER_LEN
  {
    Two(m.id) + (Two(WriteWord(m.fields))
                 + (Two(|m.questions|) + (Two(|m.answers|) + (Two(m.authorities) + Two(m.additional)))))
  }

  function WriteMessage(m: Written): (bytes: Bytes)
    ensures |bytes| >= HEADER_LEN
  {
    WriteHeader(m) + (WriteAll(WriteQuestion, m.questions) + WriteAll(WriteAnswer, m.answers))
  }

  // All records of a message are legal, and their pointers lead back, to the rest of their names.
  ghost predicate MessageFits(data: Bytes, m: Written) {
    && Laid(FitsQuestion(data), QuestionSize, HEADER_LEN, m.questions)
    && Laid(FitsAnswer(data), AnswerSize, HEADER_LEN + Total(QuestionSize, m.questions), m.answers)
  }

  // What a reader should report.
  function MessageTold(m: Written): Message {
    Message(m.id, Says(m.fields), RcodeName(m.fields.rcode), [|m.questions|, |m.answers|, m.authorities, m.additional],
            Mapped(Told, m.questions), Mapped(AnswerTold, m.answers), false)
  }

  lemma {:induction false} PartsOfWhole(x: Bytes, y: Bytes, z: Bytes)
    ensures var data := x + (y + z); Has(data, 0, x) && Has(data, |x|, y) && Has(data, |x| + |y|, z)
  {
    var data := x + (y + z);
    HasSlice(data, 0, data);
    assert data[0..|data|] == data;
    ThreeParts(data, 0, x, y, z);
  }

  lemma {:induction false} MessageParts(m: Written)
    ensures var data := WriteMessage(m);
            && Has(data, 0, WriteHeader(m)) && Has(data, HEADER_LEN, WriteAll(WriteQuestion, m.questions))
            && Has(data, HEADER_LEN + Total(QuestionSize, m.questions), WriteAll(WriteAnswer, m.answers))
  {
    SizeOfAll(WriteQuestion, QuestionSize, m.questions);
    PartsOfWhole(WriteHeader(m), WriteAll(WriteQuestion, m.questions), WriteAll(WriteAnswer, m.answers));
  }

  // Six numbers of two bytes each.
  lemma {:induction false} SixNumbers(data: Bytes, a: nat, b: nat, c: nat, d: nat, e: nat, f: nat)
    requires a < 0x1_0000 && b < 0x1_0000 && c < 0x1_0000 && d < 0x1_0000 && e < 0x1_0000 && f < 0x1_0000
    requires Has(data, 0, Two(a) + (Two(b) + (Two(c) + (Two(d) + (Two(e) + Two(f))))))
    ensures |data| >= 12 && Number(data, 0, 2) == a && Number(data, 2, 2) == b && Number(data, 4, 2) == c
    ensures Number(data, 6, 2) == d && Number(data, 8, 2) == e && Number(data, 10, 2) == f
  {
    ThreeParts(data, 0, Two(a), Two(b), Two(c) + (Two(d) + (Two(e) + Two(f))));
    ThreeParts(data, 4, Two(c), Two(d), Two(e) + Two(f));
    HasParts(data, 8, Two(e), Two(f));
    TwoRoundTrip(data, 0, a);
    TwoRoundTrip(data, 2, b);
    TwoRoundTrip(data, 4, c);
    TwoRoundTrip(data, 6, d);
    TwoRoundTrip(data, 8, e);
    TwoRoundTrip(data, 10, f);
  }

  // The numbers of a header.
  ghost predicate ReadsHeader(data: Bytes, m: Written) {
    && |data| >= HEADER_LEN && Number(data, 0, 2) == m.id && Number(data, 2, 2) == WriteWord(m.fields)
    && Counts(data) == [|m.questions|, |m.answers|, m.authorities, m.additional]
  }

  lemma {:induction false} HeadersReadBack(data: Bytes, m: Written)
    requires LegalMessage(m) && Has(data, 0, WriteHeader(m))
    ensures ReadsHeader(data, m)
  {
    SixNumbers(data, m.id, WriteWord(m.fields), |m.questions|, |m.answers|, m.authorities, m.additional);
  }

  lemma {:induction false} CleanMessage(
    data: Bytes, readQuestion: nat -> Result<(Question, nat), Fault>, readAnswer: nat -> Result<(Answer, nat), Fault>,
    questions: Section<Question>, answers: Section<Answer>)
    requires |data| >= HEADER_LEN && Counts(data)[0] <= MAX_RECORDS && Counts(data)[1] <= MAX_RECORDS
    requires SectionAt(readQuestion, Counts(data)[0], HEADER_LEN) == questions && questions.fault == None
    requires SectionAt(readAnswer, Counts(data)[1], questions.end) == answers && answers.fault == None
    ensures MessageWith(data, readQuestion, readAnswer)
            == Reported(Number(data, 0, 2), Number(data, 2, 2), Counts(data), questions.records, answers.records, [])
  {
  }

  lemma {:induction false} ReportedFields(m: Written)
    requires LegalMessage(m)
    ensures Reported(m.id, WriteWord(m.fields), [|m.questions|, |m.answers|, m.authorities, m.additional],
                     Mapped(Told, m.questions), Mapped(AnswerTold, m.answers), [])
            == (MessageTold(m), [])
  {
    HeaderRoundTrip(m.fields);
  }

  // A header and two sections that were read give their message.
  lemma {:induction false} MessageFrom(
    m: Written, data: Bytes, readQuestion: nat -> Result<(Question, nat), Fault>,
    readAnswer: nat -> Result<(Answer, nat), Fault>,
    questions: Section<Question>, answers: Section<Answer>)
    requires LegalMessage(m) && ReadsHeader(data, m)
    requires SectionAt(readQuestion, |m.questions|, HEADER_LEN) == questions && questions.fault == None
    requires SectionAt(readAnswer, |m.answers|, questions.end) == answers && answers.fault == None
    requires questions.records == Mapped(Told, m.questions) && answers.records == Mapped(AnswerTold, m.answers)
    ensures MessageWith(data, readQuestion, readAnswer) == (MessageTold(m), [])
  {
    CleanMessage(data, readQuestion, readAnswer, questions, answers);
    ReportedFields(m);
  }

  lemma {:induction false} QuestionsReadBack(m: Written, data: Bytes)
    requires Laid(FitsQuestion(data), QuestionSize, HEADER_LEN, m.questions)
    requires Has(data, HEADER_LEN, WriteAll(WriteQuestion, m.questions))
    ensures SectionAt(Questions(data), |m.questions|, HEADER_LEN)
            == Section(Mapped(Told, m.questions), HEADER_LEN + Total(QuestionSize, m.questions), None)
  {
    QuestionsRoundTrip(data, HEADER_LEN, m.questions);
  }

  lemma {:induction false} AnswersReadBack(m: Written, data: Bytes, next: nat)
    requires Laid(FitsAnswer(data), AnswerSize, next, m.answers) && Has(data, next, WriteAll(WriteAnswer, m.answers))
    ensures SectionAt(Answers(data), |m.answers|, next)
            == Section(Mapped(AnswerTold, m.answers), next + Total(AnswerSize, m.answers), None)
  {
    AnswersRoundTrip(data, next, m.answers);
  }

  lemma {:induction false} SectionsReadBack(m: Written, data: Bytes, next: nat)
    requires LegalMessage(m) && ReadsHeader(data, m)
    requires SectionAt(Questions(data), |m.questions|, HEADER_LEN) == Section(Mapped(Told, m.questions), next, None)
    requires SectionAt(Answers(data), |m.answers|, next)
             == Section(Mapped(AnswerTold, m.answers), next + Total(AnswerSize, m.answers), None)
    ensures MessageOf(data) == (MessageTold(m), [])
  {
    MessageFrom(m, data, Questions(data), Answers(data), Section(Mapped(Told, m.questions), next, None),
                Section(Mapped(AnswerTold, m.answers), next + Total(AnswerSize, m.answers), None));
  }

  lemma {:induction false} WrittenReadsBack(m: Written, data: Bytes)
    requires LegalMessage(m) && ReadsHeader(data, m) && MessageFits(data, m)
    requires Has(data, HEADER_LEN, WriteAll(WriteQuestion, m.questions))
    requires Has(data, HEADER_LEN + Total(QuestionSize, m.questions), WriteAll(WriteAnswer, m.answers))
    ensures MessageOf(data) == (MessageTold(m), [])
  {
    var next := HEADER_LEN + Total(QuestionSize, m.questions);
    QuestionsReadBack(m, data);
    AnswersReadBack(m, data, next);
    SectionsReadBack(m, data, next);
  }

  // Every message of up to 64 questions and 64 answers, whose pointers lead back to the rest of their names, reads back
  // as itself, without a fault.
  lemma {:induction false} MessageRoundTrip(m: Written)
    requires LegalMessage(m) && MessageFits(WriteMessage(m), m)
    ensures MessageOf(WriteMessage(m)) == (MessageTold(m), [])
  {
    MessageParts(m);
    HeadersReadBack(WriteMessage(m), m);
    WrittenReadsBack(m, WriteMessage(m));
  }

  // ---------- Messages whose pointers lead into the first question ----------

  // A name without pointer, or with one to some label of the first question's name.
  ghost predicate PointsIn(n: Spelt, labels: seq<Bytes>) {
    n.tail.PointTo? ==> exists k :: 0 <= k <= |labels| && PointsAt(n, labels, k)
  }

  ghost predicate PointsAt(n: Spelt, labels: seq<Bytes>, k: nat)
    requires k <= |labels| && n.tail.PointTo?
  {
    && n.tail == PointTo(HEADER_LEN + Size(labels[..k]), labels[k..])
    && Size(n.labels) + Size(labels[k..]) + 1 <= MAX_NAME
  }

  ghost predicate PutPointsIn(d: Put, labels: seq<Bytes>) {
    match d
    case PutHost(name) => PointsIn(name, labels)
    case PutExchange(_, host) => PointsIn(host, labels)
    case PutAuthority(mname, rname, _) => PointsIn(mname, labels) && PointsIn(rname, labels)
    case _ => true
  }

  // The name of the first question stands behind the header.
  ghost predicate FirstName(data: Bytes, labels: seq<Bytes>) {
    LegalName(labels) && Has(data, HEADER_LEN, WriteName(labels))
  }

  lemma {:induction false} PointingIsAnchored(data: Bytes, offset: nat, n: Spelt, labels: seq<Bytes>)
    requires FirstName(data, labels) && PointsIn(n, labels) && HEADER_LEN + Size(labels) < offset
    ensures Anchored(data, offset, n)
  {
    if n.tail.PointTo? {
      var k :| 0 <= k <= |labels| && PointsAt(n, labels, k);
      SizeSplits(labels, k);
      WrittenNameIsReachable(data, HEADER_LEN, labels, k, Size(n.labels));
    }
  }

  lemma {:induction false} PointingAnswerIsAnchored(data: Bytes, offset: nat, a: Given, labels: seq<Bytes>)
    requires FirstName(data, labels) && HEADER_LEN + Size(labels) < offset
    requires PointsIn(a.name, labels) && PutPointsIn(a.data, labels)
    ensures AnswerAnchored(data, offset, a)
  {
    var start := offset + NameSize(a.name) + 10;
    PointingIsAnchored(data, offset, a.name, labels);
    match a.data
    case PutHost(name) => PointingIsAnchored(data, start, name, labels);
    case PutExchange(_, host) => PointingIsAnchored(data, start + 2, host, labels);
    case PutAuthority(mname, rname, _) =>
      PointingIsAnchored(data, start, mname, labels);
      PointingIsAnchored(data, start + NameSize(mname), rname, labels);
    case _ =>
  }

  // What every record satisfies at all offsets behind some offset, they satisfy one behind the other.
  lemma {:induction false} AllLaid<A(!new)>(stands: (nat, A) -> bool, size: A -> nat, offset: nat, items: seq<A>)
    requires forall o: nat, a :: offset <= o && a in items ==> stands(o, a)
    ensures Laid(stands, size, offset, items)
    decreases |items|
  {
    if items != [] {
      assert items[0] in items && forall a :: a in items[1..] ==> a in items;
      AllLaid(stands, size, offset + size(items[0]), items[1..]);
    }
  }

  // Legal records: a first question without pointer, and then names that end at the root or inside that question's
  // name.
  ghost predicate PointsToQuestion(m: Written) {
    && m.questions != [] && m.questions[0].name.tail.Root?
    && (forall q :: q in m.questions ==> LegalQuestion(q)) && (forall a :: a in m.answers ==> LegalAnswer(a))
    && (forall q :: q in m.questions[1..] ==> PointsIn(q.name, m.questions[0].name.labels))
    && (forall a :: a in m.answers ==>
          PointsIn(a.name, m.questions[0].name.labels) && PutPointsIn(a.data, m.questions[0].name.labels))
  }

  lemma {:induction false} FirstNameStands(m: Written, data: Bytes)
    requires PointsToQuestion(m) && data == WriteMessage(m)
    ensures FirstName(data, m.questions[0].name.labels)
  {
    var q := m.questions[0];
    MessageParts(m);
    assert LegalQuestion(q);
    HasParts(data, HEADER_LEN, WriteQuestion(q), WriteAll(WriteQuestion, m.questions[1..]));
    HasParts(data, HEADER_LEN, WriteSpelt(q.name), Two(q.qtype) + Two(q.qclass));
  }

  lemma {:induction false} PointingMessageIsAnchored(data: Bytes, m: Written)
    requires PointsToQuestion(m) && FirstName(data, m.questions[0].name.labels)
    ensures MessageFits(data, m)
  {
    var q, rest := m.questions[0], m.questions[1..];
    var next := HEADER_LEN + QuestionSize(q);
    forall o: nat, a | next <= o && a in rest ensures FitsQuestion(data)(o, a) {
      PointingIsAnchored(data, o, a.name, q.name.labels);
    }
    AllLaid(FitsQuestion(data), QuestionSize, next, rest);
    forall o: nat, a | next <= o && a in m.answers ensures FitsAnswer(data)(o, a) {
      PointingAnswerIsAnchored(data, o, a, q.name.labels);
    }
    AllLaid(FitsAnswer(data), AnswerSize, HEADER_LEN + Total(QuestionSize, m.questions), m.answers);
  }

  // Such a message reads back as itself: nothing about its bytes has to be known.
  lemma {:induction false} AnswersToAQuestionRoundTrip(m: Written)
    requires LegalMessage(m) && PointsToQuestion(m)
    ensures MessageOf(WriteMessage(m)) == (MessageTold(m), [])
  {
    FirstNameStands(m, WriteMessage(m));
    PointingMessageIsAnchored(WriteMessage(m), m);
    MessageRoundTrip(m);
  }

  // Over TCP a message travels behind its length, and what follows it is ignored.
  lemma {:induction false} PrefixRoundTrip(message: Bytes, rest: Bytes)
    requires |message| < 0x1_0000
    ensures Carried(Two(|message|) + message + rest, true) == message
  {
    var payload := Two(|message|) + message + rest;
    assert payload == Two(|message|) + (message + rest);
    HasParts(payload, 0, Two(|message|), message + rest);
    TwoRoundTrip(payload, 0, |message|);
    assert payload[2..2 + |message|] == message;
  }
}
