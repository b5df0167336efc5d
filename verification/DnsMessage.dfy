// The sections of a DNS message (section 4.1 of RFC 1035): as many records as can be read before the first fault.
module DnsMessage {
  import opened Base
  import opened DnsHeader
  import opened DnsNames

  datatype Fault =
    | PrefixCut | MessageCut | TooManyRecords
    | BadName(error: NameError) | QuestionCut | RecordCut | DataCut | NameBeyondRecord | MxCut | TextCut | SoaCut

  // Faults of a message that ends too early. The others are faults of its structure.
  predicate IsCut(f: Fault) {
    if f.BadName? then f.error in {OutsideMessage, PastMessage, PointerCut, LabelPastMessage}
    else !f.NameBeyondRecord? && !f.TooManyRecords?
  }

  datatype Question = Question(name: string, qtype: nat, typeName: string, qclass: nat)

  datatype Data =
    | Address(bytes: Bytes)
    | Host(name: string)
    | Exchange(preference: nat, host: string)
    | Texts(strings: seq<Bytes>)
    | Authority(mname: string, rname: string, numbers: seq<nat>)
    | Raw(raw: Bytes)

  datatype Answer = Answer(name: string, rtype: nat, typeName: string, rclass: nat, ttl: nat, data: Data)

  // ---------- Numbers ----------

  // The number that some bytes of a message hold, the highest byte first.
  function Number(data: Bytes, start: nat, width: nat): nat
    requires start + width <= |data|
  {
    if width == 0 then 0 else Number(data, start, width - 1) * 256 + data[start + width - 1]
  }

  // ---------- What one record means ----------

  function QuestionAt(data: Bytes, offset: nat): (r: Result<(Question, nat), Fault>)
    ensures r.Ok? ==> offset + 5 <= r.value.1 <= |data|
  {
    match NameAt(data, offset)
    case Err(e) => Err(BadName(e))
    case Ok(name) =>
      var p := name.after;
      if p + 4 > |data| then Err(QuestionCut)
      else
        var qtype := Number(data, p, 2);
        Ok((Question(Joined(name.labels), qtype, TypeName(qtype), Number(data, p + 2, 2)), p + 4))
  }

  function HostAt(data: Bytes, start: nat, end: nat): Result<string, Fault> {
    match NameAt(data, start)
    case Err(e) => Err(BadName(e))
    case Ok(name) => if name.after > end then Err(NameBeyondRecord) else Ok(Joined(name.labels))
  }

  // The strings of a text record.
  function TextsAt(data: Bytes, position: nat, end: nat): Result<seq<Bytes>, Fault>
    requires end <= |data|
    decreases end - position
  {
    if position >= end then Ok([])
    else
      var next := position + 1 + data[position];
      if next > end then Err(TextCut)
      else
        match TextsAt(data, next, end)
        case Err(e) => Err(e)
        case Ok(rest) => Ok([data[position + 1..next]] + rest)
  }

  function FiveNumbers(data: Bytes, p: nat): seq<nat>
    requires p + 20 <= |data|
  {
    [Number(data, p, 4), Number(data, p + 4, 4), Number(data, p + 8, 4), Number(data, p + 12, 4),
     Number(data, p + 16, 4)]
  }

  function AuthorityAt(data: Bytes, start: nat, end: nat): Result<Data, Fault>
    requires end <= |data|
  {
    match NameAt(data, start)
    case Err(e) => Err(BadName(e))
    case Ok(mname) =>
      match NameAt(data, mname.after)
      case Err(e) => Err(BadName(e))
      case Ok(rname) =>
        var p := rname.after;
        if p + 20 > end then Err(SoaCut)
        else Ok(Authority(Joined(mname.labels), Joined(rname.labels),
                          FiveNumbers(data, p)))
  }

  function DataAt(data: Bytes, rtype: nat, start: nat, end: nat): Result<Data, Fault>
    requires start <= end <= |data|
  {
    if rtype == TYPE_A && end - start == 4 then Ok(Address(data[start..end]))
    else if rtype == TYPE_AAAA && end - start == 16 then Ok(Address(data[start..end]))
    else if rtype in {TYPE_CNAME, TYPE_NS, TYPE_PTR} then
      match HostAt(data, start, end)
      case Err(e) => Err(e)
      case Ok(name) => Ok(Host(name))
    else if rtype == TYPE_MX then
      if end - start < 3 then Err(MxCut)
      else
        match HostAt(data, start + 2, end)
        case Err(e) => Err(e)
        case Ok(name) => Ok(Exchange(Number(data, start, 2), name))
    else if rtype == TYPE_TXT then
      match TextsAt(data, start, end)
      case Err(e) => Err(e)
      case Ok(strings) => Ok(Texts(strings))
    else if rtype == TYPE_SOA then AuthorityAt(data, start, end)
    else Ok(Raw(data[start..end]))
  }

  function AnswerAt(data: Bytes, offset: nat): (r: Result<(Answer, nat), Fault>)
    ensures r.Ok? ==> offset + 11 <= r.value.1 <= |data|
  {
    match NameAt(data, offset)
    case Err(e) => Err(BadName(e))
    case Ok(name) =>
      var p := name.after;
      if p + 10 > |data| then Err(RecordCut)
      else
        var rtype, start := Number(data, p, 2), p + 10;
        var end := start + Number(data, p + 8, 2);
        if end > |data| then Err(DataCut)
        else
          match DataAt(data, rtype, start, end)
          case Err(e) => Err(e)
          case Ok(d) =>
            Ok((Answer(Joined(name.labels), rtype, TypeName(rtype), Number(data, p + 2, 2), Number(data, p + 4, 4), d),
                end))
  }

  // ---------- What a section means ----------

  // The records read, the offset after them, and the fault that stopped the reading.
  datatype Section<T> = Section(records: seq<T>, end: nat, fault: Option<Fault>)

  function SectionAt<T>(read: nat -> Result<(T, nat), Fault>, count: nat, offset: nat): Section<T> {
    if count == 0 then Section([], offset, None)
    else
      match read(offset)
      case Err(e) => Section([], offset, Some(e))
      case Ok((record, next)) => Following([record], SectionAt(read, count - 1, next))
  }

  function Following<T>(records: seq<T>, rest: Section<T>): Section<T> {
    Section(records + rest.records, rest.end, rest.fault)
  }

  // Each record starts where the one before it ended.
  ghost predicate Chained<T>(read: nat -> Result<(T, nat), Fault>, offset: nat, records: seq<T>, starts: seq<nat>) {
    && |starts| == |records| + 1 && starts[0] == offset
    && forall i {:trigger records[i]} :: 0 <= i < |records| ==> read(starts[i]) == Ok((records[i], starts[i + 1]))
  }

  // A section is the longest chain of readable records from its offset, up to the count: it stops early exactly
  // where the next record cannot be read, with the fault of that record.
  lemma {:induction false} SectionIsLongestChain<T>(read: nat -> Result<(T, nat), Fault>, count: nat, offset: nat)
      returns (starts: seq<nat>)
    ensures var s := SectionAt(read, count, offset);
            && Chained(read, offset, s.records, starts)
            && |s.records| <= count && s.end == starts[|s.records|]
            && (s.fault.None? <==> |s.records| == count)
            && (s.fault.Some? ==> read(s.end) == Err(s.fault.value))
    decreases count
  {
    var s := SectionAt(read, count, offset);
    if count == 0 || read(offset).Err? {
      starts := [offset];
    } else {
      var (record, next) := read(offset).value;
      var tail := SectionAt(read, count - 1, next);
      var more := SectionIsLongestChain(read, count - 1, next);
      starts := [offset] + more;
      assert s.records == [record] + tail.records;
      forall i {:trigger s.records[i]} | 0 <= i < |s.records|
        ensures read(starts[i]) == Ok((s.records[i], starts[i + 1]))
      {
        if i > 0 {
          assert s.records[i] == tail.records[i - 1];
        }
      }
    }
  }

  // When every record takes at least some bytes and stays inside the message, so does the section: its records
  // cannot be more than its bytes allow.
  lemma {:induction false} SectionAdvances<T>(
    read: nat -> Result<(T, nat), Fault>, count: nat, offset: nat, least: nat, size: nat)
    requires forall o: nat :: read(o).Ok? ==> o + least <= read(o).value.1 <= size
    ensures var s := SectionAt(read, count, offset);
            && offset + Times(|s.records|, least) <= s.end
            && (s.records != [] ==> s.end <= size)
    decreases count
  {
    if count > 0 && read(offset).Ok? {
      SectionAdvances(read, count - 1, read(offset).value.1, least, size);
    }
  }

  function Times(n: nat, each: nat): nat {
    if n == 0 then 0 else each + Times(n - 1, each)
  }

  function Questions(data: Bytes): nat -> Result<(Question, nat), Fault> { (o: nat) => QuestionAt(data, o) }

  function Answers(data: Bytes): nat -> Result<(Answer, nat), Fault> { (o: nat) => AnswerAt(data, o) }

  // ---------- The loops ----------

  lemma {:induction false} OneMore<T>(
    read: nat -> Result<(T, nat), Fault>, count: nat, offset: nat, records: seq<T>)
    requires count > 0 && read(offset).Ok?
    ensures Following(records, SectionAt(read, count, offset))
            == Following(records + [read(offset).value.0], SectionAt(read, count - 1, read(offset).value.1))
  {
    var tail := SectionAt(read, count - 1, read(offset).value.1);
    assert records + ([read(offset).value.0] + tail.records) == (records + [read(offset).value.0]) + tail.records;
  }

  lemma {:induction false} NoneBefore<T>(s: Section<T>)
    ensures Following([], s) == s
  {
    assert [] + s.records == s.records;
  }

  lemma {:induction false} NoneAfter<T>(records: seq<T>, end: nat, fault: Option<Fault>)
    ensures Following(records, Section([], end, fault)) == Section(records, end, fault)
  {
    assert records + [] == records;
  }

  function Noted(faults: seq<Fault>, fault: Option<Fault>): seq<Fault> {
    if fault.Some? then faults + [fault.value] else faults
  }

  lemma {:induction false} NextText(data: Bytes, position: nat, end: nat, strings: seq<Bytes>)
    requires end <= |data| && position < end && position + 1 + data[position] <= end
    ensures var next := position + 1 + data[position];
            Onto(strings, TextsAt(data, position, end))
              == Onto(strings + [data[position + 1..next]], TextsAt(data, next, end))
  {
    var next := position + 1 + data[position];
    var rest, found := TextsAt(data, next, end), data[position + 1..next];
    assert rest.Ok? ==> strings + ([found] + rest.value) == (strings + [found]) + rest.value;
  }

  method ReadTexts(data: Bytes, start: nat, end: nat) returns (r: Result<Data, Fault>)
    requires start <= end <= |data|
    ensures r == MapTexts(TextsAt(data, start, end))
  {
    var strings: seq<Bytes>, position: nat := [], start;
    ghost var whole := TextsAt(data, start, end);
    assert whole.Ok? ==> strings + whole.value == whole.value;
    while position < end
      invariant whole == Onto(strings, TextsAt(data, position, end))
    {
      var size := data[position];
      position := position + 1;
      if position + size > end {
        return Err(TextCut);
      }
      NextText(data, position - 1, end, strings);
      strings := strings + [data[position..position + size]];
      position := position + size;
    }
    assert strings + [] == strings;
    return Ok(Texts(strings));
  }

  function Onto(strings: seq<Bytes>, rest: Result<seq<Bytes>, Fault>): Result<seq<Bytes>, Fault> {
    match rest
    case Ok(more) => Ok(strings + more)
    case Err(e) => Err(e)
  }

  function MapTexts(r: Result<seq<Bytes>, Fault>): Result<Data, Fault> {
    match r
    case Ok(strings) => Ok(Texts(strings))
    case Err(e) => Err(e)
  }

  method ReadAuthority(data: Bytes, start: nat, end: nat) returns (r: Result<Data, Fault>)
    requires end <= |data|
    ensures r == AuthorityAt(data, start, end)
  {
    var mname, _ := ReadName(data, start);
    if mname.Err? {
      return Err(BadName(mname.error));
    }
    var rname, _ := ReadName(data, mname.value.1);
    if rname.Err? {
      return Err(BadName(rname.error));
    }
    var position := rname.value.1;
    if position + 20 > end {
      return Err(SoaCut);
    }
    r := Ok(Authority(mname.value.0, rname.value.0,
                      FiveNumbers(data, position)));
  }

  method ReadData(data: Bytes, rtype: nat, start: nat, end: nat) returns (r: Result<Data, Fault>)
    requires start <= end <= |data|
    ensures r == DataAt(data, rtype, start, end)
  {
    if rtype == TYPE_A && end - start == 4 {
      return Ok(Address(data[start..end]));
    }
    if rtype == TYPE_AAAA && end - start == 16 {
      return Ok(Address(data[start..end]));
    }
    if rtype in {TYPE_CNAME, TYPE_NS, TYPE_PTR} {
      var name, _ := ReadName(data, start);
      if name.Err? {
        return Err(BadName(name.error));
      }
      if name.value.1 > end {
        return Err(NameBeyondRecord);
      }
      return Ok(Host(name.value.0));
    }
    if rtype == TYPE_MX {
      if end - start < 3 {
        return Err(MxCut);
      }
      var name, _ := ReadName(data, start + 2);
      if name.Err? {
        return Err(BadName(name.error));
      }
      if name.value.1 > end {
        return Err(NameBeyondRecord);
      }
      return Ok(Exchange(Number(data, start, 2), name.value.0));
    }
    if rtype == TYPE_TXT {
      r := ReadTexts(data, start, end);
      return;
    }
    if rtype == TYPE_SOA {
      r := ReadAuthority(data, start, end);
      return;
    }
    return Ok(Raw(data[start..end]));
  }

  method ReadAnswer(data: Bytes, offset: nat) returns (r: Result<(Answer, nat), Fault>)
    ensures r == AnswerAt(data, offset)
  {
    var name, _ := ReadName(data, offset);
    if name.Err? {
      return Err(BadName(name.error));
    }
    var position := name.value.1;
    if position + 10 > |data| {
      return Err(RecordCut);
    }
    var rtype := Number(data, position, 2);
    var rclass := Number(data, position + 2, 2);
    var ttl := Number(data, position + 4, 4);
    var start := position + 10;
    var end := start + Number(data, position + 8, 2);
    if end > |data| {
      return Err(DataCut);
    }
    var d := ReadData(data, rtype, start, end);
    r := match d
         case Err(e) => Err(e)
         case Ok(value) => Ok((Answer(name.value.0, rtype, TypeName(rtype), rclass, ttl, value), end));
  }

  // ---------- The two sections ----------

  // What one record read adds to a section.
  lemma {:induction false} RecordStep<T>(
    section: Section<T>, read: nat -> Result<(T, nat), Fault>, count: nat, offset: nat, records: seq<T>,
    found: Result<(T, nat), Fault>)
    returns (rest: Section<T>)
    requires count > 0 && found == read(offset) && section == Following(records, SectionAt(read, count, offset))
    ensures found.Err? ==> section == Section(records, offset, Some(found.error))
    ensures found.Ok? ==>
              rest == SectionAt(read, count - 1, found.value.1) && section == Following(records + [found.value.0], rest)
  {
    if found.Err? {
      NoneAfter(records, offset, Some(found.error));
      rest := section;
    } else {
      OneMore(read, count, offset, records);
      rest := SectionAt(read, count - 1, found.value.1);
    }
  }

  method ReadQuestion(data: Bytes, offset: nat) returns (r: Result<(Question, nat), Fault>)
    ensures r == QuestionAt(data, offset)
  {
    var name, _ := ReadName(data, offset);
    if name.Err? {
      return Err(BadName(name.error));
    }
    var position := name.value.1;
    if position + 4 > |data| {
      return Err(QuestionCut);
    }
    var qtype := Number(data, position, 2);
    var qclass := Number(data, position + 2, 2);
    r := Ok((Question(name.value.0, qtype, TypeName(qtype), qclass), position + 4));
  }

  // The meaning of one record, as a value that the loop passes on.
  ghost predicate ReadsQuestions(read: nat -> Result<(Question, nat), Fault>, data: Bytes) {
    forall o: nat {:trigger QuestionAt(data, o)} :: read(o) == QuestionAt(data, o)
  }

  ghost predicate ReadsAnswers(read: nat -> Result<(Answer, nat), Fault>, data: Bytes) {
    forall o: nat {:trigger AnswerAt(data, o)} :: read(o) == AnswerAt(data, o)
  }

  // The loops, for any value that stands for the meaning of the records.
  method ReadQuestionsAs(
    data: Bytes, count: nat, offset: nat, faults: seq<Fault>, ghost read: nat -> Result<(Question, nat), Fault>)
    returns (questions: seq<Question>, end: nat, noted: seq<Fault>)
    requires ReadsQuestions(read, data)
    ensures var s := SectionAt(read, count, offset);
            questions == s.records && end == s.end && noted == Noted(faults, s.fault)
  {
    ghost var section := SectionAt(read, count, offset);
    NoneBefore(section);
    questions, end, noted := [], offset, faults;
    for i := 0 to count
      invariant section == Following(questions, SectionAt(read, count - i, end))
      invariant noted == faults
    {
      var question := ReadQuestion(data, end);
      ghost var _ := RecordStep(section, read, count - i, end, questions, question);
      if question.Err? {
        noted := noted + [question.error];
        return;
      }
      questions, end := questions + [question.value.0], question.value.1;
    }
    NoneAfter(questions, end, None);
  }

  method ReadQuestions(data: Bytes, count: nat, offset: nat, faults: seq<Fault>)
    returns (questions: seq<Question>, end: nat, noted: seq<Fault>)
    ensures var s := SectionAt(Questions(data), count, offset);
            questions == s.records && end == s.end && noted == Noted(faults, s.fault)
  {
    questions, end, noted := ReadQuestionsAs(data, count, offset, faults, Questions(data));
  }

  method ReadAnswersAs(
    data: Bytes, count: nat, offset: nat, faults: seq<Fault>, ghost read: nat -> Result<(Answer, nat), Fault>)
    returns (answers: seq<Answer>, end: nat, noted: seq<Fault>)
    requires ReadsAnswers(read, data)
    ensures var s := SectionAt(read, count, offset);
            answers == s.records && end == s.end && noted == Noted(faults, s.fault)
  {
    ghost var section := SectionAt(read, count, offset);
    NoneBefore(section);
    answers, end, noted := [], offset, faults;
    for i := 0 to count
      invariant section == Following(answers, SectionAt(read, count - i, end))
      invariant noted == faults
    {
      var answer := ReadAnswer(data, end);
      ghost var _ := RecordStep(section, read, count - i, end, answers, answer);
      if answer.Err? {
        noted := noted + [answer.error];
        return;
      }
      answers, end := answers + [answer.value.0], answer.value.1;
    }
    NoneAfter(answers, end, None);
  }

  method ReadAnswers(data: Bytes, count: nat, offset: nat, faults: seq<Fault>)
    returns (answers: seq<Answer>, end: nat, noted: seq<Fault>)
    ensures var s := SectionAt(Answers(data), count, offset);
            answers == s.records && end == s.end && noted == Noted(faults, s.fault)
  {
    answers, end, noted := ReadAnswersAs(data, count, offset, faults, Answers(data));
  }

  // ---------- A whole message ----------

  const HEADER_LEN := 12
  const MAX_RECORDS := 64

  // A message as it is reported: partial when anything in it could not be read.
  datatype Message = Message(
    id: nat, header: Header, rcodeName: string, counts: seq<nat>, questions: seq<Question>, answers: seq<Answer>,
    partial: bool)

  // What is reported when even the header is cut.
  const NO_MESSAGE := Message(0, Header(false, 0, [], 0), "", [0, 0, 0, 0], [], [], true)

  function Counts(data: Bytes): (counts: seq<nat>)
    requires |data| >= HEADER_LEN
    ensures |counts| == 4
  {
    [Number(data, 4, 2), Number(data, 6, 2), Number(data, 8, 2), Number(data, 10, 2)]
  }

  // The report of what was read: the header word told apart, and partial exactly when there is a fault.
  function Reported(id: nat, word: nat, counts: seq<nat>, questions: seq<Question>, answers: seq<Answer>,
                    faults: seq<Fault>)
    : (Message, seq<Fault>)
  {
    var header := HeaderOf(word);
    (Message(id, header, RcodeName(header.rcode), counts, questions, answers, faults != []), faults)
  }

  // What a message says, as far as its questions and answers can be read, and the faults in the order of the reading.
  function MessageWith(
    data: Bytes, readQuestion: nat -> Result<(Question, nat), Fault>, readAnswer: nat -> Result<(Answer, nat), Fault>)
    : (Message, seq<Fault>)
    requires |data| >= HEADER_LEN
  {
    var counts := Counts(data);
    var questions := SectionAt(readQuestion, Min(counts[0], MAX_RECORDS), HEADER_LEN);
    var answers := SectionAt(readAnswer, Min(counts[1], MAX_RECORDS), questions.end);
    var limit := if counts[0] > MAX_RECORDS || counts[1] > MAX_RECORDS then [TooManyRecords] else [];
    Reported(Number(data, 0, 2), Number(data, 2, 2), counts, questions.records, answers.records,
         Noted(Noted(limit, questions.fault), answers.fault))
  }

  function MessageOf(data: Bytes): (Message, seq<Fault>)
    requires |data| >= HEADER_LEN
  {
    MessageWith(data, Questions(data), Answers(data))
  }

  predicate HeaderCut(payload: Bytes, tcp: bool) { (tcp && |payload| < 2) || |Carried(payload, tcp)| < HEADER_LEN }

  // One message, behind the length that TCP puts before it.
  method ReadMessage(payload: Bytes, tcp: bool) returns (m: Message, faults: seq<Fault>)
    ensures HeaderCut(payload, tcp) ==>
              && m == Message(0, Header(false, 0, [], 0), "", [0, 0, 0, 0], [], [], true)
              && faults == [if tcp && |payload| < 2 then PrefixCut else MessageCut]
    ensures !HeaderCut(payload, tcp) ==> (m, faults) == MessageOf(Carried(payload, tcp))
    ensures m.partial <==> faults != []
  {
    var data := payload;
    if tcp {
      if |payload| < 2 {
        return NO_MESSAGE, [PrefixCut];
      }
      data := payload[2..2 + Min(Number(payload, 0, 2), |payload| - 2)];
    }
    if |data| < HEADER_LEN {
      return NO_MESSAGE, [MessageCut];
    }
    var word, counts := Number(data, 2, 2), Counts(data);
    faults := [];
    if counts[0] > MAX_RECORDS || counts[1] > MAX_RECORDS {
      faults := faults + [TooManyRecords];
      assert faults == [TooManyRecords];
    }
    var questions, offset, answers, end;
    questions, offset, faults := ReadQuestions(data, Min(counts[0], MAX_RECORDS), HEADER_LEN, faults);
    answers, end, faults := ReadAnswers(data, Min(counts[1], MAX_RECORDS), offset, faults);
    var header := HeaderOf(word);
    m := Message(Number(data, 0, 2), header, RcodeName(header.rcode), counts, questions, answers, faults != []);
  }

  // The message itself: TCP carries its length before it.
  function Carried(payload: Bytes, tcp: bool): Bytes {
    if tcp && |payload| >= 2 then payload[2..2 + Min(Number(payload, 0, 2), |payload| - 2)] else payload
  }

  // The two sections lie one after the other behind the header, inside the message: the numbers of questions
  // and answers read are bounded by its bytes, whatever its counts say.
  lemma {:induction false} SectionsFitTheMessage(data: Bytes, asked: nat, answered: nat)
    requires |data| >= HEADER_LEN
    ensures var questions := SectionAt(Questions(data), asked, HEADER_LEN);
            var answers := SectionAt(Answers(data), answered, questions.end);
            && HEADER_LEN <= questions.end <= answers.end <= |data|
            && 5 * |questions.records| <= questions.end - HEADER_LEN
            && 11 * |answers.records| <= answers.end - questions.end
  {
    var questions := SectionAt(Questions(data), asked, HEADER_LEN);
    var answers := SectionAt(Answers(data), answered, questions.end);
    SectionAdvances(Questions(data), asked, HEADER_LEN, 5, |data|);
    SectionAdvances(Answers(data), answered, questions.end, 11, |data|);
    TimesIsProduct(|questions.records|, 5);
    TimesIsProduct(|answers.records|, 11);
    EmptySectionStays(Questions(data), asked, HEADER_LEN);
    EmptySectionStays(Answers(data), answered, questions.end);
  }

  lemma {:induction false} EmptySectionStays<T>(read: nat -> Result<(T, nat), Fault>, count: nat, offset: nat)
    ensures var s := SectionAt(read, count, offset); s.records == [] ==> s.end == offset
  {
  }

  lemma {:induction false} TimesIsProduct(n: nat, each: nat)
    ensures Times(n, each) == n * each
  {
    if n > 0 {
      TimesIsProduct(n - 1, each);
    }
  }
}
