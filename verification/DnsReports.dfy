// What a report of a DNS message tells: how many records it shows, and what a cut at the end of the message changes.
module DnsReports {
  import opened Base
  import opened DnsHeader
  import opened DnsNames
  import opened DnsMessage

  // ---------- How many records are shown ----------

  lemma {:induction false} TwoBytes(data: Bytes, start: nat)
    requires start + 2 <= |data|
    ensures Number(data, start, 2) == data[start] as int * 256 + data[start + 1] as int
  {
    assert Number(data, start, 0) == 0;
    assert Number(data, start, 1) == data[start];
  }

  lemma {:induction false} HostIsNoLimit(data: Bytes, start: nat, end: nat)
    ensures HostAt(data, start, end) != Err(TooManyRecords)
  {
  }

  lemma {:induction false} TextsAreNoLimit(data: Bytes, position: nat, end: nat)
    requires end <= |data|
    ensures TextsAt(data, position, end) != Err(TooManyRecords)
    decreases end - position
  {
    if position < end && position + 1 + data[position] <= end {
      TextsAreNoLimit(data, position + 1 + data[position], end);
    }
  }

  lemma {:induction false} AuthorityIsNoLimit(data: Bytes, start: nat, end: nat)
    requires end <= |data|
    ensures AuthorityAt(data, start, end) != Err(TooManyRecords)
  {
  }

  lemma {:induction false} DataIsNoLimit(data: Bytes, rtype: nat, start: nat, end: nat)
    requires start <= end <= |data|
    ensures DataAt(data, rtype, start, end) != Err(TooManyRecords)
  {
    HostIsNoLimit(data, start, end);
    HostIsNoLimit(data, start + 2, end);
    TextsAreNoLimit(data, start, end);
    AuthorityIsNoLimit(data, start, end);
  }

  lemma {:induction false} RecordIsNoLimit(data: Bytes, offset: nat)
    ensures QuestionAt(data, offset) != Err(TooManyRecords)
    ensures AnswerAt(data, offset) != Err(TooManyRecords)
  {
    if NameAt(data, offset).Ok? && NameAt(data, offset).value.after + 10 <= |data| {
      var p := NameAt(data, offset).value.after;
      var start := p + 10;
      var end := start + Number(data, p + 8, 2);
      if end <= |data| {
        DataIsNoLimit(data, Number(data, p, 2), start, end);
      }
    }
  }

  lemma {:induction false} SectionIsNoLimit<T>(read: nat -> Result<(T, nat), Fault>, count: nat, offset: nat)
    requires forall o: nat :: read(o) != Err(TooManyRecords)
    ensures var s := SectionAt(read, count, offset);
            s.fault != Some(TooManyRecords) && |s.records| <= count && (s.fault.None? ==> |s.records| == count)
  {
    var _ := SectionIsLongestChain(read, count, offset);
  }

  predicate Capped(m: Message, faults: seq<Fault>, asked: nat, answered: nat) {
    && |m.questions| <= 64 && |m.answers| <= 64
    && (TooManyRecords in faults <==> asked > 64 || answered > 64)
    && (!m.partial ==> |m.questions| == asked && |m.answers| == answered)
  }

  lemma {:induction false} SectionsAreCapped(
    questions: Section<Question>, answers: Section<Answer>, id: nat, word: nat, counts: seq<nat>)
    requires |counts| == 4 && questions.fault != Some(TooManyRecords) && answers.fault != Some(TooManyRecords)
    requires |questions.records| <= Min(counts[0], 64) && |answers.records| <= Min(counts[1], 64)
    requires questions.fault.None? ==> |questions.records| == Min(counts[0], 64)
    requires answers.fault.None? ==> |answers.records| == Min(counts[1], 64)
    ensures var limit := if counts[0] > MAX_RECORDS || counts[1] > MAX_RECORDS then [TooManyRecords] else [];
            var (m, faults) := Reported(id, word, counts, questions.records, answers.records,
                                        Noted(Noted(limit, questions.fault), answers.fault));
            Capped(m, faults, counts[0], counts[1])
  {
  }

  lemma {:induction false} MessageIsCapped(
    data: Bytes, readQuestion: nat -> Result<(Question, nat), Fault>, readAnswer: nat -> Result<(Answer, nat), Fault>)
    requires |data| >= HEADER_LEN
    requires forall o: nat :: readQuestion(o) != Err(TooManyRecords)
    requires forall o: nat :: readAnswer(o) != Err(TooManyRecords)
    ensures var (m, faults) := MessageWith(data, readQuestion, readAnswer);
            m.counts == Counts(data) && Capped(m, faults, Counts(data)[0], Counts(data)[1])
  {
    var counts := Counts(data);
    var asked, answered := Min(counts[0], MAX_RECORDS), Min(counts[1], MAX_RECORDS);
    var questions := SectionAt(readQuestion, asked, HEADER_LEN);
    var answers := SectionAt(readAnswer, answered, questions.end);
    SectionIsNoLimit(readQuestion, asked, HEADER_LEN);
    SectionIsNoLimit(readAnswer, answered, questions.end);
    SectionsAreCapped(questions, answers, Number(data, 0, 2), Number(data, 2, 2), counts);
  }

  lemma {:induction false} CountsAreTheirBytes(data: Bytes)
    requires |data| >= HEADER_LEN
    ensures Counts(data)[0] == data[4] as int * 256 + data[5] as int
    ensures Counts(data)[1] == data[6] as int * 256 + data[7] as int
  {
    TwoBytes(data, 4);
    TwoBytes(data, 6);
  }

  // A report shows at most 64 questions and 64 answers, and has the limit fault exactly when the header announces more
  // of either. A report that is not partial shows as many as the header announces.
  lemma {:induction false} RecordsAreCapped(data: Bytes)
    requires |data| >= 12
    ensures Capped(MessageOf(data).0, MessageOf(data).1, data[4] as int * 256 + data[5] as int,
                   data[6] as int * 256 + data[7] as int)
  {
    CountsAreTheirBytes(data);
    forall o: nat ensures Questions(data)(o) != Err(TooManyRecords) && Answers(data)(o) != Err(TooManyRecords) {
      RecordIsNoLimit(data, o);
    }
    MessageIsCapped(data, Questions(data), Answers(data));
  }

  // ---------- What a cut changes ----------

  // The limit, and the faults that are broken structure rather than bytes that lie behind the end.
  lemma {:induction false} FaultsThatAreNoCut(f: Fault)
    ensures !IsCut(f)
            <==> f in {TooManyRecords, NameBeyondRecord, BadName(ForwardPointer), BadName(TooManyJumps),
                       BadName(LabelTooLong), BadName(NameTooLong)}
  {
    if f.BadName? {
      match f.error
      case OutsideMessage => assert IsCut(f);
      case PastMessage => assert IsCut(f);
      case PointerCut => assert IsCut(f);
      case LabelPastMessage => assert IsCut(f);
      case ForwardPointer =>
      case TooManyJumps =>
      case LabelTooLong =>
      case NameTooLong =>
    }
  }

  // What was read at some place is the same in the longer message, unless it failed for want of bytes.
  predicate Stays<T(==)>(r: Result<T, Fault>, s: Result<T, Fault>) {
    (r.Err? && IsCut(r.error)) || s == r
  }

  lemma {:induction false} StepStays(data: Bytes, longer: Bytes, position: nat, length: nat, jumps: nat)
    requires data <= longer
    ensures var s := StepAt(data, position, length, jumps);
            (s.Fault? && IsCut(BadName(s.error))) || StepAt(longer, position, length, jumps) == s
  {
  }

  predicate NameStands(r: Result<Name, NameError>, s: Result<Name, NameError>) {
    (r.Err? && IsCut(BadName(r.error))) || s == r
  }

  lemma {:induction false} NameFromStays(data: Bytes, longer: Bytes, position: nat, length: nat, jumps: nat)
    requires data <= longer && jumps <= MAX_JUMPS
    ensures NameStands(NameFrom(data, position, length, jumps), NameFrom(longer, position, length, jumps))
    decreases MAX_JUMPS - jumps, |data| - position
  {
    StepStays(data, longer, position, length, jumps);
    match StepAt(data, position, length, jumps)
    case Stop =>
    case Take(size) =>
      NameFromStays(data, longer, position + 1 + size, length + size + 1, jumps);
      assert data[position + 1..position + 1 + size] == longer[position + 1..position + 1 + size];
    case Follow(target) => NameFromStays(data, longer, target, length, jumps + 1);
    case Fault(_) =>
  }

  lemma {:induction false} NameStays(data: Bytes, longer: Bytes, offset: nat)
    requires data <= longer
    ensures NameStands(NameAt(data, offset), NameAt(longer, offset))
  {
    NameFromStays(data, longer, offset, 0, 0);
  }

  lemma {:induction false} NumberStays(data: Bytes, longer: Bytes, start: nat, width: nat)
    requires data <= longer && start + width <= |data|
    ensures Number(longer, start, width) == Number(data, start, width)
  {
    if width > 0 {
      NumberStays(data, longer, start, width - 1);
    }
  }

  lemma {:induction false} QuestionStays(data: Bytes, longer: Bytes, offset: nat)
    requires data <= longer
    ensures Stays(QuestionAt(data, offset), QuestionAt(longer, offset))
  {
    NameStays(data, longer, offset);
    if NameAt(data, offset).Ok? && NameAt(data, offset).value.after + 4 <= |data| {
      var p := NameAt(data, offset).value.after;
      NumberStays(data, longer, p, 2);
      NumberStays(data, longer, p + 2, 2);
    }
  }

  lemma {:induction false} HostStays(data: Bytes, longer: Bytes, start: nat, end: nat)
    requires data <= longer
    ensures Stays(HostAt(data, start, end), HostAt(longer, start, end))
  {
    NameStays(data, longer, start);
  }

  lemma {:induction false} TextsStay(data: Bytes, longer: Bytes, position: nat, end: nat)
    requires data <= longer && end <= |data|
    ensures TextsAt(longer, position, end) == TextsAt(data, position, end)
    decreases end - position
  {
    if position < end && position + 1 + data[position] <= end {
      var next := position + 1 + data[position];
      TextsStay(data, longer, next, end);
      assert data[position + 1..next] == longer[position + 1..next];
    }
  }

  lemma {:induction false} FiveNumbersStay(data: Bytes, longer: Bytes, p: nat)
    requires data <= longer && p + 20 <= |data|
    ensures FiveNumbers(longer, p) == FiveNumbers(data, p)
  {
    NumberStays(data, longer, p, 4);
    NumberStays(data, longer, p + 4, 4);
    NumberStays(data, longer, p + 8, 4);
    NumberStays(data, longer, p + 12, 4);
    NumberStays(data, longer, p + 16, 4);
  }

  lemma {:induction false} AuthorityStays(data: Bytes, longer: Bytes, start: nat, end: nat)
    requires data <= longer && end <= |data|
    ensures Stays(AuthorityAt(data, start, end), AuthorityAt(longer, start, end))
  {
    NameStays(data, longer, start);
    if NameAt(data, start).Ok? {
      var mname := NameAt(data, start).value;
      NameStays(data, longer, mname.after);
      if NameAt(data, mname.after).Ok? && NameAt(data, mname.after).value.after + 20 <= end {
        FiveNumbersStay(data, longer, NameAt(data, mname.after).value.after);
      }
    }
  }

  lemma {:induction false} DataStays(data: Bytes, longer: Bytes, rtype: nat, start: nat, end: nat)
    requires data <= longer && start <= end <= |data|
    ensures Stays(DataAt(data, rtype, start, end), DataAt(longer, rtype, start, end))
  {
    assert data[start..end] == longer[start..end];
    HostStays(data, longer, start, end);
    HostStays(data, longer, start + 2, end);
    if end - start >= 3 {
      NumberStays(data, longer, start, 2);
    }
    TextsStay(data, longer, start, end);
    AuthorityStays(data, longer, start, end);
  }

  lemma {:induction false} RecordHeadStays(data: Bytes, longer: Bytes, p: nat)
    requires data <= longer && p + 10 <= |data|
    ensures Number(longer, p, 2) == Number(data, p, 2) && Number(longer, p + 2, 2) == Number(data, p + 2, 2)
    ensures Number(longer, p + 4, 4) == Number(data, p + 4, 4) && Number(longer, p + 8, 2) == Number(data, p + 8, 2)
  {
    NumberStays(data, longer, p, 2);
    NumberStays(data, longer, p + 2, 2);
    NumberStays(data, longer, p + 4, 4);
    NumberStays(data, longer, p + 8, 2);
  }

  // A record with its numbers, when its data is read.
  function AnswerWith(name: string, rtype: nat, rclass: nat, ttl: nat, end: nat, d: Result<Data, Fault>)
    : Result<(Answer, nat), Fault>
  {
    match d
    case Err(e) => Err(e)
    case Ok(value) => Ok((Answer(name, rtype, TypeName(rtype), rclass, ttl, value), end))
  }

  lemma {:induction false} AnswerParts(data: Bytes, offset: nat, p: nat, end: nat)
    requires NameAt(data, offset).Ok? && p == NameAt(data, offset).value.after && p + 10 <= |data|
    requires end == p + 10 + Number(data, p + 8, 2) <= |data|
    ensures AnswerAt(data, offset)
            == AnswerWith(Joined(NameAt(data, offset).value.labels), Number(data, p, 2), Number(data, p + 2, 2),
                          Number(data, p + 4, 4), end, DataAt(data, Number(data, p, 2), p + 10, end))
  {
  }

  lemma {:induction false} CutData(data: Bytes, offset: nat, p: nat)
    requires NameAt(data, offset).Ok? && p == NameAt(data, offset).value.after && p + 10 <= |data|
    requires p + 10 + Number(data, p + 8, 2) > |data|
    ensures AnswerAt(data, offset) == Err(DataCut)
  {
  }

  lemma {:induction false} NamedAnswerStays(data: Bytes, longer: Bytes, offset: nat, p: nat)
    requires data <= longer && NameAt(data, offset).Ok? && NameAt(longer, offset) == NameAt(data, offset)
    requires p == NameAt(data, offset).value.after && p + 10 <= |data|
    ensures Stays(AnswerAt(data, offset), AnswerAt(longer, offset))
  {
    RecordHeadStays(data, longer, p);
    var end := p + 10 + Number(data, p + 8, 2);
    if end <= |data| {
      DataStays(data, longer, Number(data, p, 2), p + 10, end);
      AnswerParts(data, offset, p, end);
      AnswerParts(longer, offset, p, end);
    } else {
      CutData(data, offset, p);
    }
  }

  lemma {:induction false} AnswerStays(data: Bytes, longer: Bytes, offset: nat)
    requires data <= longer
    ensures Stays(AnswerAt(data, offset), AnswerAt(longer, offset))
  {
    NameStays(data, longer, offset);
    if NameAt(data, offset).Ok? && NameAt(data, offset).value.after + 10 <= |data| {
      NamedAnswerStays(data, longer, offset, NameAt(data, offset).value.after);
    }
  }

  // A section of the cut message ends like the one of the longer message, or early at a cut.
  predicate Shortened<T(==)>(s: Section<T>, t: Section<T>) {
    s == t || (s.fault.Some? && IsCut(s.fault.value) && s.records <= t.records)
  }

  lemma {:induction false} SectionStays<T>(
    read: nat -> Result<(T, nat), Fault>, longer: nat -> Result<(T, nat), Fault>, count: nat, offset: nat)
    requires forall o: nat {:trigger read(o)} :: Stays(read(o), longer(o))
    ensures Shortened(SectionAt(read, count, offset), SectionAt(longer, count, offset))
    decreases count
  {
    if count > 0 {
      assert Stays(read(offset), longer(offset));
      if read(offset).Ok? {
        SectionStays(read, longer, count - 1, read(offset).value.1);
      }
    }
  }

  // Where a question is cut, so is an answer.
  lemma {:induction false} CutForBoth(data: Bytes, offset: nat)
    requires QuestionAt(data, offset).Err? && IsCut(QuestionAt(data, offset).error)
    ensures AnswerAt(data, offset).Err? && IsCut(AnswerAt(data, offset).error)
  {
  }

  lemma {:induction false} NoAnswersBehindACut(data: Bytes, asked: nat, answered: nat)
    requires var s := SectionAt(Questions(data), asked, HEADER_LEN); s.fault.Some? && IsCut(s.fault.value)
    ensures var t := SectionAt(Answers(data), answered, SectionAt(Questions(data), asked, HEADER_LEN).end);
            t.records == [] && (t.fault.Some? ==> IsCut(t.fault.value))
  {
    var s := SectionAt(Questions(data), asked, HEADER_LEN);
    var _ := SectionIsLongestChain(Questions(data), asked, HEADER_LEN);
    CutForBoth(data, s.end);
  }

  // A shorter message tells the same, or less, and then with a cut among its faults.
  predicate TellsLess(m: Message, faults: seq<Fault>, longer: Message, all: seq<Fault>) {
    && m.id == longer.id && m.header == longer.header && m.rcodeName == longer.rcodeName && m.counts == longer.counts
    && m.questions <= longer.questions && m.answers <= longer.answers
    && (forall f :: f in faults ==> IsCut(f) || f in all)
    && ((forall f :: f in faults ==> !IsCut(f)) ==> m == longer && faults == all)
  }

  lemma {:induction false} SectionsTellLess(
    limit: seq<Fault>, questions: Section<Question>, answers: Section<Answer>, allQuestions: Section<Question>,
    allAnswers: Section<Answer>, id: nat, word: nat, counts: seq<nat>)
    requires Shortened(questions, allQuestions)
    requires if questions == allQuestions then Shortened(answers, allAnswers)
             else answers.records == [] && (answers.fault.Some? ==> IsCut(answers.fault.value))
    ensures var (m, faults) := Reported(id, word, counts, questions.records, answers.records,
                                        Noted(Noted(limit, questions.fault), answers.fault));
            var (longer, all) := Reported(id, word, counts, allQuestions.records, allAnswers.records,
                                          Noted(Noted(limit, allQuestions.fault), allAnswers.fault));
            TellsLess(m, faults, longer, all)
  {
    var faults := Noted(Noted(limit, questions.fault), answers.fault);
    if questions != allQuestions {
      assert questions.fault.value in faults;
    } else if answers != allAnswers {
      assert answers.fault.value in faults;
    }
  }

  lemma {:induction false} CountsStay(data: Bytes, longer: Bytes)
    requires data <= longer && |data| >= HEADER_LEN
    ensures Counts(longer) == Counts(data)
    ensures Number(longer, 0, 2) == Number(data, 0, 2) && Number(longer, 2, 2) == Number(data, 2, 2)
  {
    NumberStays(data, longer, 0, 2);
    NumberStays(data, longer, 2, 2);
    NumberStays(data, longer, 4, 2);
    NumberStays(data, longer, 6, 2);
    NumberStays(data, longer, 8, 2);
    NumberStays(data, longer, 10, 2);
  }

  lemma {:induction false} ReadingStays(data: Bytes, longer: Bytes)
    requires data <= longer
    ensures forall o: nat {:trigger Questions(data)(o)} :: Stays(Questions(data)(o), Questions(longer)(o))
    ensures forall o: nat {:trigger Answers(data)(o)} :: Stays(Answers(data)(o), Answers(longer)(o))
  {
    forall o: nat ensures Stays(QuestionAt(data, o), QuestionAt(longer, o)) {
      QuestionStays(data, longer, o);
    }
    forall o: nat ensures Stays(AnswerAt(data, o), AnswerAt(longer, o)) {
      AnswerStays(data, longer, o);
    }
  }

  // Whatever is read before a message breaks off is in the report of the longer message, and a fault that is not a cut
  // is one of the longer message too: a cut never looks malformed, and what is malformed stays so.
  lemma {:induction false} CutMessageTellsLess(data: Bytes, longer: Bytes)
    requires data <= longer && |data| >= HEADER_LEN
    ensures TellsLess(MessageOf(data).0, MessageOf(data).1, MessageOf(longer).0, MessageOf(longer).1)
  {
    CountsStay(data, longer);
    ReadingStays(data, longer);
    var counts := Counts(data);
    var asked, answered := Min(counts[0], MAX_RECORDS), Min(counts[1], MAX_RECORDS);
    var questions := SectionAt(Questions(data), asked, HEADER_LEN);
    var allQuestions := SectionAt(Questions(longer), asked, HEADER_LEN);
    var answers := SectionAt(Answers(data), answered, questions.end);
    var allAnswers := SectionAt(Answers(longer), answered, allQuestions.end);
    SectionStays(Questions(data), Questions(longer), asked, HEADER_LEN);
    if questions == allQuestions {
      SectionStays(Answers(data), Answers(longer), answered, questions.end);
    } else {
      NoAnswersBehindACut(data, asked, answered);
    }
    var limit := if counts[0] > MAX_RECORDS || counts[1] > MAX_RECORDS then [TooManyRecords] else [];
    SectionsTellLess(limit, questions, answers, allQuestions, allAnswers, Number(data, 0, 2), Number(data, 2, 2),
                     counts);
  }

  // So a payload that is cut anywhere behind its header gives a part of the whole report.
  lemma {:induction false} CutPayloadTellsLess(payload: Bytes, longer: Bytes, tcp: bool)
    requires payload <= longer && !HeaderCut(payload, tcp)
    ensures !HeaderCut(longer, tcp)
    ensures var cut, whole := MessageOf(Carried(payload, tcp)), MessageOf(Carried(longer, tcp));
            TellsLess(cut.0, cut.1, whole.0, whole.1)
  {
    if tcp {
      NumberStays(payload, longer, 0, 2);
    }
    assert Carried(payload, tcp) <= Carried(longer, tcp);
    CutMessageTellsLess(Carried(payload, tcp), Carried(longer, tcp));
  }
}
