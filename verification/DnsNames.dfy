// DNS names with compression pointers (sections 2.3.4 and 4.1.4 of RFC 1035), and the sections of a message.
module DnsNames {
  import opened Base

  const MAX_LABEL := 63
  const MAX_NAME := 255
  const MAX_JUMPS := 64
  const HIGH_BITS := 192

  datatype NameError =
    | OutsideMessage | PastMessage | PointerCut | ForwardPointer | TooManyJumps | LabelTooLong | LabelPastMessage
      | NameTooLong

  // A name and the offset just after its bytes.
  datatype Name = Name(labels: seq<Bytes>, after: nat)

  function PointerTarget(data: Bytes, position: nat): nat
    requires position + 1 < |data| && data[position] >= HIGH_BITS
  {
    (data[position] - HIGH_BITS) * 256 + data[position + 1]
  }

  // ---------- The recursive meaning of a compressed name ----------

  // What stands at a position: the end of a name, a label, a pointer to follow, or a fault.
  datatype Step = Stop | Take(size: nat) | Follow(target: nat) | Fault(error: NameError)

  function StepAt(data: Bytes, position: nat, length: nat, jumps: nat): (s: Step)
    ensures s.Stop? ==> position < |data|
    ensures s.Take? ==> 0 < s.size && position + 1 + s.size <= |data| && length + s.size + 2 <= MAX_NAME
    ensures s.Follow? ==> s.target < position && position + 2 <= |data| && jumps + 1 <= MAX_JUMPS
  {
    if position >= |data| then Fault(PastMessage)
    else
      var size := data[position];
      if size >= HIGH_BITS then
        if position + 1 >= |data| then Fault(PointerCut)
        else if PointerTarget(data, position) >= position then Fault(ForwardPointer)
        else if jumps + 1 > MAX_JUMPS then Fault(TooManyJumps)
        else Follow(PointerTarget(data, position))
      else if size > MAX_LABEL then Fault(LabelTooLong)
      else if size == 0 then Stop
      else if position + 1 + size > |data| then Fault(LabelPastMessage)
      else if length + size + 2 > MAX_NAME then Fault(NameTooLong)
      else Take(size)
  }

  function WithLabel(found: Bytes, rest: Result<Name, NameError>): Result<Name, NameError> {
    match rest
    case Ok(name) => Ok(Name([found] + name.labels, name.after))
    case Err(e) => Err(e)
  }

  function EndingAt(after: nat, rest: Result<Name, NameError>): Result<Name, NameError> {
    match rest
    case Ok(name) => Ok(Name(name.labels, after))
    case Err(e) => Err(e)
  }

  // The rest of a name from a position, when so much of it and so many jumps were read before.
  function NameFrom(data: Bytes, position: nat, length: nat, jumps: nat): (r: Result<Name, NameError>)
    requires jumps <= MAX_JUMPS
    ensures r.Ok? ==> position < r.value.after <= |data|
    decreases MAX_JUMPS - jumps, |data| - position
  {
    match StepAt(data, position, length, jumps)
    case Stop => Ok(Name([], position + 1))
    case Take(size) =>
      var next := position + 1 + size;
      WithLabel(data[position + 1..next], NameFrom(data, next, length + size + 1, jumps))
    case Follow(target) => EndingAt(position + 2, NameFrom(data, target, length, jumps + 1))
    case Fault(e) => Err(e)
  }

  // The name at an offset. The offset after it lies beyond the start and inside the message.
  function NameAt(data: Bytes, offset: nat): (r: Result<Name, NameError>)
    ensures r.Ok? ==> offset < r.value.after <= |data|
  {
    if offset >= |data| then Err(OutsideMessage) else NameFrom(data, offset, 0, 0)
  }

  // ---------- The same meaning as a walk through the message, whatever order a reader takes ----------

  datatype Walk = End | Label(size: nat, rest: Walk) | Jump(rest: Walk)

  // What a walk meets: its labels, the offset after its written bytes, the bytes of its labels, and its jumps.
  datatype Trace = Trace(labels: seq<Bytes>, after: nat, length: nat, jumps: nat)

  // At most 64 jumps, and at most 255 bytes with the closing one.
  predicate Within(t: Trace) { t.jumps <= 64 && t.length + 1 <= 255 }

  function AddLabel(found: Bytes, t: Trace): Trace {
    Trace([found] + t.labels, t.after, |found| + 1 + t.length, t.jumps)
  }

  function AddJump(after: nat, t: Trace): Trace { Trace(t.labels, after, t.length, t.jumps + 1) }

  // The trace of a walk from a position, when the message allows that walk: labels of 1 to 63 bytes, and pointers,
  // whose two high bits are set, to where they stand before.
  function TraceOf(data: Bytes, position: nat, w: Walk): Option<Trace>
    decreases w
  {
    if position >= |data| then None
    else
      match w
      case End => if data[position] == 0 then Some(Trace([], position + 1, 0, 0)) else None
      case Label(size, rest) =>
        if 0 < size == data[position] <= 63 && position + 1 + size <= |data| then
          match TraceOf(data, position + 1 + size, rest)
          case Some(t) => Some(AddLabel(data[position + 1..position + 1 + size], t))
          case None => None
        else None
      case Jump(rest) =>
        if data[position] >= 0xC0 && position + 1 < |data| && PointerTarget(data, position) < position then
          match TraceOf(data, PointerTarget(data, position), rest)
          case Some(t) => Some(AddJump(position + 2, t))
          case None => None
        else None
  }

  // A label before a readable rest.
  lemma {:induction false} TakenReads(data: Bytes, position: nat, length: nat, jumps: nat, size: nat, rest: Name)
    requires jumps <= MAX_JUMPS && StepAt(data, position, length, jumps) == Take(size)
    requires NameFrom(data, position + 1 + size, length + size + 1, jumps) == Ok(rest)
    ensures NameFrom(data, position, length, jumps)
            == Ok(Name([data[position + 1..position + 1 + size]] + rest.labels, rest.after))
  {
  }

  // A pointer before a readable rest.
  lemma {:induction false} FollowedReads(data: Bytes, position: nat, length: nat, jumps: nat, target: nat, rest: Name)
    requires jumps < MAX_JUMPS && StepAt(data, position, length, jumps) == Follow(target)
    requires NameFrom(data, target, length, jumps + 1) == Ok(rest)
    ensures NameFrom(data, position, length, jumps) == Ok(Name(rest.labels, position + 2))
  {
  }

  lemma {:induction false} LabelTrace(data: Bytes, position: nat, size: nat, rest: Walk)
    requires TraceOf(data, position, Label(size, rest)).Some?
    ensures position < |data| && 0 < size == data[position] <= 63 && position + 1 + size <= |data|
    ensures var t := TraceOf(data, position + 1 + size, rest);
            t.Some?
            && TraceOf(data, position, Label(size, rest))
               == Some(AddLabel(data[position + 1..position + 1 + size], t.value))
  {
  }

  // A pointer is a byte with both high bits set and the one behind it, and leads where its other 14 bits say.
  lemma {:induction false} PointerLeadsThere(data: Bytes, position: nat)
    requires position + 1 < |data|
    ensures data[position] >= HIGH_BITS <==> data[position] / 64 == 3
    ensures data[position] >= HIGH_BITS ==>
              PointerTarget(data, position) == data[position] as int % 64 * 256 + data[position + 1]
  {
  }

  lemma {:induction false} JumpTrace(data: Bytes, position: nat, rest: Walk)
    requires TraceOf(data, position, Jump(rest)).Some?
    ensures position + 1 < |data| && data[position] >= HIGH_BITS && PointerTarget(data, position) < position
    ensures var t := TraceOf(data, PointerTarget(data, position), rest);
            t.Some? && TraceOf(data, position, Jump(rest)) == Some(AddJump(position + 2, t.value))
  {
  }

  lemma {:induction false} EndReads(data: Bytes, position: nat, t: Trace, length: nat, jumps: nat)
    requires TraceOf(data, position, End) == Some(t) && jumps <= 64
    ensures NameFrom(data, position, length, jumps) == Ok(Name(t.labels, t.after))
  {
  }

  // A label at a position, and what is walked behind it.
  predicate LabelBefore(data: Bytes, position: nat, size: nat, t: Trace, u: Trace) {
    && position < |data| && 0 < size == data[position] <= 63 && position + 1 + size <= |data|
    && t == AddLabel(data[position + 1..position + 1 + size], u)
  }

  lemma {:induction false} FirstLabel(data: Bytes, position: nat, size: nat, rest: Walk, t: Trace) returns (u: Trace)
    requires TraceOf(data, position, Label(size, rest)) == Some(t)
    ensures TraceOf(data, position + 1 + size, rest) == Some(u) && LabelBefore(data, position, size, t, u)
    ensures t.jumps == u.jumps && t.length == size + 1 + u.length
  {
    LabelTrace(data, position, size, rest);
    u := TraceOf(data, position + 1 + size, rest).value;
  }

  lemma {:induction false} LabelReadsOn(
    data: Bytes, position: nat, size: nat, t: Trace, u: Trace, length: nat, jumps: nat)
    requires LabelBefore(data, position, size, t, u) && jumps <= 64 && length + size + 2 <= 255
    requires NameFrom(data, position + 1 + size, length + size + 1, jumps) == Ok(Name(u.labels, u.after))
    ensures NameFrom(data, position, length, jumps) == Ok(Name(t.labels, t.after))
  {
    assert StepAt(data, position, length, jumps) == Take(size);
    TakenReads(data, position, length, jumps, size, Name(u.labels, u.after));
  }

  lemma {:induction false} LabelReads(
    data: Bytes, position: nat, size: nat, rest: Walk, t: Trace, length: nat, jumps: nat)
    requires TraceOf(data, position, Label(size, rest)) == Some(t)
    requires jumps + t.jumps <= 64 && length + t.length + 1 <= 255
    ensures NameFrom(data, position, length, jumps) == Ok(Name(t.labels, t.after))
    decreases rest, 1
  {
    var u := FirstLabel(data, position, size, rest, t);
    WalkReads(data, position + 1 + size, rest, u, length + size + 1, jumps);
    LabelReadsOn(data, position, size, t, u, length, jumps);
  }

  // A pointer at a position, and what is walked where it leads.
  predicate JumpBefore(data: Bytes, position: nat, target: nat, t: Trace, u: Trace) {
    && position + 1 < |data| && data[position] >= HIGH_BITS && target == PointerTarget(data, position) < position
    && t == AddJump(position + 2, u)
  }

  lemma {:induction false} FirstJump(data: Bytes, position: nat, rest: Walk, t: Trace) returns (target: nat, u: Trace)
    requires TraceOf(data, position, Jump(rest)) == Some(t)
    ensures TraceOf(data, target, rest) == Some(u) && JumpBefore(data, position, target, t, u)
    ensures t.jumps == u.jumps + 1 && t.length == u.length
  {
    JumpTrace(data, position, rest);
    target := PointerTarget(data, position);
    u := TraceOf(data, target, rest).value;
  }

  lemma {:induction false} JumpReadsOn(
    data: Bytes, position: nat, target: nat, t: Trace, u: Trace, length: nat, jumps: nat)
    requires JumpBefore(data, position, target, t, u) && jumps < 64
    requires NameFrom(data, target, length, jumps + 1) == Ok(Name(u.labels, u.after))
    ensures NameFrom(data, position, length, jumps) == Ok(Name(t.labels, t.after))
  {
    assert StepAt(data, position, length, jumps) == Follow(target);
    FollowedReads(data, position, length, jumps, target, Name(u.labels, u.after));
  }

  lemma {:induction false} JumpReads(data: Bytes, position: nat, rest: Walk, t: Trace, length: nat, jumps: nat)
    requires TraceOf(data, position, Jump(rest)) == Some(t)
    requires jumps + t.jumps <= 64 && length + t.length + 1 <= 255
    ensures NameFrom(data, position, length, jumps) == Ok(Name(t.labels, t.after))
    decreases rest, 1
  {
    var target, u := FirstJump(data, position, rest, t);
    WalkReads(data, target, rest, u, length, jumps + 1);
    JumpReadsOn(data, position, target, t, u, length, jumps);
  }

  // A walk within the limits reads back as its labels.
  lemma {:induction false} WalkReads(data: Bytes, position: nat, w: Walk, t: Trace, length: nat, jumps: nat)
    requires TraceOf(data, position, w) == Some(t)
    requires jumps + t.jumps <= 64 && length + t.length + 1 <= 255
    ensures NameFrom(data, position, length, jumps) == Ok(Name(t.labels, t.after))
    decreases w, 0
  {
    match w
    case End => EndReads(data, position, t, length, jumps);
    case Label(size, rest) => LabelReads(data, position, size, rest, t, length, jumps);
    case Jump(rest) => JumpReads(data, position, rest, t, length, jumps);
  }

  lemma {:induction false} TakeRest(data: Bytes, position: nat, length: nat, jumps: nat, size: nat)
    requires jumps <= MAX_JUMPS && StepAt(data, position, length, jumps) == Take(size)
    requires NameFrom(data, position, length, jumps).Ok?
    ensures NameFrom(data, position + 1 + size, length + size + 1, jumps).Ok?
    ensures 0 < size == data[position] <= MAX_LABEL
  {
  }

  lemma {:induction false} FollowRest(data: Bytes, position: nat, length: nat, jumps: nat, target: nat)
    requires jumps <= MAX_JUMPS && StepAt(data, position, length, jumps) == Follow(target)
    requires NameFrom(data, position, length, jumps).Ok?
    ensures NameFrom(data, target, length, jumps + 1).Ok?
    ensures data[position] >= HIGH_BITS && PointerTarget(data, position) == target
  {
  }

  // A walk from a position stays within the limits, when so much and so many jumps were walked before.
  ghost predicate WalksOn(data: Bytes, position: nat, w: Walk, length: nat, jumps: nat) {
    var t := TraceOf(data, position, w);
    t.Some? && jumps + t.value.jumps <= MAX_JUMPS && length + t.value.length + 1 <= MAX_NAME
  }

  lemma {:induction false} WalksLabel(data: Bytes, position: nat, w: Walk, length: nat, jumps: nat, size: nat)
    requires position + 1 + size <= |data| && 0 < size == data[position] <= MAX_LABEL
    requires WalksOn(data, position + 1 + size, w, length + size + 1, jumps)
    ensures WalksOn(data, position, Label(size, w), length, jumps)
  {
  }

  lemma {:induction false} WalksJump(data: Bytes, position: nat, w: Walk, length: nat, jumps: nat)
    requires position + 1 < |data| && data[position] >= HIGH_BITS && PointerTarget(data, position) < position
    requires WalksOn(data, PointerTarget(data, position), w, length, jumps + 1)
    ensures WalksOn(data, position, Jump(w), length, jumps)
  {
  }

  // Whatever reads back is a walk within the limits.
  lemma {:induction false} ReadWalks(data: Bytes, position: nat, length: nat, jumps: nat) returns (w: Walk)
    requires jumps <= MAX_JUMPS && length + 1 <= MAX_NAME && NameFrom(data, position, length, jumps).Ok?
    ensures WalksOn(data, position, w, length, jumps)
    decreases MAX_JUMPS - jumps, |data| - position
  {
    match StepAt(data, position, length, jumps)
    case Stop =>
      w := End;
    case Take(size) =>
      TakeRest(data, position, length, jumps, size);
      var rest := ReadWalks(data, position + 1 + size, length + size + 1, jumps);
      w := Label(size, rest);
      WalksLabel(data, position, rest, length, jumps, size);
    case Follow(target) =>
      FollowRest(data, position, length, jumps, target);
      var rest := ReadWalks(data, target, length, jumps + 1);
      w := Jump(rest);
      WalksJump(data, position, rest, length, jumps);
  }

  ghost predicate IsLegalWalk(data: Bytes, offset: nat, w: Walk) {
    var t := TraceOf(data, offset, w);
    t.Some? && Within(t.value)
  }

  // A name is read exactly when a walk of at most 64 jumps and 255 bytes starts at the offset, and then it is
  // the labels of that walk.
  lemma {:induction false} ReadExactlyTheWalks(data: Bytes, offset: nat)
    ensures NameAt(data, offset).Ok? <==> exists w :: IsLegalWalk(data, offset, w)
    ensures forall w :: IsLegalWalk(data, offset, w) ==>
              var t := TraceOf(data, offset, w).value;
              NameAt(data, offset) == Ok(Name(t.labels, t.after))
  {
    forall w | IsLegalWalk(data, offset, w)
      ensures var t := TraceOf(data, offset, w).value;
              NameAt(data, offset) == Ok(Name(t.labels, t.after))
    {
      WalkReads(data, offset, w, TraceOf(data, offset, w).value, 0, 0);
    }
    if NameAt(data, offset).Ok? {
      var w := ReadWalks(data, offset, 0, 0);
      assert IsLegalWalk(data, offset, w);
    }
  }

  // ---------- The loop ----------

  function TextOf(bytes: Bytes): (text: string)
    ensures |text| == |bytes|
  {
    if bytes == [] then "" else [if bytes[0] < 128 then bytes[0] as char else '\U{FFFD}'] + TextOf(bytes[1..])
  }

  function Joined(labels: seq<Bytes>): string {
    if labels == [] then ""
    else if |labels| == 1 then TextOf(labels[0])
    else TextOf(labels[0]) + "." + Joined(labels[1..])
  }

  // ---------- The name as text ----------

  // The text of a label is its bytes as ASCII characters, with a replacement character for each other byte.
  lemma {:induction false} TextIsAscii(bytes: Bytes, k: nat)
    requires k < |bytes|
    ensures TextOf(bytes)[k] as int == if bytes[k] < 0x80 then bytes[k] else 0xFFFD
  {
    if k > 0 {
      TextIsAscii(bytes[1..], k - 1);
    }
  }

  // The pieces of a text between its dots.
  function SplitAtDots(s: string): (pieces: seq<string>)
    ensures pieces != []
    decreases |s|
  {
    var i := Position('.', s);
    if i == |s| then [s] else [s[..i]] + SplitAtDots(s[i + 1..])
  }

  function Texts(labels: seq<Bytes>): seq<string> { seq(|labels|, i requires 0 <= i < |labels| => TextOf(labels[i])) }

  predicate WithoutDot(found: Bytes) { forall i :: 0 <= i < |found| ==> found[i] != '.' as int }

  predicate AllWithoutDot(labels: seq<Bytes>) { forall i :: 0 <= i < |labels| ==> WithoutDot(labels[i]) }

  lemma {:induction false} NoDotInText(found: Bytes)
    requires WithoutDot(found)
    ensures '.' !in TextOf(found)
  {
    forall k | 0 <= k < |found| ensures TextOf(found)[k] != '.' {
      TextIsAscii(found, k);
    }
  }

  lemma {:induction false} NotThere(s: string)
    requires '.' !in s
    ensures Position('.', s) == |s|
  {
  }

  lemma {:induction false} SplitFirst(first: string, rest: string)
    requires '.' !in first
    ensures SplitAtDots(first) == [first]
    ensures SplitAtDots(first + "." + rest) == [first] + SplitAtDots(rest)
  {
    var s := first + "." + rest;
    assert s[..|first|] == first && s[|first| + 1..] == rest;
    PositionIs('.', s, |first|);
    NotThere(first);
  }

  // The pieces of a name between its dots are its labels, in their order.
  lemma {:induction false} JoinedSplits(labels: seq<Bytes>)
    requires labels != [] && AllWithoutDot(labels)
    ensures SplitAtDots(Joined(labels)) == Texts(labels)
    decreases |labels|
  {
    NoDotInText(labels[0]);
    if |labels| == 1 {
      SplitFirst(TextOf(labels[0]), "");
    } else {
      JoinedSplits(labels[1..]);
      SplitFirst(TextOf(labels[0]), Joined(labels[1..]));
      assert Texts(labels) == [TextOf(labels[0])] + Texts(labels[1..]);
    }
  }

  predicate IsAscii(found: Bytes) { forall i :: 0 <= i < |found| ==> found[i] < 0x80 }

  lemma {:induction false} TextTellsAscii(x: Bytes, y: Bytes)
    requires IsAscii(x) && IsAscii(y) && TextOf(x) == TextOf(y)
    ensures x == y
  {
    forall k | 0 <= k < |x| ensures x[k] == y[k] {
      TextIsAscii(x, k);
      TextIsAscii(y, k);
    }
  }

  // Different lists of ASCII labels without dots have different names.
  lemma {:induction false} NameTellsItsLabels(xs: seq<Bytes>, ys: seq<Bytes>)
    requires xs != [] && ys != [] && Joined(xs) == Joined(ys)
    requires AllWithoutDot(xs) && AllWithoutDot(ys)
    requires (forall i :: 0 <= i < |xs| ==> IsAscii(xs[i])) && forall i :: 0 <= i < |ys| ==> IsAscii(ys[i])
    ensures xs == ys
  {
    JoinedSplits(xs);
    JoinedSplits(ys);
    assert |Texts(xs)| == |xs| && |Texts(ys)| == |ys|;
    forall i | 0 <= i < |xs| ensures xs[i] == ys[i] {
      assert Texts(xs)[i] == TextOf(xs[i]) && Texts(ys)[i] == TextOf(ys[i]);
      TextTellsAscii(xs[i], ys[i]);
    }
  }

  // What is still to come, put behind what was read.
  function Behind(labels: seq<Bytes>, after: Option<nat>, rest: Result<Name, NameError>): Result<Name, NameError> {
    match rest
    case Ok(name) => Ok(Name(labels + name.labels, if after.Some? then after.value else name.after))
    case Err(e) => Err(e)
  }

  // The name as text, the way the reader returns it.
  function Shown(r: Result<Name, NameError>): Result<(string, nat), NameError> {
    match r
    case Ok(name) => Ok((Joined(name.labels), name.after))
    case Err(e) => Err(e)
  }

  // The text that is read at the start of a legal walk, split at its dots, is the labels of the walk. The root is
  // empty.
  lemma {:induction false} ReadNameIsItsLabels(data: Bytes, offset: nat, w: Walk)
    requires IsLegalWalk(data, offset, w)
    requires AllWithoutDot(TraceOf(data, offset, w).value.labels)
    ensures Shown(NameAt(data, offset)).Ok?
    ensures var labels, text := TraceOf(data, offset, w).value.labels, Shown(NameAt(data, offset)).value.0;
            if labels == [] then text == "" else SplitAtDots(text) == Texts(labels)
  {
    ReadExactlyTheWalks(data, offset);
    var labels := TraceOf(data, offset, w).value.labels;
    if labels != [] {
      JoinedSplits(labels);
    }
  }

  lemma {:induction false} BehindLabel(
    data: Bytes, position: nat, length: nat, jumps: nat, labels: seq<Bytes>, after: Option<nat>)
    requires jumps <= MAX_JUMPS && StepAt(data, position, length, jumps).Take?
    ensures var size := StepAt(data, position, length, jumps).size;
            var next := position + 1 + size;
            && Behind(labels, after, NameFrom(data, position, length, jumps))
               == Behind(labels + [data[position + 1..next]], after, NameFrom(data, next, length + size + 1, jumps))
  {
    var size := StepAt(data, position, length, jumps).size;
    var next := position + 1 + size;
    var found := data[position + 1..next];
    var rest := NameFrom(data, next, length + size + 1, jumps);
    assert rest.Ok? ==> labels + ([found] + rest.value.labels) == (labels + [found]) + rest.value.labels;
  }

  lemma {:induction false} BehindJump(
    data: Bytes, position: nat, length: nat, jumps: nat, labels: seq<Bytes>, after: Option<nat>)
    requires jumps <= MAX_JUMPS && StepAt(data, position, length, jumps).Follow?
    ensures Behind(labels, after, NameFrom(data, position, length, jumps))
            == Behind(labels, if after.None? then Some(position + 2) else after,
                      NameFrom(data, StepAt(data, position, length, jumps).target, length, jumps + 1))
  {
  }

  // The meaning of the rest of a name, as a value that the loop passes on.
  ghost predicate ReadsNames(from: (nat, nat, nat) -> Result<Name, NameError>, data: Bytes) {
    forall p: nat, l: nat, j: nat {:trigger NameFrom(data, p, l, j)} :: j <= MAX_JUMPS ==>
      from(p, l, j) == NameFrom(data, p, l, j)
  }

  lemma {:induction false} Start(data: Bytes, offset: nat)
    returns (meaning: Result<Name, NameError>, from: (nat, nat, nat) -> Result<Name, NameError>)
    requires offset < |data|
    ensures meaning == NameAt(data, offset) && meaning == Behind([], None, from(offset, 0, 0)) && ReadsNames(from, data)
  {
    meaning := NameAt(data, offset);
    from := (p: nat, l: nat, j: nat) => if j <= MAX_JUMPS then NameFrom(data, p, l, j) else Err(TooManyJumps);
    assert meaning.Ok? ==> [] + meaning.value.labels == meaning.value.labels;
  }

  // What one step of the reader does to a name of which some labels were read already.
  lemma {:induction false} OneStep(
    meaning: Result<Name, NameError>, data: Bytes, position: nat, length: nat, jumps: nat, labels: seq<Bytes>,
    after: Option<nat>,
    from: (nat, nat, nat) -> Result<Name, NameError>)
    requires ReadsNames(from, data) && jumps <= MAX_JUMPS
             && meaning == Behind(labels, after, from(position, length, jumps))
    ensures match StepAt(data, position, length, jumps)
            case Stop => meaning == Ok(Name(labels, if after.Some? then after.value else position + 1))
            case Fault(e) => meaning == Err(e)
            case Take(size) =>
              var next := position + 1 + size;
              meaning == Behind(labels + [data[position + 1..next]], after, from(next, length + size + 1, jumps))
            case Follow(target) =>
              meaning
                == Behind(labels, if after.None? then Some(position + 2) else after, from(target, length, jumps + 1))
  {
    assert from(position, length, jumps) == NameFrom(data, position, length, jumps);
    match StepAt(data, position, length, jumps)
    case Stop => assert labels + [] == labels;
    case Fault(_) =>
    case Take(_) => BehindLabel(data, position, length, jumps, labels, after);
    case Follow(_) => BehindJump(data, position, length, jumps, labels, after);
  }

  // The reader. Its steps are counted: a name takes at most 192, however long the message is.
  method ReadName(data: Bytes, offset: nat) returns (r: Result<(string, nat), NameError>, ghost steps: nat)
    ensures r == Shown(NameAt(data, offset))
    ensures steps <= 192
  {
    steps := 0;
    if offset >= |data| {
      return Err(OutsideMessage), steps;
    }
    var labels: seq<Bytes>, length: nat, jumps: nat, position: nat := [], 0, 0, offset;
    var after: Option<nat> := None;
    ghost var meaning, from := Start(data, offset);
    while true
      invariant jumps <= MAX_JUMPS && length + 1 <= MAX_NAME
      invariant meaning == Behind(labels, after, from(position, length, jumps))
      invariant 2 * |labels| <= length && steps == |labels| + jumps
      decreases MAX_JUMPS - jumps, |data| - position
    {
      steps := steps + 1;
      OneStep(meaning, data, position, length, jumps, labels, after, from);
      if position >= |data| {
        return Err(PastMessage), steps;
      }
      var size := data[position];
      if size >= HIGH_BITS {
        if position + 1 >= |data| {
          return Err(PointerCut), steps;
        }
        var target := PointerTarget(data, position);
        if target >= position {
          return Err(ForwardPointer), steps;
        }
        if jumps + 1 > MAX_JUMPS {
          return Err(TooManyJumps), steps;
        }
        jumps := jumps + 1;
        if after.None? {
          after := Some(position + 2);
        }
        position := target;
        continue;
      }
      if size > MAX_LABEL {
        return Err(LabelTooLong), steps;
      }
      if size == 0 {
        return Ok((Joined(labels), if after.Some? then after.value else position + 1)), steps;
      }
      if position + 1 + size > |data| {
        return Err(LabelPastMessage), steps;
      }
      if length + size + 2 > MAX_NAME {
        return Err(NameTooLong), steps;
      }
      labels := labels + [data[position + 1..position + 1 + size]];
      position := position + 1 + size;
      length := length + size + 1;
    }
  }

  // ---------- Writing names ----------

  predicate LegalLabel(bytes: Bytes) { 1 <= |bytes| <= MAX_LABEL }

  function Size(labels: seq<Bytes>): nat {
    if labels == [] then 0 else |labels[0]| + 1 + Size(labels[1..])
  }

  ghost predicate LegalName(labels: seq<Bytes>) {
    (forall l :: l in labels ==> LegalLabel(l)) && Size(labels) + 1 <= MAX_NAME
  }

  // Each label behind its length.
  function WriteLabels(labels: seq<Bytes>): (bytes: Bytes)
    ensures |bytes| == Size(labels)
  {
    if labels == [] then [] else [|labels[0]| % 256] + labels[0] + WriteLabels(labels[1..])
  }

  function WriteName(labels: seq<Bytes>): Bytes { WriteLabels(labels) + [0] }

  function WritePointer(target: nat): Bytes { [HIGH_BITS + target / 256 % 64, target % 256] }

  // The bytes stand at a position of a message.
  predicate Has(data: Bytes, position: nat, bytes: Bytes)
    decreases |bytes|
  {
    && position + |bytes| <= |data|
    && (bytes != [] ==> data[position] == bytes[0] && Has(data, position + 1, bytes[1..]))
  }

  lemma {:induction false} HasSlice(data: Bytes, position: nat, bytes: Bytes)
    ensures Has(data, position, bytes) <==> position + |bytes| <= |data| && data[position..position + |bytes|] == bytes
    decreases |bytes|
  {
    var end := position + |bytes|;
    if bytes != [] && end <= |data| {
      HasSlice(data, position + 1, bytes[1..]);
      assert bytes == [bytes[0]] + bytes[1..];
      assert data[position..end] == [data[position]] + data[position + 1..end];
    }
  }

  lemma {:induction false} HasParts(data: Bytes, position: nat, front: Bytes, back: Bytes)
    ensures Has(data, position, front + back) <==> Has(data, position, front) && Has(data, position + |front|, back)
    decreases |front|
  {
    var all := front + back;
    if front == [] {
      assert all == back;
    } else {
      assert all[0] == front[0] && all[1..] == front[1..] + back;
      HasParts(data, position + 1, front[1..], back);
    }
  }

  lemma {:induction false} HasByte(data: Bytes, position: nat, b: Byte)
    requires Has(data, position, [b])
    ensures position < |data| && data[position] == b
  {
  }

  lemma {:induction false} HasBytes(data: Bytes, position: nat, b: Byte, c: Byte)
    requires Has(data, position, [b, c])
    ensures position + 1 < |data| && data[position] == b && data[position + 1] == c
  {
    assert [b, c][1..] == [c];
    HasByte(data, position + 1, c);
  }

  // The walk over written labels, and then on.
  function LabelWalk(labels: seq<Bytes>, rest: Walk): Walk {
    if labels == [] then rest else Label(|labels[0]|, LabelWalk(labels[1..], rest))
  }

  // The labels stand at a position, each behind its length.
  predicate Standing(data: Bytes, position: nat, labels: seq<Bytes>)
    decreases |labels|
  {
    labels == [] ||
    var l := labels[0];
    var next := position + 1 + |l|;
    && LegalLabel(l)
    && next <= |data| && data[position] == |l| && data[position + 1..next] == l
    && Standing(data, next, labels[1..])
  }

  lemma {:induction false} WrittenLabelsStand(data: Bytes, position: nat, labels: seq<Bytes>)
    requires forall l :: l in labels ==> LegalLabel(l)
    requires Has(data, position, WriteLabels(labels))
    ensures Standing(data, position, labels)
    decreases |labels|
  {
    if labels != [] {
      var l := labels[0];
      assert l in labels;
      HasParts(data, position, [|l| % 256] + l, WriteLabels(labels[1..]));
      HasParts(data, position, [|l| % 256], l);
      HasByte(data, position, |l|);
      HasSlice(data, position + 1, l);
      WrittenLabelsStand(data, position + 1 + |l|, labels[1..]);
    }
  }

  // One label before a walk.
  lemma {:induction false} LabelStep(data: Bytes, position: nat, found: Bytes, rest: Walk)
    requires LegalLabel(found)
    requires var next := position + 1 + |found|;
             && next <= |data| && data[position] == |found| && data[position + 1..next] == found
             && TraceOf(data, next, rest).Some?
    ensures TraceOf(data, position, Label(|found|, rest))
            == Some(AddLabel(found, TraceOf(data, position + 1 + |found|, rest).value))
  {
  }

  function AddLabels(labels: seq<Bytes>, t: Trace): Trace {
    Trace(labels + t.labels, t.after, Size(labels) + t.length, t.jumps)
  }

  lemma {:induction false} AddFirstLabel(labels: seq<Bytes>, t: Trace)
    requires labels != []
    ensures AddLabel(labels[0], AddLabels(labels[1..], t)) == AddLabels(labels, t)
  {
    assert [labels[0]] + (labels[1..] + t.labels) == labels + t.labels;
  }

  lemma {:induction false} AddNoLabels(t: Trace)
    ensures AddLabels([], t) == t
  {
    assert [] + t.labels == t.labels;
  }

  lemma {:induction false} AddLabelsToNothing(labels: seq<Bytes>, after: nat)
    ensures AddLabels(labels, Trace([], after, 0, 0)) == Trace(labels, after, Size(labels), 0)
  {
    assert labels + [] == labels;
  }

  // Labels before anything that can be walked are walked as themselves.
  lemma {:induction false} LabelsWalk(data: Bytes, position: nat, labels: seq<Bytes>, rest: Walk, t: Trace)
    requires Standing(data, position, labels) && TraceOf(data, position + Size(labels), rest) == Some(t)
    ensures TraceOf(data, position, LabelWalk(labels, rest)) == Some(AddLabels(labels, t))
    decreases |labels|
  {
    if labels == [] {
      AddNoLabels(t);
    } else {
      var l, more := labels[0], labels[1..];
      var next := position + 1 + |l|;
      assert next + Size(more) == position + Size(labels);
      LabelsWalk(data, next, more, rest, t);
      LabelStep(data, position, l, LabelWalk(more, rest));
      AddFirstLabel(labels, t);
    }
  }

  // A whole name stands at a position: its labels and the zero label.
  predicate NameStands(data: Bytes, position: nat, labels: seq<Bytes>) {
    && Standing(data, position, labels)
    && position + Size(labels) < |data| && data[position + Size(labels)] == 0
  }

  lemma {:induction false} WrittenNameStands(data: Bytes, position: nat, labels: seq<Bytes>)
    requires (forall l :: l in labels ==> LegalLabel(l)) && Has(data, position, WriteName(labels))
    ensures NameStands(data, position, labels)
  {
    HasParts(data, position, WriteLabels(labels), [0]);
    HasByte(data, position + Size(labels), 0);
    WrittenLabelsStand(data, position, labels);
  }

  lemma {:induction false} EndStep(data: Bytes, position: nat)
    requires position < |data| && data[position] == 0
    ensures TraceOf(data, position, End) == Some(Trace([], position + 1, 0, 0))
  {
  }

  lemma {:induction false} WalkBehindLabels(data: Bytes, position: nat, labels: seq<Bytes>, rest: Walk, after: nat)
    requires Standing(data, position, labels)
    requires TraceOf(data, position + Size(labels), rest) == Some(Trace([], after, 0, 0))
    ensures TraceOf(data, position, LabelWalk(labels, rest)) == Some(Trace(labels, after, Size(labels), 0))
  {
    LabelsWalk(data, position, labels, rest, Trace([], after, 0, 0));
    AddLabelsToNothing(labels, after);
  }

  lemma {:induction false} StandingNameWalk(data: Bytes, position: nat, labels: seq<Bytes>)
    requires NameStands(data, position, labels)
    ensures TraceOf(data, position, LabelWalk(labels, End))
            == Some(Trace(labels, position + Size(labels) + 1, Size(labels), 0))
  {
    EndStep(data, position + Size(labels));
    WalkBehindLabels(data, position, labels, End, position + Size(labels) + 1);
  }

  // A name written plainly anywhere in a message reads back as its labels, up to the byte after it.
  lemma {:induction false} PlainNameRoundTrip(data: Bytes, position: nat, labels: seq<Bytes>)
    requires LegalName(labels) && Has(data, position, WriteName(labels))
    ensures NameAt(data, position) == Ok(Name(labels, position + |WriteName(labels)|))
  {
    WrittenNameStands(data, position, labels);
    StandingNameWalk(data, position, labels);
    WalkGives(data, position, LabelWalk(labels, End), Trace(labels, position + Size(labels) + 1, Size(labels), 0));
  }

  lemma {:induction false} PointerParts(target: nat)
    requires target < 64 * 256
    ensures target / 256 % 64 * 256 + target % 256 == target
  {
    assert target / 256 < 64;
  }

  lemma {:induction false} PointerStep(data: Bytes, position: nat, target: nat, suffix: Walk)
    requires target < position && target < 64 * 256 && Has(data, position, WritePointer(target))
    requires TraceOf(data, target, suffix).Some?
    ensures TraceOf(data, position, Jump(suffix)) == Some(AddJump(position + 2, TraceOf(data, target, suffix).value))
  {
    HasBytes(data, position, HIGH_BITS + target / 256 % 64, target % 256);
    PointerParts(target);
    assert PointerTarget(data, position) == target;
  }

  lemma {:induction false} CompressedNameWalk(
    data: Bytes, position: nat, labels: seq<Bytes>, target: nat, suffix: Walk, t: Trace)
    requires (forall l :: l in labels ==> LegalLabel(l)) && target < position + Size(labels) && target < 64 * 256
    requires Has(data, position, WriteLabels(labels) + WritePointer(target))
    requires TraceOf(data, target, suffix) == Some(t)
    ensures TraceOf(data, position, LabelWalk(labels, Jump(suffix)))
            == Some(AddLabels(labels, AddJump(position + Size(labels) + 2, t)))
  {
    HasParts(data, position, WriteLabels(labels), WritePointer(target));
    PointerStep(data, position + Size(labels), target, suffix);
    WrittenLabelsStand(data, position, labels);
    LabelsWalk(data, position, labels, Jump(suffix), AddJump(position + Size(labels) + 2, t));
  }

  lemma {:induction false} WalkGives(data: Bytes, position: nat, w: Walk, t: Trace)
    requires TraceOf(data, position, w) == Some(t) && Within(t)
    ensures NameAt(data, position) == Ok(Name(t.labels, t.after))
  {
    WalkReads(data, position, w, t, 0, 0);
  }

  lemma {:induction false} CompressedNameReads(
    data: Bytes, position: nat, labels: seq<Bytes>, target: nat, suffix: Walk, t: Trace)
    requires (forall l :: l in labels ==> LegalLabel(l)) && target < position + Size(labels) && target < 64 * 256
    requires Has(data, position, WriteLabels(labels) + WritePointer(target))
    requires TraceOf(data, target, suffix) == Some(t) && t.jumps < MAX_JUMPS && Size(labels) + t.length + 1 <= MAX_NAME
    ensures NameAt(data, position) == Ok(Name(labels + t.labels, position + Size(labels) + 2))
  {
    var whole := AddLabels(labels, AddJump(position + Size(labels) + 2, t));
    CompressedNameWalk(data, position, labels, target, suffix, t);
    WalkGives(data, position, LabelWalk(labels, Jump(suffix)), whole);
  }

  // Labels and then a backward pointer to any name, itself compressed or not: the labels of both, up to the
  // byte after the pointer.
  lemma {:induction false} CompressedNameRoundTrip(
    data: Bytes, position: nat, labels: seq<Bytes>, target: nat, suffix: Walk)
    requires (forall l :: l in labels ==> LegalLabel(l)) && target < position + Size(labels) && target < 64 * 256
    requires Has(data, position, WriteLabels(labels) + WritePointer(target))
    requires IsLegalWalk(data, target, suffix)
    requires TraceOf(data, target, suffix).value.jumps < MAX_JUMPS
    requires Size(labels) + TraceOf(data, target, suffix).value.length + 1 <= MAX_NAME
    ensures NameAt(data, position)
            == Ok(Name(labels + TraceOf(data, target, suffix).value.labels, position + Size(labels) + 2))
  {
    CompressedNameReads(data, position, labels, target, suffix, TraceOf(data, target, suffix).value);
  }

  // In particular a pointer to a name that was written plainly before.
  lemma {:induction false} PointerToWrittenName(data: Bytes, position: nat, labels: seq<Bytes>, target: nat,
                                                suffix: seq<Bytes>)
    requires (forall l :: l in labels ==> LegalLabel(l)) && LegalName(suffix)
             && Size(labels) + Size(suffix) + 1 <= MAX_NAME
    requires target < 64 * 256 && target < position + Size(labels) && Has(data, target, WriteName(suffix))
    requires Has(data, position, WriteLabels(labels) + WritePointer(target))
    ensures NameAt(data, position) == Ok(Name(labels + suffix, position + Size(labels) + 2))
  {
    WrittenNameStands(data, target, suffix);
    StandingNameWalk(data, target, suffix);
    CompressedNameRoundTrip(data, position, labels, target, LabelWalk(suffix, End));
  }

  // ---------- What is read can be written ----------

  lemma {:induction false} WalkedLabels(data: Bytes, position: nat, w: Walk, t: Trace)
    requires TraceOf(data, position, w) == Some(t)
    ensures (forall l :: l in t.labels ==> LegalLabel(l)) && Size(t.labels) == t.length
    decreases w
  {
    match w
    case End =>
    case Label(size, rest) =>
      var u := FirstLabel(data, position, size, rest, t);
      WalkedLabels(data, position + 1 + size, rest, u);
    case Jump(rest) =>
      var target, u := FirstJump(data, position, rest, t);
      WalkedLabels(data, target, rest, u);
  }

  lemma {:induction false} WrittenAlone(labels: seq<Bytes>)
    requires LegalName(labels)
    ensures NameAt(WriteName(labels), 0) == Ok(Name(labels, |WriteName(labels)|))
  {
    var bytes := WriteName(labels);
    assert bytes[0..0 + |bytes|] == bytes;
    HasSlice(bytes, 0, bytes);
    PlainNameRoundTrip(bytes, 0, labels);
  }

  // Every name that is read, however it is compressed, is a legal name, and written plainly it reads back as itself.
  lemma {:induction false} ReadNamesAreLegal(data: Bytes, offset: nat)
    requires NameAt(data, offset).Ok?
    ensures var labels := NameAt(data, offset).value.labels;
            LegalName(labels) && NameAt(WriteName(labels), 0) == Ok(Name(labels, |WriteName(labels)|))
  {
    ReadExactlyTheWalks(data, offset);
    var w :| IsLegalWalk(data, offset, w);
    var t := TraceOf(data, offset, w).value;
    WalkedLabels(data, offset, w, t);
    WrittenAlone(t.labels);
  }
}
