/**
 The response parser as a machine fed single bytes: the reference that the sliced, incremental
 code is measured against, and what is true of every state it reaches.
 */
module HttpMachine {
  import opened Base
  import opened HttpHead

  const HEAD_MAX: nat := 16384
  const CHUNK_LINE_MAX: nat := 128

  datatype Phase =
    | Head | Length | ChunkSize | ChunkData | ChunkEnd | ChunkEndLf | Trailer | UntilClose | Done | Failed

  datatype Machine = Machine(
    phase: Phase, headRequest: bool,
    status: nat, framing: Framing, contentLength: nat, received: nat, error: Error,
    head: string, lineLen: nat, lineCr: bool,
    remaining: nat, chunkLine: string, trailerLen: nat)

  function Begin(headRequest: bool): Machine {
    Machine(Head, headRequest, 0, NoBody, 0, 0, NoError, "", 0, false, 0, "", 0)
  }

  predicate Terminal(m: Machine) {
    m.phase == Done || m.phase == Failed
  }

  /** Whether the byte this machine takes next is one of the body's. */
  predicate InBody(m: Machine) {
    m.phase == Length || m.phase == ChunkData || m.phase == UntilClose
  }

  function Fail(m: Machine, error: Error): Machine {
    m.(phase := Failed, error := error)
  }

  // ---- one byte --------------------------------------------------------------------------

  function Settle(m: Machine, outcome: Outcome): Machine {
    match outcome
    case Refused(error) => Fail(m, error)
    case Interim => m.(head := "")
    case Final(status, framing, length) =>
      var begun := m.(status := status, framing := framing);
      match framing
      case NoBody => begun.(phase := Done)
      case Chunked => begun.(phase := ChunkSize, chunkLine := "")
      case ByLength =>
        begun.(contentLength := length, remaining := length, phase := if length == 0 then Done else Length)
      case ByClose => begun.(phase := UntilClose)
  }

  function StepHead(m: Machine, c: char): Machine {
    if |m.head| + 1 >= HEAD_MAX then Fail(m, HeadTooLarge)
    else
      var head := m.head + [c];
      if c != '\n' then m.(head := head, lineLen := m.lineLen + 1)
      else
        var next := m.(head := head, lineLen := 0);
        var blank := m.lineLen == 0 || (m.lineLen == 1 && |head| >= 2 && head[|head| - 2] == '\r');
        if !blank then next
        else if |head| <= 2 then next.(head := "")
        else Settle(next, ReadHead(Lines(head), m.headRequest))
  }

  /** A chunk-size line has ended, and `size` is what it says. */
  function StartChunk(m: Machine, size: Option<nat>): Machine {
    match size
    case None => Fail(m, BadChunk)
    case Some(size) =>
      if size == 0 then m.(phase := Trailer, lineLen := 0, trailerLen := 0)
      else m.(phase := ChunkData, remaining := size)
  }

  /** The size line grows by a byte, or is over; then `size` is what it says. */
  function ChunkLineByte(m: Machine, c: char, size: Option<nat>): Machine {
    if c == '\n' then StartChunk(m.(chunkLine := ""), size)
    else if |m.chunkLine| + 1 >= CHUNK_LINE_MAX then Fail(m, BadChunk)
    else m.(chunkLine := m.chunkLine + [c])
  }

  function StepChunkSize(m: Machine, c: char): Machine {
    ChunkLineByte(m, c, ChunkSizeOf(StripCr(m.chunkLine)))
  }

  function StepTrailer(m: Machine, c: char): Machine {
    var next := m.(trailerLen := m.trailerLen + 1);
    if next.trailerLen >= HEAD_MAX then Fail(next, HeadTooLarge)
    else if c != '\n' then next.(lineLen := m.lineLen + 1, lineCr := c == '\r')
    else
      var blank := m.lineLen == 0 || (m.lineLen == 1 && m.lineCr);
      next.(lineLen := 0, phase := if blank then Done else Trailer)
  }

  /** `n` bytes of a body of known size, at once. */
  function TakeSlice(m: Machine, n: nat): Machine
    requires m.phase == Length || m.phase == ChunkData
    requires n <= m.remaining
  {
    var next := m.(remaining := m.remaining - n, received := m.received + n);
    if next.remaining == 0 then next.(phase := if m.phase == Length then Done else ChunkEnd) else next
  }

  function StepRest(m: Machine, c: char): Machine
    requires m.phase != Head && m.phase != ChunkSize
  {
    match m.phase
    case Length => if m.remaining == 0 then m else TakeSlice(m, 1)
    case ChunkData => if m.remaining == 0 then m else TakeSlice(m, 1)
    case UntilClose => m.(received := m.received + 1)
    case ChunkEnd =>
      if c == '\r' then m.(phase := ChunkEndLf)
      else if c == '\n' then m.(phase := ChunkSize)
      else Fail(m, BadChunk)
    case ChunkEndLf => if c == '\n' then m.(phase := ChunkSize) else Fail(m, BadChunk)
    case Trailer => StepTrailer(m, c)
    case _ => m
  }

  function Step(m: Machine, c: char): Machine {
    if m.phase == Head then StepHead(m, c)
    else if m.phase == ChunkSize then StepChunkSize(m, c)
    else StepRest(m, c)
  }

  function Run(m: Machine, input: string): Machine
    decreases |input|
  {
    if input == "" then m else Run(Step(m, input[0]), input[1..])
  }

  /** The body bytes among `input`. */
  function Body(m: Machine, input: string): string
    decreases |input|
  {
    if input == "" then ""
    else (if InBody(m) then [input[0]] else "") + Body(Step(m, input[0]), input[1..])
  }

  /** After a close: the state, and whether the reply may end so. */
  function Finish(m: Machine): (r: (Machine, bool)) {
    match m.phase
    case Done => (m, true)
    case UntilClose => (m.(phase := Done), true)
    case Failed => (m, false)
    case _ => (Fail(m, Truncated), false)
  }

  // ---- input in pieces -------------------------------------------------------------------

  lemma {:induction false} RunConcat(m: Machine, a: string, b: string)
    ensures Run(m, a + b) == Run(Run(m, a), b)
    ensures Body(m, a + b) == Body(m, a) + Body(Run(m, a), b)
    decreases |a|
  {
    if a == "" {
      assert a + b == b;
    } else {
      assert (a + b)[0] == a[0] && (a + b)[1..] == a[1..] + b;
      RunConcat(Step(m, a[0]), a[1..], b);
    }
  }

  lemma RunSnoc(m: Machine, a: string, c: char)
    ensures Run(m, a + [c]) == Step(Run(m, a), c)
    ensures Body(m, a + [c]) == Body(m, a) + (if InBody(Run(m, a)) then [c] else "")
  {
    RunConcat(m, a, [c]);
    assert [c][1..] == "";
    assert Run(Run(m, a), [c]) == Step(Run(m, a), c);
    assert Body(Run(m, a), [c]) == if InBody(Run(m, a)) then [c] else "";
  }

  /** A finished response takes nothing more. */
  lemma {:induction false} TerminalStays(m: Machine, input: string)
    requires Terminal(m)
    ensures Run(m, input) == m && Body(m, input) == ""
    decreases |input|
  {
    if input != "" {
      TerminalStays(m, input[1..]);
    }
  }

  /** A slice handed over at once is the bytes handed over one by one. */
  lemma {:induction false} SliceIsBytes(m: Machine, slice: string)
    requires m.phase == Length || m.phase == ChunkData
    requires 0 < |slice| <= m.remaining
    ensures Run(m, slice) == TakeSlice(m, |slice|)
    ensures Body(m, slice) == slice
    ensures !Terminal(Run(m, slice[..|slice| - 1]))
    decreases |slice|
  {
    var rest := slice[1..];
    if rest == "" {
      assert Run(Step(m, slice[0]), rest) == Step(m, slice[0]);
      assert Body(Step(m, slice[0]), rest) == "";
      assert slice == [slice[0]];
    } else {
      SliceIsBytes(Step(m, slice[0]), rest);
      assert slice == [slice[0]] + rest;
      var front := slice[..|slice| - 1];
      assert front[1..] == rest[..|rest| - 1] && front[0] == slice[0];
    }
  }

  lemma {:induction false} CloseIsBytes(m: Machine, slice: string)
    requires m.phase == UntilClose
    ensures Run(m, slice) == m.(received := m.received + |slice|)
    ensures Body(m, slice) == slice
    decreases |slice|
  {
    if slice != "" {
      CloseIsBytes(Step(m, slice[0]), slice[1..]);
      assert slice == [slice[0]] + slice[1..];
    }
  }

  // ---- every reachable state -------------------------------------------------------------

  predicate NoneBlank(lines: seq<string>) {
    forall i :: 0 <= i < |lines| ==> lines[i] != ""
  }

  /** A finished head: lines none of which is blank, and then the one blank line, the last. */
  predicate HeadComplete(head: string) {
    var lines := Lines(head);
    && head != "" && head[|head| - 1] == '\n' && Tail(head) == ""
    && |lines| >= 2 && lines[|lines| - 1] == "" && NoneBlank(lines[..|lines| - 1])
  }

  predicate HeadOpen(m: Machine) {
    && m.status == 0 && m.received == 0 && m.error == NoError
    && m.lineLen == |Tail(m.head)| && NoneBlank(Lines(m.head))
  }

  predicate SoundFraming(m: Machine) {
    match m.framing
    case NoBody => m.received == 0 && m.phase == Done
    case ByLength =>
      && m.received + m.remaining == m.contentLength
      && (m.phase == Length || (m.phase == Done && m.remaining == 0) || m.error == Truncated)
    case Chunked => m.phase != Length && m.phase != UntilClose
    case ByClose => m.phase == UntilClose || m.phase == Done
  }

  /** Sound, given what the buffer holds: an open head, a complete one, and what that one says. */
  predicate SoundAs(m: Machine, open: bool, complete: bool, said: Outcome) {
    && (m.phase == Head ==> open)
    && (m.phase != Head && m.phase != Failed ==> m.status != 0)
    && (m.phase == Failed <==> m.error != NoError)
    && (m.phase == Length || m.phase == ChunkData ==> m.remaining > 0)
    && (m.status == 0 ==> m.received == 0)
    && (m.status != 0 ==>
          && complete && SoundFraming(m)
          && said == Final(m.status, m.framing, if m.framing == ByLength then m.contentLength else 0))
  }

  predicate Sound(m: Machine) {
    SoundAs(m, HeadOpen(m), HeadComplete(m.head), ReadHead(Lines(m.head), m.headRequest))
  }

  lemma {:induction false} TailSuffix(text: string)
    ensures |Tail(text)| <= |text| && text[|text| - |Tail(text)|..] == Tail(text)
    ensures Lines(text) == [] ==> Tail(text) == text
    decreases |text|
  {
    var end := LineEnd(text);
    if end < |text| {
      TailSuffix(text[end + 1..]);
    }
  }

  /** When the head is parsed, its buffer holds one blank line, the last, after at least one other. */
  lemma BlankEndsHead(m: Machine)
    requires HeadOpen(m)
    ensures
      var head := m.head + ['\n'];
      var blank := m.lineLen == 0 || (m.lineLen == 1 && |head| >= 2 && head[|head| - 2] == '\r');
      && blank == (StripCr(Tail(m.head)) == "")
      && (!blank ==> NoneBlank(Lines(head)) && Tail(head) == "")
      && (blank && |head| > 2 ==> HeadComplete(head))
  {
    var head := m.head + ['\n'];
    LinesGrow(m.head, '\n');
    TailSuffix(m.head);
    var tail := Tail(m.head);
    assert |tail| > 0 ==> tail[|tail| - 1] == m.head[|m.head| - 1];
    if StripCr(tail) == "" && |head| > 2 {
      assert Lines(m.head) != [];
      assert Lines(head)[..|Lines(head)| - 1] == Lines(m.head);
    }
  }

  lemma SettleSound(m: Machine, outcome: Outcome)
    requires m.phase == Head && m.status == 0 && m.received == 0 && m.error == NoError
    requires !outcome.Interim?
    requires outcome.Refused? ==> outcome.error != NoError
    requires outcome.Final? ==> outcome.status != 0 && (outcome.framing != ByLength ==> outcome.length == 0)
    ensures var next := Settle(m, outcome);
            next.head == m.head && next.headRequest == m.headRequest && next.phase != Head
            && SoundAs(next, false, true, outcome)
  {
  }

  lemma {:induction false} WalkErrors(found: Found, lines: seq<string>)
    ensures TakeHeaders(found, lines).Stopped? ==> TakeHeaders(found, lines).error != NoError
    decreases |lines|
  {
    if lines != [] && lines[0] != "" && TakeField(found, FieldOf(lines[0])).Going? {
      WalkErrors(TakeField(found, FieldOf(lines[0])).found, lines[1..]);
    }
  }

  lemma ReadHeadShape(lines: seq<string>, headRequest: bool)
    ensures var outcome := ReadHead(lines, headRequest);
            && (outcome.Refused? ==> outcome.error != NoError)
            && (outcome.Final? ==> outcome.status >= 200 && (outcome.framing != ByLength ==> outcome.length == 0))
  {
    if lines != [] {
      WalkErrors(Found(None, false), lines[1..]);
    }
  }

  lemma HeadByteSound(m: Machine, c: char)
    requires HeadOpen(m) && m.phase == Head && (c != '\n' || |m.head| + 1 >= HEAD_MAX)
    ensures Sound(StepHead(m, c))
  {
    LinesGrow(m.head, c);
  }

  lemma HeadLineSound(m: Machine)
    requires HeadOpen(m) && m.phase == Head && |m.head| + 1 < HEAD_MAX
    requires StripCr(Tail(m.head)) != "" || |m.head| + 1 <= 2
    ensures Sound(StepHead(m, '\n'))
  {
    BlankEndsHead(m);
  }

  lemma HeadEndSound(m: Machine)
    requires HeadOpen(m) && m.phase == Head && |m.head| + 1 < HEAD_MAX
    requires StripCr(Tail(m.head)) == "" && |m.head| + 1 > 2
    ensures Sound(StepHead(m, '\n'))
  {
    BlankEndsHead(m);
    var head := m.head + ['\n'];
    var outcome := ReadHead(Lines(head), m.headRequest);
    ReadHeadShape(Lines(head), m.headRequest);
    if !outcome.Interim? {
      SettleSound(m.(head := head, lineLen := 0), outcome);
    }
  }

  lemma ChunkLineSound(m: Machine, c: char, size: Option<nat>, open: bool, complete: bool, said: Outcome)
    requires SoundAs(m, open, complete, said) && m.phase == ChunkSize
    ensures var next := ChunkLineByte(m, c, size);
            && SoundAs(next, open, complete, said) && next.phase != Head
            && next.head == m.head && next.headRequest == m.headRequest
  {
  }

  lemma RestSound(m: Machine, c: char, open: bool, complete: bool, said: Outcome)
    requires SoundAs(m, open, complete, said) && m.phase != Head && m.phase != ChunkSize
    ensures var next := StepRest(m, c);
            && SoundAs(next, open, complete, said) && next.phase != Head
            && next.head == m.head && next.headRequest == m.headRequest
  {
  }

  lemma SoundPastHead(m: Machine, next: Machine)
    requires SoundAs(next, HeadOpen(m), HeadComplete(m.head), ReadHead(Lines(m.head), m.headRequest))
    requires next.phase != Head && next.head == m.head && next.headRequest == m.headRequest
    ensures Sound(next)
  {
  }

  lemma HeadSound(m: Machine, c: char)
    requires HeadOpen(m) && m.phase == Head
    ensures Sound(StepHead(m, c))
  {
    if c != '\n' || |m.head| + 1 >= HEAD_MAX {
      HeadByteSound(m, c);
    } else if StripCr(Tail(m.head)) != "" || |m.head| + 1 <= 2 {
      HeadLineSound(m);
    } else {
      HeadEndSound(m);
    }
  }

  lemma ChunkSizeSound(m: Machine, c: char, size: Option<nat>)
    requires Sound(m) && m.phase == ChunkSize
    ensures Sound(ChunkLineByte(m, c, size))
  {
    ChunkLineSound(m, c, size, HeadOpen(m), HeadComplete(m.head), ReadHead(Lines(m.head), m.headRequest));
    SoundPastHead(m, ChunkLineByte(m, c, size));
  }

  lemma StepSound(m: Machine, c: char)
    requires Sound(m)
    ensures Sound(Step(m, c))
  {
    if m.phase == Head {
      HeadSound(m, c);
    } else if m.phase == ChunkSize {
      ChunkSizeSound(m, c, ChunkSizeOf(StripCr(m.chunkLine)));
    } else {
      RestSound(m, c, HeadOpen(m), HeadComplete(m.head), ReadHead(Lines(m.head), m.headRequest));
      SoundPastHead(m, StepRest(m, c));
    }
  }

  lemma HeadCounts(m: Machine, c: char)
    ensures StepHead(m, c).received == m.received && StepHead(m, c).headRequest == m.headRequest
  {
    hide HttpHead.ReadHead;
    hide HttpHead.Lines;
  }

  lemma StepCounts(m: Machine, c: char)
    requires m.phase == Length || m.phase == ChunkData ==> m.remaining > 0
    ensures Step(m, c).received == m.received + if InBody(m) then 1 else 0
    ensures Step(m, c).headRequest == m.headRequest
  {
    hide StepHead;
    hide HttpHead.ChunkSizeOf;
    HeadCounts(m, c);
  }

  /** What every byte keeps, whatever it is. */
  lemma {:induction false} RunSound(m: Machine, input: string)
    requires Sound(m)
    ensures Sound(Run(m, input))
    ensures Run(m, input).received == m.received + |Body(m, input)|
    ensures Run(m, input).headRequest == m.headRequest
    decreases |input|
  {
    if input != "" {
      StepSound(m, input[0]);
      StepCounts(m, input[0]);
      RunSound(Step(m, input[0]), input[1..]);
    }
  }
}
