/**
 The incremental parser: `Feed` takes what a read brought, body phases in slices and every other
 phase byte by byte. It is the machine of `HttpMachine`, however the bytes are cut.
 */
module HttpResponse {
  import opened Base
  import opened HttpHead
  import opened HttpMachine
  import opened HttpFraming

  class Response {
    var phase: Phase
    var headRequest: bool
    var status: nat
    var framing: Framing
    var contentLength: nat
    var received: nat
    var error: Error
    var head: string
    var lineLen: nat
    var lineCr: bool
    var remaining: nat
    var chunkLine: string
    var trailerLen: nat

    ghost function State(): Machine
      reads this
    {
      Machine(phase, headRequest, status, framing, contentLength, received, error, head, lineLen, lineCr,
              remaining, chunkLine, trailerLen)
    }

    constructor (headRequest: bool)
      ensures State() == Begin(headRequest)
    {
      phase, this.headRequest := Head, headRequest;
      status, framing, contentLength, received, error := 0, NoBody, 0, 0, NoError;
      head, lineLen, lineCr, remaining, chunkLine, trailerLen := "", 0, false, 0, "", 0;
    }

    /** What the head came to, written into the response. */
    method SettleHead(outcome: Outcome)
      modifies this
      ensures State() == Settle(old(State()), outcome)
    {
      match outcome
      case Refused(reason) =>
        error, phase := reason, Failed;
      case Interim =>
        head := "";
      case Final(code, how, length) =>
        status, framing := code, how;
        match how {
          case NoBody => phase := Done;
          case Chunked => phase, chunkLine := ChunkSize, "";
          case ByLength =>
            contentLength, remaining := length, length;
            phase := if length == 0 then Done else Phase.Length;
          case ByClose => phase := UntilClose;
        }
    }

    method HeadByte(c: char) returns (stop: bool)
      requires phase == Head && status == 0
      modifies this
      ensures State() == StepHead(old(State()), c)
      ensures stop <==> phase == Failed || status != 0
    {
      hide HttpHead.ReadHead;
      hide HttpHead.Lines;
      if |head| + 1 >= HEAD_MAX {
        error, phase := HeadTooLarge, Failed;
        return true;
      }
      head := head + [c];
      if c != '\n' {
        lineLen := lineLen + 1;
        return false;
      }
      var blank := lineLen == 0 || (lineLen == 1 && |head| >= 2 && head[|head| - 2] == '\r');
      lineLen := 0;
      if !blank {
        return false;
      }
      if |head| <= 2 {
        head := "";
        return false;
      }
      var outcome := ParseHead(head, headRequest);
      SettleHead(outcome);
      stop := phase == Failed || status != 0;
    }

    method ChunkSizeByte(c: char) returns (ok: bool)
      requires phase == ChunkSize
      modifies this
      ensures State() == StepChunkSize(old(State()), c)
      ensures ok <==> phase != Failed
      ensures status == old(status)
    {
      hide HttpHead.ChunkSizeOf;
      if c != '\n' {
        if |chunkLine| + 1 >= CHUNK_LINE_MAX {
          error, phase := BadChunk, Failed;
          return false;
        }
        chunkLine := chunkLine + [c];
        return true;
      }
      var line := StripCr(chunkLine);
      chunkLine := "";
      var size := ParseChunkSize(line);
      if size.None? {
        error, phase := BadChunk, Failed;
        return false;
      }
      if size.value == 0 {
        phase, lineLen, trailerLen := Trailer, 0, 0;
      } else {
        phase, remaining := ChunkData, size.value;
      }
      return true;
    }

    method TrailerByte(c: char)
      requires phase == Trailer
      modifies this
      ensures State() == StepTrailer(old(State()), c)
    {
      trailerLen := trailerLen + 1;
      if trailerLen >= HEAD_MAX {
        error, phase := HeadTooLarge, Failed;
        return;
      }
      if c != '\n' {
        lineLen, lineCr := lineLen + 1, c == '\r';
        return;
      }
      var blank := lineLen == 0 || (lineLen == 1 && lineCr);
      lineLen := 0;
      if blank {
        phase := Done;
      }
    }

    /** A byte of a phase that is neither the head's nor a body's. */
    method FramingByte(c: char)
      requires !Terminal(State()) && !InBody(State()) && phase != Head
      modifies this
      ensures State() == Step(old(State()), c)
      ensures status == old(status)
    {
      hide HttpMachine.StepHead;
      hide HttpMachine.StepChunkSize;
      match phase
      case ChunkSize =>
        var _ := ChunkSizeByte(c);
      case ChunkEnd =>
        if c == '\r' {
          phase := ChunkEndLf;
        } else if c == '\n' {
          phase := ChunkSize;
        } else {
          error, phase := BadChunk, Failed;
        }
      case ChunkEndLf =>
        if c != '\n' {
          error, phase := BadChunk, Failed;
        } else {
          phase := ChunkSize;
        }
      case Trailer =>
        TrailerByte(c);
    }

    /** As much of `input`'s front as belongs to the body, at once: `n` bytes of it. */
    method TakeBody(input: string) returns (n: nat)
      requires InBody(State()) && (phase != UntilClose ==> remaining > 0) && input != ""
      modifies this
      ensures 0 < n <= |input|
      ensures State() == Run(old(State()), input[..n])
      ensures Body(old(State()), input[..n]) == input[..n]
      ensures !Terminal(Run(old(State()), input[..n - 1]))
      ensures n < |input| ==> !InBody(State())
    {
      hide HttpMachine.Run;
      hide HttpMachine.Body;
      ghost var was := State();
      if phase == UntilClose {
        n := |input|;
        received := received + n;
        CloseIsBytes(was, input);
        CloseIsBytes(was, input[..n - 1]);
        assert input[..n] == input;
        return;
      }
      n := Min(remaining, |input|);
      remaining, received := remaining - n, received + n;
      if remaining == 0 {
        phase := if phase == Phase.Length then Done else ChunkEnd;
      }
      SliceIsBytes(was, input[..n]);
      assert input[..n][..n - 1] == input[..n - 1];
    }

    /**
     One read's worth. Consumes the first `used` bytes and hands back the `count` of them at
     `from` that are body. It stops short of the whole input for three things alone: a finished head,
     a slice to hand over, a response that is over; and it makes progress on anything else.
     */
    method Feed(input: string) returns (used: nat, from: nat, count: nat)
      requires Sound(State())
      modifies this
      ensures used <= |input| && from + count <= used
      ensures Sound(State())
      ensures State() == Run(old(State()), input[..used])
      ensures input[from..from + count] == Body(old(State()), input[..used])
      ensures input != "" && !Terminal(old(State())) ==> used > 0
      ensures used > 0 ==> !Terminal(Run(old(State()), input[..used - 1]))
      ensures used > 0 && old(status) == 0 ==> Run(old(State()), input[..used - 1]).status == 0
      ensures old(status) == 0 ==> count == 0
      ensures used < |input| ==> Terminal(State()) || count > 0 || (old(status) == 0 && status != 0)
    {
      hide HttpMachine.Run;
      hide HttpMachine.Body;
      hide HttpMachine.Step;
      hide HttpMachine.StepHead;
      hide HttpMachine.Sound;
      ghost var was := State();
      used, from, count := 0, 0, 0;
      StartsEmpty(was, input);
      while used < |input|
        invariant used <= |input| && from == count == 0
        invariant Sound(State()) && State() == Run(was, input[..used])
        invariant Body(was, input[..used]) == "" && status == old(status)
        invariant used > 0 ==> !Terminal(Run(was, input[..used - 1]))
        invariant used > 0 ==> Run(was, input[..used - 1]).status == old(status)
      {
        if phase == Done || phase == Failed {
          return;
        }
        SoundFacts(State());
        if phase == Phase.Length || phase == ChunkData || phase == UntilClose {
          var n := TakeBody(input[used..]);
          Extend(was, input, used, n);
          assert input[used..used + n] == input[used..][..n];
          RunSound(was, input[..used + n]);
          from, count, used := used, n, used + n;
          return;
        }
        Extend(was, input, used, 1);
        OneByte(State(), input[used..][..1]);
        assert input[used..][..1][0] == input[used];
        var stop := FeedByte(input[used]);
        used := used + 1;
        if stop {
          return;
        }
      }
    }

    /** A byte that is not body. True when the call is to stop there. */
    method FeedByte(c: char) returns (stop: bool)
      requires Sound(State()) && !Terminal(State()) && !InBody(State())
      modifies this
      ensures State() == Step(old(State()), c)
      ensures if stop then Terminal(State()) || (old(status) == 0 && status != 0) else status == old(status)
    {
      hide HttpMachine.Step;
      hide HttpMachine.StepHead;
      hide HttpMachine.Sound;
      SoundFacts(State());
      StepIsHead(State(), c);
      if phase == Head {
        stop := HeadByte(c);
      } else {
        FramingByte(c);
        stop := phase == Done || phase == Failed;
      }
    }
  }

  /** Looks a header up by name in the head, if that has been parsed; letter case does not matter. */
  method LookUp(response: Response, name: string) returns (value: Option<string>)
    requires Sound(response.State())
    ensures value == HeaderValue(response.State(), name)
  {
    hide HttpHead.ReadHead;
    if response.status == 0 {
      return None;
    }
    var head := response.head;
    assert head[0..] == head;
    var first := NextLine(head, 0);
    var at := first.1;
    while at < |head|
      invariant at <= |head|
      invariant HeaderValue(response.State(), name) == FirstValue(Lines(head[at..]), name)
    {
      assert head[at..][|head| - at - 1] == '\n';
      var next := NextLine(head, at);
      at := next.1;
      if next.0 == "" {
        return None;
      }
      var header := ReadHeader(next.0);
      if header.Some? && EqualNocase(header.value.name, name) {
        return Some(header.value.value);
      }
    }
    return None;
  }

  /** Settles the response after a close, and says whether it came whole. */
  method Close(response: Response) returns (whole: bool)
    requires Sound(response.State())
    modifies response
    ensures (response.State(), whole) == Finish(old(response.State()))
    ensures whole && response.framing == ByLength ==> response.received == response.contentLength
  {
    if response.phase == Done {
      return true;
    }
    if response.phase == UntilClose {
      response.phase := Done;
      return true;
    }
    if response.phase != Failed {
      response.error, response.phase := Truncated, Failed;
    }
    return false;
  }

  lemma StartsEmpty(m: Machine, input: string)
    ensures Run(m, input[..0]) == m && Body(m, input[..0]) == ""
  {
  }

  lemma SoundFacts(m: Machine)
    requires Sound(m)
    ensures m.phase == Head ==> m.status == 0
    ensures m.phase == Phase.Length || m.phase == ChunkData ==> m.remaining > 0
    ensures m.phase != Head && m.phase != Failed ==> m.status != 0
    ensures m.headRequest && m.status != 0 ==> m.phase == Done || m.phase == Failed
    ensures m.status == 0 || m.headRequest ==> m.received == 0
    ensures m.phase == UntilClose ==> m.framing == ByClose
  {
  }

  lemma StepIsHead(m: Machine, c: char)
    ensures m.phase == Head ==> Step(m, c) == StepHead(m, c)
  {
    hide StepHead;
  }

  lemma OneByte(m: Machine, one: string)
    requires |one| == 1 && Sound(m)
    ensures Run(m, one) == Step(m, one[0]) && Sound(Step(m, one[0]))
    ensures !InBody(m) ==> Body(m, one) == ""
    ensures m.phase == Head ==> Step(m, one[0]) == StepHead(m, one[0])
  {
    StepIsHead(m, one[0]);
    hide Step;
    hide Sound;
    StepSound(m, one[0]);
    assert one[1..] == "";
  }

  /** The next `n` bytes after the first `used` ones. */
  lemma Extend(m: Machine, input: string, used: nat, n: nat)
    requires used + n <= |input| && n > 0
    ensures var next := Run(m, input[..used]);
            && Run(m, input[..used + n]) == Run(next, input[used..][..n])
            && Body(m, input[..used + n]) == Body(m, input[..used]) + Body(next, input[used..][..n])
            && Run(m, input[..used + n - 1]) == Run(next, input[used..][..n - 1])
  {
    RunConcat(m, input[..used], input[used..][..n]);
    assert input[..used + n] == input[..used] + input[used..][..n];
    RunConcat(m, input[..used], input[used..][..n - 1]);
    assert input[..used + n - 1] == input[..used] + input[used..][..n - 1];
  }

  // ---- any way of cutting the bytes ------------------------------------------------------

  /** Feeds all of `input`, as a driver does: again and again until it is consumed or refused. */
  method FeedAll(response: Response, input: string) returns (body: string)
    requires Sound(response.State())
    modifies response
    ensures Sound(response.State())
    ensures response.State() == Run(old(response.State()), input)
    ensures body == Body(old(response.State()), input)
  {
    hide HttpMachine.Run;
    hide HttpMachine.Body;
    hide HttpMachine.Sound;
    ghost var was := response.State();
    var at := 0;
    body := "";
    StartsEmpty(was, input);
    while at < |input|
      invariant at <= |input| && Sound(response.State())
      invariant response.State() == Run(was, input[..at])
      invariant body == Body(was, input[..at])
    {
      ghost var before := response.State();
      var used, from, count := response.Feed(input[at..]);
      if used == 0 {
        TerminalStays(before, input[at..]);
        RunConcat(was, input[..at], input[at..]);
        assert input == input[..at] + input[at..];
        StartsEmpty(before, input[at..]);
        return;
      }
      Extend(was, input, at, used);
      body := body + input[at..][from..from + count];
      at := at + used;
    }
    assert input[..at] == input;
  }

  function Flatten(pieces: seq<string>): string {
    if pieces == [] then "" else pieces[0] + Flatten(pieces[1..])
  }

  /**
   Split invariance. However a connection cuts the bytes into reads, the response ends in the same
   state and the body slices add up to the same bytes: those of the one-byte machine.
   */
  method FeedPieces(headRequest: bool, pieces: seq<string>) returns (response: Response, body: string)
    ensures response.State() == Run(Begin(headRequest), Flatten(pieces))
    ensures body == Body(Begin(headRequest), Flatten(pieces))
    ensures Sound(response.State())
  {
    hide HttpMachine.Run;
    hide HttpMachine.Body;
    response := new Response(headRequest);
    body := "";
    ghost var fed := "";
    StartsEmpty(Begin(headRequest), "");
    for i := 0 to |pieces|
      invariant Sound(response.State()) && fresh(response)
      invariant response.State() == Run(Begin(headRequest), fed)
      invariant body == Body(Begin(headRequest), fed)
      invariant fed + Flatten(pieces[i..]) == Flatten(pieces)
    {
      var more := FeedAll(response, pieces[i]);
      RunConcat(Begin(headRequest), fed, pieces[i]);
      assert pieces[i..][1..] == pieces[i + 1..];
      fed := fed + pieces[i];
      body := body + more;
    }
    assert fed + "" == fed;
  }
}
