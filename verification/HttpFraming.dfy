/**
 Where a response ends: a Content-Length, a chunked body, the close. What the framing promises,
 proved of every input the machine can be given.
 */
module HttpFraming {
  import opened Base
  import opened HttpHead
  import opened HttpMachine

  // ---- the headers a head has ------------------------------------------------------------

  predicate Names(line: string, name: string) {
    SplitHeader(line).Some? && EqualNocase(SplitHeader(line).value.name, name)
  }

  /** What the earliest header of this name says, reading no further than a blank line. */
  function FirstValue(lines: seq<string>, name: string): Option<string> {
    if lines == [] || lines[0] == "" then None
    else if Names(lines[0], name) then Some(SplitHeader(lines[0]).value.value)
    else FirstValue(lines[1..], name)
  }

  function HeaderValue(m: Machine, name: string): Option<string> {
    if m.status == 0 || Lines(m.head) == [] then None else FirstValue(Lines(m.head)[1..], name)
  }

  /** A walk that succeeds found the length that the first Content-Length header states. */
  lemma {:induction false} WalkFinds(found: Found, lines: seq<string>)
    requires TakeHeaders(found, lines).Going?
    ensures var g := TakeHeaders(found, lines).found;
            && (found.length.Some? ==> g.length == found.length)
            && (found.length.None? ==>
                  var value := FirstValue(lines, "content-length");
                  (g.length.Some? <==> value.Some?) && (value.Some? ==> LengthOf(value.value) == g.length))
    decreases |lines|
  {
    if lines != [] && lines[0] != "" {
      WalkFinds(TakeField(found, FieldOf(lines[0])).found, lines[1..]);
    }
  }

  /** The header lines of a head, as fields. */
  function Fields(lines: seq<string>): seq<Field> {
    seq(|lines|, i requires 0 <= i < |lines| => FieldOf(lines[i]))
  }

  predicate Believable(field: Field) {
    match field
    case SizeField(length) => length.Some?
    case EncodingField(chunked) => chunked
    case Plain => true
    case Malformed => false
  }

  /**
   Headers that can be believed: every line a header, every Content-Length a number and all of
   them the same number, at most one Transfer-Encoding and that one `chunked`.
   */
  predicate Agree(fields: seq<Field>) {
    && (forall i :: 0 <= i < |fields| ==> Believable(fields[i]))
    && (forall i, j :: 0 <= i < j < |fields| && fields[i].SizeField? && fields[j].SizeField? ==> fields[i] == fields[j])
    && (forall i, j :: 0 <= i < j < |fields| ==> !(fields[i].EncodingField? && fields[j].EncodingField?))
  }

  predicate Continues(found: Found, field: Field) {
    && (found.length.Some? && field.SizeField? ==> field.length == found.length)
    && !(found.chunked && field.EncodingField?)
  }

  predicate AgreeAfter(found: Found, fields: seq<Field>) {
    Agree(fields) && forall i :: 0 <= i < |fields| ==> Continues(found, fields[i])
  }

  lemma AgreeTail(found: Found, field: Field, rest: seq<Field>)
    requires AgreeAfter(found, [field] + rest)
    ensures Believable(field) && Continues(found, field)
    ensures AgreeAfter(TakeField(found, field).found, rest)
  {
    var all := [field] + rest;
    assert all[0] == field;
    var next := TakeField(found, field).found;
    forall i | 0 <= i < |rest| ensures Believable(rest[i]) && Continues(next, rest[i]) {
      assert all[i + 1] == rest[i];
    }
    forall i, j | 0 <= i < j < |rest|
      ensures rest[i].SizeField? && rest[j].SizeField? ==> rest[i] == rest[j]
      ensures !(rest[i].EncodingField? && rest[j].EncodingField?)
    {
      assert all[i + 1] == rest[i] && all[j + 1] == rest[j];
    }
  }

  lemma AgreeCons(found: Found, field: Field, rest: seq<Field>)
    requires Believable(field) && Continues(found, field)
    requires AgreeAfter(TakeField(found, field).found, rest)
    ensures AgreeAfter(found, [field] + rest)
  {
    var all := [field] + rest;
    var next := TakeField(found, field).found;
    forall j | 0 <= j < |rest|
      ensures Believable(rest[j]) && Continues(found, rest[j])
      ensures field.SizeField? && rest[j].SizeField? ==> field == rest[j]
      ensures !(field.EncodingField? && rest[j].EncodingField?)
    {
      assert Continues(next, rest[j]);
    }
    assert forall i :: 0 < i < |all| ==> all[i] == rest[i - 1];
  }

  /** The walk accepts exactly the headers that agree. */
  lemma {:induction false} WalkAccepts(found: Found, lines: seq<string>)
    requires NoneBlank(lines)
    ensures TakeHeaders(found, lines).Going? <==> AgreeAfter(found, Fields(lines))
    decreases |lines|
  {
    if lines != [] {
      var field := FieldOf(lines[0]);
      assert Fields(lines) == [field] + Fields(lines[1..]);
      if Believable(field) && Continues(found, field) {
        WalkAccepts(TakeField(found, field).found, lines[1..]);
        if TakeHeaders(found, lines).Going? {
          AgreeCons(found, field, Fields(lines[1..]));
        } else if AgreeAfter(found, Fields(lines)) {
          AgreeTail(found, field, Fields(lines[1..]));
        }
      } else {
        assert Fields(lines)[0] == field;
      }
    }
  }

  lemma {:induction false} WalkStopsAtBlank(found: Found, lines: seq<string>)
    requires NoneBlank(lines)
    ensures TakeHeaders(found, lines + [""]) == TakeHeaders(found, lines)
    decreases |lines|
  {
    if lines != [] {
      assert (lines + [""])[0] == lines[0] && (lines + [""])[1..] == lines[1..] + [""];
      if TakeField(found, FieldOf(lines[0])).Going? {
        WalkStopsAtBlank(TakeField(found, FieldOf(lines[0])).found, lines[1..]);
      }
    }
  }

  function HeaderLines(m: Machine): seq<string> {
    var lines := Lines(m.head);
    if |lines| < 2 then [] else lines[1..|lines| - 1]
  }

  /**
   No header is ever hidden from the walk: of a response whose head is in, every line between the
   status line and the end of the buffer was read, and together they agree.
   */
  lemma FinalWalked(lines: seq<string>, headRequest: bool)
    requires ReadHead(lines, headRequest).Final?
    ensures lines != [] && TakeHeaders(Found(None, false), lines[1..]).Going?
    ensures ReadHead(lines, headRequest).framing == ByLength ==>
      TakeHeaders(Found(None, false), lines[1..]).found.length == Some(ReadHead(lines, headRequest).length)
  {
  }

  lemma EveryHeaderSeen(headRequest: bool, input: string)
    requires Run(Begin(headRequest), input).status != 0
    ensures var m := Run(Begin(headRequest), input);
            && Lines(m.head) != [] && Lines(m.head) == [Lines(m.head)[0]] + HeaderLines(m) + [""]
            && NoneBlank(HeaderLines(m)) && Agree(Fields(HeaderLines(m)))
  {
    hide Run;
    hide Body;
    hide HttpHead.ReadHead;
    RunSound(Begin(headRequest), input);
    var m := Run(Begin(headRequest), input);
    var lines := Lines(m.head);
    FinalWalked(lines, m.headRequest);
    assert lines[1..] == HeaderLines(m) + [""];
    assert forall i :: 0 <= i < |HeaderLines(m)| ==> HeaderLines(m)[i] == lines[..|lines| - 1][i + 1];
    WalkStopsAtBlank(Found(None, false), HeaderLines(m));
    WalkAccepts(Found(None, false), HeaderLines(m));
  }

  /**
   Length framing: the body delivered and the body still owed always add up to the Content-Length,
   which is the decimal value of the header a caller can look up; and the response only ever counts
   as finished with all of it delivered.
   */
  lemma LengthFraming(headRequest: bool, input: string)
    requires Run(Begin(headRequest), input).status != 0
    requires Run(Begin(headRequest), input).framing == ByLength
    ensures var m := Run(Begin(headRequest), input);
            var body := Body(Begin(headRequest), input);
            && |body| + m.remaining == m.contentLength
            && HeaderValue(m, "content-length").Some?
            && LengthOf(HeaderValue(m, "content-length").value) == Some(m.contentLength)
            && (Finish(m).1 <==> |body| == m.contentLength)
  {
    hide Run;
    hide Body;
    hide HttpHead.ReadHead;
    hide HttpHead.TakeHeaders;
    RunSound(Begin(headRequest), input);
    var m := Run(Begin(headRequest), input);
    NeverTruncated(Begin(headRequest), input);
    FinalWalked(Lines(m.head), m.headRequest);
    WalkFinds(Found(None, false), Lines(m.head)[1..]);
  }

  /** Only a close makes a response truncated; no byte does. */
  lemma {:induction false} NeverTruncated(m: Machine, input: string)
    requires m.error != Truncated
    ensures Run(m, input).error != Truncated
    decreases |input|
  {
    if input != "" {
      ByteNeverTruncates(m, input[0]);
      NeverTruncated(Step(m, input[0]), input[1..]);
    }
  }

  lemma {:induction false} WalkNeverTruncates(found: Found, lines: seq<string>)
    ensures TakeHeaders(found, lines) != Stopped(Truncated)
    decreases |lines|
  {
    if lines != [] && lines[0] != "" && TakeField(found, FieldOf(lines[0])).Going? {
      WalkNeverTruncates(TakeField(found, FieldOf(lines[0])).found, lines[1..]);
    }
  }

  lemma HeadNeverTruncates(m: Machine, c: char)
    requires m.error != Truncated
    ensures StepHead(m, c).error != Truncated
  {
    hide HttpHead.Lines;
    hide HttpHead.IsStatusLine;
    var lines := Lines(m.head + [c]);
    if lines != [] {
      WalkNeverTruncates(Found(None, false), lines[1..]);
    }
    assert ReadHead(lines, m.headRequest) != Refused(Truncated);
  }

  lemma ByteNeverTruncates(m: Machine, c: char)
    requires m.error != Truncated
    ensures Step(m, c).error != Truncated
  {
    hide StepHead;
    hide HttpHead.ChunkSizeOf;
    HeadNeverTruncates(m, c);
  }

  // ---- chunks ----------------------------------------------------------------------------

  /** A chunk as sent: the line before its CRLF - a size, perhaps an extension - and its data. */
  datatype Chunk = Chunk(line: string, data: string)

  predicate LineSays(line: string, size: nat) {
    && |line| + 1 < CHUNK_LINE_MAX && '\n' !in line
    && ChunkSizeOf(line) == Some(size)
  }

  predicate WellFormed(chunks: seq<Chunk>) {
    forall i :: 0 <= i < |chunks| ==> chunks[i].data != "" && LineSays(chunks[i].line, |chunks[i].data|)
  }

  function Encode(chunk: Chunk): string {
    chunk.line + "\r\n" + chunk.data + "\r\n"
  }

  /** A chunked body, section 7.1 of RFC 9112: the chunks, a last one of size zero, no trailer. */
  function EncodeAll(chunks: seq<Chunk>, last: string): (wire: string)
    ensures wire != ""
  {
    if chunks == [] then last + "\r\n\r\n" else Encode(chunks[0]) + EncodeAll(chunks[1..], last)
  }

  function Data(chunks: seq<Chunk>): string {
    if chunks == [] then "" else chunks[0].data + Data(chunks[1..])
  }

  lemma LineByte(m: Machine, c: char)
    requires m.phase == ChunkSize && c != '\n' && |m.chunkLine| + 1 < CHUNK_LINE_MAX
    ensures Step(m, c) == m.(chunkLine := m.chunkLine + [c])
  {
    hide HttpHead.ChunkSizeOf;
  }

  lemma {:induction false} RunLine(m: Machine, line: string)
    requires m.phase == ChunkSize && '\n' !in line && |m.chunkLine| + |line| < CHUNK_LINE_MAX
    ensures Run(m, line) == m.(chunkLine := m.chunkLine + line)
    ensures Body(m, line) == ""
    decreases |line|
  {
    hide Step;
    if line == "" {
      assert m.chunkLine + line == m.chunkLine;
    } else {
      LineByte(m, line[0]);
      var next := Step(m, line[0]);
      RunLine(next, line[1..]);
      assert next.chunkLine + line[1..] == m.chunkLine + line;
    }
  }

  /** A size line and its CRLF, from the start of a line. */
  lemma RunSizeLine(m: Machine, line: string, size: nat)
    requires m.phase == ChunkSize && m.chunkLine == "" && LineSays(line, size)
    ensures Run(m, line + "\r\n") == StartChunk(m, Some(size))
    ensures Body(m, line + "\r\n") == ""
  {
    hide StepHead;
    hide StepRest;
    hide HttpHead.ChunkSizeOf;
    var withCr := line + "\r";
    RunLine(m, withCr);
    assert m.chunkLine + withCr == withCr;
    assert StripCr(withCr) == line;
    var before := Run(m, withCr);
    assert before == m.(chunkLine := withCr);
    assert line + "\r\n" == withCr + ['\n'];
    RunSnoc(m, withCr, '\n');
    assert before.(chunkLine := "") == m;
  }

  lemma RunCrlf(m: Machine)
    requires m.phase == ChunkEnd
    ensures Run(m, "\r\n") == m.(phase := ChunkSize)
    ensures Body(m, "\r\n") == ""
  {
    hide StepHead;
    hide StepChunkSize;
    hide HttpHead.ChunkSizeOf;
    var cr := Step(m, '\r');
    assert "\r\n" == ['\r'] + ['\n'] && ['\r'][1..] == "";
    RunConcat(m, ['\r'], ['\n']);
    assert Run(m, ['\r']) == cr;
    RunSnoc(cr, "", '\n');
    assert "" + ['\n'] == ['\n'];
  }

  lemma RunChunk(m: Machine, chunk: Chunk)
    requires m.phase == ChunkSize && m.chunkLine == "" && m.remaining == 0
    requires chunk.data != "" && LineSays(chunk.line, |chunk.data|)
    ensures Run(m, Encode(chunk)) == m.(received := m.received + |chunk.data|)
    ensures Body(m, Encode(chunk)) == chunk.data
  {
    hide Run;
    hide Body;
    hide LineSays;
    var line := chunk.line + "\r\n";
    RunSizeLine(m, chunk.line, |chunk.data|);
    var started := Run(m, line);
    SliceIsBytes(started, chunk.data);
    var taken := Run(started, chunk.data);
    RunCrlf(taken);
    RunConcat(m, line, chunk.data);
    RunConcat(m, line + chunk.data, "\r\n");
    assert Encode(chunk) == line + chunk.data + "\r\n";
  }

  lemma RunLast(m: Machine, last: string)
    requires m.phase == ChunkSize && m.chunkLine == "" && LineSays(last, 0)
    ensures Run(m, last + "\r\n\r\n").phase == Done
    ensures Body(m, last + "\r\n\r\n") == ""
    ensures !Terminal(Run(m, last + "\r\n\r"))
  {
    hide StepHead;
    hide StepChunkSize;
    hide HttpHead.ChunkSizeOf;
    var line := last + "\r\n";
    RunSizeLine(m, last, 0);
    var trailer := Run(m, line);
    RunSnoc(m, line, '\r');
    RunSnoc(m, line + ['\r'], '\n');
    assert last + "\r\n\r" == line + ['\r'];
    assert last + "\r\n\r\n" == line + ['\r'] + ['\n'];
  }

  /**
   Chunked round trip. Whatever chunks a body is cut into, and whatever follows it, the parser
   delivers exactly their concatenation, is done on the encoding's last byte and not before, and
   takes nothing after it.
   */
  lemma {:induction false} ChunkedRoundTrip(m: Machine, chunks: seq<Chunk>, last: string, after: string)
    requires m.phase == ChunkSize && m.chunkLine == "" && m.remaining == 0
    requires WellFormed(chunks) && LineSays(last, 0)
    ensures var wire := EncodeAll(chunks, last);
            && Body(m, wire + after) == Data(chunks)
            && Run(m, wire + after) == Run(m, wire) && Run(m, wire).phase == Done
            && !Terminal(Run(m, wire[..|wire| - 1]))
    decreases |chunks|
  {
    hide Run;
    hide Body;
    hide LineSays;
    hide Encode;
    var wire := EncodeAll(chunks, last);
    if chunks == [] {
      RunLast(m, last);
      assert wire[..|wire| - 1] == last + "\r\n\r";
      RunConcat(m, wire, after);
      TerminalStays(Run(m, wire), after);
    } else {
      var first, rest := Encode(chunks[0]), EncodeAll(chunks[1..], last);
      RunChunk(m, chunks[0]);
      var next := Run(m, first);
      ChunkedRoundTrip(next, chunks[1..], last, after);
      RunConcat(m, first, rest + after);
      RunConcat(m, first, rest);
      RunConcat(m, first, rest[..|rest| - 1]);
      assert wire + after == first + (rest + after);
      assert wire[..|wire| - 1] == first + rest[..|rest| - 1];
    }
  }

  // ---- sizes as they are printed ---------------------------------------------------------

  function HexDigit(d: nat): (c: char)
    requires d < 16
    ensures Hex(c) == d && c != '\n'
  {
    "0123456789abcdef"[d]
  }

  function HexText(n: nat): (text: string)
    ensures text != "" && AllHex(text) && '\n' !in text
  {
    if n < 16 then [HexDigit(n)] else HexText(n / 16) + [HexDigit(n % 16)]
  }

  lemma {:induction false} HexTextValue(n: nat)
    ensures HexValue(HexText(n)) == n
  {
    var text := HexText(n);
    if n < 16 {
      assert text[..|text| - 1] == "";
    } else {
      HexTextValue(n / 16);
      assert text[..|text| - 1] == HexText(n / 16);
    }
  }

  lemma {:induction false} HexTextLength(n: nat, digits: nat, bound: nat)
    requires n < bound && bound == Power16(digits) && digits > 0
    ensures |HexText(n)| <= digits
    decreases digits
  {
    if n >= 16 {
      assert Power16(1) == 16 * Power16(0) == 16;
      HexTextLength(n / 16, digits - 1, Power16(digits - 1));
    }
  }

  function Power16(digits: nat): nat {
    if digits == 0 then 1 else 16 * Power16(digits - 1)
  }

  lemma {:induction false} AllHexRun(text: string)
    requires AllHex(text)
    ensures HexRun(text) == |text|
    decreases |text|
  {
    if text != "" {
      AllHexRun(text[1..]);
    }
  }

  /** A size printed in hexadecimal is a size line for exactly the sizes below 2^64. */
  lemma PrintedSize(n: nat)
    ensures n < TWO_64 ==> LineSays(HexText(n), n)
    ensures n >= TWO_64 ==> ChunkSizeOf(HexText(n)) == None
  {
    var text := HexText(n);
    AllHexRun(text);
    HexTextValue(n);
    assert text[..|text|] == text && text[|text|..] == "";
    if n < TWO_64 {
      SixteenDigits();
      HexTextLength(n, 16, TWO_64);
    }
  }

  lemma SixteenDigits()
    ensures Power16(16) == TWO_64
  {
    assert Power16(4) == 0x1_0000;
    assert Power16(8) == 0x1_0000_0000;
    assert Power16(12) == 0x1_0000_0000_0000;
  }
}
