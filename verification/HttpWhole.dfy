/** Whole responses, from the first byte: a head as it is sent, and a chunked body behind it. */
module HttpWhole {
  import opened Base
  import opened HttpHead
  import opened HttpMachine
  import opened HttpFraming

  /** Lines as they are sent. */
  function Wire(lines: seq<string>): string {
    if lines == [] then "" else lines[0] + "\r\n" + Wire(lines[1..])
  }

  /** Lines that can be sent so: none blank, none broken. */
  predicate Sendable(lines: seq<string>) {
    forall i :: 0 <= i < |lines| ==> lines[i] != "" && '\n' !in lines[i]
  }

  // ---- the head in the buffer ------------------------------------------------------------

  lemma FirstLine(line: string, rest: string)
    requires '\n' !in line
    ensures Lines(line + "\r\n" + rest) == [line] + Lines(rest)
  {
    var text := line + "\r\n" + rest;
    var end := |line| + 1;
    assert text[..end] == line + "\r" && text[end + 1..] == rest;
    LineEndOf(text, end);
    hide Lines;
    LinesTurn(text);
    assert StripCr(line + "\r") == line;
  }

  lemma {:induction false} LinesOfWire(lines: seq<string>, rest: string)
    requires Sendable(lines)
    ensures Lines(Wire(lines) + rest) == lines + Lines(rest)
    decreases |lines|
  {
    hide Lines;
    if lines == [] {
      assert Wire(lines) + rest == rest && lines + Lines(rest) == Lines(rest);
    } else {
      var more := Wire(lines[1..]) + rest;
      assert Wire(lines) + rest == lines[0] + "\r\n" + more;
      FirstLine(lines[0], more);
      LinesOfWire(lines[1..], rest);
      assert [lines[0]] + (lines[1..] + Lines(rest)) == lines + Lines(rest);
    }
  }

  lemma HeadByteKept(m: Machine, c: char)
    requires m.phase == Head && |m.head| + 1 < HEAD_MAX
    ensures c != '\n' ==> Step(m, c) == m.(head := m.head + [c], lineLen := m.lineLen + 1)
    ensures c == '\n' && m.lineLen > 1 ==> Step(m, c) == m.(head := m.head + [c], lineLen := 0)
    ensures c == '\n' && m.lineLen == 1 && |m.head| > 1 && m.head[|m.head| - 1] == '\r' ==>
      Step(m, c) == Settle(m.(head := m.head + [c], lineLen := 0), ReadHead(Lines(m.head + [c]), m.headRequest))
  {
    hide ReadHead;
    hide Lines;
    hide Settle;
  }

  lemma {:induction false} HeadTextKept(m: Machine, text: string)
    requires m.phase == Head && '\n' !in text && |m.head| + |text| < HEAD_MAX
    ensures Run(m, text) == m.(head := m.head + text, lineLen := m.lineLen + |text|) && Body(m, text) == ""
    decreases |text|
  {
    hide Step;
    if text == "" {
      assert m.head + text == m.head;
    } else {
      HeadByteKept(m, text[0]);
      var next := Step(m, text[0]);
      HeadTextKept(next, text[1..]);
      assert next.head + text[1..] == m.head + text;
    }
  }

  lemma HeadLineKept(m: Machine, line: string)
    requires m.phase == Head && m.lineLen == 0 && line != "" && '\n' !in line && |m.head| + |line| + 2 < HEAD_MAX
    ensures Run(m, line + "\r\n") == m.(head := m.head + (line + "\r\n")) && Body(m, line + "\r\n") == ""
  {
    hide Step;
    hide Run;
    hide Body;
    HeadTextKept(m, line + "\r");
    var next := Run(m, line + "\r");
    HeadByteKept(next, '\n');
    assert line + "\r\n" == (line + "\r") + "\n";
    RunConcat(m, line + "\r", "\n");
    OneHeadByte(next, '\n');
    assert m.head + (line + "\r") + ['\n'] == m.head + (line + "\r\n");
  }

  lemma OneHeadByte(m: Machine, c: char)
    requires m.phase == Head
    ensures Run(m, [c]) == Step(m, c) && Body(m, [c]) == ""
  {
    hide Step;
    assert [c][1..] == "";
  }

  lemma {:induction false} HeadLinesKept(m: Machine, lines: seq<string>)
    requires m.phase == Head && m.lineLen == 0 && Sendable(lines) && |m.head| + |Wire(lines)| < HEAD_MAX
    ensures Run(m, Wire(lines)) == m.(head := m.head + Wire(lines)) && Body(m, Wire(lines)) == ""
    decreases |lines|
  {
    hide Run;
    hide Body;
    if lines == [] {
      assert m.head + "" == m.head;
      NothingRun(m);
    } else {
      var first, rest := lines[0] + "\r\n", Wire(lines[1..]);
      HeadLineKept(m, lines[0]);
      RunConcat(m, first, rest);
      var next := Run(m, first);
      HeadLinesKept(next, lines[1..]);
      assert m.head + first + rest == m.head + (first + rest);
    }
  }

  lemma NothingRun(m: Machine)
    ensures Run(m, "") == m && Body(m, "") == ""
  {
  }

  /** A head, byte by byte, comes to what its lines say. */
  lemma HeadRead(headRequest: bool, lines: seq<string>)
    requires Sendable(lines) && lines != [] && |Wire(lines)| + 2 < HEAD_MAX
    ensures var head := Wire(lines) + "\r\n";
            var m := Begin(headRequest);
            && Run(m, head) == Settle(m.(head := head), ReadHead(lines + [""], headRequest)) && Body(m, head) == ""
  {
    hide Run;
    hide Body;
    hide Step;
    hide ReadHead;
    hide Settle;
    hide Lines;
    var m := Begin(headRequest);
    var wire := Wire(lines);
    HeadLinesKept(m, lines);
    assert "" + wire == wire;
    var open := Run(m, wire);
    RunConcat(m, wire, "\r\n");
    HeadTextKept(open, "\r");
    RunConcat(open, "\r", "\n");
    assert "\r\n" == "\r" + "\n";
    var last := Run(open, "\r");
    HeadByteKept(last, '\n');
    OneHeadByte(last, '\n');
    assert open.head == wire && last.head == wire + "\r";
    assert wire + "\r" + ['\n'] == wire + "\r\n";
    LinesOfWire(lines, "\r\n");
    FirstLine("", "");
    assert "" + "\r\n" + "" == "\r\n";
    LinesTurn("");
    assert Lines("\r\n") == [""];
    assert last.(head := wire + "\r\n", lineLen := 0) == m.(head := wire + "\r\n");
    assert Run(last, "\n") == Step(last, '\n') by {
      assert "\n" == ['\n'];
    }
  }

  /** Until its very last byte a head is open. */
  lemma HeadOpenUntil(headRequest: bool, lines: seq<string>)
    requires Sendable(lines) && lines != [] && |Wire(lines)| + 2 < HEAD_MAX
    ensures Run(Begin(headRequest), Wire(lines) + "\r").phase == Head
  {
    hide Run;
    hide Body;
    hide Step;
    var m := Begin(headRequest);
    HeadLinesKept(m, lines);
    RunConcat(m, Wire(lines), "\r");
    HeadTextKept(Run(m, Wire(lines)), "\r");
  }

  // ---- a chunked response ----------------------------------------------------------------

  lemma {:induction false} WalkChunked(found: Found, lines: seq<string>)
    requires NoneBlank(lines) && TakeHeaders(found, lines).Going?
    ensures TakeHeaders(found, lines).found.chunked <==>
              found.chunked || exists i :: 0 <= i < |lines| && FieldOf(lines[i]).EncodingField?
    decreases |lines|
  {
    hide FieldOf;
    if lines != [] {
      var rest := lines[1..];
      assert forall i :: 0 <= i < |rest| ==> rest[i] == lines[i + 1];
      WalkChunked(TakeField(found, FieldOf(lines[0])).found, rest);
      assert (exists i :: 0 <= i < |rest| && FieldOf(rest[i]).EncodingField?) ==>
             exists i :: 0 <= i < |lines| && FieldOf(lines[i]).EncodingField? by {
        if i :| 0 <= i < |rest| && FieldOf(rest[i]).EncodingField? {
          assert FieldOf(lines[i + 1]).EncodingField?;
        }
      }
      if i :| 0 < i < |lines| && FieldOf(lines[i]).EncodingField? {
        assert FieldOf(rest[i - 1]).EncodingField?;
      }
    }
  }

  /** A head that announces a chunked body: headers that agree, one of them a Transfer-Encoding. */
  predicate SaysChunked(lines: seq<string>) {
    && Sendable(lines) && lines != [] && IsStatusLine(lines[0]) && |Wire(lines)| + 2 < HEAD_MAX
    && (var status := Decimal(lines[0][9..12]); status >= 200 && status != 204 && status != 304)
    && Agree(Fields(lines[1..])) && (exists i :: 0 < i < |lines| && FieldOf(lines[i]).EncodingField?)
  }

  lemma ChunkedHead(lines: seq<string>)
    requires SaysChunked(lines)
    ensures ReadHead(lines + [""], false) == Final(Decimal(lines[0][9..12]), Chunked, 0)
  {
    hide FieldOf;
    var headers := lines[1..];
    assert forall i :: 0 <= i < |headers| ==> headers[i] == lines[i + 1];
    assert NoneBlank(headers);
    WalkAccepts(Found(None, false), headers);
    WalkStopsAtBlank(Found(None, false), headers);
    WalkChunked(Found(None, false), headers);
    assert (lines + [""])[1..] == headers + [""] && (lines + [""])[0] == lines[0];
    var i :| 0 < i < |lines| && FieldOf(lines[i]).EncodingField?;
    assert FieldOf(headers[i - 1]).EncodingField?;
  }

  /**
   A whole chunked response, from its first byte: any head that says so, any non-empty chunks. The
   body is exactly their data, the response is over with the last byte of the encoding and no
   sooner, and nothing behind it is consumed.
   */
  lemma ChunkedResponse(lines: seq<string>, chunks: seq<Chunk>, last: string, after: string)
    requires SaysChunked(lines) && WellFormed(chunks) && LineSays(last, 0)
    ensures var m := Begin(false);
            var wire := Wire(lines) + "\r\n" + EncodeAll(chunks, last);
            && Body(m, wire + after) == Data(chunks)
            && Run(m, wire + after) == Run(m, wire) && Run(m, wire).phase == Done
            && !Terminal(Run(m, wire[..|wire| - 1]))
  {
    hide Run;
    hide Body;
    hide ReadHead;
    hide SaysChunked;
    var m := Begin(false);
    var head, body := Wire(lines) + "\r\n", EncodeAll(chunks, last);
    SaysSendable(lines);
    HeadRead(false, lines);
    ChunkedHead(lines);
    var open := Run(m, head);
    ChunkedRoundTrip(open, chunks, last, after);
    RunConcat(m, head, body + after);
    RunConcat(m, head, body);
    RunConcat(m, head, body[..|body| - 1]);
    assert head + body + after == head + (body + after);
    assert (head + body)[..|head + body| - 1] == head + body[..|body| - 1];
    assert "" + Data(chunks) == Data(chunks);
  }

  lemma SaysSendable(lines: seq<string>)
    requires SaysChunked(lines)
    ensures Sendable(lines) && lines != [] && |Wire(lines)| + 2 < HEAD_MAX
  {
  }
}
