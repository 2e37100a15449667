/**
 What a server sends, header by header, and what is made of it: the framing each head asks for, and
 whole responses in every framing.
 */
module HttpSent {
  import opened Base
  import opened HttpHead
  import opened HttpMachine
  import opened HttpFraming
  import opened HttpWhole

  // ---- headers as they are sent ----------------------------------------------------------

  predicate Token(name: string) {
    name != "" && forall i :: 0 <= i < |name| ==> TokenChar(name[i])
  }

  /** A value with nothing around it to trim. */
  predicate Tidy(value: string) {
    '\r' !in value && '\0' !in value && (value != "" ==> !Blank(value[0]) && !Blank(value[|value| - 1]))
  }

  lemma {:induction false} TokenEnds(name: string, rest: string)
    requires forall i :: 0 <= i < |name| ==> TokenChar(name[i])
    requires rest != "" && !TokenChar(rest[0])
    ensures TokenRun(name + rest) == |name|
    decreases |name|
  {
    if name == "" {
      assert name + rest == rest;
    } else {
      assert (name + rest)[0] == name[0] && (name + rest)[1..] == name[1..] + rest;
      TokenEnds(name[1..], rest);
    }
  }

  lemma ColonEnds()
    ensures !TokenChar(':')
  {
  }

  /** A header as it is usually sent reads back as its name and its value. */
  lemma HeaderSent(name: string, value: string)
    requires Token(name) && Tidy(value)
    ensures SplitHeader(name + ": " + value) == Some(Header(name, value))
  {
    hide TokenChar;
    var line := name + ": " + value;
    assert line == name + (": " + value);
    assert !TokenChar(':') by {
      ColonEnds();
    }
    TokenEnds(name, ": " + value);
    assert line[..|name|] == name && line[|name|] == ':' && line[|name| + 1..] == " " + value;
    assert (" " + value)[0] == ' ' && (" " + value)[1..] == value;
    assert SkipBlanks(" " + value) == SkipBlanks(value) == value;
    assert DropBlanks(value) == value;
  }

  /** A header that was sent is found by its name, in any letter case, if none before it has that name. */
  lemma {:induction false} HeaderFound(lines: seq<string>, i: nat, name: string, value: string, asked: string)
    requires i < |lines| && Token(name) && Tidy(value) && EqualNocase(name, asked) && NoneBlank(lines)
    requires lines[i] == name + ": " + value && forall j :: 0 <= j < i ==> !Names(lines[j], asked)
    ensures FirstValue(lines, asked) == Some(value)
    decreases i
  {
    hide SplitHeader;
    if i == 0 {
      HeaderSent(name, value);
    } else {
      HeaderFound(lines[1..], i - 1, name, value, asked);
    }
  }

  /** And one that was not sent is not found. */
  lemma {:induction false} HeaderMissing(lines: seq<string>, asked: string)
    requires forall j :: 0 <= j < |lines| ==> !Names(lines[j], asked)
    ensures FirstValue(lines, asked) == None
    decreases |lines|
  {
    hide SplitHeader;
    if lines != [] {
      HeaderMissing(lines[1..], asked);
    }
  }

  // ---- numbers as they are sent ----------------------------------------------------------

  function DigitChar(d: nat): (c: char)
    requires d < 10
    ensures Digit(c) && DigitValue(c) == d
  {
    "0123456789"[d]
  }

  function DecText(n: nat): (text: string)
    ensures text != "" && AllDigits(text)
  {
    if n < 10 then [DigitChar(n)] else DecText(n / 10) + [DigitChar(n % 10)]
  }

  lemma {:induction false} DecTextValue(n: nat)
    ensures Decimal(DecText(n)) == n
  {
    var text := DecText(n);
    if n < 10 {
      assert text[..|text| - 1] == "";
    } else {
      DecTextValue(n / 10);
      assert text[..|text| - 1] == DecText(n / 10);
    }
  }

  lemma DigitsTidy(text: string)
    requires AllDigits(text)
    ensures Tidy(text)
  {
  }

  /** A Content-Length in any letter case is that length, for all but lengths that are too large. */
  lemma LengthSent(name: string, n: nat)
    requires Token(name) && EqualNocase(name, "Content-Length")
    ensures FieldOf(name + ": " + DecText(n)) == SizeField(if n <= LENGTH_MAX then Some(n) else None)
  {
    var value := DecText(n);
    DigitsTidy(value);
    HeaderSent(name, value);
    DecTextValue(n);
    LengthName();
  }

  lemma LengthName()
    ensures EqualNocase("Content-Length", "content-length")
  {
  }

  lemma EncodingName()
    ensures EqualNocase("Transfer-Encoding", "transfer-encoding")
  {
  }

  /** A Transfer-Encoding is chunked or is not. */
  lemma EncodingSent(name: string, value: string)
    requires Token(name) && EqualNocase(name, "Transfer-Encoding") && Tidy(value)
    ensures FieldOf(name + ": " + value) == EncodingField(EqualNocase(value, "chunked"))
  {
    HeaderSent(name, value);
    EncodingName();
    assert |name| == 17 && |"content-length"| == 14;
  }

  /** Any other header is neither. */
  lemma OtherSent(name: string, value: string)
    requires Token(name) && Tidy(value)
    requires !EqualNocase(name, "Content-Length") && !EqualNocase(name, "Transfer-Encoding")
    ensures FieldOf(name + ": " + value) == Plain
  {
    HeaderSent(name, value);
    LengthName();
    EncodingName();
  }

  // ---- the framing a head asks for -------------------------------------------------------

  predicate StatesLength(lines: seq<string>, n: nat) {
    exists i :: 0 <= i < |lines| && FieldOf(lines[i]) == SizeField(Some(n))
  }

  predicate StatesEncoding(lines: seq<string>) {
    exists i :: 0 <= i < |lines| && FieldOf(lines[i]).EncodingField?
  }

  lemma {:induction false} WalkLength(found: Found, lines: seq<string>, n: nat)
    requires NoneBlank(lines) && TakeHeaders(found, lines).Going?
    ensures TakeHeaders(found, lines).found.length == Some(n) <==> found.length == Some(n) || StatesLength(lines, n)
    decreases |lines|
  {
    hide FieldOf;
    if lines != [] {
      var rest := lines[1..];
      assert forall i :: 0 <= i < |rest| ==> rest[i] == lines[i + 1];
      var next := TakeField(found, FieldOf(lines[0])).found;
      WalkLength(next, rest, n);
      if StatesLength(rest, n) {
        var i :| 0 <= i < |rest| && FieldOf(rest[i]) == SizeField(Some(n));
        assert FieldOf(lines[i + 1]) == SizeField(Some(n));
      }
      if i :| 0 < i < |lines| && FieldOf(lines[i]) == SizeField(Some(n)) {
        assert FieldOf(rest[i - 1]) == SizeField(Some(n));
      }
      if found.length == Some(n) {
        WalkKeepsLength(next, rest);
      }
    }
  }

  lemma {:induction false} WalkKeepsLength(found: Found, lines: seq<string>)
    requires TakeHeaders(found, lines).Going? && found.length.Some?
    ensures TakeHeaders(found, lines).found.length == found.length
    decreases |lines|
  {
    hide FieldOf;
    if lines != [] && lines[0] != "" {
      WalkKeepsLength(TakeField(found, FieldOf(lines[0])).found, lines[1..]);
    }
  }

  /** The three digits of a status line. */
  function StatusOf(line: string): nat
    requires IsStatusLine(line)
  {
    Decimal(line[9..12])
  }

  /** A head as sent, its status line first and every header on a line of its own. */
  predicate HeadSent(lines: seq<string>) {
    Sendable(lines) && lines != [] && IsStatusLine(lines[0])
  }

  /** The walk over a head as sent is the walk over its headers. */
  lemma HeadWalk(lines: seq<string>)
    requires Sendable(lines) && lines != []
    ensures NoneBlank(lines[1..]) && (lines + [""])[0] == lines[0]
    ensures TakeHeaders(Found(None, false), (lines + [""])[1..]) == TakeHeaders(Found(None, false), lines[1..])
    ensures TakeHeaders(Found(None, false), lines[1..]).Going? <==> Agree(Fields(lines[1..]))
  {
    var headers := lines[1..];
    assert forall i :: 0 <= i < |headers| ==> headers[i] == lines[i + 1];
    hide FieldOf;
    WalkAccepts(Found(None, false), headers);
    WalkStopsAtBlank(Found(None, false), headers);
    assert (lines + [""])[1..] == headers + [""];
  }

  /** What becomes of a head: refused, skipped as an interim one, or the head of the response. */
  lemma HeadOutcome(lines: seq<string>, headRequest: bool)
    requires Sendable(lines) && lines != []
    ensures var outcome := ReadHead(lines + [""], headRequest);
            if !IsStatusLine(lines[0]) || StatusOf(lines[0]) < 100 then outcome == Refused(StatusLine)
            else if StatusOf(lines[0]) == 101 then outcome == Refused(Upgrade)
            else if !Agree(Fields(lines[1..])) then outcome.Refused?
            else if StatusOf(lines[0]) < 200 then outcome == Interim
            else outcome.Final? && outcome.status == StatusOf(lines[0])
  {
    HeadWalk(lines);
    hide TakeHeaders;
    hide Fields;
    hide Agree;
    hide IsStatusLine;
  }

  /** Which error a head is refused with: that of its first header that cannot be believed. */
  lemma {:induction false} FirstFault(found: Found, lines: seq<string>, k: nat)
    requires NoneBlank(lines) && k < |lines| && AgreeAfter(found, Fields(lines[..k])) && !Believable(FieldOf(lines[k]))
    ensures TakeHeaders(found, lines) == Stopped(
              if FieldOf(lines[k]).Malformed? then BadHeader
              else if FieldOf(lines[k]).SizeField? then BadLength else BadEncoding)
    decreases |lines|
  {
    hide FieldOf;
    if k > 0 {
      var front := lines[..k];
      assert Fields(front) == [FieldOf(lines[0])] + Fields(lines[1..][..k - 1]) by {
        assert front[0] == lines[0] && forall i :: 0 < i < k ==> front[i] == lines[1..][..k - 1][i - 1];
      }
      AgreeTail(found, FieldOf(lines[0]), Fields(lines[1..][..k - 1]));
      FirstFault(TakeField(found, FieldOf(lines[0])).found, lines[1..], k - 1);
    }
  }

  /**
   How the body behind a head is framed, section 6.3 of RFC 9112: there is none for HEAD, 204 and 304;
   else chunks if a Transfer-Encoding says so; else the length that is stated; else up to the close.
   */
  lemma FramingRule(lines: seq<string>, headRequest: bool, n: nat)
    requires HeadSent(lines) && StatusOf(lines[0]) >= 200 && Agree(Fields(lines[1..]))
    ensures var outcome := ReadHead(lines + [""], headRequest);
            var bodiless := headRequest || StatusOf(lines[0]) == 204 || StatusOf(lines[0]) == 304;
            var chunked, sized := StatesEncoding(lines[1..]), exists k: nat :: StatesLength(lines[1..], k);
            && outcome.Final? && outcome.status == StatusOf(lines[0])
            && (outcome.framing == NoBody <==> bodiless)
            && (outcome.framing == Chunked <==> !bodiless && chunked)
            && (outcome.framing == ByLength <==> !bodiless && !chunked && sized)
            && (outcome.framing == ByClose <==> !bodiless && !chunked && !sized)
            && (outcome.framing == ByLength && outcome.length == n <==>
                  !bodiless && !chunked && StatesLength(lines[1..], n))
  {
    HeadWalk(lines);
    FramingOf(lines, headRequest);
    FieldsStated(lines[1..], n);
    hide *;
  }

  /** What the walk found is what the headers state. */
  lemma FieldsStated(headers: seq<string>, n: nat)
    requires NoneBlank(headers) && TakeHeaders(Found(None, false), headers).Going?
    ensures var found := TakeHeaders(Found(None, false), headers).found;
            && (found.chunked <==> StatesEncoding(headers))
            && (found.length == Some(n) <==> StatesLength(headers, n))
            && (found.length.Some? <==> exists k: nat :: StatesLength(headers, k))
  {
    hide FieldOf;
    hide StatesLength;
    var found := TakeHeaders(Found(None, false), headers).found;
    if found.length.Some? {
      LengthStated(headers, found.length.value);
    }
    hide TakeHeaders;
    WalkChunked(Found(None, false), headers);
    LengthStated(headers, n);
    forall k: nat | StatesLength(headers, k) ensures found.length == Some(k) {
      LengthStated(headers, k);
    }
  }

  lemma LengthStated(headers: seq<string>, n: nat)
    requires NoneBlank(headers) && TakeHeaders(Found(None, false), headers).Going?
    ensures TakeHeaders(Found(None, false), headers).found.length == Some(n) <==> StatesLength(headers, n)
  {
    WalkLength(Found(None, false), headers, n);
  }

  lemma FramingOf(lines: seq<string>, headRequest: bool)
    requires HeadSent(lines) && StatusOf(lines[0]) >= 200
    requires TakeHeaders(Found(None, false), lines[1..]).Going?
    ensures var outcome := ReadHead(lines + [""], headRequest);
            var found := TakeHeaders(Found(None, false), lines[1..]).found;
            var bodiless := headRequest || StatusOf(lines[0]) == 204 || StatusOf(lines[0]) == 304;
            && outcome.Final? && outcome.status == StatusOf(lines[0])
            && (outcome.framing == NoBody <==> bodiless)
            && (outcome.framing == Chunked <==> !bodiless && found.chunked)
            && (outcome.framing == ByLength <==> !bodiless && !found.chunked && found.length.Some?)
            && (outcome.framing == ByLength ==> found.length == Some(outcome.length))
  {
    HeadWalk(lines);
    hide TakeHeaders;
    hide Fields;
    hide IsStatusLine;
  }

  // ---- whole responses -------------------------------------------------------------------

  predicate Fits(lines: seq<string>) {
    |Wire(lines)| + 2 < HEAD_MAX
  }

  /** The state behind a head: what it says, and nothing of a body yet. */
  lemma BehindHead(lines: seq<string>, headRequest: bool)
    requires HeadSent(lines) && Fits(lines)
    ensures var head := Wire(lines) + "\r\n";
            && Body(Begin(headRequest), head) == ""
            && Run(Begin(headRequest), head)
               == Settle(Begin(headRequest).(head := head), ReadHead(lines + [""], headRequest))
  {
    hide Run;
    hide Body;
    hide ReadHead;
    hide Settle;
    hide IsStatusLine;
    HeadRead(headRequest, lines);
  }

  /**
   A response whose head states a length: any so many bytes behind it are its body, the last of them
   ends the response and none before does, and nothing behind them is consumed.
   */
  lemma LengthResponse(lines: seq<string>, body: string, after: string)
    requires HeadSent(lines) && Fits(lines) && Agree(Fields(lines[1..]))
    requires StatusOf(lines[0]) >= 200 && StatusOf(lines[0]) != 204 && StatusOf(lines[0]) != 304
    requires !StatesEncoding(lines[1..]) && StatesLength(lines[1..], |body|)
    ensures var m := Begin(false);
            var head := Wire(lines) + "\r\n";
            && Body(m, head + body + after) == body
            && Run(m, head + body + after) == Run(m, head + body)
            && Run(m, head + body).phase == Done && Run(m, head + body).status == StatusOf(lines[0])
            && (forall k :: 0 <= k < |body| ==> !Terminal(Run(m, head + body[..k])))
  {
    hide Run;
    hide Body;
    hide ReadHead;
    FramingRule(lines, false, |body|);
    BehindHead(lines, false);
    hide IsStatusLine;
    hide Fields;
    hide StatesLength;
    hide StatesEncoding;
    LengthBehind(Begin(false), Wire(lines) + "\r\n", body, after);
  }

  /** So many bytes as are left, behind a head. */
  lemma LengthBehind(m: Machine, head: string, body: string, after: string)
    requires var open := Run(m, head);
             open.remaining == |body| && open.phase == if |body| == 0 then Done else Phase.Length
    requires Body(m, head) == ""
    ensures Body(m, head + body + after) == body && Run(m, head + body + after) == Run(m, head + body)
    ensures Run(m, head + body).phase == Done && Run(m, head + body).status == Run(m, head).status
    ensures forall k :: 0 <= k < |body| ==> !Terminal(Run(m, head + body[..k]))
  {
    hide Run;
    hide Body;
    var open := Run(m, head);
    LengthBody(open, body);
    assert head + body + after == head + (body + after);
    RunConcat(m, head, body);
    RunConcat(m, head, body + after);
    RunConcat(open, body, after);
    TerminalStays(Run(open, body), after);
    forall k | 0 <= k < |body| ensures !Terminal(Run(m, head + body[..k])) {
      RunConcat(m, head, body[..k]);
    }
  }

  lemma LengthBody(m: Machine, body: string)
    requires m.remaining == |body| && m.phase == if |body| == 0 then Done else Phase.Length
    ensures Run(m, body).phase == Done && Body(m, body) == body && Run(m, body).status == m.status
    ensures forall k :: 0 <= k < |body| ==> !Terminal(Run(m, body[..k]))
  {
    hide Run;
    hide Body;
    if body == "" {
      NothingRun(m);
    } else {
      SliceIsBytes(m, body);
      forall k | 0 <= k < |body| ensures !Terminal(Run(m, body[..k])) {
        if k == 0 {
          assert body[..k] == "";
          NothingRun(m);
        } else {
          SliceIsBytes(m, body[..k]);
        }
      }
    }
  }

  /** A response without a body is over with its head. */
  lemma BodilessResponse(lines: seq<string>, headRequest: bool, after: string)
    requires HeadSent(lines) && Fits(lines) && Agree(Fields(lines[1..])) && StatusOf(lines[0]) >= 200
    requires headRequest || StatusOf(lines[0]) == 204 || StatusOf(lines[0]) == 304
    ensures var m := Begin(headRequest);
            var head := Wire(lines) + "\r\n";
            && Body(m, head + after) == "" && Run(m, head + after) == Run(m, head)
            && Run(m, head).phase == Done && Run(m, head).status == StatusOf(lines[0])
  {
    hide Run;
    hide Body;
    hide ReadHead;
    var m := Begin(headRequest);
    var head := Wire(lines) + "\r\n";
    FramingRule(lines, headRequest, 0);
    BehindHead(lines, headRequest);
    hide IsStatusLine;
    hide Fields;
    RunConcat(m, head, after);
    TerminalStays(Run(m, head), after);
  }

  /** A response that says nothing about its end takes everything, and only the close ends it. */
  lemma CloseResponse(lines: seq<string>, body: string)
    requires HeadSent(lines) && Fits(lines) && Agree(Fields(lines[1..]))
    requires StatusOf(lines[0]) >= 200 && StatusOf(lines[0]) != 204 && StatusOf(lines[0]) != 304
    requires !StatesEncoding(lines[1..]) && forall n: nat :: !StatesLength(lines[1..], n)
    ensures var m := Run(Begin(false), Wire(lines) + "\r\n" + body);
            && Body(Begin(false), Wire(lines) + "\r\n" + body) == body
            && m.phase == UntilClose && m.status == StatusOf(lines[0]) && Finish(m).1
  {
    hide Run;
    hide Body;
    hide ReadHead;
    var m := Begin(false);
    var head := Wire(lines) + "\r\n";
    FramingRule(lines, false, 0);
    BehindHead(lines, false);
    hide IsStatusLine;
    hide Fields;
    CloseIsBytes(Run(m, head), body);
    RunConcat(m, head, body);
  }

  /** An interim response, of a status below 200 but 101, leaves no trace. */
  lemma InterimSkipped(lines: seq<string>, headRequest: bool, after: string)
    requires HeadSent(lines) && Fits(lines) && Agree(Fields(lines[1..]))
    requires 100 <= StatusOf(lines[0]) < 200 && StatusOf(lines[0]) != 101
    ensures var m := Begin(headRequest);
            var head := Wire(lines) + "\r\n";
            Run(m, head + after) == Run(m, after) && Body(m, head + after) == Body(m, after)
  {
    hide Run;
    hide Body;
    hide ReadHead;
    var m := Begin(headRequest);
    var head := Wire(lines) + "\r\n";
    HeadOutcome(lines, headRequest);
    BehindHead(lines, headRequest);
    hide IsStatusLine;
    hide Fields;
    RunConcat(m, head, after);
    assert "" + Body(m, after) == Body(m, after);
  }

  // ---- chunks with extensions and trailers -----------------------------------------------

  /** A size in either letter case. */
  lemma HexCases(d: nat)
    requires 10 <= d < 16
    ensures Hex("abcdef"[d - 10]) == d && Hex("ABCDEF"[d - 10]) == d
  {
  }

  lemma {:induction false} HexEnds(text: string, rest: string)
    requires AllHex(text) && (rest != "" ==> Hex(rest[0]) < 0)
    ensures HexRun(text + rest) == |text|
    decreases |text|
  {
    if text == "" {
      assert text + rest == rest;
    } else {
      assert (text + rest)[0] == text[0] && (text + rest)[1..] == text[1..] + rest;
      HexEnds(text[1..], rest);
    }
  }

  lemma SemicolonEnds()
    ensures Hex(';') < 0
  {
  }

  /** An extension behind the size changes nothing. */
  lemma ExtensionIgnored(n: nat, extension: string)
    requires n < TWO_64 && '\r' !in extension && '\0' !in extension
    ensures ChunkSizeOf(HexText(n) + ";" + extension) == Some(n)
  {
    hide HexText;
    hide Hex;
    hide HexValue;
    var text, rest := HexText(n), ";" + extension;
    assert Hex(rest[0]) < 0 by {
      SemicolonEnds();
    }
    assert text + ";" + extension == text + rest;
    HexEnds(text, rest);
    HexTextValue(n);
    assert (text + rest)[..|text|] == text && (text + rest)[|text|..] == rest;
    assert rest[0] == ';' && SkipBlanks(rest) == rest;
  }

  lemma TrailerByte(m: Machine, c: char)
    requires m.phase == Trailer && m.trailerLen + 1 < HEAD_MAX
    ensures c != '\n' ==>
      Step(m, c) == m.(trailerLen := m.trailerLen + 1, lineLen := m.lineLen + 1, lineCr := c == '\r')
    ensures c == '\n' ==>
      Step(m, c) == m.(trailerLen := m.trailerLen + 1, lineLen := 0,
                       phase := if m.lineLen == 0 || (m.lineLen == 1 && m.lineCr) then Done else Trailer)
  {
    hide StepHead;
    hide StepChunkSize;
  }

  lemma {:induction false} TrailerText(m: Machine, text: string)
    requires m.phase == Trailer && '\n' !in text && text != "" && m.trailerLen + |text| < HEAD_MAX
    ensures Run(m, text) == m.(trailerLen := m.trailerLen + |text|, lineLen := m.lineLen + |text|,
                               lineCr := text[|text| - 1] == '\r')
    ensures Body(m, text) == ""
    decreases |text|
  {
    hide Step;
    TrailerByte(m, text[0]);
    var next := Step(m, text[0]);
    if |text| > 1 {
      TrailerText(next, text[1..]);
    } else {
      assert text[1..] == "";
    }
  }

  /** A line of a trailer; an empty one is the last. */
  lemma TrailerLine(m: Machine, line: string)
    requires m.phase == Trailer && m.lineLen == 0 && '\n' !in line && m.trailerLen + |line| + 2 < HEAD_MAX
    ensures var wire := line + "\r\n";
            var next := Run(m, wire);
            && Body(m, wire) == "" && next.lineLen == 0 && next.trailerLen == m.trailerLen + |wire|
            && next.phase == (if line == "" then Done else Trailer)
            && (line == "" ==> !Terminal(Run(m, "\r")))
  {
    hide Step;
    hide Run;
    hide Body;
    var text := line + "\r";
    TrailerText(m, text);
    var last := Run(m, text);
    TrailerByte(last, '\n');
    RunSnoc(m, text, '\n');
    assert line + "\r\n" == text + ['\n'];
    assert line == "" ==> text == "\r";
  }

  lemma {:induction false} TrailersRead(m: Machine, trailers: seq<string>)
    requires m.phase == Trailer && m.lineLen == 0 && Sendable(trailers)
    requires m.trailerLen + |Wire(trailers)| + 2 < HEAD_MAX
    ensures var wire := Wire(trailers) + "\r\n";
            Body(m, wire) == "" && Run(m, wire).phase == Done && !Terminal(Run(m, wire[..|wire| - 1]))
    decreases |trailers|
  {
    hide Run;
    hide Body;
    hide Step;
    if trailers == [] {
      TrailerLine(m, "");
      assert "" + "\r\n" == "\r\n" && "\r\n"[..1] == "\r";
    } else {
      var first, rest := trailers[0] + "\r\n", Wire(trailers[1..]) + "\r\n";
      TrailerLine(m, trailers[0]);
      TrailersRead(Run(m, first), trailers[1..]);
      RunConcat(m, first, rest);
      RunConcat(m, first, rest[..|rest| - 1]);
      var wire := Wire(trailers) + "\r\n";
      assert wire == first + rest && wire[..|wire| - 1] == first + rest[..|rest| - 1];
    }
  }

  /** A chunked body with trailer fields behind its last chunk: they are read past, and end it. */
  lemma {:induction false} ChunkedTrailers(
    m: Machine, chunks: seq<Chunk>, last: string, trailers: seq<string>, after: string)
    requires m.phase == ChunkSize && m.chunkLine == "" && m.remaining == 0
    requires WellFormed(chunks) && LineSays(last, 0) && Sendable(trailers) && |Wire(trailers)| + 2 < HEAD_MAX
    ensures var wire := Chunks(chunks) + (last + "\r\n" + (Wire(trailers) + "\r\n"));
            && Body(m, wire + after) == Data(chunks)
            && Run(m, wire + after) == Run(m, wire) && Run(m, wire).phase == Done
            && !Terminal(Run(m, wire[..|wire| - 1]))
    decreases |chunks|
  {
    hide Run;
    hide Body;
    hide LineSays;
    hide Encode;
    var end := Wire(trailers) + "\r\n";
    var tail := last + "\r\n" + end;
    var wire := Chunks(chunks) + tail;
    if chunks == [] {
      assert wire == tail;
      RunSizeLine(m, last, 0);
      var open := Run(m, last + "\r\n");
      TrailersRead(open, trailers);
      RunConcat(m, last + "\r\n", end);
      RunConcat(m, last + "\r\n", end[..|end| - 1]);
      assert wire[..|wire| - 1] == last + "\r\n" + end[..|end| - 1];
      RunConcat(m, wire, after);
      TerminalStays(Run(m, wire), after);
    } else {
      var first, rest := Encode(chunks[0]), Chunks(chunks[1..]) + tail;
      RunChunk(m, chunks[0]);
      ChunkedTrailers(Run(m, first), chunks[1..], last, trailers, after);
      RunConcat(m, first, rest + after);
      RunConcat(m, first, rest);
      RunConcat(m, first, rest[..|rest| - 1]);
      assert wire == first + rest && wire + after == first + (rest + after);
      assert wire[..|wire| - 1] == first + rest[..|rest| - 1];
    }
  }

  function Chunks(chunks: seq<Chunk>): string {
    if chunks == [] then "" else Encode(chunks[0]) + Chunks(chunks[1..])
  }

  /** Behind the data of a chunk comes CRLF, or LF alone, and nothing else will do. */
  lemma ChunkEndRule(m: Machine, c: char)
    ensures m.phase == ChunkEnd ==>
      Step(m, c).phase == if c == '\r' then ChunkEndLf else if c == '\n' then ChunkSize else Failed
    ensures m.phase == ChunkEndLf ==> Step(m, c).phase == if c == '\n' then ChunkSize else Failed
  {
    hide StepHead;
    hide StepChunkSize;
  }

  /** A line may end in LF alone. */
  lemma BareLine(line: string, rest: string)
    requires '\n' !in line && (line != "" ==> line[|line| - 1] != '\r')
    ensures Lines(line + "\n" + rest) == [line] + Lines(rest)
  {
    var text := line + "\n" + rest;
    assert text[..|line|] == line && text[|line| + 1..] == rest;
    LineEndOf(text, |line|);
    hide Lines;
    LinesTurn(text);
  }

  const HELLO := ["HTTP/1.1 200 OK", "Content-Length: 5"]

  lemma HelloWire()
    ensures Wire(HELLO) + "\r\n" == "HTTP/1.1 200 OK\r\nContent-Length: 5\r\n\r\n" && Fits(HELLO)
  {
    assert HELLO[1..] == [HELLO[1]] && HELLO[1..][1..] == [];
    assert Wire(HELLO[1..]) == "Content-Length: 5\r\n" + Wire([]);
  }

  lemma HelloField()
    ensures FieldOf("Content-Length: 5") == SizeField(Some(5))
  {
    assert DecText(5) == "5" && "Content-Length" + ": " + "5" == "Content-Length: 5";
    hide FieldOf;
    LengthSent("Content-Length", 5);
  }

  lemma HelloStatus()
    ensures IsStatusLine("HTTP/1.1 200 OK") && StatusOf("HTTP/1.1 200 OK") == 200
  {
    assert "HTTP/1.1 200 OK"[9..12] == "200";
    ThreeDigits("200");
  }

  /** One response in full. */
  lemma Hello()
    ensures var wire := "HTTP/1.1 200 OK\r\nContent-Length: 5\r\n\r\nhello";
            var m := Run(Begin(false), wire);
            m.phase == Done && m.status == 200 && Body(Begin(false), wire) == "hello"
  {
    HelloWire();
    HelloField();
    HelloStatus();
    hide Run;
    hide Body;
    hide FieldOf;
    hide Wire;
    hide IsStatusLine;
    hide StatusOf;
    assert HELLO[1..] == [HELLO[1]] && Fields(HELLO[1..]) == [SizeField(Some(5))];
    assert FieldOf(HELLO[1..][0]) == SizeField(Some(5));
    LengthResponse(HELLO, "hello", "");
    assert "HTTP/1.1 200 OK\r\nContent-Length: 5\r\n\r\n" + "hello" + ""
        == "HTTP/1.1 200 OK\r\nContent-Length: 5\r\n\r\nhello";
  }
}
