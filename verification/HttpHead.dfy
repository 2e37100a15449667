/**
 The head of an HTTP/1.1 response and the size line of a chunk: what their bytes mean, and the
 loops that read them. A byte is a `char`; nothing here depends on a code above 255.
 */
module HttpHead {
  import opened Base

  const TWO_64: nat := 0x1_0000_0000_0000_0000
  /** The largest Content-Length taken: a digit is refused once the value passes (2^64 - 10) / 10. */
  const LENGTH_LIMIT: nat := (TWO_64 - 10) / 10
  const LENGTH_MAX: nat := 10 * LENGTH_LIMIT + 9

  datatype Error =
    | NoError | StatusLine | BadHeader | HeadTooLarge | BadLength | BadEncoding | BadChunk | Upgrade | Truncated

  datatype Framing = NoBody | ByLength | Chunked | ByClose

  // ---- characters ------------------------------------------------------------------------

  predicate Digit(c: char) {
    '0' <= c <= '9'
  }

  function DigitValue(c: char): (v: nat)
    requires Digit(c)
    ensures v < 10
  {
    c as int - '0' as int
  }

  function Lower(c: char): char {
    if 'A' <= c <= 'Z' then (c as int - 'A' as int + 'a' as int) as char else c
  }

  predicate EqualNocase(a: string, b: string) {
    |a| == |b| && forall i :: 0 <= i < |a| ==> Lower(a[i]) == Lower(b[i])
  }

  predicate TokenChar(c: char) {
    'a' <= c <= 'z' || 'A' <= c <= 'Z' || Digit(c) || c in "!#$%&'*+-.^_`|~"
  }

  function Hex(c: char): (v: int)
    ensures -1 <= v < 16
  {
    if Digit(c) then DigitValue(c)
    else if 'a' <= Lower(c) <= 'f' then Lower(c) as int - 'a' as int + 10
    else -1
  }

  predicate Blank(c: char) {
    c == ' ' || c == '\t'
  }

  // ---- lines -----------------------------------------------------------------------------

  /** Where the first LF is, or the length of a text without one. */
  function LineEnd(text: string): (i: nat)
    ensures i <= |text|
    ensures forall j :: 0 <= j < i ==> text[j] != '\n'
    ensures i < |text| ==> text[i] == '\n'
  {
    if text == "" || text[0] == '\n' then 0 else 1 + LineEnd(text[1..])
  }

  function StripCr(line: string): string {
    if line != "" && line[|line| - 1] == '\r' then line[..|line| - 1] else line
  }

  /** Every line that has been ended, stripped of its line end. */
  function Lines(text: string): seq<string>
    decreases |text|
  {
    var end := LineEnd(text);
    if end == |text| then [] else [StripCr(text[..end])] + Lines(text[end + 1..])
  }

  /** What follows the last LF. */
  function Tail(text: string): string
    decreases |text|
  {
    var end := LineEnd(text);
    if end == |text| then text else Tail(text[end + 1..])
  }

  lemma LineEndOf(text: string, i: nat)
    requires i <= |text|
    requires forall j :: 0 <= j < i ==> text[j] != '\n'
    requires i < |text| ==> text[i] == '\n'
    ensures LineEnd(text) == i
  {
  }

  /** The first line and the others; the text without a line end has none. */
  lemma LinesTurn(text: string)
    ensures var end := LineEnd(text);
            if end == |text| then Lines(text) == [] && Tail(text) == text
            else Lines(text) == [StripCr(text[..end])] + Lines(text[end + 1..]) && Tail(text) == Tail(text[end + 1..])
  {
  }

  lemma LastLineGrows(text: string, c: char)
    requires LineEnd(text) == |text|
    ensures c != '\n' ==> Lines(text + [c]) == [] && Tail(text + [c]) == text + [c]
    ensures c == '\n' ==> Lines(text + [c]) == [StripCr(text)] && Tail(text + [c]) == ""
  {
    hide Lines;
    hide Tail;
    hide StripCr;
    var longer := text + [c];
    LinesTurn(longer);
    if c == '\n' {
      LineEndOf(longer, |text|);
      assert longer[..|text|] == text && longer[|text| + 1..] == "";
      LinesTurn("");
    } else {
      LineEndOf(longer, |longer|);
    }
  }

  /** One more byte lengthens the last line, or finishes it. */
  lemma {:induction false} LinesGrow(text: string, c: char)
    ensures c != '\n' ==> Lines(text + [c]) == Lines(text) && Tail(text + [c]) == Tail(text) + [c]
    ensures c == '\n' ==> Lines(text + [c]) == Lines(text) + [StripCr(Tail(text))] && Tail(text + [c]) == ""
    decreases |text|
  {
    hide Lines;
    hide Tail;
    hide StripCr;
    var end := LineEnd(text);
    LinesTurn(text);
    if end == |text| {
      LastLineGrows(text, c);
    } else {
      var longer, first, rest := text + [c], [StripCr(text[..end])], text[end + 1..];
      LineEndOf(longer, end);
      LinesTurn(longer);
      assert longer[..end] == text[..end] && longer[end + 1..] == rest + [c];
      LinesGrow(rest, c);
      assert first + (Lines(rest) + [StripCr(Tail(rest))]) == (first + Lines(rest)) + [StripCr(Tail(rest))];
    }
  }

  // ---- numbers ---------------------------------------------------------------------------

  predicate AllDigits(text: string) {
    forall i :: 0 <= i < |text| ==> Digit(text[i])
  }

  function Decimal(text: string): nat
    requires AllDigits(text)
  {
    if text == "" then 0 else Decimal(text[..|text| - 1]) * 10 + DigitValue(text[|text| - 1])
  }

  lemma {:induction false} DecimalGrows(text: string, i: nat)
    requires AllDigits(text) && i <= |text|
    ensures Decimal(text[..i]) <= Decimal(text)
    decreases |text|
  {
    if i == |text| {
      assert text[..i] == text;
    } else {
      DecimalGrows(text[..|text| - 1], i);
      assert text[..|text| - 1][..i] == text[..i];
    }
  }

  /** A Content-Length: digits, at least one, and not one of the six largest 64-bit values. */
  function LengthOf(value: string): Option<nat> {
    if value == "" || !AllDigits(value) || Decimal(value) > LENGTH_MAX then None
    else Some(Decimal(value))
  }

  /** The digit loop takes exactly those values, and never leaves 64 bits on the way. */
  method ParseLength(value: string) returns (length: Option<nat>)
    ensures length == LengthOf(value)
    ensures length.Some? ==> length.value < TWO_64
  {
    if value == "" {
      return None;
    }
    var parsed := 0;
    for i := 0 to |value|
      invariant AllDigits(value[..i])
      invariant parsed == Decimal(value[..i]) <= LENGTH_MAX
    {
      assert value[..i + 1][..i] == value[..i];
      if !Digit(value[i]) {
        return None;
      }
      if parsed > LENGTH_LIMIT {
        if AllDigits(value) {
          DecimalGrows(value, i + 1);
        }
        return None;
      }
      parsed := parsed * 10 + DigitValue(value[i]);
    }
    assert value[..|value|] == value;
    return Some(parsed);
  }

  function HexRun(text: string): (n: nat)
    ensures n <= |text|
    ensures forall i :: 0 <= i < n ==> Hex(text[i]) >= 0
    ensures n < |text| ==> Hex(text[n]) < 0
  {
    if text == "" || Hex(text[0]) < 0 then 0 else 1 + HexRun(text[1..])
  }

  predicate AllHex(text: string) {
    forall i :: 0 <= i < |text| ==> Hex(text[i]) >= 0
  }

  function HexValue(text: string): nat
    requires AllHex(text)
  {
    if text == "" then 0 else HexValue(text[..|text| - 1]) * 16 + Hex(text[|text| - 1])
  }

  lemma {:induction false} HexGrows(text: string, i: nat)
    requires AllHex(text) && i <= |text|
    ensures HexValue(text[..i]) <= HexValue(text)
    decreases |text|
  {
    if i == |text| {
      assert text[..i] == text;
    } else {
      HexGrows(text[..|text| - 1], i);
      assert text[..|text| - 1][..i] == text[..i];
    }
  }

  function SkipBlanks(text: string): string {
    if text == "" || !Blank(text[0]) then text else SkipBlanks(text[1..])
  }

  /** A chunk-size line: hex digits worth less than 2^64, then nothing or an extension. */
  function ChunkSizeOf(line: string): Option<nat> {
    var n := HexRun(line);
    var rest := SkipBlanks(line[n..]);
    if n == 0 || HexValue(line[..n]) >= TWO_64 then None
    else if rest != "" && rest[0] != ';' then None
    else if '\r' in rest || '\0' in rest then None
    else Some(HexValue(line[..n]))
  }

  function Shift4(value: nat): nat {
    (value * 16) % TWO_64
  }

  lemma ShiftKeeps(value: nat)
    ensures value <= (TWO_64 - 1) / 16 ==> Shift4(value) == value * 16 <= TWO_64 - 16
    ensures value > (TWO_64 - 1) / 16 ==> value * 16 >= TWO_64
  {
  }

  lemma HexStep(line: string, at: nat)
    requires at < |line| && AllHex(line[..at]) && Hex(line[at]) >= 0
    ensures AllHex(line[..at + 1])
    ensures HexValue(line[..at + 1]) == HexValue(line[..at]) * 16 + Hex(line[at])
  {
    assert line[..at + 1][..at] == line[..at];
  }

  /** The size loop on a 64-bit accumulator: it shifts only what cannot lose a bit. */
  method ReadHex(line: string) returns (size: Option<nat>, at: nat)
    ensures at <= HexRun(line)
    ensures size.Some? ==> at == HexRun(line) && size.value < TWO_64
    ensures size == if HexValue(line[..HexRun(line)]) < TWO_64 then Some(HexValue(line[..HexRun(line)])) else None
  {
    var n := HexRun(line);
    var value: nat := 0;
    at := 0;
    while at < |line| && Hex(line[at]) >= 0
      invariant at <= n
      invariant AllHex(line[..at]) && value == HexValue(line[..at]) < TWO_64
    {
      HexStep(line, at);
      ShiftKeeps(value);
      if value > (TWO_64 - 1) / 16 {
        HexGrows(line[..n], at + 1);
        assert line[..n][..at + 1] == line[..at + 1];
        return None, at;
      }
      value := Shift4(value) + Hex(line[at]);
      at := at + 1;
    }
    return Some(value), at;
  }

  method ParseChunkSize(line: string) returns (size: Option<nat>)
    ensures size == ChunkSizeOf(line)
    ensures size.Some? ==> size.value < TWO_64
  {
    var value, at := ReadHex(line);
    if value.None? || at == 0 {
      return None;
    }
    ghost var n := at;
    while at < |line| && Blank(line[at])
      invariant n <= at <= |line|
      invariant SkipBlanks(line[at..]) == SkipBlanks(line[n..])
    {
      assert line[at..][1..] == line[at + 1..];
      at := at + 1;
    }
    ghost var rest := line[at..];
    if at < |line| && line[at] != ';' {
      return None;
    }
    for i := at to |line|
      invariant forall k :: at <= k < i ==> line[k] != '\r' && line[k] != '\0'
    {
      if line[i] == '\r' || line[i] == '\0' {
        assert rest[i - at] == line[i];
        return None;
      }
    }
    return value;
  }

  // ---- headers ---------------------------------------------------------------------------

  datatype Header = Header(name: string, value: string)

  function TokenRun(text: string): (n: nat)
    ensures n <= |text|
    ensures forall i :: 0 <= i < n ==> TokenChar(text[i])
    ensures n < |text| ==> !TokenChar(text[n])
  {
    if text == "" || !TokenChar(text[0]) then 0 else 1 + TokenRun(text[1..])
  }

  function DropBlanks(text: string): string {
    if text != "" && Blank(text[|text| - 1]) then DropBlanks(text[..|text| - 1]) else text
  }

  function Trim(text: string): string {
    DropBlanks(SkipBlanks(text))
  }

  /** `name: value`, or nothing when the line is not one. */
  function SplitHeader(line: string): Option<Header> {
    var colon := TokenRun(line);
    if colon == 0 || colon >= |line| || line[colon] != ':' then None
    else if '\r' in line[colon + 1..] || '\0' in line[colon + 1..] then None
    else Some(Header(line[..colon], Trim(line[colon + 1..])))
  }

  method TrimValue(line: string, start: nat) returns (from: nat, to: nat)
    requires start <= |line|
    ensures start <= from <= to <= |line|
    ensures line[from..to] == Trim(line[start..])
  {
    from, to := start, |line|;
    while from < to && Blank(line[from])
      invariant start <= from <= to
      invariant SkipBlanks(line[from..]) == SkipBlanks(line[start..])
    {
      assert line[from..][1..] == line[from + 1..];
      from := from + 1;
    }
    assert line[from..to] == line[from..];
    while from < to && Blank(line[to - 1])
      invariant from <= to <= |line|
      invariant DropBlanks(line[from..to]) == Trim(line[start..])
    {
      assert line[from..to][..to - from - 1] == line[from..to - 1];
      to := to - 1;
    }
  }

  method ReadHeader(line: string) returns (header: Option<Header>)
    ensures header == SplitHeader(line)
  {
    var colon := 0;
    while colon < |line| && TokenChar(line[colon])
      invariant colon <= TokenRun(line)
    {
      colon := colon + 1;
    }
    if colon == 0 || colon >= |line| || line[colon] != ':' {
      return None;
    }
    ghost var value := line[colon + 1..];
    for i := colon + 1 to |line|
      invariant forall k :: colon < k < i ==> line[k] != '\r' && line[k] != '\0'
    {
      if line[i] == '\r' || line[i] == '\0' {
        assert value[i - colon - 1] == line[i];
        return None;
      }
    }
    var from, to := TrimValue(line, colon + 1);
    return Some(Header(line[..colon], line[from..to]));
  }

  // ---- the whole head --------------------------------------------------------------------

  /** What the header walk has found so far. */
  datatype Found = Found(length: Option<nat>, chunked: bool)

  datatype Walk = Going(found: Found) | Stopped(error: Error)

  /** What a header line is to the framing. */
  datatype Field = SizeField(length: Option<nat>) | EncodingField(chunked: bool) | Plain | Malformed

  function FieldOf(line: string): Field {
    match SplitHeader(line)
    case None => Malformed
    case Some(Header(name, value)) =>
      if EqualNocase(name, "content-length") then SizeField(LengthOf(value))
      else if EqualNocase(name, "transfer-encoding") then EncodingField(EqualNocase(value, "chunked"))
      else Plain
  }

  function TakeField(found: Found, field: Field): Walk {
    match field
    case Malformed => Stopped(BadHeader)
    case Plain => Going(found)
    case SizeField(length) =>
      if length.None? || (found.length.Some? && found.length != length) then Stopped(BadLength)
      else Going(found.(length := length))
    case EncodingField(chunked) =>
      if found.chunked || !chunked then Stopped(BadEncoding) else Going(found.(chunked := true))
  }

  /** The walk over the header lines: to the first empty one, or the first that is wrong. */
  function TakeHeaders(found: Found, lines: seq<string>): Walk
    decreases |lines|
  {
    if lines == [] || lines[0] == "" then Going(found)
    else
      match TakeField(found, FieldOf(lines[0]))
      case Going(next) => TakeHeaders(next, lines[1..])
      case Stopped(error) => Stopped(error)
  }

  predicate IsStatusLine(line: string) {
    && |line| >= 12 && line[..7] == "HTTP/1." && Digit(line[7]) && line[8] == ' '
    && AllDigits(line[9..12])
    && (|line| > 12 ==> line[12] == ' ')
  }

  datatype Outcome =
    | Refused(error: Error)
    | Interim
    | Final(status: nat, framing: Framing, length: nat)

  /** What a head says, given its lines: section 6.3 of RFC 9112. */
  function ReadHead(lines: seq<string>, headRequest: bool): Outcome {
    if lines == [] || !IsStatusLine(lines[0]) then Refused(StatusLine)
    else
      var status := Decimal(lines[0][9..12]);
      if status < 100 then Refused(StatusLine)
      else if status == 101 then Refused(Upgrade)
      else
        match TakeHeaders(Found(None, false), lines[1..])
        case Stopped(error) => Refused(error)
        case Going(found) =>
          if status < 200 then Interim
          else if headRequest || status == 204 || status == 304 then Final(status, NoBody, 0)
          else if found.chunked then Final(status, Chunked, 0)
          else if found.length.Some? then Final(status, ByLength, found.length.value)
          else Final(status, ByClose, 0)
  }

  /** The line at `at`, and where the next one starts. */
  function NextLine(head: string, at: nat): (r: (string, nat))
    requires at < |head|
    ensures at < r.1 <= |head|
    ensures '\n' in head[at..] ==>
      Lines(head[at..]) == [r.0] + Lines(head[r.1..])
  {
    var rest := head[at..];
    var end := LineEnd(rest);
    if end == |rest| then (StripCr(rest), |head|)
    else
      assert rest[end + 1..] == head[at + end + 1..];
      (StripCr(rest[..end]), at + end + 1)
  }

  lemma ThreeDigits(text: string)
    requires |text| == 3 && AllDigits(text)
    ensures Decimal(text) == DigitValue(text[0]) * 100 + DigitValue(text[1]) * 10 + DigitValue(text[2])
  {
    var two, one := text[..2], text[..1];
    assert two[..1] == one && one[..0] == "";
    assert Decimal(one) == DigitValue(text[0]);
    assert Decimal(two) == Decimal(one) * 10 + DigitValue(text[1]);
  }

  method ReadStatus(line: string) returns (status: Option<nat>)
    ensures status == if IsStatusLine(line) then Some(Decimal(line[9..12])) else None
  {
    if |line| < 12 {
      return None;
    }
    var code := line[9..12];
    assert code[0] == line[9] && code[1] == line[10] && code[2] == line[11];
    if line[..7] != "HTTP/1." || !Digit(line[7]) || line[8] != ' ' || !Digit(line[9])
       || !Digit(line[10]) || !Digit(line[11]) || (|line| > 12 && line[12] != ' ')
    {
      return None;
    }
    ThreeDigits(code);
    return Some(DigitValue(line[9]) * 100 + DigitValue(line[10]) * 10 + DigitValue(line[11]));
  }

  method ReadHeaderLine(found: Found, line: string) returns (walk: Walk)
    ensures walk == TakeField(found, FieldOf(line))
  {
    var header := ReadHeader(line);
    if header.None? {
      return Stopped(BadHeader);
    }
    if EqualNocase(header.value.name, "content-length") {
      var length := ParseLength(header.value.value);
      if length.None? || (found.length.Some? && length != found.length) {
        return Stopped(BadLength);
      }
      return Going(found.(length := length));
    }
    if EqualNocase(header.value.name, "transfer-encoding") {
      if found.chunked || !EqualNocase(header.value.value, "chunked") {
        return Stopped(BadEncoding);
      }
      return Going(found.(chunked := true));
    }
    return Going(found);
  }

  method WalkHeaders(head: string, start: nat) returns (walk: Walk)
    requires start <= |head| && (start < |head| ==> head[|head| - 1] == '\n')
    ensures walk == TakeHeaders(Found(None, false), Lines(head[start..]))
  {
    var found, at := Found(None, false), start;
    while at < |head|
      invariant start <= at <= |head|
      invariant TakeHeaders(Found(None, false), Lines(head[start..])) == TakeHeaders(found, Lines(head[at..]))
    {
      assert head[at..][|head| - at - 1] == '\n';
      var next := NextLine(head, at);
      at := next.1;
      if next.0 == "" {
        return Going(found);
      }
      walk := ReadHeaderLine(found, next.0);
      if walk.Stopped? {
        return;
      }
      found := walk.found;
    }
    return Going(found);
  }

  /** One walk over the buffered head, a line at a time, comes to what its lines say. */
  method ParseHead(head: string, headRequest: bool) returns (outcome: Outcome)
    requires head != "" && head[|head| - 1] == '\n'
    ensures outcome == ReadHead(Lines(head), headRequest)
  {
    assert head[0..] == head;
    var first := NextLine(head, 0);
    var status := ReadStatus(first.0);
    if status.None? || status.value < 100 {
      return Refused(StatusLine);
    }
    if status.value == 101 {
      return Refused(Upgrade);
    }
    var walk := WalkHeaders(head, first.1);
    if walk.Stopped? {
      return Refused(walk.error);
    }
    if status.value < 200 {
      return Interim;
    }
    if headRequest || status.value == 204 || status.value == 304 {
      return Final(status.value, NoBody, 0);
    }
    if walk.found.chunked {
      return Final(status.value, Chunked, 0);
    }
    if walk.found.length.Some? {
      return Final(status.value, ByLength, walk.found.length.value);
    }
    return Final(status.value, ByClose, 0);
  }
}
