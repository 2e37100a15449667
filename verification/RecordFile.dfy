/**
 The append-only record file: `key=value` lines, values escaped, a line read only once its newline is
 there. Models src/base/record_file.c. A file is the characters in it; `Read` may
 break off with a read error, the rest meets none.
 */
module RecordFile {
  import opened Base

  datatype Record = Record(key: string, value: string)

  // ---- escaping --------------------------------------------------------------------------

  function HexChar(n: nat): char
    requires n < 16
  {
    "0123456789abcdef"[n]
  }

  predicate NeedsEscape(c: char) {
    c as int < 0x20 || c == '\\' || c == '='
  }

  function EscapeChar(c: char): string {
    if NeedsEscape(c) then ['\\', 'x', HexChar(c as int / 16), HexChar(c as int % 16)] else [c]
  }

  function Escape(s: string): string {
    if s == "" then "" else EscapeChar(s[0]) + Escape(s[1..])
  }

  predicate IsHex(c: char) {
    '0' <= c <= '9' || 'a' <= c <= 'f' || 'A' <= c <= 'F'
  }

  function HexDigit(c: char): (n: nat)
    requires IsHex(c)
    ensures n < 16
  {
    if '0' <= c <= '9' then c as int - '0' as int
    else if 'a' <= c <= 'f' then c as int - 'a' as int + 10
    else c as int - 'A' as int + 10
  }

  /** strtol in base 16 over two characters that are not NUL, and the byte its result becomes. */
  function HexByte(a: char, b: char): char {
    if IsHex(a) then (if IsHex(b) then HexDigit(a) * 16 + HexDigit(b) else HexDigit(a)) as char
    else if !IsHex(b) then '\0'
    else if a == ' ' || 9 <= a as int <= 13 || a == '+' then HexDigit(b) as char
    else if a == '-' then ((256 - HexDigit(b)) % 256) as char
    else '\0'
  }

  /** A backslash that introduces nothing is dropped. */
  function Unescape(s: string): (u: string)
    ensures |u| <= |s|
  {
    if s == "" then ""
    else if s[0] != '\\' then [s[0]] + Unescape(s[1..])
    else if |s| >= 4 && s[1] == 'x' then [HexByte(s[2], s[3])] + Unescape(s[4..])
    else Unescape(s[1..])
  }

  lemma HexRoundTrip(c: char)
    requires c as int < 256
    ensures HexByte(HexChar(c as int / 16), HexChar(c as int % 16)) == c
  {
    HexCharDigit(c as int / 16);
    HexCharDigit(c as int % 16);
  }

  lemma HexCharDigit(n: nat)
    requires n < 16
    ensures IsHex(HexChar(n)) && HexDigit(HexChar(n)) == n
  {
  }

  /** Escaping is undone by unescaping. */
  lemma {:induction false} EscapeRoundTrip(s: string)
    ensures Unescape(Escape(s)) == s
  {
    if s != "" {
      var e, rest := EscapeChar(s[0]), Escape(s[1..]);
      EscapeRoundTrip(s[1..]);
      assert s == [s[0]] + s[1..];
      assert (e + rest)[|e|..] == rest;
      if NeedsEscape(s[0]) {
        HexRoundTrip(s[0]);
      }
    }
  }

  /** What a line may hold: nothing that would end it early. */
  predicate OneLine(s: string) {
    forall i :: 0 <= i < |s| ==> s[i] != '\n' && s[i] != '\r' && s[i] != '\0'
  }

  lemma {:induction false} EscapeIsOneLine(s: string)
    ensures OneLine(Escape(s))
  {
    if s != "" {
      EscapeIsOneLine(s[1..]);
      if NeedsEscape(s[0]) {
        HexCharDigit(s[0] as int / 16);
        HexCharDigit(s[0] as int % 16);
      }
    }
  }

  /** Appends a value to a file, escaped. */
  method WriteEscaped(file: string, value: string) returns (out: string)
    ensures out == file + Escape(value)
  {
    out := file;
    for i := 0 to |value|
      invariant out + Escape(value[i..]) == file + Escape(value)
    {
      var c := value[i];
      assert value[i..][1..] == value[i + 1..];
      if c as int < 0x20 || c == '\\' || c == '=' {
        out := out + ['\\', 'x', HexChar(c as int / 16), HexChar(c as int % 16)];
      } else {
        out := out + [c];
      }
    }
  }

  /** A C string from `from` on. */
  ghost predicate Holds(line: array<char>, from: nat, s: string)
    reads line
  {
    from + |s| < line.Length && line[from..from + |s|] == s && line[from + |s|] == '\0' && '\0' !in s
  }

  /** How many characters the next step of unescaping reads. */
  function Reach(s: string): nat
    requires s != ""
  {
    if s[0] == '\\' && |s| >= 4 && s[1] == 'x' then 4 else 1
  }

  /** What it writes. */
  function Made(s: string): string
    requires s != ""
  {
    if s[0] != '\\' then [s[0]] else if Reach(s) == 4 then [HexByte(s[2], s[3])] else ""
  }

  lemma UnescapeStep(rest: string)
    requires rest != ""
    ensures 0 < Reach(rest) <= |rest|
    ensures Unescape(rest) == Made(rest) + Unescape(rest[Reach(rest)..])
  {
    hide HexByte;
    if Made(rest) == "" {
      assert Made(rest) + Unescape(rest[1..]) == Unescape(rest[1..]);
    }
  }

  lemma UnescapeTurn(done: string, rest: string)
    requires rest != ""
    ensures 0 < Reach(rest) <= |rest|
    ensures done + Unescape(rest) == (done + Made(rest)) + Unescape(rest[Reach(rest)..])
  {
    hide Unescape;
    hide Made;
    UnescapeStep(rest);
  }

  lemma UnescapeNothing()
    ensures Unescape("") == ""
  {
  }

  lemma HoldsAll(line: array<char>, from: nat, s: string)
    requires Holds(line, from, s)
    ensures from + |s| < line.Length && line[from + |s|] == '\0'
    ensures forall i :: 0 <= i < |s| ==> line[from + i] == s[i] && s[i] != '\0'
  {
    assert forall i :: 0 <= i < |s| ==> line[from..from + |s|][i] == s[i] && s[i] in s;
  }

  lemma HoldsLater(line: array<char>, from: nat, s: string, used: nat)
    requires used <= |s| && from + |s| < line.Length && line[from + |s|] == '\0'
    requires forall i :: used <= i < |s| ==> line[from + i] == s[i] && s[i] != '\0'
    ensures Holds(line, from + used, s[used..])
  {
    assert line[from + used..from + |s|] == s[used..];
  }

  /** One character or escape, written back over what has been read. */
  method UnescapeOne(line: array<char>, read: nat, write: nat, ghost rest: string) returns (used: nat, made: nat)
    requires write <= read && Holds(line, read, rest) && rest != ""
    modifies line
    ensures used == Reach(rest) && made == |Made(rest)| && made <= used
    ensures forall i :: 0 <= i < line.Length && !(write <= i < write + made) ==> line[i] == old(line[i])
    ensures line[write..write + made] == Made(rest)
    ensures Holds(line, read + used, rest[used..])
  {
    hide HexByte;
    hide Holds;
    HoldsAll(line, read, rest);
    ghost var was := line[..];
    if line[read] == '\\' {
      if line[read + 1] == 'x' && line[read + 2] != '\0' && line[read + 3] != '\0' {
        line[write] := HexByte(line[read + 2], line[read + 3]);
        used, made := 4, 1;
      } else {
        used, made := 1, 0;
      }
    } else {
      line[write] := line[read];
      used, made := 1, 1;
    }
    HoldsLater(line, read, rest, used);
  }

  /** Unescapes a C string where it stands, writing no further than it has read. */
  method UnescapeInPlace(line: array<char>, from: nat, ghost s: string)
    requires Holds(line, from, s)
    modifies line
    ensures forall i :: 0 <= i < from ==> line[i] == old(line[i])
    ensures line[from..from + |Unescape(s)|] == Unescape(s) && line[from + |Unescape(s)|] == '\0'
  {
    hide Unescape;
    hide Reach;
    hide Made;
    hide Holds;
    var write: nat, read: nat := from, from;
    ghost var done, rest := "", s;
    assert done + Unescape(s) == Unescape(s);
    HoldsFacts(line, from, s);
    while line[read] != '\0'
      invariant from <= write <= read && read + |rest| == from + |s| < line.Length && write == from + |done|
      invariant forall i :: 0 <= i < from ==> line[i] == old(line[i])
      invariant Holds(line, read, rest) && (line[read] != '\0' <==> rest != "")
      invariant line[from..write] == done && done + Unescape(rest) == Unescape(s)
      decreases |rest|
    {
      UnescapeTurn(done, rest);
      var used, made := UnescapeOne(line, read, write, rest);
      HoldsFacts(line, read + used, rest[used..]);
      assert line[from..write + made] == line[from..write] + line[write..write + made];
      done, rest := done + Made(rest), rest[used..];
      write, read := write + made, read + used;
    }
    UnescapeNothing();
    assert done + "" == done;
    line[write] := '\0';
    assert line[from..write] == done;
  }

  lemma HoldsFacts(line: array<char>, from: nat, s: string)
    requires Holds(line, from, s)
    ensures from + |s| < line.Length && (line[from] != '\0' <==> s != "")
  {
    assert s != "" ==> s[0] == line[from] && s[0] in s;
  }

  // ---- reading ---------------------------------------------------------------------------

  const INT32_MAX := 0x7FFF_FFFF

  /** Where the first newline is, or the end. */
  function NewlineAt(s: string): (n: nat)
    ensures n <= |s| && (n < |s| ==> s[n] == '\n') && forall i :: 0 <= i < n ==> s[i] != '\n'
  {
    if s == "" || s[0] == '\n' then 0 else 1 + NewlineAt(s[1..])
  }

  function AfterNewline(s: string): string {
    if NewlineAt(s) < |s| then s[NewlineAt(s) + 1..] else ""
  }

  /** How much of the file one line read takes: up to a newline, the end or a full buffer. */
  function Chunk(s: string, capacity: nat): (n: nat)
    requires capacity >= 2 && s != ""
    ensures 0 < n <= |s| && n < capacity
  {
    var line := if NewlineAt(s) < |s| then NewlineAt(s) + 1 else |s|;
    if line < capacity then line else capacity - 1
  }

  /** Where the first of two characters is, or the end. */
  function FirstOf(s: string, a: char, b: char): (n: nat)
    ensures n <= |s| && (n < |s| ==> s[n] == a || s[n] == b) && forall i :: 0 <= i < n ==> s[i] != a && s[i] != b
  {
    if s == "" || s[0] == a || s[0] == b then 0 else 1 + FirstOf(s[1..], a, b)
  }

  /** What a complete line says: nothing if it is empty, a comment or not a record. */
  function Said(line: string): seq<Record> {
    var body := line[..FirstOf(line, '\r', '\n')];
    var equals := FirstOf(body, '=', '=');
    if body == "" || body[0] == '#' || equals == |body| then []
    else [Record(body[..equals], CString(Unescape(body[equals + 1..])))]
  }

  datatype Turn = Turn(records: seq<Record>, rest: string)

  predicate EndsLine(line: string) {
    line != "" && line[|line| - 1] == '\n'
  }

  /** One line read: what it says, and what is left of the file. */
  function Next(s: string, capacity: nat): (t: Turn)
    requires capacity >= 2 && s != ""
    ensures |t.rest| < |s|
  {
    var n := Chunk(s, capacity);
    var line := CString(s[..n]);
    var rest := s[n..];
    if EndsLine(line) then Turn(Said(line), rest)
    else if |line| < capacity - 1 || rest == "" then Turn([], rest)
    else if rest[0] == '\n' then Turn(Said(line), rest[1..])
    else Turn([], AfterNewline(rest))
  }

  function Records(s: string, capacity: nat): seq<Record>
    requires capacity >= 2
    decreases |s|
  {
    if s == "" then [] else Next(s, capacity).records + Records(Next(s, capacity).rest, capacity)
  }

  // ---- reading back what was written -----------------------------------------------------

  predicate ValidKey(key: string) {
    OneLine(key) && '=' !in key && (key != "" ==> key[0] != '#')
  }

  predicate Writable(records: seq<Record>) {
    forall i :: 0 <= i < |records| ==> ValidKey(records[i].key) && '\0' !in records[i].value
  }

  function Line(r: Record): string {
    r.key + "=" + Escape(r.value)
  }

  function Written(records: seq<Record>): string {
    if records == [] then "" else Line(records[0]) + "\n" + Written(records[1..])
  }

  /** The records whose newline is among the first `length` characters and whose line fits the buffer. */
  function Surviving(records: seq<Record>, length: nat, capacity: nat): seq<Record>
    requires capacity >= 2
  {
    if records == [] || length < |Line(records[0])| + 1 then []
    else
      (if |Line(records[0])| < capacity then [records[0]] else [])
      + Surviving(records[1..], length - (|Line(records[0])| + 1), capacity)
  }

  lemma {:induction false} FirstIs(w: string, s: string, a: char, b: char)
    requires a !in w && b !in w && (s == "" || s[0] == a || s[0] == b)
    ensures FirstOf(w + s, a, b) == |w|
  {
    if w == "" {
      assert w + s == s;
    } else {
      assert (w + s)[1..] == w[1..] + s;
      FirstIs(w[1..], s, a, b);
    }
  }

  lemma {:induction false} NewlineIs(w: string, s: string)
    requires '\n' !in w && (s == "" || s[0] == '\n')
    ensures NewlineAt(w + s) == |w|
  {
    if w == "" {
      assert w + s == s;
    } else {
      assert (w + s)[1..] == w[1..] + s;
      NewlineIs(w[1..], s);
    }
  }

  lemma LineIsOneLine(r: Record)
    requires ValidKey(r.key)
    ensures OneLine(Line(r))
  {
    EscapeIsOneLine(r.value);
  }

  /** A record's line, with or without its newline, says that record. */
  lemma LineSays(r: Record, newline: string)
    requires ValidKey(r.key) && '\0' !in r.value && (newline == "" || newline == "\n")
    ensures Said(Line(r) + newline) == [r]
  {
    var line := Line(r);
    LineIsOneLine(r);
    FirstIs(line, newline, '\r', '\n');
    assert (line + newline)[..|line|] == line;
    assert line == r.key + ("=" + Escape(r.value));
    FirstIs(r.key, "=" + Escape(r.value), '=', '=');
    assert line[..|r.key|] == r.key && line[|r.key| + 1..] == Escape(r.value);
    EscapeRoundTrip(r.value);
    WithoutNul(r.value);
  }

  /** A line with its newline is read as one, or dropped whole if it does not fit. */
  lemma LineNext(r: Record, rest: string, capacity: nat)
    requires ValidKey(r.key) && '\0' !in r.value && capacity >= 2
    ensures Next(Line(r) + "\n" + rest, capacity) == Turn(if |Line(r)| < capacity then [r] else [], rest)
  {
    hide Said;
    hide Line;
    var line := Line(r);
    LineIsOneLine(r);
    LineSays(r, "\n");
    LineSays(r, "");
    assert line + "" == line;
    LineTaken(line, rest, capacity);
  }

  lemma LineTaken(line: string, rest: string, capacity: nat)
    requires OneLine(line) && capacity >= 2
    ensures Next(line + "\n" + rest, capacity) ==
              if |line| + 1 < capacity then Turn(Said(line + "\n"), rest)
              else if |line| < capacity then Turn(Said(line), rest)
              else Turn([], rest)
  {
    hide Said;
    var s := line + "\n" + rest;
    assert s == line + ("\n" + rest);
    NewlineIs(line, "\n" + rest);
    var n := Chunk(s, capacity);
    WithoutNul(s[..n]);
    if |line| + 1 < capacity {
      assert s[..n] == line + "\n" && s[n..] == rest;
    } else if |line| < capacity {
      assert s[..n] == line && s[n..] == "\n" + rest && s[n..][1..] == rest;
    } else {
      assert s[n..] == line[n..] + ("\n" + rest);
      NewlineIs(line[n..], "\n" + rest);
      assert s[n..][|line| - n + 1..] == rest;
    }
  }

  /** A line cut off by the end of the file is not read at all. */
  lemma TornNext(s: string, capacity: nat)
    requires OneLine(s) && s != "" && capacity >= 2
    ensures Next(s, capacity) == Turn([], "")
  {
    NewlineIs(s, "");
    assert s + "" == s;
    var n := Chunk(s, capacity);
    WithoutNul(s[..n]);
    if n < |s| {
      NewlineIs(s[n..], "");
      assert s[n..] + "" == s[n..];
    }
  }

  /** Of any prefix of a written file, exactly the records that are whole in it, and fit, come back. */
  lemma {:induction false} TornRoundTrip(records: seq<Record>, length: nat, capacity: nat)
    requires Writable(records) && length <= |Written(records)| && capacity >= 2
    ensures Records(Written(records)[..length], capacity) == Surviving(records, length, capacity)
    decreases |records|
  {
    hide Line;
    hide Next;
    if records != [] && length > 0 {
      var line, rest := Line(records[0]), Written(records[1..]);
      var s := Written(records)[..length];
      if length <= |line| {
        LineIsOneLine(records[0]);
        assert s == line[..length];
        TornNext(s, capacity);
      } else {
        var more := length - (|line| + 1);
        assert s == line + "\n" + rest[..more];
        LineNext(records[0], rest[..more], capacity);
        TornRoundTrip(records[1..], more, capacity);
      }
    }
  }

  // ---- the reader ------------------------------------------------------------------------

  /** One line of the file into the buffer, as far as it fits. */
  method Fgets(file: string, at: nat, line: array<char>) returns (n: nat)
    requires at < |file| && line.Length >= 2
    modifies line
    ensures n == Chunk(file[at..], line.Length)
    ensures line[..n] == file[at..at + n] && line[n] == '\0'
  {
    n := 0;
    ghost var s := file[at..];
    while n < line.Length - 1 && n < |file| - at
      invariant 0 <= n <= line.Length - 1 && n <= |s| && n <= NewlineAt(s)
      invariant forall i :: 0 <= i < n ==> line[i] == s[i]
    {
      line[n] := file[at + n];
      n := n + 1;
      if line[n - 1] == '\n' {
        break;
      }
    }
    line[n] := '\0';
    assert line[..n] == s[..n];
  }

  method Strlen(line: array<char>, from: nat, ghost n: nat) returns (length: nat)
    requires from <= n < line.Length && line[n] == '\0'
    ensures Holds(line, from, CString(line[from..n])) && length == |CString(line[from..n])|
  {
    hide Holds;
    hide CString;
    length := 0;
    while line[from + length] != '\0'
      invariant 0 <= length <= n - from && forall i :: from <= i < from + length ==> line[i] != '\0'
      decreases n - from - length
    {
      length := length + 1;
    }
    ghost var s := line[from..n];
    assert s[..length] == line[from..from + length];
    CStringIs(s, length);
    HoldsNow(line, from, s[..length]);
  }

  lemma {:induction false} CStringIs(s: string, n: nat)
    requires n <= |s| && (n < |s| ==> s[n] == '\0') && forall i :: 0 <= i < n ==> s[i] != '\0'
    ensures CString(s) == s[..n]
  {
    if n > 0 {
      CStringIs(s[1..], n - 1);
      assert s[..n] == [s[0]] + s[1..][..n - 1];
    }
  }

  lemma HoldsNow(line: array<char>, from: nat, s: string)
    requires from + |s| < line.Length && line[from..from + |s|] == s && line[from + |s|] == '\0'
    requires forall i :: 0 <= i < |s| ==> s[i] != '\0'
    ensures Holds(line, from, s)
  {
  }

  /** Where a C string first has one of two characters, or ends. */
  method Scan(line: array<char>, a: char, b: char, ghost s: string) returns (n: nat)
    requires Holds(line, 0, s)
    ensures n == FirstOf(s, a, b)
  {
    n := 0;
    assert s[0..] == s && line[0..|s|] == s;
    assert forall i :: 0 <= i < |s| ==> line[i] == s[i] && s[i] in s;
    while line[n] != '\0' && line[n] != a && line[n] != b
      invariant 0 <= n <= |s| && n + FirstOf(s[n..], a, b) == FirstOf(s, a, b)
      decreases |s| - n
    {
      assert s[n..][1..] == s[n + 1..];
      n := n + 1;
    }
    assert n < |s| ==> s[n..][0] == s[n];
  }

  lemma Shortened(line: array<char>, s: string, n: nat)
    requires n <= |s| < line.Length && line[..n] == s[..n] && line[n] == '\0' && '\0' !in s
    ensures Holds(line, 0, s[..n])
  {
    assert line[0..n] == line[..n];
  }

  /** A complete line in the buffer, taken apart in place. */
  method Say(line: array<char>, ghost s: string) returns (said: seq<Record>)
    requires Holds(line, 0, s)
    modifies line
    ensures said == Said(s)
  {
    hide Unescape;
    hide FirstOf;
    var end := Scan(line, '\r', '\n', s);
    ghost var body := s[..end];
    assert line[..end] == s[..end] by {
      assert line[..end] == line[0..|s|][..end];
    }
    line[end] := '\0';
    assert line[..end] == body;
    Shortened(line, s, end);
    assert end > 0 ==> line[0] == body[0];
    if line[0] == '\0' || line[0] == '#' {
      assert end > 0 ==> body[0] == s[0] && s[0] in s;
      return [];
    }
    var equals := Scan(line, '=', '=', body);
    if equals == end {
      return [];
    }
    said := SplitRecord(line, equals, body);
  }

  /** The key before the sign, and the value after it, unescaped. */
  method SplitRecord(line: array<char>, equals: nat, ghost body: string) returns (said: seq<Record>)
    requires Holds(line, 0, body) && equals < |body|
    modifies line
    ensures said == [Record(body[..equals], CString(Unescape(body[equals + 1..])))]
  {
    hide Unescape;
    hide CString;
    ghost var was := line[..];
    assert was[..|body|] == line[0..|body|] == body;
    line[equals] := '\0';
    assert line[equals + 1..|body|] == was[equals + 1..|body|] == body[equals + 1..];
    UnescapeInPlace(line, equals + 1, body[equals + 1..]);
    ghost var u := Unescape(body[equals + 1..]);
    var from := equals + 1;
    var length := Strlen(line, from, from + |u|);
    assert line[from..from + length] == CString(u);
    assert line[..equals] == body[..equals] by {
      assert forall i :: 0 <= i < equals ==> line[i] == was[i] && was[..|body|][i] == body[i];
    }
    said := [Record(line[..equals], line[from..from + length])];
  }

  /** Past the rest of a line. */
  method SkipLine(file: string, at: nat) returns (next: nat)
    requires at <= |file|
    ensures next <= |file| && file[next..] == AfterNewline(file[at..])
  {
    next := at;
    while next < |file| && file[next] != '\n'
      invariant at <= next <= |file| && next - at + NewlineAt(file[next..]) == NewlineAt(file[at..])
    {
      assert file[next..][1..] == file[next + 1..];
      next := next + 1;
    }
    if next < |file| {
      assert file[at..][next - at + 1..] == file[next + 1..];
      next := next + 1;
    }
  }

  /** One turn of the read loop. */
  method ReadLine(file: string, at: nat, line: array<char>) returns (next: nat, said: seq<Record>)
    requires at < |file| && line.Length >= 2
    modifies line
    ensures next <= |file| && Turn(said, file[next..]) == Next(file[at..], line.Length)
  {
    hide Said;
    hide Chunk;
    ghost var s := file[at..];
    var n := Fgets(file, at, line);
    assert line[0..n] == line[..n] == s[..n];
    var length := Strlen(line, 0, n);
    ghost var text := CString(s[..n]);
    assert length > 0 ==> line[0..length] == text && line[length - 1] == text[length - 1];
    next := at + n;
    assert file[next..] == s[n..];
    var complete := length > 0 && line[length - 1] == '\n';
    if !complete && length == line.Length - 1 && next < |file| {
      complete := file[next] == '\n';
      if complete {
        assert file[next..][1..] == file[next + 1..];
        next := next + 1;
      } else {
        next := SkipLine(file, next);
      }
    }
    if !complete {
      return next, [];
    }
    said := Say(line, text);
  }

  datatype Outcome = Fine | BadBuffer | ReadError

  /** Every record of a file, in order, as its visitor is given them; `broken` if reading failed after `file`. */
  method Read(file: string, broken: bool, line: array<char>) returns (outcome: Outcome, visited: seq<Record>)
    modifies line
    ensures outcome == if !(2 <= line.Length <= INT32_MAX) then BadBuffer else if broken then ReadError else Fine
    ensures visited == if outcome == BadBuffer then [] else Records(file, line.Length)
  {
    hide Next;
    visited := [];
    if line.Length < 2 || line.Length > INT32_MAX {
      return BadBuffer, visited;
    }
    var at := 0;
    assert file[0..] == file;
    while at < |file|
      invariant 0 <= at <= |file| && visited + Records(file[at..], line.Length) == Records(file, line.Length)
      decreases |file| - at
    {
      var next, said := ReadLine(file, at, line);
      visited := visited + said;
      at := next;
    }
    return if broken then ReadError else Fine, visited;
  }

  /** The records, a line each. */
  method WriteAll(records: seq<Record>) returns (file: string)
    ensures file == Written(records)
  {
    hide Escape;
    hide Written;
    file := "";
    NothingWritten();
    for i := 0 to |records|
      invariant file == Written(records[..i])
    {
      var line := WriteEscaped(records[i].key + "=", records[i].value);
      OneMore(records[..i], records[i]);
      assert records[..i] + [records[i]] == records[..i + 1];
      file := file + (line + "\n");
    }
    assert records[..|records|] == records;
  }

  lemma NothingWritten()
    ensures Written([]) == ""
  {
  }

  lemma {:induction false} OneMore(records: seq<Record>, r: Record)
    ensures Written(records + [r]) == Written(records) + (Line(r) + "\n")
  {
    hide Line;
    if records == [] {
      assert records + [r] == [r] && Written([r]) == Line(r) + "\n" + "" == Line(r) + "\n";
    } else {
      assert (records + [r])[1..] == records[1..] + [r];
      OneMore(records[1..], r);
    }
  }

  /** A file written, cut anywhere and read back. */
  method Recover(records: seq<Record>, length: nat, line: array<char>) returns (visited: seq<Record>)
    requires Writable(records) && length <= |Written(records)| && 2 <= line.Length <= INT32_MAX
    modifies line
    ensures visited == Surviving(records, length, line.Length)
  {
    hide Records;
    hide Written;
    hide Surviving;
    TornRoundTrip(records, length, line.Length);
    var file := WriteAll(records);
    var outcome;
    outcome, visited := Read(file[..length], false, line);
  }
}
