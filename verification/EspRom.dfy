/**
 Talking to an ESP ROM loader: requests framed with SLIP (RFC 1055), and the reader that finds the
 responses in whatever else the serial line carries. Models src/codec/esp_rom.c.
 */
module EspRom {
  import opened Base

  const END: byte := 0xC0
  const ESC: byte := 0xDB
  const ESC_END: byte := 0xDC
  const ESC_ESC: byte := 0xDD
  const HEADER_LEN := 8
  const STATUS_LEN := 4
  const FRAME_MAX := 128

  // ---- framing ---------------------------------------------------------------------------

  function EscapeByte(b: byte): seq<byte> {
    if b == END then [ESC, ESC_END] else if b == ESC then [ESC, ESC_ESC] else [b]
  }

  function Escape(s: seq<byte>): seq<byte> {
    if s == [] then [] else Escape(s[..|s| - 1]) + EscapeByte(s[|s| - 1])
  }

  function Framed(s: seq<byte>): seq<byte> {
    [END] + Escape(s) + [END]
  }

  /** What a receiver makes of the bytes between two delimiters, if they are SLIP at all. */
  function Unescape(s: seq<byte>): Option<seq<byte>> {
    if s == [] then Some([])
    else if s[0] == END then None
    else if s[0] == ESC then
      if |s| > 1 && (s[1] == ESC_END || s[1] == ESC_ESC)
      then Prepend(if s[1] == ESC_END then END else ESC, Unescape(s[2..]))
      else None
    else Prepend(s[0], Unescape(s[1..]))
  }

  function Prepend(b: byte, rest: Option<seq<byte>>): Option<seq<byte>> {
    if rest.None? then None else Some([b] + rest.value)
  }

  lemma EscapeGrows(s: seq<byte>, b: byte)
    ensures Escape(s + [b]) == Escape(s) + EscapeByte(b)
  {
    assert (s + [b])[..|s|] == s;
  }

  lemma {:induction false} EscapeJoins(a: seq<byte>, b: seq<byte>)
    ensures Escape(a + b) == Escape(a) + Escape(b)
    decreases |b|
  {
    hide EscapeByte;
    if b == [] {
      assert a + b == a;
      assert Escape(a) + Escape(b) == Escape(a);
    } else {
      var n := |b| - 1;
      EscapeJoins(a, b[..n]);
      EscapeGrows(a + b[..n], b[n]);
      assert a + b == a + b[..n] + [b[n]];
      Regroup(Escape(a), Escape(b[..n]), EscapeByte(b[n]));
    }
  }

  lemma Regroup(a: seq<byte>, b: seq<byte>, c: seq<byte>)
    ensures a + b + c == a + (b + c)
  {
  }

  /** No delimiter survives escaping, so a frame has one only at each end. */
  lemma {:induction false} EscapeHidesEnd(s: seq<byte>)
    ensures END !in Escape(s)
  {
    if s != [] {
      EscapeHidesEnd(s[..|s| - 1]);
    }
  }

  lemma UnescapeFirst(b: byte, rest: seq<byte>)
    ensures Unescape(EscapeByte(b) + rest) == Prepend(b, Unescape(rest))
  {
    var first := EscapeByte(b);
    assert (first + rest)[|first|..] == rest;
  }

  lemma EscapeFirst(s: seq<byte>)
    requires s != []
    ensures Escape(s) == EscapeByte(s[0]) + Escape(s[1..])
  {
    hide EscapeByte;
    assert s == [s[0]] + s[1..];
    EscapeJoins([s[0]], s[1..]);
    EscapeGrows([], s[0]);
    assert [] + [s[0]] == [s[0]];
  }

  lemma {:induction false} EscapeRoundTrip(s: seq<byte>)
    ensures Unescape(Escape(s)) == Some(s)
  {
    if s != [] {
      hide Unescape;
      hide Escape;
      EscapeFirst(s);
      UnescapeFirst(s[0], Escape(s[1..]));
      EscapeRoundTrip(s[1..]);
      assert s == [s[0]] + s[1..];
    }
  }

  // ---- requests --------------------------------------------------------------------------

  /** A 32-bit value, least significant byte first. */
  function Word(value: nat): (s: seq<byte>)
    requires value < 0x1_0000_0000
    ensures |s| == 4
  {
    [value % 256, value / 256 % 256, value / 256 / 256 % 256, value / 256 / 256 / 256]
  }

  function FromWord(s: seq<byte>): (value: nat)
    requires |s| == 4
    ensures value < 0x1_0000_0000
  {
    (s[0] as int) + 256 * ((s[1] as int) + 256 * ((s[2] as int) + 256 * (s[3] as int)))
  }

  lemma WordRoundTrip(value: nat)
    requires value < 0x1_0000_0000
    ensures FromWord(Word(value)) == value
  {
  }

  lemma WordUnique(s: seq<byte>)
    requires |s| == 4
    ensures Word(FromWord(s)) == s
  {
    var v := FromWord(s);
    assert v / 256 == (s[1] as int) + 256 * ((s[2] as int) + 256 * (s[3] as int));
    assert v / 256 / 256 == (s[2] as int) + 256 * (s[3] as int);
  }

  function Header(op: byte, size: nat, checksum: nat): (s: seq<byte>)
    requires checksum < 0x1_0000_0000
    ensures |s| == HEADER_LEN
  {
    [0, op, size % 256, size / 256 % 256] + Word(checksum)
  }

  /** Appends one byte, escaped, or says that it does not fit. */
  method SlipPut(out: array<byte>, at: nat, b: byte) returns (ok: bool, next: nat)
    requires at <= out.Length
    modifies out
    ensures ok <==> at + |EscapeByte(b)| <= out.Length
    ensures ok ==> next == at + |EscapeByte(b)| && out[..next] == old(out[..at]) + EscapeByte(b)
    ensures !ok ==> next == at
  {
    if b == END || b == ESC {
      if at + 2 > out.Length {
        return false, at;
      }
      out[at] := ESC;
      out[at + 1] := if b == END then ESC_END else ESC_ESC;
      return true, at + 2;
    }
    if at + 1 > out.Length {
      return false, at;
    }
    out[at] := b;
    return true, at + 1;
  }

  /** Appends a run of bytes, escaped. */
  method SlipPutAll(out: array<byte>, at: nat, s: seq<byte>) returns (ok: bool, next: nat)
    requires at <= out.Length
    modifies out
    ensures ok <==> at + |Escape(s)| <= out.Length
    ensures ok ==> next == at + |Escape(s)| && out[..next] == old(out[..at]) + Escape(s)
  {
    next := at;
    for i := 0 to |s|
      invariant next == at + |Escape(s[..i])| <= out.Length
      invariant out[..next] == old(out[..at]) + Escape(s[..i])
    {
      assert s[..i + 1][..i] == s[..i];
      ok, next := SlipPut(out, next, s[i]);
      if !ok {
        EscapeLonger(s[..i + 1], s);
        return;
      }
    }
    assert s[..|s|] == s;
    ok := true;
  }

  lemma EscapeLonger(a: seq<byte>, b: seq<byte>)
    requires a <= b
    ensures |Escape(a)| <= |Escape(b)|
  {
    assert b == a + b[|a|..];
    EscapeJoins(a, b[|a|..]);
  }

  /** One request, framed: header, fixed words, block. */
  method Request(op: byte, head: seq<byte>, body: seq<byte>, checksum: nat, out: array<byte>)
    returns (written: Option<nat>)
    requires checksum < 0x1_0000_0000
    modifies out
    ensures var frame := Framed(Header(op, |head| + |body|, checksum) + head + body);
            && (written.Some? <==> |frame| <= out.Length)
            && (written.Some? ==> written.value == |frame| && out[..|frame|] == frame)
  {
    hide Escape;
    var header := Header(op, |head| + |body|, checksum);
    hide Header;
    EscapeJoins(header, head);
    EscapeJoins(header + head, body);
    if out.Length < 1 {
      return None;
    }
    out[0] := END;
    var at := 1;
    assert out[..1] == [END];
    var ok;
    ok, at := SlipPutAll(out, at, header);
    if !ok {
      return None;
    }
    ok, at := SlipPutAll(out, at, head);
    if !ok {
      return None;
    }
    ok, at := SlipPutAll(out, at, body);
    if !ok || at + 1 > out.Length {
      return None;
    }
    ghost var all := header + head + body;
    assert out[..at] == [END] + Escape(all);
    out[at] := END;
    assert out[..at + 1] == Framed(all);
    return Some(at + 1);
  }

  // ---- responses -------------------------------------------------------------------------

  datatype Response = Response(op: byte, value: nat, data: seq<byte>, status: byte, error: byte)

  function Parse(frame: seq<byte>): Option<Response> {
    if |frame| < HEADER_LEN + STATUS_LEN || frame[0] != 1 then None
    else
      var size := (frame[2] as int) + (frame[3] as int) * 256;
      if HEADER_LEN + size != |frame| || size < STATUS_LEN then None
      else
        Some(Response(frame[1], FromWord(frame[4..8]), frame[HEADER_LEN..],
                      frame[|frame| - STATUS_LEN], frame[|frame| - STATUS_LEN + 1]))
  }

  /** The bytes a device sends for a response. */
  function Assemble(op: byte, value: nat, data: seq<byte>): seq<byte>
    requires value < 0x1_0000_0000
  {
    [1, op, |data| % 256, |data| / 256 % 256] + Word(value) + data
  }

  /** Parsing undoes assembling, for every response the length field can express ... */
  lemma ParseRoundTrip(op: byte, value: nat, data: seq<byte>)
    requires value < 0x1_0000_0000 && STATUS_LEN <= |data| < 65536
    ensures Parse(Assemble(op, value, data)) ==
              Some(Response(op, value, data, data[|data| - STATUS_LEN], data[|data| - STATUS_LEN + 1]))
  {
    var f := Assemble(op, value, data);
    assert f[4..8] == Word(value);
    assert f[HEADER_LEN..] == data;
    WordRoundTrip(value);
  }

  /** ... and whatever parses was assembled so. */
  lemma ParseUnique(frame: seq<byte>)
    requires Parse(frame).Some?
    ensures var r := Parse(frame).value;
            && r.value < 0x1_0000_0000 && STATUS_LEN <= |r.data| < 65536
            && frame == Assemble(r.op, r.value, r.data)
  {
    var r := Parse(frame).value;
    WordUnique(frame[4..8]);
    assert frame == frame[..4] + frame[4..8] + frame[8..];
    assert |r.data| == (frame[2] as int) + (frame[3] as int) * 256;
    assert frame[..4] == [1, r.op, |r.data| % 256, |r.data| / 256 % 256];
  }

  // ---- the reader, a byte at a time ------------------------------------------------------

  datatype State = State(inFrame: bool, frame: seq<byte>, escape: bool, overflow: bool)

  const Idle := State(false, [], false, false)
  const Opened := State(true, [], false, false)

  datatype Turn = Turn(state: State, response: Option<Response>)

  /** The response a delimiter would complete, were it next. */
  function Pending(s: State): Option<Response> {
    if s.inFrame && |s.frame| > 0 && !s.overflow then Parse(s.frame) else None
  }

  function Step(s: State, b: byte): Turn {
    if b == END then
      if Pending(s).Some? then Turn(s.(inFrame := false, frame := [], escape := false), Pending(s))
      else Turn(Opened, None)
    else if !s.inFrame then Turn(s, None)
    else if s.escape then
      if b == ESC_END then Turn(Append(s.(escape := false), END), None)
      else if b == ESC_ESC then Turn(Append(s.(escape := false), ESC), None)
      else Turn(s.(escape := false, overflow := true), None)
    else if b == ESC then Turn(s.(escape := true), None)
    else Turn(Append(s, b), None)
  }

  function Append(s: State, b: byte): State {
    if |s.frame| >= FRAME_MAX then s.(overflow := true) else s.(frame := s.frame + [b])
  }

  function After(s: State, input: seq<byte>): State
    decreases |input|
  {
    if input == [] then s else After(Step(s, input[0]).state, input[1..])
  }

  /** Every response in `input`, in order. */
  function Responses(s: State, input: seq<byte>): seq<Response>
    decreases |input|
  {
    if input == [] then []
    else
      var turn := Step(s, input[0]);
      (if turn.response.Some? then [turn.response.value] else []) + Responses(turn.state, input[1..])
  }

  lemma {:induction false} ReadingJoins(s: State, a: seq<byte>, b: seq<byte>)
    ensures After(s, a + b) == After(After(s, a), b)
    ensures Responses(s, a + b) == Responses(s, a) + Responses(After(s, a), b)
    decreases |a|
  {
    hide Step;
    if a == [] {
      assert a + b == b;
    } else {
      assert (a + b)[1..] == a[1..] + b;
      ReadingJoins(Step(s, a[0]).state, a[1..], b);
    }
  }

  // ---- what the reader finds -------------------------------------------------------------

  lemma {:induction false} NoiseIgnored(s: State, noise: seq<byte>)
    requires !s.inFrame && END !in noise
    ensures After(s, noise) == s && Responses(s, noise) == []
    decreases |noise|
  {
    if noise != [] {
      NoiseIgnored(s, noise[1..]);
    }
  }

  lemma {:induction false} FrameCollected(s: seq<byte>)
    requires |s| <= FRAME_MAX
    ensures After(Opened, Escape(s)) == State(true, s, false, false) && Responses(Opened, Escape(s)) == []
  {
    if s != [] {
      var n := |s| - 1;
      FrameCollected(s[..n]);
      ReadingJoins(Opened, Escape(s[..n]), EscapeByte(s[n]));
      ByteCollected(State(true, s[..n], false, false), s[n]);
      assert s == s[..n] + [s[n]];
    }
  }

  lemma ByteCollected(s: State, b: byte)
    requires s.inFrame && !s.escape && |s.frame| < FRAME_MAX
    ensures After(s, EscapeByte(b)) == s.(frame := s.frame + [b]) && Responses(s, EscapeByte(b)) == []
  {
    var e := EscapeByte(b);
    OneByte(s, e[0]);
    if |e| == 2 {
      assert e == [e[0]] + [e[1]];
      ReadingJoins(s, [e[0]], [e[1]]);
      OneByte(Step(s, e[0]).state, e[1]);
    }
  }

  predicate Acceptable(frame: seq<byte>) {
    |frame| <= FRAME_MAX && Parse(frame).Some?
  }

  /**
   A frame reaching a reader in any state whatever: it is reported, unless its opening delimiter
   closes a response already pending, which is reported in its place.
   */
  lemma FrameMet(s: State, frame: seq<byte>)
    requires Acceptable(frame)
    ensures Responses(s, Framed(frame)) == [if Pending(s).Some? then Pending(s).value else Parse(frame).value]
    ensures After(s, Framed(frame)) == if Pending(s).Some? then Opened else Idle
  {
    hide Parse;
    hide Step;
    var body := Escape(frame);
    assert Framed(frame) == [END] + (body + [END]);
    ReadingJoins(s, [END], body + [END]);
    Delimited(s);
    if Pending(s).Some? {
      EscapeHidesEnd(frame);
      ReadingJoins(Idle, body, [END]);
      NoiseIgnored(Idle, body);
      Delimited(Idle);
    } else {
      ReadingJoins(Opened, body, [END]);
      FrameCollected(frame);
      ParseNeedsBytes(frame);
      Delimited(State(true, frame, false, false));
    }
  }

  /** So a response that has come but for its closing delimiter costs the frame behind it. */
  lemma FrameLost(first: seq<byte>, second: seq<byte>)
    requires Acceptable(first) && Acceptable(second)
    ensures Pending(After(Idle, [END] + Escape(first))) == Parse(first)
    ensures Responses(Idle, [END] + Escape(first) + Framed(second)) == [Parse(first).value]
  {
    hide Parse;
    hide Step;
    var body := Escape(first);
    ReadingJoins(Idle, [END], body);
    Delimited(Idle);
    FrameCollected(first);
    ParseNeedsBytes(first);
    ReadingJoins(Idle, [END] + body, Framed(second));
    FrameMet(After(Idle, [END] + body), second);
  }

  /** It happens: two responses to different commands, of which the second is never reported. */
  lemma FrameLostHere()
    ensures var first, second: seq<byte> := [1, 8, 4, 0, 0, 0, 0, 0, 0, 0, 0, 0], [1, 9, 4, 0, 0, 0, 0, 0, 0, 0, 0, 0];
            && Acceptable(first) && Acceptable(second)
            && Parse(second).value !in Responses(Idle, [END] + Escape(first) + Framed(second))
  {
    var first, second: seq<byte> := [1, 8, 4, 0, 0, 0, 0, 0, 0, 0, 0, 0], [1, 9, 4, 0, 0, 0, 0, 0, 0, 0, 0, 0];
    FrameLost(first, second);
  }

  lemma ParseNeedsBytes(frame: seq<byte>)
    requires Parse(frame).Some?
    ensures |frame| > 0
  {
  }

  lemma Delimited(s: State)
    ensures After(s, [END]) == if Pending(s).Some? then Idle else Opened
    ensures Responses(s, [END]) == if Pending(s).Some? then [Pending(s).value] else []
  {
    hide Parse;
    assert [END][1..] == [];
    var turn := Step(s, END);
    assert Responses(turn.state, []) == [];
  }

  /** A stretch of line: noise without a delimiter in it, and then a frame. */
  datatype Stretch = Stretch(noise: seq<byte>, frame: seq<byte>)

  predicate Plain(line: seq<Stretch>) {
    forall i :: 0 <= i < |line| ==> END !in line[i].noise && Acceptable(line[i].frame)
  }

  function Sent(line: seq<Stretch>): seq<byte> {
    if line == [] then [] else line[0].noise + (Framed(line[0].frame) + Sent(line[1..]))
  }

  function Meant(line: seq<Stretch>): seq<Response>
    requires Plain(line)
  {
    if line == [] then [] else [Parse(line[0].frame).value] + Meant(line[1..])
  }

  /** Of any responses, with any noise between them, the reader reports exactly those, in order. */
  lemma {:induction false} LineRead(line: seq<Stretch>)
    requires Plain(line)
    ensures Responses(Idle, Sent(line)) == Meant(line) && After(Idle, Sent(line)) == Idle
  {
    hide Parse;
    hide Framed;
    hide Responses;
    hide After;
    if line == [] {
      NothingRead(Idle);
    } else {
      var x, rest := line[0], Sent(line[1..]);
      LineRead(line[1..]);
      ReadingJoins(Idle, x.noise, Framed(x.frame) + rest);
      NoiseIgnored(Idle, x.noise);
      ReadingJoins(Idle, Framed(x.frame), rest);
      FrameMet(Idle, x.frame);
      assert [] + (Meant(line)) == Meant(line);
    }
  }

  lemma NothingRead(s: State)
    ensures Responses(s, []) == [] && After(s, []) == s
  {
  }

  // ---- the reader itself -----------------------------------------------------------------

  class Reader {
    const frame: array<byte>
    var len: nat
    var escape: bool
    var overflow: bool
    var inFrame: bool

    ghost predicate Valid()
      reads this
    {
      frame.Length == FRAME_MAX && len <= FRAME_MAX
    }

    ghost function Here(): State
      requires Valid()
      reads this, frame
    {
      State(inFrame, frame[..len], escape, overflow)
    }

    constructor ()
      ensures Valid() && Here() == Idle && fresh(frame)
    {
      frame := new byte[FRAME_MAX](_ => 0);
      len, escape, overflow, inFrame := 0, false, false, false;
    }

    /** One byte into the frame, if there is room. */
    method Keep(value: byte)
      requires Valid()
      modifies this`len, this`overflow, frame
      ensures Valid() && Here() == Append(old(Here()), value)
    {
      if len >= frame.Length {
        overflow := true;
        return;
      }
      frame[len] := value;
      len := len + 1;
      assert frame[..len] == old(frame[..len]) + [value];
    }

    /** A byte that is not a delimiter. */
    method Collect(b: byte)
      requires Valid() && b != END
      modifies this`len, this`overflow, this`escape, frame
      ensures Valid() && Turn(Here(), None) == Step(old(Here()), b)
    {
      if !inFrame {
        return;
      }
      var value := b;
      if escape {
        escape := false;
        if b == ESC_END {
          value := END;
        } else if b == ESC_ESC {
          value := ESC;
        } else {
          overflow := true;
          return;
        }
      } else if b == ESC {
        escape := true;
        return;
      }
      Keep(value);
    }

    /** A delimiter closes a response, or else opens one. */
    method Delimit() returns (response: Option<Response>)
      requires Valid()
      modifies this`len, this`overflow, this`escape, this`inFrame
      ensures Valid() && Turn(Here(), response) == Step(old(Here()), END)
    {
      hide Parse;
      if inFrame && len > 0 && !overflow {
        response := Parse(frame[..len]);
        if response.Some? {
          inFrame, len, escape := false, 0, false;
          return;
        }
      }
      inFrame, len, escape, overflow := true, 0, false, false;
      return None;
    }

    /** Reads as far as the first response, or to the end of `data` if there is none. */
    method Feed(data: seq<byte>) returns (used: nat, response: Option<Response>)
      requires Valid()
      modifies this, frame
      ensures Valid() && used <= |data| && (response.None? ==> used == |data|) && (response.Some? ==> used > 0)
      ensures Here() == After(old(Here()), data[..used])
      ensures Responses(old(Here()), data[..used]) == if response.Some? then [response.value] else []
    {
      hide Step;
      ghost var start := Here();
      for i := 0 to |data|
        invariant Valid() && Here() == After(start, data[..i]) && Responses(start, data[..i]) == []
      {
        ghost var s := Here();
        ReadingJoins(start, data[..i], [data[i]]);
        assert data[..i] + [data[i]] == data[..i + 1];
        OneByte(s, data[i]);
        if data[i] == END {
          response := Delimit();
          if response.Some? {
            return i + 1, response;
          }
          continue;
        }
        Collect(data[i]);
      }
      assert data[..|data|] == data;
      return |data|, None;
    }
  }

  lemma OneByte(s: State, b: byte)
    ensures var turn := Step(s, b);
            && After(s, [b]) == turn.state
            && Responses(s, [b]) == if turn.response.Some? then [turn.response.value] else []
  {
    assert [b][1..] == [];
    assert Responses(Step(s, b).state, []) == [];
  }

  // ---- a caller --------------------------------------------------------------------------

  function Joined(pieces: seq<seq<byte>>): seq<byte> {
    if pieces == [] then [] else Joined(pieces[..|pieces| - 1]) + pieces[|pieces| - 1]
  }

  /** Feeds one read's worth until it is used up. */
  method FeedAll(reader: Reader, data: seq<byte>) returns (found: seq<Response>)
    requires reader.Valid()
    modifies reader, reader.frame
    ensures reader.Valid()
    ensures reader.Here() == After(old(reader.Here()), data)
    ensures found == Responses(old(reader.Here()), data)
  {
    hide Step;
    hide Responses;
    hide After;
    ghost var start := reader.Here();
    var at := 0;
    found := [];
    NothingRead(start);
    while at < |data|
      invariant at <= |data| && reader.Valid()
      invariant reader.Here() == After(start, data[..at]) && found == Responses(start, data[..at])
    {
      var used, response := reader.Feed(data[at..]);
      ghost var more := data[at..][..used];
      ReadingJoins(start, data[..at], more);
      assert data[..at] + more == data[..at + used];
      if response.Some? {
        found := found + [response.value];
      }
      at := at + used;
    }
    assert data[..at] == data;
  }

  /** However the line's bytes are cut into reads, the same responses come out of them. */
  method FeedPieces(pieces: seq<seq<byte>>) returns (found: seq<Response>)
    ensures found == Responses(Idle, Joined(pieces))
  {
    hide Step;
    hide Responses;
    hide After;
    var reader := new Reader();
    found := [];
    NothingRead(Idle);
    for i := 0 to |pieces|
      invariant reader.Valid() && fresh(reader) && fresh(reader.frame)
      invariant reader.Here() == After(Idle, Joined(pieces[..i])) && found == Responses(Idle, Joined(pieces[..i]))
    {
      assert pieces[..i + 1][..i] == pieces[..i];
      ReadingJoins(Idle, Joined(pieces[..i]), pieces[i]);
      var more := FeedAll(reader, pieces[i]);
      found := found + more;
    }
    assert pieces[..|pieces|] == pieces;
  }

  /** Any line of responses and noise, in any reads: exactly the responses. */
  method Listen(pieces: seq<seq<byte>>, ghost line: seq<Stretch>) returns (found: seq<Response>)
    requires Plain(line) && Joined(pieces) == Sent(line)
    ensures found == Meant(line)
  {
    hide Responses;
    LineRead(line);
    found := FeedPieces(pieces);
  }
}
