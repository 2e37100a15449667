/**
 UTF-8 text over byte strings that may not be UTF-8 at all: classifying, decoding, counting, cutting
 and cleaning. Models src/base/text.c; a C string is the bytes before its terminator.
 */
module Text {
  import opened Base

  const INVALID_CODEPOINT := 0xFFFD

  // ---- the grammar of section 4 of RFC 3629 ----------------------------------------------

  predicate Tail(b: byte) {
    0x80 <= b <= 0xBF
  }

  predicate One(a: byte) {
    a <= 0x7F
  }

  predicate Two(a: byte, b: byte) {
    0xC2 <= a <= 0xDF && Tail(b)
  }

  predicate Three(a: byte, b: byte, c: byte) {
    || (a == 0xE0 && 0xA0 <= b <= 0xBF && Tail(c))
    || (0xE1 <= a <= 0xEC && Tail(b) && Tail(c))
    || (a == 0xED && 0x80 <= b <= 0x9F && Tail(c))
    || (0xEE <= a <= 0xEF && Tail(b) && Tail(c))
  }

  predicate Four(a: byte, b: byte, c: byte, d: byte) {
    || (a == 0xF0 && 0x90 <= b <= 0xBF && Tail(c) && Tail(d))
    || (0xF1 <= a <= 0xF3 && Tail(b) && Tail(c) && Tail(d))
    || (a == 0xF4 && 0x80 <= b <= 0x8F && Tail(c) && Tail(d))
  }

  /** The length of the character at the front, or 0 if there is none. */
  function Leading(s: seq<byte>): (n: nat)
    ensures n <= 4 && n <= |s|
  {
    if |s| >= 1 && One(s[0]) then 1
    else if |s| >= 2 && Two(s[0], s[1]) then 2
    else if |s| >= 3 && Three(s[0], s[1], s[2]) then 3
    else if |s| >= 4 && Four(s[0], s[1], s[2], s[3]) then 4
    else 0
  }

  predicate IsCharacter(s: seq<byte>) {
    |s| > 0 && Leading(s) == |s|
  }

  // ---- scalar values: section 3 of RFC 3629 ----------------------------------------------

  predicate Scalar(value: nat) {
    value <= 0x10FFFF && !(0xD800 <= value <= 0xDFFF)
  }

  function Encode(value: nat): (s: seq<byte>)
    requires value <= 0x10FFFF
  {
    if value < 0x80 then [value]
    else if value < 0x800 then [0xC0 + value / 64, 0x80 + value % 64]
    else if value < 0x10000 then [0xE0 + value / 64 / 64, 0x80 + value / 64 % 64, 0x80 + value % 64]
    else [0xF0 + value / 64 / 64 / 64, 0x80 + value / 64 / 64 % 64, 0x80 + value / 64 % 64, 0x80 + value % 64]
  }

  function Six(b: byte): nat {
    (b as int) % 64
  }

  /** The bits of the lead byte and of each continuation byte, put together. */
  function Decode(s: seq<byte>): nat
    requires 1 <= |s| <= 4
  {
    if |s| == 1 then s[0]
    else if |s| == 2 then (s[0] as int) % 32 * 64 + Six(s[1])
    else if |s| == 3 then ((s[0] as int) % 16 * 64 + Six(s[1])) * 64 + Six(s[2])
    else (((s[0] as int) % 8 * 64 + Six(s[1])) * 64 + Six(s[2])) * 64 + Six(s[3])
  }

  /** Every scalar value has a character, which decodes to it ... */
  lemma DecodeEncode(value: nat)
    requires Scalar(value)
    ensures IsCharacter(Encode(value)) && Decode(Encode(value)) == value
  {
    var high := value / 64;
    if value < 0x800 {
    } else if value < 0x10000 {
      EncodedThree(high, value % 64);
    } else {
      EncodedFour(high / 64, high % 64, value % 64);
    }
  }

  lemma EncodedThree(high: nat, low: nat)
    requires 0x20 <= high < 0x400 && low < 64 && !(0x360 <= high <= 0x37F)
    ensures var s := Encode(high * 64 + low); IsCharacter(s) && Decode(s) == high * 64 + low
  {
    hide Encode;
    EncodeHigh(high, low);
    var a, b := high / 64, high % 64;
    assert Three(0xE0 + a, 0x80 + b, 0x80 + low);
    assert Six(0x80 + b) == b && Six(0x80 + low) == low;
  }

  lemma EncodedFour(top: nat, high: nat, low: nat)
    requires 16 <= top <= 271 && high < 64 && low < 64
    ensures var v := (top * 64 + high) * 64 + low; IsCharacter(Encode(v)) && Decode(Encode(v)) == v
  {
    hide Encode;
    EncodeTop(top, high, low);
    var a, b := top / 64, top % 64;
    assert Four(0xF0 + a, 0x80 + b, 0x80 + high, 0x80 + low);
    assert Six(0x80 + b) == b && Six(0x80 + high) == high && Six(0x80 + low) == low;
  }

  /** ... and every character decodes to a scalar value, which encodes to it. */
  lemma EncodeDecode(s: seq<byte>)
    requires IsCharacter(s)
    ensures Scalar(Decode(s)) && Encode(Decode(s)) == s
  {
    if |s| == 2 {
      DecodedTwo(s[0], s[1]);
      assert s == [s[0], s[1]];
    } else if |s| == 3 {
      DecodedThree(s[0], s[1], s[2]);
      assert s == [s[0], s[1], s[2]];
    } else if |s| == 4 {
      DecodedFour(s[0], s[1], s[2], s[3]);
      assert s == [s[0], s[1], s[2], s[3]];
    }
  }

  lemma DecodedTwo(a: byte, b: byte)
    requires Two(a, b)
    ensures var v := Decode([a, b]); Scalar(v) && Encode(v) == [a, b]
  {
    var v := (a as int - 0xC0) * 64 + (b as int - 0x80);
    assert Decode([a, b]) == v;
  }

  lemma DecodedThree(a: byte, b: byte, c: byte)
    requires Three(a, b, c)
    ensures var v := Decode([a, b, c]); Scalar(v) && Encode(v) == [a, b, c]
  {
    hide Encode;
    var high := (a as int - 0xE0) * 64 + (b as int - 0x80);
    assert 0x20 <= high < 0x400 && !(0x360 <= high <= 0x37F);
    EncodeHigh(high, c as int - 0x80);
  }

  lemma EncodeHigh(high: nat, low: nat)
    requires 0x20 <= high < 0x400 && low < 64
    ensures Encode(high * 64 + low) == [0xE0 + high / 64, 0x80 + high % 64, 0x80 + low]
  {
    assert (high * 64 + low) / 64 == high;
  }

  lemma DecodedFour(a: byte, b: byte, c: byte, d: byte)
    requires Four(a, b, c, d)
    ensures var v := Decode([a, b, c, d]); Scalar(v) && Encode(v) == [a, b, c, d]
  {
    hide Encode;
    var top := (a as int - 0xF0) * 64 + (b as int - 0x80);
    assert 16 <= top <= 271;
    EncodeTop(top, c as int - 0x80, d as int - 0x80);
  }

  lemma EncodeTop(top: nat, high: nat, low: nat)
    requires 16 <= top <= 271 && high < 64 && low < 64
    ensures Encode((top * 64 + high) * 64 + low) == [0xF0 + top / 64, 0x80 + top % 64, 0x80 + high, 0x80 + low]
  {
    var v := (top * 64 + high) * 64 + low;
    assert v / 64 == top * 64 + high;
    assert v / 64 / 64 == top;
  }

  // ---- classifying and decoding ----------------------------------------------------------

  /** The classification by lead byte, and a loop over what it promises. */
  method SequenceLen(s: seq<byte>) returns (n: nat)
    ensures n == Leading(s)
  {
    if |s| == 0 {
      return 0;
    }
    var lead := s[0];
    if lead < 0x80 {
      return 1;
    }
    var length, low, high;
    if lead >= 0xC2 && lead <= 0xDF {
      length, low, high := 2, 0x80, 0xBF;
    } else if lead == 0xE0 {
      length, low, high := 3, 0xA0, 0xBF;
    } else if lead == 0xED {
      length, low, high := 3, 0x80, 0x9F;
    } else if (lead >= 0xE1 && lead <= 0xEC) || lead == 0xEE || lead == 0xEF {
      length, low, high := 3, 0x80, 0xBF;
    } else if lead == 0xF0 {
      length, low, high := 4, 0x90, 0xBF;
    } else if lead >= 0xF1 && lead <= 0xF3 {
      length, low, high := 4, 0x80, 0xBF;
    } else if lead == 0xF4 {
      length, low, high := 4, 0x80, 0x8F;
    } else {
      return 0;
    }
    if |s| < length {
      return 0;
    }
    if s[1] < low || s[1] > high {
      return 0;
    }
    for i := 2 to length
      invariant forall j :: 2 <= j < i ==> Tail(s[j])
    {
      if s[i] < 0x80 || s[i] > 0xBF {
        return 0;
      }
    }
    return length;
  }

  /** How far one step of a walk goes: a character, or one byte of something else. */
  function StepLen(s: seq<byte>): (n: nat)
    requires s != []
    ensures 0 < n <= |s| && n <= 4
  {
    if Leading(s) == 0 then 1 else Leading(s)
  }

  /** A character is a matter of its own bytes only. */
  lemma LeadingLocal(s: seq<byte>, t: seq<byte>)
    requires Leading(s) > 0 && Leading(s) <= |t| && t[..Leading(s)] == s[..Leading(s)]
    ensures Leading(t) == Leading(s)
  {
    var n := Leading(s);
    assert forall i :: 0 <= i < n ==> t[i] == t[..n][i] && s[i] == s[..n][i];
  }

  /** One step over a C string: the character there, or one byte marked invalid, or the end. */
  method Next(s: seq<byte>) returns (n: nat, codepoint: nat)
    ensures s == [] ==> n == 0 && codepoint == 0
    ensures s != [] ==> n == StepLen(s)
    ensures s != [] && Leading(s) == 0 ==> codepoint == INVALID_CODEPOINT
    ensures s != [] && Leading(s) > 0 ==> Scalar(codepoint) && Encode(codepoint) == s[..n]
  {
    if |s| == 0 {
      return 0, 0;
    }
    var available := 0;
    while available < 4 && available < |s|
      invariant available <= 4 && available <= |s|
    {
      available := available + 1;
    }
    var near := s[..available];
    var length := SequenceLen(near);
    if length == 0 {
      if Leading(s) > 0 {
        LeadingLocal(s, near);
      }
      return 1, INVALID_CODEPOINT;
    }
    LeadingLocal(near, s);
    assert near[..length] == s[..length];
    LeadingLocal(s, s[..length]);
    EncodeDecode(s[..length]);
    return length, Decode(s[..length]);
  }

  // ---- counting and cutting --------------------------------------------------------------

  function Length(s: seq<byte>): nat {
    if s == [] then 0 else 1 + Length(s[StepLen(s)..])
  }

  /** Where the `index`-th step of a walk begins, or the end if there are not so many. */
  function Offset(s: seq<byte>, index: nat): (at: nat)
    ensures at <= |s|
    decreases index
  {
    if s == [] || index == 0 then 0 else StepLen(s) + Offset(s[StepLen(s)..], index - 1)
  }

  method Utf8Length(s: seq<byte>) returns (chars: nat)
    ensures chars == Length(s)
  {
    hide Leading;
    hide Encode;
    hide StepLen;
    chars := 0;
    var offset := 0;
    assert s[0..] == s;
    while true
      invariant offset <= |s| && chars + Length(s[offset..]) == Length(s)
      decreases |s| - offset
    {
      var step, _ := Next(s[offset..]);
      if step == 0 {
        break;
      }
      assert s[offset..][step..] == s[offset + step..];
      offset, chars := offset + step, chars + 1;
    }
  }

  method Utf8Offset(s: seq<byte>, index: nat) returns (offset: nat)
    ensures offset == Offset(s, index)
  {
    hide Leading;
    hide Encode;
    hide StepLen;
    offset := 0;
    assert s[0..] == s;
    for i := 0 to index
      invariant offset <= |s| && offset + Offset(s[offset..], index - i) == Offset(s, index)
    {
      var step, _ := Next(s[offset..]);
      if step == 0 {
        break;
      }
      assert s[offset..][step..] == s[offset + step..];
      offset := offset + step;
    }
  }

  /** A C string in a buffer: the bytes before the first zero. */
  ghost predicate Holds(text: array<byte>, s: seq<byte>)
    reads text
  {
    |s| < text.Length && text[..|s|] == s && text[|s|] == 0 && 0 !in s
  }

  method Truncate(text: array<byte>, maxChars: nat, ghost s: seq<byte>)
    requires Holds(text, s)
    modifies text
    ensures Holds(text, s[..Offset(s, maxChars)])
    ensures Length(s[..Offset(s, maxChars)]) == Min(maxChars, Length(s))
  {
    var i := 0;
    while text[i] != 0
      invariant 0 <= i <= |s|
      decreases |s| - i
    {
      assert text[i] == s[i];
      i := i + 1;
    }
    var offset := Utf8Offset(text[..i], maxChars);
    text[offset] := 0;
    assert text[..offset] == s[..offset];
    TruncateLength(s, maxChars);
  }

  /** Cutting at a step leaves that many steps, whatever the bytes are. */
  lemma {:induction false} TruncateLength(s: seq<byte>, n: nat)
    ensures Length(s[..Offset(s, n)]) == Min(n, Length(s))
    decreases n
  {
    if s != [] && n > 0 {
      var k := StepLen(s);
      var rest := s[k..];
      var t := s[..Offset(s, n)];
      TruncateLength(rest, n - 1);
      assert t[k..] == rest[..Offset(rest, n - 1)];
      StepKept(s, t);
    }
  }

  /** A step does not see what lies past it. */
  lemma StepKept(s: seq<byte>, t: seq<byte>)
    requires s != [] && t <= s && |t| >= StepLen(s)
    ensures StepLen(t) == StepLen(s)
  {
    if Leading(s) > 0 {
      LeadingLocal(s, t);
    } else if Leading(t) > 0 {
      LeadingLocal(t, s);
    }
  }

  // ---- cleaning --------------------------------------------------------------------------

  const QUESTION: byte := 0x3F

  function Shown(b: byte): byte {
    if b == 0x09 || b == 0x0A || b == 0x0D then 0x20 else if b < 0x20 || b == 0x7F then QUESTION else b
  }

  /** One step of cleaning: what the bytes at the front become. */
  function Cleaned(s: seq<byte>): (t: seq<byte>)
    requires s != []
    ensures 0 < |t| <= StepLen(s)
  {
    if s[0] < 0x80 then [Shown(s[0])] else if Leading(s) == 0 then [QUESTION] else s[..Leading(s)]
  }

  /** The text as it may be shown, up to its first zero, as many whole characters as `room` allows. */
  function Clean(s: seq<byte>, room: nat): (t: seq<byte>)
    ensures |t| <= room
    decreases |s|
  {
    if s == [] || s[0] == 0 || |Cleaned(s)| > room then []
    else Cleaned(s) + Clean(s[StepLen(s)..], room - |Cleaned(s)|)
  }

  /** Nothing but characters. */
  predicate WellFormed(s: seq<byte>) {
    s == [] || (Leading(s) > 0 && WellFormed(s[Leading(s)..]))
  }

  /** No C0 control and no DEL. */
  predicate Printable(s: seq<byte>) {
    forall i :: 0 <= i < |s| ==> s[i] >= 0x20 && s[i] != 0x7F
  }

  /** One turn of the cleaning loop: the bytes at the front written as they may be shown, or the end of it. */
  method CleanOne(s: seq<byte>, out: array<byte>, written: nat) returns (more: bool, used: nat, put: nat)
    requires s != [] && written < out.Length
    modifies out
    ensures more <==> s[0] != 0 && written + |Cleaned(s)| < out.Length
    ensures more ==> used == StepLen(s) && put == |Cleaned(s)|
    ensures out[..written] == old(out[..written])
    ensures more ==> out[written..written + put] == Cleaned(s)
  {
    var b := s[0];
    if b == 0 {
      return false, 0, 0;
    }
    if b < 0x80 {
      if written + 1 > out.Length - 1 {
        return false, 0, 0;
      }
      if b == 0x09 || b == 0x0A || b == 0x0D {
        out[written] := 0x20;
      } else if b < 0x20 || b == 0x7F {
        out[written] := QUESTION;
      } else {
        out[written] := b;
      }
      return true, 1, 1;
    }
    var sequence := SequenceLen(s);
    if sequence == 0 {
      if written + 1 > out.Length - 1 {
        return false, 0, 0;
      }
      out[written] := QUESTION;
      return true, 1, 1;
    }
    if written + sequence > out.Length - 1 {
      return false, 0, 0;
    }
    forall j | 0 <= j < sequence {
      out[written + j] := s[j];
    }
    return true, sequence, sequence;
  }

  lemma CleanUnfold(s: seq<byte>, room: nat)
    ensures Clean(s, room) ==
              if s == [] || s[0] == 0 || |Cleaned(s)| > room then []
              else Cleaned(s) + Clean(s[StepLen(s)..], room - |Cleaned(s)|)
  {
  }

  /** The cleaning loop. */
  method CleanInto(s: seq<byte>, out: array<byte>) returns (written: nat)
    requires out.Length > 0
    modifies out
    ensures written == |Clean(s, out.Length - 1)| && out[..written] == Clean(s, out.Length - 1)
  {
    hide Cleaned;
    hide StepLen;
    hide Clean;
    written := 0;
    var i: nat := 0;
    ghost var room := out.Length - 1;
    ghost var done: seq<byte> := [];
    assert s[0..] == s;
    while i < |s|
      invariant i <= |s| && written == |done| <= room && out[..written] == done
      invariant done + Clean(s[i..], room - written) == Clean(s, room)
      decreases |s| - i
    {
      CleanTurn(done, s, i, room - written);
      var more, used, put := CleanOne(s[i..], out, written);
      if !more {
        return;
      }
      assert out[..written + put] == out[..written] + out[written..written + put];
      done := done + Cleaned(s[i..]);
      written, i := written + put, i + used;
    }
    assert s[|s|..] == [];
    CleanUnfold([], room - written);
    assert done + [] == done;
  }

  /** What one more turn does to what has been written and what is still to come. */
  lemma CleanTurn(done: seq<byte>, s: seq<byte>, i: nat, room: nat)
    requires i < |s|
    ensures var here := s[i..];
            done + Clean(here, room) ==
              if s[i] == 0 || |Cleaned(here)| > room then done
              else (done + Cleaned(here)) + Clean(s[i + StepLen(here)..], room - |Cleaned(here)|)
  {
    hide Cleaned;
    hide Clean;
    var here := s[i..];
    CleanUnfold(here, room);
    if s[i] == 0 || |Cleaned(here)| > room {
      assert done + [] == done;
    } else {
      var n := StepLen(here);
      assert here[n..] == s[i + n..];
      var rest := Clean(s[i + n..], room - |Cleaned(here)|);
      assert done + (Cleaned(here) + rest) == (done + Cleaned(here)) + rest;
    }
  }

  method Sanitise(payload: Option<seq<byte>>, out: array<byte>)
    modifies out
    ensures out.Length > 0 ==>
      var t := if payload.None? then [] else Clean(payload.value, out.Length - 1);
      out[..|t|] == t && out[|t|] == 0
  {
    hide Clean;
    if out.Length == 0 {
      return;
    }
    if payload.None? {
      out[0] := 0;
      return;
    }
    var written := CleanInto(payload.value, out);
    ghost var t := out[..written];
    out[written] := 0;
    assert out[..written] == t;
  }

  // ---- what cleaning guarantees ----------------------------------------------------------

  lemma CleanedIsCharacter(s: seq<byte>, rest: seq<byte>)
    requires s != [] && s[0] != 0
    ensures var t := Cleaned(s);
            && Leading(t + rest) == |t| && Printable(t)
            && (t + rest)[|t|..] == rest && (t + rest)[..|t|] == t
  {
    var t := Cleaned(s);
    if s[0] >= 0x80 && Leading(s) > 0 {
      LeadingLocal(s, t + rest);
    }
  }

  /** What is shown is UTF-8 without controls, and fits. */
  lemma {:induction false} CleanIsText(s: seq<byte>, room: nat)
    ensures WellFormed(Clean(s, room)) && Printable(Clean(s, room)) && |Clean(s, room)| <= room
    decreases |s|
  {
    hide Cleaned;
    hide Leading;
    if s != [] && s[0] != 0 && |Cleaned(s)| <= room {
      var rest := Clean(s[StepLen(s)..], room - |Cleaned(s)|);
      CleanIsText(s[StepLen(s)..], room - |Cleaned(s)|);
      CleanedIsCharacter(s, rest);
    }
  }

  /** Text already fit to be shown stays as it is. */
  lemma {:induction false} CleanKeeps(s: seq<byte>, room: nat)
    requires WellFormed(s) && Printable(s) && |s| <= room
    ensures Clean(s, room) == s
    decreases |s|
  {
    hide Leading;
    hide Cleaned;
    if s != [] {
      var n := Leading(s);
      CleanKeeps(s[n..], room - n);
      CleanedKeeps(s);
      assert s[..n] + s[n..] == s;
    }
  }

  lemma CleanedKeeps(s: seq<byte>)
    requires Leading(s) > 0 && s[0] >= 0x20 && s[0] != 0x7F
    ensures Cleaned(s) == s[..Leading(s)]
  {
  }

  /** So cleaning twice is cleaning once. */
  lemma CleanOnce(s: seq<byte>, room: nat)
    ensures Clean(Clean(s, room), room) == Clean(s, room)
  {
    CleanIsText(s, room);
    CleanKeeps(Clean(s, room), room);
  }

  /** A smaller buffer holds the beginning of what a larger one would. */
  lemma {:induction false} CleanPrefix(s: seq<byte>, small: nat, large: nat)
    requires small <= large
    ensures Clean(s, small) <= Clean(s, large)
    decreases |s|
  {
    hide Cleaned;
    if s != [] && s[0] != 0 && |Cleaned(s)| <= small {
      CleanPrefix(s[StepLen(s)..], small - |Cleaned(s)|, large - |Cleaned(s)|);
    }
  }

  /** What a buffer leaves off begins with a whole character, one that did not fit. */
  lemma {:induction false} CleanFills(s: seq<byte>, small: nat, large: nat)
    requires small <= large && Clean(s, small) != Clean(s, large)
    ensures Clean(s, small) <= Clean(s, large)
    ensures var left := Clean(s, large)[|Clean(s, small)|..]; |Clean(s, small)| + Leading(left) > small
    decreases |s|
  {
    hide Cleaned;
    hide Leading;
    CleanPrefix(s, small, large);
    var c := Cleaned(s);
    var next := s[StepLen(s)..];
    if |c| <= small {
      CleanFills(next, small - |c|, large - |c|);
      var a, b := Clean(next, small - |c|), Clean(next, large - |c|);
      assert (c + b)[|c + a|..] == b[|a|..];
    } else {
      CleanedIsCharacter(s, Clean(next, large - |c|));
      assert Clean(s, large)[0..] == Clean(s, large);
    }
  }
}
