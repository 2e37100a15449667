/** Encodings written out: what the standards' own tables and examples come to here, byte by byte. */
module Vectors {
  import opened Base
  import EspRom
  import Text
  import StreamingHash
  import RecordFile
  import JsonGrammar

  // ---- SLIP and the boot loader's packets ------------------------------------------------

  /** The two bytes of RFC 1055 that are escaped, and all the others that are not. */
  lemma SlipBytes(b: byte)
    ensures EspRom.EscapeByte(0xC0) == [0xDB, 0xDC] && EspRom.EscapeByte(0xDB) == [0xDB, 0xDD]
    ensures b != 0xC0 && b != 0xDB ==> EspRom.EscapeByte(b) == [b]
  {
  }

  /** A word is sent with its least significant byte first. */
  lemma WordBytes(a: byte, b: byte, c: byte, d: byte)
    ensures EspRom.Word((a as int) + 256 * ((b as int) + 256 * ((c as int) + 256 * (d as int)))) == [a, b, c, d]
  {
    assert EspRom.FromWord([a, b, c, d]) == (a as int) + 256 * ((b as int) + 256 * ((c as int) + 256 * (d as int)));
    EspRom.WordUnique([a, b, c, d]);
    hide EspRom.Word;
  }

  /** Direction, command, size and checksum of a request. */
  lemma RequestHeader(op: byte, low: byte, high: byte, checksum: nat)
    requires checksum < 0x1_0000_0000
    ensures EspRom.Header(op, (low as int) + 256 * (high as int), checksum)
            == [0, op, low, high] + EspRom.Word(checksum)
  {
    hide EspRom.Word;
  }

  /** A response to READ_REG: command, value, and a status of failure with its reason. */
  lemma ResponseRead()
    ensures EspRom.Parse([0x01, 0x0A, 0x04, 0x00, 0x78, 0x56, 0x34, 0x12, 0x01, 0x05, 0x00, 0x00])
            == Some(EspRom.Response(0x0A, 0x12345678, [0x01, 0x05, 0x00, 0x00], 0x01, 0x05))
  {
    var frame: seq<byte> := [0x01, 0x0A, 0x04, 0x00, 0x78, 0x56, 0x34, 0x12, 0x01, 0x05, 0x00, 0x00];
    assert frame[4..8] == [0x78, 0x56, 0x34, 0x12] && frame[8..] == [0x01, 0x05, 0x00, 0x00];
  }

  // ---- UTF-8 -----------------------------------------------------------------------------

  /** One character of each width. */
  lemma Utf8Vectors()
    ensures Text.Encode(0x41) == [0x41] && Text.Encode(0xA2) == [0xC2, 0xA2]
    ensures Text.Encode(0x20AC) == [0xE2, 0x82, 0xAC] && Text.Encode(0x10348) == [0xF0, 0x90, 0x8D, 0x88]
  {
  }

  /** What is shown of a byte below 0x80: spaces for tabs and line ends, question marks for other controls. */
  lemma ShownBytes(b: byte)
    ensures b in {0x09, 0x0A, 0x0D} ==> Text.Shown(b) == 0x20
    ensures (b < 0x20 && b !in {0x09, 0x0A, 0x0D}) || b == 0x7F ==> Text.Shown(b) == 0x3F
    ensures b >= 0x20 && b != 0x7F ==> Text.Shown(b) == b
  {
  }

  /** Cleaning, a step at a time: the end at a zero, a question mark for a byte that begins no character. */
  lemma CleanStep(s: seq<byte>, room: nat)
    requires s != [] && room >= 4
    ensures s[0] == 0 ==> Text.Clean(s, room) == []
    ensures 0 < s[0] < 0x80 ==> Text.Clean(s, room) == [Text.Shown(s[0])] + Text.Clean(s[1..], room - 1)
    ensures s[0] >= 0x80 && Text.Leading(s) == 0 ==> Text.Clean(s, room) == [0x3F] + Text.Clean(s[1..], room - 1)
    ensures s[0] >= 0x80 && Text.Leading(s) > 0 ==>
      var n := Text.Leading(s);
      n <= room && Text.Clean(s, room) == s[..n] + Text.Clean(s[n..], room - n)
  {
    hide Text.Shown;
  }

  // ---- padding ---------------------------------------------------------------------------

  /** A padded message: itself, one bit set, zeros up to the last eight bytes of a block, and its length. */
  lemma PaddedBytes(message: seq<byte>, length: seq<byte>, i: nat)
    requires |length| == 8
    ensures var s := StreamingHash.Padded(message, length);
            && |s| % 64 == 0 && |message| + 9 <= |s| <= |message| + 72
            && (i < |s| ==>
                  s[i] == if i < |message| then message[i]
                          else if i == |message| then 0x80
                          else if i < |s| - 8 then 0
                          else length[i - (|s| - 8)])
  {
  }

  /** The number of bits, most significant byte first for SHA-256 and last for MD5. */
  lemma LengthBytes()
    ensures StreamingHash.Big(24, 8) == [0, 0, 0, 0, 0, 0, 0, 24]
    ensures StreamingHash.Little(24, 8) == [24, 0, 0, 0, 0, 0, 0, 0]
    ensures StreamingHash.Big(0x0102, 2) == [0x01, 0x02] && StreamingHash.Little(0x0102, 2) == [0x02, 0x01]
  {
    BigZero(7);
    LittleZero(7);
    assert StreamingHash.Big(0x0102, 2) == StreamingHash.Big(1, 1) + [0x02];
    assert StreamingHash.Big(1, 1) == StreamingHash.Big(0, 0) + [1];
    assert StreamingHash.Little(0x0102, 2) == [0x02] + StreamingHash.Little(1, 1);
    assert StreamingHash.Little(1, 1) == [1] + StreamingHash.Little(0, 0);
  }

  lemma {:induction false} BigZero(n: nat)
    ensures StreamingHash.Big(0, n) == seq(n, _ => 0)
  {
    if n > 0 {
      BigZero(n - 1);
    }
  }

  lemma {:induction false} LittleZero(n: nat)
    ensures StreamingHash.Little(0, n) == seq(n, _ => 0)
  {
    if n > 0 {
      LittleZero(n - 1);
    }
  }

  /** The first example of FIPS 180-4: "abc" is one block, its length 24 bits. */
  lemma PaddedAbc()
    ensures StreamingHash.ShaPadded([0x61, 0x62, 0x63])
            == [0x61, 0x62, 0x63, 0x80] + seq(52, _ => 0) + [0, 0, 0, 0, 0, 0, 0, 24]
  {
    LengthBytes();
    assert StreamingHash.Bits([0x61, 0x62, 0x63]) == 24;
    hide StreamingHash.Big;
    assert StreamingHash.Zeros(3) == 52;
    assert StreamingHash.Zeroed(52) == seq(52, _ => 0);
    assert [0x61, 0x62, 0x63] + [0x80] == [0x61, 0x62, 0x63, 0x80];
  }

  // ---- records ---------------------------------------------------------------------------

  /** Controls, backslashes and equals signs are written as two hex digits; nothing else is. */
  lemma EscapedBytes(c: char)
    ensures c as int >= 0x20 && c != '\\' && c != '=' ==> RecordFile.EscapeChar(c) == [c]
    ensures RecordFile.EscapeChar('=') == "\\x3d" && RecordFile.EscapeChar('\\') == "\\x5c"
    ensures RecordFile.EscapeChar('\n') == "\\x0a" && RecordFile.EscapeChar(0x1F as char) == "\\x1f"
  {
  }

  /** A line as it is written. */
  lemma RecordLine()
    ensures RecordFile.Line(RecordFile.Record("k", "a=b")) == "k=a\\x3db"
  {
    assert "a=b"[1..] == "=b" && "=b"[1..] == "b" && "b"[1..] == "";
    assert RecordFile.Escape("b") == "b" && RecordFile.Escape("=b") == "\\x3d" + "b";
    assert RecordFile.Escape("a=b") == "a" + "\\x3db";
  }

  /** And lines as they are read: a record, a comment, and one that is neither. */
  lemma RecordSaid()
    ensures RecordFile.Said("k=v\n") == [RecordFile.Record("k", "v")]
  {
    FirstAt("k=v\n", '\r', '\n', 3);
    FirstAt("k=v", '=', '=', 1);
    assert "k=v\n"[..3] == "k=v" && "k=v"[..1] == "k" && "k=v"[2..] == "v" && "v"[1..] == "";
    assert RecordFile.Unescape("v") == "v" && CString("v") == "v";
  }

  lemma NothingSaid()
    ensures RecordFile.Said("#k=v\n") == [] && RecordFile.Said("kv\n") == [] && RecordFile.Said("\r\n") == []
  {
    FirstAt("#k=v\n", '\r', '\n', 4);
    FirstAt("kv\n", '\r', '\n', 2);
    FirstAt("\r\n", '\r', '\n', 0);
    assert "kv\n"[..2] == "kv" && "#k=v\n"[..4] == "#k=v";
    FirstAt("kv", '=', '=', 2);
  }

  lemma FirstAt(s: string, a: char, b: char, n: nat)
    requires n <= |s| && (forall i :: 0 <= i < n ==> s[i] != a && s[i] != b) && (n < |s| ==> s[n] == a || s[n] == b)
    ensures RecordFile.FirstOf(s, a, b) == n
  {
  }

  // ---- JSON strings ----------------------------------------------------------------------

  /** The one-letter escapes of section 7 of RFC 8259. */
  lemma ShortEscapes()
    ensures JsonGrammar.Unescaped('n') == '\n' && JsonGrammar.Unescaped('t') == '\t'
    ensures JsonGrammar.Unescaped('r') == '\r'
    ensures JsonGrammar.Unescaped('b') == 8 as char && JsonGrammar.Unescaped('f') == 12 as char
    ensures JsonGrammar.Unescaped('"') == '"' && JsonGrammar.Unescaped('\\') == '\\'
    ensures JsonGrammar.Unescaped('/') == '/'
  {
  }

  /** Escapes of four hex digits, in either letter case, one for each width. */
  lemma HexEscapes()
    ensures JsonGrammar.HexValue("0041") == 0x41 && JsonGrammar.HexValue("20aC") == 0x20AC
    ensures JsonGrammar.Escaped(0x41) == "A"
    ensures JsonGrammar.Escaped(0xE9) == [0xC3 as char, 0xA9 as char]
    ensures JsonGrammar.Escaped(0x20AC) == [0xE2 as char, 0x82 as char, 0xAC as char]
  {
  }
}
