/** The parts of MQTT 3.1.1 packets that framing needs: length, fixed header, PUBLISH. */
module MqttCodec {
  import opened Base

  const REMAINING_MAX: nat := 268435455
  const REMAINING_BYTES_MAX: nat := 4
  const STRING_MAX: nat := 65535

  // ---- the remaining length --------------------------------------------------------------

  /** Base 128, least significant digit first; 128 is added to every digit but the last. */
  function Varint(value: nat): (text: seq<byte>)
    ensures text != []
  {
    if value < 128 then [value] else [128 + value % 128] + Varint(value / 128)
  }

  /** What a run of length bytes is worth. */
  function Worth(text: seq<byte>): nat {
    if text == [] then 0 else text[0] % 128 + 128 * Worth(text[1..])
  }

  /** How many of the first bytes say that another follows. */
  function Continued(text: seq<byte>): (n: nat)
    ensures n <= |text|
    ensures forall i :: 0 <= i < n ==> text[i] >= 128
    ensures n < |text| ==> text[n] < 128
  {
    if text == [] || text[0] < 128 then 0 else 1 + Continued(text[1..])
  }

  datatype Length = NotYet | Malformed | Length(value: nat, used: nat)

  /** The number at the front of `data`: four bytes at most, the last without its top bit. */
  function LengthAt(data: seq<byte>): Length {
    var n := Continued(data);
    if n >= REMAINING_BYTES_MAX then Malformed
    else if n == |data| then NotYet
    else Length.Length(Worth(data[..n + 1]), n + 1)
  }

  function Power128(n: nat): nat {
    if n == 0 then 1 else 128 * Power128(n - 1)
  }

  lemma {:induction false} WorthSnoc(text: seq<byte>, last: byte)
    ensures Worth(text + [last]) == Worth(text) + (last % 128) * Power128(|text|)
    decreases |text|
  {
    if text == [] {
      assert [last][1..] == [];
    } else {
      assert (text + [last])[1..] == text[1..] + [last];
      WorthSnoc(text[1..], last);
      assert 128 * ((last % 128) * Power128(|text| - 1)) == (last % 128) * (128 * Power128(|text| - 1));
    }
  }

  lemma {:induction false} WorthBound(text: seq<byte>)
    ensures Worth(text) < Power128(|text|)
    decreases |text|
  {
    if text != [] {
      WorthBound(text[1..]);
    }
  }

  lemma Powers()
    ensures Power128(0) == 1 && Power128(1) == 128 && Power128(2) == 16384
    ensures Power128(3) == 2097152 && Power128(4) == REMAINING_MAX + 1
  {
    assert Power128(1) == 128 * Power128(0);
    assert Power128(2) == 128 * Power128(1);
    assert Power128(3) == 128 * Power128(2);
    assert Power128(4) == 128 * Power128(3);
  }

  /** The reading loop, on a 32-bit value and multiplier that neither can outgrow. */
  method ReadVarint(data: seq<byte>) returns (length: Length)
    ensures length == LengthAt(data)
    ensures length.Length? ==> length.value <= REMAINING_MAX
  {
    Powers();
    var value: nat, multiplier: nat := 0, 1;
    var i := 0;
    while i < REMAINING_BYTES_MAX
      invariant i <= |data| && i <= REMAINING_BYTES_MAX && i <= Continued(data)
      invariant value == Worth(data[..i]) && multiplier == Power128(i)
      invariant value < Power128(i) <= 0x1_0000_0000
    {
      if i >= |data| {
        return NotYet;
      }
      var b := data[i];
      assert data[..i + 1] == data[..i] + [b];
      WorthSnoc(data[..i], b);
      WorthBound(data[..i + 1]);
      value := value + (b % 128) * multiplier;
      multiplier := multiplier * 128;
      if b < 128 {
        return Length.Length(value, i + 1);
      }
      i := i + 1;
    }
    return Malformed;
  }

  /** The writing loop: `do ... while`, so zero takes a byte. */
  method WriteVarint(out: array<byte>, at: nat, value: nat) returns (written: nat)
    requires at + |Varint(value)| <= out.Length
    modifies out
    ensures written == |Varint(value)|
    ensures out[..at + written] == old(out[..at]) + Varint(value)
    ensures forall i :: at + written <= i < out.Length ==> out[i] == old(out[i])
  {
    ghost var text := Varint(value);
    var left, more := value, true;
    written := 0;
    while more
      invariant written <= |text|
      invariant if more then text[written..] == Varint(left) else written == |text|
      invariant forall k :: 0 <= k < written ==> out[at + k] == text[k]
      invariant forall i :: 0 <= i < at || at + written <= i < out.Length ==> out[i] == old(out[i])
      decreases more, left
    {
      assert text[written] == text[written..][0] == Varint(left)[0];
      assert text[written + 1..] == text[written..][1..];
      var b := left % 128;
      left := left / 128;
      more := left > 0;
      if more {
        b := b + 128;
      }
      out[at + written] := b;
      written := written + 1;
    }
  }

  method VarintWidth(value: nat) returns (width: nat)
    ensures width == |Varint(value)|
  {
    width := 1;
    var left := value;
    while left >= 128
      invariant width + |Varint(left)| - 1 == |Varint(value)|
    {
      left := left / 128;
      width := width + 1;
    }
  }

  lemma {:induction false} VarintShape(value: nat)
    ensures Continued(Varint(value)) == |Varint(value)| - 1
    ensures Worth(Varint(value)) == value
    decreases value
  {
    if value < 128 {
      assert Varint(value)[1..] == [];
    } else {
      VarintShape(value / 128);
      assert Varint(value)[1..] == Varint(value / 128);
    }
  }

  lemma {:induction false} ContinuedPrefix(text: seq<byte>, rest: seq<byte>)
    requires Continued(text) < |text|
    ensures Continued(text + rest) == Continued(text)
    decreases |text|
  {
    assert (text + rest)[0] == text[0];
    if text[0] >= 128 {
      assert (text + rest)[1..] == text[1..] + rest;
      ContinuedPrefix(text[1..], rest);
    }
  }

  lemma {:induction false} VarintWidths(value: nat, n: nat)
    requires n > 0
    ensures |Varint(value)| <= n <==> value < Power128(n)
    decreases n
  {
    if n == 1 {
      assert Power128(1) == 128 * Power128(0);
    } else if value >= 128 {
      VarintWidths(value / 128, n - 1);
    } else {
      PowerPositive(n - 1);
    }
  }

  lemma {:induction false} PowerPositive(n: nat)
    ensures Power128(n) >= 1
  {
    if n > 0 {
      PowerPositive(n - 1);
    }
  }

  lemma {:induction false} ContinuedFront(text: seq<byte>, k: nat)
    requires k <= Continued(text)
    ensures Continued(text[..k]) == k
    decreases k
  {
    if k > 0 {
      ContinuedFront(text[1..], k - 1);
      assert text[..k][1..] == text[1..][..k - 1];
    }
  }

  /**
   The length round trip: whatever follows it, a length in range reads back as itself in the width
   it was written in; every strict prefix of it reads as "not yet"; one out of range is refused.
   */
  lemma VarintRoundTrip(value: nat, rest: seq<byte>)
    ensures value <= REMAINING_MAX ==>
      LengthAt(Varint(value) + rest) == Length.Length(value, |Varint(value)|)
    ensures value <= REMAINING_MAX ==>
      forall k :: 0 <= k < |Varint(value)| ==> LengthAt(Varint(value)[..k]) == NotYet
    ensures value > REMAINING_MAX ==> LengthAt(Varint(value) + rest) == Malformed
  {
    var text := Varint(value);
    Powers();
    VarintWidths(value, 4);
    VarintShape(value);
    ContinuedPrefix(text, rest);
    assert (text + rest)[..|text|] == text;
    forall k | 0 <= k < |text|
      ensures value <= REMAINING_MAX ==> LengthAt(text[..k]) == NotYet
    {
      ContinuedFront(text, k);
    }
  }

  // ---- the fixed header ------------------------------------------------------------------

  const PUBLISH := 3
  const PUBREL := 6
  const SUBSCRIBE := 8
  const UNSUBSCRIBE := 10

  datatype Header = Header(kind: nat, flags: nat, remaining: nat, size: nat)

  datatype HeaderRead = NoHeaderYet | BadHeader | GotHeader(header: Header)

  /** The flags that go with each kind of packet. */
  predicate FlagsLegal(kind: nat, flags: nat) {
    if kind == PUBLISH then true
    else if kind == PUBREL || kind == SUBSCRIBE || kind == UNSUBSCRIBE then flags == 2
    else 0 < kind < 15 && flags == 0
  }

  function HeaderAt(data: seq<byte>): (r: HeaderRead)
    ensures r.GotHeader? ==>
      2 <= r.header.size <= 5 && r.header.size <= |data| && r.header.remaining <= REMAINING_MAX
    ensures r.NoHeaderYet? ==> |data| < 5
  {
    if data == [] then NoHeaderYet
    else
      var kind, flags := data[0] / 16, data[0] % 16;
      if kind == 0 || kind == 15 || !FlagsLegal(kind, flags) then BadHeader
      else
        match LengthAt(data[1..])
        case NotYet => NoHeaderYet
        case Malformed => BadHeader
        case Length(value, used) =>
          Powers();
          WorthBound(data[1..][..used]);
          PowerGrows(used, 4);
          GotHeader(Header(kind, flags, value, 1 + used))
  }

  lemma {:induction false} PowerGrows(m: nat, n: nat)
    requires m <= n
    ensures Power128(m) <= Power128(n)
    decreases n - m
  {
    PowerPositive(m);
    if m < n {
      PowerGrows(m + 1, n);
    }
  }

  lemma {:induction false} LengthStable(data: seq<byte>, rest: seq<byte>)
    requires LengthAt(data) != NotYet
    ensures LengthAt(data + rest) == LengthAt(data)
  {
    var n := Continued(data);
    if n < |data| {
      ContinuedPrefix(data, rest);
      assert n < REMAINING_BYTES_MAX ==> (data + rest)[..n + 1] == data[..n + 1];
    } else {
      ContinuedAll(data, rest);
    }
  }

  lemma {:induction false} ContinuedAll(data: seq<byte>, rest: seq<byte>)
    requires Continued(data) == |data|
    ensures Continued(data + rest) >= |data|
    decreases |data|
  {
    if data != [] {
      assert (data + rest)[1..] == data[1..] + rest;
      ContinuedAll(data[1..], rest);
    }
  }

  /** A header once read, or refused, is not changed by the bytes that follow. */
  lemma HeaderStable(data: seq<byte>, rest: seq<byte>)
    requires !HeaderAt(data).NoHeaderYet?
    ensures HeaderAt(data + rest) == HeaderAt(data)
  {
    assert (data + rest)[0] == data[0];
    assert (data + rest)[1..] == data[1..] + rest;
    var kind, flags := data[0] / 16, data[0] % 16;
    if !(kind == 0 || kind == 15 || !FlagsLegal(kind, flags)) {
      LengthStable(data[1..], rest);
    }
  }

  method DecodeHeader(data: seq<byte>) returns (read: HeaderRead)
    ensures read == HeaderAt(data)
  {
    if data == [] {
      return NoHeaderYet;
    }
    var kind, flags := data[0] / 16, data[0] % 16;
    if kind == 0 || kind == 15 || !FlagsLegal(kind, flags) {
      return BadHeader;
    }
    var length := ReadVarint(data[1..]);
    match length
    case NotYet => return NoHeaderYet;
    case Malformed => return BadHeader;
    case Length(value, used) => return GotHeader(Header(kind, flags, value, 1 + used));
  }

  // ---- PUBLISH ---------------------------------------------------------------------------

  function U16(value: nat): seq<byte>
    requires value <= STRING_MAX
  {
    [value / 256, value % 256]
  }

  function U16At(data: seq<byte>, at: nat): nat
    requires at + 2 <= |data|
  {
    (data[at] as int) * 256 + data[at + 1]
  }

  datatype Incoming = Incoming(
    topic: seq<byte>, payload: seq<byte>, qos: nat, retained: bool, duplicate: bool, packetId: nat)

  function DecodePublish(flags: nat, body: seq<byte>): Option<Incoming> {
    var qos := flags / 2 % 4;
    if qos > 2 || |body| < 2 then None
    else
      var topicLen := U16At(body, 0);
      var offset := 2 + topicLen;
      if topicLen == 0 || offset > |body| then None
      else if qos > 0 && |body| - offset < 2 then None
      else
        var start := if qos > 0 then offset + 2 else offset;
        Some(Incoming(body[2..offset], body[start..], qos, flags % 2 == 1, flags / 8 % 2 == 1,
                      if qos > 0 then U16At(body, offset) else 0))
  }

  function PublishBody(topic: seq<byte>, payload: seq<byte>): seq<byte>
    requires |topic| <= STRING_MAX
  {
    U16(|topic|) + topic + payload
  }

  function PublishPacket(topic: seq<byte>, payload: seq<byte>, retained: bool): seq<byte>
    requires |topic| <= STRING_MAX
  {
    var body := PublishBody(topic, payload);
    [PUBLISH * 16 + if retained then 1 else 0] + Varint(|body|) + body
  }

  datatype Encoded = Written(total: nat) | Invalid | NoSpace

  function PublishResult(capacity: nat, topic: seq<byte>, payload: seq<byte>, retained: bool): Encoded {
    if topic == [] || |topic| > STRING_MAX then Invalid
    else if 2 + |topic| + |payload| > REMAINING_MAX then NoSpace
    else if |PublishPacket(topic, payload, retained)| > capacity then NoSpace
    else Written(|PublishPacket(topic, payload, retained)|)
  }

  method CopyInto(out: array<byte>, at: nat, data: seq<byte>) returns (next: nat)
    requires at + |data| <= out.Length
    modifies out
    ensures next == at + |data|
    ensures out[..next] == old(out[..at]) + data
    ensures forall i :: next <= i < out.Length ==> out[i] == old(out[i])
  {
    forall i | 0 <= i < |data| {
      out[at + i] := data[i];
    }
    next := at + |data|;
  }

  /** Writes what comes before a body of `bodyLen` bytes, provided there is room for both. */
  method BeginPacket(out: array<byte>, first: byte, bodyLen: nat) returns (at: Option<nat>)
    modifies out
    ensures at == if bodyLen > REMAINING_MAX || out.Length < 1 + |Varint(bodyLen)| + bodyLen then None
                  else Some(1 + |Varint(bodyLen)|)
    ensures at.None? ==> forall i :: 0 <= i < out.Length ==> out[i] == old(out[i])
    ensures at.Some? ==>
      && out[..at.value] == [first] + Varint(bodyLen)
      && forall i :: at.value <= i < out.Length ==> out[i] == old(out[i])
  {
    if bodyLen > REMAINING_MAX {
      return None;
    }
    var width := VarintWidth(bodyLen);
    if out.Length < 1 + width + bodyLen {
      return None;
    }
    var next := CopyInto(out, 0, [first]);
    var written := WriteVarint(out, next, bodyLen);
    return Some(next + written);
  }

  /** Header, topic and payload in place, or nothing at all: a packet that does not fit is refused first. */
  method EncodePublish(out: array<byte>, topic: seq<byte>, payload: seq<byte>, retained: bool)
    returns (result: Encoded)
    modifies out
    ensures result == PublishResult(out.Length, topic, payload, retained)
    ensures result.Written? ==> out[..result.total] == PublishPacket(topic, payload, retained)
    ensures forall i :: (if result.Written? then result.total else 0) <= i < out.Length ==> out[i] == old(out[i])
  {
    hide Varint;
    if topic == [] || |topic| > STRING_MAX {
      return Invalid;
    }
    var begun := BeginPacket(out, PUBLISH * 16 + (if retained then 1 else 0), 2 + |topic| + |payload|);
    if begun.None? {
      return NoSpace;
    }
    ghost var start := out[..begun.value];
    var at := CopyInto(out, begun.value, U16(|topic|));
    at := CopyInto(out, at, topic);
    at := CopyInto(out, at, payload);
    assert out[..at] == start + U16(|topic|) + topic + payload;
    assert out[..at] == start + PublishBody(topic, payload);
    return Written(at);
  }

  /**
   The PUBLISH round trip: an encoded message, whatever follows it on the stream, has a header that
   bounds exactly the packet, and a body that decodes to the same topic, payload and retain flag.
   */
  lemma PublishRoundTrip(topic: seq<byte>, payload: seq<byte>, retained: bool, rest: seq<byte>)
    requires 0 < |topic| <= STRING_MAX && 2 + |topic| + |payload| <= REMAINING_MAX
    ensures
      var packet := PublishPacket(topic, payload, retained);
      var read := HeaderAt(packet + rest);
      && read.GotHeader? && read.header.kind == PUBLISH
      && read.header.size + read.header.remaining == |packet|
      && DecodePublish(read.header.flags, packet[read.header.size..])
         == Some(Incoming(topic, payload, 0, retained, false, 0))
  {
    PublishHeader(topic, payload, retained, rest);
    hide PublishPacket;
    hide HeaderAt;
    BodyRoundTrip(topic, payload, HeaderAt(PublishPacket(topic, payload, retained) + rest).header.flags, retained);
  }

  /** The header in front of a packet bounds exactly its body. */
  lemma PublishHeader(topic: seq<byte>, payload: seq<byte>, retained: bool, rest: seq<byte>)
    requires 0 < |topic| <= STRING_MAX && 2 + |topic| + |payload| <= REMAINING_MAX
    ensures var packet := PublishPacket(topic, payload, retained);
            var read := HeaderAt(packet + rest);
            && read.GotHeader? && read.header.kind == PUBLISH && read.header.flags == (if retained then 1 else 0)
            && read.header.size + read.header.remaining == |packet|
            && packet[read.header.size..] == PublishBody(topic, payload)
  {
    hide DecodePublish;
    var body := PublishBody(topic, payload);
    var packet := PublishPacket(topic, payload, retained);
    hide PublishBody;
    var text := Varint(|body|);
    VarintRoundTrip(|body|, body + rest);
    assert (packet + rest)[1..] == text + (body + rest);
    assert packet[1 + |text|..] == body;
  }

  lemma BodyRoundTrip(topic: seq<byte>, payload: seq<byte>, flags: nat, retained: bool)
    requires 0 < |topic| <= STRING_MAX && flags == if retained then 1 else 0
    ensures DecodePublish(flags, PublishBody(topic, payload)) == Some(Incoming(topic, payload, 0, retained, false, 0))
  {
    var body := PublishBody(topic, payload);
    assert body[2..2 + |topic|] == topic && body[2 + |topic|..] == payload;
  }
}
