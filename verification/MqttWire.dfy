/** Packets as section 2 of MQTT 3.1.1 writes them, and what a client makes of them on arrival. */
module MqttWire {
  import opened Base
  import opened MqttCodec
  import opened MqttInbound

  // ---- the remaining length, section 2.2.3 -----------------------------------------------

  /** One more digit of base 128 in front. */
  lemma LengthDigit(digit: nat, rest: nat)
    requires digit < 128 && rest > 0
    ensures Varint(digit + 128 * rest) == [128 + digit] + Varint(rest)
  {
    var n := digit + 128 * rest;
    assert n % 128 == digit && n / 128 == rest;
  }

  /** One to four bytes, the least significant digit first and each but the last with its top bit. */
  lemma LengthTable(a: nat, b: nat, c: nat, d: nat)
    requires a < 128 && b < 128 && c < 128 && d < 128
    ensures Varint(a) == [a]
    ensures b > 0 ==> Varint(a + 128 * b) == [128 + a, b]
    ensures c > 0 ==> Varint(a + 128 * (b + 128 * c)) == [128 + a, 128 + b, c]
    ensures d > 0 ==> Varint(a + 128 * (b + 128 * (c + 128 * d))) == [128 + a, 128 + b, 128 + c, d]
  {
    LastDigit(a);
    LastDigit(b);
    LastDigit(c);
    LastDigit(d);
    hide Varint;
    if b > 0 {
      LengthDigit(a, b);
    }
    if c > 0 {
      LengthDigit(b, c);
      LengthDigit(a, b + 128 * c);
    }
    if d > 0 {
      LengthDigit(c, d);
      LengthDigit(b, c + 128 * d);
      LengthDigit(a, b + 128 * (c + 128 * d));
    }
  }

  lemma LastDigit(a: nat)
    requires a < 128
    ensures Varint(a) == [a]
  {
  }

  /** Its own example, and both ends of the range. */
  lemma LengthExamples()
    ensures Varint(0) == [0x00] && Varint(321) == [0xC1, 0x02] && Varint(268435455) == [0xFF, 0xFF, 0xFF, 0x7F]
  {
    LengthTable(0, 0, 0, 0);
    LengthTable(65, 2, 0, 0);
    LengthTable(127, 127, 127, 127);
    hide Varint;
  }

  // ---- the fixed header, section 2.2.2 ---------------------------------------------------

  /**
   The kinds and flags there are: CONNECT 1, CONNACK 2, PUBLISH 3, PUBACK 4, PUBREC 5, PUBREL 6, PUBCOMP 7,
   SUBSCRIBE 8, SUBACK 9, UNSUBSCRIBE 10, UNSUBACK 11, PINGREQ 12, PINGRESP 13 and DISCONNECT 14.
   */
  predicate InTable(kind: nat, flags: nat) {
    || (kind in {1, 2, 4, 5, 7, 9, 11, 12, 13, 14} && flags == 0)
    || (kind in {6, 8, 10} && flags == 2)
    || kind == 3
  }

  function FirstByte(kind: nat, flags: nat): (first: byte)
    requires kind < 16 && flags < 16
    ensures first == 16 * kind + flags && first / 16 == kind && first % 16 == flags
  {
    16 * kind + flags
  }

  /** A header is read as what it says exactly if the table has it. */
  lemma HeaderRule(kind: nat, flags: nat, n: nat, rest: seq<byte>)
    requires kind < 16 && flags < 16 && n <= REMAINING_MAX
    ensures HeaderAt([16 * kind + flags] + Varint(n) + rest)
            == if InTable(kind, flags) then GotHeader(Header(kind, flags, n, 1 + |Varint(n)|)) else BadHeader
  {
    hide HeaderAt;
    hide Varint;
    hide LengthAt;
    hide InTable;
    VarintRoundTrip(n, rest);
    HeaderBehind(kind, flags, Varint(n) + rest);
    assert [FirstByte(kind, flags)] + Varint(n) + rest == [FirstByte(kind, flags)] + (Varint(n) + rest);
  }

  lemma HeaderBehind(kind: nat, flags: nat, rest: seq<byte>)
    requires kind < 16 && flags < 16
    ensures var read := HeaderAt([FirstByte(kind, flags)] + rest);
            if !InTable(kind, flags) then read == BadHeader
            else match LengthAt(rest)
                 case NotYet => read == NoHeaderYet
                 case Malformed => read == BadHeader
                 case Length(value, used) => read == GotHeader(Header(kind, flags, value, 1 + used))
  {
    TableIs(kind, flags);
    hide LengthAt;
    hide FlagsLegal;
    hide InTable;
    var data := [FirstByte(kind, flags)] + rest;
    assert data[1..] == rest && data[0] == FirstByte(kind, flags);
  }

  lemma TableIs(kind: nat, flags: nat)
    requires kind < 16 && flags < 16
    ensures InTable(kind, flags) <==> kind != 0 && kind != 15 && FlagsLegal(kind, flags)
  {
  }

  /** A length of more than four bytes makes any header bad. */
  lemma HeaderTooLong(kind: nat, flags: nat, n: nat, rest: seq<byte>)
    requires kind < 16 && flags < 16 && n > REMAINING_MAX
    ensures HeaderAt([16 * kind + flags] + Varint(n) + rest) == BadHeader
  {
    var first: byte := 16 * kind + flags;
    assert ([first] + Varint(n) + rest)[1..] == Varint(n) + rest;
    VarintRoundTrip(n, rest);
    hide Varint;
    hide LengthAt;
  }

  /** The CONNACK that accepts. */
  lemma Accepted()
    ensures HeaderAt([0x20, 0x02, 0x00, 0x00]) == GotHeader(Header(2, 0, 2, 2))
    ensures Frame([0x20, 0x02, 0x00, 0x00]) == Framing([Packet(Header(2, 0, 2, 2), [0x00, 0x00])], [], false)
  {
    LastDigit(2);
    HeaderRule(2, 0, 2, [0x00, 0x00]);
    var stream: seq<byte> := [0x20, 0x02, 0x00, 0x00];
    assert [16 * 2 + 0] + Varint(2) + [0x00, 0x00] == stream;
    hide HeaderAt;
    FrameStep(stream);
    assert stream[2..4] == [0x00, 0x00] && stream[4..] == [];
    EmptyFrame();
  }

  // ---- a stream of packets ---------------------------------------------------------------

  /** A packet to be sent. */
  datatype Outgoing = Outgoing(kind: nat, flags: nat, body: seq<byte>)

  predicate Sendable(p: Outgoing) {
    p.kind < 16 && p.flags < 16 && InTable(p.kind, p.flags) && |p.body| <= REMAINING_MAX
  }

  function Bytes(p: Outgoing): seq<byte>
    requires p.kind < 16 && p.flags < 16
  {
    [16 * p.kind + p.flags] + Varint(|p.body|) + p.body
  }

  function Arrived(p: Outgoing): Packet {
    Packet(Header(p.kind, p.flags, |p.body|, 1 + |Varint(|p.body|)|), p.body)
  }

  predicate AllSendable(ps: seq<Outgoing>) {
    forall i :: 0 <= i < |ps| ==> Sendable(ps[i])
  }

  function Stream(ps: seq<Outgoing>): seq<byte>
    requires AllSendable(ps)
  {
    if ps == [] then [] else Bytes(ps[0]) + Stream(ps[1..])
  }

  function AllArrived(ps: seq<Outgoing>): seq<Packet> {
    if ps == [] then [] else [Arrived(ps[0])] + AllArrived(ps[1..])
  }

  lemma PacketFramed(p: Outgoing, rest: seq<byte>)
    requires Sendable(p)
    ensures Whole(Bytes(p) + rest) && First(Bytes(p) + rest) == (Arrived(p), rest)
  {
    hide InTable;
    var text := Varint(|p.body|);
    var stream := Bytes(p) + rest;
    HeaderRule(p.kind, p.flags, |p.body|, p.body + rest);
    assert stream == [16 * p.kind + p.flags] + text + (p.body + rest);
    hide HeaderAt;
    hide Varint;
    var size := 1 + |text|;
    assert stream[size..size + |p.body|] == p.body && stream[size + |p.body|..] == rest;
  }

  /** Packets sent one behind the other arrive as they were sent. */
  lemma {:induction false} PacketsFramed(ps: seq<Outgoing>)
    requires AllSendable(ps)
    ensures Frame(Stream(ps)) == Framing(AllArrived(ps), [], false)
    decreases |ps|
  {
    hide Frame;
    hide Bytes;
    hide Arrived;
    if ps == [] {
      EmptyFrame();
    } else {
      PacketFramed(ps[0], Stream(ps[1..]));
      FrameStep(Stream(ps));
      PacketsFramed(ps[1..]);
    }
  }

  /** A stream that is broken stays so. */
  lemma {:induction false} BrokenStays(stream: seq<byte>, more: seq<byte>)
    requires Frame(stream).broken
    ensures Frame(stream + more).broken
    decreases |stream|
  {
    hide HeaderAt;
    hide Frame;
    FrameStep(stream);
    FrameStep(stream + more);
    if Whole(stream) {
      FirstStable(stream, more);
      BrokenStays(First(stream).1, more);
    } else {
      HeaderStable(stream, more);
    }
  }

  /** The packets of at most 1024 bytes, header and all, as they arrive. */
  function Held(ps: seq<Outgoing>): seq<Packet> {
    if ps == [] then []
    else (if 1 + |Varint(|ps[0].body|)| + |ps[0].body| <= 1024 then [Arrived(ps[0])] else []) + Held(ps[1..])
  }

  lemma {:induction false} HeldFits(ps: seq<Outgoing>)
    ensures Fitting(AllArrived(ps)) == Held(ps)
  {
    hide Varint;
    if ps != [] {
      HeldFits(ps[1..]);
      assert AllArrived(ps)[1..] == AllArrived(ps[1..]);
    }
  }

  /**
   Any packets, cut into any reads, with handlers that are content: the connection lives, and the client has
   been handed every packet that its buffer can hold, in order and whole.
   */
  method Delivery(ps: seq<Outgoing>, sizes: seq<nat>, answers: seq<seq<bool>>)
    returns (reader: Reader, alive: bool)
    requires AllSendable(ps) && |answers| == |sizes| >= |Stream(ps)|
    requires forall i :: 0 <= i < |sizes| ==> sizes[i] > 0
    requires forall i, j :: 0 <= i < |answers| && 0 <= j < |answers[i]| ==> answers[i][j]
    ensures reader.Valid() && alive && reader.handed == Held(ps)
  {
    hide Frame;
    hide Heard;
    hide Fitting;
    ghost var stream := Stream(ps);
    var seen;
    reader, seen, alive := Session(Stream(ps), sizes, answers);
    PacketsFramed(ps);
    HeldFits(ps);
    if !alive {
      assert stream[..seen] + stream[seen..] == stream;
      BrokenStays(stream[..seen], stream[seen..]);
      assert false;
    }
    assert stream[..seen] == stream;
  }

  // ---- PUBLISH with an identifier, section 3.3 -------------------------------------------

  /** Topic, identifier and payload: what a QoS above 0 adds is the identifier. */
  function IdentifiedBody(topic: seq<byte>, id: nat, payload: seq<byte>): seq<byte>
    requires |topic| <= STRING_MAX && id <= STRING_MAX
  {
    U16(|topic|) + topic + U16(id) + payload
  }

  /** Two bytes, the more significant first. */
  lemma TwoBytes(value: nat, rest: seq<byte>)
    requires value <= STRING_MAX
    ensures U16(value) == [value / 256, value % 256] && U16At(U16(value) + rest, 0) == value
  {
  }

  /** With its identifier a message reads back whole, flags and all. */
  lemma IdentifiedRoundTrip(topic: seq<byte>, id: nat, payload: seq<byte>, qos: nat, retained: bool, duplicate: bool)
    requires 0 < |topic| <= STRING_MAX && id <= STRING_MAX && (qos == 1 || qos == 2)
    ensures DecodePublish(Flags(qos, retained, duplicate), IdentifiedBody(topic, id, payload))
            == Some(Incoming(topic, payload, qos, retained, duplicate, id))
  {
    FlagBits(qos, retained, duplicate);
    var body := IdentifiedBody(topic, id, payload);
    var offset := 2 + |topic|;
    assert body[2..offset] == topic && body[offset + 2..] == payload;
    assert body[offset] == id / 256 && body[offset + 1] == id % 256;
    assert body[0] == |topic| / 256 && body[1] == |topic| % 256;
    hide Flags;
  }

  /** DUP, two bits of QoS, RETAIN. */
  function Flags(qos: nat, retained: bool, duplicate: bool): nat {
    (if duplicate then 8 else 0) + 2 * qos + (if retained then 1 else 0)
  }

  lemma FlagBits(qos: nat, retained: bool, duplicate: bool)
    requires qos < 4
    ensures var flags := Flags(qos, retained, duplicate);
            flags / 2 % 4 == qos && (flags % 2 == 1 <==> retained) && (flags / 8 % 2 == 1 <==> duplicate)
  {
  }

  /** What no PUBLISH may be: of QoS 3, without a topic, or cut off before its payload begins. */
  lemma PublishRefused(flags: nat, body: seq<byte>)
    requires flags < 16
    ensures var qos := flags / 2 % 4;
            DecodePublish(flags, body) == None <==>
              || qos == 3 || |body| < 2 || U16At(body, 0) == 0
              || |body| < 2 + U16At(body, 0) + (if qos == 0 then 0 else 2)
  {
  }
}
