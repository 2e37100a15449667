/**
 Inbound framing: whole packets taken off a buffer far smaller than the largest packet a broker
 may send, with what cannot be held counted off the stream instead.
 */
module MqttInbound {
  import opened Base
  import opened MqttCodec

  const IN_MAX: nat := 1024

  datatype Packet = Packet(header: Header, body: seq<byte>)

  // ---- the stream, framed without a buffer -----------------------------------------------

  datatype Framing = Framing(packets: seq<Packet>, rest: seq<byte>, broken: bool)

  /** Every packet of a stream, in order; `rest` is the start of the one still arriving. */
  function Frame(stream: seq<byte>): Framing
    decreases |stream|
  {
    match HeaderAt(stream)
    case NoHeaderYet => Framing([], stream, false)
    case BadHeader => Framing([], stream, true)
    case GotHeader(header) =>
      var total := header.size + header.remaining;
      if |stream| < total then Framing([], stream, false)
      else
        var next := Frame(stream[total..]);
        next.(packets := [Packet(header, stream[header.size..total])] + next.packets)
  }

  predicate Fits(header: Header) {
    header.size + header.remaining <= IN_MAX
  }

  /** The packets that the buffer can hold. */
  function Fitting(packets: seq<Packet>): seq<Packet> {
    if packets == [] then []
    else (if Fits(packets[0].header) then [packets[0]] else []) + Fitting(packets[1..])
  }

  lemma {:induction false} FittingConcat(a: seq<Packet>, b: seq<Packet>)
    ensures Fitting(a + b) == Fitting(a) + Fitting(b)
    decreases |a|
  {
    if a == [] {
      assert a + b == b;
    } else {
      assert (a + b)[0] == a[0] && (a + b)[1..] == a[1..] + b;
      FittingConcat(a[1..], b);
      var first := if Fits(a[0].header) then [a[0]] else [];
      assert first + (Fitting(a[1..]) + Fitting(b)) == (first + Fitting(a[1..])) + Fitting(b);
    }
  }

  predicate Whole(stream: seq<byte>) {
    var read := HeaderAt(stream);
    read.GotHeader? && |stream| >= read.header.size + read.header.remaining
  }

  /** The whole packet at the front, and what follows it. */
  function First(stream: seq<byte>): (Packet, seq<byte>)
    requires Whole(stream)
  {
    var header := HeaderAt(stream).header;
    var total := header.size + header.remaining;
    (Packet(header, stream[header.size..total]), stream[total..])
  }

  lemma FrameStep(stream: seq<byte>)
    ensures Whole(stream) ==>
      var (first, rest) := First(stream);
      Frame(stream) == Frame(rest).(packets := [first] + Frame(rest).packets)
    ensures !Whole(stream) ==> Frame(stream) == Framing([], stream, HeaderAt(stream).BadHeader?)
  {
    hide MqttCodec.HeaderAt;
  }

  lemma FirstStable(stream: seq<byte>, more: seq<byte>)
    requires Whole(stream)
    ensures Whole(stream + more) && First(stream + more) == (First(stream).0, First(stream).1 + more)
  {
    hide MqttCodec.HeaderAt;
    HeaderStable(stream, more);
    var header := HeaderAt(stream).header;
    var total := header.size + header.remaining;
    assert (stream + more)[total..] == stream[total..] + more;
    assert (stream + more)[header.size..total] == stream[header.size..total];
  }

  /** A stream that goes on is framed by going on from what was still arriving. */
  lemma {:induction false} FrameConcat(stream: seq<byte>, more: seq<byte>)
    requires !Frame(stream).broken
    ensures var f, g := Frame(stream), Frame(Frame(stream).rest + more);
            Frame(stream + more) == g.(packets := f.packets + g.packets)
    decreases |stream|
  {
    hide MqttCodec.HeaderAt;
    hide Frame;
    FrameStep(stream);
    if Whole(stream) {
      hide Whole;
      var (first, tail) := First(stream);
      FirstStable(stream, more);
      FrameStep(stream + more);
      FrameConcat(tail, more);
      var g := Frame(Frame(tail).rest + more);
      assert [first] + (Frame(tail).packets + g.packets) == ([first] + Frame(tail).packets) + g.packets;
    } else {
      var g := Frame(stream + more);
      assert [] + g.packets == g.packets;
    }
  }

  // ---- the same, through the buffer ------------------------------------------------------

  datatype Drained = Drained(packets: seq<Packet>, rest: seq<byte>, skip: nat, broken: bool)

  /** What one pass over a buffer hands out and leaves behind, skipping what would not fit. */
  function Drain(buffer: seq<byte>, skip: nat): (d: Drained)
    ensures |d.rest| <= |buffer|
    decreases |buffer|
  {
    if skip > 0 then
      if |buffer| < skip then Drained([], [], skip - |buffer|, false) else Drain(buffer[skip..], 0)
    else
      match HeaderAt(buffer)
      case NoHeaderYet => Drained([], buffer, 0, false)
      case BadHeader => Drained([], buffer, 0, true)
      case GotHeader(header) =>
        var total := header.size + header.remaining;
        if !Fits(header) then Drain(buffer[header.size..], header.remaining)
        else if |buffer| < total then Drained([], buffer, 0, false)
        else
          var next := Drain(buffer[total..], 0);
          next.(packets := [Packet(header, buffer[header.size..total])] + next.packets)
  }

  /** The buffer and skip count are where a reader of `seen` should be. */
  predicate InStep(seen: seq<byte>, buffer: seq<byte>, skip: nat) {
    var f := Frame(seen);
    && !f.broken
    && if skip == 0 then f.rest == buffer && |buffer| < IN_MAX
       else
         var read := HeaderAt(f.rest);
         && buffer == [] && read.GotHeader? && !Fits(read.header)
         && |f.rest| + skip == read.header.size + read.header.remaining
  }

  /** From the start of a packet: what is drained is what fits of what is framed. */
  lemma {:induction false} DrainFrames(buffer: seq<byte>)
    ensures var d, f := Drain(buffer, 0), Frame(buffer);
            && d.broken == f.broken && d.packets == Fitting(f.packets)
            && (!d.broken ==> InStep(buffer, d.rest, d.skip))
    decreases |buffer|
  {
    hide MqttCodec.HeaderAt;
    hide Frame;
    FrameStep(buffer);
    if Whole(buffer) {
      var (first, rest) := First(buffer);
      DrainFrames(rest);
      DrainFirst(buffer);
      FittingConcat([first], Frame(rest).packets);
    }
  }

  lemma DrainFirst(buffer: seq<byte>)
    requires Whole(buffer)
    ensures var (first, rest) := First(buffer);
            var d := Drain(rest, 0);
            Drain(buffer, 0) == d.(packets := Fitting([first]) + d.packets)
  {
    hide MqttCodec.HeaderAt;
    var header := HeaderAt(buffer).header;
    var (first, rest) := First(buffer);
    assert Fitting([first]) == if Fits(header) then [first] else [];
    if !Fits(header) {
      var body := buffer[header.size..];
      assert body[header.remaining..] == rest;
      assert Drain(body, header.remaining) == Drain(rest, 0);
      assert [] + Drain(rest, 0).packets == Drain(rest, 0).packets;
    }
  }

  /** More bytes, from wherever the reader is: in the middle of a skipped packet too. */
  lemma DrainMore(seen: seq<byte>, buffer: seq<byte>, skip: nat, more: seq<byte>)
    requires InStep(seen, buffer, skip)
    ensures var d, f := Drain(buffer + more, skip), Frame(seen + more);
            && d.broken == f.broken
            && Fitting(f.packets) == Fitting(Frame(seen).packets) + d.packets
            && (!d.broken ==> InStep(seen + more, d.rest, d.skip))
  {
    hide MqttCodec.HeaderAt;
    var f := Frame(seen);
    FrameConcat(seen, more);
    FittingConcat(f.packets, Frame(f.rest + more).packets);
    if skip == 0 {
      DrainFrames(buffer + more);
    } else {
      SkipMore(f.rest, skip, more);
      assert buffer + more == more;
    }
  }

  lemma SkipMore(rest: seq<byte>, skip: nat, more: seq<byte>)
    requires skip > 0 && HeaderAt(rest).GotHeader? && !Fits(HeaderAt(rest).header)
    requires |rest| + skip == HeaderAt(rest).header.size + HeaderAt(rest).header.remaining
    ensures var d, f := Drain(more, skip), Frame(rest + more);
            && d.broken == f.broken && d.packets == Fitting(f.packets)
            && (!d.broken ==> InStep(rest + more, d.rest, d.skip))
  {
    hide MqttCodec.HeaderAt;
    FrameStep(rest + more);
    HeaderStable(rest, more);
    if |more| >= skip {
      DrainFrames(more[skip..]);
      assert (rest + more)[|rest| + skip..] == more[skip..];
    }
  }

  // ---- the reader ------------------------------------------------------------------------

  /** How many of `n` packets are handed over before a handler gives the connection up. */
  function HandedOut(verdicts: seq<bool>, n: nat): (k: nat)
    ensures k <= n
    ensures forall i :: 0 <= i < k - 1 ==> i < |verdicts| ==> verdicts[i]
    ensures k < n ==> k > 0 && k <= |verdicts| && !verdicts[k - 1]
  {
    if n == 0 then 0
    else if verdicts == [] then n
    else if !verdicts[0] then 1
    else 1 + HandedOut(verdicts[1..], n - 1)
  }

  /** Whether a connection outlives what it drained: it was MQTT, and no handler refused any of it. */
  predicate Survives(d: Drained, verdicts: seq<bool>) {
    var k := HandedOut(verdicts, |d.packets|);
    !d.broken && k == |d.packets| && (k == 0 || k > |verdicts| || verdicts[k - 1])
  }

  class Reader {
    const buffer: array<byte>
    var len: nat
    var skip: nat
    /** Every packet given to a handler on this connection, oldest first. */
    var handed: seq<Packet>

    ghost predicate Valid()
      reads this
    {
      buffer.Length == IN_MAX && len <= IN_MAX
    }

    ghost function Held(): seq<byte>
      requires Valid()
      reads this, buffer
    {
      buffer[..len]
    }

    constructor ()
      ensures Valid() && fresh(buffer) && Held() == [] && skip == 0 && handed == []
    {
      buffer := new byte[IN_MAX](_ => 0);
      len, skip, handed := 0, 0, [];
    }

    /** Closing the connection empties the buffer. */
    method Reset()
      requires Valid()
      modifies this`len, this`skip
      ensures Valid() && Held() == [] && skip == 0
    {
      len, skip := 0, 0;
    }

    /** Bytes read off the connection, behind what is already held. */
    method Take(data: seq<byte>)
      requires Valid() && len + |data| <= IN_MAX
      modifies this`len, buffer
      ensures Valid() && Held() == old(Held()) + data
    {
      forall i | 0 <= i < |data| {
        buffer[len + i] := data[i];
      }
      len := len + |data|;
    }

    /** Moves what is left at `at` to the front of the buffer. */
    method Compact(at: nat)
      requires Valid() && at <= len
      modifies this`len, buffer
      ensures Valid() && Held() == old(buffer[at..len])
    {
      len := len - at;
      forall i | 0 <= i < len {
        buffer[i] := buffer[at + i];
      }
    }

    /** What stands at `at`, when nothing is being skipped: the decision one turn of the loop makes. */
    method Peek(at: nat) returns (turn: Turn)
      requires Valid() && at <= len
      ensures turn == TurnAt(Held()[at..])
    {
      hide MqttCodec.HeaderAt;
      assert Held()[at..] == buffer[at..len];
      var read := DecodeHeader(buffer[at..len]);
      if read.NoHeaderYet? {
        return Wait;
      }
      if read.BadHeader? {
        return Garbage;
      }
      var header := read.header;
      if header.remaining > IN_MAX - header.size {
        return Oversized(header);
      }
      if len - at < header.size + header.remaining {
        return Wait;
      }
      return Got(Packet(header, buffer[at..len][header.size..header.size + header.remaining]));
    }

    /**
     Hands over every complete packet held, as `Drain` says. The i-th is answered by
     `verdicts[i]`; a false answer, or bytes that are not MQTT, end the connection.
     */
    method Consume(verdicts: seq<bool>) returns (alive: bool)
      requires Valid()
      modifies this`len, this`skip, this`handed, buffer
      ensures Valid()
      ensures var d := Drain(old(Held()), old(skip));
              var k := HandedOut(verdicts, |d.packets|);
              && handed == old(handed) + d.packets[..k]
              && alive == Survives(d, verdicts)
              && (if alive then Held() == d.rest && skip == d.skip else Held() == [] && skip == 0)
    {
      hide TurnAt;
      hide Drain;
      hide HandedOut;
      hide Survives;
      ghost var all, d := Held(), Drain(Held(), skip);
      ghost var done: seq<Packet> := [];
      var at, count := 0, 0;
      assert all[at..] == all;
      while true
        invariant Valid() && at <= len && Held() == all
        invariant count == |done| && handed == old(handed) + done
        invariant forall i :: 0 <= i < count && i < |verdicts| ==> verdicts[i]
        invariant Follows(d, done, all[at..], skip)
        decreases len - at, skip
      {
        if skip > 0 {
          var chunk := Min(len - at, skip);
          FollowsSkip(d, done, all, at, skip, chunk);
          at, skip := at + chunk, skip - chunk;
          if skip > 0 {
            break;
          }
          continue;
        }
        var turn := Peek(at);
        FollowsTurn(d, done, all, at);
        match turn
        case Wait =>
          break;
        case Garbage =>
          NoneRefused(d, verdicts);
          Reset();
          assert d.packets[..count] == done;
          return false;
        case Oversized(header) =>
          at, skip := at + header.size, header.remaining;
        case Got(packet) =>
          handed := handed + [packet];
          done := done + [packet];
          if count < |verdicts| && !verdicts[count] {
            OneRefused(d, verdicts, count);
            Reset();
            return false;
          }
          count, at := count + 1, at + packet.header.size + packet.header.remaining;
      }
      NoneRefused(d, verdicts);
      assert d.packets[..count] == done;
      Compact(at);
      return true;
    }

    /** One read of `data`, on a connection that has brought `seen` so far. */
    method Receive(data: seq<byte>, verdicts: seq<bool>, ghost seen: seq<byte>) returns (alive: bool)
      requires Valid() && InStep(seen, Held(), skip) && len + |data| <= IN_MAX
      requires handed == Fitting(Frame(seen).packets)
      modifies this`len, this`skip, this`handed, buffer
      ensures Valid() && handed <= Fitting(Frame(seen + data).packets)
      ensures alive ==>
        InStep(seen + data, Held(), skip) && handed == Fitting(Frame(seen + data).packets)
      ensures !alive && (forall j :: 0 <= j < |verdicts| ==> verdicts[j]) ==>
        Frame(seen + data).broken && handed == Fitting(Frame(seen + data).packets)
      ensures var d := Drain(old(Held()) + data, old(skip));
              && handed == old(handed) + d.packets[..HandedOut(verdicts, |d.packets|)]
              && alive == Survives(d, verdicts)
              && (if alive then Held() == d.rest && skip == d.skip else Held() == [] && skip == 0)
    {
      hide InStep;
      hide Frame;
      hide Drain;
      hide Fitting;
      hide HandedOut;
      DrainMore(seen, Held(), skip, data);
      ghost var d := Drain(Held() + data, skip);
      Take(data);
      alive := Consume(verdicts);
      if forall j :: 0 <= j < |verdicts| ==> verdicts[j] {
        AllHanded(verdicts, |d.packets|);
      }
      assert d.packets[..|d.packets|] == d.packets;
    }
  }

  /** A connection after some reads: how much of the stream they took, and what has become of it. */
  datatype Hearing = Hearing(seen: nat, held: seq<byte>, skip: nat, handed: seq<Packet>, alive: bool)

  /** A read takes what is there, what was asked for or what there is room for, whichever is least. */
  function ReadSize(h: Hearing, stream: seq<byte>, size: nat): (n: nat)
    requires h.seen <= |stream| && |h.held| <= IN_MAX
    ensures h.seen + n <= |stream| && |h.held| + n <= IN_MAX
  {
    Min(size, Min(IN_MAX - |h.held|, |stream| - h.seen))
  }

  /** One more read, if there is still a connection to read. */
  function Hear(h: Hearing, stream: seq<byte>, size: nat, verdicts: seq<bool>): (r: Hearing)
    requires h.seen <= |stream| && |h.held| <= IN_MAX
    ensures r.seen <= |stream| && |r.held| <= IN_MAX
  {
    if !h.alive then h
    else
      var n := ReadSize(h, stream, size);
      var d := Drain(h.held + stream[h.seen..h.seen + n], h.skip);
      var handed := h.handed + d.packets[..HandedOut(verdicts, |d.packets|)];
      if Survives(d, verdicts) then Hearing(h.seen + n, d.rest, d.skip, handed, true)
      else Hearing(h.seen + n, [], 0, handed, false)
  }

  /** The connection after the first `i` reads. */
  function Heard(stream: seq<byte>, sizes: seq<nat>, answers: seq<seq<bool>>, i: nat): (h: Hearing)
    requires i <= |sizes| == |answers|
    ensures h.seen <= |stream| && |h.held| <= IN_MAX
  {
    if i == 0 then Hearing(0, [], 0, [], true)
    else Hear(Heard(stream, sizes, answers, i - 1), stream, sizes[i - 1], answers[i - 1])
  }

  lemma {:induction false} DeadStays(stream: seq<byte>, sizes: seq<nat>, answers: seq<seq<bool>>, i: nat, j: nat)
    requires i <= j <= |sizes| == |answers| && !Heard(stream, sizes, answers, i).alive
    ensures Heard(stream, sizes, answers, j) == Heard(stream, sizes, answers, i)
    decreases j
  {
    if i < j {
      DeadStays(stream, sizes, answers, i, j - 1);
    }
  }

  lemma HearInStep(h: Hearing, stream: seq<byte>, size: nat, verdicts: seq<bool>)
    requires h.seen <= |stream| && |h.held| <= IN_MAX && h.alive && InStep(stream[..h.seen], h.held, h.skip)
    ensures var r := Hear(h, stream, size, verdicts);
            && (r.alive ==> InStep(stream[..r.seen], r.held, r.skip))
            && (size > 0 && h.seen < |stream| ==> r.seen > h.seen)
  {
    hide InStep;
    hide Drain;
    hide Frame;
    hide Fitting;
    hide HandedOut;
    hide MqttCodec.HeaderAt;
    InStepShort(stream[..h.seen], h.held, h.skip);
    var n := ReadSize(h, stream, size);
    var more := stream[h.seen..h.seen + n];
    assert stream[..h.seen + n] == stream[..h.seen] + more;
    DrainMore(stream[..h.seen], h.held, h.skip, more);
  }

  /** A connection that survives reads on: each read that asks for something gets at least a byte. */
  lemma {:induction false} ReadsOn(stream: seq<byte>, sizes: seq<nat>, answers: seq<seq<bool>>, i: nat)
    requires i <= |sizes| == |answers| && forall k :: 0 <= k < i ==> sizes[k] > 0
    requires Heard(stream, sizes, answers, i).alive
    ensures var h := Heard(stream, sizes, answers, i);
            InStep(stream[..h.seen], h.held, h.skip) && h.seen >= Min(i, |stream|)
    decreases i
  {
    hide InStep;
    hide Hear;
    if i == 0 {
      assert stream[..0] == [];
      EmptyFrame();
    } else {
      var h := Heard(stream, sizes, answers, i - 1);
      Quickens(h, stream, sizes[i - 1], answers[i - 1]);
      ReadsOn(stream, sizes, answers, i - 1);
      HearInStep(h, stream, sizes[i - 1], answers[i - 1]);
    }
  }

  lemma Quickens(h: Hearing, stream: seq<byte>, size: nat, verdicts: seq<bool>)
    requires h.seen <= |stream| && |h.held| <= IN_MAX
    ensures var r := Hear(h, stream, size, verdicts); (r.alive ==> h.alive) && h.seen <= r.seen
  {
    hide Drain;
  }

  /**
   Framing through any reads. Whatever the broker sends and however the reads cut it up, the reader
   is where the reads put it; the packets handed over are those of the stream's own framing that fit
   the buffer, in order, all of them unless a handler ended the connection; and a surviving reader
   always has room to read.
   */
  method Session(stream: seq<byte>, sizes: seq<nat>, answers: seq<seq<bool>>)
    returns (reader: Reader, seen: nat, alive: bool)
    requires |answers| == |sizes|
    ensures reader.Valid() && seen <= |stream|
    ensures Now(reader, seen, alive) == Heard(stream, sizes, answers, |sizes|)
    ensures reader.handed <= Fitting(Frame(stream[..seen]).packets)
    ensures alive ==>
      && !Frame(stream[..seen]).broken
      && reader.handed == Fitting(Frame(stream[..seen]).packets)
      && InStep(stream[..seen], reader.Held(), reader.skip)
      && |reader.Held()| < IN_MAX
    ensures !alive && (forall i, j :: 0 <= i < |answers| && 0 <= j < |answers[i]| ==> answers[i][j]) ==>
      Frame(stream[..seen]).broken && reader.handed == Fitting(Frame(stream[..seen]).packets)
    ensures alive && |sizes| >= |stream| && (forall i :: 0 <= i < |sizes| ==> sizes[i] > 0) ==> seen == |stream|
  {
    hide InStep;
    hide Frame;
    hide Fitting;
    hide Hear;
    reader := new Reader();
    seen, alive := 0, true;
    assert stream[..seen] == [];
    EmptyFrame();
    for i := 0 to |sizes|
      invariant alive && reader.Valid() && fresh(reader) && fresh(reader.buffer) && seen <= |stream|
      invariant InStep(stream[..seen], reader.Held(), reader.skip)
      invariant reader.handed == Fitting(Frame(stream[..seen]).packets)
      invariant Now(reader, seen, true) == Heard(stream, sizes, answers, i)
    {
      seen, alive := ReadOnce(reader, stream, seen, sizes[i], answers[i]);
      if !alive {
        DeadStays(stream, sizes, answers, i + 1, |sizes|);
        return;
      }
    }
    InStepShort(stream[..seen], reader.Held(), reader.skip);
    if forall i :: 0 <= i < |sizes| ==> sizes[i] > 0 {
      ReadsOn(stream, sizes, answers, |sizes|);
    }
  }

  ghost function Now(reader: Reader, seen: nat, alive: bool): Hearing
    requires reader.Valid()
    reads reader, reader.buffer
  {
    Hearing(seen, reader.Held(), reader.skip, reader.handed, alive)
  }

  /** One read of a connection that has brought `seen` bytes of the stream. */
  method ReadOnce(reader: Reader, stream: seq<byte>, seen: nat, size: nat, verdicts: seq<bool>)
    returns (more: nat, alive: bool)
    requires reader.Valid() && seen <= |stream| && InStep(stream[..seen], reader.Held(), reader.skip)
    requires reader.handed == Fitting(Frame(stream[..seen]).packets)
    modifies reader, reader.buffer
    ensures reader.Valid() && more <= |stream|
    ensures Now(reader, more, alive) == Hear(old(Now(reader, seen, true)), stream, size, verdicts)
    ensures reader.handed <= Fitting(Frame(stream[..more]).packets)
    ensures alive ==>
      InStep(stream[..more], reader.Held(), reader.skip) && reader.handed == Fitting(Frame(stream[..more]).packets)
    ensures !alive && (forall j :: 0 <= j < |verdicts| ==> verdicts[j]) ==>
      Frame(stream[..more]).broken && reader.handed == Fitting(Frame(stream[..more]).packets)
  {
    hide InStep;
    hide Frame;
    hide Fitting;
    hide Drain;
    hide HandedOut;
    hide Survives;
    var n := Min(size, Min(IN_MAX - reader.len, |stream| - seen));
    var data := stream[seen..seen + n];
    assert stream[..seen + n] == stream[..seen] + data;
    alive := reader.Receive(data, verdicts, stream[..seen]);
    more := seen + n;
  }

  lemma EmptyFrame()
    ensures Frame([]) == Framing([], [], false) && Fitting([]) == [] && InStep([], [], 0)
  {
  }

  lemma InStepShort(seen: seq<byte>, buffer: seq<byte>, skip: nat)
    requires InStep(seen, buffer, skip)
    ensures |buffer| < IN_MAX && !Frame(seen).broken
  {
    hide Frame;
    hide MqttCodec.HeaderAt;
  }

  /** What a turn of the loop finds at the front of the bytes, when it is not skipping. */
  datatype Turn = Wait | Garbage | Oversized(header: Header) | Got(packet: Packet)

  function TurnAt(bytes: seq<byte>): (turn: Turn)
    ensures turn.Oversized? ==> 0 < turn.header.size <= |bytes| && turn.header.remaining > 0
    ensures turn.Got? ==>
      0 < turn.packet.header.size && turn.packet.header.size + turn.packet.header.remaining <= |bytes|
  {
    match HeaderAt(bytes)
    case NoHeaderYet => Wait
    case BadHeader => Garbage
    case GotHeader(header) =>
      var total := header.size + header.remaining;
      if !Fits(header) then Oversized(header)
      else if |bytes| < total then Wait
      else Got(Packet(header, bytes[header.size..total]))
  }

  /** `done` has been handed over and `left` is still to be drained, of a whole that drains to `d`. */
  ghost predicate Follows(d: Drained, done: seq<Packet>, left: seq<byte>, skip: nat) {
    d == Drain(left, skip).(packets := done + Drain(left, skip).packets)
  }

  lemma FollowsSkip(d: Drained, done: seq<Packet>, all: seq<byte>, at: nat, skip: nat, chunk: nat)
    requires at <= |all| && skip > 0 && chunk == Min(|all| - at, skip)
    requires Follows(d, done, all[at..], skip)
    ensures chunk < skip ==> d == Drained(done, [], skip - chunk, false) && at + chunk == |all|
    ensures chunk == skip ==> Follows(d, done, all[at + chunk..], 0)
  {
    assert all[at..][chunk..] == all[at + chunk..];
    assert chunk < skip ==> Drain(all[at..], skip) == Drained([], [], skip - chunk, false);
    assert done + [] == done;
  }

  lemma FollowsTurn(d: Drained, done: seq<Packet>, all: seq<byte>, at: nat)
    requires at <= |all| && Follows(d, done, all[at..], 0)
    ensures match TurnAt(all[at..])
            case Wait => d == Drained(done, all[at..], 0, false)
            case Garbage => d == Drained(done, all[at..], 0, true)
            case Oversized(header) => Follows(d, done, all[at + header.size..], header.remaining)
            case Got(packet) =>
              && Follows(d, done + [packet], all[at + packet.header.size + packet.header.remaining..], 0)
              && |done| < |d.packets| && d.packets[..|done| + 1] == done + [packet]
  {
    hide MqttCodec.HeaderAt;
    var left := all[at..];
    assert done + [] == done;
    match TurnAt(left)
    case Wait =>
    case Garbage =>
    case Oversized(header) =>
      assert left[header.size..] == all[at + header.size..];
    case Got(packet) =>
      var total := packet.header.size + packet.header.remaining;
      assert left[total..] == all[at + total..];
      var rest := Drain(left[total..], 0).packets;
      assert done + ([packet] + rest) == (done + [packet]) + rest;
  }

  lemma {:induction false} AllHanded(verdicts: seq<bool>, n: nat)
    requires forall i :: 0 <= i < n && i < |verdicts| ==> verdicts[i]
    ensures HandedOut(verdicts, n) == n
    decreases n
  {
    if n > 0 && verdicts != [] {
      AllHanded(verdicts[1..], n - 1);
    }
  }

  lemma NoneRefused(d: Drained, verdicts: seq<bool>)
    requires forall i :: 0 <= i < |d.packets| && i < |verdicts| ==> verdicts[i]
    ensures HandedOut(verdicts, |d.packets|) == |d.packets| && Survives(d, verdicts) == !d.broken
  {
    AllHanded(verdicts, |d.packets|);
  }

  lemma OneRefused(d: Drained, verdicts: seq<bool>, i: nat)
    requires i < |d.packets| && i < |verdicts| && !verdicts[i]
    requires forall j :: 0 <= j < i ==> verdicts[j]
    ensures HandedOut(verdicts, |d.packets|) == i + 1 && !Survives(d, verdicts)
  {
    FirstRefusal(verdicts, i, |d.packets|);
  }

  lemma {:induction false} FirstRefusal(verdicts: seq<bool>, i: nat, n: nat)
    requires i < n && i < |verdicts| && !verdicts[i]
    requires forall j :: 0 <= j < i ==> verdicts[j]
    ensures HandedOut(verdicts, n) == i + 1
    decreases i
  {
    if i > 0 {
      FirstRefusal(verdicts[1..], i - 1, n - 1);
    }
  }
}
