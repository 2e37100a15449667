/**
 The write queue of an MQTT connection: whole packets in, whatever the socket or the TLS session
 will take out, and a blocked write repeated exactly.
 */
module MqttOutbound {
  import opened Base

  const OUT_MAX: nat := 4096

  /** What the transport answers: some bytes taken, none for now, or the connection is gone. */
  datatype Answer = Took(n: nat) | Blocked | Broke

  /** One call to the transport: where in the buffer, what bytes, and whether it could not finish. */
  datatype Call = Call(at: nat, data: seq<byte>, blocked: bool)

  datatype Queued = Accepted | NoSpace | Lost

  /** After a call that could not finish, the next has the same position, length and bytes. */
  predicate RetriesVerbatim(calls: seq<Call>) {
    forall i :: 0 < i < |calls| && calls[i - 1].blocked ==>
      calls[i].at == calls[i - 1].at && calls[i].data == calls[i - 1].data
  }

  lemma RetriesGrow(calls: seq<Call>, call: Call)
    requires RetriesVerbatim(calls)
    requires calls != [] && calls[|calls| - 1].blocked ==>
      call.at == calls[|calls| - 1].at && call.data == calls[|calls| - 1].data
    ensures RetriesVerbatim(calls + [call])
  {
  }

  /** What a flush comes to: how many bytes went out, how many the next write must repeat, whether it broke. */
  datatype Push = Push(count: nat, pending: nat, broke: bool)

  /** The next write offers what must be repeated, or all there is. */
  function Chunk(unsent: nat, pending: nat): nat {
    if pending > 0 then pending else unsent
  }

  /** The flush from the `i`-th answer on; past the last the transport blocks. */
  function Pushed(unsent: nat, pending: nat, answers: seq<Answer>, i: nat): (p: Push)
    requires pending <= unsent && i <= |answers|
    ensures p.count <= unsent && p.pending <= unsent - p.count
    decreases |answers| - i
  {
    if unsent == 0 then Push(0, 0, false)
    else if i == |answers| || answers[i].Blocked? then Push(0, Chunk(unsent, pending), false)
    else if answers[i].Broke? then Push(0, pending, true)
    else
      var taken := Min(answers[i].n, Chunk(unsent, pending));
      var rest := Pushed(unsent - taken, 0, answers, i + 1);
      rest.(count := taken + rest.count)
  }

  lemma PushedTurn(unsent: nat, pending: nat, answers: seq<Answer>, i: nat)
    requires 0 < unsent && pending <= unsent && i <= |answers|
    ensures var p := Pushed(unsent, pending, answers, i);
            match (if i < |answers| then answers[i] else Blocked)
            case Blocked => p == Push(0, Chunk(unsent, pending), false)
            case Broke => p == Push(0, pending, true)
            case Took(n) =>
              var taken := Min(n, Chunk(unsent, pending));
              var rest := Pushed(unsent - taken, 0, answers, i + 1);
              p == rest.(count := taken + rest.count)
  {
  }

  /** A flush that breaks has not sent everything. */
  lemma {:induction false} PushedWhole(unsent: nat, pending: nat, answers: seq<Answer>, i: nat)
    requires pending <= unsent && i <= |answers|
    ensures Pushed(unsent, pending, answers, i).broke ==> Pushed(unsent, pending, answers, i).count < unsent
    decreases |answers| - i
  {
    if unsent > 0 && i < |answers| && answers[i].Took? {
      PushedWhole(unsent - Min(answers[i].n, Chunk(unsent, pending)), 0, answers, i + 1);
    }
  }

  lemma PushedNothing(answers: seq<Answer>, i: nat)
    requires i <= |answers|
    ensures Pushed(0, 0, answers, i) == Push(0, 0, false)
  {
  }

  lemma BytesMove(wire: seq<byte>, out: seq<byte>, sent: nat, len: nat, taken: nat)
    requires sent + taken <= len <= |out|
    ensures (wire + out[sent..sent + taken]) + out[sent + taken..len] == wire + out[sent..len]
  {
    assert out[sent..len] == out[sent..sent + taken] + out[sent + taken..len];
  }

  /** Where the queue stands in its buffer. */
  datatype Box = Box(len: nat, sent: nat, pending: nat)

  predicate Proper(b: Box) {
    b.sent <= b.len <= OUT_MAX && b.pending <= b.len - b.sent
  }

  /** Moved to the front, unless a write has to be repeated from where it is. */
  function Compacted(b: Box): (r: Box)
    requires Proper(b)
    ensures Proper(r)
  {
    if b.pending > 0 then b else Box(b.len - b.sent, 0, 0)
  }

  /** After a flush; a queue that has all gone starts over. */
  function Flushed(b: Box, answers: seq<Answer>): (r: Box)
    requires Proper(b)
    ensures Proper(r)
  {
    var p := Pushed(b.len - b.sent, b.pending, answers, 0);
    if p.count == b.len - b.sent && !p.broke then Box(0, 0, 0) else Box(b.len, b.sent + p.count, p.pending)
  }

  function Breaks(b: Box, answers: seq<Answer>): bool
    requires Proper(b)
  {
    Pushed(b.len - b.sent, b.pending, answers, 0).broke
  }

  /** Where there is room for `n` more bytes, if there is. */
  function Room(b: Box, n: nat): (r: Box)
    requires Proper(b)
    ensures Proper(r)
  {
    if b.len + n > OUT_MAX then Compacted(b) else b
  }

  class Writer {
    const out: array<byte>
    var len: nat
    var sent: nat
    var pending: nat

    /** The packets accepted on this connection, end to end; the bytes the transport took; its calls. */
    ghost var accepted: seq<byte>
    ghost var wire: seq<byte>
    ghost var calls: seq<Call>

    ghost predicate Valid()
      reads this, out
    {
      && out.Length == OUT_MAX && sent <= len <= OUT_MAX && pending <= len - sent
      && wire + out[sent..len] == accepted
      && RetriesVerbatim(calls)
      && (calls != [] && calls[|calls| - 1].blocked ==>
            pending > 0 && calls[|calls| - 1] == Call(sent, out[sent..sent + pending], true))
    }

    ghost function Unsent(): seq<byte>
      requires sent <= len <= out.Length
      reads this, out
    {
      out[sent..len]
    }

    /** Whether a packet of `n` bytes can be taken: with the unsent bytes moved up, if they may move. */
    ghost predicate HasRoom(n: nat)
      reads this
    {
      len + n <= OUT_MAX || (pending == 0 && len - sent + n <= OUT_MAX)
    }

    ghost function Where(): Box
      reads this`len, this`sent, this`pending
    {
      Box(len, sent, pending)
    }

    constructor ()
      ensures Where() == Box(0, 0, 0)
      ensures Valid() && fresh(out) && Unsent() == [] && accepted == [] && wire == [] && calls == []
    {
      out := new byte[OUT_MAX](_ => 0);
      len, sent, pending := 0, 0, 0;
      accepted, wire, calls := [], [], [];
    }

    /** Makes room behind what is unsent by moving it up, which a write to be repeated forbids. */
    method CompactOut()
      requires Valid()
      modifies this`len, this`sent, out
      ensures Valid() && Unsent() == old(Unsent())
      ensures Where() == Compacted(old(Where()))
    {
      hide RetriesVerbatim;
      if sent == 0 || pending > 0 {
        return;
      }
      var left := len - sent;
      ghost var unsent := out[sent..len];
      forall i | 0 <= i < left {
        out[i] := out[sent + i];
      }
      len, sent := left, 0;
      assert out[..left] == unsent;
    }

    /**
     One call to the transport. False when the loop is to stop. What went out is the next bytes of
     those accepted, since `Valid` keeps sent and unsent together equal to them.
     */
    method Write(answer: Answer) returns (more: bool, broke: bool)
      requires Valid() && sent < len
      modifies this`sent, this`pending, this`wire, this`calls
      ensures Valid() && old(wire) <= wire
      ensures var chunk := Chunk(old(len - sent), old(pending));
              calls == old(calls) + [Call(old(sent), out[old(sent)..old(sent) + chunk], answer.Blocked?)]
      ensures broke <==> answer.Broke?
      ensures more <==> answer.Took?
      ensures var chunk := Chunk(old(len - sent), old(pending));
              && sent == old(sent) + (if answer.Took? then Min(answer.n, chunk) else 0)
              && |wire| - |old(wire)| == sent - old(sent)
              && pending == if answer.Blocked? then chunk else if answer.Took? then 0 else old(pending)
    {
      hide RetriesVerbatim;
      var chunk := Chunk(len - sent, pending);
      Note(chunk, answer.Blocked?);
      match answer
      case Blocked =>
        pending := chunk;
        return false, false;
      case Broke =>
        return false, true;
      case Took(n) =>
        Shift(Min(n, chunk));
        return true, false;
    }

    /** The transport took `taken` bytes. */
    method Shift(taken: nat)
      requires out.Length == OUT_MAX && sent + taken <= len <= OUT_MAX && wire + out[sent..len] == accepted
      modifies this`sent, this`pending, this`wire
      ensures sent == old(sent) + taken && pending == 0 && wire + out[sent..len] == accepted
      ensures old(wire) <= wire && |wire| == |old(wire)| + taken
    {
      BytesMove(wire, out[..], sent, len, taken);
      wire := wire + out[sent..sent + taken];
      pending := 0;
      sent := sent + taken;
    }

    /** Records a call that is about to be made. */
    ghost method Note(chunk: nat, blocked: bool)
      requires Valid() && sent < len && chunk == Chunk(len - sent, pending)
      modifies this`calls
      ensures calls == old(calls) + [Call(sent, out[sent..sent + chunk], blocked)] && RetriesVerbatim(calls)
    {
      hide RetriesVerbatim;
      var call := Call(sent, out[sent..sent + chunk], blocked);
      RetriesGrow(calls, call);
      calls := calls + [call];
    }

    /** Offers the queue to the transport again and again, until it is empty or an answer ends it. */
    method Offer(answers: seq<Answer>) returns (ok: bool)
      requires Valid()
      modifies this`sent, this`pending, this`wire, this`calls
      ensures Valid() && old(wire) <= wire && old(calls) <= calls
      ensures var p := Pushed(old(len - sent), old(pending), answers, 0);
              && |wire| == |old(wire)| + p.count && sent == old(sent) + p.count
              && ok == !p.broke && (sent < len ==> pending == p.pending)
    {
      hide RetriesVerbatim;
      hide Pushed;
      hide Chunk;
      var i := 0;
      ghost var start := sent;
      while sent < len
        invariant Valid() && 0 <= i <= |answers| && start <= sent
        invariant old(wire) <= wire && old(calls) <= calls && |wire| - |old(wire)| == sent - start
        invariant var p, r := Pushed(len - start, old(pending), answers, 0), Pushed(len - sent, pending, answers, i);
                  p == r.(count := sent - start + r.count)
        decreases |answers| - i
      {
        var answer := if i < |answers| then answers[i] else Blocked;
        PushedTurn(len - sent, pending, answers, i);
        var more, broke := Write(answer);
        if broke {
          return false;
        }
        if !more {
          return true;
        }
        i := i + 1;
      }
      PushedNothing(answers, i);
      return true;
    }

    /** The queue offered; one that has all gone starts over at the front of the buffer. */
    method Flush(answers: seq<Answer>) returns (ok: bool)
      requires Valid()
      modifies this`len, this`sent, this`pending, this`wire, this`calls
      ensures Valid() && accepted == old(accepted)
      ensures old(wire) <= wire && old(calls) <= calls
      ensures var p := Pushed(old(len - sent), old(pending), answers, 0);
              && |wire| == |old(wire)| + p.count && ok == !p.broke
              && Where() == Flushed(old(Where()), answers)
    {
      hide RetriesVerbatim;
      hide Pushed;
      PushedWhole(len - sent, pending, answers, 0);
      ok := Offer(answers);
      if ok && sent >= len {
        assert out[sent..len] == [];
        len, sent, pending := 0, 0, 0;
        assert out[sent..len] == [];
      }
    }

    /** Appends a packet that fits. */
    method Append(data: seq<byte>)
      requires Valid() && len + |data| <= OUT_MAX
      modifies this`len, this`accepted, out
      ensures Valid() && len == old(len) + |data| && accepted == old(accepted) + data
    {
      hide RetriesVerbatim;
      ghost var unsent := out[sent..len];
      forall i | 0 <= i < |data| {
        out[len + i] := data[i];
      }
      len := len + |data|;
      accepted := accepted + data;
      assert out[sent..len] == unsent + data;
      assert out[sent..sent + pending] == unsent[..pending];
      assert wire + (unsent + data) == (wire + unsent) + data;
    }

    /** A whole packet, or none of it: refused for want of room, it leaves what is queued alone. */
    method Queue(data: seq<byte>, answers: seq<Answer>) returns (result: Queued)
      requires Valid()
      modifies this`len, this`sent, this`pending, this`accepted, this`wire, this`calls, out
      ensures Valid() && old(wire) <= wire && old(calls) <= calls
      ensures result == NoSpace <==> !old(HasRoom(|data|))
      ensures result == NoSpace ==>
        accepted == old(accepted) && wire == old(wire) && calls == old(calls) && Unsent() == old(Unsent())
      ensures result != NoSpace ==>
        var p := Pushed(old(len - sent) + |data|, old(pending), answers, 0);
        && accepted == old(accepted) + data && |wire| == |old(wire)| + p.count
        && result == if p.broke then Lost else Accepted
      ensures var b := Room(old(Where()), |data|);
              Where() == if result == NoSpace then b else Flushed(b.(len := b.len + |data|), answers)
    {
      hide RetriesVerbatim;
      hide Pushed;
      if len + |data| > OUT_MAX {
        CompactOut();
        assert |Unsent()| == |old(Unsent())|;
      }
      if len + |data| > OUT_MAX {
        return NoSpace;
      }
      Append(data);
      var ok := Flush(answers);
      return if ok then Accepted else Lost;
    }
  }

  /** What a caller asks of the queue: a packet, or a flush because the socket is writable. */
  datatype Event = Send(data: seq<byte>, answers: seq<Answer>) | Writable(again: seq<Answer>)

  /** The packets of `events` that were accepted, end to end. */
  function Taken(events: seq<Event>, accepted: seq<bool>): seq<byte>
    requires |events| == |accepted|
  {
    if events == [] then []
    else
      var n := |events| - 1;
      Taken(events[..n], accepted[..n]) + (if events[n].Send? && accepted[n] then events[n].data else [])
  }

  lemma NothingTaken(events: seq<Event>)
    ensures Taken(events[..0], []) == []
  {
  }

  lemma TakenGrows(events: seq<Event>, i: nat, accepted: seq<bool>, taken: bool)
    requires i < |events| && |accepted| == i
    ensures Taken(events[..i + 1], accepted + [taken])
            == Taken(events[..i], accepted) + if events[i].Send? && taken then events[i].data else []
  {
    assert events[..i + 1][..i] == events[..i];
    assert (accepted + [taken])[..i] == accepted;
  }

  /** A run so far: where the queue stands, which events' packets were accepted, whether the connection is gone. */
  datatype Tally = Tally(box: Box, accepted: seq<bool>, lost: bool)

  /** One event on a connection that is still there. */
  function Next(t: Tally, event: Event): (r: Tally)
    requires Proper(t.box)
    ensures Proper(r.box)
  {
    if t.lost then t
    else match event
      case Writable(answers) => Tally(Flushed(t.box, answers), t.accepted + [false], Breaks(t.box, answers))
      case Send(data, answers) =>
        var b := Room(t.box, |data|);
        if b.len + |data| > OUT_MAX then Tally(b, t.accepted + [false], false)
        else
          var full := b.(len := b.len + |data|);
          Tally(Flushed(full, answers), t.accepted + [true], Breaks(full, answers))
  }

  /** The run through the first `i` events. */
  function Ran(events: seq<Event>, i: nat): (t: Tally)
    requires i <= |events|
    ensures Proper(t.box) && |t.accepted| <= i && (!t.lost ==> |t.accepted| == i)
  {
    if i == 0 then Tally(Box(0, 0, 0), [], false) else Next(Ran(events, i - 1), events[i - 1])
  }

  lemma {:induction false} LostStays(events: seq<Event>, i: nat, j: nat)
    requires i <= j <= |events| && Ran(events, i).lost
    ensures Ran(events, j) == Ran(events, i)
    decreases j
  {
    if i < j {
      LostStays(events, i, j - 1);
    }
  }

  /** One event, whichever it is. */
  method Happen(writer: Writer, event: Event, ghost before: seq<bool>) returns (taken: bool, ok: bool)
    requires writer.Valid()
    modifies writer, writer.out
    ensures writer.Valid()
    ensures writer.accepted == old(writer.accepted) + if event.Send? && taken then event.data else []
    ensures Proper(old(writer.Where()))
    ensures Tally(writer.Where(), before + [taken], !ok) == Next(Tally(old(writer.Where()), before, false), event)
  {
    hide RetriesVerbatim;
    hide Pushed;
    match event
    case Send(data, answers) =>
      var result := writer.Queue(data, answers);
      return result != NoSpace, result != Lost;
    case Writable(answers) =>
      ok := writer.Flush(answers);
      return false, ok;
  }

  /**
   Outbound order. Through every run of sends and flushes, with any answers from the transport, the
   packets accepted are exactly those there was room for until the connection was lost; what went out
   followed by what is still held is exactly those packets, whole and in order; and every blocked
   write was repeated verbatim.
   */
  method Outbox(events: seq<Event>) returns (writer: Writer, accepted: seq<bool>, lost: bool)
    ensures writer.Valid() && |accepted| <= |events|
    ensures Tally(writer.Where(), accepted, lost) == Ran(events, |events|)
    ensures writer.wire + writer.Unsent() == Taken(events[..|accepted|], accepted)
    ensures RetriesVerbatim(writer.calls)
  {
    hide RetriesVerbatim;
    hide Taken;
    hide Next;
    writer := new Writer();
    accepted, lost := [], false;
    NothingTaken(events);
    for i := 0 to |events|
      invariant writer.Valid() && fresh(writer) && fresh(writer.out) && |accepted| == i
      invariant writer.accepted == Taken(events[..i], accepted)
      invariant Tally(writer.Where(), accepted, false) == Ran(events, i)
    {
      var taken, ok := Happen(writer, events[i], accepted);
      TakenGrows(events, i, accepted, taken);
      accepted := accepted + [taken];
      if !ok {
        LostStays(events, i + 1, |events|);
        return writer, accepted, true;
      }
    }
  }
}
