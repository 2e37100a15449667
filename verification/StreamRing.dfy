/**
 The send queue of a stream: a ring of slots in memory the caller lent, drained by writes that may
 take only part of a frame. It behaves as a queue of frames that is written in order.
 */
module StreamRing {
  import opened Base

  /** One write a caller asked for: its bytes, and its name for it - zero for "nothing to report". */
  datatype Frame = Frame(data: seq<byte>, id: nat)

  datatype Slot = Slot(length: nat, sent: nat, id: nat)

  datatype Answer = Took(n: nat) | Again | Interrupted | Broke

  datatype Result = Fine | NotOpen | NoSpace | TooBig | Failed | Busy

  // ---- frames ----------------------------------------------------------------------------

  function Bytes(frames: seq<Frame>): seq<byte> {
    if frames == [] then [] else Bytes(frames[..|frames| - 1]) + frames[|frames| - 1].data
  }

  /** The names, in order, of the frames somebody is waiting on. */
  function Names(frames: seq<Frame>): seq<nat> {
    if frames == [] then []
    else (if frames[0].id != 0 then [frames[0].id] else []) + Names(frames[1..])
  }

  lemma {:induction false} NamesConcat(a: seq<Frame>, b: seq<Frame>)
    ensures Names(a + b) == Names(a) + Names(b)
    decreases |a|
  {
    if a == [] {
      assert a + b == b;
    } else {
      assert (a + b)[0] == a[0] && (a + b)[1..] == a[1..] + b;
      NamesConcat(a[1..], b);
    }
  }

  lemma {:induction false} BytesPrefix(frames: seq<Frame>, n: nat)
    requires n <= |frames|
    ensures Bytes(frames[..n]) <= Bytes(frames)
    decreases |frames|
  {
    if n == |frames| {
      assert frames[..n] == frames;
    } else {
      var front := frames[..|frames| - 1];
      BytesPrefix(front, n);
      assert front[..n] == frames[..n];
    }
  }

  // ---- the ring --------------------------------------------------------------------------

  /** The slot `i` places after `head`, in a ring of `count`. */
  function Place(head: nat, i: nat, count: nat): (p: nat)
    requires head < count && i < count
    ensures p < count
  {
    if head + i < count then head + i else head + i - count
  }

  lemma PlaceIsMod(head: nat, i: nat, count: nat)
    requires head < count && i < count
    ensures (head + i) % count == Place(head, i, count)
  {
    if head + i < count {
      SmallMod(head + i, count);
    } else {
      WrapMod(head + i - count, count);
    }
  }

  lemma NextIsMod(head: nat, count: nat)
    requires head < count
    ensures (head + 1) % count == if head + 1 < count then head + 1 else 0
  {
    if head + 1 < count {
      SmallMod(head + 1, count);
    } else {
      WrapMod(0, count);
    }
  }

  lemma SmallMod(x: nat, n: nat)
    requires x < n
    ensures x % n == x
  {
  }

  lemma WrapMod(y: nat, n: nat)
    requires y < n
    ensures (n + y) % n == y
  {
    var q := (n + y) / n;
    assert n + y == n * q + (n + y) % n;
    assert q >= 2 ==> n * q >= n * 2;
  }

  /** How far slot `p` is behind `head`. */
  function Behind(head: nat, p: nat, count: nat): (i: nat)
    requires head < count && p < count
    ensures i < count && Place(head, i, count) == p
  {
    if p >= head then p - head else p + count - head
  }

  /** What a flush comes to: the frames done with, how much of the next is out, whether the write failed. */
  datatype Flow = Flow(done: nat, sent: nat, broke: bool)

  /** The flush of `frames` from the `k`-th on, `sent` bytes of it being out, given the answers from the `i`-th on. */
  function Flowed(frames: seq<Frame>, k: nat, sent: nat, answers: seq<Answer>, i: nat): Flow
    requires k <= |frames| && i <= |answers|
    decreases |answers| - i
  {
    if k == |frames| then Flow(k, 0, false)
    else if i == |answers| then Flow(k, sent, false)
    else match answers[i]
      case Again => Flow(k, sent, false)
      case Interrupted => Flowed(frames, k, sent, answers, i + 1)
      case Broke => Flow(k, sent, true)
      case Took(n) =>
        if sent + n < |frames[k].data| then Flow(k, sent + n, false) else Flowed(frames, k + 1, 0, answers, i + 1)
  }

  class Stream {
    const slots: array<Slot>
    const bytes: array2<byte>
    const slotBytes: nat
    var open: bool
    var watched: bool
    var wantWrite: bool
    var head: nat
    var queued: nat

    /** The frames accepted since the stream was opened, how many are wholly written, the bytes written. */
    ghost var accepted: seq<Frame>
    ghost var done: nat
    ghost var wire: seq<byte>
    /** The names reported as dropped, over the stream's life. */
    var dropped: seq<nat>
    ghost var closed: seq<Session>

    ghost predicate Shape()
      reads this`head, this`queued, this`accepted, this`done
    {
      && bytes.Length0 == slots.Length && bytes.Length1 == slotBytes
      && (slots.Length > 0 ==> head < slots.Length) && queued <= slots.Length
      && |accepted| == done + queued
    }

    /** Slot `p` holds `frame`. */
    ghost predicate Holds(p: nat, frame: Frame)
      requires bytes.Length0 == slots.Length && bytes.Length1 == slotBytes
      reads slots, bytes
    {
      && p < slots.Length && slots[p].length == |frame.data| <= slotBytes && slots[p].id == frame.id
      && slots[p].sent <= slots[p].length
      && forall k :: 0 <= k < |frame.data| ==> bytes[p, k] == frame.data[k]
    }

    ghost predicate Blank(p: nat)
      requires p < bytes.Length0
      reads bytes
    {
      forall k :: 0 <= k < bytes.Length1 ==> bytes[p, k] == 0
    }

    /** `n` bytes of slot memory. */
    ghost function Stored(p: nat, from: nat, n: nat): seq<byte>
      requires p < bytes.Length0 && from + n <= bytes.Length1
      reads bytes
    {
      seq(n, k requires 0 <= k < n reads bytes => bytes[p, from + k])
    }

    /** A slot holds its frame of the queue, or nothing at all. */
    ghost predicate SlotFine(p: nat)
      requires Shape() && p < slots.Length
      reads this`head, this`queued, this`accepted, this`done, slots, bytes
    {
      var i := Behind(head, p, slots.Length);
      if i < queued then Holds(p, accepted[done + i]) && (i > 0 ==> slots[p].sent == 0) else Blank(p)
    }

    ghost predicate Valid()
      reads this`head, this`queued, this`accepted, this`done, this`wire, this`open, this`closed, slots, bytes
    {
      && Shape()
      && (forall p :: 0 <= p < slots.Length ==> SlotFine(p))
      && wire == Bytes(accepted[..done]) + Started()
      && (!open ==> queued == 0 && accepted == [])
      && (forall i :: 0 <= i < |closed| ==> Settled(closed[i]))
    }

    /** What of the frame at the head of the queue is already out. */
    ghost function Started(): seq<byte>
      requires Shape()
      reads this`head, this`queued, this`accepted, this`done, slots
    {
      if queued == 0 then [] else accepted[done].data[..Min(slots[head].sent, |accepted[done].data|)]
    }

    /** How much of the frame at the head is out. */
    ghost function HeadSent(): nat
      reads this`head, this`queued, slots
    {
      if queued == 0 || head >= slots.Length then 0 else slots[head].sent
    }

    /** The queue this ring stands for. */
    ghost function Queue(): (q: Fifo)
      requires Shape()
      reads this, slots
      ensures Proper(q)
    {
      Fifo(open, accepted, done, HeadSent(), dropped, closed)
    }

    constructor (count: nat, size: nat)
      ensures Valid() && fresh(slots) && fresh(bytes) && Queue() == EMPTY
      ensures slots.Length == count && slotBytes == size
    {
      slots := new Slot[count](_ => Slot(0, 0, 0));
      bytes := new byte[count, size]((_, _) => 0);
      slotBytes := size;
      open, watched, wantWrite, head, queued := false, false, false, 0, 0;
      accepted, done, wire, dropped, closed := [], 0, [], [], [];
    }

    /** Keeps the loop's write event armed exactly while something is queued. */
    method UpdateWriteInterest(updated: bool)
      modifies this`wantWrite
      ensures wantWrite == if watched && updated then queued > 0 else old(wantWrite)
    {
      if !watched {
        return;
      }
      var want := queued > 0;
      if want != wantWrite && updated {
        wantWrite := want;
      }
    }

    method Wipe(p: nat)
      requires p < bytes.Length0
      modifies bytes
      ensures Blank(p)
      ensures forall q, k :: 0 <= q < bytes.Length0 && q != p && 0 <= k < bytes.Length1 ==>
        bytes[q, k] == old(bytes[q, k])
    {
      forall k | 0 <= k < bytes.Length1 {
        bytes[p, k] := 0;
      }
    }

    /** The frame at the head is out: its slot is zeroed and given back. */
    method Retire()
      requires Valid() && queued > 0 && slots[head].sent == slots[head].length
      modifies this`head, this`queued, this`done, bytes
      ensures Valid() && queued == old(queued) - 1 && done == old(done) + 1 && HeadSent() == 0
    {
      hide Bytes;
      hide Settled;
      ghost var count, was := slots.Length, head;
      assert SlotFine(head);
      assert Started() == accepted[done].data;
      BytesGrow(accepted, done);
      Wipe(head);
      NextIsMod(head, slots.Length);
      head := (head + 1) % slots.Length;
      queued := queued - 1;
      done := done + 1;
      forall p | 0 <= p < count ensures SlotFine(p) {
        if p != was {
          assert old(SlotFine(p));
        }
      }
      ghost var next := head;
      assert old(SlotFine(next));
      assert Started() == [];
    }

    /** A write of the slot's memory, from where the last one stopped, took `n` more bytes. */
    method Advance(n: nat)
      requires Valid() && queued > 0 && slots[head].sent + n <= slots[head].length <= slotBytes
      modifies this`wire, slots
      ensures Valid() && slots[head].sent == old(slots[head].sent) + n
      ensures wire == old(wire + Stored(head, slots[head].sent, n))
      ensures slots[head].length == old(slots[head].length)
    {
      hide Bytes;
      assert SlotFine(head);
      ghost var data, sent := accepted[done].data, slots[head].sent;
      MoreOut(Bytes(accepted[..done]), data, sent, n);
      assert Stored(head, sent, n) == data[sent..sent + n];
      wire := wire + Stored(head, sent, n);
      slots[head] := slots[head].(sent := slots[head].sent + n);
      forall p | 0 <= p < slots.Length ensures SlotFine(p) {
        assert old(SlotFine(p));
      }
      assert Started() == data[..sent + n];
    }

    /** A write took up to `n` bytes of the frame at the head, which is retired once it is all out. */
    method Offer(n: nat) returns (whole: bool)
      requires Valid() && queued > 0
      modifies this`head, this`queued, this`done, this`wire, slots, bytes
      ensures Valid() && old(wire) <= wire
      ensures whole <==> old(HeadSent()) + n >= |old(accepted[done]).data|
      ensures done == old(done) + (if whole then 1 else 0) && queued == old(queued) - (if whole then 1 else 0)
      ensures HeadSent() == if whole then 0 else old(HeadSent()) + n
    {
      hide Bytes;
      assert SlotFine(head);
      Advance(Min(n, slots[head].length - slots[head].sent));
      if slots[head].sent < slots[head].length {
        return false;
      }
      Retire();
      return true;
    }

    /** Offers frame after frame to the descriptor until one does not go out whole. */
    method Flush(answers: seq<Answer>, updated: bool) returns (result: Result)
      requires Valid()
      modifies this`head, this`queued, this`done, this`wire, this`wantWrite, slots, bytes
      ensures Valid() && old(wire) <= wire && queued <= old(queued)
      ensures result == NotOpen <==> !open
      ensures result == NotOpen || result == Failed || result == Fine
      ensures result == Fine && watched && updated ==> wantWrite == (queued > 0)
      ensures var f := Flowed(accepted, old(done), old(HeadSent()), answers, 0);
              open ==> done == f.done && HeadSent() == f.sent && (result == Failed <==> f.broke)
    {
      hide Bytes;
      hide SlotFine;
      if !open {
        return NotOpen;
      }
      var i := 0;
      while queued > 0
        invariant Valid() && old(wire) <= wire && queued <= old(queued) && 0 <= i <= |answers|
        invariant Flowed(accepted, done, HeadSent(), answers, i)
               == Flowed(accepted, old(done), old(HeadSent()), answers, 0)
        decreases |answers| - i
      {
        if i == |answers| {
          break;
        }
        var answer := answers[i];
        i := i + 1;
        match answer
        case Again => break;
        case Interrupted => continue;
        case Broke => return Failed;
        case Took(n) =>
          var whole := Offer(n);
          if !whole {
            break;
          }
      }
      UpdateWriteInterest(updated);
      return Fine;
    }

    /** Puts a frame that fits in the slot behind the last. */
    method Push(data: seq<byte>, id: nat)
      requires Valid() && open && queued < slots.Length && |data| <= slotBytes
      modifies this`queued, this`accepted, slots, bytes
      ensures Valid() && queued == old(queued) + 1 && accepted == old(accepted) + [Frame(data, id)]
      ensures HeadSent() == old(HeadSent())
    {
      hide Bytes;
      hide Settled;
      PlaceIsMod(head, queued, slots.Length);
      var p := (head + queued) % slots.Length;
      assert Behind(head, p, slots.Length) == queued;
      forall k | 0 <= k < |data| {
        bytes[p, k] := data[k];
      }
      slots[p] := Slot(|data|, 0, id);
      accepted := accepted + [Frame(data, id)];
      queued := queued + 1;
      assert accepted[..done] == old(accepted[..done]);
      forall q | 0 <= q < slots.Length ensures SlotFine(q) {
        assert old(SlotFine(q));
      }
      if old(queued) > 0 {
        assert old(SlotFine(head));
        assert accepted[done] == old(accepted[done]);
      }
      assert Started() == old(Started());
    }

    /** Queues a frame and flushes; refused, it leaves everything as it was. */
    method Send(data: seq<byte>, id: nat, answers: seq<Answer>, updated: bool) returns (result: Result)
      requires Valid()
      modifies this`head, this`queued, this`done, this`wire, this`accepted, this`wantWrite, slots, bytes
      ensures Valid() && old(wire) <= wire && result != Busy
      ensures result == NotOpen <==> !open
      ensures result == NoSpace <==> open && old(queued) == slots.Length
      ensures result == TooBig <==> open && old(queued) < slots.Length && |data| > slotBytes
      ensures accepted == if result == Fine || result == Failed then old(accepted) + [Frame(data, id)]
                          else old(accepted)
      ensures result != Fine && result != Failed ==>
        wire == old(wire) && done == old(done) && queued == old(queued) && HeadSent() == old(HeadSent())
      ensures result == Fine || result == Failed ==>
        var f := Flowed(accepted, old(done), old(HeadSent()), answers, 0);
        done == f.done && HeadSent() == f.sent && (result == Failed <==> f.broke)
    {
      hide Bytes;
      hide SlotFine;
      hide Flowed;
      if !open {
        return NotOpen;
      }
      if slots.Length == 0 || queued >= slots.Length {
        return NoSpace;
      }
      if |data| > slotBytes {
        return TooBig;
      }
      Push(data, id);
      UpdateWriteInterest(updated);
      result := Flush(answers, updated);
    }

    /** With the first `i` frames of the queue wiped, a slot is still as it should be. */
    ghost predicate Swept(p: nat, i: nat)
      requires Shape() && p < slots.Length
      reads this`head, this`queued, this`accepted, this`done, slots, bytes
    {
      if Behind(head, p, slots.Length) < i then Blank(p) else SlotFine(p)
    }

    ghost predicate AllSwept(i: nat)
      requires Shape()
      reads this`head, this`queued, this`accepted, this`done, slots, bytes
    {
      forall p :: 0 <= p < slots.Length ==> Swept(p, i)
    }

    /** Reports and wipes the `i`-th frame of the queue, those before it having been. */
    method Sweep(i: nat)
      requires Shape() && i < queued && AllSwept(i)
      modifies this`dropped, bytes
      ensures AllSwept(i + 1)
      ensures dropped == old(dropped) + if accepted[done + i].id != 0 then [accepted[done + i].id] else []
    {
      PlaceIsMod(head, i, slots.Length);
      var p := (head + i) % slots.Length;
      assert Behind(head, p, slots.Length) == i;
      assert Swept(p, i);
      var id := slots[p].id;
      if id != 0 {
        dropped := dropped + [id];
      }
      Wipe(p);
      ghost var next := i + 1;
      forall q | 0 <= q < slots.Length ensures Swept(q, next) {
        assert old(Swept(q, i));
      }
    }

    /** Reports and wipes everything queued, oldest first. */
    method DropQueue()
      requires Valid()
      modifies this`head, this`queued, this`dropped, bytes
      ensures head == 0 && queued == 0 && forall p :: 0 <= p < slots.Length ==> Blank(p)
      ensures dropped == old(dropped) + Names(old(accepted[done..]))
    {
      hide Bytes;
      hide Names;
      ghost var owed := accepted[done..];
      NamesEmpty();
      forall p | 0 <= p < slots.Length ensures Swept(p, 0) {
        assert SlotFine(p);
      }
      for i := 0 to queued
        invariant Shape() && queued == old(queued) && head == old(head)
        invariant dropped == old(dropped) + Names(owed[..i])
        invariant AllSwept(i)
      {
        NamesGrow(owed, i);
        Sweep(i);
      }
      assert owed[..queued] == owed;
      forall p | 0 <= p < slots.Length ensures Blank(p) {
        assert Swept(p, queued);
      }
      head, queued := 0, 0;
    }

    /** `registered` is whether a loop, if one is to watch the descriptor, took it. */
    method Open(watch: bool, registered: bool) returns (result: Result)
      requires Valid()
      modifies this`open, this`watched, this`wantWrite, this`head, this`queued
      ensures Valid() && queued == old(queued)
      ensures result == if old(open) then Busy else if watch && !registered then Failed else Fine
      ensures open == (old(open) || result == Fine)
      ensures result != Fine ==> head == old(head) && watched == old(watched) && wantWrite == old(wantWrite)
      ensures result == Fine ==> watched == watch && !wantWrite
    {
      if open {
        return Busy;
      }
      if watch && !registered {
        return Failed;
      }
      open, watched, wantWrite := true, watch, false;
      head, queued := 0, 0;
      forall p | 0 <= p < slots.Length ensures SlotFine(p) {
        assert old(SlotFine(p));
      }
      return Fine;
    }

    /** Drops what is queued and lets the descriptor go. Safe on a closed stream. */
    method Close()
      requires Valid()
      modifies this, bytes
      ensures Valid() && !open && queued == 0 && accepted == []
      ensures dropped == old(dropped) + Names(old(accepted[done..]))
      ensures closed == if old(open)
                        then old(closed) + [Session(old(accepted), old(done), old(wire), Names(old(accepted[done..])))]
                        else old(closed)
    {
      hide Bytes;
      hide Names;
      hide Settled;
      SettledNow();
      DropQueue();
      ghost var session := Session(accepted, done, wire, Names(accepted[done..]));
      if open {
        closed := closed + [session];
      }
      accepted, done, wire := [], 0, [];
      open, watched, wantWrite := false, false, false;
      BytesEmpty();
      forall p | 0 <= p < slots.Length ensures SlotFine(p) {
        assert Blank(p);
      }
    }

    lemma WireIsOut()
      requires Valid()
      ensures wire == Out(Queue())
    {
      hide Bytes;
    }

    lemma SettledNow()
      requires Valid()
      ensures Settled(Session(accepted, done, wire, Names(accepted[done..])))
    {
      hide Names;
      BytesPrefix(accepted, done);
      if queued > 0 {
        assert SlotFine(head);
        BytesGrow(accepted, done);
        BytesPrefix(accepted, done + 1);
        assert Started() <= accepted[done].data;
      }
    }
  }

  /** A finished use of the stream: what was accepted, how much of it was wholly written, what was reported. */
  datatype Session = Session(accepted: seq<Frame>, written: nat, wire: seq<byte>, reported: seq<nat>)

  /**
   What a caller may rely on: the bytes that went out are a prefix of the accepted frames in order,
   at least the first `written` of them whole; and every other frame with a name was reported, once
   and in order.
   */
  predicate Settled(session: Session) {
    && session.written <= |session.accepted|
    && session.wire <= Bytes(session.accepted)
    && Bytes(session.accepted[..session.written]) <= session.wire
    && session.reported == Names(session.accepted[session.written..])
  }

  lemma BytesEmpty()
    ensures Bytes([]) == []
  {
  }

  lemma MoreOut(before: seq<byte>, data: seq<byte>, sent: nat, n: nat)
    requires sent + n <= |data|
    ensures before + data[..sent] + data[sent..sent + n] == before + data[..sent + n]
  {
    assert data[..sent + n] == data[..sent] + data[sent..sent + n];
  }

  lemma NamesEmpty()
    ensures Names([]) == []
  {
  }

  lemma NamesGrow(frames: seq<Frame>, i: nat)
    requires i < |frames|
    ensures Names(frames[..i + 1]) == Names(frames[..i]) + if frames[i].id != 0 then [frames[i].id] else []
  {
    NamesConcat(frames[..i], [frames[i]]);
    assert frames[..i + 1] == frames[..i] + [frames[i]];
    assert [frames[i]][1..] == [];
  }

  lemma BytesGrow(frames: seq<Frame>, n: nat)
    requires n < |frames|
    ensures Bytes(frames[..n + 1]) == Bytes(frames[..n]) + frames[n].data
  {
    assert frames[..n + 1][..n] == frames[..n];
  }

  // ---- every run -------------------------------------------------------------------------

  datatype Call =
    | Opened(watch: bool, registered: bool)
    | Sent(data: seq<byte>, id: nat, answers: seq<Answer>, updated: bool)
    | Flushed(again: seq<Answer>, refreshed: bool)
    | Closed

  /** A queue without a ring: the frames accepted, how many are out, and how much of the next is. */
  datatype Fifo = Fifo(
    open: bool, accepted: seq<Frame>, done: nat, sent: nat, dropped: seq<nat>, closed: seq<Session>)

  const EMPTY := Fifo(false, [], 0, 0, [], [])

  predicate Proper(q: Fifo) {
    q.done <= |q.accepted|
  }

  /** The bytes that are out: the frames done with, and the beginning of the next. */
  function Out(q: Fifo): seq<byte>
    requires Proper(q)
  {
    Bytes(q.accepted[..q.done])
    + if q.done == |q.accepted| then [] else q.accepted[q.done].data[..Min(q.sent, |q.accepted[q.done].data|)]
  }

  function Drained(q: Fifo, answers: seq<Answer>): (r: Fifo)
    requires Proper(q)
    ensures Proper(r)
  {
    var f := Flowed(q.accepted, q.done, q.sent, answers, 0);
    FlowedWithin(q.accepted, q.done, q.sent, answers, 0);
    q.(done := f.done, sent := f.sent)
  }

  /** What each call does to a queue of at most `count` frames of at most `size` bytes. */
  function Next(q: Fifo, call: Call, count: nat, size: nat): (r: Fifo)
    requires Proper(q)
    ensures Proper(r)
  {
    match call
    case Opened(watch, registered) => if q.open || (watch && !registered) then q else q.(open := true)
    case Sent(data, id, answers, _) =>
      if !q.open || |q.accepted| - q.done >= count || |data| > size then q
      else Drained(q.(accepted := q.accepted + [Frame(data, id)]), answers)
    case Flushed(answers, _) => if q.open then Drained(q, answers) else q
    case Closed =>
      if !q.open then q
      else
        var lost := Names(q.accepted[q.done..]);
        Fifo(false, [], 0, 0, q.dropped + lost, q.closed + [Session(q.accepted, q.done, Out(q), lost)])
  }

  function After(calls: seq<Call>, count: nat, size: nat): (q: Fifo)
    ensures Proper(q)
  {
    if calls == [] then EMPTY else Next(After(calls[..|calls| - 1], count, size), calls[|calls| - 1], count, size)
  }

  lemma {:induction false} FlowedWithin(frames: seq<Frame>, k: nat, sent: nat, answers: seq<Answer>, i: nat)
    requires k <= |frames| && i <= |answers|
    ensures k <= Flowed(frames, k, sent, answers, i).done <= |frames|
    decreases |answers| - i
  {
    if k < |frames| && i < |answers| {
      match answers[i]
      case Interrupted => FlowedWithin(frames, k, sent, answers, i + 1);
      case Took(n) =>
        if sent + n >= |frames[k].data| {
          FlowedWithin(frames, k + 1, 0, answers, i + 1);
        }
      case _ =>
    }
  }

  /** One call keeps the ring the queue it stands for. */
  method Make(stream: Stream, call: Call)
    requires stream.Valid()
    modifies stream, stream.slots, stream.bytes
    ensures stream.Valid()
    ensures stream.Queue() == Next(old(stream.Queue()), call, stream.slots.Length, stream.slotBytes)
  {
    hide Bytes;
    hide Names;
    hide Flowed;
    hide Stream.SlotFine;
    match call
    case Opened(watch, registered) =>
      var _ := stream.Open(watch, registered);
    case Sent(data, id, answers, updated) =>
      var _ := stream.Send(data, id, answers, updated);
    case Flushed(answers, updated) =>
      var _ := stream.Flush(answers, updated);
    case Closed =>
      stream.WireIsOut();
      NamesEmpty();
      assert !stream.open ==> stream.accepted[stream.done..] == [];
      stream.Close();
  }

  /**
   The ring is a queue. Through every run of opens, sends, flushes and closes, with any short
   writes, it holds, has written, has reported and has finished exactly what a plain queue of frames
   would have; every finished use is settled, what is out is a prefix of what was accepted, and
   slots outside the queue hold nothing but zeros.
   */
  method Life(count: nat, size: nat, calls: seq<Call>) returns (stream: Stream)
    ensures stream.Valid() && stream.slots.Length == count && stream.slotBytes == size
    ensures stream.Queue() == After(calls, count, size)
    ensures stream.wire == Out(After(calls, count, size))
    ensures forall i :: 0 <= i < |stream.closed| ==> Settled(stream.closed[i])
    ensures stream.wire <= Bytes(stream.accepted)
    ensures stream.done <= |stream.accepted| && Bytes(stream.accepted[..stream.done]) <= stream.wire
    ensures forall p :: 0 <= p < stream.slots.Length && Behind(stream.head, p, stream.slots.Length) >= stream.queued ==>
      stream.Blank(p)
  {
    hide Bytes;
    hide Names;
    hide Next;
    stream := new Stream(count, size);
    for i := 0 to |calls|
      invariant stream.Valid() && fresh(stream) && fresh(stream.slots) && fresh(stream.bytes)
      invariant stream.slots.Length == count && stream.slotBytes == size
      invariant stream.Queue() == After(calls[..i], count, size)
    {
      assert calls[..i + 1][..i] == calls[..i];
      Make(stream, calls[i]);
    }
    assert calls[..|calls|] == calls;
    stream.SettledNow();
    stream.WireIsOut();
    forall p | 0 <= p < stream.slots.Length && Behind(stream.head, p, stream.slots.Length) >= stream.queued
      ensures stream.Blank(p)
    {
      assert stream.SlotFine(p);
    }
  }
}
