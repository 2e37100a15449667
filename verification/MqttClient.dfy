/**
 The reconnecting client: one object, moved from state to state by socket events, lookups and the
 clock. What the network answers is a parameter of each event; buffers appear here only as how much
 they hold, their contents being the business of `MqttInbound` and `MqttOutbound`.
 */
module MqttClient {
  import opened Base
  import MqttInbound

  const READS_PER_TURN: nat := 8
  const BACKOFF_SHIFT_MAX: nat := 6
  const BACKOFF_BASE_MS: nat := 5000
  const BACKOFF_MAX_MS: nat := 300000
  const RESOLVE_TIMEOUT_MS: nat := 5000
  const CONNECT_TIMEOUT_MS: nat := 10000
  const HANDSHAKE_TIMEOUT_MS: nat := 15000
  const SILENCE_TIMEOUT_MS: nat := 90000
  const PING_INTERVAL_MS: nat := 30000
  const UINT32_MAX: nat := 0xFFFF_FFFF
  /** No state is kept longer than this without the far end being heard or an attempt being made. */
  const PATIENCE_MS: nat := 300000

  datatype State = Off | Resolving | Connecting | Securing | Greeting | Ready | Waiting

  // ---- the retry delay -------------------------------------------------------------------

  function Pow2(n: nat): nat {
    if n == 0 then 1 else 2 * Pow2(n - 1)
  }

  /** The delay after the `failures`-th failure in a row: doubled each time, its shift and itself capped. */
  function Delay(failures: nat): nat {
    var shift := if failures > 1 then Min(failures - 1, BACKOFF_SHIFT_MAX) else 0;
    Min(BACKOFF_BASE_MS * Pow2(shift), BACKOFF_MAX_MS)
  }

  lemma {:induction false} Pow2Grows(m: nat, n: nat)
    requires m <= n
    ensures 1 <= Pow2(m) <= Pow2(n)
    decreases n
  {
    if n > 0 {
      Pow2Grows(if m < n then m else m - 1, n - 1);
    }
  }

  /** The delay stays within its bounds and never shrinks from one failure to a later one. */
  lemma DelayGrows(a: nat, b: nat)
    requires a <= b
    ensures BACKOFF_BASE_MS <= Delay(a) <= Delay(b) <= BACKOFF_MAX_MS
  {
    var s := if a > 1 then Min(a - 1, BACKOFF_SHIFT_MAX) else 0;
    var t := if b > 1 then Min(b - 1, BACKOFF_SHIFT_MAX) else 0;
    Pow2Grows(s, t);
    Pow2Grows(0, s);
  }

  lemma DelaySaturates(failures: nat)
    requires failures >= UINT32_MAX
    ensures Delay(failures) == Delay(UINT32_MAX)
  {
  }

  // ---- what the network may answer -------------------------------------------------------

  /**
   One whole packet: its effect on the connection. `breaks` if answering it loses the connection, `moved`
   if the answer got something out.
   */
  datatype Packet =
    | Connack(wellFormed: bool, code: nat, breaks: bool, moved: bool)
    | Benign(breaks: bool, moved: bool)
    | Fatal

  /** A read that got nothing may have more to do at once, or may be waiting for the socket to be writable. */
  datatype Read = Data(packets: seq<Packet>, held: nat) | Again(more: bool, writing: bool) | Gone

  datatype Handshake = Agreed | Unfinished | Refused

  datatype Network = Network(
    literal: bool,              // no lookup is needed
    lookupStarts: bool,
    lookup: Option<bool>,       // the lookup has ended: found or not
    opens: bool, watched: bool, // a socket was had, and a place on the loop
    connects: bool,             // connect() was accepted, at once or in progress
    connected: bool,            // no pending error when it completed
    tlsStarts: bool, handshake: Handshake,
    written: bool, moved: bool, // a write kept the connection, and got something out
    unsent: nat,                // ... leaving this much queued
    room: bool,                 // a packet fitted the queue
    input: seq<Read>)

  datatype Signals = Signals(readable: bool, writable: bool, failed: bool)

  /** Where an attempt gets to. */
  function Begun(net: Network): State {
    if !net.literal && net.lookupStarts then Resolving
    else if net.literal && net.opens && net.watched && net.connects then Connecting
    else Waiting
  }

  /** Where sending CONNECT leads. */
  function Greeted(net: Network): State {
    if net.room && net.written then Greeting else Waiting
  }

  function Secured(net: Network): State {
    match net.handshake
    case Unfinished => Securing
    case Refused => Waiting
    case Agreed => Greeted(net)
  }

  /** Where a connect that has finished leads. */
  function Connected(tls: bool, net: Network): State {
    if !net.connected then Waiting
    else if !tls then Greeted(net)
    else if !net.tlsStarts then Waiting
    else Secured(net)
  }

  /** What a packet makes of a connection that is greeting or ready. */
  function Answered(state: State, packet: Packet): State {
    match packet
    case Connack(wellFormed, code, breaks, _) =>
      if state == Greeting && wellFormed && code == 0 && !breaks then Ready else Waiting
    case Benign(breaks, _) => if breaks && state == Ready then Waiting else state
    case Fatal => Waiting
  }

  /** Whether the answer to a packet told the broker something; only a client that is ready answers. */
  predicate Replies(state: State, packet: Packet) {
    Answered(state, packet) == Ready && packet.moved
  }

  /** A CONNACK that accepts, among packets or reads. */
  predicate Accepts(packets: seq<Packet>) {
    exists i :: 0 <= i < |packets| && packets[i].Connack? && packets[i].wellFormed && packets[i].code == 0
  }

  predicate Accepting(net: Network) {
    exists i :: 0 <= i < |net.input| && net.input[i].Data? && Accepts(net.input[i].packets)
  }

  /** The same for packets in turn, until one ends it. */
  function AnsweredAll(state: State, packets: seq<Packet>, i: nat): State
    requires i <= |packets|
    decreases |packets| - i
  {
    if i == |packets| || state == Waiting then state
    else AnsweredAll(Answered(state, packets[i]), packets, i + 1)
  }

  /** The same for reads in turn, as many as one event may take. */
  function HeardAll(state: State, input: seq<Read>, turn: nat): State
    requires turn <= READS_PER_TURN
    decreases READS_PER_TURN - turn
  {
    if turn == READS_PER_TURN || turn >= |input| || state == Waiting then state
    else match input[turn]
      case Again(_, _) => state
      case Gone => Waiting
      case Data(packets, _) => HeardAll(AnsweredAll(state, packets, 0), input, turn + 1)
  }

  /** Whether one of the packets handled, or of those the reads brought, was answered. */
  predicate RepliesAll(state: State, packets: seq<Packet>, i: nat)
    requires i <= |packets|
    decreases |packets| - i
  {
    i < |packets| && state != Waiting
    && (Replies(state, packets[i]) || RepliesAll(Answered(state, packets[i]), packets, i + 1))
  }

  predicate RepliesToReads(state: State, input: seq<Read>, turn: nat)
    requires turn <= READS_PER_TURN
    decreases READS_PER_TURN - turn
  {
    turn < READS_PER_TURN && turn < |input| && state != Waiting && input[turn].Data?
    && (|| RepliesAll(state, input[turn].packets, 0)
        || RepliesToReads(AnsweredAll(state, input[turn].packets, 0), input, turn + 1))
  }

  /** When the next ping is due: anything the broker was told puts it off. */
  function PingAfter(replied: bool, now: nat, nextPing: nat): nat {
    if replied then now + PING_INTERVAL_MS else nextPing
  }

  predicate Brings(net: Network) {
    net.input != [] && net.input[0].Data?
  }

  /** A ready connection after its silence and its keepalive have been looked at. */
  function Kept(now: nat, lastHeard: nat, nextPing: nat, net: Network): State {
    if now > lastHeard + SILENCE_TIMEOUT_MS then Waiting
    else if nextPing != 0 && now >= nextPing && !(net.room && net.written) then Waiting
    else Ready
  }

  /** What a tick before the deadline makes of a connection that is greeting or ready. */
  function TickedOn(state: State, more: bool, now: nat, lastHeard: nat, nextPing: nat, net: Network): State {
    if !more then if state == Ready then Kept(now, lastHeard, nextPing, net) else state
    else
      var heard := HeardAll(state, net.input, 0);
      if heard != Ready then heard
      else Kept(now, if Brings(net) then now else lastHeard,
                PingAfter(RepliesToReads(state, net.input, 0), now, nextPing), net)
  }

  /** What the socket's signals make of each state. */
  function Signalled(state: State, tls: bool, owed: bool, signals: Signals, net: Network): State {
    match state
    case Connecting => if signals.writable || signals.failed then Connected(tls, net) else Connecting
    case Securing => if signals.failed then Waiting else Secured(net)
    case Greeting | Ready =>
      if signals.failed || (signals.writable && !net.written) then Waiting
      else if ReadsOn(owed, signals) then HeardAll(state, net.input, 0)
      else state
    case _ => state
  }

  /** Whether the socket's signals make a connection that is up read. */
  predicate ReadsOn(owed: bool, signals: Signals) {
    signals.readable || (signals.writable && owed)
  }

  /** When a connection that is up was last heard, and pings next, after its reads. */
  predicate Paced(
    state: State, reading: bool, now: nat, net: Network, wasHeard: nat, wasPing: nat, lastHeard: nat, nextPing: nat)
  {
    && lastHeard == (if reading && Brings(net) then now else wasHeard)
    && nextPing == PingAfter(reading && RepliesToReads(state, net.input, 0), now, wasPing)
  }

  /** A ping that was due has been queued, and puts the next one off. */
  function Pinged(now: nat, nextPing: nat): nat {
    if nextPing != 0 && now >= nextPing then now + PING_INTERVAL_MS else nextPing
  }

  /** The same for a tick, in which a ready connection looks at its keepalive. */
  predicate PacedTick(
    was: State, more: bool, now: nat, net: Network, wasHeard: nat, wasPing: nat, state: State, lastHeard: nat,
    nextPing: nat)
  {
    var ping := PingAfter(more && RepliesToReads(was, net.input, 0), now, wasPing);
    && lastHeard == (if more && Brings(net) then now else wasHeard)
    && nextPing == (if state == Ready then Pinged(now, ping) else ping)
  }

  /** The client between two events. */
  datatype Snap = Snap(
    state: State, now: nat, actsBy: nat, tls: bool, socket: bool, lookup: bool, empty: bool, owed: bool, more: bool,
    retryAt: nat, deadline: nat, lookupBy: nat, lastHeard: nat, nextPing: nat, attempts: nat, accepts: nat,
    failures: nat, delays: seq<nat>)

  /** The state a tick leads to, from one whose times and backlog are these. */
  function TickedTo(
    state: State, retryAt: nat, lookupBy: nat, deadline: nat, more: bool, lastHeard: nat, nextPing: nat,
    time: nat, net: Network): State
  {
    match state
    case Off => Off
    case Waiting => if time >= retryAt then Begun(net) else Waiting
    case Resolving =>
      if net.lookup.None? && time < lookupBy then Resolving
      else if net.lookup == Some(true) && net.opens && net.watched && net.connects then Connecting
      else Waiting
    case Connecting | Securing => if time >= deadline then Waiting else state
    case Greeting | Ready =>
      if deadline != 0 && time >= deadline then Waiting
      else TickedOn(state, more, time, lastHeard, nextPing, net)
  }

  /** The delays armed in a row, after an event; `base` is what is left of those before it. */
  predicate Rearmed(base: seq<nat>, delays: seq<nat>, failed: bool, retryAt: nat, now: nat) {
    if failed then delays == base + [Delay(|base| + 1)] && retryAt == now + Delay(|base| + 1)
    else delays == base
  }

  class Client {
    var state: State
    var tls: bool
    var socket: bool
    var lookup: bool
    var lookupBy: nat
    var inLen: nat
    var unsent: nat
    var moreToRead: bool
    var readWantsWrite: bool
    var now: nat
    var deadline: nat
    var nextPing: nat
    var lastHeard: nat
    var retryAt: nat
    var failures: nat
    /** Attempts begun, CONNACKs accepted, and the delays armed since the failure count was last cleared. */
    ghost var attempts: nat
    ghost var accepts: nat
    ghost var delays: seq<nat>

    ghost predicate Counted()
      reads this`now, this`failures, this`delays
    {
      && now > 0
      && failures == Min(|delays|, UINT32_MAX)
      && forall i :: 0 <= i < |delays| ==> delays[i] == Delay(i + 1)
    }

    ghost predicate Empty()
      reads this
    {
      inLen == 0 && unsent == 0 && !moreToRead
    }

    /** Everything a connection holds has been released. */
    ghost predicate Idle()
      reads this
    {
      !socket && !lookup && Empty() && deadline == 0
    }

    /** What holds between any two events. */
    ghost predicate Valid()
      reads this
    {
      && Counted()
      && (socket <==> state == Connecting || state == Securing || state == Greeting || state == Ready)
      && (lookup <==> state == Resolving)
      && match state
         case Off => Idle()
         case Waiting => Idle() && delays != [] && retryAt <= now + Delay(failures)
         case Resolving => Empty() && deadline == 0 && lookupBy <= now + RESOLVE_TIMEOUT_MS
         case Connecting => 0 < deadline <= now + CONNECT_TIMEOUT_MS
         case Securing => 0 < deadline <= now + HANDSHAKE_TIMEOUT_MS
         case Greeting => 0 < deadline <= now + HANDSHAKE_TIMEOUT_MS && 0 < lastHeard <= now
         case Ready => deadline == 0 && 0 < lastHeard <= now
    }

    /** When a tick will not leave things as they are: the state's own deadline. */
    ghost function ActsBy(): nat
      reads this
    {
      match state
      case Off => 0
      case Waiting => retryAt
      case Resolving => lookupBy
      case Ready => lastHeard + SILENCE_TIMEOUT_MS + 1
      case _ => deadline
    }

    ghost function Snapshot(): Snap
      reads this
    {
      Snap(state, now, ActsBy(), tls, socket, lookup, Empty(), readWantsWrite, moreToRead, retryAt, deadline, lookupBy,
           lastHeard, nextPing, attempts, accepts, failures, delays)
    }

    /** What every step keeps of the rest. */
    twostate predicate Steady()
      reads this
    {
      && now == old(now) && tls == old(tls) && attempts >= old(attempts) && accepts >= old(accepts)
      && (old(inLen) < MqttInbound.IN_MAX ==> inLen < MqttInbound.IN_MAX)
    }

    /**
     A step that fails arms the next delay behind those before it, or the first one after a CONNACK was
     accepted; one that does not fail leaves them, and a client that goes on waiting its retry.
     */
    twostate predicate Onward()
      reads this
    {
      && Steady()
      && if state == Waiting && old(state) == Waiting && attempts == old(attempts)
         then delays == old(delays) && retryAt == old(retryAt) && accepts == old(accepts)
         else Rearmed(if accepts == old(accepts) then old(delays) else [], delays, state == Waiting, retryAt, now)
    }

    /** A connection that has just sent its CONNECT. */
    twostate predicate Greets(net: Network)
      reads this
    {
      && deadline == now + HANDSHAKE_TIMEOUT_MS && lastHeard == now
      && nextPing == PingAfter(net.moved, now, old(nextPing))
    }

    /** The same for a tick, in which the clock moves. */
    twostate predicate Ticks(time: nat)
      reads this
    {
      && now == time && attempts >= old(attempts) && accepts >= old(accepts)
      && if state == Waiting && old(state) == Waiting && attempts == old(attempts)
         then delays == old(delays) && retryAt == old(retryAt) && accepts == old(accepts)
         else Rearmed(if accepts == old(accepts) then old(delays) else [], delays, state == Waiting, retryAt, now)
    }

    constructor ()
      ensures state == Off && Idle() && now == 0
    {
      state, tls, socket, lookup, lookupBy := Off, false, false, false, 0;
      inLen, unsent, moreToRead, readWantsWrite := 0, 0, false, false;
      now, deadline, nextPing, lastHeard, retryAt, failures := 0, 0, 0, 0, 0, 0;
      attempts, accepts, delays := 0, 0, [];
    }

    // ---- ending a connection -------------------------------------------------------------

    method Close()
      modifies this`socket, this`lookup, this`inLen, this`unsent, this`moreToRead, this`readWantsWrite,
               this`deadline, this`nextPing, this`lastHeard
      ensures Idle()
    {
      socket, lookup := false, false;
      inLen, unsent, moreToRead, readWantsWrite := 0, 0, false, false;
      deadline, nextPing, lastHeard := 0, 0, 0;
    }

    /** The one way an attempt or a connection fails: everything let go, and the next attempt timed. */
    method BackOff()
      requires Counted()
      modifies this
      ensures Valid() && Steady() && state == Waiting && attempts == old(attempts) && accepts == old(accepts)
      ensures inLen == 0 && moreToRead == false
      ensures Rearmed(old(delays), delays, true, retryAt, now) && retryAt == now + Delay(failures)
    {
      hide Delay;
      Close();
      if failures < UINT32_MAX {
        failures := failures + 1;
      }
      if |delays| + 1 > UINT32_MAX {
        DelaySaturates(|delays| + 1);
      }
      delays := delays + [Delay(failures)];
      retryAt := now + Delay(failures);
      state := Waiting;
    }

    // ---- getting connected ---------------------------------------------------------------

    method Open(net: Network)
      requires Counted() && Idle()
      modifies this
      ensures Valid() && Steady() && attempts == old(attempts) && accepts == old(accepts)
      ensures state == Connecting || (state == Waiting && retryAt == now + Delay(failures))
      ensures state == Connecting <==> net.opens && net.watched && net.connects
      ensures Rearmed(old(delays), delays, state == Waiting, retryAt, now) && inLen == 0
      ensures state == Connecting ==> deadline == now + CONNECT_TIMEOUT_MS
    {
      if !net.opens || !net.watched {
        BackOff();
        return;
      }
      socket := true;
      if !net.connects {
        BackOff();
        return;
      }
      deadline := now + CONNECT_TIMEOUT_MS;
      state := Connecting;
    }

    /** Begins an attempt: with a socket if the host needs no lookup, with a lookup otherwise. */
    method Attempt(net: Network)
      requires Counted() && Idle()
      modifies this
      ensures Valid() && Onward() && attempts == old(attempts) + 1 && accepts == old(accepts)
      ensures state == Begun(net) && inLen == 0
      ensures state == Resolving ==> lookupBy == now + RESOLVE_TIMEOUT_MS
    {
      attempts := attempts + 1;
      if net.literal {
        Open(net);
        return;
      }
      if !net.lookupStarts {
        BackOff();
        return;
      }
      lookup, lookupBy := true, now + RESOLVE_TIMEOUT_MS;
      deadline := 0;
      state := Resolving;
    }

    /** The lookup is over. One that lands after its attempt was abandoned changes nothing. */
    method OnResolved(found: bool, net: Network)
      requires Valid()
      modifies this
      ensures Valid() && Onward() && attempts == old(attempts) && accepts == old(accepts)
      ensures old(state) == Resolving ==>
        if found && net.opens && net.watched && net.connects then state == Connecting
        else state == Waiting && retryAt == now + Delay(failures)
      ensures old(state) == Resolving && state == Connecting ==> deadline == now + CONNECT_TIMEOUT_MS
      ensures old(state) != Resolving ==> state == old(state)
    {
      if state != Resolving {
        return;
      }
      lookup := false;
      if found {
        Open(net);
      } else {
        BackOff();
      }
    }

    /** A flush that kept the connection; one that moved bytes is this interval's keepalive. */
    method Flushed(net: Network)
      modifies this`unsent, this`nextPing
      ensures unsent == net.unsent
      ensures nextPing == if net.moved then now + PING_INTERVAL_MS else old(nextPing)
    {
      unsent := net.unsent;
      if net.moved {
        nextPing := now + PING_INTERVAL_MS;
      }
    }

    /** Queues CONNECT on a connection that can take it, and waits to be greeted. */
    method SendConnect(net: Network)
      requires Counted() && socket && !lookup
      modifies this
      ensures Valid() && Steady() && attempts == old(attempts) && accepts == old(accepts)
      ensures state == Greeted(net) && Rearmed(old(delays), delays, state == Waiting, retryAt, now)
      ensures state == Greeting ==> deadline == now + HANDSHAKE_TIMEOUT_MS && lastHeard == now
      ensures state == Greeting ==> nextPing == PingAfter(net.moved, now, old(nextPing))
    {
      if !net.room || !net.written {
        BackOff();
        return;
      }
      Flushed(net);
      deadline := now + HANDSHAKE_TIMEOUT_MS;
      lastHeard := now;
      state := Greeting;
    }

    method Secure(net: Network)
      requires Valid() && state == Securing
      modifies this
      ensures Valid() && Onward() && attempts == old(attempts) && accepts == old(accepts)
      ensures state == Secured(net) && (state == Greeting ==> Greets(net))
    {
      match net.handshake
      case Unfinished =>
      case Refused => BackOff();
      case Agreed => SendConnect(net);
    }

    method FinishConnect(net: Network)
      requires Valid() && state == Connecting
      modifies this
      ensures Valid() && Onward() && attempts == old(attempts) && accepts == old(accepts)
      ensures state == Connected(old(tls), net) && (state == Greeting ==> Greets(net))
    {
      if !net.connected {
        BackOff();
        return;
      }
      if !tls {
        SendConnect(net);
        return;
      }
      if !net.tlsStarts {
        BackOff();
        return;
      }
      deadline := now + HANDSHAKE_TIMEOUT_MS;
      state := Securing;
      Secure(net);
    }

    // ---- what the broker says ------------------------------------------------------------

    /** The broker's greeting. Only one that accepts makes the client ready and forgets its failures. */
    method OnConnack(wellFormed: bool, code: nat, breaks: bool, moved: bool) returns (alive: bool)
      requires Valid() && (state == Greeting || state == Ready)
      modifies this
      ensures Valid() && Onward() && attempts == old(attempts)
      ensures alive ==> state == Ready && lastHeard == old(lastHeard) && failures == 0
      ensures !alive ==> state == Waiting
      ensures state == Answered(old(state), Connack(wellFormed, code, breaks, moved))
      ensures alive ==> nextPing == PingAfter(moved, now, old(nextPing))
      ensures accepts != old(accepts) <==> old(state) == Greeting && wellFormed && code == 0
    {
      if state != Greeting || !wellFormed || code != 0 {
        BackOff();
        return false;
      }
      failures, deadline := 0, 0;
      delays, accepts := [], accepts + 1;
      state := Ready;
      if breaks {
        BackOff();
        return false;
      }
      if moved {
        nextPing := now + PING_INTERVAL_MS;
      }
      return true;
    }

    method Handle(packet: Packet) returns (alive: bool)
      requires Valid() && (state == Greeting || state == Ready)
      modifies this
      ensures Valid() && Onward() && attempts == old(attempts)
      ensures alive ==> (state == old(state) || state == Ready) && lastHeard == old(lastHeard)
      ensures state == Answered(old(state), packet) && (alive <==> state != Waiting)
      ensures alive ==> nextPing == PingAfter(Replies(old(state), packet), now, old(nextPing))
      ensures accepts != old(accepts) ==> packet.Connack? && packet.wellFormed && packet.code == 0
    {
      match packet
      case Connack(wellFormed, code, breaks, moved) =>
        alive := OnConnack(wellFormed, code, breaks, moved);
      case Benign(breaks, moved) =>
        alive := !(breaks && state == Ready);
        if !alive {
          BackOff();
        } else if moved && state == Ready {
          nextPing := now + PING_INTERVAL_MS;
        }
      case Fatal =>
        BackOff();
        alive := false;
    }

    method Consume(packets: seq<Packet>, held: nat) returns (alive: bool)
      requires Valid() && (state == Greeting || state == Ready) && held < MqttInbound.IN_MAX
      modifies this
      ensures Valid() && Onward() && attempts == old(attempts)
      ensures alive ==>
        (state == old(state) || state == Ready) && lastHeard == old(lastHeard) && inLen == held
      ensures state == AnsweredAll(old(state), packets, 0) && (alive <==> state != Waiting)
      ensures accepts != old(accepts) ==> Accepts(packets)
      ensures alive ==> nextPing == PingAfter(RepliesAll(old(state), packets, 0), now, old(nextPing))
    {
      hide Delay;
      for i := 0 to |packets|
        invariant AnsweredAll(state, packets, i) == AnsweredAll(old(state), packets, 0)
        invariant accepts != old(accepts) ==> Accepts(packets)
        invariant Valid() && (state == old(state) || state == Ready) && lastHeard == old(lastHeard)
        invariant Onward() && attempts == old(attempts)
        invariant PingAfter(RepliesAll(state, packets, i), now, nextPing)
                  == PingAfter(RepliesAll(old(state), packets, 0), now, old(nextPing))
      {
        alive := Handle(packets[i]);
        if !alive {
          return;
        }
      }
      inLen := held;
      return true;
    }

    /** What one read brought. False when there is no more to read, or nothing to read from. */
    method TakeRead(read: Read) returns (go: bool)
      requires Valid() && (state == Greeting || state == Ready)
      requires read.Data? ==> read.held < MqttInbound.IN_MAX
      modifies this
      ensures Valid() && Onward() && attempts == old(attempts)
      ensures accepts != old(accepts) ==> read.Data? && Accepts(read.packets)
      ensures match read
              case Again(_, _) =>
                !go && state == old(state) && lastHeard == old(lastHeard) && nextPing == old(nextPing)
              case Gone => !go && state == Waiting
              case Data(packets, _) =>
                && state == AnsweredAll(old(state), packets, 0) && (go <==> state != Waiting)
                && (state == old(state) || state == Ready || state == Waiting)
                && (go ==> lastHeard == now && inLen < MqttInbound.IN_MAX)
                && (go ==> nextPing == PingAfter(RepliesAll(old(state), packets, 0), now, old(nextPing)))
    {
      hide Delay;
      hide AnsweredAll;
      hide RepliesAll;
      match read
      case Again(more, writing) =>
        moreToRead, readWantsWrite := more, !more && writing;
        return false;
      case Gone =>
        BackOff();
        return false;
      case Data(packets, held) =>
        lastHeard := now;
        go := Consume(packets, held);
    }

    /** Reads what is ready, for as many turns as one event may take. */
    method ReadReady(net: Network)
      requires Valid() && (state == Greeting || state == Ready)
      requires forall i :: 0 <= i < |net.input| && net.input[i].Data? ==> net.input[i].held < MqttInbound.IN_MAX
      modifies this
      ensures Valid() && Onward() && attempts == old(attempts)
      ensures state == Waiting || state == old(state) || state == Ready
      ensures state == old(state) ==> lastHeard == old(lastHeard) || lastHeard == now
      ensures old(inLen) < MqttInbound.IN_MAX ==> state == HeardAll(old(state), net.input, 0)
      ensures old(inLen) < MqttInbound.IN_MAX && state != Waiting ==>
        Paced(old(state), true, now, net, old(lastHeard), old(nextPing), lastHeard, nextPing)
      ensures accepts != old(accepts) ==> Accepting(net)
    {
      hide Delay;
      hide AnsweredAll;
      hide RepliesAll;
      hide Accepts;
      hide Counted;
      moreToRead, readWantsWrite := false, false;
      for turn := 0 to READS_PER_TURN
        invariant Valid() && Onward() && attempts == old(attempts)
        invariant (state == old(state) || state == Ready) && (lastHeard == old(lastHeard) || lastHeard == now)
        invariant accepts != old(accepts) ==> Accepting(net)
        invariant old(inLen) < MqttInbound.IN_MAX ==>
          && inLen < MqttInbound.IN_MAX && HeardAll(state, net.input, turn) == HeardAll(old(state), net.input, 0)
          && lastHeard == (if turn > 0 then now else old(lastHeard)) && (turn > 0 ==> Brings(net))
          && PingAfter(RepliesToReads(state, net.input, turn), now, nextPing)
             == PingAfter(RepliesToReads(old(state), net.input, 0), now, old(nextPing))
      {
        if inLen >= MqttInbound.IN_MAX {
          moreToRead := true;
          return;
        }
        var read := if turn < |net.input| then net.input[turn] else Again(false, false);
        var go := TakeRead(read);
        if !go {
          return;
        }
      }
      moreToRead := true;
    }

    /** Puts a packet on the queue, or finds the queue full or the connection gone. */
    method Queue(net: Network) returns (fitted: bool, kept: bool)
      requires Valid() && state == Ready
      modifies this`unsent, this`nextPing
      ensures Valid() && Onward() && fitted == net.room && kept == net.written
      ensures nextPing == PingAfter(fitted && kept && net.moved, now, old(nextPing))
    {
      fitted, kept := net.room, net.written;
      if fitted && kept {
        Flushed(net);
      }
    }

    // ---- events --------------------------------------------------------------------------

    method OnSocket(signals: Signals, net: Network)
      requires Valid()
      requires forall i :: 0 <= i < |net.input| && net.input[i].Data? ==> net.input[i].held < MqttInbound.IN_MAX
      modifies this
      ensures Valid() && Onward() && attempts == old(attempts)
      ensures accepts != old(accepts) ==> Accepting(net)
      ensures old(inLen) < MqttInbound.IN_MAX ==>
        state == Signalled(old(state), old(tls), old(readWantsWrite), signals, net)
      ensures old(inLen) < MqttInbound.IN_MAX && (old(state) == Greeting || old(state) == Ready) && state != Waiting ==>
        Paced(old(state), ReadsOn(old(readWantsWrite), signals), now, net, old(lastHeard),
              PingAfter(signals.writable && net.moved, now, old(nextPing)), lastHeard, nextPing)
      ensures (old(state) == Connecting || old(state) == Securing) && state == Greeting ==> Greets(net)
    {
      hide HeardAll;
      hide RepliesToReads;
      if !socket {
        return;
      }
      if state == Connecting {
        if signals.writable || signals.failed {
          FinishConnect(net);
        }
        return;
      }
      if signals.failed {
        BackOff();
        return;
      }
      if state == Securing {
        Secure(net);
        return;
      }
      var readNow := signals.readable;
      if signals.writable {
        readNow := readNow || readWantsWrite;
        if !net.written {
          BackOff();
          return;
        }
        Flushed(net);
      }
      if readNow {
        ReadReady(net);
      }
    }

    method Publish(net: Network)
      requires Valid()
      modifies this
      ensures Valid() && Onward() && attempts == old(attempts) && accepts == old(accepts)
      ensures state == if old(state) == Ready && net.room && !net.written then Waiting else old(state)
      ensures state == Ready ==>
        lastHeard == old(lastHeard) && nextPing == PingAfter(net.room && net.moved, now, old(nextPing))
    {
      if state != Ready {
        return;
      }
      var fitted, kept := Queue(net);
      if fitted && !kept {
        BackOff();
      }
    }

    /** `sound` is whether the configuration names a broker and a client; one that does not changes nothing. */
    method Start(sound: bool, secured: bool, time: nat, net: Network) returns (ok: bool)
      requires time >= now && time > 0
      modifies this
      ensures ok == sound
      ensures !ok ==> unchanged(this)
      ensures ok ==> Valid() && now == time && attempts == old(attempts) + 1 && tls == secured && inLen == 0
      ensures ok ==> state == Begun(net) && failures == (if state == Waiting then 1 else 0)
      ensures ok ==> Rearmed([], delays, state == Waiting, retryAt, now)
    {
      if !sound {
        return false;
      }
      Close();
      now, tls := time, secured;
      failures, retryAt, delays := 0, 0, [];
      Attempt(net);
      return true;
    }

    method Stop()
      requires Valid()
      modifies this
      ensures Valid() && now == old(now) && state == Off && inLen == 0
      ensures if old(state) == Off then Snapshot() == old(Snapshot()) else delays == [] && failures == 0
    {
      if state == Off {
        return;
      }
      Close();
      failures, retryAt, delays := 0, 0, [];
      state := Off;
    }

    /** The silence and the keepalive of a connection that is up. */
    method Keepalive(net: Network)
      requires Valid() && state == Ready
      modifies this
      ensures Valid() && Onward() && attempts == old(attempts) && accepts == old(accepts)
      ensures state == Kept(now, old(lastHeard), old(nextPing), net)
      ensures state == Ready ==> lastHeard == old(lastHeard) && nextPing == Pinged(now, old(nextPing))
    {
      if lastHeard != 0 && now > lastHeard && now - lastHeard > SILENCE_TIMEOUT_MS {
        BackOff();
        return;
      }
      if nextPing != 0 && now >= nextPing {
        var fitted, kept := Queue(net);
        if !fitted || !kept {
          BackOff();
          return;
        }
        nextPing := now + PING_INTERVAL_MS;
      }
    }

    /** A tick of an attempt or a connection: its deadline, its backlog, its keepalive. */
    method TickConnection(net: Network)
      requires Valid() && state != Off && state != Waiting
      requires forall i :: 0 <= i < |net.input| && net.input[i].Data? ==> net.input[i].held < MqttInbound.IN_MAX
      modifies this
      ensures Valid() && Onward() && attempts == old(attempts)
      ensures state == old(state) || state == Ready || state == Waiting
      ensures old(deadline) != 0 && now >= old(deadline) ==> state == Waiting
      ensures old(state) == Ready && now > old(lastHeard) + SILENCE_TIMEOUT_MS ==>
        state == Waiting || (state == Ready && lastHeard == now)
      ensures accepts != old(accepts) ==> Accepting(net)
      ensures !(old(deadline) != 0 && now >= old(deadline)) && old(inLen) < MqttInbound.IN_MAX ==>
        if old(state) == Greeting || old(state) == Ready
        then state == TickedOn(old(state), old(moreToRead), now, old(lastHeard), old(nextPing), net)
        else state == old(state) && accepts == old(accepts)
      ensures old(inLen) < MqttInbound.IN_MAX && (state == Greeting || state == Ready) ==>
        PacedTick(old(state), old(moreToRead), now, net, old(lastHeard), old(nextPing), state, lastHeard, nextPing)
    {
      hide Delay;
      hide HeardAll;
      hide RepliesToReads;
      hide Accepting;
      hide Counted;
      if deadline != 0 && now >= deadline {
        BackOff();
        return;
      }
      if moreToRead && (state == Greeting || state == Ready) {
        ReadReady(net);
      }
      if state == Ready {
        Keepalive(net);
      }
    }

    /**
     The clock. Whatever the state, a tick at or past its deadline does something about it: the
     state is left, a new attempt is made, or the broker has just been heard.
     */
    method Tick(time: nat, net: Network)
      requires Valid() && time >= now
      requires forall i :: 0 <= i < |net.input| && net.input[i].Data? ==> net.input[i].held < MqttInbound.IN_MAX
      modifies this
      ensures Valid() && now == time && attempts >= old(attempts) && accepts >= old(accepts)
      ensures Ticks(time)
      ensures state == Off <==> old(state) == Off
      ensures old(state) != Off && time >= old(ActsBy()) ==>
        state != old(state) || attempts > old(attempts) || (state == Ready && lastHeard == time)
      ensures tls == old(tls) && (accepts != old(accepts) ==> Accepting(net))
      ensures old(inLen) < MqttInbound.IN_MAX ==>
        && inLen < MqttInbound.IN_MAX
        && state == TickedTo(old(state), old(retryAt), old(lookupBy), old(deadline), old(moreToRead), old(lastHeard),
                             old(nextPing), time, net)
      ensures old(inLen) < MqttInbound.IN_MAX && (state == Greeting || state == Ready) ==>
        PacedTick(old(state), old(moreToRead), now, net, old(lastHeard), old(nextPing), state, lastHeard, nextPing)
    {
      hide Delay;
      hide TickedTo;
      hide PacedTick;
      hide Accepting;
      now := time;
      TickNow(net);
    }

    /** A tick, the clock being set. */
    method TickNow(net: Network)
      requires Valid()
      requires forall i :: 0 <= i < |net.input| && net.input[i].Data? ==> net.input[i].held < MqttInbound.IN_MAX
      modifies this
      ensures Valid() && Onward() && (accepts != old(accepts) ==> Accepting(net))
      ensures state == Off <==> old(state) == Off
      ensures old(state) != Off && now >= old(ActsBy()) ==>
        state != old(state) || attempts > old(attempts) || (state == Ready && lastHeard == now)
      ensures old(inLen) < MqttInbound.IN_MAX ==>
        state == TickedTo(old(state), old(retryAt), old(lookupBy), old(deadline), old(moreToRead), old(lastHeard),
                          old(nextPing), now, net)
      ensures old(inLen) < MqttInbound.IN_MAX && (state == Greeting || state == Ready) ==>
        PacedTick(old(state), old(moreToRead), now, net, old(lastHeard), old(nextPing), state, lastHeard, nextPing)
    {
      hide Delay;
      hide TickedOn;
      hide PacedTick;
      hide Begun;
      hide Accepting;
      hide Counted;
      TickLookup(net);
      TickState(net);
    }

    /** The lookup's own tick: it may have ended, and ends at its deadline at the latest. */
    method TickLookup(net: Network)
      requires Valid()
      modifies this
      ensures Valid() && Onward() && attempts == old(attempts) && accepts == old(accepts)
      ensures if old(state) == Resolving && (net.lookup.Some? || now >= old(lookupBy))
              then if net.lookup == Some(true) && net.opens && net.watched && net.connects
                   then state == Connecting && deadline > now
                   else state == Waiting && retryAt > now
              else unchanged(this)
    {
      hide Delay;
      if lookup && (net.lookup.Some? || now >= lookupBy) {
        OnResolved(net.lookup.Some? && net.lookup.value, net);
        DelayGrows(failures, failures);
      }
    }

    /** A tick, but for a lookup. */
    method TickState(net: Network)
      requires Valid()
      requires forall i :: 0 <= i < |net.input| && net.input[i].Data? ==> net.input[i].held < MqttInbound.IN_MAX
      modifies this
      ensures Valid() && Onward() && (accepts != old(accepts) ==> Accepting(net))
      ensures state == Off <==> old(state) == Off
      ensures old(state) == Waiting ==>
        if now >= old(retryAt) then state == Begun(net) && attempts > old(attempts)
        else state == Waiting && attempts == old(attempts)
      ensures old(state) != Off && now >= old(ActsBy()) && old(state) != Resolving ==>
        state != old(state) || attempts > old(attempts) || (state == Ready && lastHeard == now)
      ensures old(state) != Waiting ==> state == old(state) || state == Ready || state == Waiting
      ensures old(inLen) < MqttInbound.IN_MAX
              && (|| old(state) == Resolving
                  || ((old(state) == Connecting || old(state) == Securing) && now < old(deadline))) ==>
        state == old(state) && accepts == old(accepts)
      ensures (old(state) == Connecting || old(state) == Securing) && now >= old(deadline) ==> state == Waiting
      ensures (old(state) == Greeting || old(state) == Ready) && old(inLen) < MqttInbound.IN_MAX ==>
        state == if old(deadline) != 0 && now >= old(deadline) then Waiting
                 else TickedOn(old(state), old(moreToRead), now, old(lastHeard), old(nextPing), net)
      ensures old(inLen) < MqttInbound.IN_MAX && (state == Greeting || state == Ready) ==>
        PacedTick(old(state), old(moreToRead), now, net, old(lastHeard), old(nextPing), state, lastHeard, nextPing)
    {
      hide Delay;
      hide TickedOn;
      hide PacedTick;
      hide Counted;
      if state == Off {
        return;
      }
      if state == Waiting {
        if now >= retryAt {
          Attempt(net);
        }
        return;
      }
      TickConnection(net);
    }
  }

  /** In every state but OFF, a tick is due to act no more than `PATIENCE_MS` from now. */
  lemma ActsSoon(client: Client)
    requires client.Valid() && client.state != Off
    ensures client.ActsBy() <= client.now + PATIENCE_MS
  {
    DelayGrows(client.failures, client.failures);
  }

  // ---- every run -------------------------------------------------------------------------

  datatype Event =
    | Started(sound: bool, secured: bool, later: nat, net: Network)
    | Stopped
    | Resolved(found: bool, net: Network)
    | Socket(signals: Signals, net: Network)
    | Published(net: Network)
    | Ticked(later: nat, net: Network)

  /** A network whose reads leave less in the buffer than it holds, as `MqttInbound.Session` shows they do. */
  predicate Plausible(event: Event) {
    !event.Stopped? ==>
      forall i :: 0 <= i < |event.net.input| && event.net.input[i].Data? ==>
        event.net.input[i].held < MqttInbound.IN_MAX
  }

  /** Between events nothing is held that the state does not use, and every state but OFF has its time. */
  predicate Unparked(s: Snap) {
    && (s.socket <==> s.state in {Connecting, Securing, Greeting, Ready}) && (s.lookup <==> s.state == Resolving)
    && (s.state == Waiting ==> s.empty && s.delays != [] && s.actsBy == s.retryAt)
    && (s.state == Waiting ==> s.retryAt <= s.now + s.delays[|s.delays| - 1])
    && (s.state == Off ==> s.empty)
    && (s.state != Off ==> s.actsBy <= s.now + PATIENCE_MS)
    && (forall i, j :: 0 <= i <= j < |s.delays| ==> BACKOFF_BASE_MS <= s.delays[i] <= s.delays[j] <= BACKOFF_MAX_MS)
  }

  /**
   Only an accepting CONNACK starts the delays again. A failure adds the next one, and the retry is armed
   with just that delay; anything else leaves them, and a wait that goes on its retry.
   */
  predicate Carries(a: Snap, b: Snap, net: Network) {
    && b.tls == a.tls && a.attempts <= b.attempts && a.accepts <= b.accepts
    && (b.accepts != a.accepts ==> Accepting(net))
    && if b.state == Waiting && a.state == Waiting && b.attempts == a.attempts
       then b.delays == a.delays && b.retryAt == a.retryAt && b.accepts == a.accepts
       else Rearmed(if b.accepts == a.accepts then a.delays else [], b.delays, b.state == Waiting, b.retryAt, b.now)
  }

  /** How one event takes the client from `a` to `b`. */
  predicate Follows(a: Snap, event: Event, b: Snap) {
    match event
    case Started(sound, secured, later, net) =>
      if !sound then b == a
      else
        && b.now == a.now + later && b.tls == secured && b.attempts == a.attempts + 1
        && b.state == Begun(net) && b.failures == (if b.state == Waiting then 1 else 0)
        && Rearmed([], b.delays, b.state == Waiting, b.retryAt, b.now)
    case Stopped => if a.state == Off then b == a else b.state == Off && b.delays == [] && b.failures == 0
    case Resolved(found, net) =>
      && Carries(a, b, net) && b.now == a.now
      && b.state == if a.state != Resolving then a.state
                    else if found && net.opens && net.watched && net.connects then Connecting
                    else Waiting
    case Socket(signals, net) =>
      && Carries(a, b, net) && b.now == a.now && b.state == Signalled(a.state, a.tls, a.owed, signals, net)
      && (a.state in {Greeting, Ready} && b.state != Waiting ==>
            Paced(a.state, ReadsOn(a.owed, signals), b.now, net, a.lastHeard,
                  PingAfter(signals.writable && net.moved, b.now, a.nextPing), b.lastHeard, b.nextPing))
      && (a.state in {Connecting, Securing} && b.state == Greeting ==>
            && b.deadline == b.now + HANDSHAKE_TIMEOUT_MS && b.lastHeard == b.now
            && b.nextPing == PingAfter(net.moved, b.now, a.nextPing))
    case Published(net) =>
      && Carries(a, b, net) && b.now == a.now
      && b.state == (if a.state == Ready && net.room && !net.written then Waiting else a.state)
      && (b.state == Ready ==>
            b.lastHeard == a.lastHeard && b.nextPing == PingAfter(net.room && net.moved, b.now, a.nextPing))
    case Ticked(later, net) =>
      && Carries(a, b, net) && b.now == a.now + later
      && b.state == TickedTo(a.state, a.retryAt, a.lookupBy, a.deadline, a.more, a.lastHeard, a.nextPing, b.now, net)
      && (b.state in {Greeting, Ready} ==>
            PacedTick(a.state, a.more, b.now, net, a.lastHeard, a.nextPing, b.state, b.lastHeard, b.nextPing))
      && (a.state != Off && b.now >= a.actsBy ==>
            b.state != a.state || b.attempts > a.attempts || (b.state == Ready && b.lastHeard == b.now))
  }

  lemma Unparks(client: Client)
    requires client.Valid()
    ensures Unparked(client.Snapshot())
  {
    hide Delay;
    if client.state != Off {
      ActsSoon(client);
    }
    if |client.delays| > UINT32_MAX {
      DelaySaturates(|client.delays|);
    }
    forall i, j | 0 <= i <= j < |client.delays|
      ensures BACKOFF_BASE_MS <= client.delays[i] <= client.delays[j] <= BACKOFF_MAX_MS
    {
      DelayGrows(i + 1, j + 1);
    }
  }

  /** One event, whichever it is. */
  method Happen(client: Client, event: Event)
    requires client.Valid() && client.inLen < MqttInbound.IN_MAX && Plausible(event)
    modifies client
    ensures client.Valid() && client.inLen < MqttInbound.IN_MAX
    ensures Follows(old(client.Snapshot()), event, client.Snapshot())
  {
    hide Delay;
    hide HeardAll;
    hide TickedOn;
    hide RepliesToReads;
    hide Accepting;
    match event
    case Started(sound, secured, later, net) =>
      var _ := client.Start(sound, secured, client.now + later, net);
    case Stopped => client.Stop();
    case Resolved(found, net) => client.OnResolved(found, net);
    case Socket(signals, net) => client.OnSocket(signals, net);
    case Published(net) => client.Publish(net);
    case Ticked(later, net) => client.Tick(client.now + later, net);
  }

  /**
   The client never parks. From a start, through any events at any times, `trace` is the client
   before the first event and after each: at every point it holds only what its state uses and has a
   time, at most `PATIENCE_MS` away, past which a tick acts; each event leads where it should; and
   the delays armed never shrink until an accepting CONNACK, a start or a stop clears them.
   */
  method Life(secured: bool, time: nat, net: Network, events: seq<Event>)
    returns (client: Client, ghost trace: seq<Snap>)
    requires time > 0 && forall i :: 0 <= i < |events| ==> Plausible(events[i])
    ensures client.Valid() && |trace| == |events| + 1 && trace[|events|] == client.Snapshot()
    ensures trace[0].state == Begun(net) && trace[0].now == time && trace[0].tls == secured
    ensures Rearmed([], trace[0].delays, trace[0].state == Waiting, trace[0].retryAt, time)
    ensures forall i :: 0 <= i < |trace| ==> Unparked(trace[i])
    ensures forall i :: 0 <= i < |events| ==> Follows(trace[i], events[i], trace[i + 1])
  {
    hide Follows;
    hide Unparked;
    client := new Client();
    var _ := client.Start(true, secured, time, net);
    Unparks(client);
    trace := [client.Snapshot()];
    for i := 0 to |events|
      invariant client.Valid() && fresh(client) && client.inLen < MqttInbound.IN_MAX
      invariant |trace| == i + 1 && trace[i] == client.Snapshot()
      invariant trace[0].state == Begun(net) && trace[0].now == time && trace[0].tls == secured
      invariant Rearmed([], trace[0].delays, trace[0].state == Waiting, trace[0].retryAt, time)
      invariant forall k :: 0 <= k < |trace| ==> Unparked(trace[k])
      invariant forall k :: 0 <= k < i ==> Follows(trace[k], events[k], trace[k + 1])
    {
      assert Plausible(events[i]);
      Happen(client, events[i]);
      Unparks(client);
      trace := trace + [client.Snapshot()];
    }
  }
}
