/**
 What the client does with what the network answers, rule by rule, and what that makes of every run:
 above all that a client meant to be secure speaks to nobody before a handshake is agreed.
 */
module MqttRules {
  import opened Base
  import opened MqttClient

  // ---- the delay -------------------------------------------------------------------------

  /** Five seconds after a first failure, and twice as long after each one more, up to five minutes. */
  lemma DelayRule(failures: nat)
    requires failures > 0
    ensures Delay(1) == 5000 && Delay(failures + 1) == Min(2 * Delay(failures), 300000)
  {
    assert Pow2(5) == 32 && Pow2(6) == 64;
    if failures <= 6 {
      assert Pow2(failures) == 2 * Pow2(failures - 1);
    }
    if failures == 6 {
      assert Delay(6) == 160000;
    }
  }

  // ---- one event -------------------------------------------------------------------------

  /** An attempt: a connect at once to a literal address, a lookup for any other, a wait if neither can begin. */
  predicate Attempts(net: Network, state: State) {
    if net.literal then state == if net.opens && net.watched && net.connects then Connecting else Waiting
    else state == if net.lookupStarts then Resolving else Waiting
  }

  lemma StartRule(a: Snap, secured: bool, later: nat, net: Network, b: Snap)
    requires Follows(a, Started(true, secured, later, net), b)
    ensures Attempts(net, b.state) && b.tls == secured
  {
  }

  /** A CONNECT is queued and written, or the client waits. */
  predicate Greeted(net: Network, state: State) {
    state == if net.room && net.written then Greeting else Waiting
  }

  /** A handshake goes on, ends the attempt, or lets the client greet. */
  predicate Handshakes(net: Network, state: State) {
    match net.handshake
    case Unfinished => state == Securing
    case Refused => state == Waiting
    case Agreed => Greeted(net, state)
  }

  /** The end of a connect: under TLS a handshake comes before anything else. */
  lemma ConnectRule(a: Snap, signals: Signals, net: Network, b: Snap)
    requires Follows(a, Socket(signals, net), b) && a.state == Connecting
    ensures if !signals.writable && !signals.failed then b.state == Connecting
            else if !net.connected then b.state == Waiting
            else if !a.tls then Greeted(net, b.state)
            else if !net.tlsStarts then b.state == Waiting
            else Handshakes(net, b.state)
  {
  }

  lemma SecureRule(a: Snap, signals: Signals, net: Network, b: Snap)
    requires Follows(a, Socket(signals, net), b) && a.state == Securing
    ensures if signals.failed then b.state == Waiting else Handshakes(net, b.state)
  {
  }

  /** A connection that is up: lost, read from, or left alone. */
  lemma LinkRule(a: Snap, signals: Signals, net: Network, b: Snap)
    requires Follows(a, Socket(signals, net), b) && (a.state == Greeting || a.state == Ready)
    ensures if signals.failed || (signals.writable && !net.written) then b.state == Waiting
            else if signals.readable || (signals.writable && a.owed) then b.state == HeardAll(a.state, net.input, 0)
            else b.state == a.state
  {
    hide HeardAll;
  }

  /** A tick of a client that has nothing left to read. */
  lemma TickRule(a: Snap, later: nat, net: Network, b: Snap)
    requires Follows(a, Ticked(later, net), b) && !a.more
    ensures match a.state
            case Off => b.state == Off
            case Waiting => if b.now >= a.retryAt then Attempts(net, b.state) else b.state == Waiting
            case Resolving =>
              if net.lookup.None? && b.now < a.lookupBy then b.state == Resolving
              else b.state == if net.lookup == Some(true) && net.opens && net.watched && net.connects
                              then Connecting else Waiting
            case Ready =>
              a.deadline == 0 ==>
                b.state == if b.now > a.lastHeard + 90000
                              || (a.nextPing != 0 && b.now >= a.nextPing && !(net.room && net.written))
                           then Waiting else Ready
            case _ => a.deadline != 0 ==> b.state == if b.now >= a.deadline then Waiting else a.state
  {
    hide HeardAll;
    hide RepliesToReads;
  }

  // ---- packets ---------------------------------------------------------------------------

  predicate Harmless(packet: Packet) {
    packet.Benign? && !packet.breaks
  }

  predicate Welcomes(packet: Packet) {
    packet.Connack? && packet.wellFormed && packet.code == 0 && !packet.breaks
  }

  /** The packet at `k` is the welcome: before it come only such as need no answer, behind it only harmless ones. */
  predicate WelcomedAt(packets: seq<Packet>, from: nat, k: nat) {
    && from <= k < |packets| && Welcomes(packets[k])
    && (forall j :: from <= j < k ==> packets[j].Benign?) && (forall j :: k < j < |packets| ==> Harmless(packets[j]))
  }

  lemma {:induction false} WaitsOn(packets: seq<Packet>, from: nat)
    requires from <= |packets|
    ensures AnsweredAll(Waiting, packets, from) == Waiting
  {
  }

  /** A ready client stays so exactly if all that comes is harmless. */
  lemma {:induction false} ReadyPackets(packets: seq<Packet>, from: nat)
    requires from <= |packets|
    ensures AnsweredAll(Ready, packets, from)
            == if forall j :: from <= j < |packets| ==> Harmless(packets[j]) then Ready else Waiting
    decreases |packets| - from
  {
    if from < |packets| {
      ReadyPackets(packets, from + 1);
      WaitsOn(packets, from + 1);
    }
  }

  /** A greeting client is ready exactly if it is welcomed, and goes on greeting if nothing answers it. */
  lemma {:induction false} GreetingPackets(packets: seq<Packet>, from: nat)
    requires from <= |packets|
    ensures AnsweredAll(Greeting, packets, from)
            == if forall j :: from <= j < |packets| ==> packets[j].Benign? then Greeting
               else if exists k :: WelcomedAt(packets, from, k) then Ready else Waiting
    decreases |packets| - from
  {
    if from < |packets| {
      var packet := packets[from];
      if packet.Benign? {
        var next := from + 1;
        GreetingPackets(packets, next);
        if k :| WelcomedAt(packets, next, k) {
          assert WelcomedAt(packets, from, k);
        }
        if k :| WelcomedAt(packets, from, k) {
          assert WelcomedAt(packets, next, k);
        }
      } else if Welcomes(packet) {
        ReadyPackets(packets, from + 1);
        if forall j :: from < j < |packets| ==> Harmless(packets[j]) {
          assert WelcomedAt(packets, from, from);
        }
        if k :| WelcomedAt(packets, from, k) {
          assert k == from;
        }
      } else {
        WaitsOn(packets, from + 1);
      }
    }
  }

  /** The packets of the reads from `turn` on that brought something, one behind the other. */
  function Packets(input: seq<Read>, turn: nat): seq<Packet>
    decreases READS_PER_TURN - turn
  {
    if turn >= READS_PER_TURN || turn >= |input| || !input[turn].Data? then []
    else input[turn].packets + Packets(input, turn + 1)
  }

  /** Whether the connection was found gone behind them. */
  predicate GoneBehind(input: seq<Read>, turn: nat)
    decreases READS_PER_TURN - turn
  {
    turn < READS_PER_TURN && turn < |input|
    && match input[turn]
       case Data(_, _) => GoneBehind(input, turn + 1)
       case Again(_, _) => false
       case Gone => true
  }

  lemma {:induction false} AnsweredJoins(state: State, a: seq<Packet>, b: seq<Packet>, i: nat)
    requires i <= |a|
    ensures AnsweredAll(state, a + b, i) == AnsweredAll(AnsweredAll(state, a, i), b, 0)
    decreases |a| - i
  {
    if i == |a| {
      AnsweredShifts(state, a, b, 0);
    } else if state == Waiting {
      WaitsOn(b, 0);
    } else {
      assert (a + b)[i] == a[i];
      AnsweredJoins(Answered(state, a[i]), a, b, i + 1);
    }
  }

  lemma {:induction false} AnsweredShifts(state: State, a: seq<Packet>, b: seq<Packet>, j: nat)
    requires j <= |b|
    ensures AnsweredAll(state, a + b, |a| + j) == AnsweredAll(state, b, j)
    decreases |b| - j
  {
    if j < |b| && state != Waiting {
      assert (a + b)[|a| + j] == b[j];
      AnsweredShifts(Answered(state, b[j]), a, b, j + 1);
    }
  }

  /** However packets are cut into reads, they are answered as one run; then a lost connection is waited out. */
  lemma {:induction false} ReadsAreRun(state: State, input: seq<Read>, turn: nat)
    requires turn <= READS_PER_TURN
    ensures HeardAll(state, input, turn)
            == if GoneBehind(input, turn) then Waiting else AnsweredAll(state, Packets(input, turn), 0)
    decreases READS_PER_TURN - turn
  {
    hide Answered;
    if state == Waiting {
      WaitsOn(Packets(input, turn), 0);
    } else if turn < READS_PER_TURN && turn < |input| && input[turn].Data? {
      var packets := input[turn].packets;
      ReadsAreRun(AnsweredAll(state, packets, 0), input, turn + 1);
      AnsweredJoins(state, packets, Packets(input, turn + 1), 0);
    }
  }

  // ---- a network that answers well -------------------------------------------------------

  predicate AnswersWell(tls: bool, net: Network) {
    && net.literal && net.opens && net.watched && net.connects && net.connected && net.room && net.written
    && (tls ==> net.tlsStarts && net.handshake == Agreed)
  }

  /** Started, connected and welcomed, the client is ready. */
  lemma GetsReady(trace: seq<Snap>, secured: bool, later: nat, net: Network, input: seq<Read>, packets: seq<Packet>,
                  k: nat)
    requires AnswersWell(secured, net) && |trace| == 4 && input == [Data(packets, 0)] && WelcomedAt(packets, 0, k)
    requires Follows(trace[0], Started(true, secured, later, net), trace[1])
    requires Follows(trace[1], Socket(Signals(false, true, false), net), trace[2])
    requires Follows(trace[2], Socket(Signals(true, false, false), net.(input := input)), trace[3])
    ensures trace[1].state == Connecting && trace[2].state == Greeting && trace[3].state == Ready
  {
    StartRule(trace[0], secured, later, net, trace[1]);
    ConnectRule(trace[1], Signals(false, true, false), net, trace[2]);
    LinkRule(trace[2], Signals(true, false, false), net.(input := input), trace[3]);
    hide Follows;
    hide HeardAll;
    hide AnsweredAll;
    ReadsAreRun(Greeting, input, 0);
    assert Packets(input, 1) == [] && Packets(input, 0) == packets + [] == packets && !GoneBehind(input, 1);
    GreetingPackets(packets, 0);
    assert !packets[k].Benign?;
  }

  // ---- every run -------------------------------------------------------------------------

  predicate IsRun(trace: seq<Snap>, events: seq<Event>) {
    |trace| == |events| + 1 && forall i :: 0 <= i < |events| ==> Follows(trace[i], events[i], trace[i + 1])
  }

  predicate Up(s: Snap) {
    s.state == Greeting || s.state == Ready
  }

  /** An event in which a client under TLS found its peer's handshake agreed, right away or after some turns. */
  predicate Agrees(a: Snap, event: Event) {
    && a.tls && event.Socket? && event.net.handshake == Agreed
    && (a.state == Securing || (a.state == Connecting && event.net.connected && event.net.tlsStarts))
  }

  lemma {:induction false} AnsweredFrom(state: State, packets: seq<Packet>, i: nat)
    requires i <= |packets| && (state == Greeting || state == Ready || state == Waiting)
    ensures AnsweredAll(state, packets, i) in {Greeting, Ready, Waiting}
    decreases |packets| - i
  {
    if i < |packets| && state != Waiting {
      AnsweredFrom(Answered(state, packets[i]), packets, i + 1);
    }
  }

  lemma HeardFrom(state: State, input: seq<Read>)
    requires state == Greeting || state == Ready
    ensures HeardAll(state, input, 0) in {Greeting, Ready, Waiting}
  {
    hide HeardAll;
    ReadsAreRun(state, input, 0);
    AnsweredFrom(state, Packets(input, 0), 0);
  }

  /** A connection is up after an event only if it was before, or the event set it up: under TLS, securely. */
  lemma SetUp(a: Snap, event: Event, b: Snap)
    requires Follows(a, event, b) && Up(b)
    ensures b.tls == a.tls && (Up(a) || (b.state == Greeting && (a.tls ==> Agrees(a, event))))
  {
    hide HeardAll;
    hide RepliesToReads;
    hide Rearmed;
    hide Accepting;
    if event.Ticked? && Up(a) {
      HeardFrom(a.state, event.net.input);
    }
  }

  /** A client that is securing got there from a connect under TLS that let the session start. */
  lemma SetUpSecuring(a: Snap, event: Event, b: Snap)
    requires Follows(a, event, b) && b.state == Securing
    ensures b.tls == a.tls
    ensures a.state == Securing
            || (a.state == Connecting && a.tls && event.Socket? && event.net.connected && event.net.tlsStarts)
  {
    hide HeardAll;
    hide RepliesToReads;
    hide Rearmed;
    hide Accepting;
    if Up(a) && (event.Ticked? || event.Socket?) {
      HeardFrom(a.state, event.net.input);
    }
  }

  /** The connection of the `k`th state has been up since event `j`, in which its handshake was agreed. */
  predicate SecureSince(trace: seq<Snap>, events: seq<Event>, k: nat, j: nat)
    requires j < k < |trace| == |events| + 1
  {
    Agrees(trace[j], events[j]) && forall i :: j < i <= k ==> Up(trace[i]) && trace[i].tls
  }

  /**
   A client that was told to be secure greets nobody, and is ready for nothing, without a handshake agreed
   on that very connection.
   */
  lemma {:induction false} NeverInTheClear(trace: seq<Snap>, events: seq<Event>, k: nat)
    requires IsRun(trace, events) && k < |trace| && !Up(trace[0]) && Up(trace[k]) && trace[k].tls
    ensures exists j :: 0 <= j < k && SecureSince(trace, events, k, j)
  {
    hide Follows;
    var a, b := trace[k - 1], trace[k];
    assert Follows(a, events[k - 1], b);
    SetUp(a, events[k - 1], b);
    if Up(a) {
      NeverInTheClear(trace, events, k - 1);
      var j :| 0 <= j < k - 1 && SecureSince(trace, events, k - 1, j);
      assert SecureSince(trace, events, k, j);
    } else {
      assert SecureSince(trace, events, k, k - 1);
    }
  }

  /** And the handshake itself is on a session that was started when the connect ended. */
  lemma {:induction false} SecuringSince(trace: seq<Snap>, events: seq<Event>, k: nat)
    requires IsRun(trace, events) && k < |trace| && trace[0].state != Securing && trace[k].state == Securing
    ensures exists j :: 0 <= j < k && trace[j].state == Connecting && trace[j].tls && events[j].Socket?
                        && events[j].net.connected && events[j].net.tlsStarts
                        && forall i :: j < i <= k ==> trace[i].state == Securing && trace[i].tls
  {
    hide Follows;
    var a, b := trace[k - 1], trace[k];
    assert Follows(a, events[k - 1], b);
    SetUpSecuring(a, events[k - 1], b);
    if a.state == Securing {
      SecuringSince(trace, events, k - 1);
    } else {
      assert trace[k - 1].state == Connecting && events[k - 1].Socket?;
    }
  }

  /** All of it of the client's own runs. */
  method SecureLife(secured: bool, time: nat, net: Network, events: seq<Event>)
    returns (client: Client, ghost trace: seq<Snap>)
    requires time > 0 && forall i :: 0 <= i < |events| ==> Plausible(events[i])
    ensures client.Valid() && IsRun(trace, events) && trace[|events|] == client.Snapshot()
    ensures trace[0].tls == secured && Attempts(net, trace[0].state)
    ensures forall k :: 0 <= k < |trace| && trace[k].tls && Up(trace[k]) ==>
      exists j :: 0 <= j < k && SecureSince(trace, events, k, j)
  {
    hide Follows;
    client, trace := Life(secured, time, net, events);
    forall k | 0 <= k < |trace| && trace[k].tls && Up(trace[k])
      ensures exists j :: 0 <= j < k && SecureSince(trace, events, k, j)
    {
      NeverInTheClear(trace, events, k);
    }
  }
}
