/**
 Every run of a fetch: what holds after any events, whatever they bring. A caller is told once,
 in time and the truth, and the way there is bounded.
 */
module FetchRun {
  import opened Base
  import opened HttpHead
  import opened HttpMachine
  import opened HttpResponse
  import opened HttpFraming
  import opened FetchSteps

  // ---- what every event keeps ------------------------------------------------------------

  /** A reply that has been accepted, as far as it has come. */
  predicate Accepted(r: Request, m: Machine, body: string) {
    && (m.status != 0 ==> 200 <= m.status <= 299 && (r.ranged ==> m.status == 206))
    && (r.verb != HeadOnly ==> Within(r, body))
  }

  /** Within the limits on hops, addresses and connects. */
  predicate OnItsWay(route: Route) {
    && route.redirects <= REDIRECTS_MAX && route.next <= route.addresses <= ADDRESSES_MAX
    && route.sockets <= route.redirects * ADDRESSES_MAX + route.next
  }

  /** The reply of a running request is open, accepted so far, and silent before its request is sent. */
  predicate Waiting(s: Snap) {
    && s.results == [] && !Terminal(Reply(s.order.request, s.heard))
    && Accepted(s.order.request, Reply(s.order.request, s.heard), Delivered(s.order.request, s.heard))
    && (s.stage != Receiving ==> s.heard == "") && (s.stage == Resolving ==> s.route.next == 0)
  }

  predicate Fine(s: Snap) {
    s.order.announce && OnItsWay(s.route) && |s.results| <= 1 && (s.busy ==> Waiting(s))
  }

  /** What a success says: a reply that is complete, and its body, or the head if only that was asked for. */
  predicate Truthful(s: Snap, clean: bool) {
    var r := s.order.request;
    var m, body := Reply(r, s.heard), Delivered(r, s.heard);
    && s.results == [Result(Okay, m.status, if r.verb == HeadOnly then m.head else if GoesToFile(r) then "" else body)]
    && Accepted(r, m, body) && m.status != 0 && (r.verb == HeadOnly ==> |m.head| <= r.responseMax)
    && (m.phase == Done || (m.phase == UntilClose && clean))
  }

  predicate Okayed(s: Snap) {
    s.results != [] && s.results[0].verdict == Okay
  }

  /** Whether an event gets as far as reading, and what it has to offer then. */
  predicate SendsAll(world: World) {
    world.sending == Finished
  }

  predicate Greets(world: World) {
    world.handshake == Finished && world.fits && SendsAll(world)
  }

  predicate ReadsOnSocket(s: Snap, world: World) {
    match s.stage
    case Resolving => false
    case Connecting => world.signalled && world.connected && world.tlsStarts && Greets(world)
    case Handshaking => Greets(world)
    case Sending => SendsAll(world)
    case Receiving => true
  }

  predicate ReadsOnTick(s: Snap) {
    s.stage == Receiving && s.now < s.order.deadline && s.pace.more
    && !Stalled(if s.pace.progressed then s.(pace := s.pace.(progressed := false, lastProgress := s.now)) else s)
  }

  function Offer(s: Snap, event: Event): string {
    if !s.busy then ""
    else match event
      case Socket(world) => if ReadsOnSocket(s, world) then Offered(world) else ""
      case Ticked(time, world) => if ReadsOnTick(s.(now := time)) then Offered(world) else ""
      case _ => ""
  }

  /** The connection was closed cleanly behind what the event offered. */
  predicate CleanlyClosed(event: Event) {
    !event.Cancelled? && Last(event.world) == Ended(true)
  }

  /**
   What one step of a running request comes to: it goes on, on this hop or the next, or it ends and the
   caller is told. `offered` is what the step had to read, `clean` whether a clean close was behind it.
   */
  ghost predicate Comes(a: Snap, offered: string, clean: bool, b: Snap) {
    && b.order == a.order && OnItsWay(b.route) && (if b.busy then Waiting(b) else |b.results| == 1)
    && (if b.route.redirects == a.route.redirects
        then && a.heard <= b.heard && b.heard <= a.heard + offered && (b.busy ==> b.heard == a.heard + offered)
             && a.route.sockets <= b.route.sockets
        else b.route.redirects == a.route.redirects + 1 && b.heard == "" && !Okayed(b))
    && (Okayed(b) ==>
          && b.route == a.route && Truthful(b, clean)
          && (Reply(b.order.request, b.heard).phase == Done || b.heard == a.heard + offered))
  }

  /** An end that is no success, on this hop. */
  lemma DropComes(a: Snap, s: Snap, verdict: Verdict, clean: bool)
    requires a.order.announce && s.order == a.order && s.heard == a.heard && OnItsWay(s.route) && verdict != Okay
    requires s.route.redirects == a.route.redirects && s.route.sockets >= a.route.sockets
    ensures Comes(a, "", clean, Drop(s, verdict, ""))
  {
    hide Reply;
    hide Delivered;
    assert a.heard + "" == a.heard;
  }

  lemma {:induction false} TriesBounded(opens: seq<bool>, left: nat, i: nat)
    requires i <= left
    ensures i + Tries(opens, left, i) <= left
    decreases left - i
  {
    if i < left {
      TriesBounded(opens, left, i + 1);
    }
  }

  lemma TriedComes(s: Snap, world: World, clean: bool)
    requires Fine(s) && s.busy && s.heard == ""
    ensures Comes(s, "", clean, Tried(s, world)) && !Okayed(Tried(s, world))
  {
    hide Reply;
    hide Delivered;
    hide SomeOpens;
    hide Truthful;
    hide Accepted;
    var left := s.route.addresses - s.route.next;
    TriesBounded(world.opens, left, 0);
    var n := Tries(world.opens, left, 0);
    DropComes(s, s.(route := s.route.(next := s.route.next + n, sockets := s.route.sockets + n)), NetworkError, clean);
    hide Drop;
  }

  /** Nothing has been heard of a reply that has just begun. */
  lemma NothingYet(r: Request)
    ensures !Terminal(Reply(r, "")) && Accepted(r, Reply(r, ""), Delivered(r, ""))
  {
  }

  lemma HoppedComes(s: Snap, world: World)
    requires s.order.announce && s.busy && s.results == [] && Plausible(world)
    requires s.route.redirects <= REDIRECTS_MAX && s.route.sockets <= s.route.redirects * ADDRESSES_MAX
    ensures var b := Hopped(s, world);
            && b.order == s.order && b.route.redirects == s.route.redirects && b.heard == "" && !Okayed(b)
            && OnItsWay(b.route) && if b.busy then Waiting(b) else |b.results| == 1
  {
    NothingYet(s.order.request);
    hide Reply;
    hide Delivered;
    var t := s.(stage := Resolving, route := s.route.(addresses := 0, next := 0), heard := "");
    if world.numeric.Some? {
      TriedComes(t.(route := t.route.(addresses := world.numeric.value)), world, false);
      hide Tried;
    } else if !world.lookupStarts {
      DropComes(t, t, NetworkError, false);
      hide Drop;
    }
  }

  lemma MovedOnComes(a: Snap, s: Snap, world: World, offered: string, clean: bool)
    requires Fine(a) && a.busy && s.order == a.order && s.route == a.route && s.busy && s.results == []
    requires a.route.redirects < REDIRECTS_MAX && Plausible(world)
    ensures Comes(a, offered, clean, MovedOn(s, world))
  {
    hide Reply;
    hide Delivered;
    hide Truthful;
    hide Hopped;
    var t := s.(route := s.route.(redirects := s.route.redirects + 1), pace := s.pace.(more := false));
    assert t.route.sockets <= t.route.redirects * ADDRESSES_MAX;
    HoppedComes(t, world);
    hide Waiting;
    hide OnItsWay;
  }

  /** A reply that is wanted further is accepted so far. */
  lemma WantedAccepted(s: Snap, world: World, said: string)
    requires Waiting(s) && s.heard <= said
    requires FateOf(s.order.request, s.route.redirects, world, s.heard, said) == Wanted
    ensures !Terminal(Reply(s.order.request, said))
    ensures Accepted(s.order.request, Reply(s.order.request, said), Delivered(s.order.request, said))
  {
    Later(s.order.request, s.heard, said);
    hide Reply;
    hide Delivered;
    hide Handover;
    hide Within;
    hide HttpFraming.HeaderValue;
  }

  /** A success is told of a reply that is over, accepted, and within its limits. */
  lemma OkayTrue(s: Snap, world: World, said: string)
    requires Waiting(s) && s.heard <= said
    requires FateOf(s.order.request, s.route.redirects, world, s.heard, said).Settled?
    requires FateOf(s.order.request, s.route.redirects, world, s.heard, said).verdict == Okay
    ensures var r := s.order.request;
            var m, body := Reply(r, said), Delivered(r, said);
            && m.phase == Done && Accepted(r, m, body) && m.status != 0
            && Settled(Okay, FateOf(r, s.route.redirects, world, s.heard, said).text) == Handover(r, world, m, body)
  {
    var r := s.order.request;
    hide HttpMachine.Run;
    hide HttpMachine.Body;
    Later(r, s.heard, said);
    OverHasStatus(r, said);
    hide Reply;
    hide Delivered;
    hide Handover;
    hide Within;
    hide HttpFraming.HeaderValue;
  }

  lemma OverHasStatus(r: Request, heard: string)
    ensures Reply(r, heard).phase == Done ==> Reply(r, heard).status != 0
  {
    hide HttpMachine.Run;
    hide HttpMachine.Sound;
    BeginSound(r.verb == HeadOnly);
    RunSound(Begin(r.verb == HeadOnly), heard);
    SoundFacts(Reply(r, heard));
  }

  /** A redirect is followed only while there are some left. */
  lemma MovedInLimit(r: Request, redirects: nat, world: World, before: string, said: string)
    requires FateOf(r, redirects, world, before, said) == Moved
    ensures redirects < REDIRECTS_MAX
  {
    hide Reply;
    hide Delivered;
    hide HttpFraming.HeaderValue;
  }

  /** A turn of reading that heard all there was, and what came behind it. */
  lemma RestComes(a: Snap, t: Snap, world: World, clean: bool)
    requires Fine(a) && a.busy && a.stage == Receiving && t.order == a.order && t.route == a.route && t.busy
    requires t.stage == Receiving && t.results == [] && a.heard <= t.heard && !Last(world).Data?
    requires !Terminal(Reply(t.order.request, t.heard)) && clean == (Last(world) == Ended(true))
    requires Accepted(t.order.request, Reply(t.order.request, t.heard), Delivered(t.order.request, t.heard))
    ensures Comes(a, t.heard[|a.heard|..], clean, Rest(t, world, Last(world)))
  {
    assert a.heard + t.heard[|a.heard|..] == t.heard;
    if Last(world).Ended? && Closes(Reply(t.order.request, t.heard), Last(world).clean) {
      CloseIsClean(t.order.request, world, t.heard, Last(world).clean);
    }
    hide Reply;
    hide Delivered;
    hide Within;
    hide Closes;
  }

  lemma {:induction false} LastBringsNothing(input: seq<Read>, i: nat)
    ensures !LastFrom(input, i).Data?
    decreases READS_PER_TURN - i
  {
    if i < READS_PER_TURN && i < |input| && input[i].Data? {
      LastBringsNothing(input, i + 1);
    }
  }

  lemma TurnComes(s: Snap, world: World, said: string)
    requires Fine(s) && s.busy && s.stage == Receiving && Plausible(world)
    requires Listens(s.order.request, s.route.redirects, world, s.heard, Offered(world), said)
    ensures Comes(s, Offered(world), Last(world) == Ended(true), Turned(s, world, said))
  {
    var r, clean := s.order.request, Last(world) == Ended(true);
    var fate := FateOf(r, s.route.redirects, world, s.heard, said);
    var t := s.(heard := said, pace := s.pace.(more := false, progressed := s.pace.progressed || Progresses(world)));
    match fate {
      case Wanted =>
        LastBringsNothing(world.input, 0);
        WantedAccepted(s, world, said);
        RestComes(s, t, world, clean);
        assert said[|s.heard|..] == Offered(world);
      case Moved =>
        MovedInLimit(r, s.route.redirects, world, s.heard, said);
        MovedOnComes(s, t, world, Offered(world), clean);
      case Settled(verdict, text) =>
        SettledComes(s, t, world, said, Offered(world), clean);
    }
  }

  lemma SettledComes(s: Snap, t: Snap, world: World, said: string, offered: string, clean: bool)
    requires Fine(s) && s.busy && t.order == s.order && t.route == s.route && t.heard == said
    requires s.heard <= said && said <= s.heard + offered
    requires FateOf(s.order.request, s.route.redirects, world, s.heard, said).Settled?
    ensures var fate := FateOf(s.order.request, s.route.redirects, world, s.heard, said);
            Comes(s, offered, clean, Drop(t, fate.verdict, fate.text))
  {
    var fate := FateOf(s.order.request, s.route.redirects, world, s.heard, said);
    if fate.verdict == Okay {
      OkayTrue(s, world, said);
    }
    hide FateOf;
    hide Reply;
    hide Delivered;
    hide Within;
  }

  lemma ReceivedComes(s: Snap, world: World, b: Snap)
    requires Fine(s) && s.busy && s.stage == Receiving && Plausible(world) && Received(s, world, b)
    ensures Comes(s, Offered(world), Last(world) == Ended(true), b)
  {
    hide Comes;
    hide Turned;
    hide Listens;
    hide Fine;
    var said :| Listens(s.order.request, s.route.redirects, world, s.heard, Offered(world), said)
                && b == Turned(s, world, said);
    TurnComes(s, world, said);
  }

  lemma SentComes(s: Snap, world: World, b: Snap)
    requires Fine(s) && s.busy && s.heard == "" && s.stage != Resolving && Plausible(world) && Sent(s, world, b)
    ensures Comes(s, if SendsAll(world) then Offered(world) else "", Last(world) == Ended(true), b)
  {
    hide Reply;
    hide Delivered;
    hide Received;
    hide Truthful;
    hide Accepted;
    var t := s.(pace := s.pace.(progressed := s.pace.progressed || world.moved));
    match world.sending
    case Pending =>
    case Lost =>
      DropComes(s, t, NetworkError, Last(world) == Ended(true));
    case Finished =>
      ReceivedComes(t.(stage := Receiving), world, b);
  }

  lemma ShookComes(s: Snap, world: World, b: Snap)
    requires Fine(s) && s.busy && s.heard == "" && s.stage != Resolving && Plausible(world) && Shook(s, world, b)
    ensures Comes(s, if Greets(world) then Offered(world) else "", Last(world) == Ended(true), b)
  {
    hide Reply;
    hide Delivered;
    hide Sent;
    hide Truthful;
    hide Accepted;
    var clean := Last(world) == Ended(true);
    match world.handshake
    case Pending =>
    case Lost =>
      DropComes(s, s, TlsError, clean);
    case Finished =>
      if world.fits {
        SentComes(s.(stage := Sending, pace := s.pace.(lastProgress := s.now, progressed := true)), world, b);
      } else {
        DropComes(s, s, ProtocolError, clean);
      }
  }

  lemma ConnectsComes(s: Snap, world: World, b: Snap)
    requires Fine(s) && s.busy && s.stage == Connecting && Plausible(world) && Connects(s, world, b)
    ensures Comes(s, if world.connected && world.tlsStarts && Greets(world) then Offered(world) else "",
                  Last(world) == Ended(true), b)
  {
    hide Reply;
    hide Delivered;
    hide Shook;
    hide Tried;
    hide Truthful;
    hide Accepted;
    var clean := Last(world) == Ended(true);
    if !world.connected {
      TriedComes(s.(pace := s.pace.(more := false)), world, clean);
    } else if !world.tlsStarts {
      DropComes(s, s, TlsError, clean);
    } else {
      ShookComes(s.(stage := Handshaking), world, b);
    }
  }

  /** Nothing that matters here has changed. */
  lemma StillComes(a: Snap, b: Snap, clean: bool)
    requires Fine(a) && a.busy && b == a.(now := b.now, pace := b.pace)
    ensures Comes(a, "", clean, b)
  {
    hide Reply;
    hide Delivered;
    assert a.heard + "" == a.heard;
  }

  lemma SignalledComes(s: Snap, world: World, b: Snap)
    requires Fine(s) && s.busy && Plausible(world) && Signalled(s, world, b)
    ensures Comes(s, if ReadsOnSocket(s, world) then Offered(world) else "", Last(world) == Ended(true), b)
  {
    hide Comes;
    hide Reply;
    hide Delivered;
    match s.stage
    case Resolving => StillComes(s, s, Last(world) == Ended(true));
    case Connecting =>
      if world.signalled {
        ConnectsComes(s, world, b);
      } else {
        StillComes(s, s, Last(world) == Ended(true));
      }
    case Handshaking => ShookComes(s, world, b);
    case Sending => SentComes(s, world, b);
    case Receiving => ReceivedComes(s, world, b);
  }

  lemma LookedUpComes(s: Snap, world: World, clean: bool)
    requires Fine(s) && s.busy && Plausible(world) && world.found.Some?
    ensures Comes(s, "", clean, LookedUp(s, world))
  {
    hide Reply;
    hide Delivered;
    hide Tried;
    hide Truthful;
    hide Accepted;
    if s.stage != Resolving {
      StillComes(s, s, clean);
    } else if world.found.value == 0 {
      DropComes(s, s, NetworkError, clean);
    } else {
      TriedComes(s.(route := s.route.(addresses := world.found.value)), world, clean);
    }
  }

  lemma TicksOnComes(a: Snap, s: Snap, world: World, b: Snap)
    requires Fine(a) && a.busy && s == a.(now := s.now) && Plausible(world) && TicksOn(s, world, b)
    requires s.now < s.order.deadline
    ensures Comes(a, if ReadsOnTick(s) then Offered(world) else "", Last(world) == Ended(true), b)
  {
    hide Reply;
    hide Delivered;
    hide Tried;
    hide Received;
    hide Truthful;
    hide Accepted;
    var clean := Last(world) == Ended(true);
    var t := if s.pace.progressed then s.(pace := s.pace.(progressed := false, lastProgress := s.now)) else s;
    if Stalled(t) {
      DropComes(a, t, TimedOut, clean);
    } else if t.stage == Connecting && t.now >= t.route.attemptDeadline {
      TriedComes(t.(pace := t.pace.(more := false)), world, clean);
    } else if t.pace.more && t.stage == Receiving {
      ReceivedComes(t, world, b);
    } else {
      StillComes(a, t, clean);
    }
  }

  /** A lookup that ends in a tick, and the rest of the tick. */
  lemma ComesTwice(a: Snap, s: Snap, b: Snap, clean: bool)
    requires Fine(a) && a.busy && a.heard == "" && s.busy
    requires Comes(a, "", clean, s) && Comes(s, "", clean, b) && s.route.redirects == a.route.redirects
    ensures Comes(a, "", clean, b)
  {
    NothingYet(a.order.request);
    Begins(a.order.request);
    hide Reply;
    hide Delivered;
    hide Waiting;
    assert "" + "" == "";
  }

  lemma Begins(r: Request)
    ensures Reply(r, "").status == 0
  {
  }

  lemma TicksComes(a: Snap, s: Snap, world: World, b: Snap)
    requires Fine(a) && a.busy && s == a.(now := s.now) && Plausible(world) && Ticks(s, world, b)
    ensures Comes(a, if ReadsOnTick(s) then Offered(world) else "", Last(world) == Ended(true), b)
    ensures s.now >= s.order.deadline ==> !b.busy
  {
    var clean := Last(world) == Ended(true);
    hide Reply;
    hide Delivered;
    hide TicksOn;
    if s.stage == Resolving && world.found.Some? {
      FoundComes(a, s, world, b);
    } else if s.now >= s.order.deadline {
      DropComes(a, s, TimedOut, clean);
    } else {
      TicksOnComes(a, s, world, b);
    }
  }

  lemma FoundComes(a: Snap, s: Snap, world: World, b: Snap)
    requires Fine(a) && a.busy && s == a.(now := s.now) && Plausible(world) && Ticks(s, world, b)
    requires s.stage == Resolving && world.found.Some?
    ensures Comes(a, "", Last(world) == Ended(true), b) && (s.now >= s.order.deadline ==> !b.busy)
  {
    var clean := Last(world) == Ended(true);
    hide Reply;
    hide Delivered;
    hide TicksOn;
    hide Truthful;
    hide Accepted;
    var t := LookedUp(s, world);
    LookedUpComes(s, world, clean);
    LookedUpStays(s, world);
    hide LookedUp;
    assert s.heard + "" == s.heard;
    if t.busy {
      if t.now >= t.order.deadline {
        DropComes(t, t, TimedOut, clean);
      } else {
        TicksOnComes(t, t, world, b);
      }
      ComesTwice(s, t, b, clean);
    }
  }

  lemma LookedUpStays(s: Snap, world: World)
    requires world.found.Some?
    ensures var t := LookedUp(s, world);
            && t.now == s.now && t.route.redirects == s.route.redirects
            && (s.stage == Resolving && t.busy ==> t.stage == Connecting || !s.busy)
  {
    hide SomeOpens;
  }

  /** What any event but a cancellation makes of a running request. */
  lemma LeadsComes(a: Snap, event: Event, b: Snap)
    requires Expected(event) && !event.Cancelled? && Fine(a) && a.busy && Leads(a, event, b)
    ensures Comes(a, Offer(a, event), CleanlyClosed(event), b)
    ensures event.Ticked? && event.time >= a.order.deadline ==> !b.busy
  {
    hide Comes;
    hide Fine;
    hide Signalled;
    hide Ticks;
    hide ReadsOnSocket;
    hide ReadsOnTick;
    match event
    case Resolved(world) => LookedUpComes(a, world, CleanlyClosed(event));
    case Socket(world) => SignalledComes(a, world, b);
    case Ticked(time, world) => TicksComes(a, a.(now := time), world, b);
  }

  // ---- runs ------------------------------------------------------------------------------

  /** Each of the first `n` events led from one state of the trace to the next. */
  ghost predicate IsRun(trace: seq<Snap>, events: seq<Event>, n: nat) {
    && n <= |events| && |trace| == n + 1 && (forall i :: 0 <= i < n ==> Expected(events[i]))
    && (forall i :: 0 <= i < n ==> Leads(trace[i], events[i], trace[i + 1]))
  }

  /** A request whose first hop is under way. */
  predicate Fresh(s: Snap) {
    Fine(s) && s.busy && s.heard == ""
  }

  /** Where the hop of the `n`th state began. */
  function Since(trace: seq<Snap>, n: nat): (s: nat)
    requires n < |trace|
    ensures s <= n
  {
    if n == 0 then 0
    else if trace[n].route.redirects == trace[n - 1].route.redirects then Since(trace, n - 1)
    else n
  }

  /** All that the reads of the events from `start` to `end` had to offer. */
  function Brought(trace: seq<Snap>, events: seq<Event>, start: nat, end: nat): string
    requires start <= end <= |events| && end <= |trace|
  {
    if start == end then "" else Brought(trace, events, start, end - 1) + Offer(trace[end - 1], events[end - 1])
  }

  predicate CancelledIn(trace: seq<Snap>, events: seq<Event>, n: nat)
    requires n <= |events| && n <= |trace|
  {
    exists i :: 0 <= i < n && events[i].Cancelled? && trace[i].busy
  }

  /**
   The success of the `n`th state was earned in event `e`: that ended the request, and what was said is
   true of what was heard; and that is what the final hop brought - all of it up to that event, and then
   as much as the reply took, which was all of it where only a clean close completed it.
   */
  predicate EarnedIn(trace: seq<Snap>, events: seq<Event>, n: nat, e: nat)
    requires e < n < |trace| && n <= |events|
  {
    var s, since := trace[n], Since(trace, n);
    && since <= e && trace[e].busy && !trace[e + 1].busy && Truthful(s, CleanlyClosed(events[e]))
    && Brought(trace, events, since, e) <= s.heard && s.heard <= Brought(trace, events, since, e + 1)
    && (Reply(s.order.request, s.heard).phase == Done || s.heard == Brought(trace, events, since, e + 1))
  }

  predicate Earned(trace: seq<Snap>, events: seq<Event>, n: nat)
    requires n < |trace| && n <= |events|
  {
    exists e :: 0 <= e < n && EarnedIn(trace, events, n, e)
  }

  /** What was heard on this hop is the front of what it brought, and all of it while the request goes on. */
  predicate HeardSoFar(trace: seq<Snap>, events: seq<Event>, n: nat)
    requires n < |trace| && n <= |events|
  {
    var s, brought := trace[n], Brought(trace, events, Since(trace, n), n);
    s.heard <= brought && (s.busy ==> s.heard == brought)
  }

  /** A request runs until its caller is told or cancels it. */
  predicate ToldSoFar(trace: seq<Snap>, events: seq<Event>, n: nat)
    requires n < |trace| && n <= |events|
  {
    var s, cancelled := trace[n], CancelledIn(trace, events, n);
    && Fine(s) && s.order == trace[0].order
    && (s.busy <==> s.results == [] && !cancelled) && (cancelled ==> s.results == [])
  }

  /** A request that is over stays so, with what its caller was told. */
  lemma RestedLeads(a: Snap, event: Event, b: Snap)
    requires Expected(event) && Leads(a, event, b) && !a.busy
    ensures b == a.(now := b.now)
  {
    hide Signalled;
    hide Ticks;
    hide LookedUp;
  }

  lemma CancelledLeads(a: Snap, b: Snap)
    requires Leads(a, Cancelled, b) && a.busy
    ensures b == a.(busy := false, pace := b.pace)
  {
  }

  lemma CancelledMore(trace: seq<Snap>, events: seq<Event>, n: nat)
    requires n < |events| && n < |trace|
    ensures CancelledIn(trace, events, n + 1) <==>
              CancelledIn(trace, events, n) || (events[n].Cancelled? && trace[n].busy)
  {
    if CancelledIn(trace, events, n) {
      var i :| 0 <= i < n && events[i].Cancelled? && trace[i].busy;
      assert events[i].Cancelled? && trace[i].busy;
    }
  }

  /** One more event of a request that goes on. */
  lemma BusyMore(trace: seq<Snap>, events: seq<Event>, n: nat)
    requires n + 1 < |trace| && n < |events| && trace[n].busy && !events[n].Cancelled?
    requires HeardSoFar(trace, events, n) && ToldSoFar(trace, events, n)
    requires Comes(trace[n], Offer(trace[n], events[n]), CleanlyClosed(events[n]), trace[n + 1])
    ensures HeardSoFar(trace, events, n + 1) && ToldSoFar(trace, events, n + 1)
    ensures Okayed(trace[n + 1]) ==> EarnedIn(trace, events, n + 1, n)
  {
    hide Reply;
    hide Delivered;
    hide Accepted;
    hide OnItsWay;
    hide Offer;
    hide CleanlyClosed;
    hide Truthful;
    CancelledMore(trace, events, n);
    hide CancelledIn;
  }

  /** One more event of a request that is over, or is cancelled in it. */
  lemma RestedMore(trace: seq<Snap>, events: seq<Event>, n: nat)
    requires n + 1 < |trace| && n < |events| && HeardSoFar(trace, events, n) && ToldSoFar(trace, events, n)
    requires trace[n + 1] == trace[n].(busy := false, now := trace[n + 1].now, pace := trace[n + 1].pace)
    requires trace[n].busy ==> events[n].Cancelled?
    ensures HeardSoFar(trace, events, n + 1) && ToldSoFar(trace, events, n + 1)
  {
    hide Reply;
    hide Delivered;
    hide OnItsWay;
    hide Offered;
    CancelledMore(trace, events, n);
    hide CancelledIn;
    var brought := Brought(trace, events, Since(trace, n), n);
    assert brought + "" == brought;
  }

  lemma EarnedStays(trace: seq<Snap>, events: seq<Event>, n: nat)
    requires n + 1 < |trace| && n < |events| && Earned(trace, events, n)
    requires trace[n + 1] == trace[n].(now := trace[n + 1].now, pace := trace[n + 1].pace)
    ensures Earned(trace, events, n + 1)
  {
    hide Reply;
    hide Delivered;
    hide Accepted;
    hide Brought;
    hide CleanlyClosed;
    var e :| 0 <= e < n && EarnedIn(trace, events, n, e);
    assert EarnedIn(trace, events, n + 1, e);
  }

  /**
   Every run: however the events fall, the caller of a request is told exactly once unless it cancels,
   what was heard is what the hop brought, and a success was earned.
   */
  lemma {:induction false} RunSoFar(trace: seq<Snap>, events: seq<Event>, n: nat, k: nat)
    requires IsRun(trace, events, n) && k <= n && Fresh(trace[0])
    ensures HeardSoFar(trace, events, k) && ToldSoFar(trace, events, k)
    ensures Okayed(trace[k]) ==> Earned(trace, events, k)
  {
    hide Leads;
    hide Fine;
    hide HeardSoFar;
    hide ToldSoFar;
    hide Earned;
    if k == 0 {
      FirstSoFar(trace, events);
    } else {
      RunSoFar(trace, events, n, k - 1);
      var a, b := trace[k - 1], trace[k];
      SoFarFine(trace, events, k - 1);
      assert Leads(a, events[k - 1], b) && Expected(events[k - 1]);
      if !a.busy {
        RestedLeads(a, events[k - 1], b);
        RestedMore(trace, events, k - 1);
        if Okayed(b) {
          EarnedStays(trace, events, k - 1);
        }
      } else if events[k - 1].Cancelled? {
        CancelledLeads(a, b);
        RestedMore(trace, events, k - 1);
      } else {
        LeadsComes(a, events[k - 1], b);
        BusyMore(trace, events, k - 1);
        if Okayed(b) {
          EarnedNow(trace, events, k);
        }
      }
    }
  }

  lemma EarnedNow(trace: seq<Snap>, events: seq<Event>, n: nat)
    requires 0 < n < |trace| && n <= |events| && EarnedIn(trace, events, n, n - 1)
    ensures Earned(trace, events, n)
  {
  }

  lemma FirstSoFar(trace: seq<Snap>, events: seq<Event>)
    requires |trace| > 0 && Fresh(trace[0])
    ensures HeardSoFar(trace, events, 0) && ToldSoFar(trace, events, 0) && !Okayed(trace[0])
  {
  }

  lemma SoFarFine(trace: seq<Snap>, events: seq<Event>, n: nat)
    requires n < |trace| && n <= |events| && ToldSoFar(trace, events, n)
    ensures Fine(trace[n]) && (trace[n].busy ==> trace[n].results == [])
  {
  }

  predicate PastDue(event: Event, deadline: nat) {
    event.Ticked? && event.time >= deadline
  }

  lemma {:induction false} StaysOver(trace: seq<Snap>, events: seq<Event>, n: nat, i: nat)
    requires IsRun(trace, events, n) && i <= n && !trace[i].busy
    ensures !trace[n].busy
    decreases n - i
  {
    hide Leads;
    if i < n {
      assert Leads(trace[i], events[i], trace[i + 1]) && Expected(events[i]);
      RestedLeads(trace[i], events[i], trace[i + 1]);
      StaysOver(trace, events, n, i + 1);
    }
  }

  /** No request outlives the first tick at or past its deadline. */
  lemma InTime(trace: seq<Snap>, events: seq<Event>, n: nat, i: nat)
    requires IsRun(trace, events, n) && i < n && Fresh(trace[0]) && PastDue(events[i], trace[0].order.deadline)
    ensures !trace[i + 1].busy && !trace[n].busy
  {
    RunSoFar(trace, events, n, i);
    SoFarFine(trace, events, i);
    hide HeardSoFar;
    hide Fine;
    hide Leads;
    assert Leads(trace[i], events[i], trace[i + 1]) && Expected(events[i]);
    if trace[i].busy {
      LeadsComes(trace[i], events[i], trace[i + 1]);
    } else {
      RestedLeads(trace[i], events[i], trace[i + 1]);
    }
    StaysOver(trace, events, n, i + 1);
  }

  /** A run begins no more connects than hops times addresses. */
  lemma SocketsBounded(trace: seq<Snap>, events: seq<Event>, n: nat, k: nat)
    requires IsRun(trace, events, n) && k <= n && Fresh(trace[0])
    ensures trace[k].route.sockets <= (REDIRECTS_MAX + 1) * ADDRESSES_MAX
  {
    hide Leads;
    RunSoFar(trace, events, n, k);
    SoFarFine(trace, events, k);
    hide Waiting;
  }

  /** A request that gets under way has heard nothing yet and has told nothing. */
  lemma BegunFresh(what: Request, time: nat, world: World)
    requires Plausible(world) && Underway(world)
    ensures Fresh(Begun(what, time, world))
  {
    hide Reply;
    hide Delivered;
    hide SomeOpens;
    var s := Asked(what, time);
    var t := s.(order := s.order.(announce := true));
    assert Hopped(t, world) == Begun(what, time, world);
    HoppedComes(t, world);
    hide Waiting;
  }
}
