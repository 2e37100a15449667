/**
 What a fetch does with what a server says, rule by rule: which redirects are followed, what every other
 head leads to, when a reply is told as a success, and how long anything is waited for.
 */
module FetchRules {
  import opened Base
  import opened HttpHead
  import opened HttpMachine
  import opened HttpFraming
  import opened HttpWhole
  import opened HttpSent
  import opened HttpResponse
  import opened FetchSteps
  import opened FetchRun

  // ---- heads -----------------------------------------------------------------------------

  /** `said` ends the head of a reply, of which `before` had not. */
  predicate HeadIsIn(r: Request, before: string, said: string) {
    && before <= said && Reply(r, before).status == 0
    && Reply(r, said).status != 0 && Reply(r, said).phase != Failed
  }

  /** A redirect that may be followed: not of a POST, to a place that is named, usable and still on https. */
  predicate MayFollow(r: Request, redirects: nat, world: World, m: Machine) {
    && r.verb != Post && m.status in {301, 302, 303, 307, 308}
    && HeaderValue(m, "location").Some? && world.location == Usable && redirects < 5
  }

  /** What each head leads to, by its status, the request and where it points. */
  lemma HeadVerdicts(r: Request, redirects: nat, world: World, before: string, said: string)
    requires HeadIsIn(r, before, said)
    ensures var m, fate := Reply(r, said), FateOf(r, redirects, world, before, said);
            var located := HeaderValue(m, "location").Some?;
            && (r.verb == Post && 300 <= m.status <= 399 ==> fate == Settled(ProtocolError, ""))
            && (r.verb != Post && m.status in {301, 302, 303, 307, 308} ==>
                  if !located then fate == Settled(HttpStatus, "")
                  else if redirects >= 5 || world.location != Usable then fate == Settled(ProtocolError, "")
                  else fate == Moved)
            && (r.verb != Post && 300 <= m.status <= 399 && m.status !in {301, 302, 303, 307, 308} ==>
                  fate == Settled(HttpStatus, ""))
            && (m.status < 200 || m.status >= 400 ==> fate == Settled(HttpStatus, ""))
            && (200 <= m.status <= 299 && r.ranged && m.status != 206 ==> fate == Settled(ProtocolError, ""))
            && (200 <= m.status <= 299 && (r.ranged ==> m.status == 206) && r.toFile && r.verb == Get ==>
                  !world.fileOpens ==> fate == Settled(FileError, ""))
  {
    hide Reply;
    hide Delivered;
    hide HttpFraming.HeaderValue;
    hide Yield;
  }

  /** A reply moves on exactly with the head of a redirect that may be followed. */
  lemma MovesExactly(r: Request, redirects: nat, world: World, before: string, said: string)
    ensures FateOf(r, redirects, world, before, said) == Moved <==>
      && Reply(r, before).status == 0 && Reply(r, said).status != 0 && Reply(r, said).phase != Failed
      && MayFollow(r, redirects, world, Reply(r, said))
  {
    hide Reply;
    hide Delivered;
    hide HttpFraming.HeaderValue;
  }

  // ---- hops ------------------------------------------------------------------------------

  /** The reply of `a`'s hop, heard further to `said`, is a redirect that may be followed. */
  predicate Redirects(a: Snap, world: World, said: string) {
    && a.heard <= said && said <= a.heard + Offered(world)
    && Reply(a.order.request, said).status != 0
    && MayFollow(a.order.request, a.route.redirects, world, Reply(a.order.request, said))
  }

  ghost predicate Redirected(a: Snap, world: World) {
    exists said: string :: Redirects(a, world, said)
  }

  lemma TriedStays(s: Snap, world: World)
    ensures Tried(s, world).route.redirects == s.route.redirects
    ensures Tried(s, world).stage == s.stage || Tried(s, world).stage == Connecting
  {
  }

  lemma HoppedStays(s: Snap, world: World)
    ensures Hopped(s, world).route.redirects == s.route.redirects
  {
    hide Tried;
    var t := s.(stage := Resolving, route := s.route.(addresses := 0, next := 0), heard := "");
    if world.numeric.Some? {
      TriedStays(t.(route := t.route.(addresses := world.numeric.value)), world);
    }
  }

  lemma TurnHops(s: Snap, world: World, said: string)
    requires Listens(s.order.request, s.route.redirects, world, s.heard, Offered(world), said)
    requires Turned(s, world, said).route.redirects != s.route.redirects
    ensures Redirects(s, world, said)
  {
    MovesExactly(s.order.request, s.route.redirects, world, s.heard, said);
    hide FateOf;
    hide Hopped;
    hide MayFollow;
    hide Closes;
    hide Reply;
    hide Delivered;
    var t := s.(heard := said, pace := s.pace.(more := false, progressed := s.pace.progressed || Progresses(world)));
    HoppedStays(t.(route := t.route.(redirects := t.route.redirects + 1)), world);
  }

  lemma ReceivedHops(s: Snap, world: World, b: Snap)
    requires Received(s, world, b) && b.route.redirects != s.route.redirects
    ensures Redirected(s, world)
  {
    hide Turned;
    hide Listens;
    hide Redirects;
    var said :| Listens(s.order.request, s.route.redirects, world, s.heard, Offered(world), said)
                && b == Turned(s, world, said);
    TurnHops(s, world, said);
  }

  /** The same reply, with the request at another stage. */
  lemma SameHop(a: Snap, s: Snap, world: World)
    requires Redirected(s, world) && s.order == a.order && s.route.redirects == a.route.redirects && s.heard == a.heard
    ensures Redirected(a, world)
  {
    hide MayFollow;
    var said :| Redirects(s, world, said);
    assert Redirects(a, world, said);
  }

  lemma SentHops(s: Snap, world: World, b: Snap)
    requires Sent(s, world, b) && b.route.redirects != s.route.redirects
    ensures Redirected(s, world)
  {
    hide Received;
    hide Redirected;
    var t := s.(stage := Receiving, pace := s.pace.(progressed := s.pace.progressed || world.moved));
    ReceivedHops(t, world, b);
    SameHop(s, t, world);
  }

  lemma ShookHops(s: Snap, world: World, b: Snap)
    requires Shook(s, world, b) && b.route.redirects != s.route.redirects
    ensures Redirected(s, world)
  {
    hide Sent;
    hide Redirected;
    var t := s.(stage := Sending, pace := s.pace.(lastProgress := s.now, progressed := true));
    SentHops(t, world, b);
    SameHop(s, t, world);
  }

  lemma SignalledHops(s: Snap, world: World, b: Snap)
    requires Signalled(s, world, b) && b.route.redirects != s.route.redirects
    ensures Redirected(s, world)
  {
    hide Sent;
    hide Shook;
    hide Received;
    hide Tried;
    hide Redirected;
    match s.stage
    case Resolving =>
    case Connecting =>
      TriedStays(s.(pace := s.pace.(more := false)), world);
      ShookHops(s.(stage := Handshaking), world, b);
      SameHop(s, s.(stage := Handshaking), world);
    case Handshaking => ShookHops(s, world, b);
    case Sending => SentHops(s, world, b);
    case Receiving => ReceivedHops(s, world, b);
  }

  lemma TicksHops(s: Snap, world: World, b: Snap)
    requires Ticks(s, world, b) && b.route.redirects != s.route.redirects
    ensures Redirected(s, world)
  {
    hide Received;
    hide Tried;
    hide Redirected;
    if s.stage == Resolving && world.found.Some? {
      TriedStays(s.(route := s.route.(addresses := world.found.value)), world);
    }
    var f := if s.stage == Resolving && world.found.Some? then LookedUp(s, world) else s;
    var t := if f.pace.progressed then f.(pace := f.pace.(progressed := false, lastProgress := f.now)) else f;
    TriedStays(t.(pace := t.pace.(more := false)), world);
    if t.stage == Receiving {
      ReceivedHops(t, world, b);
      SameHop(s, t, world);
    }
  }

  /** Every hop of a run but the first is that of a redirect its server sent and that may be followed. */
  lemma HopsFollow(a: Snap, event: Event, b: Snap)
    requires Expected(event) && Leads(a, event, b) && b.route.redirects != a.route.redirects
    ensures a.busy && (event.Socket? || event.Ticked?) && Redirected(a, event.world)
  {
    hide Signalled;
    hide Ticks;
    hide Tried;
    hide Redirected;
    match event
    case Cancelled =>
    case Resolved(world) => TriedStays(a.(route := a.route.(addresses := world.found.value)), world);
    case Socket(world) => SignalledHops(a, world, b);
    case Ticked(time, world) =>
      TicksHops(a.(now := time), world, b);
      SameHop(a, a.(now := time), world);
  }

  lemma NeverOfPost(a: Snap, world: World)
    requires Redirected(a, world)
    ensures a.order.request.verb != Post
  {
    hide Reply;
    hide HttpFraming.HeaderValue;
  }

  /** So the body of a POST goes to the host that was named, and to no other. */
  lemma {:induction false} PostStays(trace: seq<Snap>, events: seq<Event>, n: nat, k: nat)
    requires IsRun(trace, events, n) && k <= n && Fresh(trace[0]) && trace[0].order.request.verb == Post
    ensures trace[k].route.redirects == trace[0].route.redirects
  {
    hide Leads;
    hide Redirected;
    if k > 0 {
      PostStays(trace, events, n, k - 1);
      var a, b := trace[k - 1], trace[k];
      assert Leads(a, events[k - 1], b) && Expected(events[k - 1]);
      RunSoFar(trace, events, n, k - 1);
      hide HeardSoFar;
      hide Fine;
      if b.route.redirects != a.route.redirects {
        HopsFollow(a, events[k - 1], b);
        NeverOfPost(a, events[k - 1].world);
      }
    }
  }

  // ---- success ---------------------------------------------------------------------------

  /** A reply worth handing over, as it is sent: its head accepted, its body within the limit, its file working. */
  predicate Welcome(r: Request, world: World, m: Machine, body: string) {
    && 200 <= m.status <= 299 && (r.ranged ==> m.status == 206)
    && (r.toFile && r.verb == Get ==>
          && world.fileOpens && world.fileWrites && world.fileCloses
          && (r.outputMax == 0 || |body| <= r.outputMax))
    && (!(r.toFile && r.verb == Get) ==> |body| <= r.responseMax)
    && (r.verb == HeadOnly ==> |m.head| <= r.responseMax)
  }

  /** `wire` is a whole reply: over with its last byte and not before, and worth handing over. */
  predicate WholeReply(r: Request, world: World, wire: string) {
    && wire != "" && Reply(r, wire).phase == Done && !Terminal(Reply(r, wire[..|wire| - 1]))
    && Welcome(r, world, Reply(r, wire), Delivered(r, wire))
  }

  /** While only a part of it is in, more is wanted. */
  lemma PartWanted(r: Request, redirects: nat, world: World, before: string, said: string, wire: string)
    requires WholeReply(r, world, wire) && before <= said && said < wire
    ensures FateOf(r, redirects, world, before, said) == Wanted
  {
    var last := wire[..|wire| - 1];
    assert said <= last;
    Later(r, said, last);
    Later(r, said, wire);
    Later(r, before, said);
    hide Reply;
    hide Delivered;
    hide HttpFraming.HeaderValue;
  }

  lemma WholeSettles(r: Request, redirects: nat, world: World, before: string, wire: string)
    requires WholeReply(r, world, wire) && before < wire
    ensures var m, body := Reply(r, wire), Delivered(r, wire);
            FateOf(r, redirects, world, before, wire) == Settled(
              Okay, if r.verb == HeadOnly then m.head else if r.toFile && r.verb == Get then "" else body)
  {
    Later(r, before, wire);
    hide Reply;
    hide Delivered;
    hide HttpFraming.HeaderValue;
  }

  /** A turn that brings the rest of a whole reply ends the request with an OK that carries all of it. */
  lemma TurnSucceeds(s: Snap, world: World, wire: string, b: Snap)
    requires Received(s, world, b) && s.order.announce && WholeReply(s.order.request, world, wire)
    requires s.heard < wire && wire <= s.heard + Offered(world)
    ensures var r := s.order.request;
            && !b.busy && b.route == s.route
            && b.results == [Result(Okay, Reply(r, wire).status,
                 if r.verb == HeadOnly then Reply(r, wire).head
                 else if r.toFile && r.verb == Get then "" else Delivered(r, wire))]
  {
    var r := s.order.request;
    hide FateOf;
    hide Reply;
    hide Delivered;
    hide WholeReply;
    var said :| Listens(r, s.route.redirects, world, s.heard, Offered(world), said) && b == Turned(s, world, said);
    SaidIsWhole(r, s.route.redirects, world, s.heard, Offered(world), said, wire);
    WholeSettles(r, s.route.redirects, world, s.heard, wire);
  }

  lemma SaidIsWhole(r: Request, redirects: nat, world: World, before: string, offered: string, said: string,
                    wire: string)
    requires Listens(r, redirects, world, before, offered, said) && WholeReply(r, world, wire)
    requires before < wire && wire <= before + offered
    ensures said == wire
  {
    hide FateOf;
    hide Reply;
    hide Delivered;
    hide Welcome;
    if |said| < |wire| {
      assert said == (before + offered)[..|said|] == wire[..|said|];
      PartWanted(r, redirects, world, before, said, wire);
    } else {
      assert said[..|wire|] == (before + offered)[..|wire|] == wire;
    }
  }

  /** A turn that brings some of it goes on, and has heard what it brought. */
  lemma TurnKeepsOn(s: Snap, world: World, wire: string, b: Snap)
    requires Received(s, world, b) && WholeReply(s.order.request, world, wire)
    requires s.heard + Offered(world) < wire && Last(world).Again?
    ensures b.busy == s.busy && b.stage == s.stage && b.heard == s.heard + Offered(world) && b.results == s.results
  {
    var r := s.order.request;
    hide Reply;
    hide Delivered;
    hide WholeReply;
    hide OfferedFrom;
    hide LastFrom;
    var said :| Listens(r, s.route.redirects, world, s.heard, Offered(world), said) && b == Turned(s, world, said);
    assert said < wire;
    PartWanted(r, s.route.redirects, world, s.heard, said, wire);
    hide FateOf;
  }

  // ---- what a server sends is what the caller is told ------------------------------------

  /** A GET answered with a length and so many bytes: the caller is told them. */
  lemma LengthFetched(s: Snap, world: World, lines: seq<string>, body: string, after: string, b: Snap)
    requires HeadSent(lines) && Fits(lines) && Agree(Fields(lines[1..]))
    requires !StatesEncoding(lines[1..]) && StatesLength(lines[1..], |body|)
    requires 200 <= StatusOf(lines[0]) <= 299 && StatusOf(lines[0]) != 204
    requires s.order.announce && s.order.request.verb == Get && !s.order.request.toFile
    requires (s.order.request.ranged ==> StatusOf(lines[0]) == 206) && |body| <= s.order.request.responseMax
    requires s.heard == "" && Offered(world) == Wire(lines) + "\r\n" + body + after && Received(s, world, b)
    ensures !b.busy && b.results == [Result(Okay, StatusOf(lines[0]), body)]
  {
    var wire := Wire(lines) + "\r\n" + body;
    LengthWhole(s.order.request, world, lines, body);
    hide *;
    assert "" + Offered(world) == Offered(world) == wire + after;
    TurnSucceeds(s, world, wire, b);
  }

  lemma LengthWhole(r: Request, world: World, lines: seq<string>, body: string)
    requires HeadSent(lines) && Fits(lines) && Agree(Fields(lines[1..]))
    requires !StatesEncoding(lines[1..]) && StatesLength(lines[1..], |body|)
    requires 200 <= StatusOf(lines[0]) <= 299 && StatusOf(lines[0]) != 204
    requires r.verb == Get && !r.toFile && (r.ranged ==> StatusOf(lines[0]) == 206) && |body| <= r.responseMax
    ensures var wire := Wire(lines) + "\r\n" + body;
            WholeReply(r, world, wire) && Reply(r, wire).status == StatusOf(lines[0]) && Delivered(r, wire) == body
  {
    hide HttpMachine.Run;
    hide HttpMachine.Body;
    hide IsStatusLine;
    hide StatusOf;
    hide Fields;
    hide StatesLength;
    hide StatesEncoding;
    hide Wire;
    hide Agree;
    hide Fits;
    LengthEnds(lines, body);
    LengthResponse(lines, body, "");
    var wire := Wire(lines) + "\r\n" + body;
    assert wire + "" == wire;
    GotWhole(r, world, wire, body);
  }

  /** Not even an empty body is over before its head is. */
  lemma LengthEnds(lines: seq<string>, body: string)
    requires HeadSent(lines) && Fits(lines) && Agree(Fields(lines[1..]))
    requires StatusOf(lines[0]) >= 200 && StatusOf(lines[0]) != 204 && StatusOf(lines[0]) != 304
    requires !StatesEncoding(lines[1..]) && StatesLength(lines[1..], |body|)
    ensures var wire := Wire(lines) + "\r\n" + body;
            !Terminal(Run(Begin(false), wire[..|wire| - 1]))
  {
    hide HttpMachine.Run;
    hide HttpMachine.Body;
    hide IsStatusLine;
    hide Fields;
    hide StatesLength;
    hide StatesEncoding;
    var head := Wire(lines) + "\r\n";
    if body == "" {
      HeadOpenUntil(false, lines);
      assert (head + body)[..|head + body| - 1] == Wire(lines) + "\r";
    } else {
      LengthResponse(lines, body, "");
      assert (head + body)[..|head + body| - 1] == head + body[..|body| - 1];
    }
  }

  /** The same for chunks, with whatever sizes they are cut into. */
  lemma ChunkedFetched(s: Snap, world: World, lines: seq<string>, chunks: seq<Chunk>, last: string, after: string,
                       b: Snap)
    requires SaysChunked(lines) && WellFormed(chunks) && LineSays(last, 0) && StatusOf(lines[0]) <= 299
    requires s.order.announce && s.order.request.verb == Get && !s.order.request.toFile
    requires s.order.request.ranged ==> StatusOf(lines[0]) == 206
    requires |HttpFraming.Data(chunks)| <= s.order.request.responseMax
    requires s.heard == "" && Received(s, world, b)
    requires Offered(world) == Wire(lines) + "\r\n" + EncodeAll(chunks, last) + after
    ensures !b.busy && b.results == [Result(Okay, StatusOf(lines[0]), HttpFraming.Data(chunks))]
  {
    var wire := Wire(lines) + "\r\n" + EncodeAll(chunks, last);
    ChunkedWhole(s.order.request, world, lines, chunks, last);
    hide *;
    assert "" + Offered(world) == Offered(world) == wire + after;
    TurnSucceeds(s, world, wire, b);
  }

  lemma ChunkedWhole(r: Request, world: World, lines: seq<string>, chunks: seq<Chunk>, last: string)
    requires SaysChunked(lines) && WellFormed(chunks) && LineSays(last, 0) && StatusOf(lines[0]) <= 299
    requires r.verb == Get && !r.toFile && (r.ranged ==> StatusOf(lines[0]) == 206)
    requires |HttpFraming.Data(chunks)| <= r.responseMax
    ensures var wire := Wire(lines) + "\r\n" + EncodeAll(chunks, last);
            && WholeReply(r, world, wire) && Reply(r, wire).status == StatusOf(lines[0])
            && Delivered(r, wire) == HttpFraming.Data(chunks)
  {
    hide HttpMachine.Run;
    hide HttpMachine.Body;
    hide IsStatusLine;
    hide Fields;
    hide Agree;
    hide WellFormed;
    hide LineSays;
    hide Wire;
    assert StatusOf(lines[0]) >= 200;
    hide SaysChunked;
    hide StatusOf;
    hide EncodeAll;
    hide HttpFraming.Data;
    ChunkedResponse(lines, chunks, last, "");
    ChunkedStatus(lines, EncodeAll(chunks, last));
    var wire := Wire(lines) + "\r\n" + EncodeAll(chunks, last);
    assert wire + "" == wire;
    GotWhole(r, world, wire, HttpFraming.Data(chunks));
  }

  /** A body in memory, of a status that is accepted. */
  lemma GotWhole(r: Request, world: World, wire: string, body: string)
    requires r.verb == Get && !r.toFile && |body| <= r.responseMax && wire != ""
    requires var m := Run(Begin(false), wire);
             m.phase == Done && 200 <= m.status <= 299 && (r.ranged ==> m.status == 206)
    requires !Terminal(Run(Begin(false), wire[..|wire| - 1])) && Body(Begin(false), wire) == body
    ensures WholeReply(r, world, wire) && Delivered(r, wire) == body && Reply(r, wire) == Run(Begin(false), wire)
  {
    hide HttpMachine.Run;
    hide HttpMachine.Body;
  }

  lemma ChunkedStatus(lines: seq<string>, rest: string)
    requires SaysChunked(lines)
    ensures Run(Begin(false), Wire(lines) + "\r\n" + rest).status == StatusOf(lines[0])
  {
    hide HttpMachine.Run;
    hide HttpMachine.Body;
    hide HttpMachine.Sound;
    hide ReadHead;
    hide Fields;
    var m, head := Begin(false), Wire(lines) + "\r\n";
    HeadRead(false, lines);
    ChunkedHead(lines);
    BeginSound(false);
    RunSound(m, head);
    RunConcat(m, head, rest);
    hide IsStatusLine;
    HeadStays(Run(m, head), rest);
  }

  // ---- ends that are no success ----------------------------------------------------------

  predicate EndsWith(b: Snap, verdict: Verdict) {
    !b.busy && |b.results| == 1 && b.results[0].verdict == verdict
  }

  /** The next address that allows a connect, with its time, or a network error. */
  predicate NextAddress(a: Snap, time: nat, world: World, b: Snap) {
    var left := if a.route.next < a.route.addresses then a.route.addresses - a.route.next else 0;
    if exists k :: 0 <= k < left && k < |world.opens| && world.opens[k]
    then b.busy && b.stage == Connecting && b.route.next > a.route.next && b.route.attemptDeadline == time + 3000
    else EndsWith(b, NetworkError)
  }

  lemma TriedNext(a: Snap, s: Snap, world: World)
    requires s.order.announce && s.busy && s.route == a.route
    ensures NextAddress(a, s.now, world, Tried(s, world))
  {
    hide Reply;
  }

  /** How long things are waited for: the request, a connect, and bytes to move. */
  lemma TickRules(a: Snap, time: nat, world: World, b: Snap)
    requires Plausible(world) && Leads(a, Ticked(time, world), b) && a.busy && a.order.announce
    requires a.stage == Resolving ==> world.found.None?
    ensures var idle := a.order.request.idleTimeout;
            var still := !a.pace.progressed && idle > 0 && time >= a.pace.lastProgress + idle;
            if time >= a.order.deadline then EndsWith(b, TimedOut)
            else if (a.stage == Sending || a.stage == Receiving) && still then EndsWith(b, TimedOut)
            else if a.stage == Connecting && time >= a.route.attemptDeadline then NextAddress(a, time, world, b)
            else (a.stage == Receiving && a.pace.more) || (b.busy && b.stage == a.stage && b.heard == a.heard)
  {
    hide Received;
    hide Tried;
    hide NextAddress;
    hide Reply;
    var s := a.(now := time);
    var t := if s.pace.progressed then s.(pace := s.pace.(progressed := false, lastProgress := s.now)) else s;
    TriedNext(a, t.(pace := t.pace.(more := false)), world);
  }

  /** What a connect, a handshake and the sending of a request lead to. */
  lemma SocketRules(a: Snap, world: World, b: Snap)
    requires Plausible(world) && Leads(a, Socket(world), b) && a.busy && a.order.announce
    ensures a.stage == Connecting && !world.signalled ==> b == a
    ensures a.stage == Connecting && world.signalled && !world.connected ==> NextAddress(a, a.now, world, b)
    ensures a.stage == Connecting && world.signalled && world.connected && !world.tlsStarts ==> EndsWith(b, TlsError)
    ensures a.stage == Handshaking
            || (a.stage == Connecting && world.signalled && world.connected && world.tlsStarts) ==>
      && (world.handshake == Pending ==> b.busy && b.stage == Handshaking)
      && (world.handshake == Lost ==> EndsWith(b, TlsError))
      && (world.handshake == Finished && !world.fits ==> EndsWith(b, ProtocolError))
      && (world.handshake == Finished && world.fits && world.sending == Pending ==> b.busy && b.stage == Sending)
      && (world.handshake == Finished && world.fits && world.sending == Lost ==> EndsWith(b, NetworkError))
    ensures a.stage == Sending && world.sending == Pending ==> b.busy && b.stage == Sending
    ensures a.stage == Sending && world.sending == Lost ==> EndsWith(b, NetworkError)
  {
    hide Received;
    hide Tried;
    hide NextAddress;
    hide Reply;
    if a.stage == Connecting && world.signalled && !world.connected {
      TriedNext(a, a.(pace := a.pace.(more := false)), world);
    }
  }

  /** What a close does to a reply that was still wanted. */
  lemma CloseRules(s: Snap, world: World, clean: bool)
    requires Fine(s) && s.busy && s.stage == Receiving
    ensures var b, m := Rest(s, world, Ended(clean)), Reply(s.order.request, s.heard);
            if m.status != 0 && m.phase == UntilClose && clean
            then EndsWith(b, if GoesToFile(s.order.request) && !world.fileCloses then FileError else Okay)
            else EndsWith(b, NetworkError)
  {
    var r := s.order.request;
    if Closes(Reply(r, s.heard), clean) {
      CloseIsClean(r, world, s.heard, clean);
    }
    HeadHasNoBody(r, s.heard);
    hide Reply;
    hide Delivered;
  }

  /** The reply to a HEAD is never one that waits for the close. */
  lemma HeadHasNoBody(r: Request, heard: string)
    ensures r.verb == HeadOnly ==> Reply(r, heard).phase != UntilClose
    ensures Reply(r, heard).phase == UntilClose ==> Reply(r, heard).framing == ByClose
  {
    hide HttpMachine.Run;
    hide HttpMachine.Sound;
    BeginSound(r.verb == HeadOnly);
    RunSound(Begin(r.verb == HeadOnly), heard);
    SoundFacts(Reply(r, heard));
  }

  // ---- reads and requests as they are handed in ------------------------------------------

  function Joined(turn: seq<Read>, n: nat): string
    requires n <= |turn| && forall i :: 0 <= i < n ==> turn[i].Data?
  {
    if n == 0 then "" else Joined(turn, n - 1) + turn[n - 1].bytes
  }

  /** A turn takes up to eight reads, all that they bring, and the first that brings nothing ends it. */
  lemma TurnTakes(world: World, n: nat)
    requires n <= |world.input| && n <= 8 && forall i :: 0 <= i < n ==> world.input[i].Data?
    requires n < 8 && n < |world.input| ==> !world.input[n].Data?
    ensures Offered(world) == Joined(world.input, n)
    ensures Last(world) == if n < 8 && n < |world.input| then world.input[n] else Again(false)
  {
    TurnTakesFrom(world, n, 0);
    assert "" + Offered(world) == Offered(world);
  }

  lemma {:induction false} TurnTakesFrom(world: World, n: nat, i: nat)
    requires i <= n <= |world.input| && n <= 8 && forall k :: 0 <= k < n ==> world.input[k].Data?
    requires n < 8 && n < |world.input| ==> !world.input[n].Data?
    ensures Joined(world.input, i) + OfferedFrom(world.input, i) == Joined(world.input, n)
    ensures LastFrom(world.input, i) == if n < 8 && n < |world.input| then world.input[n] else Again(false)
    decreases n - i
  {
    if i < n {
      TurnTakesFrom(world, n, i + 1);
      var rest := OfferedFrom(world.input, i + 1);
      assert Joined(world.input, i) + (world.input[i].bytes + rest) == Joined(world.input, i + 1) + rest;
    } else {
      assert Joined(world.input, n) + "" == Joined(world.input, n);
    }
  }

  /** A request that gets under way: its deadline, its limit, and nothing of it done yet. */
  lemma BegunRule(what: Request, time: nat, world: World)
    requires Plausible(world) && Underway(world)
    ensures var s := Begun(what, time, world);
            && s.busy && s.order.announce && s.now == time && s.heard == "" && s.results == []
            && s.route.redirects == 0 && s.stage == (if world.numeric.Some? then Connecting else Resolving)
            && s.order.deadline == time + (if what.timeout > 0 then what.timeout else 30000)
            && s.order.request == what.(responseMax := if what.responseMax > 0 then what.responseMax else 65536)
            && (s.stage == Connecting ==> s.route.attemptDeadline == time + 3000)
  {
  }
}
