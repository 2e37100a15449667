/**
 The fetch driver: one request at a time, over redirects, a list of addresses and the response
 codec, ending in exactly one completion. Lookups, route.sockets, TLS and files answer through the
 parameters of each event.
 */
module Fetch {
  import opened Base
  import opened HttpHead
  import opened HttpMachine
  import opened HttpResponse
  import opened HttpFraming
  import opened FetchSteps
  import opened FetchRun

  /** A response that is complete: its framing's own end, or a close that vouches for itself. */
  predicate Complete(m: Machine, cleanClose: bool) {
    m.status != 0 && (m.phase == Done || (m.phase == UntilClose && cleanClose))
  }

  class Fetcher {
    var now: nat
    var order: Order
    var busy: bool
    var stage: Stage
    var lookup: bool
    var socket: bool
    var route: Route
    var pace: Pace
    var response: Response
    var headSeen: bool
    var fileOpen: bool
    var file: string
    var body: string
    /** What the caller has been told of the current request; empty until it has been told. */
    var results: seq<Result>

    /** Of the current hop: the bytes heard, and how it closed. */
    ghost var heard: string
    ghost var cleanClose: bool

    ghost function Snapshot(): Snap
      reads this`order, this`now, this`busy, this`stage, this`route, this`pace, this`heard, this`results
    {
      Snap(order, now, busy, stage, route, pace, heard, results)
    }

    predicate ToFile()
      reads this`order
    {
      GoesToFile(order.request)
    }

    /** The codec has been given exactly what was heard on this hop. */
    ghost predicate InStep()
      reads this`order, this`response, this`heard, response
    {
      Sound(response.State()) && response.State() == Reply(order.request, heard)
    }

    /** So the status it has read is that of what was heard. */
    ghost predicate Stated()
      reads this`order, this`response, this`heard, response
    {
      response.status == Reply(order.request, heard).status
    }

    /** What has been kept is exactly the body so far, where it goes, and no more than was asked for. */
    ghost predicate Kept()
      reads this`order, this`heard, this`body, this`file, this`fileOpen
    {
      KeptOf(Delivered(order.request, heard))
    }

    ghost predicate KeptOf(delivered: string)
      reads this`order, this`body, this`file, this`fileOpen
    {
      && |body| <= order.request.responseMax
      && (if order.request.verb == HeadOnly || ToFile() then body == "" else body == delivered)
      && (fileOpen ==> ToFile() && file == delivered)
      && (fileOpen && order.request.outputMax > 0 ==> |file| <= order.request.outputMax)
      && (!fileOpen && ToFile() ==> delivered == "")
    }

    /** Within the limits on hops and addresses. */
    ghost predicate Bounded()
      reads this`route
    {
      route.redirects <= REDIRECTS_MAX && route.next <= route.addresses <= ADDRESSES_MAX
      && route.sockets <= route.redirects * ADDRESSES_MAX + route.next
    }

    /** The head has been acted on, as far as it has come. */
    ghost predicate HeadHandled()
      reads this`order, this`response, this`headSeen, this`fileOpen, response
    {
      && (headSeen <==> response.status != 0) && (fileOpen ==> headSeen)
      && (headSeen ==>
            && 200 <= response.status <= 299 && (order.request.ranged ==> response.status == 206)
            && (ToFile() ==> fileOpen))
    }

    /** The reply so far: in step with the wire, its body kept, its head handled, and not yet over. */
    ghost predicate Replying()
      reads this`order, this`response, this`heard, this`headSeen, this`body, this`file, this`fileOpen, response
    {
      InStep() && Kept() && HeadHandled() && !Terminal(response.State())
    }

    /** Nothing has been heard on this hop yet. */
    ghost predicate Quiet()
      reads this`heard, this`body, this`fileOpen
    {
      heard == "" && body == "" && !fileOpen
    }

    ghost predicate Running()
      reads this, response
    {
      && Replying() && Stated() && Bounded() && results == []
      && (lookup <==> stage == Resolving) && (socket <==> stage != Resolving) && (lookup ==> route.next == 0)
      && (stage != Receiving ==> Quiet())
    }

    /** A success worth telling: the reply is complete, and `text` - or the file - is all of it. */
    ghost predicate Whole(status: nat, text: string)
      reads this`order, this`heard, this`cleanClose, this`file
    {
      var m, delivered := Reply(order.request, heard), Delivered(order.request, heard);
      && Complete(m, cleanClose) && status == m.status
      && 200 <= m.status <= 299 && (order.request.ranged ==> m.status == 206)
      && |text| <= order.request.responseMax
      && (order.request.verb == HeadOnly ==> text == m.head)
      && (order.request.verb != HeadOnly && !ToFile() ==> text == delivered)
      && (ToFile() ==> file == delivered && (order.request.outputMax > 0 ==> |file| <= order.request.outputMax))
    }

    /** What the caller was told is true. */
    ghost predicate Honest()
      reads this`order, this`heard, this`cleanClose, this`results, this`file
    {
      results != [] && results[0].verdict == Okay ==> Whole(results[0].status, results[0].body)
    }

    /** Between requests, or after one: everything released, and the caller told at most once, the truth. */
    ghost predicate Rested()
      reads this
    {
      !busy && !lookup && !socket && !fileOpen && |results| <= 1 && Bounded() && Honest()
    }

    /** A request that ends does so by telling its caller, if it may be told yet. */
    ghost predicate Ended()
      reads this
    {
      Rested() && |results| == if order.announce then 1 else 0
    }

    ghost predicate Valid()
      reads this, response
    {
      if busy then Running() else Rested()
    }

    constructor ()
      ensures Valid() && !busy && results == [] && fresh(response)
    {
      now, busy, stage, lookup, socket := 0, false, Resolving, false, false;
      order := Order(Request(Get, false, false, RESPONSE_MAX, 0, 0, 0), 0, false);
      route, pace := Route(0, 0, 0, 0, 0), Pace(0, false, false);
      response := new Response(false);
      headSeen, fileOpen, file, body, results := false, false, "", "", [];
      heard, cleanClose := "", false;
    }

    // ---- the end of a request ------------------------------------------------------------

    method DropSocket()
      modifies this`socket, this`pace
      ensures !socket && pace == old(pace).(more := false)
    {
      socket, pace := false, pace.(more := false);
    }

    /** Lets go of everything a request holds. */
    method Release()
      modifies this`busy, this`lookup, this`socket, this`pace, this`fileOpen
      ensures !busy && !lookup && !socket && !fileOpen && pace == old(pace).(more := false)
    {
      busy, lookup := false, false;
      DropSocket();
      fileOpen := false;
    }

    /** Hands over an outcome that is not success. */
    method Fail(verdict: Verdict)
      requires busy && results == [] && Bounded() && Stated() && verdict != Okay
      modifies this`busy, this`lookup, this`socket, this`pace, this`fileOpen, this`body, this`results
      ensures !busy && Ended() && Snapshot() == Drop(old(Snapshot()), verdict, "")
    {
      hide Reply;
      hide Delivered;
      Release();
      body := "";
      if order.announce {
        results := [Result(verdict, response.status, "")];
      }
    }

    /** Hands over a whole reply; a file that will not close turns it into a failure. */
    method Conclude(world: World)
      requires busy && results == [] && Bounded() && Stated() && Whole(response.status, body)
      modifies this`busy, this`lookup, this`socket, this`pace, this`fileOpen, this`body, this`results
      ensures !busy && Ended()
      ensures Snapshot() == if old(fileOpen) && !world.fileCloses then Drop(old(Snapshot()), FileError, "")
                            else Drop(old(Snapshot()), Okay, old(body))
    {
      hide Reply;
      hide Whole;
      if fileOpen && !world.fileCloses {
        Fail(FileError);
        return;
      }
      Release();
      if order.announce {
        results := [Result(Okay, response.status, body)];
      }
    }

    /** Nothing of the reply is missing: its body is the result or, for HEAD, the buffered head is. */
    method Succeed(world: World)
      requires busy && results == [] && Bounded() && Stated() && Kept() && (ToFile() ==> fileOpen)
      requires var m := Reply(order.request, heard);
               && Complete(m, cleanClose) && response.head == m.head
               && 200 <= m.status <= 299 && (order.request.ranged ==> m.status == 206)
      modifies this`busy, this`lookup, this`socket, this`pace, this`fileOpen, this`body, this`results
      ensures !busy && Ended()
      ensures Snapshot() == Took(old(Snapshot()), world,
                Handover(order.request, world, Reply(order.request, heard), Delivered(order.request, heard)))
    {
      hide Reply;
      hide Delivered;
      hide Complete;
      if order.request.verb == HeadOnly {
        if |response.head| > order.request.responseMax {
          Fail(TooLarge);
          return;
        }
        body := response.head;
      }
      Conclude(world);
    }

    // ---- one hop -------------------------------------------------------------------------

    /** A new codec for a new hop, which has heard nothing. */
    method BeginReply()
      requires body == "" && !fileOpen
      modifies this`response, this`headSeen, this`heard, this`cleanClose
      ensures fresh(response) && Replying() && Stated() && Quiet() && !headSeen && !cleanClose
    {
      response := new Response(order.request.verb == HeadOnly);
      headSeen, heard, cleanClose := false, "", false;
    }

    /** Begins a connect to the first remaining address that allows one; without any, the request is over. */
    method TryNext(world: World)
      requires busy && Bounded() && results == [] && !socket && !lookup && Replying() && Stated() && Quiet()
      modifies this`route, this`socket, this`stage, this`busy, this`lookup, this`pace, this`fileOpen, this`body,
               this`results
      ensures if busy then Running() && stage == Connecting else Ended()
      ensures busy <==> SomeOpens(world, old(route.addresses - route.next))
      ensures Snapshot() == Tried(old(Snapshot()), world)
    {
      hide Replying;
      hide Stated;
      hide Honest;
      hide Ended;
      hide Tried;
      hide Drop;
      hide SomeOpens;
      var tried := 0;
      ghost var s := Snapshot();
      while route.next < route.addresses
        invariant busy && results == [] && !socket && !lookup && Replying() && Stated() && Quiet()
        invariant 0 <= tried <= s.route.addresses - s.route.next && NoneOpens(world, tried)
        invariant Snapshot() == s.(route := s.route.(next := s.route.next + tried, sockets := s.route.sockets + tried))
        decreases route.addresses - route.next
      {
        route := route.(next := route.next + 1, sockets := route.sockets + 1);
        var opens := tried < |world.opens| && world.opens[tried];
        tried := tried + 1;
        if opens {
          socket, stage, route := true, Connecting, route.(attemptDeadline := now + CONNECT_ATTEMPT_MS);
          TriedOne(s, world, tried);
          return;
        }
      }
      TriedAll(s, world);
      Fail(NetworkError);
    }

    /** Forgets the last hop. */
    method SetOut()
      requires body == "" && !fileOpen
      modifies this`stage, this`route, this`response, this`headSeen, this`heard, this`cleanClose
      ensures fresh(response) && Replying() && Stated() && Quiet()
      ensures Snapshot() == old(Snapshot()).(
                              stage := Resolving, route := old(route).(addresses := 0, next := 0), heard := "")
    {
      hide Replying;
      hide Stated;
      stage, route := Resolving, route.(addresses := 0, next := 0);
      BeginReply();
    }

    /** Sets out for a new host: a fresh reply, then known addresses at once or a lookup for them. */
    method Hop(world: World)
      requires busy && results == []
      requires route.redirects <= REDIRECTS_MAX && route.sockets <= route.redirects * ADDRESSES_MAX
      requires !socket && !lookup && !fileOpen && body == "" && Plausible(world)
      modifies this`stage, this`route, this`response, this`headSeen, this`heard, this`cleanClose, this`socket,
               this`busy, this`lookup, this`pace, this`fileOpen, this`body, this`results
      ensures fresh(response) && if busy then Running() else Ended()
      ensures heard == "" && (busy <==> Underway(world))
      ensures Snapshot() == Hopped(old(Snapshot()), world)
    {
      hide Replying;
      hide Stated;
      hide Honest;
      hide SomeOpens;
      hide Tried;
      hide Drop;
      hide Ended;
      SetOut();
      if world.numeric.Some? {
        route := route.(addresses := world.numeric.value);
        TryNext(world);
        return;
      }
      if !world.lookupStarts {
        Fail(NetworkError);
        return;
      }
      lookup := true;
    }

    /** Follows a redirect: this connection is dropped and another hop begins. */
    method MoveOn(world: World)
      requires busy && results == [] && Bounded() && route.redirects < REDIRECTS_MAX && Plausible(world)
      requires !lookup && !fileOpen && body == ""
      modifies this`stage, this`route, this`response, this`headSeen, this`heard, this`cleanClose, this`socket,
               this`busy, this`lookup, this`pace, this`fileOpen, this`body, this`results
      ensures fresh(response) && if busy then Running() else Ended()
      ensures Snapshot() == MovedOn(old(Snapshot()), world)
    {
      hide Replying;
      hide Stated;
      hide Honest;
      hide Ended;
      hide Hopped;
      DropSocket();
      route := route.(redirects := route.redirects + 1);
      Hop(world);
    }

    method OnResolved(world: World)
      requires Valid() && Plausible(world) && world.found.Some?
      modifies this`route, this`socket, this`stage, this`busy, this`lookup, this`pace, this`fileOpen, this`body,
               this`results
      ensures Valid() && (old(busy) && !busy ==> Ended())
      ensures old(busy) && old(stage) == Resolving ==> (busy <==> SomeOpens(world, world.found.value))
      ensures Snapshot() == if old(busy) then LookedUp(old(Snapshot()), world) else old(Snapshot())
    {
      hide Replying;
      hide Stated;
      hide Honest;
      hide Drop;
      hide Tried;
      if !busy || stage != Resolving {
        return;
      }
      lookup := false;
      if world.found.value == 0 {
        Fail(NetworkError);
        return;
      }
      route := route.(addresses := world.found.value);
      TryNext(world);
    }

    // ---- the body ------------------------------------------------------------------------

    /** Keeps a slice of body, in memory or in the file; one that cannot be kept ends the request. */
    method Sink(slice: string, world: World, ghost before: string) returns (go: bool)
      requires busy && results == [] && Bounded() && Stated()
      requires (ToFile() ==> fileOpen) && order.request.verb != HeadOnly
      requires KeptOf(before) && Delivered(order.request, heard) == before + slice
      modifies this`busy, this`lookup, this`socket, this`pace, this`fileOpen, this`file, this`body, this`results
      ensures go <==> Within(order.request, before + slice) && (ToFile() ==> world.fileWrites)
      ensures go ==> busy && Kept() && fileOpen == old(fileOpen) && lookup == old(lookup) && socket == old(socket)
      ensures !go ==> !busy && Ended()
      ensures Snapshot() == if go then old(Snapshot()) else
                Drop(old(Snapshot()), if Within(order.request, before + slice) then FileError else TooLarge, "")
    {
      hide Reply;
      hide Delivered;
      hide Honest;
      hide Drop;
      if !fileOpen {
        if |slice| > order.request.responseMax || |body| + |slice| > order.request.responseMax {
          Fail(TooLarge);
          return false;
        }
        body := body + slice;
        return true;
      }
      if order.request.outputMax > 0 && |slice| > order.request.outputMax - |file| {
        Fail(TooLarge);
        return false;
      }
      if !world.fileWrites {
        Fail(FileError);
        return false;
      }
      file := file + slice;
      return true;
    }

    /** What the head that was read leads to. */
    ghost function Choice(world: World): Decision
      reads this`order, this`route, this`response, response
    {
      Chosen(order.request, route.redirects, world, response.State())
    }

    /** Acts on a complete head, as `Decide` has it. True if this reply's body is still wanted. */
    method OnHead(world: World) returns (go: bool)
      requires busy && results == [] && Bounded() && socket && !lookup && stage == Receiving && Plausible(world)
      requires Sound(response.State()) && Stated() && response.status != 0 && headSeen && !fileOpen && body == ""
      modifies this`stage, this`route, this`response, this`headSeen, this`heard, this`cleanClose, this`socket,
               this`busy, this`lookup, this`pace, this`fileOpen, this`body, this`results, this`file
      ensures go ==>
        && busy && response == old(response) && heard == old(heard) && body == "" && headSeen && socket && !lookup
        && 200 <= response.status <= 299 && (order.request.ranged ==> response.status == 206)
        && (fileOpen <==> ToFile()) && (fileOpen ==> file == "") && cleanClose == old(cleanClose)
      ensures !go ==> if busy then Running() && fresh(response) else Ended()
      ensures response == old(response) || fresh(response)
      ensures go <==> old(Choice(world)) == Accept
      ensures match old(Choice(world))
              case Accept => Snapshot() == old(Snapshot())
              case Follow => Snapshot() == MovedOn(old(Snapshot()), world)
              case Refuse(verdict) => Snapshot() == Drop(old(Snapshot()), verdict, "")
    {
      hide Replying;
      hide Stated;
      hide Honest;
      hide Ended;
      hide Kept;
      hide Drop;
      hide MovedOn;
      hide HttpMachine.Sound;
      hide HttpFraming.HeaderValue;
      hide IsRedirect;
      var status := response.status;
      if order.request.verb == Post && 300 <= status <= 399 {
        Fail(ProtocolError);
        return false;
      }
      if IsRedirect(status) {
        var location := LookUp(response, "location");
        if location.None? {
          Fail(HttpStatus);
          return false;
        }
        if route.redirects >= REDIRECTS_MAX || world.location != Usable {
          Fail(ProtocolError);
          return false;
        }
        MoveOn(world);
        return false;
      }
      if status < 200 || status > 299 {
        Fail(HttpStatus);
        return false;
      }
      if order.request.ranged && status != 206 {
        Fail(ProtocolError);
        return false;
      }
      if ToFile() {
        if !world.fileOpens {
          Fail(FileError);
          return false;
        }
        fileOpen, file := true, "";
      }
      return true;
    }

    /** The slice goes where it goes, and a reply that is over is handed over. */
    method Deliver(slice: string, world: World, ghost before: string) returns (go: bool)
      requires busy && results == [] && Bounded() && socket && !lookup && stage == Receiving
      requires InStep() && Delivered(order.request, heard) == before + slice && KeptOf(before)
      requires HeadHandled() && response.phase != Failed
      requires slice != "" ==> response.status != 0 && order.request.verb != HeadOnly
      modifies this`busy, this`lookup, this`socket, this`pace, this`fileOpen, this`file, this`body, this`results
      ensures go ==> busy && Running()
      ensures !go ==> !busy && Ended()
      ensures var fate := Yield(order.request, world, before, Reply(order.request, heard), before + slice);
              && (go <==> fate == Wanted) && Snapshot() == Took(old(Snapshot()), world, fate)
    {
      hide Reply;
      hide Delivered;
      hide HttpMachine.Sound;
      hide Honest;
      hide Ended;
      hide Drop;
      hide Within;
      hide Handover;
      SoundFacts(response.State());
      if slice != "" {
        go := Sink(slice, world, before);
        if !go {
          return;
        }
      }
      assert before + "" == before;
      if response.phase == Done {
        Succeed(world);
        return false;
      }
      return true;
    }

    /** What one call of the codec brought, acted on: the head, a slice, the end. */
    method Act(slice: string, world: World, ghost before: string) returns (go: bool)
      requires busy && results == [] && Bounded() && socket && !lookup && stage == Receiving && Plausible(world)
      requires InStep() && Delivered(order.request, heard) == before + slice && KeptOf(before)
      requires headSeen ==>
        && response.status != 0 && 200 <= response.status <= 299 && (order.request.ranged ==> response.status == 206)
        && (ToFile() ==> fileOpen)
      requires !headSeen ==> !fileOpen && body == "" && before == "" && (response.status != 0 ==> slice == "")
      requires slice != "" ==> response.status != 0 && order.request.verb != HeadOnly
      modifies this`stage, this`route, this`response, this`headSeen, this`heard, this`cleanClose, this`socket,
               this`busy, this`lookup, this`pace, this`fileOpen, this`body, this`results, this`file
      ensures go ==> busy && Running() && stage == Receiving && response == old(response)
      ensures !go ==> if busy then Running() && fresh(response) else Ended()
      ensures response == old(response) || fresh(response)
      ensures var fate := old(Judged(order.request, route.redirects, world, headSeen, before,
                                     Reply(order.request, heard), before + slice));
              && (go <==> fate == Wanted) && Snapshot() == Took(old(Snapshot()), world, fate)
    {
      hide Reply;
      hide Delivered;
      hide HttpMachine.Sound;
      hide HttpFraming.HeaderValue;
      hide Honest;
      hide Ended;
      hide Drop;
      hide MovedOn;
      hide Yield;
      hide Decide;
      SoundFacts(response.State());
      if response.phase == Failed {
        Fail(ProtocolError);
        return false;
      }
      if !headSeen && response.status != 0 {
        headSeen := true;
        go := OnHead(world);
        if !go {
          return;
        }
        assert KeptOf(before);
      }
      go := Deliver(slice, world, before);
    }

    /** One call of the codec: `used` bytes more have been heard, `slice` of them body. */
    method Hear(piece: string) returns (used: nat, slice: string)
      requires InStep()
      modifies this`heard, response
      ensures InStep() && used <= |piece| && heard == old(heard) + piece[..used]
      ensures piece != "" && !Terminal(old(response.State())) ==> used > 0
      ensures used > 0 ==> !Terminal(Reply(order.request, old(heard) + piece[..used - 1]))
      ensures used > 0 && old(response.status) == 0 ==> Reply(order.request, old(heard) + piece[..used - 1]).status == 0
      ensures Delivered(order.request, heard) == old(Delivered(order.request, heard)) + slice
      ensures old(response.status) == 0 ==> slice == "" && old(Delivered(order.request, heard)) == ""
      ensures slice != "" ==> response.status != 0 && order.request.verb != HeadOnly
      ensures old(response.status) != 0 ==> response.status == old(response.status)
    {
      hide HttpMachine.Run;
      hide HttpMachine.Body;
      hide HttpMachine.Sound;
      ghost var start := Begin(order.request.verb == HeadOnly);
      RunSound(start, heard);
      SoundFacts(response.State());
      ghost var was := response.State();
      var from, count;
      used, from, count := response.Feed(piece);
      if was.status != 0 {
        HeadStays(was, piece[..used]);
      }
      if used > 0 {
        RunConcat(start, heard, piece[..used - 1]);
      }
      RunConcat(start, heard, piece[..used]);
      heard := heard + piece[..used];
      RunSound(start, heard);
      SoundFacts(response.State());
      slice := piece[from..from + count];
    }

    /** One call of the codec, acted on: what it heard settles the reply, or is taken and more is wanted. */
    method FeedSome(piece: string, world: World) returns (used: nat, go: bool)
      requires busy && Running() && stage == Receiving && Plausible(world) && piece != ""
      modifies this`stage, this`route, this`response, this`headSeen, this`heard, this`cleanClose, this`socket,
               this`busy, this`lookup, this`pace, this`fileOpen, this`body, this`results, this`file, response
      ensures 0 < used <= |piece|
      ensures go ==> busy && Running() && stage == Receiving && response == old(response)
      ensures !go ==> if busy then Running() && fresh(response) else Ended()
      ensures response == old(response) || fresh(response)
      ensures var s, said := old(Snapshot()), old(heard) + piece[..used];
              var fate := FateOf(order.request, s.route.redirects, world, s.heard, said);
              && (go <==> fate == Wanted) && Snapshot() == Took(s.(heard := said), world, fate)
              && Unsettled(order.request, s.route.redirects, world, s.heard, said)
    {
      hide Reply;
      hide Delivered;
      hide HttpMachine.Sound;
      hide Honest;
      hide Ended;
      hide Judged;
      hide Took;
      hide Unsettled;
      ghost var was, before := heard, Delivered(order.request, heard);
      var slice;
      used, slice := Hear(piece);
      assert heard[..|heard| - 1] == was + piece[..used - 1];
      UnsettledCall(order.request, route.redirects, world, was, heard);
      go := Act(slice, world, before);
    }

    /** Runs one read's bytes through the codec, call by call, while this hop has a use for them. */
    method FeedBytes(input: string, world: World) returns (go: bool, ghost said: string)
      requires busy && Running() && stage == Receiving && Plausible(world)
      modifies this`stage, this`route, this`response, this`headSeen, this`heard, this`cleanClose, this`socket,
               this`busy, this`lookup, this`pace, this`fileOpen, this`body, this`results, this`file, response
      ensures go ==> busy && Running() && stage == Receiving && response == old(response)
      ensures !go ==> if busy then Running() && fresh(response) else Ended()
      ensures response == old(response) || fresh(response)
      ensures var s := old(Snapshot());
              var fate := FateOf(order.request, s.route.redirects, world, s.heard, said);
              && (go <==> fate == Wanted) && Snapshot() == Took(s.(heard := said), world, fate)
              && Listens(order.request, s.route.redirects, world, s.heard, input, said)
    {
      hide Replying;
      hide Stated;
      hide Honest;
      hide Ended;
      hide FateOf;
      hide Took;
      hide Unsettled;
      var at := 0;
      ghost var s := Snapshot();
      said := heard;
      NothingHeard(world);
      while at < |input|
        invariant at <= |input| && busy && Running() && stage == Receiving && response == old(response)
        invariant said == s.heard + input[..at] && Snapshot() == s.(heard := said)
        invariant FateOf(order.request, s.route.redirects, world, s.heard, said) == Wanted
        invariant Unsettled(order.request, s.route.redirects, world, s.heard, said)
      {
        var used;
        used, go := FeedSome(input[at..], world);
        assert input[..at] + input[at..][..used] == input[..at + used];
        ghost var more := said + input[at..][..used];
        FateGoesOn(order.request, s.route.redirects, world, s.heard, said, more);
        UnsettledOn(order.request, s.route.redirects, world, s.heard, said, more);
        said := more;
        at := at + used;
        TookWanted(s.(heard := said), world);
        if !go {
          return;
        }
      }
      assert input[..at] == input;
      TookWanted(s.(heard := said), world);
      return true, said;
    }

    /** A running request that heard nothing more still wants its reply. */
    lemma NothingHeard(world: World)
      requires Replying()
      ensures FateOf(order.request, route.redirects, world, heard, heard) == Wanted
      ensures Unsettled(order.request, route.redirects, world, heard, heard)
    {
      hide Kept;
      hide Reply;
      StillWanted(order.request, route.redirects, world, heard);
    }

    /** The peer is gone. That completes a reply without any framing of its own, if TLS was shut down first. */
    method OnClose(clean: bool, world: World)
      requires busy && Running() && stage == Receiving
      modifies this`busy, this`lookup, this`socket, this`pace, this`fileOpen, this`body, this`results,
               this`cleanClose, response
      ensures !busy && Ended()
      ensures Snapshot() == Rest(old(Snapshot()), world, Read.Ended(clean))
    {
      hide Reply;
      hide Delivered;
      hide HttpMachine.Sound;
      hide Honest;
      hide Ended;
      hide Drop;
      hide Rest;
      hide Took;
      hide Handover;
      RestOfClose(Snapshot(), world, clean);
      SoundFacts(response.State());
      if response.status == 0 || (response.framing == ByClose && !clean) {
        Fail(NetworkError);
        return;
      }
      cleanClose := clean;
      var whole := Close(response);
      if !whole {
        Fail(NetworkError);
        return;
      }
      Succeed(world);
    }

    /** What one read brought. False when there is no more to read for now, or at all. */
    method TakeRead(read: Read, world: World) returns (go: bool, ghost said: string)
      requires busy && Running() && stage == Receiving && Plausible(world)
      modifies this`stage, this`route, this`response, this`headSeen, this`heard, this`cleanClose, this`socket,
               this`busy, this`lookup, this`pace, this`fileOpen, this`body, this`results, this`file, response
      ensures go ==> busy && Running() && stage == Receiving && response == old(response)
      ensures (if busy then Running() else Ended()) && (response == old(response) || fresh(response))
      ensures var s := old(Snapshot());
              match read
              case Data(bytes) =>
                var fate := FateOf(order.request, s.route.redirects, world, s.heard, said);
                && (go <==> fate == Wanted)
                && Snapshot() == Took(s.(heard := said, pace := s.pace.(progressed := true)), world, fate)
                && Listens(order.request, s.route.redirects, world, s.heard, bytes, said)
              case _ => !go && Snapshot() == Rest(s, world, read)
    {
      hide Replying;
      hide Stated;
      hide Honest;
      hide Ended;
      hide FateOf;
      hide Took;
      hide Listens;
      said := heard;
      match read
      case Again(more) =>
        pace := pace.(more := more);
        return false, said;
      case Ended(clean) =>
        OnClose(clean, world);
        return false, said;
      case Data(bytes) =>
        pace := pace.(progressed := true);
        go, said := FeedBytes(bytes, world);
    }

    /** As many reads as one event may take, while they bring something. */
    method Receive(world: World)
      requires busy && Running() && stage == Receiving && Plausible(world)
      modifies this`stage, this`route, this`response, this`headSeen, this`heard, this`cleanClose, this`socket,
               this`busy, this`lookup, this`pace, this`fileOpen, this`body, this`results, this`file, response
      ensures (if busy then Running() else Ended()) && (response == old(response) || fresh(response))
      ensures Received(old(Snapshot()), world, Snapshot())
    {
      hide Replying;
      hide Stated;
      hide Honest;
      hide Ended;
      hide FateOf;
      hide Took;
      hide Listens;
      hide Received;
      hide Rest;
      hide Turning;
      ghost var s := Snapshot();
      pace := pace.(more := false);
      NothingHeard(world);
      TurnBegins(s, world);
      for i := 0 to READS_PER_TURN
        invariant busy && Running() && stage == Receiving && response == old(response)
        invariant Turning(s, world, i, Snapshot())
      {
        var read := if i < |world.input| then world.input[i] else Again(false);
        ghost var was := Snapshot();
        var go, said := TakeRead(read, world);
        if !go {
          TurnStops(s, world, i, was, said, Snapshot());
          return;
        }
        TurnGoesOn(s, world, i, was, said, Snapshot());
      }
      TurnEnds(s, world, Snapshot());
    }

    method SendRequest(world: World)
      requires busy && Running() && stage == Sending && Plausible(world)
      modifies this`stage, this`route, this`response, this`headSeen, this`heard, this`cleanClose, this`socket,
               this`busy, this`lookup, this`pace, this`fileOpen, this`body, this`results, this`file, response
      ensures (if busy then Running() else Ended()) && (response == old(response) || fresh(response))
      ensures Sent(old(Snapshot()), world, Snapshot())
    {
      hide Replying;
      hide Stated;
      hide Honest;
      hide Ended;
      hide Received;
      hide Drop;
      if world.moved {
        pace := pace.(progressed := true);
      }
      match world.sending
      case Pending =>
      case Lost =>
        Fail(NetworkError);
      case Finished =>
        stage := Receiving;
        Receive(world);
    }

    method Handshake(world: World)
      requires busy && Running() && stage == Handshaking && Plausible(world)
      modifies this`stage, this`route, this`response, this`headSeen, this`heard, this`cleanClose, this`socket,
               this`busy, this`lookup, this`pace, this`fileOpen, this`body, this`results, this`file, response
      ensures (if busy then Running() else Ended()) && (response == old(response) || fresh(response))
      ensures Shook(old(Snapshot()), world, Snapshot())
    {
      hide Replying;
      hide Stated;
      hide Honest;
      hide Ended;
      hide Sent;
      hide Drop;
      match world.handshake
      case Pending =>
      case Lost =>
        Fail(TlsError);
      case Finished =>
        if !world.fits {
          Fail(ProtocolError);
          return;
        }
        BeginReply();
        stage, pace := Sending, pace.(lastProgress := now, progressed := true);
        SendRequest(world);
    }

    /** A connect is over: TLS starts on a good one, and a bad one makes way for another address. */
    method Connected(world: World)
      requires busy && Running() && stage == Connecting && Plausible(world)
      modifies this`stage, this`route, this`response, this`headSeen, this`heard, this`cleanClose, this`socket,
               this`busy, this`lookup, this`pace, this`fileOpen, this`body, this`results, this`file, response
      ensures (if busy then Running() else Ended()) && (response == old(response) || fresh(response))
      ensures Connects(old(Snapshot()), world, Snapshot())
    {
      hide Replying;
      hide Stated;
      hide Honest;
      hide Ended;
      hide Shook;
      hide Drop;
      hide Tried;
      hide SomeOpens;
      if !world.connected {
        DropSocket();
        TryNext(world);
        return;
      }
      if !world.tlsStarts {
        Fail(TlsError);
        return;
      }
      stage := Handshaking;
      Handshake(world);
    }

    // ---- events --------------------------------------------------------------------------

    method OnSocket(world: World)
      requires Valid() && Plausible(world)
      modifies this`stage, this`route, this`response, this`headSeen, this`heard, this`cleanClose, this`socket,
               this`busy, this`lookup, this`pace, this`fileOpen, this`body, this`results, this`file, response
      ensures Valid() && (old(busy) && !busy ==> Ended()) && (response == old(response) || fresh(response))
      ensures if old(busy) then Signalled(old(Snapshot()), world, Snapshot()) else Snapshot() == old(Snapshot())
    {
      hide Replying;
      hide Stated;
      hide Honest;
      hide Connects;
      hide Shook;
      hide Sent;
      hide Received;
      if !busy || !socket {
        return;
      }
      match stage
      case Connecting =>
        if world.signalled {
          Connected(world);
        }
      case Handshaking => Handshake(world);
      case Sending => SendRequest(world);
      case Receiving => Receive(world);
      case Resolving =>
    }

    /** The request, copied; its callback held back until the first hop is under way. */
    method Prepare(what: Request, time: nat)
      modifies this`order, this`now, this`busy, this`route, this`body, this`file, this`results, this`pace,
               this`stage, this`heard
      ensures body == "" && Snapshot() == Asked(what, time)
    {
      var limit := if what.responseMax > 0 then what.responseMax else RESPONSE_MAX;
      var patience := if what.timeout > 0 then what.timeout else DEFAULT_TIMEOUT_MS;
      order := Order(what.(responseMax := limit), time + patience, false);
      now, busy, stage, route, pace := time, true, Resolving, Route(0, 0, 0, 0, 0), Pace(0, false, false);
      body, file, results, heard := "", "", [], "";
    }

    /** From here on its caller is told. */
    method Announce()
      requires Running()
      modifies this`order
      ensures Running() && Snapshot() == old(Snapshot()).(order := old(order).(announce := true))
    {
      hide Reply;
      hide Delivered;
      hide HttpMachine.Sound;
      hide Terminal;
      order := order.(announce := true);
    }

    /**
     A request is begun, or refused without a word to its callback. `sound` is whether its URL, headers
     and body are such as can be sent at all.
     */
    method Start(what: Request, sound: bool, time: nat, world: World) returns (ok: bool)
      requires Valid() && Plausible(world)
      modifies this
      ensures Valid() && (response == old(response) || fresh(response))
      ensures ok <==> sound && !old(busy) && Underway(world)
      ensures ok ==> busy && Snapshot() == Begun(what, time, world)
      ensures !ok && !old(busy) ==> !busy && (if sound then results == [] else results == old(results))
    {
      hide Replying;
      hide Stated;
      hide Honest;
      hide Hopped;
      hide Underway;
      if busy || !sound {
        return false;
      }
      Prepare(what, time);
      Hop(world);
      if !busy {
        return false;
      }
      Announce();
      return true;
    }

    /** The clock: a request past its deadline ends, and its caller is told so. */
    method Tick(time: nat, world: World)
      requires Valid() && Plausible(world)
      modifies this`stage, this`route, this`response, this`headSeen, this`heard, this`cleanClose, this`socket,
               this`busy, this`lookup, this`pace, this`fileOpen, this`body, this`results, this`file, response, this`now
      ensures Valid() && (old(busy) && !busy ==> Ended()) && (response == old(response) || fresh(response))
      ensures var s := old(Snapshot()).(now := time);
              if old(busy) then Ticks(s, world, Snapshot()) else Snapshot() == s
    {
      hide Replying;
      hide Stated;
      hide Honest;
      hide SomeOpens;
      hide LookedUp;
      hide TicksOn;
      hide Drop;
      now := time;
      if lookup && world.found.Some? {
        OnResolved(world);
      }
      if !busy {
        return;
      }
      if time >= order.deadline {
        Fail(TimedOut);
        return;
      }
      TickOn(world);
    }

    /** The rest of a tick: progress noted, a stalled reply given up, a silent address passed over. */
    method TickOn(world: World)
      requires busy && Running() && Plausible(world)
      modifies this`stage, this`route, this`response, this`headSeen, this`heard, this`cleanClose, this`socket,
               this`busy, this`lookup, this`pace, this`fileOpen, this`body, this`results, this`file, response
      ensures (if busy then Running() else Ended()) && (response == old(response) || fresh(response))
      ensures TicksOn(old(Snapshot()), world, Snapshot())
    {
      hide Replying;
      hide Stated;
      hide Honest;
      hide Ended;
      hide Received;
      hide Tried;
      hide Drop;
      hide SomeOpens;
      if pace.progressed {
        pace := pace.(progressed := false, lastProgress := now);
      }
      if order.request.idleTimeout > 0 && (stage == Sending || stage == Receiving)
         && now >= pace.lastProgress && now - pace.lastProgress >= order.request.idleTimeout
      {
        Fail(TimedOut);
        return;
      }
      if stage == Connecting && now >= route.attemptDeadline {
        DropSocket();
        TryNext(world);
        return;
      }
      if pace.more && stage == Receiving {
        Receive(world);
      }
    }

    method Cancel()
      requires Valid()
      modifies this`busy, this`lookup, this`socket, this`pace, this`fileOpen, this`body
      ensures Valid() && !busy
      ensures Snapshot() == if old(busy) then old(Snapshot()).(busy := false, pace := old(pace).(more := false))
                            else old(Snapshot())
    {
      hide Replying;
      if !busy {
        return;
      }
      Release();
      body := "";
    }
  }

  // ---- every request ---------------------------------------------------------------------

  /** One event, whichever it is, leads where it should. */
  method Happen(fetcher: Fetcher, event: Event)
    requires fetcher.Valid() && Expected(event)
    modifies fetcher, fetcher.response
    ensures fetcher.Valid() && (fetcher.response == old(fetcher.response) || fresh(fetcher.response))
    ensures Leads(old(fetcher.Snapshot()), event, fetcher.Snapshot())
  {
    hide Fetcher.Replying;
    hide Fetcher.Stated;
    hide Fetcher.Honest;
    hide Signalled;
    hide Ticks;
    hide LookedUp;
    match event
    case Resolved(world) => fetcher.OnResolved(world);
    case Socket(world) => fetcher.OnSocket(world);
    case Ticked(time, world) => fetcher.Tick(time, world);
    case Cancelled => fetcher.Cancel();
  }

  /** What every state of a request allows: at most one result, a true one, and a bounded number of sockets. */
  lemma Limits(fetcher: Fetcher)
    requires fetcher.Valid()
    ensures |fetcher.results| <= 1 && fetcher.Honest()
    ensures fetcher.route.sockets <= (REDIRECTS_MAX + 1) * ADDRESSES_MAX
  {
    hide Fetcher.Replying;
    hide Fetcher.Stated;
    hide Fetcher.Whole;
  }

  /**
   A request from start to end. Whatever the lookups, the server and the clock do: it starts just if
   it can, and then each event leads where it should, from one of `trace` to the next. Its caller is told
   exactly once unless it cancels, and by the first tick at or past the deadline at the latest; no more
   connects are begun than hops times addresses; and an `Okay` carries exactly the complete body of what
   the reads of the final hop brought.
   */
  method Life(what: Request, sound: bool, begin: nat, first: World, events: seq<Event>)
    returns (fetcher: Fetcher, ok: bool, ghost trace: seq<Snap>)
    requires Plausible(first) && forall i :: 0 <= i < |events| ==> Expected(events[i])
    ensures fetcher.Valid() && |fetcher.results| <= 1 && fetcher.Honest()
    ensures ok <==> sound && Underway(first)
    ensures !ok ==> !fetcher.busy && fetcher.results == []
    ensures IsRun(trace, events, |events|) && trace[|events|] == fetcher.Snapshot()
    ensures ok ==> trace[0] == Begun(what, begin, first)
    ensures ok ==> HeardSoFar(trace, events, |events|) && ToldSoFar(trace, events, |events|)
    ensures ok && Okayed(fetcher.Snapshot()) ==> Earned(trace, events, |events|)
    ensures ok && (exists i :: 0 <= i < |events| && PastDue(events[i], fetcher.order.deadline)) ==> !fetcher.busy
    ensures fetcher.route.sockets <= (REDIRECTS_MAX + 1) * ADDRESSES_MAX
  {
    hide Fetcher.Running;
    hide Fetcher.Rested;
    hide Fetcher.Honest;
    hide HeardSoFar;
    hide Begun;
    hide Leads;
    hide Fine;
    fetcher := new Fetcher();
    ok := fetcher.Start(what, sound, begin, first);
    trace := [fetcher.Snapshot()];
    for i := 0 to |events|
      invariant fetcher.Valid() && fresh(fetcher) && fresh(fetcher.response)
      invariant !ok ==> !fetcher.busy && fetcher.results == []
      invariant IsRun(trace, events, i) && trace[i] == fetcher.Snapshot()
      invariant ok ==> trace[0] == Begun(what, begin, first)
    {
      Happen(fetcher, events[i]);
      RunGrows(trace, events, i, fetcher.Snapshot());
      if !ok {
        RestedLeads(trace[i], events[i], fetcher.Snapshot());
      }
      trace := trace + [fetcher.Snapshot()];
    }
    Limits(fetcher);
    if ok {
      BegunFresh(what, begin, first);
      RunSoFar(trace, events, |events|, |events|);
      if i :| 0 <= i < |events| && PastDue(events[i], fetcher.order.deadline) {
        InTime(trace, events, |events|, i);
      }
    }
  }

  lemma RunGrows(trace: seq<Snap>, events: seq<Event>, n: nat, snap: Snap)
    requires n < |events| && IsRun(trace, events, n) && Expected(events[n]) && Leads(trace[n], events[n], snap)
    ensures IsRun(trace + [snap], events, n + 1)
  {
    hide Leads;
  }
}
