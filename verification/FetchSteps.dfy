/**
 A fetch as a value that moves from event to event: what the outside may answer, what the bytes of
 a reply come to, and where each event leads. The driver of `Fetch` is measured against it.
 */
module FetchSteps {
  import opened Base
  import opened HttpHead
  import opened HttpMachine
  import opened HttpResponse
  import opened HttpFraming

  const REDIRECTS_MAX: nat := 5
  const ADDRESSES_MAX: nat := 4
  const RESPONSE_MAX: nat := 65536
  const READS_PER_TURN: nat := 8
  const CONNECT_ATTEMPT_MS: nat := 3000
  const DEFAULT_TIMEOUT_MS: nat := 30000

  datatype Verb = Get | HeadOnly | Post

  datatype Stage = Resolving | Connecting | Handshaking | Sending | Receiving

  datatype Verdict = Okay | HttpStatus | TooLarge | NetworkError | TlsError | ProtocolError | FileError | TimedOut

  datatype Result = Result(verdict: Verdict, status: nat, body: string)

  datatype Request = Request(
    verb: Verb, ranged: bool, toFile: bool, responseMax: nat, outputMax: nat, timeout: nat, idleTimeout: nat)

  // ---- what the outside may answer -------------------------------------------------------

  datatype Location = Usable | Unusable | OffTls

  datatype Progress = Finished | Pending | Lost

  datatype Read = Data(bytes: string) | Again(more: bool) | Ended(clean: bool)

  datatype World = World(
    numeric: Option<nat>,     // addresses known without a lookup
    lookupStarts: bool,
    found: Option<nat>,       // a lookup has ended, with so many addresses
    opens: seq<bool>,         // whether each connect could be begun
    signalled: bool,          // the event tells of a finished or failed connect
    connected: bool, tlsStarts: bool, handshake: Progress, fits: bool, sending: Progress, moved: bool,
    input: seq<Read>,
    location: Location, fileOpens: bool, fileWrites: bool, fileCloses: bool)

  predicate Plausible(world: World) {
    && (world.numeric.Some? ==> 0 < world.numeric.value <= ADDRESSES_MAX)
    && (world.found.Some? ==> world.found.value <= ADDRESSES_MAX)
  }

  /** What the reads of one turn bring, up to the first that brings nothing. */
  function OfferedFrom(input: seq<Read>, i: nat): string
    decreases READS_PER_TURN - i
  {
    if i >= READS_PER_TURN || i >= |input| || !input[i].Data? then "" else input[i].bytes + OfferedFrom(input, i + 1)
  }

  function Offered(world: World): string {
    OfferedFrom(world.input, 0)
  }

  /** The read behind them: one that brings nothing, unless the turn is over. */
  function LastFrom(input: seq<Read>, i: nat): Read
    decreases READS_PER_TURN - i
  {
    if i >= READS_PER_TURN || i >= |input| then Again(false)
    else if input[i].Data? then LastFrom(input, i + 1)
    else input[i]
  }

  function Last(world: World): Read {
    LastFrom(world.input, 0)
  }

  predicate Progresses(world: World) {
    world.input != [] && world.input[0].Data?
  }

  /** How many connects are begun until one works, `left` addresses being there to try. */
  function Tries(opens: seq<bool>, left: nat, i: nat): nat
    decreases left - i
  {
    if i >= left then 0 else if i < |opens| && opens[i] then 1 else 1 + Tries(opens, left, i + 1)
  }

  /** Whether one of the first `n` connects can be begun. */
  predicate SomeOpens(world: World, n: nat) {
    exists k :: 0 <= k < n && k < |world.opens| && world.opens[k]
  }

  /** Whether a hop gets under way: a connect to a known address, or a lookup. */
  predicate Underway(world: World) {
    if world.numeric.Some? then SomeOpens(world, world.numeric.value) else world.lookupStarts
  }

  // ---- what the bytes of a reply come to -------------------------------------------------

  /** The reply, as far as it was heard. */
  function Reply(r: Request, heard: string): Machine {
    Run(Begin(r.verb == HeadOnly), heard)
  }

  function Delivered(r: Request, heard: string): string {
    Body(Begin(r.verb == HeadOnly), heard)
  }

  predicate GoesToFile(r: Request) {
    r.toFile && r.verb == Get
  }

  predicate IsRedirect(status: nat) {
    status == 301 || status == 302 || status == 303 || status == 307 || status == 308
  }

  /** What a head leads to. */
  datatype Decision = Accept | Follow | Refuse(verdict: Verdict)

  /** A redirect is followed unless it answers a POST, says nowhere, says somewhere unusable or is one too many. */
  function Decide(r: Request, status: nat, located: bool, redirects: nat, world: World): Decision {
    if r.verb == Post && 300 <= status <= 399 then Refuse(ProtocolError)
    else if IsRedirect(status) then
      if !located then Refuse(HttpStatus)
      else if redirects >= REDIRECTS_MAX || world.location != Usable then Refuse(ProtocolError)
      else Follow
    else if !(200 <= status <= 299) then Refuse(HttpStatus)
    else if r.ranged && status != 206 then Refuse(ProtocolError)
    else if GoesToFile(r) && !world.fileOpens then Refuse(FileError)
    else Accept
  }

  function Chosen(r: Request, redirects: nat, world: World, m: Machine): Decision {
    Decide(r, m.status, HeaderValue(m, "location").Some?, redirects, world)
  }

  /** A reply is wanted further, has led to another hop, or settles the request. */
  datatype Fate = Wanted | Moved | Settled(verdict: Verdict, text: string)

  /** Whether a body stays within the limit of where it goes. */
  predicate Within(r: Request, body: string) {
    if GoesToFile(r) then r.outputMax == 0 || |body| <= r.outputMax else |body| <= r.responseMax
  }

  /** A whole reply is handed over: its body, its head if only that was asked for, or a file that must close. */
  function Handover(r: Request, world: World, m: Machine, body: string): Fate {
    if r.verb == HeadOnly && |m.head| > r.responseMax then Settled(TooLarge, "")
    else if GoesToFile(r) && !world.fileCloses then Settled(FileError, "")
    else Settled(Okay, if r.verb == HeadOnly then m.head else if GoesToFile(r) then "" else body)
  }

  /** A reply whose head has been dealt with; `had` of its body was there before. */
  function Yield(r: Request, world: World, had: string, m: Machine, body: string): Fate {
    if body != had && !Within(r, body) then Settled(TooLarge, "")
    else if body != had && GoesToFile(r) && !world.fileWrites then Settled(FileError, "")
    else if m.phase == Done then Handover(r, world, m, body)
    else Wanted
  }

  function Judged(r: Request, redirects: nat, world: World, headed: bool, had: string, m: Machine, body: string): Fate {
    if m.phase == Failed then Settled(ProtocolError, "")
    else if headed || m.status == 0 then Yield(r, world, had, m, body)
    else match Chosen(r, redirects, world, m)
      case Accept => Yield(r, world, had, m, body)
      case Follow => Moved
      case Refuse(verdict) => Settled(verdict, "")
  }

  /** What a reply of which `said` has been heard comes to, `before` of it having been dealt with. */
  function FateOf(r: Request, redirects: nat, world: World, before: string, said: string): Fate {
    Judged(r, redirects, world, Reply(r, before).status != 0, Delivered(r, before), Reply(r, said), Delivered(r, said))
  }

  /** Whether a close ends a reply: one framed by the close must have been closed cleanly. */
  predicate Closes(m: Machine, clean: bool) {
    m.status != 0 && Finish(m).1 && (m.framing == ByClose ==> clean)
  }

  function FateOfClose(r: Request, world: World, m: Machine, body: string, clean: bool): Fate {
    if Closes(m, clean) then Handover(r, world, m, body) else Settled(NetworkError, "")
  }

  /** Neither is the reply over nor has its head, if it has come, put an end to the hop. */
  predicate Open(r: Request, redirects: nat, world: World, headed: bool, m: Machine) {
    !Terminal(m) && (headed || m.status == 0 || Chosen(r, redirects, world, m) == Accept)
  }

  /** Nothing shorter than `said` had settled it. */
  predicate Unsettled(r: Request, redirects: nat, world: World, before: string, said: string) {
    forall k :: |before| <= k < |said| ==> Open(r, redirects, world, Reply(r, before).status != 0, Reply(r, said[..k]))
  }

  /** A turn of reading heard on from `before` to `said`: to the end of what was offered, or what settled it. */
  predicate Listens(r: Request, redirects: nat, world: World, before: string, offered: string, said: string) {
    && before <= said && said <= before + offered && Unsettled(r, redirects, world, before, said)
    && (FateOf(r, redirects, world, before, said) == Wanted ==> said == before + offered)
  }

  // ---- where each step leads -------------------------------------------------------------

  /** What was asked for, by when, and whether the caller may be told of an end yet. */
  datatype Order = Order(request: Request, deadline: nat, announce: bool)

  /** The way so far: hops, this hop's addresses and how many were tried, and connects begun on all of them. */
  datatype Route = Route(redirects: nat, addresses: nat, next: nat, sockets: nat, attemptDeadline: nat)

  /** When bytes last moved, and whether some are left in the session. */
  datatype Pace = Pace(lastProgress: nat, progressed: bool, more: bool)

  /** A request between two events. `heard` is of the current hop, `results` is what its caller was told. */
  datatype Snap = Snap(
    order: Order, now: nat, busy: bool, stage: Stage, route: Route, pace: Pace, heard: string, results: seq<Result>)

  /** The end, and what the caller is told of it if it may be told yet. */
  function Drop(s: Snap, verdict: Verdict, text: string): Snap {
    s.(busy := false, pace := s.pace.(more := false),
       results := if s.order.announce then [Result(verdict, Reply(s.order.request, s.heard).status, text)] else [])
  }

  /** A connect to the first remaining address that allows one. */
  function Tried(s: Snap, world: World): Snap {
    var left := if s.route.next < s.route.addresses then s.route.addresses - s.route.next else 0;
    var n := Tries(world.opens, left, 0);
    var route := s.route.(next := s.route.next + n, sockets := s.route.sockets + n);
    if SomeOpens(world, left)
    then s.(stage := Connecting, route := route.(attemptDeadline := s.now + CONNECT_ATTEMPT_MS))
    else Drop(s.(route := route), NetworkError, "")
  }

  /** A hop to another host: known addresses at once, or a lookup for them. */
  function Hopped(s: Snap, world: World): Snap {
    var t := s.(stage := Resolving, route := s.route.(addresses := 0, next := 0), heard := "");
    if world.numeric.Some? then Tried(t.(route := t.route.(addresses := world.numeric.value)), world)
    else if world.lookupStarts then t
    else Drop(t, NetworkError, "")
  }

  function MovedOn(s: Snap, world: World): Snap {
    Hopped(s.(route := s.route.(redirects := s.route.redirects + 1), pace := s.pace.(more := false)), world)
  }

  function Took(s: Snap, world: World, fate: Fate): Snap {
    match fate
    case Wanted => s
    case Moved => MovedOn(s, world)
    case Settled(verdict, text) => Drop(s, verdict, text)
  }

  /** What the last read of a turn leads to. */
  function Rest(s: Snap, world: World, last: Read): Snap {
    match last
    case Data(_) => s
    case Again(more) => s.(pace := s.pace.(more := more))
    case Ended(clean) =>
      var r := s.order.request;
      Took(s, world, FateOfClose(r, world, Reply(r, s.heard), Delivered(r, s.heard), clean))
  }

  /** A turn of reading that heard `said`. */
  function Turned(s: Snap, world: World, said: string): Snap {
    var fate := FateOf(s.order.request, s.route.redirects, world, s.heard, said);
    var t := s.(heard := said, pace := s.pace.(more := false, progressed := s.pace.progressed || Progresses(world)));
    if fate == Wanted then Rest(t, world, Last(world)) else Took(t, world, fate)
  }

  ghost predicate Received(s: Snap, world: World, b: Snap) {
    exists said: string ::
      Listens(s.order.request, s.route.redirects, world, s.heard, Offered(world), said) && b == Turned(s, world, said)
  }

  ghost predicate Sent(s: Snap, world: World, b: Snap) {
    var t := s.(pace := s.pace.(progressed := s.pace.progressed || world.moved));
    match world.sending
    case Pending => b == t
    case Lost => b == Drop(t, NetworkError, "")
    case Finished => Received(t.(stage := Receiving), world, b)
  }

  ghost predicate Shook(s: Snap, world: World, b: Snap) {
    match world.handshake
    case Pending => b == s
    case Lost => b == Drop(s, TlsError, "")
    case Finished =>
      if !world.fits then b == Drop(s, ProtocolError, "")
      else Sent(s.(stage := Sending, pace := s.pace.(lastProgress := s.now, progressed := true)), world, b)
  }

  ghost predicate Connects(s: Snap, world: World, b: Snap) {
    if !world.connected then b == Tried(s.(pace := s.pace.(more := false)), world)
    else if !world.tlsStarts then b == Drop(s, TlsError, "")
    else Shook(s.(stage := Handshaking), world, b)
  }

  /** An event of the socket. */
  ghost predicate Signalled(s: Snap, world: World, b: Snap) {
    match s.stage
    case Resolving => b == s
    case Connecting => if world.signalled then Connects(s, world, b) else b == s
    case Handshaking => Shook(s, world, b)
    case Sending => Sent(s, world, b)
    case Receiving => Received(s, world, b)
  }

  /** The end of a lookup. */
  function LookedUp(s: Snap, world: World): Snap
    requires world.found.Some?
  {
    if s.stage != Resolving then s
    else if world.found.value == 0 then Drop(s, NetworkError, "")
    else Tried(s.(route := s.route.(addresses := world.found.value)), world)
  }

  /** A sending or receiving connection has been still for as long as the request allows. */
  predicate Stalled(s: Snap) {
    && s.order.request.idleTimeout > 0 && (s.stage == Sending || s.stage == Receiving)
    && s.now >= s.pace.lastProgress && s.now - s.pace.lastProgress >= s.order.request.idleTimeout
  }

  /** A tick before the deadline: progress noted, a stalled reply given up, a silent address passed over. */
  ghost predicate TicksOn(s: Snap, world: World, b: Snap) {
    var t := if s.pace.progressed then s.(pace := s.pace.(progressed := false, lastProgress := s.now)) else s;
    if Stalled(t) then b == Drop(t, TimedOut, "")
    else if t.stage == Connecting && t.now >= t.route.attemptDeadline
    then b == Tried(t.(pace := t.pace.(more := false)), world)
    else if t.pace.more && t.stage == Receiving then Received(t, world, b)
    else b == t
  }

  /** A tick: a lookup may end in it, and then the deadline comes first of all. */
  ghost predicate Ticks(s: Snap, world: World, b: Snap) {
    var t := if s.stage == Resolving && world.found.Some? then LookedUp(s, world) else s;
    if !t.busy then b == t
    else if t.now >= t.order.deadline then b == Drop(t, TimedOut, "")
    else TicksOn(t, world, b)
  }

  datatype Event = Resolved(world: World) | Socket(world: World) | Ticked(time: nat, world: World) | Cancelled

  predicate Expected(event: Event) {
    && (!event.Cancelled? ==> Plausible(event.world))
    && (event.Resolved? ==> event.world.found.Some?)
  }

  /** Where one event leads. */
  ghost predicate Leads(a: Snap, event: Event, b: Snap)
    requires Expected(event)
  {
    match event
    case Cancelled => b == if a.busy then a.(busy := false, pace := a.pace.(more := false)) else a
    case Resolved(world) => b == if a.busy then LookedUp(a, world) else a
    case Socket(world) => if a.busy then Signalled(a, world, b) else b == a
    case Ticked(time, world) =>
      var s := a.(now := time);
      if a.busy then Ticks(s, world, b) else b == s
  }

  // ---- a reply heard in parts ------------------------------------------------------------

  lemma StepKeepsHead(m: Machine, c: char)
    requires m.phase != Head
    ensures Step(m, c).status == m.status && Step(m, c).head == m.head
  {
    hide HttpMachine.StepHead;
    hide HttpHead.ChunkSizeOf;
  }

  lemma {:induction false} HeadStays(m: Machine, input: string)
    requires Sound(m) && m.status != 0
    ensures Run(m, input).status == m.status && Run(m, input).head == m.head
    decreases |input|
  {
    hide HttpMachine.Step;
    hide HttpMachine.Sound;
    if input != "" {
      SoundFacts(m);
      StepSound(m, input[0]);
      StepKeepsHead(m, input[0]);
      HeadStays(Step(m, input[0]), input[1..]);
    }
  }

  /** What a reply of which more is heard keeps. */
  lemma Later(r: Request, before: string, said: string)
    requires before <= said
    ensures Delivered(r, before) <= Delivered(r, said)
    ensures Reply(r, before).status == 0 ==> Delivered(r, before) == ""
    ensures Reply(r, before).status != 0 ==>
      && Reply(r, said).status == Reply(r, before).status
      && HeaderValue(Reply(r, said), "location") == HeaderValue(Reply(r, before), "location")
    ensures Terminal(Reply(r, before)) ==> Reply(r, said) == Reply(r, before)
  {
    hide HttpMachine.Run;
    hide HttpMachine.Body;
    hide HttpMachine.Sound;
    var m, rest := Begin(r.verb == HeadOnly), said[|before|..];
    assert said == before + rest;
    BeginSound(r.verb == HeadOnly);
    RunConcat(m, before, rest);
    RunSound(m, before);
    SoundFacts(Reply(r, before));
    if Reply(r, before).status != 0 {
      HeadStays(Reply(r, before), rest);
    }
    if Terminal(Reply(r, before)) {
      TerminalStays(Reply(r, before), rest);
    }
  }

  lemma BeginSound(headRequest: bool)
    ensures Sound(Begin(headRequest))
  {
  }

  /** A reply that was still wanted can be judged afresh from there. */
  lemma FateGoesOn(r: Request, redirects: nat, world: World, before: string, mid: string, said: string)
    requires before <= mid <= said && FateOf(r, redirects, world, before, mid) == Wanted
    ensures FateOf(r, redirects, world, before, said) == FateOf(r, redirects, world, mid, said)
    ensures Open(r, redirects, world, Reply(r, mid).status != 0, Reply(r, said)) ==>
      Open(r, redirects, world, Reply(r, before).status != 0, Reply(r, said))
  {
    hide HttpMachine.Run;
    hide HttpMachine.Body;
    hide HttpFraming.HeaderValue;
    hide Handover;
    hide Within;
    Later(r, before, mid);
    Later(r, mid, said);
    hide Reply;
    hide Delivered;
  }

  /** So nothing shorter than the whole had settled it, if nothing in either part had. */
  lemma UnsettledOn(r: Request, redirects: nat, world: World, before: string, mid: string, said: string)
    requires before <= mid <= said && FateOf(r, redirects, world, before, mid) == Wanted
    requires Unsettled(r, redirects, world, before, mid) && Unsettled(r, redirects, world, mid, said)
    ensures Unsettled(r, redirects, world, before, said)
  {
    hide FateOf;
    hide Reply;
    hide Open;
    var headed := Reply(r, before).status != 0;
    forall k | |before| <= k < |said| ensures Open(r, redirects, world, headed, Reply(r, said[..k])) {
      if k < |mid| {
        assert said[..k] == mid[..k];
      } else {
        FateGoesOn(r, redirects, world, before, mid, said[..k]);
      }
    }
  }

  /** One call of the codec, which stops at a head and at the end, settles nothing on the way. */
  lemma UnsettledCall(r: Request, redirects: nat, world: World, before: string, said: string)
    requires before < said
    requires !Terminal(Reply(r, said[..|said| - 1]))
    requires Reply(r, before).status == 0 ==> Reply(r, said[..|said| - 1]).status == 0
    ensures Unsettled(r, redirects, world, before, said)
  {
    hide Reply;
    hide Delivered;
    hide HttpFraming.HeaderValue;
    hide Chosen;
    var last := said[..|said| - 1];
    forall k | |before| <= k < |said|
      ensures Open(r, redirects, world, Reply(r, before).status != 0, Reply(r, said[..k]))
    {
      assert said[..k] <= last;
      Later(r, said[..k], last);
    }
  }

  /** Nothing more heard of an open reply settles nothing. */
  lemma StillWanted(r: Request, redirects: nat, world: World, heard: string)
    requires !Terminal(Reply(r, heard))
    ensures FateOf(r, redirects, world, heard, heard) == Wanted && Unsettled(r, redirects, world, heard, heard)
  {
    hide Reply;
    hide Delivered;
  }

  /** Only a clean close completes a reply that was still wanted. */
  lemma CloseIsClean(r: Request, world: World, heard: string, clean: bool)
    requires !Terminal(Reply(r, heard)) && Closes(Reply(r, heard), clean)
    ensures clean && Reply(r, heard).phase == UntilClose
  {
    hide HttpMachine.Run;
    hide HttpMachine.Sound;
    BeginSound(r.verb == HeadOnly);
    RunSound(Begin(r.verb == HeadOnly), heard);
    SoundFacts(Reply(r, heard));
  }

  lemma RestOfClose(s: Snap, world: World, clean: bool)
    ensures var m, body := Reply(s.order.request, s.heard), Delivered(s.order.request, s.heard);
            Rest(s, world, Ended(clean)) ==
              if Closes(m, clean) then Took(s, world, Handover(s.order.request, world, m, body))
              else Drop(s, NetworkError, "")
  {
    hide Reply;
    hide Delivered;
    hide Closes;
    hide Handover;
    hide Drop;
  }

  /** The first `n` connects cannot be begun. */
  predicate NoneOpens(world: World, n: nat) {
    forall k :: 0 <= k < n && k < |world.opens| ==> !world.opens[k]
  }

  /** The connects begun are all that are left if none works, and otherwise up to the first that does. */
  lemma {:induction false} TriesAre(world: World, left: nat, i: nat, n: nat)
    requires i <= n <= left && NoneOpens(world, n)
    requires n < left ==> n < |world.opens| && world.opens[n]
    ensures Tries(world.opens, left, i) == if n < left then n - i + 1 else n - i
    decreases n - i
  {
    if i < n {
      TriesAre(world, left, i + 1, n);
    }
  }

  /** The first address that allows a connect is the `tried`th one left. */
  lemma TriedOne(s: Snap, world: World, tried: nat)
    requires 0 < tried <= s.route.addresses - s.route.next && NoneOpens(world, tried - 1)
    requires tried <= |world.opens| && world.opens[tried - 1]
    ensures SomeOpens(world, s.route.addresses - s.route.next)
    ensures Tried(s, world) == s.(stage := Connecting, route := s.route.(
      next := s.route.next + tried, sockets := s.route.sockets + tried, attemptDeadline := s.now + CONNECT_ATTEMPT_MS))
  {
    TriesAre(world, s.route.addresses - s.route.next, 0, tried - 1);
  }

  lemma TriedAll(s: Snap, world: World)
    requires s.route.next <= s.route.addresses && NoneOpens(world, s.route.addresses - s.route.next)
    ensures !SomeOpens(world, s.route.addresses - s.route.next)
    ensures Tried(s, world) == Drop(s.(route := s.route.(
      next := s.route.addresses, sockets := s.route.sockets + s.route.addresses - s.route.next)), NetworkError, "")
  {
    hide Drop;
    var left := s.route.addresses - s.route.next;
    TriesAre(world, left, 0, left);
  }

  // ---- a turn of reading, read by read ---------------------------------------------------

  function ReadAt(world: World, i: nat): Read {
    if i < |world.input| then world.input[i] else Again(false)
  }

  /** A turn after `i` reads that all brought something, and left the reply wanted. */
  ghost predicate Turning(s: Snap, world: World, i: nat, t: Snap) {
    && t == s.(heard := t.heard, pace := s.pace.(more := false, progressed := s.pace.progressed || i > 0))
    && (i > 0 ==> Progresses(world)) && s.heard <= t.heard
    && t.heard + OfferedFrom(world.input, i) == s.heard + Offered(world)
    && LastFrom(world.input, i) == Last(world)
    && FateOf(s.order.request, s.route.redirects, world, s.heard, t.heard) == Wanted
    && Unsettled(s.order.request, s.route.redirects, world, s.heard, t.heard)
  }

  lemma TurnBegins(s: Snap, world: World)
    requires FateOf(s.order.request, s.route.redirects, world, s.heard, s.heard) == Wanted
    requires Unsettled(s.order.request, s.route.redirects, world, s.heard, s.heard)
    ensures Turning(s, world, 0, s.(pace := s.pace.(more := false)))
  {
    hide FateOf;
    hide Unsettled;
  }

  /** What one read that brought `bytes` heard, judged from where the turn began. */
  lemma TurnHears(s: Snap, world: World, i: nat, t: Snap, bytes: string, said: string)
    requires Turning(s, world, i, t) && i < READS_PER_TURN && ReadAt(world, i) == Data(bytes)
    requires Listens(t.order.request, t.route.redirects, world, t.heard, bytes, said)
    ensures var fate := FateOf(t.order.request, t.route.redirects, world, t.heard, said);
            && FateOf(s.order.request, s.route.redirects, world, s.heard, said) == fate
            && Unsettled(s.order.request, s.route.redirects, world, s.heard, said)
            && s.heard <= said && said <= s.heard + Offered(world) && Progresses(world)
            && (fate == Wanted ==>
                  && said + OfferedFrom(world.input, i + 1) == s.heard + Offered(world)
                  && LastFrom(world.input, i + 1) == Last(world))
  {
    FateGoesOn(s.order.request, s.route.redirects, world, s.heard, t.heard, said);
    UnsettledOn(s.order.request, s.route.redirects, world, s.heard, t.heard, said);
    hide FateOf;
    hide Unsettled;
    var rest := OfferedFrom(world.input, i + 1);
    assert t.heard + (bytes + rest) == t.heard + bytes + rest;
    assert said <= t.heard + bytes + rest;
  }

  lemma TurnGoesOn(s: Snap, world: World, i: nat, t: Snap, said: string, b: Snap)
    requires Turning(s, world, i, t) && i < READS_PER_TURN && ReadAt(world, i).Data?
    requires Listens(t.order.request, t.route.redirects, world, t.heard, ReadAt(world, i).bytes, said)
    requires FateOf(t.order.request, t.route.redirects, world, t.heard, said) == Wanted
    requires b == Took(t.(heard := said, pace := t.pace.(progressed := true)), world, Wanted)
    ensures Turning(s, world, i + 1, b)
  {
    TurnHears(s, world, i, t, ReadAt(world, i).bytes, said);
    hide FateOf;
    hide Unsettled;
    hide OfferedFrom;
    hide LastFrom;
  }

  /** A read that brings nothing, or settles the reply, ends the turn. */
  lemma TurnStops(s: Snap, world: World, i: nat, t: Snap, said: string, b: Snap)
    requires Turning(s, world, i, t) && i < READS_PER_TURN
    requires match ReadAt(world, i)
             case Data(bytes) =>
               var fate := FateOf(t.order.request, t.route.redirects, world, t.heard, said);
               && Listens(t.order.request, t.route.redirects, world, t.heard, bytes, said) && fate != Wanted
               && b == Took(t.(heard := said, pace := t.pace.(progressed := true)), world, fate)
             case _ => b == Rest(t, world, ReadAt(world, i))
    ensures Received(s, world, b)
  {
    var read := ReadAt(world, i);
    if read.Data? {
      TurnHears(s, world, i, t, read.bytes, said);
      TurnIs(s, world, said, b);
    } else {
      assert OfferedFrom(world.input, i) == "" && Last(world) == read;
      assert t.heard + "" == t.heard;
      TurnIs(s, world, t.heard, b);
    }
  }

  lemma TurnEnds(s: Snap, world: World, t: Snap)
    requires Turning(s, world, READS_PER_TURN, t)
    ensures Received(s, world, t)
  {
    assert t.heard + "" == t.heard;
    TurnIs(s, world, t.heard, t);
  }

  lemma TurnIs(s: Snap, world: World, said: string, b: Snap)
    requires s.heard <= said && said <= s.heard + Offered(world)
    requires Unsettled(s.order.request, s.route.redirects, world, s.heard, said)
    requires FateOf(s.order.request, s.route.redirects, world, s.heard, said) == Wanted ==>
      said == s.heard + Offered(world)
    requires b == Turned(s, world, said)
    ensures Received(s, world, b)
  {
    hide FateOf;
    hide Unsettled;
    hide Turned;
    assert Listens(s.order.request, s.route.redirects, world, s.heard, Offered(world), said);
  }

  lemma TookWanted(s: Snap, world: World)
    ensures Took(s, world, Wanted) == s
  {
  }

  /** A request as it is handed in, before its first hop. */
  function Asked(what: Request, time: nat): Snap {
    Snap(Order(what.(responseMax := if what.responseMax > 0 then what.responseMax else RESPONSE_MAX),
         time + (if what.timeout > 0 then what.timeout else DEFAULT_TIMEOUT_MS),
         false), time, true, Resolving, Route(0, 0, 0, 0, 0), Pace(0, false, false), "", [])
  }

  /** A request whose first hop is under way. */
  function Begun(what: Request, time: nat, world: World): Snap {
    var s := Hopped(Asked(what, time), world);
    s.(order := s.order.(announce := true))
  }
}
