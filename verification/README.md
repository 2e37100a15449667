# Verified model of inkwell

inkwell is a single-threaded C runtime of incremental parsers, bounded queues and event-driven
protocol machines. This project models the parts of it whose promises are hard to see in the code -
mostly "the answer does not depend on how the bytes were cut" and "this bounded, mutable structure is
really a simple sequence" - and proves them for every input, run or reachable state. Verify it with
`dafny verify dfyconfig.toml`.

Code that updates an object or a buffer is a class or a method over arrays, each proved against a
function of its inputs; the lemmas are about those functions. The rules and vectors then hold them to
what can be seen from outside: statuses, answers, times and bytes. Run-level results drive an object
through an arbitrary list of events and say where every one of them leads: as the fold of a pure step
(`MqttInbound.Session`, `MqttOutbound.Outbox`, `StreamRing.Life`), as a trace each of whose pairs is
related by its event (`MqttClient.Life`, `Fetch.Life`), or as a lemma over runs
(`BluezSystem.Coherence`, `FetchRun.RunSoFar`).

## Layout

| files | what they hold |
|---|---|
| Bluez*.dfy | the local copy of bluetoothd's object tree: the copy as functions, the server, one path at a time, the system of both with a bus between them, what loads and drops the copy, and the backend that updates it in place |
| Http*.dfy | the HTTP/1.1 response codec: heads, a one-byte reference machine, framing laws, the incremental parser, and whole responses as servers send them |
| Fetch*.dfy | a fetch as a value that steps from event to event, its runs, its rules, and the driver over that parser that takes those steps |
| Mqtt*.dfy, OutboxRules.dfy | the MQTT codec, inbound framing, outbound queue and reconnecting client, and what they do with packets and answers, rule by rule |
| StreamRing.dfy, StreamRules.dfy | the stream's ring of send slots, and what a flush of it comes to |
| Json*.dfy | the grammar of section 2 of RFC 8259 with its whitespace, the reader as functions, and the reader itself |
| EspRom.dfy | SLIP (RFC 1055) framing of ESP ROM requests and responses |
| RecordFile.dfy, StreamingHash.dfy, Text.dfy, Version.dfy, VersionOrder.dfy | the record file, SHA-256 and MD5 streaming, UTF-8 text, version strings |
| Vectors.dfy | encodings written out, from the standards' own tables and examples |

## What is assumed

- bluetoothd: a path carries at most one of the three kept interfaces at a time; InterfacesAdded is
  sent only for an absent interface; kept properties keep their types; of them only a device's RSSI,
  Name, Alias, Paired and UUIDs ever stop existing, and a characteristic's UUID is never announced as
  changed (the copy ignores changes to characteristics). Paths as long as a handle are outside the
  projection, because the copy refuses them. All of it is in `BluezServer.Announces`, `Sound` and
  `WellFormedTree`. D-Bus serials do not wrap.
- Sockets, TLS sessions, files and memory answer as they like: any short count, would-block or error
  is a parameter of the step. Clocks are positive and never run backwards. A resolver ends a lookup by
  its own deadline (`lookupBy` in `MqttClient.Client`) and hands over no more addresses than its list
  holds (`FetchSteps.Plausible`). The reads of `MqttClient` leave the inbound buffer short of full
  (`MqttClient.Plausible`), which `MqttInbound.Session` proves of them.
- Bytes of HTTP, JSON, records and versions are written as characters; a character of 256 or more
  never matters.
- Callbacks are recorded and do not call back in.
- The block functions of SHA-256 and MD5 are a parameter. No bound on the message is needed, since
  the counters are modelled modulo 2^64; below 2^61 bytes the length field is the length in bits.

## Where the code and a standard part ways

- Content-Length refuses the six largest 64-bit values; chunk sizes accept all of 64 bits
  (`HttpHead.ParseLength`, `HttpHead.ReadHex`).
- A version number stops accumulating at 10^8, so numbers from 10^9 on are misread: 999999999 is
  reported newer than 1000000000 (`VersionOrder.Backwards`), and numbers that differ only later on
  compare equal (`VersionOrder.CapTies`). The comparison is SemVer's on all versions with numbers up to
  N exactly if N is below 10^9 (`VersionOrder.AgreementBound`).
- A frame whose opening delimiter completes a pending response is lost to it (`EspRom.FrameMet` states
  both cases; `EspRom.FrameLostHere` is two responses of which only the first is reported).
- The bracket count of the JSON skip does not tell braces from square brackets; on well-formed text
  that makes no difference (`JsonScan.SkipsExactly`).
- A JSON member's name is compared as far as a 63-byte buffer holds it: a name of 64 letters is taken
  for a key of 63 (`JsonWalk.LongNameTaken`). A key made of text is seen rightly against every name
  without a NUL exactly if it is under 60 bytes (`JsonWalk.KeyBound`).
- An escaped surrogate pair reads as two question marks (`JsonGrammar.PairLost`); any other escape stands
  for the character it names, and only those do (`JsonGrammar.EscapedRightly`).

## Model

| member | source | states |
|---|---|---|
| BluezSystem.Coherence | src/ble/bluez.c:556-570 | In every run of server, FIFO bus and copy, with restarts, snapshots that overtake queued signals and snapshots asked for without waiting: a loaded copy has no snapshot outstanding, and whenever nothing is queued a loaded copy is exactly the tree restricted to what is kept. It also holds ahead of time: handling what is queued now leads there |
| BluezSystem.RunInvariant | src/ble/bluez.c:556-570 | The invariant behind it, kept by every step of every run |
| BluezSystem.SettlesAhead | src/ble/bluez.c:881-908 | The key step: a snapshot newer than the signals still queued survives all of them, because each one re-applied leaves every path between its old and its final state |
| BluezSystem.TracksStep | src/ble/bluez.c:910-983 | One stale signal at one path keeps the copy between where the tree was and where it ended |
| BluezSystem.MirrorsApply | src/ble/bluez.c:910-983 | A copy that is the tree, given the signal of a change, is the changed tree |
| BluezSystem.LoadMirrors | src/ble/bluez.c:827-857 | A copy loaded from a listing of the tree in any order is the tree |
| BluezSystem.StepKeeps | src/ble/bluez.c:910-983 | Each of the ten steps of the system keeps the invariant, bad luck with memory and queues included |
| BluezSystem.HandleSerials | src/ble/bluez.c:2019-2031 | No message leaves a loaded copy with a snapshot outstanding, serials only grow, and running out of memory can only drop the copy |
| BluezSystem.SharedPathKeepsStaleFields | src/ble/bluez.c:806-825 | Why a path may carry only one kept interface: with two, a removed and re-added interface keeps its old values |
| BluezLive.FetchLoads | src/ble/bluez.c:881-908 | A blocking fetch that is answered ends with a loaded copy, and that copy is the tree |
| BluezLive.AnswerLoads | src/ble/bluez.c:2019-2031 | So does the answer to a fetch that was not waited for, with the tree that was listed |
| BluezLive.AnswerElse | src/ble/bluez.c:2019-2031 | Any other answer changes nothing, and a refusal leaves nothing outstanding |
| BluezLive.SignalKeeps | src/ble/bluez.c:910-983 | A signal loads no copy and, with memory, drops none, and leaves a fetch alone |
| BluezLive.OwnerAsks | src/ble/bluez.c:910-930 | A new bluetoothd drops the copy and leaves a snapshot on its way if the call can be queued |
| BluezLive.DropsOnly | src/ble/bluez.c:910-983 | Only bluetoothd's restart or exit and want of memory end a copy |
| BluezLive.ComesBack | src/ble/bluez.c:865-879 | A bluetoothd that starts, is asked and answers: the copy is its tree |
| BluezLive.Recovers | src/ble/bluez.c:556-570 | From any state of any run, once what is queued is handled there is a copy that is the tree, or one fetch away from it |
| BluezLive.FirstFetch | src/ble/bluez.c:827-857 | One listing of an adapter, a device and a characteristic, and the copy it loads to |
| BluezCells.ApplyCell | src/ble/bluez.c:772-825 | What a signal does to the copy as a whole is what its event does at each path, and other paths are untouched |
| BluezCells.AfterCell | src/ble/bluez.c:910-983 | What the announced change does to the kept part of the tree is the same event, and one the tree allows |
| BluezServer.ProjectAssign | src/ble/bluez.c:670-719 | Setting properties one by one gives the fields read off the changed tree |
| BluezServer.ProjectForget | src/ble/bluez.c:721-739 | Unsetting invalidated properties gives the fields read off the tree without them |
| BluezBackend.Backend.ObjectFind | src/ble/bluez.c:587-595 | The loop finds the object at a path, or says there is none |
| BluezBackend.Backend.ObjectAdd | src/ble/bluez.c:597-617 | Appends an empty object for a path that has none |
| BluezBackend.Backend.ObjectSetProperties | src/ble/bluez.c:741-770 | The property loop sets exactly the fields the properties name |
| BluezBackend.Backend.ObjectUnsetProperties | src/ble/bluez.c:721-739 | The invalidation loop resets exactly the fields named |
| BluezBackend.Backend.ObjectsAddInterfaces | src/ble/bluez.c:772-804 | Adds the kept interfaces of one path, and ignores paths too long for a handle |
| BluezBackend.Backend.ObjectsRemoveInterfaces | src/ble/bluez.c:806-825 | Drops interfaces, and the object with the last of them |
| BluezBackend.Backend.ObjectsLoad | src/ble/bluez.c:827-857 | Replaces the copy by a listing, or drops it if memory runs out |
| BluezBackend.Backend.ObjectsRequest | src/ble/bluez.c:865-879 | Sends a request and remembers its serial, or 0 if it cannot be queued |
| BluezBackend.Backend.ObjectsEnsure | src/ble/bluez.c:881-908 | The blocking fetch, however it ends: a copy that is there is left alone, and true just if there is one afterwards |
| BluezBackend.Backend.ObjectsPropertiesChanged | src/ble/bluez.c:960-983 | Applies changed and invalidated properties to an object that has the interface |
| BluezBackend.Backend.HandleMessage | src/ble/bluez.c:2019-2031 | The whole new state for every kind of message: the transition that the runs above are made of |
| HttpHead.LinesGrow | src/codec/http.c:341-353 | A byte lengthens the last line or ends it: what the buffer says grows one line at a time |
| HttpHead.ParseLength | src/codec/http.c:442-449 | The digit loop accepts exactly the decimal numbers below 2^64 less the six largest, with their value, and never leaves 64 bits |
| HttpHead.TrimValue | src/codec/http.c:355-364 | The two trimming loops leave the value without surrounding blanks |
| HttpHead.ReadHeader | src/codec/http.c:366-394 | A line is a header exactly if a token and a colon begin it |
| HttpHead.ReadStatus | src/codec/http.c:396-416 | A status line is accepted exactly in its fixed form, with its three digits read |
| HttpHead.WalkHeaders | src/codec/http.c:418-468 | The walk over the buffer by offsets is the walk over its lines |
| HttpHead.ParseHead | src/codec/http.c:396-496 | One pass over the buffered head comes to what its lines say |
| HttpHead.ReadHex | src/codec/http.c:545-554 | The size loop accepts exactly the values below 2^64, however long the line, and never shifts a bit out |
| HttpHead.ParseChunkSize | src/codec/http.c:530-583 | A size line is digits, blanks, and nothing or an extension |
| HttpMachine.RunConcat | src/codec/http.c:594-697 | The one-byte reference machine over a concatenation is one run after the other |
| HttpMachine.SliceIsBytes | src/codec/http.c:617-631 | Taking a slice of body at once is taking its bytes one by one, and only its last byte can end the phase |
| HttpMachine.CloseIsBytes | src/codec/http.c:633-637 | The same for a body that ends with the connection |
| HttpMachine.TerminalStays | src/codec/http.c:690-693 | A finished or failed response takes nothing more |
| HttpMachine.BlankEndsHead | src/codec/http.c:499-527 | The blank-line test fires exactly on the first blank line, so the head holds one, the last |
| HttpMachine.StepSound | src/codec/http.c:594-697 | Every byte keeps the machine sound, in all ten phases |
| HttpMachine.RunSound | src/codec/http.c:594-697 | So does every byte string; the received count is the length of the body delivered |
| HttpFraming.WalkFinds | src/codec/http.c:418-468 | The length a walk ends with is that of the first Content-Length header |
| HttpFraming.WalkAccepts | src/codec/http.c:418-468 | The walk accepts exactly the header lists that agree: no two lengths that differ, at most one transfer coding and that one chunked, no line that is not a header |
| HttpFraming.EveryHeaderSeen | src/codec/http.c:341-353 | Whatever was received, a head that parsed is a status line, headers none of which is blank, and one blank line, and all of the headers were weighed |
| HttpFraming.LengthFraming | src/codec/http.c:699-714 | Under length framing delivered plus remaining is the Content-Length stated, in every reachable state, and a close is legitimate exactly when all of it has been delivered |
| HttpFraming.NeverTruncated | src/codec/http.c:699-714 | Only a close reports truncation; no byte does |
| HttpFraming.ChunkedRoundTrip | src/codec/http.c:617-688 | From the start of a chunked body: any non-empty chunks, with any size lines that say their sizes, come out concatenated; the last byte of the encoding, and none before it, ends the response, and nothing after it is consumed |
| HttpWhole.HeadRead | src/codec/http.c:499-527 | Any head that can be sent, byte by byte from the start, comes to what its lines say |
| HttpWhole.ChunkedResponse | src/codec/http.c:396-688 | The same for a whole response from its first byte, behind any head whose headers agree and announce chunked |
| HttpSent.HeaderSent | src/codec/http.c:366-394 | A header as it is usually sent reads back as its name and its value |
| HttpSent.HeaderFound | src/codec/http.c:366-394 | A header that was sent is found by its name in any letter case |
| HttpSent.LengthSent | src/codec/http.c:442-449 | A Content-Length is that length, for all but lengths that are too large |
| HttpSent.EncodingSent | src/codec/http.c:458-467 | A Transfer-Encoding is chunked or is not |
| HttpSent.HeadOutcome | src/codec/http.c:396-496 | Exactly which heads are refused, which skipped as interim and which taken |
| HttpSent.FirstFault | src/codec/http.c:418-468 | A refused head is refused for its first header that cannot be believed |
| HttpSent.FramingRule | src/codec/http.c:477-496 | The framing as an iff over the headers: none for HEAD, 204 and 304, else chunks, else the length stated, else the close |
| HttpSent.LengthResponse | src/codec/http.c:486-490 | Behind a head that states a length any so many bytes are the body, the last ends the response and none before does, and nothing behind is consumed |
| HttpSent.BodilessResponse | src/codec/http.c:478-480 | A response without a body is over with its head |
| HttpSent.CloseResponse | src/codec/http.c:633-637 | A response that says nothing about its end takes everything, and only a close ends it |
| HttpSent.InterimSkipped | src/codec/http.c:470-475 | An interim response leaves no trace |
| HttpSent.ExtensionIgnored | src/codec/http.c:530-583 | An extension behind a chunk's size changes nothing |
| HttpSent.ChunkedTrailers | src/codec/http.c:639-688 | Trailer fields behind the last chunk are read past, and their blank line ends the response |
| HttpSent.ChunkEndRule | src/codec/http.c:646-665 | CRLF or LF behind the data of a chunk, and nothing else |
| HttpSent.Hello | src/codec/http.c:594-697 | One response in full, with a length and five bytes |
| HttpFraming.PrintedSize | src/codec/http.c:530-583 | A size printed in hexadecimal is accepted exactly below 2^64 |
| HttpResponse.Response.SettleHead | src/codec/http.c:470-495 | What the parsed head decides about the body |
| HttpResponse.Response.HeadByte | src/codec/http.c:499-527 | One byte of head, as the reference machine takes it |
| HttpResponse.Response.ChunkSizeByte | src/codec/http.c:530-583 | One byte of a size line, as the reference machine takes it |
| HttpResponse.Response.TrailerByte | src/codec/http.c:667-688 | One byte of the trailer, as the reference machine takes it |
| HttpResponse.Response.FramingByte | src/codec/http.c:639-688 | One byte between chunks, as the reference machine takes it |
| HttpResponse.Response.TakeBody | src/codec/http.c:617-637 | As much body as there is, at once: the state and body of taking it byte by byte |
| HttpResponse.Response.FeedByte | src/codec/http.c:607-695 | One byte that is not body: the reference step, and whether the call stops there |
| HttpResponse.Response.Feed | src/codec/http.c:594-697 | Any call leaves the state the reference machine has after the bytes it used, hands over exactly their body, uses at least one byte unless the response is over, and stops only for a slice, the head or the end |
| HttpResponse.LookUp | src/codec/http.c:728-754 | The value of the first header of a name |
| HttpResponse.Close | src/codec/http.c:699-714 | The state after a close, and whether it was a legitimate end; under length framing only if every byte came |
| HttpResponse.FeedAll | src/net/fetch.c:439-473 | A driver that feeds until all is used gets the body and state of the whole input |
| HttpResponse.FeedPieces | src/codec/http.c:594-697 | Split invariance: every way of cutting a response into calls gives the body and final state of the one-byte machine on the whole |
| MqttCodec.ReadVarint | src/codec/mqtt.c:48-66 | The read loop finds the remaining length at the front, that it is not all there yet, or that it is malformed |
| MqttCodec.WriteVarint | src/codec/mqtt.c:68-81 | Writes the encoding at its place and touches nothing behind it |
| MqttCodec.VarintWidth | src/codec/mqtt.c:83-90 | Predicts the width the encoding has |
| MqttCodec.VarintRoundTrip | src/codec/mqtt.c:48-90 | Every length up to the limit decodes to itself in the width it was written in, every strict prefix is "not yet", and every length above is malformed |
| MqttCodec.HeaderStable | src/codec/mqtt.c:154-185 | Once a header can be decoded, later bytes do not change it |
| MqttCodec.DecodeHeader | src/codec/mqtt.c:154-185 | The fixed header, with the flags each packet type allows |
| MqttCodec.BeginPacket | src/codec/mqtt.c:291-304 | Writes type and length if the whole packet fits, and nothing otherwise |
| MqttCodec.EncodePublish | src/codec/mqtt.c:376-399 | Writes exactly the packet, or refuses and writes nothing |
| MqttCodec.PublishRoundTrip | src/codec/mqtt.c:189-246 | Every PUBLISH decodes to its topic, payload and retain flag at QoS 0, and header plus remaining length is the byte count |
| MqttWire.LengthTable | src/codec/mqtt.c:48-81 | The remaining length digit by digit, in one to four bytes |
| MqttWire.HeaderRule | src/codec/mqtt.c:126-185 | A fixed header is read as what it says exactly if the table of section 2.2.2 of MQTT 3.1.1 has its kind and flags |
| MqttWire.HeaderTooLong | src/codec/mqtt.c:48-66 | A length of more than four bytes makes any header bad |
| MqttWire.Accepted | src/codec/mqtt.c:154-185 | The CONNACK that accepts, byte for byte |
| MqttWire.IdentifiedRoundTrip | src/codec/mqtt.c:189-246 | A PUBLISH of QoS 1 or 2 reads back with its packet identifier and all its flags |
| MqttWire.PublishRefused | src/codec/mqtt.c:189-246 | Exactly which PUBLISH bodies are refused |
| MqttWire.PacketsFramed | src/net/mqtt.c:520-588 | Packets sent one behind the other arrive as they were sent |
| MqttInbound.FrameConcat | src/net/mqtt.c:520-656 | The unbounded framing of a stream continues from whatever its beginning left over |
| MqttInbound.DrainFrames | src/net/mqtt.c:520-588 | Draining a buffer hands out the framing of it, less what is too big, and leaves the rest in step |
| MqttInbound.DrainMore | src/net/mqtt.c:520-588 | Draining what was left together with new bytes is draining the whole |
| MqttInbound.SkipMore | src/net/mqtt.c:530-541 | Bytes of an oversized packet are skipped exactly, over any number of reads |
| MqttInbound.ReadsOn | src/net/mqtt.c:598-656 | A surviving connection is in step after every read, and every read that asks for something gets at least a byte until the stream is used up |
| MqttInbound.Reader.Compact | src/net/mqtt.c:581-586 | Moves what is left to the front, in place |
| MqttInbound.Reader.Peek | src/net/mqtt.c:543-562 | The next whole packet, or how much of an oversized one to skip |
| MqttInbound.Reader.Consume | src/net/mqtt.c:520-588 | The loop hands over exactly what draining says, up to the first packet that closes the connection |
| MqttInbound.Reader.Receive | src/net/mqtt.c:598-656 | One read keeps the reader in step with the framing of everything received |
| MqttInbound.Session | src/net/mqtt.c:520-656 | For every stream and every sequence of read sizes and verdicts: what was seen, held, skipped and handed over is the fold of the reads; the packets are the framing of the bytes seen, in order, less those too big for the buffer; a live buffer is never full, and enough reads see the whole stream |
| MqttWire.Delivery | src/net/mqtt.c:598-656 | Any packets in any reads, with handlers that are content: the connection lives and every packet that fits the buffer was handed out, in order and whole |
| MqttOutbound.Writer.CompactOut | src/net/mqtt.c:229-254 | Moves the unsent bytes to the front, unless a write is waiting to be repeated |
| MqttOutbound.Writer.Write | src/net/mqtt.c:256-297 | One write call: it is made at the position and with the bytes that must be repeated or with all there is, exactly the bytes taken move from unsent to the wire, and a blocked call fixes what the next must repeat |
| MqttOutbound.Writer.Offer | src/net/mqtt.c:256-297 | The loop of writes: how many bytes go out, what is left to repeat and whether the connection broke, as the answers decide |
| MqttOutbound.Writer.Flush | src/net/mqtt.c:256-297 | Exactly how many bytes go out, how many the next write must repeat and whether the connection broke, for any answers; wire and unsent bytes together stay the bytes accepted |
| MqttOutbound.Writer.Append | src/net/mqtt.c:299-309 | Adds a packet behind the unsent bytes |
| MqttOutbound.Writer.Queue | src/net/mqtt.c:299-309 | A packet is accepted whole and flushed as far as the answers allow, or refused exactly when there is no room, with nothing changed in the unsent bytes |
| MqttOutbound.Outbox | src/net/mqtt.c:229-309 | Over every run of queueing and flushing with any answers: a packet is accepted exactly if there is room, until the connection is lost; sent plus unsent is the concatenation of the packets accepted; and after a blocked write the next write has the same position, length and bytes |
| OutboxRules.PushStops | src/net/mqtt.c:256-297 | Where a flush stops: what is out, whether it broke and what must be repeated, from the answers alone |
| OutboxRules.PushEnds | src/net/mqtt.c:256-297 | Answers that take enough leave nothing |
| OutboxRules.AllOut | src/net/mqtt.c:256-297 | A transport that takes all it is offered has everything after two writes |
| OutboxRules.TakenExactly | src/net/mqtt.c:299-309 | Along any run a packet is taken exactly if it fits behind what is held, moved up unless a blocked write pins it |
| OutboxRules.LostExactly | src/net/mqtt.c:299-309 | A run is lost exactly in an event whose flush breaks |
| MqttClient.DelayGrows | src/net/mqtt.c:101-125 | The retry delay is within its bounds and never shrinks as failures mount |
| MqttClient.DelaySaturates | src/net/mqtt.c:101-125 | A failure count stuck at its 32-bit maximum changes nothing |
| MqttClient.Client.Close | src/net/mqtt.c:884-908 | Lets go of the socket, the lookup and both buffers |
| MqttClient.Client.BackOff | src/net/mqtt.c:101-125 | Ends in WAITING with a retry armed after the next delay of the row, exactly |
| MqttClient.Client.OnConnack | src/net/mqtt.c:358-414 | Ready exactly on a well-formed, accepting CONNACK while greeting; only that resets the failures |
| MqttClient.Client.Handle | src/net/mqtt.c:478-518 | The state each packet leads to, and whether the connection is still there |
| MqttClient.Client.Consume | src/net/mqtt.c:520-588 | The state a run of packets leads to, cut short by the first that ends the connection |
| MqttClient.Client.SendConnect | src/net/mqtt.c:662-691 | Greeting with its deadline set exactly if CONNECT is queued and written; otherwise waiting |
| MqttClient.Client.Secure | src/net/mqtt.c:693-705 | Still securing, greeting or waiting, as the handshake says |
| MqttClient.Client.FinishConnect | src/net/mqtt.c:707-740 | The state for every way a connect can finish, with and without TLS |
| MqttClient.Client.OnSocket | src/net/mqtt.c:742-794 | The state for every signal in every state |
| MqttClient.Client.Open | src/net/mqtt.c:796-829 | Connecting with its deadline set exactly if the socket opens, is watched and connects; otherwise waiting |
| MqttClient.Client.OnResolved | src/net/mqtt.c:831-855 | A lookup that found something opens a socket, one that did not waits, and one that comes too late changes nothing |
| MqttClient.Client.Attempt | src/net/mqtt.c:857-882 | Looking up, connecting or waiting, as the address and the network decide |
| MqttClient.Client.ReadReady | src/net/mqtt.c:598-656 | The state after as many reads as one turn may take; a read that waits to write is remembered |
| MqttClient.Client.TakeRead | src/net/mqtt.c:607-646 | The state after one read: nothing yet, gone, or what its packets make of it |
| MqttClient.Client.Publish | src/net/mqtt.c:1057-1093 | Only a ready client publishes; a full queue drops the message, a lost connection waits |
| MqttClient.Client.Start | src/net/mqtt.c:946-1000 | A bad configuration changes nothing; otherwise an attempt begins with the failures reset |
| MqttClient.Client.Stop | src/net/mqtt.c:1002-1024 | Stops in OFF, holding nothing |
| MqttClient.Client.Tick | src/net/mqtt.c:1095-1170 | A tick at or past the time the state acts by leaves it, makes an attempt, or has just heard from the broker; from every state, the state it leads to, with silence and a failed ping the only ends of a ready connection; a failure arms the retry with the next delay |
| MqttClient.ActsSoon | src/net/mqtt.c:1095-1170 | Every state but OFF acts within a fixed time |
| MqttClient.Life | src/net/mqtt.c:1095-1170 | Never parks: along any events every state on the trace holds only what it uses and acts within a fixed time; each event leads where its step says; a tick past that time acts; every failure arms the retry with exactly the next delay of the row, and the row only grows until an accepting CONNACK, a start or a stop; the broker counts as heard only through reads |
| MqttRules.DelayRule | src/net/mqtt.c:101-125 | Five seconds after a first failure, doubled after each one more, up to five minutes |
| MqttRules.ConnectRule | src/net/mqtt.c:707-740 | Every end of a connect: under TLS a handshake comes before the CONNECT |
| MqttRules.SecureRule | src/net/mqtt.c:693-705 | A handshake goes on, ends the attempt or lets the client greet |
| MqttRules.LinkRule | src/net/mqtt.c:742-794 | A connection that is up is lost, read from or left alone |
| MqttRules.TickRule | src/net/mqtt.c:1095-1170 | What a tick makes of every state, by its own times |
| MqttRules.GreetingPackets | src/net/mqtt.c:358-414 | A greeting client is ready exactly if it is welcomed by a CONNACK that accepts |
| MqttRules.ReadyPackets | src/net/mqtt.c:478-518 | A ready client stays so exactly if all that comes is harmless |
| MqttRules.ReadsAreRun | src/net/mqtt.c:598-656 | However packets are cut into reads they are answered as one run |
| MqttRules.GetsReady | src/net/mqtt.c:707-740 | A network that answers well takes a client from its start to ready |
| MqttRules.SetUp | src/net/mqtt.c:707-740 | A connection is only ever set up from a connect or a handshake, under TLS from one that was agreed |
| MqttRules.NeverInTheClear | src/net/mqtt.c:693-740 | In every run a client under TLS that is greeting or ready has had a handshake agreed on that very connection |
| MqttRules.SecuringSince | src/net/mqtt.c:707-740 | And the handshake is on a session started when that connect ended |
| MqttRules.SecureLife | src/net/mqtt.c:693-740 | Both of the client's own runs |
| StreamRing.Stream.UpdateWriteInterest | src/net/stream.c:101-113 | Write interest follows the queue, if the loop takes the change |
| StreamRing.Stream.Wipe | src/net/stream.c:82-84 | A slot wiped is all zero |
| StreamRing.Stream.Retire | src/net/stream.c:115-151 | A frame written whole leaves the front of the queue |
| StreamRing.Stream.Advance | src/net/stream.c:115-151 | A short write moves the front frame on by what was taken; the bytes that go out are those in the slot memory |
| StreamRing.Stream.Offer | src/net/stream.c:115-151 | One write: the front frame moves on by what was taken, and is retired exactly once it is all out |
| StreamRing.Stream.Flush | src/net/stream.c:115-151 | Exactly which frames are done, how much of the next is out and whether the write failed, for any answers; the ring stays the accepted frames less those done |
| StreamRing.Stream.Push | src/net/stream.c:153-177 | A frame goes in behind the others |
| StreamRing.Stream.Send | src/net/stream.c:153-177 | Refused exactly when closed, full or too big, with nothing changed; otherwise accepted, and flushed as far as the answers allow |
| StreamRing.Stream.DropQueue | src/net/stream.c:86-99 | Every unfinished frame with an id is reported once, in order, and every slot wiped |
| StreamRing.Stream.Open | src/net/stream.c:234-299 | Refused if open or if the loop will not watch it; otherwise a queue that was empty already is reset |
| StreamRing.Stream.Close | src/net/stream.c:301-323 | Closing reports what was not written and leaves the queue empty |
| StreamRing.Stream.SettledNow | src/net/stream.c:301-323 | A session ends with each frame either whole on the wire or reported |
| StreamRing.Make | src/net/stream.c:115-323 | One call, whichever it is, keeps the ring the queue it stands for |
| StreamRing.Life | src/net/stream.c:76-323 | Over every run: open or not, accepted, done, partly out, on the wire, reported and finished are exactly those of a plain queue of frames after the same calls; every finished use is settled; slots outside the live window are zero |
| StreamRules.FailsExactly | src/net/stream.c:115-151 | A flush fails exactly if it reaches an answer that breaks the descriptor with a frame still to write |
| StreamRules.FlowStops | src/net/stream.c:115-151 | Where every flush stops and what is out then, from the answers alone |
| StreamRules.AllOut | src/net/stream.c:115-151 | A descriptor that takes all it is given has everything |
| FetchSteps.FateGoesOn | src/net/fetch.c:439-473 | A reply heard in parts comes to what it comes to as a whole: while it is still wanted, it can be judged afresh from where it stands |
| FetchSteps.UnsettledCall | src/net/fetch.c:442-470 | A call of the codec that stops at a finished head and at the end passes over nothing that settles the reply |
| FetchSteps.UnsettledOn | src/net/fetch.c:439-473 | Nor do several calls in a row |
| FetchSteps.TurnStops | src/net/fetch.c:475-496 | A turn of reads ends with the first that brings nothing or settles the reply, as one step over all they offered |
| FetchSteps.CloseIsClean | src/net/fetch.c:415-437 | Only a clean close completes a reply that was still wanted |
| FetchSteps.TriedOne | src/net/fetch.c:688-698 | The connects counted are those begun: up to the first that works |
| FetchSteps.TriedAll | src/net/fetch.c:688-698 | And all that are left if none does |
| FetchRun.LeadsComes | src/net/fetch.c:616-999 | What any event makes of a running request: it goes on, on this hop or the next one, having heard all that was offered; or it ends, with its caller told once, and a success only of a complete and accepted reply |
| FetchRun.RunSoFar | src/net/fetch.c:173-213 | Every run, whatever lookups, servers, clock and cancellations do: the caller is told exactly once unless it cancels; what was heard is the front of what the hop brought since its redirect, and all of it while the request goes on; a success carries exactly the complete body of that |
| FetchRun.InTime | src/net/fetch.c:956-978 | No request outlives the first tick at or past its deadline |
| FetchRun.SocketsBounded | src/net/fetch.c:688-698 | A run begins no more connects than hops times addresses |
| FetchRun.BegunFresh | src/net/fetch.c:853-954 | A request that gets under way has heard nothing and told nothing |
| FetchRules.HeadVerdicts | src/net/fetch.c:342-413 | What each head leads to, by its status, the request and where it points |
| FetchRules.MovesExactly | src/net/fetch.c:342-392 | A reply moves on exactly with the head of a redirect: no POST, 301, 302, 303, 307 or 308, a Location that is usable and on https, and hops left |
| FetchRules.HopsFollow | src/net/fetch.c:342-392 | Every hop of a run but the first is that of such a redirect, sent by the server of the hop before |
| FetchRules.PostStays | src/net/fetch.c:346-352 | In every run of a POST there is one hop: its body goes to the host that was named |
| FetchRules.TurnSucceeds | src/net/fetch.c:439-496 | A turn that brings the rest of a whole, accepted reply within its limits ends in an OK that carries all of it |
| FetchRules.TurnKeepsOn | src/net/fetch.c:475-496 | A turn that brings some of it goes on, having heard what it brought |
| FetchRules.LengthFetched | src/net/fetch.c:439-496 | A GET answered with a length and so many bytes is told them |
| FetchRules.ChunkedFetched | src/net/fetch.c:439-496 | The same for chunks of any sizes |
| FetchRules.TickRules | src/net/fetch.c:956-999 | The deadline, the idle time and the time for a connect: exactly what each tick leads to |
| FetchRules.SocketRules | src/net/fetch.c:498-645 | The verdict of every failure to connect, shake hands or send |
| FetchRules.CloseRules | src/net/fetch.c:415-437 | What a close does to a reply that was still wanted |
| FetchRules.TurnTakes | src/net/fetch.c:475-496 | A turn takes up to eight reads and all they bring |
| FetchRules.BegunRule | src/net/fetch.c:853-954 | The deadline and limits of a request that gets under way |
| Fetch.Fetcher.Fail | src/net/fetch.c:173-213 | A request ends: everything released, the caller told this verdict and the status so far, once, if it may be told |
| Fetch.Fetcher.Conclude | src/net/fetch.c:173-213 | A whole reply is handed over as OK, or as a file error if its file will not close |
| Fetch.Fetcher.Succeed | src/net/fetch.c:315-325 | What is handed over is the complete body, or the head of a HEAD, within the limit |
| Fetch.Fetcher.TryNext | src/net/fetch.c:688-698 | Connecting exactly if one of the remaining addresses opens, with each connect begun counted; otherwise the caller is told of a network error |
| Fetch.Fetcher.Hop | src/net/fetch.c:760-799 | A hop begins with a fresh reply, and is under way exactly if a known address opens or a lookup starts |
| Fetch.Fetcher.MoveOn | src/net/fetch.c:382-386 | A redirect followed: one hop more, the socket dropped and nothing heard |
| Fetch.Fetcher.OnResolved | src/net/fetch.c:713-740 | A lookup leads to a socket exactly if one of its addresses opens; one too late changes nothing |
| Fetch.Fetcher.Sink | src/net/fetch.c:266-312 | A slice is kept exactly if the body with it stays within its limit and the file takes it; otherwise the request ends with the right verdict |
| Fetch.Fetcher.OnHead | src/net/fetch.c:342-413 | Exactly when a head is accepted, a redirect followed or the request refused, and with which verdict |
| Fetch.Fetcher.Deliver | src/net/fetch.c:455-473 | What the body so far comes to: too much of it, a file that fails, a whole reply handed over, or more wanted |
| Fetch.Fetcher.Act | src/net/fetch.c:439-473 | What one call of the codec brought is acted on as the bytes heard so far decide, and what is kept stays exactly the body so far |
| Fetch.Fetcher.Hear | src/net/fetch.c:442-448 | A call of the codec, which stays in step with what was heard and stops short of nothing that settles the reply |
| Fetch.Fetcher.FeedSome | src/net/fetch.c:442-470 | One call of the codec: at least a byte is heard, and the reply goes on, moves on or ends as all that was heard decides |
| Fetch.Fetcher.FeedBytes | src/net/fetch.c:439-473 | A whole read through the codec: all of it is heard, or as much of its front as settled the reply, whichever way the codec cuts it |
| Fetch.Fetcher.OnClose | src/net/fetch.c:415-437 | A reply is accepted exactly if its framing allows the close, a close-delimited one only on a clean close; otherwise a network error |
| Fetch.Fetcher.TakeRead | src/net/fetch.c:475-496 | One read: nothing yet, the end of the connection, or bytes that are heard and decide |
| Fetch.Fetcher.Receive | src/net/fetch.c:475-496 | A turn of reads is one step over all they offered: heard whole while the reply is wanted, up to what settles it otherwise, and then the close if there is one |
| Fetch.Fetcher.SendRequest | src/net/fetch.c:498-535 | Sending goes on, turns to receiving or ends in a network error |
| Fetch.Fetcher.Handshake | src/net/fetch.c:549-585 | The handshake goes on, turns to sending or ends in the right error |
| Fetch.Fetcher.Connected | src/net/fetch.c:587-614 | A failed connection goes on to a later address or ends the request |
| Fetch.Fetcher.OnSocket | src/net/fetch.c:616-645 | Where each stage goes; a connect is only finished by an event that says so |
| Fetch.Fetcher.Start | src/net/fetch.c:853-954 | A request begins, with its deadline set, exactly if it is sound, none is running and its first hop gets under way; otherwise it is refused without a word |
| Fetch.Fetcher.Tick | src/net/fetch.c:956-999 | A lookup may end in it; then at or past the deadline the caller is told of the timeout, and before it a stalled reply is given up, a silent address passed over or a backlog read |
| Fetch.Fetcher.Cancel | src/net/fetch.c:1037-1045 | Cancelling ends it without a word |
| Fetch.Limits | src/net/fetch.c:173-213 | In every state: at most one result, a true one, and at most hops times addresses connects |
| Fetch.Life | src/net/fetch.c:853-999 | The driver takes those steps: a request starts exactly if it can, each event leads where it should, and so all that holds of every run holds of it; a success is true of the file as well |
| JsonGrammar.PrintAppends | src/codec/json.c:346-397 | The printed text of a value does not depend on what follows it |
| JsonGrammar.EscapedRightly | src/codec/json.c:170-187 | An escape stands for the character it names exactly if it is no half of a surrogate pair |
| JsonGrammar.PairLost | src/codec/json.c:170-187 | A pair reads as two question marks |
| Vectors.ShortEscapes | src/codec/json.c:148-169 | The one-letter escapes |
| Vectors.HexEscapes | src/codec/json.c:170-187 | Escapes of four hex digits, in either case and of each width |
| JsonScan.SkipsExactly | src/codec/json.c:346-397 | Skipping any printed value, with any whitespace, stops exactly after it if it nests at most 32 deep, and fails otherwise |
| JsonScan.ValueSkipped | src/codec/json.c:371-396 | Inside brackets a whole value counts for nothing, unless it nests too deeply |
| JsonCut.StringCut | src/codec/json.c:97-206 | A string that lacks its closing quote is neither skipped nor read |
| JsonCut.NestCut | src/codec/json.c:346-397 | An object or array that lacks its closing bracket is not skipped |
| JsonCut.BadEscape | src/codec/json.c:170-178 | An escape without four hex digits makes the string refused |
| JsonWalk.HeldWhole | src/codec/json.c:97-206 | A string read into a buffer of any size is as many whole characters of it as fit, and no part of another |
| JsonWalk.CharacterCut | src/codec/json.c:104-115 | Walking back from a cut drops exactly a character cut short |
| JsonWalk.MemberRead | src/codec/json.c:239-272 | The next key of a printed object is read back and its value is next; after the last comes the text behind the object |
| JsonWalk.ElementRead | src/codec/json.c:274-290 | The same for elements |
| JsonWalk.NameSeen | src/codec/json.c:399-413 | A name cut short is never taken for a key under 60 bytes |
| JsonWalk.KeyBound | src/codec/json.c:399-413 | A key made of text is seen rightly against every name without a NUL exactly if it is under 60 bytes |
| JsonWalk.LongNameTaken | src/codec/json.c:399-413 | A name of 64 letters is taken for a key of 63 |
| JsonWalk.FindExact | src/codec/json.c:399-413 | For every key and any names: the lookup lands on the value of the first member that looks like the key in its buffer, or after the object |
| JsonWalk.FindLands | src/codec/json.c:399-413 | For keys under 60 bytes and names without a NUL, that is the first member that has the key |
| JsonReader.Reader.SkipSpace | src/codec/json.c:5-13 | Stops at the first byte that is not space |
| JsonReader.Reader.Peek | src/codec/json.c:17-20 | The byte there, or NUL at the end |
| JsonReader.Reader.Take | src/codec/json.c:22-28 | Takes a byte if it is the one expected |
| JsonReader.Reader.SkipStringBody | src/codec/json.c:35-49 | Stops after the closing quote, escapes and all |
| JsonReader.Reader.ReadHex4 | src/codec/json.c:78-95 | Four hex digits exactly, with their value |
| JsonReader.Reader.WholeCharacters | src/codec/json.c:104-115 | The loop computes where the buffer should end |
| JsonReader.Reader.ReadEscape | src/codec/json.c:144-195 | One escape, whatever it is |
| JsonReader.Reader.ReadStringBody | src/codec/json.c:121-206 | The string decoded into the buffer, the cursor after it whatever fitted |
| JsonReader.Reader.ReadString | src/codec/json.c:292-298 | The same from the opening quote |
| JsonReader.Reader.Enter | src/codec/json.c:223-237 | Enters an object or an array |
| JsonReader.Reader.NextKey | src/codec/json.c:239-272 | The next member, the end of the object, or broken text, with the comma required |
| JsonReader.Reader.NextElement | src/codec/json.c:274-290 | The next element, the end of the array, or broken text |
| JsonReader.Reader.SkipNest | src/codec/json.c:371-396 | The counting loop stops after the matching bracket |
| JsonReader.Reader.SkipValue | src/codec/json.c:346-397 | Stops after the value, for any text |
| JsonReader.Reader.ObjectFind | src/codec/json.c:399-413 | The search loop, for any text |
| JsonReader.Visit | src/codec/json.c:223-290 | A recursive walk of a printed value reports exactly its contents in order and stops exactly after it, one flag serving every level |
| JsonReader.Document | src/codec/json.c:208-290 | So does the walk of a whole document from the top |
| EspRom.EscapeHidesEnd | src/codec/esp_rom.c:32-46 | No delimiter survives escaping |
| EspRom.EscapeRoundTrip | src/codec/esp_rom.c:32-46 | Unescaping undoes escaping |
| EspRom.SlipPut | src/codec/esp_rom.c:32-46 | One byte escaped in place, or refused for want of room |
| EspRom.Request | src/codec/esp_rom.c:49-83 | Writes the frame of header, words and block exactly if it fits |
| EspRom.ParseRoundTrip | src/codec/esp_rom.c:190-205 | Every response the length field can express parses to its parts |
| EspRom.ParseUnique | src/codec/esp_rom.c:190-205 | Whatever parses was assembled so |
| EspRom.FrameMet | src/codec/esp_rom.c:207-259 | Resynchronisation, from any reader state: the next frame is reported, exactly unless its opening delimiter completes a response already pending |
| EspRom.FrameLost | src/codec/esp_rom.c:207-259 | A response that has come but for its closing delimiter costs the frame behind it, whichever they are |
| EspRom.FrameLostHere | src/codec/esp_rom.c:207-259 | Two responses to different commands of which the second is never reported |
| EspRom.LineRead | src/codec/esp_rom.c:207-259 | Of any responses with any noise between them exactly those are reported, in order |
| EspRom.Reader.Delimit | src/codec/esp_rom.c:217-232 | A delimiter closes a response or opens one |
| EspRom.Reader.Collect | src/codec/esp_rom.c:233-256 | A byte of a frame, escapes and overflow included |
| EspRom.Reader.Feed | src/codec/esp_rom.c:207-259 | Reads as far as the first response, byte for byte as the state machine does |
| EspRom.FeedPieces | src/codec/esp_rom.c:207-259 | However the bytes are cut into reads, the same responses come out |
| EspRom.Listen | src/codec/esp_rom.c:207-259 | Both together: any line, any reads, exactly its responses |
| Vectors.SlipBytes | src/codec/esp_rom.c:32-46 | The two bytes that are escaped and the others that are not |
| Vectors.WordBytes | src/codec/esp_rom.c:19-30 | A word has its least significant byte first |
| Vectors.RequestHeader | src/codec/esp_rom.c:49-83 | Direction, command, size and checksum of a request |
| Vectors.ResponseRead | src/codec/esp_rom.c:190-205 | A response with its value, status and reason |
| RecordFile.EscapeRoundTrip | src/base/record_file.c:46-76 | Unescaping undoes escaping, for every value |
| RecordFile.WriteEscaped | src/base/record_file.c:46-57 | Appends the escaped value |
| RecordFile.UnescapeInPlace | src/base/record_file.c:59-76 | The two-pointer loop, over any text in place, leaves what comes before it alone |
| RecordFile.Fgets | src/base/record_file.c:15-16 | One line as far as it fits the buffer |
| RecordFile.Say | src/base/record_file.c:30-41 | A complete line taken apart in place: nothing, or its key and unescaped value |
| RecordFile.SkipLine | src/base/record_file.c:20-26 | Past the rest of an overlong line |
| RecordFile.ReadLine | src/base/record_file.c:15-41 | One turn of the loop, over any file |
| RecordFile.Read | src/base/record_file.c:10-44 | Every record of any file, in order, and whether the buffer was fit and the reading failed |
| RecordFile.LineNext | src/base/record_file.c:15-41 | A written line is read back as its record, or dropped whole if it does not fit |
| RecordFile.TornNext | src/base/record_file.c:27-29 | A line cut off by the end of the file is not read |
| RecordFile.TornRoundTrip | src/base/record_file.c:10-76 | Of any prefix of any written file exactly the records that are whole in it and fit the buffer come back, in order, with their values |
| RecordFile.Recover | src/base/record_file.c:10-76 | The same of the code: written, cut anywhere, read back |
| Vectors.EscapedBytes | src/base/record_file.c:46-57 | Exactly which characters are escaped, and how |
| Vectors.RecordSaid | src/base/record_file.c:30-41 | A line as it is read |
| Vectors.NothingSaid | src/base/record_file.c:30-41 | A comment, a line without an equals sign and an empty one say nothing |
| StreamingHash.LengthRoundTrip | src/codec/sha256.c:120-123 | The length field means the length in either byte order |
| StreamingHash.ZerosLeast | src/codec/sha256.c:113-117 | The number of zeros is the smallest that reaches the length field |
| StreamingHash.Context.Buffer | src/codec/sha256.c:93-104 | One turn of the loop keeps the state the fold over the whole blocks fed |
| StreamingHash.Context.Absorb | src/codec/sha256.c:87-105 | Bytes fed in any amount extend the message fed |
| StreamingHash.Context.Pad | src/codec/sha256.c:112-117 | The padding loop ends from every offset, with the padding the standards prescribe |
| StreamingHash.Context.ShaUpdate | src/codec/sha256.c:87-105 | Keeps the bit count modulo 2^64 |
| StreamingHash.Context.ShaFinal | src/codec/sha256.c:107-134 | Ends with the block function folded over the padded message |
| StreamingHash.Context.Md5Update | src/codec/md5.c:77-92 | Keeps the byte count modulo 2^64 |
| StreamingHash.Context.Md5Final | src/codec/md5.c:94-114 | Ends with the block function folded over the padded message |
| StreamingHash.Sha256 | src/codec/sha256.c:87-134 | However a message is cut into updates, the result is the hash of the whole in one go |
| StreamingHash.Md5 | src/codec/md5.c:77-114 | The same for MD5 |
| Vectors.PaddedBytes | src/codec/sha256.c:107-123 | A padded message byte by byte |
| Vectors.PaddedAbc | src/codec/sha256.c:107-123 | The first example of FIPS 180-4 |
| Text.DecodeEncode | src/base/text.c:91-107 | Every scalar value has a character that decodes to it |
| Text.EncodeDecode | src/base/text.c:91-107 | Every character decodes to a scalar value that encodes to it |
| Text.SequenceLen | src/base/text.c:5-65 | The classification and its loop accept exactly the grammar of section 4 of RFC 3629 |
| Text.Next | src/base/text.c:67-113 | One step: the scalar value that re-encodes to those bytes, one invalid byte, or the end |
| Text.Utf8Length | src/base/text.c:115-131 | Counts the steps |
| Text.Utf8Offset | src/base/text.c:133-147 | Where a step begins |
| Text.Truncate | src/base/text.c:149-155 | Cuts in place, and the length becomes the smaller of the two |
| Text.TruncateLength | src/base/text.c:133-155 | For every byte string, malformed or not, cutting to n leaves min(n, length) steps |
| Text.Sanitise | src/base/text.c:157-211 | Fills the buffer with the cleaned text and terminates it |
| Text.CleanIsText | src/base/text.c:157-211 | What is shown is well-formed, free of C0 controls and DEL, and fits |
| Text.CleanKeeps | src/base/text.c:157-211 | Text already fit to be shown stays as it is |
| Text.CleanOnce | src/base/text.c:157-211 | Cleaning twice is cleaning once |
| Text.CleanFills | src/base/text.c:201-207 | What a buffer leaves off begins with a whole character, one that did not fit |
| Vectors.Utf8Vectors | src/base/text.c:91-107 | One character of each width |
| Vectors.ShownBytes | src/base/text.c:157-211 | What is shown of every byte below 0x80 |
| Vectors.CleanStep | src/base/text.c:157-211 | Cleaning a step at a time |
| Version.CapIsExact | src/base/version.c:51-62 | A numeral is read as its value exactly if that is below 10^9 |
| Version.ParseNumber | src/base/version.c:51-62 | The digit loop with its cap |
| Version.DotIdentifiersAreValid | src/base/version.c:18-38 | True exactly if every identifier between dots is non-empty and made of allowed characters |
| Version.ParsePrint | src/base/version.c:64-112 | Everything the grammar admits parses into what it was made of |
| Version.PrintParse | src/base/version.c:64-112 | Nothing else parses |
| VersionOrder.SemverParse | src/base/version.c:64-112 | The parser reads what the grammar says, numbers capped |
| VersionOrder.PreNext | src/base/version.c:115-128 | The next identifier and the rest |
| VersionOrder.PreIsNumeric | src/base/version.c:130-140 | Whether an identifier is all digits |
| VersionOrder.SharedThenLength | src/base/version.c:192-199 | Comparing the shared length and then the lengths is comparing the texts |
| VersionOrder.ComparePrerelease | src/base/version.c:142-201 | The cursor loop computes the order of the identifier lists |
| VersionOrder.Compare | src/base/version.c:203-224 | The comparison, as the order the laws below are about |
| VersionOrder.TotalPreorder | src/base/version.c:203-224 | Reflexive, antisymmetric in sign and transitive, on all strings and on none |
| VersionOrder.Unparseable | src/base/version.c:208-213 | What does not parse is all alike, and below everything that does |
| VersionOrder.AgreesWithSemver | src/base/version.c:142-224 | Wherever every number is below 10^9, newer means newer by section 11 of SemVer 2.0.0, both ways |
| VersionOrder.AgreementBound | src/base/version.c:51-224 | The comparison is SemVer's on all versions with numbers up to N exactly if N is below 10^9 |
| VersionOrder.Backwards | src/base/version.c:51-224 | 999999999 is reported newer than 1000000000 |
| VersionOrder.CapTies | src/base/version.c:51-62 | Numbers that differ only after 10^8 has been passed compare equal, though the standard orders them |

## Left out

- BluezBackend.Backend.ObjectAdd: always has memory; whether a step had enough is decided for the step as a whole, where the source gives up the copy.
- BluezBackend.Backend.ObjectsAddInterfaces: always has memory, for the same reason.
- BluezBackend.Backend.ObjectsLoad: which object a failed allocation struck is not modelled; a load either succeeds whole or drops the copy, as the source does.
- MqttClient.Client.Publish: what is queued is counted, not spelled out; the bytes are the business of MqttOutbound and MqttCodec.
- StreamingHash.Context.ShaFinal: the state is returned as it is, without being spelled out as digest bytes.
- StreamingHash.Context.Md5Final: the same.
- Fetch.Fetcher.Start: which arguments are unsound (URL, headers, body, method) is not spelled out.
- MqttClient.Client.Start: which configurations are unsound is not spelled out.
- StreamRing.Life: covers runs without inkwell_stream_write_raw, which writes past the queue.
- MqttOutbound.Outbox: covers runs without the DISCONNECT that inkwell_mqtt_client_stop writes past the queue.
- JsonReader.Reader.ReadStringBody: the caller's buffer is a string of bounded length that is appended to, not an array; the same bytes, without their place in memory.
- HttpResponse.Response.Feed: the count of received bytes is not limited to 64 bits.
- The MQTT subscription pump and filters: their bookkeeping needs assumptions about packet identifiers.
- URL parsing, reference resolution and request formatting: string code with weaker properties than the response machine.
- CONNECT, SUBSCRIBE, SUBACK and CONNACK encodings, reading JSON numbers and booleans, the ESP commands built on one request: would only add easy members.
- Replacing and appending record files on disk: system calls.
- libdbus iteration, watches, the pairing agent, GATT and HCI: foreign calls; messages are values here.
- The other Bluetooth back ends, io, file descriptors, the loop back ends, signals, crash reports: kernel interfaces.
- TLS, inflate, PNG: wrappers over other libraries, answered by parameters where they matter.
- The interior of the SHA-256 and MD5 block functions.
- Base64, UF2, zip, ESP images, resolver back ends, environment, logging: easier or bound to I/O.
- NULL arguments, except where a missing string or buffer has a meaning of its own (versions, sanitising).
