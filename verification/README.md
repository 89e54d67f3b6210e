# A verified model of an IEC 60870-5 protocol stack

This project models the protocol core of a Rust implementation of IEC 60870-5-101 and
IEC 60870-5-104 and proves what that core promises: that nothing is lost, repeated or
reordered on a 104 connection or on a lossy 101 line, that a file fetched through the
file-transfer service arrives as it was, and that the codecs and the arithmetic
underneath mean what they should.

`dafny verify dfyconfig.toml` checks everything.

## How the project is laid out

Each part of the stack that changes state in place appears twice: as a value, where every
entry point is a function from the old state to the new one, and as an object. An object
carries its history as a ghost, keeps the invariant proved of that history, and its public
method says what a call adds to it; the handlers underneath are proved against the value.
Theorems are stated about whole runs.

* **104 connection.** `SeqNo` has the 15-bit sequence numbers, `Conn104` the connection as a
  value and `Connection104` the object. `Effect104` and `Reply104` say what one call does to
  the window and what it sends, `Call104` all of it. `Station104` adds the history of one
  station against an arbitrary peer; `System104` joins a client and a server by two channels
  that neither lose nor reorder, each kept as the list of messages ever sent and how many of
  them were read; a driver ends at its first disconnect and at a frame it cannot encode.
  `Handshake104`, `Window104`, `Release104`, `Probe104`, `Clock104` and `Stop104` prove the
  properties of whole runs; `Residual104` and `StopExample104` build the runs on which they
  end.
* **101 link.** `Control101` has frames and the control octet, `Link101` the link as a value
  and `LinkObject101` the object. `Retry101` is one station against an arbitrary peer,
  `Master101` and `Outstation101` tell each from its log, `Medium101` a master and an
  outstation on a half-duplex line that carries one frame and may lose it. `Delivery101` is
  about user data, `Polling101` about polled data, `Multidrop101` about many outstations on
  one line, and `GivingUp101` about what would follow the error at which a driver stops.
* **File transfer.** `FileSession` and `SessionObject` are one session, `SessionCall` one
  call of it, `SessionRun` whole runs against an arbitrary peer and `SessionPair` both ends.
  `FileService` and `ServiceObject` are the service's work queue, and `ServiceLaws` is what
  a message does there. `FileCodec` turns the messages into ASDUs. `Fetch`, `FetchSteps` and
  `FetchRun` are a fetch from end to end over a connection that keeps order (which
  `System104.InOrderExactlyOnce` shows of a 104 connection) and dies on the first ASDU it
  cannot encode.
* **Codecs and arithmetic.** `Framing104` and `Drain104` are the APDU codec and the receive
  buffer, `Framing101` is FT 1.2, `Asdu` the ASDU with its object lists, `Checksum` the
  modulo-256 sum, `Crc16` the checksum that names files, `Calendar` the two calendar
  algorithms and `Deadband` the deadband filter.

Runs are given by lists of events. An event that cannot happen changes nothing, so a
statement about every list is a statement about every interleaving. Time is a natural
number that comes with each call; nothing is assumed of it except where a member says so.

## Where the code does not do what one would expect

* A 104 connection ignores an N(R) at distance 16384 or more from its oldest outstanding
  frame (`Conn104.AckTakesEffectIff`). `docs/protocol-notes.md` allows k and w up to 32767.
  With the k of a station and the w of its peer both above 16383, a run can come to rest with
  frames in the window that were delivered and acknowledged (`Residual104.BalancedIff`); one of
  them at most 16383, and k at least 1, is enough for the t2 timer to set every run at rest
  going again (`Residual104.RecoversIff`).
* A 104 client whose user stops while an ASDU is waiting may send it behind its STOPDT_act,
  and the server then answers with a protocol error. `Handshake104.ProtocolErrorIff` says
  exactly when, `StopExample104.StopWhileWaiting` shows a run.
* A 101 retry limit of 255 is never reached, because the attempt counter is a u8:
  `Retry101.Limit255NeverGivesUp`. (A build with overflow checks panics instead.)
* After a 101 master gives up on user data that never arrived, the outstation would confirm
  the next ASDU and discard it, unless it has seen no user data since its last reset:
  `GivingUp101.AfterGivingUp`, with a run in `GivingUp101.LostThenDiscarded`. The driver
  stops at the first link error, and runs end there.
* With the default segment size of 240 octets no file of 236 octets or more can be fetched
  over 104: `FetchRun.WhichFilesFit` and `FetchRun.NeverCompletes`.
* A file that is pushed without being asked for always fails:
  `FetchRun.UnsolicitedPushFails`.
* A wider deadband can send more often than a narrower one when the signal turns:
  `Deadband.TurningWalk`.

## Model

| member | source | states |
|---|---|---|
| `SeqNo.DistanceIsTheSteps` | crates/iec60870-proto/src/frame104/seq.rs:26-39 | the distance is the one number of steps below a full turn that leads from one number to the other, and its computation does not overflow a u16 |
| `SeqNo.ToWire` | crates/iec60870-proto/src/frame104/seq.rs:42-50 | the wire form is an even u16 that decodes to the same number |
| `Conn104.AckCountClosed` | crates/iec60870-proto/src/frame104/state.rs:284-300 | on a contiguous window an N(R) at distance d in 1..16383 removes exactly min(d, window) frames, any other removes none |
| `Conn104.AckTakesEffectIff` | crates/iec60870-proto/src/frame104/state.rs:284-300 | acknowledging n frames at once takes effect if and only if n is at most 16383 |
| `Connection104.Connection.constructor` | crates/iec60870-proto/src/frame104/state.rs:147-163 | a new connection has sent, delivered and reported nothing, and its invariant holds |
| `Connection104.Connection.Handle` | crates/iec60870-proto/src/frame104/state.rs:177-438 | whatever the input, the state and the clock: what leaves and what still waits is what waited and what the user gave, under consecutive numbers; the window loses its acknowledged front and gains what was sent; exactly the expected I-frame is delivered; every N(R) is the new count; every field and action is what `Call104` says; and the invariant of the whole history is kept |
| `Connection104.Connection.Acknowledge` | crates/iec60870-proto/src/frame104/state.rs:284-300 | the loop pops exactly the frames that AckCount counts, then flushes the queue |
| `Connection104.Connection.FlushPending` | crates/iec60870-proto/src/frame104/state.rs:302-307 | the loop sends waiting ASDUs in order until the window is full or the queue empty |
| `Effect104.HandleStep` | crates/iec60870-proto/src/frame104/state.rs:177-438 | for every call: which ASDUs leave the queue as consecutively numbered I-frames, which frames leave the window, what is delivered, and that the window stays within k |
| `Reply104.CallShape` | crates/iec60870-proto/src/frame104/state.rs:177-338 | for every call: its handshake frame, its next state, a protocol error if and only if the input is illegal, a clean stop only with an empty window |
| `Reply104.TimeoutIff` | crates/iec60870-proto/src/frame104/state.rs:389-431 | an acknowledgement timeout is reported if and only if t1 has run out after the input was handled |
| `Reply104.Silent` | crates/iec60870-proto/src/frame104/state.rs:313-338 | outside data transfer a connection without debt answers a local input with its handshake frame or with nothing |
| `Call104.CallIs` | crates/iec60870-proto/src/frame104/state.rs:177-438 | for every state, input and clock: each field a call leaves and each action it returns, in order, said one by one in terms of the connection before the call; so every TESTFR_act is answered, every change of state is reported once, and each timer fires exactly where it says |
| `Probe104.AnsweredOnce` | crates/iec60870-proto/src/frame104/state.rs:238-243 | a call sends one TESTFR_con if it read a TESTFR_act and none otherwise, and at most one TESTFR_act |
| `Station104.Conservation` | crates/iec60870-proto/src/frame104/state.rs:302-364 | against any peer: ASDUs sent followed by those waiting are those submitted, the i-th I-frame carries i mod 2^15, the window holds at most k, and nothing waits while an active window has room |
| `Station104.SentIsContiguous` | crates/iec60870-proto/src/frame104/state.rs:284-300 | the window is the contiguous cyclic run that ends before the next send number |
| `Station104.ReceiveAccounting` | crates/iec60870-proto/src/frame104/state.rs:256-280 | the last N(R) sent plus the debt is the next expected number, which counts deliveries; the debt stays below max(w, 1) |
| `System104.InOrderExactlyOnce` | crates/iec60870-proto/src/frame104/state.rs:193-307 | in every interleaving, for every configuration and any user input, what a station delivered is a prefix of what its peer's user submitted |
| `System104.NothingLost` | crates/iec60870-proto/src/frame104/state.rs:193-307 | while a station runs: what it delivered, what is written and unread, what the peer could not encode and what waits there are, in this order, exactly the submitted ASDUs |
| `Handshake104.ProtocolErrorIff` | crates/iec60870-proto/src/frame104/state.rs:206-282 | in every run, whatever the users do, the client never reports a protocol error, and the server does if and only if it has read an I-frame behind a STOPDT_act or behind its own user's stop |
| `Handshake104.NoProtocolError` | crates/iec60870-proto/src/frame104/state.rs:206-282 | from this it follows that there is no protocol error as long as the server's user does not stop, and the client's user stops only with nothing waiting and submits nothing while stopping |
| `Window104.AcknowledgedIsDelivered` | crates/iec60870-proto/src/frame104/state.rs:284-300 | for every k and w, in every interleaving and with any user input, a frame leaves the window only after the peer delivered it |
| `Window104.CleanStopLosesNothing` | crates/iec60870-proto/src/frame104/state.rs:432-437 | for every k and w a clean stop is reported only when every I-frame ever sent has been delivered |
| `Window104.WindowAtRest` | crates/iec60870-proto/src/frame104/state.rs:256-307 | in every run that leaves both stations active with nothing in flight: everything sent is delivered, something waits only behind a full window, the debt is below max(w, 1), and if min(k, w) is at most 16383 the window holds exactly the debt |
| `Window104.NoWindowDeadlock` | crates/iec60870-proto/src/frame104/state.rs:256-307 | in every run that leaves both stations active with nothing in flight: if max(w, 1) of one is at most k of the other and at most 16383, the other's window equals the debt, below max(w, 1); nothing waits and everything submitted is delivered |
| `Release104.DueTickReleases` | crates/iec60870-proto/src/frame104/state.rs:284-307 | progress: in every run at rest in which k of a station or w of its peer is at most 16383, when t2 of the peer runs out with no t1 run out, one tick of the peer and one arrival acknowledge everything the station sent and let out as many waiting ASDUs as its window takes |
| `Release104.AlwaysRecovers` | crates/iec60870-proto/src/frame104/state.rs:408-415 | with k also at least 1, whatever is in the window or waits at rest is owed by the peer, whose t2 is running, and is released in this way |
| `Residual104.NarrowWindow` | crates/iec60870-proto/src/frame104/state.rs:302-307 | with k below max(w, 1), k + 1 submissions at either station come to rest with the last one waiting and k frames owed, until t2 runs out; with k at 0 nothing is owed |
| `Residual104.WideDebt` | crates/iec60870-proto/src/frame104/state.rs:256-300 | with w of 16384 or more and k at least w, w submissions at either station come to rest with all of them delivered, no debt at the peer and at least 16384 frames in the window, all w of them when w is below 32768 |
| `Residual104.LateDebt` | crates/iec60870-proto/src/frame104/state.rs:284-300 | with k of 16384 or more and below w, k submissions and the acknowledgement that t2 sends come to rest in the same way, whenever it arrives before t1 |
| `Residual104.BalancedIff` | crates/iec60870-proto/src/frame104/state.rs:256-307 | for either station: in every run at rest its window holds exactly what the peer has not acknowledged, if and only if min(k, w) is at most 16383 |
| `Residual104.RecoversIff` | crates/iec60870-proto/src/frame104/state.rs:256-307 | for either station: in every run at rest all it holds is released by the next acknowledgement that t2 sends, if and only if k is at least 1 and min(k, w) at most 16383 |
| `Residual104.SettledIff` | crates/iec60870-proto/src/frame104/state.rs:256-307 | for either station: in every run at rest nothing waits, not even for t2, and everything submitted is delivered, if and only if max(w, 1) is at most k and at most 16383 |
| `Probe104.EveryTestAnswered` | crates/iec60870-proto/src/frame104/state.rs:238-243 | in every interleaving a station has sent as many TESTFR_con as it has read TESTFR_act |
| `Probe104.ClocksAreTheLog` | crates/iec60870-proto/src/frame104/state.rs:193-271 | over every history the clocks of a station say when it last sent, last read and last delivered something and since when a TESTFR_act is unanswered; TESTFR_con ends that wait |
| `Probe104.TestSentIff` | crates/iec60870-proto/src/frame104/state.rs:416-431 | over every history a call sends a TESTFR_act, one and as its last message, if and only if it does not time out, data transfer is on, none is unanswered, and the last message sent or read is at least t3 old |
| `Probe104.TestKeepsAlive` | crates/iec60870-proto/src/frame104/state.rs:238-246 | from every run at rest an idle link is tested: one tick and two arrivals, however late the answer, end the wait and leave both stations active |
| `Clock104.T1Deadline` | crates/iec60870-proto/src/frame104/state.rs:389-431 | on a nondecreasing clock the window is sorted by send time and a call times out if and only if it leaves something t1 old |
| `Stop104.DataAfterStopIsRefused` | crates/iec60870-proto/src/frame104/state.rs:256-263 | in every interleaving an I-frame read after STOPDT_act ends in a protocol error and is not delivered |
| `Stop104.StoppingClientFlushes` | crates/iec60870-proto/src/frame104/state.rs:284-311 | a stopping client with an ASDU waiting sends it as soon as the window has room |
| `Stop104.LocallyStoppedServerRefuses` | crates/iec60870-proto/src/frame104/state.rs:323-338 | a locally stopped server answers the next I-frame with a protocol error |
| `StopExample104.StopWhileWaiting` | crates/iec60870-proto/src/frame104/state.rs:284-338 | a concrete run in which a stop requested with an ASDU waiting ends in a protocol error |
| `Control101.ControlRoundTrip` | crates/iec60870-proto/src/frame101/control.rs:161-214 | every control octet, primary or secondary, decodes to what was encoded |
| `Control101.ControlLayout` | crates/iec60870-proto/src/frame101/control.rs:150-183 | the bits of a control octet: direction, the two flags, and the code of each function |
| `Control101.ControlDecodesIff` | crates/iec60870-proto/src/frame101/control.rs:185-214 | any octet decodes to whatever encodes to its six low bits, and to nothing if nothing does |
| `LinkObject101.Connection.Handle` | crates/iec60870-proto/src/frame101/link.rs:248-595 | histories grow by exactly the input and the actions; the queue is the tail of what was submitted, at most one exchange starts, the bit is the parity of those started; a timeout leaves a master failed with nothing pending and never happens at an outstation; a master returns and leaves what `Master101` says, an outstation returns what its log asks for; and the invariants of the whole history are kept |
| `Retry101.RetriesBounded` | crates/iec60870-proto/src/frame101/link.rs:538-595 | against any peer: each exchange is one frame sent at most max_retries + 1 times; the frames that open user-data exchanges carry the submitted ASDUs in order, each once, with alternating bits; the rest waits in the queue |
| `Retry101.ExpiryOutcome` | crates/iec60870-proto/src/frame101/link.rs:538-563 | an expired exchange is sent once more below the limit and given up with AckTimeout and Failed at it |
| `Retry101.Limit255NeverGivesUp` | crates/iec60870-proto/src/frame101/link.rs:538-563 | with a limit of 255 no call ever reports a timeout |
| `Retry101.FailedIsFinal` | crates/iec60870-proto/src/frame101/link.rs:327-368 | a master never leaves the failed state |
| `Retry101.OutstationNeverWaits` | crates/iec60870-proto/src/frame101/link.rs:372-471 | an outstation never holds a pending exchange and never fails |
| `Master101.MasterCall` | crates/iec60870-proto/src/frame101/link.rs:279-368 | for every state, input and clock: which frame by its octets ends the exchange, is delivered or is an error, which frame is sent, when user data leaves, and what the timer does |
| `Master101.MasterIsItsLog` | crates/iec60870-proto/src/frame101/link.rs:279-368 | over every history a master has delivered the data of every response read, reported an error for every refusal, every frame that is no answer and every exchange given up, and for nothing else; its state follows from these |
| `Outstation101.OutstationIsItsLog` | crates/iec60870-proto/src/frame101/link.rs:372-471 | over every history an outstation has delivered exactly the new user data addressed to it, holds the bit last counted since its last reset, keeps what no poll took, is ready if and only if it was reset, and answers each frame as its octets ask |
| `Outstation101.NotForMe` | crates/iec60870-proto/src/frame101/link.rs:372-395 | a single character or a frame for another address changes nothing in any state and is not answered |
| `Multidrop101.OnlyTheAddressed` | crates/iec60870-proto/src/frame101/link.rs:372-395 | on a line with any number of outstations, one of which has the address of the master, that one and the master run as if alone, and no other ever sends or delivers; if none has it, none does |
| `Multidrop101.DeliveredToOne` | crates/iec60870-proto/src/frame101/link.rs:372-471 | on such a line what the master submitted is delivered once and in order by the addressed outstation and by no other |
| `Medium101.OutstationTakesData` | crates/iec60870-proto/src/frame101/link.rs:438-471 | user data is confirmed always and delivered unless its bit repeats the last one |
| `Medium101.OutstationAnswers` | crates/iec60870-proto/src/frame101/link.rs:401-436 | every request gets one answer, and only a poll of a non-empty queue costs an ASDU |
| `Medium101.MasterTakesAck` | crates/iec60870-proto/src/frame101/link.rs:327-368 | a confirmation ends the exchange and starts the next one with the head of the queue and the next bit |
| `Medium101.MasterTakesOther` | crates/iec60870-proto/src/frame101/link.rs:279-368 | any other answer ends the exchange, starts none and delivers exactly the ASDU it carries |
| `Medium101.IdleMasterActs` | crates/iec60870-proto/src/frame101/link.rs:475-534 | an idle master starts exactly one exchange, for the ASDU submitted or for the request |
| `Medium101.WaitingMasterActs` | crates/iec60870-proto/src/frame101/link.rs:475-563 | a waiting master only queues; its timer repeats the same frame or gives up |
| `Delivery101.DeliveredOnceInOrder` | crates/iec60870-proto/src/frame101/link.rs:279-471 | over every run with any losses the outstation delivers a prefix of what the master submitted, every answered ASDU is in it, and the only error is a timeout |
| `Delivery101.HalfDuplex` | crates/iec60870-proto/src/frame101/link.rs:279-595 | no event makes a station send more than one frame, and one that sends finds the line idle or has just taken the frame on it |
| `GivingUp101.AfterGivingUp` | crates/iec60870-proto/src/frame101/link.rs:438-586 | over every run that gives up on user data: the ASDU that would come next is confirmed, and delivered if and only if the abandoned one was, or the outstation has seen no user data since its last reset |
| `GivingUp101.LostThenDiscarded` | crates/iec60870-proto/src/frame101/link.rs:438-586 | a run in which one ASDU is lost, so that the next would be confirmed and discarded |
| `Polling101.PolledAtMostOnceInOrder` | crates/iec60870-proto/src/frame101/link.rs:401-436 | polled ASDUs reach the master at most once and in queue order |
| `Polling101.PolledAccounting` | crates/iec60870-proto/src/frame101/link.rs:401-436 | what the queue gave up is what the master got plus what was lost; the master got all of it if and only if no response was lost |
| `Checksum.UpdateSlice` | crates/iec60870-proto/src/asdu/types/file.rs:469-473 | the loop of wrapping additions computes the sum modulo 256 |
| `Checksum.FoldAppend` | crates/iec60870-proto/src/asdu/types/file.rs:455-473 | updating slice by slice is the checksum of the concatenation |
| `SessionObject.Session.constructor` | crates/iec60870-proto/src/file_transfer/session.rs:188-202 | a new session has no history, and its invariant holds |
| `SessionObject.Session.Step` | crates/iec60870-proto/src/file_transfer/session.rs:226-489 | histories grow by exactly the actions; at most one outcome, after which nothing happens; a completed receiver has delivered octets that sum up to the closing checksum, a completed sender has read a positive answer, and either side reports exactly the octets it moved; each call does what `SessionCall` says |
| `SessionObject.Session.OnSegment` | crates/iec60870-proto/src/file_transfer/session.rs:407-418 | a segment is summed, counted with saturation and delivered |
| `SessionObject.Session.OnSegmentReady` | crates/iec60870-proto/src/file_transfer/session.rs:420-449 | a chunk goes out and the next is asked for; an empty one closes the section |
| `SessionRun.OneOutcome` | crates/iec60870-proto/src/file_transfer/session.rs:226-244 | over every run at most one outcome is reported, and the session is terminal if and only if one was |
| `SessionRun.SilentAfterTheEnd` | crates/iec60870-proto/src/file_transfer/session.rs:226-229 | after the end no call changes or emits anything |
| `SessionRun.CompletedMeansDelivered` | crates/iec60870-proto/src/file_transfer/session.rs:362-418 | a receiver that completes has delivered octets whose sum matches the closing checksum and reports exactly their number, up to the largest u32 |
| `SessionRun.ChecksumDecides` | crates/iec60870-proto/src/file_transfer/session.rs:362-389 | a collecting receiver completes if and only if the closing checksum is the sum of what it delivered, and reports a mismatch otherwise |
| `SessionRun.CompletedMeansShipped` | crates/iec60870-proto/src/file_transfer/session.rs:391-449 | a sender that completes reports exactly the number of octets it sent |
| `SessionCall.CallIs` | crates/iec60870-proto/src/file_transfer/session.rs:226-489 | for every state before the end, input and clock: which message the session goes on with, what it answers, why it ends, and when the idle timer is set or ends it |
| `SessionPair.CompletedMeansAccepted` | crates/iec60870-proto/src/file_transfer/session.rs:391-405 | over every run a sender has completed only if the last answer it read was positive |
| `SessionPair.AnswerDecides` | crates/iec60870-proto/src/file_transfer/session.rs:391-405 | a sender that waits for the answer completes with its count if and only if the answer is positive, and otherwise reports that the peer rejected the file |
| `SessionPair.ReceiverTalksInOrder` | crates/iec60870-proto/src/file_transfer/session.rs:248-389 | over every run a receiver has sent select, request and answer as far as its state says, a positive answer if and only if it completed and a negative one if and only if it failed on the checksum |
| `SessionPair.EndsAgree` | crates/iec60870-proto/src/file_transfer/session.rs:362-405 | over every run of both ends, whatever becomes of what the sender sends: the sender completes only if the receiver does, and a receiver that finds a wrong checksum leaves the sender failed once its answer is read |
| `FileService.Shrinks` | crates/iec60870/src/file_transfer/service.rs:440-477 | every action brings the work queue nearer its end: it uses up a read, a request or an entry |
| `FileService.PumpsAll` | crates/iec60870/src/file_transfer/service.rs:440-514 | one request for data ships every chunk up to the end of the file in order, then the closing checksum over all of them |
| `ServiceLaws.FirstContact` | crates/iec60870/src/file_transfer/service.rs:315-424 | with no session under its key a message opens one if and only if there is room and it announces a file within the limit that can be stored or calls for a file there is; what then is sent and reported |
| `ServiceLaws.SessionServed` | crates/iec60870/src/file_transfer/service.rs:426-477 | for every message to a session and every tick: what it sends is sent, what it delivers is written behind the rest, and its outcome removes it and is reported once, with all that was written |
| `ServiceObject.Service.ApplyActions` | crates/iec60870/src/file_transfer/service.rs:440-477 | the loop terminates, does to its session what the queue model says, and touches no other session |
| `ServiceObject.Service.PumpReader` | crates/iec60870/src/file_transfer/service.rs:492-514 | one read is handed to the session, whose new actions are returned |
| `ServiceObject.Service.StoreSegment` | crates/iec60870/src/file_transfer/service.rs:516-532 | the octets are appended to what the session has written |
| `ServiceObject.Service.FinalizeSession` | crates/iec60870/src/file_transfer/service.rs:534-563 | the session is removed and its outcome reported once |
| `ServiceObject.Service.OnIncoming` | crates/iec60870/src/file_transfer/service.rs:315-424 | a message is routed to its session, or opens one within the limits, or is ignored |
| `FetchSteps.ServerTakesRequest` | crates/iec60870-proto/src/file_transfer/session.rs:335-351 | on the request the server sends the section, its segments and the closing checksum, in that order, in one call |
| `FetchSteps.ServerTakesSelect` | crates/iec60870/src/file_transfer/service.rs:376-410 | a select opens a sender whose own announcement is dropped, and is answered once |
| `FetchSteps.ServerTakesAck` | crates/iec60870-proto/src/file_transfer/session.rs:391-405 | the positive answer completes the server with its count |
| `FetchSteps.ClientStarts` | crates/iec60870/src/file_transfer/service.rs:216-256 | a fetch opens a receiver and selects the file |
| `FetchSteps.ClientTakesFileReady` | crates/iec60870-proto/src/file_transfer/session.rs:276-300 | the announcement is answered with the request |
| `FetchSteps.ClientTakesSectionReady` | crates/iec60870-proto/src/file_transfer/session.rs:302-316 | the tally starts from nothing |
| `FetchSteps.ClientTakesSegment` | crates/iec60870-proto/src/file_transfer/session.rs:407-418 | the client stores and tallies one more chunk |
| `FetchSteps.ClientTakesLast` | crates/iec60870-proto/src/file_transfer/session.rs:362-389 | with all chunks tallied the closing checksum matches: the client answers, completes and closes the file |
| `FetchSteps.TickKeeps` | crates/iec60870/src/file_transfer/service.rs:426-438 | a tick before the timeout changes nothing but the idle timer |
| `FetchRun.NeverFails` | crates/iec60870/src/file_transfer/service.rs:315-514 | over every run without a timeout neither side fails; what finishes has the file's octet count, the client has stored exactly the file, and the wire carries answer, section, segments and checksum in this order |
| `FetchRun.Completes` | crates/iec60870/src/file_transfer/service.rs:315-514 | when every chunk has at most 235 octets a run is done if and only if nothing is left to read, after exactly the number of chunks plus six messages |
| `FetchRun.NeverCompletes` | crates/iec60870-proto/src/frame104/codec.rs:30-38 | when a chunk is longer the connection breaks on it and neither side ever finishes |
| `FetchRun.WhichFilesFit` | crates/iec60870-proto/src/file_transfer/session.rs:18-21 | a file cut into segments of the configured size fits if and only if its first segment has at most 235 octets; with the default size, if and only if the file has |
| `FetchRun.UnsolicitedPushFails` | crates/iec60870/src/file_transfer/service.rs:336-374 | a push nobody asked for opens a receiver that fails at once and answers nothing |
| `FileCodec.Arrives` | crates/iec60870-proto/src/asdu/types/file.rs:492-756 | every message goes to octets and back with lengths cut to 24 bits, codes to 4 and a segment to 255 octets, and an I-frame can carry it if and only if its length, counted field by field, is at most 249 |
| `FileCodec.Layout` | crates/iec60870-proto/src/asdu/types/file.rs:30-756 | every octet of every message: type number, cause, addresses, names, lengths, codes, checksum and segment |
| `FileCodec.DecodesIff` | crates/iec60870-proto/src/asdu/types/file.rs:498-756 | any octets decode to a message if and only if they hold it, whatever follows |
| `Framing104.RoundTrip` | crates/iec60870-proto/src/frame104/codec.rs:30-66 | an encoded APDU followed by anything decodes to itself and its exact length |
| `Framing104.Layout` | crates/iec60870-proto/src/frame104/codec.rs:30-66 | every octet of every APDU: twice N(S) in octets 2 and 3 and twice N(R) in 4 and 5, low octet first, the ASDU from octet 6, and the octet of each U function |
| `Framing104.AcceptsIff` | crates/iec60870-proto/src/frame104/codec.rs:145-203 | any octets decode to an APDU if and only if start, length and the bits of its format are there |
| `Framing104.RefusesIff` | crates/iec60870-proto/src/frame104/codec.rs:145-203 | which octets are refused for their start and which for an unknown function |
| `Framing104.PrefixNeedsMore` | crates/iec60870-proto/src/frame104/codec.rs:145-169 | no proper prefix of an encoded APDU decodes to anything |
| `Framing104.NeedMoreIff` | crates/iec60870-proto/src/frame104/codec.rs:145-169 | more is needed if and only if the slice is shorter than the frame it announces, so for at most 256 octets |
| `Framing104.Stable` | crates/iec60870-proto/src/frame104/codec.rs:145-203 | octets behind a frame or an error do not change it |
| `Drain104.Driver.OnRead` | crates/iec60870/src/driver.rs:105-134 | the loop takes complete frames off the buffer until one is incomplete, malformed or ends the connection |
| `Drain104.ChunkingIrrelevant` | crates/iec60870/src/driver.rs:105-134 | however the stream is cut into reads the connection gets the same APDUs and ends alike; at most 256 octets stay buffered, so the limit of 4096 is never reached |
| `Drain104.StreamRoundTrip` | crates/iec60870/src/driver.rs:105-134 | what a peer encodes arrives APDU by APDU for every way of cutting the stream |
| `Drain104.DrainsExactly` | crates/iec60870/src/driver.rs:105-134 | for every stream, well formed or not, the connection is handed the frames at its front up to the first incomplete or malformed one or the one that ends it |
| `Framing101.ChecksumFixed` | crates/iec60870-proto/src/frame101/codec.rs:259-270 | the u16 sum is the modulo-256 sum of control and address octets |
| `Framing101.ChecksumVariable` | crates/iec60870-proto/src/frame101/codec.rs:275-281 | the loop adds the ASDU to it |
| `Framing101.RoundTrip` | crates/iec60870-proto/src/frame101/codec.rs:58-93 | an encodable frame followed by anything decodes to itself and its exact length, at both address widths |
| `Framing101.PrefixNeedsMore` | crates/iec60870-proto/src/frame101/codec.rs:110-249 | no proper prefix of an encoded frame decodes to anything |
| `Framing101.NeedMoreIsShort` | crates/iec60870-proto/src/frame101/codec.rs:110-249 | what needs more octets has at most 260 |
| `Framing101.Stable` | crates/iec60870-proto/src/frame101/codec.rs:110-249 | octets behind a frame or an error do not change it |
| `Framing101.SurvivesIff` | crates/iec60870-proto/src/frame101/codec.rs:58-249 | a frame decodes to itself if and only if its address fits its width and its ASDU the length octet; nothing is refused |
| `Framing101.Layout` | crates/iec60870-proto/src/frame101/codec.rs:58-93 | every octet of every frame, the checksum being the sum from the control octet on |
| `Framing101.AcceptsIff` | crates/iec60870-proto/src/frame101/codec.rs:110-249 | a frame is found at the front of any buffer if and only if it is encodable and those octets are its encoding |
| `Framing101.OneOctetChanged` | crates/iec60870-proto/src/frame101/codec.rs:110-249 | one octet of an encoded frame changed never decodes to a frame of that length, and behind the first octet the error names the rule that was broken |
| `Asdu.LeRoundTrip` | crates/iec60870-proto/src/asdu/header.rs:159-218 | an address comes back cut to the octets it was written in |
| `Asdu.LeOctet` | crates/iec60870-proto/src/asdu/header.rs:159-205 | octet i of a number is its value divided by 256^i, modulo 256 |
| `Asdu.EncodeIoList` | crates/iec60870-proto/src/asdu/io_list.rs:19-43 | the loops append the list as the SQ rule says |
| `Asdu.DecodeIoList` | crates/iec60870-proto/src/asdu/io_list.rs:46-75 | the loops read the list as the SQ rule says, or fail where an object is incomplete |
| `Asdu.ListDecodes` | crates/iec60870-proto/src/asdu/io_list.rs:19-75 | for any lossless element codec every list decodes to its addresses cut to their width, or under SQ counted up from the first |
| `Asdu.ListSurvivesIff` | crates/iec60870-proto/src/asdu/io_list.rs:19-75 | a list survives if and only if its addresses fit, and under SQ if and only if the first fits and they count up |
| `Asdu.SequenceBitIrrelevant` | crates/iec60870-proto/src/asdu/io_list.rs:19-75 | for addresses that count up both encodings decode alike if and only if the last address fits |
| `Asdu.ObjectAt` | crates/iec60870-proto/src/asdu/io_list.rs:19-43 | without SQ the i-th object stands behind those before it, its address first and then its element |
| `Asdu.SequenceAt` | crates/iec60870-proto/src/asdu/io_list.rs:19-43 | under SQ the address of the first object is followed by the elements alone |
| `Asdu.AllOrNothing` | crates/iec60870-proto/src/asdu/io_list.rs:46-75 | a list that decodes has as many objects as were announced |
| `Asdu.ListExact` | crates/iec60870-proto/src/asdu/io_list.rs:46-75 | for an exact codec the octets a list was decoded from are its encoding and the rest |
| `Asdu.AsduDecodes` | crates/iec60870-proto/src/asdu/envelope.rs:102-149 | every ASDU decodes to itself with each field cut to its bits |
| `Asdu.Layout` | crates/iec60870-proto/src/asdu/envelope.rs:101-110 | every octet of the header at every width: type, VSQ with SQ in bit 7, cause with its two flags, originator, common address |
| `Asdu.DecodesExactly` | crates/iec60870-proto/src/asdu/envelope.rs:124-149 | every buffer that holds a header is the encoding of what it decodes to, and a shorter one is incomplete |
| `Asdu.AsduSurvivesIff` | crates/iec60870-proto/src/asdu/envelope.rs:102-149 | an ASDU survives if and only if each field fits the width the profile gives it |
| `Asdu.TypedRoundTrip` | crates/iec60870-proto/src/asdu/envelope.rs:73-149 | up to 127 typed objects go to octets and back at every width, unchanged if and only if their addresses fit and, under SQ, count up |
| `Calendar.CivilDateIsRight` | crates/iec60870/src/file_transfer/fs.rs:428-444 | for every day number the result is the one valid date with that many days before it, and its weekday |
| `Calendar.CivilInvertsDayNumber` | crates/iec60870/src/file_transfer/fs.rs:428-444 | every date from 1970 on is the result for its own day number |
| `Calendar.AlgorithmsAgree` | crates/iec60870-test-tools/src/points.rs:46-61 | the Julian-day arithmetic gives the same date and weekday for every day number |
| `Crc16.BuildTable` | crates/iec60870/src/file_transfer/fs.rs:380-398 | entry i of the table is i after eight shifts with the polynomial |
| `Crc16.BuildEntry` | crates/iec60870/src/file_transfer/fs.rs:384-393 | the inner loop shifts eight times |
| `Crc16.OctetStep` | crates/iec60870/src/file_transfer/fs.rs:372-378 | one table step is eight steps of division bit by bit |
| `Crc16.Crc16Ibm` | crates/iec60870/src/file_transfer/fs.rs:372-378 | for every message the table-driven loop computes what division by 0xA001 bit by bit leaves |
| `Crc16.Residue` | crates/iec60870/src/file_transfer/fs.rs:372-378 | a message followed by its own checksum leaves zero |
| `Deadband.DeadbandTracker.RemovePolicy` | crates/iec60870/src/deadband.rs:128-130 | returns the policy that the operations so far gave the point |
| `Deadband.DeadbandTracker.Observe` | crates/iec60870/src/deadband.rs:144-161 | fails if and only if the kind clashes with what was last sent for the point |
| `Deadband.DeadbandTracker.Evaluate` | crates/iec60870/src/deadband.rs:163-253 | holds a sample back if and only if it has the kind and quality of what was last sent for the point and lies inside its band, judged from the operations done on the object |
| `Deadband.TrackerRemembers` | crates/iec60870/src/deadband.rs:117-211 | the two maps hold, point by point, the policy last set and the value that, by the answers given, was last sent since it was last forgotten |
| `Deadband.HeldBackIff` | crates/iec60870/src/deadband.rs:163-253 | over every sequence of operations a sample is held back if and only if it has the kind and quality of what was last sent and not forgotten, and lies inside the band around it, so within delta of it |
| `Deadband.WiderSendsNoMore` | crates/iec60870/src/deadband.rs:163-253 | a walk in one direction is sent no more often through a wider band |
| `Deadband.TurningWalk` | crates/iec60870/src/deadband.rs:163-253 | a walk that turns is sent more often through the wider band |

## Left out

- Sockets, tasks, channels, serial ports, TLS and certificates.
- Test daemons, the control plane and the command line, except the calendar lines of now_cp56.
- Redundancy groups, the ASDU policy, the address filter and the point cache: each is a single check on one value.
- The information elements and qualifiers one by one: object lists are proved for any element codec that is lossless.
- 101 balanced mode, and how the 101 driver finds the next frame after garbage.
- The consuming variant of the APDU decoder, which the driver does not use.
- File push and transfers of more than one section, which the session does not carry through.
- Directory scanning and file replacement in the file provider; a reader is the list of its reads, where an error is an empty read, and a writer never fails.
- The object address and the error bits of file-transfer messages, which are constant.
- The clock inside one call of the file-transfer service is read once.
- End of stream on a 104 connection: a read of no octets leaves the buffer as it is.
- NaN, infinities and rounding in the deadband: values are exact reals.
- Casts of day numbers and years to fixed widths: the calendar is over unbounded integers.
- The order of actions in the call at which a 104 driver meets a frame it cannot encode: an ASDU of that call counts as delivered, though the driver ends before it passes it on.
- Release104.DueTickReleases: for timers above zero; a timer of zero fires in every call.
- Release104.AlwaysRecovers: for timers above zero, likewise.
- Residual104.BalancedIff: for timers above zero, likewise.
- Residual104.RecoversIff: for timers above zero, likewise.
- Residual104.SettledIff: for timers above zero, likewise.
- Probe104.TestKeepsAlive: for timers above zero, likewise.
- ServiceLaws.FirstContact: for an idle timeout above zero; with zero every call ends its session.
- ServiceLaws.SessionServed: the request that makes a sender ship its file is `FileService.PumpsAll`.
- Delivery101.DeliveredOnceInOrder: holds for timeouts that fire only when nothing is in flight and for resets only between exchanges; the frame count bit promises nothing otherwise.
- Delivery101.HalfDuplex: needs a timeout above zero; with a timeout of zero every call repeats its own frame at once.
- Deadband.WiderSendsNoMore: for walks in one direction; a walk that turns may or may not keep to it.
