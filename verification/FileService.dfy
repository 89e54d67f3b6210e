/**
 * The work queue of the file-transfer service as seen by one session: performing an action may
 * step the session again, and what that yields goes to the back of the queue.
 */
module FileService {
  import opened Checksum
  import opened Common
  import opened FileSession

  /** A session with what the provider opened for it: the results of successive reads, or the octets written. */
  datatype Active = Active(session: Session, reader: Option<seq<Bytes>>, writer: Option<Bytes>)
  datatype Finished = Finished(outcome: Action, contents: Option<Bytes>)

  /** The session under its key, the messages sent for it and the transfers it finished. */
  datatype Desk = Desk(active: Option<Active>, sent: seq<Message>, finished: seq<Finished>)

  /** What the provider offers: a file's announced length and the results of reading it. */
  datatype File = File(length: u32, chunks: seq<Bytes>)
  datatype Provider = Provider(config: Config, file: Option<File>, writable: bool, maxInbound: u32, full: bool)

  /** The next read: past the end, and on an error, there are no octets. */
  function Chunk(reader: seq<Bytes>): Bytes { if reader == [] then [] else reader[0] }

  function Rest(reader: seq<Bytes>): seq<Bytes> { if reader == [] then [] else reader[1..] }

  function Pump(x: Desk, now: nat): (Desk, seq<Action>) {
    if x.active.None? || x.active.value.reader.None? then (x, []) else
      var a := x.active.value;
      var d := a.session.Step(SegmentReady(Chunk(a.reader.value)), now);
      (x.(active := Some(Active(d.(actions := []), Some(Rest(a.reader.value)), a.writer))), d.actions)
  }

  function Store(x: Desk, data: Bytes): Desk {
    if x.active.None? || x.active.value.writer.None? then x
    else x.(active := Some(x.active.value.(writer := Some(x.active.value.writer.value + data))))
  }

  function Finalize(x: Desk, outcome: Action): Desk {
    if x.active.None? then x
    else x.(active := None, finished := x.finished + [Finished(outcome, x.active.value.writer)])
  }

  function Perform(x: Desk, a: Action, now: nat): (Desk, seq<Action>) {
    match a
    case Send(m) => (x.(sent := x.sent + [m]), [])
    case RequestNextSegment(_) => Pump(x, now)
    case DeliverSegment(data) => (Store(x, data), [])
    case Complete(_) => (Finalize(x, a), [])
    case Fail(_) => (Finalize(x, a), [])
  }

  // ------------------------------------------------------------------
  // The queue runs dry
  // ------------------------------------------------------------------

  function Reads(x: Desk): nat {
    if x.active.Some? && x.active.value.reader.Some? then |x.active.value.reader.value| else 0
  }

  function Requests(queue: seq<Action>): nat {
    if queue == [] then 0 else Requests(queue[1..]) + (if queue[0].RequestNextSegment? then 1 else 0)
  }

  lemma {:induction false} RequestsAppend(a: seq<Action>, b: seq<Action>)
    ensures Requests(a + b) == Requests(a) + Requests(b)
  {
    if a == [] {
      assert a + b == b;
    } else {
      RequestsAppend(a[1..], b);
      assert (a + b)[1..] == a[1..] + b;
    }
  }

  lemma {:induction false} NoRequests(a: seq<Action>)
    requires forall i :: 0 <= i < |a| ==> !a[i].RequestNextSegment?
    ensures Requests(a) == 0
  {
    if a != [] { NoRequests(a[1..]); }
  }

  /** At the end of the file a session asks for nothing more. */
  lemma {:induction false} EndAsksNothing(s: Session, now: nat)
    requires s.actions == []
    ensures Requests(s.Step(SegmentReady([]), now).actions) == 0
  {
    hide Requests;
    NoRequests(s.Step(SegmentReady([]), now).actions);
  }

  ghost predicate Clean(x: Desk) { x.active.Some? ==> x.active.value.session.actions == [] }

  /** Every action takes the queue towards its end: a read is used up, or a request, or an entry. */
  lemma {:induction false} Shrinks(x: Desk, queue: seq<Action>, now: nat)
    requires Clean(x) && queue != []
    ensures var (y, extra) := Perform(x, queue[0], now);
            && Clean(y) && Reads(y) <= Reads(x)
            && (Reads(y) == Reads(x) ==>
                  var r := Requests(queue[1..] + extra);
                  r < Requests(queue) || (r == Requests(queue) && |queue[1..] + extra| < |queue|))
  {
    hide Session.Step;
    var (y, extra) := Perform(x, queue[0], now);
    RequestsAppend(queue[1..], extra);
    if queue[0].RequestNextSegment? && x.active.Some? && x.active.value.reader == Some([]) {
      EndAsksNothing(x.active.value.session, now);
    }
  }

  ghost function Drain(x: Desk, queue: seq<Action>, now: nat): (y: Desk)
    requires Clean(x)
    ensures Clean(y)
    decreases Reads(x), Requests(queue), |queue|
  {
    if queue == [] then x else
      Shrinks(x, queue, now);
      var (y, extra) := Perform(x, queue[0], now);
      Drain(y, queue[1..] + extra, now)
  }

  // ------------------------------------------------------------------
  // What reaches the service
  // ------------------------------------------------------------------

  ghost function Deliver(x: Desk, m: Message, now: nat): (y: Desk)
    requires Clean(x) && x.active.Some?
    ensures Clean(y)
  {
    var a := x.active.value;
    var d := a.session.Step(Received(m), now);
    Drain(x.(active := Some(a.(session := d.(actions := [])))), d.actions, now)
  }

  /** A sender opened on demand: its own announcement is dropped, the select that opened it answers. */
  function OpenedSender(nof: u16, p: Provider, now: nat): Session
    requires p.file.Some?
  {
    New(Sender, nof, p.config).Step(Start(p.file.value.length), now).(actions := [])
  }

  /** The session a message opens when there is none: a push is received, a select is served. */
  function Opened(m: Message, p: Provider, now: nat): Option<Active> {
    if p.full then None else
    match m
    case FileReady(nof, lof, _) =>
      if lof > p.maxInbound || !p.writable then None
      else Some(Active(New(Receiver, nof, p.config), None, Some([])))
    case SelectCall(nof, _, _) =>
      if p.file.None? then None else Some(Active(OpenedSender(nof, p, now), Some(p.file.value.chunks), None))
    case _ => None
  }

  ghost function Incoming(x: Desk, m: Message, p: Provider, now: nat): (y: Desk)
    requires Clean(x)
    ensures Clean(y)
  {
    if x.active.Some? then Deliver(x, m, now)
    else if Opened(m, p, now).None? then x
    else Deliver(x.(active := Opened(m, p, now)), m, now)
  }

  ghost function TickDesk(x: Desk, now: nat): (y: Desk)
    requires Clean(x)
    ensures Clean(y)
  {
    if x.active.None? then x else
      var a := x.active.value;
      var d := a.session.Step(FileSession.Tick, now);
      Drain(x.(active := Some(a.(session := d.(actions := [])))), d.actions, now)
  }

  ghost function Fetch(x: Desk, nof: u16, p: Provider, now: nat): (y: Desk)
    requires x.active.None?
    ensures Clean(y)
  {
    var d := New(Receiver, nof, p.config).Step(Start(0), now);
    Drain(x.(active := Some(Active(d.(actions := []), None, Some([])))), d.actions, now)
  }

  // ------------------------------------------------------------------
  // What a drained queue has done
  // ------------------------------------------------------------------

  lemma {:induction false} DrainOne(x: Desk, a: Action, now: nat)
    requires Clean(x) && !a.RequestNextSegment?
    ensures Drain(x, [a], now) == Perform(x, a, now).0
  {
    assert [a][1..] + [] == [];
  }

  lemma {:induction false} DrainNext(x: Desk, a: Action, rest: seq<Action>, now: nat)
    requires Clean(x)
    ensures var (y, extra) := Perform(x, a, now); Clean(y) && Drain(x, [a] + rest, now) == Drain(y, rest + extra, now)
  {
    Shrinks(x, [a] + rest, now);
    assert ([a] + rest)[1..] == rest;
  }

  /** The reads before the end of the file: an empty read ends it. */
  function UntilEnd(reader: seq<Bytes>): seq<Bytes> {
    if reader == [] || reader[0] == [] then [] else [reader[0]] + UntilEnd(reader[1..])
  }

  function AfterEnd(reader: seq<Bytes>): seq<Bytes> {
    if reader == [] then [] else if reader[0] == [] then reader[1..] else AfterEnd(reader[1..])
  }

  function Concat(chunks: seq<Bytes>): Bytes {
    if chunks == [] then [] else chunks[0] + Concat(chunks[1..])
  }

  function Segments(nof: u16, chunks: seq<Bytes>): seq<Message> {
    if chunks == [] then [] else [Segment(nof, 1, chunks[0])] + Segments(nof, chunks[1..])
  }

  /** The counter after a list of chunks, each counted as it goes out. */
  function CountAll(n: u32, chunks: seq<Bytes>): u32
    decreases chunks
  {
    if chunks == [] then n else CountAll(Count(n, chunks[0]), chunks[1..])
  }

  predicate Sending(x: Desk) {
    && x.active.Some? && x.active.value.reader.Some?
    && var s := x.active.value.session;
       && s.role == Sender && s.state == TxSendingSegments
       && s.awaitingProvider && s.actions == [] && s.config.idleTimeout > 0
  }

  /** The desk after a sender has read its file to the end. */
  function Shipped(x: Desk, now: nat): Desk
    requires Sending(x)
  {
    var a := x.active.value;
    var s, chunks := a.session, UntilEnd(a.reader.value);
    var chs := Fold(s.checksum, Concat(chunks));
    Desk(Some(Active(s.(state := TxAwaitAck, awaitingProvider := false, lastProgress := Some(now),
                        checksum := chs, bytes := CountAll(s.bytes, chunks)),
                     Some(AfterEnd(a.reader.value)), a.writer)),
         x.sent + Segments(s.nof, chunks) + [LastSection(s.nof, 1, chs)],
         x.finished)
  }

  /** The desk after one chunk: the segment is out and the next read is asked for. */
  function ChunkShipped(x: Desk, now: nat): Desk
    requires Sending(x) && x.active.value.reader.value != []
  {
    var a := x.active.value;
    var s, c := a.session, a.reader.value[0];
    Desk(Some(Active(s.(lastProgress := Some(now), checksum := Fold(s.checksum, c), bytes := Count(s.bytes, c)),
                     Some(a.reader.value[1..]), a.writer)),
         x.sent + [Segment(s.nof, 1, c)], x.finished)
  }

  lemma {:induction false} OneChunk(x: Desk, max: nat, now: nat)
    requires Sending(x) && x.active.value.reader.value != [] && x.active.value.reader.value[0] != []
    ensures var y := ChunkShipped(x, now);
            && Sending(y)
            && exists next :: Drain(x, [RequestNextSegment(max)], now) == Drain(y, [RequestNextSegment(next)], now)
  {
    hide Fold, Count, Drain;
    var s, c := x.active.value.session, x.active.value.reader.value[0];
    var next := Max(1, Min(s.config.maxSegmentBytes, MAX_SEGMENT_BYTES));
    DrainNext(x, RequestNextSegment(max), [], now);
    var (y, extra) := Perform(x, RequestNextSegment(max), now);
    assert extra == [Send(Segment(s.nof, 1, c)), RequestNextSegment(next)];
    assert [RequestNextSegment(max)] + [] == [RequestNextSegment(max)];
    assert [] + extra == [extra[0]] + [RequestNextSegment(next)];
    DrainNext(y, extra[0], [RequestNextSegment(next)], now);
    assert [RequestNextSegment(next)] + [] == [RequestNextSegment(next)];
    assert Perform(y, extra[0], now).0 == ChunkShipped(x, now);
  }

  lemma {:induction false} NoChunk(x: Desk, max: nat, now: nat)
    requires Sending(x) && Chunk(x.active.value.reader.value) == []
    ensures Drain(x, [RequestNextSegment(max)], now) == Shipped(x, now)
  {
    hide Drain, Sum;
    var a := x.active.value;
    DrainNext(x, RequestNextSegment(max), [], now);
    var (y, extra) := Perform(x, RequestNextSegment(max), now);
    assert extra == [Send(LastSection(a.session.nof, 1, a.session.checksum))];
    assert [RequestNextSegment(max)] + [] == [RequestNextSegment(max)] && [] + extra == extra;
    DrainOne(y, extra[0], now);
    assert Fold(a.session.checksum, []) == a.session.checksum by { assert Sum([]) == 0 by { EmptySum(); } }
    assert x.sent + [] == x.sent;
  }

  lemma EmptySum()
    ensures Sum([]) == 0
  {
  }

  lemma {:induction false} ShippedUnfolds(x: Desk, now: nat)
    requires Sending(x) && x.active.value.reader.value != [] && x.active.value.reader.value[0] != []
    ensures Sending(ChunkShipped(x, now)) && Shipped(ChunkShipped(x, now), now) == Shipped(x, now)
  {
    hide Fold, Count;
    var s, r := x.active.value.session, x.active.value.reader.value;
    FoldAppend(s.checksum, r[0], Concat(UntilEnd(r[1..])));
    var rest := UntilEnd(r[1..]);
    assert UntilEnd(r) == [r[0]] + rest && ([r[0]] + rest)[1..] == rest;
    var first, more := [Segment(s.nof, 1, r[0])], Segments(s.nof, rest);
    assert x.sent + first + more == x.sent + (first + more);
  }

  /** One request for data ships the whole file: every chunk up to the end in order, then the F_LS. */
  lemma {:induction false} PumpsAll(x: Desk, max: nat, now: nat)
    requires Sending(x)
    ensures Drain(x, [RequestNextSegment(max)], now) == Shipped(x, now)
    decreases |x.active.value.reader.value|
  {
    var r := x.active.value.reader.value;
    if Chunk(r) == [] {
      NoChunk(x, max, now);
    } else {
      hide Drain, Shipped;
      OneChunk(x, max, now);
      var y := ChunkShipped(x, now);
      var next :| Drain(x, [RequestNextSegment(max)], now) == Drain(y, [RequestNextSegment(next)], now);
      PumpsAll(y, next, now);
      ShippedUnfolds(x, now);
    }
  }
}
