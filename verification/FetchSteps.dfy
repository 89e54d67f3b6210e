/** What each message of a fetch does at the service that receives it. */
module FetchSteps {
  import opened Checksum
  import opened Common
  import opened FileCodec
  import opened FileSession
  import opened FileService
  import opened Fetch

  // ------------------------------------------------------------------
  // The server
  // ------------------------------------------------------------------

  lemma {:induction false} ServerTakesSelect(z: Setting, now: nat)
    requires z.Ok()
    ensures var x := Incoming(Desk(None, [], []), SelectCall(z.nof, 0, SelectFile), z.sp, now);
            x.sent == [FileReady(z.nof, z.File().length, false)] && ServerAfter(z, Blank(x), 1)
  {
    hide Drain, CountAll, UntilEnd, Concat;
    var m := SelectCall(z.nof, 0, SelectFile);
    var s := OpenedSender(z.nof, z.sp, now);
    var d := s.Step(Received(m), now);
    assert d.actions == [Send(FileReady(z.nof, z.File().length, false))];
    var x := Desk(Some(Active(d.(actions := []), Some(z.File().chunks), None)), [], []);
    DrainOne(x, d.actions[0], now);
  }

  lemma {:induction false} ServerTakesRequest(z: Setting, x: Desk, now: nat)
    requires z.Ok() && ServerAfter(z, x, 1)
    ensures var y := Incoming(x, SelectCall(z.nof, 0, RequestFile), z.sp, now);
            y.sent == z.Transfer() && ServerAfter(z, Blank(y), 2)
  {
    hide Drain, Session.Step, Fold, CountAll, UntilEnd, AfterEnd, Concat, FileService.Segments;
    var a, m := x.active.value, SelectCall(z.nof, 0, RequestFile);
    var max := RequestStep(a.session, m, now);
    var d := a.session.Step(Received(m), now);
    var x1 := x.(active := Some(a.(session := d.(actions := []))));
    DrainNext(x1, d.actions[0], [d.actions[1]], now);
    var x2 := Perform(x1, d.actions[0], now).0;
    assert d.actions == [d.actions[0]] + [d.actions[1]] && [d.actions[1]] + [] == [RequestNextSegment(max)];
    assert Drain(x1, d.actions, now) == Drain(x2, [RequestNextSegment(max)], now);
    PumpsAll(x2, max, now);
    assert x2.sent == [SectionReady(z.nof, 1, z.File().length, false)];
  }

  lemma {:induction false} RequestStep(s: Session, m: Message, now: nat) returns (max: nat)
    requires s.role == Sender && s.state == TxAwaitRequest && s.actions == [] && !s.awaitingProvider
    requires s.config.idleTimeout > 0
    requires m == SelectCall(s.nof, 0, RequestFile)
    ensures s.Step(Received(m), now) ==
            s.(state := TxSendingSegments, checksum := 0, bytes := 0, lastProgress := Some(now),
               awaitingProvider := true, actions := [Send(SectionReady(s.nof, 1, s.sectionLength, false)),
                   RequestNextSegment(max)])
  {
    max := Max(1, Min(s.config.maxSegmentBytes, MAX_SEGMENT_BYTES));
  }

  lemma {:induction false} ServerTakesAck(z: Setting, x: Desk, now: nat)
    requires z.Ok() && ServerAfter(z, x, 2)
    ensures var y := Incoming(x, AckFile(z.nof, 1, PositiveFile), z.sp, now);
            y.sent == [] && ServerAfter(z, Blank(y), 3)
  {
    hide Drain, CountAll, UntilEnd, Concat;
    var a, m := x.active.value, AckFile(z.nof, 1, PositiveFile);
    var d := a.session.Step(Received(m), now);
    assert d.actions == [Complete(a.session.bytes)];
    DrainOne(x.(active := Some(a.(session := d.(actions := [])))), d.actions[0], now);
  }

  // ------------------------------------------------------------------
  // The client
  // ------------------------------------------------------------------

  lemma {:induction false} ClientStarts(z: Setting, now: nat)
    requires z.Ok()
    ensures var x := FileService.Fetch(Desk(None, [], []), z.nof, z.cp, now);
            x.sent == [SelectCall(z.nof, 0, SelectFile)] && ClientAfter(z, Blank(x), 0)
  {
    hide Drain, UntilEnd, Concat;
    var d := New(Receiver, z.nof, z.cp.config).Step(Start(0), now);
    assert d.actions == [Send(SelectCall(z.nof, 0, SelectFile))];
    DrainOne(Desk(Some(Active(d.(actions := []), None, Some([]))), [], []), d.actions[0], now);
  }

  lemma {:induction false} ClientTakesFileReady(z: Setting, x: Desk, lof: u32, now: nat)
    requires z.Ok() && ClientAfter(z, x, 0)
    ensures var y := Incoming(x, FileReady(z.nof, lof, false), z.cp, now);
            y.sent == [SelectCall(z.nof, 0, RequestFile)] && ClientAfter(z, Blank(y), 1)
  {
    hide Drain, UntilEnd, Concat;
    var a := x.active.value;
    var d := a.session.Step(Received(FileReady(z.nof, lof, false)), now);
    assert d.actions == [Send(SelectCall(z.nof, 0, RequestFile))];
    DrainOne(x.(active := Some(a.(session := d.(actions := [])))), d.actions[0], now);
  }

  lemma {:induction false} ClientTakesSectionReady(z: Setting, x: Desk, los: u32, now: nat)
    requires z.Ok() && ClientAfter(z, x, 1)
    ensures var y := Incoming(x, SectionReady(z.nof, 1, los, false), z.cp, now);
            y.sent == [] && Collected(z, Blank(y), 0)
  {
    hide UntilEnd;
    var a := x.active.value;
    var d := a.session.Step(Received(SectionReady(z.nof, 1, los, false)), now);
    assert d.actions == [];
    assert z.Chunks()[..0] == [];
  }

  lemma {:induction false} ConcatAppend(chunks: seq<Bytes>, c: Bytes)
    ensures Concat(chunks + [c]) == Concat(chunks) + c
  {
    if chunks == [] {
      assert [c][1..] == [] && [] + [c] == [c];
    } else {
      ConcatAppend(chunks[1..], c);
      assert (chunks + [c])[1..] == chunks[1..] + [c];
    }
  }

  lemma {:induction false} ClientTakesSegment(z: Setting, x: Desk, j: int, now: nat)
    requires z.Ok() && Collected(z, x, j) && j < |z.Chunks()| && |z.Chunks()[j]| < 0x1_0000_0000
    ensures var y := Incoming(x, Segment(z.nof, 1, z.Chunks()[j]), z.cp, now);
            y.sent == [] && Collected(z, Blank(y), j + 1)
  {
    hide Drain, UntilEnd, Concat, Fold, Count;
    var a, c := x.active.value, z.Chunks()[j];
    var d := a.session.Step(Received(Segment(z.nof, 1, c)), now);
    assert d == a.session.(checksum := Fold(a.session.checksum, c), bytes := Count(a.session.bytes, c),
                           lastProgress := Some(now), actions := [DeliverSegment(c)]);
    DrainOne(x.(active := Some(a.(session := d.(actions := [])))), d.actions[0], now);
    var got := Concat(z.Chunks()[..j]);
    assert z.Chunks()[..j + 1] == z.Chunks()[..j] + [c];
    ConcatAppend(z.Chunks()[..j], c);
    FoldAppend(0, got, c);
    CountAppend(a.session.bytes, got, c);
  }

  lemma {:induction false} ClientTakesLast(z: Setting, x: Desk, now: nat)
    requires z.Ok() && Collected(z, x, |z.Chunks()|)
    ensures var y := Incoming(x, LastSection(z.nof, 1, Fold(0, z.Octets())), z.cp, now);
            y.sent == [AckFile(z.nof, 1, PositiveFile)] && ClientDone(z, Blank(y))
  {
    hide Drain, UntilEnd, Concat, Fold;
    var a := x.active.value;
    assert z.Chunks()[..|z.Chunks()|] == z.Chunks();
    var d := a.session.Step(Received(LastSection(z.nof, 1, Fold(0, z.Octets()))), now);
    assert d.actions == [Send(AckFile(z.nof, 1, PositiveFile)), Complete(a.session.bytes)];
    var x1 := x.(active := Some(a.(session := d.(actions := []))));
    DrainNext(x1, d.actions[0], [d.actions[1]], now);
    var x2 := Perform(x1, d.actions[0], now).0;
    assert d.actions == [d.actions[0]] + [d.actions[1]] && [d.actions[1]] + [] == [d.actions[1]];
    DrainOne(x2, d.actions[1], now);
  }

  // ------------------------------------------------------------------
  // Ticks
  // ------------------------------------------------------------------

  /** Between `x` and `y` at most the idle timer was started, at `now`. */
  ghost predicate TimedAt(x: Desk, y: Desk, now: nat) {
    || y == x
    || (x.active.Some? &&
        var a := x.active.value;
        y == x.(active := Some(a.(session := a.session.(lastProgress := Some(now))))))
  }

  /** A tick before the timeout only starts the idle timer, if it was not running. */
  lemma {:induction false} TickKeeps(x: Desk, now: nat)
    requires Clean(x) && !TimesOut(x, now)
    ensures TimedAt(x, TickDesk(x, now), now)
  {
    if x.active.Some? {
      var a := x.active.value;
      var d := a.session.Step(FileSession.Tick, now);
      assert d.actions == [];
    }
  }

  // ------------------------------------------------------------------
  // What gets through
  // ------------------------------------------------------------------

  lemma {:induction false} ThroughAt(ms: seq<Message>, i: int)
    ensures |Through(ms)| <= |ms|
    ensures 0 <= i < |Through(ms)| ==> Fits(ms[i]) && Through(ms)[i] == OnWire(ms[i])
    ensures |Through(ms)| < |ms| ==> !Fits(ms[|Through(ms)|])
  {
    if ms != [] && Fits(ms[0]) { ThroughAt(ms[1..], i - 1); }
  }

  lemma {:induction false} SegmentsAt(nof: u16, chunks: seq<Bytes>, i: int)
    ensures |FileService.Segments(nof, chunks)| == |chunks|
    ensures 0 <= i < |chunks| ==> FileService.Segments(nof, chunks)[i] == Segment(nof, 1, chunks[i])
  {
    if chunks != [] { SegmentsAt(nof, chunks[1..], i - 1); }
  }

  lemma {:induction false} TransferAt(z: Setting, i: int)
    requires z.Ok()
    ensures |z.Transfer()| == |z.Chunks()| + 2
    ensures i == 0 ==> z.Transfer()[i] == SectionReady(z.nof, 1, z.File().length, false)
    ensures 1 <= i <= |z.Chunks()| ==> z.Transfer()[i] == Segment(z.nof, 1, z.Chunks()[i - 1])
    ensures i == |z.Chunks()| + 1 ==> z.Transfer()[i] == LastSection(z.nof, 1, Fold(0, z.Octets()))
  {
    hide UntilEnd, Concat, Fold;
    SegmentsAt(z.nof, z.Chunks(), i - 1);
  }

  /** The i-th message of the transfer as the client reads it, if it gets through. */
  lemma {:induction false} WireAt(z: Setting, i: int)
    requires z.Ok() && 0 <= i < |Through(z.Transfer())|
    ensures i <= |z.Chunks()| + 1
    ensures i == 0 ==> Through(z.Transfer())[i] == SectionReady(z.nof, 1, z.File().length % 0x100_0000, false)
    ensures 1 <= i <= |z.Chunks()| ==>
              Through(z.Transfer())[i] == Segment(z.nof, 1, z.Chunks()[i - 1]) && |z.Chunks()[i - 1]| <= 235
    ensures i == |z.Chunks()| + 1 ==> Through(z.Transfer())[i] == LastSection(z.nof, 1, Fold(0, z.Octets()))
  {
    hide UntilEnd, Concat, Fold, Through;
    ThroughAt(z.Transfer(), i);
    TransferAt(z, i);
    if 1 <= i <= |z.Chunks()| { Whole(z.Chunks()[i - 1]); }
  }

  lemma Whole(data: Bytes)
    ensures |data| <= 235 ==> data[..Min(|data|, MAX_SEGMENT_BYTES)] == data
  {
  }
}
