/** Whole runs of one file-transfer session against an arbitrary peer and an arbitrary provider. */
module SessionRun {
  import opened Checksum
  import opened Common
  import opened FileSession

  /** The octets handed to local storage. */
  function Delivered(acts: seq<Action>): Bytes {
    if acts == [] then [] else
      Delivered(acts[..|acts| - 1]) + (if acts[|acts| - 1].DeliverSegment? then acts[|acts| - 1].data else [])
  }

  /** The octets put into segments for the peer. */
  function Shipped(acts: seq<Action>): Bytes {
    if acts == [] then [] else
      Shipped(acts[..|acts| - 1]) + ShippedBy(acts[|acts| - 1])
  }

  function ShippedBy(a: Action): Bytes { if a.Send? && a.message.Segment? then a.message.data else [] }

  function DeliveredBy(a: Action): Bytes { if a.DeliverSegment? then a.data else [] }

  function Outcomes(acts: seq<Action>): seq<Action> {
    if acts == [] then [] else
      Outcomes(acts[..|acts| - 1]) + OutcomeBy(acts[|acts| - 1])
  }

  function OutcomeBy(a: Action): seq<Action> { if a.Complete? || a.Fail? then [a] else [] }

  function Messages(acts: seq<Action>): seq<Message> {
    if acts == [] then [] else
      Messages(acts[..|acts| - 1]) + MessageBy(acts[|acts| - 1])
  }

  function MessageBy(a: Action): seq<Message> { if a.Send? then [a.message] else [] }

  /** `closing` is the checksum of the last F_LS received, `answer` what the last F_AF said. */
  datatype Trace = Trace(
    session: Session,
    delivered: Bytes,
    shipped: Bytes,
    sent: seq<Message>,
    outcomes: seq<Action>,
    closing: Option<byte>,
    answer: Option<AckAction>)

  datatype Call = Call(input: Input, now: nat)

  function Advance(t: Trace, c: Call): Trace {
    var d := t.session.Step(c.input, c.now);
    Trace(d.(actions := []), t.delivered + Delivered(d.actions), t.shipped + Shipped(d.actions),
          t.sent + Messages(d.actions), t.outcomes + Outcomes(d.actions),
          if t.session.Terminal() then t.closing else Closing(c, t.closing),
          if t.session.Terminal() then t.answer else Answer(c, t.answer))
  }

  function Run(role: Role, nof: u16, config: Config, calls: seq<Call>): Trace {
    if calls == [] then Trace(New(role, nof, config), [], [], [], [], None, None) else
      Advance(Run(role, nof, config, calls[..|calls| - 1]), calls[|calls| - 1])
  }

  /** No slice reaches 2^32 octets; a segment decoded from the wire has at most 255. */
  predicate Short(c: Call) {
    match c.input
    case Received(Segment(_, _, data)) => |data| < 0x1_0000_0000
    case SegmentReady(data) => |data| < 0x1_0000_0000
    case _ => true
  }

  predicate AllShort(calls: seq<Call>) { forall i :: 0 <= i < |calls| ==> Short(calls[i]) }

  // ------------------------------------------------------------------
  // Short action lists
  // ------------------------------------------------------------------

  lemma {:induction false} Few(acts: seq<Action>)
    requires |acts| <= 3
    ensures |acts| == 0 ==> Delivered(acts) == [] && Shipped(acts) == [] && Outcomes(acts) == [] && Messages(acts) == []
    ensures |acts| == 1 ==> Delivered(acts) == DeliveredBy(acts[0]) && Shipped(acts) == ShippedBy(acts[0])
                            && Outcomes(acts) == OutcomeBy(acts[0]) && Messages(acts) == MessageBy(acts[0])
    ensures |acts| == 2 ==> Delivered(acts) == DeliveredBy(acts[0]) + DeliveredBy(acts[1])
                            && Shipped(acts) == ShippedBy(acts[0]) + ShippedBy(acts[1])
                            && Outcomes(acts) == OutcomeBy(acts[0]) + OutcomeBy(acts[1])
                            && Messages(acts) == MessageBy(acts[0]) + MessageBy(acts[1])
    ensures |acts| == 3 ==> Delivered(acts) == DeliveredBy(acts[0]) + DeliveredBy(acts[1]) + DeliveredBy(acts[2])
                            && Shipped(acts) == ShippedBy(acts[0]) + ShippedBy(acts[1]) + ShippedBy(acts[2])
                            && Outcomes(acts) == OutcomeBy(acts[0]) + OutcomeBy(acts[1]) + OutcomeBy(acts[2])
  {
    if |acts| > 0 { Few(acts[..|acts| - 1]); }
  }

  // ------------------------------------------------------------------
  // Outcomes
  // ------------------------------------------------------------------

  predicate Plain(a: Action) { a.Send? && !a.message.Segment? }

  /** The action lists a call can produce, with the state they leave. */
  predicate Shape(s: Session, d: Session) {
    && d.role == s.role && d.nof == s.nof && d.config == s.config
    && var n := |d.actions|;
       && n <= 2
       && (if d.Terminal()
           then && n >= 1 && d.actions[n - 1] == Verdict(d) && (n == 2 ==> Plain(d.actions[0]))
           else && (n >= 1 ==> d.actions[0].Send? || d.actions[0].DeliverSegment?)
                && (n == 2 ==> d.actions[0].Send? && d.actions[1].RequestNextSegment?))
  }

  function Verdict(d: Session): Action {
    if d.state == Completed then Complete(d.bytes)
    else if d.actions != [] then d.actions[|d.actions| - 1]
    else Fail(Aborted)
  }

  lemma {:induction false} RejectShape(s: Session, reason: Reason)
    requires s.actions == [] && !s.Terminal()
    ensures var d := s.Failing(reason); Shape(s, d) && d.state == Failed && d.actions == [Fail(reason)]
  {
  }

  lemma {:induction false} ReadyShape(s: Session, length: u32, negative: bool, now: nat)
    requires s.actions == [] && !s.Terminal()
    ensures Shape(s, s.OnFileReady(length, negative, now)) && Decided(s.OnFileReady(length, negative, now))
    ensures Shape(s, s.OnSectionReady(length, negative, now)) && Decided(s.OnSectionReady(length, negative, now))
  {
  }

  lemma {:induction false} ReceiverShape(s: Session, nos: u16, chs: byte, data: Bytes, now: nat)
    requires s.actions == [] && !s.Terminal()
    ensures Shape(s, s.OnLastSection(nos, chs, now)) && Decided(s.OnLastSection(nos, chs, now))
    ensures Shape(s, s.OnSegment(data, now)) && Decided(s.OnSegment(data, now))
  {
    hide Fold, Count;
  }

  lemma {:induction false} SelectShape(s: Session, select: SelectAction, now: nat)
    requires s.actions == [] && !s.Terminal()
    ensures Shape(s, s.OnSelectCall(select, now)) && Decided(s.OnSelectCall(select, now))
  {
  }

  lemma {:induction false} SenderShape(s: Session, data: Bytes, ack: AckAction, length: u32, now: nat)
    requires s.actions == [] && !s.Terminal()
    ensures Shape(s, s.OnSegmentReady(data, now)) && Decided(s.OnSegmentReady(data, now))
    ensures Shape(s, s.OnAckFile(ack, now)) && Decided(s.OnAckFile(ack, now))
    ensures Shape(s, s.OnStart(length)) && Decided(s.OnStart(length))
  {
    hide Fold, Count;
  }

  /** A failed session has said so. */
  predicate Decided(d: Session) { d.state == Failed ==> d.actions != [] && d.actions[|d.actions| - 1].Fail? }

  lemma {:induction false} DispatchShape(s: Session, input: Input, now: nat)
    requires s.actions == [] && !s.Terminal()
    ensures var d := s.Dispatch(input, now); Shape(s, d) && Decided(d)
  {
    hide Session.OnStart, Session.OnFileReady, Session.OnSectionReady, Session.OnSelectCall, Session.OnLastSection,
         Session.OnAckFile, Session.OnSegment, Session.OnSegmentReady;
    match input {
      case Received(SelectCall(_, _, select)) => SelectShape(s, select, now);
      case Received(AckFile(_, _, ack)) => SenderShape(s, [], ack, 0, now);
      case Received(FileReady(_, lof, negative)) => ReadyShape(s, lof, negative, now);
      case Received(SectionReady(_, _, los, negative)) => ReadyShape(s, los, negative, now);
      case Received(LastSection(_, nos, chs)) => ReceiverShape(s, nos, chs, [], now);
      case Received(Segment(_, _, data)) => ReceiverShape(s, 0, 0, data, now);
      case SegmentReady(data) => SenderShape(s, data, NoAck, 0, now);
      case Start(length) => SenderShape(s, [], NoAck, length, now);
      case Tick =>
      case Abort => RejectShape(s, Aborted);
    }
  }

  /** The idle timer leaves the call as it is, or adds a failure to one that had no outcome. */
  lemma {:induction false} TimerAdds(d: Session, now: nat)
    ensures var e := d.CheckTimeout(now);
            || (e == d.(lastProgress := e.lastProgress))
            || (!d.Terminal() && e == d.(state := Failed, actions := d.actions + [Fail(Timeout)]))
  {
  }

  /** What the outcomes of a call are, given the state it leaves. */
  ghost predicate Settles(s: Session, e: Session) {
    && e.role == s.role && e.nof == s.nof && e.config == s.config
    && (e.state == Completed ==> Outcomes(e.actions) == [Complete(e.bytes)])
    && (e.state == Failed ==> |Outcomes(e.actions)| == 1 && Outcomes(e.actions)[0].Fail?)
    && (!e.Terminal() ==> Outcomes(e.actions) == [])
  }

  lemma {:induction false} ShapeSettles(s: Session, d: Session)
    requires Shape(s, d) && Decided(d)
    ensures Settles(s, d)
  {
    hide Outcomes, Delivered, Shipped;
    Few(d.actions);
  }

  lemma {:induction false} StepSettles(s: Session, input: Input, now: nat)
    requires s.actions == [] && !s.Terminal()
    ensures Settles(s, s.Step(input, now))
  {
    hide Outcomes, Delivered, Shipped, Session.Dispatch, Session.CheckTimeout;
    var d := s.Dispatch(input, now);
    DispatchShape(s, input, now);
    ShapeSettles(s, d);
    TimerAdds(d, now);
    OneMore(d.actions, Fail(Timeout));
  }

  lemma {:induction false} OneMore(acts: seq<Action>, a: Action)
    ensures Outcomes(acts + [a]) == Outcomes(acts) + OutcomeBy(a)
    ensures Delivered(acts + [a]) == Delivered(acts) + DeliveredBy(a)
    ensures Shipped(acts + [a]) == Shipped(acts) + ShippedBy(a)
    ensures Messages(acts + [a]) == Messages(acts) + MessageBy(a)
  {
    assert (acts + [a])[..|acts|] == acts;
  }

  ghost predicate OutcomeInv(t: Trace) {
    && t.session.actions == [] && |t.outcomes| <= 1
    && (t.session.Terminal() <==> t.outcomes != [])
    && (t.session.state == Completed ==> t.outcomes == [Complete(t.session.bytes)])
    && (t.session.state == Failed ==> t.outcomes[0].Fail?)
  }

  /** A call after the end changes nothing and emits nothing. */
  lemma {:induction false} SilentAfterTheEnd(t: Trace, c: Call)
    requires t.session.Terminal() && t.session.actions == []
    ensures Advance(t, c) == t && t.session.Step(c.input, c.now).actions == []
  {
    assert t.delivered + [] == t.delivered && t.shipped + [] == t.shipped && t.outcomes + [] == t.outcomes;
    assert t.sent + [] == t.sent;
  }

  lemma {:induction false} OutcomeKept(t: Trace, c: Call)
    requires OutcomeInv(t)
    ensures OutcomeInv(Advance(t, c))
  {
    if t.session.Terminal() {
      SilentAfterTheEnd(t, c);
    } else {
      StepSettles(t.session, c.input, c.now);
      hide Session.Step, Outcomes, Delivered, Shipped;
    }
  }

  /**
   * Over every run a session reports at most one outcome, it is in a terminal state exactly when
   * it has, and the outcome is Completed or Failed according to that state.
   */
  lemma {:induction false} OneOutcome(role: Role, nof: u16, config: Config, calls: seq<Call>)
    ensures var t := Run(role, nof, config, calls);
            && |t.outcomes| <= 1 && (t.session.Terminal() <==> t.outcomes != [])
            && (t.session.state == Completed <==> t.outcomes != [] && t.outcomes[0].Complete?)
            && OutcomeInv(t)
  {
    if calls != [] {
      hide Advance;
      OneOutcome(role, nof, config, calls[..|calls| - 1]);
      OutcomeKept(Run(role, nof, config, calls[..|calls| - 1]), calls[|calls| - 1]);
    }
  }

  // ------------------------------------------------------------------
  // What a completed transfer means
  // ------------------------------------------------------------------

  /** The checksum and the counter are those of `data`. */
  ghost predicate Tallied(s: Session, data: Bytes) { s.checksum == Fold(0, data) && s.bytes == Min(|data|, MAX_U32) }

  ghost predicate ReceiverInv(s: Session, delivered: Bytes, closing: Option<byte>) {
    && s.role == Receiver
    && (s.state == RxReceivingSegments || s.Terminal() || (delivered == [] && !s.state.TxSendingSegments?))
    && (s.state == RxReceivingSegments ==> Tallied(s, delivered))
    && (s.state == Completed ==> Tallied(s, delivered) && closing == Some(s.checksum))
  }

  function Closing(c: Call, before: Option<byte>): Option<byte> {
    if c.input.Received? && c.input.message.LastSection? then Some(c.input.message.chs) else before
  }

  function Answer(c: Call, before: Option<AckAction>): Option<AckAction> {
    if c.input.Received? && c.input.message.AckFile? then Some(c.input.message.ack) else before
  }

  /** Where a receiver can go from where it is, when no segment comes. */
  lemma {:induction false} ReceiverMoves(s: Session, c: Call)
    requires s.role == Receiver && s.actions == [] && !s.Terminal()
    requires c.input.Received? && c.input.message.Segment? ==> s.state != RxReceivingSegments
    ensures var d := s.Dispatch(c.input, c.now);
            && (forall i :: 0 <= i < |d.actions| ==> !d.actions[i].DeliverSegment?)
            && (s.state == RxReceivingSegments ==> d.bytes == s.bytes && d.checksum == s.checksum)
            && (d.state == RxReceivingSegments && s.state != RxReceivingSegments ==> d.bytes == 0 && d.checksum == 0)
            && (d.state == Completed ==> s.state == RxReceivingSegments && Closing(c, None) == Some(s.checksum))
            && (d.state == TxSendingSegments ==> s.state == TxSendingSegments)
            && (s.state == RxReceivingSegments ==> d.state == RxReceivingSegments || d.Terminal())
  {
    hide Fold, Count, Session.OnSelectCall, Session.OnAckFile, Session.OnSegmentReady;
    NotSender(s, c);
  }

  lemma NotSender(s: Session, c: Call)
    requires s.role == Receiver
    ensures c.input.Received? && c.input.message.SelectCall? ==>
              s.OnSelectCall(c.input.message.select, c.now) == s.Failing(ProtocolViolation)
    ensures c.input.Received? && c.input.message.AckFile? ==>
              s.OnAckFile(c.input.message.ack, c.now) == s.Failing(ProtocolViolation)
    ensures c.input.SegmentReady? ==> s.OnSegmentReady(c.input.data, c.now) == s
  {
  }

  lemma {:induction false} NothingDelivered(acts: seq<Action>)
    requires |acts| <= 2 && forall i :: 0 <= i < |acts| ==> !acts[i].DeliverSegment?
    ensures Delivered(acts) == []
  {
    Few(acts);
  }

  lemma {:induction false} ReceiverDispatch(s: Session, delivered: Bytes, closing: Option<byte>, c: Call)
    requires s.actions == [] && !s.Terminal() && ReceiverInv(s, delivered, closing) && Short(c)
    ensures var d := s.Dispatch(c.input, c.now); ReceiverInv(d, delivered + Delivered(d.actions), Closing(c, closing))
  {
    hide Delivered, Fold, Count, Tallied, Session.Dispatch;
    var d := s.Dispatch(c.input, c.now);
    DispatchShape(s, c.input, c.now);
    if c.input.Received? && c.input.message.Segment? && s.state == RxReceivingSegments {
      SegmentTallied(s, delivered, c.input.message, c.now);
    } else {
      ReceiverMoves(s, c);
      NothingDelivered(d.actions);
      assert delivered + [] == delivered;
      NothingTallied(d);
      TallySame(s, d, delivered);
    }
  }

  lemma {:induction false} SegmentTallied(s: Session, delivered: Bytes, m: Message, now: nat)
    requires s.role == Receiver && s.state == RxReceivingSegments && s.actions == [] && Tallied(s, delivered)
    requires m.Segment? && |m.data| < 0x1_0000_0000
    ensures var d := s.Dispatch(Received(m), now);
            && d.role == Receiver && d.state == RxReceivingSegments
            && Delivered(d.actions) == m.data && Tallied(d, delivered + m.data)
  {
    hide Tallied, Fold, Count, Delivered;
    var d := s.Dispatch(Received(m), now);
    TallyGrows(s, d, delivered, m.data);
    Few(d.actions);
  }

  lemma TallySame(s: Session, d: Session, data: Bytes)
    ensures s.checksum == d.checksum && s.bytes == d.bytes && Tallied(s, data) ==> Tallied(d, data)
  {
  }

  lemma NothingTallied(s: Session)
    ensures s.checksum == 0 && s.bytes == 0 ==> Tallied(s, [])
  {
  }

  lemma {:induction false} TallyGrows(s: Session, d: Session, data: Bytes, more: Bytes)
    requires Tallied(s, data) && |more| < 0x1_0000_0000
    requires d.checksum == Fold(s.checksum, more) && d.bytes == Count(s.bytes, more)
    ensures Tallied(d, data + more)
  {
    FoldAppend(0, data, more);
    CountAppend(s.bytes, data, more);
  }

  lemma {:induction false} ReceiverStep(t: Trace, c: Call)
    requires t.session.actions == [] && !t.session.Terminal()
    requires ReceiverInv(t.session, t.delivered, t.closing) && Short(c)
    ensures var u := Advance(t, c); ReceiverInv(u.session, u.delivered, u.closing)
  {
    hide Outcomes, Delivered, Shipped, Session.Dispatch, Session.CheckTimeout, Fold, Tallied, Short;
    var d := t.session.Dispatch(c.input, c.now);
    ReceiverDispatch(t.session, t.delivered, t.closing, c);
    OneMore(d.actions, Fail(Timeout));
    TimerAdds(d, c.now);
    TallySame(d, d.CheckTimeout(c.now).(actions := []), t.delivered + Delivered(d.actions));
    assert Delivered(d.actions) + [] == Delivered(d.actions);
  }

  lemma {:induction false} ReceiverKept(t: Trace, c: Call)
    requires OutcomeInv(t) && ReceiverInv(t.session, t.delivered, t.closing) && Short(c)
    ensures var u := Advance(t, c); ReceiverInv(u.session, u.delivered, u.closing)
  {
    hide Advance, ReceiverInv, Short;
    if t.session.Terminal() { SilentAfterTheEnd(t, c); } else { ReceiverStep(t, c); }
  }

  lemma {:induction false} ReceiverAlways(nof: u16, config: Config, calls: seq<Call>)
    requires AllShort(calls)
    ensures var t := Run(Receiver, nof, config, calls); ReceiverInv(t.session, t.delivered, t.closing)
  {
    if calls != [] {
      hide Advance, ReceiverInv, Short;
      ReceiverAlways(nof, config, calls[..|calls| - 1]);
      OneOutcome(Receiver, nof, config, calls[..|calls| - 1]);
      ReceiverKept(Run(Receiver, nof, config, calls[..|calls| - 1]), calls[|calls| - 1]);
    }
  }

  /**
   * A receiver that completes has delivered octets whose sum modulo 256 is the checksum the peer
   * closed the section with, and reports exactly their number (up to the largest u32).
   */
  lemma {:induction false} CompletedMeansDelivered(nof: u16, config: Config, calls: seq<Call>)
    requires AllShort(calls)
    ensures var t := Run(Receiver, nof, config, calls);
            t.session.state == Completed ==>
              && t.closing == Some(Sum(t.delivered) % 0x100)
              && t.outcomes == [Complete(Min(|t.delivered|, MAX_U32))]
  {
    OneOutcome(Receiver, nof, config, calls);
    ReceiverAlways(nof, config, calls);
    hide Run;
  }

  /**
   * And the other way round: a receiver that is collecting segments completes on the closing F_LS
   * if and only if its checksum is that sum, and otherwise reports a mismatch.
   */
  lemma {:induction false} ChecksumDecides(nof: u16, config: Config, calls: seq<Call>, nos: u16, chs: byte, now: nat)
    requires AllShort(calls) && Run(Receiver, nof, config, calls).session.state == RxReceivingSegments
    ensures var t := Run(Receiver, nof, config, calls);
            var u := Advance(t, Call(Received(LastSection(nof, nos, chs)), now));
            && u.delivered == t.delivered
            && u.outcomes == [if chs == Sum(t.delivered) % 0x100 then Complete(Min(|t.delivered|, MAX_U32))
                              else Fail(ChecksumMismatch)]
  {
    hide Run, Sum, Delivered, Shipped, Outcomes, Messages, Session.Step, AllShort;
    OneOutcome(Receiver, nof, config, calls);
    ReceiverAlways(nof, config, calls);
    var t := Run(Receiver, nof, config, calls);
    ClosingStep(t.session, nos, chs, now);
    Few(t.session.Step(Received(LastSection(nof, nos, chs)), now).actions);
    assert t.delivered + [] == t.delivered;
  }

  lemma {:induction false} ClosingStep(s: Session, nos: u16, chs: byte, now: nat)
    requires s.role == Receiver && s.state == RxReceivingSegments && s.actions == []
    ensures forall nof :: s.Step(Received(LastSection(nof, nos, chs)), now).actions ==
                          if chs == s.checksum then [Send(AckFile(s.nof, nos, PositiveFile)), Complete(s.bytes)]
                          else [Send(AckFile(s.nof, nos, NegativeSection)), Fail(ChecksumMismatch)]
  {
  }

  ghost predicate SenderInv(s: Session, shipped: Bytes) {
    && s.role == Sender
    && (s.state == TxSendingSegments || s.state == TxAwaitAck || s.Terminal() || shipped == [])
    && (s.state == TxSendingSegments || s.state == TxAwaitAck || s.state == Completed ==> Tallied(s, shipped))
  }

  /** Where a sender can go from where it is, when the provider hands it no octets. */
  lemma {:induction false} SenderMoves(s: Session, c: Call)
    requires s.role == Sender && s.actions == [] && !s.Terminal()
    requires c.input.SegmentReady? ==> c.input.data == [] || s.state != TxSendingSegments
    ensures var d := s.Dispatch(c.input, c.now);
            var sending := s.state == TxSendingSegments || s.state == TxAwaitAck;
            && (forall i :: 0 <= i < |d.actions| ==> !d.actions[i].Send? || !d.actions[i].message.Segment?)
            && (sending ==> d.bytes == s.bytes && d.checksum == s.checksum)
            && (sending ==> d.Terminal() || d.state == TxSendingSegments || d.state == TxAwaitAck)
            && (!sending && (d.state == TxSendingSegments || d.state == TxAwaitAck) ==> d.bytes == 0 && d.checksum == 0)
            && (d.state == Completed ==> sending)
  {
    hide Fold, Count;
  }

  lemma {:induction false} NothingShipped(acts: seq<Action>)
    requires |acts| <= 2 && forall i :: 0 <= i < |acts| ==> !acts[i].Send? || !acts[i].message.Segment?
    ensures Shipped(acts) == []
  {
    Few(acts);
  }

  lemma {:induction false} ChunkTallied(s: Session, shipped: Bytes, data: Bytes, now: nat)
    requires s.role == Sender && s.state == TxSendingSegments && s.actions == [] && Tallied(s, shipped)
    requires data != [] && |data| < 0x1_0000_0000
    ensures var d := s.Dispatch(SegmentReady(data), now);
            && d.role == Sender && d.state == TxSendingSegments
            && Shipped(d.actions) == data && Tallied(d, shipped + data)
  {
    hide Tallied, Fold, Count, Shipped;
    var d := s.Dispatch(SegmentReady(data), now);
    TallyGrows(s, d, shipped, data);
    Few(d.actions);
  }

  lemma {:induction false} SenderDispatch(s: Session, shipped: Bytes, c: Call)
    requires s.actions == [] && !s.Terminal() && SenderInv(s, shipped) && Short(c)
    ensures var d := s.Dispatch(c.input, c.now); SenderInv(d, shipped + Shipped(d.actions))
  {
    hide Shipped, Fold, Count, Tallied, Session.Dispatch;
    var d := s.Dispatch(c.input, c.now);
    DispatchShape(s, c.input, c.now);
    if c.input.SegmentReady? && s.state == TxSendingSegments && c.input.data != [] {
      ChunkTallied(s, shipped, c.input.data, c.now);
    } else {
      SenderMoves(s, c);
      NothingShipped(d.actions);
      assert shipped + [] == shipped;
      NothingTallied(d);
      TallySame(s, d, shipped);
    }
  }

  lemma {:induction false} SenderStep(t: Trace, c: Call)
    requires t.session.actions == [] && !t.session.Terminal() && SenderInv(t.session, t.shipped) && Short(c)
    ensures var u := Advance(t, c); SenderInv(u.session, u.shipped)
  {
    hide Outcomes, Delivered, Shipped, Session.Dispatch, Session.CheckTimeout, Fold, Tallied, Short;
    var d := t.session.Dispatch(c.input, c.now);
    SenderDispatch(t.session, t.shipped, c);
    OneMore(d.actions, Fail(Timeout));
    TimerAdds(d, c.now);
    TallySame(d, d.CheckTimeout(c.now).(actions := []), t.shipped + Shipped(d.actions));
    assert Shipped(d.actions) + [] == Shipped(d.actions);
  }

  lemma {:induction false} SenderKept(t: Trace, c: Call)
    requires OutcomeInv(t) && SenderInv(t.session, t.shipped) && Short(c)
    ensures var u := Advance(t, c); SenderInv(u.session, u.shipped)
  {
    hide Advance, SenderInv, Short;
    if t.session.Terminal() { SilentAfterTheEnd(t, c); } else { SenderStep(t, c); }
  }

  /** A sender that completes reports exactly the number of octets it put into segments. */
  lemma {:induction false} CompletedMeansShipped(nof: u16, config: Config, calls: seq<Call>)
    requires AllShort(calls)
    ensures var t := Run(Sender, nof, config, calls);
            && SenderInv(t.session, t.shipped)
            && (t.session.state == Completed ==> t.outcomes == [Complete(Min(|t.shipped|, MAX_U32))])
  {
    OneOutcome(Sender, nof, config, calls);
    if calls != [] {
      hide Advance, SenderInv, Short;
      CompletedMeansShipped(nof, config, calls[..|calls| - 1]);
      OneOutcome(Sender, nof, config, calls[..|calls| - 1]);
      SenderKept(Run(Sender, nof, config, calls[..|calls| - 1]), calls[|calls| - 1]);
      SenderTally(Run(Sender, nof, config, calls));
    }
  }

  lemma SenderTally(t: Trace)
    requires SenderInv(t.session, t.shipped) && OutcomeInv(t)
    ensures t.session.state == Completed ==> t.outcomes == [Complete(Min(|t.shipped|, MAX_U32))]
  {
  }
}
