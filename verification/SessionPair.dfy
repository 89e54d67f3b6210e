/** How the two ends of a file transfer agree on its outcome, whatever becomes of what the sender sends. */
module SessionPair {
  import opened Checksum
  import opened Common
  import opened FileSession
  import opened SessionRun
  import opened SessionCall

  // ------------------------------------------------------------------
  // The sender and the answer
  // ------------------------------------------------------------------

  predicate Positive(a: AckAction) { a == PositiveFile || a == PositiveSection }

  ghost predicate AnswerInv(t: Trace) {
    && OutcomeInv(t) && t.session.role == Sender
    && (t.session.state == Completed ==> t.answer.Some? && Positive(t.answer.value))
  }

  lemma {:induction false} AnswerKept(t: Trace, c: Call)
    requires AnswerInv(t)
    ensures AnswerInv(Advance(t, c))
    ensures c.input.Received? && c.input.message.AckFile? && !Positive(c.input.message.ack) ==>
              Advance(t, c).session.Terminal()
  {
    hide Delivered, Shipped, Messages, Outcomes, Session.Step, OutcomeInv, Says;
    OutcomeKept(t, c);
    assert t.session.actions == [] by { NothingQueued(t); }
    if t.session.Terminal() {
      SilentAfterTheEnd(t, c);
    } else {
      CallIs(t.session, c);
    }
  }

  lemma NothingQueued(t: Trace)
    requires OutcomeInv(t)
    ensures t.session.actions == []
  {
  }

  /** Over every run a sender has completed only if the last answer it read was positive. */
  lemma {:induction false} CompletedMeansAccepted(nof: u16, config: Config, calls: seq<Call>)
    ensures AnswerInv(Run(Sender, nof, config, calls))
  {
    hide Advance;
    OneOutcome(Sender, nof, config, calls);
    if calls != [] {
      CompletedMeansAccepted(nof, config, calls[..|calls| - 1]);
      AnswerKept(Run(Sender, nof, config, calls[..|calls| - 1]), calls[|calls| - 1]);
    }
  }

  /**
   * And the other way round: a sender that waits for the answer completes if it is positive, reporting
   * the octets it sent, and else reports that the peer has rejected them.
   */
  lemma {:induction false} AnswerDecides(nof: u16, config: Config, calls: seq<Call>, nos: u16, ack: AckAction, now: nat)
    requires AllShort(calls) && Run(Sender, nof, config, calls).session.state == TxAwaitAck
    ensures var t := Run(Sender, nof, config, calls);
            var u := Advance(t, Call(Received(AckFile(nof, nos, ack)), now));
            && u.shipped == t.shipped && u.sent == t.sent
            && u.outcomes == [if Positive(ack) then Complete(Min(|t.shipped|, MAX_U32)) else Fail(PeerRejected)]
  {
    hide Run, Delivered, Shipped, Outcomes, Messages, Session.Step, AllShort;
    CompletedMeansShipped(nof, config, calls);
    OneOutcome(Sender, nof, config, calls);
    var t, c := Run(Sender, nof, config, calls), Call(Received(AckFile(nof, nos, ack)), now);
    AnswerStep(t.session, c);
    Few(t.session.Step(c.input, now).actions);
    assert t.shipped + [] == t.shipped && t.sent + [] == t.sent;
  }

  lemma {:induction false} AnswerStep(s: Session, c: Call)
    requires s.role == Sender && s.state == TxAwaitAck && s.actions == []
    requires c.input.Received? && c.input.message.AckFile?
    ensures s.Step(c.input, c.now).actions ==
            [if Positive(c.input.message.ack) then Complete(s.bytes) else Fail(PeerRejected)]
  {
    hide Session.Step, Count, Sum;
    CallIs(s, c);
  }

  // ------------------------------------------------------------------
  // What a receiver has said
  // ------------------------------------------------------------------

  predicate Opened(nof: u16, sent: seq<Message>) {
    |sent| >= 2 && sent[..2] == [SelectCall(nof, 0, SelectFile), SelectCall(nof, 0, RequestFile)]
  }

  predicate Closed(nof: u16, sent: seq<Message>, ack: AckAction) {
    |sent| == 3 && Opened(nof, sent) && sent[2].AckFile? && sent[2].nof == nof && sent[2].ack == ack
  }

  /** What a receiver in a state has said, the failed one according to whether it failed on the checksum. */
  predicate Said(state: State, nof: u16, sent: seq<Message>, mismatch: bool) {
    match state
    case Idle => sent == []
    case RxAwaitFileReady => sent == [SelectCall(nof, 0, SelectFile)]
    case RxAwaitSectionReady => |sent| == 2 && Opened(nof, sent)
    case RxReceivingSegments => |sent| == 2 && Opened(nof, sent)
    case Completed => Closed(nof, sent, PositiveFile)
    case Failed =>
      if mismatch then Closed(nof, sent, NegativeSection)
      else sent == [] || sent == [SelectCall(nof, 0, SelectFile)] || (|sent| == 2 && Opened(nof, sent))
    case _ => false
  }

  ghost predicate Talk(t: Trace) {
    Said(t.session.state, t.session.nof, t.sent, t.outcomes == [Fail(ChecksumMismatch)])
  }

  ghost predicate ReceiverTalk(t: Trace) { OutcomeInv(t) && t.session.role == Receiver && Talk(t) }

  lemma {:induction false} TakenTalk(s: Session, sent: seq<Message>, c: Call)
    requires s.role == Receiver && s.actions == [] && !s.Terminal() && Said(s.state, s.nof, sent, false)
    requires Taken(s, c.input)
    ensures var d := Handled(s, c);
            && Said(d.state, s.nof, sent + Messages(d.actions), false)
            && Outcomes(d.actions) == (if d.state == Completed then [Complete(s.bytes)] else [])
  {
    hide Handled, Messages, Outcomes, Delivered, Shipped;
    TakenIs(s, c);
    Few(Says(s, c.input));
    assert sent + [] == sent;
  }

  lemma TakenIs(s: Session, c: Call)
    requires s.actions == [] && Taken(s, c.input)
    ensures Handled(s, c).state == NextState(s, c.input) && Handled(s, c).actions == Says(s, c.input)
  {
  }

  lemma {:induction false} RefusedTalk(s: Session, sent: seq<Message>, c: Call)
    requires s.role == Receiver && s.actions == [] && !s.Terminal() && Said(s.state, s.nof, sent, false)
    requires !Taken(s, c.input)
    ensures var d := Handled(s, c);
            && Said(d.state, s.nof, sent + Messages(d.actions), Outcomes(d.actions) == [Fail(ChecksumMismatch)])
            && (!d.Terminal() ==> Outcomes(d.actions) == [])
  {
    hide Messages, Outcomes, Delivered, Shipped, Refusal, Awaited, Negative, Taken;
    var d := Handled(s, c);
    Few(d.actions);
    assert sent + [] == sent;
    MismatchIff(s, c.input);
  }

  lemma MismatchIff(s: Session, input: Input)
    requires s.role == Receiver && !s.Terminal() && !Taken(s, input)
    ensures Refusal(s, input) == Some(ChecksumMismatch) <==>
            input.Received? && Awaited(s, input.message) && input.message.LastSection?
    ensures Refusal(s, input) == Some(ChecksumMismatch) ==> s.state == RxReceivingSegments
  {
  }

  lemma {:induction false} TalkStep(t: Trace, c: Call)
    requires ReceiverTalk(t) && !t.session.Terminal()
    ensures Talk(Advance(t, c))
  {
    hide Delivered, Shipped, Messages, Outcomes, Session.Step, Handled, Timed, Opened, Closed, Taken, Said;
    CallIs(t.session, c);
    var d := Handled(t.session, c);
    if Taken(t.session, c.input) { TakenTalk(t.session, t.sent, c); } else { RefusedTalk(t.session, t.sent, c); }
    assert d.nof == t.session.nof by { NofKept(t.session, c); }
    TimedTalk(d, t.sent, c.now);
    assert [] + Outcomes(Timed(d, c.now).actions) == Outcomes(Timed(d, c.now).actions);
  }

  /** The timer may end the session, and then says no more than that. */
  lemma {:induction false} TimedTalk(d: Session, sent: seq<Message>, now: nat)
    requires Said(d.state, d.nof, sent + Messages(d.actions), Outcomes(d.actions) == [Fail(ChecksumMismatch)])
    requires !d.Terminal() ==> Outcomes(d.actions) == []
    ensures var e := Timed(d, now);
            e.nof == d.nof
            && Said(e.state, d.nof, sent + Messages(e.actions), Outcomes(e.actions) == [Fail(ChecksumMismatch)])
  {
    hide Delivered, Shipped, Messages, Outcomes, Opened, Closed;
    OneMore(d.actions, Fail(Timeout));
    assert Messages(d.actions) + [] == Messages(d.actions) && [] + [Fail(Timeout)] == [Fail(Timeout)];
  }

  lemma NofKept(s: Session, c: Call)
    ensures Handled(s, c).nof == s.nof
  {
  }

  lemma {:induction false} TalkKept(t: Trace, c: Call)
    requires ReceiverTalk(t)
    ensures ReceiverTalk(Advance(t, c))
  {
    hide Advance, Talk, OutcomeInv;
    OutcomeKept(t, c);
    assert t.session.actions == [] by { NothingQueued(t); }
    if t.session.Terminal() { SilentAfterTheEnd(t, c); } else { TalkStep(t, c); }
    assert Advance(t, c).session.role == Receiver by { RoleKept(t, c); }
  }

  lemma {:induction false} RoleKept(t: Trace, c: Call)
    requires t.session.actions == []
    ensures Advance(t, c).session.role == t.session.role
  {
    hide Session.Step, Delivered, Shipped, Outcomes, Messages;
    if t.session.Terminal() { SilentAfterTheEnd(t, c); } else { StepSettles(t.session, c.input, c.now); }
  }

  /** Over every run a receiver has said what its state says, and nothing else. */
  lemma {:induction false} ReceiverTalksInOrder(nof: u16, config: Config, calls: seq<Call>)
    ensures ReceiverTalk(Run(Receiver, nof, config, calls))
  {
    hide Advance;
    if calls != [] {
      ReceiverTalksInOrder(nof, config, calls[..|calls| - 1]);
      TalkKept(Run(Receiver, nof, config, calls[..|calls| - 1]), calls[|calls| - 1]);
    }
  }

  // ------------------------------------------------------------------
  // The two of them
  // ------------------------------------------------------------------

  /**
   * What the receiver sends reaches the sender in order. What the receiver is told, and what else the
   * sender is told, is arbitrary: octets may be altered, messages dropped, repeated or made up.
   */
  datatype Pair = Pair(receiver: Trace, sender: Trace, read: nat)
  datatype Event = ReceiverActs(call: Call) | SenderActs(call: Call) | SenderReads(now: nat)

  function Apply(p: Pair, e: Event): Pair {
    match e
    case ReceiverActs(c) => p.(receiver := Advance(p.receiver, c))
    case SenderActs(c) =>
      if c.input.Received? && c.input.message.AckFile? then p else p.(sender := Advance(p.sender, c))
    case SenderReads(now) =>
      if p.read >= |p.receiver.sent| then p
      else p.(sender := Advance(p.sender, Call(Received(p.receiver.sent[p.read]), now)), read := p.read + 1)
  }

  function RunPair(nof: u16, rc: Config, sc: Config, events: seq<Event>): Pair {
    if events == [] then Pair(Run(Receiver, nof, rc, []), Run(Sender, nof, sc, []), 0)
    else Apply(RunPair(nof, rc, sc, events[..|events| - 1]), events[|events| - 1])
  }

  /** The receiver answered with `ack`, among the first `n` of its messages. */
  predicate Answered(t: Trace, n: nat, ack: AckAction) {
    exists i :: 0 <= i < n && i < |t.sent| && t.sent[i].AckFile? && t.sent[i].ack == ack
  }

  ghost predicate PairInv(p: Pair) {
    && ReceiverTalk(p.receiver) && AnswerInv(p.sender) && p.read <= |p.receiver.sent|
    && (p.sender.answer.Some? ==> Answered(p.receiver, p.read, p.sender.answer.value))
    && (Answered(p.receiver, p.read, NegativeSection) ==> p.sender.session.Terminal())
  }

  lemma {:induction false} SaidStays(t: Trace, c: Call, n: nat, ack: AckAction)
    requires n <= |t.sent|
    ensures n <= |Advance(t, c).sent| && Answered(Advance(t, c), n, ack) == Answered(t, n, ack)
  {
    hide Session.Step, Delivered, Shipped, Outcomes, Messages;
    var u := Advance(t, c);
    assert forall i :: 0 <= i < n ==> u.sent[i] == t.sent[i];
  }

  lemma {:induction false} AnswerIs(t: Trace, c: Call)
    ensures Advance(t, c).answer == t.answer || (c.input.Received? && c.input.message.AckFile?
                                                 && Advance(t, c).answer == Some(c.input.message.ack))
    ensures t.session.Terminal() && t.session.actions == [] ==> Advance(t, c).session.Terminal()
  {
    hide Delivered, Shipped, Outcomes, Messages, Session.Dispatch;
  }

  lemma {:induction false} PairStep(p: Pair, e: Event)
    requires PairInv(p)
    ensures PairInv(Apply(p, e))
  {
    hide Advance, Talk, OutcomeInv, Answered;
    match e {
      case ReceiverActs(c) =>
        TalkKept(p.receiver, c);
        SaidStays(p.receiver, c, p.read, NegativeSection);
        if p.sender.answer.Some? { SaidStays(p.receiver, c, p.read, p.sender.answer.value); }
      case SenderActs(c) =>
        AnswerKept(p.sender, c);
        AnswerIs(p.sender, c);
        NothingQueued(p.sender);
      case SenderReads(now) =>
        if p.read < |p.receiver.sent| { ReadStep(p, now); }
    }
  }

  lemma {:induction false} ReadStep(p: Pair, now: nat)
    requires PairInv(p) && p.read < |p.receiver.sent|
    ensures PairInv(Apply(p, SenderReads(now)))
  {
    hide Advance, Talk, OutcomeInv;
    var m := p.receiver.sent[p.read];
    var c := Call(Received(m), now);
    AnswerKept(p.sender, c);
    AnswerIs(p.sender, c);
    NothingQueued(p.sender);
    SaidMore(p.receiver, p.read, NegativeSection);
    if p.sender.answer.Some? { SaidMore(p.receiver, p.read, p.sender.answer.value); }
    if m.AckFile? { SaidMore(p.receiver, p.read, m.ack); }
  }

  lemma SaidMore(t: Trace, n: nat, ack: AckAction)
    requires n < |t.sent|
    ensures Answered(t, n + 1, ack) <==> Answered(t, n, ack) || (t.sent[n].AckFile? && t.sent[n].ack == ack)
  {
  }

  lemma {:induction false} AlwaysPairInv(nof: u16, rc: Config, sc: Config, events: seq<Event>)
    ensures PairInv(RunPair(nof, rc, sc, events))
  {
    hide Apply, PairInv;
    if events != [] {
      AlwaysPairInv(nof, rc, sc, events[..|events| - 1]);
      PairStep(RunPair(nof, rc, sc, events[..|events| - 1]), events[|events| - 1]);
    } else {
      StartInv(nof, rc, sc);
    }
  }

  lemma StartInv(nof: u16, rc: Config, sc: Config)
    ensures PairInv(RunPair(nof, rc, sc, []))
  {
  }

  /**
   * Over every run of the two: the sender reports success only if the receiver does; and a receiver that
   * finds a wrong checksum leaves the sender failed once its answer is read.
   */
  lemma {:induction false} EndsAgree(nof: u16, rc: Config, sc: Config, events: seq<Event>)
    ensures var p := RunPair(nof, rc, sc, events);
            && (p.sender.session.state == Completed ==> p.receiver.session.state == Completed)
            && (p.receiver.outcomes == [Fail(ChecksumMismatch)] && p.read == |p.receiver.sent| ==>
                  p.sender.session.state == Failed)
  {
    hide RunPair;
    AlwaysPairInv(nof, rc, sc, events);
    var p := RunPair(nof, rc, sc, events);
    if p.sender.session.state == Completed {
      var i :| 0 <= i < p.read && p.receiver.sent[i].AckFile? && p.receiver.sent[i].ack == p.sender.answer.value;
      assert i == 2;
    }
    if p.receiver.outcomes == [Fail(ChecksumMismatch)] && p.read == |p.receiver.sent| {
      assert p.receiver.sent[2].ack == NegativeSection;
      assert Answered(p.receiver, p.read, NegativeSection);
    }
  }
}
