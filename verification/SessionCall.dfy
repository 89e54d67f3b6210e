/** What one call does to a file-transfer session in any state: what it waits for, and what it makes of the rest. */
module SessionCall {
  import opened Checksum
  import opened Common
  import opened FileSession
  import opened SessionRun

  /** The messages a session goes on with. */
  predicate Awaited(s: Session, m: Message) {
    if s.role == Receiver then
      || (s.state == RxAwaitFileReady && m.FileReady?)
      || (s.state == RxAwaitSectionReady && m.SectionReady?)
      || (s.state == RxReceivingSegments && (m.Segment? || m.LastSection?))
    else
      || (s.state in {Idle, TxAwaitSelect} && m.SelectCall? && m.select == SelectFile)
      || (s.state == TxAwaitRequest && m.SelectCall? && m.select == RequestFile)
      || (s.state == TxAwaitAck && m.AckFile?)
  }

  /** An awaited message that ends the transfer badly. */
  predicate Negative(s: Session, m: Message) {
    match m
    case FileReady(_, _, negative) => negative
    case SectionReady(_, _, _, negative) => negative
    case LastSection(_, _, chs) => chs != s.checksum
    case AckFile(_, _, ack) => ack !in {PositiveFile, PositiveSection}
    case _ => false
  }

  /** A sender does not care for announcements. */
  predicate Ignored(s: Session, m: Message) { s.role == Sender && m.FileReady? }

  predicate Withdraws(s: Session, m: Message) {
    s.role == Sender && m.SelectCall? && m.select in {DeactivateFile, DeleteFile, DeactivateSection}
  }

  /** Why an input ends the session, if it does. */
  function Refusal(s: Session, input: Input): Option<Reason> {
    match input
    case Abort => Some(Aborted)
    case Received(m) =>
      if Ignored(s, m) then None
      else if !Awaited(s, m) then Some(if Withdraws(s, m) then Aborted else ProtocolViolation)
      else if Negative(s, m) then Some(if m.LastSection? then ChecksumMismatch else PeerRejected)
      else None
    case _ => None
  }

  /** An input that is for this session's hands in this state. */
  predicate Taken(s: Session, input: Input) {
    match input
    case Start(_) => s.state == Idle
    case Received(m) => Awaited(s, m) && !Negative(s, m)
    case SegmentReady(_) => s.role == Sender && s.state == TxSendingSegments
    case _ => false
  }

  /** The inputs that start the idle timer anew. */
  predicate Progresses(s: Session, input: Input) {
    || (input.Received? && (Awaited(s, input.message) || (s.role == Sender && input.message.SelectCall?)))
    || (input.SegmentReady? && Taken(s, input))
  }

  function NextState(s: Session, input: Input): State
    requires Taken(s, input)
  {
    match input
    case Start(_) => if s.role == Receiver then RxAwaitFileReady else TxAwaitSelect
    case Received(FileReady(_, _, _)) => RxAwaitSectionReady
    case Received(SectionReady(_, _, _, _)) => RxReceivingSegments
    case Received(SelectCall(_, _, select)) => if select == SelectFile then TxAwaitRequest else TxSendingSegments
    case Received(Segment(_, _, _)) => RxReceivingSegments
    case Received(_) => Completed
    case SegmentReady(data) => if data == [] then TxAwaitAck else TxSendingSegments
  }

  /** The provider is asked for the next octets, at least one and at most 255, unless it has been asked already. */
  function Asks(s: Session): seq<Action> {
    if s.awaitingProvider then []
    else [RequestNextSegment(if s.config.maxSegmentBytes == 0 then 1
                             else if s.config.maxSegmentBytes < 255 then s.config.maxSegmentBytes else 255)]
  }

  /** What the session says to the input it takes. */
  function Says(s: Session, input: Input): seq<Action>
    requires Taken(s, input)
  {
    match input
    case Start(length) =>
      [Send(if s.role == Receiver then SelectCall(s.nof, 0, SelectFile) else FileReady(s.nof, length, false))]
    case Received(FileReady(_, _, _)) => [Send(SelectCall(s.nof, 0, RequestFile))]
    case Received(SectionReady(_, _, _, _)) => []
    case Received(SelectCall(_, _, select)) =>
      if select == SelectFile then [Send(FileReady(s.nof, s.fileLength, false))]
      else [Send(SectionReady(s.nof, 1, s.sectionLength, false))] + Asks(s)
    case Received(Segment(_, _, data)) => [DeliverSegment(data)]
    case Received(LastSection(_, nos, _)) => [Send(AckFile(s.nof, nos, PositiveFile)), Complete(s.bytes)]
    case Received(AckFile(_, _, _)) => [Complete(s.bytes)]
    case SegmentReady(data) =>
      if data == [] then [Send(LastSection(s.nof, 1, s.checksum))]
      else [Send(Segment(s.nof, 1, data))] + Asks(s.(awaitingProvider := false))
  }

  /** The octets that the input adds to the tally. */
  function Octets(s: Session, input: Input): Bytes {
    match input
    case SegmentReady(data) => data
    case Received(Segment(_, _, data)) => data
    case _ => []
  }

  /** The tally starts over with a section. */
  predicate StartsOver(s: Session, input: Input) {
    && input.Received?
    && (input.message.SectionReady? || (input.message.SelectCall? && input.message.select == RequestFile))
  }

  /** The session after an input it takes, before the timer. */
  function Moved(s: Session, input: Input): Session
    requires Taken(s, input)
  {
    s.(state := NextState(s, input),
       fileLength := match input
                     case Start(length) => if s.role == Sender then length else s.fileLength
                     case Received(FileReady(_, lof, _)) => lof
                     case _ => s.fileLength,
       sectionLength := match input
                        case Start(length) => if s.role == Sender then length else s.sectionLength
                        case Received(FileReady(_, lof, _)) => lof
                        case Received(SectionReady(_, _, los, _)) => los
                        case _ => s.sectionLength,
       bytes := if StartsOver(s, input) then 0 else Count(s.bytes, Octets(s, input)),
       checksum := if StartsOver(s, input) then 0 else (s.checksum + Sum(Octets(s, input))) % 0x100,
       awaitingProvider := if input.SegmentReady? then input.data != []
                           else s.awaitingProvider || (StartsOver(s, input) && s.role == Sender),
       actions := Says(s, input))
  }

  function Stamped(s: Session, t: Session, c: Call): Session {
    if Progresses(s, c.input) then t.(lastProgress := Some(c.now)) else t
  }

  /** The session once the input is handled. */
  function Handled(s: Session, c: Call): Session {
    Stamped(s,
            if Taken(s, c.input) then Moved(s, c.input)
            else if Refusal(s, c.input).None? then s
            else
              var say := if c.input.Received? && Awaited(s, c.input.message) && c.input.message.LastSection?
                         then [Send(AckFile(s.nof, c.input.message.nos, NegativeSection))] else [];
              s.(state := Failed, actions := say + [Fail(Refusal(s, c.input).value)]),
            c)
  }

  /** The idle timer runs outside Idle: it is started if it was not, and ends what made no progress for too long. */
  function Timed(s: Session, now: nat): Session {
    if s.state in {Completed, Failed, Idle} then s
    else if s.lastProgress.None? then s.(lastProgress := Some(now))
    else if Elapsed(now, s.lastProgress.value) < s.config.idleTimeout then s
    else s.(state := Failed, actions := s.actions + [Fail(Timeout)])
  }

  lemma {:induction false} LocalTaken(s: Session, c: Call)
    requires s.actions == [] && !s.Terminal() && Taken(s, c.input) && !c.input.Received?
    ensures s.Dispatch(c.input, c.now) == Handled(s, c)
  {
    hide Sum;
    NoOctets();
  }

  lemma {:induction false} ReceiverTaken(s: Session, c: Call)
    requires s.actions == [] && !s.Terminal() && Taken(s, c.input) && c.input.Received? && s.role == Receiver
    ensures s.Dispatch(c.input, c.now) == Handled(s, c)
  {
    hide Sum, Session.OnSelectCall, Session.OnAckFile, Session.OnSegmentReady;
    NoOctets();
  }

  lemma {:induction false} SenderTaken(s: Session, c: Call)
    requires s.actions == [] && !s.Terminal() && Taken(s, c.input) && c.input.Received? && s.role == Sender
    ensures s.Dispatch(c.input, c.now) == Handled(s, c)
  {
    hide Sum, Session.OnSegment, Session.OnFileReady, Session.OnSectionReady, Session.OnLastSection;
    NoOctets();
  }

  lemma NoOctets()
    ensures Sum([]) == 0
  {
  }

  lemma {:induction false} RefusedCall(s: Session, c: Call)
    requires s.actions == [] && !s.Terminal() && !Taken(s, c.input)
    ensures s.Dispatch(c.input, c.now) == Handled(s, c)
  {
    hide Session.OnStart, Session.OnSegmentReady, Session.OnSelectCall, Session.OnFileReady, Session.OnSectionReady,
         Session.OnSegment, Session.OnLastSection, Session.OnAckFile;
    if c.input.Received? {
      if s.role == Receiver { ReceiverRefuses(s, c); } else { SenderRefuses(s, c); }
    } else {
      LocalRefused(s, c);
    }
  }

  lemma {:induction false} LocalRefused(s: Session, c: Call)
    requires s.actions == [] && !s.Terminal() && !Taken(s, c.input) && !c.input.Received?
    ensures s.Dispatch(c.input, c.now) == Handled(s, c)
  {
    hide Fold, Count, Moved;
  }

  lemma {:induction false} ReceiverRefuses(s: Session, c: Call)
    requires s.actions == [] && !s.Terminal() && !Taken(s, c.input) && c.input.Received? && s.role == Receiver
    ensures s.Dispatch(c.input, c.now) == Handled(s, c)
  {
    hide Fold, Count, Moved;
  }

  lemma {:induction false} SenderRefuses(s: Session, c: Call)
    requires s.actions == [] && !s.Terminal() && !Taken(s, c.input) && c.input.Received? && s.role == Sender
    ensures s.Dispatch(c.input, c.now) == Handled(s, c)
  {
    hide Fold, Count, Moved;
  }

  /** In every state that is not the end, for every input and every clock. */
  lemma {:induction false} CallIs(s: Session, c: Call)
    requires s.actions == [] && !s.Terminal()
    ensures s.Step(c.input, c.now) == Timed(Handled(s, c), c.now)
  {
    hide Session.Dispatch, Handled;
    if !Taken(s, c.input) { RefusedCall(s, c); }
    else if !c.input.Received? { LocalTaken(s, c); }
    else if s.role == Receiver { ReceiverTaken(s, c); } else { SenderTaken(s, c); }
  }
}
