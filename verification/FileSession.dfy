/**
 * One file transfer as a value: what each input does to the fields of a session and which
 * actions it queues. `SessionObject` holds the object that is updated in place.
 */
module FileSession {
  import opened Checksum
  import opened Common

  const MAX_SEGMENT_BYTES: nat := 0xFF
  const DEFAULT_SEGMENT_BYTES: nat := 240
  const MAX_U32: u32 := 0xFFFF_FFFF

  datatype Role = Receiver | Sender
  datatype Reason = Timeout | PeerRejected | LocallyRejected | ChecksumMismatch | ProtocolViolation | Aborted
  datatype State =
    | Idle
    | RxAwaitFileReady | RxAwaitSectionReady | RxReceivingSegments
    | TxAwaitSelect | TxAwaitRequest | TxSendingSegments | TxAwaitAck
    | Completed | Failed

  datatype SelectAction =
    | NoSelect | SelectFile | RequestFile | DeactivateFile | DeleteFile
    | SelectSection | RequestSection | DeactivateSection | OtherSelect(bits: byte)
  datatype AckAction = NoAck | PositiveFile | NegativeFile | PositiveSection | NegativeSection | OtherAck(bits: byte)

  /** The file-transfer ASDUs F_FR, F_SR, F_SC, F_LS, F_AF and F_SG, without their constant object address. */
  datatype Message =
    | FileReady(nof: u16, lof: u32, negative: bool)
    | SectionReady(nof: u16, nos: u16, los: u32, negative: bool)
    | SelectCall(nof: u16, nos: u16, select: SelectAction)
    | LastSection(nof: u16, nos: u16, chs: byte)
    | AckFile(nof: u16, nos: u16, ack: AckAction)
    | Segment(nof: u16, nos: u16, data: Bytes)

  datatype Input = Start(length: u32) | Received(message: Message) | SegmentReady(data: Bytes) | Tick | Abort
  datatype Action =
    | Send(message: Message)
    | RequestNextSegment(maxBytes: nat)
    | DeliverSegment(data: Bytes)
    | Complete(bytes: u32)
    | Fail(reason: Reason)

  datatype Config = Config(maxSegmentBytes: nat, idleTimeout: nat)

  /** The u32 counter after a slice: its length cut to 32 bits, added and saturated. */
  function Count(n: u32, data: Bytes): u32 { Min(n + |data| % 0x1_0000_0000, MAX_U32) }

  datatype Session = Session(
    role: Role,
    nof: u16,
    state: State,
    config: Config,
    fileLength: u32,
    sectionLength: u32,
    bytes: u32,
    checksum: byte,
    lastProgress: Option<nat>,
    awaitingProvider: bool,
    actions: seq<Action>)
  {
    predicate Terminal() { state == Completed || state == Failed }

    function Emit(a: Action): Session { this.(actions := actions + [a]) }

    function Failing(reason: Reason): Session {
      if Terminal() then this else this.(state := Failed).Emit(Fail(reason))
    }

    function Progress(now: nat): Session { this.(lastProgress := Some(now)) }

    function OnStart(length: u32): Session {
      if state != Idle then this else
      match role
      case Receiver => Emit(Send(SelectCall(nof, 0, SelectFile))).(state := RxAwaitFileReady)
      case Sender =>
        this.(fileLength := length, sectionLength := length)
        .Emit(Send(FileReady(nof, length, false))).(state := TxAwaitSelect)
    }

    function OnFileReady(lof: u32, negative: bool, now: nat): Session {
      if role != Receiver then this
      else if state != RxAwaitFileReady then Failing(ProtocolViolation)
      else if negative then Progress(now).Failing(PeerRejected)
      else Progress(now).(fileLength := lof, sectionLength := lof)
           .Emit(Send(SelectCall(nof, 0, RequestFile))).(state := RxAwaitSectionReady)
    }

    function OnSectionReady(los: u32, negative: bool, now: nat): Session {
      if role != Receiver || state != RxAwaitSectionReady then Failing(ProtocolViolation)
      else if negative then Progress(now).Failing(PeerRejected)
      else Progress(now).(sectionLength := los, bytes := 0, checksum := 0, state := RxReceivingSegments)
    }

    function RequestNext(): Session {
      if awaitingProvider then this
      else this.(awaitingProvider := true)
           .Emit(RequestNextSegment(Max(1, Min(config.maxSegmentBytes, MAX_SEGMENT_BYTES))))
    }

    function OnSelectCall(select: SelectAction, now: nat): Session {
      if role != Sender then Failing(ProtocolViolation) else
      var s := Progress(now);
      if (state == Idle || state == TxAwaitSelect) && select == SelectFile
      then s.Emit(Send(FileReady(nof, fileLength, false))).(state := TxAwaitRequest)
      else if state == TxAwaitRequest && select == RequestFile
      then s.(checksum := 0, bytes := 0).Emit(Send(SectionReady(nof, 1, sectionLength, false)))
           .RequestNext().(state := TxSendingSegments)
      else if select == DeactivateFile || select == DeleteFile || select == DeactivateSection then s.Failing(Aborted)
      else s.Failing(ProtocolViolation)
    }

    function OnLastSection(nos: u16, chs: byte, now: nat): Session {
      if role != Receiver || state != RxReceivingSegments then Failing(ProtocolViolation)
      else if chs != checksum
      then Progress(now).Emit(Send(AckFile(nof, nos, NegativeSection))).Failing(ChecksumMismatch)
      else Progress(now).Emit(Send(AckFile(nof, nos, PositiveFile))).(state := Completed).Emit(Complete(bytes))
    }

    function OnAckFile(ack: AckAction, now: nat): Session {
      if role != Sender || state != TxAwaitAck then Failing(ProtocolViolation)
      else if ack == PositiveFile || ack == PositiveSection
      then Progress(now).(state := Completed).Emit(Complete(bytes))
      else Progress(now).Failing(PeerRejected)
    }

    function OnSegment(data: Bytes, now: nat): Session {
      if role != Receiver || state != RxReceivingSegments then Failing(ProtocolViolation)
      else Progress(now).(checksum := Fold(checksum, data), bytes := Count(bytes, data)).Emit(DeliverSegment(data))
    }

    function OnSegmentReady(data: Bytes, now: nat): Session {
      if role != Sender || state != TxSendingSegments then this else
      var s := this.(awaitingProvider := false);
      if data == []
      then s.Emit(Send(LastSection(nof, 1, checksum))).(state := TxAwaitAck).Progress(now)
      else s.(checksum := Fold(checksum, data), bytes := Count(bytes, data)).Progress(now)
           .Emit(Send(Segment(nof, 1, data))).RequestNext()
    }

    function Dispatch(input: Input, now: nat): Session {
      match input
      case Start(length) => OnStart(length)
      case Received(FileReady(_, lof, negative)) => OnFileReady(lof, negative, now)
      case Received(SectionReady(_, _, los, negative)) => OnSectionReady(los, negative, now)
      case Received(SelectCall(_, _, select)) => OnSelectCall(select, now)
      case Received(LastSection(_, nos, chs)) => OnLastSection(nos, chs, now)
      case Received(AckFile(_, _, ack)) => OnAckFile(ack, now)
      case Received(Segment(_, _, data)) => OnSegment(data, now)
      case SegmentReady(data) => OnSegmentReady(data, now)
      case Tick => this
      case Abort => Failing(Aborted)
    }

    function CheckTimeout(now: nat): Session {
      if Terminal() || state == Idle then this
      else if lastProgress.None? then Progress(now)
      else if Elapsed(now, lastProgress.value) >= config.idleTimeout then Failing(Timeout)
      else this
    }

    /** Everything one call does; the actions are still queued in the result. */
    function Step(input: Input, now: nat): Session {
      if Terminal() then this else Dispatch(input, now).CheckTimeout(now)
    }
  }

  function New(role: Role, nof: u16, config: Config): Session {
    Session(role, nof, Idle, config, 0, 0, 0, 0, None, false, [])
  }

  // ------------------------------------------------------------------
  // Counters of concatenated slices
  // ------------------------------------------------------------------

  lemma CountMore(n: nat, data: Bytes)
    requires |data| < 0x1_0000_0000
    ensures Count(Min(n, MAX_U32), data) == Min(n + |data|, MAX_U32)
  {
  }

  lemma {:induction false} CountAppend(n: u32, a: Bytes, b: Bytes)
    requires n == Min(|a|, MAX_U32) && |b| < 0x1_0000_0000
    ensures Count(n, b) == Min(|a + b|, MAX_U32)
  {
  }
}
