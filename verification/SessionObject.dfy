/**
 * The file-transfer session object. It carries its history as a ghost, keeps the invariants of
 * `SessionRun` on it, and its public entry says what a call adds to that history and what an outcome
 * means. The handlers below `Step` are proved to do to the fields what `FileSession` says.
 */
module SessionObject {
  import opened Checksum
  import opened Common
  import F = FileSession
  import R = SessionRun
  import C = SessionCall
  import P = SessionPair

  class Session {
    const role: F.Role
    const nof: u16
    const config: F.Config
    var state: F.State
    var fileLength: u32
    var sectionLength: u32
    var bytesTransferred: u32
    var sectionChecksum: byte
    var lastProgress: Option<nat>
    var awaitingProvider: bool
    var actions: seq<F.Action>

    /** What went through the object so far, and whether no slice of it had 2^32 octets or more. */
    ghost var past: R.Trace
    ghost var short: bool

    /** The object is where its history has brought it, and the history is accounted for. */
    ghost predicate Valid()
      reads this
    {
      past.session == View() && Kept(past, short)
    }

    ghost function View(): F.Session
      reads this
    {
      F.Session(role, nof, state, config, fileLength, sectionLength, bytesTransferred, sectionChecksum,
                lastProgress, awaitingProvider, actions)
    }

    constructor (role: F.Role, nof: u16, config: F.Config)
      ensures Valid() && past == R.Run(role, nof, config, []) && short
    {
      this.role, this.nof, this.config := role, nof, config;
      state, fileLength, sectionLength, bytesTransferred, sectionChecksum := F.Idle, 0, 0, 0, 0;
      lastProgress, awaitingProvider, actions := None, false, [];
      past := R.Run(role, nof, config, []);
      short := true;
    }

    predicate IsTerminal()
      reads this
    {
      state == F.Completed || state == F.Failed
    }

    /**
     * The histories grow by exactly the returned actions. There is at most one outcome, after it
     * nothing happens any more, and a completed transfer has reported the octets it moved, which for
     * a receiver sum up to the checksum the peer closed the section with, and for a sender were
     * accepted by the last answer. Before the end each call does what `SessionCall` says.
     */
    method Step(input: F.Input, now: nat) returns (acts: seq<F.Action>)
      requires Valid()
      modifies this
      ensures Valid() && past == R.Advance(old(past), R.Call(input, now))
      ensures short <==> old(short) && R.Short(R.Call(input, now))
      ensures past.delivered == old(past.delivered) + R.Delivered(acts)
      ensures past.shipped == old(past.shipped) + R.Shipped(acts)
      ensures past.outcomes == old(past.outcomes) + R.Outcomes(acts) && |past.outcomes| <= 1
      ensures IsTerminal() <==> past.outcomes != []
      ensures old(IsTerminal()) ==> acts == [] && View() == old(View())
      ensures short && state == F.Completed && role == F.Receiver ==>
                && past.closing == Some(Sum(past.delivered) % 0x100)
                && past.outcomes == [F.Complete(Min(|past.delivered|, F.MAX_U32))]
      ensures short && state == F.Completed && role == F.Sender ==>
                past.outcomes == [F.Complete(Min(|past.shipped|, F.MAX_U32))]
      ensures state == F.Completed && role == F.Sender ==> past.answer.Some? && P.Positive(past.answer.value)
      ensures !old(IsTerminal()) ==>
                var d := C.Timed(C.Handled(old(View()), R.Call(input, now)), now);
                acts == d.actions && View() == d.(actions := [])
    {
      hide C.Handled, C.Timed, F.Session.Step, R.Delivered, R.Shipped, R.Outcomes, Sum;
      ghost var was := past;
      ghost var wasShort := short;
      acts := Drive(input, now);
      CallIs(was, wasShort, R.Call(input, now));
      if !was.session.Terminal() { C.CallIs(was.session, R.Call(input, now)); }
      past := R.Advance(was, R.Call(input, now));
      short := wasShort && R.Short(R.Call(input, now));
      Meaning(past, short);
    }

    /** One pass of the state machine: the input, the idle timer, and the actions they queued. */
    method Drive(input: F.Input, now: nat) returns (acts: seq<F.Action>)
      requires actions == []
      modifies this
      ensures acts == old(View()).Step(input, now).actions
      ensures View() == old(View()).Step(input, now).(actions := [])
    {
      if IsTerminal() { return []; }
      match input {
        case Start(length) => OnStart(length);
        case Received(FileReady(_, lof, negative)) => OnFileReady(lof, negative, now);
        case Received(SectionReady(_, _, los, negative)) => OnSectionReady(los, negative, now);
        case Received(SelectCall(_, _, select)) => OnSelectCall(select, now);
        case Received(LastSection(_, nos, chs)) => OnLastSection(nos, chs, now);
        case Received(AckFile(_, _, ack)) => OnAckFile(ack, now);
        case Received(Segment(_, _, data)) => OnSegment(data, now);
        case SegmentReady(data) => OnSegmentReady(data, now);
        case Tick =>
        case Abort => Failing(F.Aborted);
      }
      CheckTimeout(now);
      acts, actions := actions, [];
    }

    method OnStart(length: u32)
      modifies this
      ensures View() == old(View()).OnStart(length)
    {
      if state != F.Idle { return; }
      match role {
        case Receiver =>
          Emit(F.Send(F.SelectCall(nof, 0, F.SelectFile)));
          state := F.RxAwaitFileReady;
        case Sender =>
          fileLength, sectionLength := length, length;
          Emit(F.Send(F.FileReady(nof, length, false)));
          state := F.TxAwaitSelect;
      }
    }

    method OnFileReady(lof: u32, negative: bool, now: nat)
      modifies this
      ensures View() == old(View()).OnFileReady(lof, negative, now)
    {
      if role != F.Receiver { return; }
      if state != F.RxAwaitFileReady {
        Failing(F.ProtocolViolation);
        return;
      }
      lastProgress := Some(now);
      if negative {
        Failing(F.PeerRejected);
        return;
      }
      fileLength, sectionLength := lof, lof;
      Emit(F.Send(F.SelectCall(nof, 0, F.RequestFile)));
      state := F.RxAwaitSectionReady;
    }

    method OnSectionReady(los: u32, negative: bool, now: nat)
      modifies this
      ensures View() == old(View()).OnSectionReady(los, negative, now)
    {
      if role != F.Receiver || state != F.RxAwaitSectionReady {
        Failing(F.ProtocolViolation);
        return;
      }
      lastProgress := Some(now);
      if negative {
        Failing(F.PeerRejected);
        return;
      }
      sectionLength, bytesTransferred, sectionChecksum := los, 0, 0;
      state := F.RxReceivingSegments;
    }

    method OnSelectCall(select: F.SelectAction, now: nat)
      modifies this
      ensures View() == old(View()).OnSelectCall(select, now)
    {
      if role != F.Sender {
        Failing(F.ProtocolViolation);
        return;
      }
      lastProgress := Some(now);
      if (state == F.Idle || state == F.TxAwaitSelect) && select == F.SelectFile {
        Emit(F.Send(F.FileReady(nof, fileLength, false)));
        state := F.TxAwaitRequest;
      } else if state == F.TxAwaitRequest && select == F.RequestFile {
        sectionChecksum, bytesTransferred := 0, 0;
        Emit(F.Send(F.SectionReady(nof, 1, sectionLength, false)));
        RequestNextSegment();
        state := F.TxSendingSegments;
      } else if select == F.DeactivateFile || select == F.DeleteFile || select == F.DeactivateSection {
        Failing(F.Aborted);
      } else {
        Failing(F.ProtocolViolation);
      }
    }

    method OnLastSection(nos: u16, chs: byte, now: nat)
      modifies this
      ensures View() == old(View()).OnLastSection(nos, chs, now)
    {
      if role != F.Receiver || state != F.RxReceivingSegments {
        Failing(F.ProtocolViolation);
        return;
      }
      lastProgress := Some(now);
      if chs != sectionChecksum {
        Emit(F.Send(F.AckFile(nof, nos, F.NegativeSection)));
        Failing(F.ChecksumMismatch);
        return;
      }
      Emit(F.Send(F.AckFile(nof, nos, F.PositiveFile)));
      state := F.Completed;
      Emit(F.Complete(bytesTransferred));
    }

    method OnAckFile(ack: F.AckAction, now: nat)
      modifies this
      ensures View() == old(View()).OnAckFile(ack, now)
    {
      if role != F.Sender || state != F.TxAwaitAck {
        Failing(F.ProtocolViolation);
        return;
      }
      lastProgress := Some(now);
      if ack == F.PositiveFile || ack == F.PositiveSection {
        state := F.Completed;
        Emit(F.Complete(bytesTransferred));
      } else {
        Failing(F.PeerRejected);
      }
    }

    method OnSegment(data: Bytes, now: nat)
      modifies this
      ensures View() == old(View()).OnSegment(data, now)
    {
      if role != F.Receiver || state != F.RxReceivingSegments {
        Failing(F.ProtocolViolation);
        return;
      }
      lastProgress := Some(now);
      sectionChecksum := UpdateSlice(sectionChecksum, data);
      bytesTransferred := F.Count(bytesTransferred, data);
      Emit(F.DeliverSegment(data));
    }

    method OnSegmentReady(data: Bytes, now: nat)
      modifies this
      ensures View() == old(View()).OnSegmentReady(data, now)
    {
      if role != F.Sender || state != F.TxSendingSegments { return; }
      awaitingProvider := false;
      if data == [] {
        Emit(F.Send(F.LastSection(nof, 1, sectionChecksum)));
        state := F.TxAwaitAck;
        lastProgress := Some(now);
        return;
      }
      sectionChecksum := UpdateSlice(sectionChecksum, data);
      bytesTransferred := F.Count(bytesTransferred, data);
      lastProgress := Some(now);
      Emit(F.Send(F.Segment(nof, 1, data)));
      RequestNextSegment();
    }

    method RequestNextSegment()
      modifies this`awaitingProvider, this`actions
      ensures View() == old(View()).RequestNext()
    {
      if awaitingProvider { return; }
      awaitingProvider := true;
      Emit(F.RequestNextSegment(Max(1, Min(config.maxSegmentBytes, F.MAX_SEGMENT_BYTES))));
    }

    method CheckTimeout(now: nat)
      modifies this
      ensures View() == old(View()).CheckTimeout(now)
    {
      if IsTerminal() || state == F.Idle { return; }
      if lastProgress.Some? {
        if Elapsed(now, lastProgress.value) >= config.idleTimeout { Failing(F.Timeout); }
      } else {
        lastProgress := Some(now);
      }
    }

    method Failing(reason: F.Reason)
      modifies this`state, this`actions
      ensures View() == old(View()).Failing(reason)
    {
      if IsTerminal() { return; }
      state := F.Failed;
      Emit(F.Fail(reason));
    }

    method Emit(a: F.Action)
      modifies this`actions
      ensures View() == old(View()).Emit(a)
    {
      actions := actions + [a];
    }
  }

  /** The invariants of a run; the tallies are exact while slices stay below 2^32 octets. */
  ghost predicate Kept(t: R.Trace, short: bool) {
    && R.OutcomeInv(t)
    && (t.session.role == F.Sender ==> P.AnswerInv(t))
    && (short ==> if t.session.role == F.Receiver then R.ReceiverInv(t.session, t.delivered, t.closing)
                  else R.SenderInv(t.session, t.shipped))
  }

  lemma {:induction false} CallIs(t: R.Trace, short: bool, c: R.Call)
    requires Kept(t, short)
    ensures Kept(R.Advance(t, c), short && R.Short(c))
    ensures t.session.Terminal() ==> R.Advance(t, c) == t && t.session.Step(c.input, c.now).actions == []
  {
    hide R.Advance, R.Short, R.ReceiverInv, R.SenderInv, P.AnswerInv;
    R.OutcomeKept(t, c);
    if t.session.role == F.Sender { P.AnswerKept(t, c); }
    if t.session.Terminal() { R.SilentAfterTheEnd(t, c); }
    if short && R.Short(c) {
      if t.session.role == F.Receiver { R.ReceiverKept(t, c); } else { R.SenderKept(t, c); }
    }
    assert R.Advance(t, c).session.role == t.session.role by { RoleKept(t, c); }
  }

  lemma {:induction false} RoleKept(t: R.Trace, c: R.Call)
    requires t.session.actions == []
    ensures R.Advance(t, c).session.role == t.session.role
  {
    hide F.Session.Step, R.Delivered, R.Shipped, R.Outcomes;
    if t.session.Terminal() { R.SilentAfterTheEnd(t, c); } else { R.StepSettles(t.session, c.input, c.now); }
  }

  lemma {:induction false} Meaning(t: R.Trace, short: bool)
    requires Kept(t, short)
    ensures |t.outcomes| <= 1 && (t.session.Terminal() <==> t.outcomes != [])
    ensures short && t.session.state == F.Completed && t.session.role == F.Receiver ==>
              t.closing == Some(Sum(t.delivered) % 0x100) && t.outcomes == [F.Complete(Min(|t.delivered|, F.MAX_U32))]
    ensures short && t.session.state == F.Completed && t.session.role == F.Sender ==>
              t.outcomes == [F.Complete(Min(|t.shipped|, F.MAX_U32))]
    ensures t.session.state == F.Completed && t.session.role == F.Sender ==>
              t.answer.Some? && P.Positive(t.answer.value)
  {
  }
}
