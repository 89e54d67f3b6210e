/** What the file-transfer service makes of a message: whom it opens a session for, and what it keeps of it. */
module ServiceLaws {
  import opened Checksum
  import opened Common
  import opened FileSession
  import opened FileService
  import opened SessionRun
  import opened SessionCall

  // ------------------------------------------------------------------
  // Performing what a session asks for
  // ------------------------------------------------------------------

  predicate Ends(a: Action) { a.Complete? || a.Fail? }

  /** Nothing is asked of the provider, and an outcome comes last. */
  predicate Plain(acts: seq<Action>) {
    forall i :: 0 <= i < |acts| ==> !acts[i].RequestNextSegment? && (i < |acts| - 1 ==> !Ends(acts[i]))
  }

  lemma {:induction false} MessagesFromFront(a: Action, rest: seq<Action>)
    ensures Messages([a] + rest) == MessageBy(a) + Messages(rest)
  {
    hide MessageBy;
    if rest == [] {
      assert [a] + rest == [a] && [a][..0] == [];
    } else {
      var n := |rest| - 1;
      MessagesFromFront(a, rest[..n]);
      assert ([a] + rest)[..n + 1] == [a] + rest[..n];
    }
  }

  lemma {:induction false} DeliveredFromFront(a: Action, rest: seq<Action>)
    ensures Delivered([a] + rest) == DeliveredBy(a) + Delivered(rest)
  {
    if rest == [] {
      assert [a] + rest == [a] && [a][..0] == [];
    } else {
      var n := |rest| - 1;
      DeliveredFromFront(a, rest[..n]);
      assert ([a] + rest)[..n + 1] == [a] + rest[..n];
    }
  }

  /** The desk after it: what was sent is sent, what was delivered is written, an outcome is reported once. */
  function Performed(x: Desk, acts: seq<Action>): Desk
    requires x.active.Some?
  {
    var a := x.active.value;
    var written := if a.writer.None? then None else Some(a.writer.value + Delivered(acts));
    var sent := x.sent + Messages(acts);
    if acts != [] && Ends(acts[|acts| - 1])
    then Desk(None, sent, x.finished + [Finished(acts[|acts| - 1], written)])
    else Desk(Some(a.(writer := written)), sent, x.finished)
  }

  lemma {:induction false} Drained(x: Desk, acts: seq<Action>, now: nat)
    requires Clean(x) && x.active.Some? && Plain(acts)
    ensures Drain(x, acts, now) == Performed(x, acts)
    decreases |acts|
  {
    hide Drain, Delivered, Messages, Performed, Perform, Clean;
    if acts == [] {
      DrainNothing(x, now);
      NothingPerformed(x);
    } else {
      var a, rest := acts[0], acts[1..];
      assert acts == [a] + rest;
      DrainNext(x, a, rest, now);
      var y := Perform(x, a, now).0;
      Asks(x, a, now);
      assert rest + [] == rest;
      if Ends(a) {
        assert rest == [] && acts == [a];
        DrainNothing(y, now);
        EndPerformed(x, a, now);
      } else {
        Regrouped(x, y, a, rest, now);
        Drained(y, rest, now);
      }
    }
  }

  lemma Asks(x: Desk, a: Action, now: nat)
    requires !a.RequestNextSegment?
    ensures Perform(x, a, now).1 == []
  {
  }

  lemma {:induction false} NothingPerformed(x: Desk)
    requires x.active.Some?
    ensures Performed(x, []) == x
  {
    hide Messages, Delivered;
    Few([]);
    assert x.sent + [] == x.sent;
    if x.active.value.writer.Some? { assert x.active.value.writer.value + [] == x.active.value.writer.value; }
  }

  lemma {:induction false} EndPerformed(x: Desk, a: Action, now: nat)
    requires x.active.Some? && Ends(a)
    ensures Perform(x, a, now).0 == Performed(x, [a])
  {
    hide Messages, Delivered;
    Few([a]);
    assert x.sent + [] == x.sent;
    if x.active.value.writer.Some? { assert x.active.value.writer.value + [] == x.active.value.writer.value; }
  }

  lemma DrainNothing(x: Desk, now: nat)
    requires Clean(x)
    ensures Drain(x, [], now) == x
  {
  }

  lemma {:induction false} Regrouped(x: Desk, y: Desk, a: Action, rest: seq<Action>, now: nat)
    requires x.active.Some? && !Ends(a) && !a.RequestNextSegment? && y == Perform(x, a, now).0
    ensures y.active.Some? && Performed(y, rest) == Performed(x, [a] + rest)
  {
    MessagesFromFront(a, rest);
    DeliveredFromFront(a, rest);
    hide Messages, Delivered;
    assert x.sent + (MessageBy(a) + Messages(rest)) == x.sent + MessageBy(a) + Messages(rest);
    assert x.sent + [] == x.sent;
    if x.active.value.writer.Some? {
      var w := x.active.value.writer.value;
      assert w + (DeliveredBy(a) + Delivered(rest)) == w + DeliveredBy(a) + Delivered(rest) && w + [] == w;
    }
    assert rest != [] ==> ([a] + rest)[|rest|] == rest[|rest| - 1];
  }

  // ------------------------------------------------------------------
  // Calls
  // ------------------------------------------------------------------

  /** The desk whose session takes a call and then does what `acts` say. */
  function Stepped(x: Desk, d: Session): Desk
    requires x.active.Some?
  {
    x.(active := Some(x.active.value.(session := d.(actions := []))))
  }

  lemma {:induction false} CallIsPlain(s: Session, c: Call)
    requires s.actions == [] && !s.Terminal()
    requires !c.input.SegmentReady? && !(s.role == Sender && c.input.Received? && StartsOver(s, c.input))
    ensures Plain(s.Step(c.input, c.now).actions)
  {
    hide Handled, Session.Step;
    CallIs(s, c);
    PlainHandled(s, c);
  }

  lemma {:induction false} PlainHandled(s: Session, c: Call)
    requires s.actions == [] && !s.Terminal()
    requires !c.input.SegmentReady? && !(s.role == Sender && c.input.Received? && StartsOver(s, c.input))
    ensures var h := Handled(s, c);
            Plain(h.actions) && (!h.Terminal() ==> forall i :: 0 <= i < |h.actions| ==> !Ends(h.actions[i]))
  {
    hide Moved, Says, NextState;
    if Taken(s, c.input) { TakenPlain(s, c.input); }
  }

  lemma {:induction false} TakenPlain(s: Session, input: Input)
    requires s.actions == [] && !s.Terminal() && Taken(s, input)
    requires !input.SegmentReady? && !(s.role == Sender && input.Received? && StartsOver(s, input))
    ensures var h := Moved(s, input);
            Plain(h.actions) && (!h.Terminal() ==> forall i :: 0 <= i < |h.actions| ==> !Ends(h.actions[i]))
  {
    hide Sum, Count;
  }

  /**
   * Every message to a session, and every tick, unless it asks a sender for its file: what the session
   * sends is sent, what it delivers is written behind what was written before, and its outcome removes
   * it and is reported once, with all that was written.
   */
  lemma {:induction false} SessionServed(x: Desk, input: Input, p: Provider, now: nat)
    requires Clean(x) && x.active.Some? && !x.active.value.session.Terminal()
    requires input.Received? || input == FileSession.Tick
    requires var s := x.active.value.session;
             !(s.role == Sender && input.Received? && StartsOver(s, input))
    ensures var d := x.active.value.session.Step(input, now);
            (if input.Received? then Incoming(x, input.message, p, now) else TickDesk(x, now)) ==
            Performed(Stepped(x, d), d.actions)
  {
    hide Drain, Session.Step, Performed, Plain;
    var s := x.active.value.session;
    CallIsPlain(s, Call(input, now));
    Drained(Stepped(x, s.Step(input, now)), s.Step(input, now).actions, now);
  }

  // ------------------------------------------------------------------
  // The first message
  // ------------------------------------------------------------------

  /** A message that opens a session: an announcement within the limit that can be stored, or a call for a file. */
  predicate Opens(m: Message, p: Provider) {
    !p.full && ((m.FileReady? && m.lof <= p.maxInbound && p.writable) || (m.SelectCall? && p.file.Some?))
  }

  /**
   * With no session under its key: a message that opens none is ignored. An announcement opens a
   * receiver that fails at once. A select is answered with the announcement of the file, by a sender
   * that then waits for the request; any other call opens a sender that fails at once.
   */
  lemma {:induction false} FirstContact(x: Desk, m: Message, p: Provider, now: nat)
    requires x.active.None? && p.config.idleTimeout > 0
    ensures var y := Incoming(x, m, p, now);
            if !Opens(m, p) then y == x
            else if m.FileReady? then
              y == x.(finished := x.finished + [Finished(Fail(ProtocolViolation), Some([]))])
            else if m.select == SelectFile then
              var s := Session(Sender, m.nof, TxAwaitRequest, p.config, p.file.value.length, p.file.value.length, 0, 0,
                               Some(now), false, []);
              && y.active == Some(Active(s, Some(p.file.value.chunks), None)) && y.finished == x.finished
              && y.sent == x.sent + [FileReady(m.nof, p.file.value.length, false)]
            else
              var withdrawn := m.select in {DeactivateFile, DeleteFile, DeactivateSection};
              y == x.(finished := x.finished
                                  + [Finished(Fail(if withdrawn then Aborted else ProtocolViolation), None)])
  {
    hide Incoming;
    if !Opens(m, p) {
      Refused(x, m, p, now);
    } else if m.FileReady? {
      PushContact(x, m, p, now);
    } else if m.select == SelectFile {
      SelectContact(x, m, p, now);
    } else {
      OtherContact(x, m, p, now);
    }
  }

  lemma Refused(x: Desk, m: Message, p: Provider, now: nat)
    requires x.active.None? && !Opens(m, p)
    ensures Incoming(x, m, p, now) == x
  {
  }

  lemma {:induction false} PushContact(x: Desk, m: Message, p: Provider, now: nat)
    requires x.active.None? && Opens(m, p) && m.FileReady?
    ensures Incoming(x, m, p, now) == x.(finished := x.finished + [Finished(Fail(ProtocolViolation), Some([]))])
  {
    hide Drain, Delivered, Messages, Performed;
    var s := New(Receiver, m.nof, p.config);
    assert s.Step(Received(m), now) == s.(state := Failed, actions := [Fail(ProtocolViolation)]);
    var y := x.(active := Some(Active(s.(state := Failed), None, Some([]))));
    Drained(y, [Fail(ProtocolViolation)], now);
    FailsAlone(y, ProtocolViolation);
  }

  lemma {:induction false} FailsAlone(x: Desk, reason: Reason)
    requires x.active.Some?
    ensures Performed(x, [Fail(reason)]) ==
            Desk(None, x.sent, x.finished + [Finished(Fail(reason), x.active.value.writer)])
  {
    hide Delivered, Messages;
    Few([Fail(reason)]);
    assert x.sent + [] == x.sent;
    if x.active.value.writer.Some? { assert x.active.value.writer.value + [] == x.active.value.writer.value; }
  }

  /** The sender that a call opens. */
  function Called(nof: u16, p: Provider, now: nat): Session
    requires p.file.Some?
  {
    Session(Sender, nof, TxAwaitSelect, p.config, p.file.value.length, p.file.value.length, 0, 0, Some(now), false, [])
  }

  lemma {:induction false} CallOpens(nof: u16, p: Provider, now: nat)
    requires p.file.Some?
    ensures OpenedSender(nof, p, now) == Called(nof, p, now)
  {
  }

  lemma {:induction false} SelectTaken(s: Session, m: Message, now: nat)
    requires s.role == Sender && s.state == TxAwaitSelect && s.actions == [] && s.config.idleTimeout > 0
    requires m.SelectCall? && m.select == SelectFile
    ensures s.Step(Received(m), now) == s.(state := TxAwaitRequest, lastProgress := Some(now),
                                           actions := [Send(FileReady(s.nof, s.fileLength, false))])
  {
  }

  lemma {:induction false} OtherRefused(s: Session, m: Message, now: nat)
    requires s.role == Sender && s.state == TxAwaitSelect && s.actions == []
    requires m.SelectCall? && m.select != SelectFile
    ensures var withdrawn := m.select in {DeactivateFile, DeleteFile, DeactivateSection};
            var why := if withdrawn then Aborted else ProtocolViolation;
            s.Step(Received(m), now) == s.(state := Failed, lastProgress := Some(now), actions := [Fail(why)])
  {
  }

  lemma {:induction false} SelectContact(x: Desk, m: Message, p: Provider, now: nat)
    requires x.active.None? && Opens(m, p) && m.SelectCall? && m.select == SelectFile && p.config.idleTimeout > 0
    ensures Incoming(x, m, p, now) ==
            Desk(Some(Active(Called(m.nof, p, now).(state := TxAwaitRequest), Some(p.file.value.chunks), None)),
                 x.sent + [FileReady(m.nof, p.file.value.length, false)], x.finished)
  {
    hide Drain, Delivered, Messages;
    var s, say := Called(m.nof, p, now), Send(FileReady(m.nof, p.file.value.length, false));
    CallOpens(m.nof, p, now);
    SelectTaken(s, m, now);
    hide Session.Step, OpenedSender;
    Drained(x.(active := Some(Active(s.(state := TxAwaitRequest), Some(p.file.value.chunks), None))), [say], now);
    Few([say]);
  }

  lemma {:induction false} OtherContact(x: Desk, m: Message, p: Provider, now: nat)
    requires x.active.None? && Opens(m, p) && m.SelectCall? && m.select != SelectFile && p.config.idleTimeout > 0
    ensures var withdrawn := m.select in {DeactivateFile, DeleteFile, DeactivateSection};
            Incoming(x, m, p, now) ==
            x.(finished := x.finished + [Finished(Fail(if withdrawn then Aborted else ProtocolViolation), None)])
  {
    hide Drain, Delivered, Messages, Performed;
    var s := Called(m.nof, p, now);
    var why := if m.select in {DeactivateFile, DeleteFile, DeactivateSection} then Aborted else ProtocolViolation;
    CallOpens(m.nof, p, now);
    OtherRefused(s, m, now);
    hide Session.Step, OpenedSender;
    var y := x.(active := Some(Active(s.(state := Failed), Some(p.file.value.chunks), None)));
    Drained(y, [Fail(why)], now);
    FailsAlone(y, why);
  }
}
