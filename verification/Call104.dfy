/**
 * One call of a 104 connection in any state: every field it leaves and every action it returns, in
 * order, each said on its own in terms of the connection before the call.
 */
module Call104 {
  import opened Common
  import opened SeqNo
  import opened Conn104
  import opened Effect104
  import opened Reply104

  // ------------------------------------------------------------------
  // The input
  // ------------------------------------------------------------------

  predicate Reads(input: Input, f: UFunction) { input == Receive(U(f)) }

  /** Room is made, or data transfer begins, so waiting ASDUs can leave. */
  predicate Flushes(c: Conn, input: Input) {
    && input.Receive? && !Illegal(c, input)
    && (Reads(input, StartDtCon) || Reads(input, StartDtAct) || (input.apdu.Numbered() && c.DataTransfer()))
  }

  /** How many of them leave: as many as the window takes. */
  function Leaving(c: Conn, input: Input): (n: nat)
    ensures n <= |c.pending|
  {
    var free := c.config.k - (|c.sent| - AckedBy(c, input));
    if Flushes(c, input) && free > 0 then Min(|c.pending|, free) else 0
  }

  predicate SendsAtOnce(c: Conn, input: Input) { input.SendAsdu? && c.state == Active && |c.sent| < c.config.k }

  function Expected(c: Conn, input: Input): Seq15 { Wrap(c.recvNext + |DeliveredBy(c, input)|) }

  /** The I-frames that leave, all with the new count of what was received. */
  function Data(c: Conn, input: Input): seq<Apdu> {
    if SendsAtOnce(c, input) then [I(c.sendNext, c.recvNext, input.asdu)]
    else seq(Leaving(c, input),
             i requires 0 <= i < Leaving(c, input) => I(Wrap(c.sendNext + i), Expected(c, input), c.pending[i]))
  }

  /** What is owed to the peer then: an I-frame pays for all. */
  function Debt(c: Conn, input: Input): u16 {
    if Data(c, input) != [] then 0 else Min(c.unackedRecv + |DeliveredBy(c, input)|, 0xFFFF)
  }

  /** Enough I-frames have come to acknowledge them at once. */
  predicate Owes(c: Conn, input: Input) { DeliveredBy(c, input) != [] && Debt(c, input) >= c.config.w }

  /** STOPDT_con with no frame outstanding is the end. */
  predicate Confirmed(c: Conn, input: Input) {
    Reads(input, StopDtCon) && !Illegal(c, input) && c.sent == []
  }

  function StateThen(c: Conn, input: Input): State {
    if Confirmed(c, input) then Stopped else Target(c, input)
  }

  /** The unnumbered frame that answers: a handshake frame, or TESTFR_con to every TESTFR_act. */
  function Reply(c: Conn, input: Input): seq<Apdu> {
    if Reads(input, TestFrAct) then [U(TestFrCon)] else Lead(c, input)
  }

  /** A change of state is reported once. */
  function Report(before: State, after: State): seq<Action> { if before == after then [] else [StateChanged(after)] }

  function Outgoing(msgs: seq<Apdu>): seq<Action> {
    seq(|msgs|, i requires 0 <= i < |msgs| => SendApdu(msgs[i]))
  }

  /** What handling the input returns. */
  function Said(c: Conn, input: Input): seq<Action> {
    if Illegal(c, input) then [Disconnect(ProtocolError)] + Report(c.state, Closed)
    else
      Outgoing(Reply(c, input)) + Report(c.state, StateThen(c, input))
      + (if Confirmed(c, input) then [Disconnect(StoppedCleanly)] else [])
      + Outgoing(Data(c, input))
      + (if DeliveredBy(c, input) == [] then [] else [DeliverAsdu(DeliveredBy(c, input)[0])])
      + (if Owes(c, input) then [SendApdu(S(Expected(c, input)))] else [])
  }

  predicate Sent(c: Conn, input: Input) {
    Reply(c, input) != [] || Data(c, input) != [] || Owes(c, input)
  }

  /** The connection once the input is handled. */
  function Handled(c: Conn, input: Input, now: nat): Conn {
    Conn(c.role, c.config, StateThen(c, input), Wrap(c.sendNext + |Data(c, input)|), Expected(c, input),
         c.sent[AckedBy(c, input)..] + Fresh(c.sendNext, |Data(c, input)|, now),
         if Owes(c, input) then 0 else Debt(c, input),
         if DeliveredBy(c, input) != [] then Some(now) else c.lastRecvIFrame,
         if Sent(c, input) then Some(now) else c.lastSendAny,
         if input.Receive? then Some(now) else c.lastRecvAny,
         if Reads(input, TestFrCon) then None else c.testSent,
         c.pending[Leaving(c, input)..] + (if input.SendAsdu? && !SendsAtOnce(c, input) then [input.asdu] else []),
         c.actions + Said(c, input))
  }

  // ------------------------------------------------------------------
  // The handlers do that
  // ------------------------------------------------------------------

  /** An input that moves no numbered frame leaves the window, the counts and the debt alone. */
  lemma {:induction false} Unmoved(c: Conn, input: Input, now: nat)
    requires !Flushes(c, input) && !SendsAtOnce(c, input) && AckedBy(c, input) == 0 && DeliveredBy(c, input) == []
    ensures Data(c, input) == [] && !Owes(c, input)
    ensures var h := Handled(c, input, now);
            && h.sendNext == c.sendNext && h.recvNext == c.recvNext && h.sent == c.sent
            && h.unackedRecv == c.unackedRecv && h.lastRecvIFrame == c.lastRecvIFrame
            && h.pending == c.pending + (if input.SendAsdu? then [input.asdu] else [])
  {
    hide Reply, Said, StateThen, Sent;
    assert c.sent[0..] + Fresh(c.sendNext, 0, now) == c.sent;
    assert c.pending[0..] == c.pending;
  }

  lemma {:induction false} OtherUCall(c: Conn, f: UFunction, now: nat)
    requires c.actions == [] && !Flushes(c, Receive(U(f)))
    ensures c.(lastRecvAny := Some(now)).OnUFrame(f, now) == Handled(c, Receive(U(f)), now)
  {
    hide Conn.FlushPending, Data, Fresh, Owes, Outgoing;
    var input := Receive(U(f));
    Unmoved(c, input, now);
    assert c.pending + [] == c.pending;
    var d := c.(lastRecvAny := Some(now)).OnUFrame(f, now);
    FewOutgoing(Reply(c, input));
    FewOutgoing(Data(c, input));
    assert d.actions == Said(c, input);
    hide Said;
  }

  lemma FewOutgoing(msgs: seq<Apdu>)
    ensures msgs == [] ==> Outgoing(msgs) == []
    ensures |msgs| == 1 ==> Outgoing(msgs) == [SendApdu(msgs[0])]
  {
  }

  lemma {:induction false} FlushIs(e: Conn, now: nat)
    ensures var n := e.Room();
            e.FlushPending(now) ==
            e.(sendNext := Wrap(e.sendNext + n), sent := e.sent + Fresh(e.sendNext, n, now),
               unackedRecv := if n > 0 then 0 else e.unackedRecv,
               lastSendAny := if n > 0 then Some(now) else e.lastSendAny,
               pending := e.pending[n..], actions := e.actions + FlushActions(e, n))
  {
    assert e.sent + Fresh(e.sendNext, 0, now) == e.sent && e.actions + FlushActions(e, 0) == e.actions;
    assert e.pending[0..] == e.pending;
  }

  /** What a flush sends is what the table says leaves. */
  lemma {:induction false} FlushSays(c: Conn, input: Input, e: Conn)
    requires Flushes(c, input) && e.config == c.config && e.pending == c.pending && e.sendNext == c.sendNext
    requires e.sent == c.sent[AckedBy(c, input)..] && e.recvNext == Expected(c, input)
    ensures e.Room() == Leaving(c, input) == |Data(c, input)|
    ensures FlushActions(e, e.Room()) == Outgoing(Data(c, input))
  {
    hide AckCount, Illegal;
  }

  lemma {:induction false} StartCall(c: Conn, f: UFunction, now: nat)
    requires c.actions == [] && Flushes(c, Receive(U(f)))
    ensures c.(lastRecvAny := Some(now)).OnUFrame(f, now) == Handled(c, Receive(U(f)), now)
  {
    hide Conn.FlushPending, Conn.Room, Data, Fresh, FlushActions, Leaving;
    var input, c' := Receive(U(f)), c.(lastRecvAny := Some(now));
    var e := if f == StartDtCon then c'.Transition(Active) else c'.EmitU(StartDtCon, now).Transition(Active);
    assert c.sent[0..] == c.sent;
    FlushSays(c, input, e);
    FlushIs(e, now);
    assert c'.OnUFrame(f, now) == e.FlushPending(now);
    var r := Reply(c, input);
    assert Outgoing(r) == (if r == [] then [] else [SendApdu(r[0])]);
    assert e.actions == Outgoing(r) + Report(c.state, Active);
    assert Said(c, input) == e.actions + Outgoing(Data(c, input));
    assert c.pending[Leaving(c, input)..] + [] == c.pending[Leaving(c, input)..];
  }

  lemma {:induction false} SCall(c: Conn, recv: Seq15, now: nat)
    requires c.actions == []
    ensures c.OnApdu(S(recv), now) == Handled(c, Receive(S(recv)), now)
  {
    hide Conn.FlushPending, Conn.Room, Data, Fresh, FlushActions, Leaving, AckCount;
    var input, c' := Receive(S(recv)), c.(lastRecvAny := Some(now));
    assert Outgoing([]) == [];
    if c.DataTransfer() {
      var e := c'.(sent := c.sent[AckCount(c.sent, recv)..]);
      FlushSays(c, input, e);
      FlushIs(e, now);
      assert Said(c, input) == Outgoing(Data(c, input));
      assert c.pending[Leaving(c, input)..] + [] == c.pending[Leaving(c, input)..];
      assert [] + Outgoing(Data(c, input)) == Outgoing(Data(c, input));
    } else {
      Unmoved(c, input, now);
      assert c.pending + [] == c.pending && Said(c, input) == [];
    }
  }

  lemma {:induction false} TakenICall(c: Conn, send: Seq15, recv: Seq15, asdu: Bytes, now: nat)
    requires c.actions == [] && c.Accepts(send)
    ensures c.OnApdu(I(send, recv, asdu), now) == Handled(c, Receive(I(send, recv, asdu)), now)
  {
    hide Conn.FlushPending, Conn.Room, Data, Fresh, FlushActions, Leaving, AckCount, Wrap, Next;
    var input, c' := Receive(I(send, recv, asdu)), c.(lastRecvAny := Some(now));
    var e := c'.Received(now).(sent := c.sent[AckCount(c.sent, recv)..]);
    NextIs(c.recvNext);
    FlushSays(c, input, e);
    FlushIs(e, now);
    var d := e.FlushPending(now);
    assert c.OnApdu(input.apdu, now) == d.Push(DeliverAsdu(asdu)).SupervisoryIfDue(now);
    assert Outgoing([]) == [];
    assert d.actions == Outgoing(Data(c, input)) && d.unackedRecv == Debt(c, input);
    assert Said(c, input) == d.actions + [DeliverAsdu(asdu)]
                             + (if Owes(c, input) then [SendApdu(S(Expected(c, input)))] else []);
    assert c.pending[Leaving(c, input)..] + [] == c.pending[Leaving(c, input)..];
  }

  lemma NextIs(s: Seq15)
    ensures Next(s) == Wrap(s + 1)
  {
  }

  lemma {:induction false} RefusedICall(c: Conn, send: Seq15, recv: Seq15, asdu: Bytes, now: nat)
    requires c.actions == [] && !c.Accepts(send)
    ensures c.OnApdu(I(send, recv, asdu), now) == Handled(c, Receive(I(send, recv, asdu)), now)
  {
    hide Conn.Acknowledge, Data, Fresh;
    Unmoved(c, Receive(I(send, recv, asdu)), now);
    assert c.pending + [] == c.pending;
  }

  lemma {:induction false} LocalCall(c: Conn, input: Input, now: nat)
    requires c.actions == [] && !input.Receive?
    ensures c.Dispatch(input, now) == Handled(c, input, now)
  {
    hide Conn.Dispatch, Handled;
    if SendsAtOnce(c, input) { SendCall(c, input, now); } else { UserCall(c, input, now); }
  }

  lemma {:induction false} UserCall(c: Conn, input: Input, now: nat)
    requires c.actions == [] && !input.Receive? && !SendsAtOnce(c, input)
    ensures c.Dispatch(input, now) == Handled(c, input, now)
  {
    hide Conn.OnApdu, Conn.SendIFrame, Data, Fresh, Owes, Outgoing, Flushes;
    assert !Flushes(c, input) by { LocalFlushesNothing(c, input); }
    Unmoved(c, input, now);
    FewOutgoing(Data(c, input));
    FewOutgoing(Reply(c, input));
    assert c.pending + [] == c.pending;
    assert c.Dispatch(input, now).actions == Said(c, input);
  }

  lemma LocalFlushesNothing(c: Conn, input: Input)
    requires !input.Receive?
    ensures !Flushes(c, input)
  {
  }

  lemma {:induction false} SendCall(c: Conn, input: Input, now: nat)
    requires c.actions == [] && SendsAtOnce(c, input)
    ensures c.Dispatch(input, now) == Handled(c, input, now)
  {
    hide Conn.OnApdu, Wrap, Next;
    NextIs(c.sendNext);
    WrapOf(c.sendNext);
    WrapOf(c.recvNext);
    assert Outgoing([]) == [] && Said(c, input) == [SendApdu(I(c.sendNext, c.recvNext, input.asdu))];
    assert c.sent[0..] + Fresh(c.sendNext, 1, now) == c.sent + [Outstanding(c.sendNext, now)];
    assert c.pending[0..] + [] == c.pending;
  }

  lemma {:induction false} DispatchCall(c: Conn, input: Input, now: nat)
    requires c.actions == []
    ensures c.Dispatch(input, now) == Handled(c, input, now)
  {
    hide Handled, Conn.OnUFrame, Conn.OnIFrame, Conn.Acknowledge, Flushes;
    match input {
      case Receive(U(f)) => if Flushes(c, input) { StartCall(c, f, now); } else { OtherUCall(c, f, now); }
      case Receive(S(recv)) => SCall(c, recv, now);
      case Receive(I(send, recv, asdu)) =>
        if c.Accepts(send) { TakenICall(c, send, recv, asdu, now); } else { RefusedICall(c, send, recv, asdu, now); }
      case _ => LocalCall(c, input, now);
    }
  }

  // ------------------------------------------------------------------
  // The timers
  // ------------------------------------------------------------------

  /** t1 has run out on the oldest frame or on a TESTFR_act. */
  predicate Late(h: Conn, now: nat) {
    || (h.sent != [] && Elapsed(now, h.sent[0].at) >= h.config.t1)
    || (h.testSent.Some? && Elapsed(now, h.testSent.value) >= h.config.t1)
  }

  /** t2 has run out on the newest I-frame, with something owed. */
  predicate Due(h: Conn, now: nat) {
    h.unackedRecv > 0 && h.lastRecvIFrame.Some? && Elapsed(now, h.lastRecvIFrame.value) >= h.config.t2
  }

  function Later(a: Option<nat>, b: Option<nat>): Option<nat> {
    if a.None? then b else if b.None? then a else Some(if a.value < b.value then b.value else a.value)
  }

  /** The last message sent or read, an acknowledgement that is due counting as sent now. */
  function Traffic(h: Conn, now: nat): Option<nat> {
    Later(if Due(h, now) then Some(now) else h.lastSendAny, h.lastRecvAny)
  }

  /** t3 has run out on it, in data transfer and with no TESTFR_act under way. */
  predicate Idle(h: Conn, now: nat) {
    && (h.state == Active || h.state == Stopping) && h.testSent.None?
    && Traffic(h, now).Some? && Elapsed(now, Traffic(h, now).value) >= h.config.t3
  }

  predicate Finished(h: Conn) { h.state == Stopping && h.sent == [] && h.pending == [] }

  /** What the timers return. */
  function Told(h: Conn, now: nat): seq<Action> {
    if Late(h, now) then [Disconnect(AckTimeout)] + Report(h.state, Closed)
    else (if Due(h, now) then [SendApdu(S(h.recvNext))] else [])
         + (if Idle(h, now) then [SendApdu(U(TestFrAct))] else [])
         + (if Finished(h) then [StateChanged(Stopped), Disconnect(StoppedCleanly)] else [])
  }

  function Ticked(h: Conn, now: nat): Conn {
    if Late(h, now) then h.(state := Closed, actions := h.actions + Told(h, now))
    else
      h.(state := if Finished(h) then Stopped else h.state,
         unackedRecv := if Due(h, now) then 0 else h.unackedRecv,
         lastSendAny := if Due(h, now) || Idle(h, now) then Some(now) else h.lastSendAny,
         testSent := if Idle(h, now) then Some(now) else h.testSent,
         actions := h.actions + Told(h, now))
  }

  lemma {:induction false} TimersAre(h: Conn, now: nat)
    ensures h.RunTimers(now) == Ticked(h, now)
  {
    hide Conn.AckTimer, Conn.IdleTimer, Conn.FinishStop, Due, Idle, Finished;
    if Late(h, now) {
      assert h.Fail(AckTimeout).actions == h.actions + Told(h, now);
    } else {
      AckTimerIs(h, now);
      IdleTimerIs(h, now);
      var e := h.AckTimer(now).IdleTimer(now);
      FinishIs(h, e);
      assert e.FinishStop().actions == h.actions + Told(h, now);
    }
  }

  lemma {:induction false} AckTimerIs(h: Conn, now: nat)
    ensures h.AckTimer(now) ==
            h.(unackedRecv := if Due(h, now) then 0 else h.unackedRecv,
               lastSendAny := if Due(h, now) then Some(now) else h.lastSendAny,
               actions := h.actions + (if Due(h, now) then [SendApdu(S(h.recvNext))] else []))
  {
    assert h.actions + [] == h.actions;
  }

  lemma {:induction false} IdleTimerIs(h: Conn, now: nat)
    ensures var d := h.AckTimer(now);
            d.IdleTimer(now) ==
            d.(lastSendAny := if Idle(h, now) then Some(now) else d.lastSendAny,
               testSent := if Idle(h, now) then Some(now) else d.testSent,
               actions := d.actions + (if Idle(h, now) then [SendApdu(U(TestFrAct))] else []))
  {
    hide Conn.AckTimer, Due;
    AckTimerIs(h, now);
    var d := h.AckTimer(now);
    assert d.LastIo() == Traffic(h, now);
    assert d.actions + [] == d.actions;
  }

  lemma {:induction false} FinishIs(h: Conn, e: Conn)
    requires e.state == h.state && e.sent == h.sent && e.pending == h.pending
    ensures e.FinishStop() ==
            e.(state := if Finished(h) then Stopped else e.state,
               actions := e.actions + (if Finished(h) then [StateChanged(Stopped), Disconnect(StoppedCleanly)] else []))
  {
    assert e.actions + [] == e.actions;
    assert e.actions + [StateChanged(Stopped)] + [Disconnect(StoppedCleanly)] ==
           e.actions + [StateChanged(Stopped), Disconnect(StoppedCleanly)];
  }

  /** For every state between two calls, every input and every clock. */
  lemma {:induction false} CallIs(c: Conn, input: Input, now: nat)
    requires c.actions == []
    ensures c.Handle(input, now) == Ticked(Handled(c, input, now), now)
  {
    hide Conn.Dispatch, Conn.RunTimers, Handled, Ticked;
    DispatchCall(c, input, now);
    TimersAre(Handled(c, input, now), now);
  }

  // ------------------------------------------------------------------
  // What a call sends
  // ------------------------------------------------------------------

  function Acknowledgement(due: bool, recv: Seq15): seq<Apdu> { if due then [S(recv)] else [] }

  function Probe(h: Conn, now: nat): seq<Apdu> { if !Late(h, now) && Idle(h, now) then [U(TestFrAct)] else [] }

  /** The messages before the probe: the answer, data, and an acknowledgement that is due by count or by time. */
  function Messages(c: Conn, input: Input, now: nat): seq<Apdu> {
    var h := Handled(c, input, now);
    Reply(c, input) + Data(c, input) + Acknowledgement(Owes(c, input), Expected(c, input))
    + Acknowledgement(!Late(h, now) && Due(h, now), h.recvNext)
  }

  lemma {:induction false} OutgoingSends(msgs: seq<Apdu>)
    ensures Sends(Outgoing(msgs)) == msgs
  {
    if msgs != [] {
      OutgoingSends(msgs[..|msgs| - 1]);
      assert Outgoing(msgs)[..|msgs| - 1] == Outgoing(msgs[..|msgs| - 1]);
    }
  }

  lemma {:induction false} SaidSends(c: Conn, input: Input)
    ensures Sends(Said(c, input)) ==
            Reply(c, input) + Data(c, input) + Acknowledgement(Owes(c, input), Expected(c, input))
  {
    hide Sends, Deliveries, Reasons, Data, Expected, Outgoing, Report, Reply, DeliveredBy, Owes, Confirmed, StateThen;
    Nothing();
    if Illegal(c, input) {
      ClosesSilently(ProtocolError, c.state);
      NothingMoves(c, input);
    } else {
      OutgoingSends(Reply(c, input));
      OutgoingSends(Data(c, input));
      ReportSendsNothing(c.state, StateThen(c, input));
      var clean := if Confirmed(c, input) then [Disconnect(StoppedCleanly)] else [];
      var got := if DeliveredBy(c, input) == [] then [] else [DeliverAsdu(DeliveredBy(c, input)[0])];
      SendNothing(clean);
      SendNothing(got);
      var s := if Owes(c, input) then [SendApdu(S(Expected(c, input)))] else [];
      Lists(SendApdu(S(Expected(c, input))), StateChanged(Closed));
      AllSends(Outgoing(Reply(c, input)), Report(c.state, StateThen(c, input)), clean, Outgoing(Data(c, input)), got,
               s);
    }
  }

  lemma {:induction false} AllSends(a: seq<Action>, b: seq<Action>, c: seq<Action>, d: seq<Action>, e: seq<Action>,
                                    f: seq<Action>)
    requires Sends(b) == [] && Sends(c) == [] && Sends(e) == []
    ensures Sends(a + b + c + d + e + f) == Sends(a) + Sends(d) + Sends(f)
  {
    hide Sends;
    ActionsAppend(a, b);
    ActionsAppend(a + b, c);
    ActionsAppend(a + b + c, d);
    ActionsAppend(a + b + c + d, e);
    ActionsAppend(a + b + c + d + e, f);
  }

  lemma {:induction false} ClosesSilently(reason: Reason, state: State)
    ensures Sends([Disconnect(reason)] + Report(state, Closed)) == []
  {
    hide Sends;
    SendNothing([Disconnect(reason)]);
    SendNothing(Report(state, Closed));
    ActionsAppend([Disconnect(reason)], Report(state, Closed));
  }

  lemma {:induction false} SendNothing(acts: seq<Action>)
    requires |acts| <= 1 && (acts != [] ==> !acts[0].SendApdu?)
    ensures Sends(acts) == []
  {
    if acts != [] {
      assert acts == [acts[0]];
      Lists(acts[0], acts[0]);
    }
  }

  lemma ReportSendsNothing(before: State, after: State)
    ensures Sends(Report(before, after)) == []
  {
    SendNothing(Report(before, after));
  }

  lemma NothingMoves(c: Conn, input: Input)
    requires Illegal(c, input)
    ensures Data(c, input) == [] && !Owes(c, input) && Reply(c, input) == []
  {
  }

  lemma {:induction false} ToldSends(h: Conn, now: nat)
    ensures Sends(Told(h, now)) == Acknowledgement(!Late(h, now) && Due(h, now), h.recvNext) + Probe(h, now)
  {
    hide Sends, Deliveries, Reasons, Late, Due, Idle, Finished;
    Nothing();
    ClosesSilently(AckTimeout, h.state);
    Lists(SendApdu(S(h.recvNext)), SendApdu(U(TestFrAct)));
    Lists(SendApdu(U(TestFrAct)), StateChanged(Stopped));
    Lists(StateChanged(Stopped), Disconnect(StoppedCleanly));
    var a := if Due(h, now) then [SendApdu(S(h.recvNext))] else [];
    var b := if Idle(h, now) then [SendApdu(U(TestFrAct))] else [];
    var d := if Finished(h) then [StateChanged(Stopped), Disconnect(StoppedCleanly)] else [];
    ActionsAppend(a, b);
    ActionsAppend(a + b, d);
  }

  /** A call sends these messages and then, if the link has been idle for too long, a TESTFR_act. */
  lemma {:induction false} CallSends(c: Conn, input: Input, now: nat)
    requires c.actions == []
    ensures Sends(c.Handle(input, now).actions) == Messages(c, input, now) + Probe(Handled(c, input, now), now)
  {
    hide Conn.Handle, Sends, Reply, Data, Owes, Expected, Late, Due, Said, Told, Handled, Ticked, Probe;
    CallIs(c, input, now);
    var h := Handled(c, input, now);
    assert h.actions == [] + Said(c, input) && Ticked(h, now).actions == h.actions + Told(h, now)
      by { BothQueue(c, input, now); }
    SaidSends(c, input);
    ToldSends(h, now);
    assert [] + Said(c, input) == Said(c, input);
    ActionsAppend(Said(c, input), Told(h, now));
  }

  lemma BothQueue(c: Conn, input: Input, now: nat)
    ensures Handled(c, input, now).actions == c.actions + Said(c, input)
    ensures forall h: Conn :: Ticked(h, now).actions == h.actions + Told(h, now)
  {
  }
}
