/**
 * The 104 connection object. It carries its history as a ghost, keeps the invariant of `Station104`
 * on it, and its public entry says what a call adds to that history. The handlers below `Handle`
 * are proved to do to the fields what `Conn104` says.
 */
module Connection104 {
  import opened Common
  import opened SeqNo
  import opened Conn104
  import opened Effect104
  import opened Station104
  import Call104

  class Connection {
    const role: Role
    const config: Config
    var state: State
    var sendNext: Seq15
    var recvNext: Seq15
    var sent: seq<Outstanding>
    var unackedRecv: u16
    var lastRecvIFrame: Option<nat>
    var lastSendAny: Option<nat>
    var lastRecvAny: Option<nat>
    var testSent: Option<nat>
    var pending: seq<Bytes>
    var actions: seq<Action>

    /** What went through the object so far. */
    ghost var past: Station

    /** The object is where its history has brought it, and the history accounts for every ASDU. */
    ghost predicate Valid()
      reads this
    {
      past.conn == View() && Inv(past)
    }

    ghost function View(): Conn
      reads this
    {
      Conn(role, config, state, sendNext, recvNext, sent, unackedRecv, lastRecvIFrame,
           lastSendAny, lastRecvAny, testSent, pending, actions)
    }

    constructor (role: Role, config: Config)
      ensures Valid() && past == Init(role, config)
    {
      this.role, this.config := role, config;
      state, sendNext, recvNext, sent, unackedRecv := Stopped, 0, 0, [], 0;
      lastRecvIFrame, lastSendAny, lastRecvAny, testSent := None, None, None, None;
      pending, actions := [], [];
      past := Init(role, config);
      new;
      InitInv(role, config);
    }

    /**
     * Whatever the input, the state and the clock: the ASDUs that leave carry the next numbers and
     * are, with those still waiting, what waited before and what the user gave; `sent` loses its
     * acknowledged front and gains what was sent; what is delivered is the expected I-frame or
     * nothing; every N(R) sent is the new count. The histories grow by exactly the returned actions,
     * and these, like every field, are what `Call104` says of the state before the call.
     */
    method Handle(input: Input, now: nat) returns (acts: seq<Action>)
      requires Valid()
      modifies this
      ensures Valid() && past == Step(old(past), input, now)
      ensures past.msgs == old(past.msgs) + Sends(acts) && past.delivered == old(past.delivered) + Deliveries(acts)
      ensures past.closed == old(past.closed) + Reasons(acts)
      ensures Carried(Sends(acts)) + pending == old(pending) + SubmittedBy(input)
      ensures NumberedFrom(Sends(acts), old(sendNext))
      ensures var n := AckedBy(old(View()), input);
              sent == old(sent)[n..] + Fresh(old(sendNext), |Carried(Sends(acts))|, now)
      ensures Deliveries(acts) == DeliveredBy(old(View()), input) && AllAcknowledge(Sends(acts), recvNext)
      ensures var h := Call104.Handled(old(View()), input, now);
              acts == Call104.Said(old(View()), input) + Call104.Told(h, now)
              && View() == Call104.Ticked(h, now).(actions := [])
    {
      hide Conn.Handle, Conn.Dispatch, Call104.Handled, Call104.Ticked, Call104.Said, Call104.Told, Sends,
           Deliveries, Reasons, Carried, NumberedFrom, AllAcknowledge, Fresh, Inv;
      ghost var was := past;
      acts := Drive(input, now);
      CallIs(was, input, now);
      assert was.conn.actions == [] by { Idle(was); }
      Call104.CallIs(was.conn, input, now);
      Call104.BothQueue(was.conn, input, now);
      assert [] + Call104.Said(was.conn, input) == Call104.Said(was.conn, input);
      past := Step(was, input, now);
    }

    /** One pass of the state machine: the input, the timers, and the actions they queued. */
    method Drive(input: Input, now: nat) returns (acts: seq<Action>)
      modifies this
      ensures acts == old(View()).Handle(input, now).actions
      ensures View() == old(View()).Handle(input, now).(actions := [])
    {
      match input {
        case Receive(apdu) => OnApdu(apdu, now);
        case StartDt => OnUserStartDt(now);
        case StopDt => OnUserStopDt(now);
        case SendAsdu(asdu) => OnUserSend(asdu, now);
        case Tick =>
      }
      RunTimers(now);
      acts, actions := actions, [];
    }

    method OnApdu(apdu: Apdu, now: nat)
      modifies this
      ensures View() == old(View()).OnApdu(apdu, now)
    {
      lastRecvAny := Some(now);
      match apdu {
        case U(f) => OnUFrame(f, now);
        case S(recv) => if state == Active || state == Stopping { Acknowledge(recv, now); }
        case I(send, recv, asdu) => OnIFrame(send, recv, asdu, now);
      }
    }

    method OnUFrame(f: UFunction, now: nat)
      modifies this
      ensures View() == old(View()).OnUFrame(f, now)
    {
      match (f, role, state) {
        case (StartDtCon, Client, Starting) =>
          Transition(Active);
          FlushPending(now);
        case (StartDtAct, Server, Stopped) =>
          EmitApdu(U(StartDtCon));
          lastSendAny := Some(now);
          Transition(Active);
          FlushPending(now);
        case (StopDtAct, Server, _) =>
          EmitApdu(U(StopDtCon));
          lastSendAny := Some(now);
          Transition(Stopped);
        case (StopDtCon, Client, Stopping) =>
          if |sent| == 0 {
            Transition(Stopped);
            actions := actions + [Disconnect(StoppedCleanly)];
          }
        case (TestFrAct, _, _) =>
          EmitApdu(U(TestFrCon));
          lastSendAny := Some(now);
        case (TestFrCon, _, _) =>
          testSent := None;
        case _ =>
          actions := actions + [Disconnect(ProtocolError)];
          Transition(Closed);
      }
    }

    method OnIFrame(send: Seq15, recv: Seq15, asdu: Bytes, now: nat)
      modifies this
      ensures View() == old(View()).OnIFrame(send, recv, asdu, now)
    {
      hide Conn.Acknowledge;
      if !(state == Active || state == Stopping) || send != recvNext {
        actions := actions + [Disconnect(ProtocolError)];
        Transition(Closed);
        return;
      }
      recvNext := Next(recvNext);
      unackedRecv := if unackedRecv == 0xFFFF then 0xFFFF else unackedRecv + 1;
      lastRecvIFrame := Some(now);
      Acknowledge(recv, now);
      actions := actions + [DeliverAsdu(asdu)];
      if unackedRecv >= config.w {
        EmitSupervisory(now);
      }
    }

    method Acknowledge(nr: Seq15, now: nat)
      modifies this
      ensures View() == old(View()).Acknowledge(nr, now)
    {
      ghost var popped: nat := 0;
      while |sent| > 0
        invariant popped <= |old(sent)| && sent == old(sent)[popped..]
        invariant AckCount(old(sent), nr) == popped + AckCount(sent, nr)
        invariant View() == old(View()).(sent := sent)
        decreases |sent|
      {
        var d := Distance(sent[0].no, nr);
        if d == 0 || d > MAX / 2 {
          break;
        }
        sent := sent[1..];
        popped := popped + 1;
      }
      FlushPending(now);
    }

    method FlushPending(now: nat)
      modifies this
      ensures View() == old(View()).FlushPending(now)
    {
      ghost var was := View();
      ghost var n := 0;
      while |pending| > 0 && |sent| < config.k
        invariant n <= was.Room() && |sent| == |was.sent| + n
        invariant View() == was.SendFirst(n, now)
        decreases |pending|
      {
        var asdu := pending[0];
        pending := pending[1..];
        SendIFrame(asdu, now);
        OneMore(was, n, now);
        n := n + 1;
      }
    }

    method SendIFrame(asdu: Bytes, now: nat)
      modifies this
      ensures View() == old(View()).SendIFrame(asdu, now)
    {
      var send := sendNext;
      sendNext := Next(sendNext);
      sent := sent + [Outstanding(send, now)];
      unackedRecv := 0;
      lastSendAny := Some(now);
      actions := actions + [SendApdu(I(send, recvNext, asdu))];
    }

    method OnUserStartDt(now: nat)
      modifies this
      ensures View() == old(View()).OnUserStartDt(now)
    {
      if role == Client && state == Stopped {
        EmitApdu(U(StartDtAct));
        lastSendAny := Some(now);
        Transition(Starting);
      }
    }

    method OnUserStopDt(now: nat)
      modifies this
      ensures View() == old(View()).OnUserStopDt(now)
    {
      if state == Active {
        if role == Client {
          EmitApdu(U(StopDtAct));
          lastSendAny := Some(now);
          Transition(Stopping);
        } else {
          Transition(Stopped);
        }
      }
    }

    method OnUserSend(asdu: Bytes, now: nat)
      modifies this
      ensures View() == old(View()).OnUserSend(asdu, now)
    {
      if state != Active {
        pending := pending + [asdu];
        return;
      }
      if |sent| >= config.k {
        pending := pending + [asdu];
        return;
      }
      SendIFrame(asdu, now);
    }

    method EmitSupervisory(now: nat)
      modifies this
      ensures View() == old(View()).EmitSupervisory(now)
    {
      actions := actions + [SendApdu(S(recvNext))];
      unackedRecv := 0;
      lastSendAny := Some(now);
    }

    method EmitApdu(apdu: Apdu)
      modifies this
      ensures View() == old(View()).Push(SendApdu(apdu))
    {
      actions := actions + [SendApdu(apdu)];
    }

    method Transition(to: State)
      modifies this
      ensures View() == old(View()).Transition(to)
    {
      if state != to {
        state := to;
        actions := actions + [StateChanged(to)];
      }
    }

    method RunTimers(now: nat)
      modifies this
      ensures View() == old(View()).RunTimers(now)
    {
      if |sent| > 0 && Elapsed(now, sent[0].at) >= config.t1 {
        actions := actions + [Disconnect(AckTimeout)];
        Transition(Closed);
        return;
      }
      if testSent.Some? && Elapsed(now, testSent.value) >= config.t1 {
        actions := actions + [Disconnect(AckTimeout)];
        Transition(Closed);
        return;
      }
      if unackedRecv > 0 && lastRecvIFrame.Some? && Elapsed(now, lastRecvIFrame.value) >= config.t2 {
        EmitSupervisory(now);
      }
      assert View() == old(View()).AckTimer(now);
      ghost var acked := View();
      if (state == Active || state == Stopping) && testSent.None? {
        var lastIo := if lastSendAny.None? then lastRecvAny
                      else if lastRecvAny.None? then lastSendAny
                      else Some(Max(lastSendAny.value, lastRecvAny.value));
        if lastIo.Some? && Elapsed(now, lastIo.value) >= config.t3 {
          EmitApdu(U(TestFrAct));
          lastSendAny := Some(now);
          testSent := Some(now);
        }
      }
      assert View() == acked.IdleTimer(now);
      if state == Stopping && |sent| == 0 && |pending| == 0 {
        Transition(Stopped);
        actions := actions + [Disconnect(StoppedCleanly)];
      }
    }
  }

  /** What a call does, as the caller of the object sees it. */
  lemma {:induction false} CallIs(s: Station, input: Input, now: nat)
    requires Inv(s)
    ensures var d, t := s.conn.Handle(input, now), Step(s, input, now);
            && Inv(t) && t.conn == d.(actions := [])
            && Transmits(s.conn, d, d.actions, SubmittedBy(input), AckedBy(s.conn, input), now)
            && Receives(s.conn, d, d.actions, DeliveredBy(s.conn, input))
  {
    hide Conn.Handle, Inv, Transmits, Receives;
    StepInv(s, input, now);
    assert s.conn.actions == [] && Window(s.conn) by { Idle(s); }
    HandleStep(s.conn, input, now);
  }

  lemma Idle(s: Station)
    requires Inv(s)
    ensures s.conn.actions == [] && Window(s.conn)
  {
  }

  /** Sending one more pending ASDU by hand is sending one more in bulk. */
  lemma OneMore(c: Conn, n: nat, now: nat)
    requires n < |c.pending|
    ensures var d := c.SendFirst(n, now);
            d.pending == c.pending[n..] &&
            d.(pending := d.pending[1..]).SendIFrame(c.pending[n], now) == c.SendFirst(n + 1, now)
  {
    var d := c.SendFirst(n, now);
    var e := d.(pending := d.pending[1..]).SendIFrame(c.pending[n], now);
    var f := c.SendFirst(n + 1, now);
    NextWrap(c.sendNext + n);
    assert e.sent == f.sent;
    assert e.pending == f.pending;
    assert e.actions == f.actions;
  }
}
