/**
 * The 101 link object. It carries its history as a ghost, keeps the invariants of `Retry101` on it,
 * and its public entry says what a call adds to that history. The handlers below `Handle` are proved
 * to do to the fields what `Link101` says.
 */
module LinkObject101 {
  import opened Common
  import opened Control101
  import opened Link101
  import opened Retry101
  import Master101
  import Outstation101

  class Connection {
    const role: Role
    const config: Config
    var linkState: LinkState
    var fcb: bool
    var lastFcbSeen: Option<bool>
    var pending: Option<Exchange>
    var sendQueue: seq<Bytes>
    var actions: seq<Action>

    /** What went through the object so far, and the calls that did it. */
    ghost var past: Station
    ghost var log: seq<Call>

    /**
     * The object is where its history has brought it. A master's user-data frames are the ASDUs given
     * to it, in order and with alternating bits, each exchange within its retries; an outstation
     * never waits and never fails, and is what its log says.
     */
    ghost predicate Valid()
      reads this
    {
      && past.link == View() && Kept(past)
      && (role == Outstation ==> Outstation101.Logged(past, config, log))
    }

    ghost function View(): Link
      reads this
    {
      Link(role, config, linkState, fcb, lastFcbSeen, pending, sendQueue, actions)
    }

    constructor (role: Role, config: Config)
      ensures Valid() && past == Init(role, config) && log == []
    {
      this.role, this.config := role, config;
      linkState, fcb, lastFcbSeen, pending, sendQueue, actions := NotReady, false, None, None, [], [];
      past, log := Init(role, config), [];
    }

    /**
     * The histories grow by exactly the input and the returned actions, and stay accounted for. A master
     * returns and leaves what `Master101` says of its state; an outstation returns what its log asks for.
     */
    method Handle(input: Input, now: nat) returns (acts: seq<Action>)
      requires Valid()
      modifies this
      ensures Valid() && past == Step(old(past), input, now)
      ensures past.submitted == old(past.submitted) + (if input.SendUserData? then [input.asdu] else [])
      ensures past.delivered == old(past.delivered) + Deliveries(acts)
      ensures past.errors == old(past.errors) + Errors(acts)
      ensures AckTimeout in Errors(acts) ==> role == Master && pending.None? && linkState == Failed
      ensures role == Master ==> sendQueue == past.submitted[Started(past)..] && fcb == Odd(Started(past))
      ensures role == Master ==> old(Started(past)) <= Started(past) <= old(Started(past)) + 1
      ensures log == old(log) + [Call(input, now)]
      ensures role == Master ==>
                && acts == Master101.Returned(old(View()), Call(input, now))
                && View() == Master101.Left(old(View()), Call(input, now))
      ensures role == Outstation ==> acts == Outstation101.Returned(old(log), config.address, Call(input, now))
    {
      hide Link.Dispatch, Link.RunTimers, Frames, Deliveries, Errors, Grouped, Kept, Outstation101.Logged,
           Outstation101.Returned, Master101.Returned, Master101.Left;
      ghost var was, before := past, log;
      acts := Drive(input, now);
      CallIs(was, input, now);
      if role == Master {
        MasterReturns(was, Call(input, now));
      } else {
        OutstationReturns(was, config, before, Call(input, now));
      }
      past := Step(was, input, now);
      log := before + [Call(input, now)];
    }

    /** One pass of the state machine: the input, the timer, and the actions they queued. */
    method Drive(input: Input, now: nat) returns (acts: seq<Action>)
      modifies this
      ensures acts == old(View()).Handle(input, now).actions
      ensures View() == old(View()).Handle(input, now).(actions := [])
    {
      match input {
        case FrameReceived(frame) => OnFrame(frame, now);
        case Tick =>
        case SendUserData(asdu) => OnSendUserData(asdu, now);
        case AskStatus => OnRequest(RequestStatus, now);
        case ResetLink => OnResetRemoteLink(now);
        case Poll(class1) => OnRequest(if class1 then RequestClass1 else RequestClass2, now);
      }
      RunTimers(now);
      acts, actions := actions, [];
    }

    method OnFrame(frame: Frame, now: nat)
      modifies this
      ensures View() == old(View()).Dispatch(FrameReceived(frame), now)
    {
      if role == Master { MasterOnFrame(frame, now); } else { OutstationOnFrame(frame); }
    }

    method MasterOnFrame(frame: Frame, now: nat)
      modifies this
      ensures View() == old(View()).MasterOnFrame(frame, now)
    {
      match frame {
        case Single(AckChar) =>
          if pending.Some? {
            pending := None;
            MaybeFlushQueue(now);
          }
        case Single(NackChar) =>
          pending := None;
          actions := actions + [LinkError(NackReceived)];
        case Fixed(control, _) =>
          var s := DecodeSecondary(control);
          if s.Some? {
            MasterOnSecondaryFixed(s.value, now);
          } else {
            actions := actions + [LinkError(ProtocolError)];
          }
        case Variable(control, _, asdu) =>
          var s := DecodeSecondary(control);
          if s.Some? && s.value.func == RespondUserData {
            pending := None;
            actions := actions + [DeliverAsdu(asdu)];
          } else {
            actions := actions + [LinkError(ProtocolError)];
          }
      }
    }

    method MasterOnSecondaryFixed(s: Secondary, now: nat)
      modifies this
      ensures View() == old(View()).MasterOnSecondary(s.func, now)
    {
      match s.func {
        case Ack =>
          if pending.Some? {
            pending := None;
            if linkState == NotReady { TransitionLink(Ready); }
            MaybeFlushQueue(now);
          }
        case Nack =>
          pending := None;
          actions := actions + [LinkError(NackReceived)];
        case StatusOfLink =>
          pending := None;
          if linkState == NotReady { TransitionLink(Ready); }
        case NackNoData =>
          pending := None;
        case RespondUserData =>
          actions := actions + [LinkError(ProtocolError)];
      }
    }

    method OutstationOnFrame(frame: Frame)
      modifies this
      ensures View() == old(View()).OutstationOnFrame(frame)
    {
      match frame {
        case Single(_) =>
        case Fixed(control, address) =>
          if address != config.address { return; }
          var p := DecodePrimary(control);
          if p.Some? { OutstationOnPrimaryFixed(p.value); }
        case Variable(control, address, asdu) =>
          if address != config.address { return; }
          var p := DecodePrimary(control);
          if p.Some? { OutstationOnPrimaryVariable(p.value, asdu); }
      }
    }

    method OutstationOnPrimaryFixed(p: Primary)
      modifies this
      ensures View() == old(View()).OutstationOnFixed(p)
    {
      match p.func {
        case ResetRemoteLink =>
          lastFcbSeen := None;
          SendReply(Ack);
          TransitionLink(Ready);
        case RequestStatus =>
          SendReply(StatusOfLink);
        case RequestClass1 => AnswerPoll();
        case RequestClass2 => AnswerPoll();
        case _ =>
      }
    }

    method AnswerPoll()
      modifies this
      ensures View() == old(View()).AnswerPoll()
    {
      if |sendQueue| > 0 {
        var asdu := sendQueue[0];
        sendQueue := sendQueue[1..];
        var control := EncodeSecondary(Secondary(false, false, RespondUserData));
        actions := actions + [SendFrame(Variable(control, config.address, asdu))];
      } else {
        SendReply(NackNoData);
      }
    }

    method OutstationOnPrimaryVariable(p: Primary, asdu: Bytes)
      modifies this
      ensures View() == old(View()).OutstationOnVariable(p, asdu)
    {
      match p.func {
        case UserDataConfirmed =>
          var duplicate := p.fcv && lastFcbSeen == Some(p.fcb);
          if p.fcv { lastFcbSeen := Some(p.fcb); }
          SendReply(Ack);
          if !duplicate { actions := actions + [DeliverAsdu(asdu)]; }
        case UserDataUnconfirmed =>
          actions := actions + [DeliverAsdu(asdu)];
        case _ =>
      }
    }

    method OnSendUserData(asdu: Bytes, now: nat)
      modifies this
      ensures View() == old(View()).OnSendUserData(asdu, now)
    {
      sendQueue := sendQueue + [asdu];
      if role == Master { MaybeFlushQueue(now); }
    }

    method OnRequest(f: PrimaryFunc, now: nat)
      modifies this
      ensures View() == old(View()).Request(f, now)
    {
      if role != Master || pending.Some? { return; }
      SendWithConfirm(Fixed(EncodePrimary(Primary(false, false, f)), config.address), now);
    }

    method OnResetRemoteLink(now: nat)
      modifies this
      ensures View() == old(View()).OnReset(now)
    {
      if role != Master { return; }
      pending := None;
      SendWithConfirm(Fixed(EncodePrimary(Primary(false, false, ResetRemoteLink)), config.address), now);
    }

    method RunTimers(now: nat)
      modifies this
      ensures View() == old(View()).RunTimers(now)
    {
      if pending.Some? && Elapsed(now, pending.value.at) >= config.timeout {
        var x := pending.value;
        if x.attempts > config.maxRetries {
          pending := None;
          if linkState != Failed {
            linkState := Failed;
            actions := actions + [LinkStateChanged(Failed)];
          }
          actions := actions + [LinkError(AckTimeout)];
        } else {
          pending := Some(Exchange(x.frame, now, if x.attempts == 0xFF then 0 else x.attempts + 1));
          actions := actions + [SendFrame(x.frame)];
        }
      }
    }

    method MaybeFlushQueue(now: nat)
      modifies this
      ensures View() == old(View()).FlushQueue(now)
    {
      if pending.Some? { return; }
      if |sendQueue| > 0 {
        var asdu := sendQueue[0];
        sendQueue := sendQueue[1..];
        var control := EncodePrimary(Primary(fcb, true, UserDataConfirmed));
        SendWithConfirm(Variable(control, config.address, asdu), now);
        fcb := !fcb;
      }
    }

    method SendWithConfirm(frame: Frame, now: nat)
      modifies this
      ensures View() == old(View()).SendWithConfirm(frame, now)
    {
      actions := actions + [SendFrame(frame)];
      pending := Some(Exchange(frame, now, 1));
    }

    method SendReply(f: SecondaryFunc)
      modifies this
      ensures View() == old(View()).Push(SendFrame(old(View()).ReplyFrame(f)))
    {
      actions := actions + [SendFrame(Fixed(EncodeSecondary(Secondary(false, false, f)), config.address))];
    }

    method TransitionLink(to: LinkState)
      modifies this
      ensures View() == old(View()).Transition(to)
    {
      if linkState != to {
        linkState := to;
        actions := actions + [LinkStateChanged(to)];
      }
    }
  }

  /** The invariants of a station, by role; the bound on retries needs a limit that a u8 can exceed. */
  ghost predicate Kept(s: Station) {
    && s.link.actions == []
    && (s.link.role == Master ==> QueueInv(s) && (s.link.config.maxRetries <= 254 ==> Inv(s)))
    && (s.link.role == Outstation ==> s.link.pending.None? && s.link.state != Failed)
  }

  lemma {:induction false} CallIs(s: Station, input: Input, now: nat)
    requires Kept(s)
    ensures var d, t := s.link.Handle(input, now), Step(s, input, now);
            && Kept(t) && t.link == d.(actions := [])
            && (AckTimeout in Errors(d.actions) ==> s.link.role == Master && d.pending.None? && d.state == Failed)
            && (s.link.role == Master ==>
                  && t.link.queue == t.submitted[Started(t)..] && t.link.fcb == Odd(Started(t))
                  && Started(s) <= Started(t) <= Started(s) + 1)
  {
    if s.link.role == Master { MasterCallIs(s, input, now); } else { OutstationCallIs(s, input, now); }
  }

  lemma {:induction false} MasterReturns(s: Station, c: Call)
    requires Kept(s) && s.link.role == Master
    ensures s.link.Handle(c.input, c.now) == Master101.Left(s.link, c).(actions := Master101.Returned(s.link, c))
    ensures Master101.Left(s.link, c).actions == []
  {
    hide Link.Handle;
    Master101.MasterCall(s.link, c);
  }

  lemma {:induction false} OutstationReturns(s: Station, config: Config, log: seq<Call>, c: Call)
    requires Outstation101.Logged(s, config, log)
    ensures Outstation101.Logged(Step(s, c.input, c.now), config, log + [c])
    ensures s.link.Handle(c.input, c.now).actions == Outstation101.Returned(log, config.address, c)
  {
    hide Link.Handle, Step, Outstation101.Returned;
    Outstation101.StepLogged(s, config, log, c);
    Outstation101.CallIs(config, log, c);
  }

  lemma {:induction false} MasterCallIs(s: Station, input: Input, now: nat)
    requires Kept(s) && s.link.role == Master
    ensures var d, t := s.link.Handle(input, now), Step(s, input, now);
            && Kept(t) && t.link == d.(actions := [])
            && (AckTimeout in Errors(d.actions) ==> d.pending.None? && d.state == Failed)
            && QueueInv(t) && Started(s) <= Started(t) <= Started(s) + 1
  {
    hide Link.Dispatch, Frames, Deliveries, Errors, Grouped, ExchangeInv, UserInv;
    var d, news := s.link.Dispatch(input, now), if input.SendUserData? then [input.asdu] else [];
    DispatchOpens(s.link, input, now);
    DispatchQueue(s.link, input, now);
    TimerSends(d, now);
    var e := d.RunTimers(now);
    assert e.actions == d.actions + e.actions[|d.actions|..];
    ErrorsAppend(d.actions, e.actions[|d.actions|..]);
    QueueKept(s, Step(s, input, now), news);
    if s.link.config.maxRetries <= 254 { StepInv(s, input, now); }
  }

  lemma {:induction false} OutstationCallIs(s: Station, input: Input, now: nat)
    requires Kept(s) && s.link.role == Outstation
    ensures var d, t := s.link.Handle(input, now), Step(s, input, now);
            Kept(t) && t.link == d.(actions := []) && AckTimeout !in Errors(d.actions)
  {
    hide Frames, Deliveries, Errors, Grouped, Link.Dispatch, Link.RunTimers;
    OutstationCall(s.link, input, now);
    OutstationReportsNothing(s.link, input, now);
  }

  lemma {:induction false} OutstationReportsNothing(l: Link, input: Input, now: nat)
    requires l.role == Outstation && l.actions == []
    ensures Errors(l.Dispatch(input, now).actions) == []
  {
    hide Frames, Deliveries, Errors, EncodeSecondary, DecodePrimary, Link.MasterOnFrame, Link.FlushQueue;
    var d := l.Dispatch(input, now);
    assert |d.actions| <= 2 && forall i :: 0 <= i < |d.actions| ==> !d.actions[i].LinkError?;
    Short(d.actions);
  }
}
