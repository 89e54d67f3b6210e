/**
 * The 104 connection as a value: what each entry point of the state machine does
 * to the fields of a connection and which actions it queues. `Connection104`
 * holds the object that is updated in place and is proved against this module.
 */
module Conn104 {
  import opened Common
  import opened SeqNo

  datatype Role = Client | Server
  datatype State = Stopped | Starting | Active | Stopping | Closed
  datatype UFunction = StartDtAct | StartDtCon | StopDtAct | StopDtCon | TestFrAct | TestFrCon
  datatype Apdu =
    | I(send: Seq15, recv: Seq15, asdu: Bytes)
    | S(recv: Seq15)
    | U(function_: UFunction)
  {
    /** I- and S-frames carry an N(R). */
    predicate Numbered() { I? || S? }
  }

  datatype Config = Config(k: u16, w: u16, t1: nat, t2: nat, t3: nat)
  datatype Reason = AckTimeout | ProtocolError | StoppedCleanly
  datatype Input = Receive(apdu: Apdu) | StartDt | StopDt | SendAsdu(asdu: Bytes) | Tick
  datatype Action =
    | SendApdu(apdu: Apdu)
    | DeliverAsdu(asdu: Bytes)
    | StateChanged(state: State)
    | Disconnect(reason: Reason)

  /** An I-frame that was sent and is not yet acknowledged. */
  datatype Outstanding = Outstanding(no: Seq15, at: nat)

  datatype Conn = Conn(
    role: Role,
    config: Config,
    state: State,
    sendNext: Seq15,
    recvNext: Seq15,
    sent: seq<Outstanding>,
    unackedRecv: u16,
    lastRecvIFrame: Option<nat>,
    lastSendAny: Option<nat>,
    lastRecvAny: Option<nat>,
    testSent: Option<nat>,
    pending: seq<Bytes>,
    actions: seq<Action>)
  {
    predicate DataTransfer() { state == Active || state == Stopping }

    function Push(a: Action): Conn { this.(actions := actions + [a]) }

    function EmitU(f: UFunction, now: nat): Conn {
      Push(SendApdu(U(f))).(lastSendAny := Some(now))
    }

    function Transition(to: State): Conn {
      if state == to then this else this.(state := to).Push(StateChanged(to))
    }

    function Fail(reason: Reason): Conn { Push(Disconnect(reason)).Transition(Closed) }

    function EmitSupervisory(now: nat): Conn {
      Push(SendApdu(S(recvNext))).(unackedRecv := 0, lastSendAny := Some(now))
    }

    /** How many pending ASDUs the send window admits. */
    function Room(): nat { Min(|pending|, if |sent| < config.k then config.k - |sent| else 0) }

    /** The I-frame that carries the `i`-th pending ASDU. */
    function Frame(i: nat): Apdu
      requires i < |pending|
    {
      I(Wrap(sendNext + i), recvNext, pending[i])
    }

    /** The state after sending the first `n` pending ASDUs at once. */
    function SendFirst(n: nat, now: nat): Conn
      requires n <= |pending|
    {
      if n == 0 then this else
        this.(sendNext := Wrap(sendNext + n),
              sent := sent + seq(n, i requires 0 <= i < n => Outstanding(Wrap(sendNext + i), now)),
              unackedRecv := 0,
              lastSendAny := Some(now),
              pending := pending[n..],
              actions := actions + seq(n, i requires 0 <= i < n => SendApdu(Frame(i))))
    }

    function FlushPending(now: nat): Conn { SendFirst(Room(), now) }

    function Acknowledge(nr: Seq15, now: nat): Conn {
      this.(sent := sent[AckCount(sent, nr)..]).FlushPending(now)
    }

    function OnUserSend(asdu: Bytes, now: nat): Conn {
      if state != Active || |sent| >= config.k then
        this.(pending := pending + [asdu])
      else
        SendIFrame(asdu, now)
    }

    function SendIFrame(asdu: Bytes, now: nat): Conn {
      this.(sendNext := Next(sendNext),
            sent := sent + [Outstanding(sendNext, now)],
            unackedRecv := 0,
            lastSendAny := Some(now),
            actions := actions + [SendApdu(I(sendNext, recvNext, asdu))])
    }

    function OnUserStartDt(now: nat): Conn {
      if role == Client && state == Stopped then EmitU(StartDtAct, now).Transition(Starting) else this
    }

    function OnUserStopDt(now: nat): Conn {
      if state != Active then this
      else if role == Client then EmitU(StopDtAct, now).Transition(Stopping)
      else Transition(Stopped)
    }

    function OnUFrame(f: UFunction, now: nat): Conn {
      match f
      case StartDtCon =>
        if role == Client && state == Starting then Transition(Active).FlushPending(now) else Fail(ProtocolError)
      case StartDtAct =>
        if role == Server && state == Stopped
        then EmitU(StartDtCon, now).Transition(Active).FlushPending(now)
        else Fail(ProtocolError)
      case StopDtAct =>
        if role == Server then EmitU(StopDtCon, now).Transition(Stopped) else Fail(ProtocolError)
      case StopDtCon =>
        if role == Client && state == Stopping then
          if sent == [] then Transition(Stopped).Push(Disconnect(StoppedCleanly)) else this
        else Fail(ProtocolError)
      case TestFrAct => EmitU(TestFrCon, now)
      case TestFrCon => this.(testSent := None)
    }

    /** Whether an I-frame numbered `send` is taken rather than answered with a disconnect. */
    predicate Accepts(send: Seq15) { DataTransfer() && send == recvNext }

    /** The bookkeeping of an accepted I-frame, before its N(R) is processed. */
    function Received(now: nat): Conn {
      this.(recvNext := Next(recvNext),
            unackedRecv := Min(unackedRecv + 1, 0xFFFF),
            lastRecvIFrame := Some(now))
    }

    function SupervisoryIfDue(now: nat): Conn {
      if unackedRecv >= config.w then EmitSupervisory(now) else this
    }

    function OnIFrame(send: Seq15, recv: Seq15, asdu: Bytes, now: nat): Conn {
      if !Accepts(send) then Fail(ProtocolError) else
        Received(now).Acknowledge(recv, now).Push(DeliverAsdu(asdu)).SupervisoryIfDue(now)
    }

    function OnApdu(apdu: Apdu, now: nat): Conn {
      var c := this.(lastRecvAny := Some(now));
      match apdu
      case U(f) => c.OnUFrame(f, now)
      case S(recv) => if DataTransfer() then c.Acknowledge(recv, now) else c
      case I(send, recv, asdu) => c.OnIFrame(send, recv, asdu, now)
    }

    predicate OldestExpired(now: nat) { sent != [] && Elapsed(now, sent[0].at) >= config.t1 }

    predicate TestExpired(now: nat) { testSent.Some? && Elapsed(now, testSent.value) >= config.t1 }

    /** t2 counts from the newest received I-frame. */
    predicate AckDue(now: nat) {
      unackedRecv > 0 && lastRecvIFrame.Some? && Elapsed(now, lastRecvIFrame.value) >= config.t2
    }

    function LastIo(): Option<nat> {
      match (lastSendAny, lastRecvAny)
      case (Some(a), Some(b)) => Some(Max(a, b))
      case (None, b) => b
      case (a, None) => a
    }

    predicate IdleTestDue(now: nat) {
      DataTransfer() && testSent.None? && LastIo().Some? && Elapsed(now, LastIo().value) >= config.t3
    }

    function AckTimer(now: nat): Conn { if AckDue(now) then EmitSupervisory(now) else this }

    function IdleTimer(now: nat): Conn {
      if IdleTestDue(now) then EmitU(TestFrAct, now).(testSent := Some(now)) else this
    }

    function FinishStop(): Conn {
      if state == Stopping && sent == [] && pending == []
      then Transition(Stopped).Push(Disconnect(StoppedCleanly)) else this
    }

    function RunTimers(now: nat): Conn {
      if OldestExpired(now) || TestExpired(now) then Fail(AckTimeout)
      else AckTimer(now).IdleTimer(now).FinishStop()
    }

    function Dispatch(input: Input, now: nat): Conn {
      match input
      case Receive(apdu) => OnApdu(apdu, now)
      case StartDt => OnUserStartDt(now)
      case StopDt => OnUserStopDt(now)
      case SendAsdu(asdu) => OnUserSend(asdu, now)
      case Tick => this
    }

    /** Everything one call does; the actions are still queued in the result. */
    function Handle(input: Input, now: nat): Conn { Dispatch(input, now).RunTimers(now) }
  }

  function New(role: Role, config: Config): Conn {
    Conn(role, config, Stopped, 0, 0, [], 0, None, None, None, None, [], [])
  }

  /** How many frames at the front of `sent` an incoming N(R) acknowledges. */
  function AckCount(sent: seq<Outstanding>, nr: Seq15): (n: nat)
    ensures n <= |sent|
  {
    if sent == [] then 0 else
      var d := Distance(sent[0].no, nr);
      if d == 0 || d > MAX / 2 then 0 else 1 + AckCount(sent[1..], nr)
  }

  /** The numbers of `sent` are a contiguous cyclic run that starts at count `first`. */
  ghost predicate Contiguous(sent: seq<Outstanding>, first: nat) {
    forall i :: 0 <= i < |sent| ==> sent[i].no == Wrap(first + i)
  }

  /**
   * On a contiguous run an N(R) at distance 1 to 2^14 - 1 of the oldest frame removes
   * that many frames, capped by the length of the run; any other N(R) removes none.
   */
  lemma {:induction false} AckCountClosed(sent: seq<Outstanding>, first: nat, nr: Seq15)
    requires Contiguous(sent, first)
    requires sent != []
    ensures AckCount(sent, nr) ==
            (var d := Distance(Wrap(first), nr);
             if 1 <= d <= 0x3FFF then Min(d, |sent|) else 0)
  {
    var d := Distance(Wrap(first), nr);
    assert sent[0].no == Wrap(first + 0);
    if 1 <= d <= 0x3FFF && |sent| > 1 {
      forall i | 0 <= i < |sent[1..]| ensures sent[1..][i].no == Wrap(first + 1 + i) {
        assert sent[1..][i] == sent[i + 1];
      }
      AckCountClosed(sent[1..], first + 1, nr);
      DistanceOneStep(first, nr);
    }
  }

  /**
   * Acknowledging `n` outstanding frames at once takes effect exactly up to half the number
   * space: a window above 2^14 - 1 frames, though below 2^15, can be acknowledged in vain.
   */
  lemma {:induction false} AckTakesEffectIff(sent: seq<Outstanding>, first: nat, n: nat)
    requires Contiguous(sent, first) && 1 <= n <= |sent| && n < MODULUS
    ensures AckCount(sent, Wrap(first + n)) == n <==> n <= 0x3FFF
    ensures n > 0x3FFF ==> AckCount(sent, Wrap(first + n)) == 0
  {
    AckCountClosed(sent, first, Wrap(first + n));
    DistanceWrap(first, first + n);
  }
}
