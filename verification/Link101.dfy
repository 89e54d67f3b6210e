/**
 * The 101 link layer in unbalanced mode as a value: what each entry point does to the
 * fields of a link and which actions it queues. `LinkObject101` holds the object that
 * is updated in place and is proved against this module.
 */
module Link101 {
  import opened Common
  import opened Control101

  datatype Role = Master | Outstation
  datatype LinkState = NotReady | Ready | Failed
  datatype Config = Config(address: u16, timeout: nat, maxRetries: byte)
  datatype Reason = AckTimeout | NackReceived | ProtocolError
  datatype Input =
    | FrameReceived(frame: Frame)
    | Tick
    | SendUserData(asdu: Bytes)
    | AskStatus
    | ResetLink
    | Poll(class1: bool)
  datatype Action =
    | SendFrame(frame: Frame)
    | DeliverAsdu(asdu: Bytes)
    | LinkStateChanged(state: LinkState)
    | LinkError(reason: Reason)

  /** A confirmed exchange that waits for its answer; `attempts` is a u8. */
  datatype Exchange = Exchange(frame: Frame, at: nat, attempts: byte)

  datatype Link = Link(
    role: Role,
    config: Config,
    state: LinkState,
    fcb: bool,
    lastFcbSeen: Option<bool>,
    pending: Option<Exchange>,
    queue: seq<Bytes>,
    actions: seq<Action>)
  {
    function Push(a: Action): Link { this.(actions := actions + [a]) }

    function Transition(to: LinkState): Link {
      if state == to then this else this.(state := to).Push(LinkStateChanged(to))
    }

    function SendWithConfirm(f: Frame, now: nat): Link {
      Push(SendFrame(f)).(pending := Some(Exchange(f, now, 1)))
    }

    function RequestFrame(f: PrimaryFunc): Frame { Fixed(EncodePrimary(Primary(false, false, f)), config.address) }

    function DataFrame(bit: bool, asdu: Bytes): Frame {
      Variable(EncodePrimary(Primary(bit, true, UserDataConfirmed)), config.address, asdu)
    }

    function ReplyFrame(f: SecondaryFunc): Frame { Fixed(EncodeSecondary(Secondary(false, false, f)), config.address) }

    function ResponseFrame(asdu: Bytes): Frame {
      Variable(EncodeSecondary(Secondary(false, false, RespondUserData)), config.address, asdu)
    }

    /** Start the next user-data exchange if none is under way. */
    function FlushQueue(now: nat): Link {
      if pending.Some? || queue == [] then this
      else this.(queue := queue[1..]).SendWithConfirm(DataFrame(fcb, queue[0]), now).(fcb := !fcb)
    }

    function MasterOnSecondary(f: SecondaryFunc, now: nat): Link {
      match f
      case Ack =>
        if pending.None? then this else
          var l := this.(pending := None);
          (if state == NotReady then l.Transition(Ready) else l).FlushQueue(now)
      case Nack => this.(pending := None).Push(LinkError(NackReceived))
      case StatusOfLink =>
        var l := this.(pending := None);
        if state == NotReady then l.Transition(Ready) else l
      case NackNoData => this.(pending := None)
      case RespondUserData => Push(LinkError(ProtocolError))
    }

    function MasterOnFrame(f: Frame, now: nat): Link {
      match f
      case Single(AckChar) => if pending.None? then this else this.(pending := None).FlushQueue(now)
      case Single(NackChar) => this.(pending := None).Push(LinkError(NackReceived))
      case Fixed(control, _) =>
        var s := DecodeSecondary(control);
        if s.None? then Push(LinkError(ProtocolError)) else MasterOnSecondary(s.value.func, now)
      case Variable(control, _, asdu) =>
        var s := DecodeSecondary(control);
        if s.Some? && s.value.func == RespondUserData
        then this.(pending := None).Push(DeliverAsdu(asdu))
        else Push(LinkError(ProtocolError))
    }

    function OutstationOnFixed(p: Primary): Link {
      match p.func
      case ResetRemoteLink => this.(lastFcbSeen := None).Push(SendFrame(ReplyFrame(Ack))).Transition(Ready)
      case RequestStatus => Push(SendFrame(ReplyFrame(StatusOfLink)))
      case RequestClass1 => AnswerPoll()
      case RequestClass2 => AnswerPoll()
      case _ => this
    }

    function AnswerPoll(): Link {
      if queue == [] then Push(SendFrame(ReplyFrame(NackNoData)))
      else this.(queue := queue[1..]).Push(SendFrame(ResponseFrame(queue[0])))
    }

    predicate Duplicate(p: Primary) { p.fcv && lastFcbSeen == Some(p.fcb) }

    function OutstationOnVariable(p: Primary, asdu: Bytes): Link {
      match p.func
      case UserDataConfirmed =>
        var l := this.(lastFcbSeen := if p.fcv then Some(p.fcb) else lastFcbSeen).Push(SendFrame(ReplyFrame(Ack)));
        if Duplicate(p) then l else l.Push(DeliverAsdu(asdu))
      case UserDataUnconfirmed => Push(DeliverAsdu(asdu))
      case _ => this
    }

    function OutstationOnFrame(f: Frame): Link {
      match f
      case Single(_) => this
      case Fixed(control, address) =>
        var p := DecodePrimary(control);
        if address != config.address || p.None? then this else OutstationOnFixed(p.value)
      case Variable(control, address, asdu) =>
        var p := DecodePrimary(control);
        if address != config.address || p.None? then this else OutstationOnVariable(p.value, asdu)
    }

    function Request(f: PrimaryFunc, now: nat): Link {
      if role != Master || pending.Some? then this else SendWithConfirm(RequestFrame(f), now)
    }

    function OnReset(now: nat): Link {
      if role != Master then this
      else this.(pending := None).SendWithConfirm(RequestFrame(ResetRemoteLink), now)
    }

    function OnSendUserData(asdu: Bytes, now: nat): Link {
      var l := this.(queue := queue + [asdu]);
      if role == Master then l.FlushQueue(now) else l
    }

    function Dispatch(input: Input, now: nat): Link {
      match input
      case FrameReceived(f) => if role == Master then MasterOnFrame(f, now) else OutstationOnFrame(f)
      case Tick => this
      case SendUserData(asdu) => OnSendUserData(asdu, now)
      case AskStatus => Request(RequestStatus, now)
      case ResetLink => OnReset(now)
      case Poll(class1) => Request(if class1 then RequestClass1 else RequestClass2, now)
    }

    predicate Expired(now: nat) { pending.Some? && Elapsed(now, pending.value.at) >= config.timeout }

    predicate Exhausted() { pending.Some? && pending.value.attempts > config.maxRetries }

    function GiveUp(): Link { this.(pending := None).Transition(Failed).Push(LinkError(AckTimeout)) }

    /** The attempt counter is a u8: adding to 255 wraps (and panics in a build with overflow checks). */
    function Retransmit(now: nat): Link
      requires pending.Some?
    {
      var x := pending.value;
      Push(SendFrame(x.frame)).(pending := Some(Exchange(x.frame, now, (x.attempts + 1) % 0x100)))
    }

    function RunTimers(now: nat): Link {
      if !Expired(now) then this else if Exhausted() then GiveUp() else Retransmit(now)
    }

    /** Everything one call does; the actions are still queued in the result. */
    function Handle(input: Input, now: nat): Link { Dispatch(input, now).RunTimers(now) }
  }

  function New(role: Role, config: Config): Link { Link(role, config, NotReady, false, None, None, [], []) }
}
