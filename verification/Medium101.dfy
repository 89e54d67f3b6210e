/**
 * A 101 master and an outstation on a half-duplex medium that carries one frame at a time
 * and may lose it. A timeout fires only when nothing is in flight, a reset is issued only
 * between exchanges, and the run ends at the first link error, where the driver stops.
 */
module Medium101 {
  import opened Common
  import opened Control101
  import opened Link101
  import opened Retry101

  datatype Medium = Idle | ToOutstation(frame: Frame) | ToMaster(frame: Frame)
  datatype System = System(master: Station, outstation: Station, medium: Medium)

  datatype Event =
    | MasterActs(input: Input, now: nat)
    | OutstationSubmits(asdu: Bytes, now: nat)
    | Arrives(now: nat)
    | Lost

  function Sent(s: Station, input: Input, now: nat): seq<Frame> { Frames(s.link.Handle(input, now).actions) }

  /** The medium after a station sent `frames`: the last of them is in flight. */
  function Carrying(before: Medium, frames: seq<Frame>, fromMaster: bool): Medium {
    if frames == [] then before
    else if fromMaster then ToOutstation(frames[|frames| - 1])
    else ToMaster(frames[|frames| - 1])
  }

  predicate Permitted(y: System, e: Event) {
    && y.master.errors == []
    && (e.MasterActs? ==>
          && !e.input.FrameReceived?
          && (e.input.ResetLink? ==> y.master.link.pending.None?)
          && (y.master.link.Expired(e.now) ==> y.medium == Idle))
  }

  function Apply(y: System, e: Event): System {
    if !Permitted(y, e) then y else
    match e
    case MasterActs(input, now) =>
      System(Step(y.master, input, now), y.outstation, Carrying(y.medium, Sent(y.master, input, now), true))
    case OutstationSubmits(asdu, now) =>
      System(y.master, Step(y.outstation, SendUserData(asdu), now), y.medium)
    case Lost => y.(medium := Idle)
    case Arrives(now) =>
      match y.medium
      case Idle => y
      case ToOutstation(f) =>
        var input := FrameReceived(f);
        System(y.master, Step(y.outstation, input, now), Carrying(Idle, Sent(y.outstation, input, now), false))
      case ToMaster(f) =>
        var input := FrameReceived(f);
        System(Step(y.master, input, now), y.outstation, Carrying(Idle, Sent(y.master, input, now), true))
  }

  function Start(mc: Config, oc: Config): System { System(Init(Master, mc), Init(Outstation, oc), Idle) }

  function Run(mc: Config, oc: Config, events: seq<Event>): System {
    if events == [] then Start(mc, oc) else
      Apply(Run(mc, oc, events[..|events| - 1]), events[|events| - 1])
  }

  // ------------------------------------------------------------------
  // What one call does
  // ------------------------------------------------------------------

  predicate OutstationReady(l: Link) { l.role == Outstation && l.pending.None? && l.actions == [] }

  lemma {:induction false} OutstationTakesData(l: Link, bit: bool, asdu: Bytes, now: nat)
    requires OutstationReady(l)
    ensures l.Handle(FrameReceived(l.DataFrame(bit, asdu)), now) ==
            l.(lastFcbSeen := Some(bit),
               actions := [SendFrame(l.ReplyFrame(Ack))]
                          + (if l.lastFcbSeen == Some(bit) then [] else [DeliverAsdu(asdu)]))
  {
    ControlRoundTrip(Primary(bit, true, UserDataConfirmed), Secondary(false, false, Ack));
    hide EncodePrimary, DecodePrimary, EncodeSecondary, DecodeSecondary;
  }

  predicate Requestable(f: PrimaryFunc) {
    f == ResetRemoteLink || f == RequestStatus || f == RequestClass1 || f == RequestClass2
  }

  /** An outstation answers every request with one frame, and only a poll costs it an ASDU. */
  lemma {:induction false} OutstationAnswers(l: Link, f: PrimaryFunc, now: nat)
    requires OutstationReady(l) && Requestable(f)
    ensures var d := l.Handle(FrameReceived(l.RequestFrame(f)), now);
            && d.role == Outstation && d.config == l.config && d.pending.None?
            && (d.lastFcbSeen == l.lastFcbSeen || d.lastFcbSeen.None?)
            && (if (f == RequestClass1 || f == RequestClass2) && l.queue != []
                then d.queue == l.queue[1..] && d.actions == [SendFrame(l.ResponseFrame(l.queue[0]))]
                else d.queue == l.queue && d.actions != [] && d.actions[0].SendFrame?
                     && (forall i :: 1 <= i < |d.actions| ==> d.actions[i].LinkStateChanged?) && |d.actions| <= 2
                     && (d.actions[0].frame == l.ReplyFrame(Ack) || d.actions[0].frame == l.ReplyFrame(StatusOfLink)
                         || d.actions[0].frame == l.ReplyFrame(NackNoData)))
  {
    ControlRoundTrip(Primary(false, false, f), Secondary(false, false, Ack));
    hide EncodePrimary, DecodePrimary, EncodeSecondary, DecodeSecondary;
  }

  predicate MasterReady(l: Link) { l.role == Master && l.actions == [] && l.config.timeout > 0 }

  /** An idle master with `q` waiting starts the exchange for its head, if there is one. */
  ghost predicate StartsNext(q: seq<Bytes>, l: Link, d: Link, acts: seq<Action>, now: nat) {
    && Frames(acts) == (if q == [] then [] else [l.DataFrame(l.fcb, q[0])])
    && d.pending == (if q == [] then None else Some(Exchange(l.DataFrame(l.fcb, q[0]), now, 1)))
    && d.queue == (if q == [] then [] else q[1..])
    && d.fcb == (if q == [] then l.fcb else !l.fcb)
  }

  ghost predicate Quiet(acts: seq<Action>) { Deliveries(acts) == [] && Errors(acts) == [] }

  lemma {:induction false} FlushStarts(l: Link, now: nat)
    requires l.pending.None? && |l.actions| <= 1 && l.config.timeout > 0
    requires forall i :: 0 <= i < |l.actions| ==> l.actions[i].LinkStateChanged?
    ensures var d := l.FlushQueue(now).RunTimers(now);
            StartsNext(l.queue, l, d, d.actions, now) && Quiet(d.actions) && d.config == l.config && d.role == l.role
  {
    hide EncodePrimary, Frames, Deliveries, Errors;
    var d := l.FlushQueue(now);
    assert !d.Expired(now);
    Short(d.actions);
  }

  lemma {:induction false} MasterTakesAck(l: Link, f: Frame, now: nat)
    requires MasterReady(l) && l.pending.Some? && f == l.ReplyFrame(Ack)
    ensures var d := l.Handle(FrameReceived(f), now);
            StartsNext(l.queue, l, d, d.actions, now) && Quiet(d.actions) && d.config == l.config && d.role == Master
  {
    ControlRoundTrip(Primary(false, false, RequestStatus), Secondary(false, false, Ack));
    hide EncodePrimary, EncodeSecondary, DecodeSecondary, Frames, Deliveries, Errors, Link.FlushQueue, Link.RunTimers;
    var l1 := l.(pending := None);
    FlushStarts(if l.state == NotReady then l1.Transition(Ready) else l1, now);
  }

  /** Any other answer ends the exchange and starts none. */
  lemma {:induction false} MasterTakesOther(l: Link, f: Frame, now: nat)
    requires MasterReady(l)
    requires || f == l.ReplyFrame(StatusOfLink) || f == l.ReplyFrame(NackNoData)
             || (f.Variable? && f == l.ResponseFrame(f.asdu))
    ensures var d := l.Handle(FrameReceived(f), now);
            && d.pending.None? && d.queue == l.queue && d.fcb == l.fcb && d.config == l.config && d.role == Master
            && Frames(d.actions) == [] && Errors(d.actions) == []
            && Deliveries(d.actions) == (if f.Variable? then [f.asdu] else [])
  {
    ControlRoundTrip(Primary(false, false, RequestStatus), Secondary(false, false, StatusOfLink));
    ControlRoundTrip(Primary(false, false, RequestStatus), Secondary(false, false, NackNoData));
    ControlRoundTrip(Primary(false, false, RequestStatus), Secondary(false, false, RespondUserData));
    hide EncodePrimary, EncodeSecondary, DecodeSecondary, Frames, Deliveries, Errors, Link.FlushQueue, Link.GiveUp,
         Link.Retransmit;
    var d := l.MasterOnFrame(f, now);
    assert d.pending.None? && |d.actions| <= 1;
    assert d.actions != [] ==> d.actions[0] == (if f.Variable? then DeliverAsdu(f.asdu) else LinkStateChanged(Ready));
    assert l.Handle(FrameReceived(f), now) == d;
    Short(d.actions);
  }

  /** A local input of an idle master. */
  lemma {:induction false} IdleMasterActs(l: Link, input: Input, now: nat) returns (func: PrimaryFunc)
    requires MasterReady(l) && l.pending.None? && !input.FrameReceived?
    ensures Requestable(func)
    ensures var d := l.Handle(input, now);
            && Quiet(d.actions) && d.config == l.config && d.role == Master
            && (if input.SendUserData? then StartsNext(l.queue + [input.asdu], l, d, d.actions, now)
                else d.queue == l.queue && d.fcb == l.fcb
                     && (if input.Tick? then d.pending.None? && Frames(d.actions) == []
                         else && d.pending == Some(Exchange(l.RequestFrame(func), now, 1))
                              && Frames(d.actions) == [l.RequestFrame(func)]))
  {
    hide EncodePrimary, EncodeSecondary, Frames, Deliveries, Errors, Link.MasterOnFrame, Link.OutstationOnFrame,
         Link.FlushQueue;
    func := match input
            case AskStatus => RequestStatus
            case Poll(class1) => if class1 then RequestClass1 else RequestClass2
            case _ => ResetRemoteLink;
    if input.SendUserData? {
      FlushStarts(l.(queue := l.queue + [input.asdu]), now);
    } else {
      var d := l.Dispatch(input, now);
      assert !d.Expired(now);
      Short(d.actions);
    }
  }

  /** A local input of a waiting master only queues; its timer repeats the frame or gives up. */
  lemma {:induction false} WaitingMasterActs(l: Link, input: Input, now: nat)
    requires MasterReady(l) && l.pending.Some? && !input.FrameReceived? && !input.ResetLink?
    ensures var d := l.Handle(input, now);
            && d.config == l.config && d.role == Master && d.fcb == l.fcb && Deliveries(d.actions) == []
            && d.queue == l.queue + (if input.SendUserData? then [input.asdu] else [])
            && (if !l.Expired(now) then d.pending == l.pending && Frames(d.actions) == [] && Errors(d.actions) == []
                else if l.Exhausted()
                then d.pending.None? && Frames(d.actions) == [] && Errors(d.actions) == [AckTimeout]
                else d.pending.Some? && d.pending.value.frame == l.pending.value.frame
                     && Frames(d.actions) == [l.pending.value.frame] && Errors(d.actions) == [])
  {
    hide EncodePrimary, EncodeSecondary, Frames, Deliveries, Errors, Link.MasterOnFrame, Link.OutstationOnFrame;
    var d := l.Dispatch(input, now);
    assert d == l.(queue := l.queue + (if input.SendUserData? then [input.asdu] else []));
    TimerSends(d, now);
    assert d.RunTimers(now).actions[0..] == d.RunTimers(now).actions;
  }
}
