/** What a master and an outstation deliver over a medium that may lose frames. */
module Delivery101 {
  import opened Common
  import opened Control101
  import opened Link101
  import opened Retry101
  import opened Medium101

  /** The alternating bit: `n` exchanges started, `m` ASDUs delivered, `last` the bit last seen. */
  ghost predicate DataPhase(l: Link, submitted: seq<Bytes>, n: int, m: int, last: Option<bool>, f: Frame,
                            medium: Medium) {
    && 1 <= n <= |submitted| && f == l.DataFrame(Odd(n - 1), submitted[n - 1])
    && (if m == n then last == Some(Odd(n - 1)) else m == n - 1 && last != Some(Odd(n - 1)))
    && (medium == Idle || medium == ToOutstation(f) || (medium == ToMaster(l.ReplyFrame(Ack)) && m == n))
  }

  predicate IsAnswer(l: Link, f: Frame) {
    || f == l.ReplyFrame(Ack) || f == l.ReplyFrame(StatusOfLink) || f == l.ReplyFrame(NackNoData)
    || (f.Variable? && f == l.ResponseFrame(f.asdu))
  }

  /** Everything started has been delivered, and the next bit is a new one to the outstation. */
  ghost predicate Settled(n: int, m: int, last: Option<bool>) { m == n && last != Some(Odd(n)) }

  ghost predicate IsRequest(l: Link, f: Frame) { exists g :: Requestable(g) && f == l.RequestFrame(g) }

  ghost predicate RequestPhase(l: Link, n: int, m: int, last: Option<bool>, f: Frame, medium: Medium) {
    && IsRequest(l, f) && Settled(n, m, last)
    && (medium == Idle || medium == ToOutstation(f) || (medium.ToMaster? && IsAnswer(l, medium.frame)))
  }

  ghost predicate Phase(l: Link, submitted: seq<Bytes>, delivered: seq<Bytes>, last: Option<bool>, medium: Medium) {
    var n, m := |submitted| - |l.queue|, |delivered|;
    && m <= n && delivered == submitted[..m]
    && (if l.pending.None? then Settled(n, m, last) && medium == Idle
        else DataPhase(l, submitted, n, m, last, l.pending.value.frame, medium)
             || RequestPhase(l, n, m, last, l.pending.value.frame, medium))
  }

  ghost predicate MasterInv(s: Station) { MasterReady(s.link) && QueueInv(s) }

  ghost predicate LinkInv(y: System) {
    && MasterInv(y.master) && OutstationReady(y.outstation.link)
    && y.outstation.link.config.address == y.master.link.config.address
    && (if y.master.errors == []
        then Phase(y.master.link, y.master.submitted, y.outstation.delivered, y.outstation.link.lastFcbSeen, y.medium)
        else y.master.errors == [AckTimeout] && y.outstation.delivered <= y.master.submitted)
  }

  lemma {:induction false} MasterKept(s: Station, input: Input, now: nat)
    requires MasterInv(s)
    ensures var t := Step(s, input, now); var d := s.link.Handle(input, now);
            && MasterInv(t) && t.link == d.(actions := []) && t.link.config == s.link.config
            && t.delivered == s.delivered + Deliveries(d.actions) && t.errors == s.errors + Errors(d.actions)
            && t.submitted == s.submitted + (if input.SendUserData? then [input.asdu] else [])
  {
    hide Link.Dispatch, Link.RunTimers, Frames, Deliveries, Errors, Grouped, QueueInv;
    DispatchOpens(s.link, input, now);
    DispatchQueue(s.link, input, now);
    TimerSends(s.link.Dispatch(input, now), now);
    QueueKept(s, Step(s, input, now), if input.SendUserData? then [input.asdu] else []);
  }

  /** The exchange that an idle master starts for the head of its queue is a new one to the outstation. */
  lemma {:induction false} NextExchange(l: Link, d: Link, acts: seq<Action>, submitted: seq<Bytes>,
                                        delivered: seq<Bytes>, last: Option<bool>, q: seq<Bytes>, now: nat)
    requires StartsNext(q, l, d, acts, now) && d.config == l.config
    requires |q| <= |submitted| && q == submitted[|submitted| - |q|..] && l.fcb == Odd(|submitted| - |q|)
    requires delivered == submitted[..|submitted| - |q|] && Settled(|submitted| - |q|, |delivered|, last)
    ensures Phase(d, submitted, delivered, last, Carrying(Idle, Frames(acts), true))
  {
    hide EncodePrimary, EncodeSecondary, Frames;
    var n := |submitted| - |q|;
    if q != [] {
      assert q[0] == submitted[n];
      assert DataPhase(d, submitted, n + 1, n, last, d.pending.value.frame, ToOutstation(d.pending.value.frame));
    }
  }

  /** What the phase says when an answer is in flight: everything started has been delivered. */
  lemma {:induction false} AnswerMeans(l: Link, submitted: seq<Bytes>, delivered: seq<Bytes>, last: Option<bool>,
                                       f: Frame)
    requires Phase(l, submitted, delivered, last, ToMaster(f))
    ensures var n := |submitted| - |l.queue|;
            && l.pending.Some? && 0 <= n == |delivered| && delivered == submitted[..n] && Settled(n, n, last)
            && IsAnswer(l, f)
  {
    hide EncodePrimary, EncodeSecondary, IsRequest;
  }

  lemma {:induction false} AckArrives(s: Station, delivered: seq<Bytes>, last: Option<bool>, f: Frame, now: nat)
    requires MasterInv(s) && s.errors == [] && Phase(s.link, s.submitted, delivered, last, ToMaster(f))
    requires f == s.link.ReplyFrame(Ack)
    ensures var t := Step(s, FrameReceived(f), now);
            && t.errors == []
            && Phase(t.link, t.submitted, delivered, last, Carrying(Idle, Sent(s, FrameReceived(f), now), true))
  {
    hide Link.Handle, Step, EncodePrimary, EncodeSecondary, Frames, Deliveries, Errors, Phase, Carrying;
    var l, d := s.link, s.link.Handle(FrameReceived(f), now);
    MasterKept(s, FrameReceived(f), now);
    AnswerMeans(l, s.submitted, delivered, last, f);
    assert s.submitted + [] == s.submitted;
    MasterTakesAck(l, f, now);
    NextExchange(l, d, d.actions, s.submitted, delivered, last, l.queue, now);
    PhaseIgnoresActions(d, s.submitted, delivered, last, Carrying(Idle, Frames(d.actions), true));
  }

  lemma {:induction false} OtherArrives(s: Station, delivered: seq<Bytes>, last: Option<bool>, f: Frame, now: nat)
    requires MasterInv(s) && s.errors == [] && Phase(s.link, s.submitted, delivered, last, ToMaster(f))
    requires f != s.link.ReplyFrame(Ack)
    ensures var t := Step(s, FrameReceived(f), now);
            && t.errors == []
            && Phase(t.link, t.submitted, delivered, last, Carrying(Idle, Sent(s, FrameReceived(f), now), true))
  {
    hide Link.Handle, Step, EncodePrimary, EncodeSecondary, Frames, Deliveries, Errors, DataPhase, RequestPhase;
    MasterKept(s, FrameReceived(f), now);
    AnswerMeans(s.link, s.submitted, delivered, last, f);
    assert s.submitted + [] == s.submitted;
    MasterTakesOther(s.link, f, now);
  }

  lemma {:induction false} AnswerArrives(y: System, now: nat)
    requires LinkInv(y) && y.master.errors == [] && y.medium.ToMaster?
    ensures var input := FrameReceived(y.medium.frame);
            var t := Step(y.master, input, now);
            && t.errors == []
            && Phase(t.link, t.submitted, y.outstation.delivered, y.outstation.link.lastFcbSeen,
                     Carrying(Idle, Sent(y.master, input, now), true))
  {
    hide Phase, MasterInv, Step, Sent, Carrying;
    if y.medium.frame == y.master.link.ReplyFrame(Ack) {
      AckArrives(y.master, y.outstation.delivered, y.outstation.link.lastFcbSeen, y.medium.frame, now);
    } else {
      OtherArrives(y.master, y.outstation.delivered, y.outstation.link.lastFcbSeen, y.medium.frame, now);
    }
  }

  lemma PhaseIgnoresActions(l: Link, submitted: seq<Bytes>, delivered: seq<Bytes>, last: Option<bool>, medium: Medium)
    requires Phase(l, submitted, delivered, last, medium)
    ensures Phase(l.(actions := []), submitted, delivered, last, medium)
  {
    if l.pending.Some? && RequestPhase(l, |submitted| - |l.queue|, |delivered|, last, l.pending.value.frame, medium) {
      var g :| Requestable(g) && l.pending.value.frame == l.RequestFrame(g);
      assert l.(actions := []).RequestFrame(g) == l.RequestFrame(g);
    }
  }

  /** A user-data frame reaches the outstation: new or repeated, the ASDU is delivered once. */
  lemma {:induction false} DataArrives(m: Link, s: seq<Bytes>, o: Station, now: nat)
    requires OutstationReady(o.link) && o.link.config.address == m.config.address
    requires var n := |s| - |m.queue|;
             && m.pending.Some? && n >= 1 && m.pending.value.frame == m.DataFrame(Odd(n - 1), s[n - 1])
             && Phase(m, s, o.delivered, o.link.lastFcbSeen, ToOutstation(m.pending.value.frame))
    ensures var input := FrameReceived(m.pending.value.frame);
            var t := Step(o, input, now);
            Phase(m, s, t.delivered, t.link.lastFcbSeen, Carrying(Idle, Sent(o, input, now), false))
  {
    hide EncodePrimary, EncodeSecondary, Frames, Deliveries, Errors, Link.Handle, Step, IsRequest;
    var n, f := |s| - |m.queue|, m.pending.value.frame;
    OutstationStep(o, FrameReceived(f), now);
    assert f == o.link.DataFrame(Odd(n - 1), s[n - 1]);
    OutstationTakesData(o.link, Odd(n - 1), s[n - 1], now);
    Short(o.link.Handle(FrameReceived(f), now).actions);
    assert s[..n - 1] + [s[n - 1]] == s[..n];
    assert o.delivered + [] == o.delivered;
    NotRequest(m, Odd(n - 1), s[n - 1]);
  }

  lemma NotRequest(l: Link, bit: bool, asdu: Bytes)
    ensures !IsRequest(l, l.DataFrame(bit, asdu))
  {
  }

  /** A request reaches the outstation: it answers and delivers nothing. */
  lemma {:induction false} RequestArrives(m: Link, s: seq<Bytes>, o: Station, g: PrimaryFunc, now: nat)
    requires OutstationReady(o.link) && o.link.config.address == m.config.address && Requestable(g)
    requires m.pending.Some? && m.pending.value.frame == m.RequestFrame(g)
    requires Phase(m, s, o.delivered, o.link.lastFcbSeen, ToOutstation(m.pending.value.frame))
    ensures var input := FrameReceived(m.pending.value.frame);
            var t := Step(o, input, now);
            Phase(m, s, t.delivered, t.link.lastFcbSeen, Carrying(Idle, Sent(o, input, now), false))
  {
    hide EncodePrimary, EncodeSecondary, Frames, Deliveries, Errors, Link.Handle, Step, IsRequest;
    var f := m.pending.value.frame;
    OutstationStep(o, FrameReceived(f), now);
    assert f == o.link.RequestFrame(g);
    OutstationAnswers(o.link, g, now);
    Short(o.link.Handle(FrameReceived(f), now).actions);
    assert o.delivered + [] == o.delivered;
  }

  lemma {:induction false} FrameArrives(y: System, now: nat)
    requires LinkInv(y) && y.master.errors == [] && y.medium.ToOutstation?
    ensures var input := FrameReceived(y.medium.frame);
            var o := Step(y.outstation, input, now);
            && OutstationReady(o.link) && o.link.config == y.outstation.link.config
            && Phase(y.master.link, y.master.submitted, o.delivered, o.link.lastFcbSeen,
                     Carrying(Idle, Sent(y.outstation, input, now), false))
  {
    hide EncodePrimary, EncodeSecondary, Step, Sent, Carrying, Link.Handle, Requestable, MasterInv;
    OutstationStep(y.outstation, FrameReceived(y.medium.frame), now);
    var m, f := y.master.link, y.medium.frame;
    if f.Variable? {
      assert !IsRequest(m, f);
      DataArrives(m, y.master.submitted, y.outstation, now);
    } else {
      var g :| Requestable(g) && f == m.RequestFrame(g);
      RequestArrives(m, y.master.submitted, y.outstation, g, now);
    }
  }

  lemma {:induction false} OutstationStep(o: Station, input: Input, now: nat)
    requires OutstationReady(o.link)
    ensures var d := o.link.Handle(input, now);
            var t := Step(o, input, now);
            && OutstationReady(t.link) && t.link == d.(actions := []) && t.link.config == o.link.config
            && t.delivered == o.delivered + Deliveries(d.actions)
            && t.submitted == o.submitted + (if input.SendUserData? then [input.asdu] else [])
  {
    hide Link.Dispatch, Link.RunTimers, Frames, Deliveries, Errors, Grouped;
    OutstationCall(o.link, input, now);
  }

  /** An idle master takes an ASDU: with nothing queued before, it starts its exchange at once. */
  lemma {:induction false} IdleSubmits(s: Station, delivered: seq<Bytes>, last: Option<bool>, asdu: Bytes, now: nat)
    requires MasterInv(s) && s.link.pending.None? && Phase(s.link, s.submitted, delivered, last, Idle)
    ensures var input := SendUserData(asdu);
            var t := Step(s, input, now);
            && t.errors == s.errors
            && Phase(t.link, t.submitted, delivered, last, Carrying(Idle, Sent(s, input, now), true))
  {
    hide EncodePrimary, EncodeSecondary, Frames, Deliveries, Errors, Link.Handle, Step, DataPhase, RequestPhase,
         Carrying;
    var l, d := s.link, s.link.Handle(SendUserData(asdu), now);
    MasterKept(s, SendUserData(asdu), now);
    var g := IdleMasterActs(l, SendUserData(asdu), now);
    var t := s.submitted + [asdu];
    QueueKept(s, Station(l.(queue := l.queue + [asdu]), t, [], [], []), [asdu]);
    assert t[..|delivered|] == delivered;
    NextExchange(l, d, d.actions, t, delivered, last, l.queue + [asdu], now);
    PhaseIgnoresActions(d, t, delivered, last, Carrying(Idle, Frames(d.actions), true));
  }

  lemma {:induction false} IdleRequests(s: Station, delivered: seq<Bytes>, last: Option<bool>, input: Input, now: nat)
    requires MasterInv(s) && s.link.pending.None? && Phase(s.link, s.submitted, delivered, last, Idle)
    requires !input.SendUserData? && !input.FrameReceived?
    ensures var t := Step(s, input, now);
            && t.errors == s.errors
            && Phase(t.link, t.submitted, delivered, last, Carrying(Idle, Sent(s, input, now), true))
  {
    hide EncodePrimary, EncodeSecondary, Frames, Deliveries, Errors, Link.Handle, Step, DataPhase;
    MasterKept(s, input, now);
    var g := IdleMasterActs(s.link, input, now);
    assert s.submitted + [] == s.submitted;
  }

  lemma {:induction false} IdleActs(y: System, input: Input, now: nat)
    requires LinkInv(y) && Permitted(y, MasterActs(input, now)) && y.master.link.pending.None?
    ensures LinkInv(Apply(y, MasterActs(input, now)))
  {
    hide Step, Sent, Carrying, DataPhase, RequestPhase, Frames, Deliveries, Errors, Link.Handle, MasterInv,
         OutstationReady;
    MasterKept(y.master, input, now);
    if input.SendUserData? {
      IdleSubmits(y.master, y.outstation.delivered, y.outstation.link.lastFcbSeen, input.asdu, now);
    } else {
      IdleRequests(y.master, y.outstation.delivered, y.outstation.link.lastFcbSeen, input, now);
    }
  }

  lemma {:induction false} WaitingActs(y: System, input: Input, now: nat)
    requires LinkInv(y) && Permitted(y, MasterActs(input, now)) && y.master.link.pending.Some?
    ensures LinkInv(Apply(y, MasterActs(input, now)))
  {
    hide EncodePrimary, EncodeSecondary, Frames, Deliveries, Errors, Link.Handle, Step;
    var s, o := y.master, y.outstation;
    var news := if input.SendUserData? then [input.asdu] else [];
    MasterKept(s, input, now);
    WaitingMasterActs(s.link, input, now);
    assert (s.submitted + news)[..|o.delivered|] == o.delivered;
    assert o.delivered <= s.submitted + news;
  }

  lemma {:induction false} LinkStep(y: System, e: Event)
    requires LinkInv(y)
    ensures LinkInv(Apply(y, e))
  {
    if Permitted(y, e) {
      match e {
        case MasterActs(input, now) =>
          if y.master.link.pending.None? { IdleActs(y, input, now); } else { WaitingActs(y, input, now); }
        case OutstationSubmits(asdu, now) => SubmitKept(y, asdu, now);
        case Lost =>
        case Arrives(now) => ArrivalKept(y, now);
      }
    }
  }

  lemma {:induction false} SubmitKept(y: System, asdu: Bytes, now: nat)
    requires LinkInv(y)
    ensures LinkInv(Apply(y, OutstationSubmits(asdu, now)))
  {
    hide Frames, Errors, Phase, MasterInv, EncodePrimary, EncodeSecondary, Deliveries;
    OutstationStep(y.outstation, SendUserData(asdu), now);
    Short([]);
    assert y.outstation.delivered + [] == y.outstation.delivered;
  }

  lemma {:induction false} ArrivalKept(y: System, now: nat)
    requires LinkInv(y) && y.master.errors == []
    ensures LinkInv(Apply(y, Arrives(now)))
  {
    hide Step, Phase, Sent, Carrying, Link.Handle, MasterInv, Frames, Deliveries, Errors, OutstationReady;
    if y.medium.ToMaster? {
      AnswerArrives(y, now);
      MasterKept(y.master, FrameReceived(y.medium.frame), now);
    } else if y.medium.ToOutstation? {
      FrameArrives(y, now);
    }
  }

  lemma {:induction false} AlwaysLinkInv(mc: Config, oc: Config, events: seq<Event>)
    requires mc.address == oc.address && mc.timeout > 0
    ensures LinkInv(Run(mc, oc, events))
  {
    if events != [] {
      hide LinkInv, Apply;
      AlwaysLinkInv(mc, oc, events[..|events| - 1]);
      LinkStep(Run(mc, oc, events[..|events| - 1]), events[|events| - 1]);
    }
  }

  /** How many user-data exchanges have been answered: all that were started but the one under way. */
  function Answered(s: Station): int {
    Started(s) - (if s.link.pending.Some? && s.link.pending.value.frame.Variable? then 1 else 0)
  }

  /**
   * Over every run the outstation delivers a prefix of what the master submitted: in order, without
   * a duplicate, whatever frames are lost. Every answered ASDU is in it, none is ahead of the master,
   * and the only error a run can end with is a timeout.
   */
  lemma {:induction false} DeliveredOnceInOrder(mc: Config, oc: Config, events: seq<Event>)
    requires mc.address == oc.address && mc.timeout > 0
    ensures var y := Run(mc, oc, events);
            && y.outstation.delivered <= y.master.submitted
            && (y.master.errors == [] || y.master.errors == [AckTimeout])
            && (y.master.errors == [] ==> Answered(y.master) <= |y.outstation.delivered| <= Started(y.master))
  {
    hide Run, MasterInv, EncodePrimary, EncodeSecondary;
    AlwaysLinkInv(mc, oc, events);
  }

  /** What an event puts on the line. */
  function SentBy(y: System, e: Event): seq<Frame> {
    match e
    case MasterActs(input, now) => Sent(y.master, input, now)
    case OutstationSubmits(asdu, now) => Sent(y.outstation, SendUserData(asdu), now)
    case Lost => []
    case Arrives(now) =>
      match y.medium
      case Idle => []
      case ToOutstation(f) => Sent(y.outstation, FrameReceived(f), now)
      case ToMaster(f) => Sent(y.master, FrameReceived(f), now)
  }

  /**
   * The line is never asked to carry two frames: no event sends more than one, and one that does
   * send finds the line idle, or has just taken the frame that was on it.
   */
  lemma {:induction false} HalfDuplex(mc: Config, oc: Config, events: seq<Event>, e: Event)
    requires mc.address == oc.address && mc.timeout > 0
    ensures var y := Run(mc, oc, events);
            Permitted(y, e) ==> |SentBy(y, e)| <= 1 && (SentBy(y, e) != [] ==> e.Arrives? || y.medium == Idle)
  {
    hide Run;
    AlwaysLinkInv(mc, oc, events);
    var y := Run(mc, oc, events);
    if Permitted(y, e) {
      match e {
        case MasterActs(input, now) => MasterSendsOne(y, input, now);
        case OutstationSubmits(asdu, now) => SubmitSendsNone(y.outstation, asdu, now);
        case Lost =>
        case Arrives(now) =>
          if y.medium.ToMaster? { AnswerSendsOne(y, now); }
          if y.medium.ToOutstation? { FrameSendsOne(y, now); }
      }
    }
  }

  lemma {:induction false} MasterSendsOne(y: System, input: Input, now: nat)
    requires LinkInv(y) && Permitted(y, MasterActs(input, now))
    ensures |Sent(y.master, input, now)| <= 1 && (Sent(y.master, input, now) != [] ==> y.medium == Idle)
  {
    hide EncodePrimary, EncodeSecondary, Frames, Deliveries, Errors, Link.Handle;
    if y.master.link.pending.None? {
      var g := IdleMasterActs(y.master.link, input, now);
    } else {
      WaitingMasterActs(y.master.link, input, now);
    }
  }

  lemma {:induction false} SubmitSendsNone(o: Station, asdu: Bytes, now: nat)
    requires OutstationReady(o.link)
    ensures Sent(o, SendUserData(asdu), now) == []
  {
    hide Frames;
    assert o.link.Handle(SendUserData(asdu), now).actions == [];
    Short([]);
  }

  lemma {:induction false} AnswerSendsOne(y: System, now: nat)
    requires LinkInv(y) && y.master.errors == [] && y.medium.ToMaster?
    ensures |Sent(y.master, FrameReceived(y.medium.frame), now)| <= 1
  {
    hide EncodePrimary, EncodeSecondary, Frames, Deliveries, Errors, Link.Handle;
    var l, f := y.master.link, y.medium.frame;
    if f == l.ReplyFrame(Ack) { MasterTakesAck(l, f, now); } else { MasterTakesOther(l, f, now); }
  }

  lemma {:induction false} FrameSendsOne(y: System, now: nat)
    requires LinkInv(y) && y.master.errors == [] && y.medium.ToOutstation?
    ensures |Sent(y.outstation, FrameReceived(y.medium.frame), now)| <= 1
  {
    hide EncodePrimary, EncodeSecondary, Frames, Deliveries, Errors, Link.Handle, MasterInv;
    var l, f, s := y.outstation.link, y.medium.frame, y.master.submitted;
    var n := |s| - |y.master.link.queue|;
    if f.Variable? {
      assert f == l.DataFrame(Odd(n - 1), s[n - 1]);
      OutstationTakesData(l, Odd(n - 1), s[n - 1], now);
    } else {
      var g :| Requestable(g) && f == y.master.link.RequestFrame(g);
      assert f == l.RequestFrame(g);
      OutstationAnswers(l, g, now);
    }
    Short(l.Handle(FrameReceived(f), now).actions);
  }
}
