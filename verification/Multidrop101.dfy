/**
 * A master and any number of outstations on one line. Every station hears every frame, yet the run is
 * that of the master and the one outstation it addresses; the others neither send nor deliver.
 */
module Multidrop101 {
  import opened Common
  import opened Control101
  import opened Link101
  import opened Retry101
  import M = Medium101
  import Delivery101
  import opened Outstation101

  /** The frame on the line: from the master, or from the outstation at a place. */
  datatype Line = Quiet | Down(frame: Frame) | Up(frame: Frame, from: nat)
  datatype Plant = Plant(master: Station, outstations: seq<Station>, line: Line)

  datatype Event =
    | MasterActs(input: Input, now: nat)
    | Submits(place: nat, asdu: Bytes, now: nat)
    | Arrives(now: nat)
    | Lost

  /** All outstations but the one at `skip` have heard `f`. */
  function Heard(os: seq<Station>, f: Frame, now: nat, skip: nat): seq<Station> {
    seq(|os|, i requires 0 <= i < |os| => if i == skip then os[i] else Step(os[i], FrameReceived(f), now))
  }

  /** What the first `n` outstations, but the one at `skip`, put on the line when they hear `f`. */
  function Answers(os: seq<Station>, f: Frame, now: nat, skip: nat, n: nat): Line
    requires n <= |os|
  {
    if n == 0 then Quiet else
      var sent := M.Sent(os[n - 1], FrameReceived(f), now);
      if n - 1 != skip && sent != [] then Up(sent[|sent| - 1], n - 1) else Answers(os, f, now, skip, n - 1)
  }

  predicate Permitted(p: Plant, e: Event) {
    && p.master.errors == []
    && (e.MasterActs? ==>
          && !e.input.FrameReceived? && (e.input.ResetLink? ==> p.master.link.pending.None?)
          && (p.master.link.Expired(e.now) ==> p.line == Quiet))
  }

  function Apply(p: Plant, e: Event): Plant {
    if !Permitted(p, e) then p else
    match e
    case MasterActs(input, now) =>
      var sent := M.Sent(p.master, input, now);
      p.(master := Step(p.master, input, now), line := if sent == [] then p.line else Down(sent[|sent| - 1]))
    case Submits(i, asdu, now) =>
      if i >= |p.outstations| then p
      else p.(outstations := p.outstations[i := Step(p.outstations[i], SendUserData(asdu), now)])
    case Lost => p.(line := Quiet)
    case Arrives(now) =>
      match p.line
      case Quiet => p
      case Down(f) =>
        var n := |p.outstations|;
        p.(outstations := Heard(p.outstations, f, now, n), line := Answers(p.outstations, f, now, n, n))
      case Up(f, from) =>
        var sent := M.Sent(p.master, FrameReceived(f), now);
        Plant(Step(p.master, FrameReceived(f), now), Heard(p.outstations, f, now, from),
              if sent != [] then Down(sent[|sent| - 1])
              else Answers(p.outstations, f, now, from, |p.outstations|))
  }

  function Start(mc: Config, ocs: seq<Config>): Plant {
    Plant(Init(Master, mc), seq(|ocs|, i requires 0 <= i < |ocs| => Init(Outstation, ocs[i])), Quiet)
  }

  function Run(mc: Config, ocs: seq<Config>, events: seq<Event>): Plant {
    if events == [] then Start(mc, ocs) else Apply(Run(mc, ocs, events[..|events| - 1]), events[|events| - 1])
  }

  // ------------------------------------------------------------------
  // Addresses
  // ------------------------------------------------------------------

  ghost predicate AllFor(frames: seq<Frame>, a: u16) { forall i :: 0 <= i < |frames| ==> ForMe(frames[i], a) }

  /** The frame a master waits on carries its address. */
  ghost predicate MasterReady(l: Link) {
    && l.role == Master && l.actions == []
    && (l.pending.Some? ==> ForMe(l.pending.value.frame, l.config.address))
  }

  lemma {:induction false} DispatchAddresses(l: Link, input: Input, now: nat)
    requires MasterReady(l)
    ensures var d := l.Dispatch(input, now); d.pending.Some? ==> ForMe(d.pending.value.frame, l.config.address)
  {
    hide EncodePrimary, DecodeSecondary, Link.OutstationOnFrame, Link.MasterOnSecondary;
    if input.FrameReceived? && input.frame.Fixed? && DecodeSecondary(input.frame.control).Some? {
      SecondaryAddresses(l, DecodeSecondary(input.frame.control).value.func, now);
    }
  }

  lemma {:induction false} SecondaryAddresses(l: Link, f: SecondaryFunc, now: nat)
    requires MasterReady(l)
    ensures var d := l.MasterOnSecondary(f, now); d.pending.Some? ==> ForMe(d.pending.value.frame, l.config.address)
  {
    hide EncodePrimary;
  }

  /** Every frame a master sends carries its address. */
  lemma {:induction false} MasterAddresses(l: Link, input: Input, now: nat)
    requires MasterReady(l)
    ensures var d := l.Handle(input, now);
            && AllFor(Frames(d.actions), l.config.address) && MasterReady(d.(actions := []))
            && d.config == l.config
  {
    hide Link.Dispatch, Frames, Deliveries, Errors;
    var d := l.Dispatch(input, now);
    DispatchAddresses(l, input, now);
    DispatchOpens(l, input, now);
    TimerSends(d, now);
    var e := d.RunTimers(now);
    var tail := e.actions[|d.actions|..];
    assert e.actions == d.actions + tail;
    FramesAppend(d.actions, tail);
  }

  lemma {:induction false} FramesAppend(a: seq<Action>, b: seq<Action>)
    ensures Frames(a + b) == Frames(a) + Frames(b)
  {
    if b == [] {
      assert a + b == a;
    } else {
      FramesAppend(a, b[..|b| - 1]);
      assert (a + b)[..|a + b| - 1] == a + b[..|b| - 1];
    }
  }

  /** Every frame an outstation sends carries its own. */
  lemma {:induction false} OutstationAddresses(l: Link, input: Input, now: nat)
    requires M.OutstationReady(l)
    ensures AllFor(Frames(l.Handle(input, now).actions), l.config.address)
  {
    hide Link.Handle, Frames;
    OutstationSends(l, input, now);
    FramesFor(l.Handle(input, now).actions, l.config.address);
  }

  lemma {:induction false} OutstationSends(l: Link, input: Input, now: nat)
    requires M.OutstationReady(l)
    ensures SendsOwn(l, l.Handle(input, now))
  {
    hide DecodePrimary, Link.MasterOnFrame, Link.OutstationOnFixed, Link.OutstationOnVariable;
    if input.FrameReceived? && !input.frame.Single? && DecodePrimary(input.frame.control).Some? {
      FunctionSends(l, DecodePrimary(input.frame.control).value,
                    if input.frame.Variable? then input.frame.asdu else []);
    }
  }

  ghost predicate SendsOwn(l: Link, d: Link) {
    && d.pending.None?
    && forall i :: 0 <= i < |d.actions| && d.actions[i].SendFrame? ==> ForMe(d.actions[i].frame, l.config.address)
  }

  lemma {:induction false} FunctionSends(l: Link, p: Primary, asdu: Bytes)
    requires M.OutstationReady(l)
    ensures SendsOwn(l, l.OutstationOnFixed(p)) && SendsOwn(l, l.OutstationOnVariable(p, asdu))
  {
    hide EncodeSecondary;
  }

  lemma {:induction false} FramesFor(acts: seq<Action>, a: u16)
    requires forall i :: 0 <= i < |acts| && acts[i].SendFrame? ==> ForMe(acts[i].frame, a)
    ensures AllFor(Frames(acts), a)
  {
    if acts != [] { FramesFor(acts[..|acts| - 1], a); }
  }

  // ------------------------------------------------------------------
  // Only the addressed one takes part
  // ------------------------------------------------------------------

  /** An outstation that has only been given ASDUs. */
  ghost predicate Untouched(s: Station, config: Config) {
    s.link == New(Outstation, config).(queue := s.submitted) && s.exchanges == [] && s.delivered == [] && s.errors == []
  }

  /** At most one outstation, the one at `k`, has the master's address. */
  ghost predicate Addressed(mc: Config, ocs: seq<Config>, k: nat) {
    forall i :: 0 <= i < |ocs| ==> (ocs[i].address == mc.address <==> i == k)
  }

  ghost predicate LineInv(p: Plant, mc: Config, ocs: seq<Config>, k: nat) {
    && MasterReady(p.master.link) && p.master.link.config == mc && |p.outstations| == |ocs|
    && (forall i :: 0 <= i < |ocs| && i != k ==> Untouched(p.outstations[i], ocs[i]))
    && (k < |ocs| ==> M.OutstationReady(p.outstations[k].link) && p.outstations[k].link.config == ocs[k])
    && (p.line.Down? ==> ForMe(p.line.frame, mc.address))
    && (p.line.Up? ==> ForMe(p.line.frame, mc.address) && p.line.from == k < |ocs|)
  }

  lemma {:induction false} StaysUntouched(s: Station, config: Config, f: Frame, now: nat)
    requires Untouched(s, config) && !ForMe(f, config.address)
    ensures Step(s, FrameReceived(f), now) == s && M.Sent(s, FrameReceived(f), now) == []
  {
    hide Link.Dispatch, Link.RunTimers, Frames, Deliveries, Errors;
    NotForMe(s.link, f, now);
    StepFields(s, FrameReceived(f), now);
    Short([]);
    NoFrames(s, f, now);
    assert s.submitted + [] == s.submitted;
  }

  lemma {:induction false} NoFrames(s: Station, f: Frame, now: nat)
    requires s.link.role == Outstation && s.link.pending.None? && s.link.actions == []
    requires !ForMe(f, s.link.config.address)
    ensures Step(s, FrameReceived(f), now).exchanges == s.exchanges
  {
    hide Frames;
    Short([]);
  }

  lemma {:induction false} SubmitUntouched(s: Station, config: Config, asdu: Bytes, now: nat)
    requires Untouched(s, config)
    ensures Untouched(Step(s, SendUserData(asdu), now), config)
  {
    hide Frames, Deliveries, Errors;
    Short([]);
  }

  function Last(sent: seq<Frame>, from: nat): Line { if sent == [] then Quiet else Up(sent[|sent| - 1], from) }

  /** Of all who hear a frame with the master's address only the addressed outstation can answer. */
  lemma {:induction false} OneAnswers(p: Plant, mc: Config, ocs: seq<Config>, k: nat, f: Frame, now: nat, skip: nat,
                                      n: nat)
    requires LineInv(p, mc, ocs, k) && Addressed(mc, ocs, k) && ForMe(f, mc.address) && n <= |ocs|
    ensures Answers(p.outstations, f, now, skip, n) ==
            if k >= n || k == skip then Quiet else Last(M.Sent(p.outstations[k], FrameReceived(f), now), k)
  {
    hide M.Sent, Untouched, MasterReady;
    if n > 0 {
      OneAnswers(p, mc, ocs, k, f, now, skip, n - 1);
      if n - 1 != k { StaysUntouched(p.outstations[n - 1], ocs[n - 1], f, now); }
    }
  }

  /** And only that one is changed. */
  lemma {:induction false} OneHears(p: Plant, mc: Config, ocs: seq<Config>, k: nat, f: Frame, now: nat, skip: nat)
    requires LineInv(p, mc, ocs, k) && Addressed(mc, ocs, k) && ForMe(f, mc.address)
    ensures Heard(p.outstations, f, now, skip) ==
            if k >= |ocs| || k == skip then p.outstations
            else p.outstations[k := Step(p.outstations[k], FrameReceived(f), now)]
  {
    hide Step, Untouched, MasterReady;
    forall i | 0 <= i < |ocs| && i != k ensures Step(p.outstations[i], FrameReceived(f), now) == p.outstations[i] {
      StaysUntouched(p.outstations[i], ocs[i], f, now);
    }
  }

  lemma {:induction false} MasterStep(s: Station, input: Input, now: nat)
    requires MasterReady(s.link)
    ensures var t := Step(s, input, now);
            && MasterReady(t.link) && t.link.config == s.link.config
            && AllFor(M.Sent(s, input, now), s.link.config.address)
  {
    hide Link.Handle, Frames, MasterReady;
    MasterAddresses(s.link, input, now);
    StepFields(s, input, now);
  }

  lemma {:induction false} OutstationStep(s: Station, input: Input, now: nat)
    requires M.OutstationReady(s.link)
    ensures var t := Step(s, input, now);
            && M.OutstationReady(t.link) && t.link.config == s.link.config
            && AllFor(M.Sent(s, input, now), s.link.config.address)
  {
    hide Link.Handle, Frames, M.OutstationReady, Step;
    OutstationAddresses(s.link, input, now);
    Delivery101.OutstationStep(s, input, now);
  }

  /** The two of them, as the medium of two stations sees them. */
  function View(p: Plant, k: nat): M.System
    requires k < |p.outstations|
  {
    M.System(p.master, p.outstations[k],
             match p.line
             case Quiet => M.Idle
             case Down(f) => M.ToOutstation(f)
             case Up(f, _) => M.ToMaster(f))
  }

  /** What happens to the master, the line and the outstation at `k`. */
  function Seen(e: Event, k: nat): seq<M.Event> {
    match e
    case MasterActs(input, now) => [M.MasterActs(input, now)]
    case Submits(i, asdu, now) => if i == k then [M.OutstationSubmits(asdu, now)] else []
    case Arrives(now) => [M.Arrives(now)]
    case Lost => [M.Lost]
  }

  function AllSeen(events: seq<Event>, k: nat): seq<M.Event> {
    if events == [] then [] else AllSeen(events[..|events| - 1], k) + Seen(events[|events| - 1], k)
  }

  function ApplySeen(y: M.System, e: Event, k: nat): M.System {
    if Seen(e, k) == [] then y else M.Apply(y, Seen(e, k)[0])
  }

  lemma {:induction false} LineStep(p: Plant, mc: Config, ocs: seq<Config>, k: nat, e: Event)
    requires LineInv(p, mc, ocs, k) && Addressed(mc, ocs, k)
    ensures LineInv(Apply(p, e), mc, ocs, k)
    ensures k < |ocs| ==> View(Apply(p, e), k) == ApplySeen(View(p, k), e, k)
  {
    hide Step, M.Sent, Untouched, MasterReady, M.OutstationReady, Answers, Heard;
    if Permitted(p, e) {
      match e {
        case MasterActs(input, now) => MasterStep(p.master, input, now);
        case Submits(i, asdu, now) =>
          if i < |ocs| && i != k { SubmitUntouched(p.outstations[i], ocs[i], asdu, now); }
          if i == k < |ocs| { SubmitStep(p.outstations[k], asdu, now); }
        case Lost =>
        case Arrives(now) => ArrivalStep(p, mc, ocs, k, now);
      }
    }
  }

  lemma {:induction false} SubmitStep(s: Station, asdu: Bytes, now: nat)
    requires M.OutstationReady(s.link)
    ensures var t := Step(s, SendUserData(asdu), now); M.OutstationReady(t.link) && t.link.config == s.link.config
  {
    hide Step;
    Delivery101.OutstationStep(s, SendUserData(asdu), now);
  }

  lemma {:induction false} ArrivalStep(p: Plant, mc: Config, ocs: seq<Config>, k: nat, now: nat)
    requires LineInv(p, mc, ocs, k) && Addressed(mc, ocs, k) && Permitted(p, Arrives(now))
    ensures LineInv(Apply(p, Arrives(now)), mc, ocs, k)
    ensures k < |ocs| ==> View(Apply(p, Arrives(now)), k) == M.Apply(View(p, k), M.Arrives(now))
  {
    hide Step, M.Sent, Untouched, MasterReady, M.OutstationReady, Answers, Heard;
    if p.line != Quiet {
      var f := p.line.frame;
      var skip := if p.line.Down? then |ocs| else p.line.from;
      OneAnswers(p, mc, ocs, k, f, now, skip, |ocs|);
      OneHears(p, mc, ocs, k, f, now, skip);
      if p.line.Up? { MasterStep(p.master, FrameReceived(f), now); }
      if k < |ocs| { OutstationStep(p.outstations[k], FrameReceived(f), now); }
    }
  }

  lemma {:induction false} AlwaysLineInv(mc: Config, ocs: seq<Config>, k: nat, events: seq<Event>)
    requires Addressed(mc, ocs, k)
    ensures LineInv(Run(mc, ocs, events), mc, ocs, k)
    ensures k < |ocs| ==> View(Run(mc, ocs, events), k) == M.Run(mc, ocs[k], AllSeen(events, k))
  {
    if events != [] {
      hide LineInv, Apply, M.Apply;
      var before, e := events[..|events| - 1], events[|events| - 1];
      AlwaysLineInv(mc, ocs, k, before);
      LineStep(Run(mc, ocs, before), mc, ocs, k, e);
      if k < |ocs| { RunSeen(mc, ocs, k, before, e); }
    }
  }

  lemma {:induction false} RunSeen(mc: Config, ocs: seq<Config>, k: nat, before: seq<Event>, e: Event)
    requires k < |ocs|
    ensures M.Run(mc, ocs[k], AllSeen(before, k) + Seen(e, k)) == ApplySeen(M.Run(mc, ocs[k], AllSeen(before, k)), e, k)
  {
    hide M.Apply;
    var b, more := AllSeen(before, k), Seen(e, k);
    if more == [] {
      assert b + more == b;
    } else {
      assert (b + more)[..|b|] == b && (b + more)[|b|] == more[0] && |more| == 1;
    }
  }

  /**
   * On a line with any number of outstations, of which the one at `k` alone has the master's address:
   * master, line and that outstation run as if they were alone, and all others never send and never
   * deliver. If no outstation has the address, none ever does.
   */
  lemma {:induction false} OnlyTheAddressed(mc: Config, ocs: seq<Config>, k: nat, events: seq<Event>)
    requires Addressed(mc, ocs, k)
    ensures var p := Run(mc, ocs, events);
            && |p.outstations| == |ocs|
            && (k < |ocs| ==> View(p, k) == M.Run(mc, ocs[k], AllSeen(events, k)))
            && (forall i :: 0 <= i < |ocs| && i != k ==>
                  && p.outstations[i].delivered == [] && p.outstations[i].exchanges == []
                  && p.outstations[i].link.queue == p.outstations[i].submitted)
  {
    hide Run, M.Run, MasterReady, M.OutstationReady;
    AlwaysLineInv(mc, ocs, k, events);
  }

  /** So what the master submitted reaches the addressed outstation, once and in order, and no other one. */
  lemma {:induction false} DeliveredToOne(mc: Config, ocs: seq<Config>, k: nat, events: seq<Event>)
    requires Addressed(mc, ocs, k) && k < |ocs| && mc.timeout > 0
    ensures var p := Run(mc, ocs, events);
            && |p.outstations| == |ocs| && p.outstations[k].delivered <= p.master.submitted
            && (p.master.errors == [] ==> Delivery101.Answered(p.master) <= |p.outstations[k].delivered|)
            && forall i :: 0 <= i < |ocs| && i != k ==> p.outstations[i].delivered == []
  {
    hide Run, M.Run, Delivery101.Answered;
    OnlyTheAddressed(mc, ocs, k, events);
    Delivery101.DeliveredOnceInOrder(mc, ocs[k], AllSeen(events, k));
  }
}
