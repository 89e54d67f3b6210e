/** What a master receives by polling an outstation over a medium that may lose frames. */
module Polling101 {
  import opened Common
  import opened Control101
  import opened Link101
  import opened Retry101
  import opened Medium101
  import opened Delivery101

  /** `a` can be had from `b` by leaving elements out. */
  ghost predicate Subsequence<T(!new)>(a: seq<T>, b: seq<T>) {
    if a == [] then true else if b == [] then false else
      || (a[|a| - 1] == b[|b| - 1] && Subsequence(a[..|a| - 1], b[..|b| - 1]))
      || Subsequence(a, b[..|b| - 1])
  }

  lemma {:induction false} BothGrow<T(!new)>(a: seq<T>, b: seq<T>, x: T)
    requires Subsequence(a, b)
    ensures Subsequence(a + [x], b + [x])
  {
    assert (a + [x])[..|a|] == a && (b + [x])[..|b|] == b;
  }

  lemma {:induction false} LastDropped<T(!new)>(a: seq<T>, b: seq<T>)
    requires a != [] && Subsequence(a, b)
    ensures Subsequence(a[..|a| - 1], b)
  {
    var c, d := a[..|a| - 1], b[..|b| - 1];
    if a[|a| - 1] == b[|b| - 1] && Subsequence(c, d) {
      if c != [] { assert Subsequence(c, b); }
    } else {
      LastDropped(a, d);
    }
  }

  /** The ASDU of a response on its way to the master. */
  function InFlight(medium: Medium): seq<Bytes> {
    if medium.ToMaster? && medium.frame.Variable? then [medium.frame.asdu] else []
  }

  /** What the master has, or is about to have, from polling. */
  function Polled(y: System): seq<Bytes> { y.master.delivered + InFlight(y.medium) }

  ghost predicate ServedInv(o: Station) {
    |o.link.queue| <= |o.submitted| && o.link.queue == o.submitted[|o.submitted| - |o.link.queue|..]
  }

  /** The ASDUs that a poll has taken from the outstation's queue. */
  ghost function Served(o: Station): seq<Bytes>
    requires ServedInv(o)
  {
    o.submitted[..|o.submitted| - |o.link.queue|]
  }

  /** A step serves one ASDU and puts it in flight, moves nothing, or loses what was in flight. */
  ghost predicate Accounted(y: System, z: System, lost: bool) {
    && ServedInv(y.outstation) && ServedInv(z.outstation)
    && var a, b, c, d := Polled(y), Served(y.outstation), Polled(z), Served(z.outstation);
       || (c == a && d == b)
       || (exists x :: c == a + [x] && d == b + [x])
       || (lost && d == b && a != [] && InFlight(y.medium) != [] && c == a[..|a| - 1])
  }

  lemma {:induction false} PollServed(o: Station, t: Station)
    requires ServedInv(o) && o.link.queue != [] && t.submitted == o.submitted && t.link.queue == o.link.queue[1..]
    ensures ServedInv(t) && Served(t) == Served(o) + [o.link.queue[0]]
  {
    var k := |o.submitted| - |o.link.queue|;
    assert o.submitted[k..][0] == o.submitted[k];
    assert o.submitted[..k + 1] == o.submitted[..k] + [o.submitted[k]];
  }

  lemma {:induction false} RequestAccounted(y: System, now: nat)
    requires LinkInv(y) && y.master.errors == [] && y.medium.ToOutstation? && ServedInv(y.outstation)
    requires y.medium.frame.Fixed?
    ensures Accounted(y, Apply(y, Arrives(now)), false)
  {
    hide EncodePrimary, EncodeSecondary, Frames, Deliveries, Errors, Link.Handle, Step, Served, ServedInv, MasterInv;
    var o, f := y.outstation, y.medium.frame;
    var g :| Requestable(g) && f == y.master.link.RequestFrame(g);
    OutstationStep(o, FrameReceived(f), now);
    assert f == o.link.RequestFrame(g);
    OutstationAnswers(o.link, g, now);
    var z := Apply(y, Arrives(now));
    Short(o.link.Handle(FrameReceived(f), now).actions);
    assert o.submitted + [] == o.submitted;
    if (g == RequestClass1 || g == RequestClass2) && o.link.queue != [] {
      PollServed(o, z.outstation);
      assert Polled(z) == Polled(y) + [o.link.queue[0]];
    } else {
      SameServed(o, z.outstation, []);
    }
  }

  lemma {:induction false} SameServed(o: Station, t: Station, news: seq<Bytes>)
    requires ServedInv(o) && t.submitted == o.submitted + news && t.link.queue == o.link.queue + news
    ensures ServedInv(t) && Served(t) == Served(o)
  {
    var k := |o.submitted| - |o.link.queue|;
    assert (o.submitted + news)[k..] == o.submitted[k..] + news;
  }

  lemma {:induction false} DataAccounted(y: System, now: nat)
    requires LinkInv(y) && y.master.errors == [] && y.medium.ToOutstation? && ServedInv(y.outstation)
    requires y.medium.frame.Variable?
    ensures Accounted(y, Apply(y, Arrives(now)), false)
  {
    hide EncodePrimary, EncodeSecondary, Frames, Deliveries, Errors, Link.Handle, Step, Served, ServedInv, MasterInv;
    var o, f, s := y.outstation, y.medium.frame, y.master.submitted;
    var n := |s| - |y.master.link.queue|;
    OutstationStep(o, FrameReceived(f), now);
    assert f == o.link.DataFrame(Odd(n - 1), s[n - 1]);
    OutstationTakesData(o.link, Odd(n - 1), s[n - 1], now);
    Short(o.link.Handle(FrameReceived(f), now).actions);
    SameServed(o, Apply(y, Arrives(now)).outstation, []);
  }

  lemma {:induction false} AnswerAccounted(y: System, now: nat)
    requires LinkInv(y) && y.master.errors == [] && y.medium.ToMaster? && ServedInv(y.outstation)
    ensures Accounted(y, Apply(y, Arrives(now)), false)
  {
    hide EncodePrimary, EncodeSecondary, Frames, Deliveries, Errors, Link.Handle, Step, Served, ServedInv;
    var l, f := y.master.link, y.medium.frame;
    MasterKept(y.master, FrameReceived(f), now);
    if f == l.ReplyFrame(Ack) { MasterTakesAck(l, f, now); } else { MasterTakesOther(l, f, now); }
  }

  lemma {:induction false} ActsAccounted(y: System, input: Input, now: nat)
    requires LinkInv(y) && Permitted(y, MasterActs(input, now)) && ServedInv(y.outstation)
    ensures Accounted(y, Apply(y, MasterActs(input, now)), false)
  {
    hide EncodePrimary, EncodeSecondary, Frames, Deliveries, Errors, Link.Handle, Step, Served, ServedInv;
    MasterKept(y.master, input, now);
    if y.master.link.pending.None? {
      var g := IdleMasterActs(y.master.link, input, now);
    } else {
      WaitingMasterActs(y.master.link, input, now);
    }
  }

  lemma {:induction false} SubmitAccounted(y: System, asdu: Bytes, now: nat)
    requires LinkInv(y) && ServedInv(y.outstation)
    ensures Accounted(y, Apply(y, OutstationSubmits(asdu, now)), false)
  {
    hide Frames, Deliveries, Errors, Phase, MasterInv, ServedInv, Served;
    var o := y.outstation;
    OutstationStep(o, SendUserData(asdu), now);
    SameServed(o, o, []);
    SameServed(o, Step(o, SendUserData(asdu), now), [asdu]);
  }

  lemma {:induction false} StepAccounted(y: System, e: Event)
    requires LinkInv(y) && ServedInv(y.outstation)
    ensures Accounted(y, Apply(y, e), e.Lost?)
  {
    if Permitted(y, e) {
      match e {
        case MasterActs(input, now) => ActsAccounted(y, input, now);
        case OutstationSubmits(asdu, now) => SubmitAccounted(y, asdu, now);
        case Lost =>
        case Arrives(now) =>
          if y.medium.ToMaster? { AnswerAccounted(y, now); }
          else if y.medium.ToOutstation? {
            if y.medium.frame.Variable? { DataAccounted(y, now); } else { RequestAccounted(y, now); }
          }
      }
    }
  }

  /**
   * Over every run the master gets, by polling, a subsequence of what the outstation's queue gave up:
   * each ASDU at most once and in queue order. What is left is the tail of what was submitted.
   */
  lemma {:induction false} PolledAtMostOnceInOrder(mc: Config, oc: Config, events: seq<Event>)
    requires mc.address == oc.address && mc.timeout > 0
    ensures var y := Run(mc, oc, events);
            ServedInv(y.outstation) && Subsequence(Polled(y), Served(y.outstation))
  {
    if events != [] {
      hide LinkInv, Apply, ServedInv, Served, Polled;
      var y, e := Run(mc, oc, events[..|events| - 1]), events[|events| - 1];
      PolledAtMostOnceInOrder(mc, oc, events[..|events| - 1]);
      AlwaysLinkInv(mc, oc, events[..|events| - 1]);
      StepAccounted(y, e);
      AccountedKeeps(y, Apply(y, e), e.Lost?);
    }
  }

  lemma {:induction false} AccountedKeeps(y: System, z: System, lost: bool)
    requires Accounted(y, z, lost) && Subsequence(Polled(y), Served(y.outstation))
    ensures Subsequence(Polled(z), Served(z.outstation))
  {
    var a, b, c, d := Polled(y), Served(y.outstation), Polled(z), Served(z.outstation);
    if x :| c == a + [x] && d == b + [x] {
      BothGrow(a, b, x);
    } else if c != a {
      LastDropped(a, b);
    }
  }

  /** How many responses the medium lost in the run. */
  function LostResponses(mc: Config, oc: Config, events: seq<Event>): nat {
    if events == [] then 0 else
      var y, e := Run(mc, oc, events[..|events| - 1]), events[|events| - 1];
      LostResponses(mc, oc, events[..|events| - 1]) + (if e.Lost? && Permitted(y, e) then |InFlight(y.medium)| else 0)
  }

  /**
   * What the queue gave up is what the master got and what the medium lost; so the master got
   * everything if and only if no response was lost, however many requests were.
   */
  lemma {:induction false} PolledAccounting(mc: Config, oc: Config, events: seq<Event>)
    requires mc.address == oc.address && mc.timeout > 0
    ensures var y := Run(mc, oc, events);
            && ServedInv(y.outstation)
            && |Served(y.outstation)| == |Polled(y)| + LostResponses(mc, oc, events)
            && (Polled(y) == Served(y.outstation) <==> LostResponses(mc, oc, events) == 0)
  {
    hide Served, Polled, Run;
    PolledCount(mc, oc, events);
    PolledAtMostOnceInOrder(mc, oc, events);
    var y := Run(mc, oc, events);
    if |Served(y.outstation)| == |Polled(y)| { FullSubsequence(Polled(y), Served(y.outstation)); }
  }

  lemma {:induction false} PolledCount(mc: Config, oc: Config, events: seq<Event>)
    requires mc.address == oc.address && mc.timeout > 0
    ensures var y := Run(mc, oc, events);
            ServedInv(y.outstation) && |Served(y.outstation)| == |Polled(y)| + LostResponses(mc, oc, events)
  {
    if events != [] {
      hide LinkInv, Apply, ServedInv, Served, Polled, Accounted;
      var y, e := Run(mc, oc, events[..|events| - 1]), events[|events| - 1];
      PolledCount(mc, oc, events[..|events| - 1]);
      AlwaysLinkInv(mc, oc, events[..|events| - 1]);
      StepAccounted(y, e);
      StepCount(y, e);
    }
  }

  lemma {:induction false} StepCount(y: System, e: Event)
    requires Accounted(y, Apply(y, e), e.Lost?)
    ensures var z := Apply(y, e);
            |Served(z.outstation)| - |Polled(z)| ==
            |Served(y.outstation)| - |Polled(y)| + (if e.Lost? && Permitted(y, e) then |InFlight(y.medium)| else 0)
  {
    hide Step, Sent, Carrying;
  }

  lemma {:induction false} FullSubsequence<T(!new)>(a: seq<T>, b: seq<T>)
    requires Subsequence(a, b) && |a| >= |b|
    ensures a == b
  {
    if a != [] {
      if Subsequence(a, b[..|b| - 1]) {
        FullSubsequence(a, b[..|b| - 1]);
        assert false;
      }
      FullSubsequence(a[..|a| - 1], b[..|b| - 1]);
      assert a == a[..|a| - 1] + [a[|a| - 1]] && b == b[..|b| - 1] + [b[|b| - 1]];
    }
  }
}
