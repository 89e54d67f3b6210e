/**
 * Why a run must end with the first link error, as the driver makes it: what would become of the
 * next ASDU if a master went on after giving up on one.
 */
module GivingUp101 {
  import opened Common
  import opened Control101
  import opened Link101
  import opened Retry101
  import opened Medium101
  import opened Delivery101

  /** A master that waits for the answer to user data, sent as often as its limit allows, and hears nothing. */
  predicate GivesUp(y: System, now: nat) {
    && Permitted(y, MasterActs(Tick, now)) && y.master.link.Expired(now) && y.master.link.Exhausted()
    && y.master.link.pending.value.frame.Variable?
  }

  /** The ASDU that a master sends next if it goes on and its user submits `asdu`. */
  function NextAsdu(s: Station, asdu: Bytes): Bytes { (s.link.queue + [asdu])[0] }

  /** Whether the outstation would deliver the ASDU that comes next; it confirms it in any case. */
  ghost predicate NextIsTaken(z: System, asdu: Bytes, later: nat, taken: bool) {
    var l, o := z.master.link, z.outstation;
    var f := o.link.DataFrame(l.fcb, NextAsdu(z.master, asdu));
    && Sent(z.master, SendUserData(asdu), later) == [f]
    && Sent(o, FrameReceived(f), later) == [o.link.ReplyFrame(Ack)]
    && Step(o, FrameReceived(f), later).delivered == o.delivered + (if taken then [NextAsdu(z.master, asdu)] else [])
  }

  /**
   * Over every run that gives up on user data: the ASDU that would come next is delivered if and only
   * if the abandoned one was, or the outstation has seen no user data since its last reset. Otherwise
   * it carries a bit the outstation knows, and is confirmed and discarded.
   */
  lemma {:induction false} AfterGivingUp(mc: Config, oc: Config, events: seq<Event>, now: nat, asdu: Bytes, later: nat)
    requires mc.address == oc.address && mc.timeout > 0 && GivesUp(Run(mc, oc, events), now)
    ensures var y := Run(mc, oc, events);
            var z := Apply(y, MasterActs(Tick, now));
            && z.master.errors == [AckTimeout] && z.outstation == y.outstation
            && Started(y.master) - 1 <= |y.outstation.delivered| <= Started(y.master)
            && NextIsTaken(z, asdu, later,
                           |y.outstation.delivered| == Started(y.master) || y.outstation.link.lastFcbSeen.None?)
  {
    hide Run;
    AlwaysLinkInv(mc, oc, events);
    GivenUp(Run(mc, oc, events), now, asdu, later);
  }

  lemma {:induction false} GivenUp(y: System, now: nat, asdu: Bytes, later: nat)
    requires LinkInv(y) && GivesUp(y, now)
    ensures var z := Apply(y, MasterActs(Tick, now));
            && z.master.errors == [AckTimeout] && z.outstation == y.outstation
            && Started(y.master) - 1 <= |y.outstation.delivered| <= Started(y.master)
            && NextIsTaken(z, asdu, later,
                           |y.outstation.delivered| == Started(y.master) || y.outstation.link.lastFcbSeen.None?)
  {
    hide EncodePrimary, EncodeSecondary, Frames, Deliveries, Errors, Link.Handle, Step, IsRequest, NextIsTaken;
    var s, o := y.master, y.outstation;
    WaitingMasterActs(s.link, Tick, now);
    MasterKept(s, Tick, now);
    RequestIsFixed(s.link, s.link.pending.value.frame);
    assert s.submitted + [] == s.submitted && s.link.queue + [] == s.link.queue;
    NextTaken(Apply(y, MasterActs(Tick, now)), asdu, later);
    var n, last := Started(s), o.link.lastFcbSeen;
    assert Odd(n) == !Odd(n - 1) && s.link.fcb == Odd(n);
    assert DataPhase(s.link, s.submitted, n, |o.delivered|, last, s.link.pending.value.frame, y.medium);
    Complement(last, Odd(n));
  }

  lemma Complement(last: Option<bool>, bit: bool)
    ensures last != Some(!bit) <==> last == Some(bit) || last.None?
  {
    if last.Some? && last.value == bit { assert last == Some(bit); }
    if last.Some? && last.value == !bit { assert last == Some(!bit); }
  }

  lemma RequestIsFixed(l: Link, f: Frame)
    ensures IsRequest(l, f) ==> f.Fixed?
  {
  }

  /** The next user-data frame is delivered exactly if its bit is not the one the outstation saw last. */
  lemma {:induction false} NextTaken(z: System, asdu: Bytes, later: nat)
    requires MasterReady(z.master.link) && z.master.link.pending.None? && OutstationReady(z.outstation.link)
    requires z.outstation.link.config.address == z.master.link.config.address
    ensures NextIsTaken(z, asdu, later, z.outstation.link.lastFcbSeen != Some(z.master.link.fcb))
  {
    hide EncodePrimary, EncodeSecondary, Frames, Deliveries, Errors, Link.Handle, Step;
    var l, o := z.master.link, z.outstation;
    var g := IdleMasterActs(l, SendUserData(asdu), later);
    var x := NextAsdu(z.master, asdu);
    var f := o.link.DataFrame(l.fcb, x);
    assert f == l.DataFrame(l.fcb, x);
    OutstationTakesData(o.link, l.fcb, x, later);
    OutstationStep(o, FrameReceived(f), later);
    Short(o.link.Handle(FrameReceived(f), later).actions);
  }

  // ------------------------------------------------------------------
  // A run that ends so
  // ------------------------------------------------------------------

  /** An idle master takes an ASDU and sends it. */
  lemma {:induction false} Goes(y: System, x: Bytes)
    requires LinkInv(y) && y.master.errors == [] && y.master.link.pending.None? && y.master.link.queue == []
    ensures var z := Apply(y, MasterActs(SendUserData(x), 0));
            var l, f := y.master.link, y.master.link.DataFrame(y.master.link.fcb, x);
            && z.master.link.pending == Some(Exchange(f, 0, 1)) && z.master.link.fcb == !l.fcb
            && z.master.link.queue == [] && z.master.link.config == l.config
            && z.master.submitted == y.master.submitted + [x] && z.master.errors == []
            && z.outstation == y.outstation && z.medium == ToOutstation(f)
  {
    hide EncodePrimary, EncodeSecondary, Frames, Deliveries, Errors, Link.Handle, Step, IsRequest;
    MasterKept(y.master, SendUserData(x), 0);
    var g := IdleMasterActs(y.master.link, SendUserData(x), 0);
    assert [] + [x] == [x];
  }

  /** It reaches the outstation, which has not seen its bit. */
  lemma {:induction false} Reaches(y: System, bit: bool, x: Bytes)
    requires LinkInv(y) && y.master.errors == [] && y.outstation.link.lastFcbSeen != Some(bit)
    requires y.medium == ToOutstation(y.master.link.DataFrame(bit, x))
    ensures var z := Apply(y, Arrives(0));
            && z.master == y.master && z.medium == ToMaster(y.master.link.ReplyFrame(Ack))
            && z.outstation.delivered == y.outstation.delivered + [x] && z.outstation.link.lastFcbSeen == Some(bit)
  {
    hide EncodePrimary, EncodeSecondary, Frames, Deliveries, Errors, Link.Handle, Step, IsRequest;
    var o := y.outstation;
    assert y.medium.frame == o.link.DataFrame(bit, x);
    OutstationTakesData(o.link, bit, x, 0);
    OutstationStep(o, FrameReceived(y.medium.frame), 0);
    Short(o.link.Handle(FrameReceived(y.medium.frame), 0).actions);
  }

  /** The confirmation comes back and nothing waits. */
  lemma {:induction false} Returns(y: System)
    requires LinkInv(y) && y.master.errors == [] && y.master.link.pending.Some? && y.master.link.queue == []
    requires y.medium == ToMaster(y.master.link.ReplyFrame(Ack))
    ensures var z := Apply(y, Arrives(0));
            && z.master.link.pending.None? && z.master.link.fcb == y.master.link.fcb && z.master.link.queue == []
            && z.master.link.config == y.master.link.config && z.master.submitted == y.master.submitted
            && z.master.errors == [] && z.outstation == y.outstation && z.medium == Idle
  {
    hide EncodePrimary, EncodeSecondary, Frames, Deliveries, Errors, Link.Handle, Step, IsRequest;
    MasterKept(y.master, FrameReceived(y.medium.frame), 0);
    MasterTakesAck(y.master.link, y.medium.frame, 0);
    assert y.master.submitted + [] == y.master.submitted;
  }

  /** One ASDU is delivered and confirmed, the next is lost. */
  function LossyRun(a: Bytes, b: Bytes): seq<Event> {
    [MasterActs(SendUserData(a), 0), Arrives(0), Arrives(0), MasterActs(SendUserData(b), 0), Lost]
  }

  lemma Onward(mc: Config, oc: Config, events: seq<Event>, e: Event)
    ensures Run(mc, oc, events + [e]) == Apply(Run(mc, oc, events), e)
  {
    assert (events + [e])[..|events|] == events;
  }

  /**
   * Such a run exists: without retries, two ASDUs are submitted and the second is lost. When the
   * master gives up on it, the next one would be confirmed and discarded.
   */
  lemma {:induction false} LostThenDiscarded(mc: Config, oc: Config, a: Bytes, b: Bytes, c: Bytes)
    requires mc.address == oc.address && mc.timeout > 0 && mc.maxRetries == 0
    ensures var y := Run(mc, oc, LossyRun(a, b));
            && GivesUp(y, mc.timeout) && y.outstation.delivered == [a] && y.master.submitted == [a, b]
            && NextIsTaken(Apply(y, MasterActs(Tick, mc.timeout)), c, mc.timeout, false)
  {
    hide LinkInv, Apply, EncodePrimary, EncodeSecondary, NextIsTaken, GivesUp;
    var e := LossyRun(a, b);
    assert [] + [e[0]] == e[..1] && e[..1] + [e[1]] == e[..2] && e[..2] + [e[2]] == e[..3] && e[..3] + [e[3]] == e[..4];
    assert e[..4] + [e[4]] == e;
    AlwaysLinkInv(mc, oc, []);
    AlwaysLinkInv(mc, oc, e[..1]);
    AlwaysLinkInv(mc, oc, e[..2]);
    AlwaysLinkInv(mc, oc, e[..3]);
    Onward(mc, oc, [], e[0]);
    Onward(mc, oc, e[..1], e[1]);
    Onward(mc, oc, e[..2], e[2]);
    Onward(mc, oc, e[..3], e[3]);
    Onward(mc, oc, e[..4], e[4]);
    assert Run(mc, oc, []) == Start(mc, oc);
    hide Run;
    Goes(Run(mc, oc, []), a);
    Reaches(Run(mc, oc, e[..1]), false, a);
    Returns(Run(mc, oc, e[..2]));
    Goes(Run(mc, oc, e[..3]), b);
    Vanishes(Run(mc, oc, e[..4]), mc.timeout);
    AfterGivingUp(mc, oc, e, mc.timeout, c, mc.timeout);
  }

  /** The frame is lost and, with one attempt allowed, the master gives up when the timeout has run out. */
  lemma {:induction false} Vanishes(y: System, now: nat)
    requires y.master.errors == [] && y.master.link.pending.Some? && y.master.link.pending.value.frame.Variable?
    requires y.master.link.pending.value.at == 0 && y.master.link.pending.value.attempts == 1
    requires y.master.link.config.timeout == now && y.master.link.config.maxRetries == 0
    ensures Apply(y, Lost) == y.(medium := Idle) && GivesUp(Apply(y, Lost), now)
  {
  }
}
