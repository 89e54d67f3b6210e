/**
 * A 101 outstation told from its log alone: what it answers, delivers and remembers follows from the
 * frames it has read and the ASDUs it was given, octet by octet, and frames for others leave no trace.
 */
module Outstation101 {
  import opened Common
  import opened Control101
  import opened Link101
  import opened Retry101

  // ------------------------------------------------------------------
  // What a call asks of the outstation with address `a`
  // ------------------------------------------------------------------

  predicate ForMe(f: Frame, a: u16) { !f.Single? && f.address == a }

  /** It reads a fixed frame with function code `n` in the low four bits of the control octet. */
  predicate Requests(c: Call, a: u16, n: byte) {
    && c.input.FrameReceived? && ForMe(c.input.frame, a)
    && c.input.frame.Fixed? && c.input.frame.control % 0x10 == n
  }

  predicate Polls(c: Call, a: u16) { Requests(c, a, 10) || Requests(c, a, 11) }

  /** It reads user data with function code `n`: 3 is to be confirmed, 4 is not. */
  predicate Brings(c: Call, a: u16, n: byte) {
    && c.input.FrameReceived? && ForMe(c.input.frame, a)
    && c.input.frame.Variable? && c.input.frame.control % 0x10 == n
  }

  /** The frame count bit, where the control octet says that it counts. */
  function CountBit(f: Frame): Option<bool>
    requires !f.Single?
  {
    if f.control / 0x10 % 2 == 1 then Some(f.control / 0x20 % 2 == 1) else None
  }

  // ------------------------------------------------------------------
  // The log
  // ------------------------------------------------------------------

  /** Whether the link was ever reset. */
  predicate WasReset(calls: seq<Call>, a: u16) {
    calls != [] && (WasReset(calls[..|calls| - 1], a) || Requests(calls[|calls| - 1], a, 0))
  }

  /** The bit of the last confirmed user data that counted, since the last reset. */
  function LastBit(calls: seq<Call>, a: u16): Option<bool> {
    if calls == [] then None else
      var c := calls[|calls| - 1];
      if Requests(c, a, 0) then None
      else if Brings(c, a, 3) && CountBit(c.input.frame).Some? then CountBit(c.input.frame)
      else LastBit(calls[..|calls| - 1], a)
  }

  /** User data is new unless it is to be confirmed and its bit counts and is the `last` one again. */
  predicate IsNew(last: Option<bool>, a: u16, c: Call) {
    || Brings(c, a, 4)
    || (Brings(c, a, 3) && (CountBit(c.input.frame).None? || CountBit(c.input.frame) != last))
  }

  function Taken(calls: seq<Call>, a: u16): seq<Bytes> {
    if calls == [] then [] else
      var before, c := calls[..|calls| - 1], calls[|calls| - 1];
      Taken(before, a) + (if IsNew(LastBit(before, a), a, c) then [c.input.frame.asdu] else [])
  }

  function Given(calls: seq<Call>): seq<Bytes> {
    if calls == [] then [] else
      var c := calls[|calls| - 1];
      Given(calls[..|calls| - 1]) + (if c.input.SendUserData? then [c.input.asdu] else [])
  }

  /** How many ASDUs were handed out: one at each poll that found one. */
  function Served(calls: seq<Call>, a: u16): (n: nat)
    ensures n <= |Given(calls)|
  {
    if calls == [] then 0 else
      var before, c := calls[..|calls| - 1], calls[|calls| - 1];
      Served(before, a) + (if Polls(c, a) && Served(before, a) < |Given(before)| then 1 else 0)
  }

  function Waiting(calls: seq<Call>, a: u16): seq<Bytes> { Given(calls)[Served(calls, a)..] }

  /** The one frame that answers a call: 0 confirms, 11 is the status, 8 carries data and 9 says there is none. */
  function Answer(waiting: seq<Bytes>, a: u16, c: Call): seq<Frame> {
    if Requests(c, a, 0) || Brings(c, a, 3) then [Fixed(0, a)]
    else if Requests(c, a, 9) then [Fixed(11, a)]
    else if !Polls(c, a) then []
    else if waiting != [] then [Variable(8, a, waiting[0])]
    else [Fixed(9, a)]
  }

  /** Everything a call returns, in order: the answer, the report of a first reset, the data. */
  function Returned(calls: seq<Call>, a: u16, c: Call): seq<Action> {
    var answer := Answer(Waiting(calls, a), a, c);
    (if answer == [] then [] else [SendFrame(answer[0])])
    + (if Requests(c, a, 0) && !WasReset(calls, a) then [LinkStateChanged(Ready)] else [])
    + (if IsNew(LastBit(calls, a), a, c) then [DeliverAsdu(c.input.frame.asdu)] else [])
  }

  // ------------------------------------------------------------------
  // The outstation keeps to it
  // ------------------------------------------------------------------

  /** The link that a log leads to. */
  function Led(config: Config, reset: bool, last: Option<bool>, waiting: seq<Bytes>): Link {
    Link(Outstation, config, if reset then Ready else NotReady, false, last, None, waiting, [])
  }

  ghost predicate Logged(s: Station, config: Config, calls: seq<Call>) {
    var a := config.address;
    && s.link == Led(config, WasReset(calls, a), LastBit(calls, a), Waiting(calls, a))
    && s.submitted == Given(calls) && s.delivered == Taken(calls, a) && s.errors == []
  }

  /** The function of a frame in the code's own terms. */
  lemma {:induction false} FunctionIs(f: Frame)
    requires !f.Single?
    ensures var p, n := DecodePrimary(f.control), f.control % 0x10;
            && (p.None? ==> n !in [0, 3, 4, 9, 10, 11])
            && (p.Some? ==>
                  && (p.value.func == ResetRemoteLink <==> n == 0) && (p.value.func == UserDataConfirmed <==> n == 3)
                  && (p.value.func == UserDataUnconfirmed <==> n == 4) && (p.value.func == RequestStatus <==> n == 9)
                  && (p.value.func == RequestClass1 <==> n == 10) && (p.value.func == RequestClass2 <==> n == 11)
                  && CountBit(f) == (if p.value.fcv then Some(p.value.fcb) else None))
  {
  }

  lemma ReplyOctets(l: Link, asdu: Bytes)
    ensures l.ReplyFrame(Ack) == Fixed(0, l.config.address) && l.ReplyFrame(StatusOfLink) == Fixed(11, l.config.address)
    ensures l.ReplyFrame(NackNoData) == Fixed(9, l.config.address)
    ensures l.ResponseFrame(asdu) == Variable(8, l.config.address, asdu)
  {
  }

  /** What one call does to a link, in the terms of the log. */
  function After(config: Config, reset: bool, last: Option<bool>, waiting: seq<Bytes>, c: Call): Link {
    var a := config.address;
    Led(config, reset || Requests(c, a, 0),
        if Requests(c, a, 0) then None
        else if Brings(c, a, 3) && CountBit(c.input.frame).Some? then CountBit(c.input.frame) else last,
        (if Polls(c, a) && waiting != [] then waiting[1..] else waiting)
        + (if c.input.SendUserData? then [c.input.asdu] else []))
  }

  lemma {:induction false} FixedCall(config: Config, reset: bool, last: Option<bool>, waiting: seq<Bytes>, c: Call)
    requires c.input.FrameReceived? && c.input.frame.Fixed?
    ensures var a := config.address;
            var answer := Answer(waiting, a, c);
            Led(config, reset, last, waiting).Dispatch(c.input, c.now) ==
            After(config, reset, last, waiting, c).(actions :=
              (if answer == [] then [] else [SendFrame(answer[0])])
              + (if Requests(c, a, 0) && !reset then [LinkStateChanged(Ready)] else []))
  {
    hide DecodePrimary, CountBit, EncodeSecondary;
    FunctionIs(c.input.frame);
    ReplyOctets(Led(config, reset, last, waiting), if waiting == [] then [] else waiting[0]);
    assert waiting + [] == waiting;
  }

  lemma {:induction false} DataCall(config: Config, reset: bool, last: Option<bool>, waiting: seq<Bytes>, c: Call)
    requires c.input.FrameReceived? && c.input.frame.Variable?
    ensures var a := config.address;
            var answer := Answer(waiting, a, c);
            Led(config, reset, last, waiting).Dispatch(c.input, c.now) ==
            After(config, reset, last, waiting, c).(actions :=
              (if answer == [] then [] else [SendFrame(answer[0])])
              + (if IsNew(last, a, c) then [DeliverAsdu(c.input.frame.asdu)] else []))
  {
    hide DecodePrimary, CountBit, EncodeSecondary;
    FunctionIs(c.input.frame);
    ReplyOctets(Led(config, reset, last, waiting), []);
    assert waiting + [] == waiting;
  }

  lemma {:induction false} OtherCall(config: Config, reset: bool, last: Option<bool>, waiting: seq<Bytes>, c: Call)
    requires c.input.FrameReceived? ==> c.input.frame.Single?
    ensures Led(config, reset, last, waiting).Dispatch(c.input, c.now) == After(config, reset, last, waiting, c)
  {
    assert waiting + [] == waiting;
  }

  lemma {:induction false} CallIs(config: Config, calls: seq<Call>, c: Call)
    ensures var a := config.address;
            var l := Led(config, WasReset(calls, a), LastBit(calls, a), Waiting(calls, a));
            l.Handle(c.input, c.now) ==
            After(config, WasReset(calls, a), LastBit(calls, a), Waiting(calls, a), c)
              .(actions := Returned(calls, a, c))
  {
    hide Link.Dispatch, After, WasReset, LastBit, Waiting, Answer, CountBit;
    var a := config.address;
    var reset, last, waiting := WasReset(calls, a), LastBit(calls, a), Waiting(calls, a);
    var l := Led(config, reset, last, waiting);
    assert After(config, reset, last, waiting, c).pending.None? && After(config, reset, last, waiting, c).actions == []
      by { NothingPends(config, reset, last, waiting, c); }
    if !c.input.FrameReceived? || c.input.frame.Single? {
      OtherCall(config, reset, last, waiting, c);
      assert Answer(waiting, a, c) == [] by { NoAnswer(waiting, a, c); }
    } else if c.input.frame.Fixed? {
      FixedCall(config, reset, last, waiting, c);
    } else {
      DataCall(config, reset, last, waiting, c);
    }
  }

  lemma NothingPends(config: Config, reset: bool, last: Option<bool>, waiting: seq<Bytes>, c: Call)
    ensures After(config, reset, last, waiting, c).pending.None? && After(config, reset, last, waiting, c).actions == []
  {
  }

  lemma NoAnswer(waiting: seq<Bytes>, a: u16, c: Call)
    requires c.input.FrameReceived? ==> c.input.frame.Single?
    ensures Answer(waiting, a, c) == []
  {
  }

  /** The log functions of a log with one more call. */
  lemma {:induction false} LogGrows(config: Config, calls: seq<Call>, c: Call)
    ensures var a, more := config.address, calls + [c];
            Led(config, WasReset(more, a), LastBit(more, a), Waiting(more, a)) ==
            After(config, WasReset(calls, a), LastBit(calls, a), Waiting(calls, a), c)
  {
    hide CountBit, Requests, Brings, Polls, Waiting, Given, WasReset, LastBit, Taken, IsNew;
    MemoryGrows(config.address, calls, c);
    WaitingGrows(config.address, calls, c);
    var a, more := config.address, calls + [c];
    var next := After(config, WasReset(calls, a), LastBit(calls, a), Waiting(calls, a), c);
    assert next.lastFcbSeen == LastBit(more, a);
    assert next.queue == Waiting(more, a);
  }

  lemma {:induction false} MemoryGrows(a: u16, calls: seq<Call>, c: Call)
    ensures var more := calls + [c];
            && WasReset(more, a) == (WasReset(calls, a) || Requests(c, a, 0))
            && LastBit(more, a) == (if Requests(c, a, 0) then None
                                    else if Brings(c, a, 3) && CountBit(c.input.frame).Some?
                                    then CountBit(c.input.frame) else LastBit(calls, a))
            && Taken(more, a) ==
               Taken(calls, a) + (if IsNew(LastBit(calls, a), a, c) then [c.input.frame.asdu] else [])
  {
    hide CountBit, Requests;
    assert (calls + [c])[..|calls|] == calls && (calls + [c])[|calls|] == c;
  }

  lemma {:induction false} WaitingGrows(a: u16, calls: seq<Call>, c: Call)
    ensures var more, w := calls + [c], Waiting(calls, a);
            && Given(more) == Given(calls) + (if c.input.SendUserData? then [c.input.asdu] else [])
            && Waiting(more, a) == (if Polls(c, a) && w != [] then w[1..] else w)
                                   + (if c.input.SendUserData? then [c.input.asdu] else [])
  {
    hide Polls;
    var more := calls + [c];
    assert more[..|calls|] == calls && more[|calls|] == c;
    var g, n := Given(calls), Served(calls, a);
    assert Polls(c, a) ==> !c.input.SendUserData? by { PollIsRead(c, a); }
    if c.input.SendUserData? {
      assert (g + [c.input.asdu])[n..] == g[n..] + [c.input.asdu];
    } else {
      assert g + [] == g && g[n..] + [] == g[n..];
      if Polls(c, a) && n < |g| { assert g[n..][1..] + [] == g[n + 1..]; }
    }
  }

  lemma PollIsRead(c: Call, a: u16)
    ensures Polls(c, a) ==> c.input.FrameReceived?
  {
  }

  lemma {:induction false} AlwaysLogged(config: Config, calls: seq<Call>)
    ensures Logged(History(Outstation, config, calls), config, calls)
  {
    if calls == [] {
    } else {
      var before, c := calls[..|calls| - 1], calls[|calls| - 1];
      AlwaysLogged(config, before);
      assert before + [c] == calls;
      StepLogged(History(Outstation, config, before), config, before, c);
    }
  }

  lemma {:induction false} StepLogged(s: Station, config: Config, calls: seq<Call>, c: Call)
    requires Logged(s, config, calls)
    ensures Logged(Step(s, c.input, c.now), config, calls + [c])
  {
    hide Link.Dispatch, Link.RunTimers, After, WasReset, LastBit, Waiting, Given, Taken, Answer, CountBit, Frames,
         Deliveries, Errors, Grouped;
    CallIs(config, calls, c);
    LogGrows(config, calls, c);
    MemoryGrows(config.address, calls, c);
    WaitingGrows(config.address, calls, c);
    Short(Returned(calls, config.address, c));
    StepFields(s, c.input, c.now);
  }

  /**
   * Over every history: the outstation has delivered exactly the new user data addressed to it, holds
   * the bit last counted since its last reset, keeps what no poll has taken, and is ready exactly if it
   * was ever reset. The next call returns exactly what the log says.
   */
  lemma {:induction false} OutstationIsItsLog(config: Config, calls: seq<Call>, c: Call)
    ensures var s, a := History(Outstation, config, calls), config.address;
            && s.delivered == Taken(calls, a) && s.submitted == Given(calls) && s.errors == []
            && s.link.lastFcbSeen == LastBit(calls, a) && s.link.queue == Waiting(calls, a) && s.link.pending.None?
            && s.link.state == (if WasReset(calls, a) then Ready else NotReady)
            && s.link.Handle(c.input, c.now).actions == Returned(calls, a, c)
  {
    hide History, WasReset, LastBit, Waiting, Given, Taken, Returned, Link.Handle;
    AlwaysLogged(config, calls);
    CallIs(config, calls, c);
  }

  /** A single character or a frame for another address changes nothing, in any state, and is not answered. */
  lemma {:induction false} NotForMe(l: Link, f: Frame, now: nat)
    requires l.role == Outstation && l.pending.None? && !ForMe(f, l.config.address)
    ensures l.Handle(FrameReceived(f), now) == l
  {
  }
}
