/** The link test: every TESTFR_act is answered, and one leaves exactly when the log says the link is idle. */
module Probe104 {
  import opened Common
  import opened SeqNo
  import opened Conn104
  import opened Effect104
  import opened Framing104
  import opened Reply104
  import opened Station104
  import opened System104
  import opened Window104
  import opened Release104
  import opened Call104

  /** How often `m` is among `msgs`. */
  function Times(msgs: seq<Apdu>, m: Apdu): nat { multiset(msgs)[m] }

  // ------------------------------------------------------------------
  // Answers
  // ------------------------------------------------------------------

  lemma {:induction false} FewTests(c: Conn, input: Input, now: nat)
    ensures var msgs := Messages(c, input, now);
            && Times(msgs, U(TestFrAct)) == 0
            && Times(msgs, U(TestFrCon)) == (if input == Receive(U(TestFrAct)) then 1 else 0)
  {
    hide Handled, Owes, Expected, Late, Due, Data, Reply, Acknowledgement;
    var h := Handled(c, input, now);
    DataTests(c, input);
    ReplyTests(c, input);
    AcknowledgementTests(Owes(c, input), Expected(c, input));
    AcknowledgementTests(!Late(h, now) && Due(h, now), h.recvNext);
  }

  lemma {:induction false} DataTests(c: Conn, input: Input)
    ensures Times(Data(c, input), U(TestFrAct)) == Times(Data(c, input), U(TestFrCon)) == 0
  {
    hide Leaving, Expected;
    assert forall i :: 0 <= i < |Data(c, input)| ==> Data(c, input)[i].I?;
    assert U(TestFrAct) !in Data(c, input) && U(TestFrCon) !in Data(c, input);
  }

  lemma {:induction false} ReplyTests(c: Conn, input: Input)
    ensures Times(Reply(c, input), U(TestFrAct)) == 0
    ensures Times(Reply(c, input), U(TestFrCon)) == (if input == Receive(U(TestFrAct)) then 1 else 0)
  {
    hide Illegal;
    var r := Reply(c, input);
    assert |r| <= 1;
    if |r| == 1 { assert r == [r[0]] && multiset(r) == multiset{r[0]}; }
  }

  lemma AcknowledgementTests(due: bool, recv: Seq15)
    ensures Times(Acknowledgement(due, recv), U(TestFrAct)) == Times(Acknowledgement(due, recv), U(TestFrCon)) == 0
  {
  }

  /** A call sends one TESTFR_con if it read a TESTFR_act, and none otherwise. */
  lemma {:induction false} AnsweredOnce(c: Conn, input: Input, now: nat)
    requires c.actions == []
    ensures var m := Sends(c.Handle(input, now).actions);
            && Times(m, U(TestFrCon)) == (if input == Receive(U(TestFrAct)) then 1 else 0)
            && Times(m, U(TestFrAct)) == |Probe(Handled(c, input, now), now)| <= 1
  {
    hide Conn.Handle, Sends, Messages, Handled;
    CallSends(c, input, now);
    FewTests(c, input, now);
  }

  ghost predicate Balance(a: Station, b: Station, r: nat) {
    r <= |b.msgs| && Times(a.msgs, U(TestFrCon)) == Times(b.msgs[..r], U(TestFrAct))
  }

  ghost predicate TestInv(y: System) {
    DataInv(y) && Balance(y.client, y.server, y.clientRead) && Balance(y.server, y.client, y.serverRead)
  }

  lemma {:induction false} StepAnswers(s: Station, input: Input, now: nat)
    requires Inv(s)
    ensures var t := Step(s, input, now);
            Times(t.msgs, U(TestFrCon)) ==
            Times(s.msgs, U(TestFrCon)) + (if input == Receive(U(TestFrAct)) then 1 else 0)
  {
    hide Conn.Handle, Sends, Deliveries, Reasons, Handled, Probe;
    assert s.conn.actions == [] by { NothingQueued(s); }
    AnsweredOnce(s.conn, input, now);
  }

  lemma {:induction false} BalanceKept(a: Station, b: Station, ra: nat, rb: nat, input: Input, now: nat)
    requires Inv(a) && Balance(a, b, ra) && Balance(b, a, rb)
    requires input.Receive? ==> ra < |b.msgs| && input.apdu == b.msgs[ra]
    ensures var t, r := Step(a, input, now), ra + (if input.Receive? then 1 else 0);
            Balance(t, b, r) && Balance(b, t, rb)
  {
    hide Step, Inv;
    StepAnswers(a, input, now);
    Grows(a, input, now);
    assert Step(a, input, now).msgs[..rb] == a.msgs[..rb];
    if input.Receive? { assert b.msgs[..ra + 1] == b.msgs[..ra] + [b.msgs[ra]]; }
  }

  lemma {:induction false} TestStep(y: System, e: Event)
    requires TestInv(y)
    ensures TestInv(Apply(y, e))
  {
    hide Step, DataInv, Balance;
    DataStep(y, e);
    if Moves(y, e) {
      BothInv(y, e.side);
      BalanceKept(y.At(e.side), y.Peer(e.side), y.Read(e.side), y.PeerRead(e.side), InputOf(y, e), e.now);
    }
  }

  lemma {:induction false} AlwaysTestInv(cc: Config, sc: Config, events: seq<Event>)
    ensures TestInv(Run(cc, sc, events))
  {
    hide TestInv, Apply;
    if events == [] {
      AlwaysData(cc, sc, []);
      NoTests(cc, sc);
    } else {
      AlwaysTestInv(cc, sc, events[..|events| - 1]);
      TestStep(Run(cc, sc, events[..|events| - 1]), events[|events| - 1]);
    }
  }

  lemma NoTests(cc: Config, sc: Config)
    requires DataInv(Run(cc, sc, []))
    ensures TestInv(Run(cc, sc, []))
  {
  }

  /** In every interleaving a station has sent as many TESTFR_con as it has read TESTFR_act. */
  lemma {:induction false} EveryTestAnswered(cc: Config, sc: Config, events: seq<Event>, side: Side)
    ensures var y := Run(cc, sc, events);
            && y.Read(side) <= |y.Peer(side).msgs|
            && Times(y.At(side).msgs, U(TestFrCon)) == Times(y.Peer(side).msgs[..y.Read(side)], U(TestFrAct))
  {
    hide Run, Inv, Follows;
    AlwaysTestInv(cc, sc, events);
  }

  // ------------------------------------------------------------------
  // The log
  // ------------------------------------------------------------------

  /** The messages that the last call of a history sent. */
  function Out(role: Role, config: Config, calls: seq<Call>): seq<Apdu>
    requires calls != []
  {
    var c := calls[|calls| - 1];
    Sends(History(role, config, calls[..|calls| - 1]).conn.Handle(c.input, c.now).actions)
  }

  /** When the station last sent something, and when it last read something. */
  function LastSend(role: Role, config: Config, calls: seq<Call>): Option<nat> {
    if calls == [] then None
    else if Out(role, config, calls) != [] then Some(calls[|calls| - 1].now)
    else LastSend(role, config, calls[..|calls| - 1])
  }

  function LastRead(calls: seq<Call>): Option<nat> {
    if calls == [] then None
    else if calls[|calls| - 1].input.Receive? then Some(calls[|calls| - 1].now)
    else LastRead(calls[..|calls| - 1])
  }

  /** When it last delivered an ASDU. */
  function LastData(role: Role, config: Config, calls: seq<Call>): Option<nat> {
    if calls == [] then None else
      var before, c := calls[..|calls| - 1], calls[|calls| - 1];
      if DeliveredBy(History(role, config, before).conn, c.input) != [] then Some(c.now)
      else LastData(role, config, before)
  }

  /** When it sent the TESTFR_act that no TESTFR_con has answered since. */
  function Waiting(role: Role, config: Config, calls: seq<Call>): Option<nat> {
    if calls == [] then None
    else if U(TestFrAct) in Out(role, config, calls) then Some(calls[|calls| - 1].now)
    else if calls[|calls| - 1].input == Receive(U(TestFrCon)) then None
    else Waiting(role, config, calls[..|calls| - 1])
  }

  ghost predicate Logged(c: Conn, role: Role, config: Config, calls: seq<Call>) {
    && c.lastSendAny == LastSend(role, config, calls) && c.lastRecvAny == LastRead(calls)
    && c.lastRecvIFrame == LastData(role, config, calls) && c.testSent == Waiting(role, config, calls)
  }

  /** What a call does to the four clocks. */
  lemma {:induction false} ClocksAre(c: Conn, input: Input, now: nat)
    requires c.actions == []
    ensures var d := c.Handle(input, now);
            var m := Sends(d.actions);
            && d.lastSendAny == (if m != [] then Some(now) else c.lastSendAny)
            && d.lastRecvAny == (if input.Receive? then Some(now) else c.lastRecvAny)
            && d.lastRecvIFrame == (if DeliveredBy(c, input) != [] then Some(now) else c.lastRecvIFrame)
            && d.testSent == (if U(TestFrAct) in m then Some(now)
                              else if input == Receive(U(TestFrCon)) then None else c.testSent)
  {
    hide Conn.Handle, Sends, Reply, Data, Owes, Expected, Late, Due, Idle, DeliveredBy, StateThen, Debt, Fresh;
    CallIs(c, input, now);
    CallSends(c, input, now);
    AnsweredOnce(c, input, now);
    assert U(TestFrAct) in Sends(c.Handle(input, now).actions) <==>
           Times(Sends(c.Handle(input, now).actions), U(TestFrAct)) > 0;
  }

  lemma {:induction false} AlwaysLogged(role: Role, config: Config, calls: seq<Call>)
    ensures Logged(History(role, config, calls).conn, role, config, calls)
    ensures History(role, config, calls).conn.actions == []
  {
    hide Conn.Handle, Sends, Deliveries, Reasons, DeliveredBy;
    if calls != [] {
      var before, c := calls[..|calls| - 1], calls[|calls| - 1];
      AlwaysLogged(role, config, before);
      ClocksAre(History(role, config, before).conn, c.input, c.now);
    }
  }

  /**
   * Over every history: the clocks of a station say when it last sent, last read and last delivered
   * something, and since when a TESTFR_act is unanswered; TESTFR_con ends that wait.
   */
  lemma {:induction false} ClocksAreTheLog(role: Role, config: Config, calls: seq<Call>)
    ensures var c := History(role, config, calls).conn;
            && c.lastSendAny == LastSend(role, config, calls) && c.lastRecvAny == LastRead(calls)
            && c.lastRecvIFrame == LastData(role, config, calls) && c.testSent == Waiting(role, config, calls)
  {
    AlwaysLogged(role, config, calls);
  }

  /** The last message sent or read, counting what the call itself reads and sends before the test. */
  function LastTraffic(role: Role, config: Config, calls: seq<Call>, c: Call): Option<nat> {
    Later(if Messages(History(role, config, calls).conn, c.input, c.now) != [] then Some(c.now)
          else LastSend(role, config, calls),
          if c.input.Receive? then Some(c.now) else LastRead(calls))
  }

  /**
   * Over every history, a call sends a TESTFR_act, one and as its last message, if and only if it does
   * not time out, leaves data transfer on, no earlier one is unanswered, and the last message sent or
   * read is at least t3 old.
   */
  lemma {:induction false} TestSentIff(role: Role, config: Config, calls: seq<Call>, c: Call)
    ensures var s := History(role, config, calls).conn;
            var m := Sends(s.Handle(c.input, c.now).actions);
            var last := LastTraffic(role, config, calls, c);
            && (U(TestFrAct) in m <==>
                  && AckTimeout !in Reasons(s.Handle(c.input, c.now).actions)
                  && (StateThen(s, c.input) == Active || StateThen(s, c.input) == Stopping)
                  && (Waiting(role, config, calls).None? || c.input == Receive(U(TestFrCon)))
                  && last.Some? && Elapsed(c.now, last.value) >= s.config.t3)
            && (U(TestFrAct) in m ==> m[|m| - 1] == U(TestFrAct) && Times(m, U(TestFrAct)) == 1)
  {
    hide History, Conn.Handle, Sends, Reasons, Reply, Data, Owes, Expected, DeliveredBy, StateThen, Debt, Fresh,
         Waiting, LastSend, LastRead, LastData;
    AlwaysLogged(role, config, calls);
    var s := History(role, config, calls).conn;
    var h := Handled(s, c.input, c.now);
    CallSends(s, c.input, c.now);
    AnsweredOnce(s, c.input, c.now);
    var m := Sends(s.Handle(c.input, c.now).actions);
    assert U(TestFrAct) in m <==> Times(m, U(TestFrAct)) > 0;
    LateIff(s, c.input, c.now);
    TrafficIs(s, c.input, c.now);
    hide Handled, Messages, Traffic;
  }

  /** Where no t1 has run out, the traffic that the timer looks at counts all that was sent before. */
  lemma {:induction false} TrafficIs(c: Conn, input: Input, now: nat)
    ensures var h := Handled(c, input, now);
            && h.state == StateThen(c, input) && h.config == c.config
            && h.testSent == (if input == Receive(U(TestFrCon)) then None else c.testSent)
            && (!Late(h, now) ==>
                  Traffic(h, now) == Later(if Messages(c, input, now) != [] then Some(now) else c.lastSendAny,
                                           if input.Receive? then Some(now) else c.lastRecvAny))
  {
    hide Reply, Data, Owes, Expected, DeliveredBy, StateThen, Debt, Fresh, Late;
  }

  lemma {:induction false} LateIff(c: Conn, input: Input, now: nat)
    requires c.actions == []
    ensures AckTimeout in Reasons(c.Handle(input, now).actions) <==> Late(Handled(c, input, now), now)
  {
    hide Conn.Handle, Conn.Dispatch, Reasons, Handled;
    TimeoutIff(c, input, now);
    DispatchCall(c, input, now);
  }

  // ------------------------------------------------------------------
  // A test that is answered
  // ------------------------------------------------------------------

  predicate Testing(input: Input) { input == Tick || input == Receive(U(TestFrAct)) || input == Receive(U(TestFrCon)) }

  /** t1 has not run out on the oldest frame, nor on a TESTFR_act that the input does not answer. */
  predicate InGoodTime(c: Conn, input: Input, now: nat) {
    && !(c.sent != [] && Elapsed(now, c.sent[0].at) >= c.config.t1)
    && (input != Receive(U(TestFrCon)) ==> !c.TestExpired(now))
  }

  lemma {:induction false} QuietCall(c: Conn, input: Input, now: nat)
    requires c.actions == [] && c.state == Active && Testing(input) && InGoodTime(c, input, now)
    ensures var h := Handled(c, input, now);
            && !Late(h, now) && h.state == Active && h.sent == c.sent && h.config == c.config
            && h.testSent == (if input == Receive(U(TestFrCon)) then None else c.testSent)
            && h.lastRecvAny == (if input.Receive? then Some(now) else c.lastRecvAny)
            && Messages(c, input, now) == (if input == Receive(U(TestFrAct)) then [U(TestFrCon)] else [])
                                          + (if Due(h, now) then [S(h.recvNext)] else [])
  {
    hide Data, Fresh, Debt, Due;
    Unmoved(c, input, now);
  }

  lemma {:induction false} QuietTimers(h: Conn, now: nat)
    requires !Late(h, now) && h.state == Active
    ensures var d := Ticked(h, now);
            && d.state == Active && d.sent == h.sent && d.config == h.config
            && d.testSent == (if Idle(h, now) then Some(now) else h.testSent)
  {
    hide Due, Idle, Late;
  }

  /** A tick, a TESTFR_act or a TESTFR_con in good time: data transfer goes on. */
  lemma {:induction false} QuietStep(s: Station, input: Input, now: nat)
    requires Inv(s) && s.conn.state == Active && Testing(input) && InGoodTime(s.conn, input, now)
    ensures var t, h := Step(s, input, now), Handled(s.conn, input, now);
            && t.closed == s.closed && t.conn.state == Active && t.conn.sent == s.conn.sent
            && t.conn.config == s.conn.config
            && t.conn.testSent == (if Idle(h, now) then Some(now)
                                   else if input == Receive(U(TestFrCon)) then None else s.conn.testSent)
            && t.msgs == s.msgs + (if input == Receive(U(TestFrAct)) then [U(TestFrCon)] else [])
                         + (if Due(h, now) then [S(h.recvNext)] else [])
                         + (if Idle(h, now) then [U(TestFrAct)] else [])
  {
    hide Conn.Handle, Sends, Deliveries, Reasons, Handled, Ticked, Idle, Due, Late, Inv, Messages, Testing, InGoodTime;
    assert s.conn.actions == [] by { NothingQueued(s); }
    CallIs(s.conn, input, now);
    CallSends(s.conn, input, now);
    QuietCall(s.conn, input, now);
    QuietTimers(Handled(s.conn, input, now), now);
    NoReasons(s.conn, input, now);
    assert s.closed + [] == s.closed;
  }

  lemma {:induction false} NoReasons(c: Conn, input: Input, now: nat)
    requires c.actions == [] && c.state == Active && !Late(Handled(c, input, now), now) && Testing(input)
    ensures Reasons(c.Handle(input, now).actions) == []
  {
    hide Conn.Handle, Reasons, Handled, Ticked, Idle, Due, Late, Said;
    CallIs(c, input, now);
    BothQueue(c, input, now);
    var h := Handled(c, input, now);
    assert [] + Said(c, input) == Said(c, input);
    assert h.state == Active by { QuietState(c, input, now); }
    QuietlySaid(c, input);
    NoneDisconnects(Said(c, input) + Told(h, now));
  }

  lemma {:induction false} QuietState(c: Conn, input: Input, now: nat)
    requires c.state == Active && Testing(input)
    ensures Handled(c, input, now).state == Active
  {
    hide Data, Said, Fresh, Debt;
  }

  lemma {:induction false} QuietlySaid(c: Conn, input: Input)
    requires c.state == Active && Testing(input)
    ensures forall i :: 0 <= i < |Said(c, input)| ==> Said(c, input)[i].SendApdu?
  {
    hide Data, Expected, Debt;
  }

  lemma {:induction false} NoneDisconnects(acts: seq<Action>)
    requires forall i :: 0 <= i < |acts| ==> acts[i].SendApdu?
    ensures Reasons(acts) == []
  {
    if acts != [] { NoneDisconnects(acts[..|acts| - 1]); }
  }

  /** After a call that reads something nothing is idle, unless t3 is zero. */
  lemma {:induction false} NotIdle(h: Conn, now: nat)
    requires h.lastRecvAny == Some(now) && h.config.t3 > 0
    ensures !Idle(h, now)
  {
  }

  /** Three events: the clock of `side` ticks, what it sends arrives, and what that causes arrives. */
  function Tested(y: System, side: Side, now: nat, mid: nat, later: nat): System {
    Apply(Apply(Apply(y, Local(side, Tick, now)), Arrive(Other(side), mid)), Arrive(side, later))
  }

  lemma {:induction false} TestLegible(msgs: seq<Apdu>, f: UFunction, due: bool, recv: Seq15)
    requires Encodable(msgs)
    ensures var more := msgs + [U(f)] + Acknowledgement(due, recv);
            Encodable(msgs + [U(f)]) && Encodable(more) && more[|msgs|] == U(f) && Encode(U(f)).Some?
  {
  }

  lemma {:induction false} TestLeaves(a: Station, now: nat)
    requires Inv(a) && a.conn.state == Active && Idle(a.conn, now) && !Due(a.conn, now) && !Late(a.conn, now)
    ensures var t := Step(a, Tick, now);
            && t.msgs == a.msgs + [U(TestFrAct)] && t.closed == a.closed && t.conn.testSent == Some(now)
            && t.conn.state == Active && t.conn.sent == a.conn.sent && t.conn.config == a.conn.config
  {
    hide Step, Inv, Idle, Due, Late, Handled, InGoodTime;
    TickIsQuiet(a.conn, now);
    QuietStep(a, Tick, now);
    assert a.msgs + [] + [] == a.msgs;
  }

  lemma {:induction false} TestReturns(b: Station, mid: nat)
    requires Inv(b) && b.conn.state == Active && b.conn.config.t3 > 0
    requires InGoodTime(b.conn, Receive(U(TestFrAct)), mid)
    ensures var t, h := Step(b, Receive(U(TestFrAct)), mid), Handled(b.conn, Receive(U(TestFrAct)), mid);
            && t.msgs == b.msgs + [U(TestFrCon)] + Acknowledgement(Due(h, mid), h.recvNext)
            && t.closed == b.closed && t.conn.state == Active
  {
    hide Step, Inv, Idle, Due, Handled, InGoodTime;
    QuietStep(b, Receive(U(TestFrAct)), mid);
    ReadIsNotIdle(b.conn, U(TestFrAct), mid);
    var m := b.msgs + [U(TestFrCon)];
    assert m + [] == m;
  }

  lemma {:induction false} TestEnds(a: Station, later: nat)
    requires Inv(a) && a.conn.state == Active && a.conn.config.t3 > 0
    requires InGoodTime(a.conn, Receive(U(TestFrCon)), later)
    ensures var t, h := Step(a, Receive(U(TestFrCon)), later), Handled(a.conn, Receive(U(TestFrCon)), later);
            && t.closed == a.closed && t.conn.state == Active && t.conn.testSent.None?
            && t.msgs == a.msgs + Acknowledgement(Due(h, later), h.recvNext)
  {
    hide Step, Inv, Idle, Due, Handled, InGoodTime;
    QuietStep(a, Receive(U(TestFrCon)), later);
    ReadIsNotIdle(a.conn, U(TestFrCon), later);
    assert a.msgs + [] == a.msgs;
  }

  lemma {:induction false} ReadIsNotIdle(c: Conn, m: Apdu, now: nat)
    requires c.config.t3 > 0
    ensures !Idle(Handled(c, Receive(m), now), now)
  {
    hide Data, Reply, Fresh, Debt, Owes;
    NotIdle(Handled(c, Receive(m), now), now);
  }

  lemma {:induction false} TickIsQuiet(c: Conn, now: nat)
    ensures Handled(c, Tick, now) == c && (!Late(c, now) ==> InGoodTime(c, Tick, now))
  {
    Unmoved(c, Tick, now);
    assert c.pending + [] == c.pending && c.actions + [] == c.actions && Said(c, Tick) == [];
  }

  /**
   * From every run at rest: when the link has been idle for t3 and no t1 has run out, the tick of a
   * station sends a TESTFR_act, and once that and its answer have arrived the wait is over, however
   * late the answer came; both stations are still active.
   */
  lemma {:induction false} TestKeepsAlive(cc: Config, sc: Config, events: seq<Event>, side: Side, now: nat, mid: nat,
                                          later: nat)
    requires Timed(cc) && Timed(sc) && Quiescent(Run(cc, sc, events))
    requires var y := Run(cc, sc, events);
             var a, b := y.At(side).conn, y.Peer(side).conn;
             && Idle(a, now) && !Due(a, now) && !Late(a, now)
             && InGoodTime(b, Receive(U(TestFrAct)), mid) && InGoodTime(a, Receive(U(TestFrCon)), later)
    ensures var y := Run(cc, sc, events);
            var z := Tested(y, side, now, mid, later);
            && Apply(y, Local(side, Tick, now)).At(side).conn.testSent == Some(now)
            && z.At(side).conn.testSent.None? && z.At(side).conn.state == Active && z.Peer(side).conn.state == Active
            && z.Running(AtClient) && z.Running(AtServer)
  {
    hide Run, Inv, Idle, Due, Late, InGoodTime;
    AlwaysData(cc, sc, events);
    ConfigKept(cc, sc, events);
    TestedRun(Run(cc, sc, events), side, now, mid, later);
  }

  lemma {:induction false} TestedRun(y: System, side: Side, now: nat, mid: nat, later: nat)
    requires Inv(y.At(side)) && Inv(y.Peer(side)) && Quiescent(y)
    requires y.At(side).conn.config.t3 > 0 && y.Peer(side).conn.config.t3 > 0
    requires var a, b := y.At(side).conn, y.Peer(side).conn;
             && Idle(a, now) && !Due(a, now) && !Late(a, now)
             && InGoodTime(b, Receive(U(TestFrAct)), mid) && InGoodTime(a, Receive(U(TestFrCon)), later)
    ensures var z := Tested(y, side, now, mid, later);
            && Apply(y, Local(side, Tick, now)).At(side).conn.testSent == Some(now)
            && z.At(side).conn.testSent.None? && z.At(side).conn.state == Active && z.Peer(side).conn.state == Active
            && z.Running(AtClient) && z.Running(AtServer)
  {
    hide Step, Inv, Idle, Due, Late, InGoodTime, Handled, Encode, Encodable, Acknowledgement;
    var a, b := y.At(side), y.Peer(side);
    TestLeaves(a, now);
    StepInv(a, Tick, now);
    var a1 := Step(a, Tick, now);
    TestReturns(b, mid);
    var b1, h := Step(b, Receive(U(TestFrAct)), mid), Handled(b.conn, Receive(U(TestFrAct)), mid);
    TestLegible(a.msgs, TestFrAct, false, 0);
    TestLegible(b.msgs, TestFrCon, Due(h, mid), h.recvNext);
    assert InGoodTime(a1.conn, Receive(U(TestFrCon)), later) by { SameTime(a.conn, a1.conn, later); }
    TestEnds(a1, later);
    var k := Handled(a1.conn, Receive(U(TestFrCon)), later);
    StillLegible(a1.msgs, Due(k, later), k.recvNext);
  }

  lemma SameTime(c: Conn, d: Conn, later: nat)
    requires d.sent == c.sent && d.config == c.config && InGoodTime(c, Receive(U(TestFrCon)), later)
    ensures InGoodTime(d, Receive(U(TestFrCon)), later)
  {
  }

  lemma StillLegible(msgs: seq<Apdu>, due: bool, recv: Seq15)
    requires Encodable(msgs)
    ensures Encodable(msgs + Acknowledgement(due, recv))
  {
  }
}
