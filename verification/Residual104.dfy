/**
 * The limits that `Window104` and `Release104` ask for are exact: beyond them there are runs that come
 * to rest with an ASDU waiting, or with frames in the window that no acknowledgement is owed for.
 */
module Residual104 {
  import opened Common
  import opened SeqNo
  import opened Conn104
  import opened Effect104
  import opened Framing104
  import opened Station104
  import opened System104
  import opened Window104
  import opened Release104

  // ------------------------------------------------------------------
  // One station that only sends and one that only receives
  // ------------------------------------------------------------------

  /** `n` empty ASDUs, and the I-frames that carry them. */
  function Blank(n: nat): seq<Bytes> { seq(n, _ => []) }

  function Data(n: nat): seq<Apdu> { seq(n, i requires 0 <= i < n => I(Wrap(i), 0, [])) }

  function RoleAt(side: Side): Role { if side == AtClient then Client else Server }

  /** The first frame of a station. */
  function Opening(side: Side): Apdu { if side == AtClient then U(StartDtAct) else U(StartDtCon) }

  /** A station that has sent `n` I-frames at time 0 and read none. */
  function Sender(role: Role, c: Config, n: nat): Conn {
    New(role, c).(state := Active, lastSendAny := Some(0), lastRecvAny := Some(0), sendNext := Wrap(n),
                  sent := Fresh(0, n, 0))
  }

  function SenderStation(side: Side, c: Config, n: nat): Station {
    Station(Sender(RoleAt(side), c, n), Blank(n), [Opening(side)] + Data(n), Repeat(0, n + 1), [], [])
  }

  /** A station that has taken `m` I-frames at time 0 and acknowledged none. */
  function Taker(role: Role, c: Config, m: u16): Conn {
    New(role, c).(state := Active, lastSendAny := Some(0), lastRecvAny := Some(0), recvNext := Wrap(m),
                  unackedRecv := m, lastRecvIFrame := if m == 0 then None else Some(0))
  }

  function TakerStation(side: Side, c: Config, m: u16): Station {
    Station(Taker(RoleAt(side), c, m), [], [Opening(side)], [0], Blank(m), [])
  }

  /** The same after it has acknowledged all of them at once. */
  function Acknowledger(side: Side, c: Config, m: u16, now: nat): Station {
    Station(Taker(RoleAt(side), c, m).(unackedRecv := 0, lastSendAny := Some(now)), [], [Opening(side), S(Wrap(m))],
            [0, m], Blank(m), [])
  }

  lemma {:induction false} Submit(role: Role, c: Config, n: nat)
    requires Timed(c)
    ensures var s, d := Sender(role, c, n), Sender(role, c, n).Handle(SendAsdu([]), 0);
            && (n < c.k ==> d == Sender(role, c, n + 1).(actions := [SendApdu(I(Wrap(n), 0, []))]))
            && (n == c.k ==> d == s.(pending := [[]]))
  {
    hide Conn.OnApdu, Wrap, Next;
    var s := Sender(role, c, n);
    var d := s.OnUserSend([], 0);
    NextWrap(n);
    assert Fresh(0, n, 0) + [Outstanding(Wrap(n), 0)] == Fresh(0, n + 1, 0);
    assert |s.sent| == n;
    assert d.sent != [] ==> d.sent[0].at == 0;
    assert d.RunTimers(0) == d;
  }

  lemma {:induction false} Take(role: Role, c: Config, m: u16)
    requires Timed(c) && m < 0xFFFF
    ensures var d := Taker(role, c, m).Handle(Receive(I(Wrap(m), 0, [])), 0);
            && (m + 1 < c.w ==> d == Taker(role, c, m + 1).(actions := [DeliverAsdu([])]))
            && (m + 1 == c.w ==> d == Taker(role, c, m + 1).(unackedRecv := 0,
                                                             actions := [DeliverAsdu([]), SendApdu(S(Wrap(m + 1)))]))
  {
    hide Conn.OnUFrame, Wrap, Next;
    NextWrap(m);
    var s := Taker(role, c, m).(lastRecvAny := Some(0));
    var d := s.Received(0);
    assert d.Acknowledge(0, 0) == d;
    assert s.OnIFrame(Wrap(m), 0, [], 0) == d.Push(DeliverAsdu([])).SupervisoryIfDue(0);
  }

  lemma {:induction false} SubmitStep(side: Side, c: Config, n: nat)
    requires Timed(c)
    ensures n < c.k ==> Step(SenderStation(side, c, n), SendAsdu([]), 0) == SenderStation(side, c, n + 1)
    ensures n == c.k ==> Step(SenderStation(side, c, n), SendAsdu([]), 0) == Waiter(side, c)
  {
    hide Conn.Handle, Step, Sends, Deliveries, Reasons, Wrap, Fresh;
    var role, s := RoleAt(side), SenderStation(side, c, n);
    Submit(role, c, n);
    assert Blank(n) + [[]] == Blank(n + 1) && Data(n) + [I(Wrap(n), 0, [])] == Data(n + 1);
    assert [Opening(side)] + Data(n) + [I(Wrap(n), 0, [])] == [Opening(side)] + Data(n + 1);
    assert Repeat(0, n + 1) + Repeat(0, 1) == Repeat(0, n + 2) && Repeat(0, n + 1) + Repeat(0, 0) == Repeat(0, n + 1);
    if n < c.k {
      Lists(SendApdu(I(Wrap(n), 0, [])), StateChanged(Active));
      StepIs(s, SendAsdu([]), 0, Sender(role, c, n + 1), [SendApdu(I(Wrap(n), 0, []))]);
    } else if n == c.k {
      Nothing();
      StepIs(s, SendAsdu([]), 0, Sender(role, c, n).(pending := [[]]), []);
    }
  }

  /** A sender whose window is full keeps one more ASDU waiting. */
  function Waiter(side: Side, c: Config): Station {
    SenderStation(side, c, c.k).(conn := Sender(RoleAt(side), c, c.k).(pending := [[]]), submitted := Blank(c.k + 1))
  }

  lemma {:induction false} TakeStep(side: Side, c: Config, m: u16)
    requires Timed(c) && m < 0xFFFF
    ensures var t := Step(TakerStation(side, c, m), Receive(I(Wrap(m), 0, [])), 0);
            && (m + 1 < c.w ==> t == TakerStation(side, c, m + 1))
            && (m + 1 == c.w ==> t == Acknowledger(side, c, m + 1, 0))
  {
    hide Conn.Handle, Step, Sends, Deliveries, Reasons, Wrap;
    var role := RoleAt(side);
    Take(role, c, m);
    var s, input := TakerStation(side, c, m), Receive(I(Wrap(m), 0, []));
    assert Blank(m) + [[]] == Blank(m + 1);
    Lists(DeliverAsdu([]), SendApdu(S(Wrap(m + 1))));
    if m + 1 < c.w {
      StepIs(s, input, 0, Taker(role, c, m + 1), [DeliverAsdu([])]);
      assert [0] + Repeat(m + 1, 0) == [0];
    } else if m + 1 == c.w {
      StepIs(s, input, 0, Taker(role, c, m + 1).(unackedRecv := 0), [DeliverAsdu([]), SendApdu(S(Wrap(m + 1)))]);
      assert [0] + Repeat(m + 1, 1) == [0, m + 1];
    }
  }

  /** When t2 runs out the receiver acknowledges what it has, short of w. */
  lemma {:induction false} TickStep(side: Side, c: Config, m: u16)
    requires Timed(c) && m > 0
    ensures Step(TakerStation(side, c, m), Tick, c.t2) == Acknowledger(side, c, m, c.t2)
  {
    hide Conn.Handle, Step, Sends, Deliveries, Reasons, Wrap;
    var s, act := TakerStation(side, c, m), SendApdu(S(Wrap(m)));
    DueCall(s.conn, c.t2);
    assert s.conn.EmitSupervisory(c.t2).actions == [act];
    Lists(act, StateChanged(Active));
    StepIs(s, Tick, c.t2, Acknowledger(side, c, m, c.t2).conn, [act]);
    assert [0] + Repeat(m, 1) == [0, m];
  }

  /** How many of `n` outstanding frames one N(R) for all of them acknowledges. */
  function Released(n: u16): nat { if 1 <= n % 0x8000 <= 0x3FFF then n % 0x8000 else 0 }

  lemma {:induction false} AcknowledgeAll(role: Role, c: Config, n: u16, now: nat)
    requires Timed(c) && 0 < n && now < c.t1
    ensures Released(n) <= n
    ensures Sender(role, c, n).Handle(Receive(S(Wrap(n))), now) ==
            Sender(role, c, n).(sent := Fresh(0, n, 0)[Released(n)..], lastRecvAny := Some(now))
  {
    hide Conn.OnUFrame, Conn.OnIFrame, Wrap, Distance, AckCount;
    var s := Sender(role, c, n);
    AckCountClosed(s.sent, 0, Wrap(n));
    WholeTurn(n);
    var d := s.(sent := s.sent[Released(n)..], lastRecvAny := Some(now));
    assert d.FlushPending(now) == d;
    assert d.sent != [] ==> d.sent[0].at == 0;
    assert d.RunTimers(now) == d;
  }

  lemma WholeTurn(n: u16)
    ensures Distance(Wrap(0), Wrap(n)) == n % 0x8000
  {
  }

  /** The sender after the N(R) for everything. */
  function Holder(side: Side, c: Config, n: u16, now: nat): Station
    requires Released(n) <= n
  {
    var conn := Sender(RoleAt(side), c, n).(sent := Fresh(0, n, 0)[Released(n)..], lastRecvAny := Some(now));
    SenderStation(side, c, n).(conn := conn)
  }

  lemma {:induction false} HoldStep(side: Side, c: Config, n: u16, now: nat)
    requires Timed(c) && 0 < n && now < c.t1
    ensures Released(n) <= n
    ensures Step(SenderStation(side, c, n), Receive(S(Wrap(n))), now) == Holder(side, c, n, now)
  {
    hide Step, Sends, Deliveries, Reasons, Conn.Handle, Wrap;
    AcknowledgeAll(RoleAt(side), c, n, now);
    Nothing();
    StepIs(SenderStation(side, c, n), Receive(S(Wrap(n))), now, Holder(side, c, n, now).conn, []);
    assert Repeat(0, n + 1) + Repeat(0, 0) == Repeat(0, n + 1);
  }

  // ------------------------------------------------------------------
  // The runs
  // ------------------------------------------------------------------

  const up: seq<Event> := [Local(AtClient, StartDt, 0), Arrive(AtServer, 0), Arrive(AtClient, 0)]

  /** Start, submit `n` empty ASDUs at `side`, and let its peer read `m` of them. */
  function Script(side: Side, n: nat, m: nat): seq<Event> {
    up + seq(n, _ => Local(side, SendAsdu([]), 0)) + seq(m, _ => Arrive(Other(side), 0))
  }

  /** `a` at `side`, having read `ra` messages, and its peer `b`, having read `rb`. */
  function Pair(side: Side, a: Station, b: Station, ra: nat, rb: nat): System {
    if side == AtClient then System(a, b, ra, rb) else System(b, a, rb, ra)
  }

  lemma {:induction false} Starts(cc: Config)
    requires Timed(cc)
    ensures New(Client, cc).Handle(StartDt, 0) ==
            New(Client, cc).(state := Starting, lastSendAny := Some(0),
                             actions := [SendApdu(U(StartDtAct)), StateChanged(Starting)])
  {
    hide Conn.OnApdu;
  }

  lemma {:induction false} Answers(sc: Config)
    requires Timed(sc)
    ensures New(Server, sc).Handle(Receive(U(StartDtAct)), 0) ==
            Taker(Server, sc, 0).(actions := [SendApdu(U(StartDtCon)), StateChanged(Active)])
  {
    hide Conn.OnIFrame, Conn.Acknowledge;
  }

  lemma {:induction false} Confirmed(cc: Config)
    requires Timed(cc)
    ensures New(Client, cc).(state := Starting, lastSendAny := Some(0)).Handle(Receive(U(StartDtCon)), 0) ==
            Taker(Client, cc, 0).(actions := [StateChanged(Active)])
  {
    hide Conn.OnIFrame, Conn.Acknowledge;
  }

  function Starter(cc: Config): Station {
    Station(New(Client, cc).(state := Starting, lastSendAny := Some(0)), [], [U(StartDtAct)], [0], [], [])
  }

  lemma {:induction false} StartSteps(cc: Config, sc: Config)
    requires Timed(cc) && Timed(sc)
    ensures Step(Init(Client, cc), StartDt, 0) == Starter(cc)
    ensures Step(Init(Server, sc), Receive(U(StartDtAct)), 0) == TakerStation(AtServer, sc, 0)
  {
    hide Conn.Handle, Step, Sends, Deliveries, Reasons;
    Starts(cc);
    Answers(sc);
    Lists(SendApdu(U(StartDtAct)), StateChanged(Starting));
    StepIs(Init(Client, cc), StartDt, 0, Starter(cc).conn, [SendApdu(U(StartDtAct)), StateChanged(Starting)]);
    Lists(SendApdu(U(StartDtCon)), StateChanged(Active));
    StepIs(Init(Server, sc), Receive(U(StartDtAct)), 0, Taker(Server, sc, 0),
           [SendApdu(U(StartDtCon)), StateChanged(Active)]);
  }

  lemma {:induction false} ConfirmedStep(cc: Config)
    requires Timed(cc)
    ensures Step(Starter(cc), Receive(U(StartDtCon)), 0) == TakerStation(AtClient, cc, 0)
  {
    hide Conn.Handle, Step, Sends, Deliveries, Reasons;
    Confirmed(cc);
    Lists(StateChanged(Active), StateChanged(Active));
    StepIs(Starter(cc), Receive(U(StartDtCon)), 0, Taker(Client, cc, 0), [StateChanged(Active)]);
    assert [0] + Repeat(0, 0) == [0];
  }

  lemma {:induction false} Ready(cc: Config, sc: Config)
    requires Timed(cc) && Timed(sc)
    ensures Run(cc, sc, up) == System(TakerStation(AtClient, cc, 0), TakerStation(AtServer, sc, 0), 1, 1)
  {
    hide Step, Run, Taker, New;
    StartSteps(cc, sc);
    ConfirmedStep(cc);
    assert Run(cc, sc, []) == Start(cc, sc) by { Nowhere(cc, sc); }
    Onward(cc, sc, [], up[0]);
    Onward(cc, sc, [up[0]], up[1]);
    Onward(cc, sc, [up[0], up[1]], up[2]);
    assert [] + [up[0]] == [up[0]] && [up[0]] + [up[1]] == [up[0], up[1]] && [up[0], up[1]] + [up[2]] == up;
  }

  lemma Nowhere(cc: Config, sc: Config)
    ensures Run(cc, sc, []) == Start(cc, sc)
  {
  }

  lemma Onward(cc: Config, sc: Config, events: seq<Event>, e: Event)
    ensures Run(cc, sc, events + [e]) == Apply(Run(cc, sc, events), e)
  {
    assert (events + [e])[..|events|] == events;
  }

  /** With nothing exchanged yet, either station can become the sender. */
  lemma {:induction false} NothingYet(side: Side, c: Config)
    ensures SenderStation(side, c, 0) == TakerStation(side, c, 0)
  {
    assert Fresh(0, 0, 0) == [] && Blank(0) == [] && [Opening(side)] + Data(0) == [Opening(side)];
    assert Repeat(0, 1) == [0];
  }

  predicate Short(msgs: seq<Apdu>) { forall j :: 0 <= j < |msgs| ==> (msgs[j].I? ==> msgs[j].asdu == []) }

  lemma ShortFits(msgs: seq<Apdu>)
    requires Short(msgs)
    ensures Encodable(msgs)
  {
  }

  lemma {:induction false} SenderShort(side: Side, c: Config, n: nat)
    ensures Short(SenderStation(side, c, n).msgs) && SenderStation(side, c, n).closed == []
  {
  }

  lemma {:induction false} Acts(side: Side, a: Station, b: Station, ra: nat, rb: nat, input: Input, now: nat)
    requires a.closed == [] && Short(a.msgs) && !input.Receive?
    ensures Apply(Pair(side, a, b, ra, rb), Local(side, input, now)) == Pair(side, Step(a, input, now), b, ra, rb)
  {
    hide Step, Encode, Encodable;
    ShortFits(a.msgs);
  }

  lemma {:induction false} Reads(side: Side, a: Station, b: Station, ra: nat, rb: nat, now: nat)
    requires a.closed == [] && Short(a.msgs) && Short(b.msgs) && ra < |b.msgs|
    ensures Apply(Pair(side, a, b, ra, rb), Arrive(side, now)) ==
            Pair(side, Step(a, Receive(b.msgs[ra]), now), b, ra + 1, rb)
  {
    hide Step, Encode;
    ShortFits(a.msgs);
    ShortFits(b.msgs);
  }

  lemma Mirrored(side: Side, a: Station, b: Station, ra: nat, rb: nat)
    ensures Pair(side, a, b, ra, rb) == Pair(Other(side), b, a, rb, ra) && Other(Other(side)) == side
  {
  }

  /** A station submits `n` ASDUs, as many as its window takes. */
  lemma {:induction false} Submitted(cc: Config, sc: Config, side: Side, n: nat)
    requires Timed(cc) && Timed(sc) && n <= ConfigAt(cc, sc, side).k
    ensures Run(cc, sc, Script(side, n, 0)) ==
            Pair(side, SenderStation(side, ConfigAt(cc, sc, side), n),
                 TakerStation(Other(side), ConfigAt(cc, sc, Other(side)), 0), 1, 1)
  {
    hide Step, Run, SenderStation, TakerStation, Apply, Short;
    var ca, cb := ConfigAt(cc, sc, side), ConfigAt(cc, sc, Other(side));
    if n == 0 {
      Ready(cc, sc);
      NothingYet(side, ca);
      assert Script(side, 0, 0) == up;
    } else {
      Submitted(cc, sc, side, n - 1);
      SubmitStep(side, ca, n - 1);
      var e := Local(side, SendAsdu([]), 0);
      assert Script(side, n - 1, 0) + [e] == Script(side, n, 0);
      Onward(cc, sc, Script(side, n - 1, 0), e);
      SenderShort(side, ca, n - 1);
      Acts(side, SenderStation(side, ca, n - 1), TakerStation(Other(side), cb, 0), 1, 1, SendAsdu([]), 0);
    }
  }

  /** Its peer reads one more. */
  lemma {:induction false} TakesNext(cc: Config, sc: Config, side: Side, n: nat, m: u16, a: Station)
    requires Timed(ConfigAt(cc, sc, Other(side))) && m + 1 < |a.msgs|
    requires a.msgs == [Opening(side)] + Data(|a.msgs| - 1)
    requires Run(cc, sc, Script(side, n, m)) ==
             Pair(side, a, TakerStation(Other(side), ConfigAt(cc, sc, Other(side)), m), 1, m + 1)
    ensures Run(cc, sc, Script(side, n, m + 1)) ==
            Pair(side, a, Step(TakerStation(Other(side), ConfigAt(cc, sc, Other(side)), m),
                               Receive(I(Wrap(m), 0, [])), 0), 1, m + 2)
  {
    hide Step, Run, Taker, Apply, Pair;
    var b, e := TakerStation(Other(side), ConfigAt(cc, sc, Other(side)), m), Arrive(Other(side), 0);
    assert Script(side, n, m) + [e] == Script(side, n, m + 1);
    Onward(cc, sc, Script(side, n, m), e);
    assert a.msgs[m + 1] == I(Wrap(m), 0, []);
    Mirrored(side, a, b, 1, m + 1);
    Reads(Other(side), b, a, m + 1, 1, 0);
    Mirrored(side, a, Step(b, Receive(I(Wrap(m), 0, [])), 0), 1, m + 2);
  }

  /** Its peer reads `m` of them, short of its w. */
  lemma {:induction false} Taken(cc: Config, sc: Config, side: Side, n: nat, m: u16, a: Station)
    requires Timed(ConfigAt(cc, sc, Other(side))) && (m == 0 || m < ConfigAt(cc, sc, Other(side)).w)
    requires m < |a.msgs| && a.msgs == [Opening(side)] + Data(|a.msgs| - 1)
    requires Run(cc, sc, Script(side, n, 0)) ==
             Pair(side, a, TakerStation(Other(side), ConfigAt(cc, sc, Other(side)), 0), 1, 1)
    ensures Run(cc, sc, Script(side, n, m)) ==
            Pair(side, a, TakerStation(Other(side), ConfigAt(cc, sc, Other(side)), m), 1, m + 1)
  {
    hide Step, Run, TakerStation, Pair, Script, Data;
    if m > 0 {
      Taken(cc, sc, side, n, m - 1, a);
      TakesNext(cc, sc, side, n, m - 1, a);
      TakeStep(Other(side), ConfigAt(cc, sc, Other(side)), m - 1);
    }
  }

  /** All of `Pair` at rest. */
  lemma {:induction false} PairRests(side: Side, a: Station, b: Station)
    requires a.closed == [] && b.closed == [] && Short(a.msgs) && Short(b.msgs)
    requires a.conn.state == Active && b.conn.state == Active
    ensures var y := Pair(side, a, b, |b.msgs|, |a.msgs|); Quiescent(y) && y.At(side) == a && y.Peer(side) == b
  {
    hide Encode;
    ShortFits(a.msgs);
    ShortFits(b.msgs);
  }

  /**
   * With k below w, or no window at all: after k + 1 submissions everything sent is delivered, and the
   * last ASDU waits until the t2 of the peer runs out on the k frames it owes. With k at 0 it owes
   * nothing, and the ASDU waits for good.
   */
  lemma {:induction false} NarrowWindow(cc: Config, sc: Config, side: Side)
    requires Timed(cc) && Timed(sc) && ConfigAt(cc, sc, side).k < Max(ConfigAt(cc, sc, Other(side)).w, 1)
    ensures var k := ConfigAt(cc, sc, side).k;
            var y := Run(cc, sc, Script(side, k + 1, k));
            && Quiescent(y) && y.At(side).conn.pending == [[]] && |y.Peer(side).delivered| == k
            && |y.At(side).conn.sent| == k == y.Peer(side).conn.unackedRecv
  {
    hide Step, Run, Apply, Pair;
    var ca, cb := ConfigAt(cc, sc, side), ConfigAt(cc, sc, Other(side));
    var k := ca.k;
    Submitted(cc, sc, side, k);
    SubmitStep(side, ca, k);
    var e := Local(side, SendAsdu([]), 0);
    assert Script(side, k, 0) + [e] == Script(side, k + 1, 0);
    Onward(cc, sc, Script(side, k, 0), e);
    Acts(side, SenderStation(side, ca, k), TakerStation(Other(side), cb, 0), 1, 1, SendAsdu([]), 0);
    Taken(cc, sc, side, k + 1, k, Waiter(side, ca));
    PairRests(side, Waiter(side, ca), TakerStation(Other(side), cb, k));
  }

  /**
   * At rest everything submitted is delivered and acknowledged, yet frames stay in the window of
   * `side`: its peer owes nothing, so none of its timers will send another acknowledgement.
   */
  ghost predicate Stray(y: System, side: Side, n: u16) {
    var a, b := y.At(side), y.Peer(side);
    && Quiescent(y) && b.delivered == a.submitted && |b.delivered| == n
    && b.conn.unackedRecv == 0 && a.conn.pending == []
    && |a.conn.sent| == n - Released(n) >= 0x4000 && (n < 0x8000 ==> |a.conn.sent| == n)
  }

  lemma {:induction false} HolderStrays(side: Side, ca: Config, cb: Config, n: u16, now: nat, later: nat)
    requires Timed(ca) && 0x4000 <= n && later < ca.t1
    ensures var y := Pair(side, SenderStation(side, ca, n), Acknowledger(Other(side), cb, n, now), 1, n + 1);
            Stray(Apply(y, Arrive(side, later)), side, n)
  {
    hide Step, Apply, Wrap, Encode, Pair, Quiescent, Encodable;
    var a, b := SenderStation(side, ca, n), Acknowledger(Other(side), cb, n, now);
    HoldStep(side, ca, n, later);
    Reads(side, a, b, 1, n + 1, later);
    PairRests(side, Holder(side, ca, n, later), b);
  }

  /**
   * With w of 16384 or more, below k or equal to it: after w submissions the one N(R) that answers
   * them is too far ahead.
   */
  lemma {:induction false} WideDebt(cc: Config, sc: Config, side: Side, later: nat)
    requires Timed(cc) && Timed(sc) && later < ConfigAt(cc, sc, side).t1
    requires 0x4000 <= ConfigAt(cc, sc, Other(side)).w <= ConfigAt(cc, sc, side).k
    ensures var w := ConfigAt(cc, sc, Other(side)).w;
            Stray(Run(cc, sc, Script(side, w, w) + [Arrive(side, later)]), side, w)
  {
    hide Step, Run, Apply, Pair, Sender, Taker, Stray;
    var ca, cb := ConfigAt(cc, sc, side), ConfigAt(cc, sc, Other(side));
    var w := cb.w;
    Submitted(cc, sc, side, w);
    Taken(cc, sc, side, w, w - 1, SenderStation(side, ca, w));
    TakesNext(cc, sc, side, w, w - 1, SenderStation(side, ca, w));
    TakeStep(Other(side), cb, w - 1);
    Onward(cc, sc, Script(side, w, w), Arrive(side, later));
    HolderStrays(side, ca, cb, w, 0, later);
  }

  /**
   * With k of 16384 or more and below w: after k submissions the t2 of the peer runs out, and the one
   * N(R) that it then sends is too far ahead. It may arrive at any time before t1 runs out.
   */
  lemma {:induction false} LateDebt(cc: Config, sc: Config, side: Side, later: nat)
    requires Timed(cc) && Timed(sc) && later < ConfigAt(cc, sc, side).t1
    requires 0x4000 <= ConfigAt(cc, sc, side).k < ConfigAt(cc, sc, Other(side)).w
    ensures var k, t2 := ConfigAt(cc, sc, side).k, ConfigAt(cc, sc, Other(side)).t2;
            Stray(Run(cc, sc, Script(side, k, k) + [Local(Other(side), Tick, t2)] + [Arrive(side, later)]), side, k)
  {
    hide Step, Run, Apply, Pair, Sender, Taker, Stray;
    var ca, cb := ConfigAt(cc, sc, side), ConfigAt(cc, sc, Other(side));
    var k := ca.k;
    var a, b, e := SenderStation(side, ca, k), TakerStation(Other(side), cb, k), Local(Other(side), Tick, cb.t2);
    Submitted(cc, sc, side, k);
    Taken(cc, sc, side, k, k, a);
    Onward(cc, sc, Script(side, k, k), e);
    Mirrored(side, a, b, 1, k + 1);
    Acts(Other(side), b, a, k + 1, 1, Tick, cb.t2);
    TickStep(Other(side), cb, k);
    Mirrored(side, a, Acknowledger(Other(side), cb, k, cb.t2), 1, k + 1);
    Onward(cc, sc, Script(side, k, k) + [e], Arrive(side, later));
    HolderStrays(side, ca, cb, k, cb.t2, later);
  }

  /** Where the limits are not close, some run ends in stray frames. */
  lemma {:induction false} StrayRun(cc: Config, sc: Config, side: Side) returns (events: seq<Event>)
    requires Timed(cc) && Timed(sc) && !Close(ConfigAt(cc, sc, side), ConfigAt(cc, sc, Other(side)))
    ensures Stray(Run(cc, sc, events), side, Min(ConfigAt(cc, sc, side).k, ConfigAt(cc, sc, Other(side)).w))
  {
    hide Run, Stray;
    var k, w, t2 := ConfigAt(cc, sc, side).k, ConfigAt(cc, sc, Other(side)).w, ConfigAt(cc, sc, Other(side)).t2;
    if w <= k {
      WideDebt(cc, sc, side, 0);
      events := Script(side, w, w) + [Arrive(side, 0)];
    } else {
      LateDebt(cc, sc, side, 0);
      events := Script(side, k, k) + [Local(Other(side), Tick, t2)] + [Arrive(side, 0)];
    }
  }

  // ------------------------------------------------------------------
  // The exact limits
  // ------------------------------------------------------------------

  /**
   * At rest the window of a station always holds exactly what its peer has not acknowledged if and
   * only if its k or the w of the peer is at most 16383.
   */
  lemma {:induction false} BalancedIff(cc: Config, sc: Config, side: Side)
    requires Timed(cc) && Timed(sc)
    ensures (forall events :: Quiescent(Run(cc, sc, events)) ==>
               Balanced(Run(cc, sc, events).At(side), Run(cc, sc, events).Peer(side)))
            <==> Min(ConfigAt(cc, sc, side).k, ConfigAt(cc, sc, Other(side)).w) <= 0x3FFF
  {
    hide Run, Quiescent;
    if Close(ConfigAt(cc, sc, side), ConfigAt(cc, sc, Other(side))) {
      forall events | Quiescent(Run(cc, sc, events))
        ensures Balanced(Run(cc, sc, events).At(side), Run(cc, sc, events).Peer(side))
      {
        WindowAtRest(cc, sc, events, side);
      }
    } else {
      var events := StrayRun(cc, sc, side);
    }
  }

  /**
   * At rest what a station holds always gets free when the t2 of its peer next runs out if and only
   * if, besides, it has a window at all.
   */
  lemma {:induction false} RecoversIff(cc: Config, sc: Config, side: Side)
    requires Timed(cc) && Timed(sc)
    ensures (forall events :: Quiescent(Run(cc, sc, events)) ==> Recovers(Run(cc, sc, events), side))
            <==> 1 <= ConfigAt(cc, sc, side).k
                 && Min(ConfigAt(cc, sc, side).k, ConfigAt(cc, sc, Other(side)).w) <= 0x3FFF
  {
    hide Run, Quiescent, Freed;
    if ConfigAt(cc, sc, side).k == 0 {
      NarrowWindow(cc, sc, side);
    } else if Close(ConfigAt(cc, sc, side), ConfigAt(cc, sc, Other(side))) {
      hide Recovers;
      forall events | Quiescent(Run(cc, sc, events)) ensures Recovers(Run(cc, sc, events), side) {
        AlwaysRecovers(cc, sc, events, side);
      }
    } else {
      var events := StrayRun(cc, sc, side);
    }
  }

  /**
   * At rest nothing ever waits at a station, not even for t2, if and only if the w of its peer, or 1
   * where that is 0, is at most its k and at most 16383.
   */
  lemma {:induction false} SettledIff(cc: Config, sc: Config, side: Side)
    requires Timed(cc) && Timed(sc)
    ensures (forall events :: Quiescent(Run(cc, sc, events)) ==>
               Settled(Run(cc, sc, events).At(side), Run(cc, sc, events).Peer(side)))
            <==> Max(ConfigAt(cc, sc, Other(side)).w, 1) <= Min(ConfigAt(cc, sc, side).k, 0x3FFF)
  {
    hide Run, Quiescent;
    var k, w := ConfigAt(cc, sc, side).k, ConfigAt(cc, sc, Other(side)).w;
    if Max(w, 1) <= Min(k, 0x3FFF) {
      forall events | Quiescent(Run(cc, sc, events))
        ensures Settled(Run(cc, sc, events).At(side), Run(cc, sc, events).Peer(side))
      {
        NoWindowDeadlock(cc, sc, events);
      }
    } else if k < Max(w, 1) {
      NarrowWindow(cc, sc, side);
    } else {
      var events := StrayRun(cc, sc, side);
    }
  }
}
