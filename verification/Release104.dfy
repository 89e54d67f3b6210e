/** How a 104 system at rest gets going again: the t2 timer sends the acknowledgement that is still owed. */
module Release104 {
  import opened Common
  import opened SeqNo
  import opened Conn104
  import opened Effect104
  import opened Framing104
  import opened Station104
  import opened System104
  import opened Window104

  predicate Timed(c: Config) { c.t1 > 0 && c.t2 > 0 && c.t3 > 0 }

  // ------------------------------------------------------------------
  // A debt always has a date
  // ------------------------------------------------------------------

  /** The t2 timer of a station that owes an acknowledgement is running. */
  predicate DebtDated(c: Conn) { c.unackedRecv > 0 ==> c.lastRecvIFrame.Some? }

  lemma {:induction false} FlushDated(c: Conn, now: nat)
    requires DebtDated(c)
    ensures DebtDated(c.FlushPending(now))
  {
  }

  lemma {:induction false} ApduDated(c: Conn, apdu: Apdu, now: nat)
    requires DebtDated(c)
    ensures DebtDated(c.OnApdu(apdu, now))
  {
    hide Conn.FlushPending;
    var c' := c.(lastRecvAny := Some(now));
    match apdu {
      case U(f) =>
        FlushDated(c'.Transition(Active), now);
        FlushDated(c'.EmitU(StartDtCon, now).Transition(Active), now);
      case S(recv) =>
        FlushDated(c'.(sent := c.sent[AckCount(c.sent, recv)..]), now);
      case I(send, recv, asdu) =>
        FlushDated(c'.Received(now).(sent := c.sent[AckCount(c.sent, recv)..]), now);
    }
  }

  lemma {:induction false} CallDated(c: Conn, input: Input, now: nat)
    requires DebtDated(c)
    ensures DebtDated(c.Handle(input, now))
  {
    hide Conn.OnApdu, Conn.RunTimers;
    if input.Receive? { ApduDated(c, input.apdu, now); }
    TimersDated(c.Dispatch(input, now), now);
  }

  lemma {:induction false} TimersDated(c: Conn, now: nat)
    requires DebtDated(c)
    ensures DebtDated(c.RunTimers(now))
  {
  }

  lemma {:induction false} AlwaysDebtDated(cc: Config, sc: Config, events: seq<Event>)
    ensures var y := Run(cc, sc, events); DebtDated(y.client.conn) && DebtDated(y.server.conn)
  {
    if events != [] {
      hide Conn.Handle, Sends, Deliveries, Reasons, Encodable;
      var y, e := Run(cc, sc, events[..|events| - 1]), events[|events| - 1];
      AlwaysDebtDated(cc, sc, events[..|events| - 1]);
      if Moves(y, e) { CallDated(y.At(e.side).conn, InputOf(y, e), e.now); }
    }
  }

  // ------------------------------------------------------------------
  // The tick and the arrival
  // ------------------------------------------------------------------

  /** A tick when t2 has run out sends exactly the S-frame that is owed. */
  lemma {:induction false} DueCall(c: Conn, now: nat)
    requires c.actions == [] && c.state == Active && c.config.t3 > 0
    requires c.AckDue(now) && !c.OldestExpired(now) && !c.TestExpired(now)
    ensures c.Handle(Tick, now) == c.EmitSupervisory(now)
  {
  }

  lemma {:induction false} DueTick(b: Station, now: nat)
    requires b.conn.actions == [] && b.conn.state == Active && b.conn.config.t3 > 0
    requires b.conn.AckDue(now) && !b.conn.OldestExpired(now) && !b.conn.TestExpired(now)
    ensures var t := Step(b, Tick, now);
            && t.msgs == b.msgs + [S(b.conn.recvNext)] && t.closed == b.closed && t.conn.unackedRecv == 0
  {
    hide Conn.Handle, Sends, Deliveries, Reasons;
    DueCall(b.conn, now);
    assert b.conn.EmitSupervisory(now).actions == [SendApdu(S(b.conn.recvNext))];
    Lists(SendApdu(S(b.conn.recvNext)), StateChanged(Active));
    assert b.closed + [] == b.closed;
  }

  /** An N(R) for all that is outstanding empties the window, and as many waiting ASDUs as it takes leave. */
  lemma {:induction false} AllAcknowledged(a: Station, nr: Seq15, later: nat)
    requires Inv(a) && a.conn.state == Active && a.conn.config.t1 > 0 && !a.conn.TestExpired(later)
    requires AckCount(a.conn.sent, nr) == |a.conn.sent|
    ensures var t, n := Step(a, Receive(S(nr)), later), Min(|a.conn.pending|, a.conn.config.k);
            && Acknowledged(t) == |Carried(a.msgs)| && |t.conn.sent| == n
            && t.conn.pending == a.conn.pending[n..] && Carried(t.msgs) == Carried(a.msgs) + a.conn.pending[..n]
  {
    hide Conn.Handle, Sends, Deliveries, Reasons, Carried, NumberedFrom, Fresh, Contiguous, Receives, LastAck, AcksFit;
    var c := a.conn;
    var d := c.Handle(Receive(S(nr)), later);
    HandleStep(c, Receive(S(nr)), later);
    var m := Carried(Sends(d.actions));
    FreshLength(c.sendNext, |m|, later);
    MsgsAppend(a.msgs, Sends(d.actions));
    StaysActive(c, nr, later);
    assert c.pending + [] == c.pending && c.sent[|c.sent|..] + Fresh(c.sendNext, |m|, later) ==
        Fresh(c.sendNext, |m|, later);
    assert m == c.pending[..|m|] && d.pending == c.pending[|m|..];
  }

  lemma {:induction false} StaysActive(c: Conn, nr: Seq15, later: nat)
    requires c.state == Active && c.config.t1 > 0 && !c.TestExpired(later) && AckCount(c.sent, nr) == |c.sent|
    ensures c.Handle(Receive(S(nr)), later).state == Active
  {
    hide Conn.OnUFrame, Conn.OnIFrame, AckCount;
    var e := c.(lastRecvAny := Some(later), sent := []).FlushPending(later);
    assert c.Dispatch(Receive(S(nr)), later) == e;
    assert e.sent != [] ==> e.sent[0].at == later;
  }

  // ------------------------------------------------------------------
  // Release
  // ------------------------------------------------------------------

  /** No t1 has run out when the peer of `side` ticks at `now` and its frame arrives at `later`. */
  predicate InTime(y: System, side: Side, now: nat, later: nat) {
    var a, b := y.At(side).conn, y.Peer(side).conn;
    !b.OldestExpired(now) && !b.TestExpired(now) && !a.TestExpired(later)
  }

  /** The peer of `side` ticks, and what it sends arrives. */
  function TickAndArrive(y: System, side: Side, now: nat, later: nat): System {
    Apply(Apply(y, Local(Other(side), Tick, now)), Arrive(side, later))
  }

  /** All that `side` had sent is acknowledged, and of what waited as much is out as the window takes. */
  ghost predicate Freed(y: System, z: System, side: Side) {
    var a, t := y.At(side), z.At(side);
    var n := Min(|a.conn.pending|, a.conn.config.k);
    && Acknowledged(t) == |Carried(a.msgs)| && |t.conn.sent| == n && z.Peer(side).conn.unackedRecv == 0
    && t.conn.pending == a.conn.pending[n..] && Carried(t.msgs) == Carried(a.msgs) + a.conn.pending[..n]
  }

  /** The count that the peer acknowledges is all of the window, and not too far ahead to take effect. */
  lemma {:induction false} CoversWindow(a: Station, b: Station)
    requires Inv(a) && Inv(b) && b.delivered == Carried(a.msgs) && 1 <= |a.conn.sent| <= 0x3FFF
    ensures AckCount(a.conn.sent, b.conn.recvNext) == |a.conn.sent|
  {
    hide Carried, NumberedFrom, LastAck, AckCount, Wrap, AcksFit;
    AckTakesEffectIff(a.conn.sent, Acknowledged(a), |a.conn.sent|);
  }

  lemma {:induction false} Frees(y: System, side: Side, now: nat, later: nat)
    requires Inv(y.At(side)) && Inv(y.Peer(side)) && Quiescent(y)
    requires y.Peer(side).delivered == Carried(y.At(side).msgs) && 1 <= |y.At(side).conn.sent| <= 0x3FFF
    requires Timed(y.At(side).conn.config) && Timed(y.Peer(side).conn.config)
    requires y.Peer(side).conn.AckDue(now) && InTime(y, side, now, later)
    ensures Freed(y, TickAndArrive(y, side, now, later), side)
  {
    hide Step, Carried, AckCount, Encode, Inv;
    var a, b := y.At(side), y.Peer(side);
    NothingQueued(a);
    NothingQueued(b);
    DueTick(b, now);
    var nr := b.conn.recvNext;
    var t := Step(b, Tick, now);
    StaysLegible(b.msgs, nr);
    assert t.msgs[|b.msgs|] == S(nr);
    CoversWindow(a, b);
    AllAcknowledged(a, nr, later);
  }

  lemma NothingQueued(s: Station)
    requires Inv(s)
    ensures s.conn.actions == []
  {
  }

  lemma StaysLegible(msgs: seq<Apdu>, nr: Seq15)
    requires Encodable(msgs)
    ensures Encode(S(nr)).Some? && Encodable(msgs + [S(nr)])
  {
  }

  /**
   * Progress. In every run at rest, if the k of a station or the w of its peer is at most 16383: when
   * the t2 of the peer runs out on what it owes, one tick of the peer and one arrival acknowledge
   * everything the station had sent, and let out as much of what waited as its window takes.
   */
  lemma {:induction false} DueTickReleases(cc: Config, sc: Config, events: seq<Event>, side: Side, now: nat, later: nat)
    requires Timed(cc) && Timed(sc) && Close(ConfigAt(cc, sc, side), ConfigAt(cc, sc, Other(side)))
    requires var y := Run(cc, sc, events);
             Quiescent(y) && y.Peer(side).conn.AckDue(now) && InTime(y, side, now, later)
    ensures var y := Run(cc, sc, events); Freed(y, TickAndArrive(y, side, now, later), side)
  {
    hide Run, Quiescent, Freed, TickAndArrive, InTime, Inv;
    var y := Run(cc, sc, events);
    WindowAtRest(cc, sc, events, side);
    AlwaysData(cc, sc, events);
    DeliveredAtRest(y, side);
    assert |y.At(side).conn.sent| <= y.At(side).conn.config.k by { InWindow(y.At(side)); }
    Frees(y, side, now, later);
  }

  lemma InWindow(s: Station)
    requires Inv(s)
    ensures |s.conn.sent| <= s.conn.config.k
  {
  }

  lemma {:induction false} DeliveredAtRest(y: System, side: Side)
    requires DataInv(y) && Quiescent(y)
    ensures Inv(y.At(side)) && Inv(y.Peer(side)) && y.Peer(side).delivered == Carried(y.At(side).msgs)
  {
    hide Inv, Carried, Encodable;
    assert y.client.msgs[..|y.client.msgs|] == y.client.msgs && y.server.msgs[..|y.server.msgs|] == y.server.msgs;
  }

  /**
   * What is in the window of `side` or waits behind it is owed by the peer, whose t2 timer runs, and
   * the next acknowledgement releases it.
   */
  ghost predicate Recovers(y: System, side: Side) {
    var a, b := y.At(side).conn, y.Peer(side).conn;
    a.sent != [] || a.pending != [] ==>
      && b.unackedRecv > 0 && b.lastRecvIFrame.Some?
      && forall now, later :: b.AckDue(now) && InTime(y, side, now, later) ==>
           Freed(y, TickAndArrive(y, side, now, later), side)
  }

  /** With such limits and a window of at least one frame, nothing at rest is there to stay. */
  lemma {:induction false} AlwaysRecovers(cc: Config, sc: Config, events: seq<Event>, side: Side)
    requires Timed(cc) && Timed(sc) && Close(ConfigAt(cc, sc, side), ConfigAt(cc, sc, Other(side)))
    requires ConfigAt(cc, sc, side).k >= 1 && Quiescent(Run(cc, sc, events))
    ensures Recovers(Run(cc, sc, events), side)
  {
    hide Run, Quiescent, Freed, TickAndArrive, InTime, Conn.AckDue;
    var y := Run(cc, sc, events);
    WindowAtRest(cc, sc, events, side);
    AlwaysDebtDated(cc, sc, events);
    forall now, later | y.Peer(side).conn.AckDue(now) && InTime(y, side, now, later)
      ensures Freed(y, TickAndArrive(y, side, now, later), side)
    {
      DueTickReleases(cc, sc, events, side, now, later);
    }
  }
}
