/** What one call of a 104 connection answers: its handshake frames, its next state, its disconnects. */
module Reply104 {
  import opened Common
  import opened SeqNo
  import opened Conn104
  import opened Effect104

  /** The state of a receiver after a message, or `None` where the message is illegal. */
  function Consume(role: Role, st: State, m: Apdu): Option<State> {
    match m
    case I(_, _, _) => if st == Active || st == Stopping then Some(st) else None
    case S(_) => Some(st)
    case U(StartDtCon) => if role == Client && st == Starting then Some(Active) else None
    case U(StartDtAct) => if role == Server && st == Stopped then Some(Active) else None
    case U(StopDtAct) => if role == Server then Some(Stopped) else None
    case U(StopDtCon) => if role == Client && st == Stopping then Some(Stopping) else None
    case U(_) => Some(st)
  }

  /** Frames that do not belong to the start and stop handshakes. */
  predicate Calm(m: Apdu) { m.I? || m.S? || m.function_ == TestFrAct || m.function_ == TestFrCon }

  predicate AllCalm(msgs: seq<Apdu>) { forall j :: 0 <= j < |msgs| ==> Calm(msgs[j]) }

  predicate NoData(msgs: seq<Apdu>) { forall j :: 0 <= j < |msgs| ==> !msgs[j].I? }

  // ------------------------------------------------------------------
  // What one call sends
  // ------------------------------------------------------------------

  /** The inputs a connection answers with a protocol error. */
  predicate Illegal(c: Conn, input: Input) {
    input.Receive? &&
    (if input.apdu.I? then !c.Accepts(input.apdu.send) else Consume(c.role, c.state, input.apdu).None?)
  }

  /** The handshake frame an input makes a connection send. */
  function Lead(c: Conn, input: Input): seq<Apdu> {
    match input
    case Receive(U(StartDtAct)) => if Illegal(c, input) then [] else [U(StartDtCon)]
    case Receive(U(StopDtAct)) => if Illegal(c, input) then [] else [U(StopDtCon)]
    case StartDt => if c.role == Client && c.state == Stopped then [U(StartDtAct)] else []
    case StopDt => if c.role == Client && c.state == Active then [U(StopDtAct)] else []
    case _ => []
  }

  /** The state an input leads to, unless the connection closes. */
  function Target(c: Conn, input: Input): State {
    match input
    case Receive(m) => if Illegal(c, input) then Closed else Consume(c.role, c.state, m).value
    case StartDt => if c.role == Client && c.state == Stopped then Starting else c.state
    case StopDt => if c.state == Active then (if c.role == Client then Stopping else Stopped) else c.state
    case _ => c.state
  }

  /** `acts` sends `lead` first and then nothing but calm frames, I-frames only if `data`. */
  ghost predicate Shape(acts: seq<Action>, lead: seq<Apdu>, data: bool) {
    var m := Sends(acts);
    && lead <= m && AllCalm(m[|lead|..]) && (!data ==> NoData(m[|lead|..]))
  }

  predicate CalmAction(a: Action) { a.SendApdu? ==> Calm(a.apdu) }

  predicate NoDataAction(a: Action) { a.SendApdu? ==> !a.apdu.I? }

  lemma {:induction false} CalmSends(acts: seq<Action>)
    requires forall i :: 0 <= i < |acts| ==> CalmAction(acts[i])
    ensures AllCalm(Sends(acts))
    ensures (forall i :: 0 <= i < |acts| ==> NoDataAction(acts[i])) ==> NoData(Sends(acts))
  {
    if acts != [] {
      CalmSends(acts[..|acts| - 1]);
      assert CalmAction(acts[|acts| - 1]);
    }
  }

  lemma {:induction false} ShapeThen(a: seq<Action>, b: seq<Action>, lead: seq<Apdu>, data: bool)
    requires Shape(a, lead, data) && Shape(b, [], data)
    ensures Shape(a + b, lead, data)
  {
    hide Sends;
    ActionsAppend(a, b);
    var ma, mb := Sends(a), Sends(b);
    assert mb[0..] == mb;
    assert (ma + mb)[|lead|..] == ma[|lead|..] + mb;
  }

  lemma {:induction false} CalmShape(acts: seq<Action>, data: bool)
    requires forall i :: 0 <= i < |acts| ==> CalmAction(acts[i])
    requires data || forall i :: 0 <= i < |acts| ==> NoDataAction(acts[i])
    ensures Shape(acts, [], data)
  {
    CalmSends(acts);
    assert Sends(acts)[0..] == Sends(acts);
  }

  lemma {:induction false} LeadShape(m: Apdu, rest: seq<Action>, data: bool)
    requires forall i :: 0 <= i < |rest| ==> CalmAction(rest[i])
    requires data || forall i :: 0 <= i < |rest| ==> NoDataAction(rest[i])
    ensures Shape([SendApdu(m)] + rest, [m], data)
  {
    CalmShape(rest, data);
    OneAction(SendApdu(m));
    assert Shape([SendApdu(m)], [m], data);
    ShapeThen([SendApdu(m)], rest, [m], data);
  }

  /** I-frames leave only on the way to, or in, the active state, or when a stopping client flushes. */
  predicate MaySendData(c: Conn, input: Input) {
    Target(c, input) == Active || (c.state == Stopping && c.pending != [])
  }

  lemma {:induction false} FlushAdds(c: Conn, now: nat)
    ensures var d := c.FlushPending(now); var acts := FlushActions(c, c.Room());
            && d.actions == c.actions + acts && d.state == c.state
            && (forall i :: 0 <= i < |acts| ==> CalmAction(acts[i]))
            && (c.pending == [] ==> acts == [])
  {
    FlushFields(c, c.Room(), now);
  }

  lemma {:induction false} StartShape(c: Conn, f: UFunction, now: nat)
    requires c.actions == [] && (f == StartDtCon || f == StartDtAct) && !Illegal(c, Receive(U(f)))
    ensures var d := c.OnUFrame(f, now);
            && Shape(d.actions, Lead(c, Receive(U(f))), true) && d.state == Active
            && (forall i :: 0 <= i < |d.actions| ==> !d.actions[i].Disconnect?)
  {
    hide Conn.FlushPending, Shape;
    var d := c.OnUFrame(f, now);
    if f == StartDtCon {
      FlushAdds(c.Transition(Active), now);
      CalmShape(d.actions, true);
    } else {
      var e := c.EmitU(StartDtCon, now).Transition(Active);
      FlushAdds(e, now);
      var rest := [StateChanged(Active)] + FlushActions(e, e.Room());
      assert d.actions == [SendApdu(U(StartDtCon))] + rest;
      LeadShape(U(StartDtCon), rest, true);
    }
  }

  lemma {:induction false} StopShape(c: Conn, now: nat)
    requires c.actions == [] && c.role == Server
    ensures var d := c.OnUFrame(StopDtAct, now);
            && Shape(d.actions, [U(StopDtCon)], false) && d.state == Stopped
            && (forall i :: 0 <= i < |d.actions| ==> !d.actions[i].Disconnect?)
  {
    hide Conn.FlushPending, Shape;
    var d := c.EmitU(StopDtCon, now).Transition(Stopped);
    var rest := d.actions[1..];
    assert d.actions == [SendApdu(U(StopDtCon))] + rest;
    LeadShape(U(StopDtCon), rest, false);
  }

  lemma {:induction false} OtherUShape(c: Conn, f: UFunction, now: nat)
    requires c.actions == []
    requires Illegal(c, Receive(U(f))) || f == StopDtCon || f == TestFrAct || f == TestFrCon
    ensures var d := c.OnUFrame(f, now); var input := Receive(U(f));
            && Shape(d.actions, [], false)
            && (Disconnect(StoppedCleanly) !in d.actions ==> d.state == Target(c, input))
            && (Disconnect(ProtocolError) in d.actions <==> Illegal(c, input))
            && (Disconnect(StoppedCleanly) in d.actions ==> d.sent == []) && Disconnect(AckTimeout) !in d.actions
  {
    hide Conn.FlushPending, Shape;
    var d := c.OnUFrame(f, now);
    if Illegal(c, Receive(U(f))) {
      assert d == c.Fail(ProtocolError);
      hide Conn.OnUFrame;
      assert d.actions[0] == Disconnect(ProtocolError);
    }
    CalmShape(d.actions, false);
  }

  lemma {:induction false} UShape(c: Conn, f: UFunction, now: nat)
    requires c.actions == []
    ensures var d := c.OnUFrame(f, now); var input := Receive(U(f));
            && Shape(d.actions, Lead(c, input), MaySendData(c, input))
            && (Disconnect(StoppedCleanly) !in d.actions ==> d.state == Target(c, input))
            && (Disconnect(ProtocolError) in d.actions <==> Illegal(c, input))
            && (Disconnect(StoppedCleanly) in d.actions ==> d.sent == []) && Disconnect(AckTimeout) !in d.actions
  {
    hide Conn.OnUFrame, Shape;
    var d, input := c.OnUFrame(f, now), Receive(U(f));
    if (f == StartDtCon || f == StartDtAct) && !Illegal(c, input) {
      StartShape(c, f, now);
    } else if f == StopDtAct && !Illegal(c, input) {
      StopShape(c, now);
      WeakerShape(d.actions, [U(StopDtCon)], MaySendData(c, input));
    } else {
      OtherUShape(c, f, now);
      WeakerShape(d.actions, [], MaySendData(c, input));
    }
  }

  lemma {:induction false} AckShape(c: Conn, nr: Seq15, now: nat)
    requires c.actions == []
    ensures var d := c.Acknowledge(nr, now);
            && (forall i :: 0 <= i < |d.actions| ==> CalmAction(d.actions[i]) && d.actions[i].SendApdu?)
            && (c.pending == [] ==> d.actions == []) && d.state == c.state
  {
    FlushAdds(c.(sent := c.sent[AckCount(c.sent, nr)..]), now);
  }

  lemma {:induction false} IShape(c: Conn, m: Apdu, now: nat)
    requires c.actions == [] && m.I?
    ensures var d := c.OnIFrame(m.send, m.recv, m.asdu, now); var input := Receive(m);
            && Shape(d.actions, [], MaySendData(c, input))
            && d.state == Target(c, input)
            && (Disconnect(ProtocolError) in d.actions <==> Illegal(c, input))
            && Disconnect(StoppedCleanly) !in d.actions && Disconnect(AckTimeout) !in d.actions
  {
    hide Conn.Acknowledge, Shape;
    AckShape(c.Received(now), m.recv, now);
    var d := c.OnIFrame(m.send, m.recv, m.asdu, now);
    CalmShape(d.actions, MaySendData(c, Receive(m)));
  }

  lemma {:induction false} LocalShape(c: Conn, input: Input, now: nat)
    requires c.actions == [] && !input.Receive?
    ensures var d := c.Dispatch(input, now);
            && Shape(d.actions, Lead(c, input), MaySendData(c, input))
            && d.state == Target(c, input)
            && (forall i :: 0 <= i < |d.actions| ==> !d.actions[i].Disconnect?)
  {
    hide Conn.OnApdu, Shape;
    var d := c.Dispatch(input, now);
    if Lead(c, input) == [] {
      CalmShape(d.actions, MaySendData(c, input));
    } else {
      var rest := d.actions[1..];
      assert d.actions == [SendApdu(Lead(c, input)[0])] + rest;
      LeadShape(Lead(c, input)[0], rest, MaySendData(c, input));
    }
  }

  lemma {:induction false} DispatchShape(c: Conn, input: Input, now: nat)
    requires c.actions == []
    ensures var d := c.Dispatch(input, now);
            && Shape(d.actions, Lead(c, input), MaySendData(c, input))
            && (Disconnect(StoppedCleanly) !in d.actions ==> d.state == Target(c, input))
            && (Disconnect(ProtocolError) in d.actions <==> Illegal(c, input))
            && (Disconnect(StoppedCleanly) in d.actions ==> d.sent == []) && Disconnect(AckTimeout) !in d.actions
  {
    hide Conn.OnUFrame, Conn.OnIFrame, Conn.Acknowledge, Shape;
    if !input.Receive? {
      LocalShape(c, input, now);
    } else {
      var c' := c.(lastRecvAny := Some(now));
      match input.apdu {
        case U(f) => UShape(c', f, now);
        case I(_, _, _) => IShape(c', input.apdu, now);
        case S(recv) =>
          AckShape(c', recv, now);
          var d := c.Dispatch(input, now);
          CalmShape(d.actions, MaySendData(c, input));
      }
    }
  }

  /** What the timers add: nothing but calm frames without data and the end of the connection. */
  ghost predicate TimerTail(c: Conn, d: Conn, tail: seq<Action>) {
    && d.actions == c.actions + tail && d.sent == c.sent
    && (forall i :: 0 <= i < |tail| ==> CalmAction(tail[i]) && NoDataAction(tail[i]))
    && (forall i :: 0 <= i < |tail| ==> tail[i] != Disconnect(ProtocolError))
    && (forall i :: 0 <= i < |tail| ==> tail[i] == Disconnect(StoppedCleanly) ==> d.sent == [])
    && (d.state != c.state ==> Disconnect(StoppedCleanly) in tail || Disconnect(AckTimeout) in tail)
  }

  lemma {:induction false} TailThen(c: Conn, d: Conn, e: Conn, a: seq<Action>, b: seq<Action>)
    requires TimerTail(c, d, a) && TimerTail(d, e, b)
    ensures TimerTail(c, e, a + b)
  {
    assert c.actions + (a + b) == (c.actions + a) + b;
  }

  lemma {:induction false} TimerTailIs(c: Conn, now: nat) returns (tail: seq<Action>)
    ensures TimerTail(c, c.RunTimers(now), tail)
    ensures Disconnect(AckTimeout) in tail <==> c.OldestExpired(now) || c.TestExpired(now)
  {
    hide Conn.AckTimer, Conn.IdleTimer, Conn.FinishStop, Conn.OldestExpired, Conn.TestExpired, TimerTail;
    if c.OldestExpired(now) || c.TestExpired(now) {
      tail := FailTail(c);
    } else {
      var c1 := c.AckTimer(now);
      var c2 := c1.IdleTimer(now);
      var t1, t2 := SendingTails(c, c1, now);
      var t3 := FinishTail(c2);
      TailThen(c, c1, c2, t1, t2);
      TailThen(c, c2, c2.FinishStop(), t1 + t2, t3);
      tail := t1 + t2 + t3;
    }
  }

  lemma {:induction false} FailTail(c: Conn) returns (tail: seq<Action>)
    ensures TimerTail(c, c.Fail(AckTimeout), tail) && Disconnect(AckTimeout) in tail
  {
    tail := [Disconnect(AckTimeout)] + (if c.state == Closed then [] else [StateChanged(Closed)]);
    assert c.Fail(AckTimeout).actions == c.actions + tail;
    assert tail[0] == Disconnect(AckTimeout);
  }

  lemma {:induction false} SendingTails(c: Conn, d: Conn, now: nat) returns (t1: seq<Action>, t2: seq<Action>)
    ensures TimerTail(c, c.AckTimer(now), t1) && Disconnect(AckTimeout) !in t1
    ensures TimerTail(d, d.IdleTimer(now), t2) && Disconnect(AckTimeout) !in t2
  {
    t1 := if c.AckDue(now) then [SendApdu(S(c.recvNext))] else [];
    t2 := if d.IdleTestDue(now) then [SendApdu(U(TestFrAct))] else [];
  }

  lemma {:induction false} FinishTail(c: Conn) returns (tail: seq<Action>)
    ensures TimerTail(c, c.FinishStop(), tail) && Disconnect(AckTimeout) !in tail
  {
    tail := if c.FinishStop() == c then [] else [StateChanged(Stopped), Disconnect(StoppedCleanly)];
    assert c.FinishStop().actions == c.actions + tail;
    assert tail != [] ==> tail[1] in tail;
  }

  lemma {:induction false} TimerShape(c: Conn, now: nat)
    ensures var d := c.RunTimers(now);
            && c.actions <= d.actions && Shape(d.actions[|c.actions|..], [], false)
            && (d.state == c.state || Disconnect(StoppedCleanly) in d.actions || Disconnect(AckTimeout) in d.actions)
            && (Disconnect(ProtocolError) in d.actions <==> Disconnect(ProtocolError) in c.actions)
            && (Disconnect(StoppedCleanly) in d.actions && d.sent != [] ==> Disconnect(StoppedCleanly) in c.actions)
            && d.sent == c.sent
            && (Disconnect(AckTimeout) in d.actions <==>
                  Disconnect(AckTimeout) in c.actions || c.OldestExpired(now) || c.TestExpired(now))
  {
    hide Shape, Conn.RunTimers, Conn.OldestExpired, Conn.TestExpired;
    var tail := TimerTailIs(c, now);
    var d := c.RunTimers(now);
    assert d.actions[|c.actions|..] == tail;
    CalmShape(tail, false);
  }

  lemma {:induction false} ReasonsAre(acts: seq<Action>, reason: Reason)
    ensures reason in Reasons(acts) <==> Disconnect(reason) in acts
  {
    if acts != [] {
      var rest, last := acts[..|acts| - 1], acts[|acts| - 1];
      assert acts == rest + [last];
      ReasonsAre(rest, reason);
    }
  }

  /** A call reports an acknowledgement timeout exactly when t1 has run out after its input was handled. */
  lemma {:induction false} TimeoutIff(c: Conn, input: Input, now: nat)
    requires c.actions == []
    ensures var e := c.Dispatch(input, now);
            AckTimeout in Reasons(c.Handle(input, now).actions) <==> e.OldestExpired(now) || e.TestExpired(now)
  {
    hide Conn.Dispatch, Conn.RunTimers, Shape, Lead, MaySendData, Target, Illegal, Reasons, Conn.OldestExpired,
         Conn.TestExpired;
    DispatchShape(c, input, now);
    TimerShape(c.Dispatch(input, now), now);
    ReasonsAre(c.Handle(input, now).actions, AckTimeout);
  }

  /**
   * One call: its frames, its next state, and that it reports a protocol error exactly on
   * the illegal inputs and a clean stop only with no frame outstanding.
   */
  lemma {:induction false} CallShape(c: Conn, input: Input, now: nat)
    requires c.actions == []
    ensures var d := c.Handle(input, now);
            && Shape(d.actions, Lead(c, input), MaySendData(c, input))
            && (Reasons(d.actions) == [] ==> d.state == Target(c, input))
            && (ProtocolError in Reasons(d.actions) <==> Illegal(c, input))
            && (StoppedCleanly in Reasons(d.actions) ==> d.sent == [])
  {
    hide Conn.Dispatch, Conn.RunTimers, Shape, Lead, MaySendData, Target, Illegal, Reasons;
    var e := c.Dispatch(input, now);
    var d := e.RunTimers(now);
    DispatchShape(c, input, now);
    TimerShape(e, now);
    var rest := d.actions[|e.actions|..];
    assert d.actions == e.actions + rest;
    WeakerShape(rest, [], MaySendData(c, input));
    ShapeThen(e.actions, rest, Lead(c, input), MaySendData(c, input));
    ReasonsAre(d.actions, ProtocolError);
    ReasonsAre(d.actions, StoppedCleanly);
    ReasonsAre(d.actions, AckTimeout);
    ReasonsAre(e.actions, StoppedCleanly);
  }

  lemma WeakerShape(acts: seq<Action>, lead: seq<Apdu>, data: bool)
    requires Shape(acts, lead, false)
    ensures Shape(acts, lead, data)
  {
  }

  lemma {:induction false} SilentTimers(c: Conn, now: nat) returns (tail: seq<Action>)
    requires c.unackedRecv == 0 && (c.state == Stopped || c.state == Starting)
    ensures c.RunTimers(now).actions == c.actions + tail && Sends(tail) == []
  {
    tail := if c.OldestExpired(now) || c.TestExpired(now) then [Disconnect(AckTimeout), StateChanged(Closed)] else [];
    assert c.RunTimers(now).actions == c.actions + tail;
    PairSends(tail);
  }

  /** Outside data transfer a connection that owes no acknowledgement sends its handshake frame or nothing. */
  lemma {:induction false} Silent(c: Conn, input: Input, now: nat)
    requires c.actions == [] && c.unackedRecv == 0 && !input.Receive?
    requires c.state == Stopped || c.state == Starting
    ensures Sends(c.Handle(input, now).actions) == Lead(c, input)
  {
    hide Conn.OnApdu, Conn.RunTimers, Sends;
    var d := c.Dispatch(input, now);
    var lead := Lead(c, input);
    assert d.actions == (if lead == [] then [] else [SendApdu(lead[0]), StateChanged(Starting)]);
    var tail := SilentTimers(d, now);
    ActionsAppend(d.actions, tail);
    PairSends(d.actions);
  }

  lemma PairSends(acts: seq<Action>)
    requires acts == [] || (|acts| == 2 && !acts[1].SendApdu?)
    ensures Sends(acts) == (if acts != [] && acts[0].SendApdu? then [acts[0].apdu] else [])
  {
    if acts != [] {
      var rest := acts[..1];
      assert rest[..0] == [];
    }
  }
}
