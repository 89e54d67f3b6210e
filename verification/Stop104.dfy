/** What goes wrong when the rules of `Handshake104.Allowed` are broken. */
module Stop104 {
  import opened Common
  import opened SeqNo
  import opened Conn104
  import opened Effect104
  import opened Framing104
  import opened Reply104
  import opened Station104
  import opened System104
  import opened Handshake104

  /**
   * An I-frame that a client sends after its STOPDT_act is a protocol error: in every
   * interleaving a server that gets to read it answers with that error, and delivers none
   * of it. A stopping client sends such a frame whenever an ASDU is waiting and the window
   * has room (`StoppingClientFlushes`), which is what `Allowed` rules out.
   */
  lemma {:induction false} DataAfterStopIsRefused(cc: Config, sc: Config, events: seq<Event>, i: nat, now: nat)
    requires var y := Run(cc, sc, events);
             && i < y.serverRead < |y.client.msgs| && y.Running(AtServer)
             && y.client.msgs[i] == U(StopDtAct) && y.client.msgs[y.serverRead].I?
             && Encode(y.client.msgs[y.serverRead]).Some?
    ensures var y := Run(cc, sc, events);
            var z := Apply(y, Arrive(AtServer, now));
            ProtocolError in z.server.closed && z.server.delivered == y.server.delivered
  {
    AlwaysPhase(cc, sc, events);
    hide Run, LocalStop, Encode;
    var y := Run(cc, sc, events);
    assert Stops(y.client.msgs, y.serverRead);
    hide Stops;
    RefusedNow(y, LocalStop(cc, sc, events), now);
  }

  lemma {:induction false} RefusedNow(y: System, p: Option<nat>, now: nat)
    requires PhaseInv(y, p) && y.Running(AtServer) && y.serverRead < |y.client.msgs|
    requires BehindStop(y.client.msgs, p, y.serverRead) && Encode(y.client.msgs[y.serverRead]).Some?
    ensures var z := Apply(y, Arrive(AtServer, now));
            ProtocolError in z.server.closed && z.server.delivered == y.server.delivered
  {
    hide Step, Inv, Follows, Talk, Encode, BehindStop;
    ServerArrive(y, p, now);
    Grows(y.server, Receive(y.client.msgs[y.serverRead]), now);
    assert y.server.delivered + [] == y.server.delivered;
  }

  /** A stopping client with an ASDU waiting sends it as soon as an S-frame leaves the window room. */
  lemma {:induction false} StoppingClientFlushes(c: Conn, nr: Seq15, now: nat)
    requires c.actions == [] && c.state == Stopping && c.pending != []
    requires |c.sent| - AckCount(c.sent, nr) < c.config.k
    ensures var d := c.Handle(Receive(S(nr)), now);
            d.actions != [] && d.actions[0] == SendApdu(I(c.sendNext, c.recvNext, c.pending[0]))
  {
    hide Conn.RunTimers, Conn.FlushPending, Conn.OnUFrame, Conn.OnIFrame, Shape;
    var c' := c.(lastRecvAny := Some(now), sent := c.sent[AckCount(c.sent, nr)..]);
    var e := c'.FlushPending(now);
    assert e == c.Dispatch(Receive(S(nr)), now);
    FlushAdds(c', now);
    TimerShape(e, now);
    assert e.actions[0] == FlushActions(c', c'.Room())[0] == SendApdu(c'.Frame(0));
  }

  /** A server that was stopped locally answers the client's next I-frame with a protocol error. */
  lemma {:induction false} LocallyStoppedServerRefuses(s: Station, stopAt: nat, m: Apdu, now: nat)
    requires Inv(s) && s.closed == [] && s.conn.role == Server && s.conn.state == Active && m.I?
    ensures var t := Step(s, StopDt, stopAt);
            t.closed == [] ==> ProtocolError in Step(t, Receive(m), now).closed
  {
    hide Step, Inv;
    var a := CallFacts(s, StopDt, stopAt);
    StepInv(s, StopDt, stopAt);
    var t := Step(s, StopDt, stopAt);
    if t.closed == [] { var b := CallFacts(t, Receive(m), now); }
  }
}
