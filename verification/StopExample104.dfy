/** A stop that is requested while an ASDU is waiting ends in a protocol error. */
module StopExample104 {
  import opened Common
  import opened Conn104
  import opened Effect104
  import opened Station104
  import opened System104
  import opened Stop104

  const cfg := Config(1, 1, 10, 5, 100)

  const startClient := [SendApdu(U(StartDtAct)), StateChanged(Starting)]
  const startServer := [SendApdu(U(StartDtCon)), StateChanged(Active)]
  const stopClient := [SendApdu(U(StopDtAct)), StateChanged(Stopping)]
  const stopServer := [SendApdu(U(StopDtCon)), StateChanged(Stopped)]
  const first: Apdu := I(0, 0, [1])
  const second: Apdu := I(1, 0, [2])

  // The client after each of its calls.
  const c0: Conn := New(Client, cfg)
  const c1: Conn := c0.(state := Starting, lastSendAny := Some(0))
  const c2: Conn := c1.(state := Active, lastRecvAny := Some(0))
  const c3: Conn := c2.(sendNext := 1, sent := [Outstanding(0, 0)])
  const c4: Conn := c3.(pending := [[2]])
  const c5: Conn := c4.(state := Stopping)
  const c6: Conn := c5.(sendNext := 2, sent := [Outstanding(1, 0)], pending := [])

  // The server after each of its calls.
  const s0: Conn := New(Server, cfg)
  const s1: Conn := s0.(state := Active, lastSendAny := Some(0), lastRecvAny := Some(0))
  const s2: Conn := s1.(recvNext := 1, lastRecvIFrame := Some(0))
  const s3: Conn := s2.(state := Stopped)

  lemma ClientStarts()
    ensures c0.Handle(StartDt, 0) == c1.(actions := startClient)
  {
    hide Conn.OnApdu;
  }

  lemma ClientConfirmed()
    ensures c1.Handle(Receive(U(StartDtCon)), 0) == c2.(actions := [StateChanged(Active)])
  {
    hide Conn.OnIFrame, Conn.Acknowledge;
  }

  lemma ClientSends()
    ensures c2.Handle(SendAsdu([1]), 0) == c3.(actions := [SendApdu(first)])
    ensures c3.Handle(SendAsdu([2]), 0) == c4
  {
    hide Conn.OnApdu;
  }

  lemma ClientStops()
    ensures c4.Handle(StopDt, 0) == c5.(actions := stopClient)
  {
    hide Conn.OnApdu;
  }

  lemma ClientFlush()
    ensures c5.Handle(Receive(S(1)), 0) == c6.(actions := [SendApdu(second)])
  {
    assert AckCount(c5.sent, 1) == 1;
    var d := c5.(lastRecvAny := Some(0), sent := []);
    assert d.Room() == 1;
    assert d.FlushPending(0).sent == [Outstanding(1, 0)];
    assert d.FlushPending(0).actions == [SendApdu(second)];
    assert d.FlushPending(0) == c6.(actions := [SendApdu(second)]);
  }

  lemma ServerStarts()
    ensures s0.Handle(Receive(U(StartDtAct)), 0) == s1.(actions := startServer)
  {
    hide Conn.OnIFrame, Conn.Acknowledge;
  }

  lemma ServerStops()
    ensures s2.Handle(Receive(U(StopDtAct)), 0) == s3.(actions := stopServer)
  {
    hide Conn.OnIFrame, Conn.Acknowledge;
  }

  lemma ServerData()
    ensures s1.Handle(Receive(first), 0) == s2.(actions := [DeliverAsdu([1]), SendApdu(S(1))])
  {
    assert s1.Received(0).Acknowledge(0, 0) == s1.Received(0);
  }

  const events: seq<Event> :=
    [Local(AtClient, StartDt, 0), Arrive(AtServer, 0), Arrive(AtClient, 0),
     Local(AtClient, SendAsdu([1]), 0), Local(AtClient, SendAsdu([2]), 0), Local(AtClient, StopDt, 0),
     Arrive(AtServer, 0), Arrive(AtClient, 0), Arrive(AtServer, 0)]

  // The client and the server with their histories.
  const a0: Station := Station(c0, [], [], [], [], [])
  const a1: Station := Station(c1, [], [U(StartDtAct)], [0], [], [])
  const a2: Station := a1.(conn := c2)
  const a3: Station := Station(c3, [[1]], [U(StartDtAct), first], [0, 0], [], [])
  const a4: Station := a3.(conn := c4, submitted := [[1], [2]])
  const a5: Station := a4.(conn := c5, msgs := [U(StartDtAct), first, U(StopDtAct)], acks := [0, 0, 0])
  const a6: Station := a5.(conn := c6, msgs := [U(StartDtAct), first, U(StopDtAct), second], acks := [0, 0, 0, 0])
  const b0: Station := Station(s0, [], [], [], [], [])
  const b1: Station := Station(s1, [], [U(StartDtCon)], [0], [], [])
  const b2: Station := Station(s2, [], [U(StartDtCon), S(1)], [0, 1], [[1]], [])
  const b3: Station := Station(s3, [], [U(StartDtCon), S(1), U(StopDtCon)], [0, 1, 1], [[1]], [])

  lemma ClientStartSteps()
    ensures Step(a0, StartDt, 0) == a1
    ensures Step(a1, Receive(U(StartDtCon)), 0) == a2
  {
    ClientStarts(); ClientConfirmed();
    hide Step, Conn.Handle, Sends, Deliveries, Reasons;
    StepIs(a0, StartDt, 0, c1, startClient);
    Lists(startClient[0], startClient[1]);
    StepIs(a1, Receive(U(StartDtCon)), 0, c2, [StateChanged(Active)]);
    Lists(StateChanged(Active), StateChanged(Active));
  }

  lemma ClientSendSteps()
    ensures Step(a2, SendAsdu([1]), 0) == a3
    ensures Step(a3, SendAsdu([2]), 0) == a4
  {
    ClientSends();
    hide Step, Conn.Handle, Sends, Deliveries, Reasons;
    StepIs(a2, SendAsdu([1]), 0, c3, [SendApdu(first)]);
    Lists(SendApdu(first), SendApdu(first));
    StepIs(a3, SendAsdu([2]), 0, c4, []);
    Nothing();
  }

  lemma ClientStopSteps()
    ensures Step(a4, StopDt, 0) == a5
    ensures Step(a5, Receive(S(1)), 0) == a6
  {
    ClientStops(); ClientFlush();
    hide Step, Conn.Handle, Sends, Deliveries, Reasons;
    StepIs(a4, StopDt, 0, c5, stopClient);
    Lists(stopClient[0], stopClient[1]);
    StepIs(a5, Receive(S(1)), 0, c6, [SendApdu(second)]);
    Lists(SendApdu(second), SendApdu(second));
  }

  lemma ServerSteps()
    ensures Step(b0, Receive(U(StartDtAct)), 0) == b1
    ensures Step(b2, Receive(U(StopDtAct)), 0) == b3
  {
    ServerStarts(); ServerStops();
    hide Step, Conn.Handle, Sends, Deliveries, Reasons;
    StepIs(b0, Receive(U(StartDtAct)), 0, s1, startServer);
    Lists(startServer[0], startServer[1]);
    StepIs(b2, Receive(U(StopDtAct)), 0, s3, stopServer);
    Lists(stopServer[0], stopServer[1]);
  }

  lemma ServerTakes()
    ensures Step(b1, Receive(first), 0) == b2
  {
    ServerData();
    hide Step, Conn.Handle, Sends, Deliveries, Reasons;
    StepIs(b1, Receive(first), 0, s2, [DeliverAsdu([1]), SendApdu(S(1))]);
    Lists(DeliverAsdu([1]), SendApdu(S(1)));
  }

  lemma Replay(n: nat, y: System)
    requires n < |events| && Run(cfg, cfg, events[..n]) == y
    ensures Run(cfg, cfg, events[..n + 1]) == Apply(y, events[n])
  {
    assert events[..n + 1][..n] == events[..n];
  }

  lemma Starts()
    ensures Run(cfg, cfg, events[..3]) == System(a2, b1, 1, 1)
  {
    ClientStartSteps(); ServerSteps();
    hide Step, Run;
    assert Run(cfg, cfg, events[..0]) == System(a0, b0, 0, 0) by { Begin(); }
    Replay(0, System(a0, b0, 0, 0));
    Replay(1, System(a1, b0, 0, 0));
    Replay(2, System(a1, b1, 0, 1));
  }

  lemma Submits()
    ensures Run(cfg, cfg, events[..6]) == System(a5, b1, 1, 1)
  {
    Starts(); ClientSendSteps(); ClientStopSteps();
    hide Step, Run;
    Replay(3, System(a2, b1, 1, 1));
    Replay(4, System(a3, b1, 1, 1));
    Replay(5, System(a4, b1, 1, 1));
  }

  lemma Stops()
    ensures Run(cfg, cfg, events) == System(a6, b3, 2, 3)
  {
    Submits(); ClientStopSteps(); ServerSteps(); ServerTakes();
    hide Step, Run;
    Replay(6, System(a5, b1, 1, 1));
    Replay(7, System(a5, b2, 1, 2));
    Replay(8, System(a6, b2, 2, 2));
    assert events[..9] == events;
  }

  /**
   * With room for one frame, two ASDUs are submitted and the client's user stops at once. The
   * second ASDU leaves behind STOPDT_act; the server, stopped by then, reports a protocol error.
   */
  lemma StopWhileWaiting()
    ensures var y := Run(cfg, cfg, events);
            var z := Apply(y, Arrive(AtServer, 0));
            ProtocolError in z.server.closed && z.server.delivered == [[1]] && y.client.submitted == [[1], [2]]
  {
    Stops();
    hide Step, Run;
    DataAfterStopIsRefused(cfg, cfg, events, 2, 0);
  }

  lemma Begin()
    ensures Run(cfg, cfg, []) == System(a0, b0, 0, 0) && events[..0] == []
  {
  }
}
