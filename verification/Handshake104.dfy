/** When two stations see a protocol error: exactly when data is read behind a stop. */
module Handshake104 {
  import opened Common
  import opened Conn104
  import opened Effect104
  import opened Reply104
  import opened Station104
  import opened System104

  /** How much of the client's messages the server had read when its user stopped it, if that happened. */
  function LocalStop(cc: Config, sc: Config, events: seq<Event>): Option<nat> {
    if events == [] then None else
      var before := events[..|events| - 1];
      var p := LocalStop(cc, sc, before);
      if StopsServer(Run(cc, sc, before), events[|events| - 1]) then Some(Run(cc, sc, before).serverRead) else p
  }

  predicate StopsServer(y: System, e: Event) {
    e.Local? && e.side == AtServer && e.input == StopDt && Moves(y, e) && y.server.conn.state == Active
  }

  /** Among the first `r` messages there is a STOPDT_act. */
  ghost predicate Stops(msgs: seq<Apdu>, r: nat) {
    exists i :: 0 <= i < r && i < |msgs| && msgs[i] == U(StopDtAct)
  }

  /** The j-th message of the client is an I-frame behind its STOPDT_act or behind the server's own stop. */
  ghost predicate BehindStop(msgs: seq<Apdu>, p: Option<nat>, j: nat) {
    j < |msgs| && msgs[j].I? && (Stops(msgs, j) || (p.Some? && p.value <= j))
  }

  // ------------------------------------------------------------------
  // How far the handshake has come, in every run
  // ------------------------------------------------------------------

  ghost predicate Begins(msgs: seq<Apdu>, start: UFunction, stop: UFunction) {
    && (msgs != [] ==> msgs[0] == U(start))
    && (forall j :: 0 < j < |msgs| ==> Calm(msgs[j]) || msgs[j] == U(stop))
  }

  ghost predicate ClientPhase(y: System) {
    var c := y.client;
    match c.conn.state
    case Stopped => c.msgs == []
    case Starting => c.msgs == [U(StartDtAct)] && y.clientRead == 0
    case Active => y.clientRead >= 1 && !Stops(c.msgs, |c.msgs|)
    case Stopping => y.clientRead >= 1
    case Closed => false
  }

  ghost predicate ServerPhase(y: System, p: Option<nat>) {
    var s := y.server;
    && (s.conn.state == Active || s.conn.state == Stopped)
    && (s.conn.state == Active <==> y.serverRead >= 1 && p.None? && !Stops(y.client.msgs, y.serverRead))
  }

  ghost predicate Talk(y: System, p: Option<nat>) {
    && y.client.conn.role == Client && y.server.conn.role == Server
    && y.serverRead <= |y.client.msgs| && y.clientRead <= |y.server.msgs|
    && Begins(y.client.msgs, StartDtAct, StopDtAct) && Begins(y.server.msgs, StartDtCon, StopDtCon)
    && (y.serverRead == 0 <==> y.server.msgs == [])
    && (U(StopDtCon) in y.server.msgs ==> Stops(y.client.msgs, y.serverRead))
    && (p.Some? ==> 1 <= p.value <= y.serverRead)
    && (y.client.closed == [] ==> ClientPhase(y))
    && (y.server.closed == [] ==> ServerPhase(y, p))
  }

  /** Errors so far: none at the client, and at the server exactly if it read data behind a stop. */
  ghost predicate Errors(y: System, p: Option<nat>) {
    && ProtocolError !in y.client.closed
    && (ProtocolError in y.server.closed <==> exists j :: 0 <= j < y.serverRead && BehindStop(y.client.msgs, p, j))
  }

  ghost predicate PhaseInv(y: System, p: Option<nat>) { DataInv(y) && Talk(y, p) && Errors(y, p) }

  /** `t` is `s` after a call that sent `m`. */
  ghost predicate Called(s: Station, t: Station, input: Input, m: seq<Apdu>) {
    var lead := Lead(s.conn, input);
    && t.msgs == s.msgs + m
    && lead <= m && AllCalm(m[|lead|..]) && (!MaySendData(s.conn, input) ==> NoData(m[|lead|..]))
    && (t.closed == [] ==> t.conn.state == Target(s.conn, input))
    && (ProtocolError in t.closed <==> Illegal(s.conn, input))
    && (s.conn.pending == [] && !input.SendAsdu? ==> t.conn.pending == [])
    && t.conn.role == s.conn.role && t.conn.config == s.conn.config
  }

  lemma {:induction false} CallFacts(s: Station, input: Input, now: nat) returns (m: seq<Apdu>)
    requires Inv(s) && s.closed == []
    ensures Called(s, Step(s, input, now), input, m)
  {
    hide Conn.Handle, Sends, Carried, Deliveries, Reasons, Window, DeliveredBy, AckedBy, NumberedFrom, AnyNumbered,
         AllAcknowledge, LastAck, AcksFit, Contiguous, Fresh, Lead, Target, Illegal, MaySendData, Receives;
    HandleStep(s.conn, input, now);
    CallShape(s.conn, input, now);
    m := Sends(s.conn.Handle(input, now).actions);
    assert [] + Reasons(s.conn.Handle(input, now).actions) == Reasons(s.conn.Handle(input, now).actions);
  }

  /** Before data transfer a station is silent but for the handshake. */
  lemma {:induction false} SilentCall(s: Station, input: Input, now: nat)
    requires Inv(s) && !input.Receive? && s.delivered == []
    requires s.conn.state == Stopped || s.conn.state == Starting
    ensures Step(s, input, now).msgs == s.msgs + Lead(s.conn, input)
  {
    hide Conn.Handle, Sends, Lead, LastAck, AcksFit, Carried, NumberedFrom, Contiguous, Window;
    Silent(s.conn, input, now);
  }

  /** The next unread I-frame is the one the reader expects. */
  lemma {:induction false} NextIsExpected(a: Station, b: Station, r: nat)
    requires Inv(a) && Inv(b) && Follows(a, b, r) && a.closed == [] && r < |b.msgs| && b.msgs[r].I?
    ensures b.msgs[r].send == a.conn.recvNext
  {
    hide Carried, NumberedFrom, LastAck, AcksFit, Contiguous, Window;
    NumberAt(b.msgs, r);
  }

  lemma {:induction false} NothingDelivered(a: Station, b: Station)
    requires Follows(a, b, 0) && a.closed == []
    ensures a.delivered == []
  {
    assert b.msgs[..0] == [];
  }

  lemma {:induction false} BeginsAppend(msgs: seq<Apdu>, m: seq<Apdu>, start: UFunction, stop: UFunction)
    requires Begins(msgs, start, stop)
    requires msgs == [] ==> [U(start)] <= m || m == []
    requires forall j :: 0 <= j < |m| ==> Calm(m[j]) || m[j] == U(stop) || (j == 0 && msgs == [])
    ensures Begins(msgs + m, start, stop)
  {
  }

  lemma {:induction false} StopsAppend(msgs: seq<Apdu>, m: seq<Apdu>, r: nat)
    requires r <= |msgs|
    ensures Stops(msgs + m, r) <==> Stops(msgs, r)
    ensures Stops(msgs + m, |msgs + m|) <==> Stops(msgs, |msgs|) || U(StopDtAct) in m
  {
    if Stops(msgs, r) {
      var i :| 0 <= i < r && i < |msgs| && msgs[i] == U(StopDtAct);
      assert (msgs + m)[i] == U(StopDtAct);
    }
    if Stops(msgs, |msgs|) {
      var i :| 0 <= i < |msgs| && msgs[i] == U(StopDtAct);
      assert (msgs + m)[i] == U(StopDtAct);
    }
    if U(StopDtAct) in m {
      var i :| 0 <= i < |m| && m[i] == U(StopDtAct);
      assert (msgs + m)[|msgs| + i] == U(StopDtAct);
    }
  }

  /** What a call sends is its handshake frame, if any, and calm frames. */
  lemma {:induction false} LeadThenCalm(lead: seq<Apdu>, m: seq<Apdu>)
    requires lead <= m && |lead| <= 1 && AllCalm(m[|lead|..])
    ensures forall j :: 0 <= j < |m| ==> Calm(m[j]) || (j == 0 && lead == [m[0]])
  {
    forall j | |lead| <= j < |m| ensures Calm(m[j]) { assert m[j] == m[|lead|..][j - |lead|]; }
  }

  /** What the server has read of the client's messages stays the same when the client sends more. */
  lemma {:induction false} ReadStays(y: System, t: Station, r: nat, m: seq<Apdu>, p: Option<nat>)
    requires Talk(y, p) && Errors(y, p) && t.msgs == y.client.msgs + m
    ensures var z := y.With(AtClient, t, r);
            && (Stops(z.client.msgs, z.serverRead) <==> Stops(y.client.msgs, y.serverRead))
            && (y.server.closed == [] ==> ServerPhase(z, p))
            && (ProtocolError !in t.closed ==> Errors(z, p))
  {
    hide Begins, ClientPhase;
    StopsAppend(y.client.msgs, m, y.serverRead);
    forall j | 0 <= j < y.serverRead
      ensures BehindStop(t.msgs, p, j) <==> BehindStop(y.client.msgs, p, j)
    {
      StopsAppend(y.client.msgs, m, j);
    }
  }

  lemma {:induction false} ClientLocal(y: System, p: Option<nat>, input: Input, now: nat)
    requires PhaseInv(y, p) && y.client.closed == [] && !input.Receive?
    ensures var z := y.With(AtClient, Step(y.client, input, now), y.clientRead); Talk(z, p) && Errors(z, p)
  {
    hide Inv, Step, Follows, Begins, Stops, Errors, ServerPhase, AllCalm, NoData;
    var c := y.client;
    var t := Step(c, input, now);
    var m := CallFacts(c, input, now);
    ReadStays(y, t, y.clientRead, m, p);
    LeadThenCalm(Lead(c.conn, input), m);
    StopsAppend(c.msgs, m, y.serverRead);
    if c.conn.state == Stopped || c.conn.state == Starting {
      NothingDelivered(c, y.server);
      SilentCall(c, input, now);
      Cancel(c.msgs, m, Lead(c.conn, input));
    } else {
      assert c.msgs != [];
    }
    BeginsAppend(c.msgs, m, StartDtAct, StopDtAct);
  }

  lemma Cancel<T>(a: seq<T>, b: seq<T>, c: seq<T>)
    requires a + b == a + c
    ensures b == c
  {
    assert b == (a + b)[|a|..] && c == (a + c)[|a|..];
  }

  lemma {:induction false} ClientArrive(y: System, p: Option<nat>, now: nat)
    requires PhaseInv(y, p) && y.client.closed == [] && y.clientRead < |y.server.msgs|
    ensures !Illegal(y.client.conn, Receive(y.server.msgs[y.clientRead]))
    ensures var z := y.With(AtClient, Step(y.client, Receive(y.server.msgs[y.clientRead]), now), y.clientRead + 1);
            Talk(z, p) && Errors(z, p)
  {
    hide Inv, Step, Follows, Stops, Errors, ServerPhase, AllCalm, NoData;
    var c, head := y.client, y.server.msgs[y.clientRead];
    var t := Step(c, Receive(head), now);
    assert y.serverRead > 0 && c.msgs != [];
    if head.I? { NextIsExpected(c, y.server, y.clientRead); }
    if head == U(StopDtCon) {
      assert head in y.server.msgs;
      AnyStop(c.msgs, y.serverRead);
    }
    assert !Illegal(c.conn, Receive(head));
    var m := CallFacts(c, Receive(head), now);
    ReadStays(y, t, y.clientRead + 1, m, p);
    LeadThenCalm([], m);
    StopsAppend(c.msgs, m, y.serverRead);
    OneMoreRead(c.msgs, 0);
    BeginsAppend(c.msgs, m, StartDtAct, StopDtAct);
  }

  lemma AnyStop(msgs: seq<Apdu>, r: nat)
    ensures Stops(msgs, r) ==> Stops(msgs, |msgs|)
  {
  }

  lemma {:induction false} ServerLocal(y: System, p: Option<nat>, input: Input, now: nat)
    requires PhaseInv(y, p) && y.server.closed == [] && !input.Receive?
    ensures var z := y.With(AtServer, Step(y.server, input, now), y.serverRead);
            var q := if input == StopDt && y.server.conn.state == Active then Some(y.serverRead) else p;
            Talk(z, q) && Errors(z, q)
  {
    hide Inv, Step, Follows, Begins, Stops, ClientPhase, AllCalm, NoData, BehindStop;
    var s := y.server;
    var t := Step(s, input, now);
    var m := CallFacts(s, input, now);
    LeadThenCalm([], m);
    var q := if input == StopDt && s.conn.state == Active then Some(y.serverRead) else p;
    if s.msgs == [] {
      NothingDelivered(s, y.client);
      SilentCall(s, input, now);
      Cancel(s.msgs, m, []);
    }
    BeginsAppend(s.msgs, m, StartDtCon, StopDtCon);
    assert U(StopDtCon) in t.msgs ==> U(StopDtCon) in s.msgs;
    SameClient(y, t, y.serverRead);
    forall j | 0 <= j < y.serverRead ensures BehindStop(y.client.msgs, q, j) <==> BehindStop(y.client.msgs, p, j) {
      StopNow(y.client.msgs, p, j, y.serverRead);
    }
  }

  /** A client does not notice how the server stands. */
  lemma SameClient(y: System, t: Station, r: nat)
    ensures ClientPhase(y.With(AtServer, t, r)) <==> ClientPhase(y)
  {
  }

  /** A stop at `r` lies behind everything read so far, when there was none before. */
  lemma StopNow(msgs: seq<Apdu>, p: Option<nat>, j: nat, r: nat)
    requires j < r
    ensures p.None? ==> (BehindStop(msgs, Some(r), j) <==> BehindStop(msgs, p, j))
  {
  }

  lemma {:induction false} ServerArrive(y: System, p: Option<nat>, now: nat)
    requires PhaseInv(y, p) && y.server.closed == [] && y.serverRead < |y.client.msgs|
    ensures Illegal(y.server.conn, Receive(y.client.msgs[y.serverRead])) <==> BehindStop(y.client.msgs, p, y.serverRead)
    ensures var z := y.With(AtServer, Step(y.server, Receive(y.client.msgs[y.serverRead]), now), y.serverRead + 1);
            Talk(z, p) && Errors(z, p)
  {
    hide Inv, Step, Follows, ClientPhase, AllCalm, NoData, Stops;
    var s, c, r := y.server, y.client, y.serverRead;
    var head := c.msgs[r];
    var t := Step(s, Receive(head), now);
    var m := CallFacts(s, Receive(head), now);
    LeadThenCalm(Lead(s.conn, Receive(head)), m);
    OneMoreRead(c.msgs, r);
    if head.I? { NextIsExpected(s, c, r); }
    assert Illegal(s.conn, Receive(head)) <==> BehindStop(c.msgs, p, r);
    SameClient(y, t, r + 1);
    BeginsAppend(s.msgs, m, StartDtCon, StopDtCon);
  }

  lemma OneMoreRead(msgs: seq<Apdu>, r: nat)
    requires r < |msgs|
    ensures Stops(msgs, r + 1) <==> Stops(msgs, r) || msgs[r] == U(StopDtAct)
    ensures r == 0 ==> !Stops(msgs, r)
  {
  }

  lemma {:induction false} PhaseStep(y: System, p: Option<nat>, e: Event)
    requires PhaseInv(y, p)
    ensures PhaseInv(Apply(y, e), if StopsServer(y, e) then Some(y.serverRead) else p)
  {
    hide DataInv, Talk, Errors, Step;
    DataStep(y, e);
    if Moves(y, e) {
      if e.side == AtClient {
        if e.Local? { ClientLocal(y, p, e.input, e.now); } else { ClientArrive(y, p, e.now); }
      } else {
        if e.Local? { ServerLocal(y, p, e.input, e.now); } else { ServerArrive(y, p, e.now); }
      }
    }
  }

  lemma {:induction false} AlwaysPhase(cc: Config, sc: Config, events: seq<Event>)
    ensures PhaseInv(Run(cc, sc, events), LocalStop(cc, sc, events))
  {
    if events == [] {
      AlwaysData(cc, sc, []);
      hide DataInv;
    } else {
      hide PhaseInv, Apply, StopsServer;
      AlwaysPhase(cc, sc, events[..|events| - 1]);
      PhaseStep(Run(cc, sc, events[..|events| - 1]), LocalStop(cc, sc, events[..|events| - 1]), events[|events| - 1]);
    }
  }

  /**
   * In every run, whatever the users do, the client never reports a protocol error, and the server
   * reports one if and only if it has read an I-frame that the client sent behind its STOPDT_act, or
   * that the server read after its own user stopped it.
   */
  lemma {:induction false} ProtocolErrorIff(cc: Config, sc: Config, events: seq<Event>)
    ensures var y, p := Run(cc, sc, events), LocalStop(cc, sc, events);
            && ProtocolError !in y.client.closed
            && (ProtocolError in y.server.closed
                <==> exists j :: 0 <= j < y.serverRead && BehindStop(y.client.msgs, p, j))
  {
    AlwaysPhase(cc, sc, events);
    hide Run, DataInv, Talk;
  }

  // ------------------------------------------------------------------
  // How users can avoid it
  // ------------------------------------------------------------------

  /**
   * The rules: the server's user does not stop the transfer, the client's user stops it
   * only when no ASDU is waiting, and submits none while it is being stopped.
   */
  predicate Allowed(y: System, e: Event) {
    e.Local? ==>
      var c := y.At(e.side).conn;
      && (e.input == StopDt ==> e.side == AtClient && (c.state == Active ==> c.pending == []))
      && (e.input.SendAsdu? && e.side == AtClient ==> c.state != Stopping)
  }

  predicate AllAllowed(cc: Config, sc: Config, events: seq<Event>) {
    events == [] ||
    (var before := events[..|events| - 1];
     AllAllowed(cc, sc, before) && Allowed(Run(cc, sc, before), events[|events| - 1]))
  }

  /** No I-frame follows a STOPDT_act. */
  ghost predicate Orderly(msgs: seq<Apdu>) { forall j :: 0 <= j < |msgs| && msgs[j].I? ==> !Stops(msgs, j) }

  ghost predicate OrderlyClient(c: Station) {
    Orderly(c.msgs) && (c.closed == [] && c.conn.state == Stopping ==> c.conn.pending == [])
  }

  lemma {:induction false} OrderlyAppend(msgs: seq<Apdu>, lead: seq<Apdu>, m: seq<Apdu>)
    requires Orderly(msgs) && lead <= m && (lead == [] || (|lead| == 1 && lead[0].U?))
    requires NoData(m[|lead|..]) || (!Stops(msgs, |msgs|) && U(StopDtAct) !in m)
    ensures Orderly(msgs + m)
  {
    var n := msgs + m;
    forall j | 0 <= j < |n| && n[j].I? ensures !Stops(n, j) {
      if j < |msgs| {
        StopsAppend(msgs, m, j);
      } else if NoData(m[|lead|..]) {
        NoDataAt(lead, m, j - |msgs|);
      } else {
        StopsAppend(msgs, m, 0);
      }
    }
  }

  lemma NoDataAt(lead: seq<Apdu>, m: seq<Apdu>, k: nat)
    requires lead <= m && (lead == [] || (|lead| == 1 && lead[0].U?)) && NoData(m[|lead|..]) && k < |m|
    ensures !m[k].I?
  {
    if k >= |lead| { assert m[k] == m[|lead|..][k - |lead|]; }
  }

  lemma {:induction false} OrderlyStep(y: System, p: Option<nat>, e: Event)
    requires PhaseInv(y, p) && OrderlyClient(y.client) && Moves(y, e) && e.side == AtClient && Allowed(y, e)
    ensures OrderlyClient(Step(y.client, InputOf(y, e), e.now))
  {
    hide Inv, Step, Follows, Begins, Stops, Orderly, Errors, ServerPhase, AllCalm, NoData, DataInv;
    var c, input := y.client, InputOf(y, e);
    BothInv(y, AtClient);
    if e.Arrive? { ClientArrive(y, p, e.now); }
    var m := CallFacts(c, input, e.now);
    LeadThenCalm(Lead(c.conn, input), m);
    OneMoreRead([U(StartDtAct)], 0);
    OrderlyAppend(c.msgs, Lead(c.conn, input), m);
  }

  ghost predicate RulesInv(y: System, p: Option<nat>) { PhaseInv(y, p) && p.None? && OrderlyClient(y.client) }

  lemma {:induction false} AlwaysOrderly(cc: Config, sc: Config, events: seq<Event>)
    requires AllAllowed(cc, sc, events)
    ensures RulesInv(Run(cc, sc, events), LocalStop(cc, sc, events))
  {
    AlwaysPhase(cc, sc, events);
    if events == [] {
      hide PhaseInv;
    } else {
      hide PhaseInv, Step, OrderlyClient;
      var before, e := events[..|events| - 1], events[|events| - 1];
      AlwaysOrderly(cc, sc, before);
      var y := Run(cc, sc, before);
      if Moves(y, e) && e.side == AtClient { OrderlyStep(y, LocalStop(cc, sc, before), e); }
    }
  }

  /**
   * As long as the users keep to the rules, no interleaving makes either station report a
   * protocol error, for every configuration, every clock and any number of wraps.
   */
  lemma {:induction false} NoProtocolError(cc: Config, sc: Config, events: seq<Event>)
    requires AllAllowed(cc, sc, events)
    ensures var y := Run(cc, sc, events);
            ProtocolError !in y.client.closed && ProtocolError !in y.server.closed
  {
    AlwaysOrderly(cc, sc, events);
    ProtocolErrorIff(cc, sc, events);
    hide Run, LocalStop, PhaseInv, AllAllowed;
  }
}
