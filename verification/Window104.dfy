/** What an acknowledgement means, what a clean stop guarantees, and what the windows hold at rest. */
module Window104 {
  import opened Common
  import opened SeqNo
  import opened Conn104
  import opened Effect104
  import opened Reply104
  import opened Station104
  import opened System104
  import opened Handshake104

  /** The newest delivery count that `a` has read from `b`. */
  function Seen(b: Station, r: nat): nat
    requires r <= |b.msgs| == |b.acks|
  {
    LastAck(b.msgs[..r], b.acks[..r])
  }

  /** `a` regards as acknowledged no more than `b` has announced to it. */
  ghost predicate Owed(a: Station, b: Station, r: nat) {
    r <= |b.msgs| == |b.acks| && Acknowledged(a) <= Seen(b, r)
  }

  ghost predicate AckInv(y: System) {
    && DataInv(y)
    && Owed(y.client, y.server, y.clientRead) && Owed(y.server, y.client, y.serverRead)
  }

  lemma {:induction false} LastAckBelow(msgs: seq<Apdu>, acks: seq<nat>, n: nat, r: nat)
    requires AcksFit(msgs, acks, n) && r <= |msgs|
    ensures LastAck(msgs[..r], acks[..r]) <= n
    ensures r < |msgs| ==> LastAck(msgs[..r], acks[..r]) <= acks[r]
  {
    if r > 0 && !msgs[r - 1].Numbered() {
      assert msgs[..r][..r - 1] == msgs[..r - 1] && acks[..r][..r - 1] == acks[..r - 1];
      LastAckBelow(msgs, acks, n, r - 1);
    }
  }

  lemma {:induction false} SeenNext(b: Station, r: nat)
    requires r < |b.msgs| == |b.acks|
    ensures Seen(b, r + 1) == (if b.msgs[r].Numbered() then b.acks[r] else Seen(b, r))
  {
    assert b.msgs[..r + 1][..r] == b.msgs[..r] && b.acks[..r + 1][..r] == b.acks[..r];
  }

  lemma {:induction false} StepAcknowledged(s: Station, input: Input, now: nat)
    requires Inv(s)
    ensures Acknowledged(Step(s, input, now)) == Acknowledged(s) + AckedBy(s.conn, input)
  {
    hide Conn.Handle, Window, Carried, Sends, Deliveries, Reasons, NumberedFrom, AckedBy, SubmittedBy, Contiguous,
         Fresh, Wrap, Receives, LastAck, AcksFit;
    HandleStep(s.conn, input, now);
    var m := Sends(s.conn.Handle(input, now).actions);
    MsgsAppend(s.msgs, m);
    FreshLength(s.conn.sendNext, |Carried(m)|, now);
  }

  /** An N(R) acknowledges no frame beyond its own count. */
  lemma {:induction false} AckIsHonest(a: Station, b: Station, r: nat, r': nat)
    requires Inv(a) && Inv(b) && Follows(b, a, r') && Owed(a, b, r)
    requires r < |b.msgs| && b.msgs[r].Numbered()
    ensures Acknowledged(a) + AckCount(a.conn.sent, b.msgs[r].recv) <= b.acks[r] <= |b.delivered|
  {
    hide Carried, NumberedFrom, LastAck, AckCount, Wrap, Distance;
    var v, done := b.acks[r], Acknowledged(a);
    LastAckBelow(b.msgs, b.acks, |b.delivered|, r);
    DistanceAtMost(done, v);
    if a.conn.sent != [] { AckCountClosed(a.conn.sent, done, b.msgs[r].recv); } else { NoneSent(b.msgs[r].recv); }
  }

  /** One that is less than half the number space ahead acknowledges exactly up to its count. */
  lemma {:induction false} AckIsExact(a: Station, b: Station, r: nat, r': nat)
    requires Inv(a) && Inv(b) && Follows(b, a, r') && Owed(a, b, r)
    requires r < |b.msgs| && b.msgs[r].Numbered() && b.acks[r] <= Acknowledged(a) + 0x3FFF
    ensures Acknowledged(a) + AckCount(a.conn.sent, b.msgs[r].recv) == b.acks[r]
  {
    hide Carried, NumberedFrom, LastAck, AckCount;
    var v, done := b.acks[r], Acknowledged(a);
    LastAckBelow(b.msgs, b.acks, |b.delivered|, r);
    assert done <= Seen(b, r) <= v <= |b.delivered| <= |Carried(a.msgs)|;
    DistanceWrap(done, v);
    if a.conn.sent != [] { AckCountClosed(a.conn.sent, done, b.msgs[r].recv); } else { NoneSent(b.msgs[r].recv); }
  }

  lemma NoneSent(nr: Seq15)
    ensures AckCount([], nr) == 0
  {
  }

  lemma {:induction false} OwedReader(a: Station, b: Station, r: nat, r': nat, now: nat)
    requires Inv(a) && Inv(b) && Follows(b, a, r') && Owed(a, b, r) && r < |b.msgs|
    ensures Owed(Step(a, Receive(b.msgs[r]), now), b, r + 1)
  {
    hide Step, Inv, Follows, Acknowledged, Seen, AckCount;
    StepAcknowledged(a, Receive(b.msgs[r]), now);
    SeenNext(b, r);
    if b.msgs[r].Numbered() {
      AckIsHonest(a, b, r, r');
      assert AcksFit(b.msgs, b.acks, |b.delivered|) by { InvAcks(b); }
      SeenBelow(b, r);
    }
  }

  lemma InvAcks(b: Station)
    requires Inv(b)
    ensures AcksFit(b.msgs, b.acks, |b.delivered|)
  {
  }

  lemma SeenBelow(b: Station, r: nat)
    requires AcksFit(b.msgs, b.acks, |b.delivered|) && r < |b.msgs|
    ensures Seen(b, r) <= b.acks[r]
  {
    LastAckBelow(b.msgs, b.acks, |b.delivered|, r);
  }

  lemma {:induction false} OwedLocal(a: Station, b: Station, r: nat, input: Input, now: nat)
    requires Inv(a) && Owed(a, b, r) && !input.Receive?
    ensures Owed(Step(a, input, now), b, r)
  {
    hide Step, Inv, Seen, Acknowledged;
    StepAcknowledged(a, input, now);
  }

  lemma {:induction false} SeenGrows(b: Station, r: nat, input: Input, now: nat)
    requires Inv(b) && r <= |b.msgs| == |b.acks|
    ensures var t := Step(b, input, now); r <= |t.msgs| == |t.acks| && Seen(t, r) == Seen(b, r)
  {
    hide Step, LastAck;
    Grows(b, input, now);
    StepInv(b, input, now);
    var t := Step(b, input, now);
    assert |t.acks| == |t.msgs| by { InvAcks(t); }
    assert t.msgs[..r] == b.msgs[..r] && t.acks[..r] == b.acks[..r];
  }

  lemma {:induction false} OwedWriter(a: Station, b: Station, r: nat, input: Input, now: nat)
    requires Inv(b) && Owed(a, b, r)
    ensures Owed(a, Step(b, input, now), r)
  {
    hide Step, Inv, Seen, Acknowledged;
    SeenGrows(b, r, input, now);
  }

  lemma {:induction false} AckLocal(y: System, e: Event)
    requires AckInv(y) && e.Local? && !e.input.Receive?
    ensures var s := Step(y.At(e.side), e.input, e.now);
            && s.conn.config == y.At(e.side).conn.config
            && Owed(s, y.Peer(e.side), y.Read(e.side)) && Owed(y.Peer(e.side), s, y.PeerRead(e.side))
  {
    hide Step, Inv, Follows, Owed;
    OwedLocal(y.At(e.side), y.Peer(e.side), y.Read(e.side), e.input, e.now);
    OwedWriter(y.Peer(e.side), y.At(e.side), y.PeerRead(e.side), e.input, e.now);
    Grows(y.At(e.side), e.input, e.now);
  }

  lemma {:induction false} AckArrive(y: System, side: Side, now: nat)
    requires AckInv(y) && y.Read(side) < |y.Peer(side).msgs|
    ensures var s := Step(y.At(side), Receive(y.Peer(side).msgs[y.Read(side)]), now);
            && s.conn.config == y.At(side).conn.config
            && Owed(s, y.Peer(side), y.Read(side) + 1) && Owed(y.Peer(side), s, y.PeerRead(side))
  {
    hide Step, Inv, Follows, Owed;
    var input := Receive(y.Peer(side).msgs[y.Read(side)]);
    OwedReader(y.At(side), y.Peer(side), y.Read(side), y.PeerRead(side), now);
    OwedWriter(y.Peer(side), y.At(side), y.PeerRead(side), input, now);
    Grows(y.At(side), input, now);
  }

  lemma {:induction false} AckStep(y: System, e: Event)
    requires AckInv(y)
    ensures AckInv(Apply(y, e))
  {
    hide Step, DataInv, Owed;
    DataStep(y, e);
    if Moves(y, e) {
      if e.Local? { AckLocal(y, e); } else { AckArrive(y, e.side, e.now); }
    }
  }

  lemma {:induction false} AlwaysAck(cc: Config, sc: Config, events: seq<Event>)
    ensures AckInv(Run(cc, sc, events))
  {
    if events == [] {
      AlwaysData(cc, sc, []);
      hide DataInv;
      assert Carried([]) == [];
    } else {
      hide AckInv, Apply;
      AlwaysAck(cc, sc, events[..|events| - 1]);
      AckStep(Run(cc, sc, events[..|events| - 1]), events[|events| - 1]);
    }
  }

  /**
   * A frame leaves the window only after the peer delivered it: in every interleaving, with
   * any user input on either side, what a station counts as acknowledged is among what its
   * peer delivered, and so the frames that matter are all still in the window.
   */
  lemma {:induction false} AcknowledgedIsDelivered(cc: Config, sc: Config, events: seq<Event>)
    ensures var y := Run(cc, sc, events);
            && 0 <= Acknowledged(y.client) <= |y.server.delivered|
            && 0 <= Acknowledged(y.server) <= |y.client.delivered|
  {
    AlwaysAck(cc, sc, events);
    hide Run, Carried, LastAck, NumberedFrom, Window;
    var y := Run(cc, sc, events);
    LastAckBelow(y.server.msgs, y.server.acks, |y.server.delivered|, y.clientRead);
    LastAckBelow(y.client.msgs, y.client.acks, |y.client.delivered|, y.serverRead);
  }

  // ------------------------------------------------------------------
  // A clean stop
  // ------------------------------------------------------------------

  ghost predicate StoppedEmpty(s: Station) { StoppedCleanly in s.closed ==> s.conn.sent == [] }

  lemma {:induction false} StopStep(s: Station, input: Input, now: nat)
    requires Inv(s) && s.closed == []
    ensures StoppedEmpty(Step(s, input, now))
  {
    hide Conn.Handle, Reasons, Sends, Deliveries, Shape, Carried, NumberedFrom, Contiguous, Window, ReceiveSide;
    CallShape(s.conn, input, now);
  }

  lemma {:induction false} AlwaysStoppedEmpty(cc: Config, sc: Config, events: seq<Event>)
    ensures var y := Run(cc, sc, events); StoppedEmpty(y.client) && StoppedEmpty(y.server)
  {
    if events != [] {
      hide Step, DataInv, StoppedEmpty;
      var y, e := Run(cc, sc, events[..|events| - 1]), events[|events| - 1];
      AlwaysStoppedEmpty(cc, sc, events[..|events| - 1]);
      AlwaysData(cc, sc, events[..|events| - 1]);
      hide Run;
      assert Inv(y.At(e.side)) by { BothInv(y, e.side); }
      if Moves(y, e) { StopStep(y.At(e.side), InputOf(y, e), e.now); }
      assert Run(cc, sc, events) == Apply(y, e) by { RunLast(cc, sc, events); }
    }
  }

  lemma RunLast(cc: Config, sc: Config, events: seq<Event>)
    requires events != []
    ensures Run(cc, sc, events) == Apply(Run(cc, sc, events[..|events| - 1]), events[|events| - 1])
  {
  }

  /** A clean stop is reported only when every I-frame the station ever sent has been delivered by its peer. */
  lemma {:induction false} CleanStopLosesNothing(cc: Config, sc: Config, events: seq<Event>)
    ensures var y := Run(cc, sc, events);
            && (StoppedCleanly in y.client.closed ==> y.server.delivered == Carried(y.client.msgs))
            && (StoppedCleanly in y.server.closed ==> y.client.delivered == Carried(y.server.msgs))
  {
    AlwaysStoppedEmpty(cc, sc, events);
    AcknowledgedIsDelivered(cc, sc, events);
    AlwaysData(cc, sc, events);
    hide Run, Carried, LastAck, NumberedFrom, Window, Contiguous;
  }

  // ------------------------------------------------------------------
  // At rest
  // ------------------------------------------------------------------

  /** Every N(R) is at most `w` ahead of the one before it. */
  ghost predicate Frequent(msgs: seq<Apdu>, acks: seq<nat>, w: nat)
    requires |acks| == |msgs|
  {
    forall j :: 0 <= j < |msgs| && msgs[j].Numbered() ==> acks[j] <= LastAck(msgs[..j], acks[..j]) + Max(w, 1)
  }

  lemma {:induction false} FrequentAppend(msgs: seq<Apdu>, acks: seq<nat>, more: seq<Apdu>, v: nat, w: nat)
    requires |acks| == |msgs| && Frequent(msgs, acks, w) && v <= LastAck(msgs, acks) + Max(w, 1)
    ensures Frequent(msgs + more, acks + Repeat(v, |more|), w)
  {
    hide LastAck;
    var m, a := msgs + more, acks + Repeat(v, |more|);
    forall j | 0 <= j < |m| && m[j].Numbered() ensures a[j] <= LastAck(m[..j], a[..j]) + Max(w, 1) {
      if j < |msgs| {
        assert m[..j] == msgs[..j] && a[..j] == acks[..j];
      } else {
        var n := j - |msgs|;
        assert m[..j] == msgs + more[..n] && a[..j] == acks + Repeat(v, |more[..n]|);
        LastAckAppend(msgs, acks, more[..n], v);
      }
    }
  }

  ghost predicate Punctual(s: Station) { |s.acks| == |s.msgs| && Frequent(s.msgs, s.acks, s.conn.config.w) }

  lemma {:induction false} PunctualKept(s: Station, input: Input, now: nat)
    requires Inv(s) && Punctual(s)
    ensures Punctual(Step(s, input, now))
  {
    hide Conn.Handle, Sends, Deliveries, Reasons, Carried, NumberedFrom, LastAck, AcksFit, Frequent, SendSide,
         DeliveredBy;
    Grows(s, input, now);
    AtMostOneDelivery(s.conn, input);
    var m := Sends(s.conn.Handle(input, now).actions);
    FrequentAppend(s.msgs, s.acks, m, |Step(s, input, now).delivered|, s.conn.config.w);
  }

  /** `b`'s acknowledgements come often enough, or `a`'s window is small enough, for each to take effect. */
  predicate Close(a: Config, b: Config) { Min(a.k, b.w) <= 0x3FFF }

  /** In data transfer a station has processed every N(R) it has read, if the limits are close. */
  ghost predicate UpToDate(a: Station, b: Station, r: nat) {
    a.closed == [] && a.conn.DataTransfer() && Close(a.conn.config, b.conn.config) ==>
      r <= |b.msgs| == |b.acks| && Acknowledged(a) == Seen(b, r)
  }

  /** No N(R) is ahead of what was sent, so none is more than k ahead of what is acknowledged. */
  lemma {:induction false} WithinWindow(a: Station, b: Station, r: nat, r': nat)
    requires Inv(a) && Inv(b) && Follows(b, a, r') && r < |b.msgs|
    ensures |b.acks| == |b.msgs| && b.acks[r] <= Acknowledged(a) + a.conn.config.k
  {
    hide Carried, NumberedFrom, LastAck, Contiguous;
  }

  ghost predicate ExactInv(y: System) {
    && AckInv(y) && Punctual(y.client) && Punctual(y.server)
    && UpToDate(y.client, y.server, y.clientRead) && UpToDate(y.server, y.client, y.serverRead)
  }

  lemma {:induction false} UpToDateReader(a: Station, b: Station, r: nat, r': nat, now: nat)
    requires Inv(a) && Inv(b) && Follows(b, a, r') && Owed(a, b, r) && r < |b.msgs| && Punctual(b) && a.closed == []
    requires a.conn.DataTransfer() && UpToDate(a, b, r) && !Illegal(a.conn, Receive(b.msgs[r]))
    ensures UpToDate(Step(a, Receive(b.msgs[r]), now), b, r + 1)
  {
    hide Step, Inv, Follows, Acknowledged, LastAck, AckCount;
    StepAcknowledged(a, Receive(b.msgs[r]), now);
    Grows(a, Receive(b.msgs[r]), now);
    SeenNext(b, r);
    if b.msgs[r].Numbered() && Close(a.conn.config, b.conn.config) {
      WithinWindow(a, b, r, r');
      AckIsExact(a, b, r, r');
    }
  }

  /** A station that has sent no I-frame and read no N(R) is trivially up to date. */
  lemma {:induction false} UpToDateStart(a: Station, b: Station, now: nat)
    requires Inv(a) && |b.msgs| == |b.acks| && b.msgs != [] && !b.msgs[0].Numbered() && Carried(a.msgs) == []
    ensures UpToDate(Step(a, Receive(b.msgs[0]), now), b, 1)
  {
    hide Step, Carried, LastAck, Contiguous, Window, ReceiveSide, NumberedFrom;
    StepAcknowledged(a, Receive(b.msgs[0]), now);
    SeenNext(b, 0);
    assert b.msgs[..0] == [] && b.acks[..0] == [];
    assert Seen(b, 0) == 0 by { EmptyLastAck(); }
  }

  lemma EmptyLastAck()
    ensures LastAck([], []) == 0
  {
  }

  lemma {:induction false} UpToDateLocal(a: Station, b: Station, r: nat, input: Input, now: nat)
    requires Inv(a) && a.closed == [] && !input.Receive? && UpToDate(a, b, r)
    ensures UpToDate(Step(a, input, now), b, r)
  {
    hide Step, Inv, Acknowledged, Seen;
    StepAcknowledged(a, input, now);
    Grows(a, input, now);
    var m := CallFacts(a, input, now);
  }

  lemma {:induction false} UpToDateWriter(a: Station, b: Station, r: nat, input: Input, now: nat)
    requires Inv(b) && r <= |b.msgs| == |b.acks| && UpToDate(a, b, r)
    ensures UpToDate(a, Step(b, input, now), r)
  {
    hide Step, Inv, Acknowledged, Seen;
    SeenGrows(b, r, input, now);
    Grows(b, input, now);
  }

  lemma OneUnnumbered(f: UFunction)
    ensures Carried([U(f)]) == [] && Carried([]) == []
  {
    assert [U(f)][..0] == [];
  }

  lemma {:induction false} ClientUpToDate(y: System, p: Option<nat>, now: nat)
    requires ExactInv(y) && PhaseInv(y, p) && y.client.closed == [] && y.clientRead < |y.server.msgs|
    ensures UpToDate(Step(y.client, Receive(y.server.msgs[y.clientRead]), now), y.server, y.clientRead + 1)
  {
    hide Inv, Step, Follows, UpToDate, Acknowledged, Frequent, Seen, Errors, ServerPhase, Stops;
    ClientArrive(y, p, now);
    if y.client.conn.DataTransfer() {
      UpToDateReader(y.client, y.server, y.clientRead, y.serverRead, now);
    } else {
      assert y.client.conn.state == Starting;
      OneUnnumbered(StartDtAct);
      UpToDateStart(y.client, y.server, now);
    }
  }

  lemma {:induction false} ServerUpToDate(y: System, p: Option<nat>, now: nat)
    requires ExactInv(y) && PhaseInv(y, p) && y.server.closed == [] && y.serverRead < |y.client.msgs|
    ensures UpToDate(Step(y.server, Receive(y.client.msgs[y.serverRead]), now), y.client, y.serverRead + 1)
  {
    hide Inv, Step, Follows, UpToDate, Acknowledged, Frequent, Seen, Errors, ClientPhase;
    var s, c, r := y.server, y.client, y.serverRead;
    ServerArrive(y, p, now);
    if s.conn.state == Active {
      UpToDateReader(s, c, r, y.clientRead, now);
    } else if r == 0 {
      OneUnnumbered(StartDtAct);
      UpToDateStart(s, c, now);
    } else {
      StaysStopped(s, c.msgs[r], c, r + 1, now);
    }
  }

  lemma {:induction false} StaysStopped(s: Station, m: Apdu, c: Station, r: nat, now: nat)
    requires Inv(s) && s.closed == [] && s.conn.role == Server && s.conn.state == Stopped && m != U(StartDtAct)
    ensures UpToDate(Step(s, Receive(m), now), c, r)
  {
    hide Inv, Step;
    var a := CallFacts(s, Receive(m), now);
  }

  lemma {:induction false} ExactStep(y: System, p: Option<nat>, e: Event)
    requires ExactInv(y) && PhaseInv(y, p)
    ensures ExactInv(Apply(y, e))
  {
    hide AckInv, PhaseInv, Step, UpToDate, Inv, Punctual;
    AckStep(y, e);
    if Moves(y, e) {
      var s, input := y.At(e.side), InputOf(y, e);
      Parts(y);
      PunctualKept(s, input, e.now);
      UpToDateWriter(y.Peer(e.side), s, y.PeerRead(e.side), input, e.now);
      if e.Local? {
        UpToDateLocal(s, y.Peer(e.side), y.Read(e.side), input, e.now);
      } else if e.side == AtClient {
        ClientUpToDate(y, p, e.now);
      } else {
        ServerUpToDate(y, p, e.now);
      }
    }
  }

  lemma Parts(y: System)
    requires AckInv(y)
    ensures y.serverRead <= |y.client.msgs| == |y.client.acks| && y.clientRead <= |y.server.msgs| == |y.server.acks|
    ensures Inv(y.client) && Inv(y.server)
  {
  }

  lemma {:induction false} AlwaysExact(cc: Config, sc: Config, events: seq<Event>)
    ensures ExactInv(Run(cc, sc, events))
  {
    AlwaysAck(cc, sc, events);
    if events == [] {
      hide AckInv;
    } else {
      hide ExactInv, Apply, PhaseInv;
      AlwaysExact(cc, sc, events[..|events| - 1]);
      AlwaysPhase(cc, sc, events[..|events| - 1]);
      ExactStep(Run(cc, sc, events[..|events| - 1]), LocalStop(cc, sc, events[..|events| - 1]), events[|events| - 1]);
    }
  }

  /** Both drivers run in data transfer, and each has read all that the other sent. */
  predicate Quiescent(y: System) {
    && y.Running(AtClient) && y.Running(AtServer)
    && y.client.conn.state == Active && y.server.conn.state == Active
    && y.clientRead == |y.server.msgs| && y.serverRead == |y.client.msgs|
  }

  /** `a`'s window holds exactly what `b` has not acknowledged yet. */
  predicate Balanced(a: Station, b: Station) { |a.conn.sent| == b.conn.unackedRecv }

  /** And that is less than w; nothing waits and nothing is missing. */
  ghost predicate Settled(a: Station, b: Station) {
    && Balanced(a, b) && b.conn.unackedRecv < Max(b.conn.config.w, 1)
    && a.conn.pending == [] && b.delivered == a.submitted
  }

  /** Two stations at rest: `b` has delivered all that `a` sent, and `a` knows what `b` acknowledged. */
  lemma {:induction false} Rest(a: Station, b: Station, ra: nat, rb: nat)
    requires Inv(a) && Inv(b) && Follows(b, a, rb) && a.closed == [] && b.closed == []
    requires UpToDate(a, b, ra) && a.conn.state == Active
    requires ra == |b.msgs| && rb == |a.msgs|
    ensures b.delivered + a.conn.pending == a.submitted
    ensures Close(a.conn.config, b.conn.config) ==> Balanced(a, b)
    ensures a.conn.pending != [] ==> |a.conn.sent| == a.conn.config.k
    ensures b.conn.unackedRecv < Max(b.conn.config.w, 1)
  {
    hide Carried, LastAck, NumberedFrom, Contiguous, AcksFit;
    InvAcks(b);
    assert a.msgs[..rb] == a.msgs;
    assert b.msgs[..ra] == b.msgs && b.acks[..ra] == b.acks;
  }

  function ConfigAt(cc: Config, sc: Config, side: Side): Config { if side == AtClient then cc else sc }

  function Other(side: Side): Side { if side == AtClient then AtServer else AtClient }

  /**
   * In every run that leaves both stations active with nothing in flight, all that was sent is
   * delivered, and something waits only behind a full window. If the k of a station or the w of its
   * peer is at most 16383, its window holds exactly the frames the peer has not acknowledged yet.
   */
  lemma {:induction false} WindowAtRest(cc: Config, sc: Config, events: seq<Event>, side: Side)
    requires Quiescent(Run(cc, sc, events))
    ensures var y := Run(cc, sc, events);
            var a, b := y.At(side), y.Peer(side);
            && a.conn.config == ConfigAt(cc, sc, side) && b.conn.config == ConfigAt(cc, sc, Other(side))
            && b.delivered + a.conn.pending == a.submitted
            && (a.conn.pending != [] ==> |a.conn.sent| == a.conn.config.k)
            && b.conn.unackedRecv < Max(b.conn.config.w, 1)
            && (Close(a.conn.config, b.conn.config) ==> Balanced(a, b))
  {
    AlwaysExact(cc, sc, events);
    ConfigKept(cc, sc, events);
    hide Run, Inv, Follows, UpToDate, Owed, Punctual, Encodable, Balanced;
    var y := Run(cc, sc, events);
    Rest(y.At(side), y.Peer(side), y.Read(side), y.PeerRead(side));
  }

  /**
   * So the windows cannot block each other. If max(w, 1) of one station is at most 16383 and at most
   * the k of the other, then at rest nothing waits at the other and everything submitted there is
   * delivered; what its window still holds is fewer than w frames, owed by the next acknowledgement.
   */
  lemma {:induction false} NoWindowDeadlock(cc: Config, sc: Config, events: seq<Event>)
    requires Quiescent(Run(cc, sc, events))
    ensures var y := Run(cc, sc, events);
            && (Max(sc.w, 1) <= Min(cc.k, 0x3FFF) ==> Settled(y.client, y.server))
            && (Max(cc.w, 1) <= Min(sc.k, 0x3FFF) ==> Settled(y.server, y.client))
  {
    hide Run, Quiescent;
    WindowAtRest(cc, sc, events, AtClient);
    WindowAtRest(cc, sc, events, AtServer);
    var y := Run(cc, sc, events);
    assert y.server.delivered + [] == y.server.delivered && y.client.delivered + [] == y.client.delivered;
  }

  lemma {:induction false} ConfigKept(cc: Config, sc: Config, events: seq<Event>)
    ensures var y := Run(cc, sc, events); y.client.conn.config == cc && y.server.conn.config == sc
  {
    if events != [] {
      hide Step, DataInv, Encodable;
      var y, e := Run(cc, sc, events[..|events| - 1]), events[|events| - 1];
      ConfigKept(cc, sc, events[..|events| - 1]);
      AlwaysData(cc, sc, events[..|events| - 1]);
      BothInv(y, e.side);
      if Moves(y, e) { Grows(y.At(e.side), InputOf(y, e), e.now); }
    }
  }
}
