/** One 104 station together with its history, against an arbitrary peer. */
module Station104 {
  import opened Common
  import opened SeqNo
  import opened Conn104
  import opened Effect104

  /**
   * `submitted` are the ASDUs the user gave to the station, `msgs` every APDU it sent,
   * `delivered` every ASDU it delivered, `closed` the disconnects it reported. `acks`
   * runs beside `msgs`: how many ASDUs had been delivered by the call that sent it.
   */
  datatype Station = Station(
    conn: Conn,
    submitted: seq<Bytes>,
    msgs: seq<Apdu>,
    acks: seq<nat>,
    delivered: seq<Bytes>,
    closed: seq<Reason>)

  datatype Call = Call(input: Input, now: nat)

  function Init(role: Role, config: Config): Station {
    Station(New(role, config), [], [], [], [], [])
  }

  function Step(s: Station, input: Input, now: nat): Station {
    var d := s.conn.Handle(input, now);
    var delivered := s.delivered + Deliveries(d.actions);
    var sent := Sends(d.actions);
    Station(d.(actions := []),
            s.submitted + SubmittedBy(input),
            s.msgs + sent,
            s.acks + Repeat(|delivered|, |sent|),
            delivered,
            s.closed + Reasons(d.actions))
  }

  /** Every history of a station is this function over some list of calls. */
  function History(role: Role, config: Config, calls: seq<Call>): Station {
    if calls == [] then Init(role, config) else
      var e := calls[|calls| - 1];
      Step(History(role, config, calls[..|calls| - 1]), e.input, e.now)
  }

  function Repeat(v: nat, n: nat): seq<nat> { seq(n, _ => v) }

  /** A step, when the call is known. */
  lemma StepIs(s: Station, input: Input, now: nat, d: Conn, acts: seq<Action>)
    requires s.conn.Handle(input, now) == d.(actions := acts) && d.actions == []
    ensures var delivered := s.delivered + Deliveries(acts);
            Step(s, input, now) ==
            Station(d, s.submitted + SubmittedBy(input), s.msgs + Sends(acts),
                    s.acks + Repeat(|delivered|, |Sends(acts)|), delivered, s.closed + Reasons(acts))
  {
  }

  /** The delivery count behind the last N(R) put on the wire, zero if there is none yet. */
  function LastAck(msgs: seq<Apdu>, acks: seq<nat>): nat
    requires |acks| == |msgs|
  {
    if msgs == [] then 0
    else if msgs[|msgs| - 1].Numbered() then acks[|msgs| - 1]
    else LastAck(msgs[..|msgs| - 1], acks[..|msgs| - 1])
  }

  /** `acks` are nondecreasing delivery counts, and each N(R) is its count modulo 2^15. */
  ghost predicate AcksFit(msgs: seq<Apdu>, acks: seq<nat>, n: nat) {
    && |acks| == |msgs|
    && (forall i, j :: 0 <= i <= j < |acks| ==> acks[i] <= acks[j])
    && (forall j :: 0 <= j < |acks| ==> acks[j] <= n)
    && (forall j :: 0 <= j < |msgs| && msgs[j].Numbered() ==> msgs[j].recv == Wrap(acks[j]))
  }

  /** How many of the I-frames a station sent have been acknowledged to it. */
  function Acknowledged(s: Station): int { |Carried(s.msgs)| - |s.conn.sent| }

  ghost predicate SendSide(s: Station) {
    var c := s.conn;
    && c.actions == [] && Window(c)
    && Carried(s.msgs) + c.pending == s.submitted
    && NumberedFrom(s.msgs, 0)
    && c.sendNext == Wrap(|Carried(s.msgs)|)
    && Acknowledged(s) >= 0 && Contiguous(c.sent, Acknowledged(s))
  }

  ghost predicate ReceiveSide(s: Station) {
    var c := s.conn;
    && c.recvNext == Wrap(|s.delivered|)
    && AcksFit(s.msgs, s.acks, |s.delivered|)
    && LastAck(s.msgs, s.acks) + c.unackedRecv == |s.delivered|
    && c.unackedRecv < Max(c.config.w, 1)
  }

  ghost predicate Inv(s: Station) { SendSide(s) && ReceiveSide(s) }

  lemma {:induction false} ContiguousKept(sent: seq<Outstanding>, total: nat, acked: nat, n: nat, now: nat)
    requires acked <= |sent| <= total && Contiguous(sent, total - |sent|)
    ensures Contiguous(sent[acked..] + Fresh(Wrap(total), n, now), total - |sent| + acked)
  {
    var r := sent[acked..] + Fresh(Wrap(total), n, now);
    var first := total - |sent| + acked;
    forall i | 0 <= i < |r| ensures r[i].no == Wrap(first + i) {
      if i < |sent| - acked {
        assert r[i] == sent[acked + i];
      } else {
        WrapAdd(total, i - (|sent| - acked));
      }
    }
  }

  lemma {:induction false} SendSideKept(s: Station, input: Input, now: nat)
    requires SendSide(s)
    ensures SendSide(Step(s, input, now))
  {
    hide Conn.Handle, Window, Carried, Sends, Deliveries, Reasons, NumberedFrom, AckedBy, SubmittedBy, Contiguous,
         Fresh, Wrap, Receives;
    HandleStep(s.conn, input, now);
    var c, d := s.conn, s.conn.Handle(input, now);
    var m := Sends(d.actions);
    MsgsAppend(s.msgs, m);
    NumberedFromAppend(s.msgs, m, 0);
    WrapAdd(|Carried(s.msgs)|, |Carried(m)|);
    ContiguousKept(c.sent, |Carried(s.msgs)|, AckedBy(c, input), |Carried(m)|, now);
    FreshLength(c.sendNext, |Carried(m)|, now);
    WindowIgnoresActions(d);
    Conserve(Carried(s.msgs), c.pending, s.submitted, Carried(m), d.pending, SubmittedBy(input));
  }

  lemma Conserve<T>(sent: seq<T>, q: seq<T>, all: seq<T>, more: seq<T>, q': seq<T>, news: seq<T>)
    requires sent + q == all && more + q' == q + news
    ensures (sent + more) + q' == all + news
  {
    assert (sent + more) + q' == sent + (more + q');
    assert sent + (q + news) == (sent + q) + news;
  }

  lemma FreshLength(first: nat, n: nat, now: nat)
    ensures |Fresh(first, n, now)| == n
  {
  }

  lemma WindowIgnoresActions(c: Conn)
    requires Window(c)
    ensures Window(c.(actions := []))
  {
  }

  lemma {:induction false} LastAckAppend(msgs: seq<Apdu>, acks: seq<nat>, more: seq<Apdu>, v: nat)
    requires |acks| == |msgs|
    ensures LastAck(msgs + more, acks + Repeat(v, |more|)) == (if AnyNumbered(more) then v else LastAck(msgs, acks))
  {
    if more == [] {
      assert msgs + more == msgs && acks + Repeat(v, 0) == acks;
    } else {
      var more' := more[..|more| - 1];
      var m, a := msgs + more, acks + Repeat(v, |more|);
      LastAckAppend(msgs, acks, more', v);
      assert m[..|m| - 1] == msgs + more';
      assert a[..|m| - 1] == acks + Repeat(v, |more'|);
    }
  }

  lemma {:induction false} AllAcknowledgeAt(msgs: seq<Apdu>, recv: Seq15, j: nat)
    requires AllAcknowledge(msgs, recv) && j < |msgs| && msgs[j].Numbered()
    ensures msgs[j].recv == recv
  {
    if j < |msgs| - 1 {
      AllAcknowledgeAt(msgs[..|msgs| - 1], recv, j);
    }
  }

  lemma {:induction false} AcksFitAppend(msgs: seq<Apdu>, acks: seq<nat>, n: nat, more: seq<Apdu>, v: nat)
    requires AcksFit(msgs, acks, n) && n <= v && AllAcknowledge(more, Wrap(v))
    ensures AcksFit(msgs + more, acks + Repeat(v, |more|), v)
  {
    hide AllAcknowledge;
    var m, a := msgs + more, acks + Repeat(v, |more|);
    forall j | 0 <= j < |m| && m[j].Numbered() ensures m[j].recv == Wrap(a[j]) {
      if j >= |msgs| { AllAcknowledgeAt(more, Wrap(v), j - |msgs|); }
    }
  }

  lemma {:induction false} FlushUnacked(c: Conn, now: nat)
    ensures c.FlushPending(now).unackedRecv <= c.unackedRecv
    ensures c.FlushPending(now).config == c.config
  {
  }

  lemma {:induction false} ApduUnacked(c: Conn, apdu: Apdu, now: nat)
    requires c.unackedRecv < Max(c.config.w, 1)
    ensures var d := c.OnApdu(apdu, now); d.unackedRecv < Max(c.config.w, 1) && d.config == c.config
  {
    hide Conn.FlushPending;
    var c' := c.(lastRecvAny := Some(now));
    match apdu {
      case U(f) =>
        FlushUnacked(c'.Transition(Active), now);
        FlushUnacked(c'.EmitU(StartDtCon, now).Transition(Active), now);
      case S(recv) =>
        FlushUnacked(c'.(sent := c.sent[AckCount(c.sent, recv)..]), now);
      case I(send, recv, asdu) =>
        FlushUnacked(c'.Received(now).(sent := c.sent[AckCount(c.sent, recv)..]), now);
    }
  }

  lemma {:induction false} DispatchUnacked(c: Conn, input: Input, now: nat)
    requires c.unackedRecv < Max(c.config.w, 1)
    ensures var d := c.Dispatch(input, now); d.unackedRecv < Max(c.config.w, 1) && d.config == c.config
  {
    hide Conn.OnApdu;
    if input.Receive? { ApduUnacked(c, input.apdu, now); }
  }

  /** The receiver never owes more than w - 1 acknowledgements between two calls. */
  lemma {:induction false} UnackedBelow(c: Conn, input: Input, now: nat)
    requires c.unackedRecv < Max(c.config.w, 1)
    ensures c.Handle(input, now).unackedRecv < Max(c.config.w, 1)
  {
    hide Conn.Dispatch;
    DispatchUnacked(c, input, now);
  }

  lemma {:induction false} ReceiveSideKept(s: Station, input: Input, now: nat)
    requires Inv(s)
    ensures ReceiveSide(Step(s, input, now))
  {
    hide Conn.Handle, Window, Carried, Sends, Deliveries, Reasons, NumberedFrom, AnyNumbered, AllAcknowledge,
         LastAck, AcksFit, SendSide, DeliveredBy;
    assert SendSide(s);
    assert s.conn.actions == [] && Window(s.conn) by { SendSideParts(s); }
    HandleStep(s.conn, input, now);
    UnackedBelow(s.conn, input, now);
    var c, d := s.conn, s.conn.Handle(input, now);
    var m := Sends(d.actions);
    var got := DeliveredBy(c, input);
    AtMostOneDelivery(c, input);
    var n := |s.delivered| + |got|;
    WrapAdd(|s.delivered|, |got|);
    AcksFitAppend(s.msgs, s.acks, |s.delivered|, m, n);
    assert |s.acks| == |s.msgs| by { AcksLength(s); }
    LastAckAppend(s.msgs, s.acks, m, n);
  }

  lemma SendSideParts(s: Station)
    requires SendSide(s)
    ensures s.conn.actions == [] && Window(s.conn)
  {
  }

  lemma AcksLength(s: Station)
    requires AcksFit(s.msgs, s.acks, |s.delivered|)
    ensures |s.acks| == |s.msgs|
  {
  }

  lemma AtMostOneDelivery(c: Conn, input: Input)
    ensures |DeliveredBy(c, input)| <= 1
  {
  }

  /** The invariant holds after every history, whatever the peer does and whatever the clock reads. */
  lemma {:induction false} AlwaysInv(role: Role, config: Config, calls: seq<Call>)
    ensures Inv(History(role, config, calls))
  {
    if calls != [] {
      hide Inv, Step;
      var e := calls[|calls| - 1];
      var s := History(role, config, calls[..|calls| - 1]);
      AlwaysInv(role, config, calls[..|calls| - 1]);
      StepInv(s, e.input, e.now);
    } else {
      assert Inv(Init(role, config)) by { InitInv(role, config); }
    }
  }

  lemma {:induction false} InitInv(role: Role, config: Config)
    ensures Inv(Init(role, config))
  {
    var s := Init(role, config);
    assert Carried([]) == [] && s.conn.pending == [];
  }

  lemma {:induction false} StepInv(s: Station, input: Input, now: nat)
    requires Inv(s)
    ensures Inv(Step(s, input, now))
  {
    hide Step, SendSide, ReceiveSide;
    SendSideKept(s, input, now);
    ReceiveSideKept(s, input, now);
  }

  // ------------------------------------------------------------------
  // What the invariant says about one station
  // ------------------------------------------------------------------

  lemma {:induction false} NumberAt(msgs: seq<Apdu>, j: nat)
    requires NumberedFrom(msgs, 0) && j < |msgs| && msgs[j].I?
    ensures msgs[j].send == Wrap(|Carried(msgs[..j])|)
  {
    if j < |msgs| - 1 {
      var rest := msgs[..|msgs| - 1];
      NumberAt(rest, j);
      assert rest[..j] == msgs[..j];
    }
  }

  /**
   * Conservation: the ASDUs sent so far followed by the ones waiting are the submitted ones,
   * in order; the i-th I-frame carries N(S) = i mod 2^15; the window holds at most k frames,
   * and nothing waits while an active window has room.
   */
  lemma {:induction false} Conservation(role: Role, config: Config, calls: seq<Call>, j: nat)
    ensures var s := History(role, config, calls);
            && Carried(s.msgs) + s.conn.pending == s.submitted
            && (j < |s.msgs| && s.msgs[j].I? ==> s.msgs[j].send == Wrap(|Carried(s.msgs[..j])|))
            && |s.conn.sent| <= s.conn.config.k
            && (s.conn.state == Active && |s.conn.sent| < s.conn.config.k ==> s.conn.pending == [])
  {
    AlwaysInv(role, config, calls);
    hide History, NumberedFrom, Carried;
    var s := History(role, config, calls);
    if j < |s.msgs| && s.msgs[j].I? { NumberAt(s.msgs, j); }
  }

  /** The outstanding frames are the most recent ones, without a gap. */
  lemma {:induction false} SentIsContiguous(role: Role, config: Config, calls: seq<Call>)
    ensures var s := History(role, config, calls);
            && Acknowledged(s) >= 0
            && s.conn.sendNext == Wrap(Acknowledged(s) + |s.conn.sent|)
            && forall i :: 0 <= i < |s.conn.sent| ==> s.conn.sent[i].no == Wrap(Acknowledged(s) + i)
  {
    AlwaysInv(role, config, calls);
    hide History, Carried;
  }

  /**
   * The last N(R) on the wire plus the unacknowledged receptions is the next expected number,
   * which counts the delivered ASDUs; fewer than w receptions are ever left unacknowledged.
   */
  lemma {:induction false} ReceiveAccounting(role: Role, config: Config, calls: seq<Call>)
    ensures var s := History(role, config, calls);
            && s.conn.recvNext == Wrap(|s.delivered|)
            && s.conn.unackedRecv < Max(s.conn.config.w, 1)
            && Wrap(LastNr(s.msgs) + s.conn.unackedRecv) == s.conn.recvNext
  {
    AlwaysInv(role, config, calls);
    hide History, SendSide, LastNr, LastAck;
    var s := History(role, config, calls);
    LastNrIs(s.msgs, s.acks, |s.delivered|);
    WrapAdd(LastAck(s.msgs, s.acks), s.conn.unackedRecv);
  }

  /** The last N(R) among `msgs`, zero if there is none. */
  function LastNr(msgs: seq<Apdu>): Seq15 {
    if msgs == [] then 0
    else if msgs[|msgs| - 1].Numbered() then msgs[|msgs| - 1].recv
    else LastNr(msgs[..|msgs| - 1])
  }

  lemma {:induction false} LastNrIs(msgs: seq<Apdu>, acks: seq<nat>, n: nat)
    requires AcksFit(msgs, acks, n)
    ensures LastNr(msgs) == Wrap(LastAck(msgs, acks))
  {
    if msgs != [] && !msgs[|msgs| - 1].Numbered() {
      LastNrIs(msgs[..|msgs| - 1], acks[..|msgs| - 1], n);
    }
  }
}
