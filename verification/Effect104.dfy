/** What one call of a 104 connection sends, delivers and acknowledges, read off its actions. */
module Effect104 {
  import opened Common
  import opened SeqNo
  import opened Conn104

  function Sends(acts: seq<Action>): seq<Apdu> {
    if acts == [] then [] else
      var rest := Sends(acts[..|acts| - 1]);
      var last := acts[|acts| - 1];
      if last.SendApdu? then rest + [last.apdu] else rest
  }

  function Deliveries(acts: seq<Action>): seq<Bytes> {
    if acts == [] then [] else
      var rest := Deliveries(acts[..|acts| - 1]);
      var last := acts[|acts| - 1];
      if last.DeliverAsdu? then rest + [last.asdu] else rest
  }

  function Reasons(acts: seq<Action>): seq<Reason> {
    if acts == [] then [] else
      var rest := Reasons(acts[..|acts| - 1]);
      var last := acts[|acts| - 1];
      if last.Disconnect? then rest + [last.reason] else rest
  }

  /** The ASDUs of the I-frames among `msgs`, in order. */
  function Carried(msgs: seq<Apdu>): (r: seq<Bytes>)
    ensures |r| <= |msgs|
  {
    if msgs == [] then [] else
      var rest := Carried(msgs[..|msgs| - 1]);
      var last := msgs[|msgs| - 1];
      if last.I? then rest + [last.asdu] else rest
  }

  predicate AnyNumbered(msgs: seq<Apdu>) {
    msgs != [] && (AnyNumbered(msgs[..|msgs| - 1]) || msgs[|msgs| - 1].Numbered())
  }

  /** The I-frames of `msgs` carry consecutive numbers, the first one being `first`. */
  predicate NumberedFrom(msgs: seq<Apdu>, first: nat) {
    msgs == [] ||
    (var rest := msgs[..|msgs| - 1];
     var last := msgs[|msgs| - 1];
     NumberedFrom(rest, first) && (last.I? ==> last.send == Wrap(first + |Carried(rest)|)))
  }

  /** Every N(R) among `msgs` is `recv`. */
  predicate AllAcknowledge(msgs: seq<Apdu>, recv: Seq15) {
    msgs == [] ||
    (var last := msgs[|msgs| - 1];
     AllAcknowledge(msgs[..|msgs| - 1], recv) && (last.Numbered() ==> last.recv == recv))
  }

  lemma Nothing()
    ensures Sends([]) == [] && Deliveries([]) == [] && Reasons([]) == []
  {
  }

  /** Short action lists. */
  lemma Lists(a: Action, b: Action)
    ensures Sends([a]) == (if a.SendApdu? then [a.apdu] else [])
    ensures Deliveries([a]) == (if a.DeliverAsdu? then [a.asdu] else [])
    ensures Reasons([a]) == (if a.Disconnect? then [a.reason] else [])
    ensures Sends([a, b]) == Sends([a]) + (if b.SendApdu? then [b.apdu] else [])
    ensures Deliveries([a, b]) == Deliveries([a]) + (if b.DeliverAsdu? then [b.asdu] else [])
    ensures Reasons([a, b]) == Reasons([a]) + (if b.Disconnect? then [b.reason] else [])
  {
    assert [a][..0] == [];
    assert [a, b][..1] == [a];
  }

  lemma {:induction false} ActionsAppend(a: seq<Action>, b: seq<Action>)
    ensures Sends(a + b) == Sends(a) + Sends(b)
    ensures Deliveries(a + b) == Deliveries(a) + Deliveries(b)
    ensures Reasons(a + b) == Reasons(a) + Reasons(b)
  {
    if b == [] {
      assert a + b == a;
    } else {
      var b' := b[..|b| - 1];
      ActionsAppend(a, b');
      assert (a + b)[..|a + b| - 1] == a + b';
    }
  }

  lemma {:induction false} MsgsAppend(a: seq<Apdu>, b: seq<Apdu>)
    ensures Carried(a + b) == Carried(a) + Carried(b)
    ensures AnyNumbered(a + b) == (AnyNumbered(a) || AnyNumbered(b))
    ensures forall recv :: AllAcknowledge(a + b, recv) == (AllAcknowledge(a, recv) && AllAcknowledge(b, recv))
  {
    if b == [] {
      assert a + b == a;
    } else {
      var b' := b[..|b| - 1];
      MsgsAppend(a, b');
      assert (a + b)[..|a + b| - 1] == a + b';
    }
  }

  lemma {:induction false} NumberedFromAppend(a: seq<Apdu>, b: seq<Apdu>, first: nat)
    requires NumberedFrom(a, first)
    requires NumberedFrom(b, Wrap(first + |Carried(a)|))
    ensures NumberedFrom(a + b, first)
  {
    hide Wrap, Carried, AnyNumbered, AllAcknowledge;
    if b == [] {
      assert a + b == a;
    } else {
      var b' := b[..|b| - 1];
      assert (a + b)[..|a + b| - 1] == a + b';
      NumberedFromAppend(a, b', first);
      MsgsAppend(a, b');
      WrapAdd(first + |Carried(a)|, |Carried(b')|);
    }
  }

  /** Reading one more message of `msgs`. */
  lemma {:induction false} CarriedPrefix(msgs: seq<Apdu>, n: nat)
    requires n <= |msgs|
    ensures Carried(msgs[..n]) <= Carried(msgs)
    ensures n < |msgs| ==> Carried(msgs[..n + 1]) ==
                           Carried(msgs[..n]) + (if msgs[n].I? then [msgs[n].asdu] else [])
  {
    assert msgs == msgs[..n] + msgs[n..];
    MsgsAppend(msgs[..n], msgs[n..]);
    if n < |msgs| {
      assert msgs[..n + 1][..n] == msgs[..n];
    }
  }

  function Fresh(first: nat, n: nat, now: nat): seq<Outstanding> {
    seq(n, i requires 0 <= i < n => Outstanding(Wrap(first + i), now))
  }

  /**
   * From `c` to `d` the actions `acts` were queued. The transmit side takes `news` from
   * the user and drops the `acked` oldest outstanding frames.
   */
  ghost predicate Transmits(c: Conn, d: Conn, acts: seq<Action>, news: seq<Bytes>, acked: nat, now: nat) {
    var msgs := Sends(acts);
    && d.role == c.role && d.config == c.config
    && d.actions == c.actions + acts
    && Carried(msgs) + d.pending == c.pending + news
    && NumberedFrom(msgs, c.sendNext)
    && d.sendNext == Wrap(c.sendNext + |Carried(msgs)|)
    && acked <= |c.sent|
    && d.sent == c.sent[acked..] + Fresh(c.sendNext, |Carried(msgs)|, now)
  }

  /** The receive side delivers `got`, and every N(R) it sends is the new one. */
  ghost predicate Receives(c: Conn, d: Conn, acts: seq<Action>, got: seq<Bytes>) {
    var msgs := Sends(acts);
    && Deliveries(acts) == got
    && d.recvNext == Wrap(c.recvNext + |got|)
    && AllAcknowledge(msgs, d.recvNext)
    && d.unackedRecv == (if AnyNumbered(msgs) then 0 else Min(c.unackedRecv + |got|, 0xFFFF))
  }

  lemma {:induction false} FreshAppend(first: nat, m: nat, n: nat, now: nat)
    ensures Fresh(first, m, now) + Fresh(Wrap(first + m), n, now) == Fresh(first, m + n, now)
  {
    var l, r := Fresh(first, m, now) + Fresh(Wrap(first + m), n, now), Fresh(first, m + n, now);
    forall i | m <= i < m + n ensures l[i] == r[i] { WrapAdd(first + m, i - m); }
  }

  lemma QueueThen<T>(q0: seq<T>, q1: seq<T>, q2: seq<T>, out1: seq<T>, out2: seq<T>, news: seq<T>)
    requires out1 + q1 == q0 + news && out2 + q2 == q1 + []
    ensures (out1 + out2) + q2 == q0 + news
  {
    assert q1 + [] == q1;
    assert (out1 + out2) + q2 == out1 + (out2 + q2);
  }

  lemma WindowThen<T>(w0: seq<T>, w1: seq<T>, w2: seq<T>, acked: nat, f: seq<T>, g: seq<T>)
    requires acked <= |w0| && w1 == w0[acked..] + f && w2 == w1[0..] + g
    ensures w2 == w0[acked..] + (f + g)
  {
  }

  lemma {:induction false} TransmitsThen(c: Conn, d: Conn, e: Conn, a: seq<Action>, b: seq<Action>, news: seq<Bytes>,
                                         acked: nat, now: nat)
    requires Transmits(c, d, a, news, acked, now)
    requires Transmits(d, e, b, [], 0, now)
    ensures Transmits(c, e, a + b, news, acked, now)
  {
    hide Sends, Carried, NumberedFrom, Fresh, Wrap;
    ActionsAppend(a, b);
    var ma, mb := Sends(a), Sends(b);
    var na, nb := |Carried(ma)|, |Carried(mb)|;
    MsgsAppend(ma, mb);
    NumberedFromAppend(ma, mb, c.sendNext);
    assert e.actions == c.actions + (a + b) by { assert e.actions == (c.actions + a) + b; }
    QueueThen(c.pending, d.pending, e.pending, Carried(ma), Carried(mb), news);
    FreshAppend(c.sendNext, na, nb, now);
    WindowThen(c.sent, d.sent, e.sent, acked, Fresh(c.sendNext, na, now), Fresh(d.sendNext, nb, now));
    WrapAdd(c.sendNext + na, nb);
  }

  lemma {:induction false} ReceivesThen(c: Conn, d: Conn, e: Conn, a: seq<Action>, b: seq<Action>, got: seq<Bytes>)
    requires Receives(c, d, a, got)
    requires Receives(d, e, b, [])
    ensures Receives(c, e, a + b, got)
  {
    hide Sends, Deliveries, AnyNumbered, AllAcknowledge;
    ActionsAppend(a, b);
    MsgsAppend(Sends(a), Sends(b));
  }

  /** Actions that touch neither the numbering nor the user. */
  predicate Plain(a: Action) { (a.SendApdu? ==> a.apdu.U?) && !a.DeliverAsdu? }

  lemma {:induction false} PlainActions(acts: seq<Action>)
    requires forall i :: 0 <= i < |acts| ==> Plain(acts[i])
    ensures Deliveries(acts) == []
    ensures var m := Sends(acts);
            && Carried(m) == [] && !AnyNumbered(m)
            && (forall n :: NumberedFrom(m, n)) && (forall n :: AllAcknowledge(m, n))
  {
    if acts != [] {
      var acts', last := acts[..|acts| - 1], acts[|acts| - 1];
      PlainActions(acts');
      if last.SendApdu? {
        assert Sends(acts)[..|Sends(acts')|] == Sends(acts');
      }
    }
  }

  /** `d` differs from `c` only by plain actions, timers and the state. */
  ghost predicate SameWindow(c: Conn, d: Conn) {
    && d.role == c.role && d.config == c.config && d.pending == c.pending && d.sent == c.sent
    && d.sendNext == c.sendNext && d.recvNext == c.recvNext && d.unackedRecv == c.unackedRecv
  }

  lemma {:induction false} PlainStep(c: Conn, d: Conn, acts: seq<Action>, now: nat)
    requires SameWindow(c, d)
    requires d.actions == c.actions + acts
    requires forall i :: 0 <= i < |acts| ==> Plain(acts[i])
    ensures Transmits(c, d, acts, [], 0, now) && Receives(c, d, acts, [])
  {
    PlainActions(acts);
    assert c.sent[0..] + Fresh(c.sendNext, 0, now) == c.sent;
  }

  function FlushActions(c: Conn, n: nat): seq<Action>
    requires n <= |c.pending|
  {
    seq(n, i requires 0 <= i < n => SendApdu(c.Frame(i)))
  }

  function FlushFrames(c: Conn, n: nat): seq<Apdu>
    requires n <= |c.pending|
  {
    seq(n, i requires 0 <= i < n => c.Frame(i))
  }

  lemma {:induction false} FlushSends(c: Conn, n: nat)
    requires n <= |c.pending|
    ensures Sends(FlushActions(c, n)) == FlushFrames(c, n)
    ensures Deliveries(FlushActions(c, n)) == [] && Reasons(FlushActions(c, n)) == []
  {
    if n > 0 {
      FlushSends(c, n - 1);
      assert FlushActions(c, n)[..n - 1] == FlushActions(c, n - 1);
      assert FlushFrames(c, n) == FlushFrames(c, n - 1) + [c.Frame(n - 1)];
    }
  }

  lemma {:induction false} FlushCarries(c: Conn, n: nat)
    requires n <= |c.pending|
    ensures var m := FlushFrames(c, n);
            && Carried(m) == c.pending[..n] && NumberedFrom(m, c.sendNext)
            && AllAcknowledge(m, c.recvNext) && (AnyNumbered(m) <==> n > 0)
  {
    if n > 0 {
      FlushCarries(c, n - 1);
      var m := FlushFrames(c, n);
      assert m[..n - 1] == FlushFrames(c, n - 1);
      assert m[n - 1] == c.Frame(n - 1);
    }
  }

  lemma {:induction false} FlushStep(c: Conn, now: nat)
    ensures var acts := FlushActions(c, c.Room()); var d := c.FlushPending(now);
            Transmits(c, d, acts, [], 0, now) && Receives(c, d, acts, [])
  {
    var n := c.Room();
    FlushSends(c, n);
    FlushCarries(c, n);
    FlushFields(c, n, now);
    hide Conn.SendFirst, Conn.Room, Sends, Deliveries, Carried, NumberedFrom, AnyNumbered, AllAcknowledge, Fresh,
         FlushActions, FlushFrames, Wrap;
    assert c.pending[..n] + c.pending[n..] == c.pending + [];
    assert |c.pending[..n]| == n;
    WrapOf(c.recvNext);
  }

  lemma WrapOf(s: Seq15)
    ensures Wrap(s + 0) == s
  {
  }

  lemma {:induction false} FlushFields(c: Conn, n: nat, now: nat)
    requires n <= |c.pending|
    ensures var d := c.SendFirst(n, now);
            && d.role == c.role && d.config == c.config && d.recvNext == c.recvNext
            && d.actions == c.actions + FlushActions(c, n) && d.pending == c.pending[n..]
            && d.sendNext == Wrap(c.sendNext + n) && d.sent == c.sent[0..] + Fresh(c.sendNext, n, now)
            && d.unackedRecv == (if n > 0 then 0 else c.unackedRecv)
  {
    assert c.sent[0..] == c.sent;
    if n == 0 {
      assert c.sent + Fresh(c.sendNext, 0, now) == c.sent && c.actions + FlushActions(c, 0) == c.actions;
      assert c.pending[0..] == c.pending;
    }
  }

  /** How many outstanding frames an input acknowledges. */
  function AckedBy(c: Conn, input: Input): (n: nat)
    ensures n <= |c.sent|
  {
    match input
    case Receive(S(recv)) => if c.DataTransfer() then AckCount(c.sent, recv) else 0
    case Receive(I(send, recv, _)) => if c.Accepts(send) then AckCount(c.sent, recv) else 0
    case _ => 0
  }

  function SubmittedBy(input: Input): seq<Bytes> {
    if input.SendAsdu? then [input.asdu] else []
  }

  /** What an input makes a connection deliver. */
  function DeliveredBy(c: Conn, input: Input): seq<Bytes> {
    match input
    case Receive(I(send, _, asdu)) => if c.Accepts(send) then [asdu] else []
    case _ => []
  }

  lemma {:induction false} AcknowledgeStep(c: Conn, nr: Seq15, now: nat) returns (acts: seq<Action>)
    ensures var d := c.Acknowledge(nr, now);
            Transmits(c, d, acts, [], AckCount(c.sent, nr), now) && Receives(c, d, acts, [])
  {
    hide Conn.SendFirst, Sends, Deliveries, Carried, NumberedFrom, AnyNumbered, AllAcknowledge, Fresh, FlushActions,
         Wrap, AckCount;
    var c' := c.(sent := c.sent[AckCount(c.sent, nr)..]);
    FlushStep(c', now);
    acts := FlushActions(c', c'.Room());
    assert c'.sent[0..] == c'.sent;
  }

  lemma {:induction false} OneAction(a: Action)
    ensures Sends([a]) == (if a.SendApdu? then [a.apdu] else [])
    ensures Deliveries([a]) == (if a.DeliverAsdu? then [a.asdu] else [])
    ensures a.SendApdu? ==> Carried(Sends([a])) == (if a.apdu.I? then [a.apdu.asdu] else [])
  {
    assert [a][..0] == [];
    if a.SendApdu? { assert [a.apdu][..0] == []; }
  }

  lemma {:induction false} SupervisoryStep(c: Conn, now: nat)
    ensures var acts := [SendApdu(S(c.recvNext))]; var d := c.EmitSupervisory(now);
            Transmits(c, d, acts, [], 0, now) && Receives(c, d, acts, [])
  {
    OneAction(SendApdu(S(c.recvNext)));
    assert Sends([SendApdu(S(c.recvNext))])[0].Numbered();
    assert c.sent[0..] + Fresh(c.sendNext, 0, now) == c.sent;
  }

  lemma {:induction false} DeliverStep(c: Conn, asdu: Bytes, now: nat)
    ensures Transmits(c, c.Push(DeliverAsdu(asdu)), [DeliverAsdu(asdu)], [], 0, now)
  {
    OneAction(DeliverAsdu(asdu));
    assert c.sent[0..] + Fresh(c.sendNext, 0, now) == c.sent;
  }

  lemma {:induction false} ReceivedOne(c: Conn, d: Conn, flush: seq<Action>, asdu: Bytes, now: nat)
    requires Receives(c.Received(now), d, flush, [])
    ensures Receives(c, d.Push(DeliverAsdu(asdu)), flush + [DeliverAsdu(asdu)], [asdu])
  {
    hide Sends, Deliveries, AnyNumbered, AllAcknowledge;
    ActionsAppend(flush, [DeliverAsdu(asdu)]);
    OneAction(DeliverAsdu(asdu));
    assert Sends(flush) + [] == Sends(flush);
  }

  lemma {:induction false} TakenStep(c: Conn, recv: Seq15, asdu: Bytes, now: nat) returns (acts: seq<Action>)
    ensures var d := c.Received(now).Acknowledge(recv, now).Push(DeliverAsdu(asdu));
            Transmits(c, d, acts, [], AckCount(c.sent, recv), now) && Receives(c, d, acts, [asdu])
  {
    hide Conn.Acknowledge, Conn.Push, Receives, Sends, Carried, NumberedFrom, Fresh, Wrap, Next;
    var c1 := c.Received(now);
    var c2 := c1.Acknowledge(recv, now);
    var d := c2.Push(DeliverAsdu(asdu));
    var flush := AcknowledgeStep(c1, recv, now);
    assert Transmits(c, c2, flush, [], AckCount(c.sent, recv), now);
    ReceivedOne(c, c2, flush, asdu, now);
    hide Transmits;
    var deliver := [DeliverAsdu(asdu)];
    DeliverStep(c2, asdu, now);
    TransmitsThen(c, c2, d, flush, deliver, [], AckCount(c.sent, recv), now);
    acts := flush + deliver;
  }

  lemma {:induction false} IFrameStep(c: Conn, send: Seq15, recv: Seq15, asdu: Bytes, now: nat)
    returns (acts: seq<Action>)
    requires c.Accepts(send)
    ensures var d := c.OnIFrame(send, recv, asdu, now);
            Transmits(c, d, acts, [], AckCount(c.sent, recv), now) && Receives(c, d, acts, [asdu])
  {
    hide Conn.Acknowledge, Conn.Received, Conn.Push, Conn.EmitSupervisory, Transmits, Receives;
    var d := c.Received(now).Acknowledge(recv, now).Push(DeliverAsdu(asdu));
    acts := TakenStep(c, recv, asdu, now);
    if d.unackedRecv >= d.config.w {
      SupervisoryStep(d, now);
      var s := [SendApdu(S(d.recvNext))];
      TransmitsThen(c, d, d.EmitSupervisory(now), acts, s, [], AckCount(c.sent, recv), now);
      ReceivesThen(c, d, d.EmitSupervisory(now), acts, s, [asdu]);
      acts := acts + s;
    }
  }

  lemma {:induction false} SendStep(c: Conn, asdu: Bytes, now: nat)
    requires c.pending == []
    ensures var acts := [SendApdu(I(c.sendNext, c.recvNext, asdu))]; var d := c.SendIFrame(asdu, now);
            Transmits(c, d, acts, [asdu], 0, now) && Receives(c, d, acts, [])
  {
    var m := I(c.sendNext, c.recvNext, asdu);
    OneAction(SendApdu(m));
    assert [m][..0] == [];
    assert Sends([SendApdu(m)])[0].Numbered();
    NextWrap(c.sendNext);
    assert c.sent[0..] + Fresh(c.sendNext, 1, now) == c.sent + [Outstanding(c.sendNext, now)];
  }

  /** The send window is never exceeded, and while it has room nothing waits. */
  ghost predicate Window(c: Conn) {
    && |c.sent| <= c.config.k
    && (c.state == Active && |c.sent| < c.config.k ==> c.pending == [])
  }

  lemma {:induction false} PlainThenFlush(c: Conn, d: Conn, acts: seq<Action>, now: nat) returns (all: seq<Action>)
    requires SameWindow(c, d)
    requires d.actions == c.actions + acts
    requires forall i :: 0 <= i < |acts| ==> Plain(acts[i])
    ensures Transmits(c, d.FlushPending(now), all, [], 0, now) && Receives(c, d.FlushPending(now), all, [])
  {
    hide Conn.FlushPending, FlushActions, Transmits, Receives;
    PlainStep(c, d, acts, now);
    FlushStep(d, now);
    var flush := FlushActions(d, d.Room());
    TransmitsThen(c, d, d.FlushPending(now), acts, flush, [], 0, now);
    ReceivesThen(c, d, d.FlushPending(now), acts, flush, []);
    all := acts + flush;
  }

  lemma {:induction false} UFrameStep(c: Conn, f: UFunction, now: nat) returns (acts: seq<Action>)
    ensures var d := c.OnUFrame(f, now);
            Transmits(c, d, acts, [], 0, now) && Receives(c, d, acts, [])
  {
    hide Conn.FlushPending, Transmits, Receives;
    var d := c.OnUFrame(f, now);
    if f == StartDtCon && c.role == Client && c.state == Starting {
      acts := PlainThenFlush(c, c.Transition(Active), [StateChanged(Active)], now);
    } else if f == StartDtAct && c.role == Server && c.state == Stopped {
      var e := c.EmitU(StartDtCon, now).Transition(Active);
      acts := [SendApdu(U(StartDtCon)), StateChanged(Active)];
      assert e.actions == c.actions + acts;
      acts := PlainThenFlush(c, e, acts, now);
    } else {
      acts := d.actions[|c.actions|..];
      assert d.actions == c.actions + acts;
      PlainStep(c, d, acts, now);
    }
  }

  lemma {:induction false} ApduStep(c: Conn, apdu: Apdu, now: nat) returns (acts: seq<Action>)
    ensures var d := c.OnApdu(apdu, now);
            && Transmits(c, d, acts, [], AckedBy(c, Receive(apdu)), now)
            && Receives(c, d, acts, DeliveredBy(c, Receive(apdu)))
  {
    hide Conn.OnUFrame, Conn.OnIFrame, Conn.Acknowledge, Sends, Deliveries, Carried, NumberedFrom, AnyNumbered,
         AllAcknowledge;
    var c' := c.(lastRecvAny := Some(now));
    match apdu {
      case U(f) =>
        acts := UFrameStep(c', f, now);
      case S(recv) =>
        if c.DataTransfer() {
          acts := AcknowledgeStep(c', recv, now);
        } else {
          acts := [];
          PlainStep(c, c', acts, now);
        }
      case I(send, recv, asdu) =>
        if c.Accepts(send) {
          acts := IFrameStep(c', send, recv, asdu, now);
        } else {
          acts := RefusedStep(c', send, recv, asdu, now);
        }
    }
  }

  lemma {:induction false} RefusedStep(c: Conn, send: Seq15, recv: Seq15, asdu: Bytes, now: nat)
    returns (acts: seq<Action>)
    requires !c.Accepts(send)
    ensures var d := c.OnIFrame(send, recv, asdu, now);
            Transmits(c, d, acts, [], 0, now) && Receives(c, d, acts, [])
  {
    var d := c.Fail(ProtocolError);
    acts := d.actions[|c.actions|..];
    assert d.actions == c.actions + acts;
    PlainStep(c, d, acts, now);
  }

  lemma {:induction false} UserStep(c: Conn, input: Input, now: nat) returns (acts: seq<Action>)
    requires Window(c) && !input.Receive?
    ensures var d := c.Dispatch(input, now);
            Transmits(c, d, acts, SubmittedBy(input), 0, now) && Receives(c, d, acts, [])
  {
    hide Conn.OnApdu, Sends, Deliveries, Carried, NumberedFrom, AnyNumbered, AllAcknowledge;
    var d := c.Dispatch(input, now);
    if input.SendAsdu? && c.state == Active && |c.sent| < c.config.k {
      SendStep(c, input.asdu, now);
      acts := [SendApdu(I(c.sendNext, c.recvNext, input.asdu))];
    } else {
      acts := d.actions[|c.actions|..];
      assert d.actions == c.actions + acts;
      PlainStep(c, d.(pending := c.pending), acts, now);
    }
  }

  lemma {:induction false} DispatchStep(c: Conn, input: Input, now: nat) returns (acts: seq<Action>)
    requires Window(c)
    ensures var d := c.Dispatch(input, now);
            && Transmits(c, d, acts, SubmittedBy(input), AckedBy(c, input), now)
            && Receives(c, d, acts, DeliveredBy(c, input))
  {
    if input.Receive? {
      hide Conn.OnApdu, Transmits, Receives;
      acts := ApduStep(c, input.apdu, now);
    } else {
      hide Conn.Dispatch, Transmits, Receives;
      acts := UserStep(c, input, now);
    }
  }

  lemma {:induction false} AckTimerStep(c: Conn, now: nat) returns (acts: seq<Action>)
    ensures var d := c.AckTimer(now);
            Transmits(c, d, acts, [], 0, now) && Receives(c, d, acts, [])
  {
    hide Conn.EmitSupervisory, Transmits, Receives;
    if c.AckDue(now) {
      SupervisoryStep(c, now);
      acts := [SendApdu(S(c.recvNext))];
    } else {
      acts := [];
      PlainStep(c, c, acts, now);
    }
  }

  lemma {:induction false} LateTimerStep(c: Conn, now: nat) returns (acts: seq<Action>)
    ensures var d := c.IdleTimer(now).FinishStop();
            Transmits(c, d, acts, [], 0, now) && Receives(c, d, acts, [])
  {
    hide Transmits, Receives;
    var d := c.IdleTimer(now).FinishStop();
    acts := d.actions[|c.actions|..];
    assert d.actions == c.actions + acts;
    PlainStep(c, d, acts, now);
  }

  lemma {:induction false} TimerStep(c: Conn, now: nat) returns (acts: seq<Action>)
    ensures var d := c.RunTimers(now);
            Transmits(c, d, acts, [], 0, now) && Receives(c, d, acts, [])
  {
    hide Conn.AckTimer, Conn.IdleTimer, Conn.FinishStop, Transmits, Receives;
    if c.OldestExpired(now) || c.TestExpired(now) {
      var d := c.Fail(AckTimeout);
      acts := d.actions[|c.actions|..];
      assert d.actions == c.actions + acts;
      PlainStep(c, d, acts, now);
    } else {
      var c1 := c.AckTimer(now);
      var d := c1.IdleTimer(now).FinishStop();
      var due := AckTimerStep(c, now);
      var rest := LateTimerStep(c1, now);
      TransmitsThen(c, c1, d, due, rest, [], 0, now);
      ReceivesThen(c, c1, d, due, rest, []);
      acts := due + rest;
    }
  }

  /** One call, for any input and any state inside its window. */
  lemma {:induction false} HandleStep(c: Conn, input: Input, now: nat)
    requires c.actions == [] && Window(c)
    ensures var d := c.Handle(input, now);
            && Transmits(c, d, d.actions, SubmittedBy(input), AckedBy(c, input), now)
            && Receives(c, d, d.actions, DeliveredBy(c, input))
            && Window(d)
  {
    hide Conn.Dispatch, Conn.RunTimers, Window, Receives, Transmits, AckedBy, SubmittedBy, DeliveredBy, Sends,
         Carried, NumberedFrom;
    var d := c.Dispatch(input, now);
    var e := d.RunTimers(now);
    var a := DispatchStep(c, input, now);
    var b := TimerStep(d, now);
    TransmitsThen(c, d, e, a, b, SubmittedBy(input), AckedBy(c, input), now);
    ReceivesThen(c, d, e, a, b, DeliveredBy(c, input));
    assert e.actions == a + b by { TransmitsActions(c, e, a + b, SubmittedBy(input), AckedBy(c, input), now); }
    DispatchWindow(c, input, now);
    TimerWindow(d, now);
  }

  lemma TransmitsActions(c: Conn, d: Conn, acts: seq<Action>, news: seq<Bytes>, acked: nat, now: nat)
    requires c.actions == [] && Transmits(c, d, acts, news, acked, now)
    ensures d.actions == acts
  {
    assert c.actions + acts == acts;
  }

  lemma {:induction false} FlushWindow(c: Conn, now: nat)
    requires |c.sent| <= c.config.k
    ensures Window(c.FlushPending(now))
  {
  }

  lemma {:induction false} ApduWindow(c: Conn, apdu: Apdu, now: nat)
    requires Window(c)
    ensures Window(c.OnApdu(apdu, now))
  {
    hide Conn.FlushPending;
    var c' := c.(lastRecvAny := Some(now));
    match apdu {
      case U(f) =>
        FlushWindow(c'.Transition(Active), now);
        FlushWindow(c'.EmitU(StartDtCon, now).Transition(Active), now);
      case S(recv) =>
        FlushWindow(c'.(sent := c.sent[AckCount(c.sent, recv)..]), now);
      case I(send, recv, asdu) =>
        FlushWindow(c'.Received(now).(sent := c.sent[AckCount(c.sent, recv)..]), now);
    }
  }

  lemma {:induction false} DispatchWindow(c: Conn, input: Input, now: nat)
    requires Window(c)
    ensures Window(c.Dispatch(input, now))
  {
    hide Conn.OnApdu;
    if input.Receive? { ApduWindow(c, input.apdu, now); }
  }

  lemma {:induction false} TimerWindow(c: Conn, now: nat)
    requires Window(c)
    ensures Window(c.RunTimers(now))
  {
  }
}
