/** The acknowledgement timer t1 of a 104 station on a clock that does not run backwards. */
module Clock104 {
  import opened Common
  import opened Conn104
  import opened Effect104
  import opened Reply104
  import opened Station104

  predicate Nondecreasing(calls: seq<Call>) {
    forall i, j :: 0 <= i <= j < |calls| ==> calls[i].now <= calls[j].now
  }

  /** The outstanding frames are in the order they were sent in, none sent after `now`. */
  ghost predicate Dated(c: Conn, now: nat) {
    && (forall i, j :: 0 <= i <= j < |c.sent| ==> c.sent[i].at <= c.sent[j].at)
    && (forall i :: 0 <= i < |c.sent| ==> c.sent[i].at <= now)
    && (c.testSent.Some? ==> c.testSent.value <= now)
  }

  /** Some unacknowledged I-frame or outstanding TESTFR_act is at least t1 old. */
  ghost predicate Overdue(c: Conn, now: nat) {
    || (exists i :: 0 <= i < |c.sent| && now - c.sent[i].at >= c.config.t1)
    || (c.testSent.Some? && now - c.testSent.value >= c.config.t1)
  }

  lemma {:induction false} DispatchTest(c: Conn, input: Input, now: nat)
    ensures var d := c.Dispatch(input, now); d.testSent == c.testSent || d.testSent.None?
  {
  }

  lemma {:induction false} DatedDispatch(c: Conn, input: Input, now: nat)
    requires Dated(c, now) && Window(c)
    ensures Dated(c.Dispatch(input, now), now)
  {
    hide Conn.Dispatch, Sends, Carried, NumberedFrom, Window, AckedBy, SubmittedBy, DeliveredBy, Receives;
    var acts := DispatchStep(c, input, now);
    DispatchTest(c, input, now);
    var d := c.Dispatch(input, now);
    assert d.sent == c.sent[AckedBy(c, input)..] + Fresh(c.sendNext, |Carried(Sends(acts))|, now);
  }

  lemma {:induction false} TimerFields(c: Conn, now: nat)
    ensures var d := c.RunTimers(now);
            && d.sent == c.sent && d.config == c.config
            && (d.testSent == c.testSent || (d.testSent == Some(now) && !c.TestExpired(now) && !c.OldestExpired(now)))
  {
  }

  /** With the frames in order, the oldest one and the test decide. */
  lemma {:induction false} DatedCall(c: Conn, input: Input, now: nat)
    requires c.actions == [] && Window(c) && Dated(c, now) && c.config.t1 > 0
    ensures var d := c.Handle(input, now);
            && Dated(d, now) && d.config == c.config
            && (AckTimeout in Reasons(d.actions) <==> Overdue(d, now))
  {
    hide Conn.Dispatch, Conn.RunTimers, Window, Reasons;
    var e := c.Dispatch(input, now);
    DatedDispatch(c, input, now);
    DispatchConfig(c, input, now);
    TimeoutIff(c, input, now);
    TimerFields(e, now);
    var d := c.Handle(input, now);
    assert e.sent != [] ==> e.sent[0] == d.sent[0];
  }

  lemma {:induction false} DispatchConfig(c: Conn, input: Input, now: nat)
    requires Window(c)
    ensures c.Dispatch(input, now).config == c.config
  {
    hide Conn.Dispatch, Sends, Carried, NumberedFrom, Window, AckedBy, SubmittedBy, DeliveredBy, Receives, Fresh;
    var acts := DispatchStep(c, input, now);
  }

  lemma Later(c: Conn, now: nat, later: nat)
    requires Dated(c, now) && now <= later
    ensures Dated(c, later)
  {
  }

  lemma {:induction false} AlwaysDated(role: Role, config: Config, calls: seq<Call>)
    requires config.t1 > 0 && Nondecreasing(calls)
    ensures var s := History(role, config, calls);
            s.conn.config == config && Dated(s.conn, if calls == [] then 0 else calls[|calls| - 1].now)
  {
    hide Step, Inv;
    if calls != [] {
      var before, last := calls[..|calls| - 1], calls[|calls| - 1];
      AlwaysDated(role, config, before);
      AlwaysInv(role, config, before);
      var s := History(role, config, before);
      var now := if before == [] then 0 else before[|before| - 1].now;
      assert now <= last.now;
      DatedStep(s, last.input, now, last.now);
    }
  }

  lemma {:induction false} DatedStep(s: Station, input: Input, now: nat, later: nat)
    requires Inv(s) && Dated(s.conn, now) && now <= later && s.conn.config.t1 > 0
    ensures var t := Step(s, input, later); Dated(t.conn, later) && t.conn.config == s.conn.config
  {
    hide Conn.Handle, Window, SendSide, ReceiveSide, Overdue, Sends, Deliveries, Reasons;
    SendSideParts(s);
    Later(s.conn, now, later);
    DatedCall(s.conn, input, later);
  }

  /**
   * On a nondecreasing clock and with t1 above zero, in every history the outstanding frames
   * are sorted by send time, and a call reports AckTimeout exactly when it leaves an
   * unacknowledged I-frame or an outstanding TESTFR_act that is t1 old or older.
   */
  lemma {:induction false} T1Deadline(role: Role, config: Config, calls: seq<Call>, next: Call)
    requires config.t1 > 0 && Nondecreasing(calls + [next])
    ensures var s := History(role, config, calls);
            var t := Step(s, next.input, next.now);
            && (forall i, j :: 0 <= i <= j < |t.conn.sent| ==> t.conn.sent[i].at <= t.conn.sent[j].at <= next.now)
            && (AckTimeout in t.closed[|s.closed|..] <==> Overdue(t.conn, next.now))
  {
    var s := History(role, config, calls);
    assert forall i :: 0 <= i < |calls| ==> (calls + [next])[i] == calls[i];
    assert (calls + [next])[|calls|] == next;
    AlwaysDated(role, config, calls);
    AlwaysInv(role, config, calls);
    hide History, Conn.Handle, Window, SendSide, ReceiveSide, Reasons;
    SendSideParts(s);
    DatedCall(s.conn, next.input, next.now);
    var acts := s.conn.Handle(next.input, next.now).actions;
    assert (s.closed + Reasons(acts))[|s.closed|..] == Reasons(acts);
  }
}
