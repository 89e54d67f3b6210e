/** A 101 master: what each frame means to it, what each call sends, and what its log says of it. */
module Master101 {
  import opened Common
  import opened Control101
  import opened Link101
  import opened Retry101

  // ------------------------------------------------------------------
  // What a frame means, octet by octet
  // ------------------------------------------------------------------

  predicate Answers(f: Frame, n: byte) { f.Fixed? && f.control % 0x10 == n }

  predicate Confirms(f: Frame) { f == Single(AckChar) || Answers(f, 0) }

  predicate Refuses(f: Frame) { f == Single(NackChar) || Answers(f, 1) }

  predicate Bears(f: Frame) { f.Variable? && f.control % 0x10 == 8 }

  /** It ends the exchange under way: confirmed, refused, no data, status or user data. */
  predicate Ends(f: Frame) { Confirms(f) || Refuses(f) || Answers(f, 9) || Answers(f, 11) || Bears(f) }

  // ------------------------------------------------------------------
  // What a call does
  // ------------------------------------------------------------------

  /** The queue with what the call adds to it. */
  function Queue(l: Link, c: Call): seq<Bytes> { l.queue + (if c.input.SendUserData? then [c.input.asdu] else []) }

  /** User data leaves when it is submitted to an idle master, and when the exchange before it is confirmed. */
  predicate Draws(l: Link, c: Call) {
    && Queue(l, c) != []
    && (if l.pending.None? then c.input.SendUserData? else c.input.FrameReceived? && Confirms(c.input.frame))
  }

  /** The frame that the input starts an exchange with: a request only if the master is idle, a reset always. */
  function Begun(l: Link, c: Call): seq<Frame> {
    var a := l.config.address;
    if c.input == ResetLink then [Fixed(0x40, a)]
    else if Draws(l, c) then [Variable(if l.fcb then 0x73 else 0x53, a, Queue(l, c)[0])]
    else if l.pending.Some? then []
    else if c.input == AskStatus then [Fixed(0x49, a)]
    else if c.input == Poll(true) then [Fixed(0x4A, a)]
    else if c.input == Poll(false) then [Fixed(0x4B, a)]
    else []
  }

  /** The exchange under way once the input is handled. */
  function Open(l: Link, c: Call): Option<Exchange> {
    if Begun(l, c) != [] then Some(Exchange(Begun(l, c)[0], c.now, 1))
    else if c.input.FrameReceived? && Ends(c.input.frame) then None
    else l.pending
  }

  /** The link is ready once a status came, or a fixed frame confirmed an exchange. */
  predicate BecomesReady(l: Link, c: Call) {
    && l.state == NotReady && c.input.FrameReceived?
    && (Answers(c.input.frame, 11) || (Answers(c.input.frame, 0) && l.pending.Some?))
  }

  /** What the input makes the master report. */
  function Said(l: Link, c: Call): seq<Action> {
    if !c.input.FrameReceived? then []
    else if Bears(c.input.frame) then [DeliverAsdu(c.input.frame.asdu)]
    else if Refuses(c.input.frame) then [LinkError(NackReceived)]
    else if !Ends(c.input.frame) then [LinkError(ProtocolError)]
    else if BecomesReady(l, c) then [LinkStateChanged(Ready)]
    else []
  }

  /** The timer finds the exchange too old: it is repeated, or given up when it was attempted too often. */
  predicate Overdue(l: Link, c: Call) {
    Open(l, c).Some? && Elapsed(c.now, Open(l, c).value.at) >= l.config.timeout
  }

  predicate GivenUp(l: Link, c: Call) { Overdue(l, c) && Open(l, c).value.attempts > l.config.maxRetries }

  function StateAfter(l: Link, c: Call): LinkState { if BecomesReady(l, c) then Ready else l.state }

  /** Everything a call returns, in order. */
  function Returned(l: Link, c: Call): seq<Action> {
    Said(l, c) + (if Begun(l, c) == [] then [] else [SendFrame(Begun(l, c)[0])])
    + Tail(l, c)
  }

  /** What the timer adds. */
  function Tail(l: Link, c: Call): seq<Action> {
    if !Overdue(l, c) then []
    else if !GivenUp(l, c) then [SendFrame(Open(l, c).value.frame)]
    else (if StateAfter(l, c) == Failed then [] else [LinkStateChanged(Failed)]) + [LinkError(AckTimeout)]
  }

  /** And what it leaves. */
  function Left(l: Link, c: Call): Link {
    var x := Open(l, c);
    l.(state := if GivenUp(l, c) then Failed else StateAfter(l, c),
       queue := if Draws(l, c) then Queue(l, c)[1..] else Queue(l, c),
       fcb := if Draws(l, c) then !l.fcb else l.fcb,
       pending := if GivenUp(l, c) then None
                  else if Overdue(l, c) then Some(Exchange(x.value.frame, c.now, (x.value.attempts + 1) % 0x100))
                  else x)
  }

  lemma {:induction false} MeaningIs(f: Frame)
    requires !f.Single?
    ensures var s, n := DecodeSecondary(f.control), f.control % 0x10;
            && (s.None? ==> n !in [0, 1, 8, 9, 11])
            && (s.Some? ==>
                  && (s.value.func == Ack <==> n == 0) && (s.value.func == Nack <==> n == 1)
                  && (s.value.func == RespondUserData <==> n == 8) && (s.value.func == NackNoData <==> n == 9)
                  && (s.value.func == StatusOfLink <==> n == 11))
  {
  }

  lemma FrameOctets(l: Link, asdu: Bytes)
    ensures l.RequestFrame(ResetRemoteLink) == Fixed(0x40, l.config.address)
    ensures l.RequestFrame(RequestStatus) == Fixed(0x49, l.config.address)
    ensures l.RequestFrame(RequestClass1) == Fixed(0x4A, l.config.address)
    ensures l.RequestFrame(RequestClass2) == Fixed(0x4B, l.config.address)
    ensures l.DataFrame(l.fcb, asdu) == Variable(if l.fcb then 0x73 else 0x53, l.config.address, asdu)
  {
  }

  /** The link once the input is handled, before the timer. */
  function Handled(l: Link, c: Call): Link {
    l.(state := StateAfter(l, c), queue := if Draws(l, c) then Queue(l, c)[1..] else Queue(l, c),
       fcb := if Draws(l, c) then !l.fcb else l.fcb, pending := Open(l, c),
       actions := Said(l, c) + (if Begun(l, c) == [] then [] else [SendFrame(Begun(l, c)[0])]))
  }

  lemma {:induction false} LocalCall(l: Link, c: Call)
    requires l.role == Master && l.actions == [] && !c.input.FrameReceived?
    ensures l.Dispatch(c.input, c.now) == Handled(l, c)
  {
    hide EncodePrimary, Ends, Confirms;
    FrameOctets(l, if Queue(l, c) == [] then [] else Queue(l, c)[0]);
    assert l.queue + [] == l.queue;
  }

  lemma {:induction false} ConfirmCall(l: Link, c: Call)
    requires l.role == Master && l.actions == [] && c.input.FrameReceived? && Confirms(c.input.frame)
    ensures l.Dispatch(c.input, c.now) == Handled(l, c)
  {
    hide EncodePrimary, DecodeSecondary, Link.FlushQueue, Handled;
    if c.input.frame.Fixed? { MeaningIs(c.input.frame); }
    assert l.queue + [] == l.queue;
    if l.pending.None? {
      assert Handled(l, c) == l by { StrayConfirm(l, c); }
    } else {
      var ready := l.state == NotReady && c.input.frame.Fixed?;
      var m := if ready then l.(pending := None).Transition(Ready) else l.(pending := None);
      assert l.Dispatch(c.input, c.now) == m.FlushQueue(c.now);
      NextFlushed(l, m, c, ready);
    }
  }

  lemma StrayConfirm(l: Link, c: Call)
    requires l.actions == [] && l.pending.None? && c.input.FrameReceived? && Confirms(c.input.frame)
    ensures Handled(l, c) == l
  {
    assert l.queue + [] == l.queue;
  }

  lemma {:induction false} NextFlushed(l: Link, m: Link, c: Call, ready: bool)
    requires l.actions == [] && l.pending.Some? && c.input.FrameReceived? && Confirms(c.input.frame)
    requires ready == (l.state == NotReady && c.input.frame.Fixed?)
    requires m == if ready then l.(pending := None).Transition(Ready) else l.(pending := None)
    ensures m.FlushQueue(c.now) == Handled(l, c)
  {
    hide EncodePrimary;
    FrameOctets(l, if l.queue == [] then [] else l.queue[0]);
    assert l.queue + [] == l.queue;
    assert BecomesReady(l, c) == ready;
  }

  lemma {:induction false} FixedCall(l: Link, c: Call)
    requires l.role == Master && l.actions == [] && c.input.FrameReceived? && !c.input.frame.Variable?
    requires !Confirms(c.input.frame)
    ensures l.Dispatch(c.input, c.now) == Handled(l, c)
  {
    hide EncodePrimary, DecodeSecondary, Link.FlushQueue;
    if c.input.frame.Fixed? { MeaningIs(c.input.frame); }
    assert l.queue + [] == l.queue;
  }

  lemma {:induction false} DataCall(l: Link, c: Call)
    requires l.role == Master && l.actions == [] && c.input.FrameReceived? && c.input.frame.Variable?
    ensures l.Dispatch(c.input, c.now) == Handled(l, c)
  {
    hide DecodeSecondary;
    MeaningIs(c.input.frame);
    assert l.queue + [] == l.queue;
  }

  /** In every state, for every input and every clock, a master's call returns this and leaves that. */
  lemma {:induction false} MasterCall(l: Link, c: Call)
    requires l.role == Master && l.actions == []
    ensures l.Handle(c.input, c.now) == Left(l, c).(actions := Returned(l, c))
  {
    hide Link.Dispatch, Said, Begun, Open, Draws, Queue, BecomesReady;
    if !c.input.FrameReceived? { LocalCall(l, c); }
    else if c.input.frame.Variable? { DataCall(l, c); }
    else if Confirms(c.input.frame) { ConfirmCall(l, c); } else { FixedCall(l, c); }
  }

  // ------------------------------------------------------------------
  // What the log says
  // ------------------------------------------------------------------

  /** The ASDUs of all response frames read. */
  function Got(calls: seq<Call>): seq<Bytes> {
    if calls == [] then [] else
      var c := calls[|calls| - 1];
      Got(calls[..|calls| - 1]) +
      (if c.input.FrameReceived? && Bears(c.input.frame) then [c.input.frame.asdu] else [])
  }

  /** The complaint about a frame that refuses, or that no answer can be. */
  function Complaint(c: Call): seq<Reason> {
    if !c.input.FrameReceived? then []
    else if Refuses(c.input.frame) then [NackReceived]
    else if !Ends(c.input.frame) then [ProtocolError]
    else []
  }

  /** The errors so far: the complaints, and a timeout where an exchange was given up. */
  function Faults(config: Config, calls: seq<Call>): seq<Reason> {
    if calls == [] then [] else
      var before, c := calls[..|calls| - 1], calls[|calls| - 1];
      Faults(config, before) + Complaint(c)
      + (if GivenUp(History(Master, config, before).link, c) then [AckTimeout] else [])
  }

  /** A status came, or a fixed frame confirmed an exchange. */
  predicate WasReady(config: Config, calls: seq<Call>) {
    calls != [] &&
    (var before, c := calls[..|calls| - 1], calls[|calls| - 1];
     || WasReady(config, before)
     || (c.input.FrameReceived? && Answers(c.input.frame, 11))
     || (c.input.FrameReceived? && Answers(c.input.frame, 0) && History(Master, config, before).link.pending.Some?))
  }

  ghost predicate Logged(s: Station, config: Config, calls: seq<Call>) {
    && s.link.role == Master && s.link.actions == [] && s.link.config == config
    && s.delivered == Got(calls) && s.errors == Faults(config, calls)
    && s.link.state == (if AckTimeout in Faults(config, calls) then Failed
                        else if WasReady(config, calls) then Ready else NotReady)
  }

  lemma {:induction false} StepLogged(config: Config, calls: seq<Call>, c: Call)
    requires Logged(History(Master, config, calls), config, calls)
    ensures Logged(Step(History(Master, config, calls), c.input, c.now), config, calls + [c])
  {
    hide History, Link.Handle, Step, Got, Complaint, Refuses, Bears, Answers, Begun, Returned, GivenUp, Frames,
         Deliveries, Errors;
    var s, more := History(Master, config, calls), calls + [c];
    assert more[..|calls|] == calls && more[|calls|] == c;
    MasterCall(s.link, c);
    StepFields(s, c.input, c.now);
    ReturnedSays(s.link, c);
    assert AckTimeout !in Complaint(c) by { NoTimeout(c); }
    assert Got(more) == Got(calls) + Deliveries(Returned(s.link, c)) by { GotGrows(calls, c); }
  }

  lemma NoTimeout(c: Call)
    ensures AckTimeout !in Complaint(c)
  {
  }

  lemma {:induction false} GotGrows(calls: seq<Call>, c: Call)
    ensures Got(calls + [c]) ==
            Got(calls) + (if c.input.FrameReceived? && Bears(c.input.frame) then [c.input.frame.asdu] else [])
  {
    assert (calls + [c])[..|calls|] == calls;
  }

  lemma {:induction false} ReturnedSays(l: Link, c: Call)
    ensures var acts := Returned(l, c);
            && Deliveries(acts) ==
               (if c.input.FrameReceived? && Bears(c.input.frame) then [c.input.frame.asdu] else [])
            && Errors(acts) == Complaint(c) + (if GivenUp(l, c) then [AckTimeout] else [])
  {
    hide Begun, Frames, Deliveries, Errors, Said, Tail, GivenUp, Complaint, Bears;
    var first := if Begun(l, c) == [] then [] else [SendFrame(Begun(l, c)[0])];
    SaidSays(l, c);
    Short(first);
    TailSays(l, c);
    Appended(Said(l, c), first);
    Appended(Said(l, c) + first, Tail(l, c));
    assert Returned(l, c) == Said(l, c) + first + Tail(l, c);
    assert Complaint(c) + [] == Complaint(c);
  }

  lemma {:induction false} TailSays(l: Link, c: Call)
    ensures Deliveries(Tail(l, c)) == [] && Errors(Tail(l, c)) == (if GivenUp(l, c) then [AckTimeout] else [])
  {
    hide Open, Deliveries, Errors, Frames, StateAfter;
    Short(Tail(l, c));
  }

  lemma {:induction false} SaidSays(l: Link, c: Call)
    ensures Deliveries(Said(l, c)) ==
            (if c.input.FrameReceived? && Bears(c.input.frame) then [c.input.frame.asdu] else [])
    ensures Errors(Said(l, c)) == Complaint(c)
  {
    hide Deliveries, Errors, Frames, BecomesReady;
    Short(Said(l, c));
  }

  lemma {:induction false} Appended(a: seq<Action>, b: seq<Action>)
    ensures Deliveries(a + b) == Deliveries(a) + Deliveries(b) && Errors(a + b) == Errors(a) + Errors(b)
  {
    if b == [] {
      assert a + b == a;
    } else {
      Appended(a, b[..|b| - 1]);
      assert (a + b)[..|a + b| - 1] == a + b[..|b| - 1];
    }
  }

  /**
   * Over every history a master has delivered the data of every response it read, reported an error for
   * every refusal, for every frame that is no answer and for every exchange given up, and for nothing
   * else; it has failed exactly if one was given up, and else is ready exactly if it was told so.
   */
  lemma {:induction false} MasterIsItsLog(config: Config, calls: seq<Call>)
    ensures Logged(History(Master, config, calls), config, calls)
  {
    hide Step, Logged;
    if calls != [] {
      var before, c := calls[..|calls| - 1], calls[|calls| - 1];
      MasterIsItsLog(config, before);
      assert before + [c] == calls;
      StepLogged(config, before, c);
    } else {
      NothingLogged(config);
    }
  }

  lemma NothingLogged(config: Config)
    ensures Logged(Init(Master, config), config, [])
  {
  }
}
