/** One 101 station with its history, against an arbitrary peer: exchanges, retries, frame count bit. */
module Retry101 {
  import opened Common
  import opened Control101
  import opened Link101

  function Frames(acts: seq<Action>): seq<Frame> {
    if acts == [] then [] else
      var rest := Frames(acts[..|acts| - 1]);
      var last := acts[|acts| - 1];
      if last.SendFrame? then rest + [last.frame] else rest
  }

  function Deliveries(acts: seq<Action>): seq<Bytes> {
    if acts == [] then [] else
      var rest := Deliveries(acts[..|acts| - 1]);
      var last := acts[|acts| - 1];
      if last.DeliverAsdu? then rest + [last.asdu] else rest
  }

  function Errors(acts: seq<Action>): seq<Reason> {
    if acts == [] then [] else
      var rest := Errors(acts[..|acts| - 1]);
      var last := acts[|acts| - 1];
      if last.LinkError? then rest + [last.reason] else rest
  }

  lemma {:induction false} OneMore(acts: seq<Action>, a: Action)
    ensures Frames(acts + [a]) == Frames(acts) + (if a.SendFrame? then [a.frame] else [])
    ensures Deliveries(acts + [a]) == Deliveries(acts) + (if a.DeliverAsdu? then [a.asdu] else [])
    ensures Errors(acts + [a]) == Errors(acts) + (if a.LinkError? then [a.reason] else [])
  {
    assert (acts + [a])[..|acts|] == acts;
  }

  lemma {:induction false} Short(acts: seq<Action>)
    requires |acts| <= 3
    ensures |acts| == 0 ==> Frames(acts) == [] && Deliveries(acts) == [] && Errors(acts) == []
    ensures |acts| == 1 ==> Frames(acts) == Frame1(acts[0]) && Deliveries(acts) == Delivery1(acts[0])
                            && Errors(acts) == Error1(acts[0])
    ensures |acts| == 2 ==> Frames(acts) == Frame1(acts[0]) + Frame1(acts[1])
                            && Deliveries(acts) == Delivery1(acts[0]) + Delivery1(acts[1])
                            && Errors(acts) == Error1(acts[0]) + Error1(acts[1])
    ensures |acts| == 3 ==> Frames(acts) == Frame1(acts[0]) + Frame1(acts[1]) + Frame1(acts[2])
                            && Deliveries(acts) == Delivery1(acts[0]) + Delivery1(acts[1]) + Delivery1(acts[2])
                            && Errors(acts) == Error1(acts[0]) + Error1(acts[1]) + Error1(acts[2])
  {
    if |acts| > 0 {
      var rest := acts[..|acts| - 1];
      assert acts == rest + [acts[|acts| - 1]];
      Short(rest);
      OneMore(rest, acts[|acts| - 1]);
    }
  }

  function Frame1(a: Action): seq<Frame> { if a.SendFrame? then [a.frame] else [] }

  function Delivery1(a: Action): seq<Bytes> { if a.DeliverAsdu? then [a.asdu] else [] }

  function Error1(a: Action): seq<Reason> { if a.LinkError? then [a.reason] else [] }

  /** `exchanges` groups every frame sent: one entry per exchange, holding its transmissions. */
  datatype Station = Station(
    link: Link,
    submitted: seq<Bytes>,
    exchanges: seq<seq<Frame>>,
    delivered: seq<Bytes>,
    errors: seq<Reason>)

  datatype Call = Call(input: Input, now: nat)

  function Init(role: Role, config: Config): Station { Station(New(role, config), [], [], [], []) }

  /** What handling the input sends opens an exchange; what the timer sends repeats the last one. */
  function Grouped(exchanges: seq<seq<Frame>>, begun: seq<Frame>, repeated: seq<Frame>): seq<seq<Frame>> {
    var e := if begun == [] then exchanges else exchanges + [begun];
    if repeated == [] || e == [] then e else e[|e| - 1 := e[|e| - 1] + repeated]
  }

  function Step(s: Station, input: Input, now: nat): Station {
    var d := s.link.Dispatch(input, now);
    var e := d.RunTimers(now);
    Station(e.(actions := []),
            s.submitted + (if input.SendUserData? then [input.asdu] else []),
            Grouped(s.exchanges, Frames(d.actions), Frames(e.actions[|d.actions|..])),
            s.delivered + Deliveries(e.actions),
            s.errors + Errors(e.actions))
  }

  lemma StepFields(s: Station, input: Input, now: nat)
    ensures var d, t := s.link.Handle(input, now), Step(s, input, now);
            && t.link == d.(actions := []) && t.delivered == s.delivered + Deliveries(d.actions)
            && t.errors == s.errors + Errors(d.actions)
            && t.submitted == s.submitted + (if input.SendUserData? then [input.asdu] else [])
  {
  }

  function History(role: Role, config: Config, calls: seq<Call>): Station {
    if calls == [] then Init(role, config) else
      var c := calls[|calls| - 1];
      Step(History(role, config, calls[..|calls| - 1]), c.input, c.now)
  }

  /** How many user-data exchanges a master has started. */
  function Started(s: Station): int { |s.submitted| - |s.link.queue| }

  predicate Odd(n: int) { n % 2 == 1 }

  /** One exchange: one frame, sent at least once and at most `limit` times. */
  ghost predicate Uniform(b: seq<Frame>, limit: nat) {
    1 <= |b| <= limit && forall i :: 0 <= i < |b| ==> b[i] == b[0]
  }

  /** What waits is what was submitted and not started; the bit is the parity of the started ones. */
  ghost predicate QueueInv(s: Station) {
    && Started(s) >= 0 && s.link.queue == s.submitted[Started(s)..]
    && s.link.fcb == Odd(Started(s))
  }

  /** Every exchange is uniform, and the last one is the pending one as often as it was attempted. */
  ghost predicate ExchangeInv(exchanges: seq<seq<Frame>>, l: Link) {
    && (forall i :: 0 <= i < |exchanges| ==> Uniform(exchanges[i], l.config.maxRetries + 1))
    && (l.pending.Some? ==>
          && exchanges != []
          && var last := exchanges[|exchanges| - 1];
             |last| == l.pending.value.attempts && last[0] == l.pending.value.frame)
  }

  /** The frames that open user-data exchanges. */
  function UserFrames(exchanges: seq<seq<Frame>>): seq<Frame> {
    if exchanges == [] then [] else
      UserFrames(exchanges[..|exchanges| - 1]) + UserFrame(exchanges[|exchanges| - 1])
  }

  function UserFrame(b: seq<Frame>): seq<Frame> { if b != [] && b[0].Variable? then [b[0]] else [] }

  /** The first `n` submitted ASDUs as user-data frames, their bits alternating from false. */
  function Alternating(l: Link, submitted: seq<Bytes>, n: nat): seq<Frame>
    requires n <= |submitted|
  {
    if n == 0 then [] else Alternating(l, submitted, n - 1) + [l.DataFrame(Odd(n - 1), submitted[n - 1])]
  }

  ghost predicate UserInv(s: Station) {
    0 <= Started(s) && UserFrames(s.exchanges) == Alternating(s.link, s.submitted, Started(s))
  }

  ghost predicate Inv(s: Station) {
    && s.link.role == Master && s.link.actions == []
    && QueueInv(s) && ExchangeInv(s.exchanges, s.link) && UserInv(s)
  }

  /** Handling an input at the master opens at most one exchange and repeats nothing. */
  ghost predicate Opens(l: Link, d: Link, now: nat) {
    && AckTimeout !in Errors(d.actions)
    && (Frames(d.actions) == [] ==> d.pending == l.pending || d.pending.None?)
    && (Frames(d.actions) != [] ==>
          && d.pending.Some? && d.pending == Some(Exchange(d.pending.value.frame, now, 1))
          && Frames(d.actions) == [d.pending.value.frame])
    && d.role == l.role && d.config == l.config
  }

  lemma {:induction false} FlushOpens(l: Link, now: nat)
    requires l.role == Master && l.pending.None? && |l.actions| <= 1
    requires forall i :: 0 <= i < |l.actions| ==> l.actions[i].LinkStateChanged?
    ensures Opens(l, l.FlushQueue(now), now)
  {
    hide EncodePrimary, Frames, Deliveries, Errors;
    Short(l.FlushQueue(now).actions);
  }

  lemma {:induction false} SecondaryOpens(l: Link, f: SecondaryFunc, now: nat)
    requires l.role == Master && l.actions == []
    ensures Opens(l, l.MasterOnSecondary(f, now), now)
  {
    hide Frames, Deliveries, Errors, Link.FlushQueue;
    var d := l.MasterOnSecondary(f, now);
    if f == Ack && l.pending.Some? {
      var l1 := l.(pending := None);
      FlushOpens(if l.state == NotReady then l1.Transition(Ready) else l1, now);
    } else {
      Short(d.actions);
    }
  }

  lemma {:induction false} FrameOpens(l: Link, f: Frame, now: nat)
    requires l.role == Master && l.actions == []
    ensures Opens(l, l.MasterOnFrame(f, now), now)
  {
    hide Frames, Deliveries, Errors, Link.FlushQueue, Link.MasterOnSecondary, DecodeSecondary;
    var d := l.MasterOnFrame(f, now);
    if f.Fixed? && DecodeSecondary(f.control).Some? {
      SecondaryOpens(l, DecodeSecondary(f.control).value.func, now);
    } else if f == Single(AckChar) && l.pending.Some? {
      FlushOpens(l.(pending := None), now);
    } else {
      Short(d.actions);
    }
  }

  lemma {:induction false} SendOpens(l: Link, f: Frame, now: nat)
    requires l.actions == []
    ensures Opens(l, l, now) && Opens(l, l.SendWithConfirm(f, now), now)
  {
    hide Frames, Deliveries, Errors;
    var d := l.SendWithConfirm(f, now);
    assert d.actions == [SendFrame(f)];
    Short(l.actions);
    Short(d.actions);
    assert Frames(l.actions) == [] && Errors(l.actions) == [];
    assert Frames(d.actions) == [f] && Errors(d.actions) == [];
  }

  lemma {:induction false} DispatchOpens(l: Link, input: Input, now: nat)
    requires l.role == Master && l.actions == []
    ensures Opens(l, l.Dispatch(input, now), now)
  {
    hide Frames, Deliveries, Errors, Link.FlushQueue, Link.MasterOnFrame, Link.OutstationOnFrame, Link.RequestFrame;
    match input {
      case FrameReceived(f) => FrameOpens(l, f, now);
      case SendUserData(asdu) =>
        var l1 := l.(queue := l.queue + [asdu]);
        if l.pending.None? {
          FlushOpens(l1, now);
        } else {
          Busy(l1, now);
          SendOpens(l, l.RequestFrame(ResetRemoteLink), now);
        }
      case AskStatus => SendOpens(l, l.RequestFrame(RequestStatus), now);
      case ResetLink => SendOpens(l, l.RequestFrame(ResetRemoteLink), now);
      case Poll(class1) => SendOpens(l, l.RequestFrame(if class1 then RequestClass1 else RequestClass2), now);
      case Tick => SendOpens(l, l.RequestFrame(ResetRemoteLink), now);
    }
  }

  lemma Busy(l: Link, now: nat)
    requires l.pending.Some?
    ensures l.FlushQueue(now) == l
  {
  }

  /**
   * The queue loses its head exactly when its user-data exchange starts, and then the bit flips;
   * no other user-data frame is begun.
   */
  ghost predicate Draws(l: Link, d: Link, q: seq<Bytes>) {
    || (d.queue == q && d.fcb == l.fcb && forall i :: 0 <= i < |Frames(d.actions)| ==> !Frames(d.actions)[i].Variable?)
    || (q != [] && d.queue == q[1..] && d.fcb == !l.fcb && Frames(d.actions) == [l.DataFrame(l.fcb, q[0])])
  }

  lemma {:induction false} FlushDraws(l: Link, now: nat)
    requires l.pending.None? && |l.actions| <= 1
    requires forall i :: 0 <= i < |l.actions| ==> l.actions[i].LinkStateChanged?
    ensures Draws(l, l.FlushQueue(now), l.queue)
  {
    hide EncodePrimary, Frames, Deliveries, Errors;
    Short(l.FlushQueue(now).actions);
  }

  lemma {:induction false} SecondaryDraws(l: Link, f: SecondaryFunc, now: nat)
    requires l.role == Master && l.actions == []
    ensures Draws(l, l.MasterOnSecondary(f, now), l.queue)
  {
    hide Frames, Deliveries, Errors, Link.FlushQueue;
    var l1 := l.(pending := None);
    if f == Ack && l.pending.Some? {
      FlushDraws(if l.state == NotReady then l1.Transition(Ready) else l1, now);
    } else {
      Short(l.MasterOnSecondary(f, now).actions);
    }
  }

  lemma {:induction false} FrameDraws(l: Link, f: Frame, now: nat)
    requires l.role == Master && l.actions == []
    ensures Draws(l, l.MasterOnFrame(f, now), l.queue)
  {
    hide Frames, Deliveries, Errors, Link.FlushQueue, Link.MasterOnSecondary, DecodeSecondary;
    if f.Fixed? && DecodeSecondary(f.control).Some? {
      SecondaryDraws(l, DecodeSecondary(f.control).value.func, now);
    } else if f == Single(AckChar) && l.pending.Some? {
      FlushDraws(l.(pending := None), now);
    } else {
      Short(l.MasterOnFrame(f, now).actions);
    }
  }

  lemma {:induction false} DispatchQueue(l: Link, input: Input, now: nat)
    requires l.role == Master && l.actions == []
    ensures Draws(l, l.Dispatch(input, now), l.queue + (if input.SendUserData? then [input.asdu] else []))
  {
    hide Frames, Deliveries, Errors, Link.FlushQueue, Link.MasterOnFrame, Link.OutstationOnFrame, EncodePrimary;
    assert l.queue + [] == l.queue;
    match input {
      case FrameReceived(f) => FrameDraws(l, f, now);
      case SendUserData(asdu) =>
        var l1 := l.(queue := l.queue + [asdu]);
        if l.pending.None? { FlushDraws(l1, now); } else { Busy(l1, now); Short([]); }
      case _ => Short(l.Dispatch(input, now).actions);
    }
  }

  lemma {:induction false} TimerSends(l: Link, now: nat)
    ensures var e := l.RunTimers(now);
            && l.actions <= e.actions && e.queue == l.queue && e.fcb == l.fcb
            && e.role == l.role && e.config == l.config
            && Frames(e.actions[|l.actions|..]) ==
               (if l.Expired(now) && !l.Exhausted() then [l.pending.value.frame] else [])
            && Errors(e.actions[|l.actions|..]) == (if l.Expired(now) && l.Exhausted() then [AckTimeout] else [])
            && Deliveries(e.actions[|l.actions|..]) == []
  {
    hide Frames, Deliveries, Errors, Link.Exhausted;
    var tail := if !l.Expired(now) then []
                else if !l.Exhausted() then [SendFrame(l.pending.value.frame)]
                else (if l.state == Failed then [] else [LinkStateChanged(Failed)]) + [LinkError(AckTimeout)];
    assert l.RunTimers(now).actions == l.actions + tail;
    assert l.RunTimers(now).actions[|l.actions|..] == tail;
    Short(tail);
  }

  lemma {:induction false} BegunKept(exchanges: seq<seq<Frame>>, l: Link, d: Link, now: nat)
    requires ExchangeInv(exchanges, l) && Opens(l, d, now)
    ensures ExchangeInv(Grouped(exchanges, Frames(d.actions), []), d)
  {
    hide Frames, Errors;
    var begun := Frames(d.actions);
    if begun != [] { assert Uniform(begun, l.config.maxRetries + 1); }
  }

  lemma {:induction false} RepeatKept(exchanges: seq<seq<Frame>>, d: Link, now: nat)
    requires ExchangeInv(exchanges, d) && d.config.maxRetries <= 254 && d.Expired(now) && !d.Exhausted()
    ensures ExchangeInv(Grouped(exchanges, [], [d.pending.value.frame]), d.Retransmit(now))
  {
    var n := |exchanges| - 1;
    var last := exchanges[n] + [d.pending.value.frame];
    assert Uniform(exchanges[n], d.config.maxRetries + 1);
    assert Uniform(last, d.config.maxRetries + 1);
  }

  /** Grouping keeps every block uniform and the last one in step with the pending exchange. */
  lemma {:induction false} GroupKept(exchanges: seq<seq<Frame>>, l: Link, d: Link, now: nat)
    requires ExchangeInv(exchanges, l) && Opens(l, d, now) && d.config.maxRetries <= 254
    ensures var e := d.RunTimers(now);
            ExchangeInv(Grouped(exchanges, Frames(d.actions), Frames(e.actions[|d.actions|..])), e)
  {
    hide Frames, Errors, Link.Retransmit, Uniform;
    TimerSends(d, now);
    BegunKept(exchanges, l, d, now);
    if d.Expired(now) && !d.Exhausted() {
      RepeatKept(Grouped(exchanges, Frames(d.actions), []), d, now);
    }
  }

  lemma {:induction false} QueueKept(s: Station, t: Station, news: seq<Bytes>)
    requires QueueInv(s) && t.submitted == s.submitted + news
    requires var q := s.link.queue + news;
             || (t.link.queue == q && t.link.fcb == s.link.fcb)
             || (q != [] && t.link.queue == q[1..] && t.link.fcb == !s.link.fcb)
    ensures QueueInv(t)
  {
    var n := Started(s);
    assert (s.submitted + news)[n..] == s.link.queue + news;
    if s.link.queue + news != [] { assert (s.submitted + news)[n + 1..] == (s.link.queue + news)[1..]; }
    assert Odd(n + 1) == !Odd(n);
  }

  lemma {:induction false} AlternatingKept(l: Link, d: Link, submitted: seq<Bytes>, news: seq<Bytes>, n: nat)
    requires n <= |submitted| && d.config == l.config
    ensures Alternating(d, submitted + news, n) == Alternating(l, submitted, n)
  {
    hide EncodePrimary;
    if n > 0 { AlternatingKept(l, d, submitted, news, n - 1); }
  }

  lemma {:induction false} OneMoreExchange(exchanges: seq<seq<Frame>>, b: seq<Frame>)
    ensures UserFrames(exchanges + [b]) == UserFrames(exchanges) + UserFrame(b)
  {
    assert (exchanges + [b])[..|exchanges|] == exchanges;
  }

  /** Repeating the last exchange opens none. */
  lemma {:induction false} GroupedFrames(exchanges: seq<seq<Frame>>, begun: seq<Frame>, repeated: seq<Frame>)
    requires |begun| <= 1 && forall i :: 0 <= i < |exchanges| ==> exchanges[i] != []
    ensures UserFrames(Grouped(exchanges, begun, repeated)) == UserFrames(exchanges) + UserFrame(begun)
  {
    hide UserFrames;
    var e := if begun == [] then exchanges else exchanges + [begun];
    OneMoreExchange(exchanges, begun);
    assert UserFrames(exchanges) + [] == UserFrames(exchanges);
    if repeated != [] && e != [] {
      var n := |e| - 1;
      assert e == e[..n] + [e[n]] && e[n := e[n] + repeated] == e[..n] + [e[n] + repeated];
      OneMoreExchange(e[..n], e[n]);
      OneMoreExchange(e[..n], e[n] + repeated);
    }
  }

  /** Every user-data exchange opens with the next submitted ASDU and the next bit. */
  lemma {:induction false} UserKept(s: Station, input: Input, now: nat)
    requires Inv(s)
    ensures UserInv(Step(s, input, now))
  {
    hide Link.Dispatch, Link.RunTimers, Frames, Deliveries, Errors, Grouped, UserFrames, Alternating, EncodePrimary;
    var d, t := s.link.Dispatch(input, now), Step(s, input, now);
    var news := if input.SendUserData? then [input.asdu] else [];
    DispatchOpens(s.link, input, now);
    DispatchQueue(s.link, input, now);
    TimerSends(d, now);
    NoneEmpty(s);
    GroupedFrames(s.exchanges, Frames(d.actions), Frames(d.RunTimers(now).actions[|d.actions|..]));
    AlternatingKept(s.link, t.link, s.submitted, news, Started(s));
    assert t.submitted == s.submitted + news;
    if Started(t) != Started(s) {
      NextAlternating(t.link, t.submitted, Started(t));
      assert t.submitted[Started(s)..] == s.link.queue + news;
    }
  }

  lemma NoneEmpty(s: Station)
    requires ExchangeInv(s.exchanges, s.link)
    ensures forall i :: 0 <= i < |s.exchanges| ==> s.exchanges[i] != []
  {
    assert forall i :: 0 <= i < |s.exchanges| ==> Uniform(s.exchanges[i], s.link.config.maxRetries + 1);
  }

  lemma NextAlternating(l: Link, submitted: seq<Bytes>, n: nat)
    requires 1 <= n <= |submitted|
    ensures Alternating(l, submitted, n) ==
            Alternating(l, submitted, n - 1) + [l.DataFrame(Odd(n - 1), submitted[n - 1])]
  {
  }

  lemma {:induction false} StepInv(s: Station, input: Input, now: nat)
    requires Inv(s) && s.link.config.maxRetries <= 254
    ensures Inv(Step(s, input, now)) && Step(s, input, now).link.config == s.link.config
  {
    hide Link.Dispatch, Frames, Deliveries, Errors, Link.RunTimers, Grouped, QueueInv, ExchangeInv, UserInv;
    var d := s.link.Dispatch(input, now);
    DispatchOpens(s.link, input, now);
    DispatchQueue(s.link, input, now);
    TimerSends(d, now);
    GroupKept(s.exchanges, s.link, d, now);
    QueueKept(s, Step(s, input, now), if input.SendUserData? then [input.asdu] else []);
    ExchangeIgnoresActions(Step(s, input, now).exchanges, d.RunTimers(now));
    UserKept(s, input, now);
  }

  lemma ExchangeIgnoresActions(exchanges: seq<seq<Frame>>, l: Link)
    requires ExchangeInv(exchanges, l)
    ensures ExchangeInv(exchanges, l.(actions := []))
  {
  }

  lemma {:induction false} AlwaysInv(config: Config, calls: seq<Call>)
    requires config.maxRetries <= 254
    ensures var s := History(Master, config, calls); Inv(s) && s.link.config == config
  {
    if calls != [] {
      hide Inv, Step;
      var c := calls[|calls| - 1];
      AlwaysInv(config, calls[..|calls| - 1]);
      StepInv(History(Master, config, calls[..|calls| - 1]), c.input, c.now);
    }
  }

  /**
   * With at most 254 retries, in every history of a master each exchange is one frame sent at
   * most maxRetries + 1 times. The frames that open user-data exchanges carry the submitted ASDUs
   * in order, each once, with alternating bits; what is left of them waits in the queue, and the
   * next bit is the parity of the exchanges started.
   */
  lemma {:induction false} RetriesBounded(config: Config, calls: seq<Call>)
    requires config.maxRetries <= 254
    ensures var s := History(Master, config, calls);
            && (forall i :: 0 <= i < |s.exchanges| ==> Uniform(s.exchanges[i], config.maxRetries + 1))
            && 0 <= Started(s) <= |s.submitted| && s.link.queue == s.submitted[Started(s)..]
            && UserFrames(s.exchanges) == Alternating(s.link, s.submitted, Started(s))
            && s.link.fcb == Odd(Started(s))
  {
    AlwaysInv(config, calls);
    hide History, UserFrames, Alternating;
  }

  /** From `s` to `t` the last exchange was sent once more, or given up after `limit` transmissions. */
  ghost predicate RepeatedOrGivenUp(s: Station, t: Station, limit: nat) {
    s.exchanges != [] &&
    var n := |s.exchanges| - 1;
    var last := s.exchanges[n];
    && last != []
    && (if |last| < limit
        then t.errors == s.errors && t.exchanges == s.exchanges[n := last + [last[0]]]
        else t.errors == s.errors + [AckTimeout] && t.exchanges == s.exchanges
             && t.link.state == Failed && t.link.pending.None?)
  }

  lemma {:induction false} ExpiredTick(s: Station, now: nat)
    requires Inv(s) && s.link.config.maxRetries <= 254 && s.link.Expired(now)
    ensures RepeatedOrGivenUp(s, Step(s, Tick, now), s.link.config.maxRetries + 1)
  {
    hide Frames, Errors, Deliveries, QueueInv, UserInv;
    var e := s.link.RunTimers(now);
    TimerSends(s.link, now);
    Short([]);
    assert e.actions[0..] == e.actions;
    assert s.errors + [] == s.errors;
    assert Uniform(s.exchanges[|s.exchanges| - 1], s.link.config.maxRetries + 1);
  }

  /**
   * What an expired exchange does next: below the limit the same frame once more, at the limit
   * the link fails with AckTimeout and the exchange is dropped.
   */
  lemma {:induction false} ExpiryOutcome(config: Config, calls: seq<Call>, now: nat)
    requires config.maxRetries <= 254 && History(Master, config, calls).link.Expired(now)
    ensures var s := History(Master, config, calls);
            RepeatedOrGivenUp(s, Step(s, Tick, now), config.maxRetries + 1)
  {
    hide Step, RepeatedOrGivenUp, Inv;
    AlwaysInv(config, calls);
    ExpiredTick(History(Master, config, calls), now);
  }

  /** A limit of 255 retries is never reached: the attempt counter, a u8, does not exceed it. */
  lemma {:induction false} Limit255NeverGivesUp(l: Link, input: Input, now: nat)
    requires l.role == Master && l.actions == [] && l.config.maxRetries == 255
    ensures AckTimeout !in Errors(l.Handle(input, now).actions)
  {
    hide Frames, Deliveries, Errors, Link.RunTimers;
    var d := l.Dispatch(input, now);
    DispatchOpens(l, input, now);
    TimerSends(d, now);
    var e := d.RunTimers(now);
    assert e.actions == d.actions + e.actions[|d.actions|..];
    ErrorsAppend(d.actions, e.actions[|d.actions|..]);
  }

  lemma {:induction false} ErrorsAppend(a: seq<Action>, b: seq<Action>)
    ensures Errors(a + b) == Errors(a) + Errors(b)
    ensures Deliveries(a + b) == Deliveries(a) + Deliveries(b)
    ensures Frames(a + b) == Frames(a) + Frames(b)
  {
    hide Frames, Deliveries, Errors;
    if b == [] {
      assert a + b == a;
      Short([]);
    } else {
      var rest, last := b[..|b| - 1], b[|b| - 1];
      ErrorsAppend(a, rest);
      OneMore(a + rest, last);
      OneMore(rest, last);
      assert a + b == (a + rest) + [last] && b == rest + [last];
    }
  }

  /** A master never leaves the failed state. */
  lemma {:induction false} FailedIsFinal(l: Link, input: Input, now: nat)
    requires l.role == Master && l.state == Failed
    ensures l.Handle(input, now).state == Failed
  {
    hide EncodePrimary, DecodeSecondary;
  }

  /** An outstation never waits for an answer, so its timer never sends and it never fails. */
  lemma {:induction false} OutstationNeverWaits(config: Config, calls: seq<Call>)
    ensures var s := History(Outstation, config, calls);
            s.link.role == Outstation && s.link.pending.None? && s.link.state != Failed && s.link.config == config
            && s.link.actions == []
  {
    if calls != [] {
      OutstationNeverWaits(config, calls[..|calls| - 1]);
      var s, c := History(Outstation, config, calls[..|calls| - 1]), calls[|calls| - 1];
      OutstationCall(s.link, c.input, c.now);
      hide Link.Dispatch, Link.RunTimers, Frames, Deliveries, Errors, Grouped;
    }
  }

  lemma {:induction false} OutstationCall(l: Link, input: Input, now: nat)
    requires l.role == Outstation && l.pending.None?
    ensures var d := l.Handle(input, now);
            && d == l.Dispatch(input, now) && d.role == Outstation && d.pending.None? && d.config == l.config
            && (l.state != Failed ==> d.state != Failed)
  {
    hide EncodeSecondary, DecodePrimary, Link.MasterOnFrame, Link.FlushQueue, Link.OutstationOnFixed,
         Link.OutstationOnVariable;
    if input.FrameReceived? && !input.frame.Single? && DecodePrimary(input.frame.control).Some? {
      FunctionCall(l, DecodePrimary(input.frame.control).value, if input.frame.Variable? then input.frame.asdu else []);
    }
  }

  lemma {:induction false} FunctionCall(l: Link, p: Primary, asdu: Bytes)
    requires l.role == Outstation && l.pending.None?
    ensures var d := l.OutstationOnFixed(p);
            d.role == Outstation && d.pending.None? && d.config == l.config && (l.state != Failed ==> d.state != Failed)
    ensures var d := l.OutstationOnVariable(p, asdu);
            d.role == Outstation && d.pending.None? && d.config == l.config && (l.state != Failed ==> d.state != Failed)
  {
    hide EncodeSecondary;
  }
}
