/** The file-transfer service object: its session map and its work-queue loop, proved against `FileService`. */
module ServiceObject {
  import opened Common
  import opened FileSession
  import opened FileService

  datatype Key = Key(ca: u16, nof: u16)
  datatype Envelope = Envelope(ca: u16, message: Message)
  datatype Report = Report(key: Key, finished: Finished)

  function Addressed(ca: u16, ms: seq<Message>): seq<Envelope> {
    seq(|ms|, i requires 0 <= i < |ms| => Envelope(ca, ms[i]))
  }

  function Reported(key: Key, fs: seq<Finished>): seq<Report> {
    seq(|fs|, i requires 0 <= i < |fs| => Report(key, fs[i]))
  }

  /** An action does the same to a session whatever was sent and reported before, and adds to that. */
  lemma {:induction false} Accumulates(key: Key, x: Desk, a: Action, now: nat)
    ensures var (y, e) := Perform(x, a, now);
            var (z, f) := Perform(Desk(x.active, [], []), a, now);
            && y.active == z.active && e == f
            && Addressed(key.ca, y.sent) == Addressed(key.ca, x.sent) + Addressed(key.ca, z.sent)
            && Reported(key, y.finished) == Reported(key, x.finished) + Reported(key, z.finished)
  {
    hide Session.Step;
  }

  class Service {
    const config: Config
    const maxConcurrentSessions: nat
    const maxInboundFileBytes: u32
    const files: map<u16, File>
    const writable: set<u16>
    var sessions: map<Key, Active>
    var wire: seq<Envelope>
    var reports: seq<Report>

    ghost predicate Valid()
      reads this
    {
      forall key :: key in sessions ==> sessions[key].session.actions == []
    }

    function Find(key: Key): Option<Active>
      reads this
    {
      if key in sessions then Some(sessions[key]) else None
    }

    /** The desk of one session, its messages and reports counted from this call on. */
    ghost function Fresh(key: Key): Desk
      reads this
    {
      Desk(Find(key), [], [])
    }

    function Offer(key: Key): Provider
      reads this
    {
      Provider(config, if key.nof in files then Some(files[key.nof]) else None, key.nof in writable,
               maxInboundFileBytes, |sessions| >= maxConcurrentSessions)
    }

    /** From the old state to the new, `x` is what happened to the session under `key`, and to no other. */
    twostate predicate Happened(key: Key, x: Desk)
      reads this
    {
      && Valid() && Find(key) == x.active
      && (forall k :: k != key ==> Find(k) == old(Find(k)))
      && wire == old(wire) + Addressed(key.ca, x.sent) && reports == old(reports) + Reported(key, x.finished)
    }

    constructor (config: Config, maxConcurrentSessions: nat, maxInboundFileBytes: u32, files: map<u16, File>,
                 writable: set<u16>)
      ensures Valid() && sessions == map[] && wire == [] && reports == []
    {
      this.config, this.files, this.writable := config, files, writable;
      this.maxConcurrentSessions, this.maxInboundFileBytes := maxConcurrentSessions, maxInboundFileBytes;
      sessions, wire, reports := map[], [], [];
    }

    method ApplyActions(key: Key, actions: seq<Action>, now: nat)
      requires Valid()
      modifies this
      ensures Happened(key, Drain(old(Fresh(key)), actions, now))
    {
      hide Requests, Perform;
      var queue := actions;
      ghost var x := Fresh(key);
      while queue != []
        invariant Valid() && x.active == Find(key) && Clean(x)
        invariant Drain(x, queue, now) == Drain(old(Fresh(key)), actions, now)
        invariant forall k :: k != key ==> Find(k) == old(Find(k))
        invariant wire == old(wire) + Addressed(key.ca, x.sent) && reports == old(reports) + Reported(key, x.finished)
        decreases Reads(x), Requests(queue), |queue|
      {
        Shrinks(x, queue, now);
        Accumulates(key, x, queue[0], now);
        ghost var y := Perform(x, queue[0], now).0;
        var extra := PerformAction(key, queue[0], now);
        queue := queue[1..] + extra;
        x := y;
      }
    }

    method PerformAction(key: Key, action: Action, now: nat) returns (extra: seq<Action>)
      requires Valid()
      modifies this
      ensures Happened(key, Perform(old(Fresh(key)), action, now).0)
      ensures extra == Perform(old(Fresh(key)), action, now).1
    {
      hide Session.Step;
      extra := [];
      match action {
        case Send(m) => SendMessage(key.ca, m);
        case RequestNextSegment(_) => extra := PumpReader(key, now);
        case DeliverSegment(data) => StoreSegment(key, data);
        case Complete(_) => FinalizeSession(key, action);
        case Fail(_) => FinalizeSession(key, action);
      }
    }

    method SendMessage(ca: u16, m: Message)
      modifies this`wire
      ensures wire == old(wire) + [Envelope(ca, m)]
    {
      wire := wire + [Envelope(ca, m)];
    }

    method PumpReader(key: Key, now: nat) returns (extra: seq<Action>)
      requires Valid()
      modifies this`sessions
      ensures Valid() && (forall k :: k != key ==> Find(k) == old(Find(k)))
      ensures var (y, more) := Pump(old(Fresh(key)), now); Find(key) == y.active && extra == more
    {
      if key !in sessions || sessions[key].reader.None? { return []; }
      var a := sessions[key];
      var d := a.session.Step(SegmentReady(Chunk(a.reader.value)), now);
      sessions := sessions[key := Active(d.(actions := []), Some(Rest(a.reader.value)), a.writer)];
      extra := d.actions;
    }

    method StoreSegment(key: Key, data: Bytes)
      requires Valid()
      modifies this`sessions
      ensures Valid() && (forall k :: k != key ==> Find(k) == old(Find(k)))
      ensures Find(key) == Store(old(Fresh(key)), data).active
    {
      if key in sessions && sessions[key].writer.Some? {
        var a := sessions[key];
        sessions := sessions[key := a.(writer := Some(a.writer.value + data))];
      }
    }

    method FinalizeSession(key: Key, outcome: Action)
      requires Valid()
      modifies this`sessions, this`reports
      ensures Valid() && (forall k :: k != key ==> Find(k) == old(Find(k)))
      ensures var y := Finalize(old(Fresh(key)), outcome);
              Find(key) == y.active && reports == old(reports) + Reported(key, y.finished)
    {
      if key !in sessions { return; }
      reports := reports + [Report(key, Finished(outcome, sessions[key].writer))];
      sessions := sessions - {key};
    }

    method OnIncoming(ca: u16, m: Message, now: nat)
      requires Valid()
      modifies this
      ensures Happened(Key(ca, m.nof), Incoming(old(Fresh(Key(ca, m.nof))), m, old(Offer(Key(ca, m.nof))), now))
    {
      var key := Key(ca, m.nof);
      if key !in sessions {
        if |sessions| >= maxConcurrentSessions { return; }
        match m {
          case FileReady(nof, lof, _) =>
            if lof > maxInboundFileBytes || nof !in writable { return; }
            sessions := sessions[key := Active(New(Receiver, nof, config), None, Some([]))];
          case SelectCall(nof, _, _) =>
            if nof !in files { return; }
            var session := New(Sender, nof, config).Step(Start(files[nof].length), now).(actions := []);
            sessions := sessions[key := Active(session, Some(files[nof].chunks), None)];
          case _ => return;
        }
      }
      var a := sessions[key];
      var d := a.session.Step(Received(m), now);
      sessions := sessions[key := a.(session := d.(actions := []))];
      ApplyActions(key, d.actions, now);
    }
  }
}
