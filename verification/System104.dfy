/**
 * A client and a server joined by two lossless FIFO channels (one TCP connection).
 * What is in flight towards a station is the part of the peer's messages it has not
 * read yet, so a channel is a read position in the peer's message history.
 */
module System104 {
  import opened Common
  import opened Conn104
  import opened Effect104
  import opened Framing104
  import opened Reply104
  import opened Station104

  datatype Side = AtClient | AtServer

  datatype System = System(client: Station, server: Station, clientRead: nat, serverRead: nat) {
    function At(side: Side): Station { if side == AtClient then client else server }

    function Read(side: Side): nat { if side == AtClient then clientRead else serverRead }

    function Peer(side: Side): Station { if side == AtClient then server else client }

    function PeerRead(side: Side): nat { if side == AtClient then serverRead else clientRead }

    function With(side: Side, s: Station, read: nat): System {
      if side == AtClient then System(s, server, read, serverRead) else System(client, s, clientRead, read)
    }

    /** The driver of a station stops at its first disconnect, and at a frame it cannot encode. */
    predicate Running(side: Side) { At(side).closed == [] && Encodable(At(side).msgs) }
  }

  predicate Encodable(msgs: seq<Apdu>) { forall j :: 0 <= j < |msgs| ==> Encode(msgs[j]).Some? }

  /** Either the next message of the peer arrives at `side`, or its user or its clock acts. */
  datatype Event = Arrive(side: Side, now: nat) | Local(side: Side, input: Input, now: nat)

  /** Whether an event can happen: its driver runs, and an arrival finds a message that was encoded. */
  predicate Moves(y: System, e: Event) {
    && y.Running(e.side)
    && (if e.Arrive? then y.Read(e.side) < |y.Peer(e.side).msgs| && Encode(y.Peer(e.side).msgs[y.Read(e.side)]).Some?
        else !e.input.Receive?)
  }

  function InputOf(y: System, e: Event): Input
    requires Moves(y, e)
  {
    if e.Arrive? then Receive(y.Peer(e.side).msgs[y.Read(e.side)]) else e.input
  }

  /** An event that cannot happen changes nothing. */
  function Apply(y: System, e: Event): System {
    if !Moves(y, e) then y else
      y.With(e.side, Step(y.At(e.side), InputOf(y, e), e.now), y.Read(e.side) + (if e.Arrive? then 1 else 0))
  }

  function Start(clientConfig: Config, serverConfig: Config): System {
    System(Init(Client, clientConfig), Init(Server, serverConfig), 0, 0)
  }

  /** Every interleaving of the two stations is a run over some list of events. */
  function Run(clientConfig: Config, serverConfig: Config, events: seq<Event>): System {
    if events == [] then Start(clientConfig, serverConfig) else
      Apply(Run(clientConfig, serverConfig, events[..|events| - 1]), events[|events| - 1])
  }

  // ------------------------------------------------------------------
  // In order, exactly once
  // ------------------------------------------------------------------

  /** `a`, having read `r` messages of `b`, delivered what those messages carried. */
  ghost predicate Follows(a: Station, b: Station, r: nat) {
    && r <= |b.msgs|
    && a.delivered <= Carried(b.msgs)
    && (a.closed == [] ==> a.delivered == Carried(b.msgs[..r]))
  }

  ghost predicate DataInv(y: System) {
    && Inv(y.client) && Inv(y.server)
    && Follows(y.client, y.server, y.clientRead)
    && Follows(y.server, y.client, y.serverRead)
  }

  /** What a step adds to the histories of a station. */
  lemma {:induction false} Grows(s: Station, input: Input, now: nat)
    requires Inv(s)
    ensures var t := Step(s, input, now);
            && s.msgs <= t.msgs && s.acks <= t.acks && s.submitted <= t.submitted && s.closed <= t.closed
            && t.delivered == s.delivered + DeliveredBy(s.conn, input)
            && t.conn.config == s.conn.config && t.conn.role == s.conn.role
  {
    hide Conn.Handle, Sends, Carried, Deliveries, Reasons, Window, DeliveredBy, AckedBy, NumberedFrom, AnyNumbered,
         AllAcknowledge, LastAck, AcksFit, Contiguous, Fresh;
    HandleStep(s.conn, input, now);
  }

  lemma {:induction false} ReaderKept(a: Station, b: Station, r: nat, now: nat)
    requires Inv(a) && Inv(b) && Follows(a, b, r) && a.closed == [] && r < |b.msgs|
    ensures Follows(Step(a, Receive(b.msgs[r]), now), b, r + 1)
  {
    hide Step, Carried, Window, NumberedFrom, LastAck, AcksFit, Contiguous, ReceiveSide, Conn.Handle, Shape, Reasons;
    var m := b.msgs[r];
    Grows(a, Receive(m), now);
    CarriedPrefix(b.msgs, r);
    CarriedPrefix(b.msgs, r + 1);
    if m.I? && !a.conn.Accepts(m.send) {
      CallShape(a.conn, Receive(m), now);
      StepCloses(a, Receive(m), now);
    }
  }

  lemma StepCloses(s: Station, input: Input, now: nat)
    ensures Step(s, input, now).closed == s.closed + Reasons(s.conn.Handle(input, now).actions)
  {
  }

  lemma {:induction false} LocalKept(a: Station, b: Station, r: nat, input: Input, now: nat)
    requires Inv(a) && Follows(a, b, r) && !input.Receive?
    ensures Follows(Step(a, input, now), b, r)
  {
    hide Step, Carried, Inv;
    Grows(a, input, now);
    assert a.delivered + [] == a.delivered;
  }

  /** A station that sends more leaves its reader consistent. */
  lemma {:induction false} WriterKept(a: Station, b: Station, r: nat, input: Input, now: nat)
    requires Inv(b) && Follows(a, b, r)
    ensures Follows(a, Step(b, input, now), r)
  {
    hide Step, Carried, Inv;
    Grows(b, input, now);
    var b' := Step(b, input, now);
    CarriedPrefix(b'.msgs, |b.msgs|);
    assert b'.msgs[..|b.msgs|] == b.msgs;
    assert b'.msgs[..r] == b.msgs[..r];
  }

  lemma {:induction false} DataStep(y: System, e: Event)
    requires DataInv(y)
    ensures DataInv(Apply(y, e))
  {
    hide Step, Inv, Follows;
    var s, p, r := y.At(e.side), y.Peer(e.side), y.Read(e.side);
    if Moves(y, e) {
      var input := InputOf(y, e);
      if e.Arrive? { ReaderKept(s, p, r, e.now); } else { LocalKept(s, p, r, input, e.now); }
      WriterKept(p, s, y.PeerRead(e.side), input, e.now);
      StepInv(s, input, e.now);
    }
  }

  lemma {:induction false} AlwaysData(cc: Config, sc: Config, events: seq<Event>)
    ensures DataInv(Run(cc, sc, events))
  {
    if events == [] {
      hide Inv;
      InitInv(Client, cc);
      InitInv(Server, sc);
      assert Carried([]) == [];
    } else {
      hide DataInv, Apply;
      AlwaysData(cc, sc, events[..|events| - 1]);
      DataStep(Run(cc, sc, events[..|events| - 1]), events[|events| - 1]);
    }
  }

  /**
   * In every interleaving, for every configuration and clock and with any user input on
   * either side, the ASDUs a station delivered are a prefix of what its peer's user
   * submitted: in order, none twice, none skipped.
   */
  lemma {:induction false} InOrderExactlyOnce(cc: Config, sc: Config, events: seq<Event>)
    ensures var y := Run(cc, sc, events);
            y.client.delivered <= y.server.submitted && y.server.delivered <= y.client.submitted
  {
    AlwaysData(cc, sc, events);
    hide Run, Carried, ReceiveSide, Window, Contiguous, NumberedFrom;
  }

  /** How many of `msgs` reach the wire: those before the first that cannot be encoded. */
  function Written(msgs: seq<Apdu>): (n: nat)
    ensures n <= |msgs|
    ensures Encodable(msgs[..n])
    ensures n < |msgs| ==> Encode(msgs[n]).None?
  {
    if msgs == [] then 0 else
      var n := Written(msgs[..|msgs| - 1]);
      if n == |msgs| - 1 && Encode(msgs[n]).Some?
      then assert msgs[..n + 1][..n] == msgs[..n]; n + 1
      else assert msgs[..|msgs| - 1][..n] == msgs[..n]; n
  }

  /** The first `r` messages of `b` were all encoded. */
  ghost predicate Legible(b: Station, r: nat) { r <= |b.msgs| && Encodable(b.msgs[..r]) }

  /** A reader never gets past the first message that was not encoded. */
  ghost predicate ReadInv(y: System) { Legible(y.client, y.serverRead) && Legible(y.server, y.clientRead) }

  lemma {:induction false} LegibleNext(b: Station, r: nat)
    requires Legible(b, r) && r < |b.msgs| && Encode(b.msgs[r]).Some?
    ensures Legible(b, r + 1)
  {
    assert forall j :: 0 <= j < r ==> b.msgs[..r + 1][j] == b.msgs[..r][j];
  }

  lemma {:induction false} LegibleGrows(b: Station, r: nat, input: Input, now: nat)
    requires Legible(b, r) && Inv(b)
    ensures Legible(Step(b, input, now), r)
  {
    hide Step, Inv;
    Grows(b, input, now);
    assert Step(b, input, now).msgs[..r] == b.msgs[..r];
  }

  lemma {:induction false} ReadStep(y: System, e: Event)
    requires DataInv(y) && ReadInv(y)
    ensures ReadInv(Apply(y, e))
  {
    hide Step, Legible, DataInv, Encode;
    if Moves(y, e) {
      BothInv(y, e.side);
      LegibleGrows(y.At(e.side), y.PeerRead(e.side), InputOf(y, e), e.now);
      if e.Arrive? { LegibleNext(y.Peer(e.side), y.Read(e.side)); }
    }
  }

  lemma {:induction false} AlwaysRead(cc: Config, sc: Config, events: seq<Event>)
    ensures ReadInv(Run(cc, sc, events))
  {
    if events != [] {
      hide Apply, DataInv, ReadInv;
      AlwaysRead(cc, sc, events[..|events| - 1]);
      AlwaysData(cc, sc, events[..|events| - 1]);
      ReadStep(Run(cc, sc, events[..|events| - 1]), events[|events| - 1]);
    }
  }

  lemma BothInv(y: System, side: Side)
    requires DataInv(y)
    ensures Inv(y.At(side))
  {
  }

  /**
   * Nothing is lost on the way either. While a station runs, what it delivered, what its peer wrote
   * and it has not read, what its peer could not encode and what still waits there are, in this
   * order, what the peer's user submitted; and everything could be encoded while the peer runs.
   */
  lemma {:induction false} NothingLost(cc: Config, sc: Config, events: seq<Event>, side: Side)
    ensures var y := Run(cc, sc, events);
            var peer, r := y.Peer(side), y.Read(side);
            var n := Written(peer.msgs);
            && r <= n && (Encodable(peer.msgs) <==> n == |peer.msgs|)
            && (y.Running(side) ==>
                  y.At(side).delivered + Carried(peer.msgs[r..n]) + Carried(peer.msgs[n..]) + peer.conn.pending
                  == peer.submitted)
  {
    AlwaysData(cc, sc, events);
    AlwaysRead(cc, sc, events);
    hide Run, Carried, ReceiveSide, Window, Contiguous, NumberedFrom, Encode;
    var y := Run(cc, sc, events);
    var msgs, r := y.Peer(side).msgs, y.Read(side);
    var n := Written(msgs);
    Split(msgs, r, n);
  }

  lemma {:induction false} Split(msgs: seq<Apdu>, r: nat, n: nat)
    requires r <= n <= |msgs|
    ensures Carried(msgs) == Carried(msgs[..r]) + Carried(msgs[r..n]) + Carried(msgs[n..])
  {
    assert msgs == msgs[..n] + msgs[n..] && msgs[..n] == msgs[..r] + msgs[r..n];
    MsgsAppend(msgs[..n], msgs[n..]);
    MsgsAppend(msgs[..r], msgs[r..n]);
  }
}
