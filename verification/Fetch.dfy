/**
 * A file fetched end to end: the service of the client and the service of the server, joined by one
 * 104 connection that keeps the order of messages and dies on the first ASDU it cannot encode.
 */
module Fetch {
  import opened Checksum
  import opened Common
  import opened FileCodec
  import opened FileSession
  import opened FileService

  /** What of `ms` gets through before an ASDU is too long for the connection. */
  function Through(ms: seq<Message>): seq<Message> {
    if ms == [] || !Fits(ms[0]) then [] else [OnWire(ms[0])] + Through(ms[1..])
  }

  /** Each direction is the list of messages it ever carried and how many of them were read. */
  datatype Net = Net(client: Desk, server: Desk, toServer: seq<Message>, readByServer: nat,
                     toClient: seq<Message>, readByClient: nat, broken: bool)

  ghost predicate Wf(n: Net) { Clean(n.client) && Clean(n.server) }

  datatype Event = ServerReceives(now: nat) | ClientReceives(now: nat) | ServerTicks(now: nat) | ClientTicks(now: nat)

  function Carried(channel: seq<Message>, broken: bool, ms: seq<Message>): seq<Message> {
    if broken then channel else channel + Through(ms)
  }

  predicate Breaks(broken: bool, ms: seq<Message>) { broken || |Through(ms)| < |ms| }

  function Blank(x: Desk): Desk { x.(sent := []) }

  /** The idle timer of the session would fire. */
  predicate TimesOut(x: Desk, now: nat) {
    && x.active.Some? && x.active.value.session.lastProgress.Some?
    && Elapsed(now, x.active.value.session.lastProgress.value) >= x.active.value.session.config.idleTimeout
  }

  predicate Enabled(n: Net, e: Event) {
    match e
    case ServerReceives(_) => n.readByServer < |n.toServer|
    case ClientReceives(_) => n.readByClient < |n.toClient|
    case ServerTicks(now) => !TimesOut(n.server, now)
    case ClientTicks(now) => !TimesOut(n.client, now)
  }

  /** One event; one that is not enabled changes nothing. `cp` and `sp` are the two providers. */
  ghost function Apply(n: Net, e: Event, cp: Provider, sp: Provider): (r: Net)
    requires Wf(n)
    ensures Wf(r)
  {
    if !Enabled(n, e) then n else
    match e
    case ServerReceives(now) =>
      var x := Incoming(n.server, n.toServer[n.readByServer], sp, now);
      n.(server := Blank(x), readByServer := n.readByServer + 1,
         toClient := Carried(n.toClient, n.broken, x.sent), broken := Breaks(n.broken, x.sent))
    case ClientReceives(now) =>
      var x := Incoming(n.client, n.toClient[n.readByClient], cp, now);
      n.(client := Blank(x), readByClient := n.readByClient + 1,
         toServer := Carried(n.toServer, n.broken, x.sent), broken := Breaks(n.broken, x.sent))
    case ServerTicks(now) =>
      var x := TickDesk(n.server, now);
      n.(server := Blank(x), toClient := Carried(n.toClient, n.broken, x.sent), broken := Breaks(n.broken, x.sent))
    case ClientTicks(now) =>
      var x := TickDesk(n.client, now);
      n.(client := Blank(x), toServer := Carried(n.toServer, n.broken, x.sent), broken := Breaks(n.broken, x.sent))
  }

  /** The client asks for file `nof`. */
  ghost function Begin(nof: u16, cp: Provider, now: nat): (r: Net)
    ensures Wf(r)
  {
    var x := FileService.Fetch(Desk(None, [], []), nof, cp, now);
    Net(Blank(x), Desk(None, [], []), Carried([], false, x.sent), 0, [], 0, Breaks(false, x.sent))
  }

  ghost function Run(nof: u16, cp: Provider, sp: Provider, start: nat, events: seq<Event>): (r: Net)
    ensures Wf(r)
  {
    if events == [] then Begin(nof, cp, start) else
      Apply(Run(nof, cp, sp, start, events[..|events| - 1]), events[|events| - 1], cp, sp)
  }

  // ------------------------------------------------------------------
  // The dialogue
  // ------------------------------------------------------------------

  datatype Setting = Setting(nof: u16, cp: Provider, sp: Provider)
  {
    predicate Ok() {
      && sp.file.Some? && !sp.full && cp.config.idleTimeout > 0 && sp.config.idleTimeout > 0
    }

    function File(): File
      requires Ok()
    {
      sp.file.value
    }

    function Chunks(): seq<Bytes>
      requires Ok()
    {
      UntilEnd(File().chunks)
    }

    function Octets(): Bytes
      requires Ok()
    {
      Concat(Chunks())
    }

    /** What the server sends on request: the section, its segments, the closing checksum. */
    function Transfer(): seq<Message>
      requires Ok()
    {
      [SectionReady(nof, 1, File().length, false)] + Segments(nof, Chunks()) + [LastSection(nof, 1, Fold(0, Octets()))]
    }

    function ServerTalk(): seq<Message>
      requires Ok()
    {
      [FileReady(nof, File().length % 0x100_0000, false)] + Through(Transfer())
    }

    function ClientTalk(): seq<Message> {
      [SelectCall(nof, 0, SelectFile), SelectCall(nof, 0, RequestFile), AckFile(nof, 1, PositiveFile)]
    }
  }

  ghost predicate ClientAt(z: Setting, x: Desk, state: State) {
    && x.active.Some? && x.active.value.reader.None? && x.active.value.writer.Some? && x.sent == [] && x.finished == []
    && var s := x.active.value.session;
       s.role == Receiver && s.nof == z.nof && s.config == z.cp.config && s.state == state && s.actions == []
  }

  /** The client has stored and tallied the first `j` chunks. */
  ghost predicate Collected(z: Setting, x: Desk, j: int)
    requires z.Ok()
  {
    && ClientAt(z, x, RxReceivingSegments) && 0 <= j <= |z.Chunks()|
    && var got := Concat(z.Chunks()[..j]);
       x.active.value.writer == Some(got) && x.active.value.session.checksum == Fold(0, got)
       && x.active.value.session.bytes == Min(|got|, MAX_U32)
  }

  ghost predicate ClientDone(z: Setting, x: Desk)
    requires z.Ok()
  {
    x == Desk(None, [], [Finished(Complete(Min(|z.Octets()|, MAX_U32)), Some(z.Octets()))])
  }

  /** The client after reading `b` of the server's messages. */
  ghost predicate ClientAfter(z: Setting, x: Desk, b: int)
    requires z.Ok()
  {
    if b == 0 then ClientAt(z, x, RxAwaitFileReady) && x.active.value.writer == Some([])
    else if b == 1 then ClientAt(z, x, RxAwaitSectionReady) && x.active.value.writer == Some([])
    else if b == |z.Chunks()| + 3 then ClientDone(z, x)
    else Collected(z, x, b - 2)
  }

  ghost predicate ServerAt(z: Setting, x: Desk, state: State) {
    && x.active.Some? && x.active.value.reader.Some? && x.active.value.writer.None? && x.sent == [] && x.finished == []
    && var s := x.active.value.session;
       s.role == Sender && s.nof == z.nof && s.config == z.sp.config && s.state == state && s.actions == []
  }

  /** The server after reading `a` of the client's messages. */
  ghost predicate ServerAfter(z: Setting, x: Desk, a: int)
    requires z.Ok()
  {
    if a == 0 then x == Desk(None, [], [])
    else if a == 1 then
      && ServerAt(z, x, TxAwaitRequest) && x.active.value.reader == Some(z.File().chunks)
      && x.active.value.session.sectionLength == z.File().length && !x.active.value.session.awaitingProvider
    else if a == 2 then ServerAt(z, x, TxAwaitAck) && x.active.value.session.bytes == CountAll(0, z.Chunks())
    else x == Desk(None, [], [Finished(Complete(CountAll(0, z.Chunks())), None)])
  }

  /** Who may have read how much: the client's next message answers what it has read so far. */
  function Asked(z: Setting, b: int): int
    requires z.Ok()
  {
    if b == 0 then 1 else if b == |z.Chunks()| + 3 then 3 else 2
  }

  function Told(z: Setting, a: int): int
    requires z.Ok()
  {
    if a == 0 then 0 else if a == 1 then 1 else |z.ServerTalk()|
  }

  ghost predicate Inv(z: Setting, n: Net)
    requires z.Ok()
  {
    var a, b := n.readByServer, n.readByClient;
    && b <= |z.ServerTalk()| && b <= Told(z, a) && a <= Asked(z, b)
    && ClientAfter(z, n.client, b) && ServerAfter(z, n.server, a)
    && n.toServer == z.ClientTalk()[..Asked(z, b)] && n.toClient == z.ServerTalk()[..Told(z, a)]
    && n.broken == (a >= 2 && |Through(z.Transfer())| < |z.Transfer()|)
  }
}
