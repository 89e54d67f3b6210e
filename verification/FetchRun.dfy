/** Every run of a fetch: it completes with the file's octets, and exactly when every chunk fits an ASDU. */
module FetchRun {
  import opened Checksum
  import opened Common
  import opened FileCodec
  import opened FileSession
  import opened FileService
  import opened Fetch
  import opened FetchSteps

  lemma {:induction false} SmallThrough(ms: seq<Message>)
    requires |ms| <= 1 && forall i :: 0 <= i < |ms| ==> !ms[i].Segment?
    ensures |Through(ms)| == |ms| && (ms != [] && OnWire(ms[0]) == ms[0] ==> Through(ms) == ms)
    ensures ms != [] ==> Through(ms) == [OnWire(ms[0])]
  {
  }

  lemma {:induction false} ServerStep(z: Setting, n: Net, now: nat)
    requires z.Ok() && Wf(n) && Inv(z, n) && Enabled(n, ServerReceives(now))
    ensures Inv(z, Apply(n, ServerReceives(now), z.cp, z.sp))
  {
    hide ClientAfter, ServerAfter, UntilEnd, Concat, Fold, Through, Incoming, Segments, CountAll, Setting.Transfer;
    var a := n.readByServer;
    assert n.toServer[a] == z.ClientTalk()[a];
    if a == 0 {
      NotYet(z, n.server);
      ServerTakesSelect(z, now);
      SmallThrough([FileReady(z.nof, z.File().length, false)]);
      assert z.ServerTalk()[..1] == [FileReady(z.nof, z.File().length % 0x100_0000, false)];
    } else if a == 1 {
      ServerTakesRequest(z, n.server, now);
      ThroughAt(z.Transfer(), 0);
      assert z.ServerTalk()[..1] + Through(z.Transfer()) == z.ServerTalk() == z.ServerTalk()[..|z.ServerTalk()|];
    } else {
      ServerTakesAck(z, n.server, now);
      SmallThrough([]);
      assert n.toClient + [] == n.toClient;
    }
  }

  lemma NotYet(z: Setting, x: Desk)
    requires z.Ok()
    ensures ServerAfter(z, x, 0) ==> x == Desk(None, [], [])
  {
  }

  /** The client reads message `b` of the server's talk: what it sends, and where it stands then. */
  lemma {:induction false} ClientReads(z: Setting, x: Desk, b: int, now: nat)
    requires z.Ok() && Clean(x) && ClientAfter(z, x, b) && 0 <= b < |z.ServerTalk()|
    ensures var y := Incoming(x, z.ServerTalk()[b], z.cp, now);
            && b + 1 <= |z.Chunks()| + 3 && ClientAfter(z, Blank(y), b + 1)
            && y.sent == (if b == 0 then [SelectCall(z.nof, 0, RequestFile)]
                          else if b == |z.Chunks()| + 2 then [AckFile(z.nof, 1, PositiveFile)] else [])
  {
    hide UntilEnd, Concat, Fold, Through, Incoming, Segments, Setting.Transfer, Collected, ClientAt, ClientDone;
    if b == 0 {
      ClientTakesFileReady(z, x, z.File().length % 0x100_0000, now);
    } else {
      WireAt(z, b - 1);
      assert z.ServerTalk()[b] == Through(z.Transfer())[b - 1];
      if b == 1 {
        ClientTakesSectionReady(z, x, z.File().length % 0x100_0000, now);
      } else if b <= |z.Chunks()| + 1 {
        ClientTakesSegment(z, x, b - 2, now);
      } else {
        ClientTakesLast(z, x, now);
      }
    }
  }

  lemma {:induction false} ClientStep(z: Setting, n: Net, now: nat)
    requires z.Ok() && Wf(n) && Inv(z, n) && Enabled(n, ClientReceives(now))
    ensures Inv(z, Apply(n, ClientReceives(now), z.cp, z.sp))
  {
    hide ClientAfter, ServerAfter, UntilEnd, Concat, Fold, Through, Incoming, Segments, CountAll, Setting.Transfer;
    var b := n.readByClient;
    assert n.toClient[b] == z.ServerTalk()[b];
    ClientReads(z, n.client, b, now);
    var y := Incoming(n.client, z.ServerTalk()[b], z.cp, now);
    SmallThrough(y.sent);
    if b == |z.Chunks()| + 2 { AllThrough(z); }
    assert z.ClientTalk()[..1] + [SelectCall(z.nof, 0, RequestFile)] == z.ClientTalk()[..2];
    assert z.ClientTalk()[..2] + [AckFile(z.nof, 1, PositiveFile)] == z.ClientTalk()[..3];
    assert n.toServer + [] == n.toServer;
  }

  /** If the server's talk is complete, nothing was too long. */
  lemma {:induction false} AllThrough(z: Setting)
    requires z.Ok()
    ensures |z.ServerTalk()| <= |z.Chunks()| + 3
    ensures |z.ServerTalk()| == |z.Chunks()| + 3 <==> |Through(z.Transfer())| == |z.Transfer()|
  {
    hide UntilEnd, Concat, Fold, Through;
    ThroughAt(z.Transfer(), 0);
    TransferAt(z, 0);
  }

  lemma {:induction false} TickStep(z: Setting, n: Net, e: Event)
    requires z.Ok() && Wf(n) && Inv(z, n) && Enabled(n, e) && (e.ServerTicks? || e.ClientTicks?)
    ensures Inv(z, Apply(n, e, z.cp, z.sp))
  {
    hide ClientAfter, ServerAfter, UntilEnd, Concat, Fold, Through, Segments, TickDesk, Setting.ServerTalk,
         Setting.Transfer;
    var x := if e.ServerTicks? then n.server else n.client;
    TickKeeps(x, e.now);
    var y := TickDesk(x, e.now);
    ClockOnly(z, x, y, n.readByClient, n.readByServer, e.now);
    SmallThrough([]);
    assert n.toServer + [] == n.toServer && n.toClient + [] == n.toClient;
  }

  /** Where a desk stands does not depend on the idle timer, and between calls it has nothing to send. */
  lemma {:induction false} ClockOnly(z: Setting, x: Desk, y: Desk, b: int, a: int, now: nat)
    requires z.Ok()
    requires TimedAt(x, y, now)
    ensures ClientAfter(z, x, b) ==> ClientAfter(z, Blank(y), b) && y.sent == []
    ensures ServerAfter(z, x, a) ==> ServerAfter(z, Blank(y), a) && y.sent == []
  {
    hide UntilEnd, Concat, Fold, CountAll;
  }

  lemma {:induction false} Always(z: Setting, start: nat, events: seq<Event>)
    requires z.Ok()
    ensures Inv(z, Run(z.nof, z.cp, z.sp, start, events))
  {
    if events == [] {
      Initially(z, start);
    } else {
      hide Inv, Apply;
      var n, e := Run(z.nof, z.cp, z.sp, start, events[..|events| - 1]), events[|events| - 1];
      Always(z, start, events[..|events| - 1]);
      if Enabled(n, e) {
        match e {
          case ServerReceives(now) => ServerStep(z, n, now);
          case ClientReceives(now) => ClientStep(z, n, now);
          case _ => TickStep(z, n, e);
        }
      } else {
        Ignored(z, n, e);
      }
    }
  }

  lemma Ignored(z: Setting, n: Net, e: Event)
    requires Wf(n) && !Enabled(n, e)
    ensures Apply(n, e, z.cp, z.sp) == n
  {
  }

  lemma {:induction false} Initially(z: Setting, start: nat)
    requires z.Ok()
    ensures Inv(z, Begin(z.nof, z.cp, start))
  {
    hide UntilEnd, Concat, Fold, Through, Segments, Setting.Transfer, FileService.Fetch, ClientAfter;
    ClientStarts(z, start);
    SmallThrough([SelectCall(z.nof, 0, SelectFile)]);
    assert z.ClientTalk()[..1] == [SelectCall(z.nof, 0, SelectFile)];
  }

  // ------------------------------------------------------------------
  // The theorems
  // ------------------------------------------------------------------

  /** Every chunk of the file fits an ASDU with its 14 octets around it. */
  ghost predicate AllFit(z: Setting)
    requires z.Ok()
  {
    forall i :: 0 <= i < |z.Chunks()| ==> |z.Chunks()[i]| <= 235
  }

  lemma {:induction false} FitsThrough(z: Setting)
    requires z.Ok()
    ensures AllFit(z) <==> |Through(z.Transfer())| == |z.Transfer()|
  {
    hide UntilEnd, Concat, Fold, Through;
    var t := z.Transfer();
    var k := |Through(t)|;
    ThroughAt(t, 0);
    TransferAt(z, k);
    if !AllFit(z) {
      var i :| 0 <= i < |z.Chunks()| && |z.Chunks()[i]| > 235;
      ThroughAt(t, i + 1);
      TransferAt(z, i + 1);
    }
  }

  lemma {:induction false} CountsOctets(n: nat, chunks: seq<Bytes>)
    requires forall i :: 0 <= i < |chunks| ==> |chunks[i]| <= 235
    ensures CountAll(Min(n, MAX_U32), chunks) == Min(n + |Concat(chunks)|, MAX_U32)
    decreases chunks
  {
    hide Count;
    if chunks != [] {
      CountMore(n, chunks[0]);
      CountsOctets(n + |chunks[0]|, chunks[1..]);
    }
  }

  /** Both sides have completed with the number of octets in the file, and the client has stored them. */
  ghost predicate Done(z: Setting, n: Net)
    requires z.Ok()
  {
    && n.client.finished == [Finished(Complete(Min(|z.Octets()|, MAX_U32)), Some(z.Octets()))]
    && n.server.finished == [Finished(Complete(Min(|z.Octets()|, MAX_U32)), None)]
  }

  /**
   * Over every run without a timeout neither side ever fails: what finishes at all has completed with
   * the octet count of the file, and the client has stored exactly the file. On the wire go, in this
   * order, the answer to the select, the section, its segments and the closing checksum.
   */
  lemma {:induction false} NeverFails(z: Setting, start: nat, events: seq<Event>)
    requires z.Ok()
    ensures var n := Run(z.nof, z.cp, z.sp, start, events);
            && (n.client.finished == []
                || n.client.finished == [Finished(Complete(Min(|z.Octets()|, MAX_U32)), Some(z.Octets()))])
            && (n.server.finished == [] || n.server.finished == [Finished(Complete(Min(|z.Octets()|, MAX_U32)), None)])
            && n.toClient <= z.ServerTalk() && n.toServer <= z.ClientTalk()
            && (n.server.finished != [] ==> Done(z, n))
  {
    hide Run, UntilEnd, Concat, Fold, Through, Segments, Setting.Transfer, CountAll;
    Always(z, start, events);
    var n := Run(z.nof, z.cp, z.sp, start, events);
    AllThrough(z);
    FitsThrough(z);
    if n.readByServer == 3 {
      CountsOctets(0, z.Chunks());
      assert [] + z.Octets() == z.Octets();
    }
  }

  /**
   * When every chunk fits, a run that is not done can go on: one of the services has a message to
   * read. Reading never stops short and never goes on: it is done after exactly |chunks| + 6 messages.
   */
  lemma {:induction false} Completes(z: Setting, start: nat, events: seq<Event>)
    requires z.Ok() && AllFit(z)
    ensures var n := Run(z.nof, z.cp, z.sp, start, events);
            && !n.broken
            && n.readByServer + n.readByClient <= |z.Chunks()| + 6
            && (Done(z, n) <==> n.readByServer + n.readByClient == |z.Chunks()| + 6)
            && (Done(z, n) <==> n.readByServer == |n.toServer| && n.readByClient == |n.toClient|)
  {
    hide Run, UntilEnd, Concat, Fold, Through, Segments, Setting.Transfer, CountAll;
    Always(z, start, events);
    AllThrough(z);
    FitsThrough(z);
    CountsOctets(0, z.Chunks());
    assert [] + z.Octets() == z.Octets();
  }

  /** When a chunk does not fit, the connection breaks on it and neither side ever finishes. */
  lemma {:induction false} NeverCompletes(z: Setting, start: nat, events: seq<Event>)
    requires z.Ok() && !AllFit(z)
    ensures var n := Run(z.nof, z.cp, z.sp, start, events);
            n.client.finished == [] && n.server.finished == [] && (n.readByServer >= 2 ==> n.broken)
  {
    hide Run, UntilEnd, Concat, Fold, Through, Segments, Setting.Transfer, CountAll;
    Always(z, start, events);
    AllThrough(z);
    FitsThrough(z);
    ThroughAt(z.Transfer(), 0);
  }

  /** How a reader that fills every read cuts a file. */
  function Cut(data: Bytes, size: nat): seq<Bytes>
    requires size > 0
    decreases |data|
  {
    if data == [] then [] else if |data| <= size then [data] else [data[..size]] + Cut(data[size..], size)
  }

  lemma {:induction false} OneMoreChunk(c: Bytes, rest: seq<Bytes>)
    requires c != []
    ensures UntilEnd([c] + rest) == [c] + UntilEnd(rest) && Concat([c] + rest) == c + Concat(rest)
  {
    assert ([c] + rest)[1..] == rest;
  }

  lemma {:induction false} CutIsWhole(data: Bytes, size: nat)
    requires size > 0
    ensures UntilEnd(Cut(data, size)) == Cut(data, size) && Concat(Cut(data, size)) == data
    decreases |data|
  {
    if |data| > size {
      hide UntilEnd, Concat;
      CutIsWhole(data[size..], size);
      OneMoreChunk(data[..size], Cut(data[size..], size));
      assert data[..size] + data[size..] == data;
    } else if data != [] {
      OneMoreChunk(data, []);
      assert [data] + [] == [data] && data + [] == data;
    }
  }

  lemma {:induction false} CutSizes(data: Bytes, size: nat, i: int)
    requires size > 0
    ensures data != [] ==> Cut(data, size) != [] && |Cut(data, size)[0]| == Min(|data|, size)
    ensures 0 <= i < |Cut(data, size)| ==> |Cut(data, size)[i]| <= Min(|data|, size)
    decreases |data|
  {
    if |data| > size && i >= 1 { CutSizes(data[size..], size, i - 1); }
  }

  /** The segment size a session asks its provider for. */
  function SegmentSize(c: Config): nat { Max(1, Min(c.maxSegmentBytes, MAX_SEGMENT_BYTES)) }

  /**
   * So a file fetched in segments of the configured size can complete if and only if its first
   * segment has at most 235 octets; with the default size, if and only if the file has.
   */
  lemma {:induction false} WhichFilesFit(z: Setting, data: Bytes)
    requires z.Ok() && z.File().chunks == Cut(data, SegmentSize(z.sp.config))
    ensures z.Octets() == data && (AllFit(z) <==> Min(|data|, SegmentSize(z.sp.config)) <= 235)
    ensures z.sp.config.maxSegmentBytes == DEFAULT_SEGMENT_BYTES ==> (AllFit(z) <==> |data| <= 235)
  {
    hide UntilEnd, Concat, Cut;
    var size := SegmentSize(z.sp.config);
    CutIsWhole(data, size);
    CutSizes(data, size, 0);
    if data == [] { NothingCut(size); } else { assert |z.Chunks()[0]| == Min(|data|, size); }
    forall i | 0 <= i < |z.Chunks()| ensures |z.Chunks()[i]| <= Min(|data|, size) { CutSizes(data, size, i); }
  }

  lemma NothingCut(size: nat)
    requires size > 0
    ensures Cut([], size) == []
  {
  }

  /**
   * A push that reaches a service with no session for it opens a receiver that fails at once: nobody
   * started it, so the F_FR that opened it is a protocol violation.
   */
  lemma {:induction false} UnsolicitedPushFails(nof: u16, lof: u32, negative: bool, p: Provider, now: nat)
    requires !p.full && p.writable && lof <= p.maxInbound
    ensures Incoming(Desk(None, [], []), FileReady(nof, lof, negative), p, now) ==
            Desk(None, [], [Finished(Fail(ProtocolViolation), Some([]))])
  {
    hide Drain;
    var s := New(Receiver, nof, p.config);
    var d := s.Step(Received(FileReady(nof, lof, negative)), now);
    assert d.actions == [Fail(ProtocolViolation)];
    DrainOne(Desk(Some(Active(d.(actions := []), None, Some([]))), [], []), d.actions[0], now);
  }
}
