/** The receive buffer of the 104 driver: frames are taken off its head as they become complete. */
module Drain104 {
  import opened Common
  import opened Conn104
  import opened Framing104

  const MAX_RX_BUFFERED: nat := 4096

  /** Why the driver no longer reads: a malformed frame, the connection ended, or too much is buffered. */
  datatype End = Open | Broken(error: Error) | Ended | Overflow

  /** The APDUs handed to the connection so far, the octets still buffered, and whether reading goes on. */
  datatype Rx = Rx(seen: seq<Apdu>, left: Bytes, end: End)

  /** Take complete frames off the buffer; `keep` says whether the connection goes on after what it has seen. */
  function Drain(x: Rx, keep: seq<Apdu> -> bool): Rx
    decreases |x.left|
  {
    NeedMoreIff(x.left);
    match DecodeSlice(x.left)
    case NeedMore => x
    case Malformed(e) => x.(end := Broken(e))
    case Frame(a, n) =>
      var y := Rx(x.seen + [a], x.left[n..], x.end);
      if keep(y.seen) then Drain(y, keep) else y.(end := Ended)
  }

  /** One read of the driver: the chunk is appended, the buffer drained and what is left is measured. */
  function Read(x: Rx, chunk: Bytes, keep: seq<Apdu> -> bool): Rx {
    if x.end != Open then x else
      var y := Drain(x.(left := x.left + chunk), keep);
      if y.end == Open && |y.left| > MAX_RX_BUFFERED then y.(end := Overflow) else y
  }

  function Start(): Rx { Rx([], [], Open) }

  function ReadAll(chunks: seq<Bytes>, keep: seq<Apdu> -> bool): Rx {
    if chunks == [] then Start() else Read(ReadAll(chunks[..|chunks| - 1], keep), chunks[|chunks| - 1], keep)
  }

  function Concat(chunks: seq<Bytes>): Bytes {
    if chunks == [] then [] else Concat(chunks[..|chunks| - 1]) + chunks[|chunks| - 1]
  }

  // ------------------------------------------------------------------
  // The object
  // ------------------------------------------------------------------

  class Driver {
    const keep: seq<Apdu> -> bool
    var rxBuf: Bytes
    var handled: seq<Apdu>
    var end: End

    ghost function View(): Rx
      reads this
    {
      Rx(handled, rxBuf, end)
    }

    constructor (keep: seq<Apdu> -> bool)
      ensures View() == Start() && this.keep == keep
    {
      this.keep := keep;
      rxBuf, handled, end := [], [], Open;
    }

    method OnRead(chunk: Bytes)
      modifies this
      ensures View() == Read(old(View()), chunk, keep)
    {
      if end != Open { return; }
      rxBuf := rxBuf + chunk;
      ghost var x := View();
      while true
        invariant end == Open && Drain(View(), keep) == Drain(x, keep)
        decreases |rxBuf|
      {
        NeedMoreIff(rxBuf);
        match DecodeSlice(rxBuf) {
          case NeedMore => break;
          case Malformed(e) =>
            end := Broken(e);
            return;
          case Frame(apdu, consumed) =>
            rxBuf := rxBuf[consumed..];
            handled := handled + [apdu];
            if !keep(handled) {
              end := Ended;
              return;
            }
        }
      }
      end := if |rxBuf| > MAX_RX_BUFFERED then Overflow else Open;
    }
  }

  // ------------------------------------------------------------------
  // Chunking does not matter
  // ------------------------------------------------------------------

  /** A drained buffer waits for octets of one frame, unless reading has ended, and not because of its size. */
  lemma {:induction false} DrainEnds(x: Rx, keep: seq<Apdu> -> bool)
    requires x.end == Open
    ensures var y := Drain(x, keep);
            y.end != Overflow && (y.end == Open ==> DecodeSlice(y.left) == NeedMore && |y.left| <= 256)
    decreases |x.left|
  {
    NeedMoreIff(x.left);
    if DecodeSlice(x.left).Frame? {
      var y := Rx(x.seen + [DecodeSlice(x.left).apdu], x.left[DecodeSlice(x.left).consumed..], x.end);
      if keep(y.seen) { DrainEnds(y, keep); }
    }
  }

  /** Octets that arrive later: draining first and reading them then is draining everything at once. */
  lemma {:induction false} DrainLater(x: Rx, more: Bytes, keep: seq<Apdu> -> bool)
    requires x.end == Open
    ensures var y := Drain(x, keep);
            var z := Drain(x.(left := x.left + more), keep);
            if y.end == Open then z == Drain(y.(left := y.left + more), keep)
            else z.seen == y.seen && z.end == y.end
    decreases |x.left|
  {
    NeedMoreIff(x.left);
    match DecodeSlice(x.left) {
      case NeedMore =>
      case Malformed(e) => Stable(x.left, more);
      case Frame(a, n) =>
        hide DecodeSlice;
        Stable(x.left, more);
        var y := Rx(x.seen + [a], x.left[n..], x.end);
        assert (x.left + more)[n..] == x.left[n..] + more;
        if keep(y.seen) { DrainLater(y, more, keep); }
    }
  }

  /**
   * However a stream of octets is cut into reads, the connection is handed the same APDUs and reading
   * ends in the same way; while it goes on, at most 256 octets stay buffered, so the size limit of the
   * buffer is never reached.
   */
  lemma {:induction false} ChunkingIrrelevant(chunks: seq<Bytes>, keep: seq<Apdu> -> bool)
    ensures var x := ReadAll(chunks, keep);
            var whole := Drain(Start().(left := Concat(chunks)), keep);
            && x.seen == whole.seen && x.end == whole.end && x.end != Overflow
            && (x.end == Open ==> x == whole && |x.left| <= 256)
  {
    if chunks == [] {
      assert Start().(left := []) == Start();
    } else {
      hide DecodeSlice, Drain;
      var before, last := chunks[..|chunks| - 1], chunks[|chunks| - 1];
      ChunkingIrrelevant(before, keep);
      var x := Start().(left := Concat(before));
      DrainLater(x, last, keep);
      DrainEnds(x.(left := x.left + last), keep);
    }
  }

  function EncodeAll(apdus: seq<Apdu>): Bytes
    requires forall i :: 0 <= i < |apdus| ==> Encode(apdus[i]).Some?
  {
    if apdus == [] then [] else Encode(apdus[0]).value + EncodeAll(apdus[1..])
  }

  /** The connection goes on after each of `apdus` when it has seen `seen` before them. */
  ghost predicate KeepsAll(seen: seq<Apdu>, apdus: seq<Apdu>, keep: seq<Apdu> -> bool)
    decreases apdus
  {
    apdus != [] ==> keep(seen + [apdus[0]]) && KeepsAll(seen + [apdus[0]], apdus[1..], keep)
  }

  lemma {:induction false} DrainDecodes(x: Rx, apdus: seq<Apdu>, keep: seq<Apdu> -> bool)
    requires x.end == Open && (forall i :: 0 <= i < |apdus| ==> Encode(apdus[i]).Some?) && x.left == EncodeAll(apdus)
    requires KeepsAll(x.seen, apdus, keep)
    ensures Drain(x, keep) == Rx(x.seen + apdus, [], Open)
    decreases |apdus|
  {
    hide Encode, DecodeSlice;
    NeedMoreIff(x.left);
    if apdus == [] {
      assert x.seen + [] == x.seen;
    } else {
      var a, rest := apdus[0], EncodeAll(apdus[1..]);
      var e := Encode(a).value;
      RoundTrip(a, rest);
      assert x.left[|e|..] == rest;
      DrainDecodes(Rx(x.seen + [a], rest, x.end), apdus[1..], keep);
      assert x.seen + [a] + apdus[1..] == x.seen + apdus;
    }
  }

  /** What a peer encodes reaches the connection APDU by APDU, for every way of cutting the stream into reads. */
  lemma {:induction false} StreamRoundTrip(apdus: seq<Apdu>, chunks: seq<Bytes>, keep: seq<Apdu> -> bool)
    requires (forall i :: 0 <= i < |apdus| ==> Encode(apdus[i]).Some?) && Concat(chunks) == EncodeAll(apdus)
    requires KeepsAll([], apdus, keep)
    ensures ReadAll(chunks, keep) == Rx(apdus, [], Open)
  {
    hide Drain, EncodeAll, Encode, ReadAll, KeepsAll;
    ChunkingIrrelevant(chunks, keep);
    DrainDecodes(Start().(left := Concat(chunks)), apdus, keep);
    assert [] + apdus == apdus;
  }

  /** `octets` are the frames of `apdus`, one behind the other, and then `rest`. */
  ghost predicate Splits(octets: Bytes, apdus: seq<Apdu>, rest: Bytes)
    decreases apdus
  {
    if apdus == [] then octets == rest else
      var d := DecodeSlice(octets);
      d.Frame? && d.apdu == apdus[0] && d.consumed <= |octets| && Splits(octets[d.consumed..], apdus[1..], rest)
  }

  /** Why the driver stops where it does. */
  ghost predicate StopsFor(y: Rx, keep: seq<Apdu> -> bool) {
    match y.end
    case Open => DecodeSlice(y.left) == NeedMore
    case Broken(e) => DecodeSlice(y.left) == Malformed(e)
    case Ended => !keep(y.seen)
    case Overflow => false
  }

  /**
   * For every stream, well formed or not: the connection is handed the frames at its front, up to the
   * first incomplete or malformed one, or to the one after which it ends, and the rest stays unread.
   */
  lemma {:induction false} DrainsExactly(x: Rx, keep: seq<Apdu> -> bool) returns (taken: seq<Apdu>)
    requires x.end == Open
    ensures var y := Drain(x, keep);
            var n := |taken|;
            && y.seen == x.seen + taken && Splits(x.left, taken, y.left)
            && KeepsAll(x.seen, if y.end == Ended && n > 0 then taken[..n - 1] else taken, keep)
            && (y.end == Ended ==> n > 0) && StopsFor(y, keep)
    decreases |x.left|
  {
    hide DecodeSlice;
    NeedMoreIff(x.left);
    taken := [];
    if DecodeSlice(x.left).Frame? {
      var a, n := DecodeSlice(x.left).apdu, DecodeSlice(x.left).consumed;
      var y := Rx(x.seen + [a], x.left[n..], x.end);
      if keep(y.seen) {
        var more := DrainsExactly(y, keep);
        taken := [a] + more;
        assert taken[1..] == more && x.seen + [a] + more == x.seen + taken;
        var d := Drain(y, keep);
        if d.end == Ended { assert taken[..|taken| - 1] == [a] + more[..|more| - 1]; }
        var kept := if d.end == Ended then more[..|more| - 1] else more;
        assert ([a] + kept)[1..] == kept;
      } else {
        taken := [a];
        assert taken[..0] == [];
      }
    }
  }
}
