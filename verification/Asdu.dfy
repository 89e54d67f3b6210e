/** The ASDU: header fields at every width, and information objects with and without the SQ bit. */
module Asdu {
  import opened Common

  /** What a decoder makes of a buffer: a value and what is left, or an error. */
  datatype Parsed<+T> = Ok(value: T, rest: Bytes) | Incomplete

  /** The codec of one information element. */
  datatype Codec<!E> = Codec(encode: E -> Bytes, decode: Bytes -> Parsed<E>)

  ghost predicate Lossless<E(!new)>(c: Codec<E>) {
    forall e, rest :: c.decode(c.encode(e) + rest) == Ok(e, rest)
  }

  datatype Object<E> = Object(ioa: u32, element: E)
  datatype Vsq = Vsq(sequence: bool, count: byte)
  datatype Cot = Cot(cause: byte, negative: bool, test: bool, originator: byte)

  /** Octets of the cause, of the common address and of an object address. */
  datatype Widths = Widths(cot: nat, ca: nat, ioa: nat)
  {
    predicate Valid() { 1 <= cot <= 2 && 1 <= ca <= 2 && 1 <= ioa <= 3 }
  }

  datatype Asdu = Asdu(typeId: byte, vsq: Vsq, cot: Cot, ca: u16, payload: Bytes)

  // ------------------------------------------------------------------
  // Little-endian integers
  // ------------------------------------------------------------------

  function Le(v: nat, n: nat): Bytes { if n == 0 then [] else [v % 0x100] + Le(v / 0x100, n - 1) }

  function FromLe(b: Bytes): nat {
    if b == [] then 0 else var more := FromLe(b[1..]); b[0] + 0x100 * more
  }

  function Range(n: nat): (r: nat)
    requires 1 <= n <= 3
    ensures 0x100 <= r <= 0x100_0000
  {
    if n == 1 then 0x100 else if n == 2 then 0x1_0000 else 0x100_0000
  }

  lemma {:induction false} CutTwice(v: nat, m: nat)
    requires m == 0x100 || m == 0x1_0000
    ensures v % (0x100 * m) == v % 0x100 + 0x100 * (v / 0x100 % m)
  {
    var q, r := v / 0x100 / m, v % 0x100 + 0x100 * (v / 0x100 % m);
    if m == 0x100 {
      assert v == 0x1_0000 * q + r && r < 0x1_0000;
    } else {
      assert v == 0x100_0000 * q + r && r < 0x100_0000;
    }
  }

  /** An integer comes back cut to the octets it was written in. */
  lemma {:induction false} LeRoundTrip(v: nat, n: nat)
    requires 1 <= n <= 3
    ensures |Le(v, n)| == n && FromLe(Le(v, n)) == v % Range(n)
  {
    hide Le, FromLe;
    LowOctet(v, n);
    if n == 1 {
      NoOctets(v / 0x100);
    } else {
      LeRoundTrip(v / 0x100, n - 1);
      CutTwice(v, Range(n - 1));
    }
  }

  lemma {:induction false} LowOctet(v: nat, n: nat)
    requires n >= 1
    ensures |Le(v, n)| == 1 + |Le(v / 0x100, n - 1)|
    ensures FromLe(Le(v, n)) == v % 0x100 + 0x100 * FromLe(Le(v / 0x100, n - 1))
  {
    assert Le(v, n)[1..] == Le(v / 0x100, n - 1);
  }

  lemma NoOctets(v: nat)
    ensures Le(v, 0) == [] && FromLe([]) == 0
  {
  }

  function Power(i: nat): (p: nat)
    ensures p >= 1
  {
    if i == 0 then 1 else 0x100 * Power(i - 1)
  }

  lemma {:induction false} DivideTwice(v: nat, p: nat)
    requires p >= 1
    ensures v / 0x100 / p == v / (0x100 * p)
  {
    var q := v / 0x100 / p;
    var r := v - 0x100 * (p * q);
    assert v / 0x100 == p * q + v / 0x100 % p;
    assert 0 <= r < 0x100 * p;
    assert (0x100 * p) * q == 0x100 * (p * q);
    Quotient(v, 0x100 * p, q, r);
  }

  lemma Quotient(v: nat, d: nat, q: nat, r: nat)
    requires v == d * q + r && r < d
    ensures v / d == q
  {
    var p := v / d;
    assert v == d * p + v % d;
    NoLess(d, p, q);
    NoLess(d, q, p);
  }

  lemma {:induction false} NoLess(d: nat, p: nat, q: nat)
    ensures p < q ==> d * q >= d * p + d
  {
    if p < q {
      NoLess(d, p, q - 1);
      assert d * q == d * (q - 1) + d;
    }
  }

  /** The octet at place `i` counts the `256^i`s, so the lowest comes first. */
  lemma {:induction false} LeOctet(v: nat, n: nat, i: nat)
    requires i < n
    ensures |Le(v, n)| == n && Le(v, n)[i] == v / Power(i) % 0x100
  {
    LeLength(v, n);
    if i > 0 {
      LeOctet(v / 0x100, n - 1, i - 1);
      DivideTwice(v, Power(i - 1));
    }
  }

  lemma {:induction false} LeLength(v: nat, n: nat)
    ensures |Le(v, n)| == n
  {
    if n > 0 { LeLength(v / 0x100, n - 1); }
  }

  function DecodeLe(buf: Bytes, n: nat): (r: Parsed<nat>)
    ensures r.Ok? ==> n <= |buf| && r.rest == buf[n..]
  {
    if |buf| < n then Incomplete else Ok(FromLe(buf[..n]), buf[n..])
  }

  lemma {:induction false} LeDecodes(v: nat, n: nat, rest: Bytes)
    requires 1 <= n <= 3
    ensures DecodeLe(Le(v, n) + rest, n) == Ok(v % Range(n), rest)
  {
    hide Le, FromLe, Range;
    LeRoundTrip(v, n);
    assert (Le(v, n) + rest)[..n] == Le(v, n);
    assert (Le(v, n) + rest)[n..] == rest;
  }

  // ------------------------------------------------------------------
  // Information objects
  // ------------------------------------------------------------------

  function Elements<E>(objects: seq<Object<E>>, c: Codec<E>): Bytes {
    if objects == [] then [] else c.encode(objects[0].element) + Elements(objects[1..], c)
  }

  function Addressed<E>(objects: seq<Object<E>>, width: nat, c: Codec<E>): Bytes {
    if objects == [] then []
    else Le(objects[0].ioa, width) + c.encode(objects[0].element) + Addressed(objects[1..], width, c)
  }

  function EncodeList<E>(objects: seq<Object<E>>, sequence: bool, width: nat, c: Codec<E>): Bytes {
    if !sequence then Addressed(objects, width, c)
    else if objects == [] then []
    else Le(objects[0].ioa, width) + Elements(objects, c)
  }

  /** `count` elements addressed from `base` up, in u32 arithmetic that wraps. */
  function DecodeElements<E>(buf: Bytes, base: u32, from: nat, count: nat, c: Codec<E>): Parsed<seq<Object<E>>>
    decreases count
  {
    if count == 0 then Ok([], buf) else
    match c.decode(buf)
    case Incomplete => Incomplete
    case Ok(e, rest) =>
      match DecodeElements(rest, base, from + 1, count - 1, c)
      case Incomplete => Incomplete
      case Ok(more, left) => Ok([Object((base + from) % 0x1_0000_0000, e)] + more, left)
  }

  function DecodeAddressed<E>(buf: Bytes, count: nat, width: nat, c: Codec<E>): Parsed<seq<Object<E>>>
    requires 1 <= width <= 3
    decreases count
  {
    if count == 0 then Ok([], buf) else
    match DecodeLe(buf, width)
    case Incomplete => Incomplete
    case Ok(ioa, rest) =>
      match c.decode(rest)
      case Incomplete => Incomplete
      case Ok(e, rest2) =>
        match DecodeAddressed(rest2, count - 1, width, c)
        case Incomplete => Incomplete
        case Ok(more, left) => Ok([Object(ioa % 0x1_0000_0000, e)] + more, left)
  }

  function DecodeList<E>(buf: Bytes, vsq: Vsq, width: nat, c: Codec<E>): Parsed<seq<Object<E>>>
    requires 1 <= width <= 3
  {
    if !vsq.sequence then DecodeAddressed(buf, vsq.count, width, c)
    else if vsq.count == 0 then Ok([], buf)
    else match DecodeLe(buf, width)
         case Incomplete => Incomplete
         case Ok(base, rest) => DecodeElements(rest, base % 0x1_0000_0000, 0, vsq.count, c)
  }

  /** What decodes has as many objects as were announced. */
  lemma {:induction false} AllOrNothing<E>(buf: Bytes, vsq: Vsq, width: nat, c: Codec<E>)
    requires 1 <= width <= 3
    ensures var p := DecodeList(buf, vsq, width, c); p.Ok? ==> |p.value| == vsq.count
  {
    hide DecodeLe;
    if !vsq.sequence {
      AddressedCount(buf, vsq.count, width, c);
    } else if DecodeLe(buf, width).Ok? {
      ElementsCount(DecodeLe(buf, width).rest, DecodeLe(buf, width).value % 0x1_0000_0000, 0, vsq.count, c);
    }
  }

  lemma {:induction false} AddressedCount<E>(buf: Bytes, count: nat, width: nat, c: Codec<E>)
    requires 1 <= width <= 3
    ensures var p := DecodeAddressed(buf, count, width, c); p.Ok? ==> |p.value| == count
    decreases count
  {
    if count > 0 && DecodeLe(buf, width).Ok? && c.decode(DecodeLe(buf, width).rest).Ok? {
      AddressedCount(c.decode(DecodeLe(buf, width).rest).rest, count - 1, width, c);
    }
  }

  lemma {:induction false} ElementsCount<E>(buf: Bytes, base: u32, from: nat, count: nat, c: Codec<E>)
    ensures var p := DecodeElements(buf, base, from, count, c); p.Ok? ==> |p.value| == count
    decreases count
  {
    if count > 0 && c.decode(buf).Ok? { ElementsCount(c.decode(buf).rest, base, from + 1, count - 1, c); }
  }

  /** The addresses cut to their width. */
  function Cut<E>(objects: seq<Object<E>>, width: nat): seq<Object<E>>
    requires 1 <= width <= 3
  {
    if objects == [] then [] else [objects[0].(ioa := objects[0].ioa % Range(width))] + Cut(objects[1..], width)
  }

  /** The addresses counted up from `base`. */
  function Counted<E>(objects: seq<Object<E>>, base: u32, from: nat): seq<Object<E>>
    decreases objects
  {
    if objects == [] then [] else
      [objects[0].(ioa := (base + from) % 0x1_0000_0000)] + Counted(objects[1..], base, from + 1)
  }

  /** The list as the peer sees it: addresses cut to their width, or counted up from the first one. */
  function Seen<E>(objects: seq<Object<E>>, sequence: bool, width: nat): seq<Object<E>>
    requires 1 <= width <= 3
  {
    if objects == [] then []
    else if sequence then Counted(objects, objects[0].ioa % Range(width), 0)
    else Cut(objects, width)
  }

  lemma {:induction false} ElementsDecode<E(!new)>(objects: seq<Object<E>>, base: u32, from: nat, rest: Bytes,
          c: Codec<E>)
    requires Lossless(c)
    ensures DecodeElements(Elements(objects, c) + rest, base, from, |objects|, c) ==
        Ok(Counted(objects, base, from), rest)
    decreases objects
  {
    if objects == [] {
      assert Elements(objects, c) + rest == rest;
    } else {
      var more := Elements(objects[1..], c) + rest;
      assert Elements(objects, c) + rest == c.encode(objects[0].element) + more;
      assert c.decode(c.encode(objects[0].element) + more) == Ok(objects[0].element, more);
      ElementsDecode(objects[1..], base, from + 1, rest, c);
    }
  }

  lemma {:induction false} AddressedDecode<E(!new)>(objects: seq<Object<E>>, width: nat, rest: Bytes, c: Codec<E>)
    requires Lossless(c) && 1 <= width <= 3
    ensures DecodeAddressed(Addressed(objects, width, c) + rest, |objects|, width, c) == Ok(Cut(objects, width), rest)
    decreases objects
  {
    if objects == [] {
      assert Addressed(objects, width, c) + rest == rest;
    } else {
      hide Le, DecodeLe;
      var o, more := objects[0], Addressed(objects[1..], width, c) + rest;
      assert Addressed(objects, width, c) + rest == Le(o.ioa, width) + (c.encode(o.element) + more);
      LeDecodes(o.ioa, width, c.encode(o.element) + more);
      assert c.decode(c.encode(o.element) + more) == Ok(o.element, more);
      AddressedDecode(objects[1..], width, rest, c);
    }
  }

  /** Every list, with or without the SQ bit and whatever follows it, decodes to what the peer sees of it. */
  lemma {:induction false} ListDecodes<E(!new)>(objects: seq<Object<E>>, sequence: bool, width: nat, rest: Bytes,
          c: Codec<E>)
    requires Lossless(c) && 1 <= width <= 3 && |objects| <= 0xFF
    ensures DecodeList(EncodeList(objects, sequence, width, c) + rest, Vsq(sequence, |objects|), width, c) ==
            Ok(Seen(objects, sequence, width), rest)
  {
    hide Le, DecodeLe, Elements, Addressed, DecodeElements, DecodeAddressed;
    if !sequence {
      AddressedDecode(objects, width, rest, c);
    } else if objects == [] {
      assert [] + rest == rest;
    } else {
      var base := objects[0].ioa;
      assert Le(base, width) + Elements(objects, c) + rest == Le(base, width) + (Elements(objects, c) + rest);
      LeDecodes(base, width, Elements(objects, c) + rest);
      ElementsDecode(objects, base % Range(width), 0, rest, c);
    }
  }

  /** The addresses count up by one from the first. */
  ghost predicate Consecutive<E>(objects: seq<Object<E>>) { objects == [] || CountUp(objects, objects[0].ioa) }

  ghost predicate Fit<E>(objects: seq<Object<E>>, width: nat)
    requires 1 <= width <= 3
  {
    forall i :: 0 <= i < |objects| ==> objects[i].ioa < Range(width)
  }

  /** So a list survives exactly when its addresses fit, and under SQ exactly when they also count up. */
  lemma {:induction false} ListSurvivesIff<E>(objects: seq<Object<E>>, width: nat)
    requires 1 <= width <= 3
    ensures Seen(objects, false, width) == objects <==> Fit(objects, width)
    ensures Seen(objects, true, width) == objects <==>
            objects == [] || (objects[0].ioa < Range(width) && Consecutive(objects))
  {
    hide Cut, Counted, Fit;
    CutIff(objects, width);
    if objects == [] {
      Unaddressed<E>(width);
    } else {
      CountedIff(objects, objects[0].ioa % Range(width), 0);
      InRange(objects[0].ioa, width);
    }
  }

  lemma Unaddressed<E>(width: nat)
    requires 1 <= width <= 3
    ensures Fit<E>([], width)
  {
  }

  lemma InRange(x: nat, width: nat)
    requires 1 <= width <= 3
    ensures x % Range(width) == x <==> x < Range(width)
    ensures x < 0x1_0000_0000 ==> x % Range(width) % 0x1_0000_0000 == x % Range(width)
  {
  }

  lemma {:induction false} CutIff<E>(objects: seq<Object<E>>, width: nat)
    requires 1 <= width <= 3
    ensures |Cut(objects, width)| == |objects| && (Cut(objects, width) == objects <==> Fit(objects, width))
  {
    hide Range;
    if objects != [] {
      var o, rest := objects[0], objects[1..];
      InRange(o.ioa, width);
      CutIff(rest, width);
      assert objects == [o] + rest;
      assert Fit(objects, width) <==> o.ioa < Range(width) && Fit(rest, width) by { FitSplits(objects, width); }
      Heads(o.(ioa := o.ioa % Range(width)), Cut(rest, width), o, rest);
    }
  }

  lemma {:induction false} FitSplits<E>(objects: seq<Object<E>>, width: nat)
    requires 1 <= width <= 3 && objects != []
    ensures Fit(objects, width) <==> objects[0].ioa < Range(width) && Fit(objects[1..], width)
  {
    if objects[0].ioa < Range(width) && Fit(objects[1..], width) {
      forall i | 0 <= i < |objects| ensures objects[i].ioa < Range(width) {
        if i > 0 { assert objects[i] == objects[1..][i - 1]; }
      }
    }
  }

  lemma Heads<T>(x: T, a: seq<T>, y: T, b: seq<T>)
    ensures [x] + a == [y] + b <==> x == y && a == b
  {
    assert ([x] + a)[0] == x && ([y] + b)[0] == y;
    assert ([x] + a)[1..] == a && ([y] + b)[1..] == b;
  }

  /** The addresses are those counted up from `base`. */
  ghost predicate CountUp<E>(objects: seq<Object<E>>, base: nat) {
    forall i :: 0 <= i < |objects| ==> objects[i].ioa == (base + i) % 0x1_0000_0000
  }

  lemma {:induction false} CountedIff<E>(objects: seq<Object<E>>, base: u32, from: nat)
    ensures |Counted(objects, base, from)| == |objects|
    ensures Counted(objects, base, from) == objects <==> CountUp(objects, base + from)
    decreases objects
  {
    if objects != [] {
      var o, rest := objects[0], objects[1..];
      CountedIff(rest, base, from + 1);
      assert objects == [o] + rest;
      CountSplits(objects, base + from);
      Heads(o.(ioa := (base + from) % 0x1_0000_0000), Counted(rest, base, from + 1), o, rest);
    }
  }

  lemma {:induction false} CountSplits<E>(objects: seq<Object<E>>, base: nat)
    requires objects != []
    ensures CountUp(objects, base) <==> objects[0].ioa == base % 0x1_0000_0000 && CountUp(objects[1..], base + 1)
  {
    var rest := objects[1..];
    if CountUp(objects, base) {
      forall i | 0 <= i < |rest| ensures rest[i].ioa == (base + 1 + i) % 0x1_0000_0000 {
        assert rest[i] == objects[i + 1];
      }
    }
    if objects[0].ioa == base % 0x1_0000_0000 && CountUp(rest, base + 1) {
      forall i | 0 <= i < |objects| ensures objects[i].ioa == (base + i) % 0x1_0000_0000 {
        if i > 0 { assert objects[i] == rest[i - 1]; }
      }
    }
  }

  /** For addresses that count up, both encodings mean the same list exactly when the last address still fits. */
  lemma {:induction false} SequenceBitIrrelevant<E>(objects: seq<Object<E>>, width: nat)
    requires 1 <= width <= 3 && 0 < |objects| <= 0xFF && Consecutive(objects) && objects[0].ioa < Range(width)
    ensures Seen(objects, true, width) == Seen(objects, false, width) <==> objects[|objects| - 1].ioa < Range(width)
  {
    hide Seen;
    ListSurvivesIff(objects, width);
    LastFits(objects, width);
  }

  lemma {:induction false} LastFits<E>(objects: seq<Object<E>>, width: nat)
    requires 1 <= width <= 3 && 0 < |objects| <= 0xFF && Consecutive(objects) && objects[0].ioa < Range(width)
    ensures Fit(objects, width) <==> objects[|objects| - 1].ioa < Range(width)
  {
    forall i | 0 <= i < |objects| ensures objects[i].ioa == objects[0].ioa + i {
      assert objects[i].ioa == (objects[0].ioa + i) % 0x1_0000_0000;
    }
  }

  // ------------------------------------------------------------------
  // The loops
  // ------------------------------------------------------------------

  lemma {:induction false} ElementsAppend<E>(objects: seq<Object<E>>, o: Object<E>, c: Codec<E>)
    ensures Elements(objects + [o], c) == Elements(objects, c) + c.encode(o.element)
    decreases objects
  {
    if objects == [] {
      assert [o][1..] == [] && [] + [o] == [o];
    } else {
      ElementsAppend(objects[1..], o, c);
      assert (objects + [o])[1..] == objects[1..] + [o];
    }
  }

  lemma {:induction false} AddressedAppend<E>(objects: seq<Object<E>>, o: Object<E>, width: nat, c: Codec<E>)
    ensures Addressed(objects + [o], width, c) == Addressed(objects, width, c) + Le(o.ioa, width) + c.encode(o.element)
    decreases objects
  {
    hide Le;
    if objects == [] {
      assert [o][1..] == [] && [] + [o] == [o];
    } else {
      AddressedAppend(objects[1..], o, width, c);
      assert (objects + [o])[1..] == objects[1..] + [o];
    }
  }

  method EncodeIoList<E>(buf: Bytes, objects: seq<Object<E>>, vsq: Vsq, width: nat, c: Codec<E>) returns (out: Bytes)
    ensures out == buf + EncodeList(objects, vsq.sequence, width, c)
  {
    hide Le, Elements, Addressed;
    out := buf;
    if vsq.sequence {
      if objects != [] {
        out := out + Le(objects[0].ioa, width);
        out := out + c.encode(objects[0].element);
        ElementsAppend([], objects[0], c);
        NoObjects(width, c);
        assert objects[..1] == [] + [objects[0]];
        for i := 1 to |objects|
          invariant out == buf + Le(objects[0].ioa, width) + Elements(objects[..i], c)
        {
          ElementsAppend(objects[..i], objects[i], c);
          assert objects[..i + 1] == objects[..i] + [objects[i]];
          out := out + c.encode(objects[i].element);
        }
        assert objects[..|objects|] == objects;
      }
    } else {
      NoObjects(width, c);
      for i := 0 to |objects|
        invariant out == buf + Addressed(objects[..i], width, c)
      {
        AddressedAppend(objects[..i], objects[i], width, c);
        assert objects[..i + 1] == objects[..i] + [objects[i]];
        out := out + Le(objects[i].ioa, width);
        out := out + c.encode(objects[i].element);
      }
      assert objects[..|objects|] == objects;
    }
  }

  lemma NoObjects<E>(width: nat, c: Codec<E>)
    ensures Elements<E>([], c) == [] && Addressed<E>([], width, c) == []
  {
  }

  /** A prefix that is already decoded, put in front of the rest. */
  function Prepend<E>(done: seq<Object<E>>, p: Parsed<seq<Object<E>>>): Parsed<seq<Object<E>>> {
    match p
    case Incomplete => Incomplete
    case Ok(more, left) => Ok(done + more, left)
  }

  method DecodeIoList<E>(buf: Bytes, vsq: Vsq, width: nat, c: Codec<E>) returns (r: Parsed<seq<Object<E>>>)
    requires 1 <= width <= 3
    ensures r == DecodeList(buf, vsq, width, c)
  {
    hide DecodeLe;
    var left := buf;
    var objects: seq<Object<E>> := [];
    if vsq.sequence {
      if vsq.count == 0 { return Ok([], left); }
      var p := DecodeLe(left, width);
      if p.Incomplete? { return Incomplete; }
      var base := p.value % 0x1_0000_0000;
      left := p.rest;
      ghost var whole := DecodeElements(left, base, 0, vsq.count, c);
      NothingBefore(whole);
      for i := 0 to vsq.count
        invariant whole == Prepend(objects, DecodeElements(left, base, i, vsq.count - i, c))
      {
        var e := c.decode(left);
        if e.Incomplete? { return Incomplete; }
        var o := Object((base + i) % 0x1_0000_0000, e.value);
        Shift(objects, o, DecodeElements(e.rest, base, i + 1, vsq.count - i - 1, c));
        left, objects := e.rest, objects + [o];
      }
    } else {
      ghost var whole := DecodeAddressed(left, vsq.count, width, c);
      NothingBefore(whole);
      for i := 0 to vsq.count
        invariant whole == Prepend(objects, DecodeAddressed(left, vsq.count - i, width, c))
      {
        var p := DecodeLe(left, width);
        if p.Incomplete? { return Incomplete; }
        var e := c.decode(p.rest);
        if e.Incomplete? { return Incomplete; }
        var o := Object(p.value % 0x1_0000_0000, e.value);
        Shift(objects, o, DecodeAddressed(e.rest, vsq.count - i - 1, width, c));
        left, objects := e.rest, objects + [o];
      }
    }
    assert objects + [] == objects;
    r := Ok(objects, left);
  }

  lemma NothingBefore<E>(p: Parsed<seq<Object<E>>>)
    ensures Prepend([], p) == p
  {
    if p.Ok? { assert [] + p.value == p.value; }
  }

  lemma Shift<E>(done: seq<Object<E>>, o: Object<E>, p: Parsed<seq<Object<E>>>)
    ensures Prepend(done, Prepend([o], p)) == Prepend(done + [o], p)
  {
    if p.Ok? { assert done + ([o] + p.value) == done + [o] + p.value; }
  }

  // ------------------------------------------------------------------
  // The whole ASDU
  // ------------------------------------------------------------------

  function EncodeVsq(v: Vsq): byte { v.count % 0x80 + (if v.sequence then 0x80 else 0) }

  function DecodeVsq(b: byte): Vsq { Vsq(b >= 0x80, b % 0x80) }

  function FirstOctet(c: Cot): byte {
    c.cause % 0x40 + (if c.negative then 0x40 else 0) + (if c.test then 0x80 else 0)
  }

  function EncodeCot(c: Cot, width: nat): Bytes {
    if width == 1 then [FirstOctet(c)] else [FirstOctet(c), c.originator]
  }

  function DecodeCot(b: Bytes): Cot
    requires 1 <= |b| <= 2
  {
    Cot(b[0] % 0x40, b[0] / 0x40 % 2 == 1, b[0] >= 0x80, if |b| == 1 then 0 else b[1])
  }

  function HeaderLength(w: Widths): nat { 2 + w.cot + w.ca }

  function Encode(a: Asdu, w: Widths): Bytes {
    [a.typeId, EncodeVsq(a.vsq)] + EncodeCot(a.cot, w.cot) + Le(a.ca, w.ca) + a.payload
  }

  function Decode(buf: Bytes, w: Widths): Option<Asdu>
    requires w.Valid()
  {
    if |buf| < HeaderLength(w) then None
    else Some(Asdu(buf[0], DecodeVsq(buf[1]), DecodeCot(buf[2..2 + w.cot]),
                   FromLe(buf[2 + w.cot..HeaderLength(w)]) % 0x1_0000, buf[HeaderLength(w)..]))
  }

  /** The ASDU as the peer sees it: every field cut to its bits. */
  function Trimmed(a: Asdu, w: Widths): Asdu
    requires w.Valid()
  {
    a.(vsq := a.vsq.(count := a.vsq.count % 0x80),
       cot := a.cot.(cause := a.cot.cause % 0x40, originator := if w.cot == 1 then 0 else a.cot.originator),
       ca := a.ca % Range(w.ca))
  }

  lemma {:induction false} FieldsRoundTrip(v: Vsq, c: Cot, width: nat)
    requires 1 <= width <= 2
    ensures DecodeVsq(EncodeVsq(v)) == v.(count := v.count % 0x80)
    ensures |EncodeCot(c, width)| == width
    ensures DecodeCot(EncodeCot(c, width)) ==
            c.(cause := c.cause % 0x40, originator := if width == 1 then 0 else c.originator)
  {
  }

  lemma {:induction false} AsduDecodes(a: Asdu, w: Widths)
    requires w.Valid()
    ensures Decode(Encode(a, w), w) == Some(Trimmed(a, w))
  {
    hide Le, FromLe, EncodeCot, DecodeCot, EncodeVsq, DecodeVsq;
    FieldsRoundTrip(a.vsq, a.cot, w.cot);
    LeRoundTrip(a.ca, w.ca);
    var b, h := Encode(a, w), HeaderLength(w);
    assert b[2..2 + w.cot] == EncodeCot(a.cot, w.cot);
    assert b[2 + w.cot..h] == Le(a.ca, w.ca);
    assert b[h..] == a.payload;
  }

  /** An ASDU survives exactly when each of its fields fits the bits the profile gives it. */
  lemma {:induction false} AsduSurvivesIff(a: Asdu, w: Widths)
    requires w.Valid()
    ensures Decode(Encode(a, w), w) == Some(a) <==>
            && a.vsq.count < 0x80 && a.cot.cause < 0x40
            && (w.cot == 1 ==> a.cot.originator == 0) && a.ca < Range(w.ca)
  {
    hide Encode, Decode;
    AsduDecodes(a, w);
  }

  /** Serialise a typed payload into an ASDU, and read it back. */
  function FromPayload<E>(typeId: byte, cot: Cot, ca: u16, vsq: Vsq, objects: seq<Object<E>>, w: Widths,
          c: Codec<E>): Asdu {
    Asdu(typeId, vsq, cot, ca, EncodeList(objects, vsq.sequence, w.ioa, c))
  }

  function DecodePayload<E>(a: Asdu, typeId: byte, w: Widths, c: Codec<E>): Option<seq<Object<E>>>
    requires w.Valid()
  {
    if a.typeId != typeId then None else
    match DecodeList(a.payload, a.vsq, w.ioa, c)
    case Incomplete => None
    case Ok(objects, _) => Some(objects)
  }

  /**
   * From typed objects to octets and back, at every width: up to 127 objects come back as the same
   * list exactly when their addresses fit, and under SQ exactly when they also count up.
   */
  lemma {:induction false} TypedRoundTrip<E(!new)>(typeId: byte, cot: Cot, ca: u16, sequence: bool,
                                                   objects: seq<Object<E>>, w: Widths, c: Codec<E>)
    requires Lossless(c) && w.Valid() && |objects| <= 127
    ensures var a := FromPayload(typeId, cot, ca, Vsq(sequence, |objects|), objects, w, c);
            var b := Decode(Encode(a, w), w);
            && b.Some?
            && (DecodePayload(b.value, typeId, w, c) == Some(objects) <==>
                if sequence then objects == [] || (objects[0].ioa < Range(w.ioa) && Consecutive(objects))
                else Fit(objects, w.ioa))
  {
    hide Encode, Decode, DecodeList, EncodeList, Seen, Fit, Consecutive;
    var a := FromPayload(typeId, cot, ca, Vsq(sequence, |objects|), objects, w, c);
    AsduDecodes(a, w);
    ListDecodes(objects, sequence, w.ioa, [], c);
    assert a.payload + [] == a.payload;
    ListSurvivesIff(objects, w.ioa);
  }

  // ------------------------------------------------------------------
  // Octet by octet
  // ------------------------------------------------------------------

  /** The number `v` stands in the `n` octets from `i` on, lowest octet first. */
  ghost predicate NumberAt(e: Bytes, i: nat, n: nat, v: nat) {
    i + n <= |e| && forall j :: 0 <= j < n ==> e[i + j] == v / Power(j) % 0x100
  }

  lemma {:induction false} LeAt(a: Bytes, v: nat, n: nat, b: Bytes)
    ensures NumberAt(a + Le(v, n) + b, |a|, n, v)
  {
    LeLength(v, n);
    var e := a + Le(v, n) + b;
    forall j | 0 <= j < n ensures e[|a| + j] == v / Power(j) % 0x100 { LeOctet(v, n, j); }
  }

  /** The octets of an ASDU at every width. */
  lemma {:induction false} Layout(a: Asdu, w: Widths)
    requires w.Valid()
    ensures var e, h := Encode(a, w), 2 + w.cot + w.ca;
            && |e| == h + |a.payload| && e[h..] == a.payload && e[0] == a.typeId
            && e[1] == a.vsq.count % 0x80 + (if a.vsq.sequence then 0x80 else 0)
            && e[2] == a.cot.cause % 0x40 + (if a.cot.negative then 0x40 else 0) + (if a.cot.test then 0x80 else 0)
            && (w.cot == 2 ==> e[3] == a.cot.originator)
            && NumberAt(e, 2 + w.cot, w.ca, a.ca)
  {
    hide Le, NumberAt;
    var head := [a.typeId, EncodeVsq(a.vsq)] + EncodeCot(a.cot, w.cot);
    LeAt(head, a.ca, w.ca, a.payload);
    LeLength(a.ca, w.ca);
  }

  /** Every buffer that holds a header is the encoding of what it decodes to; a shorter one is incomplete. */
  lemma {:induction false} DecodesExactly(buf: Bytes, w: Widths)
    requires w.Valid()
    ensures Decode(buf, w).None? <==> |buf| < 2 + w.cot + w.ca
    ensures Decode(buf, w).Some? ==> Encode(Decode(buf, w).value, w) == buf
  {
    hide Le, FromLe, EncodeVsq, DecodeVsq, EncodeCot, DecodeCot;
    if |buf| >= HeaderLength(w) {
      var c, h := 2 + w.cot, HeaderLength(w);
      HeaderBack(buf[1], buf[2..c]);
      LeBack(buf[c..h]);
      assert buf == [buf[0], buf[1]] + buf[2..c] + buf[c..h] + buf[h..];
    }
  }

  lemma {:induction false} HeaderBack(v: byte, b: Bytes)
    requires 1 <= |b| <= 2
    ensures EncodeVsq(DecodeVsq(v)) == v && EncodeCot(DecodeCot(b), |b|) == b
  {
  }

  lemma {:induction false} LeBack(b: Bytes)
    requires 1 <= |b| <= 2
    ensures FromLe(b) < 0x1_0000 && Le(FromLe(b), |b|) == b
  {
    OctetBack(b[0]);
    if |b| == 1 {
      assert b == [b[0]];
    } else {
      OctetBack(b[1]);
      assert b[1..] == [b[1]];
      var high: nat := b[1];
      assert FromLe(b) == b[0] + 0x100 * high;
      assert Le(FromLe(b), 2) == [b[0]] + Le(high, 1);
    }
  }

  lemma OctetBack(x: byte)
    ensures FromLe([x]) == x && Le(x, 1) == [x]
  {
    assert [x][1..] == [] && Le(x / 0x100, 0) == [];
  }

  /** Where the i-th object of a list without SQ begins: behind the addresses and elements before it. */
  function Offset<E>(objects: seq<Object<E>>, i: nat, width: nat, c: Codec<E>): nat
    requires i <= |objects|
  {
    i * width + |Elements(objects[..i], c)|
  }

  /** A list is its objects one behind the other, each its address and then its element. */
  lemma {:induction false} ObjectAt<E>(objects: seq<Object<E>>, i: nat, width: nat, c: Codec<E>)
    requires i < |objects|
    ensures var e, o := EncodeList(objects, false, width, c), Offset(objects, i, width, c);
            var x := c.encode(objects[i].element);
            && NumberAt(e, o, width, objects[i].ioa) && o + width + |x| <= |e| && e[o + width..o + width + |x|] == x
    ensures |EncodeList(objects, false, width, c)| == |objects| * width + |Elements(objects, c)|
  {
    hide Le, NumberAt;
    var before, after := objects[..i], objects[i + 1..];
    var a, x, b := Addressed(before, width, c), c.encode(objects[i].element), Addressed(after, width, c);
    assert objects == before + [objects[i]] + after;
    AddressedAppend(before, objects[i], width, c);
    AddressedSplits(before + [objects[i]], after, width, c);
    AddressedLength(before, width, c);
    AddressedLength(objects, width, c);
    LeAt(a, objects[i].ioa, width, x + b);
    LeLength(objects[i].ioa, width);
    assert a + Le(objects[i].ioa, width) + x + b == a + Le(objects[i].ioa, width) + (x + b);
  }

  lemma {:induction false} AddressedSplits<E>(a: seq<Object<E>>, b: seq<Object<E>>, width: nat, c: Codec<E>)
    ensures Addressed(a + b, width, c) == Addressed(a, width, c) + Addressed(b, width, c)
    decreases a
  {
    hide Le;
    if a == [] {
      assert a + b == b;
    } else {
      AddressedSplits(a[1..], b, width, c);
      assert (a + b)[1..] == a[1..] + b && (a + b)[0] == a[0];
      var first := Le(a[0].ioa, width) + c.encode(a[0].element);
      var x, y := Addressed(a[1..], width, c), Addressed(b, width, c);
      assert Addressed(a + b, width, c) == first + (x + y);
      assert first + (x + y) == (first + x) + y;
    }
  }

  lemma {:induction false} AddressedLength<E>(objects: seq<Object<E>>, width: nat, c: Codec<E>)
    ensures |Addressed(objects, width, c)| == |objects| * width + |Elements(objects, c)|
    decreases objects
  {
    hide Le;
    if objects != [] {
      AddressedLength(objects[1..], width, c);
      LeLength(objects[0].ioa, width);
      assert |objects| * width == |objects[1..]| * width + width;
    }
  }

  /** Under SQ it is the address of the first object and then the elements alone. */
  lemma {:induction false} SequenceAt<E>(objects: seq<Object<E>>, i: nat, width: nat, c: Codec<E>)
    requires i < |objects|
    ensures var e, o := EncodeList(objects, true, width, c), width + |Elements(objects[..i], c)|;
            var x := c.encode(objects[i].element);
            && NumberAt(e, 0, width, objects[0].ioa) && o + |x| <= |e| && e[o..o + |x|] == x
    ensures |EncodeList(objects, true, width, c)| == width + |Elements(objects, c)|
  {
    hide Le, NumberAt;
    var before, after := objects[..i], objects[i + 1..];
    var a, x, b := Elements(before, c), c.encode(objects[i].element), Elements(after, c);
    assert objects == before + [objects[i]] + after;
    ElementsAppend(before, objects[i], c);
    ElementsSplit(before + [objects[i]], after, c);
    LeAt([], objects[0].ioa, width, Elements(objects, c));
    LeLength(objects[0].ioa, width);
    assert [] + Le(objects[0].ioa, width) + Elements(objects, c) == Le(objects[0].ioa, width) + Elements(objects, c);
  }

  lemma {:induction false} ElementsSplit<E>(a: seq<Object<E>>, b: seq<Object<E>>, c: Codec<E>)
    ensures Elements(a + b, c) == Elements(a, c) + Elements(b, c)
    decreases a
  {
    if a == [] {
      assert a + b == b;
    } else {
      ElementsSplit(a[1..], b, c);
      assert (a + b)[1..] == a[1..] + b && (a + b)[0] == a[0];
      var first, x, y := c.encode(a[0].element), Elements(a[1..], c), Elements(b, c);
      assert Elements(a + b, c) == first + (x + y);
      assert first + (x + y) == (first + x) + y;
    }
  }

  /** A codec that decodes nothing but what it encodes. */
  ghost predicate Exact<E(!new)>(c: Codec<E>) {
    forall b :: c.decode(b).Ok? ==> b == c.encode(c.decode(b).value) + c.decode(b).rest
  }

  lemma {:induction false} LeIsRead(buf: Bytes, n: nat)
    requires 1 <= n <= 3 && n <= |buf|
    ensures FromLe(buf[..n]) < Range(n) && buf == Le(FromLe(buf[..n]), n) + buf[n..]
  {
    hide Le, FromLe;
    LeBackwards(buf[..n]);
    assert buf == buf[..n] + buf[n..];
  }

  lemma {:induction false} LeBackwards(b: Bytes)
    requires 1 <= |b| <= 3
    ensures FromLe(b) < Range(|b|) && Le(FromLe(b), |b|) == b
  {
    var rest, high := b[1..], FromLe(b[1..]);
    if |b| == 1 {
      assert rest == [] && b == [b[0]];
      OctetBack(b[0]);
    } else {
      LeBackwards(rest);
      assert FromLe(b) == b[0] + 0x100 * high;
      assert FromLe(b) % 0x100 == b[0] && FromLe(b) / 0x100 == high;
      assert b == [b[0]] + rest;
    }
  }

  lemma {:induction false} AddressedExact<E(!new)>(buf: Bytes, count: nat, width: nat, c: Codec<E>)
    requires Exact(c) && 1 <= width <= 3
    ensures var p := DecodeAddressed(buf, count, width, c);
            p.Ok? ==> buf == Addressed(p.value, width, c) + p.rest && Fit(p.value, width)
    decreases count
  {
    hide Le, FromLe, Range, Addressed, Fit;
    if count == 0 {
      assert Addressed<E>([], width, c) == [] && Fit<E>([], width) by { NoObjects(width, c); NoneMisfit<E>(width); }
      assert [] + buf == buf;
    } else if DecodeAddressed(buf, count, width, c).Ok? {
      var ioa, rest := DecodeLe(buf, width).value, DecodeLe(buf, width).rest;
      LeIsRead(buf, width);
      var e, more := c.decode(rest).value, c.decode(rest).rest;
      AddressedExact(more, count - 1, width, c);
      var q := DecodeAddressed(more, count - 1, width, c);
      var o := Object(ioa % 0x1_0000_0000, e);
      assert ioa < 0x1_0000_0000 by { RangeFits(width); }
      assert buf == Le(ioa, width) + (c.encode(e) + (Addressed(q.value, width, c) + q.rest));
      FirstAddressed(o, q.value, width, c, q.rest);
      FitsMore(o, q.value, width);
    }
  }

  lemma {:induction false} FirstAddressed<E>(o: Object<E>, more: seq<Object<E>>, width: nat, c: Codec<E>, rest: Bytes)
    ensures Addressed([o] + more, width, c) + rest ==
            Le(o.ioa, width) + (c.encode(o.element) + (Addressed(more, width, c) + rest))
  {
    hide Le;
    assert ([o] + more)[1..] == more;
    var a, x, b := Le(o.ioa, width), c.encode(o.element), Addressed(more, width, c);
    assert a + x + b + rest == a + (x + (b + rest));
  }

  lemma NoneMisfit<E>(width: nat)
    requires 1 <= width <= 3
    ensures Fit<E>([], width)
  {
  }

  lemma FitsMore<E>(o: Object<E>, more: seq<Object<E>>, width: nat)
    requires 1 <= width <= 3 && Fit(more, width) && o.ioa < Range(width)
    ensures Fit([o] + more, width)
  {
  }

  lemma RangeFits(width: nat)
    requires 1 <= width <= 3
    ensures Range(width) <= 0x100_0000
  {
  }

  lemma {:induction false} ElementsExact<E(!new)>(buf: Bytes, base: u32, from: nat, count: nat, c: Codec<E>)
    requires Exact(c)
    ensures var p := DecodeElements(buf, base, from, count, c);
            p.Ok? ==> buf == Elements(p.value, c) + p.rest
                      && forall i :: 0 <= i < |p.value| ==> p.value[i].ioa == (base + from + i) % 0x1_0000_0000
    decreases count
  {
    if count == 0 {
      assert [] + buf == buf;
    } else if DecodeElements(buf, base, from, count, c).Ok? {
      var e, rest := c.decode(buf).value, c.decode(buf).rest;
      ElementsExact(rest, base, from + 1, count - 1, c);
      var q := DecodeElements(rest, base, from + 1, count - 1, c);
      var o := Object((base + from) % 0x1_0000_0000, e);
      var all := [o] + q.value;
      assert all[1..] == q.value;
      assert buf == c.encode(e) + (Elements(q.value, c) + q.rest);
      assert forall i :: 0 < i < |all| ==> all[i] == q.value[i - 1];
    }
  }

  /**
   * The decoder reads nothing else: for a codec that is exact, the octets a list was decoded from are
   * its encoding and what is left, each address fits its width, and under SQ they count up.
   */
  lemma {:induction false} ListExact<E(!new)>(buf: Bytes, vsq: Vsq, width: nat, c: Codec<E>)
    requires Exact(c) && 1 <= width <= 3
    ensures var p := DecodeList(buf, vsq, width, c);
            p.Ok? ==>
              && buf == EncodeList(p.value, vsq.sequence, width, c) + p.rest
              && (if vsq.sequence then forall i :: 0 <= i < |p.value| ==> p.value[i].ioa == p.value[0].ioa + i
                  else Fit(p.value, width))
  {
    hide Le, FromLe, Elements, Addressed, DecodeElements, DecodeAddressed, Range;
    if !vsq.sequence {
      AddressedExact(buf, vsq.count, width, c);
    } else if vsq.count == 0 {
      assert [] + buf == buf;
    } else if DecodeList(buf, vsq, width, c).Ok? {
      var base, rest := DecodeLe(buf, width).value, DecodeLe(buf, width).rest;
      LeIsRead(buf, width);
      RangeFits(width);
      ElementsExact(rest, base, 0, vsq.count, c);
      ElementsCount(rest, base, 0, vsq.count, c);
      var p := DecodeElements(rest, base, 0, vsq.count, c);
      assert buf == Le(base, width) + (Elements(p.value, c) + p.rest);
    }
  }
}
