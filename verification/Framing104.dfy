/** The APDU codec: start octet, length octet, four control octets, ASDU. */
module Framing104 {
  import opened Common
  import opened SeqNo
  import opened Conn104

  const START: byte := 0x68
  const MAX_ASDU_LEN: nat := 249

  datatype Error =
    | InvalidStartByte(got: byte)
    | LengthMismatch(declared: nat)
    | UnsupportedFormat
    | AsduTooLong(length: nat)

  datatype Decoded = NeedMore | Frame(apdu: Apdu, consumed: nat) | Malformed(error: Error)

  function FirstOctet(f: UFunction): byte {
    match f
    case StartDtAct => 0x07
    case StartDtCon => 0x0B
    case StopDtAct => 0x13
    case StopDtCon => 0x23
    case TestFrAct => 0x43
    case TestFrCon => 0x83
  }

  function FromFirstOctet(b: byte): Option<UFunction> {
    match b
    case 0x07 => Some(StartDtAct)
    case 0x0B => Some(StartDtCon)
    case 0x13 => Some(StopDtAct)
    case 0x23 => Some(StopDtCon)
    case 0x43 => Some(TestFrAct)
    case 0x83 => Some(TestFrCon)
    case _ => None
  }

  /** A u16 in little-endian order. */
  function Le16(w: u16): Bytes { [w % 0x100, w / 0x100] }

  function FromLe16(low: nat, high: nat): nat { low + 0x100 * high }

  /** The octets of an APDU, or nothing when its ASDU is too long. */
  function Encode(a: Apdu): Option<Bytes> {
    match a
    case I(send, recv, asdu) =>
      if |asdu| > MAX_ASDU_LEN then None
      else Some([START, 4 + |asdu|] + Le16(ToWire(send)) + Le16(ToWire(recv)) + asdu)
    case S(recv) => Some([START, 4, 0x01, 0x00] + Le16(ToWire(recv)))
    case U(f) => Some([START, 4, FirstOctet(f), 0x00, 0x00, 0x00])
  }

  /** The control octets and the ASDU behind the length octet. */
  function DecodePayload(body: Bytes): Decoded
    requires 4 <= |body| <= 0xFF
  {
    var recv := FromWire(FromLe16(body[2], body[3]));
    if body[0] % 2 == 0 then Frame(I(FromWire(FromLe16(body[0], body[1])), recv, body[4..]), 2 + |body|)
    else if |body| != 4 then Malformed(LengthMismatch(|body|))
    else if body[0] % 4 == 1 then Frame(S(recv), 6)
    else if FromFirstOctet(body[0]).None? then Malformed(UnsupportedFormat)
    else Frame(U(FromFirstOctet(body[0]).value), 6)
  }

  function DecodeSlice(buf: Bytes): Decoded {
    if |buf| < 2 then NeedMore
    else if buf[0] != START then Malformed(InvalidStartByte(buf[0]))
    else
      var length: nat := buf[1];
      if length < 4 then Malformed(LengthMismatch(length))
      else if |buf| < 2 + length then NeedMore
      else DecodePayload(buf[2..2 + length])
  }

  /** A slice needs more octets exactly while it is shorter than the frame its first two announce. */
  lemma {:induction false} NeedMoreIff(buf: Bytes)
    ensures DecodeSlice(buf) == NeedMore <==> |buf| < 2 || (buf[0] == START && 4 <= buf[1] && |buf| - 2 < buf[1])
    ensures DecodeSlice(buf) == NeedMore ==> |buf| <= 256
    ensures DecodeSlice(buf).Frame? ==> 6 <= DecodeSlice(buf).consumed <= |buf|
  {
  }

  /** More octets behind a frame or an error do not change it. */
  lemma {:induction false} Stable(buf: Bytes, more: Bytes)
    requires DecodeSlice(buf) != NeedMore
    ensures DecodeSlice(buf + more) == DecodeSlice(buf)
  {
    if buf[0] == START && 4 <= buf[1] {
      var total: nat := buf[1];
      assert (buf + more)[2..2 + total] == buf[2..2 + total];
    }
  }

  /** An encoded APDU, whatever follows it, decodes to itself and to exactly its own length. */
  lemma {:induction false} RoundTrip(a: Apdu, rest: Bytes)
    requires Encode(a).Some?
    ensures DecodeSlice(Encode(a).value + rest) == Frame(a, |Encode(a).value|)
  {
    hide ToWire, FromWire, Le16;
    var e := Encode(a).value;
    match a {
      case I(send, recv, asdu) => InfoRoundTrip(send, recv, asdu);
      case S(recv) => SupervisoryRoundTrip(recv);
      case U(f) => assert DecodeSlice(e) == Frame(a, 6) by { assert e[2..6] == [FirstOctet(f), 0, 0, 0]; }
    }
    Stable(e, rest);
  }

  lemma {:induction false} InfoRoundTrip(send: Seq15, recv: Seq15, asdu: Bytes)
    requires |asdu| <= MAX_ASDU_LEN
    ensures var e := Encode(I(send, recv, asdu)).value; DecodeSlice(e) == Frame(I(send, recv, asdu), |e|)
  {
    hide ToWire, FromWire, Le16;
    var x, y := Le16(ToWire(send)), Le16(ToWire(recv));
    TwoOctets(ToWire(send));
    TwoOctets(ToWire(recv));
    var e := Encode(I(send, recv, asdu)).value;
    var body := e[2..|e|];
    assert body == x + y + asdu;
    assert body[4..] == asdu && body[0] == x[0] && body[1] == x[1] && body[2] == y[0] && body[3] == y[1];
  }

  lemma {:induction false} SupervisoryRoundTrip(recv: Seq15)
    ensures var e := Encode(S(recv)).value; DecodeSlice(e) == Frame(S(recv), |e|)
  {
    hide ToWire, FromWire, Le16;
    var y := Le16(ToWire(recv));
    TwoOctets(ToWire(recv));
    var e := Encode(S(recv)).value;
    assert e[2..6] == [0x01, 0x00] + y;
    assert e[2..6][2] == y[0] && e[2..6][3] == y[1];
  }

  lemma TwoOctets(w: u16)
    ensures |Le16(w)| == 2 && FromLe16(Le16(w)[0], Le16(w)[1]) == w && Le16(w)[0] % 2 == w % 2
  {
  }

  /** No proper prefix of an encoded APDU decodes to anything. */
  lemma {:induction false} PrefixNeedsMore(a: Apdu, n: nat)
    requires Encode(a).Some? && n < |Encode(a).value|
    ensures DecodeSlice(Encode(a).value[..n]) == NeedMore
  {
  }

  // ------------------------------------------------------------------
  // Octet by octet
  // ------------------------------------------------------------------

  /** A number in the two octets from `i` on, the low one first and its lowest bit clear. */
  ghost predicate NumberAt(e: Bytes, i: nat, n: Seq15) {
    i + 2 <= |e| && e[i] == 2 * n % 0x100 && e[i + 1] == 2 * n / 0x100
  }

  /** The bit that a U-frame sets: two for each of start, stop and test. */
  function FunctionOctet(f: UFunction): byte {
    3 + match f
        case StartDtAct => 0x04
        case StartDtCon => 0x08
        case StopDtAct => 0x10
        case StopDtCon => 0x20
        case TestFrAct => 0x40
        case TestFrCon => 0x80
  }

  /** The octets of an APDU, one by one; only an I-frame with more than 249 octets of ASDU has none. */
  lemma {:induction false} Layout(a: Apdu)
    ensures Encode(a).Some? <==> (a.I? ==> |a.asdu| <= 249)
    ensures Encode(a).Some? ==>
              var e := Encode(a).value;
              && |e| >= 6 && e[0] == 0x68 && e[1] == |e| - 2
              && (match a
                  case I(send, recv, asdu) => NumberAt(e, 2, send) && NumberAt(e, 4, recv) && e[6..] == asdu
                  case S(recv) => |e| == 6 && e[2] == 1 && e[3] == 0 && NumberAt(e, 4, recv)
                  case U(f) => e[2..] == [FunctionOctet(f), 0, 0, 0])
  {
  }

  /** The two octets from `i` on hold the number `n`: the seven high bits of the first and the second. */
  ghost predicate Holds(b: Bytes, i: nat, n: Seq15) {
    i + 2 <= |b| && (var high: nat := b[i + 1]; n == b[i] / 2 + 0x80 * high)
  }

  /** The control octets and the ASDU of an APDU, in the bits the decoder looks at. */
  ghost predicate Carries(body: Bytes, a: Apdu) {
    match a
    case I(send, recv, asdu) =>
      Holds(body, 0, send) && body[0] % 2 == 0 && Holds(body, 2, recv) && body[4..] == asdu
    case S(recv) => |body| == 4 && body[0] % 4 == 1 && Holds(body, 2, recv)
    case U(f) => |body| == 4 && body[0] == FunctionOctet(f)
  }

  /**
   * The decoder finds an APDU of `n` octets at the front of a buffer if and only if the first two octets
   * announce it and the octets behind them carry it; the decoder looks at no other bit of an S-frame
   * but the two lowest and the number, and of a U-frame only at its first octet.
   */
  lemma {:induction false} AcceptsIff(buf: Bytes, a: Apdu, n: nat)
    ensures DecodeSlice(buf) == Frame(a, n) <==>
            6 <= n <= |buf| && buf[0] == 0x68 && buf[1] == n - 2 && Carries(buf[2..n], a)
  {
    hide DecodePayload, Carries;
    if |buf| >= 2 && buf[0] == START && 4 <= buf[1] && |buf| - 2 >= buf[1] {
      PayloadIs(buf[2..2 + buf[1] as nat], a, n);
    }
  }

  lemma {:induction false} PayloadIs(body: Bytes, a: Apdu, n: nat)
    requires 4 <= |body| <= 0xFF
    ensures DecodePayload(body) == Frame(a, n) <==> n == 2 + |body| && Carries(body, a)
  {
    hide FromWire, Holds, FromFirstOctet, FunctionOctet;
    match a {
      case I(send, recv, _) => WireNumber(body, 0, send); WireNumber(body, 2, recv);
      case S(recv) => WireNumber(body, 2, recv);
      case U(f) => FunctionIff(body[0], f);
    }
  }

  lemma WireNumber(b: Bytes, i: nat, n: Seq15)
    requires i + 2 <= |b|
    ensures FromWire(FromLe16(b[i], b[i + 1])) == n <==> Holds(b, i, n)
  {
    var w := FromLe16(b[i], b[i + 1]);
    assert w < 0x1_0000;
    assert w / 2 < 0x8000;
  }

  lemma FunctionIff(b: byte, f: UFunction)
    ensures FromFirstOctet(b) == Some(f) <==> b == FunctionOctet(f)
    ensures b == FunctionOctet(f) ==> b % 4 == 3
  {
  }

  /** Why a buffer is refused. */
  lemma {:induction false} RefusesIff(buf: Bytes)
    ensures var d := DecodeSlice(buf);
            && (d == Malformed(InvalidStartByte(if buf == [] then 0 else buf[0])) <==> |buf| >= 2 && buf[0] != 0x68)
            && (d == Malformed(UnsupportedFormat) <==>
                  && |buf| >= 6 && buf[0] == 0x68 && buf[1] == 4 && buf[2] % 4 == 3
                  && forall f :: buf[2] != FunctionOctet(f))
  {
    if |buf| >= 6 && buf[0] == START && buf[1] == 4 {
      FunctionsKnown(buf[2]);
      assert buf[2..6][0] == buf[2];
    }
  }

  lemma FunctionsKnown(b: byte)
    ensures FromFirstOctet(b).None? <==> forall f :: b != FunctionOctet(f)
  {
    assert b == 0x07 ==> b == FunctionOctet(StartDtAct);
    assert b == 0x0B ==> b == FunctionOctet(StartDtCon);
    assert b == 0x13 ==> b == FunctionOctet(StopDtAct);
    assert b == 0x23 ==> b == FunctionOctet(StopDtCon);
    assert b == 0x43 ==> b == FunctionOctet(TestFrAct);
    assert b == 0x83 ==> b == FunctionOctet(TestFrCon);
  }
}
