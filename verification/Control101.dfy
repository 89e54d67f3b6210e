/** Frames and the control octet of the 101 link layer. */
module Control101 {
  import opened Common

  datatype SingleChar = AckChar | NackChar

  datatype Frame =
    | Single(char_: SingleChar)
    | Fixed(control: byte, address: u16)
    | Variable(control: byte, address: u16, asdu: Bytes)

  datatype PrimaryFunc =
    | ResetRemoteLink | ResetUserProcess | UserDataConfirmed | UserDataUnconfirmed
    | RequestStatus | RequestClass1 | RequestClass2

  datatype SecondaryFunc = Ack | Nack | RespondUserData | NackNoData | StatusOfLink

  datatype Primary = Primary(fcb: bool, fcv: bool, func: PrimaryFunc)
  datatype Secondary = Secondary(acd: bool, dfc: bool, func: SecondaryFunc)

  function PrimaryCode(f: PrimaryFunc): byte {
    match f
    case ResetRemoteLink => 0
    case ResetUserProcess => 1
    case UserDataConfirmed => 3
    case UserDataUnconfirmed => 4
    case RequestStatus => 9
    case RequestClass1 => 10
    case RequestClass2 => 11
  }

  function SecondaryCode(f: SecondaryFunc): byte {
    match f
    case Ack => 0
    case Nack => 1
    case RespondUserData => 8
    case NackNoData => 9
    case StatusOfLink => 11
  }

  function PrimaryOf(nibble: byte): Option<PrimaryFunc> {
    if nibble == 0 then Some(ResetRemoteLink)
    else if nibble == 1 then Some(ResetUserProcess)
    else if nibble == 3 then Some(UserDataConfirmed)
    else if nibble == 4 then Some(UserDataUnconfirmed)
    else if nibble == 9 then Some(RequestStatus)
    else if nibble == 10 then Some(RequestClass1)
    else if nibble == 11 then Some(RequestClass2)
    else None
  }

  function SecondaryOf(nibble: byte): Option<SecondaryFunc> {
    if nibble == 0 then Some(Ack)
    else if nibble == 1 then Some(Nack)
    else if nibble == 8 then Some(RespondUserData)
    else if nibble == 9 then Some(NackNoData)
    else if nibble == 11 then Some(StatusOfLink)
    else None
  }

  /** Bit 5 of a control octet: FCB towards the outstation, ACD towards the master. */
  predicate Bit5(control: byte) { control / 32 % 2 == 1 }

  /** Bit 4 of a control octet: FCV or DFC. */
  predicate Bit4(control: byte) { control / 16 % 2 == 1 }

  function EncodePrimary(p: Primary): byte {
    0x40 + PrimaryCode(p.func) + (if p.fcb then 0x20 else 0) + (if p.fcv then 0x10 else 0)
  }

  function EncodeSecondary(s: Secondary): byte {
    SecondaryCode(s.func) + (if s.acd then 0x20 else 0) + (if s.dfc then 0x10 else 0)
  }

  /** The direction is not checked: bit 6 is ignored. */
  function DecodePrimary(control: byte): Option<Primary> {
    var f := PrimaryOf(control % 16);
    if f.None? then None else Some(Primary(Bit5(control), Bit4(control), f.value))
  }

  function DecodeSecondary(control: byte): Option<Secondary> {
    var f := SecondaryOf(control % 16);
    if f.None? then None else Some(Secondary(Bit5(control), Bit4(control), f.value))
  }

  lemma ControlRoundTrip(p: Primary, s: Secondary)
    ensures DecodePrimary(EncodePrimary(p)) == Some(p)
    ensures DecodeSecondary(EncodeSecondary(s)) == Some(s)
  {
  }

  /** The four low bits say the function, bit 4 and bit 5 the flags, bit 6 the direction; bit 7 is clear. */
  lemma {:induction false} ControlLayout(p: Primary, s: Secondary)
    ensures var c := EncodePrimary(p);
            && 0x40 <= c < 0x80 && (c / 0x20 % 2 == 1 <==> p.fcb) && (c / 0x10 % 2 == 1 <==> p.fcv)
            && c % 0x10 == (match p.func
                            case ResetRemoteLink => 0
                            case ResetUserProcess => 1
                            case UserDataConfirmed => 3
                            case UserDataUnconfirmed => 4
                            case RequestStatus => 9
                            case RequestClass1 => 10
                            case RequestClass2 => 11)
    ensures var c := EncodeSecondary(s);
            && c < 0x40 && (c / 0x20 % 2 == 1 <==> s.acd) && (c / 0x10 % 2 == 1 <==> s.dfc)
            && c % 0x10 == (match s.func
                            case Ack => 0
                            case Nack => 1
                            case RespondUserData => 8
                            case NackNoData => 9
                            case StatusOfLink => 11)
  {
  }

  /** A control octet decodes to whatever encodes to its six low bits, and to nothing if nothing does. */
  lemma {:induction false} ControlDecodesIff(c: byte, p: Primary, s: Secondary)
    ensures DecodePrimary(c) == Some(p) <==> EncodePrimary(p) % 0x40 == c % 0x40
    ensures DecodeSecondary(c) == Some(s) <==> EncodeSecondary(s) % 0x40 == c % 0x40
  {
    hide PrimaryCode, SecondaryCode, PrimaryOf, SecondaryOf, Bit4, Bit5, EncodePrimary, EncodeSecondary;
    NibbleIff(c % 0x10, p.func, s.func);
    SixBits(c, c % 0x10, Bit5(c), Bit4(c));
    EncodedBits(p, s);
  }

  lemma NibbleIff(n: byte, f: PrimaryFunc, g: SecondaryFunc)
    ensures PrimaryOf(n) == Some(f) <==> PrimaryCode(f) == n
    ensures SecondaryOf(n) == Some(g) <==> SecondaryCode(g) == n
  {
  }

  lemma EncodedBits(p: Primary, s: Secondary)
    ensures EncodePrimary(p) % 0x40 == PrimaryCode(p.func) + (if p.fcv then 0x10 else 0) + (if p.fcb then 0x20 else 0)
    ensures EncodeSecondary(s) % 0x40 ==
            SecondaryCode(s.func) + (if s.dfc then 0x10 else 0) + (if s.acd then 0x20 else 0)
    ensures PrimaryCode(p.func) < 0x10 && SecondaryCode(s.func) < 0x10
  {
  }

  lemma SixBits(c: byte, n: byte, b5: bool, b4: bool)
    requires n == c % 0x10 && b5 == Bit5(c) && b4 == Bit4(c)
    ensures c % 0x40 == n + (if b4 then 0x10 else 0) + (if b5 then 0x20 else 0)
  {
    var q := c / 0x10;
    HighBits(q);
    Nibbles(c, q, n);
  }

  lemma HighBits(q: nat)
    ensures q % 4 == q % 2 + 2 * (q / 2 % 2)
  {
  }

  lemma Nibbles(c: byte, q: nat, n: nat)
    requires c == 0x10 * q + n && n < 0x10
    ensures c % 0x40 == 0x10 * (q % 4) + n && c / 0x20 == q / 2
  {
    assert c == 0x40 * (q / 4) + (0x10 * (q % 4) + n);
    assert c == 0x20 * (q / 2) + (0x10 * (q % 2) + n);
  }
}
