/** The file-transfer messages as ASDUs with IEC 104 addressing: how long they are and what arrives of them. */
module FileCodec {
  import opened Common
  import opened FileSession
  import Asdu
  import Conn104
  import Framing104
  import SeqNo

  // ------------------------------------------------------------------
  // As the file transfer sees it
  // ------------------------------------------------------------------

  /** Octets of the ASDU: 6 of header, 3 of object address, then the elements. */
  function AsduLength(m: Message): nat {
    9 + match m
        case FileReady(_, _, _) => 2 + 3 + 1
        case SectionReady(_, _, _, _) => 2 + 2 + 3 + 1
        case SelectCall(_, _, _) => 2 + 2 + 1
        case LastSection(_, _, _) => 2 + 2 + 1 + 1
        case AckFile(_, _, _) => 2 + 2 + 1
        case Segment(_, _, data) => 2 + 2 + 1 + Min(|data|, MAX_SEGMENT_BYTES)
  }

  predicate Fits(m: Message) { AsduLength(m) <= Framing104.MAX_ASDU_LEN }

  /** What the peer decodes: lengths are cut to 24 bits, codes to 4 and a segment to 255 octets. */
  function OnWire(m: Message): Message {
    match m
    case FileReady(nof, lof, negative) => FileReady(nof, lof % 0x100_0000, negative)
    case SectionReady(nof, nos, los, negative) => SectionReady(nof, nos, los % 0x100_0000, negative)
    case SelectCall(nof, nos, select) => SelectCall(nof, nos, SelectOf(SelectCode(select)))
    case AckFile(nof, nos, ack) => AckFile(nof, nos, AckOf(AckCode(ack)))
    case Segment(nof, nos, data) => Segment(nof, nos, data[..Min(|data|, MAX_SEGMENT_BYTES)])
    case LastSection(_, _, _) => m
  }

  function SelectCode(a: SelectAction): byte {
    match a
    case NoSelect => 0
    case SelectFile => 1
    case RequestFile => 2
    case DeactivateFile => 3
    case DeleteFile => 4
    case SelectSection => 5
    case RequestSection => 6
    case DeactivateSection => 7
    case OtherSelect(bits) => bits % 0x10
  }

  function SelectOf(b: byte): SelectAction {
    match b % 0x10
    case 0 => NoSelect
    case 1 => SelectFile
    case 2 => RequestFile
    case 3 => DeactivateFile
    case 4 => DeleteFile
    case 5 => SelectSection
    case 6 => RequestSection
    case 7 => DeactivateSection
    case n => OtherSelect(n)
  }

  function AckCode(a: AckAction): byte {
    match a
    case NoAck => 0
    case PositiveFile => 1
    case NegativeFile => 2
    case PositiveSection => 3
    case NegativeSection => 4
    case OtherAck(bits) => bits % 0x10
  }

  function AckOf(b: byte): AckAction {
    match b % 0x10
    case 0 => NoAck
    case 1 => PositiveFile
    case 2 => NegativeFile
    case 3 => PositiveSection
    case 4 => NegativeSection
    case n => OtherAck(n)
  }

  // ------------------------------------------------------------------
  // As octets
  // ------------------------------------------------------------------

  const IEC104 := Asdu.Widths(2, 2, 3)

  function TypeId(m: Message): byte {
    match m
    case FileReady(_, _, _) => 120
    case SectionReady(_, _, _, _) => 121
    case SelectCall(_, _, _) => 122
    case LastSection(_, _, _) => 123
    case AckFile(_, _, _) => 124
    case Segment(_, _, _) => 125
  }

  function Qualifier(negative: bool): Bytes { [if negative then 0x80 else 0] }

  /** What follows the name of the section. A last section is always closed with code 3. */
  function SectionElements(m: Message): Bytes
    requires !m.FileReady?
  {
    match m
    case SectionReady(_, _, los, negative) => Asdu.Le(los, 3) + Qualifier(negative)
    case SelectCall(_, _, select) => [SelectCode(select)]
    case LastSection(_, _, chs) => [3, chs]
    case AckFile(_, _, ack) => [AckCode(ack)]
    case Segment(_, _, data) =>
      var n := Min(|data|, MAX_SEGMENT_BYTES);
      [n] + data[..n]
  }

  function Elements(m: Message): Bytes {
    if m.FileReady? then Asdu.Le(m.lof, 3) + Qualifier(m.negative) else Asdu.Le(m.nos, 2) + SectionElements(m)
  }

  function Encode(m: Message, ca: u16, ioa: u32): Bytes {
    var objects := Asdu.Le(ioa, 3) + (Asdu.Le(m.nof, 2) + Elements(m));
    Asdu.Encode(Asdu.Asdu(TypeId(m), Asdu.Vsq(false, 1), Asdu.Cot(13, false, false, 0), ca, objects), IEC104)
  }

  function DecodeSection(typeId: byte, nof: u16, nos: u16, b: Bytes): Option<Message> {
    match typeId
    case 121 =>
      (match Asdu.DecodeLe(b, 3)
       case Ok(los, q) => if q == [] then None else Some(SectionReady(nof, nos, los % 0x1_0000_0000, q[0] >= 0x80))
       case Incomplete => None)
    case 122 => if b == [] then None else Some(SelectCall(nof, nos, SelectOf(b[0])))
    case 123 => if |b| < 2 then None else Some(LastSection(nof, nos, b[1]))
    case 124 => if b == [] then None else Some(AckFile(nof, nos, AckOf(b[0])))
    case 125 =>
      if b == [] then None else
        var n: nat := b[0];
        if |b| < 1 + n then None else Some(Segment(nof, nos, b[1..1 + n]))
    case _ => None
  }

  function DecodeElements(typeId: byte, nof: u16, b: Bytes): Option<Message> {
    if typeId == 120 then
      match Asdu.DecodeLe(b, 3)
      case Ok(lof, q) => if q == [] then None else Some(FileReady(nof, lof % 0x1_0000_0000, q[0] >= 0x80))
      case Incomplete => None
    else
      match Asdu.DecodeLe(b, 2)
      case Ok(nos, rest) => DecodeSection(typeId, nof, nos % 0x1_0000, rest)
      case Incomplete => None
  }

  function Decode(b: Bytes): Option<Message> {
    var a := Asdu.Decode(b, IEC104);
    if a.None? then None else
    match Asdu.DecodeLe(a.value.payload, 3)
    case Incomplete => None
    case Ok(_, rest) =>
      match Asdu.DecodeLe(rest, 2)
      case Incomplete => None
      case Ok(nof, elements) => DecodeElements(a.value.typeId, nof % 0x1_0000, elements)
  }

  // ------------------------------------------------------------------
  // The two agree
  // ------------------------------------------------------------------

  lemma {:induction false} LengthIs(m: Message, ca: u16, ioa: u32)
    ensures |Encode(m, ca, ioa)| == AsduLength(m)
  {
    hide Asdu.Le, Asdu.FromLe, SelectCode, AckCode;
    Asdu.LeRoundTrip(ioa, 3);
    Asdu.LeRoundTrip(m.nof, 2);
    Asdu.LeRoundTrip(ca, 2);
    if m.FileReady? { Asdu.LeRoundTrip(m.lof, 3); } else { Asdu.LeRoundTrip(m.nos, 2); }
    if m.SectionReady? { Asdu.LeRoundTrip(m.los, 3); }
  }

  lemma {:induction false} SectionArrives(m: Message)
    requires !m.FileReady?
    ensures DecodeSection(TypeId(m), m.nof, m.nos, SectionElements(m)) == Some(OnWire(m))
  {
    hide Asdu.Le, Asdu.DecodeLe, SelectCode, AckCode, SelectOf, AckOf;
    if m.SectionReady? {
      Asdu.LeDecodes(m.los, 3, Qualifier(m.negative));
    } else if m.Segment? {
      var n := Min(|m.data|, MAX_SEGMENT_BYTES);
      assert SectionElements(m)[1..1 + n] == m.data[..n];
    }
  }

  lemma {:induction false} ElementsArrive(m: Message)
    ensures DecodeElements(TypeId(m), m.nof, Elements(m)) == Some(OnWire(m))
  {
    hide Asdu.Le, Asdu.DecodeLe, SectionElements, DecodeSection, SelectCode, AckCode, SelectOf, AckOf;
    if m.FileReady? {
      Asdu.LeDecodes(m.lof, 3, Qualifier(m.negative));
    } else {
      Asdu.LeDecodes(m.nos, 2, SectionElements(m));
      SectionArrives(m);
    }
  }

  /**
   * From a message to octets and back: the ASDU has the length that the file transfer reckons with, so
   * an I-frame can carry it if and only if it fits, and what the peer decodes is the message on the wire.
   */
  lemma {:induction false} Arrives(m: Message, ca: u16, ioa: u32, send: SeqNo.Seq15, recv: SeqNo.Seq15)
    ensures |Encode(m, ca, ioa)| == AsduLength(m) && Decode(Encode(m, ca, ioa)) == Some(OnWire(m))
    ensures Framing104.Encode(Conn104.I(send, recv, Encode(m, ca, ioa))).Some? <==> Fits(m)
  {
    hide Asdu.Le, Asdu.DecodeLe, Asdu.Decode, Asdu.Encode, Elements, DecodeElements, OnWire, AsduLength;
    LengthIs(m, ca, ioa);
    var objects := Asdu.Le(ioa, 3) + (Asdu.Le(m.nof, 2) + Elements(m));
    Asdu.AsduDecodes(Asdu.Asdu(TypeId(m), Asdu.Vsq(false, 1), Asdu.Cot(13, false, false, 0), ca, objects), IEC104);
    Asdu.LeDecodes(ioa, 3, Asdu.Le(m.nof, 2) + Elements(m));
    Asdu.LeDecodes(m.nof, 2, Elements(m));
    ElementsArrive(m);
  }

  // ------------------------------------------------------------------
  // Octet by octet
  // ------------------------------------------------------------------

  ghost predicate Octets2(e: Bytes, i: nat, v: u16) { i + 2 <= |e| && e[i] == v % 0x100 && e[i + 1] == v / 0x100 }

  ghost predicate Octets3(e: Bytes, i: nat, v: u32) {
    i + 3 <= |e| && e[i] == v % 0x100 && e[i + 1] == v / 0x100 % 0x100 && e[i + 2] == v / 0x1_0000 % 0x100
  }

  /** The codes of the standard, and the low four bits of any other. */
  ghost predicate SelectIs(b: byte, a: SelectAction) {
    match a
    case NoSelect => b == 0
    case SelectFile => b == 1
    case RequestFile => b == 2
    case DeactivateFile => b == 3
    case DeleteFile => b == 4
    case SelectSection => b == 5
    case RequestSection => b == 6
    case DeactivateSection => b == 7
    case OtherSelect(bits) => b == bits % 0x10
  }

  ghost predicate AckIs(b: byte, a: AckAction) {
    match a
    case NoAck => b == 0
    case PositiveFile => b == 1
    case NegativeFile => b == 2
    case PositiveSection => b == 3
    case NegativeSection => b == 4
    case OtherAck(bits) => b == bits % 0x10
  }

  /** What stands behind the name of the file, from octet 11 on. */
  ghost predicate BodyIs(e: Bytes, m: Message) {
    match m
    case FileReady(_, lof, negative) =>
      |e| == 15 && e[0] == 120 && Octets3(e, 11, lof) && e[14] == (if negative then 0x80 else 0)
    case SectionReady(_, nos, los, negative) =>
      && |e| == 17 && e[0] == 121 && Octets2(e, 11, nos) && Octets3(e, 13, los)
      && e[16] == (if negative then 0x80 else 0)
    case SelectCall(_, nos, select) => |e| == 14 && e[0] == 122 && Octets2(e, 11, nos) && SelectIs(e[13], select)
    case LastSection(_, nos, chs) =>
      |e| == 15 && e[0] == 123 && Octets2(e, 11, nos) && e[13] == 3 && e[14] == chs
    case AckFile(_, nos, ack) => |e| == 14 && e[0] == 124 && Octets2(e, 11, nos) && AckIs(e[13], ack)
    case Segment(_, nos, data) =>
      && e != [] && e[0] == 125 && Octets2(e, 11, nos)
      && |e| == 14 + Min(|data|, 255) && e[13] == Min(|data|, 255) && e[14..] == data[..Min(|data|, 255)]
  }

  /** The octets of a message: type, one object, cause 13, the two addresses, the file and the rest. */
  lemma {:induction false} Layout(m: Message, ca: u16, ioa: u32)
    ensures var e := Encode(m, ca, ioa);
            && |e| >= 14 && e[1] == 1 && e[2] == 13 && e[3] == 0 && Octets2(e, 4, ca) && Octets3(e, 6, ioa)
            && Octets2(e, 9, m.nof) && BodyIs(e, m)
  {
    hide Asdu.Le, Elements, BodyIs;
    var e := Encode(m, ca, ioa);
    Le2(ca);
    Le3(ioa);
    Le2(m.nof);
    assert e[4..6] == Asdu.Le(ca, 2) && e[6..9] == Asdu.Le(ioa, 3) && e[9..11] == Asdu.Le(m.nof, 2);
    assert e[11..] == Elements(m);
    hide Encode;
    BodyOctets(e, m);
  }

  lemma {:induction false} BodyOctets(e: Bytes, m: Message)
    requires |e| >= 11 && e[0] == TypeId(m) && e[11..] == Elements(m)
    ensures |e| >= 14 && BodyIs(e, m)
  {
    hide Asdu.Le, SelectCode, AckCode;
    Codes(m);
    var b := Elements(m);
    if m.FileReady? {
      Le3(m.lof);
      assert e[11] == b[0] && e[12] == b[1] && e[13] == b[2] && e[14] == b[3];
    } else {
      Le2(m.nos);
      assert e[11] == b[0] && e[12] == b[1] && e[13..] == b[2..] == SectionElements(m);
      SectionOctets(e, m);
    }
  }

  lemma {:induction false} SectionOctets(e: Bytes, m: Message)
    requires !m.FileReady? && |e| >= 13 && e[0] == TypeId(m) && Octets2(e, 11, m.nos) && e[13..] == SectionElements(m)
    ensures |e| >= 14 && BodyIs(e, m)
  {
    hide Asdu.Le, SelectCode, AckCode, SelectIs, AckIs;
    Codes(m);
    var b := SectionElements(m);
    if m.SectionReady? {
      Le3(m.los);
      assert e[13] == b[0] && e[14] == b[1] && e[15] == b[2] && e[16] == b[3];
    } else {
      assert e[13] == b[0] && e[14..] == b[1..];
    }
  }

  lemma Codes(m: Message)
    ensures m.SelectCall? ==> SelectIs(SelectCode(m.select), m.select)
    ensures m.AckFile? ==> AckIs(AckCode(m.ack), m.ack)
  {
  }

  lemma Le2(v: u16)
    ensures Asdu.Le(v, 2) == [v % 0x100, v / 0x100]
  {
    assert Asdu.Le(v / 0x100, 1) == [v / 0x100] + Asdu.Le(0, 0);
  }

  lemma Le3(v: u32)
    ensures Asdu.Le(v, 3) == [v % 0x100, v / 0x100 % 0x100, v / 0x1_0000 % 0x100]
  {
    var w := v / 0x100;
    assert w / 0x100 == v / 0x1_0000;
    assert Asdu.Le(w / 0x100, 1) == [w / 0x100 % 0x100] + Asdu.Le(w / 0x100 / 0x100, 0);
    assert Asdu.Le(w, 2) == [w % 0x100] + Asdu.Le(w / 0x100, 1);
  }

  /** The number in the two or three octets from `i` on, the lowest first. */
  function Number2(b: Bytes, i: nat): nat
    requires i + 2 <= |b|
  {
    var high: nat := b[i + 1];
    b[i] + 0x100 * high
  }

  function Number3(b: Bytes, i: nat): nat
    requires i + 3 <= |b|
  {
    var mid: nat, high: nat := b[i + 1], b[i + 2];
    b[i] + 0x100 * mid + 0x1_0000 * high
  }

  /** The octets behind the name of the file, read as a message of the type in the first octet. */
  ghost predicate Reads(b: Bytes, m: Message)
    requires |b| >= 11
  {
    match m
    case FileReady(_, lof, negative) =>
      b[0] == 120 && |b| >= 15 && lof == Number3(b, 11) && negative == (b[14] >= 0x80)
    case SectionReady(_, nos, los, negative) =>
      b[0] == 121 && |b| >= 17 && nos == Number2(b, 11) && los == Number3(b, 13) && negative == (b[16] >= 0x80)
    case SelectCall(_, nos, select) => b[0] == 122 && |b| >= 14 && nos == Number2(b, 11) && select == SelectOf(b[13])
    case LastSection(_, nos, chs) => b[0] == 123 && |b| >= 15 && nos == Number2(b, 11) && chs == b[14]
    case AckFile(_, nos, ack) => b[0] == 124 && |b| >= 14 && nos == Number2(b, 11) && ack == AckOf(b[13])
    case Segment(_, nos, data) =>
      && b[0] == 125 && |b| >= 14 && nos == Number2(b, 11)
      && |data| == b[13] && |b| - 14 >= |data| && data == b[14..14 + |data|]
  }

  /** Any octets decode to a message if and only if they hold it, whatever follows; else to nothing. */
  lemma {:induction false} DecodesIff(b: Bytes, m: Message)
    ensures Decode(b) == Some(m) <==> |b| >= 11 && m.nof == Number2(b, 9) && Reads(b, m)
  {
    hide Asdu.FromLe, Asdu.DecodeCot, Asdu.DecodeVsq, DecodeElements, Reads, Number2;
    if |b| >= 11 {
      var p := b[6..];
      assert p[3..] == b[9..] && p[3..][2..] == b[11..] && p[3..][..2] == b[9..11];
      From2(b, 9);
      ElementsIff(b, m, Number2(b, 9));
    }
  }

  lemma {:induction false} ElementsIff(b: Bytes, m: Message, nof: u16)
    requires |b| >= 11
    ensures DecodeElements(b[0], nof, b[11..]) == Some(m) <==> m.nof == nof && Reads(b, m)
  {
    hide Asdu.FromLe, SelectOf, AckOf, DecodeSection, Number2, Number3;
    if b[0] == 120 {
      if |b| >= 14 {
        assert b[11..][..3] == b[11..14] && b[11..][3..] == b[14..];
        From3(b, 11);
      }
    } else if |b| >= 13 {
      assert b[11..][..2] == b[11..13] && b[11..][2..] == b[13..];
      From2(b, 11);
      SectionIff(b, m, nof, Number2(b, 11));
    }
  }

  lemma {:induction false} SectionIff(b: Bytes, m: Message, nof: u16, nos: u16)
    requires |b| >= 13 && nos == Number2(b, 11) && b[0] != 120
    ensures DecodeSection(b[0], nof, nos, b[13..]) == Some(m) <==> m.nof == nof && Reads(b, m)
  {
    hide Asdu.FromLe, SelectOf, AckOf, Number2, Number3;
    if b[0] == 121 && |b| >= 16 {
      assert b[13..][..3] == b[13..16] && b[13..][3..] == b[16..];
      From3(b, 13);
    }
    if b[0] == 125 && |b| >= 14 {
      var n: nat := b[13];
      if |b| >= 14 + n { assert b[13..][1..1 + n] == b[14..14 + n]; }
    }
  }

  lemma {:induction false} From2(b: Bytes, i: nat)
    requires i + 2 <= |b|
    ensures Asdu.FromLe(b[i..i + 2]) == Number2(b, i) < 0x1_0000
  {
    var s := b[i..i + 2];
    assert s[1..] == [b[i + 1]];
    Asdu.OctetBack(b[i + 1]);
    assert Asdu.FromLe(s) == s[0] + 0x100 * Asdu.FromLe(s[1..]);
  }

  lemma {:induction false} From3(b: Bytes, i: nat)
    requires i + 3 <= |b|
    ensures Asdu.FromLe(b[i..i + 3]) == Number3(b, i) < 0x100_0000
  {
    var s := b[i..i + 3];
    assert s[1..] == b[i + 1..i + 3];
    From2(b, i + 1);
    assert Asdu.FromLe(s) == s[0] + 0x100 * Asdu.FromLe(s[1..]);
  }
}
