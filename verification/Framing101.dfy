/** The FT 1.2 codec: single characters, fixed-length and variable-length frames. */
module Framing101 {
  import opened Checksum
  import opened Common
  import opened Control101

  const START_FIXED: byte := 0x10
  const START_VAR: byte := 0x68
  const END: byte := 0x16

  datatype AddressSize = One | Two
  {
    function Len(): nat { if One? then 1 else 2 }
  }

  datatype Error =
    | InvalidStartByte(got: byte)
    | LengthOctetsDiffer(first: byte, second: byte)
    | LengthMismatch(declared: byte)
    | InvalidEndByte(got: byte)
    | ChecksumMismatch(expected: byte, got: byte)

  datatype Decoded = NeedMore | Complete(frame: Frame, consumed: nat) | Malformed(error: Error)

  function SingleByte(c: SingleChar): byte { if c == AckChar then 0xE5 else 0xA2 }

  /** The address in its width; in one octet the upper one is dropped. */
  function Address(a: u16, size: AddressSize): Bytes {
    if size == One then [a % 0x100] else [a % 0x100, a / 0x100]
  }

  function FromAddress(b: Bytes, size: AddressSize): u16
    requires |b| == size.Len()
  {
    if size == One then b[0] else var high: nat := b[1]; b[0] + 0x100 * high
  }

  /** Sum modulo 256 of everything from the control octet on. */
  function ChecksumOf(control: byte, address: u16, size: AddressSize, asdu: Bytes): byte {
    (control + Sum(Address(address, size)) + Sum(asdu)) % 0x100
  }

  /** The length octet; a longer ASDU would have it cut to eight bits. */
  function LengthOf(size: AddressSize, asdu: Bytes): byte { (1 + size.Len() + |asdu|) % 0x100 }

  function Encode(f: Frame, size: AddressSize): Bytes {
    match f
    case Single(c) => [SingleByte(c)]
    case Fixed(control, address) =>
      [START_FIXED, control] + Address(address, size) + [ChecksumOf(control, address, size, []), END]
    case Variable(control, address, asdu) =>
      var length := LengthOf(size, asdu);
      [START_VAR, length, length, START_VAR, control] + Address(address, size) + asdu
      + [ChecksumOf(control, address, size, asdu), END]
  }

  function DecodeFixed(buf: Bytes, size: AddressSize): Decoded {
    var n := size.Len();
    if |buf| < n + 4 then NeedMore else
    var control, address := buf[1], FromAddress(buf[2..2 + n], size);
    var cs := ChecksumOf(control, address, size, []);
    if buf[n + 3] != END then Malformed(InvalidEndByte(buf[n + 3]))
    else if cs != buf[n + 2] then Malformed(ChecksumMismatch(cs, buf[n + 2]))
    else Complete(Fixed(control, address), n + 4)
  }

  /** The body of a variable frame of `length` octets from the control octet to the end of the ASDU. */
  function DecodeBody(buf: Bytes, length: nat, size: AddressSize): Decoded
    requires 1 + size.Len() <= length && |buf| >= length + 6
  {
    var n := size.Len();
    if buf[3] != START_VAR then Malformed(InvalidStartByte(buf[3])) else
    var control, address, asdu := buf[4], FromAddress(buf[5..5 + n], size), buf[5 + n..4 + length];
    var cs := ChecksumOf(control, address, size, asdu);
    if buf[5 + length] != END then Malformed(InvalidEndByte(buf[5 + length]))
    else if cs != buf[4 + length] then Malformed(ChecksumMismatch(cs, buf[4 + length]))
    else Complete(Variable(control, address, asdu), length + 6)
  }

  function DecodeVariable(buf: Bytes, size: AddressSize): Decoded {
    if |buf| < 6 then NeedMore
    else if buf[1] != buf[2] then Malformed(LengthOctetsDiffer(buf[1], buf[2]))
    else
      var length: nat := buf[1];
      if length < 1 + size.Len() then Malformed(LengthMismatch(buf[1]))
      else if |buf| < length + 6 then NeedMore
      else DecodeBody(buf, length, size)
  }

  function DecodeSlice(buf: Bytes, size: AddressSize): Decoded {
    if buf == [] then NeedMore
    else if buf[0] == 0xE5 then Complete(Single(AckChar), 1)
    else if buf[0] == 0xA2 then Complete(Single(NackChar), 1)
    else if buf[0] == START_FIXED then DecodeFixed(buf, size)
    else if buf[0] == START_VAR then DecodeVariable(buf, size)
    else Malformed(InvalidStartByte(buf[0]))
  }

  // ------------------------------------------------------------------
  // The checksum loop
  // ------------------------------------------------------------------

  /** The address is one addend in one octet, two in two; the sum is kept in a u16 and may wrap. */
  method ChecksumFixed(control: byte, address: u16, size: AddressSize) returns (r: byte)
    ensures r == ChecksumOf(control, address, size, [])
  {
    hide ChecksumOf;
    ChecksumOfFixed(control, address, size);
    var sum: u16 := control;
    match size {
      case One =>
        WrapThenCut(sum + address);
        CutAddend(control, address);
        sum := (sum + address) % 0x1_0000;
      case Two =>
        sum := sum + address % 0x100;
        sum := sum + address / 0x100;
    }
    r := sum % 0x100;
  }

  lemma {:induction false} ChecksumOfFixed(control: byte, address: u16, size: AddressSize)
    ensures ChecksumOf(control, address, size, []) ==
            (control + (if size == One then address % 0x100 else address % 0x100 + address / 0x100)) % 0x100
  {
    SumOfAddress(address, size);
  }

  lemma WrapThenCut(x: nat)
    ensures x % 0x1_0000 % 0x100 == x % 0x100
  {
    var q := x / 0x1_0000;
    assert x == 0x100 * (0x100 * q) + x % 0x1_0000;
  }

  lemma CutAddend(c: nat, x: nat)
    ensures (c + x) % 0x100 == (c + x % 0x100) % 0x100
  {
    var r := c + x % 0x100;
    assert c + x == 0x100 * (x / 0x100 + r / 0x100) + r % 0x100;
  }

  lemma SumOfAddress(address: u16, size: AddressSize)
    ensures Sum(Address(address, size)) == (if size == One then address % 0x100 else address % 0x100 + address / 0x100)
  {
    SumOne(address % 0x100);
    if size == Two {
      SumOne(address / 0x100);
      SumAppend([address % 0x100], [address / 0x100]);
      assert [address % 0x100] + [address / 0x100] == Address(address, size);
    }
  }

  lemma SumOne(b: byte)
    ensures Sum([b]) == b
  {
    assert [b][..0] == [];
  }

  /** The ASDU can be added to the checksum of what comes before it. */
  lemma {:induction false} ChecksumFolds(control: byte, address: u16, size: AddressSize, asdu: Bytes)
    ensures ChecksumOf(control, address, size, asdu) == Fold(ChecksumOf(control, address, size, []), asdu)
  {
    hide Sum, Address;
    NoOctets();
    CutAddend(Sum(asdu), control + Sum(Address(address, size)));
  }

  method ChecksumVariable(control: byte, address: u16, size: AddressSize, asdu: Bytes) returns (r: byte)
    ensures r == ChecksumOf(control, address, size, asdu)
  {
    hide ChecksumOf;
    var first := ChecksumFixed(control, address, size);
    var sum: u16 := first;
    for i := 0 to |asdu|
      invariant sum == Fold(first, asdu[..i])
    {
      assert asdu[..i + 1][..i] == asdu[..i];
      sum := (sum + asdu[i]) % 0x100;
    }
    assert asdu[..|asdu|] == asdu;
    ChecksumFolds(control, address, size, asdu);
    r := sum;
  }

  // ------------------------------------------------------------------
  // Self-delimiting
  // ------------------------------------------------------------------

  /** A frame is encodable when its address fits its width and its length fits the length octet. */
  predicate Encodable(f: Frame, size: AddressSize) {
    match f
    case Single(_) => true
    case Fixed(_, address) => size == One ==> address < 0x100
    case Variable(_, address, asdu) => (size == One ==> address < 0x100) && 1 + size.Len() + |asdu| <= 0xFF
  }

  lemma {:induction false} AddressRoundTrip(a: u16, size: AddressSize)
    requires size == One ==> a < 0x100
    ensures |Address(a, size)| == size.Len() && FromAddress(Address(a, size), size) == a
  {
  }

  lemma {:induction false} FixedRoundTrip(control: byte, address: u16, size: AddressSize)
    requires Encodable(Fixed(control, address), size)
    ensures var e := Encode(Fixed(control, address), size);
            DecodeFixed(e, size) == Complete(Fixed(control, address), |e|)
  {
    hide Address, FromAddress, ChecksumOf;
    AddressRoundTrip(address, size);
    var e := Encode(Fixed(control, address), size);
    assert e[2..2 + size.Len()] == Address(address, size);
  }

  lemma {:induction false} VariableRoundTrip(control: byte, address: u16, asdu: Bytes, size: AddressSize)
    requires Encodable(Variable(control, address, asdu), size)
    ensures var e := Encode(Variable(control, address, asdu), size);
            DecodeVariable(e, size) == Complete(Variable(control, address, asdu), |e|)
  {
    hide Address, FromAddress, ChecksumOf;
    AddressRoundTrip(address, size);
    var e, n := Encode(Variable(control, address, asdu), size), size.Len();
    var length := 1 + n + |asdu|;
    assert e[5..5 + n] == Address(address, size);
    assert e[5 + n..4 + length] == asdu;
  }

  /** More octets behind a frame or an error do not change it. */
  lemma {:induction false} Stable(buf: Bytes, more: Bytes, size: AddressSize)
    requires DecodeSlice(buf, size) != NeedMore
    ensures DecodeSlice(buf + more, size) == DecodeSlice(buf, size)
  {
    hide FromAddress, ChecksumOf;
    var n := size.Len();
    if buf[0] == START_FIXED {
      assert (buf + more)[2..2 + n] == buf[2..2 + n];
    } else if buf[0] == START_VAR && buf[1] == buf[2] && 1 + n <= buf[1] {
      var length: nat := buf[1];
      assert (buf + more)[5..5 + n] == buf[5..5 + n];
      assert (buf + more)[5 + n..4 + length] == buf[5 + n..4 + length];
    }
  }

  /** An encodable frame, whatever follows it, decodes to itself and to exactly its own length. */
  lemma {:induction false} RoundTrip(f: Frame, size: AddressSize, rest: Bytes)
    requires Encodable(f, size)
    ensures DecodeSlice(Encode(f, size) + rest, size) == Complete(f, |Encode(f, size)|)
  {
    hide Address, FromAddress, ChecksumOf, DecodeFixed, DecodeVariable;
    match f {
      case Single(_) =>
      case Fixed(control, address) => FixedRoundTrip(control, address, size);
      case Variable(control, address, asdu) => VariableRoundTrip(control, address, asdu, size);
    }
    Stable(Encode(f, size), rest, size);
  }

  /** No proper prefix of an encoded frame decodes to anything, and what needs more has at most 260 octets. */
  lemma {:induction false} PrefixNeedsMore(f: Frame, size: AddressSize, n: nat)
    requires Encodable(f, size) && n < |Encode(f, size)|
    ensures DecodeSlice(Encode(f, size)[..n], size) == NeedMore
  {
    hide ChecksumOf;
  }

  lemma {:induction false} NeedMoreIsShort(buf: Bytes, size: AddressSize)
    ensures DecodeSlice(buf, size) == NeedMore ==> |buf| <= 260
    ensures DecodeSlice(buf, size).Complete? ==> 1 <= DecodeSlice(buf, size).consumed <= |buf|
  {
    hide ChecksumOf, FromAddress;
  }

  /**
   * What is not encodable is not refused: the length octet is cut, or the upper octet of the address
   * dropped. So a frame survives if and only if its address fits its width and its ASDU the length octet.
   */
  lemma {:induction false} SurvivesIff(f: Frame, size: AddressSize)
    ensures DecodeSlice(Encode(f, size), size) == Complete(f, |Encode(f, size)|) <==> Encodable(f, size)
  {
    hide ChecksumOf;
    if Encodable(f, size) {
      RoundTrip(f, size, []);
      assert Encode(f, size) + [] == Encode(f, size);
    } else {
      NarrowAddress(f, size);
    }
  }

  /** One octet holds no address above 255. */
  lemma {:induction false} NarrowAddress(f: Frame, size: AddressSize)
    requires !Encodable(f, size)
    ensures DecodeSlice(Encode(f, size), size) != Complete(f, |Encode(f, size)|)
  {
    hide ChecksumOf;
  }

  // ------------------------------------------------------------------
  // What is accepted
  // ------------------------------------------------------------------

  lemma {:induction false} AddressDecodes(b: Bytes, size: AddressSize)
    requires |b| == size.Len()
    ensures Address(FromAddress(b, size), size) == b && (size == One ==> FromAddress(b, size) < 0x100)
  {
  }

  lemma {:induction false} FixedAccepted(buf: Bytes, size: AddressSize)
    requires buf != [] && buf[0] == START_FIXED && DecodeFixed(buf, size).Complete?
    ensures var d := DecodeFixed(buf, size); Encodable(d.frame, size) && Encode(d.frame, size) == buf[..d.consumed]
  {
    hide Address, FromAddress, ChecksumOf;
    AddressDecodes(buf[2..2 + size.Len()], size);
  }

  lemma {:induction false} BodyAccepted(buf: Bytes, length: nat, size: AddressSize)
    requires 1 + size.Len() <= length && |buf| >= length + 6 && buf[0] == START_VAR && buf[1] == buf[2] == length
    requires DecodeBody(buf, length, size).Complete?
    ensures var d := DecodeBody(buf, length, size);
            Encodable(d.frame, size) && Encode(d.frame, size) == buf[..d.consumed]
  {
    hide Address, FromAddress, ChecksumOf;
    var n := size.Len();
    AddressDecodes(buf[5..5 + n], size);
    assert buf[5 + n..4 + length] == DecodeBody(buf, length, size).frame.asdu;
  }

  /**
   * The decoder accepts nothing but encoded frames: it finds a frame of `n` octets at the front of a
   * buffer if and only if the frame is encodable and its encoding is those octets.
   */
  lemma {:induction false} AcceptsIff(buf: Bytes, size: AddressSize, f: Frame, n: nat)
    ensures DecodeSlice(buf, size) == Complete(f, n) <==>
            Encodable(f, size) && n <= |buf| && Encode(f, size) == buf[..n]
  {
    hide Address, FromAddress, ChecksumOf, DecodeFixed, DecodeBody, Encode, Encodable;
    var d := DecodeSlice(buf, size);
    if d.Complete? {
      NeedMoreIsShort(buf, size);
      if buf[0] == START_FIXED {
        FixedAccepted(buf, size);
      } else if buf[0] == START_VAR {
        BodyAccepted(buf, buf[1], size);
      } else {
        SingleAccepted(buf, size);
      }
    }
    if Encodable(f, size) && n <= |buf| && Encode(f, size) == buf[..n] {
      RoundTrip(f, size, buf[n..]);
      assert buf[..n] + buf[n..] == buf;
    }
  }

  lemma {:induction false} SingleAccepted(buf: Bytes, size: AddressSize)
    requires buf != [] && DecodeSlice(buf, size).Complete? && buf[0] != START_FIXED && buf[0] != START_VAR
    ensures var d := DecodeSlice(buf, size);
            d.consumed == 1 && Encodable(d.frame, size) && Encode(d.frame, size) == buf[..1]
  {
  }

  /** Where the content that the checksum covers begins: at the control octet. */
  function From(f: Frame): nat { if f.Fixed? then 1 else 4 }

  /** The checksum octet is the sum modulo 256 of the octets from the control octet on. */
  ghost predicate Summed(e: Bytes, from: nat) {
    from + 3 <= |e| && e[|e| - 2] == Sum(e[from..|e| - 2]) % 0x100 && e[|e| - 1] == 0x16
  }

  ghost predicate AddressAt(e: Bytes, i: nat, address: u16, size: AddressSize) {
    && i + size.Len() <= |e| && e[i] == address % 0x100 && (size == Two ==> e[i + 1] == address / 0x100)
  }

  /** The octets of an encodable frame, one by one. */
  lemma {:induction false} Layout(f: Frame, size: AddressSize)
    requires Encodable(f, size)
    ensures var e, n := Encode(f, size), size.Len();
            match f
            case Single(c) => e == [if c == AckChar then 0xE5 else 0xA2]
            case Fixed(control, address) =>
              |e| == n + 4 && e[0] == 0x10 && e[1] == control && AddressAt(e, 2, address, size) && Summed(e, 1)
            case Variable(control, address, asdu) =>
              && |e| == n + |asdu| + 7 && e[0] == 0x68 && e[1] == e[2] == 1 + n + |asdu| && e[3] == 0x68
              && e[4] == control && AddressAt(e, 5, address, size) && e[5 + n..5 + n + |asdu|] == asdu && Summed(e, 4)
  {
    hide Sum;
    var e, n := Encode(f, size), size.Len();
    if !f.Single? {
      var asdu := if f.Variable? then f.asdu else [];
      assert e[From(f)..|e| - 2] == [f.control] + Address(f.address, size) + asdu;
      SumOne(f.control);
      SumAppend([f.control], Address(f.address, size));
      SumAppend([f.control] + Address(f.address, size), asdu);
      assert Sum([]) == 0 by { NoOctets(); }
    }
  }

  lemma NoOctets()
    ensures Sum([]) == 0
  {
  }

  lemma {:induction false} SumDiffers(e: Bytes, from: nat, i: nat, b: byte)
    requires Summed(e, from) && from <= i <= |e| - 2 && b != e[i]
    ensures !Summed(e[i := b], from)
  {
    hide Sum;
    var c := e[i := b];
    if i < |e| - 2 {
      SumUpdate(e[from..|e| - 2], i - from, b);
      assert c[from..|e| - 2] == e[from..|e| - 2][i - from := b];
    } else {
      assert c[from..|e| - 2] == e[from..|e| - 2];
    }
  }

  /** A buffer with a frame's outer octets, but the wrong sum. */
  lemma {:induction false} WrongSum(f: Frame, size: AddressSize, c: Bytes)
    requires Encodable(f, size) && !f.Single? && |c| == |Encode(f, size)| && !Summed(c, From(f))
    requires forall j :: 0 <= j < From(f) || j == |c| - 1 ==> c[j] == Encode(f, size)[j]
    ensures DecodeSlice(c, size).Malformed? && DecodeSlice(c, size).error.ChecksumMismatch?
  {
    hide Sum, ChecksumOf, FromAddress, Address, Encode, Summed;
    Layout(f, size);
    SumsUp(Encode(f, size), From(f));
    assert c[0] == Encode(f, size)[0] && c[|c| - 1] == Encode(f, size)[|c| - 1];
    if f.Variable? {
      assert c[1] == Encode(f, size)[1] && c[2] == Encode(f, size)[2] && c[3] == Encode(f, size)[3];
    }
    var d := DecodeSlice(c, size);
    assert c[..|c|] == c;
    if d.Complete? {
      AcceptsIff(c, size, d.frame, d.consumed);
      Layout(d.frame, size);
    }
  }

  lemma SumsUp(e: Bytes, from: nat)
    requires Summed(e, from)
    ensures from + 3 <= |e| && e[|e| - 1] == 0x16
  {
  }

  /**
   * One octet of an encoded frame changed on the way is always noticed: the buffer never decodes to a
   * frame of that length, and behind the first octet the decoder says which rule was broken.
   */
  lemma {:induction false} OneOctetChanged(f: Frame, size: AddressSize, i: nat, b: byte)
    requires Encodable(f, size) && !f.Single? && i < |Encode(f, size)| && b != Encode(f, size)[i]
    ensures var e := Encode(f, size);
            var d := DecodeSlice(e[i := b], size);
            && !(d.Complete? && d.consumed == |e|)
            && (From(f) <= i <= |e| - 2 ==> d.Malformed? && d.error.ChecksumMismatch?)
            && (i == |e| - 1 ==> d == Malformed(InvalidEndByte(b)))
            && (1 <= i <= 2 < From(f) ==> d.Malformed? && d.error.LengthOctetsDiffer?)
            && (i == 3 < From(f) ==> d == Malformed(InvalidStartByte(b)))
  {
    hide Sum, ChecksumOf, FromAddress, Address, Encode, Summed;
    Layout(f, size);
    var e := Encode(f, size);
    SumsUp(e, From(f));
    if From(f) <= i <= |e| - 2 {
      SumDiffers(e, From(f), i, b);
      WrongSum(f, size, e[i := b]);
    }
  }
}
