/** CRC-16/IBM: the table-driven form against division bit by bit. */
module Crc16 {

  const POLYNOMIAL: bv16 := 0xA001

  /** An octet, in the low half of a word. */
  type Octet = b: bv16 | b & 0xFF00 == 0

  function Xor(a: bv16, b: bv16): bv16 { a ^ b }

  predicate Odd(c: bv16) { c & 1 != 0 }

  function Half(c: bv16): bv16 { c >> 1 }

  function High(c: bv16): Octet { c >> 8 }

  function Low(c: bv16): Octet { c & 0xFF }

  function Upper(c: bv16): bv16 { c & 0xFF00 }

  // ------------------------------------------------------------------
  // The reference: one message bit at a time, lowest bit of each octet first
  // ------------------------------------------------------------------

  /** The register after one message bit: shift, and subtract the polynomial when a one falls out. */
  function FeedBit(crc: bv16, bit: bool): bv16 {
    if Odd(crc) != bit then Xor(Half(crc), POLYNOMIAL) else Half(crc)
  }

  /** The lowest `n` bits of `b`, lowest first. */
  function FeedBits(crc: bv16, b: bv16, n: nat): bv16
    decreases n
  {
    if n == 0 then crc else FeedBits(FeedBit(crc, Odd(b)), Half(b), n - 1)
  }

  /** The register after a whole message. */
  function Remainder(data: seq<Octet>): bv16 {
    if data == [] then 0 else FeedBits(Remainder(data[..|data| - 1]), data[|data| - 1], 8)
  }

  // ------------------------------------------------------------------
  // The table
  // ------------------------------------------------------------------

  function Shift(c: bv16): bv16 { if Odd(c) then Xor(Half(c), POLYNOMIAL) else Half(c) }

  function Shifts(c: bv16, n: nat): bv16
    decreases n
  {
    if n == 0 then c else Shifts(Shift(c), n - 1)
  }

  function Index(x: Octet): int { x as int }

  function FromIndex(i: int): bv16
    requires 0 <= i < 256
  {
    i as bv16
  }

  lemma IndexInverse(x: Octet)
    ensures 0 <= Index(x) < 256 && FromIndex(Index(x)) == x
  {
    assert x < 256;
  }

  /** Entry `i` is `i` shifted eight times. */
  ghost predicate IsTable(table: seq<bv16>) {
    |table| == 256 && forall i :: 0 <= i < 256 ==> table[i] == Shifts(FromIndex(i), 8)
  }

  method BuildTable() returns (table: array<bv16>)
    ensures fresh(table) && IsTable(table[..])
  {
    hide Shifts, FromIndex;
    table := new bv16[256];
    var i := 0;
    while i < 256
      invariant 0 <= i <= 256 && table.Length == 256
      invariant forall k :: 0 <= k < i ==> table[k] == Shifts(FromIndex(k), 8)
    {
      var c := BuildEntry(FromIndex(i));
      table[i] := c;
      i := i + 1;
    }
  }

  method BuildEntry(start: bv16) returns (c: bv16)
    ensures c == Shifts(start, 8)
  {
    hide Xor, Odd, Half;
    c := start;
    var j := 0;
    while j < 8
      invariant 0 <= j <= 8 && Shifts(c, 8 - j) == Shifts(start, 8)
    {
      c := if Odd(c) then Xor(Half(c), POLYNOMIAL) else Half(c);
      j := j + 1;
    }
  }

  // ------------------------------------------------------------------
  // Facts about words
  // ------------------------------------------------------------------

  lemma XorHalf(a: bv16, b: bv16)
    ensures Half(Xor(a, b)) == Xor(Half(a), Half(b))
  {
  }

  lemma XorOdd(a: bv16, b: bv16)
    ensures Odd(Xor(a, b)) <==> Odd(a) != Odd(b)
  {
  }

  lemma XorSwap(a: bv16, b: bv16, p: bv16)
    ensures Xor(Xor(a, b), p) == Xor(Xor(a, p), b) == Xor(a, Xor(b, p))
  {
  }

  lemma XorCancel(a: bv16, b: bv16, p: bv16)
    ensures Xor(Xor(a, p), Xor(b, p)) == Xor(a, b) && Xor(Xor(a, p), p) == a && Xor(a, 0) == a && Xor(a, a) == 0
  {
  }

  lemma OctetParts(x: bv16)
    ensures Xor(Upper(x), Low(x)) == x
  {
  }

  lemma OctetAdded(crc: bv16, b: Octet)
    ensures High(Upper(Xor(crc, b))) == High(crc)
  {
  }

  lemma OctetTaken(crc: bv16)
    ensures Low(Xor(crc, Low(crc))) == 0 && High(High(crc)) == 0
  {
  }

  // ------------------------------------------------------------------
  // One octet by table is eight bits by division
  // ------------------------------------------------------------------

  /** Feeding a bit that was already added to the register is just shifting. */
  lemma {:induction false} FeedIsShift(c: bv16, r: bv16)
    ensures FeedBit(Xor(c, r), Odd(r)) == Xor(Shift(c), Half(r))
  {
    hide Xor, Odd, Half;
    XorHalf(c, r);
    XorOdd(c, r);
    XorSwap(Half(c), Half(r), POLYNOMIAL);
  }

  function Dropped(r: bv16, n: nat): bv16
    decreases n
  {
    if n == 0 then r else Dropped(Half(r), n - 1)
  }

  lemma {:induction false} FeedsAreShifts(c: bv16, r: bv16, n: nat)
    ensures FeedBits(Xor(c, r), r, n) == Xor(Shifts(c, n), Dropped(r, n))
    decreases n
  {
    hide FeedBit, Shift, Xor, Odd, Half;
    if n > 0 {
      FeedIsShift(c, r);
      FeedsAreShifts(Shift(c), Half(r), n - 1);
    }
  }

  /** Shifting is linear. */
  lemma {:induction false} ShiftLinear(a: bv16, b: bv16)
    ensures Shift(Xor(a, b)) == Xor(Shift(a), Shift(b))
  {
    hide Xor, Odd, Half;
    XorHalf(a, b);
    XorOdd(a, b);
    XorSwap(Half(a), Half(b), POLYNOMIAL);
    XorCancel(Half(a), Half(b), POLYNOMIAL);
  }

  lemma {:induction false} ShiftsLinear(a: bv16, b: bv16, n: nat)
    ensures Shifts(Xor(a, b), n) == Xor(Shifts(a, n), Shifts(b, n))
    decreases n
  {
    hide Shift, Xor;
    if n > 0 {
      ShiftLinear(a, b);
      ShiftsLinear(Shift(a), Shift(b), n - 1);
    }
  }

  /** An upper octet comes down unchanged in eight shifts. */
  lemma {:induction false} UpperOctet(x: bv16)
    requires x & 0x00FF == 0
    ensures Shifts(x, 8) == High(x)
  {
    hide Shifts;
    Unfold(x, 8);
    Unfold(x >> 1, 7);
    Unfold(x >> 2, 6);
    Unfold(x >> 3, 5);
    Unfold(x >> 4, 4);
    Unfold(x >> 5, 3);
    Unfold(x >> 6, 2);
    Unfold(x >> 7, 1);
    Unfold(x >> 8, 0);
  }

  lemma Unfold(x: bv16, n: nat)
    ensures n == 0 ==> Shifts(x, n) == x
    ensures n > 0 && x & 1 == 0 ==> Shifts(x, n) == Shifts(x >> 1, n - 1)
  {
  }

  lemma {:induction false} OctetDropped(r: Octet)
    ensures Dropped(r, 8) == 0
  {
    hide Dropped;
    DropOne(r, 8);
    DropOne(r >> 1, 7);
    DropOne(r >> 2, 6);
    DropOne(r >> 3, 5);
    DropOne(r >> 4, 4);
    DropOne(r >> 5, 3);
    DropOne(r >> 6, 2);
    DropOne(r >> 7, 1);
    DropOne(r >> 8, 0);
  }

  lemma DropOne(r: bv16, n: nat)
    ensures Dropped(r, n) == (if n == 0 then r else Dropped(r >> 1, n - 1))
  {
  }

  lemma UpperIsUpper(x: bv16)
    ensures Upper(x) & 0x00FF == 0
  {
  }

  lemma {:induction false} OctetStep(crc: bv16, b: Octet)
    ensures Xor(High(crc), Shifts(Low(Xor(crc, b)), 8)) == FeedBits(crc, b, 8)
  {
    hide Shifts, FeedBits, Dropped, Xor, High, Low, Upper;
    var x := Xor(crc, b);
    XorCancel(crc, 0, b);
    FeedsAreShifts(x, b, 8);
    OctetDropped(b);
    XorCancel(Shifts(x, 8), 0, 0);
    OctetParts(x);
    OctetAdded(crc, b);
    ShiftsLinear(Upper(x), Low(x), 8);
    UpperIsUpper(x);
    UpperOctet(Upper(x));
  }

  // ------------------------------------------------------------------
  // The theorem
  // ------------------------------------------------------------------

  /** With the built table the loop computes, for every message, what division bit by bit leaves. */
  method Crc16Ibm(data: seq<Octet>, table: array<bv16>) returns (crc: bv16)
    requires IsTable(table[..])
    ensures crc == Remainder(data)
  {
    hide Shifts, FeedBits, Index, FromIndex, Xor, High, Low;
    crc := 0;
    for n := 0 to |data|
      invariant crc == Remainder(data[..n])
    {
      IndexInverse(Low(Xor(crc, data[n])));
      OctetStep(crc, data[n]);
      assert data[..n + 1][..n] == data[..n];
      var i := Index(Low(Xor(crc, data[n])));
      assert table[..][i] == table[i];
      crc := Xor(High(crc), table[i]);
    }
    assert data[..|data|] == data;
  }

  /** A message followed by its own remainder, low octet first, leaves nothing. */
  lemma {:induction false} Residue(data: seq<Octet>)
    ensures var c := Remainder(data); Remainder(data + [Low(c)] + [High(c)]) == 0
  {
    hide Shifts, FeedBits, Xor, High, Low;
    var c := Remainder(data);
    var once := data + [Low(c)];
    assert once[..|once| - 1] == data && (once + [High(c)])[..|once|] == once;
    ZeroShifts();
    OctetStep(c, Low(c));
    OctetTaken(c);
    XorCancel(High(c), 0, 0);
    OctetStep(High(c), High(c));
    XorCancel(High(c), High(c), High(c));
    XorCancel(0, 0, 0);
  }

  lemma ZeroShifts()
    ensures Shifts(0, 8) == 0 && Low(0) == 0
  {
    UpperOctet(0);
  }
}
