/** 15-bit sequence numbers of the 104 control field, kept in a u16. */
module SeqNo {

  const MODULUS: nat := 0x8000
  const MAX: nat := 0x7FFF

  type Seq15 = n: nat | n < 0x8000

  /** The number an unbounded frame count is sent as. */
  function Wrap(n: nat): Seq15 { n % 0x8000 }

  /** u16 wrapping addition, then the mask down to 15 bits. */
  function Add(s: Seq15, n: nat): Seq15
    requires n < 0x1_0000
  {
    (s + n) % 0x1_0000 % 0x8000
  }

  function Next(s: Seq15): Seq15 { Add(s, 1) }

  function Distance(s: Seq15, later: Seq15): (d: Seq15) { (later + 0x8000 - s) % 0x8000 }

  /**
   * `Distance` is the one number of steps, below a full turn, from `s` to `later`;
   * the sum it is computed from stays inside a u16, so nothing wraps on the way.
   */
  lemma DistanceIsTheSteps(s: Seq15, later: Seq15, n: nat)
    requires n < MODULUS
    ensures later + MODULUS < 0x1_0000 && later + MODULUS - s >= 0
    ensures Add(s, n) == later <==> n == Distance(s, later)
  {
  }

  function ToWire(s: Seq15): (w: nat)
    ensures w < 0x1_0000 && w % 2 == 0 && FromWire(w) == s
  {
    s * 2
  }

  function FromWire(w: nat): Seq15 { w / 2 % 0x8000 }

  lemma NextWrap(n: nat)
    ensures Next(Wrap(n)) == Wrap(n + 1)
  {
  }

  lemma WrapAdd(a: nat, n: nat)
    ensures Wrap(Wrap(a) + n) == Wrap(a + n)
  {
  }

  /** Below one full turn, the cyclic distance is the difference of the counts. */
  lemma DistanceWrap(a: nat, b: nat)
    requires a <= b < a + MODULUS
    ensures Distance(Wrap(a), Wrap(b)) == b - a
  {
  }

  /** And it is never more than that difference. */
  lemma DistanceAtMost(a: nat, b: nat)
    requires a <= b
    ensures Distance(Wrap(a), Wrap(b)) <= b - a
  {
  }

  lemma DistanceOneStep(a: nat, later: Seq15)
    requires Distance(Wrap(a), later) >= 1
    ensures Distance(Wrap(a + 1), later) == Distance(Wrap(a), later) - 1
  {
  }
}
