/** The modulo-256 checksum of file sections and of FT 1.2 frames. */
module Checksum {
  import opened Common

  function Sum(data: Bytes): nat {
    if data == [] then 0 else Sum(data[..|data| - 1]) + data[|data| - 1]
  }

  /** The running checksum after `data`: the sum modulo 256. */
  function Fold(chs: byte, data: Bytes): byte { (chs + Sum(data)) % 0x100 }

  lemma {:induction false} SumAppend(a: Bytes, b: Bytes)
    ensures Sum(a + b) == Sum(a) + Sum(b)
  {
    if b == [] {
      assert a + b == a;
    } else {
      SumAppend(a, b[..|b| - 1]);
      assert (a + b)[..|a + b| - 1] == a + b[..|b| - 1];
    }
  }

  /** One octet more or less is seen in the sum, and in the sum modulo 256. */
  lemma {:induction false} SumUpdate(data: Bytes, i: nat, b: byte)
    requires i < |data|
    ensures Sum(data[i := b]) == Sum(data) - data[i] + b
    ensures b != data[i] ==> Sum(data[i := b]) % 0x100 != Sum(data) % 0x100
  {
    var n := |data| - 1;
    if i == n {
      assert data[i := b][..n] == data[..n];
    } else {
      SumUpdate(data[..n], i, b);
      assert data[i := b][..n] == data[..n][i := b];
    }
  }

  /** Folding slice by slice is folding the concatenation. */
  lemma {:induction false} FoldAppend(chs: byte, a: Bytes, b: Bytes)
    ensures Fold(Fold(chs, a), b) == Fold(chs, a + b)
  {
    SumAppend(a, b);
  }

  /** The checksum as a loop of wrapping additions. */
  method UpdateSlice(chs: byte, data: Bytes) returns (r: byte)
    ensures r == Fold(chs, data)
  {
    r := chs;
    for i := 0 to |data|
      invariant r == Fold(chs, data[..i])
    {
      assert data[..i + 1][..i] == data[..i];
      r := (r + data[i]) % 0x100;
    }
    assert data[..|data|] == data;
  }
}
