/** Types shared by every component. */
module Common {

  type byte = n: nat | n < 0x100
  type u16 = n: nat | n < 0x1_0000
  type u32 = n: nat | n < 0x1_0000_0000
  type Bytes = seq<byte>

  datatype Option<+T> = None | Some(value: T)

  function Min(a: nat, b: nat): nat { if a <= b then a else b }

  function Max(a: nat, b: nat): nat { if a <= b then b else a }

  /** Time elapsed since `earlier`, zero when the clock reads earlier than that. */
  function Elapsed(now: nat, earlier: nat): nat { if now >= earlier then now - earlier else 0 }
}
