/** Octets and the small helpers every module of the model shares. */
module Bytes {
  type byte = x: int | 0 <= x < 256

  const UINT16_SPAN: nat := 0x1_0000
  const UINT32_SPAN: nat := 0x1_0000_0000
  const UINT64_SPAN: nat := 0x1_0000_0000_0000_0000

  datatype Option<+T> = None | Some(value: T)

  function Min(a: nat, b: nat): nat {
    if a < b then a else b
  }

  lemma MulGrows(a: int, b: int, m: nat)
    ensures a <= b ==> a * m <= b * m
  {
  }
}
