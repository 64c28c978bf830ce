/** Fixed-width integers and the optional value used across the model.

    The runtime stores every count in 32 bits and every identity, tick and cost in
    64 bits.  The widths are subset types here, so a value that would leave its width
    has to be wrapped or refused explicitly, exactly where the runtime does so.
  */
module Ints {
  const MAX_U32: nat := 0xFFFF_FFFF
  const MAX_U64: nat := 0xFFFF_FFFF_FFFF_FFFF
  const TWO_32: nat := 0x1_0000_0000
  const TWO_64: nat := 0x1_0000_0000_0000_0000

  type U8 = x: nat | x < 256
  type U16 = x: nat | x < 0x1_0000
  type U32 = x: nat | x < 0x1_0000_0000
  type U64 = x: nat | x < 0x1_0000_0000_0000_0000
  type I64 = x: int | -0x8000_0000_0000_0000 <= x < 0x8000_0000_0000_0000

  datatype Option<+T> = None | Some(value: T)

  // Unsigned 32-bit and 64-bit arithmetic that nothing checks: results are reduced.
  function Wrap32(x: int): U32 {
    x % 0x1_0000_0000
  }

  function Wrap64(x: int): U64 {
    x % 0x1_0000_0000_0000_0000
  }

  // A signed 64-bit value reinterpreted as unsigned, as a static_cast does.
  function AsUnsigned(x: I64): U64 {
    if x < 0 then x + 0x1_0000_0000_0000_0000 else x
  }

  // The flooring difference the objective uses for increases.
  function Rise(before: nat, after: nat): nat {
    if after > before then after - before else 0
  }
}
