/** Shared vocabulary: optional values, the machine-integer bounds of the proxy's
    counters, and the saturating arithmetic performed on them. */
module Prelude {


  datatype Option<+T> = None | Some(value: T)

  const U8_MAX: nat := 255
  const U32_MAX: nat := 0xFFFF_FFFF
  const U64_MAX: nat := 0xFFFF_FFFF_FFFF_FFFF

  type u32 = n: nat | n <= U32_MAX
  type u64 = n: nat | n <= U64_MAX

  function Min(a: int, b: int): int {
    if a <= b then a else b
  }

  function Max(a: int, b: int): int {
    if a <= b then b else a
  }

  function SatSub(a: nat, b: nat): nat {
    if a <= b then 0 else a - b
  }

  /** Ceiling division of non-negative integers. */
  function CeilDiv(a: nat, b: nat): nat
    requires b > 0
  {
    (a + b - 1) / b
  }
}
