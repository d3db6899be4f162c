/** Small shared vocabulary: optional values and the 64-bit saturating arithmetic
    the server's counters and clocks use. */
module Prelude {

  datatype Option<+T> = None | Some(value: T)

  const U64_MAX: nat := 0xFFFF_FFFF_FFFF_FFFF

  /** `u64::saturating_add`. */
  function SatAdd(a: nat, b: nat): nat {
    if a + b <= U64_MAX then a + b else U64_MAX
  }

  /** `u64::saturating_sub`. */
  function SatSub(a: nat, b: nat): nat {
    if a >= b then a - b else 0
  }

  function Max(a: nat, b: nat): nat {
    if a >= b then a else b
  }

  /** `a.div_ceil(b)`. */
  function DivCeil(a: nat, b: nat): nat
    requires b > 0
  {
    (a + b - 1) / b
  }
}
