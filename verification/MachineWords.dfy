/** The integer widths of the program. */
module MachineWords {

  const TWO_64: nat := 0x1_0000_0000_0000_0000
  const TWO_128: nat := 0x1_0000_0000_0000_0000_0000_0000_0000_0000
  const I64_MAX: int := 0x7FFF_FFFF_FFFF_FFFF

  type u64 = n: nat | n < TWO_64

  function SaturatingMul(a: u64, b: u64): (r: u64)
    ensures r <= a * b && (r == a * b || r == TWO_64 - 1)
  {
    if a * b < TWO_64 then a * b else TWO_64 - 1
  }
}
