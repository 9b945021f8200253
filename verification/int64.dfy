/** Go's int64: sums wrap, division truncates toward zero. */
module Int64 {
  const INT64_MAX: int := 0x7FFF_FFFF_FFFF_FFFF

  function Wrap64(x: int): int {
    (x + 0x8000_0000_0000_0000) % 0x1_0000_0000_0000_0000 - 0x8000_0000_0000_0000
  }

  function Quotient(x: int, y: int): int
    requires y > 0
  {
    if x >= 0 then x / y else -((-x) / y)
  }
}
