/** Values shared by every model module. */
module Prelude {

  datatype Option<+T> = None | Some(value: T)

  /** The value stored under a key, if any. */
  function Get<K, V>(m: map<K, V>, k: K): Option<V> {
    if k in m then Some(m[k]) else None
  }

  const I64_MAX: int := 0x7fff_ffff_ffff_ffff
  const I64_MIN: int := -0x8000_0000_0000_0000
  const U64_MAX: nat := 0xffff_ffff_ffff_ffff
  const U32_MAX: nat := 0xffff_ffff

  function Clamp(x: int): (r: int)
    ensures I64_MIN <= r <= I64_MAX
  {
    if x < I64_MIN then I64_MIN else if x > I64_MAX then I64_MAX else x
  }

  /** `i64::saturating_sub`. */
  function SatSub(a: int, b: int): int {
    Clamp(a - b)
  }

  /** `i64::saturating_add`. */
  function SatAdd(a: int, b: int): int {
    Clamp(a + b)
  }
}
