/** Words of the source's machine, powers of two, and an optional value. */
module Common {
  const U32 := 0x1_0000_0000
  const U64 := 0x1_0000_0000_0000_0000

  function Pow2(k: nat): (m: nat)
    ensures m >= 1
  {
    if k == 0 then 1 else 2 * Pow2(k - 1)
  }

  datatype Option<T> = None | Some(value: T)
}
