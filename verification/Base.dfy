/** Shared vocabulary: optional values and the 32-bit arithmetic of the C sources. */
module Base {

  datatype Option<+T> = None | Some(value: T)

  /** One more than the largest uint32_t. */
  const U32: nat := 0x1_0000_0000

  /** Bitwise exclusive or of two non-negative numbers. */
  function Xor(a: nat, b: nat): (r: nat)
    decreases a
  {
    if a == 0 then b
    else (a % 2 + b % 2) % 2 + 2 * Xor(a / 2, b / 2)
  }

  /** Powers of two, by doubling. */
  function Pow2(n: nat): (r: nat)
    ensures r >= 1
  {
    if n == 0 then 1 else 2 * Pow2(n - 1)
  }
}
