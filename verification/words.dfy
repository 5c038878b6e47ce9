/** Fixed-width integer types of the sensor component and the C++ meaning of
    `x++` on them. Dafny integers are unbounded, so every wrap-around the
    component relies on is written out here. */
module Words {

  /** Number of values of a 16-bit word. */
  const WORD: int := 0x1_0000

  /** `uint16_t`: counters, lengths and the reader cursor. */
  type u16 = x: int | 0 <= x < 0x1_0000

  /** `int16_t` / `short`: ring samples and the packet's pulse count. */
  type i16 = x: int | -0x8000 <= x < 0x8000

  /** `x++` on a `uint16_t`: 65535 wraps to 0. */
  function IncU16(x: u16): u16
  {
    if x == 0xFFFF then 0 else x + 1
  }

  /** `x++` on a `short` (two's complement): 32767 wraps to -32768. */
  function IncI16(x: i16): i16
  {
    if x == 0x7FFF then -0x8000 else x + 1
  }

  /** `x++` on a `uint16_t` only when `b` holds. */
  function Bump(x: u16, b: bool): u16
  {
    if b then IncU16(x) else x
  }

  /** `n` increments of a `uint16_t`, taken all at once. */
  function AddU16(x: u16, n: nat): u16
  {
    (x + n) % WORD
  }

  /** One increment followed by `n` more is `n + 1` increments. */
  lemma BumpThenAdd(x: u16, b: bool, n: nat)
    ensures AddU16(Bump(x, b), n) == AddU16(x, n + (if b then 1 else 0))
  {
  }
}
