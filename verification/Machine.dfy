/** Unsigned 64-bit arithmetic. */
module Machine {
  const TWO_64: nat := 0x1_0000_0000_0000_0000

  function Wrap(x: int): nat {
    x % TWO_64
  }
}
