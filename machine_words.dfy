/** The fixed-width unsigned integers of the RP2040 sketch (uint8_t, uint32_t,
    uint64_t) as subsets of nat, with the wrap-around of their arithmetic
    written out. */
module MachineWords {
  const TWO_8: nat := 0x100
  const TWO_32: nat := 0x1_0000_0000
  const TWO_64: nat := 0x1_0000_0000_0000_0000

  type u8 = x: nat | x < 0x100
  type u32 = x: nat | x < 0x1_0000_0000
  type u64 = x: nat | x < 0x1_0000_0000_0000_0000

  const U32_MAX: u32 := 0xFFFF_FFFF

  /** `a - b` on uint32_t: the difference taken modulo 2^32. */
  function Sub32(a: u32, b: u32): (r: u32)
    ensures b <= a ==> r == a - b
    ensures a < b ==> r == a + TWO_32 - b
  {
    (a - b) % TWO_32
  }

  /** `a + b` on uint32_t. */
  function Add32(a: u32, b: u32): (r: u32)
    ensures a + b < TWO_32 ==> r == a + b
    ensures TWO_32 <= a + b ==> r == a + b - TWO_32
  {
    (a + b) % TWO_32
  }

  /** A free-running microsecond or millisecond counter is a true time `t`
      read modulo 2^32. Subtracting two readings on uint32_t gives back the
      true elapsed time whenever it is shorter than one wrap of the counter. */
  lemma WrappedElapsed(t0: nat, t1: nat)
    requires t0 <= t1 < t0 + TWO_32
    ensures Sub32(t1 % TWO_32, t0 % TWO_32) == t1 - t0
  {
  }
}
