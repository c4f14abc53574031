/** Unsigned 32-bit integers as the source's uint32_t / uint fields hold them. */
module UInt32 {

  const Modulus: int := 0x1_0000_0000

  newtype u32 = x: int | 0 <= x < 0x1_0000_0000

  /** x + 1 with the wrap-around of unsigned 32-bit arithmetic. */
  function Inc(x: u32): (r: u32)
    ensures r as int == (x as int + 1) % Modulus
  {
    if x == 0xFFFF_FFFF then 0 else x + 1
  }

  /** Wrapping at the even modulus 2^32 keeps the parity of x + 1. */
  lemma IncParity(x: u32)
    ensures Inc(x) as int % 2 == (x as int + 1) % 2
  {
    if x == 0xFFFF_FFFF {
      assert (x as int + 1) % 2 == 0;
    }
  }

  /** x + k with the wrap-around of unsigned 32-bit arithmetic. */
  function AddWrap(x: u32, k: nat): (r: u32)
  {
    ((x as int + k) % Modulus) as u32
  }

  /** One more increment after adding k is adding k + 1; adding 0 changes nothing. */
  lemma AddWrapStep(x: u32, k: nat)
    ensures AddWrap(x, 0) == x
    ensures Inc(AddWrap(x, k)) == AddWrap(x, k + 1)
  {
    var q := (x as int + k) / Modulus;
    assert x as int + k == q * Modulus + AddWrap(x, k) as int;
    assert x as int + k + 1 == q * Modulus + (AddWrap(x, k) as int + 1);
  }
}
