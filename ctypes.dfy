/** The fixed-width integer types of the C++ program. */
module CTypes {

  const MinInt32: int := -0x8000_0000
  const UInt32Modulus: int := 0x1_0000_0000

  /** C++ `int` (32-bit, two's complement). */
  newtype int32 = x: int | -0x8000_0000 <= x < 0x8000_0000

  /** `GLuint` (32-bit unsigned; arithmetic wraps modulo 2^32). */
  newtype uint32 = x: int | 0 <= x < 0x1_0000_0000

  /** An integer converted to `GLuint`: reduced modulo 2^32. */
  function ToUInt32(x: int): (r: uint32)
    ensures 0 <= x < UInt32Modulus ==> r as int == x
    ensures (x - r as int) % UInt32Modulus == 0
  {
    (x % UInt32Modulus) as uint32
  }
}
