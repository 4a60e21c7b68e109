/** Small value types shared by the model: an optional value (a C++ null pointer or an
    unset field) and the unsigned 32-bit integers that the records and SPIR-V words use. */
module Types {

  datatype Option<+T> = None | Some(value: T)

  const Uint32Modulus: int := 0x1_0000_0000

  /** `uint32_t`: the fields set, binding, size and location, and each SPIR-V word. */
  newtype uint32 = x: int | 0 <= x < 0x1_0000_0000

  /** The C++ conversion of an `int` into a `uint32_t` field: the value modulo 2^32. */
  function ToUint32(x: int): (r: uint32)
    ensures 0 <= x < Uint32Modulus ==> r as int == x
    ensures (x - r as int) % Uint32Modulus == 0
  {
    (x % Uint32Modulus) as uint32
  }
}
