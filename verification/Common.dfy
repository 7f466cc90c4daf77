/** Small types and the integer bounds shared by every component. */
module Common {

  const U32_BOUND: nat := 0x1_0000_0000
  const U32_MAX: nat := U32_BOUND - 1
  const U64_BOUND: nat := 0x1_0000_0000_0000_0000

  type u32 = n: nat | n < U32_BOUND

  newtype byte = x: int | 0 <= x < 256

  type Bytes = seq<byte>

  datatype Option<+T> = None | Some(value: T)

  datatype Result<+T, +E> = Ok(value: T) | Err(error: E)
}
