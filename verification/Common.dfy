/** Types shared by every component: the Rust `Option`/`Result` shapes, bytes and machine-word bounds. */
module Common {
  datatype Option<+T> = None | Some(value: T)

  datatype Result<+T, +E> = Ok(value: T) | Err(error: E)

  type byte = b: int | 0 <= b < 256

  type Bytes = seq<byte>

  const U16_LIMIT: int := 0x1_0000
  const U32_LIMIT: int := 0x1_0000_0000
  const U64_LIMIT: int := 0x1_0000_0000_0000_0000
  const I64_LIMIT: int := 0x8000_0000_0000_0000

  type u16 = n: nat | n < U16_LIMIT
  type u32 = n: nat | n < U32_LIMIT
  type u64 = n: nat | n < U64_LIMIT
  type i64 = n: int | -I64_LIMIT <= n < I64_LIMIT

  function Min(a: int, b: int): int { if a <= b then a else b }

  function Max(a: int, b: int): int { if a >= b then a else b }
}
