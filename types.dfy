/** Fixed-width unsigned integers of the Rust source and the optional-value wrapper. */
module Types {

  const U32_LIMIT: int := 0x1_0000_0000
  const U64_LIMIT: int := 0x1_0000_0000_0000_0000

  /** Rust's `u32`. */
  type uint32 = x: int | 0 <= x < U32_LIMIT

  /** Rust's `u64`. */
  type uint64 = x: int | 0 <= x < U64_LIMIT

  /** The string form of a short channel id, the key of every per-channel map. */
  type ChannelId = string

  datatype Option<+T> = None | Some(value: T)

  /** A value computed in unbounded arithmetic, as a `u32` when it fits; `None` stands for
      the panic ("attempt to add/subtract with overflow") of Rust's checked arithmetic. */
  function CheckedU32(x: int): (r: Option<uint32>)
    ensures r.Some? <==> 0 <= x < U32_LIMIT
    ensures r.Some? ==> r.value == x
  {
    if 0 <= x < U32_LIMIT then Some(x) else None
  }

  /** Rust's `as u32` cast of a `u64`: keeps the low 32 bits. */
  function TruncateU32(x: uint64): (r: uint32)
    ensures (x - r) % U32_LIMIT == 0
    ensures x < U32_LIMIT ==> r == x
    ensures x >= U32_LIMIT ==> r < x
  {
    x % U32_LIMIT
  }
}
