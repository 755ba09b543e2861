/** Shared vocabulary: the optional and fallible values the bot passes around,
    the fixed-width integers of its records, and the casts between them. */
module Types {

  datatype Option<T> = None | Some(value: T) {
    /** The wrapped value, or `default` when there is none (Rust's `unwrap_or`). */
    function GetOr(default: T): T {
      match this
      case Some(v) => v
      case None => default
    }
  }

  /** What can go wrong on the way: an HTTP call, decoding its body, the
      database, or a message without a sender (`msg.from.unwrap()` panics). */
  datatype Error = Transport | Malformed | Storage | NoSender

  datatype Result<T> = Ok(value: T) | Err(error: Error)

  type int32 = x: int | -0x8000_0000 <= x < 0x8000_0000
  type int64 = x: int | -0x8000_0000_0000_0000 <= x < 0x8000_0000_0000_0000
  type uint64 = x: int | 0 <= x < 0x1_0000_0000_0000_0000

  /** Rust's `u as i64` on a `u64`: the same 64 bits read as two's complement. */
  function AsInt64(u: uint64): (r: int64)
    ensures r % 0x1_0000_0000_0000_0000 == u
    ensures u < 0x8000_0000_0000_0000 <==> r >= 0
  {
    if u < 0x8000_0000_0000_0000 then u else u - 0x1_0000_0000_0000_0000
  }
}
