/** Shared vocabulary: optional values, time on one monotonic clock, node numbers,
    server addresses and modes. */
module Basics {

  datatype Option<+T> = None | Some(value: T)

  /** Nanoseconds on the one clock every step of a run is placed on. */
  type Time = nat

  type NodeId = nat

  /** An upstream server, as its `host:port` text: the unit a connection cap applies to. */
  type ServerId = string

  /** Whether a node is taking work. */
  datatype Mode = Active | Draining

  const MILLISECOND: nat := 1_000_000
  const SECOND: nat := 1_000 * MILLISECOND

  const U16_MAX: nat := 0xFFFF
  const U32_MAX: nat := 0xFFFF_FFFF
  const U64_MAX: nat := 0xFFFF_FFFF_FFFF_FFFF

  function Min(a: nat, b: nat): nat { if a <= b then a else b }

  function Max(a: nat, b: nat): nat { if a >= b then a else b }

  /** Subtraction that stops at zero, as `saturating_sub` does. */
  function Less(a: nat, b: nat): nat { if a >= b then a - b else 0 }
}
