/** Values that travel through the gateway, and the clock they are stamped with. */
module Basics {

  datatype Option<+T> = None | Some(value: T)

  type Key = string

  newtype Byte = x: int | 0 <= x < 256

  type Bytes = seq<Byte>

  /** Instants and durations are whole nanoseconds, as in Go's time package. */
  type Time = int

  const MILLISECOND: Time := 1_000_000
  const SECOND: Time := 1_000_000_000

  /** A cached response. An `l2Expiration` of None is Go's zero time. */
  datatype KeyValue = KeyValue(
    value: Bytes,
    l1Expiration: Time,
    l2Expiration: Option<Time>,
    recomputeDuration: Time)

  function Min(a: int, b: int): int {
    if a < b then a else b
  }

  function Max(a: int, b: int): int {
    if a < b then b else a
  }
}
