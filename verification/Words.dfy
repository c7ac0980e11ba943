/**
The fixed-width integers of the firmware and their modular arithmetic.
*/
module Words {
  type uint8 = x: int | 0 <= x < 0x100
  type uint16 = x: int | 0 <= x < 0x1_0000
  type uint32 = x: int | 0 <= x < 0x1_0000_0000
  type uint64 = x: int | 0 <= x < 0x1_0000_0000_0000_0000
  type int8 = x: int | -0x80 <= x < 0x80
  type int16 = x: int | -0x8000 <= x < 0x8000
  type int32 = x: int | -0x8000_0000 <= x < 0x8000_0000

  const TWO_32: int := 0x1_0000_0000
  const TWO_64: int := 0x1_0000_0000_0000_0000
  const INT32_MIN: int := -0x8000_0000

  /** FreeRTOS tick rate of the production build. */
  const TICK_RATE_HZ: int := 100

  function MsToTicks(ms: uint32): uint32 {
    ms * TICK_RATE_HZ / 1000 % TWO_32
  }

  function Wrap32(x: int): uint32 {
    x % TWO_32
  }

  /** Wrapping an intermediate sum changes nothing. */
  lemma WrapAdd(x: int, y: int)
    ensures Wrap32(Wrap32(x) + y) == Wrap32(x + y)
  {
    var q := x / TWO_32;
    assert x + y == TWO_32 * q + (x % TWO_32 + y);
    WrapShift(x % TWO_32 + y, q);
  }

  lemma WrapShift(x: int, q: int)
    ensures Wrap32(TWO_32 * q + x) == Wrap32(x)
  {
    var a, b := (TWO_32 * q + x) / TWO_32, x / TWO_32;
    assert TWO_32 * (a - q - b) == x % TWO_32 - (TWO_32 * q + x) % TWO_32;
  }

  /** Unsigned 32-bit subtraction: the elapsed ticks between two stamps. */
  function Sub32(a: uint32, b: uint32): uint32 {
    (a - b) % TWO_32
  }

  /** Unsigned 64-bit subtraction. */
  function Sub64(a: uint64, b: uint64): uint64 {
    (a - b) % TWO_64
  }

  /** Two's complement reading of 8 and 16 bits. */
  function AsInt8(x: uint8): int8 {
    if x < 0x80 then x else x - 0x100
  }

  function AsInt16(x: uint16): int16 {
    if x < 0x8000 then x else x - 0x1_0000
  }

  /** Big-endian pair of bytes. */
  function BigEndian16(hi: uint8, lo: uint8): uint16 {
    hi * 0x100 + lo
  }
}

module Wrappers {
  datatype Option<+T> = None | Some(value: T)
  datatype Result<+T, +E> = Success(value: T) | Failure(error: E)
}
