/** Bytes, fixed-width integers and their encodings, and instants of a clock that only grows. */
module Bytes {

  const TWO_32: nat := 0x1_0000_0000
  const TWO_64: nat := 0x1_0000_0000_0000_0000

  type Byte = x: int | 0 <= x < 256
  type U16 = x: int | 0 <= x < 0x1_0000
  type U32 = x: int | 0 <= x < TWO_32
  type U64 = x: int | 0 <= x < TWO_64

  type Instant = nat

  datatype Option<+T> = None | Some(value: T)

  datatype Result<+T, +E> = Ok(value: T) | Err(error: E)

  function Min(a: nat, b: nat): (m: nat) {
    if a <= b then a else b
  }

  function Zeros(n: nat): (z: seq<Byte>) {
    seq(n, _ => 0)
  }

  // Little-endian u32.

  function U32ToLe(v: U32): (b: seq<Byte>)
    ensures |b| == 4
  {
    [v % 256, v / 256 % 256, v / 0x1_0000 % 256, v / 0x100_0000]
  }

  function U32FromLe(b: seq<Byte>): (v: U32)
    requires |b| == 4
  {
    b[0] as int + 256 * (b[1] as int) + 0x1_0000 * (b[2] as int) + 0x100_0000 * (b[3] as int)
  }

  lemma U32LeRoundTrip(v: U32)
    ensures U32FromLe(U32ToLe(v)) == v
  {
    var a, b, c := v / 256, v / 0x1_0000, v / 0x100_0000;
    assert b == a / 256 && c == b / 256;
    assert v == 256 * a + v % 256 && a == 256 * b + a % 256 && b == 256 * c + b % 256;
  }

  lemma U32LeUnique(b: seq<Byte>)
    requires |b| == 4
    ensures U32ToLe(U32FromLe(b)) == b
  {
    var v := U32FromLe(b);
    assert v / 256 == b[1] as int + 256 * (b[2] as int) + 0x1_0000 * (b[3] as int);
    assert v / 0x1_0000 == b[2] as int + 256 * (b[3] as int);
  }

  // Big-endian u16 and u24.

  function U16ToBe(v: U16): (b: seq<Byte>)
    ensures |b| == 2
  {
    [v / 256, v % 256]
  }

  function U16FromBe(b: seq<Byte>): (v: U16)
    requires |b| == 2
  {
    256 * (b[0] as int) + b[1] as int
  }

  function U24ToBe(v: nat): (b: seq<Byte>)
    requires v < 0x100_0000
    ensures |b| == 3
  {
    [v / 0x1_0000, v / 256 % 256, v % 256]
  }

  function U24FromBe(b: seq<Byte>): (v: nat)
    requires |b| == 3
    ensures v < 0x100_0000
  {
    0x1_0000 * (b[0] as int) + 256 * (b[1] as int) + b[2] as int
  }
}
