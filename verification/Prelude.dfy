/** Types shared by the whole model. */
module Prelude {
  datatype Option<+T> = None | Some(value: T)

  datatype Result<+T, +E> = Ok(value: T) | Err(error: E)

  /** A 256-bit word. */
  type Word = x: int | 0 <= x < 0x1_0000_0000_0000_0000_0000_0000_0000_0000_0000_0000_0000_0000_0000_0000_0000_0000

  type Byte = b: int | 0 <= b < 256

  type Bytes = seq<Byte>

  type Code = seq<Byte>

  const TWO_32: int := 0x1_0000_0000
  const TWO_64: int := 0x1_0000_0000_0000_0000
  const TWO_255: int := 0x8000_0000_0000_0000_0000_0000_0000_0000_0000_0000_0000_0000_0000_0000_0000_0000
  const TWO_256: int := 0x1_0000_0000_0000_0000_0000_0000_0000_0000_0000_0000_0000_0000_0000_0000_0000_0000

  /** Forks by their position in the sequence of activations. */
  type SpecId = nat
  const TANGERINE: SpecId := 4
  const SPURIOUS_DRAGON: SpecId := 5
  const BYZANTIUM: SpecId := 6
  const CONSTANTINOPLE: SpecId := 7
  const ISTANBUL: SpecId := 9
  const BERLIN: SpecId := 11
  const LONDON: SpecId := 12
  const SHANGHAI: SpecId := 16
  const CANCUN: SpecId := 17

  const STACK_LIMIT: nat := 1024

  function Min(a: int, b: int): int {
    if a <= b then a else b
  }

  function Max(a: int, b: int): int {
    if a >= b then a else b
  }

  predicate Distinct<T(==)>(s: seq<T>) {
    forall i, j :: 0 <= i < j < |s| ==> s[i] != s[j]
  }
}
