/** What the other modules share: bits, bytes, dibits and samples, small C integers all. */
module Bits {

  type Bit = b: int | b == 0 || b == 1
  type Byte = b: int | 0 <= b < 256
  type Dibit = d: int | 0 <= d < 4

  datatype Option<+T> = None | Some(value: T)

  function Xor(a: Bit, b: Bit): Bit {
    if a == b then 0 else 1
  }

  /** A constant-ones input of length `n`. */
  function Ones(n: nat): seq<Bit> {
    seq(n, _ => 1)
  }

  function Zeros(n: nat): seq<Bit> {
    seq(n, _ => 0)
  }

  function Pow2(n: nat): (p: nat)
    ensures p > 0
  {
    if n == 0 then 1 else 2 * Pow2(n - 1)
  }

  const TWO32 := 0x1_0000_0000

  /** A 16-bit audio sample. */
  type Pcm = x: int | -32768 <= x < 32768

  function Min(a: nat, b: nat): nat {
    if a < b then a else b
  }

  lemma {:induction false} Associative<T>(a: seq<T>, b: seq<T>, c: seq<T>)
    ensures a + (b + c) == (a + b) + c
  {
  }
}
