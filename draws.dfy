/**
 * Random draws. The model never calls a generator: every operation that draws
 * reads its draws from input tapes. A tape that is shorter than the number of
 * draws needed reads as 0 (or 0.0, or false) past its end. An integer draw
 * outside [0, bound) reads as 0, and a real draw outside [0, 1) reads as its
 * fractional part, so every tape is a possible run of the generator, and
 * every run of the generator is some tape.
 */
module Draws {
  import opened JavaLang

  function IntAt(tape: seq<int>, k: int): int
  {
    if 0 <= k < |tape| then tape[k] else 0
  }

  function RealAt(tape: seq<real>, k: int): real
  {
    if 0 <= k < |tape| then tape[k] else 0.0
  }

  function BoolAt(tape: seq<bool>, k: int): bool
  {
    if 0 <= k < |tape| then tape[k] else false
  }

  /**
   * Random.nextInt(bound): a value in [0, bound), or IllegalArgumentException
   * for a bound below 1. A draw outside [0, bound) reads as 0.
   */
  function NextInt(draw: int, bound: int): (r: Outcome<int>)
    ensures r.Thrown? <==> bound <= 0
    ensures r.Thrown? ==> r.ex == IllegalArgument
    ensures r.Ok? ==> 0 <= r.value < bound
    ensures 0 <= draw < bound ==> r == Ok(draw)
  {
    if bound <= 0 then Thrown(IllegalArgument) else if 0 <= draw < bound then Ok(draw) else Ok(0)
  }

  /** Random.nextDouble(): a value in [0, 1). */
  function NextDouble(draw: real): (u: real)
    ensures 0.0 <= u < 1.0
    ensures 0.0 <= draw < 1.0 ==> u == draw
  {
    draw - draw.Floor as real
  }
}
