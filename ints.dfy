/** C# 32-bit integer arithmetic: two's-complement wrap-around and division truncating toward zero. */
module Ints {

  const TWO_16: int := 0x1_0000
  const TWO_31: int := 0x8000_0000
  const TWO_32: int := 0x1_0000_0000

  predicate IsInt16(x: int) { -0x8000 <= x < 0x8000 }

  predicate IsInt32(x: int) { -TWO_31 <= x < TWO_31 }

  /** The int32 that C# computes for the mathematical value x (unchecked context). */
  function Wrap32(x: int): (r: int)
    ensures IsInt32(r)
    ensures (r - x) % TWO_32 == 0
    ensures IsInt32(x) ==> r == x
  {
    (x + TWO_31) % TWO_32 - TWO_31
  }

  /** int32 multiplication. */
  function Mul32(a: int, b: int): int { Wrap32(a * b) }

  /** int32 subtraction. */
  function Sub32(a: int, b: int): int { Wrap32(a - b) }

  function Abs(x: int): nat { if x < 0 then -x else x }

  /** C#'s integer division, which truncates toward zero (Dafny's `/` is Euclidean). */
  function DivT(a: int, b: int): (q: int)
    requires b != 0
    ensures a >= 0 && b > 0 ==> q == a / b
  {
    if a >= 0 && b > 0 then a / b
    else if a >= 0 then -(a / -b)
    else if b > 0 then -((-a) / b)
    else (-a) / (-b)
  }
}
