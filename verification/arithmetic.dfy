/** Arithmetic the other modules share. */
module Arithmetic {

  function Min(a: int, b: int): int { if a < b then a else b }
  function Max(a: int, b: int): int { if a > b then a else b }

  lemma MulStep(x: int, y: int, d: int)
    requires d >= 0
    ensures x < y ==> x * d + d <= y * d
  {
    if x < y {
      var k := y - x - 1;
      assert y * d == x * d + d + k * d;
      assert k * d >= 0;
    }
  }

  lemma Distribute(x: int, y: int, d: int)
    ensures (x + y) * d == x * d + y * d
    ensures (x - y) * d == x * d - y * d
  {
  }

  lemma DistributeLeft(sign: int, x: int, y: int)
    ensures sign * (x + y) == sign * x + sign * y
  {
  }

  lemma ProductNonNegative(x: int, y: int)
    requires x >= 0 && y >= 0
    ensures x * y >= 0
  {
  }
}
