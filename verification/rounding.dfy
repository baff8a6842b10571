/** Exact integer rounding (commission-calculation.util.ts and the floor division of
    commission-adjustment-allocation.util.ts). */
module Rounding {
  import opened Arithmetic

  /** JavaScript's BigInt `/`: the quotient truncated toward zero. */
  function TruncDiv(a: int, b: int): (q: int)
    requires b != 0
  {
    if (a >= 0) == (b > 0) then Abs(a) / Abs(b) else -(Abs(a) / Abs(b))
  }

  /** JavaScript's BigInt `%`: the remainder that goes with `TruncDiv`. */
  function TruncRem(a: int, b: int): int
    requires b != 0
  {
    a - TruncDiv(a, b) * b
  }

  function Abs(x: int): nat { if x < 0 then -x else x }

  function BigIntFloorDiv(a: int, b: int): int
    requires b != 0
  {
    var quotient := TruncDiv(a, b);
    var remainder := TruncRem(a, b);
    if remainder != 0 && (remainder < 0) != (b < 0) then quotient - 1 else quotient
  }

  /** The correction of truncation yields the floor, for either sign of the numerator. */
  lemma FloorDivIsFloor(a: int, b: int)
    requires b > 0
    ensures BigIntFloorDiv(a, b) * b <= a < BigIntFloorDiv(a, b) * b + b
  {
    var m := Abs(a) / b;
    assert Abs(a) == m * b + Abs(a) % b;
  }

  lemma FloorUnique(b: int, q: int, p: int, a: int)
    requires b > 0 && q * b <= a < q * b + b && p * b <= a < p * b + b
    ensures p == q
  {
    MulStep(p, q, b);
    MulStep(q, p, b);
  }

  /** Refused for a negative numerator or a denominator that is not positive. */
  datatype Rounded = Rounded(value: int) | Refused

  function RoundHalfUpDivision(numerator: int, denominator: int): Rounded {
    if denominator <= 0 || numerator < 0 then Refused
    else Rounded(TruncDiv(2 * numerator + denominator, 2 * denominator))
  }

  ghost predicate IsHalfUp(q: int, n: int, d: int) {
    2 * n - d < 2 * (q * d) <= 2 * n + d
  }

  /** The result is the one integer within half a unit of the quotient, a tie going up. */
  lemma RoundHalfUpIsNearest(n: int, d: int)
    requires n >= 0 && d > 0
    ensures RoundHalfUpDivision(n, d).Rounded?
    ensures IsHalfUp(RoundHalfUpDivision(n, d).value, n, d)
    ensures forall q :: IsHalfUp(q, n, d) ==> q == RoundHalfUpDivision(n, d).value
    ensures RoundHalfUpDivision(n, d).value >= 0
  {
    var r := RoundHalfUpDivision(n, d).value;
    var x := 2 * n + d;
    assert x >= 0 && 2 * d > 0;
    assert r == x / (2 * d);
    assert x == r * (2 * d) + x % (2 * d);
    assert r * (2 * d) == 2 * (r * d);
    forall q | IsHalfUp(q, n, d) ensures q == r {
      assert q * (2 * d) == 2 * (q * d);
      FloorUnique(2 * d, q, r, x);
    }
  }

  lemma RoundHalfUpExact(q: int, d: int)
    requires q >= 0 && d > 0
    ensures RoundHalfUpDivision(q * d, d) == Rounded(q)
  {
    assert q * d >= 0;
    RoundHalfUpIsNearest(q * d, d);
    assert IsHalfUp(q, q * d, d);
  }

  lemma RoundHalfUpMonotone(n: int, m: int, d: int)
    requires 0 <= n <= m && d > 0
    ensures RoundHalfUpDivision(n, d).value <= RoundHalfUpDivision(m, d).value
  {
    RoundHalfUpIsNearest(n, d);
    RoundHalfUpIsNearest(m, d);
    var p, q := RoundHalfUpDivision(n, d).value, RoundHalfUpDivision(m, d).value;
    MulStep(q, p, d);
  }
}
