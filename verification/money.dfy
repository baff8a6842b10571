/** Bounded sums of minor units (assert-safe-money-amount.util.ts). */
module Money {
  import opened Sorting

  datatype Result<+T> = Ok(value: T) | Err

  const MAX_MINOR_AMOUNT: int := 500_000_000
  const POSTGRES_INT_MAX: int := 2_147_483_647

  predicate IsSafeMoneyAmount(value: int, min: int) {
    min <= value <= MAX_MINOR_AMOUNT
  }

  function Sum(s: seq<int>): int {
    if s == [] then 0 else s[0] + Sum(s[1..])
  }

  lemma {:induction false} SumSplit(a: seq<int>, b: seq<int>)
    ensures Sum(a + b) == Sum(a) + Sum(b)
  {
    if a == [] {
      assert a + b == b;
    } else {
      SumSplit(a[1..], b);
      assert (a + b)[1..] == a[1..] + b;
    }
  }

  lemma {:induction false} SumAppend(a: seq<int>, x: int)
    ensures Sum(a + [x]) == Sum(a) + x
  {
    SumSplit(a, [x]);
  }

  lemma {:induction false} SumNonNegative(s: seq<int>)
    requires forall i :: 0 <= i < |s| ==> s[i] >= 0
    ensures Sum(s) >= 0
    ensures forall i :: 0 <= i < |s| ==> s[i] <= Sum(s)
  {
    if s != [] {
      SumNonNegative(s[1..]);
      assert forall i :: 0 < i < |s| ==> s[i] == s[1..][i - 1];
    }
  }

  function SumBy<T>(f: T -> int, s: seq<T>): int {
    if s == [] then 0 else f(s[0]) + SumBy(f, s[1..])
  }

  lemma {:induction false} SumBySplit<T>(f: T -> int, a: seq<T>, b: seq<T>)
    ensures SumBy(f, a + b) == SumBy(f, a) + SumBy(f, b)
  {
    if a == [] {
      assert a + b == b;
    } else {
      SumBySplit(f, a[1..], b);
      assert (a + b)[1..] == a[1..] + b;
    }
  }

  lemma SumByUpdate<T>(f: T -> int, s: seq<T>, i: nat, v: T)
    requires i < |s|
    ensures SumBy(f, s[i := v]) == SumBy(f, s) - f(s[i]) + f(v)
  {
    SumBySplit(f, s[..i], [s[i]] + s[i + 1..]);
    SumBySplit(f, s[..i], [v] + s[i + 1..]);
    assert s == s[..i] + ([s[i]] + s[i + 1..]);
    assert s[i := v] == s[..i] + ([v] + s[i + 1..]);
  }

  lemma {:induction false} SumByAppend<T>(f: T -> int, s: seq<T>, v: T)
    ensures SumBy(f, s + [v]) == SumBy(f, s) + f(v)
  {
    SumBySplit(f, s, [v]);
  }

  lemma {:induction false} SumByNonNegative<T>(f: T -> int, s: seq<T>)
    requires forall i :: 0 <= i < |s| ==> f(s[i]) >= 0
    ensures SumBy(f, s) >= 0
    ensures forall i :: 0 <= i < |s| ==> f(s[i]) <= SumBy(f, s)
  {
    if s != [] {
      SumByNonNegative(f, s[1..]);
      assert forall i :: 0 < i < |s| ==> s[i] == s[1..][i - 1];
    }
  }

  lemma {:induction false} SumByPermutes<T>(f: T -> int, a: seq<T>, b: seq<T>)
    requires multiset(a) == multiset(b)
    ensures SumBy(f, a) == SumBy(f, b)
  {
    if a == [] {
      assert |multiset(b)| == 0;
    } else {
      var i := MatchHead(a, b);
      SumByPermutes(f, a[1..], b[..i] + b[i + 1..]);
      SumBySplit(f, b[..i], b[i + 1..]);
      SumBySplit(f, b[..i], [b[i]] + b[i + 1..]);
      assert b == b[..i] + ([b[i]] + b[i + 1..]);
    }
  }

  lemma {:induction false} SumByAdd<T>(h: T -> int, f: T -> int, g: T -> int, s: seq<T>)
    requires forall x :: x in s ==> h(x) == f(x) + g(x)
    ensures SumBy(h, s) == SumBy(f, s) + SumBy(g, s)
  {
    if s != [] {
      assert s[0] in s;
      SumByAdd(h, f, g, s[1..]);
    }
  }

  function Indicator<T>(w: set<T>): T -> int {
    x => if x in w then 1 else 0
  }

  lemma {:induction false} SumIndicator<T>(w: set<T>, s: seq<T>)
    requires Distinct(s) && (forall x :: x in w ==> x in s)
    ensures SumBy(Indicator(w), s) == |w|
  {
    if s == [] {
      assert w == {};
    } else {
      var v := w - {s[0]};
      assert s[0] !in s[1..];
      SumIndicator(v, s[1..]);
      SumByCongruent(Indicator(w), Indicator(v), s[1..]);
      assert s[0] in w ==> |w| == |v| + 1;
      assert s[0] !in w ==> v == w;
    }
  }

  lemma {:induction false} SumByCongruent<T>(f: T -> int, g: T -> int, s: seq<T>)
    requires forall x :: x in s ==> f(x) == g(x)
    ensures SumBy(f, s) == SumBy(g, s)
  {
    if s != [] {
      assert s[0] in s;
      SumByCongruent(f, g, s[1..]);
    }
  }

  /** Accumulates and re-checks the column ceiling after every addition; for the
      non-negative amounts it is given, it refuses exactly the sums that overflow. */
  method SumMinorAmounts(values: seq<int>) returns (r: Result<int>)
    requires forall i :: 0 <= i < |values| ==> values[i] >= 0
    ensures r == if Sum(values) > POSTGRES_INT_MAX then Err else Ok(Sum(values))
  {
    var total := 0;
    for i := 0 to |values|
      invariant total == Sum(values[..i]) <= POSTGRES_INT_MAX
    {
      assert values[..i + 1] == values[..i] + [values[i]];
      SumAppend(values[..i], values[i]);
      total := total + values[i];
      if total > POSTGRES_INT_MAX {
        SumSplit(values[..i + 1], values[i + 1..]);
        SumNonNegative(values[i + 1..]);
        assert values == values[..i + 1] + values[i + 1..];
        return Err;
      }
    }
    assert values[..|values|] == values;
    return Ok(total);
  }
}
