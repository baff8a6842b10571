/** Commission amounts and their reversal by corrections (commission-calculation.util.ts,
    commission-adjustment-calculation.util.ts, commission-adjustment.service.ts). */
module Commission {
  import opened Arithmetic
  import opened Money
  import opened Rounding

  const BASIS_POINTS: int := 10_000

  /** A missing policy (NO_POLICY) and a NONE rule both accrue zero. */
  datatype RuleType = PERCENTAGE | FIXED | NONE | NO_POLICY
  datatype Rule = Rule(kind: RuleType, rateBasisPoints: int, fixedAmount: int)

  function CalculateCommissionAmount(rule: Rule, basisAmount: int): Rounded {
    match rule.kind
    case NONE | NO_POLICY => Rounded(0)
    case FIXED => Rounded(rule.fixedAmount)
    case PERCENTAGE => RoundHalfUpDivision(basisAmount * rule.rateBasisPoints, BASIS_POINTS)
  }

  /** The columns checked when a rule is stored. */
  predicate ValidRule(rule: Rule) {
    0 <= rule.rateBasisPoints <= BASIS_POINTS && rule.fixedAmount >= 0
  }

  /** The immutable EARNED row: the rule's snapshot, the basis and what it came to. */
  datatype Accrual = Accrual(rule: Rule, basisAmount: int, calculated: int)

  /** Calculates the amount and inserts the row, whose basis column takes no negative value. */
  function StoreEarned(rule: Rule, basisAmount: int): Result<Accrual> {
    match CalculateCommissionAmount(rule, basisAmount)
    case Refused => Err
    case Rounded(amount) => if basisAmount < 0 then Err else Ok(Accrual(rule, basisAmount, amount))
  }

  /** Of a valid rule a row is stored exactly on a basis that is not negative. */
  lemma StoredIff(rule: Rule, basisAmount: int)
    requires ValidRule(rule)
    ensures StoreEarned(rule, basisAmount).Ok? <==> basisAmount >= 0
  {
    if basisAmount >= 0 {
      ProductNonNegative(basisAmount, rule.rateBasisPoints);
    }
  }

  /** What accrual leaves behind for a line priced `lineAmount`. */
  ghost predicate IsEarned(o: Accrual, lineAmount: int) {
    && ValidRule(o.rule)
    && lineAmount >= 0
    && StoreEarned(o.rule, o.basisAmount) == Ok(o)
    && (lineAmount == 0 ==> o.basisAmount == 0)
  }

  lemma EarnedNonNegative(o: Accrual, lineAmount: int)
    requires IsEarned(o, lineAmount)
    ensures o.calculated >= 0
  {
    if o.rule.kind.PERCENTAGE? {
      assert o.basisAmount * o.rule.rateBasisPoints >= 0;
      RoundHalfUpIsNearest(o.basisAmount * o.rule.rateBasisPoints, BASIS_POINTS);
    }
  }

  // ---------- One correction of one line ----------

  function CalculatePercentageAdjustmentBasis(basisAmount: int, requested: int, lineAmount: int): Rounded {
    if lineAmount <= 0 then Rounded(0)
    else RoundHalfUpDivision(basisAmount * requested, lineAmount)
  }

  function CalculateFixedAdjustmentAmount(calculated: int, already: int, requested: int, lineAmount: int): Rounded {
    var remaining := Max(calculated - already, 0);
    if lineAmount <= 0 || requested >= lineAmount then Rounded(remaining)
    else
      match RoundHalfUpDivision(calculated * requested, lineAmount)
      case Refused => Refused
      case Rounded(prorated) => Rounded(Min(prorated, remaining))
  }

  /** The PERCENTAGE amount before the cap: a re-rounded commission on a re-rounded basis. */
  function FreshPercentage(o: Accrual, requested: int, lineAmount: int): Rounded {
    match CalculatePercentageAdjustmentBasis(o.basisAmount, requested, lineAmount)
    case Refused => Refused
    case Rounded(basis) => CalculateCommissionAmount(o.rule, basis)
  }

  /** The amount the correcting row carries, given what earlier corrections already took. */
  function AdjustmentAmount(o: Accrual, already: int, requested: int, lineAmount: int): Rounded {
    match o.rule.kind
    case PERCENTAGE =>
      (match FreshPercentage(o, requested, lineAmount)
       case Refused => Refused
       case Rounded(amount) => Rounded(Min(amount, Max(o.calculated - already, 0))))
    case FIXED => CalculateFixedAdjustmentAmount(o.calculated, already, requested, lineAmount)
    case NONE | NO_POLICY => Rounded(0)
  }

  /** A correction takes a non-negative amount and never more than what is left. */
  lemma AdjustmentCapped(o: Accrual, already: int, requested: int, lineAmount: int)
    requires IsEarned(o, lineAmount) && requested >= 0 && 0 <= already <= o.calculated
    ensures AdjustmentAmount(o, already, requested, lineAmount).Rounded?
    ensures 0 <= AdjustmentAmount(o, already, requested, lineAmount).value <= o.calculated - already
  {
    EarnedNonNegative(o, lineAmount);
    match o.rule.kind
    case PERCENTAGE => FreshNonNegative(o, requested, lineAmount);
    case FIXED =>
      if lineAmount > 0 {
        assert o.calculated * requested >= 0;
        RoundHalfUpIsNearest(o.calculated * requested, lineAmount);
      }
    case _ =>
  }

  lemma FreshNonNegative(o: Accrual, requested: int, lineAmount: int)
    requires IsEarned(o, lineAmount) && requested >= 0 && o.rule.kind.PERCENTAGE?
    ensures FreshPercentage(o, requested, lineAmount).Rounded?
    ensures FreshPercentage(o, requested, lineAmount).value >= 0
  {
    var basis := 0;
    if lineAmount > 0 {
      assert o.basisAmount * requested >= 0;
      RoundHalfUpIsNearest(o.basisAmount * requested, lineAmount);
      basis := RoundHalfUpDivision(o.basisAmount * requested, lineAmount).value;
    }
    assert basis * o.rule.rateBasisPoints >= 0;
    RoundHalfUpIsNearest(basis * o.rule.rateBasisPoints, BASIS_POINTS);
  }

  // ---------- All the corrections of one line ----------

  function AmountOf(r: Rounded): int {
    match r case Rounded(v) => v case Refused => 0
  }

  /** The total taken after corrections of the amounts in `requests`, in that order. */
  function Cumulative(o: Accrual, lineAmount: int, requests: seq<int>): int {
    if requests == [] then 0
    else
      var before := Cumulative(o, lineAmount, requests[..|requests| - 1]);
      before + AmountOf(AdjustmentAmount(o, before, requests[|requests| - 1], lineAmount))
  }

  ghost predicate NonNegative(requests: seq<int>) {
    forall i :: 0 <= i < |requests| ==> requests[i] >= 0
  }

  /** Whatever the corrections and their order, the reversed commission stays within the
      commission earned. */
  lemma {:induction false} CumulativeWithinOriginal(o: Accrual, lineAmount: int, requests: seq<int>)
    requires IsEarned(o, lineAmount) && NonNegative(requests)
    ensures 0 <= Cumulative(o, lineAmount, requests) <= o.calculated
  {
    if requests == [] {
      EarnedNonNegative(o, lineAmount);
    } else {
      var front := requests[..|requests| - 1];
      CumulativeWithinOriginal(o, lineAmount, front);
      AdjustmentCapped(o, Cumulative(o, lineAmount, front), requests[|requests| - 1], lineAmount);
    }
  }

  /** One correction of the whole line takes back exactly what was earned, for every rule:
      the original was computed by the same function on the stored basis. */
  lemma {:induction false} FullCorrectionReversesAll(o: Accrual, lineAmount: int)
    requires IsEarned(o, lineAmount)
    ensures Cumulative(o, lineAmount, [lineAmount]) == o.calculated
  {
    assert [lineAmount][..0] == [];
    assert Cumulative(o, lineAmount, [lineAmount]) == AmountOf(AdjustmentAmount(o, 0, lineAmount, lineAmount));
    EarnedNonNegative(o, lineAmount);
    if o.rule.kind.PERCENTAGE? && lineAmount > 0 {
      RoundHalfUpExact(o.basisAmount, lineAmount);
    }
  }

  /** The amounts a line's corrections would take if nothing capped them. */
  function Uncapped(o: Accrual, lineAmount: int, requests: seq<int>): int {
    if requests == [] then 0
    else Uncapped(o, lineAmount, requests[..|requests| - 1]) + UncappedOne(o, lineAmount, requests[|requests| - 1])
  }

  /** The cap applied step by step is the cap applied once to the sum, so the order of
      partial corrections does not matter. */
  lemma {:induction false} CumulativeIsCappedSum(o: Accrual, lineAmount: int, requests: seq<int>)
    requires IsEarned(o, lineAmount) && lineAmount > 0 && NonNegative(requests)
    requires o.rule.kind.PERCENTAGE?
      || (o.rule.kind.FIXED? && forall i :: 0 <= i < |requests| ==> requests[i] < lineAmount)
    ensures Cumulative(o, lineAmount, requests) == Min(o.calculated, Uncapped(o, lineAmount, requests))
  {
    EarnedNonNegative(o, lineAmount);
    if requests != [] {
      var front, r := requests[..|requests| - 1], requests[|requests| - 1];
      CumulativeIsCappedSum(o, lineAmount, front);
      CumulativeWithinOriginal(o, lineAmount, front);
      OneCappedStep(o, Cumulative(o, lineAmount, front), lineAmount, r);
    }
  }

  /** What one correction would take if nothing capped it. */
  function UncappedOne(o: Accrual, lineAmount: int, r: int): int {
    if o.rule.kind.PERCENTAGE? then AmountOf(FreshPercentage(o, r, lineAmount))
    else AmountOf(RoundHalfUpDivision(o.calculated * r, lineAmount))
  }

  lemma OneCappedStep(o: Accrual, before: int, lineAmount: int, r: int)
    requires IsEarned(o, lineAmount) && lineAmount > 0 && r >= 0 && 0 <= before <= o.calculated
    requires o.rule.kind.PERCENTAGE? || (o.rule.kind.FIXED? && r < lineAmount)
    ensures UncappedOne(o, lineAmount, r) >= 0
    ensures AmountOf(AdjustmentAmount(o, before, r, lineAmount))
            == Min(UncappedOne(o, lineAmount, r), o.calculated - before)
  {
    if o.rule.kind.PERCENTAGE? {
      FreshNonNegative(o, r, lineAmount);
    } else {
      ProductNonNegative(o.calculated, r);
      RoundHalfUpIsNearest(o.calculated * r, lineAmount);
    }
  }

  // ---------- What one amount is ----------

  /** What a rule earns on a basis: the nearest unit of the rate's share, ties up; the fixed
      amount; or nothing. */
  lemma EarnedAmount(rule: Rule, basisAmount: int, row: Accrual)
    requires ValidRule(rule) && StoreEarned(rule, basisAmount) == Ok(row)
    ensures row.rule == rule && row.basisAmount == basisAmount >= 0
    ensures rule.kind.PERCENTAGE? ==> IsHalfUp(row.calculated, basisAmount * rule.rateBasisPoints, 10_000)
    ensures rule.kind.FIXED? ==> row.calculated == rule.fixedAmount
    ensures rule.kind.NONE? || rule.kind.NO_POLICY? ==> row.calculated == 0
  {
    if rule.kind.PERCENTAGE? {
      ProductNonNegative(basisAmount, rule.rateBasisPoints);
      RoundHalfUpIsNearest(basisAmount * rule.rateBasisPoints, 10_000);
    }
  }

  /** What a PERCENTAGE correction takes: the line's basis prorated to the nearest unit, the
      rate's share of that to the nearest unit, and no more than is left. */
  lemma PercentageCorrectionIs(o: Accrual, already: int, requested: int, line: int, basis: int, amount: int)
    requires IsEarned(o, line) && line > 0 && o.rule.kind.PERCENTAGE? && requested >= 0
    requires IsHalfUp(basis, o.basisAmount * requested, line)
    requires IsHalfUp(amount, basis * o.rule.rateBasisPoints, 10_000)
    ensures AdjustmentAmount(o, already, requested, line) == Rounded(Min(amount, Max(o.calculated - already, 0)))
  {
    ProductNonNegative(o.basisAmount, requested);
    RoundHalfUpIsNearest(o.basisAmount * requested, line);
    ProductNonNegative(basis, o.rule.rateBasisPoints);
    RoundHalfUpIsNearest(basis * o.rule.rateBasisPoints, 10_000);
  }

  /** What a FIXED correction takes: the prorated amount to the nearest unit, and no more than
      is left; a correction of the whole line takes all that is left. */
  lemma FixedCorrectionIs(o: Accrual, already: int, requested: int, line: int, amount: int)
    requires IsEarned(o, line) && line > 0 && o.rule.kind.FIXED? && requested >= 0
    requires IsHalfUp(amount, o.calculated * requested, line)
    ensures var left := Max(o.calculated - already, 0);
            AdjustmentAmount(o, already, requested, line)
            == Rounded(if requested >= line then left else Min(amount, left))
  {
    EarnedNonNegative(o, line);
    ProductNonNegative(o.calculated, requested);
    RoundHalfUpIsNearest(o.calculated * requested, line);
  }

  /** A quarter of a line of 100.00 earning 10% is refunded: a quarter of the 10.00 goes back. */
  lemma QuarterRefund()
    ensures var o := Accrual(Rule(PERCENTAGE, 1000, 0), 10_000, 1000);
            IsEarned(o, 10_000) && Cumulative(o, 10_000, [2500]) == 250
  {
    var o := Accrual(Rule(PERCENTAGE, 1000, 0), 10_000, 1000);
    PercentageCorrectionIs(o, 0, 2500, 10_000, 2500, 250);
    assert [2500][..0] == [];
    assert Cumulative(o, 10_000, [2500]) == AmountOf(AdjustmentAmount(o, 0, 2500, 10_000));
  }

  // ---------- What partial corrections leave behind ----------

  lemma FreshLowerBound(basis: int, rate: int, r: int, line: int, b: int, amount: int)
    requires basis >= 0 && 0 <= rate && r >= 0 && line > 0
    requires IsHalfUp(b, basis * r, line) && IsHalfUp(amount, b * rate, BASIS_POINTS)
    ensures 20_000 * (amount * line) > 2 * (basis * rate * r) - line * (rate + 10_000)
  {
    var bl := b * line;
    assert 2 * bl >= 2 * (basis * r) - line;
    Scale(2 * (basis * r) - line, 2 * bl, rate);
    assert (2 * bl) * rate == 2 * (b * rate * line);
    assert (2 * (basis * r) - line) * rate == 2 * (basis * rate * r) - line * rate;
    Scale(2 * (b * rate) - 10_000 + 1, 20_000 * amount, line);
    assert (2 * (b * rate) - 10_000 + 1) * line == 2 * (b * rate * line) - 10_000 * line + line;
  }

  lemma Scale(x: int, y: int, k: int)
    requires x <= y && k >= 0
    ensures x * k <= y * k
  {
    assert (y - x) * k >= 0;
  }

  lemma {:induction false} SumLast(s: seq<int>)
    requires s != []
    ensures Sum(s) == Sum(s[..|s| - 1]) + s[|s| - 1]
  {
    SumAppend(s[..|s| - 1], s[|s| - 1]);
    assert s == s[..|s| - 1] + [s[|s| - 1]];
  }

  lemma AddUp(u: int, v: int, line: int, p: int, s: int, r: int, k: int, c: int)
    ensures (u + v) * line == u * line + v * line
    ensures p * (s + r) == p * s + p * r
    ensures (k + 1) * c == k * c + c
  {
  }

  lemma {:induction false} PercentageUncappedBound(o: Accrual, line: int, requests: seq<int>)
    requires IsEarned(o, line) && line > 0 && NonNegative(requests) && o.rule.kind.PERCENTAGE?
    ensures 20_000 * (Uncapped(o, line, requests) * line) + |requests| * (line * (o.rule.rateBasisPoints + 10_000))
            >= 2 * (o.basisAmount * o.rule.rateBasisPoints * Sum(requests)) + |requests|
  {
    var basis, rate := o.basisAmount, o.rule.rateBasisPoints;
    if requests == [] {
      assert Sum(requests) == 0;
    } else {
      var front, r := requests[..|requests| - 1], requests[|requests| - 1];
      PercentageUncappedBound(o, line, front);
      SumLast(requests);
      var one := AmountOf(FreshPercentage(o, r, line));
      OneFresh(o, line, r);
      AddUp(Uncapped(o, line, front), one, line, basis * rate, Sum(front), r, |front|, line * (rate + 10_000));
      assert |front| + 1 == |requests|;
    }
  }

  lemma OneFresh(o: Accrual, line: int, r: int)
    requires IsEarned(o, line) && line > 0 && r >= 0 && o.rule.kind.PERCENTAGE?
    ensures 20_000 * (AmountOf(FreshPercentage(o, r, line)) * line)
            > 2 * (o.basisAmount * o.rule.rateBasisPoints * r) - line * (o.rule.rateBasisPoints + 10_000)
  {
    FreshNonNegative(o, r, line);
    assert o.basisAmount * r >= 0;
    RoundHalfUpIsNearest(o.basisAmount * r, line);
    var b := RoundHalfUpDivision(o.basisAmount * r, line).value;
    assert b * o.rule.rateBasisPoints >= 0;
    RoundHalfUpIsNearest(b * o.rule.rateBasisPoints, BASIS_POINTS);
    FreshLowerBound(o.basisAmount, o.rule.rateBasisPoints, r, line, b, AmountOf(FreshPercentage(o, r, line)));
  }

  // ---------- What partial corrections take at most ----------

  lemma FreshUpperBound(basis: int, rate: int, r: int, line: int, b: int, amount: int)
    requires basis >= 0 && 0 <= rate && r >= 0 && line > 0
    requires IsHalfUp(b, basis * r, line) && IsHalfUp(amount, b * rate, BASIS_POINTS)
    ensures 20_000 * (amount * line) <= 2 * (basis * rate * r) + line * (rate + 10_000)
  {
    var bl := b * line;
    Scale(2 * bl, 2 * (basis * r) + line, rate);
    assert (2 * bl) * rate == 2 * (b * rate * line);
    assert (2 * (basis * r) + line) * rate == 2 * (basis * rate * r) + line * rate;
    Scale(20_000 * amount, 2 * (b * rate) + 10_000, line);
    assert (2 * (b * rate) + 10_000) * line == 2 * (b * rate * line) + 10_000 * line;
  }

  /** One PERCENTAGE correction, whatever was taken before it, takes at most its exact share
      of the rate's commission and (1 + rate) / 2 units; and, unless it takes all that is
      left, at least that share less as much. */
  lemma OneCorrectionWithinShare(o: Accrual, already: int, line: int, r: int)
    requires IsEarned(o, line) && line > 0 && r >= 0 && o.rule.kind.PERCENTAGE? && 0 <= already <= o.calculated
    ensures var taken := AmountOf(AdjustmentAmount(o, already, r, line));
            var share, rate := 2 * (o.basisAmount * o.rule.rateBasisPoints * r), o.rule.rateBasisPoints;
            && 20_000 * (taken * line) <= share + line * (rate + 10_000)
            && (taken == o.calculated - already || 20_000 * (taken * line) > share - line * (rate + 10_000))
  {
    FreshNonNegative(o, r, line);
    OneFresh(o, line, r);
    OneFreshUpper(o, line, r);
    Scale(AmountOf(AdjustmentAmount(o, already, r, line)), AmountOf(FreshPercentage(o, r, line)), line);
  }

  lemma OneFreshUpper(o: Accrual, line: int, r: int)
    requires IsEarned(o, line) && line > 0 && r >= 0 && o.rule.kind.PERCENTAGE?
    ensures 20_000 * (AmountOf(FreshPercentage(o, r, line)) * line)
            <= 2 * (o.basisAmount * o.rule.rateBasisPoints * r) + line * (o.rule.rateBasisPoints + 10_000)
  {
    FreshNonNegative(o, r, line);
    ProductNonNegative(o.basisAmount, r);
    RoundHalfUpIsNearest(o.basisAmount * r, line);
    var b := RoundHalfUpDivision(o.basisAmount * r, line).value;
    ProductNonNegative(b, o.rule.rateBasisPoints);
    RoundHalfUpIsNearest(b * o.rule.rateBasisPoints, BASIS_POINTS);
    FreshUpperBound(o.basisAmount, o.rule.rateBasisPoints, r, line, b, AmountOf(FreshPercentage(o, r, line)));
  }

  /** However a PERCENTAGE line is refunded in k pieces, what its corrections take is within
      k * (1 + rate) / 2 units of the exact share of all that was refunded, the rate as a
      fraction; below that only when nothing is left to take. */
  lemma {:induction false} PercentageWithinShare(o: Accrual, line: int, requests: seq<int>)
    requires IsEarned(o, line) && line > 0 && NonNegative(requests) && o.rule.kind.PERCENTAGE?
    ensures var taken, k := Cumulative(o, line, requests), |requests|;
            var share, rate := 2 * (o.basisAmount * o.rule.rateBasisPoints * Sum(requests)), o.rule.rateBasisPoints;
            && 20_000 * (taken * line) <= share + k * (line * (rate + 10_000))
            && (taken == o.calculated || 20_000 * (taken * line) >= share - k * (line * (rate + 10_000)))
  {
    var basis, rate := o.basisAmount, o.rule.rateBasisPoints;
    CumulativeIsCappedSum(o, line, requests);
    PercentageUncappedBound(o, line, requests);
    if requests == [] {
      assert Sum(requests) == 0;
    } else {
      var front, r := requests[..|requests| - 1], requests[|requests| - 1];
      var before := Cumulative(o, line, front);
      PercentageWithinShare(o, line, front);
      CumulativeWithinOriginal(o, line, front);
      OneCorrectionWithinShare(o, before, line, r);
      SumLast(requests);
      AddUp(before, AmountOf(AdjustmentAmount(o, before, r, line)), line, basis * rate, Sum(front), r, |front|,
        line * (rate + 10_000));
      assert |front| + 1 == |requests|;
    }
  }

  /** The same for a FIXED line refunded in k partial pieces: within k/2 units of the exact
      share of the amount earned. */
  lemma {:induction false} FixedWithinShare(o: Accrual, line: int, requests: seq<int>)
    requires IsEarned(o, line) && line > 0 && o.rule.kind.FIXED?
    requires forall i :: 0 <= i < |requests| ==> 0 <= requests[i] < line
    ensures var taken, k := Cumulative(o, line, requests), |requests|;
            && 2 * (taken * line) <= 2 * (o.calculated * Sum(requests)) + k * line
            && (taken == o.calculated || 2 * (taken * line) >= 2 * (o.calculated * Sum(requests)) - k * line)
  {
    CumulativeIsCappedSum(o, line, requests);
    FixedUncappedBound(o, line, requests);
    if requests == [] {
      assert Sum(requests) == 0;
    } else {
      var front, r := requests[..|requests| - 1], requests[|requests| - 1];
      FixedWithinShare(o, line, front);
      SumLast(requests);
      OneFixed(o, Cumulative(o, line, front), line, r);
      AddUp(Cumulative(o, line, front), AmountOf(AdjustmentAmount(o, Cumulative(o, line, front), r, line)), line,
        o.calculated, Sum(front), r, |front|, line);
      assert |front| + 1 == |requests|;
    }
  }

  lemma OneFixed(o: Accrual, already: int, line: int, r: int)
    requires IsEarned(o, line) && line > 0 && 0 <= r < line && o.rule.kind.FIXED?
    ensures 2 * (AmountOf(AdjustmentAmount(o, already, r, line)) * line) <= 2 * (o.calculated * r) + line
  {
    EarnedNonNegative(o, line);
    ProductNonNegative(o.calculated, r);
    RoundHalfUpIsNearest(o.calculated * r, line);
    var prorated := RoundHalfUpDivision(o.calculated * r, line).value;
    Scale(AmountOf(AdjustmentAmount(o, already, r, line)), prorated, line);
  }

  lemma Cancel(x: int, y: int, line: int)
    requires line > 0 && x * line > y * line
    ensures x > y
  {
    if x <= y { Scale(x, y, line); }
  }

  lemma PercentageResidueArithmetic(u: int, c: int, basisRate: int, rate: int, line: int, k: nat)
    requires line > 0 && k > 0 && 2 * (c * 10_000) <= 2 * basisRate + 10_000
    requires 20_000 * (u * line) + k * (line * (rate + 10_000)) >= 2 * (basisRate * line) + k
    ensures 20_000 * (c - u) < k * (rate + 10_000) + 10_000
  {
    assert k * (line * (rate + 10_000)) == (k * (rate + 10_000)) * line;
    Distribute(20_000 * u, -(k * (rate + 10_000)), line);
    Cancel(20_000 * u + k * (rate + 10_000), 2 * basisRate, line);
  }

  /** A PERCENTAGE line refunded in full by k partial corrections keeps less than
      k * (1 + rate) / 2 + 1/2 minor units, the rate as a fraction: for the rates a rule
      may carry, at most k. */
  lemma {:induction false} PercentageResidue(o: Accrual, line: int, requests: seq<int>)
    requires IsEarned(o, line) && line > 0 && o.rule.kind.PERCENTAGE?
    requires NonNegative(requests) && Sum(requests) == line
    ensures var residue := o.calculated - Cumulative(o, line, requests);
            && 0 <= residue <= |requests|
            && 20_000 * residue < |requests| * (o.rule.rateBasisPoints + 10_000) + 10_000
  {
    var basis, rate, k := o.basisAmount, o.rule.rateBasisPoints, |requests|;
    assert k > 0 by { assert requests == [] ==> Sum(requests) == 0; }
    CumulativeWithinOriginal(o, line, requests);
    CumulativeIsCappedSum(o, line, requests);
    PercentageUncappedBound(o, line, requests);
    assert basis * rate >= 0;
    RoundHalfUpIsNearest(basis * rate, BASIS_POINTS);
    var u := Uncapped(o, line, requests);
    PercentageResidueArithmetic(u, o.calculated, basis * rate, rate, line, k);
    Scale(rate + 10_000, 20_000, k);
    Scale(0, rate + 10_000, k);
  }

  lemma {:induction false} FixedUncappedBound(o: Accrual, line: int, requests: seq<int>)
    requires IsEarned(o, line) && line > 0 && NonNegative(requests) && o.rule.kind.FIXED?
    ensures 2 * (Uncapped(o, line, requests) * line) + |requests| * line
      >= 2 * (o.calculated * Sum(requests)) + |requests|
  {
    if requests == [] {
      assert Sum(requests) == 0;
    } else {
      var front, r := requests[..|requests| - 1], requests[|requests| - 1];
      FixedUncappedBound(o, line, front);
      SumLast(requests);
      EarnedNonNegative(o, line);
      assert o.calculated * r >= 0;
      RoundHalfUpIsNearest(o.calculated * r, line);
      AddUp(Uncapped(o, line, front), AmountOf(RoundHalfUpDivision(o.calculated * r, line)), line,
        o.calculated, Sum(front), r, |front|, line);
      assert |front| + 1 == |requests|;
    }
  }

  lemma FixedResidueArithmetic(u: int, c: int, line: int, k: nat)
    requires line > 0 && k > 0 && 2 * (u * line) + k * line >= 2 * (c * line) + k
    ensures 2 * (c - u) < k
  {
    Distribute(2 * u, 0 - k, line);
    Cancel(2 * u + k, 2 * c, line);
  }

  /** Once a correction covers a whole FIXED line, nothing is left to reverse. */
  lemma {:induction false} FixedClosedByFullRequest(o: Accrual, line: int, requests: seq<int>, i: nat)
    requires IsEarned(o, line) && o.rule.kind.FIXED? && NonNegative(requests)
    requires i < |requests| && requests[i] >= line
    ensures Cumulative(o, line, requests) == o.calculated
  {
    var front, r := requests[..|requests| - 1], requests[|requests| - 1];
    CumulativeWithinOriginal(o, line, front);
    CumulativeWithinOriginal(o, line, requests);
    if i < |front| {
      FixedClosedByFullRequest(o, line, front, i);
      AdjustmentCapped(o, Cumulative(o, line, front), r, line);
    }
  }

  /** A FIXED line refunded in full by k corrections keeps less than k/2 minor units. */
  lemma {:induction false} FixedResidue(o: Accrual, line: int, requests: seq<int>)
    requires IsEarned(o, line) && line > 0 && o.rule.kind.FIXED?
    requires NonNegative(requests) && Sum(requests) == line
    ensures var residue := o.calculated - Cumulative(o, line, requests);
            0 <= 2 * residue < |requests|
  {
    assert requests == [] ==> Sum(requests) == 0;
    CumulativeWithinOriginal(o, line, requests);
    if i :| 0 <= i < |requests| && requests[i] >= line {
      FixedClosedByFullRequest(o, line, requests, i);
    } else {
      CumulativeIsCappedSum(o, line, requests);
      FixedUncappedBound(o, line, requests);
      FixedResidueArithmetic(Uncapped(o, line, requests), o.calculated, line, |requests|);
    }
  }

  /** The FIXED bound is attained: one unit of commission survives three equal refunds. */
  lemma FixedResidueIsTight()
    ensures var o := Accrual(Rule(FIXED, 0, 1), 3, 1);
            IsEarned(o, 3) && o.calculated - Cumulative(o, 3, [1, 1, 1]) == 1
  {
    var o := Accrual(Rule(FIXED, 0, 1), 3, 1);
    assert [1, 1, 1][..2] == [1, 1] && [1, 1][..1] == [1] && [1][..0] == [];
    assert Cumulative(o, 3, [1]) == 0;
    assert Cumulative(o, 3, [1, 1]) == 0;
  }
}
