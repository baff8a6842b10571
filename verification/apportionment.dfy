/** Largest-remainder apportionment of a signed adjustment over the lines of a sale
    (commission-adjustment-allocation.util.ts). */
module Apportionment {
  import opened Sorting
  import opened Arithmetic
  import opened Money
  import opened Rounding

  datatype AllocationLine = AllocationLine(lineId: string, gross: int, displayOrder: int)
  datatype Share = Share(line: AllocationLine, floorShare: int, remainder: int)

  // ---------- The lines and their exact shares ----------

  /** Line ids are primary keys and prices are non-negative columns. */
  ghost predicate ValidLines(lines: seq<AllocationLine>) {
    && (forall i :: 0 <= i < |lines| ==> lines[i].gross >= 0)
    && (forall i, j :: 0 <= i < j < |lines| ==> lines[i].lineId != lines[j].lineId)
  }

  function Gross(): AllocationLine -> int {
    (l: AllocationLine) => l.gross
  }

  function TotalGross(lines: seq<AllocationLine>): int {
    SumBy(Gross(), lines)
  }

  function FloorShare(l: AllocationLine, total: int, adjustment: int): int
    requires total != 0
  {
    BigIntFloorDiv(l.gross * adjustment, total)
  }

  function Remainder(l: AllocationLine, total: int, adjustment: int): int
    requires total != 0
  {
    l.gross * adjustment - FloorShare(l, total, adjustment) * total
  }

  function FloorShares(total: int, adjustment: int): AllocationLine -> int
    requires total != 0
  {
    (l: AllocationLine) => FloorShare(l, total, adjustment)
  }

  function Remainders(total: int, adjustment: int): AllocationLine -> int
    requires total != 0
  {
    (l: AllocationLine) => Remainder(l, total, adjustment)
  }

  /** What flooring every share leaves over. */
  function RemainingUnits(lines: seq<AllocationLine>, adjustment: int): int
    requires TotalGross(lines) != 0
  {
    adjustment - SumBy(FloorShares(TotalGross(lines), adjustment), lines)
  }

  // ---------- What an apportionment is ----------

  /** a is served no later than b: larger remainder first, then smaller display order. */
  predicate Precedes(a: AllocationLine, b: AllocationLine, total: int, adjustment: int)
    requires total != 0
  {
    var ra, rb := Remainder(a, total, adjustment), Remainder(b, total, adjustment);
    ra > rb || (ra == rb && a.displayOrder <= b.displayOrder)
  }

  /** `units` lines, none of them preceded strictly by a line left out. */
  ghost predicate IsTopSet(lines: seq<AllocationLine>, total: int, adjustment: int, units: int,
      winners: set<AllocationLine>)
    requires total != 0
  {
    && (forall w :: w in winners ==> w in lines)
    && |winners| == units
    && forall a, b :: a in winners && b in lines && b !in winners ==> Precedes(a, b, total, adjustment)
  }

  /** The remaining units go, one each, to the lines of the largest remainders. */
  ghost predicate IsWinnerSet(lines: seq<AllocationLine>, adjustment: int, winners: set<AllocationLine>)
    requires TotalGross(lines) != 0
  {
    IsTopSet(lines, TotalGross(lines), adjustment, RemainingUnits(lines, adjustment), winners)
  }

  function NetOf(l: AllocationLine, total: int, adjustment: int, winners: set<AllocationLine>): int
    requires total != 0
  {
    l.gross + FloorShare(l, total, adjustment) + if l in winners then 1 else 0
  }

  ghost predicate NetsFollow(lines: seq<AllocationLine>, adjustment: int, net: map<string, int>,
      winners: set<AllocationLine>)
    requires TotalGross(lines) != 0
  {
    && IsWinnerSet(lines, adjustment, winners)
    && forall l :: l in lines ==> l.lineId in net && net[l.lineId] == NetOf(l, TotalGross(lines), adjustment, winners)
  }

  ghost predicate IsApportionment(lines: seq<AllocationLine>, adjustment: int, net: map<string, int>) {
    && net.Keys == (set l | l in lines :: l.lineId)
    && if TotalGross(lines) == 0
       then forall l :: l in lines ==> l.lineId in net && net[l.lineId] == l.gross
       else exists winners :: NetsFollow(lines, adjustment, net, winners)
  }

  function NetLookup(net: map<string, int>): AllocationLine -> int {
    (l: AllocationLine) => if l.lineId in net then net[l.lineId] else 0
  }

  function NetTotal(lines: seq<AllocationLine>, net: map<string, int>): int {
    SumBy(NetLookup(net), lines)
  }

  // ---------- Exactness ----------

  lemma {:induction false} GrossNonNegative(lines: seq<AllocationLine>)
    requires forall i :: 0 <= i < |lines| ==> lines[i].gross >= 0
    ensures TotalGross(lines) >= 0
    ensures forall l :: l in lines ==> l.gross <= TotalGross(lines)
  {
    if lines != [] {
      GrossNonNegative(lines[1..]);
    }
  }

  lemma RemainderRange(l: AllocationLine, total: int, adjustment: int)
    requires total > 0
    ensures 0 <= Remainder(l, total, adjustment) < total
  {
    FloorDivIsFloor(l.gross * adjustment, total);
  }

  lemma {:induction false} FlooredAndRemainders(lines: seq<AllocationLine>, total: int, adjustment: int)
    requires total != 0
    ensures SumBy(FloorShares(total, adjustment), lines) * total + SumBy(Remainders(total, adjustment), lines)
            == TotalGross(lines) * adjustment
  {
    if lines != [] {
      FlooredAndRemainders(lines[1..], total, adjustment);
      var f, r := FloorShare(lines[0], total, adjustment), Remainder(lines[0], total, adjustment);
      var fs, gs := SumBy(FloorShares(total, adjustment), lines[1..]), TotalGross(lines[1..]);
      Distribute(f, fs, total);
      Distribute(lines[0].gross, gs, adjustment);
      assert f * total + r == lines[0].gross * adjustment;
    }
  }

  lemma RemaindersBound(r: int, sum: int, k: nat, top: int)
    requires 0 <= r <= top && 0 <= sum <= k * top
    ensures 0 <= r + sum <= (k + 1) * top
  {
    Distribute(k, 1, top);
  }

  /** Remainders of zero outside `w` leave at most |w| full units among the rest. */
  lemma {:induction false} RemaindersWithin(lines: seq<AllocationLine>, total: int, adjustment: int,
      w: set<AllocationLine>)
    requires total > 0 && Distinct(lines)
    requires forall l :: l in lines && l !in w ==> Remainder(l, total, adjustment) == 0
    ensures 0 <= SumBy(Remainders(total, adjustment), lines) <= |w| * (total - 1)
  {
    if lines == [] {
      ProductNonNegative(|w|, total - 1);
    } else {
      var l, rest := lines[0], lines[1..];
      RemainderRange(l, total, adjustment);
      if l in w {
        var v := w - {l};
        RemaindersWithin(rest, total, adjustment, v);
        assert |w| == |v| + 1;
        RemaindersBound(Remainder(l, total, adjustment), SumBy(Remainders(total, adjustment), rest), |v|, total - 1);
      } else {
        RemaindersWithin(rest, total, adjustment, w);
      }
    }
  }

  lemma DistinctIdsDistinctLines(lines: seq<AllocationLine>)
    requires ValidLines(lines)
    ensures Distinct(lines)
  {
  }

  /** The units left after flooring account for exactly the remainders. */
  lemma {:induction false} UnitsAreRemainders(lines: seq<AllocationLine>, adjustment: int)
    requires TotalGross(lines) > 0
    ensures RemainingUnits(lines, adjustment) * TotalGross(lines)
            == SumBy(Remainders(TotalGross(lines), adjustment), lines)
  {
    var total := TotalGross(lines);
    FlooredAndRemainders(lines, total, adjustment);
    Distribute(adjustment, SumBy(FloorShares(total, adjustment), lines), total);
  }

  /** The comment's claim: the leftover is a count of lines, in [0, n). */
  lemma RemainingUnitsInRange(lines: seq<AllocationLine>, adjustment: int)
    requires ValidLines(lines) && TotalGross(lines) > 0
    ensures 0 <= RemainingUnits(lines, adjustment) < |lines|
  {
    var total := TotalGross(lines);
    var all := set l | l in lines;
    UnitsAreRemainders(lines, adjustment);
    DistinctIdsDistinctLines(lines);
    RemaindersWithin(lines, total, adjustment, all);
    SetNoLarger(lines);
    UnitsRange(RemainingUnits(lines, adjustment), total, |all|, |lines|);
  }

  lemma UnitsRange(u: int, total: int, m: nat, n: nat)
    requires total > 0 && m <= n && 0 < n && 0 <= u * total <= m * (total - 1)
    ensures 0 <= u < n
  {
    MulStep(u, 0, total);
    MulStep(m - 1, n, total - 1);
    Distribute(m, 1, total - 1);
    MulStep(n - 1, u, total);
    Distribute(n - 1, 1, total);
    Distribute(n, 0, total);
    assert m * (total - 1) <= n * (total - 1) == n * total - n;
  }

  lemma {:induction false} SetNoLarger<T>(s: seq<T>)
    ensures |set x | x in s| <= |s|
    ensures Distinct(s) ==> |set x | x in s| == |s|
  {
    if s == [] {
    } else {
      SetNoLarger(s[1..]);
      assert (set x | x in s) == {s[0]} + (set x | x in s[1..]);
      if Distinct(s) {
        assert Distinct(s[1..]);
        assert s[0] !in s[1..];
      }
    }
  }

  function NetParts(total: int, adjustment: int): AllocationLine -> int
    requires total != 0
  {
    (l: AllocationLine) => l.gross + FloorShare(l, total, adjustment)
  }

  lemma NetsAddUp(lines: seq<AllocationLine>, adjustment: int, net: map<string, int>, winners: set<AllocationLine>)
    requires ValidLines(lines) && TotalGross(lines) != 0 && NetsFollow(lines, adjustment, net, winners)
    ensures NetTotal(lines, net) == TotalGross(lines) + adjustment
  {
    var total := TotalGross(lines);
    DistinctIdsDistinctLines(lines);
    SumByAdd(NetLookup(net), NetParts(total, adjustment), Indicator(winners), lines);
    SumByAdd(NetParts(total, adjustment), Gross(), FloorShares(total, adjustment), lines);
    SumIndicator(winners, lines);
  }

  /** The nets meet gross plus adjustment exactly, for either sign; the defensive
      zero-gross branch is the only one that can lose the adjustment. */
  lemma NetsSumExactly(lines: seq<AllocationLine>, adjustment: int, net: map<string, int>)
    requires ValidLines(lines) && IsApportionment(lines, adjustment, net)
    ensures NetTotal(lines, net) == TotalGross(lines) + adjustment
            <==> TotalGross(lines) > 0 || adjustment == 0
  {
    var total := TotalGross(lines);
    GrossNonNegative(lines);
    if total == 0 {
      SumByCongruent(NetLookup(net), Gross(), lines);
    } else {
      var winners :| NetsFollow(lines, adjustment, net, winners);
      NetsAddUp(lines, adjustment, net, winners);
    }
  }

  // ---------- Quota ----------

  lemma FewerUnits(u: nat, total: int)
    requires u > 0 && total > 0
    ensures (u - 1) * (total - 1) < u * total
  {
    Distribute(u, 1, total - 1);
    assert u * total == u * (total - 1) + u;
  }

  /** A line whose exact share is a whole number never receives an extra unit. */
  lemma WinnersHaveRemainder(lines: seq<AllocationLine>, adjustment: int, winners: set<AllocationLine>,
      l: AllocationLine)
    requires ValidLines(lines) && TotalGross(lines) > 0
    requires IsWinnerSet(lines, adjustment, winners) && l in winners
    ensures Remainder(l, TotalGross(lines), adjustment) > 0
  {
    var total := TotalGross(lines);
    RemainderRange(l, total, adjustment);
    if Remainder(l, total, adjustment) == 0 {
      forall b | b in lines && b !in winners - {l} ensures Remainder(b, total, adjustment) == 0 {
        RemainderRange(b, total, adjustment);
        assert b != l ==> Precedes(l, b, total, adjustment);
      }
      DistinctIdsDistinctLines(lines);
      RemaindersWithin(lines, total, adjustment, winners - {l});
      UnitsAreRemainders(lines, adjustment);
      assert |winners - {l}| == |winners| - 1;
      FewerUnits(|winners|, total);
    }
  }

  /** Every line's share of the adjustment is the floor or the ceiling of its exact
      share gross * adjustment / total. */
  lemma ShareWithinQuota(lines: seq<AllocationLine>, adjustment: int, net: map<string, int>, l: AllocationLine)
    requires ValidLines(lines) && TotalGross(lines) > 0 && l in lines
    requires IsApportionment(lines, adjustment, net)
    ensures l.lineId in net
    ensures var share := net[l.lineId] - l.gross;
            var total := TotalGross(lines);
            && -total < share * total - l.gross * adjustment < total
            && (forall q :: q * total == l.gross * adjustment ==> share == q)
  {
    var total := TotalGross(lines);
    var winners :| NetsFollow(lines, adjustment, net, winners);
    var f := FloorShare(l, total, adjustment);
    var share := net[l.lineId] - l.gross;
    RemainderRange(l, total, adjustment);
    if l in winners {
      WinnersHaveRemainder(lines, adjustment, winners, l);
    }
    Distribute(f, 1, total);
    forall q | q * total == l.gross * adjustment ensures share == q {
      FloorUnique(total, f, q, l.gross * adjustment);
    }
  }

  // ---------- Fairness ----------

  /** Apportioning the adjustment and apportioning the net total leave the same remainders. */
  lemma NetFloor(l: AllocationLine, total: int, adjustment: int)
    requires total > 0
    ensures (l.gross + FloorShare(l, total, adjustment)) * total + Remainder(l, total, adjustment)
            == l.gross * (total + adjustment)
  {
    Distribute(l.gross, FloorShare(l, total, adjustment), total);
    assert l.gross * (total + adjustment) == l.gross * total + l.gross * adjustment;
  }

  lemma NetsNonNegativeForward(lines: seq<AllocationLine>, adjustment: int, net: map<string, int>, l: AllocationLine)
    requires ValidLines(lines) && IsApportionment(lines, adjustment, net) && l in lines
    requires TotalGross(lines) > 0 && TotalGross(lines) + adjustment >= 0
    ensures l.lineId in net && net[l.lineId] >= 0
  {
    var total := TotalGross(lines);
    var winners :| NetsFollow(lines, adjustment, net, winners);
    RemainderRange(l, total, adjustment);
    NetFloor(l, total, adjustment);
    NonNegativeFloor(l.gross + FloorShare(l, total, adjustment), total, Remainder(l, total, adjustment), l.gross,
      total + adjustment);
  }

  lemma NonNegativeFloor(q: int, total: int, r: int, g: int, m: int)
    requires g >= 0 && m >= 0 && 0 <= r < total && q * total + r == g * m
    ensures q >= 0
    ensures m == 0 ==> r == 0
  {
    assert g * m >= 0;
    MulStep(q, 0, total);
    MulStep(0, q, total);
  }

  lemma {:induction false} SomeNetNegative(lines: seq<AllocationLine>, net: map<string, int>)
    requires NetTotal(lines, net) < 0
    ensures exists l :: l in lines && NetLookup(net)(l) < 0
  {
    if NetLookup(net)(lines[0]) >= 0 {
      SomeNetNegative(lines[1..], net);
      var l :| l in lines[1..] && NetLookup(net)(l) < 0;
      assert l in lines;
    } else {
      assert lines[0] in lines;
    }
  }

  /** No net is negative exactly when the discount does not exceed the gross of the lines
      passed in (or there is nothing to proportion against). */
  lemma NetsNonNegativeIff(lines: seq<AllocationLine>, adjustment: int, net: map<string, int>)
    requires ValidLines(lines) && IsApportionment(lines, adjustment, net)
    ensures (forall l :: l in lines ==> l.lineId in net && net[l.lineId] >= 0)
            <==> TotalGross(lines) == 0 || TotalGross(lines) + adjustment >= 0
  {
    GrossNonNegative(lines);
    if TotalGross(lines) == 0 {
    } else if TotalGross(lines) + adjustment >= 0 {
      forall l | l in lines ensures l.lineId in net && net[l.lineId] >= 0 {
        NetsNonNegativeForward(lines, adjustment, net, l);
      }
    } else {
      NetsSumExactly(lines, adjustment, net);
      SomeNetNegative(lines, net);
    }
  }

  lemma NetFloorsMonotone(a: AllocationLine, b: AllocationLine, total: int, adjustment: int)
    requires total > 0 && total + adjustment >= 0 && a.gross > b.gross
    ensures var fa, fb := a.gross + FloorShare(a, total, adjustment), b.gross + FloorShare(b, total, adjustment);
            || fa > fb
            || (fa == fb && Remainder(a, total, adjustment) >= Remainder(b, total, adjustment)
                && (total + adjustment > 0 ==> Remainder(a, total, adjustment) > Remainder(b, total, adjustment)))
  {
    var m := total + adjustment;
    var fa, fb := a.gross + FloorShare(a, total, adjustment), b.gross + FloorShare(b, total, adjustment);
    NetFloor(a, total, adjustment);
    NetFloor(b, total, adjustment);
    RemainderRange(a, total, adjustment);
    RemainderRange(b, total, adjustment);
    MulStep(b.gross, a.gross, m);
    MulStep(fa, fb, total);
    assert a.gross * m == m * a.gross && b.gross * m == m * b.gross;
  }

  /** A strictly larger gross never ends with a smaller net. */
  lemma NetsMonotone(lines: seq<AllocationLine>, adjustment: int, net: map<string, int>, a: AllocationLine,
      b: AllocationLine)
    requires ValidLines(lines) && IsApportionment(lines, adjustment, net)
    requires TotalGross(lines) + adjustment >= 0
    requires a in lines && b in lines && a.gross > b.gross
    ensures a.lineId in net && b.lineId in net && net[a.lineId] >= net[b.lineId]
  {
    var total := TotalGross(lines);
    GrossNonNegative(lines);
    if total > 0 {
      var winners :| NetsFollow(lines, adjustment, net, winners);
      NetFloorsMonotone(a, b, total, adjustment);
      if b in winners && a !in winners {
        assert Precedes(b, a, total, adjustment);
        WinnersHaveRemainder(lines, adjustment, winners, b);
        NetFloor(b, total, adjustment);
        RemainderRange(b, total, adjustment);
        NonNegativeFloor(b.gross + FloorShare(b, total, adjustment), total, Remainder(b, total, adjustment), b.gross,
          total + adjustment);
      }
    }
  }

  // ---------- Independence of array order ----------

  ghost predicate DistinctOrders(lines: seq<AllocationLine>) {
    forall a, b :: a in lines && b in lines && a.displayOrder == b.displayOrder ==> a == b
  }

  lemma WinnersUnique(lines: seq<AllocationLine>, total: int, adjustment: int, units: int, v: set<AllocationLine>,
      w: set<AllocationLine>)
    requires total != 0 && DistinctOrders(lines)
    requires IsTopSet(lines, total, adjustment, units, v) && IsTopSet(lines, total, adjustment, units, w)
    ensures v == w
  {
    if v != w {
      var a, b := Exchange(v, w);
      assert false;
    }
  }

  lemma Exchange<T>(v: set<T>, w: set<T>) returns (a: T, b: T)
    requires |v| == |w| && v != w
    ensures a in v && a !in w && b in w && b !in v
  {
    assert v == (v - w) + v * w && w == (w - v) + v * w;
    assert |v - w| == |w - v|;
    a :| a in v - w;
    b :| b in w - v;
  }

  /** With distinct display orders the result is a function of the set of lines alone. */
  lemma OrderIndependent(
    lines: seq<AllocationLine>, others: seq<AllocationLine>, adjustment: int, net: map<string, int>,
      otherNet: map<string, int>)
    requires multiset(lines) == multiset(others) && DistinctOrders(lines)
    requires IsApportionment(lines, adjustment, net) && IsApportionment(others, adjustment, otherNet)
    ensures net == otherNet
  {
    var total := TotalGross(lines);
    SumByPermutes(Gross(), lines, others);
    SameMembers(lines, others);
    if total != 0 {
      SumByPermutes(FloorShares(total, adjustment), lines, others);
      var v :| NetsFollow(lines, adjustment, net, v);
      var w :| NetsFollow(others, adjustment, otherNet, w);
      SameTopSet(lines, others, total, adjustment, RemainingUnits(lines, adjustment), w);
      WinnersUnique(lines, total, adjustment, RemainingUnits(lines, adjustment), v, w);
      SameNets(lines, others, total, adjustment, v, net, otherNet);
    }
  }

  lemma SameTopSet(lines: seq<AllocationLine>, others: seq<AllocationLine>, total: int, adjustment: int, units: int,
      w: set<AllocationLine>)
    requires total != 0 && (forall l :: l in lines <==> l in others) && IsTopSet(others, total, adjustment, units, w)
    ensures IsTopSet(lines, total, adjustment, units, w)
  {
  }

  lemma SameNets(lines: seq<AllocationLine>, others: seq<AllocationLine>, total: int, adjustment: int,
      winners: set<AllocationLine>,
                 net: map<string, int>, otherNet: map<string, int>)
    requires total != 0 && (forall l :: l in lines <==> l in others)
    requires net.Keys == otherNet.Keys == (set l | l in lines :: l.lineId)
    requires forall l :: l in lines ==> l.lineId in net && net[l.lineId] == NetOf(l, total, adjustment, winners)
    requires forall l :: l in others ==>
      l.lineId in otherNet && otherNet[l.lineId] == NetOf(l, total, adjustment, winners)
    ensures net == otherNet
  {
    forall id | id in net ensures id in otherNet && net[id] == otherNet[id] {
      var l :| l in lines && l.lineId == id;
    }
  }

  lemma SameMembers<T>(s: seq<T>, t: seq<T>)
    requires multiset(s) == multiset(t)
    ensures forall x :: x in s <==> x in t
  {
    assert forall x :: x in s <==> x in multiset(s);
    assert forall x :: x in t <==> x in multiset(t);
  }

  // ---------- The algorithm ----------

  function ShareOf(l: AllocationLine, total: int, adjustment: int): Share
    requires total != 0
  {
    Share(l, FloorShare(l, total, adjustment), Remainder(l, total, adjustment))
  }

  function ShareOrder(): (Share, Share) -> bool {
    (a: Share, b: Share) =>
      a.remainder > b.remainder || (a.remainder == b.remainder && a.line.displayOrder <= b.line.displayOrder)
  }

  function ShareFloor(): Share -> int {
    (s: Share) => s.floorShare
  }

  ghost predicate AreSharesOf(shares: seq<Share>, lines: seq<AllocationLine>, total: int, adjustment: int)
    requires total != 0
  {
    |shares| == |lines| && forall i :: 0 <= i < |lines| ==> shares[i] == ShareOf(lines[i], total, adjustment)
  }

  lemma {:induction false} SharesSum(shares: seq<Share>, lines: seq<AllocationLine>, total: int, adjustment: int)
    requires total != 0 && AreSharesOf(shares, lines, total, adjustment)
    ensures SumBy(ShareFloor(), shares) == SumBy(FloorShares(total, adjustment), lines)
  {
    if lines != [] {
      SharesSum(shares[1..], lines[1..], total, adjustment);
    }
  }

  /** Ranking permutes the shares: every rank holds another line's own share. */
  lemma {:induction false} RankedShares(lines: seq<AllocationLine>, total: int, adjustment: int, shares: seq<Share>,
      ranked: seq<Share>)
    requires total != 0 && Distinct(lines) && AreSharesOf(shares, lines, total, adjustment)
    requires ranked == Sort(ShareOrder(), shares)
    ensures |ranked| == |lines| && SortedBy(ShareOrder(), ranked)
    ensures forall i :: 0 <= i < |ranked| ==>
      ranked[i].line in lines && ranked[i] == ShareOf(ranked[i].line, total, adjustment)
    ensures forall i, j :: 0 <= i < j < |ranked| ==> ranked[i].line != ranked[j].line
    ensures forall l :: l in lines ==> exists j :: 0 <= j < |ranked| && ranked[j].line == l
  {
    SortCorrect(ShareOrder(), shares);
    PermutationKeepsDistinct(shares, ranked);
    SameMembers(ranked, shares);
    forall i | 0 <= i < |ranked|
      ensures ranked[i].line in lines && ranked[i] == ShareOf(ranked[i].line, total, adjustment)
    {
      assert ranked[i] in shares;
      var k :| 0 <= k < |shares| && shares[k] == ranked[i];
      assert lines[k] in lines;
    }
    forall l | l in lines ensures exists j :: 0 <= j < |ranked| && ranked[j].line == l {
      var k :| 0 <= k < |lines| && lines[k] == l;
      assert shares[k] in ranked;
      var j :| 0 <= j < |ranked| && ranked[j] == shares[k];
    }
  }

  function Top(ranked: seq<Share>, n: nat): (w: set<AllocationLine>)
    requires n <= |ranked|
  {
    set i | 0 <= i < n :: ranked[i].line
  }

  lemma {:induction false} TopSize(ranked: seq<Share>, n: nat)
    requires n <= |ranked|
    requires forall i, j :: 0 <= i < j < |ranked| ==> ranked[i].line != ranked[j].line
    ensures |Top(ranked, n)| == n
  {
    if n > 0 {
      TopSize(ranked, n - 1);
      assert Top(ranked, n) == Top(ranked, n - 1) + {ranked[n - 1].line};
    }
  }

  lemma {:induction false} TopRankedWin(lines: seq<AllocationLine>, total: int, adjustment: int, shares: seq<Share>,
      ranked: seq<Share>, units: nat)
    requires total != 0 && Distinct(lines) && AreSharesOf(shares, lines, total, adjustment)
    requires ranked == Sort(ShareOrder(), shares) && units <= |ranked|
    ensures IsTopSet(lines, total, adjustment, units, Top(ranked, units))
  {
    var winners := Top(ranked, units);
    RankedShares(lines, total, adjustment, shares, ranked);
    TopSize(ranked, units);
    forall a, b | a in winners && b in lines && b !in winners ensures Precedes(a, b, total, adjustment) {
      var i :| 0 <= i < units && ranked[i].line == a;
      var j :| 0 <= j < |ranked| && ranked[j].line == b;
      assert i < j && ShareOrder()(ranked[i], ranked[j]);
    }
  }

  /** `m` holds f's value for each of the first n lines, and nothing else. */
  ghost predicate MapsLines(m: map<string, int>, lines: seq<AllocationLine>, n: nat, f: AllocationLine -> int)
    requires n <= |lines|
  {
    && (forall k :: 0 <= k < n ==> lines[k].lineId in m && m[lines[k].lineId] == f(lines[k]))
    && (forall id :: id in m ==> exists k :: 0 <= k < n && lines[k].lineId == id)
  }

  lemma MapsOneMore(m: map<string, int>, lines: seq<AllocationLine>, i: nat, f: AllocationLine -> int)
    requires i < |lines| && MapsLines(m, lines, i, f)
    requires forall j, k :: 0 <= j < k < |lines| ==> lines[j].lineId != lines[k].lineId
    ensures MapsLines(m[lines[i].lineId := f(lines[i])], lines, i + 1, f)
  {
  }

  /** f, plus one unit for the first `n` ranked lines. */
  function AllottedAfter(f: AllocationLine -> int, ranked: seq<Share>, n: nat): AllocationLine -> int
    requires n <= |ranked|
  {
    (l: AllocationLine) => f(l) + if l in Top(ranked, n) then 1 else 0
  }

  lemma OneUnitMore(m: map<string, int>, lines: seq<AllocationLine>, f: AllocationLine -> int, ranked: seq<Share>,
      n: nat)
    requires n < |ranked| && ValidLines(lines) && ranked[n].line in lines
    requires forall i, j :: 0 <= i < j < |ranked| ==> ranked[i].line != ranked[j].line
    requires MapsLines(m, lines, |lines|, AllottedAfter(f, ranked, n))
    ensures var id := ranked[n].line.lineId;
      id in m && MapsLines(m[id := m[id] + 1], lines, |lines|, AllottedAfter(f, ranked, n + 1))
  {
    assert Top(ranked, n + 1) == Top(ranked, n) + {ranked[n].line};
    assert ranked[n].line !in Top(ranked, n);
    IdsSeparate(lines, ranked[n].line);
  }

  lemma IdsSeparate(lines: seq<AllocationLine>, l: AllocationLine)
    requires ValidLines(lines) && l in lines
    ensures forall other :: other in lines && other.lineId == l.lineId ==> other == l
  {
  }

  /** A loop that stores f's value under every line id. */
  method StoreByLine(lines: seq<AllocationLine>, values: seq<int>,
      ghost f: AllocationLine -> int) returns (m: map<string, int>)
    requires ValidLines(lines) && |values| == |lines|
    requires forall i :: 0 <= i < |lines| ==> values[i] == f(lines[i])
    ensures MapsLines(m, lines, |lines|, f)
  {
    m := map[];
    for i := 0 to |lines|
      invariant MapsLines(m, lines, i, f)
    {
      MapsOneMore(m, lines, i, f);
      m := m[lines[i].lineId := values[i]];
    }
  }

  /** One more unit for each of the first `units` ranks. */
  method AllotUnits(lines: seq<AllocationLine>, floors: map<string, int>, ranked: seq<Share>, units: nat,
      ghost f: AllocationLine -> int)
    returns (allotted: map<string, int>)
    requires ValidLines(lines) && units <= |ranked| && MapsLines(floors, lines, |lines|, f)
    requires forall i :: 0 <= i < |ranked| ==> ranked[i].line in lines
    requires forall i, j :: 0 <= i < j < |ranked| ==> ranked[i].line != ranked[j].line
    ensures MapsLines(allotted, lines, |lines|, AllottedAfter(f, ranked, units))
  {
    allotted := floors;
    for i := 0 to units
      invariant MapsLines(allotted, lines, |lines|, AllottedAfter(f, ranked, i))
    {
      OneUnitMore(allotted, lines, f, ranked, i);
      var id := ranked[i].line.lineId;
      allotted := allotted[id := allotted[id] + 1];
    }
  }

  function AddGross(allotted: AllocationLine -> int): AllocationLine -> int {
    (l: AllocationLine) => l.gross + allotted(l)
  }

  /** The floors, then the remaining units, then gross plus what was allotted. */
  method StoreNets(lines: seq<AllocationLine>, floors: seq<int>, ranked: seq<Share>, units: nat,
      ghost f: AllocationLine -> int)
    returns (netAmounts: map<string, int>)
    requires ValidLines(lines) && units <= |ranked| && |floors| == |lines|
    requires forall i :: 0 <= i < |lines| ==> floors[i] == f(lines[i])
    requires forall i :: 0 <= i < |ranked| ==> ranked[i].line in lines
    requires forall i, j :: 0 <= i < j < |ranked| ==> ranked[i].line != ranked[j].line
    ensures MapsLines(netAmounts, lines, |lines|, AddGross(AllottedAfter(f, ranked, units)))
  {
    var allotted := StoreByLine(lines, floors, f);
    allotted := AllotUnits(lines, allotted, ranked, units, f);
    ghost var g := AllottedAfter(f, ranked, units);
    var nets := seq(|lines|, i requires 0 <= i < |lines| && lines[i].lineId in allotted =>
      lines[i].gross + allotted[lines[i].lineId]);
    assert forall i :: 0 <= i < |lines| ==> nets[i] == AddGross(g)(lines[i]);
    netAmounts := StoreByLine(lines, nets, AddGross(g));
  }

  lemma TopAllottedIsApportionment(lines: seq<AllocationLine>, adjustment: int, net: map<string, int>,
      ranked: seq<Share>, units: nat)
    requires TotalGross(lines) != 0 && units <= |ranked| && units == RemainingUnits(lines, adjustment)
    requires IsTopSet(lines, TotalGross(lines), adjustment, units, Top(ranked, units))
    requires MapsLines(net, lines, |lines|,
      AddGross(AllottedAfter(FloorShares(TotalGross(lines), adjustment), ranked, units)))
    ensures IsApportionment(lines, adjustment, net)
  {
    assert NetsFollow(lines, adjustment, net, Top(ranked, units));
  }

  method AllocateAdjustmentsAcrossLines(lines: seq<AllocationLine>, adjustment: int)
    returns (netAmounts: map<string, int>)
    requires ValidLines(lines)
    ensures IsApportionment(lines, adjustment, netAmounts)
  {
    if |lines| == 0 {
      return map[];
    }
    var total := TotalGross(lines);
    if total == 0 {
      netAmounts := StoreByLine(lines, seq(|lines|, i requires 0 <= i < |lines| => lines[i].gross), Gross());
      return;
    }
    netAmounts := AllocateProportionally(lines, adjustment, total);
  }

  method AllocateProportionally(lines: seq<AllocationLine>, adjustment: int,
      total: int) returns (netAmounts: map<string, int>)
    requires ValidLines(lines) && total == TotalGross(lines) != 0
    ensures IsApportionment(lines, adjustment, netAmounts)
  {
    GrossNonNegative(lines);
    DistinctIdsDistinctLines(lines);
    var shares := seq(|lines|, i requires 0 <= i < |lines| => ShareOf(lines[i], total, adjustment));
    SharesSum(shares, lines, total, adjustment);
    var remainingUnits := adjustment - SumBy(ShareFloor(), shares);
    RemainingUnitsInRange(lines, adjustment);
    var ranked := Sort(ShareOrder(), shares);
    RankedShares(lines, total, adjustment, shares, ranked);
    TopRankedWin(lines, total, adjustment, shares, ranked, remainingUnits);

    var floors := seq(|shares|, i requires 0 <= i < |shares| => shares[i].floorShare);
    netAmounts := StoreNets(lines, floors, ranked, remainingUnits, FloorShares(total, adjustment));
    TopAllottedIsApportionment(lines, adjustment, netAmounts, ranked, remainingUnits);
  }

  // ---------- Who gets the units left over ----------

  lemma FloorIsQuotient(l: AllocationLine, total: int, adjustment: int)
    requires total > 0
    ensures FloorShare(l, total, adjustment) == l.gross * adjustment / total
    ensures Remainder(l, total, adjustment) == l.gross * adjustment % total
  {
    var a := l.gross * adjustment;
    FloorDivIsFloor(a, total);
    assert a == a / total * total + a % total;
    FloorUnique(total, FloorShare(l, total, adjustment), a / total, a);
  }

  /** x has more left over by the division than l, or as much and is displayed before it. */
  predicate Ahead(x: AllocationLine, l: AllocationLine, total: int, adjustment: int)
    requires total > 0
  {
    || x.gross * adjustment % total > l.gross * adjustment % total
    || (x.gross * adjustment % total == l.gross * adjustment % total && x.displayOrder < l.displayOrder)
  }

  /** Lines cut short alike: the one displayed first is never given less than the other. */
  lemma EarlierDisplayedFirst(lines: seq<AllocationLine>, adjustment: int, net: map<string, int>, a: AllocationLine,
      b: AllocationLine)
    requires ValidLines(lines) && IsApportionment(lines, adjustment, net)
    requires a in lines && b in lines && a.gross == b.gross && a.displayOrder < b.displayOrder
    ensures a.lineId in net && b.lineId in net && net[b.lineId] <= net[a.lineId] <= net[b.lineId] + 1
  {
    var total := TotalGross(lines);
    GrossNonNegative(lines);
    if total > 0 {
      var winners :| NetsFollow(lines, adjustment, net, winners);
      assert b in winners && a !in winners ==> Precedes(b, a, total, adjustment);
    }
  }

  function Quotients(total: int, adjustment: int): AllocationLine -> int
    requires total > 0
  {
    (l: AllocationLine) => l.gross * adjustment / total
  }

  lemma AheadIsStrict(x: AllocationLine, l: AllocationLine, total: int, adjustment: int)
    requires total > 0
    ensures Ahead(x, l, total, adjustment) <==> !Precedes(l, x, total, adjustment)
  {
    FloorIsQuotient(x, total, adjustment);
    FloorIsQuotient(l, total, adjustment);
  }

  /** The lines ahead of l. */
  function AheadOf(lines: seq<AllocationLine>, l: AllocationLine, total: int, adjustment: int): set<AllocationLine>
    requires total > 0
  {
    set x | x in lines && Ahead(x, l, total, adjustment)
  }

  lemma WinsIff(lines: seq<AllocationLine>, total: int, adjustment: int, units: int, winners: set<AllocationLine>,
      l: AllocationLine)
    requires total > 0 && DistinctOrders(lines) && l in lines && IsTopSet(lines, total, adjustment, units, winners)
    ensures l in winners <==> |AheadOf(lines, l, total, adjustment)| < units
  {
    forall x ensures Ahead(x, l, total, adjustment) <==> !Precedes(l, x, total, adjustment) {
      AheadIsStrict(x, l, total, adjustment);
    }
    var ahead := AheadOf(lines, l, total, adjustment);
    if l in winners {
      Subset(ahead, winners - {l});
    } else {
      Subset(winners, ahead);
    }
  }

  lemma Subset<T>(a: set<T>, b: set<T>)
    requires a <= b
    ensures |a| <= |b|
  {
    assert b == a + (b - a);
  }

  /** A line's net, from the division alone: its rounded-down share, and one of the units that
      rounding leaves over exactly when fewer lines are ahead of it than there are units. */
  lemma {:induction false} RankDecides(lines: seq<AllocationLine>, adjustment: int, net: map<string, int>,
      l: AllocationLine)
    requires ValidLines(lines) && DistinctOrders(lines) && TotalGross(lines) > 0
    requires IsApportionment(lines, adjustment, net) && l in lines
    ensures l.lineId in net
    ensures var total := TotalGross(lines);
            var left := adjustment - SumBy(Quotients(total, adjustment), lines);
            net[l.lineId] == l.gross + l.gross * adjustment / total
              + if |AheadOf(lines, l, total, adjustment)| < left then 1 else 0
  {
    var total := TotalGross(lines);
    var winners :| NetsFollow(lines, adjustment, net, winners);
    forall x | x in lines ensures FloorShares(total, adjustment)(x) == Quotients(total, adjustment)(x) {
      FloorIsQuotient(x, total, adjustment);
    }
    SumByCongruent(FloorShares(total, adjustment), Quotients(total, adjustment), lines);
    WinsIff(lines, total, adjustment, RemainingUnits(lines, adjustment), winners, l);
  }

  /** Two equal lines and one unit to take off: the line displayed first keeps its price. */
  lemma TieGoesToFirst(net: map<string, int>)
    requires IsApportionment([AllocationLine("a", 50, 0), AllocationLine("b", 50, 1)], -1, net)
    ensures "a" in net && net["a"] == 50
    ensures "b" in net && net["b"] == 49
  {
    var a, b := AllocationLine("a", 50, 0), AllocationLine("b", 50, 1);
    var lines := [a, b];
    EarlierDisplayedFirst(lines, -1, net, a, b);
    NetsSumExactly(lines, -1, net);
    SumOfTwo(Gross(), a, b);
    SumOfTwo(NetLookup(net), a, b);
  }

  lemma SumOfTwo<T>(f: T -> int, x: T, y: T)
    ensures SumBy(f, [x, y]) == f(x) + f(y)
  {
    SumByAppend(f, [x], y);
    assert [x, y] == [x] + [y];
  }
}
