/** The commission ledger of one sale: earned rows written once per service line, and the
    correcting rows appended to them (commission-accrual.service.ts,
    commission-adjustment.service.ts). */
module Accruals {
  import opened Apportionment
  import opened Arithmetic
  import opened Commission
  import opened Money
  import opened Rounding

  datatype SaleLine = SaleLine(id: string, isService: bool, price: int, displayOrder: int)
  datatype BasisKind = GROSS_LINE | NET_LINE_AFTER_ADJUSTMENTS
  datatype Policy = Policy(rule: Rule, basis: BasisKind)
  datatype Adjustment = Adjustment(lineId: string, requested: int, amount: int)
  datatype Pairing = Pairing(lineId: string, requested: int, lineAmount: int)

  // ---------- Earning ----------

  ghost predicate ValidSale(lines: seq<SaleLine>) {
    && (forall i :: 0 <= i < |lines| ==> lines[i].price >= 0)
    && (forall i, j :: 0 <= i < j < |lines| ==> lines[i].id != lines[j].id)
  }

  function ServiceLines(lines: seq<SaleLine>): seq<SaleLine> {
    if lines == [] then []
    else if lines[0].isService then [lines[0]] + ServiceLines(lines[1..])
    else ServiceLines(lines[1..])
  }

  function AllocationLines(lines: seq<SaleLine>): (r: seq<AllocationLine>) {
    seq(|lines|, i requires 0 <= i < |lines| => AllocationLine(lines[i].id, lines[i].price, lines[i].displayOrder))
  }

  lemma {:induction false} ServiceLinesAreLines(lines: seq<SaleLine>)
    ensures forall l :: l in ServiceLines(lines) <==> l in lines && l.isService
    ensures ValidSale(lines) ==> ValidSale(ServiceLines(lines))
  {
    if lines != [] {
      ServiceLinesAreLines(lines[1..]);
      if ValidSale(lines) {
        assert ValidSale(lines[1..]);
        forall l | l in ServiceLines(lines[1..]) ensures l.id != lines[0].id {
          assert l in lines[1..];
        }
      }
    }
  }

  function BasisAmount(l: SaleLine, p: Policy, net: map<string, int>): int
    requires l.id in net
  {
    if p.basis.GROSS_LINE? then l.price else net[l.id]
  }

  ghost predicate IsRowFor(row: Accrual, l: SaleLine, p: Policy, net: map<string, int>)
    requires l.id in net
  {
    StoreEarned(p.rule, BasisAmount(l, p, net)) == Ok(row)
  }

  ghost predicate PoliciesCover(policies: map<string, Policy>, lines: seq<SaleLine>) {
    forall l :: l in lines ==> l.id in policies && ValidRule(policies[l.id].rule)
  }

  /** Every pending line's row is calculated and stored. */
  ghost predicate Accruable(before: map<string, Accrual>, services: seq<SaleLine>, policies: map<string, Policy>,
      net: map<string, int>)
    requires PoliciesCover(policies, services) && (forall l :: l in services ==> l.id in net)
  {
    forall l :: l in services && l.id !in before ==>
      StoreEarned(policies[l.id].rule, BasisAmount(l, policies[l.id], net)).Ok?
  }

  /** Every service line has its row; rows already there are untouched. */
  ghost predicate IsAccrued(before: map<string, Accrual>, services: seq<SaleLine>, policies: map<string, Policy>,
      net: map<string, int>, after: map<string, Accrual>)
    requires PoliciesCover(policies, services) && (forall l :: l in services ==> l.id in net)
  {
    && (forall id :: id in before ==> id in after && after[id] == before[id])
    && (forall id :: id in after && id !in before ==> exists l :: l in services && l.id == id)
    && (forall l :: l in services && l.id !in before ==> l.id in after && IsRowFor(after[l.id], l, policies[l.id], net))
  }

  method WriteRows(before: map<string, Accrual>, services: seq<SaleLine>, policies: map<string, Policy>,
      net: map<string, int>)
    returns (r: Result<map<string, Accrual>>)
    requires ValidSale(services) && PoliciesCover(policies, services)
    requires forall l :: l in services ==> l.id in net
    ensures r.Ok? == Accruable(before, services, policies, net)
    ensures r.Ok? ==> IsAccrued(before, services, policies, net, r.value)
  {
    var rows := before;
    for i := 0 to |services|
      invariant Accruable(before, services[..i], policies, net)
      invariant IsAccrued(before, services[..i], policies, net, rows)
    {
      var item := services[i];
      assert services[..i + 1] == services[..i] + [item];
      assert item in services && forall l :: l in services[..i] ==> l.id != item.id;
      if item.id !in before {
        match StoreEarned(policies[item.id].rule, BasisAmount(item, policies[item.id], net))
        case Err =>
          return Err;
        case Ok(row) =>
          OneMoreRow(before, services[..i], item, policies, net, rows, row);
          rows := rows[item.id := row];
      }
    }
    assert services[..|services|] == services;
    return Ok(rows);
  }

  lemma OneMoreRow(
    before: map<string, Accrual>, done: seq<SaleLine>, item: SaleLine, policies: map<string, Policy>,
      net: map<string, int>,
    rows: map<string, Accrual>, row: Accrual)
    requires PoliciesCover(policies, done + [item]) && (forall l :: l in done + [item] ==> l.id in net)
    requires PoliciesCover(policies, done) && IsAccrued(before, done, policies, net, rows)
    requires item.id !in before && (forall l :: l in done ==> l.id != item.id)
    requires item in done + [item] && IsRowFor(row, item, policies[item.id], net)
    ensures IsAccrued(before, done + [item], policies, net, rows[item.id := row])
  {
    forall id | id in rows[item.id := row] && id !in before ensures exists l :: l in done + [item] && l.id == id {
      if id == item.id {
        assert item in done + [item];
      } else {
        var l :| l in done && l.id == id;
        assert l in done + [item];
      }
    }
  }

  // ---------- Correcting ----------

  function AdjustedSum(rows: seq<Adjustment>, lineId: string): int {
    if rows == [] then 0
    else AdjustedSum(rows[..|rows| - 1], lineId)
         + if rows[|rows| - 1].lineId == lineId then rows[|rows| - 1].amount else 0
  }

  /** The amounts corrected on one line, oldest first. */
  function RequestsOf(rows: seq<Adjustment>, lineId: string): seq<int> {
    if rows == [] then []
    else RequestsOf(rows[..|rows| - 1], lineId)
         + if rows[|rows| - 1].lineId == lineId then [rows[|rows| - 1].requested] else []
  }

  /** The rows after one correction of these lines, or Err when an amount is refused. */
  function AdjustAll(earned: map<string, Accrual>, rows: seq<Adjustment>,
      pairings: seq<Pairing>): Result<seq<Adjustment>> {
    if pairings == [] then Ok(rows)
    else
      var p := pairings[|pairings| - 1];
      match AdjustAll(earned, rows, pairings[..|pairings| - 1])
      case Err => Err
      case Ok(before) =>
        if p.lineId !in earned then Ok(before)
        else
          match AdjustmentAmount(earned[p.lineId], AdjustedSum(before, p.lineId), p.requested, p.lineAmount)
          case Refused => Err
          case Rounded(amount) => Ok(before + [Adjustment(p.lineId, p.requested, amount)])
  }

  class CommissionLedger {
    var earned: map<string, Accrual>
    var adjustments: seq<Adjustment>

    constructor ()
      ensures earned == map[] && adjustments == []
    {
      earned := map[];
      adjustments := [];
    }

    /** Writes the missing rows of a posted sale; anything refused rolls all of it back.
        The allocation is over every service line, pending or not. */
    method AccrueForTransaction(lines: seq<SaleLine>, adjustmentTotal: int, policies: map<string, Policy>)
      returns (ok: bool, ghost net: map<string, int>)
      requires ValidSale(lines) && PoliciesCover(policies, ServiceLines(lines))
      modifies this`earned
      ensures IsApportionment(AllocationLines(ServiceLines(lines)), adjustmentTotal, net)
      ensures forall l :: l in ServiceLines(lines) ==> l.id in net
      ensures ok == Accruable(old(earned), ServiceLines(lines), policies, net)
      ensures if ok then IsAccrued(old(earned), ServiceLines(lines), policies, net, earned) else earned == old(earned)
    {
      var services := ServiceLines(lines);
      ServiceLinesAreLines(lines);
      AllocationLinesValid(services);
      var netAllocation := AllocateAdjustmentsAcrossLines(AllocationLines(services), adjustmentTotal);
      net := netAllocation;
      NetCoversLines(services, adjustmentTotal, net);
      var rows := WriteRows(earned, services, policies, netAllocation);
      match rows
      case Err =>
        ok := false;
      case Ok(r) =>
        earned := r;
        ok := true;
    }

    /** Appends one correcting row per corrected line that has an earned row. */
    method AdjustForCorrection(pairings: seq<Pairing>) returns (ok: bool)
      modifies this`adjustments
      ensures ok == AdjustAll(earned, old(adjustments), pairings).Ok?
      ensures adjustments == if ok then AdjustAll(earned, old(adjustments), pairings).value else old(adjustments)
    {
      var rows := adjustments;
      for i := 0 to |pairings|
        invariant adjustments == old(adjustments)
        invariant AdjustAll(earned, adjustments, pairings[..i]) == Ok(rows)
      {
        var p := pairings[i];
        assert pairings[..i + 1][..i] == pairings[..i];
        if p.lineId in earned {
          var already := SumPrior(rows, p.lineId);
          match AdjustmentAmount(earned[p.lineId], already, p.requested, p.lineAmount)
          case Refused =>
            assert AdjustAll(earned, adjustments, pairings[..i + 1]).Err?;
            RefusalSticks(earned, adjustments, pairings, i + 1);
            return false;
          case Rounded(amount) =>
            rows := rows + [Adjustment(p.lineId, p.requested, amount)];
        }
      }
      assert pairings[..|pairings|] == pairings;
      adjustments := rows;
      ok := true;
    }
  }

  lemma AllocationLinesValid(services: seq<SaleLine>)
    requires ValidSale(services)
    ensures ValidLines(AllocationLines(services))
  {
  }

  lemma NetCoversLines(services: seq<SaleLine>, adjustmentTotal: int, net: map<string, int>)
    requires IsApportionment(AllocationLines(services), adjustmentTotal, net)
    ensures forall l :: l in services ==> l.id in net
  {
    var a := AllocationLines(services);
    forall l | l in services ensures l.id in net {
      var i :| 0 <= i < |services| && services[i] == l;
      assert a[i] in a && a[i].lineId == l.id;
    }
  }

  lemma {:induction false} RefusalSticks(earned: map<string, Accrual>, rows: seq<Adjustment>, pairings: seq<Pairing>,
      n: nat)
    requires n <= |pairings| && AdjustAll(earned, rows, pairings[..n]).Err?
    ensures AdjustAll(earned, rows, pairings).Err?
  {
    if n == |pairings| {
      assert pairings[..n] == pairings;
    } else {
      assert pairings[..|pairings| - 1][..n] == pairings[..n];
      RefusalSticks(earned, rows, pairings[..|pairings| - 1], n);
    }
  }

  method SumPrior(rows: seq<Adjustment>, lineId: string) returns (total: int)
    ensures total == AdjustedSum(rows, lineId)
  {
    total := 0;
    for i := 0 to |rows|
      invariant total == AdjustedSum(rows[..i], lineId)
    {
      assert rows[..i + 1][..i] == rows[..i];
      if rows[i].lineId == lineId {
        total := total + rows[i].amount;
      }
    }
    assert rows[..|rows|] == rows;
  }

  // ---------- What accrual guarantees ----------

  lemma NetOfService(services: seq<SaleLine>, adjustmentTotal: int, net: map<string, int>, l: SaleLine)
    requires ValidSale(services) && IsApportionment(AllocationLines(services), adjustmentTotal, net) && l in services
    ensures l.id in net
    ensures var total := TotalGross(AllocationLines(services)); total == 0 || total + adjustmentTotal >= 0 ==>
      net[l.id] >= 0
    ensures l.price == 0 ==> net[l.id] == 0
  {
    var a := AllocationLines(services);
    var i :| 0 <= i < |services| && services[i] == l;
    assert a[i] in a && a[i].lineId == l.id;
    AllocationLinesValid(services);
    NetsNonNegativeIff(a, adjustmentTotal, net);
    GrossNonNegative(a);
    if TotalGross(a) > 0 && l.price == 0 {
      NothingGetsNothing(a, adjustmentTotal, net, a[i]);
    }
  }

  lemma NothingGetsNothing(lines: seq<AllocationLine>, adjustment: int, net: map<string, int>, l: AllocationLine)
    requires ValidLines(lines) && TotalGross(lines) > 0 && l in lines
    requires l.gross == 0 && IsApportionment(lines, adjustment, net)
    ensures l.lineId in net && net[l.lineId] == 0
  {
    ShareWithinQuota(lines, adjustment, net, l);
    Distribute(0, 0, TotalGross(lines));
    assert 0 * TotalGross(lines) == l.gross * adjustment;
  }

  /** Accrual is refused exactly when some pending line on the net basis has a negative net,
      whatever its rule. */
  lemma AccruesIff(before: map<string, Accrual>, services: seq<SaleLine>, policies: map<string, Policy>,
      net: map<string, int>)
    requires ValidSale(services) && PoliciesCover(policies, services)
    requires forall l :: l in services ==> l.id in net
    ensures Accruable(before, services, policies, net) <==>
      forall l :: l in services && l.id !in before && policies[l.id].basis.NET_LINE_AFTER_ADJUSTMENTS? ==>
        net[l.id] >= 0
  {
    forall l | l in services
      ensures StoreEarned(policies[l.id].rule, BasisAmount(l, policies[l.id], net)).Ok?
        <==> policies[l.id].basis.GROSS_LINE? || net[l.id] >= 0
    {
      var i :| 0 <= i < |services| && services[i] == l;
      StoredIff(policies[l.id].rule, BasisAmount(l, policies[l.id], net));
    }
  }

  /** A fresh sale wholly on the net basis accrues exactly when its services are worth nothing
      or the discount is within their gross. */
  lemma NetBasisSaleAccruesIff(services: seq<SaleLine>, adjustmentTotal: int, policies: map<string, Policy>,
      net: map<string, int>)
    requires ValidSale(services) && PoliciesCover(policies, services)
    requires IsApportionment(AllocationLines(services), adjustmentTotal, net)
    requires forall l :: l in services ==> policies[l.id].basis.NET_LINE_AFTER_ADJUSTMENTS?
    ensures forall l :: l in services ==> l.id in net
    ensures var total := TotalGross(AllocationLines(services));
            Accruable(map[], services, policies, net) <==> total == 0 || total + adjustmentTotal >= 0
  {
    var a := AllocationLines(services);
    AllocationLinesValid(services);
    NetCoversLines(services, adjustmentTotal, net);
    AccruesIff(map[], services, policies, net);
    NetsNonNegativeIff(a, adjustmentTotal, net);
    NetsOfLines(services, net);
  }

  /** The nets of the allocation lines are the nets of the service lines. */
  lemma NetsOfLines(services: seq<SaleLine>, net: map<string, int>)
    ensures (forall x :: x in AllocationLines(services) ==> x.lineId in net && net[x.lineId] >= 0)
      <==> forall l :: l in services ==> l.id in net && net[l.id] >= 0
  {
    var a := AllocationLines(services);
    forall l | l in services ensures exists x :: x in a && x.lineId == l.id {
      var i :| 0 <= i < |services| && services[i] == l;
      assert a[i] in a;
    }
    forall x | x in a ensures exists l :: l in services && l.id == x.lineId {
      var i :| 0 <= i < |a| && a[i] == x;
      assert services[i] in services;
    }
  }

  /** A discount within the gross of the service lines never makes accrual fail, whatever the
      bases and whatever is already there. */
  lemma DiscountWithinServicesAccrues(
    before: map<string, Accrual>, services: seq<SaleLine>, adjustmentTotal: int, policies: map<string, Policy>,
      net: map<string, int>)
    requires ValidSale(services) && PoliciesCover(policies, services)
    requires IsApportionment(AllocationLines(services), adjustmentTotal, net)
    requires var total := TotalGross(AllocationLines(services)); total == 0 || total + adjustmentTotal >= 0
    ensures forall l :: l in services ==> l.id in net
    ensures Accruable(before, services, policies, net)
    ensures forall l, row :: l in services && IsRowFor(row, l, policies[l.id], net) ==> IsEarned(row, l.price)
  {
    NetCoversLines(services, adjustmentTotal, net);
    forall l | l in services ensures net[l.id] >= 0 {
      NetOfService(services, adjustmentTotal, net, l);
    }
    AccruesIff(before, services, policies, net);
    StoredRowsAreEarned(services, adjustmentTotal, policies, net);
  }

  /** Every row accrual stores is one that corrections can prorate, under any discount. */
  lemma StoredRowsAreEarned(services: seq<SaleLine>, adjustmentTotal: int, policies: map<string, Policy>,
      net: map<string, int>)
    requires ValidSale(services) && PoliciesCover(policies, services)
    requires IsApportionment(AllocationLines(services), adjustmentTotal, net)
    ensures forall l :: l in services ==> l.id in net
    ensures forall l, row :: l in services && IsRowFor(row, l, policies[l.id], net) ==> IsEarned(row, l.price)
  {
    NetCoversLines(services, adjustmentTotal, net);
    forall l, row | l in services && IsRowFor(row, l, policies[l.id], net) ensures IsEarned(row, l.price) {
      var i :| 0 <= i < |services| && services[i] == l;
      NetOfService(services, adjustmentTotal, net, l);
    }
  }

  /** A checkout that settles on paper but can never post: services of 100, products of 900
      and a discount of 500 leave 500 to pay, but the one service line nets -400, which no
      rule on the net basis can store. */
  lemma DiscountBeyondServicesNeverPosts(rule: Rule, before: map<string, Accrual>, net: map<string, int>)
    requires ValidRule(rule) && "cut" !in before
    requires IsApportionment(AllocationLines([SaleLine("cut", true, 100, 0)]), -500, net)
    ensures "cut" in net && net["cut"] == -400
    ensures !Accruable(before, [SaleLine("cut", true, 100, 0)],
      map["cut" := Policy(rule, NET_LINE_AFTER_ADJUSTMENTS)], net)
  {
    var l := SaleLine("cut", true, 100, 0);
    var a := AllocationLines([l]);
    assert a == [AllocationLine("cut", 100, 0)] && a[1..] == [];
    assert TotalGross(a) == 100;
    assert a[0] in a;
    ShareWithinQuota(a, -500, net, a[0]);
    assert -500 * 100 == a[0].gross * -500;
    StoredIff(rule, -400);
    assert l in [l];
  }

  /** Repairing a partly accrued sale yields what one complete run would have: the nets do
      not depend on which lines were pending or on the order the rows were read. */
  lemma RepairCompletesTheSame(
    before: map<string, Accrual>, first: seq<SaleLine>, again: seq<SaleLine>, adjustmentTotal: int,
      policies: map<string, Policy>,
    netFirst: map<string, int>, netAgain: map<string, int>, after: map<string, Accrual>)
    requires PoliciesCover(policies, again) && multiset(AllocationLines(first)) == multiset(AllocationLines(again))
    requires DistinctOrders(AllocationLines(first))
    requires IsApportionment(AllocationLines(first), adjustmentTotal, netFirst)
    requires IsApportionment(AllocationLines(again), adjustmentTotal, netAgain)
    requires forall l :: l in again ==> l.id in netAgain
    requires IsAccrued(before, again, policies, netAgain, after)
    requires forall l :: l in again && l.id in before ==>
      l.id in netFirst && IsRowFor(before[l.id], l, policies[l.id], netFirst)
    ensures netFirst == netAgain
    ensures forall l :: l in again ==> l.id in after && IsRowFor(after[l.id], l, policies[l.id], netFirst)
  {
    OrderIndependent(AllocationLines(first), AllocationLines(again), adjustmentTotal, netFirst, netAgain);
  }

  /** A second call over a fully accrued sale changes nothing. */
  lemma SecondAccrualIsNoOp(
    before: map<string, Accrual>, services: seq<SaleLine>, policies: map<string, Policy>, net: map<string, int>,
      after: map<string, Accrual>)
    requires PoliciesCover(policies, services) && (forall l :: l in services ==> l.id in net && l.id in before)
    requires IsAccrued(before, services, policies, net, after)
    ensures after == before
  {
  }

  /** The service nets add up to the posted total exactly when nothing else is on the sale
      (when the services are worth nothing: exactly when the posted total is zero). */
  lemma ServiceNetsMeetTransactionTotal(services: seq<SaleLine>, productGross: int, adjustmentTotal: int,
      net: map<string, int>)
    requires ValidSale(services) && productGross >= 0
    requires IsApportionment(AllocationLines(services), adjustmentTotal, net)
    ensures var gross := TotalGross(AllocationLines(services));
            NetTotal(AllocationLines(services), net) == gross + productGross + adjustmentTotal
            <==> if gross > 0 then productGross == 0 else productGross + adjustmentTotal == 0
  {
    var a := AllocationLines(services);
    AllocationLinesValid(services);
    GrossNonNegative(a);
    NetsSumExactly(a, adjustmentTotal, net);
    if TotalGross(a) == 0 {
      SumByCongruent(NetLookup(net), Gross(), a);
    }
  }

  /** What each row that was missing now says, in the sale's own terms: the policy's rule; the
      line's price, or its net of the adjustment; and the amount that rule gives on it. */
  lemma RowsSayWhatWasEarned(before: map<string, Accrual>, services: seq<SaleLine>, policies: map<string, Policy>,
      net: map<string, int>, after: map<string, Accrual>, l: SaleLine)
    requires PoliciesCover(policies, services) && (forall x :: x in services ==> x.id in net)
    requires IsAccrued(before, services, policies, net, after) && l in services && l.id !in before
    ensures l.id in after && after[l.id].rule == policies[l.id].rule
    ensures var row, rule := after[l.id], policies[l.id].rule;
            && (policies[l.id].basis.GROSS_LINE? ==> row.basisAmount == l.price)
            && (policies[l.id].basis.NET_LINE_AFTER_ADJUSTMENTS? ==> row.basisAmount == net[l.id])
            && (rule.kind.PERCENTAGE? ==> IsHalfUp(row.calculated, row.basisAmount * rule.rateBasisPoints, 10_000))
            && (rule.kind.FIXED? ==> row.calculated == rule.fixedAmount)
            && (rule.kind.NONE? || rule.kind.NO_POLICY? ==> row.calculated == 0)
  {
    assert ValidRule(policies[l.id].rule);
    assert IsRowFor(after[l.id], l, policies[l.id], net);
    EarnedAmount(policies[l.id].rule, BasisAmount(l, policies[l.id], net), after[l.id]);
  }

  /** Two services of one price: the one displayed first never nets less, and a dearer one
      never nets less than a cheaper one while the discount is within the services. */
  lemma ServicesNetInOrder(services: seq<SaleLine>, adjustmentTotal: int, net: map<string, int>, a: SaleLine,
      b: SaleLine)
    requires ValidSale(services) && IsApportionment(AllocationLines(services), adjustmentTotal, net)
    requires a in services && b in services
    ensures a.id in net && b.id in net
    ensures a.price == b.price && a.displayOrder < b.displayOrder ==> net[b.id] <= net[a.id] <= net[b.id] + 1
    ensures a.price > b.price && TotalGross(AllocationLines(services)) + adjustmentTotal >= 0 ==> net[a.id] >= net[b.id]
  {
    var lines := AllocationLines(services);
    var i :| 0 <= i < |services| && services[i] == a;
    var j :| 0 <= j < |services| && services[j] == b;
    AllocationLinesValid(services);
    NetCoversLines(services, adjustmentTotal, net);
    assert lines[i] in lines && lines[j] in lines;
    if a.price == b.price && a.displayOrder < b.displayOrder {
      EarlierDisplayedFirst(lines, adjustmentTotal, net, lines[i], lines[j]);
    }
    if a.price > b.price && TotalGross(lines) + adjustmentTotal >= 0 {
      NetsMonotone(lines, adjustmentTotal, net, lines[i], lines[j]);
    }
  }

  // ---------- What every run of corrections keeps ----------

  ghost predicate LineConsistent(o: Accrual, price: int, rows: seq<Adjustment>, id: string) {
    && IsEarned(o, price)
    && NonNegative(RequestsOf(rows, id))
    && AdjustedSum(rows, id) == Cumulative(o, price, RequestsOf(rows, id))
  }

  /** The rows of every earned line are the cumulative reversal of its corrected amounts. */
  ghost predicate Consistent(earned: map<string, Accrual>, prices: map<string, int>, rows: seq<Adjustment>) {
    forall id :: id in earned ==> id in prices && LineConsistent(earned[id], prices[id], rows, id)
  }

  lemma {:induction false} RowAppended(rows: seq<Adjustment>, row: Adjustment, id: string)
    ensures RequestsOf(rows + [row], id) == RequestsOf(rows, id) + if row.lineId == id then [row.requested] else []
    ensures AdjustedSum(rows + [row], id) == AdjustedSum(rows, id) + if row.lineId == id then row.amount else 0
  {
    assert (rows + [row])[..|rows|] == rows;
  }

  lemma {:induction false} CumulativeNext(o: Accrual, lineAmount: int, requests: seq<int>, r: int)
    ensures Cumulative(o, lineAmount, requests + [r])
            == Cumulative(o, lineAmount, requests)
              + AmountOf(AdjustmentAmount(o, Cumulative(o, lineAmount, requests), r, lineAmount))
  {
    assert (requests + [r])[..|requests|] == requests;
  }

  lemma {:induction false} LineStaysConsistent(o: Accrual, price: int, rows: seq<Adjustment>, row: Adjustment,
      id: string)
    requires LineConsistent(o, price, rows, id)
    requires row.lineId == id ==>
      row.requested >= 0 && row.amount == AmountOf(AdjustmentAmount(o, AdjustedSum(rows, id), row.requested, price))
    ensures LineConsistent(o, price, rows + [row], id)
  {
    RowAppended(rows, row, id);
    if row.lineId == id {
      CumulativeNext(o, price, RequestsOf(rows, id), row.requested);
    } else {
      assert RequestsOf(rows + [row], id) == RequestsOf(rows, id);
    }
  }

  lemma {:induction false} OneRowKeepsConsistent(earned: map<string, Accrual>, prices: map<string, int>,
      rows: seq<Adjustment>, row: Adjustment)
    requires Consistent(earned, prices, rows) && row.lineId in earned && row.requested >= 0
    requires row.amount
      == AmountOf(AdjustmentAmount(earned[row.lineId], AdjustedSum(rows, row.lineId), row.requested,
                                   prices[row.lineId]))
    ensures Consistent(earned, prices, rows + [row])
  {
    forall id | id in earned ensures LineConsistent(earned[id], prices[id], rows + [row], id) {
      LineStaysConsistent(earned[id], prices[id], rows, row, id);
    }
  }

  /** Correcting keeps the ledger consistent and, on a consistent ledger, is never refused. */
  lemma {:induction false} CorrectionKeepsConsistent(earned: map<string, Accrual>, prices: map<string, int>,
      rows: seq<Adjustment>, pairings: seq<Pairing>)
    requires Consistent(earned, prices, rows)
    requires forall i :: 0 <= i < |pairings| ==>
      pairings[i].requested >= 0 && pairings[i].lineId in prices && pairings[i].lineAmount == prices[pairings[i].lineId]
    ensures AdjustAll(earned, rows, pairings).Ok?
    ensures Consistent(earned, prices, AdjustAll(earned, rows, pairings).value)
  {
    if pairings != [] {
      var p := pairings[|pairings| - 1];
      CorrectionKeepsConsistent(earned, prices, rows, pairings[..|pairings| - 1]);
      var before := AdjustAll(earned, rows, pairings[..|pairings| - 1]).value;
      if p.lineId in earned {
        AmountAvailable(earned[p.lineId], prices[p.lineId], RequestsOf(before, p.lineId), p.requested);
        var amount := AdjustmentAmount(earned[p.lineId], AdjustedSum(before, p.lineId), p.requested,
          p.lineAmount).value;
        OneRowKeepsConsistent(earned, prices, before, Adjustment(p.lineId, p.requested, amount));
      }
    }
  }

  lemma {:induction false} AmountAvailable(o: Accrual, lineAmount: int, requests: seq<int>, r: int)
    requires IsEarned(o, lineAmount) && NonNegative(requests) && r >= 0
    ensures AdjustmentAmount(o, Cumulative(o, lineAmount, requests), r, lineAmount).Rounded?
  {
    CumulativeWithinOriginal(o, lineAmount, requests);
    AdjustmentCapped(o, Cumulative(o, lineAmount, requests), r, lineAmount);
  }

  /** No correction of what accrual stored is ever refused: a fresh sale's rows start
      consistent, and any corrections of its lines in any order go through. */
  lemma {:induction false} StoredRowsAreCorrectable(services: seq<SaleLine>, adjustmentTotal: int,
      policies: map<string, Policy>, net: map<string, int>, earned: map<string, Accrual>, prices: map<string, int>,
      pairings: seq<Pairing>)
    requires ValidSale(services) && PoliciesCover(policies, services)
    requires IsApportionment(AllocationLines(services), adjustmentTotal, net)
    requires (forall l :: l in services ==> l.id in net) && IsAccrued(map[], services, policies, net, earned)
    requires forall l :: l in services ==> l.id in prices && prices[l.id] == l.price
    requires forall i :: 0 <= i < |pairings| ==>
      pairings[i].requested >= 0 && pairings[i].lineId in prices && pairings[i].lineAmount == prices[pairings[i].lineId]
    ensures Consistent(earned, prices, [])
    ensures AdjustAll(earned, [], pairings).Ok?
  {
    StoredRowsAreEarned(services, adjustmentTotal, policies, net);
    forall id | id in earned ensures id in prices && LineConsistent(earned[id], prices[id], [], id) {
      var l :| l in services && l.id == id;
    }
    CorrectionKeepsConsistent(earned, prices, [], pairings);
  }
}
