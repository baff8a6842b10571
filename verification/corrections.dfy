/** Refunds and reversals of one posted sale (transaction-corrections.service.ts,
    transaction-correction-execution.service.ts). */
module Corrections {
  import opened Money
  import opened Commission
  import opened Accruals
  import opened Arithmetic
  import opened Options

  /** `stocked` marks a PRODUCT line that names a variant. */
  datatype Line = Line(price: int, stocked: bool, quantity: nat)
  datatype Kind = REFUND | REVERSAL
  datatype Status = REQUESTED | APPROVED | EXECUTED | REJECTED | CANCELLED
  datatype Item = Item(lineId: string, amount: int)
  datatype Correction = Correction(kind: Kind, items: seq<Item>, status: Status, version: int, corrective: Option<nat>)

  /** A corrective transaction; a REFUND also prints what stays refundable. */
  datatype Posted = Posted(correction: nat, kind: Kind, items: seq<Item>, total: int, remaining: Option<int>)
  datatype Restored = Restored(lineId: string, quantity: nat)

  /** The immutable sale and everything corrections have written against it. */
  datatype Sale = Sale(
    lines: map<string, Line>, order: seq<string>, earned: map<string, Accrual>,
    corrections: seq<Correction>, posted: seq<Posted>, restored: seq<Restored>, adjustments: seq<Adjustment>)

  // ---------- Amounts ----------

  function ItemAmount(): Item -> int {
    (item: Item) => item.amount
  }

  function ItemOn(id: string): Item -> int {
    (item: Item) => if item.lineId == id then item.amount else 0
  }

  function AmountOn(items: seq<Item>, id: string): int {
    SumBy(ItemOn(id), items)
  }

  function ExecutedWeight(id: string): Correction -> int {
    (c: Correction) => if c.status.EXECUTED? then AmountOn(c.items, id) else 0
  }

  /** What executed corrections have taken from a line. */
  function ExecutedOn(corrections: seq<Correction>, id: string): int {
    SumBy(ExecutedWeight(id), corrections)
  }

  predicate SomeExecuted(corrections: seq<Correction>) {
    exists j :: 0 <= j < |corrections| && corrections[j].status.EXECUTED?
  }

  function Total(items: seq<Item>): int {
    SumBy(ItemAmount(), items)
  }

  predicate DistinctItems(items: seq<Item>) {
    forall i, j :: 0 <= i < j < |items| ==> items[i].lineId != items[j].lineId
  }

  // ---------- The commands ----------

  predicate Requestable(lines: map<string, Line>, item: Item) {
    item.lineId in lines && IsSafeMoneyAmount(item.amount, 1) && item.amount <= lines[item.lineId].price
  }

  /** The request's own checks; the unique index makes its lines distinct. */
  function RequestRefund(s: Sale, items: seq<Item>): Result<Sale> {
    if items == [] || !DistinctItems(items) || Total(items) > POSTGRES_INT_MAX
       || exists i :: 0 <= i < |items| && !Requestable(s.lines, items[i])
    then Err
    else Ok(s.(corrections := s.corrections + [Correction(REFUND, items, REQUESTED, 1, None)]))
  }

  predicate Positive(items: seq<Item>) {
    forall i :: 0 <= i < |items| ==> items[i].amount >= 1
  }

  function FullItems(s: Sale): seq<Item> {
    seq(|s.order|, i requires 0 <= i < |s.order| =>
      Item(s.order[i], if s.order[i] in s.lines then s.lines[s.order[i]].price else 0))
  }

  /** `sawExecuted` is what an earlier, unlocked read found; an item's amount column takes no
      zero. */
  function RequestReversal(s: Sale, sawExecuted: bool): Result<Sale> {
    if sawExecuted || s.order == [] || !Positive(FullItems(s)) then Err
    else Ok(s.(corrections := s.corrections + [Correction(REVERSAL, FullItems(s), REQUESTED, 1, None)]))
  }

  predicate DecisionAllowed(seen: Status, to: Status) {
    match to
    case APPROVED | REJECTED => seen.REQUESTED?
    case CANCELLED => seen.REQUESTED? || seen.APPROVED?
    case _ => false
  }

  /** Approve, reject or cancel on the status and version an earlier read saw. */
  function Decide(s: Sale, id: nat, seen: Status, seenVersion: int, to: Status): Result<Sale> {
    if id >= |s.corrections| || !DecisionAllowed(seen, to)
       || s.corrections[id].status != seen || s.corrections[id].version != seenVersion
    then Err
    else Ok(s.(corrections := s.corrections[id := s.corrections[id].(status := to, version := seenVersion + 1)]))
  }

  predicate ItemAllowed(s: Sale, item: Item) {
    && item.lineId in s.lines
    && ExecutedOn(s.corrections, item.lineId) + item.amount <= s.lines[item.lineId].price
    && (s.lines[item.lineId].stocked ==> item.amount == s.lines[item.lineId].price)
  }

  predicate Executable(s: Sale, id: nat, envOk: bool) {
    && id < |s.corrections| && s.corrections[id].status.APPROVED?
    && !(s.corrections[id].kind.REVERSAL? && SomeExecuted(s.corrections))
    && (forall i :: 0 <= i < |s.corrections[id].items| ==> ItemAllowed(s, s.corrections[id].items[i]))
    && Total(s.corrections[id].items) <= POSTGRES_INT_MAX
    && AdjustAll(s.earned, s.adjustments, Pairings(s, s.corrections[id].items)).Ok?
    && envOk
  }

  /** The stock put back: the sold quantity of every stocked line whose product is tracked. */
  function Restorations(s: Sale, items: seq<Item>, tracked: set<string>): seq<Restored> {
    if items == [] then []
    else
      var item := items[|items| - 1];
      Restorations(s, items[..|items| - 1], tracked)
      + if item.lineId in s.lines && s.lines[item.lineId].stocked && item.lineId in tracked
        then [Restored(item.lineId, s.lines[item.lineId].quantity)] else []
  }

  function Pairings(s: Sale, items: seq<Item>): seq<Pairing> {
    seq(|items|, i requires 0 <= i < |items| =>
      Pairing(items[i].lineId, items[i].amount,
        if items[i].lineId in s.lines then s.lines[items[i].lineId].price else 0))
  }

  /** What the receipt computes for one line, clamped at zero. */
  function RemainingOn(s: Sale, items: seq<Item>): string -> int {
    (id: string) =>
      if id in s.lines then Max(s.lines[id].price - ExecutedOn(s.corrections, id) - AmountOn(items, id), 0) else 0
  }

  function Execute(s: Sale, id: nat, tracked: set<string>, envOk: bool): Result<Sale> {
    if !Executable(s, id, envOk) then Err
    else
      var c := s.corrections[id];
      Ok(s.(
        posted := s.posted + [Posted(id, c.kind, c.items, Total(c.items),
          if c.kind.REFUND? then Some(SumBy(RemainingOn(s, c.items), s.order)) else None)],
        restored := s.restored + Restorations(s, c.items, tracked),
        adjustments := AdjustAll(s.earned, s.adjustments, Pairings(s, c.items)).value,
        corrections := s.corrections[id := c.(status := EXECUTED, version := c.version + 1,
          corrective := Some(|s.posted|))]))
  }

  // ---------- The service ----------

  function Lookup(m: map<string, int>, id: string): int {
    if id in m then m[id] else 0
  }

  ghost predicate Accumulated(m: map<string, int>, corrections: seq<Correction>) {
    forall id :: Lookup(m, id) == ExecutedOn(corrections, id)
  }

  method AddItems(m: map<string, int>, items: seq<Item>) returns (sums: map<string, int>)
    ensures forall id :: Lookup(sums, id) == Lookup(m, id) + AmountOn(items, id)
  {
    sums := m;
    for i := 0 to |items|
      invariant forall id :: Lookup(sums, id) == Lookup(m, id) + AmountOn(items[..i], id)
    {
      assert items[..i + 1] == items[..i] + [items[i]];
      forall id ensures AmountOn(items[..i + 1], id) == AmountOn(items[..i], id) + ItemOn(id)(items[i]) {
        SumByAppend(ItemOn(id), items[..i], items[i]);
      }
      sums := sums[items[i].lineId := Lookup(sums, items[i].lineId) + items[i].amount];
    }
    assert items[..|items|] == items;
  }

  /** What executed corrections have taken, line by line. */
  method AccumulateExecuted(corrections: seq<Correction>) returns (executedByLine: map<string, int>)
    ensures Accumulated(executedByLine, corrections)
  {
    executedByLine := map[];
    for i := 0 to |corrections|
      invariant Accumulated(executedByLine, corrections[..i])
    {
      assert corrections[..i + 1] == corrections[..i] + [corrections[i]];
      forall id
        ensures ExecutedOn(corrections[..i + 1], id)
          == ExecutedOn(corrections[..i], id) + ExecutedWeight(id)(corrections[i])
      {
        SumByAppend(ExecutedWeight(id), corrections[..i], corrections[i]);
      }
      if corrections[i].status.EXECUTED? {
        executedByLine := AddItems(executedByLine, corrections[i].items);
      }
    }
    assert corrections[..|corrections|] == corrections;
  }

  method CheckItems(lines: map<string, Line>, executedByLine: map<string, int>, items: seq<Item>,
      ghost s: Sale) returns (ok: bool)
    requires lines == s.lines && Accumulated(executedByLine, s.corrections)
    ensures ok == forall i :: 0 <= i < |items| ==> ItemAllowed(s, items[i])
  {
    for i := 0 to |items|
      invariant forall k :: 0 <= k < i ==> ItemAllowed(s, items[k])
    {
      var item := items[i];
      assert Lookup(executedByLine, item.lineId) == ExecutedOn(s.corrections, item.lineId);
      if item.lineId !in lines
         || Lookup(executedByLine, item.lineId) + item.amount > lines[item.lineId].price
         || (lines[item.lineId].stocked && item.amount != lines[item.lineId].price)
      {
        assert !ItemAllowed(s, items[i]);
        return false;
      }
    }
    return true;
  }

  method RestoreStock(lines: map<string, Line>, items: seq<Item>, tracked: set<string>,
      ghost s: Sale) returns (added: seq<Restored>)
    requires lines == s.lines
    ensures added == Restorations(s, items, tracked)
  {
    added := [];
    for i := 0 to |items|
      invariant added == Restorations(s, items[..i], tracked)
    {
      assert items[..i + 1][..i] == items[..i];
      var id := items[i].lineId;
      if id in lines && lines[id].stocked && id in tracked {
        added := added + [Restored(id, lines[id].quantity)];
      }
    }
    assert items[..|items|] == items;
  }

  method RemainingRefundable(
    lines: map<string, Line>, order: seq<string>, executedByLine: map<string, int>, items: seq<Item>, ghost s: Sale)
    returns (totalRemaining: int)
    requires lines == s.lines && Accumulated(executedByLine, s.corrections)
    ensures totalRemaining == SumBy(RemainingOn(s, items), order)
  {
    totalRemaining := 0;
    for i := 0 to |order|
      invariant totalRemaining == SumBy(RemainingOn(s, items), order[..i])
    {
      assert order[..i + 1] == order[..i] + [order[i]];
      SumByAppend(RemainingOn(s, items), order[..i], order[i]);
      assert Lookup(executedByLine, order[i]) == ExecutedOn(s.corrections, order[i]);
      if order[i] in lines {
        totalRemaining := totalRemaining
          + Max(lines[order[i]].price - Lookup(executedByLine, order[i]) - AmountOn(items, order[i]), 0);
      }
    }
    assert order[..|order|] == order;
  }

  class SaleCorrections {
    const lines: map<string, Line>
    const order: seq<string>
    const ledger: CommissionLedger
    var corrections: seq<Correction>
    var posted: seq<Posted>
    var restored: seq<Restored>

    ghost function State(): Sale
      reads this, ledger
    {
      Sale(lines, order, ledger.earned, corrections, posted, restored, ledger.adjustments)
    }

    constructor (lines: map<string, Line>, order: seq<string>, ledger: CommissionLedger)
      ensures this.ledger == ledger
      ensures State() == Sale(lines, order, ledger.earned, [], [], [], ledger.adjustments)
    {
      this.lines, this.order, this.ledger := lines, order, ledger;
      this.corrections, this.posted, this.restored := [], [], [];
    }

    method Request(kind: Kind, items: seq<Item>, sawExecuted: bool) returns (ok: bool)
      requires kind.REVERSAL? ==> items == FullItems(State())
      modifies this
      ensures var spec := if kind.REFUND? then RequestRefund(old(State()), items)
        else RequestReversal(old(State()), sawExecuted);
              ok == spec.Ok? && State() == if ok then spec.value else old(State())
    {
      if kind.REFUND? {
        if items == [] || !DistinctItems(items) || Total(items) > POSTGRES_INT_MAX {
          return false;
        }
        for i := 0 to |items|
          invariant unchanged(this)
          invariant forall k :: 0 <= k < i ==> Requestable(lines, items[k])
        {
          if !Requestable(lines, items[i]) {
            return false;
          }
        }
      } else if sawExecuted || order == [] || !Positive(items) {
        return false;
      }
      corrections := corrections + [Correction(kind, items, REQUESTED, 1, None)];
      return true;
    }

    /** Approve, reject or cancel: a conditional update on the status and version read before. */
    method DecideCorrection(id: nat, seen: Status, seenVersion: int, to: Status) returns (ok: bool)
      modifies this
      ensures var spec := Decide(old(State()), id, seen, seenVersion, to);
              ok == spec.Ok? && State() == if ok then spec.value else old(State())
    {
      if id >= |corrections| || !DecisionAllowed(seen, to)
         || corrections[id].status != seen || corrections[id].version != seenVersion
      {
        return false;
      }
      corrections := corrections[id := corrections[id].(status := to, version := seenVersion + 1)];
      return true;
    }

    /** Checks under the sale's lock, then everything a corrective transaction writes; a
        failure of any part rolls all of it back. */
    method ExecuteCorrection(id: nat, tracked: set<string>, envOk: bool) returns (ok: bool)
      modifies this, ledger`adjustments
      ensures var spec := Execute(old(State()), id, tracked, envOk);
              ok == spec.Ok? && State() == if ok then spec.value else old(State())
    {
      ghost var s := State();
      if id >= |corrections| || !corrections[id].status.APPROVED? || !envOk {
        return false;
      }
      var c := corrections[id];
      if c.kind.REVERSAL? && SomeExecuted(corrections) {
        return false;
      }
      var executedByLine := AccumulateExecuted(corrections);
      var allowed := CheckItems(lines, executedByLine, c.items, s);
      if !allowed || Total(c.items) > POSTGRES_INT_MAX {
        return false;
      }
      var added := RestoreStock(lines, c.items, tracked, s);
      var pairings := seq(|c.items|, i requires 0 <= i < |c.items| =>
        Pairing(c.items[i].lineId, c.items[i].amount,
          if c.items[i].lineId in lines then lines[c.items[i].lineId].price else 0));
      assert pairings == Pairings(s, c.items);
      var remaining := None;
      if c.kind.REFUND? {
        var amount := RemainingRefundable(lines, order, executedByLine, c.items, s);
        remaining := Some(amount);
      }
      var adjusted := ledger.AdjustForCorrection(pairings);
      if !adjusted {
        return false;
      }
      corrections := corrections[id := c.(status := EXECUTED, version := c.version + 1, corrective := Some(|posted|))];
      posted := posted + [Posted(id, c.kind, c.items, Total(c.items), remaining)];
      restored := restored + added;
      return true;
    }
  }
}
