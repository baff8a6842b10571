/** What every sequence of correction commands keeps. Executions lock the correction and the
    sale; requests and decisions work from earlier reads, which the events carry. */
module CorrectionsRuns {
  import opened Money
  import opened Commission
  import opened Accruals
  import opened Corrections
  import opened Options

  datatype Event =
    | RefundEvent(items: seq<Item>)
    | ReversalEvent(sawExecuted: bool)
    | DecideEvent(id: nat, seen: Status, seenVersion: int, to: Status)
    | ExecuteEvent(id: nat, tracked: set<string>, envOk: bool)

  function Command(s: Sale, e: Event): Result<Sale> {
    match e
    case RefundEvent(items) => RequestRefund(s, items)
    case ReversalEvent(sawExecuted) => RequestReversal(s, sawExecuted)
    case DecideEvent(id, seen, seenVersion, to) => Decide(s, id, seen, seenVersion, to)
    case ExecuteEvent(id, tracked, envOk) => Execute(s, id, tracked, envOk)
  }

  function Step(s: Sale, e: Event): Sale {
    match Command(s, e) case Ok(after) => after case Err => s
  }

  function Run(s: Sale, events: seq<Event>): Sale {
    if events == [] then s else Step(Run(s, events[..|events| - 1]), events[|events| - 1])
  }

  // ---------- The invariant ----------

  function Prices(lines: map<string, Line>): map<string, int> {
    map id | id in lines :: lines[id].price
  }

  ghost predicate SaleInv(s: Sale) {
    && s.order != []
    && (forall i, j :: 0 <= i < j < |s.order| ==> s.order[i] != s.order[j])
    && (forall id :: id in s.order <==> id in s.lines)
    && (forall id :: id in s.lines ==> s.lines[id].price >= 0)
    && (forall id :: id in s.earned ==> id in s.lines)
    && Consistent(s.earned, Prices(s.lines), s.adjustments)
  }

  ghost predicate ItemInv(s: Sale, item: Item) {
    && item.lineId in s.lines
    && 1 <= item.amount <= s.lines[item.lineId].price
  }

  ghost predicate CorrectionInv(s: Sale, c: Correction) {
    && c.items != [] && DistinctItems(c.items)
    && (forall i :: 0 <= i < |c.items| ==> ItemInv(s, c.items[i]))
    && (c.kind.REVERSAL? ==> c.items == FullItems(s))
  }

  ghost predicate CapInv(s: Sale) {
    forall id :: id in s.lines ==> 0 <= ExecutedOn(s.corrections, id) <= s.lines[id].price
  }

  predicate IsExecuted(s: Sale, j: nat) {
    j < |s.corrections| && s.corrections[j].status.EXECUTED?
  }

  ghost predicate ExclusiveInv(s: Sale) {
    forall j: nat, k: nat :: IsExecuted(s, j) && s.corrections[j].kind.REVERSAL? && IsExecuted(s, k) ==> j == k
  }

  /** Corrective transactions and executed corrections correspond one to one. */
  ghost predicate PostedMatch(corrections: seq<Correction>, posted: seq<Posted>) {
    && (forall j :: 0 <= j < |corrections| ==> (corrections[j].status.EXECUTED? <==> corrections[j].corrective.Some?))
    && (forall j :: 0 <= j < |corrections| && corrections[j].corrective.Some? ==>
          corrections[j].corrective.value < |posted|
            && IsPostingOf(posted[corrections[j].corrective.value], corrections[j], j))
    && (forall k :: 0 <= k < |posted| ==>
          posted[k].correction < |corrections| && corrections[posted[k].correction].corrective == Some(k))
  }

  predicate IsPostingOf(p: Posted, c: Correction, j: int) {
    p.correction == j && p.kind == c.kind && p.items == c.items && p.total == Total(c.items)
  }

  ghost predicate PostedInv(s: Sale) {
    PostedMatch(s.corrections, s.posted)
  }

  predicate Corrects(items: seq<Item>, id: string) {
    exists i :: 0 <= i < |items| && items[i].lineId == id
  }

  predicate Includes(c: Correction, id: string) {
    Corrects(c.items, id)
  }

  /** Some executed correction covers the line. */
  ghost predicate GivenBack(s: Sale, id: string) {
    exists j: nat :: IsExecuted(s, j) && Includes(s.corrections[j], id)
  }

  ghost predicate IsRestoration(s: Sale, r: Restored) {
    r.lineId in s.lines && s.lines[r.lineId].stocked && r.quantity == s.lines[r.lineId].quantity
  }

  ghost predicate RestoredList(s: Sale, list: seq<Restored>) {
    && (forall k :: 0 <= k < |list| ==> IsRestoration(s, list[k]) && GivenBack(s, list[k].lineId))
    && (forall j, k :: 0 <= j < k < |list| ==> list[j].lineId != list[k].lineId)
  }

  /** Each stocked line is put back at most once, and then by exactly its sold quantity. */
  ghost predicate RestoredInv(s: Sale) {
    RestoredList(s, s.restored)
  }

  ghost predicate AdjustedInv(s: Sale) {
    && (forall id :: id in s.earned ==> Sum(RequestsOf(s.adjustments, id)) == ExecutedOn(s.corrections, id))
    && (!SomeExecuted(s.corrections) ==> s.adjustments == [])
    && (forall j: nat, id :: IsExecuted(s, j) && s.corrections[j].kind.REVERSAL? && id in s.earned && id in s.lines ==>
          RequestsOf(s.adjustments, id) == [s.lines[id].price])
  }

  ghost predicate Inv(s: Sale) {
    && SaleInv(s)
    && (forall j :: 0 <= j < |s.corrections| ==> CorrectionInv(s, s.corrections[j]))
    && CapInv(s) && ExclusiveInv(s) && PostedInv(s) && RestoredInv(s) && AdjustedInv(s)
  }

  // ---------- Amounts on a line ----------

  lemma {:induction false} AmountElsewhere(items: seq<Item>, id: string)
    requires forall i :: 0 <= i < |items| ==> items[i].lineId != id
    ensures AmountOn(items, id) == 0
  {
    if items != [] {
      AmountElsewhere(items[1..], id);
    }
  }

  lemma {:induction false} AmountOfItem(items: seq<Item>, i: nat)
    requires i < |items| && DistinctItems(items)
    ensures AmountOn(items, items[i].lineId) == items[i].amount
  {
    if i == 0 {
      AmountElsewhere(items[1..], items[0].lineId);
    } else {
      AmountOfItem(items[1..], i - 1);
    }
  }

  lemma AmountBounds(s: Sale, c: Correction, id: string)
    requires SaleInv(s) && CorrectionInv(s, c) && id in s.lines
    ensures 0 <= AmountOn(c.items, id) <= s.lines[id].price
    ensures Includes(c, id) ==> AmountOn(c.items, id) >= 1
    ensures !Includes(c, id) ==> AmountOn(c.items, id) == 0
  {
    if Includes(c, id) {
      var i :| 0 <= i < |c.items| && c.items[i].lineId == id;
      AmountOfItem(c.items, i);
      assert ItemInv(s, c.items[i]);
    } else {
      AmountElsewhere(c.items, id);
    }
  }

  lemma ReversalCoversAll(s: Sale, c: Correction, id: string)
    requires SaleInv(s) && CorrectionInv(s, c) && c.kind.REVERSAL? && id in s.lines
    ensures Includes(c, id) && AmountOn(c.items, id) == s.lines[id].price
  {
    var i :| 0 <= i < |s.order| && s.order[i] == id;
    assert c.items[i].lineId == id;
    AmountOfItem(c.items, i);
  }

  /** An executed correction's amount is part of what its line has given back. */
  lemma ExecutedAtLeast(s: Sale, j: nat, id: string)
    requires SaleInv(s) && IsExecuted(s, j) && id in s.lines
    requires (forall k :: 0 <= k < |s.corrections| ==> CorrectionInv(s, s.corrections[k]))
    ensures AmountOn(s.corrections[j].items, id) <= ExecutedOn(s.corrections, id)
  {
    forall k | 0 <= k < |s.corrections| ensures ExecutedWeight(id)(s.corrections[k]) >= 0 {
      AmountBounds(s, s.corrections[k], id);
    }
    SumByNonNegative(ExecutedWeight(id), s.corrections);
  }

  // ---------- Exclusion ----------

  /** Nothing executes after a reversal, and a reversal only executes first. */
  lemma ReversalExcludes(s: Sale, id: nat, envOk: bool, j: nat)
    requires Inv(s) && Executable(s, id, envOk) && IsExecuted(s, j)
    ensures !s.corrections[j].kind.REVERSAL? && !s.corrections[id].kind.REVERSAL?
  {
    var c := s.corrections[id];
    assert SomeExecuted(s.corrections);
    assert CorrectionInv(s, c);
    if s.corrections[j].kind.REVERSAL? {
      var line := c.items[0].lineId;
      assert ItemAllowed(s, c.items[0]);
      ReversalCoversAll(s, s.corrections[j], line);
      ExecutedAtLeast(s, j, line);
    }
  }

  /** A stocked line already given back, even once, is never corrected again. */
  lemma StockedOnlyOnce(s: Sale, id: nat, envOk: bool, j: nat, i: nat)
    requires Inv(s) && Executable(s, id, envOk) && IsExecuted(s, j)
    requires i < |s.corrections[id].items| && s.lines[s.corrections[id].items[i].lineId].stocked
    ensures !Includes(s.corrections[j], s.corrections[id].items[i].lineId)
  {
    var c := s.corrections[id];
    var line := c.items[i].lineId;
    assert ItemAllowed(s, c.items[i]) && CorrectionInv(s, c);
    ReversalExcludes(s, id, envOk, j);
    AmountBounds(s, s.corrections[j], line);
    ExecutedAtLeast(s, j, line);
  }

  // ---------- Execution ----------

  /** The sale once correction `id` has executed, whatever it wrote elsewhere. */
  lemma ExecutedAfter(s: Sale, id: nat, after: seq<Correction>, line: string)
    requires id < |s.corrections| && !s.corrections[id].status.EXECUTED? && |after| == |s.corrections|
    requires after[id].status.EXECUTED? && after[id].items == s.corrections[id].items
    requires after == s.corrections[id := after[id]]
    ensures ExecutedOn(after, line) == ExecutedOn(s.corrections, line) + AmountOn(s.corrections[id].items, line)
  {
    SumByUpdate(ExecutedWeight(line), s.corrections, id, after[id]);
  }

  lemma ExecuteKeepsCap(s: Sale, id: nat, tracked: set<string>, envOk: bool)
    requires Inv(s) && Executable(s, id, envOk)
    ensures CapInv(Execute(s, id, tracked, envOk).value)
  {
    var after := Execute(s, id, tracked, envOk).value;
    var c := s.corrections[id];
    forall line | line in s.lines ensures 0 <= ExecutedOn(after.corrections, line) <= s.lines[line].price {
      ExecutedAfter(s, id, after.corrections, line);
      AmountBounds(s, c, line);
      if i :| 0 <= i < |c.items| && c.items[i].lineId == line {
        AmountOfItem(c.items, i);
        assert ItemAllowed(s, c.items[i]);
      }
    }
  }

  lemma ExecuteKeepsExclusive(s: Sale, id: nat, tracked: set<string>, envOk: bool)
    requires Inv(s) && Executable(s, id, envOk)
    ensures ExclusiveInv(Execute(s, id, tracked, envOk).value)
  {
    var after := Execute(s, id, tracked, envOk).value;
    forall j: nat, k: nat | IsExecuted(after, j) && after.corrections[j].kind.REVERSAL? && IsExecuted(after, k)
      ensures j == k
    {
      if j != id { ReversalExcludes(s, id, envOk, j); }
      if k != id { ReversalExcludes(s, id, envOk, k); }
    }
  }

  lemma ExecuteKeepsPosted(s: Sale, id: nat, tracked: set<string>, envOk: bool)
    requires Inv(s) && Executable(s, id, envOk)
    ensures PostedInv(Execute(s, id, tracked, envOk).value)
  {
    var after := Execute(s, id, tracked, envOk).value;
    OneMorePosted(s.corrections, s.posted, id, after.corrections[id], after.posted[|s.posted|]);
  }

  lemma OneMorePosted(corrections: seq<Correction>, posted: seq<Posted>, id: nat, c: Correction, p: Posted)
    requires PostedMatch(corrections, posted) && id < |corrections| && !corrections[id].status.EXECUTED?
    requires c.status.EXECUTED? && c.corrective == Some(|posted|) && IsPostingOf(p, c, id)
    ensures PostedMatch(corrections[id := c], posted + [p])
  {
  }

  ghost predicate AreRestorations(s: Sale, items: seq<Item>, r: seq<Restored>) {
    && (forall k :: 0 <= k < |r| ==> IsRestoration(s, r[k]) && Corrects(items, r[k].lineId))
    && (forall j, k :: 0 <= j < k < |r| ==> r[j].lineId != r[k].lineId)
  }

  lemma {:induction false} RestorationsOf(s: Sale, items: seq<Item>, tracked: set<string>)
    requires DistinctItems(items)
    ensures AreRestorations(s, items, Restorations(s, items, tracked))
  {
    if items != [] {
      var front, last := items[..|items| - 1], items[|items| - 1];
      RestorationsOf(s, front, tracked);
      var r := Restorations(s, front, tracked);
      assert AreRestorations(s, front, r);
      forall k | 0 <= k < |r| ensures Corrects(items, r[k].lineId) && r[k].lineId != last.lineId {
        assert Corrects(front, r[k].lineId);
        var i :| 0 <= i < |front| && front[i].lineId == r[k].lineId;
        assert items[i] == front[i];
      }
      assert items[|items| - 1].lineId == last.lineId;
      assert Corrects(items, last.lineId);
    }
  }

  lemma StaysGivenBack(s: Sale, id: nat, tracked: set<string>, envOk: bool)
    requires Executable(s, id, envOk)
    ensures forall line :: GivenBack(s, line) || Corrects(s.corrections[id].items, line) ==>
      GivenBack(Execute(s, id, tracked, envOk).value, line)
  {
    var after := Execute(s, id, tracked, envOk).value;
    assert IsExecuted(after, id) && after.corrections[id].items == s.corrections[id].items;
    forall line | GivenBack(s, line) || Corrects(s.corrections[id].items, line) ensures GivenBack(after, line) {
      if GivenBack(s, line) {
        var e: nat :| IsExecuted(s, e) && Includes(s.corrections[e], line);
        assert IsExecuted(after, e) && Includes(after.corrections[e], line);
      } else {
        assert Includes(after.corrections[id], line);
      }
    }
  }

  lemma NotRestoredTwice(s: Sale, id: nat, envOk: bool, old_: Restored, new_: Restored)
    requires Inv(s) && Executable(s, id, envOk)
    requires GivenBack(s, old_.lineId) && IsRestoration(s, new_) && Corrects(s.corrections[id].items, new_.lineId)
    ensures old_.lineId != new_.lineId
  {
    var c := s.corrections[id];
    var e: nat :| IsExecuted(s, e) && Includes(s.corrections[e], old_.lineId);
    var i :| 0 <= i < |c.items| && c.items[i].lineId == new_.lineId;
    StockedOnlyOnce(s, id, envOk, e, i);
  }

  lemma RestoredTogether(s: Sale, a: seq<Restored>, b: seq<Restored>)
    requires RestoredList(s, a) && RestoredList(s, b)
    requires forall j, k :: 0 <= j < |a| && 0 <= k < |b| ==> a[j].lineId != b[k].lineId
    ensures RestoredList(s, a + b)
  {
  }

  lemma ExecuteKeepsRestored(s: Sale, id: nat, tracked: set<string>, envOk: bool)
    requires Inv(s) && Executable(s, id, envOk)
    ensures RestoredInv(Execute(s, id, tracked, envOk).value)
  {
    var items := s.corrections[id].items;
    var added := Restorations(s, items, tracked);
    assert CorrectionInv(s, s.corrections[id]);
    RestorationsOf(s, items, tracked);
    forall j, k | 0 <= j < |s.restored| && 0 <= k < |added| ensures s.restored[j].lineId != added[k].lineId {
      NotRestoredTwice(s, id, envOk, s.restored[j], added[k]);
    }
    ListsStayRestored(s, id, tracked, envOk, added);
  }

  lemma {:induction false} ListsStayRestored(s: Sale, id: nat, tracked: set<string>, envOk: bool, added: seq<Restored>)
    requires Executable(s, id, envOk) && RestoredList(s, s.restored)
    requires AreRestorations(s, s.corrections[id].items, added)
    requires added == Restorations(s, s.corrections[id].items, tracked)
    requires forall j, k :: 0 <= j < |s.restored| && 0 <= k < |added| ==> s.restored[j].lineId != added[k].lineId
    ensures RestoredInv(Execute(s, id, tracked, envOk).value)
  {
    var after := Execute(s, id, tracked, envOk).value;
    StaysGivenBack(s, id, tracked, envOk);
    forall r: Restored | IsRestoration(s, r) ensures IsRestoration(after, r) { }
    RestoredTogether(after, s.restored, added);
  }

  // ---------- Commission rows of an execution ----------

  lemma PairingsFront(s: Sale, items: seq<Item>)
    requires items != []
    ensures Pairings(s, items)[..|items| - 1] == Pairings(s, items[..|items| - 1])
  {
  }

  function RowRequests(items: seq<Item>, id: string): seq<int> {
    if Corrects(items, id) then [AmountOn(items, id)] else []
  }

  function RowsAfter(s: Sale, items: seq<Item>): Result<seq<Adjustment>> {
    AdjustAll(s.earned, s.adjustments, Pairings(s, items))
  }

  lemma RowRequestsLast(items: seq<Item>, id: string)
    requires items != [] && DistinctItems(items)
    ensures var front, last := items[..|items| - 1], items[|items| - 1];
            RowRequests(items, id) == RowRequests(front, id) + if last.lineId == id then [last.amount] else []
  {
    var front, last := items[..|items| - 1], items[|items| - 1];
    assert items == front + [last];
    SumByAppend(ItemOn(id), front, last);
    if last.lineId == id {
      assert items[|items| - 1].lineId == id;
      AmountElsewhere(front, id);
    } else if Corrects(items, id) {
      var i :| 0 <= i < |items| && items[i].lineId == id;
      assert front[i].lineId == id;
    } else {
      forall i | 0 <= i < |front| ensures front[i].lineId != id { assert items[i] == front[i]; }
    }
  }

  /** Each corrected line with an earned row gets exactly one row, for the corrected amount. */
  lemma {:induction false} RowsOfCorrection(s: Sale, items: seq<Item>, id: string)
    requires DistinctItems(items) && RowsAfter(s, items).Ok? && id in s.earned
    ensures RequestsOf(RowsAfter(s, items).value, id) == RequestsOf(s.adjustments, id) + RowRequests(items, id)
  {
    if items == [] {
      assert RequestsOf(s.adjustments, id) + [] == RequestsOf(s.adjustments, id);
    } else {
      LastRow(s, items, id);
      RowsOfCorrection(s, items[..|items| - 1], id);
      RowRequestsLast(items, id);
    }
  }

  lemma {:induction false} LastRow(s: Sale, items: seq<Item>, id: string)
    requires items != [] && RowsAfter(s, items).Ok? && id in s.earned
    ensures RowsAfter(s, items[..|items| - 1]).Ok?
    ensures RequestsOf(RowsAfter(s, items).value, id)
            == RequestsOf(RowsAfter(s, items[..|items| - 1]).value, id)
               + if items[|items| - 1].lineId == id then [items[|items| - 1].amount] else []
  {
    PairingsFront(s, items);
    var before, rows := RowsAfter(s, items[..|items| - 1]).value, RowsAfter(s, items).value;
    if items[|items| - 1].lineId in s.earned {
      assert rows == before + [rows[|before|]];
      RowAppended(before, rows[|before|], id);
    }
  }

  lemma ExecuteKeepsConsistent(s: Sale, id: nat, tracked: set<string>, envOk: bool)
    requires Inv(s) && Executable(s, id, envOk)
    ensures SaleInv(Execute(s, id, tracked, envOk).value)
  {
    var c := s.corrections[id];
    assert CorrectionInv(s, c);
    forall i | 0 <= i < |c.items| ensures c.items[i].lineId in s.lines && c.items[i].amount >= 0 {
      assert ItemInv(s, c.items[i]);
    }
    CorrectionKeepsConsistent(s.earned, Prices(s.lines), s.adjustments, Pairings(s, c.items));
  }

  lemma {:induction false} ExecuteKeepsAdjustedSums(s: Sale, id: nat, tracked: set<string>, envOk: bool, line: string)
    requires Inv(s) && Executable(s, id, envOk) && line in s.earned
    ensures var after := Execute(s, id, tracked, envOk).value;
            Sum(RequestsOf(after.adjustments, line)) == ExecutedOn(after.corrections, line)
  {
    assert CorrectionInv(s, s.corrections[id]);
    RequestsGrow(s, s.corrections[id], line);
    ExecutedAfter(s, id, Execute(s, id, tracked, envOk).value.corrections, line);
  }

  lemma {:induction false} RequestsGrow(s: Sale, c: Correction, line: string)
    requires SaleInv(s) && CorrectionInv(s, c) && RowsAfter(s, c.items).Ok? && line in s.earned
    ensures Sum(RequestsOf(RowsAfter(s, c.items).value, line))
      == Sum(RequestsOf(s.adjustments, line)) + AmountOn(c.items, line)
  {
    RowsOfCorrection(s, c.items, line);
    SumSplit(RequestsOf(s.adjustments, line), RowRequests(c.items, line));
    AmountBounds(s, c, line);
    assert Sum([AmountOn(c.items, line)]) == AmountOn(c.items, line) + Sum([]);
  }

  /** A reversal leaves each earning line with the one request of its whole price. */
  lemma {:induction false} ReversalAdjustsOnce(s: Sale, id: nat, tracked: set<string>, envOk: bool, line: string)
    requires Inv(s) && Executable(s, id, envOk) && s.corrections[id].kind.REVERSAL?
    requires line in s.earned && line in s.lines
    ensures RequestsOf(Execute(s, id, tracked, envOk).value.adjustments, line) == [s.lines[line].price]
  {
    var c := s.corrections[id];
    assert CorrectionInv(s, c);
    RowsOfCorrection(s, c.items, line);
    ReversalCoversAll(s, c, line);
    assert RequestsOf(s.adjustments, line) == [];
  }

  lemma ExecuteKeepsAdjusted(s: Sale, id: nat, tracked: set<string>, envOk: bool)
    requires Inv(s) && Executable(s, id, envOk)
    ensures AdjustedInv(Execute(s, id, tracked, envOk).value)
  {
    var after := Execute(s, id, tracked, envOk).value;
    assert IsExecuted(after, id);
    forall line | line in s.earned
      ensures Sum(RequestsOf(after.adjustments, line)) == ExecutedOn(after.corrections, line)
    {
      ExecuteKeepsAdjustedSums(s, id, tracked, envOk, line);
    }
    forall j: nat | IsExecuted(s, j) ensures !s.corrections[j].kind.REVERSAL? {
      ReversalExcludes(s, id, envOk, j);
    }
    forall line | s.corrections[id].kind.REVERSAL? && line in s.earned && line in s.lines
      ensures RequestsOf(after.adjustments, line) == [s.lines[line].price]
    {
      ReversalAdjustsOnce(s, id, tracked, envOk, line);
    }
    assert SomeExecuted(after.corrections);
  }

  lemma ExecuteKeepsInv(s: Sale, id: nat, tracked: set<string>, envOk: bool)
    requires Inv(s) && Executable(s, id, envOk)
    ensures Inv(Execute(s, id, tracked, envOk).value)
  {
    ExecuteKeepsConsistent(s, id, tracked, envOk);
    ExecuteKeepsCap(s, id, tracked, envOk);
    ExecuteKeepsExclusive(s, id, tracked, envOk);
    ExecuteKeepsPosted(s, id, tracked, envOk);
    ExecuteKeepsRestored(s, id, tracked, envOk);
    ExecuteKeepsAdjusted(s, id, tracked, envOk);
    CorrectionsKept(s, Execute(s, id, tracked, envOk).value);
  }

  lemma CorrectionsKept(s: Sale, after: Sale)
    requires after.lines == s.lines && after.order == s.order && |after.corrections| >= |s.corrections|
    requires forall j :: 0 <= j < |s.corrections| ==> CorrectionInv(s, s.corrections[j])
    requires forall j :: 0 <= j < |s.corrections| ==>
      after.corrections[j].items == s.corrections[j].items && after.corrections[j].kind == s.corrections[j].kind
    ensures forall j :: 0 <= j < |s.corrections| ==> CorrectionInv(after, after.corrections[j])
  {
    assert FullItems(after) == FullItems(s);
    forall j | 0 <= j < |s.corrections| ensures CorrectionInv(after, after.corrections[j]) {
      assert CorrectionInv(s, s.corrections[j]);
      assert forall i :: 0 <= i < |s.corrections[j].items| ==> ItemInv(s, s.corrections[j].items[i]);
    }
  }

  // ---------- The other commands ----------

  /** A command that neither executes nor undoes an execution leaves the ledger side alone. */
  lemma NonExecutingKeepsInv(s: Sale, after: Sale)
    requires Inv(s)
    requires after == s.(corrections := after.corrections) && |after.corrections| >= |s.corrections|
    requires forall j :: 0 <= j < |s.corrections| ==>
      && after.corrections[j].items == s.corrections[j].items && after.corrections[j].kind == s.corrections[j].kind
      && after.corrections[j].corrective == s.corrections[j].corrective
      && (after.corrections[j].status.EXECUTED? <==> s.corrections[j].status.EXECUTED?)
    requires forall j :: |s.corrections| <= j < |after.corrections| ==>
      CorrectionInv(after, after.corrections[j]) && !after.corrections[j].status.EXECUTED?
        && after.corrections[j].corrective.None?
    ensures Inv(after)
  {
    CorrectionsKept(s, after);
    forall id ensures ExecutedOn(after.corrections, id) == ExecutedOn(s.corrections, id) {
      SameExecuted(s.corrections, after.corrections, id);
    }
    SamePosted(s.corrections, after.corrections, s.posted);
    forall j: nat ensures IsExecuted(after, j) <==> IsExecuted(s, j) { }
    forall id | GivenBack(s, id) ensures GivenBack(after, id) {
      var e: nat :| IsExecuted(s, e) && Includes(s.corrections[e], id);
      assert IsExecuted(after, e) && Includes(after.corrections[e], id);
    }
    RestoredStays(s, after);
    AdjustedStays(s, after);
  }

  lemma SamePosted(a: seq<Correction>, b: seq<Correction>, posted: seq<Posted>)
    requires PostedMatch(a, posted) && |a| <= |b|
    requires forall j :: 0 <= j < |a| ==>
      && b[j].items == a[j].items && b[j].kind == a[j].kind && b[j].corrective == a[j].corrective
      && (b[j].status.EXECUTED? <==> a[j].status.EXECUTED?)
    requires forall j :: |a| <= j < |b| ==> !b[j].status.EXECUTED? && b[j].corrective.None?
    ensures PostedMatch(b, posted)
  {
  }

  lemma AdjustedStays(s: Sale, after: Sale)
    requires AdjustedInv(s) && after.lines == s.lines && after.earned == s.earned && after.adjustments == s.adjustments
    requires |after.corrections| >= |s.corrections|
    requires forall id :: ExecutedOn(after.corrections, id) == ExecutedOn(s.corrections, id)
    requires forall j: nat :: IsExecuted(after, j) <==> IsExecuted(s, j)
    requires forall j :: 0 <= j < |s.corrections| ==> after.corrections[j].kind == s.corrections[j].kind
    ensures AdjustedInv(after)
  {
    if SomeExecuted(s.corrections) {
      var j: nat :| j < |s.corrections| && s.corrections[j].status.EXECUTED?;
      assert IsExecuted(s, j);
      assert IsExecuted(after, j);
    }
  }

  lemma RestoredStays(s: Sale, after: Sale)
    requires RestoredInv(s) && after.lines == s.lines && after.restored == s.restored
    requires forall id :: GivenBack(s, id) ==> GivenBack(after, id)
    ensures RestoredInv(after)
  {
    forall k | 0 <= k < |s.restored| ensures IsRestoration(after, after.restored[k]) {
      assert IsRestoration(s, s.restored[k]);
    }
  }

  lemma {:induction false} SameExecuted(a: seq<Correction>, b: seq<Correction>, id: string)
    requires |a| <= |b|
    requires forall j :: 0 <= j < |a| ==> a[j].items == b[j].items && (a[j].status.EXECUTED? <==> b[j].status.EXECUTED?)
    requires forall j :: |a| <= j < |b| ==> !b[j].status.EXECUTED?
    ensures ExecutedOn(a, id) == ExecutedOn(b, id)
  {
    if a == [] {
      NoneExecuted(b, id);
    } else {
      SameExecuted(a[1..], b[1..], id);
    }
  }

  lemma {:induction false} NoneExecuted(b: seq<Correction>, id: string)
    requires forall j :: 0 <= j < |b| ==> !b[j].status.EXECUTED?
    ensures ExecutedOn(b, id) == 0
  {
    if b != [] {
      NoneExecuted(b[1..], id);
    }
  }

  lemma FullItemsDistinct(s: Sale)
    requires SaleInv(s) && Positive(FullItems(s))
    ensures DistinctItems(FullItems(s))
    ensures forall i :: 0 <= i < |FullItems(s)| ==> ItemInv(s, FullItems(s)[i])
  {
    forall i | 0 <= i < |s.order| ensures s.order[i] in s.lines { assert s.order[i] in s.order; }
  }

  lemma RefundKeepsInv(s: Sale, items: seq<Item>)
    requires Inv(s) && RequestRefund(s, items).Ok?
    ensures Inv(RequestRefund(s, items).value)
  {
    var after := RequestRefund(s, items).value;
    assert CorrectionInv(after, after.corrections[|s.corrections|]);
    NonExecutingKeepsInv(s, after);
  }

  /** A reversal can be requested exactly when nothing was seen executed and no line is free. */
  lemma ReversalRequestedIff(s: Sale, sawExecuted: bool)
    requires SaleInv(s)
    ensures RequestReversal(s, sawExecuted).Ok? <==>
      !sawExecuted && forall id :: id in s.lines ==> s.lines[id].price > 0
  {
    forall id | id in s.lines ensures exists i :: 0 <= i < |s.order| && s.order[i] == id { assert id in s.order; }
    forall i | 0 <= i < |s.order| ensures FullItems(s)[i].amount == s.lines[s.order[i]].price {
      assert s.order[i] in s.order;
    }
  }

  lemma ReversalKeepsInv(s: Sale, sawExecuted: bool)
    requires Inv(s) && RequestReversal(s, sawExecuted).Ok?
    ensures Inv(RequestReversal(s, sawExecuted).value)
  {
    var after := RequestReversal(s, sawExecuted).value;
    FullItemsDistinct(s);
    assert FullItems(after) == FullItems(s);
    assert CorrectionInv(after, after.corrections[|s.corrections|]);
    NonExecutingKeepsInv(s, after);
  }

  lemma DecisionKeepsInv(s: Sale, id: nat, seen: Status, seenVersion: int, to: Status)
    requires Inv(s) && Decide(s, id, seen, seenVersion, to).Ok?
    ensures Inv(Decide(s, id, seen, seenVersion, to).value)
  {
    NonExecutingKeepsInv(s, Decide(s, id, seen, seenVersion, to).value);
  }

  lemma StepKeepsInv(s: Sale, e: Event)
    requires Inv(s)
    ensures Inv(Step(s, e))
  {
    match e
    case RefundEvent(items) => if RequestRefund(s, items).Ok? { RefundKeepsInv(s, items); }
    case ReversalEvent(sawExecuted) => if RequestReversal(s, sawExecuted).Ok? { ReversalKeepsInv(s, sawExecuted); }
    case DecideEvent(id, seen, seenVersion, to) =>
      if Decide(s, id, seen, seenVersion, to).Ok? { DecisionKeepsInv(s, id, seen, seenVersion, to); }
    case ExecuteEvent(id, tracked, envOk) => if Executable(s, id, envOk) { ExecuteKeepsInv(s, id, tracked, envOk); }
  }

  lemma {:induction false} RunKeepsInv(s: Sale, events: seq<Event>)
    requires Inv(s)
    ensures Inv(Run(s, events))
  {
    if events != [] {
      RunKeepsInv(s, events[..|events| - 1]);
      StepKeepsInv(Run(s, events[..|events| - 1]), events[|events| - 1]);
    }
  }

  /** A freshly posted sale, its commission just earned. */
  ghost predicate NewSale(s: Sale) {
    && s.order != [] && (forall i, j :: 0 <= i < j < |s.order| ==> s.order[i] != s.order[j])
    && (forall id :: id in s.order <==> id in s.lines)
    && (forall id :: id in s.lines ==> s.lines[id].price >= 0)
    && (forall id :: id in s.earned ==> id in s.lines && IsEarned(s.earned[id], s.lines[id].price))
    && s.corrections == [] && s.posted == [] && s.restored == [] && s.adjustments == []
  }

  lemma NewSaleInv(s: Sale)
    requires NewSale(s)
    ensures Inv(s)
  {
  }

  // ---------- Main results ----------

  function PriceOn(lines: map<string, Line>): string -> int {
    (id: string) => if id in lines then lines[id].price else 0
  }

  function ExecutedOnLine(corrections: seq<Correction>): string -> int {
    (id: string) => ExecutedOn(corrections, id)
  }

  /** After any commands in any order: no line has given back more than its price, a reversal
      is the only correction executed, corrective transactions and executed corrections match
      one to one, and stock comes back at most once per line, by the quantity sold. */
  lemma {:induction false} RefundConservation(s: Sale, events: seq<Event>)
    requires NewSale(s)
    ensures var t := Run(s, events);
            && (forall id :: id in t.lines ==> 0 <= ExecutedOn(t.corrections, id) <= t.lines[id].price)
            && (forall j: nat, k: nat :: IsExecuted(t, j) && t.corrections[j].kind.REVERSAL? && IsExecuted(t, k) ==>
                  j == k)
            && PostedInv(t)
            && RestoredInv(t)
  {
    NewSaleInv(s);
    RunKeepsInv(s, events);
  }

  lemma ReversalBlocksStep(s: Sale, j: nat, e: Event)
    requires Inv(s) && IsExecuted(s, j) && s.corrections[j].kind.REVERSAL?
    ensures var t := Step(s, e);
            && IsExecuted(t, j) && t.corrections[j] == s.corrections[j]
            && t.posted == s.posted && t.restored == s.restored && t.adjustments == s.adjustments
  {
    if e.ExecuteEvent? {
      ReversalBlocksExecution(s, j, e.id, e.envOk);
    } else {
      OtherStepKeepsExecuted(s, j, e);
    }
  }

  lemma OtherStepKeepsExecuted(s: Sale, j: nat, e: Event)
    requires IsExecuted(s, j) && !e.ExecuteEvent?
    ensures var t := Step(s, e);
            && IsExecuted(t, j) && t.corrections[j] == s.corrections[j]
            && t.posted == s.posted && t.restored == s.restored && t.adjustments == s.adjustments
  {
  }

  lemma ReversalBlocksExecution(s: Sale, j: nat, id: nat, envOk: bool)
    requires Inv(s) && IsExecuted(s, j) && s.corrections[j].kind.REVERSAL?
    ensures !Executable(s, id, envOk)
  {
    if Executable(s, id, envOk) { ReversalExcludes(s, id, envOk, j); }
  }

  /** Once a reversal has executed nothing is ever posted, restored or adjusted again. */
  lemma {:induction false} ReversalIsFinal(s: Sale, j: nat, events: seq<Event>)
    requires Inv(s) && IsExecuted(s, j) && s.corrections[j].kind.REVERSAL?
    ensures var t := Run(s, events);
            && IsExecuted(t, j) && t.corrections[j] == s.corrections[j]
            && t.posted == s.posted && t.restored == s.restored && t.adjustments == s.adjustments
  {
    if events != [] {
      var before, e := Run(s, events[..|events| - 1]), events[|events| - 1];
      ReversalIsFinal(s, j, events[..|events| - 1]);
      RunKeepsInv(s, events[..|events| - 1]);
      ReversalBlocksStep(before, j, e);
    }
  }

  lemma LineRemaining(s: Sale, id: nat, after: seq<Correction>, line: string)
    requires id < |s.corrections| && !s.corrections[id].status.EXECUTED? && |after| == |s.corrections|
    requires after[id].status.EXECUTED? && after[id].items == s.corrections[id].items
    requires after == s.corrections[id := after[id]]
    requires line in s.lines && ExecutedOn(after, line) <= s.lines[line].price
    ensures PriceOn(s.lines)(line) == ExecutedOnLine(after)(line) + RemainingOn(s, s.corrections[id].items)(line)
  {
    ExecutedAfter(s, id, after, line);
  }

  /** The remaining amount a refund prints is the sale's prices less everything executed, this
      refund included: the clamp at zero never binds. */
  lemma RemainingIsExact(s: Sale, id: nat, tracked: set<string>, envOk: bool)
    requires Inv(s) && Executable(s, id, envOk) && s.corrections[id].kind.REFUND?
    ensures var after := Execute(s, id, tracked, envOk).value;
            after.posted[|s.posted|].remaining
            == Some(SumBy(PriceOn(s.lines), s.order) - SumBy(ExecutedOnLine(after.corrections), s.order))
  {
    var after := Execute(s, id, tracked, envOk).value;
    ExecuteKeepsCap(s, id, tracked, envOk);
    RemainingSum(s, id, after.corrections);
    PrintedRemaining(s, id, tracked, envOk);
  }

  lemma RemainingSum(s: Sale, id: nat, after: seq<Correction>)
    requires id < |s.corrections| && !s.corrections[id].status.EXECUTED? && |after| == |s.corrections|
    requires after[id].status.EXECUTED? && after[id].items == s.corrections[id].items
    requires after == s.corrections[id := after[id]]
    requires forall line :: line in s.order ==> line in s.lines && ExecutedOn(after, line) <= s.lines[line].price
    ensures SumBy(RemainingOn(s, s.corrections[id].items), s.order)
      == SumBy(PriceOn(s.lines), s.order) - SumBy(ExecutedOnLine(after), s.order)
  {
    var items := s.corrections[id].items;
    forall line | line in s.order
      ensures PriceOn(s.lines)(line) == ExecutedOnLine(after)(line) + RemainingOn(s, items)(line)
    {
      LineRemaining(s, id, after, line);
    }
    SumByAdd(PriceOn(s.lines), ExecutedOnLine(after), RemainingOn(s, items), s.order);
  }

  lemma PrintedRemaining(s: Sale, id: nat, tracked: set<string>, envOk: bool)
    requires Executable(s, id, envOk) && s.corrections[id].kind.REFUND?
    ensures Execute(s, id, tracked, envOk).value.posted[|s.posted|].remaining
      == Some(SumBy(RemainingOn(s, s.corrections[id].items), s.order))
  {
  }

  /** In every reachable state the commission reversed on a line is within what it earned, all
      of it once the sale is reversed, and within the rounding residue of all of it once the
      line is fully refunded by any number of partial corrections. A PERCENTAGE line gives
      back its rate's share of what was refunded so far, within the rounding of its pieces. */
  lemma {:induction false} CommissionFollowsCorrections(s: Sale, events: seq<Event>, id: string)
    requires NewSale(s) && id in s.earned
    ensures var t := Run(s, events);
            && CommissionFollows(t, id)
            && (t.earned[id].rule.kind.PERCENTAGE? && t.lines[id].price > 0 ==>
                  WithinShare(t.earned[id], t.lines[id].price, ExecutedOn(t.corrections, id),
                              |RequestsOf(t.adjustments, id)|, AdjustedSum(t.adjustments, id)))
  {
    NewSaleInv(s);
    RunKeepsInv(s, events);
    SaleUnchanged(s, events);
    var t := Run(s, events);
    InvFollows(t, id);
    if t.earned[id].rule.kind.PERCENTAGE? && t.lines[id].price > 0 { InvTracks(t, id); }
  }

  ghost predicate CommissionFollows(t: Sale, id: string) {
    && id in t.earned && id in t.lines
    && var left := t.earned[id].calculated - AdjustedSum(t.adjustments, id);
       var k := |RequestsOf(t.adjustments, id)|;
       && left >= 0
       && ((exists j: nat :: IsExecuted(t, j) && t.corrections[j].kind.REVERSAL?) ==> left == 0)
       && (ExecutedOn(t.corrections, id) == t.lines[id].price > 0 ==>
             && (t.earned[id].rule.kind.PERCENTAGE? ==> left <= k)
             && (t.earned[id].rule.kind.FIXED? ==> 2 * left < k))
  }

  /** What was taken is within k * (1 + rate) / 2 units of the exact share of what was refunded. */
  ghost predicate WithinShare(o: Accrual, price: int, refunded: int, k: nat, taken: int) {
    var share, margin := 2 * (o.basisAmount * o.rule.rateBasisPoints * refunded),
                         k * (price * (o.rule.rateBasisPoints + 10_000));
    && 20_000 * (taken * price) <= share + margin
    && (taken == o.calculated || 20_000 * (taken * price) >= share - margin)
  }

  lemma InvFollows(t: Sale, id: string)
    requires Inv(t) && id in t.earned
    ensures CommissionFollows(t, id)
  {
    assert LineConsistent(t.earned[id], Prices(t.lines)[id], t.adjustments, id);
    ReversedBy(t.earned[id], t.lines[id].price, RequestsOf(t.adjustments, id));
  }

  lemma {:induction false} InvTracks(t: Sale, id: string)
    requires Inv(t) && id in t.earned && t.earned[id].rule.kind.PERCENTAGE?
    requires id in t.lines && t.lines[id].price > 0
    ensures WithinShare(t.earned[id], t.lines[id].price, ExecutedOn(t.corrections, id),
                        |RequestsOf(t.adjustments, id)|, AdjustedSum(t.adjustments, id))
  {
    assert LineConsistent(t.earned[id], Prices(t.lines)[id], t.adjustments, id);
    TracksShare(t.earned[id], t.lines[id].price, RequestsOf(t.adjustments, id));
  }

  lemma {:induction false} TracksShare(o: Accrual, price: int, requests: seq<int>)
    requires IsEarned(o, price) && price > 0 && NonNegative(requests) && o.rule.kind.PERCENTAGE?
    ensures WithinShare(o, price, Sum(requests), |requests|, Cumulative(o, price, requests))
  {
    PercentageWithinShare(o, price, requests);
  }

  lemma {:induction false} ReversedBy(o: Accrual, price: int, requests: seq<int>)
    requires IsEarned(o, price) && NonNegative(requests)
    ensures var left := o.calculated - Cumulative(o, price, requests);
            && left >= 0
            && (requests == [price] ==> left == 0)
            && (Sum(requests) == price > 0 && o.rule.kind.PERCENTAGE? ==> left <= |requests|)
            && (Sum(requests) == price > 0 && o.rule.kind.FIXED? ==> 2 * left < |requests|)
  {
    CumulativeWithinOriginal(o, price, requests);
    if requests == [price] { FullCorrectionReversesAll(o, price); }
    if Sum(requests) == price > 0 {
      if o.rule.kind.PERCENTAGE? {
        PercentageResidue(o, price, requests);
      } else if o.rule.kind.FIXED? {
        FixedResidue(o, price, requests);
      }
    }
  }

  /** In a reachable state the commission ledger never stands in the way of a correction. */
  lemma CommissionNeverBlocks(s: Sale, c: Correction)
    requires SaleInv(s) && CorrectionInv(s, c)
    ensures RowsAfter(s, c.items).Ok?
  {
    forall i | 0 <= i < |c.items| ensures c.items[i].lineId in s.lines && c.items[i].amount >= 0 {
      assert ItemInv(s, c.items[i]);
    }
    CorrectionKeepsConsistent(s.earned, Prices(s.lines), s.adjustments, Pairings(s, c.items));
  }

  /** Exactly when an approved correction of a reachable state executes: a reversal when
      nothing has executed before it, a refund when each line still has the amount and each
      stocked line is refunded whole. */
  lemma ApprovedExecutesIff(s: Sale, id: nat)
    requires Inv(s) && id < |s.corrections| && s.corrections[id].status.APPROVED?
    ensures var c := s.corrections[id];
            Executable(s, id, true) <==>
              (Total(c.items) <= POSTGRES_INT_MAX
                && if c.kind.REVERSAL? then !SomeExecuted(s.corrections) else AllAllowed(s, c.items))
  {
    var c := s.corrections[id];
    assert CorrectionInv(s, c);
    CommissionNeverBlocks(s, c);
    if c.kind.REVERSAL? && !SomeExecuted(s.corrections) {
      forall i | 0 <= i < |c.items| ensures ItemAllowed(s, c.items[i]) {
        NoneExecuted(s.corrections, c.items[i].lineId);
        assert ItemInv(s, c.items[i]);
      }
    }
  }

  ghost predicate AllAllowed(s: Sale, items: seq<Item>) {
    forall i :: 0 <= i < |items| ==>
      var id, amount := items[i].lineId, items[i].amount;
      && id in s.lines && ExecutedOn(s.corrections, id) + amount <= s.lines[id].price
      && (s.lines[id].stocked ==> amount == s.lines[id].price)
  }

  lemma {:induction false} SaleUnchanged(s: Sale, events: seq<Event>)
    ensures Run(s, events).lines == s.lines && Run(s, events).earned == s.earned && Run(s, events).order == s.order
  {
    if events != [] {
      SaleUnchanged(s, events[..|events| - 1]);
    }
  }
}
