/** Executed corrections together with the drawers that pay them and the stock they return
    (transaction-correction-execution.service.ts, cash-sessions.service.ts,
    branch-inventory.service.ts). One execution is one transaction over all of them. */
module RefundDesk {
  import opened Money
  import opened Options
  import opened Sorting
  import C = Corrections
  import R = CorrectionsRuns
  import Cash
  import K = Stock

  /** What one corrective transaction paid back, and from which drawer if from any. */
  datatype Payment = Payment(sale: nat, posted: nat, drawer: Option<nat>, amount: int)

  datatype Desk = Desk(sales: seq<C.Sale>, drawers: seq<Cash.Drawer>, branch: K.Branch, payments: seq<Payment>)

  /** The variant each stocked line of a sale names. */
  type Names = map<string, string>

  function TrackedLines(b: K.Branch, names: Names): set<string> {
    set id | id in names && K.Tracked(b, names[id])
  }

  /** The stock lines of the corrected items. */
  function Returned(s: C.Sale, items: seq<C.Item>, names: Names): seq<K.Line> {
    if items == [] then []
    else Returned(s, items[..|items| - 1], names) + [ReturnedLine(s, items[|items| - 1].lineId, names)]
  }

  function ReturnedLine(s: C.Sale, id: string, names: Names): K.Line {
    if id in s.lines && s.lines[id].stocked && id in names then K.Line(Some(names[id]), s.lines[id].quantity)
    else K.Line(None, 0)
  }

  function PayFrom(drawers: seq<Cash.Drawer>, drawer: Option<nat>, amount: int, envOk: bool): Result<seq<Cash.Drawer>> {
    if drawer.None? then Ok(drawers)
    else if drawer.value >= |drawers| then Err
    else
      match Cash.PayRefund(drawers[drawer.value], amount, envOk)
      case Err => Err
      case Ok(paid) => Ok(drawers[drawer.value := paid])
  }

  /** The corrective transaction, the stock, the payment back: all or nothing. */
  function Execute(d: Desk, names: Names, s: nat, id: nat, drawer: Option<nat>, envOk: bool): Result<Desk> {
    if s >= |d.sales| || !C.Executable(d.sales[s], id, envOk) then Err
    else
      var sale, items := d.sales[s], d.sales[s].corrections[id].items;
      var branch := K.ApplyLines(d.branch, Returned(sale, items, names), 1);
      var drawers := PayFrom(d.drawers, drawer, C.Total(items), envOk);
      if branch.Err? || drawers.Err? then Err
      else
        var executed := C.Execute(sale, id, TrackedLines(d.branch, names), envOk).value;
        Ok(Desk(d.sales[s := executed], drawers.value, branch.value,
                d.payments + [Payment(s, |sale.posted|, drawer, C.Total(items))]))
  }

  datatype Event =
    | ExecuteEvent(sale: nat, id: nat, drawer: Option<nat>, envOk: bool)
    | CorrectionEvent(sale: nat, command: R.Event)
    | DrawerEvent(index: nat, movement: Cash.Event)
    | StockEvent(change: K.Event)

  function NamesOf(names: seq<Names>, s: nat): Names {
    if s < |names| then names[s] else map[]
  }

  function Step(d: Desk, names: seq<Names>, e: Event): Desk {
    match e
    case ExecuteEvent(s, id, drawer, envOk) =>
      var executed := Execute(d, NamesOf(names, s), s, id, drawer, envOk);
      if executed.Ok? then executed.value else d
    case CorrectionEvent(s, command) =>
      if s < |d.sales| && !command.ExecuteEvent? then d.(sales := d.sales[s := R.Step(d.sales[s], command)]) else d
    case DrawerEvent(k, movement) =>
      if k < |d.drawers| && !movement.RefundEvent? then
        d.(drawers := d.drawers[k := Cash.Step(d.drawers[k], movement)])
      else d
    case StockEvent(change) => d.(branch := K.Step(d.branch, change))
  }

  function Run(d: Desk, names: seq<Names>, events: seq<Event>): Desk {
    if events == [] then d else Step(Run(d, names, events[..|events| - 1]), names, events[|events| - 1])
  }

  // ---------- The amounts of a sale ----------

  function ExecutedTotal(): C.Correction -> int {
    (c: C.Correction) => if c.status.EXECUTED? then C.Total(c.items) else 0
  }

  function AmountOnLine(items: seq<C.Item>): string -> int {
    (id: string) => C.AmountOn(items, id)
  }

  function Only(x: string, amount: int): string -> int {
    (id: string) => if id == x then amount else 0
  }

  lemma {:induction false} OnlyHit(order: seq<string>, x: string, amount: int)
    requires Distinct(order)
    ensures SumBy(Only(x, amount), order) == if x in order then amount else 0
  {
    if order != [] {
      OnlyHit(order[1..], x, amount);
      assert order[0] !in order[1..];
      assert x in order <==> x == order[0] || x in order[1..];
    }
  }

  lemma {:induction false} Zeros(f: string -> int, order: seq<string>)
    requires forall id :: id in order ==> f(id) == 0
    ensures SumBy(f, order) == 0
  {
    if order != [] { Zeros(f, order[1..]); }
  }

  /** The items' amounts, summed line by line. */
  lemma {:induction false} TotalByLine(items: seq<C.Item>, order: seq<string>)
    requires Distinct(order) && forall i :: 0 <= i < |items| ==> items[i].lineId in order
    ensures C.Total(items) == SumBy(AmountOnLine(items), order)
  {
    if items == [] {
      Zeros(AmountOnLine(items), order);
    } else {
      TotalByLine(items[1..], order);
      OnlyHit(order, items[0].lineId, items[0].amount);
      SumByAdd(AmountOnLine(items), Only(items[0].lineId, items[0].amount), AmountOnLine(items[1..]), order);
    }
  }

  ghost predicate ItemsIn(corrections: seq<C.Correction>, order: seq<string>) {
    forall j, i :: 0 <= j < |corrections| && 0 <= i < |corrections[j].items| ==> corrections[j].items[i].lineId in order
  }

  function ExecutedItems(c: C.Correction): seq<C.Item> {
    if c.status.EXECUTED? then c.items else []
  }

  /** Executed corrections, summed by correction or by line. */
  lemma {:induction false} ExecutedByLine(corrections: seq<C.Correction>, order: seq<string>)
    requires Distinct(order) && ItemsIn(corrections, order)
    ensures SumBy(ExecutedTotal(), corrections) == SumBy(R.ExecutedOnLine(corrections), order)
  {
    if corrections == [] {
      Zeros(R.ExecutedOnLine(corrections), order);
    } else {
      var rest := corrections[1..];
      assert forall j :: 0 <= j < |rest| ==> rest[j] == corrections[j + 1];
      ExecutedByLine(rest, order);
      TotalByLine(ExecutedItems(corrections[0]), order);
      SumByAdd(R.ExecutedOnLine(corrections), AmountOnLine(ExecutedItems(corrections[0])),
        R.ExecutedOnLine(rest), order);
    }
  }

  lemma {:induction false} SumByLeq(f: string -> int, g: string -> int, order: seq<string>)
    requires forall id :: id in order ==> f(id) <= g(id)
    ensures SumBy(f, order) <= SumBy(g, order)
  {
    if order != [] { SumByLeq(f, g, order[1..]); }
  }

  /** All that a sale gives back, over all its corrections, is within what its lines cost. */
  lemma ExecutedWithinSale(s: C.Sale)
    requires R.Inv(s)
    ensures SumBy(ExecutedTotal(), s.corrections) <= SumBy(R.PriceOn(s.lines), s.order)
  {
    forall j, i | 0 <= j < |s.corrections| && 0 <= i < |s.corrections[j].items|
      ensures s.corrections[j].items[i].lineId in s.order
    {
      assert R.CorrectionInv(s, s.corrections[j]) && R.ItemInv(s, s.corrections[j].items[i]);
    }
    ExecutedByLine(s.corrections, s.order);
    SumByLeq(R.ExecutedOnLine(s.corrections), R.PriceOn(s.lines), s.order);
  }

  /** A reversal pays back the prices of the lines, not the adjusted total that was paid: the
      two agree exactly when the sale carried no adjustment. */
  lemma ReversalMeetsTotalIff(s: C.Sale, c: C.Correction, adjustment: int)
    requires R.SaleInv(s) && R.CorrectionInv(s, c) && c.kind.REVERSAL?
    ensures C.Total(c.items) == SumBy(R.PriceOn(s.lines), s.order)
    ensures C.Total(c.items) == SumBy(R.PriceOn(s.lines), s.order) + adjustment <==> adjustment == 0
  {
    forall i | 0 <= i < |c.items| ensures c.items[i].lineId in s.order { assert R.ItemInv(s, c.items[i]); }
    TotalByLine(c.items, s.order);
    forall id | id in s.order ensures AmountOnLine(c.items)(id) == R.PriceOn(s.lines)(id) {
      R.ReversalCoversAll(s, c, id);
    }
    SumByCongruent(AmountOnLine(c.items), R.PriceOn(s.lines), s.order);
  }

  // ---------- The invariant ----------

  function PaidFor(s: nat): Payment -> int {
    (p: Payment) => if p.sale == s then p.amount else 0
  }

  function PaidFrom(k: nat): Payment -> int {
    (p: Payment) => if p.drawer == Some(k) then p.amount else 0
  }

  function PaysPosting(s: nat, k: nat): Payment -> int {
    (p: Payment) => if p.sale == s && p.posted == k then 1 else 0
  }

  function ExpectedPayments(d: Desk, s: nat, k: nat): int {
    if s < |d.sales| && k < |d.sales[s].posted| then 1 else 0
  }

  /** Each corrective transaction was paid back once, and only posted amounts were. */
  ghost predicate PaymentsMatch(d: Desk) {
    && (forall s: nat, k: nat :: SumBy(PaysPosting(s, k), d.payments) == ExpectedPayments(d, s, k))
    && (forall i :: 0 <= i < |d.payments| ==> PaysPosted(d, d.payments[i]))
  }

  ghost predicate PaysPosted(d: Desk, p: Payment) {
    p.sale < |d.sales| && p.posted < |d.sales[p.sale].posted| && p.amount == d.sales[p.sale].posted[p.posted].total
  }

  ghost predicate SalesPaid(d: Desk) {
    forall s: nat :: s < |d.sales| ==> SumBy(PaidFor(s), d.payments) == SumBy(ExecutedTotal(), d.sales[s].corrections)
  }

  ghost predicate DrawersPaid(d: Desk) {
    forall k: nat :: k < |d.drawers| ==>
      Cash.Of(Cash.REFUND_PAID, d.drawers[k].ledger) == SumBy(PaidFrom(k), d.payments)
  }

  ghost predicate DrawersExist(d: Desk) {
    forall i :: 0 <= i < |d.payments| && d.payments[i].drawer.Some? ==> d.payments[i].drawer.value < |d.drawers|
  }

  ghost predicate SalesInv(d: Desk) {
    forall s :: 0 <= s < |d.sales| ==> R.Inv(d.sales[s])
  }

  ghost predicate Inv(d: Desk) {
    SalesInv(d) && PaymentsMatch(d) && SalesPaid(d) && DrawersPaid(d) && DrawersExist(d) && K.Inv(d.branch)
  }

  // ---------- An execution keeps it ----------

  lemma ExecutePosts(s: C.Sale, id: nat, tracked: set<string>, envOk: bool)
    requires C.Executable(s, id, envOk)
    ensures var after := C.Execute(s, id, tracked, envOk).value; var items := s.corrections[id].items;
            && |after.posted| == |s.posted| + 1 && after.posted[..|s.posted|] == s.posted
            && after.posted[|s.posted|].total == C.Total(items)
            && SumBy(ExecutedTotal(), after.corrections) == SumBy(ExecutedTotal(), s.corrections) + C.Total(items)
  {
    var after := C.Execute(s, id, tracked, envOk).value;
    SumByUpdate(ExecutedTotal(), s.corrections, id, after.corrections[id]);
  }

  /** The desk with one more payment, of a posting just made. */
  ghost predicate OneMorePayment(d: Desk, after: Desk, s: nat, drawer: Option<nat>, amount: int) {
    && s < |d.sales| && |after.sales| == |d.sales|
    && (forall t :: 0 <= t < |d.sales| && t != s ==> after.sales[t] == d.sales[t])
    && |after.sales[s].posted| == |d.sales[s].posted| + 1
    && after.sales[s].posted[..|d.sales[s].posted|] == d.sales[s].posted
    && after.sales[s].posted[|d.sales[s].posted|].total == amount
    && SumBy(ExecutedTotal(), after.sales[s].corrections) == SumBy(ExecutedTotal(), d.sales[s].corrections) + amount
    && after.payments == d.payments + [Payment(s, |d.sales[s].posted|, drawer, amount)]
  }

  lemma PaymentKeepsMatch(d: Desk, after: Desk, s: nat, drawer: Option<nat>, amount: int)
    requires PaymentsMatch(d) && OneMorePayment(d, after, s, drawer, amount)
    ensures PaymentsMatch(after)
  {
    var paid := after.payments[|d.payments|];
    forall t: nat, k: nat ensures SumBy(PaysPosting(t, k), after.payments) == ExpectedPayments(after, t, k) {
      assert SumBy(PaysPosting(t, k), d.payments) == ExpectedPayments(d, t, k);
      SumByAppend(PaysPosting(t, k), d.payments, paid);
    }
    forall i | 0 <= i < |after.payments| ensures PaysPosted(after, after.payments[i]) {
      if i < |d.payments| {
        assert PaysPosted(d, d.payments[i]);
        assert after.sales[s].posted[..|d.sales[s].posted|] == d.sales[s].posted;
      }
    }
  }

  lemma PaymentKeepsSales(d: Desk, after: Desk, s: nat, drawer: Option<nat>, amount: int)
    requires SalesPaid(d) && OneMorePayment(d, after, s, drawer, amount)
    ensures SalesPaid(after)
  {
    forall t: nat | t < |after.sales|
      ensures SumBy(PaidFor(t), after.payments) == SumBy(ExecutedTotal(), after.sales[t].corrections)
    {
      SumByAppend(PaidFor(t), d.payments, after.payments[|d.payments|]);
    }
  }

  lemma PaymentKeepsDrawers(d: Desk, after: Desk, s: nat, drawer: Option<nat>, amount: int, envOk: bool)
    requires DrawersPaid(d) && DrawersExist(d) && OneMorePayment(d, after, s, drawer, amount)
    requires PayFrom(d.drawers, drawer, amount, envOk) == Ok(after.drawers)
    ensures DrawersPaid(after) && DrawersExist(after)
  {
    var paid := after.payments[|d.payments|];
    forall k: nat | k < |after.drawers|
      ensures Cash.Of(Cash.REFUND_PAID, after.drawers[k].ledger) == SumBy(PaidFrom(k), after.payments)
    {
      SumByAppend(PaidFrom(k), d.payments, paid);
      SumByAppend(Cash.IsKind(Cash.REFUND_PAID), d.drawers[k].ledger, Cash.Entry(Cash.REFUND_PAID, amount, None));
    }
  }

  lemma ExecuteAddsPayment(d: Desk, names: Names, s: nat, id: nat, drawer: Option<nat>, envOk: bool)
    requires Execute(d, names, s, id, drawer, envOk).Ok?
    ensures OneMorePayment(d, Execute(d, names, s, id, drawer, envOk).value, s, drawer,
                           C.Total(d.sales[s].corrections[id].items))
  {
    ExecutePosts(d.sales[s], id, TrackedLines(d.branch, names), envOk);
  }

  lemma ExecuteKeepsInv(d: Desk, names: Names, s: nat, id: nat, drawer: Option<nat>, envOk: bool)
    requires Inv(d) && Execute(d, names, s, id, drawer, envOk).Ok?
    ensures Inv(Execute(d, names, s, id, drawer, envOk).value)
  {
    var after := Execute(d, names, s, id, drawer, envOk).value;
    var sale, tracked := d.sales[s], TrackedLines(d.branch, names);
    var amount := C.Total(sale.corrections[id].items);
    R.ExecuteKeepsInv(sale, id, tracked, envOk);
    ExecuteAddsPayment(d, names, s, id, drawer, envOk);
    PaymentKeepsMatch(d, after, s, drawer, amount);
    PaymentKeepsSales(d, after, s, drawer, amount);
    PaymentKeepsDrawers(d, after, s, drawer, amount, envOk);
    K.LinesKeepInv(d.branch, Returned(sale, sale.corrections[id].items, names), 1);
  }

  // ---------- Other steps keep it ----------

  lemma OtherCommandPostsNothing(s: C.Sale, e: R.Event)
    requires !e.ExecuteEvent?
    ensures R.Step(s, e).posted == s.posted
    ensures SumBy(ExecutedTotal(), R.Step(s, e).corrections) == SumBy(ExecutedTotal(), s.corrections)
  {
    var after := R.Step(s, e);
    if e.DecideEvent? && after != s {
      SumByUpdate(ExecutedTotal(), s.corrections, e.id, after.corrections[e.id]);
    } else if after != s {
      SumByAppend(ExecutedTotal(), s.corrections, after.corrections[|s.corrections|]);
    }
  }

  lemma SamePostingsSameMatch(d: Desk, after: Desk)
    requires PaymentsMatch(d) && after.payments == d.payments && |after.sales| == |d.sales|
    requires forall t :: 0 <= t < |d.sales| ==> after.sales[t].posted == d.sales[t].posted
    ensures PaymentsMatch(after)
  {
    forall t: nat, k: nat ensures SumBy(PaysPosting(t, k), after.payments) == ExpectedPayments(after, t, k) {
      assert SumBy(PaysPosting(t, k), d.payments) == ExpectedPayments(d, t, k);
    }
    forall i | 0 <= i < |after.payments| ensures PaysPosted(after, after.payments[i]) {
      assert PaysPosted(d, d.payments[i]);
    }
  }

  lemma CorrectionKeepsInv(d: Desk, names: seq<Names>, s: nat, command: R.Event)
    requires Inv(d) && s < |d.sales| && !command.ExecuteEvent?
    ensures Inv(Step(d, names, CorrectionEvent(s, command)))
  {
    OtherCommandPostsNothing(d.sales[s], command);
    R.StepKeepsInv(d.sales[s], command);
    SamePostingsSameMatch(d, Step(d, names, CorrectionEvent(s, command)));
  }

  /** Only a refund adds to what a drawer paid back. */
  lemma MovementRefundsNothing(d: Cash.Drawer, e: Cash.Event)
    requires !e.RefundEvent?
    ensures Cash.Of(Cash.REFUND_PAID, Cash.Step(d, e).ledger) == Cash.Of(Cash.REFUND_PAID, d.ledger)
  {
    var refunds := Cash.IsKind(Cash.REFUND_PAID);
    match e
    case MoveEvent(kind, amount, _) => SumByAppend(refunds, d.ledger, Cash.Entry(kind, amount, None));
    case ReceiveEvent(payment, amount, _) =>
      SumByAppend(refunds, d.ledger, Cash.Entry(Cash.PAYMENT_RECEIVED, amount, Some(payment)));
    case CloseEvent(_, _) =>
    case ReviewEvent(_) =>
  }

  lemma MovementKeepsInv(d: Desk, names: seq<Names>, k: nat, movement: Cash.Event)
    requires Inv(d) && k < |d.drawers| && !movement.RefundEvent?
    ensures Inv(Step(d, names, DrawerEvent(k, movement)))
  {
    var after := Step(d, names, DrawerEvent(k, movement));
    MovementRefundsNothing(d.drawers[k], movement);
    SamePostingsSameMatch(d, after);
  }

  lemma StockKeepsInv(d: Desk, names: seq<Names>, change: K.Event)
    requires Inv(d)
    ensures Inv(Step(d, names, StockEvent(change)))
  {
    assert K.Run(d.branch, [change]) == K.Step(K.Run(d.branch, [change][..0]), change);
    K.StockLedger(d.branch, [change]);
    SamePostingsSameMatch(d, Step(d, names, StockEvent(change)));
  }

  lemma {:induction false} RunKeepsInv(d: Desk, names: seq<Names>, events: seq<Event>)
    requires Inv(d)
    ensures Inv(Run(d, names, events))
  {
    if events != [] {
      var before, e := Run(d, names, events[..|events| - 1]), events[|events| - 1];
      RunKeepsInv(d, names, events[..|events| - 1]);
      match e
      case ExecuteEvent(s, id, drawer, envOk) =>
        if Execute(before, NamesOf(names, s), s, id, drawer, envOk).Ok? {
          ExecuteKeepsInv(before, NamesOf(names, s), s, id, drawer, envOk);
        }
      case CorrectionEvent(s, command) =>
        if s < |before.sales| && !command.ExecuteEvent? { CorrectionKeepsInv(before, names, s, command); }
      case DrawerEvent(k, movement) =>
        if k < |before.drawers| && !movement.RefundEvent? { MovementKeepsInv(before, names, k, movement); }
      case StockEvent(change) => StockKeepsInv(before, names, change);
    }
  }

  // ---------- Main results ----------

  ghost predicate FreshDesk(d: Desk) {
    && (forall s :: 0 <= s < |d.sales| ==> R.NewSale(d.sales[s]))
    && (forall k :: 0 <= k < |d.drawers| ==> exists float :: Cash.Open(float) == Ok(d.drawers[k]))
    && K.Inv(d.branch) && d.payments == []
  }

  lemma FreshDeskInv(d: Desk)
    requires FreshDesk(d)
    ensures Inv(d)
  {
    forall s | 0 <= s < |d.sales| ensures R.Inv(d.sales[s]) { R.NewSaleInv(d.sales[s]); }
    forall k: nat | k < |d.drawers| ensures Cash.Of(Cash.REFUND_PAID, d.drawers[k].ledger) == 0 {
      var float :| Cash.Open(float) == Ok(d.drawers[k]);
      var entry := Cash.Entry(Cash.OPENING_FLOAT, float, None);
      SumByAppend(Cash.IsKind(Cash.REFUND_PAID), [], entry);
      assert [] + [entry] == [entry];
    }
  }

  /** However executions, requests, decisions, drawer movements and stock changes interleave:
      each corrective transaction is paid back exactly once, for its total; what a drawer's
      ledger refunded is exactly what was paid back from it; and a sale never pays back more
      than its lines cost. */
  lemma {:induction false} RefundCustody(d: Desk, names: seq<Names>, events: seq<Event>)
    requires FreshDesk(d)
    ensures var after := Run(d, names, events);
            && PaymentsMatch(after)
            && (forall k: nat :: k < |after.drawers| ==>
                  Cash.Of(Cash.REFUND_PAID, after.drawers[k].ledger) == SumBy(PaidFrom(k), after.payments))
            && (forall s: nat :: s < |after.sales| ==>
                  SumBy(PaidFor(s), after.payments) <= SumBy(R.PriceOn(after.sales[s].lines), after.sales[s].order))
  {
    FreshDeskInv(d);
    RunKeepsInv(d, names, events);
    var after := Run(d, names, events);
    forall s: nat | s < |after.sales|
      ensures SumBy(PaidFor(s), after.payments) <= SumBy(R.PriceOn(after.sales[s].lines), after.sales[s].order)
    {
      ExecutedWithinSale(after.sales[s]);
    }
  }

  function RestoredOf(names: Names, v: string): C.Restored -> int {
    (r: C.Restored) => if r.lineId in names && names[r.lineId] == v then r.quantity else 0
  }

  lemma {:induction false} RestorationsAreReturns(b: K.Branch, s: C.Sale, items: seq<C.Item>, names: Names, v: string)
    ensures SumBy(RestoredOf(names, v), C.Restorations(s, items, TrackedLines(b, names)))
            == if K.Tracked(b, v) then K.Wanted(Returned(s, items, names), v) else 0
  {
    if items != [] {
      var front, id := items[..|items| - 1], items[|items| - 1].lineId;
      var tracked := TrackedLines(b, names);
      RestorationsAreReturns(b, s, front, names, v);
      SumByAppend(K.QuantityOf(v), Returned(s, front, names), ReturnedLine(s, id, names));
      if id in s.lines {
        SumByAppend(RestoredOf(names, v), C.Restorations(s, front, tracked), C.Restored(id, s.lines[id].quantity));
      }
      assert C.Restorations(s, front, tracked) + [] == C.Restorations(s, front, tracked);
    }
  }

  /** Executing a correction raises each variant's stock by exactly what it records as restored
      of that variant, and nothing else. */
  lemma ExecutionReturnsStock(d: Desk, names: Names, s: nat, id: nat, drawer: Option<nat>, envOk: bool, v: string)
    requires Execute(d, names, s, id, drawer, envOk).Ok?
    ensures var after := Execute(d, names, s, id, drawer, envOk).value;
            K.OnHand(after.branch, v) - K.OnHand(d.branch, v)
            == SumBy(RestoredOf(names, v), after.sales[s].restored) - SumBy(RestoredOf(names, v), d.sales[s].restored)
  {
    var sale, items := d.sales[s], d.sales[s].corrections[id].items;
    K.LinesEffect(d.branch, Returned(sale, items, names), 1, v);
    RestorationsAreReturns(d.branch, sale, items, names, v);
    SumBySplit(RestoredOf(names, v), sale.restored, C.Restorations(sale, items, TrackedLines(d.branch, names)));
  }

  /** An execution pays what the correction asks from the drawer that was named, and from no
      other, and leaves every other sale as it was. */
  lemma PaidBackAsAsked(d: Desk, names: Names, s: nat, id: nat, drawer: Option<nat>, envOk: bool)
    requires Execute(d, names, s, id, drawer, envOk).Ok?
    ensures var after := Execute(d, names, s, id, drawer, envOk).value;
            var amount := SumBy((item: C.Item) => item.amount, d.sales[s].corrections[id].items);
            && (drawer.Some? ==> drawer.value < |d.drawers| && d.drawers[drawer.value].status == Cash.OPEN)
            && |after.drawers| == |d.drawers|
            && (forall k: nat :: k < |d.drawers| ==>
                  after.drawers[k].ledger
                  == d.drawers[k].ledger
                     + if drawer == Some(k) then [Cash.Entry(Cash.REFUND_PAID, amount, None)] else [])
            && after.payments == d.payments + [Payment(s, |d.sales[s].posted|, drawer, amount)]
            && |after.sales| == |d.sales|
            && forall t :: 0 <= t < |d.sales| && t != s ==> after.sales[t] == d.sales[t]
  {
    SumByCongruent(C.ItemAmount(), (item: C.Item) => item.amount, d.sales[s].corrections[id].items);
    assert forall k :: 0 <= k < |d.drawers| ==> d.drawers[k].ledger + [] == d.drawers[k].ledger;
  }
}
