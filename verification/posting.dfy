/** What the last confirmation of a checkout needs: posting moves stock, accrues commission
    and issues the receipt inside the transaction that settles
    (transaction-posting.service.ts). */
module Posting {
  import opened Apportionment
  import opened Commission
  import opened Money
  import opened Options
  import A = Accruals
  import K = Stock
  import R = SettlementRuns
  import S = Settlement
  import T = Receipts

  /** A line of the posted transaction; a PRODUCT line names its variant. */
  datatype SoldLine = SoldLine(
    id: string, isService: bool, price: int, displayOrder: int, variant: Option<string>, quantity: int)

  datatype Books = Books(branch: K.Branch, earned: map<string, Accrual>, office: T.Office)

  function Services(lines: seq<SoldLine>): seq<A.SaleLine> {
    if lines == [] then []
    else
      (if lines[0].isService then [A.SaleLine(lines[0].id, true, lines[0].price, lines[0].displayOrder)] else [])
      + Services(lines[1..])
  }

  function StockLines(lines: seq<SoldLine>): seq<K.Line> {
    seq(|lines|, i requires 0 <= i < |lines| =>
      K.Line(if lines[i].isService then None else lines[i].variant, lines[i].quantity))
  }

  /** A sale about to be posted: its lines, the policies matched and the nets allocated. */
  ghost predicate ValidPosting(b: Books, lines: seq<SoldLine>, adjustment: int, policies: map<string, A.Policy>,
      net: map<string, int>, receipt: T.Request)
  {
    && K.Inv(b.branch) && T.Inv(b.office) && receipt.series.branch < |b.office.codes|
    && (forall i :: 0 <= i < |lines| ==> lines[i].quantity > 0)
    && A.ValidSale(Services(lines)) && A.PoliciesCover(policies, Services(lines))
    && IsApportionment(A.AllocationLines(Services(lines)), adjustment, net)
    && (forall l :: l in Services(lines) ==> l.id in net)
    && (forall l :: l in Services(lines) ==> l.id !in b.earned)
  }

  /** Stock moves, then commission accrues, then the receipt is issued. */
  ghost predicate Posts(b: Books, lines: seq<SoldLine>, adjustment: int, policies: map<string, A.Policy>,
      net: map<string, int>, receipt: T.Request)
    requires ValidPosting(b, lines, adjustment, policies, net, receipt)
  {
    && K.ApplyLines(b.branch, StockLines(lines), -1).Ok?
    && A.Accruable(b.earned, Services(lines), policies, net)
    && T.Issue(b.office, receipt).receipt.Some?
  }

  /** Every product is active and held in full, and no net-basis service line nets below zero. */
  ghost predicate Deliverable(b: Books, lines: seq<SoldLine>, policies: map<string, A.Policy>, net: map<string, int>)
    requires A.PoliciesCover(policies, Services(lines)) && forall l :: l in Services(lines) ==> l.id in net
  {
    && K.AllActive(b.branch, StockLines(lines)) && K.Covered(b.branch, StockLines(lines))
    && forall l :: l in Services(lines) && policies[l.id].basis.NET_LINE_AFTER_ADJUSTMENTS? ==> net[l.id] >= 0
  }

  lemma PostsIff(b: Books, lines: seq<SoldLine>, adjustment: int, policies: map<string, A.Policy>,
      net: map<string, int>, receipt: T.Request)
    requires ValidPosting(b, lines, adjustment, policies, net, receipt)
    ensures Posts(b, lines, adjustment, policies, net, receipt) <==> Deliverable(b, lines, policies, net)
  {
    K.SalePostsIff(b.branch, StockLines(lines));
    A.AccruesIff(b.earned, Services(lines), policies, net);
    T.FirstAttemptSucceeds(b.office, receipt);
  }

  /** The confirmation that completes the balance: payment i is the only one outstanding. */
  ghost predicate Completes(r: S.Rows, i: nat) {
    && R.RowsInv(r) && !S.Terminal(r.checkout.status) && S.Has(r, i, S.RECORDED)
    && S.Derived(S.SetPayment(r, i, S.CONFIRMED).payments, r.checkout.total).ReadyToSettle?
  }

  lemma ReadyIsBalanced(r: S.Rows, i: nat)
    requires Completes(r, i)
    ensures S.ConfirmedTotal(S.SetPayment(r, i, S.CONFIRMED).payments) == r.checkout.total
    ensures r.transactions == []
  {
    R.SetPaymentTotals(r, i, S.CONFIRMED);
    R.NonePending(S.SetPayment(r, i, S.CONFIRMED).payments);
  }

  /** The last confirmation settles exactly when the checkout has an operator, its products
      are there and its net-basis services carry the discount; otherwise it is refused and
      the payment stays unconfirmed. Commission rules and stock can each block it; receipt
      numbering never does. */
  lemma LastConfirmationSettlesIff(r: S.Rows, i: nat, b: Books, lines: seq<SoldLine>, policies: map<string, A.Policy>,
      net: map<string, int>, receipt: T.Request)
    requires Completes(r, i) && ValidPosting(b, lines, r.checkout.adjustment, policies, net, receipt)
    ensures var posts := Posts(b, lines, r.checkout.adjustment, policies, net, receipt);
            && (S.Confirm(r, i, posts).Ok? <==> r.checkout.hasOperator && Deliverable(b, lines, policies, net))
            && (S.Confirm(r, i, posts).Ok? ==> S.Confirm(r, i, posts).value.checkout.status == S.SETTLED)
  {
    PostsIff(b, lines, r.checkout.adjustment, policies, net, receipt);
    ReadyIsBalanced(r, i);
  }

  /** A checkout whose discount is beyond the gross of its services, all on the net basis, is
      paid in full and still never settles. */
  lemma {:induction false} BeyondServicesNeverSettles(r: S.Rows, i: nat, b: Books, lines: seq<SoldLine>,
      policies: map<string, A.Policy>, net: map<string, int>, receipt: T.Request)
    requires Completes(r, i) && ValidPosting(b, lines, r.checkout.adjustment, policies, net, receipt)
    requires forall l :: l in Services(lines) ==> policies[l.id].basis.NET_LINE_AFTER_ADJUSTMENTS?
    requires var gross := TotalGross(A.AllocationLines(Services(lines))); gross > 0 && gross + r.checkout.adjustment < 0
    ensures S.Confirm(r, i, Posts(b, lines, r.checkout.adjustment, policies, net, receipt)).Err?
  {
    A.NetBasisSaleAccruesIff(Services(lines), r.checkout.adjustment, policies, net);
    A.AccruesIff(map[], Services(lines), policies, net);
    LastConfirmationSettlesIff(r, i, b, lines, policies, net, receipt);
  }

  /** Only SERVICE lines earn commission, each at its own price and place. */
  lemma {:induction false} ServicesAreServiceLines(lines: seq<SoldLine>, s: A.SaleLine)
    ensures s in Services(lines) <==>
      s.isService && exists l :: l in lines && l.isService && l.id == s.id && l.price == s.price
                                 && l.displayOrder == s.displayOrder
  {
    if lines != [] {
      ServicesAreServiceLines(lines[1..], s);
      assert forall l :: l in lines <==> l == lines[0] || l in lines[1..];
    }
  }

  function SoldOf(v: string): SoldLine -> int {
    (l: SoldLine) => if !l.isService && l.variant == Some(v) then l.quantity else 0
  }

  lemma {:induction false} StockLinesWant(lines: seq<SoldLine>, v: string)
    ensures K.Wanted(StockLines(lines), v) == SumBy(SoldOf(v), lines)
  {
    if lines != [] {
      StockLinesWant(lines[1..], v);
      assert StockLines(lines)[1..] == StockLines(lines[1..]);
    }
  }

  /** A posting takes off the shelf exactly the products it sold of each tracked variant. */
  lemma {:induction false} PostingTakesStock(b: Books, lines: seq<SoldLine>, adjustment: int,
      policies: map<string, A.Policy>, net: map<string, int>, receipt: T.Request, v: string)
    requires ValidPosting(b, lines, adjustment, policies, net, receipt)
    requires Posts(b, lines, adjustment, policies, net, receipt)
    ensures K.OnHand(K.ApplyLines(b.branch, StockLines(lines), -1).value, v)
            == K.OnHand(b.branch, v) - if K.Tracked(b.branch, v) then SumBy(SoldOf(v), lines) else 0
  {
    K.LinesEffect(b.branch, StockLines(lines), -1, v);
    StockLinesWant(lines, v);
  }
}
