/** One checkout, its payments and its posted transaction: what each locked command does to
    the stored rows (payments.service.ts, payment-verifications.service.ts,
    payment-disputes.service.ts, checkout-settlement.service.ts,
    transaction-posting.service.ts) and what the two stale commands commit
    (checkouts.service.ts). */
module Settlement {
  import opened Money

  datatype CheckoutStatus = OPEN | AWAITING_VERIFICATION | DISPUTED | SETTLED | VOIDED
  datatype PaymentStatus = RECORDED | CONFIRMED | DISPUTED | VOIDED
  datatype DisputeStatus = OPEN | RESOLVED_CONFIRMED | RESOLVED_REJECTED
  datatype Outcome = Disputed | AwaitingVerification | Open | ReadyToSettle

  datatype Checkout = Checkout(
    status: CheckoutStatus, subtotal: int, adjustment: int, total: int, version: int, hasOperator: bool)
  datatype Payment = Payment(amount: int, status: PaymentStatus, version: int)
  datatype Allocation = Allocation(payment: nat, amount: int)
  datatype Transaction = Transaction(subtotal: int, adjustment: int, total: int, allocations: seq<Allocation>)

  /** The rows of one checkout. A dispute is keyed by its payment (unique index). */
  datatype Rows = Rows(
    checkout: Checkout, payments: seq<Payment>, disputes: map<nat, DisputeStatus>, transactions: seq<Transaction>)

  // ---------- Deriving the status ----------

  function ActiveWeight(): Payment -> int {
    (p: Payment) => if p.status.VOIDED? then 0 else p.amount
  }

  function ConfirmedWeight(): Payment -> int {
    (p: Payment) => if p.status.CONFIRMED? then p.amount else 0
  }

  function ActiveTotal(payments: seq<Payment>): int {
    SumBy(ActiveWeight(), payments)
  }

  function ConfirmedTotal(payments: seq<Payment>): int {
    SumBy(ConfirmedWeight(), payments)
  }

  predicate Some(payments: seq<Payment>, status: PaymentStatus) {
    exists i :: 0 <= i < |payments| && payments[i].status == status
  }

  /** Dispute first, then pending confirmation, then the confirmed balance. */
  function DeriveCheckoutSettlement(payments: seq<Payment>, hasUnresolvedDispute: bool, total: int): Outcome {
    if hasUnresolvedDispute then Disputed
    else if Some(payments, PaymentStatus.RECORDED) then AwaitingVerification
    else if ConfirmedTotal(payments) < total then Open
    else ReadyToSettle
  }

  function Derived(payments: seq<Payment>, total: int): Outcome {
    DeriveCheckoutSettlement(payments, Some(payments, PaymentStatus.DISPUTED), total)
  }

  function StatusOf(o: Outcome): CheckoutStatus
    requires !o.ReadyToSettle?
  {
    match o
    case Disputed => CheckoutStatus.DISPUTED
    case AwaitingVerification => AWAITING_VERIFICATION
    case Open => CheckoutStatus.OPEN
  }

  predicate Terminal(s: CheckoutStatus) {
    s.SETTLED? || s.VOIDED?
  }

  // ---------- The locked commands ----------

  function Allocations(payments: seq<Payment>): seq<Allocation> {
    if payments == [] then []
    else
      var last := payments[|payments| - 1];
      Allocations(payments[..|payments| - 1])
      + if last.status.CONFIRMED? then [Allocation(|payments| - 1, last.amount)] else []
  }

  /** One transaction for the checkout's totals, then SETTLED under the version check. The
      checkout is the locked row, so only its absence of an operator, a balance that does
      not match, an existing transaction or the rest of the posting can refuse. */
  function PostForCheckout(r: Rows, postingOk: bool): Result<Rows> {
    var c := r.checkout;
    if ConfirmedTotal(r.payments) != c.total || !c.hasOperator || r.transactions != [] || !postingOk then Err
    else Ok(r.(
      checkout := c.(status := SETTLED, version := c.version + 1),
      transactions := [Transaction(c.subtotal, c.adjustment, c.total, Allocations(r.payments))]))
  }

  function Recalculate(r: Rows, postingOk: bool): Result<Rows> {
    var c := r.checkout;
    if Terminal(c.status) then Ok(r)
    else
      var outcome := Derived(r.payments, c.total);
      if outcome.ReadyToSettle? then PostForCheckout(r, postingOk)
      else if StatusOf(outcome) == c.status then Ok(r)
      else Ok(r.(checkout := c.(status := StatusOf(outcome), version := c.version + 1)))
  }

  function Record(r: Rows, amount: int, envOk: bool): Result<Rows> {
    if !IsSafeMoneyAmount(amount, 1) || Terminal(r.checkout.status)
       || ActiveTotal(r.payments) > POSTGRES_INT_MAX
       || ActiveTotal(r.payments) + amount > r.checkout.total
       || !r.checkout.hasOperator || !envOk
    then Err
    else Recalculate(r.(payments := r.payments + [Payment(amount, RECORDED, 1)]), envOk)
  }

  function SetPayment(r: Rows, i: nat, status: PaymentStatus): Rows
    requires i < |r.payments|
  {
    r.(payments := r.payments[i := r.payments[i].(status := status, version := r.payments[i].version + 1)])
  }

  predicate Has(r: Rows, i: nat, status: PaymentStatus) {
    i < |r.payments| && r.payments[i].status == status
  }

  function Confirm(r: Rows, i: nat, envOk: bool): Result<Rows> {
    if !Has(r, i, RECORDED) then Err
    else Recalculate(SetPayment(r, i, CONFIRMED), envOk)
  }

  function Dispute(r: Rows, i: nat, envOk: bool): Result<Rows> {
    if !Has(r, i, RECORDED) || i in r.disputes then Err
    else Recalculate(SetPayment(r, i, PaymentStatus.DISPUTED).(disputes := r.disputes[i := DisputeStatus.OPEN]), envOk)
  }

  function VoidPayment(r: Rows, i: nat, envOk: bool): Result<Rows> {
    if !Has(r, i, RECORDED) then Err
    else Recalculate(SetPayment(r, i, PaymentStatus.VOIDED), envOk)
  }

  function Resolve(r: Rows, i: nat, confirming: bool, envOk: bool): Result<Rows> {
    if i !in r.disputes || r.disputes[i] != DisputeStatus.OPEN || !Has(r, i, PaymentStatus.DISPUTED) then Err
    else
      var paid := SetPayment(r, i, if confirming then CONFIRMED else PaymentStatus.VOIDED);
      Recalculate(paid.(disputes := r.disputes[i := if confirming then RESOLVED_CONFIRMED else RESOLVED_REJECTED]),
        envOk)
  }

  // ---------- The stale commands ----------

  /** Commits what was computed from `seen`, if the stored version is still that one. */
  function CommitAdjustment(r: Rows, seen: Checkout, delta: int): Result<Rows> {
    var adjustment := seen.adjustment + delta;
    var total := seen.subtotal + adjustment;
    if delta == 0 || !(-MAX_MINOR_AMOUNT <= delta <= MAX_MINOR_AMOUNT) || !(0 <= total <= POSTGRES_INT_MAX)
       || r.checkout.version != seen.version
    then Err
    else Ok(r.(checkout := r.checkout.(adjustment := adjustment, total := total, version := r.checkout.version + 1)))
  }

  function CommitVoid(r: Rows, seen: Checkout): Result<Rows> {
    if r.checkout.version != seen.version then Err
    else Ok(r.(checkout := r.checkout.(status := CheckoutStatus.VOIDED, version := r.checkout.version + 1)))
  }

  // ---------- The store ----------

  function ActiveAmounts(payments: seq<Payment>): seq<int> {
    if payments == [] then []
    else (if payments[0].status.VOIDED? then [] else [payments[0].amount]) + ActiveAmounts(payments[1..])
  }

  lemma {:induction false} ActiveAmountsSum(payments: seq<Payment>)
    requires forall i :: 0 <= i < |payments| ==> payments[i].amount >= 0
    ensures Sum(ActiveAmounts(payments)) == ActiveTotal(payments)
    ensures forall i :: 0 <= i < |ActiveAmounts(payments)| ==> ActiveAmounts(payments)[i] >= 0
  {
    if payments != [] {
      ActiveAmountsSum(payments[1..]);
      SumSplit(if payments[0].status.VOIDED? then [] else [payments[0].amount], ActiveAmounts(payments[1..]));
    }
  }

  class CheckoutStore {
    var status: CheckoutStatus
    const subtotal: int
    var adjustment: int
    var total: int
    var version: int
    const hasOperator: bool
    var payments: seq<Payment>
    var disputes: map<nat, DisputeStatus>
    var transactions: seq<Transaction>

    ghost function State(): Rows
      reads this
    {
      Rows(Checkout(status, subtotal, adjustment, total, version, hasOperator), payments, disputes, transactions)
    }

    /** A new checkout is OPEN, unadjusted and unpaid. */
    constructor (subtotal: int, hasOperator: bool)
      ensures State() == Rows(Checkout(CheckoutStatus.OPEN, subtotal, 0, subtotal, 1, hasOperator), [], map[], [])
    {
      this.status, this.subtotal, this.adjustment, this.total := CheckoutStatus.OPEN, subtotal, 0, subtotal;
      this.version, this.hasOperator := 1, hasOperator;
      this.payments, this.disputes, this.transactions := [], map[], [];
    }

    method ConfirmedSum() returns (sum: int)
      ensures sum == ConfirmedTotal(payments)
    {
      sum := 0;
      for i := 0 to |payments|
        invariant sum == ConfirmedTotal(payments[..i])
      {
        assert payments[..i + 1] == payments[..i] + [payments[i]];
        SumByAppend(ConfirmedWeight(), payments[..i], payments[i]);
        if payments[i].status.CONFIRMED? {
          sum := sum + payments[i].amount;
        }
      }
      assert payments[..|payments|] == payments;
    }

    method Allocate() returns (allocations: seq<Allocation>)
      ensures allocations == Allocations(payments)
    {
      allocations := [];
      for i := 0 to |payments|
        invariant allocations == Allocations(payments[..i])
      {
        assert payments[..i + 1][..i] == payments[..i];
        if payments[i].status.CONFIRMED? {
          allocations := allocations + [Allocation(i, payments[i].amount)];
        }
      }
      assert payments[..|payments|] == payments;
    }

    /** False rolls the whole database transaction back. */
    method PostTransaction(postingOk: bool) returns (ok: bool)
      modifies this
      ensures ok == PostForCheckout(old(State()), postingOk).Ok?
      ensures State() == if ok then PostForCheckout(old(State()), postingOk).value else old(State())
    {
      var confirmed := ConfirmedSum();
      if confirmed != total || !hasOperator || transactions != [] || !postingOk {
        return false;
      }
      var allocations := Allocate();
      transactions := [Transaction(subtotal, adjustment, total, allocations)];
      status := SETTLED;
      version := version + 1;
      return true;
    }

    method RecalculateStatus(postingOk: bool) returns (ok: bool)
      modifies this
      ensures ok == Recalculate(old(State()), postingOk).Ok?
      ensures State() == if ok then Recalculate(old(State()), postingOk).value else old(State())
    {
      if status.SETTLED? || status.VOIDED? {
        return true;
      }
      var newStatus;
      if Some(payments, PaymentStatus.DISPUTED) {
        newStatus := CheckoutStatus.DISPUTED;
      } else if Some(payments, PaymentStatus.RECORDED) {
        newStatus := AWAITING_VERIFICATION;
      } else {
        var confirmed := ConfirmedSum();
        if confirmed >= total {
          ok := PostTransaction(postingOk);
          return;
        }
        newStatus := CheckoutStatus.OPEN;
      }
      if newStatus != status {
        status := newStatus;
        version := version + 1;
      }
      return true;
    }

    /** The balance check, the insert and the recalculation of one locked transaction. */
    method RecordPayment(amount: int, envOk: bool) returns (ok: bool)
      requires forall i :: 0 <= i < |payments| ==> payments[i].amount >= 0
      modifies this
      ensures ok == Record(old(State()), amount, envOk).Ok?
      ensures State() == if ok then Record(old(State()), amount, envOk).value else old(State())
    {
      if !IsSafeMoneyAmount(amount, 1) || status.SETTLED? || status.VOIDED? {
        return false;
      }
      ActiveAmountsSum(payments);
      var activeTotal := SumMinorAmounts(ActiveAmounts(payments));
      if activeTotal.Err? || activeTotal.value + amount > total || !hasOperator || !envOk {
        return false;
      }
      ghost var inserted := Rows(State().checkout, payments + [Payment(amount, RECORDED, 1)], disputes, transactions);
      var before := payments;
      payments := payments + [Payment(amount, RECORDED, 1)];
      assert State() == inserted;
      ok := RecalculateStatus(envOk);
      if !ok {
        payments := before;
      }
    }

    /** Confirm, dispute or void a payment that still awaits confirmation. */
    method TransitionRecorded(i: nat, to: PaymentStatus, envOk: bool) returns (ok: bool)
      requires !to.RECORDED?
      modifies this
      ensures var spec := if to.CONFIRMED? then Confirm(old(State()), i, envOk)
                          else if to.DISPUTED? then Dispute(old(State()), i, envOk)
                          else VoidPayment(old(State()), i, envOk);
              ok == spec.Ok? && State() == if ok then spec.value else old(State())
    {
      if i >= |payments| || !payments[i].status.RECORDED? || (to.DISPUTED? && i in disputes) {
        return false;
      }
      var payment, earlier := payments[i], disputes;
      payments := payments[i := payment.(status := to, version := payment.version + 1)];
      if to.DISPUTED? {
        disputes := disputes[i := DisputeStatus.OPEN];
      }
      ok := RecalculateStatus(envOk);
      if !ok {
        payments := payments[i := payment];
        disputes := earlier;
      }
    }

    method ResolveDispute(i: nat, confirming: bool, envOk: bool) returns (ok: bool)
      modifies this
      ensures var spec := Resolve(old(State()), i, confirming, envOk);
              ok == spec.Ok? && State() == if ok then spec.value else old(State())
    {
      if i !in disputes || disputes[i] != DisputeStatus.OPEN || i >= |payments| || !payments[i].status.DISPUTED? {
        return false;
      }
      var payment, earlier := payments[i], disputes;
      var to := if confirming then PaymentStatus.CONFIRMED else PaymentStatus.VOIDED;
      payments := payments[i := payment.(status := to, version := payment.version + 1)];
      disputes := disputes[i := if confirming then RESOLVED_CONFIRMED else RESOLVED_REJECTED];
      ok := RecalculateStatus(envOk);
      if !ok {
        payments := payments[i := payment];
        disputes := earlier;
      }
    }

    method AddAdjustment(seen: Checkout, delta: int) returns (ok: bool)
      requires seen.subtotal == subtotal
      modifies this
      ensures var spec := CommitAdjustment(old(State()), seen, delta);
              ok == spec.Ok? && State() == if ok then spec.value else old(State())
    {
      var newAdjustment := seen.adjustment + delta;
      var newTotal := seen.subtotal + newAdjustment;
      if delta == 0 || delta < -MAX_MINOR_AMOUNT || delta > MAX_MINOR_AMOUNT || newTotal < 0
        || newTotal > POSTGRES_INT_MAX {
        return false;
      }
      if version != seen.version {
        return false;
      }
      adjustment, total, version := newAdjustment, newTotal, version + 1;
      return true;
    }

    method VoidCheckout(seen: Checkout) returns (ok: bool)
      modifies this
      ensures var spec := CommitVoid(old(State()), seen);
              ok == spec.Ok? && State() == if ok then spec.value else old(State())
    {
      if version != seen.version {
        return false;
      }
      status, version := CheckoutStatus.VOIDED, version + 1;
      return true;
    }
  }
}
