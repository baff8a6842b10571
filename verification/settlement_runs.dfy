/** Every interleaving of the settlement commands: locked commands are one step each, an
    adjustment or a void of the checkout reads first and commits later. */
module SettlementRuns {
  import opened Money
  import opened Settlement

  /** Where a request that works from a stale read has got to. */
  datatype Local =
    | AdjustRead(seen: Checkout)
    | AdjustCounted(seen: Checkout)
    | VoidRead(seen: Checkout)

  datatype System = System(rows: Rows, requests: map<nat, Local>)

  datatype Event =
    | RecordEvent(amount: int, envOk: bool)
    | ConfirmEvent(i: nat, envOk: bool)
    | DisputeEvent(i: nat, envOk: bool)
    | VoidPaymentEvent(i: nat, envOk: bool)
    | ResolveEvent(i: nat, confirming: bool, envOk: bool)
    | AdjustReadEvent(t: nat)
    | AdjustCountEvent(t: nat)
    | AdjustCommitEvent(t: nat, delta: int)
    | VoidReadEvent(t: nat)
    | VoidCommitEvent(t: nat)

  function Command(r: Rows, e: Event): Result<Rows>
    requires e.RecordEvent? || e.ConfirmEvent? || e.DisputeEvent? || e.VoidPaymentEvent? || e.ResolveEvent?
  {
    match e
    case RecordEvent(amount, envOk) => Record(r, amount, envOk)
    case ConfirmEvent(i, envOk) => Confirm(r, i, envOk)
    case DisputeEvent(i, envOk) => Dispute(r, i, envOk)
    case VoidPaymentEvent(i, envOk) => VoidPayment(r, i, envOk)
    case ResolveEvent(i, confirming, envOk) => Resolve(r, i, confirming, envOk)
  }

  function OrElse(result: Result<Rows>, r: Rows): Rows {
    if result.Ok? then result.value else r
  }

  /** The rows after an event; a refused command leaves them alone. */
  function StepRows(s: System, e: Event): Rows {
    match e
    case AdjustReadEvent(_) | AdjustCountEvent(_) | VoidReadEvent(_) => s.rows
    case AdjustCommitEvent(t, delta) =>
      if t in s.requests && s.requests[t].AdjustCounted?
      then OrElse(CommitAdjustment(s.rows, s.requests[t].seen, delta), s.rows) else s.rows
    case VoidCommitEvent(t) =>
      if t in s.requests && s.requests[t].VoidRead?
      then OrElse(CommitVoid(s.rows, s.requests[t].seen), s.rows) else s.rows
    case _ => OrElse(Command(s.rows, e), s.rows)
  }

  function StepRequests(s: System, e: Event): map<nat, Local> {
    match e
    case AdjustReadEvent(t) =>
      if s.rows.checkout.status == CheckoutStatus.OPEN then s.requests[t := AdjustRead(s.rows.checkout)]
        else s.requests - {t}
    case AdjustCountEvent(t) =>
      if t in s.requests && s.requests[t].AdjustRead? && |s.rows.payments| == 0
      then s.requests[t := AdjustCounted(s.requests[t].seen)] else s.requests - {t}
    case VoidReadEvent(t) =>
      if Terminal(s.rows.checkout.status) then s.requests - {t} else s.requests[t := VoidRead(s.rows.checkout)]
    case AdjustCommitEvent(t, _) => s.requests - {t}
    case VoidCommitEvent(t) => s.requests - {t}
    case _ => s.requests
  }

  function Step(s: System, e: Event): System {
    System(StepRows(s, e), StepRequests(s, e))
  }

  function Run(s: System, events: seq<Event>): System {
    if events == [] then s else Step(Run(s, events[..|events| - 1]), events[|events| - 1])
  }

  // ---------- The invariant ----------

  ghost predicate BalanceInv(r: Rows) {
    && r.checkout.total == r.checkout.subtotal + r.checkout.adjustment
    && 0 <= r.checkout.total <= POSTGRES_INT_MAX
    && (forall i :: 0 <= i < |r.payments| ==> r.payments[i].amount >= 1)
    && ActiveTotal(r.payments) <= r.checkout.total
    && (r.payments != [] ==> r.checkout.total > 0)
  }

  ghost predicate StatusInv(r: Rows) {
    !Terminal(r.checkout.status) ==>
      && r.transactions == []
      && if r.checkout.total > 0
         then !Derived(r.payments, r.checkout.total).ReadyToSettle?
           && r.checkout.status == StatusOf(Derived(r.payments, r.checkout.total))
         else r.checkout.status == CheckoutStatus.OPEN
  }

  ghost predicate AllActiveConfirmed(payments: seq<Payment>) {
    forall i :: 0 <= i < |payments| ==> payments[i].status == CONFIRMED || payments[i].status == PaymentStatus.VOIDED
  }

  /** What being settled means. */
  ghost predicate Settled(r: Rows) {
    && r.payments != []
    && AllActiveConfirmed(r.payments)
    && ActiveTotal(r.payments) == ConfirmedTotal(r.payments) == r.checkout.total
    && r.transactions
       == [Transaction(r.checkout.subtotal, r.checkout.adjustment, r.checkout.total, Allocations(r.payments))]
  }

  ghost predicate TerminalInv(r: Rows) {
    && (r.checkout.status == SETTLED ==> Settled(r))
    && (r.checkout.status == CheckoutStatus.VOIDED ==> r.transactions == [])
  }

  /** A payment is disputed exactly while its dispute is open; an unconfirmed one has none. */
  ghost predicate DisputeInv(r: Rows) {
    && (forall i :: i in r.disputes ==> i < |r.payments| && r.payments[i].status != RECORDED)
    && (forall i :: 0 <= i < |r.payments| ==>
      (r.payments[i].status == PaymentStatus.DISPUTED <==> i in r.disputes && r.disputes[i] == DisputeStatus.OPEN))
  }

  ghost predicate RowsInv(r: Rows) {
    BalanceInv(r) && StatusInv(r) && TerminalInv(r) && DisputeInv(r)
  }

  /** A read that is still current is still exactly the stored checkout, and a count of zero
      payments taken under it still holds. */
  ghost predicate RequestInv(r: Rows, l: Local) {
    && l.seen.version <= r.checkout.version
    && l.seen.subtotal == r.checkout.subtotal
    && (l.VoidRead? || l.seen.status == CheckoutStatus.OPEN)
    && (l.VoidRead? ==> !Terminal(l.seen.status))
    && (l.seen.version == r.checkout.version ==> l.seen == r.checkout && (l.AdjustCounted? ==> r.payments == []))
  }

  ghost predicate Inv(s: System) {
    RowsInv(s.rows) && forall t :: t in s.requests ==> RequestInv(s.rows, s.requests[t])
  }

  function NewCheckout(subtotal: int, hasOperator: bool): System {
    System(Rows(Checkout(CheckoutStatus.OPEN, subtotal, 0, subtotal, 1, hasOperator), [], map[], []), map[])
  }

  lemma NewCheckoutInv(subtotal: int, hasOperator: bool)
    requires 0 < subtotal <= POSTGRES_INT_MAX
    ensures Inv(NewCheckout(subtotal, hasOperator))
  {
  }

  // ---------- Locked commands ----------

  /** Everything but the agreement of status and payments, which recalculation restores. */
  ghost predicate Touched(r: Rows) {
    && BalanceInv(r) && DisputeInv(r) && r.payments != []
    && (!Terminal(r.checkout.status) ==> r.transactions == [])
    && r.checkout.status != SETTLED
    && (r.checkout.status == CheckoutStatus.VOIDED ==> r.transactions == [])
  }

  lemma {:induction false} NonePending(payments: seq<Payment>)
    requires !Some(payments, PaymentStatus.DISPUTED) && !Some(payments, RECORDED)
    ensures AllActiveConfirmed(payments)
    ensures ActiveTotal(payments) == ConfirmedTotal(payments)
  {
    if payments != [] {
      assert payments[0].status != PaymentStatus.DISPUTED && payments[0].status != RECORDED;
      forall i | 0 <= i < |payments[1..]| ensures payments[1..][i].status == payments[i + 1].status { }
      NonePending(payments[1..]);
    }
  }

  /** The invariant again, the frozen totals, and a version that moves whenever the
      checkout row does. */
  ghost predicate KeepsRows(r: Rows, after: Rows) {
    && RowsInv(after)
    && after.checkout.total == r.checkout.total
    && after.checkout.subtotal == r.checkout.subtotal
    && after.checkout.version >= r.checkout.version
    && (after.checkout.version == r.checkout.version || Terminal(r.checkout.status) ==>
      after.checkout == r.checkout && after.transactions == r.transactions)
  }

  lemma RecalculateRestores(r: Rows, postingOk: bool)
    requires Touched(r) && Recalculate(r, postingOk).Ok?
    ensures KeepsRows(r, Recalculate(r, postingOk).value)
    ensures Recalculate(r, postingOk).value.payments == r.payments
  {
    var outcome := Derived(r.payments, r.checkout.total);
    if !Terminal(r.checkout.status) && outcome.ReadyToSettle? {
      NonePending(r.payments);
    }
  }

  lemma RecordTouched(r: Rows, amount: int, envOk: bool)
    requires RowsInv(r) && Record(r, amount, envOk).Ok?
    ensures Touched(r.(payments := r.payments + [Payment(amount, RECORDED, 1)]))
  {
    SumByAppend(ActiveWeight(), r.payments, Payment(amount, RECORDED, 1));
    SumByNonNegative(ActiveWeight(), r.payments);
  }

  lemma SetPaymentTotals(r: Rows, i: nat, status: PaymentStatus)
    requires BalanceInv(r) && i < |r.payments| && !r.payments[i].status.VOIDED?
    ensures BalanceInv(SetPayment(r, i, status))
  {
    SumByUpdate(ActiveWeight(), r.payments, i, r.payments[i].(status := status, version := r.payments[i].version + 1));
  }

  /** A settled checkout has nothing left to confirm, dispute, void, resolve or pay. */
  lemma SettledRefuses(s: System, e: Event)
    requires RowsInv(s.rows) && s.rows.checkout.status == SETTLED
    requires e.RecordEvent? || e.ConfirmEvent? || e.DisputeEvent? || e.VoidPaymentEvent? || e.ResolveEvent?
    ensures Command(s.rows, e).Err?
  {
  }

  lemma RecordKeeps(r: Rows, amount: int, envOk: bool)
    requires RowsInv(r) && Record(r, amount, envOk).Ok?
    ensures KeepsRows(r, Record(r, amount, envOk).value)
    ensures r.checkout.status == CheckoutStatus.OPEN ==>
      Record(r, amount, envOk).value.checkout.version > r.checkout.version
  {
    RecordTouched(r, amount, envOk);
    var touched := r.(payments := r.payments + [Payment(amount, RECORDED, 1)]);
    RecalculateRestores(touched, envOk);
    assert touched.payments[|r.payments|].status == RECORDED;
    assert Some(touched.payments, RECORDED);
  }

  lemma TouchedKeeps(r: Rows, i: nat, to: PaymentStatus, disputes: map<nat, DisputeStatus>, envOk: bool)
    requires RowsInv(r) && i < |r.payments| && !r.payments[i].status.VOIDED?
    requires !r.payments[i].status.CONFIRMED? && !to.RECORDED?
    requires disputes - {i} == r.disputes - {i}
    requires to.DISPUTED? <==> i in disputes && disputes[i] == DisputeStatus.OPEN
    requires Recalculate(SetPayment(r, i, to).(disputes := disputes), envOk).Ok?
    ensures KeepsRows(r, Recalculate(SetPayment(r, i, to).(disputes := disputes), envOk).value)
    ensures Recalculate(SetPayment(r, i, to).(disputes := disputes), envOk).value.payments != []
  {
    var touched := SetPayment(r, i, to).(disputes := disputes);
    SetPaymentTotals(r, i, to);
    forall j | j in disputes ensures j < |touched.payments| && touched.payments[j].status != RECORDED {
      assert j != i ==> j in disputes - {i} && j in r.disputes - {i};
    }
    forall j: nat | j != i
      ensures j in disputes <==> j in r.disputes
      ensures j in disputes ==> disputes[j] == r.disputes[j]
    {
      assert j in disputes - {i} <==> j in r.disputes - {i};
      assert j in disputes ==> (disputes - {i})[j] == (r.disputes - {i})[j];
    }
    assert DisputeInv(touched);
    RecalculateRestores(touched, envOk);
  }

  lemma CommandKeepsRows(r: Rows, e: Event)
    requires e.RecordEvent? || e.ConfirmEvent? || e.DisputeEvent? || e.VoidPaymentEvent? || e.ResolveEvent?
    requires RowsInv(r) && Command(r, e).Ok?
    ensures KeepsRows(r, Command(r, e).value)
    ensures r.checkout.status == CheckoutStatus.OPEN && r.payments == [] ==>
      Command(r, e).value.checkout.version > r.checkout.version
  {
    match e
    case RecordEvent(amount, envOk) => RecordKeeps(r, amount, envOk);
    case ConfirmEvent(i, envOk) => TouchedKeeps(r, i, CONFIRMED, r.disputes, envOk);
    case DisputeEvent(i, envOk) =>
      TouchedKeeps(r, i, PaymentStatus.DISPUTED, r.disputes[i := DisputeStatus.OPEN], envOk);
    case VoidPaymentEvent(i, envOk) => TouchedKeeps(r, i, PaymentStatus.VOIDED, r.disputes, envOk);
    case ResolveEvent(i, confirming, envOk) =>
      TouchedKeeps(r, i, if confirming then CONFIRMED else PaymentStatus.VOIDED,
        r.disputes[i := if confirming then RESOLVED_CONFIRMED else RESOLVED_REJECTED], envOk);
  }

  // ---------- Stale commands and whole runs ----------

  /** No adjustment ever commits once a payment exists: a commit that succeeds finds the
      checkout exactly as it was read, still OPEN and still without a payment. */
  lemma AdjustmentNeedsNoPayment(s: System, t: nat, delta: int)
    requires Inv(s) && t in s.requests && s.requests[t].AdjustCounted?
    requires CommitAdjustment(s.rows, s.requests[t].seen, delta).Ok?
    ensures s.rows.payments == [] && s.rows.checkout.status == CheckoutStatus.OPEN
    ensures s.requests[t].seen == s.rows.checkout
    ensures RowsInv(CommitAdjustment(s.rows, s.requests[t].seen, delta).value)
  {
    assert RequestInv(s.rows, s.requests[t]);
    var after := CommitAdjustment(s.rows, s.requests[t].seen, delta).value;
    assert ActiveTotal(after.payments) == 0 && ConfirmedTotal(after.payments) == 0;
  }

  lemma StepKeepsRows(s: System, e: Event)
    requires Inv(s)
    ensures RowsInv(StepRows(s, e))
    ensures StepRows(s, e).checkout.version >= s.rows.checkout.version
    ensures StepRows(s, e).checkout.subtotal == s.rows.checkout.subtotal
    ensures StepRows(s, e).checkout.version == s.rows.checkout.version ==>
      StepRows(s, e).checkout == s.rows.checkout
      && (s.rows.checkout.status == CheckoutStatus.OPEN && s.rows.payments == [] ==> StepRows(s, e).payments == [])
    ensures s.rows.payments != [] ==> StepRows(s, e).checkout.total == s.rows.checkout.total
    ensures s.rows.payments != [] ==> StepRows(s, e).payments != []
    ensures Terminal(s.rows.checkout.status) ==>
      StepRows(s, e).checkout == s.rows.checkout && StepRows(s, e).transactions == s.rows.transactions
  {
    match e
    case AdjustReadEvent(_) =>
    case AdjustCountEvent(_) =>
    case VoidReadEvent(_) =>
    case AdjustCommitEvent(t, delta) =>
      if t in s.requests && s.requests[t].AdjustCounted? && CommitAdjustment(s.rows, s.requests[t].seen, delta).Ok? {
        AdjustmentNeedsNoPayment(s, t, delta);
      }
    case VoidCommitEvent(t) =>
      if t in s.requests && s.requests[t].VoidRead? && CommitVoid(s.rows, s.requests[t].seen).Ok? {
        assert RequestInv(s.rows, s.requests[t]);
      }
    case _ =>
      if Command(s.rows, e).Ok? {
        CommandKeepsRows(s.rows, e);
        PaymentsRemain(s.rows, e);
      }
  }

  lemma PaymentsRemain(r: Rows, e: Event)
    requires e.RecordEvent? || e.ConfirmEvent? || e.DisputeEvent? || e.VoidPaymentEvent? || e.ResolveEvent?
    requires Command(r, e).Ok?
    ensures |Command(r, e).value.payments| >= |r.payments|
  {
  }

  lemma StepKeepsInv(s: System, e: Event)
    requires Inv(s)
    ensures Inv(Step(s, e))
  {
    StepKeepsRows(s, e);
    var after := Step(s, e);
    forall t | t in after.requests ensures RequestInv(after.rows, after.requests[t]) {
      if t in s.requests {
        assert RequestInv(s.rows, s.requests[t]);
      }
    }
  }

  lemma {:induction false} RunKeepsInv(s: System, events: seq<Event>)
    requires Inv(s)
    ensures Inv(Run(s, events))
  {
    if events != [] {
      RunKeepsInv(s, events[..|events| - 1]);
      StepKeepsInv(Run(s, events[..|events| - 1]), events[|events| - 1]);
    }
  }

  lemma {:induction false} AllocationsSum(payments: seq<Payment>)
    ensures SumBy(AllocatedAmount(), Allocations(payments)) == ConfirmedTotal(payments)
  {
    if payments != [] {
      var front, last := payments[..|payments| - 1], payments[|payments| - 1];
      AllocationsSum(front);
      assert payments == front + [last];
      SumByAppend(ConfirmedWeight(), front, last);
      if last.status.CONFIRMED? {
        SumByAppend(AllocatedAmount(), Allocations(front), Allocation(|front|, last.amount));
      } else {
        assert Allocations(front) + [] == Allocations(front);
      }
    }
  }

  function AllocatedAmount(): Allocation -> int {
    (a: Allocation) => a.amount
  }

  /** Whatever the commands, their order and their interleaving: the active payments never
      exceed the total; an unfinished checkout's status is the one its payments derive; one
      discounted to nothing has no payments and cannot settle; a settled one is paid exactly,
      by confirmed payments only, and posted exactly once, for its total, allocated to those
      payments; a voided one is never posted. */
  lemma {:induction false} SettlementSafety(subtotal: int, hasOperator: bool, events: seq<Event>)
    requires 0 < subtotal <= POSTGRES_INT_MAX
    ensures var r := Run(NewCheckout(subtotal, hasOperator), events).rows;
            && ActiveTotal(r.payments) <= r.checkout.total == r.checkout.subtotal + r.checkout.adjustment
            && (!Terminal(r.checkout.status) && r.checkout.total > 0 ==>
                  !Derived(r.payments, r.checkout.total).ReadyToSettle?
                  && r.checkout.status == StatusOf(Derived(r.payments, r.checkout.total)))
            && (r.checkout.total == 0 ==> r.payments == [] && r.checkout.status != SETTLED)
            && (r.checkout.status == SETTLED <==> r.transactions != [])
            && (r.checkout.status == SETTLED ==>
                  && AllActiveConfirmed(r.payments)
                  && ActiveTotal(r.payments) == r.checkout.total
                  && |r.transactions| == 1
                  && r.transactions[0].total == r.checkout.total
                  && SumBy(AllocatedAmount(), r.transactions[0].allocations) == r.checkout.total)
  {
    NewCheckoutInv(subtotal, hasOperator);
    RunKeepsInv(NewCheckout(subtotal, hasOperator), events);
    var r := Run(NewCheckout(subtotal, hasOperator), events).rows;
    AllocationsSum(r.payments);
  }

  /** From the first payment on, the total is frozen. */
  lemma {:induction false} TotalFrozenOncePaid(s: System, events: seq<Event>)
    requires Inv(s) && s.rows.payments != []
    ensures Run(s, events).rows.checkout.total == s.rows.checkout.total
    ensures Run(s, events).rows.payments != []
  {
    if events != [] {
      TotalFrozenOncePaid(s, events[..|events| - 1]);
      RunKeepsInv(s, events[..|events| - 1]);
      StepKeepsRows(Run(s, events[..|events| - 1]), events[|events| - 1]);
    }
  }

  /** SETTLED is final: no later event changes any row. */
  lemma {:induction false} SettledForever(s: System, events: seq<Event>)
    requires Inv(s) && s.rows.checkout.status == SETTLED
    ensures Run(s, events).rows == s.rows
  {
    if events != [] {
      var before, e := Run(s, events[..|events| - 1]), events[|events| - 1];
      SettledForever(s, events[..|events| - 1]);
      RunKeepsInv(s, events[..|events| - 1]);
      match e
      case AdjustCommitEvent(t, delta) =>
        assert t in before.requests ==> RequestInv(before.rows, before.requests[t]);
      case VoidCommitEvent(t) =>
        assert t in before.requests ==> RequestInv(before.rows, before.requests[t]);
      case AdjustReadEvent(_) =>
      case AdjustCountEvent(_) =>
      case VoidReadEvent(_) =>
      case _ => SettledRefuses(before, e);
    }
  }

  /** VOIDED is final for the checkout row, and nothing is ever posted for it. */
  lemma {:induction false} VoidedNeverPosts(s: System, events: seq<Event>)
    requires Inv(s) && s.rows.checkout.status == CheckoutStatus.VOIDED
    ensures Run(s, events).rows.checkout == s.rows.checkout
    ensures Run(s, events).rows.transactions == []
  {
    if events != [] {
      VoidedNeverPosts(s, events[..|events| - 1]);
      RunKeepsInv(s, events[..|events| - 1]);
      StepKeepsRows(Run(s, events[..|events| - 1]), events[|events| - 1]);
    }
  }

  /** In a reachable state two defensive refusals cannot happen: an open dispute's payment is
      disputed, and the sum of the active payments fits the column. */
  lemma DefensiveRefusalsUnreachable(s: System, i: nat)
    requires Inv(s)
    ensures i in s.rows.disputes && s.rows.disputes[i] == DisputeStatus.OPEN ==> Has(s.rows, i, PaymentStatus.DISPUTED)
    ensures Has(s.rows, i, RECORDED) ==> i !in s.rows.disputes
    ensures ActiveTotal(s.rows.payments) <= POSTGRES_INT_MAX
  {
    assert i in s.rows.disputes ==> i < |s.rows.payments|;
  }
}
