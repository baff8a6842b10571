/** What a checkout's rows say about the requests that were carried out: every run refines a
    plain log of them. A request was carried out if it changed a row. */
module SettlementHistory {
  import opened Money
  import opened Settlement
  import opened SettlementRuns

  /** The event was carried out. */
  predicate Took(s: System, e: Event) {
    StepRows(s, e) != s.rows
  }

  // ---------- Adjustments ----------

  /** The deltas of the adjustments carried out, added up. */
  function CommittedDeltas(s: System, events: seq<Event>): int {
    if events == [] then 0
    else
      var before, e := Run(s, events[..|events| - 1]), events[|events| - 1];
      CommittedDeltas(s, events[..|events| - 1]) + if e.AdjustCommitEvent? && Took(before, e) then e.delta else 0
  }

  lemma OneAdjustment(s: System, e: Event)
    requires Inv(s)
    ensures var delta := if e.AdjustCommitEvent? && Took(s, e) then e.delta else 0;
            && StepRows(s, e).checkout.adjustment == s.rows.checkout.adjustment + delta
            && StepRows(s, e).checkout.total == s.rows.checkout.total + delta
            && StepRows(s, e).checkout.subtotal == s.rows.checkout.subtotal
  {
    match e
    case AdjustCommitEvent(t, delta) =>
      if t in s.requests && s.requests[t].AdjustCounted? && CommitAdjustment(s.rows, s.requests[t].seen, delta).Ok? {
        AdjustmentNeedsNoPayment(s, t, delta);
      }
    case _ =>
  }

  /** However adjustments, payments and voids interleave: the adjustment of a checkout is the
      sum of the deltas that committed, and its total has moved by exactly that. None is lost
      and none is counted twice, though each is computed from an earlier read. */
  lemma {:induction false} AdjustmentIsSumOfDeltas(s: System, events: seq<Event>)
    requires Inv(s)
    ensures var c, start := Run(s, events).rows.checkout, s.rows.checkout;
            && c.adjustment == start.adjustment + CommittedDeltas(s, events)
            && c.total == start.total + CommittedDeltas(s, events)
            && c.subtotal == start.subtotal
  {
    if events != [] {
      AdjustmentIsSumOfDeltas(s, events[..|events| - 1]);
      RunKeepsInv(s, events[..|events| - 1]);
      OneAdjustment(Run(s, events[..|events| - 1]), events[|events| - 1]);
    }
  }

  /** Exactly when an adjustment commits: nothing has touched the checkout since it was read,
      the delta is a real and bounded amount, and the total stays within its column. */
  lemma AdjustmentCommitsIff(s: System, t: nat, delta: int)
    requires Inv(s)
    ensures Took(s, AdjustCommitEvent(t, delta)) <==>
      && t in s.requests && s.requests[t].AdjustCounted? && s.requests[t].seen == s.rows.checkout
      && delta != 0 && -500_000_000 <= delta <= 500_000_000
      && 0 <= s.rows.checkout.total + delta <= 2_147_483_647
  {
    assert t in s.requests ==> RequestInv(s.rows, s.requests[t]);
  }

  // ---------- Payments and disputes ----------

  /** The version counts the decisions. */
  datatype Note = Note(amount: int, status: PaymentStatus, version: int)
  datatype Log = Log(notes: seq<Note>, disputes: map<nat, DisputeStatus>)

  function Mark(l: Log, i: nat, status: PaymentStatus): Log {
    if i < |l.notes|
    then l.(notes := l.notes[i := l.notes[i].(status := status, version := l.notes[i].version + 1)]) else l
  }

  /** What a request means for the payments, nothing else considered. */
  function Write(l: Log, e: Event): Log {
    match e
    case RecordEvent(amount, _) => l.(notes := l.notes + [Note(amount, PaymentStatus.RECORDED, 1)])
    case ConfirmEvent(i, _) => Mark(l, i, PaymentStatus.CONFIRMED)
    case DisputeEvent(i, _) =>
      Mark(l, i, PaymentStatus.DISPUTED).(disputes := l.disputes[i := DisputeStatus.OPEN])
    case VoidPaymentEvent(i, _) => Mark(l, i, PaymentStatus.VOIDED)
    case ResolveEvent(i, true, _) =>
      Mark(l, i, PaymentStatus.CONFIRMED).(disputes := l.disputes[i := DisputeStatus.RESOLVED_CONFIRMED])
    case ResolveEvent(i, false, _) =>
      Mark(l, i, PaymentStatus.VOIDED).(disputes := l.disputes[i := DisputeStatus.RESOLVED_REJECTED])
    case _ => l
  }

  /** The log of the requests carried out. */
  function History(s: System, events: seq<Event>): Log {
    if events == [] then LogOf(s.rows)
    else
      var front, e := events[..|events| - 1], events[|events| - 1];
      if Took(Run(s, front), e) then Write(History(s, front), e) else History(s, front)
  }

  function NoteOf(p: Payment): Note {
    Note(p.amount, p.status, p.version)
  }

  function Notes(payments: seq<Payment>): seq<Note> {
    seq(|payments|, i requires 0 <= i < |payments| => NoteOf(payments[i]))
  }

  /** What the stored rows say. */
  function LogOf(r: Rows): Log {
    Log(Notes(r.payments), r.disputes)
  }

  lemma OneNote(s: System, e: Event)
    ensures LogOf(StepRows(s, e)) == if Took(s, e) then Write(LogOf(s.rows), e) else LogOf(s.rows)
  {
    if Took(s, e) {
      var before, after := Notes(s.rows.payments), Notes(StepRows(s, e).payments);
      assert e.RecordEvent? ==> after == before + [Note(e.amount, PaymentStatus.RECORDED, 1)];
      assert e.ConfirmEvent? ==> after == Mark(LogOf(s.rows), e.i, PaymentStatus.CONFIRMED).notes;
      assert e.DisputeEvent? ==> after == Mark(LogOf(s.rows), e.i, PaymentStatus.DISPUTED).notes;
      assert e.VoidPaymentEvent? ==> after == Mark(LogOf(s.rows), e.i, PaymentStatus.VOIDED).notes;
      assert e.ResolveEvent? ==>
        after == Mark(LogOf(s.rows), e.i,
                      if e.confirming then PaymentStatus.CONFIRMED else PaymentStatus.VOIDED).notes;
    }
  }

  /** Every payment stands at the amount it was recorded for and at what was last decided about
      it, and every dispute at how it was resolved, whatever else happened in between. */
  lemma {:induction false} PaymentsAreHistory(s: System, events: seq<Event>)
    ensures LogOf(Run(s, events).rows) == History(s, events)
  {
    if events != [] {
      PaymentsAreHistory(s, events[..|events| - 1]);
      OneNote(Run(s, events[..|events| - 1]), events[|events| - 1]);
    }
  }

  // ---------- When a request is carried out ----------

  /** Payment i is the last thing a running checkout waits for: every other payment is settled
      or void, and with it the confirmed amounts reach the total. */
  ghost predicate LastOutstanding(r: Rows, i: nat)
    requires i < |r.payments|
  {
    && !r.checkout.status.SETTLED? && !r.checkout.status.VOIDED?
    && ConfirmedTotal(r.payments) + r.payments[i].amount == r.checkout.total
    && forall j :: 0 <= j < |r.payments| && j != i ==>
         r.payments[j].status == PaymentStatus.CONFIRMED || r.payments[j].status == PaymentStatus.VOIDED
  }

  predicate Stands(r: Rows, i: nat, status: PaymentStatus) {
    i < |r.payments| && r.payments[i].status == status
  }

  lemma PendingTotals(r: Rows, i: nat, to: PaymentStatus)
    requires RowsInv(r) && i < |r.payments|
    requires r.payments[i].status == PaymentStatus.RECORDED || r.payments[i].status == PaymentStatus.DISPUTED
    ensures ConfirmedTotal(SetPayment(r, i, to).payments)
            == ConfirmedTotal(r.payments) + if to.CONFIRMED? then r.payments[i].amount else 0
    ensures ConfirmedTotal(r.payments) + r.payments[i].amount <= ActiveTotal(r.payments) <= r.checkout.total
  {
    var p := r.payments[i];
    SumByUpdate(ConfirmedWeight(), r.payments, i, p.(status := to, version := p.version + 1));
    var confirmed := p.(status := PaymentStatus.CONFIRMED, version := p.version + 1);
    SumByUpdate(ConfirmedWeight(), r.payments, i, confirmed);
    SumByUpdate(ActiveWeight(), r.payments, i, confirmed);
    ConfirmedWithinActive(r.payments[i := confirmed]);
  }

  lemma {:induction false} ConfirmedWithinActive(payments: seq<Payment>)
    requires forall i :: 0 <= i < |payments| ==> payments[i].amount >= 0
    ensures ConfirmedTotal(payments) <= ActiveTotal(payments)
  {
    if payments != [] { ConfirmedWithinActive(payments[1..]); }
  }

  /** Deciding a pending payment leaves the balance ready exactly when it confirms the last
      one outstanding. */
  lemma ReadyIff(r: Rows, i: nat, to: PaymentStatus)
    requires RowsInv(r) && i < |r.payments| && !Terminal(r.checkout.status)
    requires r.payments[i].status == PaymentStatus.RECORDED || r.payments[i].status == PaymentStatus.DISPUTED
    requires to == PaymentStatus.CONFIRMED || to == PaymentStatus.VOIDED
    ensures Derived(SetPayment(r, i, to).payments, r.checkout.total).ReadyToSettle?
            <==> to == PaymentStatus.CONFIRMED && LastOutstanding(r, i)
  {
    PendingTotals(r, i, to);
    var after := SetPayment(r, i, to).payments;
    forall j | 0 <= j < |r.payments| && j != i ensures after[j] == r.payments[j] { }
    if LastOutstanding(r, i) && to == PaymentStatus.CONFIRMED {
      assert !Some(after, PaymentStatus.DISPUTED) && !Some(after, PaymentStatus.RECORDED);
    }
    if Derived(after, r.checkout.total).ReadyToSettle? {
      forall j | 0 <= j < |r.payments| && j != i
        ensures r.payments[j].status == PaymentStatus.CONFIRMED || r.payments[j].status == PaymentStatus.VOIDED
      {
        assert after[j] == r.payments[j];
      }
    }
  }

  /** A payment is recorded exactly when it is a bounded amount that the running checkout's
      balance still has room for, and the checkout has its operator. */
  lemma RecordTakesIff(s: System, amount: int, envOk: bool)
    requires Inv(s)
    ensures var r := s.rows;
            Took(s, RecordEvent(amount, envOk)) <==>
              && 1 <= amount <= 500_000_000 && !r.checkout.status.SETTLED? && !r.checkout.status.VOIDED?
              && ActiveTotal(r.payments) + amount <= r.checkout.total && r.checkout.hasOperator && envOk
  {
    var more := s.rows.payments + [Payment(amount, PaymentStatus.RECORDED, 1)];
    assert more[|s.rows.payments|].status == PaymentStatus.RECORDED;
    assert Some(more, PaymentStatus.RECORDED);
  }

  lemma Decided(r: Rows, i: nat, to: PaymentStatus, disputes: map<nat, DisputeStatus>, envOk: bool)
    requires RowsInv(r) && i < |r.payments|
    requires r.payments[i].status == PaymentStatus.RECORDED || r.payments[i].status == PaymentStatus.DISPUTED
    requires to == PaymentStatus.CONFIRMED || to == PaymentStatus.VOIDED
    ensures Recalculate(SetPayment(r, i, to).(disputes := disputes), envOk).Ok?
            <==> (to == PaymentStatus.CONFIRMED && LastOutstanding(r, i) ==> r.checkout.hasOperator && envOk)
    ensures Recalculate(SetPayment(r, i, to).(disputes := disputes), envOk).Ok? ==>
              Recalculate(SetPayment(r, i, to).(disputes := disputes), envOk).value.payments != r.payments
  {
    PendingTotals(r, i, to);
    if !Terminal(r.checkout.status) { ReadyIff(r, i, to); }
    assert SetPayment(r, i, to).payments[i] != r.payments[i];
  }

  /** Confirming is carried out for a payment that still awaits it; only the confirmation that
      completes the balance also needs the operator and the rest of the posting. */
  lemma ConfirmTakesIff(s: System, i: nat, envOk: bool)
    requires Inv(s)
    ensures Took(s, ConfirmEvent(i, envOk)) <==>
      Stands(s.rows, i, PaymentStatus.RECORDED) && (LastOutstanding(s.rows, i) ==> s.rows.checkout.hasOperator && envOk)
  {
    if Stands(s.rows, i, PaymentStatus.RECORDED) {
      Decided(s.rows, i, PaymentStatus.CONFIRMED, s.rows.disputes, envOk);
    }
  }

  /** Disputing and voiding a payment that awaits confirmation are never refused: neither can
      complete a balance. */
  lemma DisputeAndVoidTakeIff(s: System, i: nat, envOk: bool)
    requires Inv(s)
    ensures Took(s, DisputeEvent(i, envOk)) <==> Stands(s.rows, i, PaymentStatus.RECORDED)
    ensures Took(s, VoidPaymentEvent(i, envOk)) <==> Stands(s.rows, i, PaymentStatus.RECORDED)
  {
    if Stands(s.rows, i, PaymentStatus.RECORDED) {
      Decided(s.rows, i, PaymentStatus.VOIDED, s.rows.disputes, envOk);
      var disputed := SetPayment(s.rows, i, PaymentStatus.DISPUTED);
      assert disputed.payments[i].status == PaymentStatus.DISPUTED && disputed.payments[i] != s.rows.payments[i];
      assert Some(disputed.payments, PaymentStatus.DISPUTED);
    }
  }

  /** Resolving is carried out exactly while the dispute stands; confirming the last payment
      outstanding needs the posting too, rejecting never does. */
  lemma ResolveTakesIff(s: System, i: nat, confirming: bool, envOk: bool)
    requires Inv(s)
    ensures Took(s, ResolveEvent(i, confirming, envOk)) <==>
      && Stands(s.rows, i, PaymentStatus.DISPUTED)
      && (confirming && LastOutstanding(s.rows, i) ==> s.rows.checkout.hasOperator && envOk)
  {
    if Stands(s.rows, i, PaymentStatus.DISPUTED) {
      var to := if confirming then PaymentStatus.CONFIRMED else PaymentStatus.VOIDED;
      var disputes := s.rows.disputes[i := if confirming then DisputeStatus.RESOLVED_CONFIRMED
                                           else DisputeStatus.RESOLVED_REJECTED];
      Decided(s.rows, i, to, disputes, envOk);
    }
  }

  /** The guards no reachable state meets, on any rows at all: a sale is posted only for what
      was confirmed, with its operator and once; a payment is disputed only once; and none is
      recorded beside active payments that overflow their column. */
  lemma GuardsOnAnyRows(r: Rows, i: nat, amount: int, envOk: bool)
    ensures PostForCheckout(r, envOk).Ok? <==>
      ConfirmedTotal(r.payments) == r.checkout.total && r.checkout.hasOperator && r.transactions == [] && envOk
    ensures Dispute(r, i, envOk).Ok? ==> i !in r.disputes
    ensures Record(r, amount, envOk).Ok? ==> ActiveTotal(r.payments) <= 2_147_483_647
  {
  }

  // ---------- The checkout's status ----------

  /** The status of a checkout that still has something to pay, read off its payments: disputed
      while any payment is, else awaiting verification while any is unconfirmed, else open. */
  lemma StatusMeansPayments(s: System)
    requires Inv(s) && s.rows.checkout.total > 0 && !Terminal(s.rows.checkout.status)
    ensures var r := s.rows;
            && (r.checkout.status == CheckoutStatus.DISPUTED <==>
                  exists i: nat :: Stands(r, i, PaymentStatus.DISPUTED))
            && (r.checkout.status == AWAITING_VERIFICATION <==>
                  (exists i: nat :: Stands(r, i, PaymentStatus.RECORDED))
                  && !exists i: nat :: Stands(r, i, PaymentStatus.DISPUTED))
            && (r.checkout.status == CheckoutStatus.OPEN ==> ConfirmedTotal(r.payments) < r.checkout.total)
  {
    var r := s.rows;
    forall status ensures Some(r.payments, status) <==> exists i: nat :: Stands(r, i, status) {
      if Some(r.payments, status) {
        var i :| 0 <= i < |r.payments| && r.payments[i].status == status;
        assert Stands(r, i, status);
      }
    }
  }

  /** A void of the checkout was carried out. */
  predicate VoidTook(s: System, events: seq<Event>) {
    events != []
    && (VoidTook(s, events[..|events| - 1])
        || (events[|events| - 1].VoidCommitEvent? && Took(Run(s, events[..|events| - 1]), events[|events| - 1])))
  }

  lemma OneVoid(s: System, e: Event)
    requires Inv(s)
    ensures StepRows(s, e).checkout.status == CheckoutStatus.VOIDED <==>
      s.rows.checkout.status == CheckoutStatus.VOIDED || (e.VoidCommitEvent? && Took(s, e))
  {
    StepKeepsRows(s, e);
    match e
    case VoidCommitEvent(t) => assert t in s.requests ==> RequestInv(s.rows, s.requests[t]);
    case AdjustCommitEvent(t, _) => assert t in s.requests ==> RequestInv(s.rows, s.requests[t]);
    case _ =>
  }

  /** A checkout is VOIDED exactly when a void of it was carried out. */
  lemma {:induction false} VoidedIffVoidTook(subtotal: int, hasOperator: bool, events: seq<Event>)
    requires 0 < subtotal <= POSTGRES_INT_MAX
    ensures var start := NewCheckout(subtotal, hasOperator);
            Run(start, events).rows.checkout.status == CheckoutStatus.VOIDED <==> VoidTook(start, events)
  {
    var start := NewCheckout(subtotal, hasOperator);
    NewCheckoutInv(subtotal, hasOperator);
    if events != [] {
      VoidedIffVoidTook(subtotal, hasOperator, events[..|events| - 1]);
      RunKeepsInv(start, events[..|events| - 1]);
      OneVoid(Run(start, events[..|events| - 1]), events[|events| - 1]);
    }
  }

  /** Exactly when a void commits: nothing has touched the checkout since it was read running. */
  lemma VoidTakesIff(s: System, t: nat)
    requires Inv(s)
    ensures Took(s, VoidCommitEvent(t)) <==>
      t in s.requests && s.requests[t].VoidRead? && s.requests[t].seen == s.rows.checkout
  {
    assert t in s.requests ==> RequestInv(s.rows, s.requests[t]);
  }

  /** How many events changed the checkout's row. */
  function Changes(s: System, events: seq<Event>): nat {
    if events == [] then 0
    else
      var before := Run(s, events[..|events| - 1]);
      Changes(s, events[..|events| - 1])
      + if StepRows(before, events[|events| - 1]).checkout != before.rows.checkout then 1 else 0
  }

  /** The checkout's version counts its changes: a request that saw a version saw the row. */
  lemma {:induction false} VersionCountsChanges(s: System, events: seq<Event>)
    ensures Run(s, events).rows.checkout.version == s.rows.checkout.version + Changes(s, events)
  {
    if events != [] { VersionCountsChanges(s, events[..|events| - 1]); }
  }

  // ---------- What a settled sale was paid with ----------

  /** Every allocation is a confirmed payment in full, and every confirmed payment has one. */
  lemma {:induction false} AllocationsAreConfirmed(payments: seq<Payment>)
    ensures forall k :: 0 <= k < |Allocations(payments)| ==>
      var a := Allocations(payments)[k];
      a.payment < |payments| && payments[a.payment] == payments[a.payment].(status := CONFIRMED, amount := a.amount)
    ensures forall j, k :: 0 <= j < k < |Allocations(payments)| ==>
      Allocations(payments)[j].payment < Allocations(payments)[k].payment
    ensures forall i: nat :: i < |payments| && payments[i].status == CONFIRMED ==>
      Allocation(i, payments[i].amount) in Allocations(payments)
  {
    if payments != [] {
      var front := payments[..|payments| - 1];
      AllocationsAreConfirmed(front);
      forall i: nat | i < |payments| && payments[i].status == CONFIRMED
        ensures Allocation(i, payments[i].amount) in Allocations(payments)
      {
        if i < |front| { assert front[i] == payments[i]; }
      }
    }
  }

  /** In every run: a settled checkout was posted once, at its own subtotal, adjustment and
      total, against exactly its confirmed payments, each for its whole amount. */
  lemma {:induction false} SettledSaleIsWhatWasPaid(subtotal: int, hasOperator: bool, events: seq<Event>)
    requires 0 < subtotal <= POSTGRES_INT_MAX
    ensures var start := NewCheckout(subtotal, hasOperator); var r := Run(start, events).rows;
            r.checkout.status == SETTLED ==>
              && |r.transactions| == 1 && r.transactions[0].subtotal == subtotal
              && r.transactions[0].adjustment == CommittedDeltas(start, events)
              && r.transactions[0].total == subtotal + CommittedDeltas(start, events)
              && (forall i: nat, amount :: Allocation(i, amount) in r.transactions[0].allocations <==>
                    Stands(r, i, PaymentStatus.CONFIRMED) && r.payments[i].amount == amount)
  {
    var start := NewCheckout(subtotal, hasOperator);
    NewCheckoutInv(subtotal, hasOperator);
    RunKeepsInv(start, events);
    AdjustmentIsSumOfDeltas(start, events);
    AllocationsAreConfirmed(Run(start, events).rows.payments);
  }
}
