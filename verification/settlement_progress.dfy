/** A checkout that is paid in full and confirmed settles, whatever the payments. */
module SettlementProgress {
  import opened Money
  import opened Settlement
  import opened SettlementRuns

  ghost predicate PaysExactly(amounts: seq<int>, total: int) {
    && amounts != [] && Sum(amounts) == total <= POSTGRES_INT_MAX
    && forall i :: 0 <= i < |amounts| ==> IsSafeMoneyAmount(amounts[i], 1)
  }

  function RecordAll(amounts: seq<int>): seq<Event> {
    seq(|amounts|, i requires 0 <= i < |amounts| => RecordEvent(amounts[i], true))
  }

  function ConfirmAll(n: nat): seq<Event> {
    seq(n, i requires 0 <= i => ConfirmEvent(i, true))
  }

  /** The payments once the first j of them are confirmed. */
  function Payments(amounts: seq<int>, j: int): seq<Payment> {
    seq(|amounts|, i requires 0 <= i < |amounts| =>
      if i < j then Payment(amounts[i], CONFIRMED, 2) else Payment(amounts[i], RECORDED, 1))
  }

  lemma {:induction false} TotalsOf(amounts: seq<int>, j: int)
    ensures ActiveTotal(Payments(amounts, j)) == Sum(amounts)
    ensures j >= |amounts| ==> ConfirmedTotal(Payments(amounts, j)) == Sum(amounts)
  {
    if amounts != [] {
      TotalsOf(amounts[1..], j - 1);
      assert Payments(amounts, j)[1..] == Payments(amounts[1..], j - 1);
    }
  }

  lemma {:induction false} FirstOf(amounts: seq<int>, n: nat)
    requires n <= |amounts| && forall i :: 0 <= i < |amounts| ==> amounts[i] >= 1
    ensures Sum(amounts[..n]) + (if n < |amounts| then amounts[n] else 0) <= Sum(amounts)
  {
    assert amounts == amounts[..n] + amounts[n..];
    SumSplit(amounts[..n], amounts[n..]);
    SumNonNegative(amounts[n..]);
    if n < |amounts| {
      SumNonNegative(amounts[n + 1..]);
      assert amounts[n..][1..] == amounts[n + 1..];
    }
  }

  /** One more command that succeeds. */
  lemma {:induction false} Advance(s: System, events: seq<Event>, e: Event, rows: Rows, after: Rows)
    requires e.RecordEvent? || e.ConfirmEvent?
    requires Run(s, events) == System(rows, map[]) && Command(rows, e) == Ok(after)
    ensures Run(s, events + [e]) == System(after, map[])
  {
    assert (events + [e])[..|events|] == events;
    assert Step(System(rows, map[]), e) == System(after, map[]);
  }

  lemma NextRecord(amounts: seq<int>, n: nat)
    requires n < |amounts|
    ensures RecordAll(amounts)[..n + 1] == RecordAll(amounts)[..n] + [RecordEvent(amounts[n], true)]
    ensures RecordAll(amounts)[..|amounts|] == RecordAll(amounts) + ConfirmAll(0)
  {
  }

  lemma NextConfirm(amounts: seq<int>, j: nat)
    ensures RecordAll(amounts) + ConfirmAll(j + 1) == (RecordAll(amounts) + ConfirmAll(j)) + [ConfirmEvent(j, true)]
  {
  }

  /** Waiting for confirmations, with the first j payments confirmed. */
  function Waiting(total: int, amounts: seq<int>, j: int): Rows {
    Rows(Checkout(AWAITING_VERIFICATION, total, 0, total, 2, true), Payments(amounts, j), map[], [])
  }

  lemma StaysWaiting(total: int, amounts: seq<int>, j: nat)
    requires j < |amounts|
    ensures Derived(Payments(amounts, j), total) == Outcome.AwaitingVerification
  {
    assert Payments(amounts, j)[|amounts| - 1].status == RECORDED;
  }

  /** The rows once the first n amounts are recorded. */
  function WithRecords(total: int, amounts: seq<int>, n: nat): Rows
    requires n <= |amounts|
  {
    if n == 0 then NewCheckout(total, true).rows else Waiting(total, amounts[..n], 0)
  }

  lemma RecordNext(total: int, amounts: seq<int>, n: nat)
    requires PaysExactly(amounts, total) && n < |amounts|
    ensures Record(WithRecords(total, amounts, n), amounts[n], true) == Ok(WithRecords(total, amounts, n + 1))
  {
    FirstOf(amounts, n);
    TotalsOf(amounts[..n], 0);
    SumNonNegative(amounts[..n]);
    StaysWaiting(total, amounts[..n + 1], 0);
    assert Payments(amounts[..n], 0) + [Payment(amounts[n], RECORDED, 1)] == Payments(amounts[..n + 1], 0);
  }

  lemma {:induction false} AfterRecords(total: int, amounts: seq<int>, n: nat)
    requires PaysExactly(amounts, total) && n <= |amounts|
    ensures Run(NewCheckout(total, true), RecordAll(amounts)[..n]) == System(WithRecords(total, amounts, n), map[])
  {
    if n > 0 {
      AfterRecords(total, amounts, n - 1);
      RecordNext(total, amounts, n - 1);
      NextRecord(amounts, n - 1);
      Advance(NewCheckout(total, true), RecordAll(amounts)[..n - 1], RecordEvent(amounts[n - 1], true),
        WithRecords(total, amounts, n - 1), WithRecords(total, amounts, n));
    }
  }

  lemma ConfirmNext(total: int, amounts: seq<int>, j: nat)
    requires j + 1 < |amounts|
    ensures Confirm(Waiting(total, amounts, j), j, true) == Ok(Waiting(total, amounts, j + 1))
  {
    StaysWaiting(total, amounts, j + 1);
    assert SetPayment(Waiting(total, amounts, j), j, CONFIRMED).payments == Payments(amounts, j + 1);
  }

  lemma {:induction false} AfterConfirms(total: int, amounts: seq<int>, j: nat)
    requires PaysExactly(amounts, total) && j < |amounts|
    ensures Run(NewCheckout(total, true), RecordAll(amounts) + ConfirmAll(j))
      == System(Waiting(total, amounts, j), map[])
  {
    if j == 0 {
      AfterRecords(total, amounts, |amounts|);
      NextRecord(amounts, 0);
      assert amounts[..|amounts|] == amounts;
    } else {
      AfterConfirms(total, amounts, j - 1);
      ConfirmNext(total, amounts, j - 1);
      NextConfirm(amounts, j - 1);
      Advance(NewCheckout(total, true), RecordAll(amounts) + ConfirmAll(j - 1), ConfirmEvent(j - 1, true),
        Waiting(total, amounts, j - 1), Waiting(total, amounts, j));
    }
  }

  lemma LastConfirmSettles(total: int, amounts: seq<int>)
    requires PaysExactly(amounts, total)
    ensures var last := |amounts| - 1; var after := Confirm(Waiting(total, amounts, last), last, true);
            after.Ok? && after.value.checkout.status == SETTLED && after.value.transactions != []
  {
    var last := |amounts| - 1;
    TotalsOf(amounts, |amounts|);
    assert SetPayment(Waiting(total, amounts, last), last, CONFIRMED).payments == Payments(amounts, |amounts|);
    assert forall i :: 0 <= i < |amounts| ==> Payments(amounts, |amounts|)[i].status == CONFIRMED;
  }

  /** Any payments that add up to the total, recorded and then confirmed one by one, settle
      the checkout with the last confirmation and not before; what is posted is then fixed by
      `SettlementSafety`. */
  lemma PaidInFullSettles(total: int, amounts: seq<int>, j: nat)
    requires PaysExactly(amounts, total) && j <= |amounts|
    ensures Run(NewCheckout(total, true), RecordAll(amounts) + ConfirmAll(j)).rows.checkout.status
            == if j == |amounts| then SETTLED else AWAITING_VERIFICATION
  {
    if j < |amounts| {
      AfterConfirms(total, amounts, j);
    } else {
      AfterConfirms(total, amounts, j - 1);
      LastConfirmSettles(total, amounts);
      NextConfirm(amounts, j - 1);
      Advance(NewCheckout(total, true), RecordAll(amounts) + ConfirmAll(j - 1), ConfirmEvent(j - 1, true),
        Waiting(total, amounts, j - 1), Confirm(Waiting(total, amounts, j - 1), j - 1, true).value);
    }
  }
}
