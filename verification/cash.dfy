/** A cash drawer's custody ledger (cash-sessions.service.ts, cash-expected-balance.util.ts,
    cash-ledger-direction.util.ts). Commands on one drawer run under its row lock; `envOk`
    stands for the access, branch and currency checks. */
module Cash {
  import opened Money
  import opened Options

  datatype EntryType = OPENING_FLOAT | PAYMENT_RECEIVED | CASH_IN | CASH_OUT | SAFE_DROP | REFUND_PAID
  datatype Status = OPEN | CLOSED | REVIEWED

  /** A positive amount; a payment received names its payment record. */
  datatype Entry = Entry(kind: EntryType, amount: int, payment: Option<nat>)

  datatype Count = Count(expected: int, counted: int, variance: int)

  datatype Drawer = Drawer(status: Status, float: int, ledger: seq<Entry>, version: int, count: Option<Count>)

  function Direction(kind: EntryType): int {
    match kind
    case OPENING_FLOAT | PAYMENT_RECEIVED | CASH_IN => 1
    case CASH_OUT | SAFE_DROP | REFUND_PAID => -1
  }

  function Signed(): Entry -> int {
    (e: Entry) => e.amount * Direction(e.kind)
  }

  function Expected(ledger: seq<Entry>): int {
    SumBy(Signed(), ledger)
  }

  function IsKind(kind: EntryType): Entry -> int {
    (e: Entry) => if e.kind == kind then e.amount else 0
  }

  function Of(kind: EntryType, ledger: seq<Entry>): int {
    SumBy(IsKind(kind), ledger)
  }

  /** What the drawer should hold: float, receipts and cash in, less cash out, drops and refunds. */
  lemma {:induction false} ExpectedIsCustody(ledger: seq<Entry>)
    ensures Expected(ledger) == Of(OPENING_FLOAT, ledger) + Of(PAYMENT_RECEIVED, ledger) + Of(CASH_IN, ledger)
                                - Of(CASH_OUT, ledger) - Of(SAFE_DROP, ledger) - Of(REFUND_PAID, ledger)
  {
    if ledger != [] {
      ExpectedIsCustody(ledger[1..]);
    }
  }

  /** The order in which the entries are read does not matter. */
  lemma ExpectedIgnoresOrder(a: seq<Entry>, b: seq<Entry>)
    requires multiset(a) == multiset(b)
    ensures Expected(a) == Expected(b)
  {
    SumByPermutes(Signed(), a, b);
  }

  // ---------- Commands ----------

  function Open(float: int): Result<Drawer> {
    if !IsSafeMoneyAmount(float, 0) then Err
    else Ok(Drawer(Status.OPEN, float, if float > 0 then [Entry(OPENING_FLOAT, float, None)] else [], 1, None))
  }

  function Append(d: Drawer, e: Entry): Drawer {
    d.(ledger := d.ledger + [e])
  }

  predicate Manual(kind: EntryType) {
    kind.CASH_IN? || kind.CASH_OUT? || kind.SAFE_DROP?
  }

  function Move(d: Drawer, kind: EntryType, amount: int, envOk: bool): Result<Drawer> {
    if !Manual(kind) || !IsSafeMoneyAmount(amount, 1) || !envOk || !d.status.OPEN? then Err
    else Ok(Append(d, Entry(kind, amount, None)))
  }

  function Receive(d: Drawer, payment: nat, amount: int, envOk: bool): Result<Drawer> {
    if !envOk || !d.status.OPEN? then Err else Ok(Append(d, Entry(PAYMENT_RECEIVED, amount, Some(payment))))
  }

  function PayRefund(d: Drawer, amount: int, envOk: bool): Result<Drawer> {
    if !envOk || !d.status.OPEN? then Err else Ok(Append(d, Entry(REFUND_PAID, amount, None)))
  }

  /** The stored expectation must fit its column, which is checked to be non-negative. */
  predicate Storable(expected: int) {
    0 <= expected <= POSTGRES_INT_MAX
  }

  function Close(d: Drawer, counted: int, envOk: bool): Result<Drawer> {
    if !IsSafeMoneyAmount(counted, 0) || !envOk || !d.status.OPEN? || !Storable(Expected(d.ledger)) then Err
    else Ok(d.(status := CLOSED, version := d.version + 1,
               count := Some(Count(Expected(d.ledger), counted, counted - Expected(d.ledger)))))
  }

  /** Commits a review decided on an earlier read. */
  function Review(d: Drawer, seenVersion: int): Result<Drawer> {
    if !d.status.CLOSED? || d.version != seenVersion then Err
    else Ok(d.(status := REVIEWED, version := d.version + 1))
  }

  class CashSession {
    var status: Status
    const float: int
    var ledger: seq<Entry>
    var version: int
    var count: Option<Count>

    function State(): Drawer reads this { Drawer(status, float, ledger, version, count) }

    constructor (float: int)
      requires IsSafeMoneyAmount(float, 0)
      ensures Open(float) == Ok(State())
    {
      this.status, this.float, this.version, this.count := Status.OPEN, float, 1, None;
      this.ledger := if float > 0 then [Entry(OPENING_FLOAT, float, None)] else [];
    }

    /** An unsafe float opens nothing. */
    static method OpenSession(float: int) returns (session: CashSession?)
      ensures session == null <==> Open(float).Err?
      ensures session != null ==> fresh(session) && Open(float) == Ok(session.State())
    {
      session := null;
      if IsSafeMoneyAmount(float, 0) { session := new CashSession(float); }
    }

    method Add(e: Entry)
      modifies this`ledger
      ensures State() == Append(old(State()), e)
    {
      ledger := ledger + [e];
    }

    method RecordMovement(kind: EntryType, amount: int, envOk: bool) returns (ok: bool)
      modifies this`ledger
      ensures ok == Move(old(State()), kind, amount, envOk).Ok?
      ensures State() == if ok then Move(old(State()), kind, amount, envOk).value else old(State())
    {
      ok := Manual(kind) && IsSafeMoneyAmount(amount, 1) && envOk && status.OPEN?;
      if ok { Add(Entry(kind, amount, None)); }
    }

    method RecordPaymentReceivedEntry(payment: nat, amount: int, envOk: bool) returns (ok: bool)
      modifies this`ledger
      ensures ok == Receive(old(State()), payment, amount, envOk).Ok?
      ensures State() == if ok then Receive(old(State()), payment, amount, envOk).value else old(State())
    {
      ok := envOk && status.OPEN?;
      if ok { Add(Entry(PAYMENT_RECEIVED, amount, Some(payment))); }
    }

    method RecordRefundPaidEntry(amount: int, envOk: bool) returns (ok: bool)
      modifies this`ledger
      ensures ok == PayRefund(old(State()), amount, envOk).Ok?
      ensures State() == if ok then PayRefund(old(State()), amount, envOk).value else old(State())
    {
      ok := envOk && status.OPEN?;
      if ok { Add(Entry(REFUND_PAID, amount, None)); }
    }

    method CloseSession(counted: int, envOk: bool) returns (ok: bool)
      modifies this
      ensures ok == Close(old(State()), counted, envOk).Ok?
      ensures State() == if ok then Close(old(State()), counted, envOk).value else old(State())
    {
      var expected := Expected(ledger);
      ok := IsSafeMoneyAmount(counted, 0) && envOk && status.OPEN? && Storable(expected);
      if ok {
        status, version := CLOSED, version + 1;
        count := Some(Count(expected, counted, counted - expected));
      }
    }

    method ReviewSession(seenVersion: int) returns (ok: bool)
      modifies this
      ensures ok == Review(old(State()), seenVersion).Ok?
      ensures State() == if ok then Review(old(State()), seenVersion).value else old(State())
    {
      ok := status.CLOSED? && version == seenVersion;
      if ok { status, version := REVIEWED, version + 1; }
    }
  }

  // ---------- Runs of one drawer ----------

  datatype Event =
    | MoveEvent(kind: EntryType, amount: int, envOk: bool)
    | ReceiveEvent(payment: nat, amount: int, envOk: bool)
    | RefundEvent(amount: int, envOk: bool)
    | CloseEvent(counted: int, envOk: bool)
    | ReviewEvent(seenVersion: int)

  function Command(d: Drawer, e: Event): Result<Drawer> {
    match e
    case MoveEvent(kind, amount, envOk) => Move(d, kind, amount, envOk)
    case ReceiveEvent(payment, amount, envOk) => Receive(d, payment, amount, envOk)
    case RefundEvent(amount, envOk) => PayRefund(d, amount, envOk)
    case CloseEvent(counted, envOk) => Close(d, counted, envOk)
    case ReviewEvent(seenVersion) => Review(d, seenVersion)
  }

  function Step(d: Drawer, e: Event): Drawer {
    if Command(d, e).Ok? then Command(d, e).value else d
  }

  function Run(d: Drawer, events: seq<Event>): Drawer {
    if events == [] then d else Step(Run(d, events[..|events| - 1]), events[|events| - 1])
  }

  /** Counted exactly when closed, and then against the whole ledger. */
  ghost predicate DrawerInv(d: Drawer) {
    && Of(OPENING_FLOAT, d.ledger) == d.float
    && (d.count.None? <==> d.status.OPEN?)
    && (d.count.Some? ==>
          d.count.value.expected == Expected(d.ledger) >= 0
            && d.count.value.variance == d.count.value.counted - d.count.value.expected)
  }

  lemma StepKeepsInv(d: Drawer, e: Event)
    requires DrawerInv(d)
    ensures DrawerInv(Step(d, e))
  {
    match e
    case MoveEvent(kind, amount, _) => SumByAppend(IsKind(OPENING_FLOAT), d.ledger, Entry(kind, amount, None));
    case ReceiveEvent(payment, amount, _) =>
      SumByAppend(IsKind(OPENING_FLOAT), d.ledger, Entry(PAYMENT_RECEIVED, amount, Some(payment)));
    case RefundEvent(amount, _) => SumByAppend(IsKind(OPENING_FLOAT), d.ledger, Entry(REFUND_PAID, amount, None));
    case CloseEvent(_, _) =>
    case ReviewEvent(_) =>
  }

  /** Whatever happens to a drawer: once closed or reviewed, its expectation is the signed sum
      of its whole ledger, opening float included, and its variance what was counted less that. */
  lemma {:induction false} CustodyHolds(float: int, events: seq<Event>)
    requires IsSafeMoneyAmount(float, 0)
    ensures DrawerInv(Run(Open(float).value, events))
  {
    if events == [] {
      SumByAppend(IsKind(OPENING_FLOAT), [], Entry(OPENING_FLOAT, float, None));
      assert [] + [Entry(OPENING_FLOAT, float, None)] == [Entry(OPENING_FLOAT, float, None)];
    } else {
      CustodyHolds(float, events[..|events| - 1]);
      StepKeepsInv(Run(Open(float).value, events[..|events| - 1]), events[|events| - 1]);
    }
  }

  /** A drawer that is no longer open never changes its ledger or its count, nor reopens. */
  lemma {:induction false} ClosedIsFrozen(d: Drawer, events: seq<Event>)
    requires !d.status.OPEN?
    ensures var after := Run(d, events); after.ledger == d.ledger && after.count == d.count && !after.status.OPEN?
  {
    if events != [] {
      ClosedIsFrozen(d, events[..|events| - 1]);
    }
  }

  /** Nothing keeps an open drawer's ledger from going below zero, but such a drawer cannot be
      closed by any count: it closes exactly when what it should hold is storable. */
  lemma ClosesIff(d: Drawer)
    requires d.status.OPEN?
    ensures (exists counted :: Close(d, counted, true).Ok?) <==> Storable(Expected(d.ledger))
    ensures Expected(Run(Open(0).value, [MoveEvent(CASH_OUT, 1, true)]).ledger) < 0
  {
    assert Storable(Expected(d.ledger)) ==> Close(d, 0, true).Ok?;
    var e := MoveEvent(CASH_OUT, 1, true);
    assert [e][..0] == [] && [e][0] == e;
    assert Run(Open(0).value, [e]) == Step(Run(Open(0).value, []), e);
    SumByAppend(Signed(), [], Entry(CASH_OUT, 1, None));
  }

  // ---------- The ledger as the record of what was asked ----------

  /** The event was carried out. */
  predicate Took(d: Drawer, e: Event) {
    Step(d, e) != d
  }

  /** The entry a request asks for. */
  function Asked(e: Event): seq<Entry> {
    match e
    case MoveEvent(kind, amount, _) => [Entry(kind, amount, None)]
    case ReceiveEvent(payment, amount, _) => [Entry(PAYMENT_RECEIVED, amount, Some(payment))]
    case RefundEvent(amount, _) => [Entry(REFUND_PAID, amount, None)]
    case CloseEvent(_, _) | ReviewEvent(_) => []
  }

  function History(d: Drawer, events: seq<Event>): seq<Entry> {
    if events == [] then []
    else
      var front, e := events[..|events| - 1], events[|events| - 1];
      History(d, front) + if Took(Run(d, front), e) then Asked(e) else []
  }

  lemma OneEntry(d: Drawer, e: Event)
    ensures Step(d, e).ledger == d.ledger + if Took(d, e) then Asked(e) else []
  {
    assert d.ledger + [] == d.ledger;
  }

  /** The ledger holds what it held and then, in order, the entries that were asked for and
      carried out: each of its own type, amount and payment, and no other. */
  lemma {:induction false} LedgerIsHistory(d: Drawer, events: seq<Event>)
    ensures Run(d, events).ledger == d.ledger + History(d, events)
  {
    if events != [] {
      LedgerIsHistory(d, events[..|events| - 1]);
      OneEntry(Run(d, events[..|events| - 1]), events[|events| - 1]);
    }
  }

  lemma LongerLedger(d: Drawer, x: Entry)
    ensures d.(ledger := d.ledger + [x]) != d
  {
    assert |d.ledger + [x]| != |d.ledger|;
  }

  /** What the drawer must be, and the request, for it to be carried out. */
  predicate Accepts(d: Drawer, e: Event) {
    match e
    case MoveEvent(kind, amount, envOk) =>
      (kind == CASH_IN || kind == CASH_OUT || kind == SAFE_DROP) && 1 <= amount <= 500_000_000 && envOk
      && d.status == OPEN
    case ReceiveEvent(_, _, envOk) => envOk && d.status == OPEN
    case RefundEvent(_, envOk) => envOk && d.status == OPEN
    case CloseEvent(counted, envOk) =>
      0 <= counted <= 500_000_000 && envOk && d.status == OPEN && 0 <= Expected(d.ledger) <= 2_147_483_647
    case ReviewEvent(seenVersion) => d.status == CLOSED && d.version == seenVersion
  }

  /** Entries and the close need an open drawer and safe amounts, the close an expectation its
      column takes, the review the closed drawer it read; nothing else is refused. */
  lemma TakesIff(d: Drawer, e: Event)
    ensures Took(d, e) <==> Accepts(d, e)
  {
    match e
    case MoveEvent(kind, amount, _) => LongerLedger(d, Entry(kind, amount, None));
    case ReceiveEvent(payment, amount, _) => LongerLedger(d, Entry(PAYMENT_RECEIVED, amount, Some(payment)));
    case RefundEvent(amount, _) => LongerLedger(d, Entry(REFUND_PAID, amount, None));
    case CloseEvent(_, _) =>
    case ReviewEvent(_) =>
  }

  /** A drawer opens with its float as the one entry, if there is any, and with nothing counted. */
  lemma OpensWithFloat(float: int)
    ensures Open(float).Ok? <==> 0 <= float <= 500_000_000
    ensures Open(float).Ok? ==>
      && Open(float).value.status == OPEN && Open(float).value.count == None && Open(float).value.float == float
      && Expected(Open(float).value.ledger) == float
      && Open(float).value.ledger == if float == 0 then [] else [Entry(OPENING_FLOAT, float, None)]
  {
    SumByAppend(Signed(), [], Entry(OPENING_FLOAT, float, None));
    assert [] + [Entry(OPENING_FLOAT, float, None)] == [Entry(OPENING_FLOAT, float, None)];
  }

  /** The count that closed a drawer is the one it keeps, whatever is asked of it afterwards:
      what was counted, what float, receipts and payments say should be there, and the
      difference. A review only marks it. */
  lemma {:induction false} CountStands(d: Drawer, counted: int, envOk: bool, later: seq<Event>)
    requires Took(d, CloseEvent(counted, envOk))
    ensures var after := Run(Step(d, CloseEvent(counted, envOk)), later);
            && after.count == Some(Count(Expected(d.ledger), counted, counted - Expected(d.ledger)))
            && after.ledger == d.ledger
            && (after.status == CLOSED || after.status == REVIEWED)
            && after.version == d.version + (if after.status == REVIEWED then 2 else 1)
            && (after.status == REVIEWED <==> exists k :: 0 <= k < |later| && later[k] == ReviewEvent(d.version + 1))
  {
    var closed := Step(d, CloseEvent(counted, envOk));
    if later != [] {
      var front, last := later[..|later| - 1], later[|later| - 1];
      CountStands(d, counted, envOk, front);
      ReviewedVersion(closed, front);
      if k :| 0 <= k < |front| && front[k] == ReviewEvent(d.version + 1) {
        assert later[k] == ReviewEvent(d.version + 1);
      }
      assert last == ReviewEvent(d.version + 1) ==> later[|later| - 1] == ReviewEvent(d.version + 1);
    }
  }

  /** A closed drawer's version stands until it is reviewed. */
  lemma {:induction false} ReviewedVersion(d: Drawer, events: seq<Event>)
    requires d.status == CLOSED
    ensures Run(d, events).status == CLOSED ==> Run(d, events) == d
  {
    if events != [] {
      ReviewedVersion(d, events[..|events| - 1]);
      ClosedIsFrozen(d, events[..|events| - 1]);
    }
  }
}
