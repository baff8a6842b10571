/** Recording payments under idempotency keys, into checkouts and cash drawers
    (payments.service.ts, cash-sessions.service.ts). One recording is one transaction that
    holds the checkout lock, then the drawer lock, and inserts its key last. */
module PaymentDesk {
  import opened Money
  import opened Options
  import S = Settlement
  import R = SettlementRuns
  import Cash

  datatype KeyId = KeyId(membership: string, key: string)

  /** A request is its own fingerprint: the digest is taken to be injective. */
  datatype Request = Request(checkout: nat, amount: int, session: Option<nat>, details: string)
  datatype KeyRow = KeyRow(request: Request, record: nat)
  /** A payment record: which payment of which checkout, for how much, into which drawer. */
  datatype Record = Record(checkout: nat, index: nat, amount: int, session: Option<nat>, key: KeyId)

  datatype Desk = Desk(checkouts: seq<S.Rows>, drawers: seq<Cash.Drawer>, records: seq<Record>,
      keys: map<KeyId, KeyRow>)

  datatype Attempt = Recorded(desk: Desk) | Refused | KeyTaken

  function ReceiveInto(d: Desk, r: Request, envOk: bool): Result<seq<Cash.Drawer>> {
    if r.session.None? then Ok(d.drawers)
    else if r.session.value >= |d.drawers| then Err
    else
      var received := Cash.Receive(d.drawers[r.session.value], |d.records|, r.amount, envOk);
      if received.Err? then Err else Ok(d.drawers[r.session.value := received.value])
  }

  /** Everything up to the key insert: the checkout's own rules, then the drawer's. */
  function Prepare(d: Desk, r: Request, envOk: bool): Result<(S.Rows, seq<Cash.Drawer>)> {
    if r.checkout >= |d.checkouts| then Err
    else
      var rows, drawers := S.Record(d.checkouts[r.checkout], r.amount, envOk), ReceiveInto(d, r, envOk);
      if rows.Err? || drawers.Err? then Err else Ok((rows.value, drawers.value))
  }

  function Inserted(d: Desk, r: Request, key: KeyId, rows: S.Rows, drawers: seq<Cash.Drawer>): Desk
    requires r.checkout < |d.checkouts|
  {
    Desk(d.checkouts[r.checkout := rows], drawers,
         d.records + [Record(r.checkout, |d.checkouts[r.checkout].payments|, r.amount, r.session, key)],
         d.keys[key := KeyRow(r, |d.records|)])
  }

  function TryRecord(d: Desk, r: Request, key: KeyId, envOk: bool): Attempt {
    var prepared := Prepare(d, r, envOk);
    if prepared.Err? then Refused
    else if key in d.keys then KeyTaken
    else Recorded(Inserted(d, r, key, prepared.value.0, prepared.value.1))
  }

  datatype Answer = Absent | Known(record: nat) | Conflicting

  function CheckIdempotentReplay(d: Desk, r: Request, key: KeyId): Answer {
    if key !in d.keys then Absent
    else if d.keys[key].request != r then Conflicting
    else if d.keys[key].record < |d.records| then Known(d.keys[key].record)
    else Absent
  }

  // ---------- What other requests do ----------

  datatype Event =
    | PayEvent(r: Request, key: KeyId, envOk: bool)
    | CheckoutEvent(checkout: nat, command: R.Event)
    | DrawerEvent(drawer: nat, movement: Cash.Event)

  /** A later command on a payment: confirm, dispute, void or resolve. */
  predicate IsFollowUp(e: R.Event) {
    e.ConfirmEvent? || e.DisputeEvent? || e.VoidPaymentEvent? || e.ResolveEvent?
  }

  function Step(d: Desk, e: Event): Desk {
    match e
    case PayEvent(r, key, envOk) =>
      var attempt := TryRecord(d, r, key, envOk);
      if attempt.Recorded? then attempt.desk else d
    case CheckoutEvent(c, command) =>
      if c < |d.checkouts| && IsFollowUp(command) && R.Command(d.checkouts[c], command).Ok?
      then d.(checkouts := d.checkouts[c := R.Command(d.checkouts[c], command).value]) else d
    case DrawerEvent(s, command) =>
      if s < |d.drawers| && !command.ReceiveEvent?
      then d.(drawers := d.drawers[s := Cash.Step(d.drawers[s], command)]) else d
  }

  function Run(d: Desk, events: seq<Event>): Desk {
    if events == [] then d else Step(Run(d, events[..|events| - 1]), events[|events| - 1])
  }

  // ---------- One request ----------

  datatype Outcome = Paid(record: nat) | Replayed(record: nat) | Conflict | Rejected

  function Reply(a: Answer): Outcome {
    match a
    case Absent => Rejected
    case Known(record) => Replayed(record)
    case Conflicting => Conflict
  }

  datatype Handled = Handled(desk: Desk, outcome: Outcome)

  /** Look the key up; let others run; record, or answer with the key that got there first. */
  function RecordSpec(d: Desk, r: Request, key: KeyId, envOk: bool, others: seq<Event>): Handled {
    var known := CheckIdempotentReplay(d, r, key);
    if !known.Absent? then Handled(d, Reply(known))
    else
      var found := Run(d, others);
      match TryRecord(found, r, key, envOk)
      case Recorded(after) => Handled(after, Paid(|found.records|))
      case Refused => Handled(found, Rejected)
      case KeyTaken => Handled(found, Reply(CheckIdempotentReplay(found, r, key)))
  }

  class PaymentsService {
    var checkouts: seq<S.Rows>
    var drawers: seq<Cash.Drawer>
    var records: seq<Record>
    var keys: map<KeyId, KeyRow>

    function State(): Desk reads this { Desk(checkouts, drawers, records, keys) }

    constructor (checkouts: seq<S.Rows>, drawers: seq<Cash.Drawer>)
      ensures State() == Desk(checkouts, drawers, [], map[])
    {
      this.checkouts, this.drawers, this.records, this.keys := checkouts, drawers, [], map[];
    }

    method Interfere(others: seq<Event>)
      modifies this
      ensures State() == Run(old(State()), others)
    {
      var after := Run(State(), others);
      checkouts, drawers, records, keys := after.checkouts, after.drawers, after.records, after.keys;
    }

    method RecordInTransaction(r: Request, key: KeyId, envOk: bool) returns (attempt: Attempt)
      modifies this
      ensures attempt == TryRecord(old(State()), r, key, envOk)
      ensures State() == if attempt.Recorded? then attempt.desk else old(State())
    {
      if r.checkout >= |checkouts| { return Refused; }
      var rows := S.Record(checkouts[r.checkout], r.amount, envOk);
      if rows.Err? { return Refused; }
      var received := ReceiveInto(State(), r, envOk);
      if received.Err? { return Refused; }
      if key in keys { return KeyTaken; }
      var index := |checkouts[r.checkout].payments|;
      keys := keys[key := KeyRow(r, |records|)];
      records := records + [Record(r.checkout, index, r.amount, r.session, key)];
      checkouts, drawers := checkouts[r.checkout := rows.value], received.value;
      attempt := Recorded(State());
    }

    method RecordPayment(r: Request, key: KeyId, envOk: bool, others: seq<Event>) returns (outcome: Outcome)
      modifies this
      ensures Handled(State(), outcome) == RecordSpec(old(State()), r, key, envOk, others)
    {
      var known := CheckIdempotentReplay(State(), r, key);
      if !known.Absent? { return Reply(known); }
      Interfere(others);
      var attempt := RecordInTransaction(r, key, envOk);
      match attempt
      case Recorded(_) => outcome := Paid(|records| - 1);
      case Refused => outcome := Rejected;
      case KeyTaken => outcome := Reply(CheckIdempotentReplay(State(), r, key));
    }
  }

  // ---------- The invariant ----------

  ghost predicate KeysOwn(d: Desk) {
    && (forall k :: k in d.keys ==> d.keys[k].record < |d.records| && d.records[d.keys[k].record].key == k)
    && (forall i :: 0 <= i < |d.records| ==> d.records[i].key in d.keys && d.keys[d.records[i].key].record == i)
  }

  /** A record stands for a payment of its checkout, of the same amount. */
  ghost predicate IsPayment(d: Desk, x: Record) {
    && x.checkout < |d.checkouts| && x.index < |d.checkouts[x.checkout].payments|
    && d.checkouts[x.checkout].payments[x.index].amount == x.amount
  }

  function InCheckout(c: nat): Record -> int {
    (x: Record) => if x.checkout == c then 1 else 0
  }

  /** Records and payments correspond: each record has its own payment and none is left over. */
  ghost predicate RecordsArePayments(d: Desk) {
    && (forall i :: 0 <= i < |d.records| ==> IsPayment(d, d.records[i]))
    && (forall i, j :: 0 <= i < j < |d.records| && d.records[i].checkout == d.records[j].checkout ==>
          d.records[i].index < d.records[j].index)
    && (forall c: nat :: c < |d.checkouts| ==> |d.checkouts[c].payments| == SumBy(InCheckout(c), d.records))
  }

  function Names(i: nat): Cash.Entry -> int {
    (e: Cash.Entry) => if e.payment == Some(i) then 1 else 0
  }

  function EntriesFor(ledger: seq<Cash.Entry>, i: nat): int {
    SumBy(Names(i), ledger)
  }

  function Expects(d: Desk, s: nat, i: nat): int {
    if i < |d.records| && d.records[i].session == Some(s) then 1 else 0
  }

  function PaidInto(s: nat): Record -> int {
    (x: Record) => if x.session == Some(s) then x.amount else 0
  }

  /** A drawer's ledger names each of its payments exactly once, and receives their amounts. */
  ghost predicate LedgerMatches(d: Desk, s: nat)
    requires s < |d.drawers|
  {
    && (forall i: nat :: EntriesFor(d.drawers[s].ledger, i) == Expects(d, s, i))
    && EntriesFit(d, d.drawers[s].ledger)
    && Cash.Of(Cash.PAYMENT_RECEIVED, d.drawers[s].ledger) == SumBy(PaidInto(s), d.records)
  }

  /** Every entry that names a record fits it. */
  ghost predicate EntriesFit(d: Desk, ledger: seq<Cash.Entry>) {
    forall j :: 0 <= j < |ledger| && ledger[j].payment.Some? ==> EntryFits(d, ledger[j])
  }

  ghost predicate EntryFits(d: Desk, e: Cash.Entry)
    requires e.payment.Some?
  {
    e.payment.value < |d.records| && e.kind == Cash.PAYMENT_RECEIVED && e.amount == d.records[e.payment.value].amount
  }

  ghost predicate Inv(d: Desk) {
    && KeysOwn(d) && RecordsArePayments(d)
    && SessionsExist(d)
    && forall s :: 0 <= s < |d.drawers| ==> LedgerMatches(d, s)
  }

  // ---------- A payment keeps it ----------

  lemma RecordAddsOne(rows: S.Rows, amount: int, envOk: bool)
    requires S.Record(rows, amount, envOk).Ok?
    ensures S.Record(rows, amount, envOk).value.payments == rows.payments + [S.Payment(amount, S.RECORDED, 1)]
  {
  }

  lemma PayKeepsRecords(d: Desk, r: Request, key: KeyId, envOk: bool)
    requires RecordsArePayments(d) && Prepare(d, r, envOk).Ok?
    ensures RecordsArePayments(Inserted(d, r, key, Prepare(d, r, envOk).value.0, Prepare(d, r, envOk).value.1))
  {
    var prepared := Prepare(d, r, envOk).value;
    RecordAddsOne(d.checkouts[r.checkout], r.amount, envOk);
    OneMoreRecord(d, r, key, prepared.0, prepared.1);
  }

  lemma OneMoreRecord(d: Desk, r: Request, key: KeyId, rows: S.Rows, drawers: seq<Cash.Drawer>)
    requires RecordsArePayments(d) && r.checkout < |d.checkouts|
    requires rows.payments == d.checkouts[r.checkout].payments + [S.Payment(r.amount, S.RECORDED, 1)]
    ensures RecordsArePayments(Inserted(d, r, key, rows, drawers))
  {
    var after := Inserted(d, r, key, rows, drawers);
    forall i | 0 <= i < |after.records| ensures IsPayment(after, after.records[i]) {
      assert i < |d.records| ==> IsPayment(d, d.records[i]);
    }
    forall i | 0 <= i < |d.records| && d.records[i].checkout == r.checkout
      ensures d.records[i].index < |d.checkouts[r.checkout].payments|
    {
      assert IsPayment(d, d.records[i]);
    }
    forall c: nat | c < |after.checkouts| ensures |after.checkouts[c].payments| == SumBy(InCheckout(c), after.records) {
      SumByAppend(InCheckout(c), d.records, after.records[|d.records|]);
    }
  }

  lemma PayKeepsLedgers(d: Desk, r: Request, key: KeyId, envOk: bool, s: nat)
    requires s < |d.drawers| && LedgerMatches(d, s) && Prepare(d, r, envOk).Ok?
    ensures LedgerMatches(Inserted(d, r, key, Prepare(d, r, envOk).value.0, Prepare(d, r, envOk).value.1), s)
  {
    var prepared := Prepare(d, r, envOk).value;
    var after := Inserted(d, r, key, prepared.0, prepared.1);
    var ledger, entry := d.drawers[s].ledger, Cash.Entry(Cash.PAYMENT_RECEIVED, r.amount, Some(|d.records|));
    assert after.drawers[s].ledger == if r.session == Some(s) then ledger + [entry] else ledger;
    SumByAppend(PaidInto(s), d.records, after.records[|d.records|]);
    SumByAppend(Cash.IsKind(Cash.PAYMENT_RECEIVED), ledger, entry);
    forall i: nat ensures EntriesFor(after.drawers[s].ledger, i) == Expects(after, s, i) {
      assert EntriesFor(ledger, i) == Expects(d, s, i);
      SumByAppend(Names(i), ledger, entry);
    }
    forall j | 0 <= j < |after.drawers[s].ledger| && after.drawers[s].ledger[j].payment.Some?
      ensures EntryFits(after, after.drawers[s].ledger[j])
    {
      assert j < |ledger| ==> EntryFits(d, ledger[j]);
    }
  }

  lemma PayKeepsKeys(d: Desk, r: Request, key: KeyId, rows: S.Rows, drawers: seq<Cash.Drawer>)
    requires KeysOwn(d) && key !in d.keys && r.checkout < |d.checkouts|
    ensures KeysOwn(Inserted(d, r, key, rows, drawers))
  {
  }

  /** Every record's drawer exists. */
  ghost predicate SessionsExist(d: Desk) {
    forall i :: 0 <= i < |d.records| && d.records[i].session.Some? ==> d.records[i].session.value < |d.drawers|
  }

  lemma PayKeepsSessions(d: Desk, r: Request, key: KeyId, envOk: bool)
    requires SessionsExist(d) && Prepare(d, r, envOk).Ok?
    ensures SessionsExist(Inserted(d, r, key, Prepare(d, r, envOk).value.0, Prepare(d, r, envOk).value.1))
    ensures |Prepare(d, r, envOk).value.1| == |d.drawers|
  {
  }

  lemma PayKeepsInv(d: Desk, r: Request, key: KeyId, envOk: bool)
    requires Inv(d) && Prepare(d, r, envOk).Ok? && key !in d.keys
    ensures Inv(Inserted(d, r, key, Prepare(d, r, envOk).value.0, Prepare(d, r, envOk).value.1))
  {
    var prepared := Prepare(d, r, envOk).value;
    PayKeepsRecords(d, r, key, envOk);
    PayKeepsKeys(d, r, key, prepared.0, prepared.1);
    PayKeepsSessions(d, r, key, envOk);
    var after := Inserted(d, r, key, prepared.0, prepared.1);
    forall s | 0 <= s < |after.drawers| ensures LedgerMatches(after, s) {
      PayKeepsLedgers(d, r, key, envOk, s);
    }
  }

  // ---------- Other steps keep it ----------

  lemma FollowUpKeepsAmounts(rows: S.Rows, e: R.Event)
    requires IsFollowUp(e) && R.Command(rows, e).Ok?
    ensures |R.Command(rows, e).value.payments| == |rows.payments|
    ensures forall i :: 0 <= i < |rows.payments| ==>
      R.Command(rows, e).value.payments[i].amount == rows.payments[i].amount
  {
  }

  lemma CheckoutEventKeepsInv(d: Desk, c: nat, e: R.Event)
    requires Inv(d)
    ensures Inv(Step(d, CheckoutEvent(c, e)))
  {
    var after := Step(d, CheckoutEvent(c, e));
    if c < |d.checkouts| && IsFollowUp(e) && R.Command(d.checkouts[c], e).Ok? {
      FollowUpKeepsAmounts(d.checkouts[c], e);
      SamePayments(d, after);
      forall s | 0 <= s < |d.drawers| ensures LedgerMatches(after, s) {
        SameRecordsSameMatch(d, after, s);
      }
    }
  }

  lemma SamePayments(d: Desk, after: Desk)
    requires RecordsArePayments(d) && after.records == d.records && |after.checkouts| == |d.checkouts|
    requires forall c :: 0 <= c < |d.checkouts| ==>
      |after.checkouts[c].payments| == |d.checkouts[c].payments|
      && forall p :: 0 <= p < |d.checkouts[c].payments| ==>
          after.checkouts[c].payments[p].amount == d.checkouts[c].payments[p].amount
    ensures RecordsArePayments(after)
  {
    forall i | 0 <= i < |d.records| ensures IsPayment(after, d.records[i]) {
      assert IsPayment(d, d.records[i]);
    }
  }

  lemma SameRecordsSameMatch(d: Desk, after: Desk, s: nat)
    requires s < |d.drawers| == |after.drawers| && LedgerMatches(d, s)
    requires after.records == d.records && after.drawers[s].ledger == d.drawers[s].ledger
    ensures LedgerMatches(after, s)
  {
    forall i: nat ensures EntriesFor(after.drawers[s].ledger, i) == Expects(after, s, i) {
      assert EntriesFor(d.drawers[s].ledger, i) == Expects(d, s, i);
    }
    forall j | 0 <= j < |after.drawers[s].ledger| && after.drawers[s].ledger[j].payment.Some?
      ensures EntryFits(after, after.drawers[s].ledger[j])
    {
      assert EntryFits(d, d.drawers[s].ledger[j]);
    }
  }

  predicate NoPayment(e: Cash.Entry) {
    e.payment.None? && e.kind != Cash.PAYMENT_RECEIVED
  }

  /** Only a payment received adds to what a drawer received or names a record. */
  lemma DrawerCommandAddsNoPayment(drawer: Cash.Drawer, e: Cash.Event)
    requires !e.ReceiveEvent?
    ensures var after := Cash.Step(drawer, e).ledger;
            after == drawer.ledger || exists x: Cash.Entry :: after == drawer.ledger + [x] && NoPayment(x)
  {
    match e
    case MoveEvent(kind, amount, envOk) =>
      assert Cash.Append(drawer, Cash.Entry(kind, amount, None)).ledger
        == drawer.ledger + [Cash.Entry(kind, amount, None)];
    case RefundEvent(amount, envOk) =>
      assert Cash.Append(drawer, Cash.Entry(Cash.REFUND_PAID, amount, None)).ledger
        == drawer.ledger + [Cash.Entry(Cash.REFUND_PAID, amount, None)];
    case CloseEvent(_, _) =>
    case ReviewEvent(_) =>
  }

  lemma OtherEntryKeepsMatch(d: Desk, s: nat, x: Cash.Entry, after: Desk)
    requires s < |d.drawers| == |after.drawers| && LedgerMatches(d, s)
    requires NoPayment(x)
    requires after.records == d.records && after.drawers[s].ledger == d.drawers[s].ledger + [x]
    ensures LedgerMatches(after, s)
  {
    var ledger := d.drawers[s].ledger;
    SumByAppend(Cash.IsKind(Cash.PAYMENT_RECEIVED), ledger, x);
    forall i: nat ensures EntriesFor(after.drawers[s].ledger, i) == Expects(after, s, i) {
      assert EntriesFor(ledger, i) == Expects(d, s, i);
      SumByAppend(Names(i), ledger, x);
    }
    forall j | 0 <= j < |after.drawers[s].ledger| && after.drawers[s].ledger[j].payment.Some?
      ensures EntryFits(after, after.drawers[s].ledger[j])
    {
      assert EntryFits(d, ledger[j]);
    }
  }

  lemma DrawerEventKeepsInv(d: Desk, s: nat, e: Cash.Event)
    requires Inv(d)
    ensures Inv(Step(d, DrawerEvent(s, e)))
  {
    var after := Step(d, DrawerEvent(s, e));
    assert after.checkouts == d.checkouts && after.records == d.records;
    SamePayments(d, after);
    forall t | 0 <= t < |d.drawers| ensures LedgerMatches(after, t) {
      if after.drawers[t].ledger == d.drawers[t].ledger {
        SameRecordsSameMatch(d, after, t);
      } else {
        DrawerCommandAddsNoPayment(d.drawers[t], e);
        var x :| after.drawers[t].ledger == d.drawers[t].ledger + [x] && NoPayment(x);
        OtherEntryKeepsMatch(d, t, x, after);
      }
    }
  }

  lemma {:induction false} RunKeepsInv(d: Desk, events: seq<Event>)
    requires Inv(d)
    ensures Inv(Run(d, events))
  {
    if events != [] {
      var before := Run(d, events[..|events| - 1]);
      RunKeepsInv(d, events[..|events| - 1]);
      match events[|events| - 1]
      case PayEvent(r, key, envOk) =>
        if TryRecord(before, r, key, envOk).Recorded? { PayKeepsInv(before, r, key, envOk); }
      case CheckoutEvent(c, e) => CheckoutEventKeepsInv(before, c, e);
      case DrawerEvent(s, e) => DrawerEventKeepsInv(before, s, e);
    }
  }

  // ---------- Main results ----------

  ghost predicate FreshDesk(d: Desk) {
    && d.records == [] && d.keys == map[]
    && (forall c :: 0 <= c < |d.checkouts| ==> d.checkouts[c].payments == [])
    && (forall s :: 0 <= s < |d.drawers| ==> exists float :: Cash.Open(float) == Ok(d.drawers[s]))
  }

  lemma FreshDeskInv(d: Desk)
    requires FreshDesk(d)
    ensures Inv(d)
  {
    forall s | 0 <= s < |d.drawers| ensures LedgerMatches(d, s) {
      var float :| Cash.Open(float) == Ok(d.drawers[s]);
      var entry := Cash.Entry(Cash.OPENING_FLOAT, float, None);
      SumByAppend(Cash.IsKind(Cash.PAYMENT_RECEIVED), [], entry);
      assert [] + [entry] == [entry];
      forall i: nat ensures EntriesFor(d.drawers[s].ledger, i) == 0 { SumByAppend(Names(i), [], entry); }
    }
  }

  /** However payments, retries, later commands and drawer movements interleave: a key belongs
      to at most one payment record; a payment recorded into a drawer has exactly one ledger
      entry there, of its applied amount, and none in any other drawer; and what a drawer's
      ledger received is exactly what was paid into it. */
  lemma {:induction false} PaymentCustody(d: Desk, events: seq<Event>)
    requires FreshDesk(d)
    ensures var after := Run(d, events);
            && (forall i, j :: 0 <= i < j < |after.records| ==> after.records[i].key != after.records[j].key)
            && (forall s: nat, i: nat :: s < |after.drawers| && i < |after.records| ==>
                  EntriesFor(after.drawers[s].ledger, i) == Expects(after, s, i))
            && (forall s :: 0 <= s < |after.drawers| ==> EntriesFit(after, after.drawers[s].ledger))
            && (forall s :: 0 <= s < |after.drawers| ==>
                  Cash.Of(Cash.PAYMENT_RECEIVED, after.drawers[s].ledger) == SumBy(PaidInto(s), after.records))
  {
    FreshDeskInv(d);
    RunKeepsInv(d, events);
    var after := Run(d, events);
    forall s: nat, i: nat | s < |after.drawers| && i < |after.records|
      ensures EntriesFor(after.drawers[s].ledger, i) == Expects(after, s, i)
    {
      assert LedgerMatches(after, s);
    }
    forall s | 0 <= s < |after.drawers| ensures EntriesFit(after, after.drawers[s].ledger) {
      assert LedgerMatches(after, s);
    }
    forall s | 0 <= s < |after.drawers|
      ensures Cash.Of(Cash.PAYMENT_RECEIVED, after.drawers[s].ledger) == SumBy(PaidInto(s), after.records)
    {
      assert LedgerMatches(after, s);
    }
  }

  lemma {:induction false} KeysStay(d: Desk, events: seq<Event>)
    ensures |d.records| <= |Run(d, events).records|
    ensures forall k :: k in d.keys ==> k in Run(d, events).keys && Run(d, events).keys[k] == d.keys[k]
  {
    if events != [] {
      KeysStay(d, events[..|events| - 1]);
    }
  }

  /** Once a payment is recorded, every retry of the same request answers that payment and
      records nothing; the key with a different request is a conflict. */
  lemma {:induction false} RetryReplays(d: Desk, r: Request, key: KeyId, envOk: bool, before: seq<Event>,
      events: seq<Event>, retry: Request, retryOk: bool, others: seq<Event>)
    requires RecordSpec(d, r, key, envOk, before).outcome.Paid?
    ensures var first := RecordSpec(d, r, key, envOk, before); var again := Run(first.desk, events);
            RecordSpec(again, retry, key, retryOk, others)
            == Handled(again, if retry == r then Replayed(first.outcome.record) else Conflict)
  {
    KeysStay(RecordSpec(d, r, key, envOk, before).desk, events);
  }

  /** A twin that commits between the look-up and the transaction: the later request is
      answered with the twin's payment exactly when the checkout's balance had room for both,
      and otherwise refused, for the balance is checked before the key. */
  lemma RacingPayment(d: Desk, r: Request, key: KeyId)
    requires TryRecord(d, r, key, true).Recorded? && d.checkouts[r.checkout].checkout.total <= POSTGRES_INT_MAX
    ensures var rows := d.checkouts[r.checkout]; var handled := RecordSpec(d, r, key, true, [PayEvent(r, key, true)]);
            && handled.desk == TryRecord(d, r, key, true).desk
            && handled.outcome
               == if S.ActiveTotal(rows.payments) + 2 * r.amount <= rows.checkout.total then Replayed(|d.records|)
                  else Rejected
  {
    var e := PayEvent(r, key, true);
    assert [e][..0] == [] && [e][0] == e;
    assert Run(d, [e]) == Step(Run(d, []), e);
    var rows, found := d.checkouts[r.checkout], TryRecord(d, r, key, true).desk;
    TwinRecord(rows, r.amount);
    assert found.checkouts[r.checkout] == S.Record(rows, r.amount, true).value;
    assert ReceiveInto(found, r, true).Ok?;
  }

  lemma TwinRecord(rows: S.Rows, amount: int)
    requires S.Record(rows, amount, true).Ok? && rows.checkout.total <= POSTGRES_INT_MAX
    ensures S.Record(S.Record(rows, amount, true).value, amount, true).Ok? <==>
      S.ActiveTotal(rows.payments) + 2 * amount <= rows.checkout.total
  {
    var added := S.Payment(amount, S.RECORDED, 1);
    RecordAddsOne(rows, amount, true);
    SumByAppend(S.ActiveWeight(), rows.payments, added);
    var once := rows.payments + [added];
    assert once[|rows.payments|].status == S.RECORDED;
    assert S.Some(once, S.RECORDED);
    var twice := once + [added];
    assert twice[|rows.payments|].status == S.RECORDED;
    assert S.Some(twice, S.RECORDED);
  }

  /** A payment that is recorded is the one asked for: its record names the checkout, amount,
      drawer and key of the request, its payment is the checkout's newest, awaiting
      confirmation, and the drawer asked for, and only that one, has received it. */
  lemma {:induction false} PaidAsAsked(d: Desk, r: Request, key: KeyId, envOk: bool, others: seq<Event>)
    requires RecordSpec(d, r, key, envOk, others).outcome.Paid?
    ensures var found, handled := Run(d, others), RecordSpec(d, r, key, envOk, others);
            var after, n := handled.desk, handled.outcome.record;
            && r.checkout < |found.checkouts| && n == |found.records|
            && after.records == found.records
                 + [Record(r.checkout, |found.checkouts[r.checkout].payments|, r.amount, r.session, key)]
            && |after.checkouts| == |found.checkouts|
            && after.checkouts[r.checkout].payments
               == found.checkouts[r.checkout].payments + [S.Payment(r.amount, S.RECORDED, 1)]
            && (forall c :: 0 <= c < |found.checkouts| && c != r.checkout ==> after.checkouts[c] == found.checkouts[c])
            && |after.drawers| == |found.drawers|
            && forall s: nat :: s < |found.drawers| ==>
                 after.drawers[s].ledger
                 == found.drawers[s].ledger
                    + if r.session == Some(s) then [Cash.Entry(Cash.PAYMENT_RECEIVED, r.amount, Some(n))] else []
  {
    var found := Run(d, others);
    RecordAddsOne(found.checkouts[r.checkout], r.amount, envOk);
    assert forall s :: 0 <= s < |found.drawers| ==> found.drawers[s].ledger + [] == found.drawers[s].ledger;
  }
}
