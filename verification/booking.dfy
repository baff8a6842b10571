/** Booking, moving and ending appointments (appointment-booking.service.ts,
    appointment-commands.service.ts). The exclusion constraint and the unique index on
    idempotency keys are guards of the step that inserts or moves a row. */
module Booking {
  import opened Options
  import opened Sorting
  import opened Strings
  import opened Availability

  datatype Status = CONFIRMED | CANCELLED | NO_SHOW

  datatype KeyId = KeyId(customer: string, key: string)
  /** What a request asks for; its SHA-256 digest is taken to be injective. */
  datatype Fingerprint = Fingerprint(branch: string, serviceIds: seq<string>, start: int)
  datatype KeyRow = KeyRow(fingerprint: Fingerprint, appointment: nat)

  datatype Appointment = Appointment(staff: string, start: int, occupied: Window, duration: int, status: Status,
      version: int, key: Option<KeyId>)

  datatype Book = Book(appointments: seq<Appointment>, keys: map<KeyId, KeyRow>)

  datatype Request = Request(branch: string, items: seq<ServiceItem>, overrides: map<string, map<string, int>>,
      start: int, key: Option<KeyId>)

  function ServiceIds(items: seq<ServiceItem>): seq<string> {
    seq(|items|, i requires 0 <= i < |items| => items[i].serviceId)
  }

  function FingerprintOf(r: Request): Fingerprint {
    Fingerprint(r.branch, ServiceIds(r.items), r.start)
  }

  function DurationWith(r: Request, staff: string): int {
    TotalDuration(r.items, if staff in r.overrides then r.overrides[staff] else map[])
  }

  // ---------- One candidate ----------

  /** The exclusion constraint: another CONFIRMED appointment of this provider overlaps. */
  predicate Blocked(b: Book, staff: string, w: Window, except: int) {
    exists i :: 0 <= i < |b.appointments| && i != except && b.appointments[i].status == CONFIRMED
      && b.appointments[i].staff == staff
      && Overlap(w, b.appointments[i].occupied)
  }

  datatype Attempt = Created(book: Book) | Unavailable | Replay(row: KeyRow)

  function NewAppointment(r: Request, staff: string, policy: Policy): Appointment {
    var duration := DurationWith(r, staff);
    Appointment(staff, r.start, Occupied(r.start, duration, policy), duration, CONFIRMED, 1, r.key)
  }

  function Inserted(b: Book, r: Request, staff: string, policy: Policy): Book {
    Book(b.appointments + [NewAppointment(r, staff, policy)],
         if r.key.Some? then b.keys[r.key.value := KeyRow(FingerprintOf(r), |b.appointments|)] else b.keys)
  }

  predicate Free(b: Book, r: Request, staff: string, policy: Policy) {
    !Blocked(b, staff, Occupied(r.start, DurationWith(r, staff), policy), -1)
  }

  /** The appointment row is inserted before the key row, so a conflict is met first. */
  function AttemptSingleProvider(b: Book, r: Request, staff: string, policy: Policy): Attempt {
    if !Free(b, r, staff, policy) then Unavailable
    else if r.key.Some? && r.key.value in b.keys then Replay(b.keys[r.key.value])
    else Created(Inserted(b, r, staff, policy))
  }

  // ---------- Commands on one appointment ----------

  predicate Has(b: Book, i: nat) {
    i < |b.appointments| && b.appointments[i].status == CONFIRMED
  }

  /** Cancelling and marking a no-show are guarded by the status alone. */
  function Ended(b: Book, i: nat, to: Status): Book
    requires Has(b, i)
  {
    var a := b.appointments[i];
    b.(appointments := b.appointments[i := a.(status := to, version := a.version + 1)])
  }

  function Target(seen: Appointment, newStaff: Option<string>): string {
    if newStaff.Some? then newStaff.value else seen.staff
  }

  function Moved(b: Book, i: nat, seen: Appointment, newStart: int, newStaff: Option<string>, policy: Policy): Book
    requires Has(b, i)
  {
    var a := b.appointments[i];
    b.(appointments := b.appointments[i := a.(staff := Target(seen, newStaff), start := newStart,
      occupied := Occupied(newStart, seen.duration, policy), version := a.version + 1)])
  }

  /** The version read must still be stored, and the new window be free. */
  predicate Movable(b: Book, i: nat, seen: Appointment, newStart: int, newStaff: Option<string>, policy: Policy) {
    && Has(b, i) && b.appointments[i].version == seen.version
    && !Blocked(b, Target(seen, newStaff), Occupied(newStart, seen.duration, policy), i)
  }

  // ---------- What other requests may do in between ----------

  datatype Event =
    | AttemptEvent(r: Request, staff: string, policy: Policy)
    | EndEvent(i: nat, to: Status)
    | MoveEvent(i: nat, seen: Appointment, newStart: int, newStaff: Option<string>, policy: Policy)

  function Step(b: Book, e: Event): Book {
    match e
    case AttemptEvent(r, staff, policy) =>
      var attempt := AttemptSingleProvider(b, r, staff, policy);
      if attempt.Created? then attempt.book else b
    case EndEvent(i, to) => if Has(b, i) && !to.CONFIRMED? then Ended(b, i, to) else b
    case MoveEvent(i, seen, newStart, newStaff, policy) =>
      if Movable(b, i, seen, newStart, newStaff, policy) then Moved(b, i, seen, newStart, newStaff, policy) else b
  }

  function Run(b: Book, events: seq<Event>): Book {
    if events == [] then b else Step(Run(b, events[..|events| - 1]), events[|events| - 1])
  }

  // ---------- The candidate loop ----------

  const MS_PER_DAY: int := 86_400_000

  datatype Outcome =
    | Booked(appointment: nat)
    | Replayed(appointment: nat)
    | NoProvider
    | TooSoon
    | TooFar
    | KeyReused
    | SlotUnavailable
    | BookingUnavailable

  /** The book as candidate k's attempt finds it while every earlier one conflicts; others[k]
      is what other requests do just before that attempt. */
  function Before(b: Book, others: seq<seq<Event>>, k: nat): Book
    requires k < |others|
  {
    Run(if k == 0 then b else Before(b, others, k - 1), others[k])
  }

  ghost predicate ConflictedUpTo(b: Book, r: Request, candidates: seq<string>, policy: Policy, others: seq<seq<Event>>,
      n: nat)
    requires n <= |candidates| == |others|
  {
    forall k: nat :: k < n ==> !Free(Before(b, others, k), r, candidates[k], policy)
  }

  /** The first candidate whose window is free at its own attempt. */
  ghost predicate FirstFree(b: Book, r: Request, candidates: seq<string>, policy: Policy, others: seq<seq<Event>>,
      k: nat)
    requires |candidates| == |others|
  {
    k < |candidates| && ConflictedUpTo(b, r, candidates, policy, others, k)
      && Free(Before(b, others, k), r, candidates[k], policy)
  }

  function AnswerKey(row: KeyRow, r: Request, b: Book): Outcome {
    if row.fingerprint != FingerprintOf(r) then KeyReused
    else if row.appointment < |b.appointments| then Replayed(row.appointment)
    else BookingUnavailable
  }

  /** The key row found before the loop answers at once, unless its appointment is missing. */
  predicate AnsweredUpFront(b: Book, r: Request) {
    r.key.Some? && r.key.value in b.keys && !AnswerKey(b.keys[r.key.value], r, b).BookingUnavailable?
  }

  predicate InTime(start: int, policy: Policy, now: int) {
    now + policy.leadMinutes * MS_PER_MINUTE <= start <= now + policy.horizonDays * MS_PER_DAY
  }

  predicate Started(b: Book, i: nat, now: int) {
    Has(b, i) && b.appointments[i].start <= now
  }

  /** A customer, who has a cutoff in minutes, must ask that long before the start; staff need not. */
  predicate BeforeCutoff(b: Book, i: nat, cutoff: Option<int>, now: int) {
    Has(b, i) && (cutoff.Some? ==> b.appointments[i].start - now >= cutoff.value * MS_PER_MINUTE)
  }

  /** What a reschedule checks on the row it reads; staffOk says whether a new provider is eligible. */
  predicate MayAsk(b: Book, i: nat, newStart: int, newStaff: Option<string>, staffOk: bool, policy: Policy,
      cutoff: Option<int>, now: int)
  {
    && BeforeCutoff(b, i, cutoff, now) && InTime(newStart, policy, now)
    && (newStaff.Some? && newStaff.value != b.appointments[i].staff ==> staffOk)
  }

  function ById(): (string, string) -> bool {
    (a: string, b: string) => Leq(a, b)
  }

  function SortedCandidates(eligible: seq<string>): seq<string> {
    Sort(ById(), eligible)
  }

  /** How a creation ended and what it left behind. */
  ghost predicate CreationResult(b: Book, r: Request, candidates: seq<string>, policy: Policy, now: int,
      others: seq<seq<Event>>, outcome: Outcome, after: Book)
    requires |candidates| == |others|
  {
    if candidates == [] then outcome == NoProvider && after == b
    else if r.start < now + policy.leadMinutes * MS_PER_MINUTE then outcome == TooSoon && after == b
    else if r.start > now + policy.horizonDays * MS_PER_DAY then outcome == TooFar && after == b
    else if AnsweredUpFront(b, r) then outcome == AnswerKey(b.keys[r.key.value], r, b) && after == b
    else LoopResult(b, r, candidates, policy, others, outcome, after)
  }

  /** Either every candidate conflicted at its own attempt, or the first that did not answers. */
  ghost predicate LoopResult(b: Book, r: Request, candidates: seq<string>, policy: Policy, others: seq<seq<Event>>,
      outcome: Outcome, after: Book)
    requires |candidates| == |others| && candidates != []
  {
    if ConflictedUpTo(b, r, candidates, policy, others, |candidates|)
    then outcome == SlotUnavailable && after == Before(b, others, |candidates| - 1)
    else exists k: nat ::
      && FirstFree(b, r, candidates, policy, others, k)
      && AnsweredAt(Before(b, others, k), r, candidates[k], policy, outcome, after)
  }

  ghost predicate AnsweredAt(b: Book, r: Request, staff: string, policy: Policy, outcome: Outcome, after: Book) {
    if r.key.Some? && r.key.value in b.keys
    then outcome == AnswerKey(b.keys[r.key.value], r, b) && after == b
    else outcome == Booked(|b.appointments|) && after == Inserted(b, r, staff, policy)
  }

  class AppointmentStore {
    var appointments: seq<Appointment>
    var keys: map<KeyId, KeyRow>

    function State(): Book reads this { Book(appointments, keys) }

    constructor ()
      ensures State() == Book([], map[])
    {
      appointments, keys := [], map[];
    }

    /** What other requests commit while this one is under way. */
    method Interfere(others: seq<Event>)
      modifies this
      ensures State() == Run(old(State()), others)
    {
      var after := Run(State(), others);
      appointments, keys := after.appointments, after.keys;
    }

    method AttemptSingleProviderTransaction(r: Request, staff: string, policy: Policy) returns (attempt: Attempt)
      modifies this
      ensures attempt == AttemptSingleProvider(old(State()), r, staff, policy)
      ensures State() == Step(old(State()), AttemptEvent(r, staff, policy))
    {
      attempt := AttemptSingleProvider(State(), r, staff, policy);
      if attempt.Created? {
        if r.key.Some? {
          keys := keys[r.key.value := KeyRow(FingerprintOf(r), |appointments|)];
        }
        appointments := appointments + [NewAppointment(r, staff, policy)];
      }
    }

    /** Tries the eligible providers in the order of their ids. */
    method CreateAppointment(r: Request, eligible: seq<string>, policy: Policy, now: int,
        others: seq<seq<Event>>) returns (outcome: Outcome)
      requires |others| == |SortedCandidates(eligible)|
      modifies this
      ensures CreationResult(old(State()), r, SortedCandidates(eligible), policy, now, others, outcome, State())
    {
      outcome := AttemptCreation(r, SortedCandidates(eligible), policy, now, others);
    }

    method AttemptCreation(r: Request, candidates: seq<string>, policy: Policy, now: int,
        others: seq<seq<Event>>) returns (outcome: Outcome)
      requires |others| == |candidates|
      modifies this
      ensures CreationResult(old(State()), r, candidates, policy, now, others, outcome, State())
    {
      if |candidates| == 0 { return NoProvider; }
      if r.start < now + policy.leadMinutes * MS_PER_MINUTE { return TooSoon; }
      if r.start > now + policy.horizonDays * MS_PER_DAY { return TooFar; }
      if r.key.Some? && r.key.value in keys {
        outcome := AnswerKey(keys[r.key.value], r, State());
        if !outcome.BookingUnavailable? { return; }
      }
      outcome := TryCandidates(r, candidates, policy, others);
    }

    method TryCandidates(r: Request, candidates: seq<string>, policy: Policy,
        others: seq<seq<Event>>) returns (outcome: Outcome)
      requires |others| == |candidates| && candidates != []
      modifies this
      ensures LoopResult(old(State()), r, candidates, policy, others, outcome, State())
    {
      ghost var b := State();
      for k := 0 to |candidates|
        invariant ConflictedUpTo(b, r, candidates, policy, others, k)
        invariant State() == if k == 0 then b else Before(b, others, k - 1)
      {
        Interfere(others[k]);
        ghost var found := State();
        assert found == Before(b, others, k);
        var attempt := AttemptSingleProviderTransaction(r, candidates[k], policy);
        if !attempt.Unavailable? {
          assert FirstFree(b, r, candidates, policy, others, k);
          outcome := if attempt.Created? then Booked(|appointments| - 1) else AnswerKey(attempt.row, r, State());
          assert AnsweredAt(found, r, candidates[k], policy, outcome, State());
          return;
        }
      }
      return SlotUnavailable;
    }

    method Cancel(i: nat, cutoff: Option<int>, now: int, others: seq<Event>) returns (ok: bool)
      modifies this
      ensures ok == (BeforeCutoff(old(State()), i, cutoff, now) && Has(Run(old(State()), others), i))
      ensures State() == if ok then Ended(Run(old(State()), others), i, CANCELLED)
                         else if BeforeCutoff(old(State()), i, cutoff, now) then Run(old(State()), others)
                         else old(State())
    {
      if i >= |appointments| || appointments[i].status != CONFIRMED { return false; }
      if cutoff.Some? && appointments[i].start - now < cutoff.value * MS_PER_MINUTE { return false; }
      Interfere(others);
      if i >= |appointments| || appointments[i].status != CONFIRMED { return false; }
      appointments := appointments[i := appointments[i].(status := CANCELLED, version := appointments[i].version + 1)];
      ok := true;
    }

    method MarkNoShow(i: nat, now: int, others: seq<Event>) returns (ok: bool)
      modifies this
      ensures ok == (Started(old(State()), i, now) && Has(Run(old(State()), others), i))
      ensures State() == if ok then Ended(Run(old(State()), others), i, NO_SHOW)
                         else if Started(old(State()), i, now) then Run(old(State()), others) else old(State())
    {
      if i >= |appointments| || appointments[i].status != CONFIRMED || appointments[i].start > now { return false; }
      Interfere(others);
      if i >= |appointments| || appointments[i].status != CONFIRMED { return false; }
      appointments := appointments[i := appointments[i].(status := NO_SHOW, version := appointments[i].version + 1)];
      ok := true;
    }

    /** Reads the row, lets others run, then moves it if nothing stands against it; a refused
        move leaves everything as the others left it. */
    method Reschedule(i: nat, newStart: int, newStaff: Option<string>, staffOk: bool, policy: Policy,
        cutoff: Option<int>, now: int, others: seq<Event>) returns (ok: bool)
      modifies this
      ensures ok == (MayAsk(old(State()), i, newStart, newStaff, staffOk, policy, cutoff, now)
                     && Movable(Run(old(State()), others), i, old(State()).appointments[i], newStart, newStaff, policy))
      ensures ok ==>
        State() == Moved(Run(old(State()), others), i, old(State()).appointments[i], newStart, newStaff, policy)
      ensures !ok ==>
        State() == if MayAsk(old(State()), i, newStart, newStaff, staffOk, policy, cutoff, now)
                   then Run(old(State()), others) else old(State())
    {
      ok := false;
      if i >= |appointments| || appointments[i].status != CONFIRMED { return; }
      var seen := appointments[i];
      if cutoff.Some? && seen.start - now < cutoff.value * MS_PER_MINUTE { return; }
      if newStart < now + policy.leadMinutes * MS_PER_MINUTE
        || newStart > now + policy.horizonDays * MS_PER_DAY { return; }
      if newStaff.Some? && newStaff.value != seen.staff && !staffOk { return; }
      Interfere(others);
      if Movable(State(), i, seen, newStart, newStaff, policy) {
        var moved := appointments[i].(staff := Target(seen, newStaff), start := newStart,
          occupied := Occupied(newStart, seen.duration, policy), version := appointments[i].version + 1);
        appointments := appointments[i := moved];
        ok := true;
      }
    }
  }
}
