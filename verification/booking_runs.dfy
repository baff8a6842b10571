/** Every interleaving of bookings, moves and cancellations, and what a slot on offer is worth. */
module BookingRuns {
  import opened Options
  import opened Sorting
  import opened Strings
  import opened LocalTime
  import opened Intervals
  import opened Availability
  import opened Booking

  // ---------- The invariant ----------

  /** No provider is booked twice over the same time. */
  ghost predicate NoDoubleBooking(b: Book) {
    forall i, j :: 0 <= i < j < |b.appointments| ==> Apart(b.appointments[i], b.appointments[j])
  }

  predicate Apart(a: Appointment, c: Appointment) {
    a.status == CONFIRMED && c.status == CONFIRMED && a.staff == c.staff ==> !Overlap(a.occupied, c.occupied)
  }

  ghost predicate KeysFound(b: Book) {
    forall k :: k in b.keys ==>
      b.keys[k].appointment < |b.appointments| && b.appointments[b.keys[k].appointment].key == Some(k)
  }

  ghost predicate KeysOwn(b: Book) {
    forall i :: 0 <= i < |b.appointments| && b.appointments[i].key.Some? ==>
      b.appointments[i].key.value in b.keys && b.keys[b.appointments[i].key.value].appointment == i
  }

  ghost predicate Inv(b: Book) {
    NoDoubleBooking(b) && KeysFound(b) && KeysOwn(b)
  }

  lemma InsertKeepsInv(b: Book, r: Request, staff: string, policy: Policy)
    requires Inv(b) && AttemptSingleProvider(b, r, staff, policy).Created?
    ensures Inv(Inserted(b, r, staff, policy))
  {
    var after := Inserted(b, r, staff, policy);
    forall i | 0 <= i < |b.appointments| && b.appointments[i].status == CONFIRMED && b.appointments[i].staff == staff
      ensures !Overlap(b.appointments[i].occupied, Occupied(r.start, DurationWith(r, staff), policy))
    {
      assert !Overlap(Occupied(r.start, DurationWith(r, staff), policy), b.appointments[i].occupied);
    }
  }

  lemma MoveKeepsInv(b: Book, i: nat, seen: Appointment, newStart: int, newStaff: Option<string>, policy: Policy)
    requires Inv(b) && Movable(b, i, seen, newStart, newStaff, policy)
    ensures Inv(Moved(b, i, seen, newStart, newStaff, policy))
  {
    var w := Occupied(newStart, seen.duration, policy);
    forall j | 0 <= j < |b.appointments| && j != i && b.appointments[j].status == CONFIRMED
      && b.appointments[j].staff == Target(seen, newStaff)
      ensures !Overlap(b.appointments[j].occupied, w)
    {
      assert !Overlap(w, b.appointments[j].occupied);
    }
  }

  lemma StepKeepsInv(b: Book, e: Event)
    requires Inv(b)
    ensures Inv(Step(b, e))
  {
    match e
    case AttemptEvent(r, staff, policy) =>
      if AttemptSingleProvider(b, r, staff, policy).Created? { InsertKeepsInv(b, r, staff, policy); }
    case EndEvent(i, to) =>
    case MoveEvent(i, seen, newStart, newStaff, policy) =>
      if Movable(b, i, seen, newStart, newStaff, policy) { MoveKeepsInv(b, i, seen, newStart, newStaff, policy); }
  }

  lemma {:induction false} RunKeepsInv(b: Book, events: seq<Event>)
    requires Inv(b)
    ensures Inv(Run(b, events))
  {
    if events != [] {
      RunKeepsInv(b, events[..|events| - 1]);
      StepKeepsInv(Run(b, events[..|events| - 1]), events[|events| - 1]);
    }
  }

  /** From an empty book, whatever is attempted, moved and ended and in whatever order: no
      provider is double-booked, and an idempotency key belongs to one appointment. */
  lemma {:induction false} BookingSafety(events: seq<Event>, i: nat, j: nat)
    requires i < j < |Run(Book([], map[]), events).appointments|
    ensures var b := Run(Book([], map[]), events);
            && Apart(b.appointments[i], b.appointments[j])
            && (b.appointments[i].key.Some? ==> b.appointments[i].key != b.appointments[j].key)
  {
    RunKeepsInv(Book([], map[]), events);
  }

  // ---------- What a run never changes ----------

  /** A row's version never falls, and while it stands still so does the row. */
  ghost predicate RowFollows(old_: Appointment, new_: Appointment) {
    && new_.version >= old_.version
    && (new_.version == old_.version ==> new_ == old_)
    && new_.key == old_.key
  }

  ghost predicate BookFollows(b: Book, after: Book) {
    && |b.appointments| <= |after.appointments|
    && (forall i :: 0 <= i < |b.appointments| ==> RowFollows(b.appointments[i], after.appointments[i]))
    && (forall k :: k in b.keys ==> k in after.keys && after.keys[k] == b.keys[k])
  }

  lemma {:induction false} RunFollows(b: Book, events: seq<Event>)
    ensures BookFollows(b, Run(b, events))
  {
    if events != [] {
      var before := Run(b, events[..|events| - 1]);
      RunFollows(b, events[..|events| - 1]);
      assert BookFollows(before, Step(before, events[|events| - 1]));
    }
  }

  /** A move that succeeds moves exactly the row it read: nothing touched it in between, its
      duration is the one booked, and the whole book stays free of double bookings. */
  lemma {:induction false} RescheduleIsAtomic(b: Book, i: nat, newStart: int, newStaff: Option<string>,
      policy: Policy, others: seq<Event>)
    requires Inv(b) && i < |b.appointments|
    requires Movable(Run(b, others), i, b.appointments[i], newStart, newStaff, policy)
    ensures var before := Run(b, others); var after := Moved(before, i, b.appointments[i], newStart, newStaff, policy);
            && before.appointments[i] == b.appointments[i]
            && Inv(after)
            && after.appointments[i].occupied == Occupied(newStart, b.appointments[i].duration, policy)
            && after.appointments[i].duration == b.appointments[i].duration
            && after.keys == before.keys && |after.appointments| == |before.appointments|
            && forall j :: 0 <= j < |before.appointments| && j != i ==> after.appointments[j] == before.appointments[j]
  {
    RunFollows(b, others);
    assert RowFollows(b.appointments[i], Run(b, others).appointments[i]);
    RunKeepsInv(b, others);
    MoveKeepsInv(Run(b, others), i, b.appointments[i], newStart, newStaff, policy);
  }

  /** Once a key is stored, every later retry of the same request answers the same appointment. */
  lemma {:induction false} RetryReplays(b: Book, r: Request, events: seq<Event>)
    requires Inv(b) && r.key.Some? && r.key.value in b.keys
    ensures var row := b.keys[r.key.value]; var later := Run(b, events);
            && AnsweredUpFront(later, r)
            && AnswerKey(later.keys[r.key.value], r, later)
               == (if row.fingerprint == FingerprintOf(r) then Replayed(row.appointment) else KeyReused)
  {
    RunFollows(b, events);
    RunKeepsInv(b, events);
  }

  // ---------- A quiet creation ----------

  ghost predicate Quiet(others: seq<seq<Event>>) {
    forall k :: 0 <= k < |others| ==> others[k] == []
  }

  lemma {:induction false} QuietBefore(b: Book, others: seq<seq<Event>>, k: nat)
    requires Quiet(others) && k < |others|
    ensures Before(b, others, k) == b
  {
    if k > 0 { QuietBefore(b, others, k - 1); }
  }

  ghost predicate SomeFree(b: Book, r: Request, candidates: seq<string>, policy: Policy) {
    exists k :: 0 <= k < |candidates| && Free(b, r, candidates[k], policy)
  }

  /** With nobody else at work, a fresh request is booked exactly when it is in time and some
      candidate's window is free. Opening hours play no part. */
  lemma QuietCreation(b: Book, r: Request, candidates: seq<string>, policy: Policy, now: int, others: seq<seq<Event>>,
      outcome: Outcome, after: Book)
    requires |candidates| == |others| && Quiet(others)
    requires CreationResult(b, r, candidates, policy, now, others, outcome, after)
    requires r.key.Some? ==> r.key.value !in b.keys
    ensures outcome.Booked? <==> InTime(r.start, policy, now) && SomeFree(b, r, candidates, policy)
  {
    forall k: nat | k < |others| ensures Before(b, others, k) == b { QuietBefore(b, others, k); }
    if candidates != [] && InTime(r.start, policy, now) {
      assert ConflictedUpTo(b, r, candidates, policy, others, |candidates|) <==> !SomeFree(b, r, candidates, policy);
    }
  }

  // ---------- Offered and bookable ----------

  predicate OverlapsDay(a: Appointment, staff: string, dayStart: int, dayEnd: int) {
    a.staff == staff && a.status == CONFIRMED && a.occupied.start < dayEnd && a.occupied.end > dayStart
  }

  /** An appointment of the day's query that overlaps the window. */
  predicate Blocks(a: Appointment, staff: string, dayStart: int, dayEnd: int, w: Window) {
    OverlapsDay(a, staff, dayStart, dayEnd) && Overlap(w, a.occupied)
  }

  /** The CONFIRMED windows the availability engine reads for a provider's day. */
  function BookedOn(appointments: seq<Appointment>, staff: string, dayStart: int, dayEnd: int): seq<Window> {
    if appointments == [] then []
    else (if OverlapsDay(appointments[0], staff, dayStart, dayEnd) then [appointments[0].occupied] else [])
         + BookedOn(appointments[1..], staff, dayStart, dayEnd)
  }

  lemma {:induction false} ConflictsOnDay(appointments: seq<Appointment>, staff: string, dayStart: int, dayEnd: int,
      w: Window)
    ensures Conflicts(w, BookedOn(appointments, staff, dayStart, dayEnd)) <==>
      exists i :: 0 <= i < |appointments| && Blocks(appointments[i], staff, dayStart, dayEnd, w)
  {
    if appointments != [] {
      var rest := BookedOn(appointments[1..], staff, dayStart, dayEnd);
      ConflictsOnDay(appointments[1..], staff, dayStart, dayEnd, w);
      if OverlapsDay(appointments[0], staff, dayStart, dayEnd) {
        var all := [appointments[0].occupied] + rest;
        assert forall i :: 0 <= i < |rest| ==> all[i + 1] == rest[i];
        assert all[0] == appointments[0].occupied;
      } else {
        assert [] + rest == rest;
      }
      assert forall i :: 0 <= i < |appointments| - 1 ==> appointments[1..][i] == appointments[i + 1];
      if i :| 0 <= i < |appointments| - 1 && Blocks(appointments[1..][i], staff, dayStart, dayEnd, w) {
        assert Blocks(appointments[i + 1], staff, dayStart, dayEnd, w);
      }
      if i :| 0 < i < |appointments| && Blocks(appointments[i], staff, dayStart, dayEnd, w) {
        assert Blocks(appointments[1..][i - 1], staff, dayStart, dayEnd, w);
      }
    }
  }

  /** A CONFIRMED appointment of the provider that the day's query leaves out stands in the way. */
  ghost predicate OutsideConflict(b: Book, staff: string, dayStart: int, dayEnd: int, w: Window) {
    exists i :: 0 <= i < |b.appointments| && b.appointments[i].staff == staff && b.appointments[i].status == CONFIRMED
      && !OverlapsDay(b.appointments[i], staff, dayStart, dayEnd) && Overlap(w, b.appointments[i].occupied)
  }

  function DayOf(b: Book, r: Request, staff: string, intervals: seq<LocalInterval>, dayStart: int,
      dayEnd: int): ProviderDay {
    ProviderDay(staff, intervals, if staff in r.overrides then r.overrides[staff] else map[],
      BookedOn(b.appointments, staff, dayStart, dayEnd))
  }

  /** An offered start's window is really free unless an appointment outside the day overlaps
      it; a window inside the day always is. */
  lemma OfferedIffFree(b: Book, r: Request, staff: string, branch: seq<LocalInterval>, intervals: seq<LocalInterval>,
      policy: Policy,
                       dayStart: int, dayEnd: int, now: int, m: int)
    requires ValidIntervals(branch) && ValidIntervals(intervals) && policy.slotInterval > 0
    requires Offered(branch, DayOf(b, r, staff, intervals, dayStart, dayEnd), r.items, policy, dayStart, now, m)
    requires r.start == SlotStart(dayStart, m)
    ensures var w := Occupied(r.start, DurationWith(r, staff), policy);
            && (Free(b, r, staff, policy) <==> !OutsideConflict(b, staff, dayStart, dayEnd, w))
            && (dayStart <= w.start && w.end <= dayEnd ==> Free(b, r, staff, policy))
  {
    ConflictsOnDay(b.appointments, staff, dayStart, dayEnd, Occupied(r.start, DurationWith(r, staff), policy));
  }

  /** The start is on offer to the provider in some book. */
  ghost predicate CanBeOffered(r: Request, staff: string, branch: seq<LocalInterval>, intervals: seq<LocalInterval>,
                               policy: Policy, dayStart: int, now: int, m: int)
    requires ValidIntervals(branch) && ValidIntervals(intervals) && policy.slotInterval > 0
  {
    && OnOpenGrid(branch, intervals, policy.slotInterval, DurationWith(r, staff), m)
    && SlotStart(dayStart, m) >= now + policy.leadMinutes * MS_PER_MINUTE
  }

  /** Every book without double bookings that offers the start also has its window free. */
  ghost predicate AlwaysHonoured(r: Request, staff: string, branch: seq<LocalInterval>, intervals: seq<LocalInterval>,
                                 policy: Policy, dayStart: int, dayEnd: int, now: int, m: int)
    requires ValidIntervals(branch) && ValidIntervals(intervals) && policy.slotInterval > 0
  {
    forall b: Book ::
      Inv(b) && Offered(branch, DayOf(b, r, staff, intervals, dayStart, dayEnd), r.items, policy, dayStart, now, m)
      ==> Free(b, r, staff, policy)
  }

  /** A book of one CONFIRMED appointment of the provider, over this window. */
  function OnlyBooked(staff: string, w: Window): Book {
    Book([Appointment(staff, w.start, w, 1, CONFIRMED, 1, None)], map[])
  }

  /** A window beyond the day's edges meets an appointment there that the day's query misses. */
  lemma UnseenNeighbour(r: Request, staff: string, branch: seq<LocalInterval>, intervals: seq<LocalInterval>,
                        policy: Policy, dayStart: int, dayEnd: int, now: int, m: int, other: Window)
    requires ValidIntervals(branch) && ValidIntervals(intervals) && policy.slotInterval > 0
    requires CanBeOffered(r, staff, branch, intervals, policy, dayStart, now, m) && r.start == SlotStart(dayStart, m)
    requires other.start >= dayEnd || other.end <= dayStart
    requires Overlap(Occupied(r.start, DurationWith(r, staff), policy), other)
    ensures !AlwaysHonoured(r, staff, branch, intervals, policy, dayStart, dayEnd, now, m)
  {
    var b := OnlyBooked(staff, other);
    var p := DayOf(b, r, staff, intervals, dayStart, dayEnd);
    ConflictsOnDay(b.appointments, staff, dayStart, dayEnd, Occupied(r.start, DurationWith(r, staff), policy));
    assert Inv(b);
    assert Offered(branch, p, r.items, policy, dayStart, now, m);
    assert Overlap(Occupied(r.start, DurationWith(r, staff), policy), b.appointments[0].occupied);
    assert !Free(b, r, staff, policy);
  }

  /** The check a caller can make beforehand: a start on offer is honoured by every book that
      offers it exactly when its buffered window lies inside the day. */
  lemma HonouredIffInsideDay(r: Request, staff: string, branch: seq<LocalInterval>, intervals: seq<LocalInterval>,
                             policy: Policy, dayStart: int, dayEnd: int, now: int, m: int)
    requires ValidIntervals(branch) && ValidIntervals(intervals) && policy.slotInterval > 0
    requires CanBeOffered(r, staff, branch, intervals, policy, dayStart, now, m)
    requires dayStart <= r.start == SlotStart(dayStart, m) <= dayEnd
    requires DurationWith(r, staff) > 0 && policy.bufferBefore >= 0 && policy.bufferAfter >= 0
    ensures var w := Occupied(r.start, DurationWith(r, staff), policy);
            AlwaysHonoured(r, staff, branch, intervals, policy, dayStart, dayEnd, now, m)
            <==> dayStart <= w.start && w.end <= dayEnd
  {
    var w := Occupied(r.start, DurationWith(r, staff), policy);
    if w.start < dayStart {
      UnseenNeighbour(r, staff, branch, intervals, policy, dayStart, dayEnd, now, m, Window(w.start, dayStart));
    } else if w.end > dayEnd {
      UnseenNeighbour(r, staff, branch, intervals, policy, dayStart, dayEnd, now, m, Window(dayEnd, w.end));
    } else {
      forall b: Book
        | Inv(b) && Offered(branch, DayOf(b, r, staff, intervals, dayStart, dayEnd), r.items, policy, dayStart, now, m)
        ensures Free(b, r, staff, policy)
      {
        OfferedIffFree(b, r, staff, branch, intervals, policy, dayStart, dayEnd, now, m);
      }
    }
  }

  /** Offered means booked: a start on offer to any of the candidates, inside the horizon and
      with its buffered window inside the day, is accepted if nothing changes in between. */
  lemma OfferedIsBooked(b: Book, r: Request, candidates: seq<string>, k: nat, branch: seq<LocalInterval>,
      intervals: seq<LocalInterval>, policy: Policy, dayStart: int, dayEnd: int, now: int, m: int,
      others: seq<seq<Event>>, outcome: Outcome, after: Book)
    requires ValidIntervals(branch) && ValidIntervals(intervals)
    requires policy.slotInterval > 0 && k < |candidates| == |others| && Quiet(others)
    requires Offered(branch, DayOf(b, r, candidates[k], intervals, dayStart, dayEnd), r.items, policy, dayStart, now, m)
    requires r.start == SlotStart(dayStart, m) <= now + policy.horizonDays * MS_PER_DAY
    requires var w := Occupied(r.start, DurationWith(r, candidates[k]), policy); dayStart <= w.start && w.end <= dayEnd
    requires r.key.Some? ==> r.key.value !in b.keys
    requires CreationResult(b, r, candidates, policy, now, others, outcome, after)
    ensures outcome.Booked?
  {
    OfferedIffFree(b, r, candidates[k], branch, intervals, policy, dayStart, dayEnd, now, m);
    assert SomeFree(b, r, candidates, policy);
    QuietCreation(b, r, candidates, policy, now, others, outcome, after);
  }

  /** The engine can offer what booking refuses: a buffer that runs over midnight into an
      appointment of the next day, which the day's query does not see. */
  lemma OfferedAcrossMidnight()
    ensures exists b: Book, r: Request, policy: Policy, intervals: seq<LocalInterval>, m: int ::
      && Inv(b) && ValidIntervals(intervals) && policy.slotInterval > 0
      && Offered(intervals, DayOf(b, r, "ann", intervals, 0, MS_PER_DAY), r.items, policy, 0, 0, m)
      && r.start == SlotStart(0, m)
      && !Free(b, r, "ann", policy)
  {
    var policy := Policy(30, 0, 30, 0, 45);
    var intervals := [LocalInterval("00:00", "23:59")];
    var nextDay := Appointment("ann", MS_PER_DAY, Window(MS_PER_DAY, MS_PER_DAY + 3_600_000), 15, CONFIRMED, 1, None);
    var b := Book([nextDay], map[]);
    var items := [ServiceItem("cut", 30)];
    var r := Request("main", items, map[], SlotStart(0, 1380), None);
    FullDayWindow();
    OneInterval(LocalInterval("00:00", "23:59"));
    assert items[..0] == [];
    assert TotalDuration(items, map[]) == 30;
    var p := DayOf(b, r, "ann", intervals, 0, MS_PER_DAY);
    assert b.appointments[0] == nextDay && !OverlapsDay(nextDay, "ann", 0, MS_PER_DAY);
    assert BookedOn(b.appointments[1..], "ann", 0, MS_PER_DAY) == [];
    assert p.booked == [];
    assert forall k :: 0 <= k < 1439 ==> BothOpen(intervals, intervals, k);
    assert OpenSince(intervals, intervals, 0, 1380) && (1380 - 0) % 30 == 0;
    assert OnOpenGrid(intervals, intervals, 30, 30, 1380);
    assert Offered(intervals, p, r.items, policy, 0, 0, 1380);
    assert Overlap(Occupied(r.start, DurationWith(r, "ann"), policy), b.appointments[0].occupied);
    assert !Free(b, r, "ann", policy);
  }

  /** Booking does not look at opening hours: on a day when the branch is shut and nothing is
      on offer, a start in time is booked all the same. */
  lemma ClosedDayIsBooked(b: Book, r: Request, candidates: seq<string>, intervals: seq<LocalInterval>, policy: Policy,
      dayStart: int, dayEnd: int, now: int,
                          others: seq<seq<Event>>, outcome: Outcome, after: Book)
    requires |candidates| == |others| && Quiet(others) && policy.slotInterval > 0 && ValidIntervals(intervals)
    requires forall k :: 0 <= k < |candidates| ==>
      ValidProvider(DayOf(b, r, candidates[k], intervals, dayStart, dayEnd), r.items)
    requires InTime(r.start, policy, now) && SomeFree(b, r, candidates, policy)
    requires r.key.Some? ==> r.key.value !in b.keys
    requires CreationResult(b, r, candidates, policy, now, others, outcome, after)
    ensures outcome.Booked?
    ensures forall k, slot :: 0 <= k < |candidates| ==>
      !OfferedSlot([], DayOf(b, r, candidates[k], intervals, dayStart, dayEnd), r.items, policy, dayStart, now, slot)
  {
    QuietCreation(b, r, candidates, policy, now, others, outcome, after);
    forall k, slot | 0 <= k < |candidates|
      ensures var p := DayOf(b, r, candidates[k], intervals, dayStart, dayEnd);
              !OfferedSlot([], p, r.items, policy, dayStart, now, slot)
    {
      var p := DayOf(b, r, candidates[k], intervals, dayStart, dayEnd);
      NothingWhenClosed([], p, r.items, policy, dayStart, now, slot);
    }
  }

  // ---------- A racing duplicate ----------

  /** The twin of a request, with the same key, books the first candidate just before it. */
  ghost predicate TwinFirst(r: Request, candidates: seq<string>, policy: Policy, others: seq<seq<Event>>) {
    && |candidates| == |others| && candidates != []
    && others[0] == [AttemptEvent(r, candidates[0], policy)]
    && forall k :: 0 < k < |others| ==> others[k] == []
  }

  lemma {:induction false} TwinBefore(b: Book, r: Request, candidates: seq<string>, policy: Policy,
      others: seq<seq<Event>>, k: nat)
    requires TwinFirst(r, candidates, policy, others) && k < |others|
    ensures Before(b, others, k) == Step(b, AttemptEvent(r, candidates[0], policy))
  {
    if k > 0 {
      TwinBefore(b, r, candidates, policy, others, k - 1);
    } else {
      var e := AttemptEvent(r, candidates[0], policy);
      assert others[0][..|others[0]| - 1] == [] && others[0][|others[0]| - 1] == e;
      assert Run(b, others[0]) == Step(Run(b, []), e);
    }
  }

  /** The unique index on keys is the net for a concurrent duplicate, but the exclusion
      constraint is met first: the later twin gets its sibling's appointment exactly when some
      other candidate is free at that time, and SLOT_UNAVAILABLE otherwise. */
  lemma RacingDuplicate(b: Book, r: Request, candidates: seq<string>, policy: Policy, now: int,
      others: seq<seq<Event>>, outcome: Outcome, after: Book)
    requires Inv(b) && TwinFirst(r, candidates, policy, others)
    requires InTime(r.start, policy, now) && r.key.Some? && r.key.value !in b.keys
    requires Free(b, r, candidates[0], policy)
    requires DurationWith(r, candidates[0]) > 0 && policy.bufferBefore >= 0 && policy.bufferAfter >= 0
    requires CreationResult(b, r, candidates, policy, now, others, outcome, after)
    ensures after == Inserted(b, r, candidates[0], policy)
    ensures outcome == if SomeFree(after, r, candidates, policy) then Replayed(|b.appointments|) else SlotUnavailable
    ensures !Free(after, r, candidates[0], policy)
  {
    var twin := Inserted(b, r, candidates[0], policy);
    forall k: nat | k < |others|
      ensures Before(b, others, k) == twin
    {
      TwinBefore(b, r, candidates, policy, others, k);
    }
    var w := Occupied(r.start, DurationWith(r, candidates[0]), policy);
    assert Overlap(w, twin.appointments[|b.appointments|].occupied);
    assert ConflictedUpTo(b, r, candidates, policy, others, |candidates|) <==> !SomeFree(twin, r, candidates, policy);
  }
}
