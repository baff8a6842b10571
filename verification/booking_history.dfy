/** What a book says about the requests that were carried out: each appointment stands where
    it was last asked to be, and keeps its buffers from every other. */
module BookingHistory {
  import opened Options
  import opened Sorting
  import opened Strings
  import opened Intervals
  import opened Availability
  import opened Booking
  import opened BookingRuns

  /** The event was carried out. */
  predicate Took(b: Book, e: Event) {
    Step(b, e) != b
  }

  // ---------- Ending ----------

  /** How the first request to end appointment i ends it; CONFIRMED if there is none. */
  function FirstEnd(events: seq<Event>, i: nat): Status {
    if events == [] then CONFIRMED
    else
      var before, e := FirstEnd(events[..|events| - 1], i), events[|events| - 1];
      if before == CONFIRMED && e.EndEvent? && e.i == i then e.to else before
  }

  /** Whatever else happens to a confirmed appointment, moves included, it ends as the first
      request to end it says, cancelled or not shown up, and stays confirmed without one. */
  lemma {:induction false} StatusIsFirstEnd(b: Book, events: seq<Event>, i: nat)
    requires i < |b.appointments| && b.appointments[i].status == CONFIRMED
    ensures i < |Run(b, events).appointments| && Run(b, events).appointments[i].status == FirstEnd(events, i)
  {
    if events != [] { StatusIsFirstEnd(b, events[..|events| - 1], i); }
  }

  /** An appointment that has ended never changes again. */
  lemma {:induction false} EndedForEver(b: Book, events: seq<Event>, i: nat)
    requires i < |b.appointments| && b.appointments[i].status != CONFIRMED
    ensures i < |Run(b, events).appointments| && Run(b, events).appointments[i] == b.appointments[i]
  {
    if events != [] { EndedForEver(b, events[..|events| - 1], i); }
  }

  // ---------- Honest reads ----------

  predicate HasRow(b: Book, i: nat, seen: Appointment) {
    i < |b.appointments| && b.appointments[i] == seen
  }

  /** Every move works from a row that was really read some time before it. */
  ghost predicate Honest(b: Book, events: seq<Event>) {
    events != [] ==>
      var front, e := events[..|events| - 1], events[|events| - 1];
      && Honest(b, front)
      && (e.MoveEvent? ==> exists j: nat :: j <= |front| && HasRow(Run(b, front[..j]), e.i, e.seen))
  }

  lemma {:induction false} RunSplit(b: Book, events: seq<Event>, j: nat)
    requires j <= |events|
    ensures Run(b, events) == Run(Run(b, events[..j]), events[j..])
    decreases |events|
  {
    if j == |events| {
      assert events[..j] == events && events[j..] == [];
    } else {
      var front := events[..|events| - 1];
      RunSplit(b, front, j);
      assert front[..j] == events[..j] && events[j..][..|events[j..]| - 1] == front[j..];
    }
  }

  /** A move that is carried out finds the row as it was read. */
  lemma {:induction false} HonestMoveIsCurrent(b: Book, events: seq<Event>)
    requires Honest(b, events) && events != [] && events[|events| - 1].MoveEvent?
    ensures var before, e := Run(b, events[..|events| - 1]), events[|events| - 1];
            Took(before, e) ==> HasRow(before, e.i, e.seen)
  {
    var front, e := events[..|events| - 1], events[|events| - 1];
    var j: nat :| j <= |front| && HasRow(Run(b, front[..j]), e.i, e.seen);
    RunSplit(b, front, j);
    RunFollows(Run(b, front[..j]), front[j..]);
  }

  // ---------- Where each appointment stands ----------

  /** The version counts the changes. */
  datatype Place = Place(
    staff: string, start: int, minutes: int, status: Status, key: Option<KeyId>, version: int)

  function Change(places: seq<Place>, i: nat, to: Place): seq<Place>
    requires i < |places|
  {
    places[i := to.(version := places[i].version + 1)]
  }

  /** What a request means for the places, nothing else considered. */
  function Write(places: seq<Place>, e: Event): seq<Place> {
    match e
    case AttemptEvent(r, staff, _) =>
      var overrides := if staff in r.overrides then r.overrides[staff] else map[];
      places + [Place(staff, r.start, TotalDuration(r.items, overrides), CONFIRMED, r.key, 1)]
    case EndEvent(i, to) => if i < |places| then Change(places, i, places[i].(status := to)) else places
    case MoveEvent(i, _, newStart, Some(newStaff), _) =>
      if i < |places| then Change(places, i, places[i].(start := newStart, staff := newStaff)) else places
    case MoveEvent(i, _, newStart, None, _) =>
      if i < |places| then Change(places, i, places[i].(start := newStart)) else places
  }

  /** The places after the requests carried out. */
  function History(b: Book, events: seq<Event>): seq<Place> {
    if events == [] then Places(b)
    else
      var front, e := events[..|events| - 1], events[|events| - 1];
      if Took(Run(b, front), e) then Write(History(b, front), e) else History(b, front)
  }

  function PlaceOf(a: Appointment): Place {
    Place(a.staff, a.start, a.duration, a.status, a.key, a.version)
  }

  function Places(b: Book): seq<Place> {
    seq(|b.appointments|, i requires 0 <= i < |b.appointments| => PlaceOf(b.appointments[i]))
  }

  lemma OnePlace(b: Book, e: Event)
    requires Took(b, e) && e.MoveEvent? ==> HasRow(b, e.i, e.seen)
    ensures Places(Step(b, e)) == if Took(b, e) then Write(Places(b), e) else Places(b)
  {
  }

  /** Every appointment is where it was last asked to be: with the provider and at the start it
      was booked for or last moved to, as long as its services take, under its own key. */
  lemma {:induction false} PlacesAreHistory(b: Book, events: seq<Event>)
    requires Honest(b, events)
    ensures Places(Run(b, events)) == History(b, events)
  {
    if events != [] {
      PlacesAreHistory(b, events[..|events| - 1]);
      if events[|events| - 1].MoveEvent? { HonestMoveIsCurrent(b, events); }
      OnePlace(Run(b, events[..|events| - 1]), events[|events| - 1]);
    }
  }

  // ---------- When a request is carried out ----------

  /** No other confirmed appointment of the provider is nearer than the buffers. */
  ghost predicate AllClear(b: Book, staff: string, start: int, duration: int, policy: Policy, except: int) {
    forall i :: 0 <= i < |b.appointments| && i != except ==>
      b.appointments[i].status == CONFIRMED && b.appointments[i].staff == staff ==>
        Clears(b.appointments[i].occupied, start, duration, policy)
  }

  lemma BlockedIff(b: Book, staff: string, start: int, duration: int, policy: Policy, except: int)
    ensures Blocked(b, staff, Occupied(start, duration, policy), except)
            <==> !AllClear(b, staff, start, duration, policy, except)
  {
    forall i | 0 <= i < |b.appointments|
      ensures Overlap(Occupied(start, duration, policy), b.appointments[i].occupied)
              <==> !Clears(b.appointments[i].occupied, start, duration, policy)
    {
    }
  }

  /** An attempt books exactly when the provider is clear by the buffers and the key is new. A
      provider who is not clear is answered as unavailable even if the key is known. */
  lemma AttemptTakesIff(b: Book, r: Request, staff: string, policy: Policy)
    ensures Took(b, AttemptEvent(r, staff, policy)) <==>
      && AllClear(b, staff, r.start, DurationWith(r, staff), policy, -1)
      && (r.key.Some? ==> r.key.value !in b.keys)
    ensures AttemptSingleProvider(b, r, staff, policy) == Unavailable <==>
      !AllClear(b, staff, r.start, DurationWith(r, staff), policy, -1)
  {
    BlockedIff(b, staff, r.start, DurationWith(r, staff), policy, -1);
    assert |Inserted(b, r, staff, policy).appointments| != |b.appointments|;
  }

  /** A move is carried out exactly when the appointment still runs at the version read and
      the provider it goes to is clear of everything but itself. */
  lemma MoveTakesIff(b: Book, i: nat, seen: Appointment, newStart: int, newStaff: Option<string>, policy: Policy)
    ensures Took(b, MoveEvent(i, seen, newStart, newStaff, policy)) <==>
      && i < |b.appointments| && b.appointments[i].status == CONFIRMED && b.appointments[i].version == seen.version
      && AllClear(b, if newStaff.Some? then newStaff.value else seen.staff, newStart, seen.duration, policy, i)
  {
    BlockedIff(b, Target(seen, newStaff), newStart, seen.duration, policy, i);
    if Movable(b, i, seen, newStart, newStaff, policy) {
      assert Moved(b, i, seen, newStart, newStaff, policy).appointments[i].version != b.appointments[i].version;
    }
  }

  /** What each command needs of the row as it is read: cancelling, a confirmed appointment
      before the customer's cutoff; marking a no-show, a confirmed one that has started; moving,
      besides what cancelling needs, a start in time and an eligible provider unless it stays
      with its own. */
  lemma ReadAllows(b: Book, i: nat, newStart: int, newStaff: Option<string>, staffOk: bool, policy: Policy,
      cutoff: Option<int>, now: int)
    ensures BeforeCutoff(b, i, cutoff, now) <==>
      && i < |b.appointments| && b.appointments[i].status == CONFIRMED
      && (cutoff == None || b.appointments[i].start - now >= 60_000 * cutoff.value)
    ensures Started(b, i, now) <==>
      i < |b.appointments| && b.appointments[i].status == CONFIRMED && b.appointments[i].start <= now
    ensures MayAsk(b, i, newStart, newStaff, staffOk, policy, cutoff, now) <==>
      && i < |b.appointments| && b.appointments[i].status == CONFIRMED
      && (cutoff == None || b.appointments[i].start - now >= 60_000 * cutoff.value)
      && 60_000 * policy.leadMinutes <= newStart - now <= 86_400_000 * policy.horizonDays
      && (staffOk || newStaff == None || newStaff == Some(b.appointments[i].staff))
  {
  }

  /** Lead time and horizon, in milliseconds. */
  lemma InTimeIff(start: int, policy: Policy, now: int)
    ensures InTime(start, policy, now) <==>
      60_000 * policy.leadMinutes <= start - now <= 86_400_000 * policy.horizonDays
  {
  }

  // ---------- Buffers between appointments ----------

  ghost predicate UnderPolicy(events: seq<Event>, policy: Policy) {
    forall k :: 0 <= k < |events| ==>
      && (events[k].AttemptEvent? ==> events[k].policy == policy)
      && (events[k].MoveEvent? ==> events[k].policy == policy)
  }

  /** The stored window reaches bufferBefore minutes before the start and bufferAfter minutes
      after the end. */
  predicate Buffered(a: Appointment, policy: Policy) {
    && a.occupied.start == a.start - 60_000 * policy.bufferBefore
    && a.occupied.end == a.start + 60_000 * (a.duration + policy.bufferAfter)
  }

  lemma {:induction false} WindowsAreBuffered(b: Book, policy: Policy, events: seq<Event>, i: nat)
    requires UnderPolicy(events, policy) && Honest(b, events) && i < |Run(b, events).appointments|
    requires forall k :: 0 <= k < |b.appointments| ==> Buffered(b.appointments[k], policy)
    ensures Buffered(Run(b, events).appointments[i], policy)
  {
    if events != [] {
      var front := events[..|events| - 1];
      var before := Run(b, front);
      if i < |before.appointments| { WindowsAreBuffered(b, policy, front, i); }
      if events[|events| - 1].MoveEvent? { HonestMoveIsCurrent(b, events); }
    }
  }

  /** One appointment ends, its buffer after and the other's buffer before pass, and only then
      does the other start. */
  predicate KeepsGap(a: Appointment, c: Appointment, policy: Policy) {
    a.start + 60_000 * (a.duration + policy.bufferAfter + policy.bufferBefore) <= c.start
  }

  /** Over every run under one policy, between any two confirmed appointments of a provider
      lie both buffers, however they were booked and moved. */
  lemma {:induction false} AppointmentsKeepGap(policy: Policy, events: seq<Event>, i: nat, j: nat)
    requires UnderPolicy(events, policy) && Honest(Book([], map[]), events)
    requires i < j < |Run(Book([], map[]), events).appointments|
    ensures var a, c := Run(Book([], map[]), events).appointments[i], Run(Book([], map[]), events).appointments[j];
            && Buffered(a, policy) && Buffered(c, policy)
            && (a.status == CONFIRMED && c.status == CONFIRMED && a.staff == c.staff ==>
                  KeepsGap(a, c, policy) || KeepsGap(c, a, policy))
  {
    WindowsAreBuffered(Book([], map[]), policy, events, i);
    WindowsAreBuffered(Book([], map[]), policy, events, j);
    BookingSafety(events, i, j);
  }

  /** A start on offer keeps the same distance from every confirmed appointment of that day. */
  lemma OfferedKeepsGap(b: Book, r: Request, staff: string, branch: seq<LocalInterval>, intervals: seq<LocalInterval>,
      policy: Policy, dayStart: int, dayEnd: int, now: int, m: int, i: nat)
    requires ValidIntervals(branch) && ValidIntervals(intervals) && policy.slotInterval > 0
    requires Offered(branch, DayOf(b, r, staff, intervals, dayStart, dayEnd), r.items, policy, dayStart, now, m)
    requires i < |b.appointments| && OverlapsDay(b.appointments[i], staff, dayStart, dayEnd)
    requires Buffered(b.appointments[i], policy)
    ensures var a, start, both := b.appointments[i], dayStart + 60_000 * m, policy.bufferAfter + policy.bufferBefore;
            || a.start + 60_000 * (a.duration + both) <= start
            || start + 60_000 * (DurationWith(r, staff) + both) <= a.start
  {
    var p := DayOf(b, r, staff, intervals, dayStart, dayEnd);
    var start, a := dayStart + 60_000 * m, b.appointments[i];
    OfferedIff(branch, p, r.items, policy, dayStart, now, m);
    ConflictsOnDay(b.appointments, staff, dayStart, dayEnd, Occupied(start, DurationWith(r, staff), policy));
    assert Blocks(a, staff, dayStart, dayEnd, Occupied(start, DurationWith(r, staff), policy))
      ==> Conflicts(Occupied(start, DurationWith(r, staff), policy), p.booked);
  }

  // ---------- What a creation leaves ----------

  /** A stored key recognises a request by its branch, its services in order and its start, and
      by nothing else. */
  lemma SameRequestIff(r: Request, q: Request)
    ensures FingerprintOf(r) == FingerprintOf(q) <==>
      && r.branch == q.branch && r.start == q.start && |r.items| == |q.items|
      && forall i :: 0 <= i < |r.items| ==> r.items[i].serviceId == q.items[i].serviceId
  {
    var a, b := ServiceIds(r.items), ServiceIds(q.items);
    assert |a| == |r.items| && |b| == |q.items|;
    if a == b {
      forall i | 0 <= i < |r.items| ensures r.items[i].serviceId == q.items[i].serviceId { assert a[i] == b[i]; }
    }
  }

  /** Why a creation that is not tried is refused. */
  lemma RefusedBeforeTrying(b: Book, r: Request, candidates: seq<string>, policy: Policy, now: int,
      others: seq<seq<Event>>, outcome: Outcome, after: Book)
    requires |candidates| == |others| && CreationResult(b, r, candidates, policy, now, others, outcome, after)
    ensures outcome == NoProvider <==> candidates == []
    ensures outcome == TooSoon <==> candidates != [] && r.start - now < 60_000 * policy.leadMinutes
    ensures outcome == TooFar <==> candidates != [] && r.start - now >= 60_000 * policy.leadMinutes
                                   && r.start - now > 86_400_000 * policy.horizonDays
    ensures outcome == NoProvider || outcome == TooSoon || outcome == TooFar ==> after == b
  {
  }

  /** A booked request has a new confirmed appointment, with one of the candidates, where it
      asked to be, and its key names that appointment. */
  lemma BookedAsAsked(b: Book, r: Request, candidates: seq<string>, policy: Policy, now: int,
      others: seq<seq<Event>>, outcome: Outcome, after: Book)
    requires |candidates| == |others| && CreationResult(b, r, candidates, policy, now, others, outcome, after)
    requires outcome.Booked?
    ensures outcome.appointment < |after.appointments|
    ensures var a := after.appointments[outcome.appointment];
            && a.staff in candidates && a.start == r.start && a.status == CONFIRMED && a.key == r.key
            && a.duration == DurationWith(r, a.staff) && Buffered(a, policy)
            && (r.key.Some? ==> r.key.value in after.keys
                                && after.keys[r.key.value] == KeyRow(FingerprintOf(r), outcome.appointment))
            && 60_000 * policy.leadMinutes <= r.start - now <= 86_400_000 * policy.horizonDays
  {
  }

  /** Left alone, a request goes to the free provider whose id comes first. */
  lemma LowestFreeIdBooked(b: Book, r: Request, eligible: seq<string>, policy: Policy, now: int,
      others: seq<seq<Event>>, outcome: Outcome, after: Book)
    requires |SortedCandidates(eligible)| == |others| && Quiet(others)
    requires CreationResult(b, r, SortedCandidates(eligible), policy, now, others, outcome, after) && outcome.Booked?
    ensures outcome.appointment < |after.appointments|
    ensures var staff := after.appointments[outcome.appointment].staff;
            && staff in eligible
            && forall other :: other in eligible && AllClear(b, other, r.start, DurationWith(r, other), policy, -1) ==>
                 Leq(staff, other)
  {
    var candidates := SortedCandidates(eligible);
    CandidatesInOrder(eligible);
    var k: nat :| FirstFree(b, r, candidates, policy, others, k)
                  && AnsweredAt(Before(b, others, k), r, candidates[k], policy, outcome, after);
    forall other | other in eligible && AllClear(b, other, r.start, DurationWith(r, other), policy, -1)
      ensures Leq(candidates[k], other)
    {
      assert other in candidates;
      var j: nat :| j < |candidates| && candidates[j] == other;
      FirstFreeComesFirst(b, r, candidates, policy, others, k, j);
      LeqTotal(other, other);
    }
  }

  /** Sorting keeps the providers and puts their ids in order. */
  lemma CandidatesInOrder(eligible: seq<string>)
    ensures var candidates := SortedCandidates(eligible);
            && (forall x :: x in eligible <==> x in candidates)
            && forall i, j :: 0 <= i < j < |candidates| ==> Leq(candidates[i], candidates[j])
  {
    var candidates := SortedCandidates(eligible);
    IdOrder();
    SortCorrect(ById(), eligible);
    forall x ensures x in eligible <==> x in candidates {
      assert x in eligible <==> x in multiset(eligible);
      assert x in candidates <==> x in multiset(candidates);
    }
    forall i, j | 0 <= i < j < |candidates| ensures Leq(candidates[i], candidates[j]) {
      assert ById()(candidates[i], candidates[j]);
    }
  }

  lemma FirstFreeComesFirst(b: Book, r: Request, candidates: seq<string>, policy: Policy, others: seq<seq<Event>>,
      k: nat, j: nat)
    requires |candidates| == |others| && Quiet(others) && j < |candidates|
    requires FirstFree(b, r, candidates, policy, others, k)
    requires AllClear(b, candidates[j], r.start, DurationWith(r, candidates[j]), policy, -1)
    ensures k <= j
  {
    QuietBefore(b, others, j);
    BlockedIff(b, candidates[j], r.start, DurationWith(r, candidates[j]), policy, -1);
  }

  lemma IdOrder()
    ensures TotalPreorder(ById())
  {
    forall x: string, y: string ensures ById()(x, y) || ById()(y, x) { LeqTotal(x, y); }
    forall x: string, y: string, z: string | ById()(x, y) && ById()(y, z) ensures ById()(x, z) {
      LeqTransitive(x, y, z);
    }
  }
}
