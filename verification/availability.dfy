/** The availability engine (availability-engine.service.ts): who is open when, and the slots
    a day offers. Instants are milliseconds; a day's local midnight is a fixed instant. */
module Availability {
  import opened Sorting
  import opened LocalTime
  import opened Intervals

  // ---------- Staff schedule of one date ----------

  /** SPECIAL_AVAILABILITY adds its window; every other type removes it. */
  datatype ScheduleException = ScheduleException(special: bool, fullDay: bool, interval: LocalInterval)

  function WindowOf(e: ScheduleException): LocalInterval {
    if e.fullDay then LocalInterval("00:00", "23:59") else e.interval
  }

  lemma FullDayWindow()
    ensures ValidInterval(LocalInterval("00:00", "23:59"))
    ensures ToMinuteRange(LocalInterval("00:00", "23:59")) == Range(0, MINUTES_PER_DAY - 1)
  {
    CompareIsNumeric("00:00", "23:59");
  }

  ghost predicate ValidExceptions(exceptions: seq<ScheduleException>) {
    forall i :: 0 <= i < |exceptions| ==> ValidInterval(WindowOf(exceptions[i]))
  }

  /** The last exception whose window holds the minute decides it; without one, the rules do. */
  ghost predicate StaffOpen(rules: seq<LocalInterval>, exceptions: seq<ScheduleException>, m: int)
    requires ValidIntervals(rules) && ValidExceptions(exceptions)
    decreases |exceptions|
  {
    if exceptions == [] then OpenAt(rules, m)
    else
      var last := exceptions[|exceptions| - 1];
      if Contains(ToMinuteRange(WindowOf(last)), m) then last.special
      else StaffOpen(rules, exceptions[..|exceptions| - 1], m)
  }

  lemma OneInterval(i: LocalInterval)
    requires ValidInterval(i)
    ensures ValidIntervals([i])
    ensures forall m :: OpenAt([i], m) <==> Contains(ToMinuteRange(i), m)
  {
    assert ToMinuteRanges([i]) == [ToMinuteRange(i)];
    CoversAppend([], ToMinuteRange(i));
    assert [] + [ToMinuteRange(i)] == [ToMinuteRange(i)];
  }

  method ResolveStaffAvailableIntervals(rules: seq<LocalInterval>,
      exceptions: seq<ScheduleException>) returns (intervals: seq<LocalInterval>)
    requires ValidIntervals(rules) && ValidExceptions(exceptions)
    ensures ValidIntervals(intervals)
    ensures forall m :: OpenAt(intervals, m) <==> StaffOpen(rules, exceptions, m)
  {
    intervals := rules;
    for i := 0 to |exceptions|
      invariant ValidIntervals(intervals)
      invariant forall m :: OpenAt(intervals, m) <==> StaffOpen(rules, exceptions[..i], m)
    {
      assert exceptions[..i + 1][..i] == exceptions[..i];
      var window := WindowOf(exceptions[i]);
      OneInterval(window);
      if exceptions[i].special {
        intervals := MergeLocalIntervals(intervals, [window]);
      } else {
        intervals := SubtractLocalIntervals(intervals, [window]);
      }
    }
    assert exceptions[..|exceptions|] == exceptions;
  }

  lemma {:induction false} StaffOpenWithinDay(rules: seq<LocalInterval>, exceptions: seq<ScheduleException>, m: int)
    requires ValidIntervals(rules) && ValidExceptions(exceptions) && StaffOpen(rules, exceptions, m)
    ensures 0 <= m < MINUTES_PER_DAY - 1
    decreases |exceptions|
  {
    if exceptions == [] {
      var r :| r in ToMinuteRanges(rules) && Contains(r, m);
    } else if !Contains(ToMinuteRange(WindowOf(exceptions[|exceptions| - 1])), m) {
      StaffOpenWithinDay(rules, exceptions[..|exceptions| - 1], m);
    }
  }

  lemma FirstMinuteOpen(intervals: seq<LocalInterval>)
    requires ValidIntervals(intervals) && intervals != []
    ensures exists m :: OpenAt(intervals, m)
  {
    var r := ToMinuteRanges(intervals)[0];
    assert r in ToMinuteRanges(intervals) && Contains(r, r.start);
    assert OpenAt(intervals, r.start);
  }

  /** A full-day absence read last leaves no interval at all, whatever came before. */
  lemma {:induction false} FullDayAbsenceEmptiesDay(rules: seq<LocalInterval>, exceptions: seq<ScheduleException>,
      intervals: seq<LocalInterval>)
    requires ValidIntervals(rules) && ValidExceptions(exceptions) && exceptions != []
    requires var last := exceptions[|exceptions| - 1]; last.fullDay && !last.special
    requires ValidIntervals(intervals) && forall m :: OpenAt(intervals, m) <==> StaffOpen(rules, exceptions, m)
    ensures intervals == []
  {
    FullDayWindow();
    forall m ensures StaffOpen(rules, exceptions, m) ==> 0 <= m < MINUTES_PER_DAY - 1 {
      if StaffOpen(rules, exceptions, m) { StaffOpenWithinDay(rules, exceptions, m); }
    }
    assert forall m :: !OpenAt(intervals, m);
    if intervals != [] { FirstMinuteOpen(intervals); }
  }

  // ---------- Slots ----------

  const MS_PER_MINUTE: int := 60_000

  datatype ServiceItem = ServiceItem(serviceId: string, durationMinutes: int)
  datatype Policy = Policy(slotInterval: int, leadMinutes: int, horizonDays: int, bufferBefore: int, bufferAfter: int)
  datatype Window = Window(start: int, end: int)
  datatype Slot = Slot(start: int, end: int, staff: string)
  /** A provider's day: schedule, duration overrides and the CONFIRMED windows overlapping it. */
  datatype ProviderDay = ProviderDay(staff: string, intervals: seq<LocalInterval>, overrides: map<string, int>,
      booked: seq<Window>)

  /** The branch's duration, unless the provider overrides it. */
  function TotalDuration(items: seq<ServiceItem>, overrides: map<string, int>): int {
    if items == [] then 0
    else TotalDuration(items[..|items| - 1], overrides)
         + (var item := items[|items| - 1];
            if item.serviceId in overrides then overrides[item.serviceId] else item.durationMinutes)
  }

  ghost predicate PositiveDurations(items: seq<ServiceItem>, overrides: map<string, int>) {
    && items != []
    && (forall i :: 0 <= i < |items| ==> items[i].durationMinutes > 0)
    && (forall id :: id in overrides ==> overrides[id] > 0)
  }

  lemma {:induction false} DurationPositive(items: seq<ServiceItem>, overrides: map<string, int>)
    requires PositiveDurations(items, overrides)
    ensures TotalDuration(items, overrides) > 0
  {
    if |items| > 1 {
      DurationPositive(items[..|items| - 1], overrides);
    } else {
      assert items[..0] == [];
    }
  }

  function SlotStart(dayStart: int, minute: int): int {
    dayStart + minute * MS_PER_MINUTE
  }

  function Occupied(start: int, duration: int, policy: Policy): Window {
    Window(start - policy.bufferBefore * MS_PER_MINUTE,
      start + duration * MS_PER_MINUTE + policy.bufferAfter * MS_PER_MINUTE)
  }

  predicate Overlap(a: Window, b: Window) {
    a.start < b.end && a.end > b.start
  }

  predicate Conflicts(w: Window, booked: seq<Window>) {
    exists i :: 0 <= i < |booked| && Overlap(w, booked[i])
  }

  /** Both the branch and the provider are open. */
  ghost predicate BothOpen(branch: seq<LocalInterval>, staff: seq<LocalInterval>, m: int)
    requires ValidIntervals(branch) && ValidIntervals(staff)
  {
    OpenAt(branch, m) && OpenAt(staff, m)
  }

  /** An unbroken open stretch begins at s and still lasts at m. */
  ghost predicate OpenSince(branch: seq<LocalInterval>, staff: seq<LocalInterval>, s: int, m: int)
    requires ValidIntervals(branch) && ValidIntervals(staff)
  {
    !BothOpen(branch, staff, s - 1) && s <= m && forall k :: s <= k <= m ==> BothOpen(branch, staff, k)
  }

  /** A whole number of steps into an open stretch, and open for the whole duration. */
  ghost predicate OnOpenGrid(branch: seq<LocalInterval>, staff: seq<LocalInterval>, step: int, duration: int, m: int)
    requires ValidIntervals(branch) && ValidIntervals(staff) && step > 0
  {
    && (exists s :: OpenSince(branch, staff, s, m) && (m - s) % step == 0)
    && (forall k :: m <= k < m + duration ==> BothOpen(branch, staff, k))
  }

  /** The simple specification of an offered start: a whole number of slot intervals into an
      open stretch, open for the whole duration, far enough ahead, its buffered window free. */
  ghost predicate Offered(branch: seq<LocalInterval>, p: ProviderDay, items: seq<ServiceItem>, policy: Policy,
      dayStart: int, now: int, m: int)
    requires ValidIntervals(branch) && ValidIntervals(p.intervals) && policy.slotInterval > 0
  {
    var duration := TotalDuration(items, p.overrides);
    OnOpenGrid(branch, p.intervals, policy.slotInterval, duration, m) && Bookable(p, duration, policy, dayStart, now, m)
  }

  predicate Bookable(p: ProviderDay, duration: int, policy: Policy, dayStart: int, now: int, m: int) {
    && SlotStart(dayStart, m) >= now + policy.leadMinutes * MS_PER_MINUTE
    && !Conflicts(Occupied(SlotStart(dayStart, m), duration, policy), p.booked)
  }

  /** Inside one open range: on its grid and ending in time. */
  predicate OnGrid(r: Range, step: int, duration: int, m: int)
    requires step > 0
  {
    r.start <= m && (m - r.start) % step == 0 && m + duration <= r.end
  }

  /** The minutes just around a range of a normal form are closed. */
  lemma RangeEdges(open: seq<Range>, i: nat)
    requires Normal(open) && i < |open|
    ensures !Covers(open, open[i].start - 1)
    ensures !Covers(open, open[i].end)
    ensures forall k :: open[i].start <= k < open[i].end ==> Covers(open, k)
  {
    forall r | r in open ensures !Contains(r, open[i].start - 1) && !Contains(r, open[i].end) {
      var j :| 0 <= j < |open| && open[j] == r;
    }
    forall k | open[i].start <= k < open[i].end ensures Covers(open, k) {
      assert open[i] in open && Contains(open[i], k);
    }
  }

  lemma InOneRange(open: seq<Range>, i: nat, from: int, to: int)
    requires Normal(open) && i < |open| && Contains(open[i], from) && from <= to
    requires forall k :: from <= k <= to ==> Covers(open, k)
    ensures to < open[i].end
  {
    RangeEdges(open, i);
  }

  ghost predicate OnSomeGrid(ranges: seq<Range>, n: nat, step: int, duration: int, m: int)
    requires n <= |ranges| && step > 0
  {
    exists i :: 0 <= i < n && OnGrid(ranges[i], step, duration, m)
  }

  /** The declarative grid is the grid of the normal form's ranges. */
  lemma GridOfRanges(open: seq<Range>, branch: seq<LocalInterval>, staff: seq<LocalInterval>, step: int, duration: int,
      m: int)
    requires ValidIntervals(branch) && ValidIntervals(staff) && step > 0 && duration > 0
    requires Normal(open) && forall k :: Covers(open, k) <==> BothOpen(branch, staff, k)
    ensures OnOpenGrid(branch, staff, step, duration, m) <==> OnSomeGrid(open, |open|, step, duration, m)
  {
    if i :| 0 <= i < |open| && OnGrid(open[i], step, duration, m) {
      RangeEdges(open, i);
      assert OpenSince(branch, staff, open[i].start, m);
    }
    if OnOpenGrid(branch, staff, step, duration, m) {
      var s :| OpenSince(branch, staff, s, m) && (m - s) % step == 0;
      assert Covers(open, s) && !Covers(open, s - 1);
      var r :| r in open && Contains(r, s);
      var i :| 0 <= i < |open| && open[i] == r;
      RangeEdges(open, i);
      assert open[i].start == s;
      InOneRange(open, i, s, m + duration - 1);
      assert OnGrid(open[i], step, duration, m);
    }
  }

  // ---------- The generator ----------

  function SlotOf(staff: string, duration: int, dayStart: int, m: int): Slot {
    Slot(SlotStart(dayStart, m), SlotStart(dayStart, m) + duration * MS_PER_MINUTE, staff)
  }

  ghost predicate Ascending(slots: seq<Slot>) {
    forall i, j :: 0 <= i < j < |slots| ==> slots[i].start < slots[j].start
  }

  ghost predicate AllBefore(slots: seq<Slot>, start: int) {
    forall i :: 0 <= i < |slots| ==> slots[i].start < start
  }

  ghost predicate IsSlotOf(slot: Slot, staff: string, duration: int, dayStart: int) {
    exists m :: slot == SlotOf(staff, duration, dayStart, m)
  }

  ghost predicate AllOf(slots: seq<Slot>, staff: string, duration: int, dayStart: int) {
    forall i :: 0 <= i < |slots| ==> IsSlotOf(slots[i], staff, duration, dayStart)
  }

  ghost predicate AllFrom(slots: seq<Slot>, start: int) {
    forall i :: 0 <= i < |slots| ==> slots[i].start >= start
  }

  lemma AscendingAppend(a: seq<Slot>, b: seq<Slot>, border: int)
    requires Ascending(a) && Ascending(b) && AllBefore(a, border) && AllFrom(b, border)
    ensures Ascending(a + b)
  {
  }

  lemma GridGap(step: int, a: int, b: int)
    requires step > 0 && a % step == 0 && b % step == 0
    ensures a < b ==> a + step <= b
  {
    assert a == step * (a / step) && b == step * (b / step);
    if a < b {
      assert a / step < b / step;
      assert step * (b / step) >= step * (a / step + 1);
    }
  }

  lemma NextOnGrid(step: int, a: int)
    requires step > 0 && a % step == 0
    ensures (a + step) % step == 0
  {
    assert a + step == step * (a / step + 1);
    MultipleHasNoRemainder(step, a / step + 1);
  }

  lemma MultipleHasNoRemainder(step: int, q: int)
    requires step > 0
    ensures (step * q) % step == 0
  {
    var r := (step * q) % step;
    var d := q - (step * q) / step;
    assert r == step * d;
    AtLeastOneStep(step, d);
  }

  lemma AtLeastOneStep(step: int, d: int)
    requires step > 0
    ensures d > 0 ==> step * d >= step
    ensures d < 0 ==> step * d <= -step
  {
  }

  method SlotsOfRange(r: Range, p: ProviderDay, duration: int, policy: Policy, dayStart: int,
      now: int) returns (slots: seq<Slot>)
    requires policy.slotInterval > 0 && duration > 0
    ensures Ascending(slots) && AllOf(slots, p.staff, duration, dayStart)
    ensures AllFrom(slots, SlotStart(dayStart, r.start)) && AllBefore(slots, SlotStart(dayStart, r.end))
    ensures forall m :: SlotOf(p.staff, duration, dayStart, m) in slots <==>
              OnGrid(r, policy.slotInterval, duration, m) && Bookable(p, duration, policy, dayStart, now, m)
  {
    slots := [];
    var minute := r.start;
    while minute + duration <= r.end
      invariant r.start <= minute && (minute - r.start) % policy.slotInterval == 0
      invariant Ascending(slots) && AllOf(slots, p.staff, duration, dayStart)
      invariant AllFrom(slots, SlotStart(dayStart, r.start))
      invariant AllBefore(slots, SlotStart(dayStart, minute)) && AllBefore(slots, SlotStart(dayStart, r.end))
      invariant forall m :: SlotOf(p.staff, duration, dayStart, m) in slots <==>
                  m < minute && OnGrid(r, policy.slotInterval, duration, m)
                    && Bookable(p, duration, policy, dayStart, now, m)
      decreases r.end - minute
    {
      forall m | OnGrid(r, policy.slotInterval, duration, m) && m < minute + policy.slotInterval ensures m <= minute {
        GridGap(policy.slotInterval, minute - r.start, m - r.start);
      }
      if Bookable(p, duration, policy, dayStart, now, minute) {
        slots := slots + [SlotOf(p.staff, duration, dayStart, minute)];
      }
      NextOnGrid(policy.slotInterval, minute - r.start);
      minute := minute + policy.slotInterval;
    }
  }

  lemma OneMoreRange(open: seq<Range>, i: nat, step: int, duration: int)
    requires i < |open| && step > 0
    ensures forall m :: OnSomeGrid(open, i + 1, step, duration, m) <==>
      OnSomeGrid(open, i, step, duration, m) || OnGrid(open[i], step, duration, m)
  {
    forall m | OnSomeGrid(open, i + 1, step, duration, m)
      ensures OnSomeGrid(open, i, step, duration, m) || OnGrid(open[i], step, duration, m)
    {
      var k :| 0 <= k < i + 1 && OnGrid(open[k], step, duration, m);
      assert k < i ==> OnSomeGrid(open, i, step, duration, m);
    }
  }

  method SlotsOfIntervals(intervals: seq<LocalInterval>, p: ProviderDay, duration: int, policy: Policy, dayStart: int,
      now: int)
    returns (slots: seq<Slot>)
    requires NormalIntervals(intervals) && policy.slotInterval > 0 && duration > 0
    ensures Ascending(slots) && AllOf(slots, p.staff, duration, dayStart)
    ensures forall m :: SlotOf(p.staff, duration, dayStart, m) in slots <==>
              OnSomeGrid(ToMinuteRanges(intervals), |intervals|, policy.slotInterval, duration, m)
                && Bookable(p, duration, policy, dayStart, now, m)
  {
    ghost var open := ToMinuteRanges(intervals);
    slots := [];
    for i := 0 to |intervals|
      invariant Ascending(slots) && AllOf(slots, p.staff, duration, dayStart)
      invariant forall k :: i <= k < |intervals| ==> AllBefore(slots, SlotStart(dayStart, open[k].start))
      invariant forall m :: SlotOf(p.staff, duration, dayStart, m) in slots <==>
                  OnSomeGrid(open, i, policy.slotInterval, duration, m)
                    && Bookable(p, duration, policy, dayStart, now, m)
    {
      var more := SlotsOfRange(ToMinuteRange(intervals[i]), p, duration, policy, dayStart, now);
      AscendingAppend(slots, more, SlotStart(dayStart, open[i].start));
      OneMoreRange(open, i, policy.slotInterval, duration);
      slots := slots + more;
    }
  }

  // ---------- All providers ----------

  ghost predicate ValidProvider(p: ProviderDay, items: seq<ServiceItem>) {
    ValidIntervals(p.intervals) && PositiveDurations(items, p.overrides)
  }

  ghost predicate ValidRequest(branch: seq<LocalInterval>, providers: seq<ProviderDay>, items: seq<ServiceItem>,
      policy: Policy) {
    && ValidIntervals(branch) && policy.slotInterval > 0
    && forall i :: 0 <= i < |providers| ==> ValidProvider(providers[i], items)
  }

  ghost predicate DistinctStaff(providers: seq<ProviderDay>) {
    forall i, j :: 0 <= i < j < |providers| ==> providers[i].staff != providers[j].staff
  }

  ghost predicate OfferedSlot(branch: seq<LocalInterval>, p: ProviderDay, items: seq<ServiceItem>, policy: Policy,
      dayStart: int, now: int, slot: Slot)
    requires ValidIntervals(branch) && policy.slotInterval > 0 && ValidProvider(p, items)
  {
    exists m :: Offered(branch, p, items, policy, dayStart, now, m)
      && slot == SlotOf(p.staff, TotalDuration(items, p.overrides), dayStart, m)
  }

  /** One of the first n providers offers this slot. */
  ghost predicate OfferedByOne(branch: seq<LocalInterval>, providers: seq<ProviderDay>, n: nat,
      items: seq<ServiceItem>, policy: Policy,
                               dayStart: int, now: int, slot: Slot)
    requires n <= |providers| && ValidRequest(branch, providers, items, policy)
  {
    exists i :: 0 <= i < n && OfferedSlot(branch, providers[i], items, policy, dayStart, now, slot)
  }

  function ByStart(): (Slot, Slot) -> bool {
    (a: Slot, b: Slot) => a.start <= b.start
  }

  /** No provider is offered twice at the same start. */
  ghost predicate NoRepeat(slots: seq<Slot>) {
    forall i, j :: 0 <= i < j < |slots| ==> slots[i].staff != slots[j].staff || slots[i].start != slots[j].start
  }

  lemma NothingWhenClosed(branch: seq<LocalInterval>, p: ProviderDay, items: seq<ServiceItem>, policy: Policy,
      dayStart: int, now: int, slot: Slot)
    requires branch == [] && policy.slotInterval > 0 && ValidProvider(p, items)
    ensures !OfferedSlot(branch, p, items, policy, dayStart, now, slot)
  {
    forall m ensures !BothOpen(branch, p.intervals, m) {
      assert ToMinuteRanges(branch) == [];
    }
    forall m ensures !OnOpenGrid(branch, p.intervals, policy.slotInterval, TotalDuration(items, p.overrides), m) {
      assert !BothOpen(branch, p.intervals, m);
    }
  }

  ghost predicate StaffOf(slots: seq<Slot>, staff: string) {
    forall i :: 0 <= i < |slots| ==> slots[i].staff == staff
  }

  ghost predicate StaffOtherThan(slots: seq<Slot>, staff: string) {
    forall i :: 0 <= i < |slots| ==> slots[i].staff != staff
  }

  lemma AppendProvider(results: seq<Slot>, more: seq<Slot>, staff: string)
    requires NoRepeat(results) && StaffOtherThan(results, staff) && Ascending(more) && StaffOf(more, staff)
    ensures NoRepeat(results + more)
  {
  }

  /** Where the provider stands in the list; its length for a stranger. */
  function PlaceOf(providers: seq<ProviderDay>, staff: string): nat {
    if providers == [] || providers[0].staff == staff then 0 else 1 + PlaceOf(providers[1..], staff)
  }

  lemma {:induction false} PlaceIsIndex(providers: seq<ProviderDay>, i: nat)
    requires DistinctStaff(providers) && i < |providers|
    ensures PlaceOf(providers, providers[i].staff) == i
  {
    if i > 0 {
      assert DistinctStaff(providers[1..]) && providers[1..][i - 1] == providers[i];
      PlaceIsIndex(providers[1..], i - 1);
    }
  }

  function Rank(providers: seq<ProviderDay>): Slot -> int {
    (slot: Slot) => PlaceOf(providers, slot.staff)
  }

  ghost predicate ByProvider(providers: seq<ProviderDay>, slots: seq<Slot>) {
    Ranked(slots, Rank(providers))
  }

  /** Every slot is one of the first n providers'. */
  ghost predicate FromFirst(providers: seq<ProviderDay>, n: nat, slots: seq<Slot>) {
    forall i :: 0 <= i < |slots| ==> PlaceOf(providers, slots[i].staff) < n
  }

  /** At the same start the provider asked about first comes first. */
  ghost predicate TiesByProvider(providers: seq<ProviderDay>, slots: seq<Slot>) {
    forall i, j :: 0 <= i < j < |slots| && slots[i].start == slots[j].start ==>
      PlaceOf(providers, slots[i].staff) <= PlaceOf(providers, slots[j].staff)
  }

  lemma AppendInOrder(providers: seq<ProviderDay>, i: nat, pushed: seq<Slot>, more: seq<Slot>)
    requires DistinctStaff(providers) && i < |providers|
    requires ByProvider(providers, pushed) && FromFirst(providers, i, pushed) && StaffOf(more, providers[i].staff)
    ensures ByProvider(providers, pushed + more) && FromFirst(providers, i + 1, pushed + more)
  {
    PlaceIsIndex(providers, i);
  }

  lemma {:induction false} TiesStayByProvider(providers: seq<ProviderDay>, pushed: seq<Slot>, results: seq<Slot>)
    requires ByProvider(providers, pushed) && results == Sort(ByStart(), pushed)
    ensures TiesByProvider(providers, results)
  {
    forall i, j | 0 <= i < j < |results| && results[i].start == results[j].start
      ensures PlaceOf(providers, results[i].staff) <= PlaceOf(providers, results[j].staff)
    {
      TiesKeepRank(ByStart(), pushed, Rank(providers), i, j);
    }
  }

  lemma SortKeepsNoRepeat(s: seq<Slot>, t: seq<Slot>)
    requires NoRepeat(s) && multiset(s) == multiset(t)
    ensures NoRepeat(t)
    ensures forall slot :: slot in s <==> slot in t
  {
    PermutationKeepsDistinct(s, t);
    forall slot ensures slot in s <==> slot in t {
      assert slot in multiset(s) <==> slot in multiset(t);
    }
    forall i, j | 0 <= i < j < |t| ensures t[i].staff != t[j].staff || t[i].start != t[j].start {
      assert t[i] in s && t[j] in s;
      var a :| 0 <= a < |s| && s[a] == t[i];
      var b :| 0 <= b < |s| && s[b] == t[j];
    }
  }

  /** One provider's slots: exactly the offered ones, in order, none twice. */
  method SlotsOfProvider(branch: seq<LocalInterval>, p: ProviderDay, items: seq<ServiceItem>, policy: Policy,
      dayStart: int, now: int)
    returns (slots: seq<Slot>)
    requires ValidIntervals(branch) && policy.slotInterval > 0 && ValidProvider(p, items)
    ensures Ascending(slots) && StaffOf(slots, p.staff)
    ensures forall slot :: slot in slots <==> OfferedSlot(branch, p, items, policy, dayStart, now, slot)
  {
    var intervals := IntersectLocalIntervals(branch, p.intervals);
    var duration := TotalDuration(items, p.overrides);
    DurationPositive(items, p.overrides);
    slots := SlotsOfIntervals(intervals, p, duration, policy, dayStart, now);
    var open := ToMinuteRanges(intervals);
    forall m
      ensures OnOpenGrid(branch, p.intervals, policy.slotInterval, duration, m)
        == OnSomeGrid(open, |open|, policy.slotInterval, duration, m)
    {
      GridOfRanges(open, branch, p.intervals, policy.slotInterval, duration, m);
    }
    forall slot | slot in slots ensures OfferedSlot(branch, p, items, policy, dayStart, now, slot) {
      var i :| 0 <= i < |slots| && slots[i] == slot;
      assert IsSlotOf(slot, p.staff, duration, dayStart);
      var m :| slot == SlotOf(p.staff, duration, dayStart, m);
      assert Offered(branch, p, items, policy, dayStart, now, m);
    }
  }

  method ComputeDaySlots(branch: seq<LocalInterval>, providers: seq<ProviderDay>, items: seq<ServiceItem>,
      policy: Policy, dayStart: int, now: int)
    returns (results: seq<Slot>)
    requires ValidRequest(branch, providers, items, policy) && DistinctStaff(providers)
    ensures forall slot :: slot in results <==>
      OfferedByOne(branch, providers, |providers|, items, policy, dayStart, now, slot)
    ensures SortedBy(ByStart(), results) && NoRepeat(results) && TiesByProvider(providers, results)
  {
    if branch == [] {
      forall i, slot | 0 <= i < |providers|
        ensures !OfferedSlot(branch, providers[i], items, policy, dayStart, now, slot)
      {
        NothingWhenClosed(branch, providers[i], items, policy, dayStart, now, slot);
      }
      return [];
    }
    var pushed: seq<Slot> := [];
    for i := 0 to |providers|
      invariant NoRepeat(pushed) && ByProvider(providers, pushed) && FromFirst(providers, i, pushed)
      invariant forall slot :: slot in pushed <==>
        OfferedByOne(branch, providers, i, items, policy, dayStart, now, slot)
    {
      var more := SlotsOfProvider(branch, providers[i], items, policy, dayStart, now);
      forall k | 0 <= k < |pushed| ensures pushed[k].staff != providers[i].staff {
        assert pushed[k] in pushed;
      }
      AppendProvider(pushed, more, providers[i].staff);
      AppendInOrder(providers, i, pushed, more);
      pushed := pushed + more;
    }
    results := Sort(ByStart(), pushed);
    SortCorrect(ByStart(), pushed);
    SortKeepsNoRepeat(pushed, results);
    TiesStayByProvider(providers, pushed, results);
  }

  // ---------- What an offer means in minutes ----------

  /** One service takes the provider's own minutes if they have any, else the branch's. */
  lemma {:induction false} DurationOfOne(item: ServiceItem, overrides: map<string, int>)
    ensures item.serviceId in overrides ==> TotalDuration([item], overrides) == overrides[item.serviceId]
    ensures item.serviceId !in overrides ==> TotalDuration([item], overrides) == item.durationMinutes
  {
    assert [item][..0] == [];
    assert TotalDuration([], overrides) == 0;
  }

  /** Services asked for together take what they take apart. */
  lemma {:induction false} DurationsAddUp(items: seq<ServiceItem>, more: seq<ServiceItem>, overrides: map<string, int>)
    ensures TotalDuration(items + more, overrides) == TotalDuration(items, overrides) + TotalDuration(more, overrides)
  {
    if more == [] {
      assert items + more == items;
      assert TotalDuration(more, overrides) == 0;
    } else {
      var front := more[..|more| - 1];
      DurationsAddUp(items, front, overrides);
      assert (items + more)[..|items + more| - 1] == items + front;
    }
  }

  /** The booked window ends bufferBefore minutes or more before the appointment starts, or
      begins bufferAfter minutes or more after it ends. */
  predicate Clears(booked: Window, start: int, duration: int, policy: Policy) {
    || booked.end + 60_000 * policy.bufferBefore <= start
    || start + 60_000 * (duration + policy.bufferAfter) <= booked.start
  }

  /** An offered start, in milliseconds: on the open grid, at least the lead time away, and
      clear of every booked window by the buffer of the side it is on. */
  lemma {:induction false} OfferedIff(branch: seq<LocalInterval>, p: ProviderDay, items: seq<ServiceItem>,
      policy: Policy, dayStart: int, now: int, m: int)
    requires ValidIntervals(branch) && ValidIntervals(p.intervals) && policy.slotInterval > 0
    ensures var start, duration := dayStart + 60_000 * m, TotalDuration(items, p.overrides);
            Offered(branch, p, items, policy, dayStart, now, m) <==>
              && OnOpenGrid(branch, p.intervals, policy.slotInterval, duration, m)
              && start - now >= 60_000 * policy.leadMinutes
              && forall i :: 0 <= i < |p.booked| ==> Clears(p.booked[i], start, duration, policy)
  {
    var start, duration := dayStart + 60_000 * m, TotalDuration(items, p.overrides);
    forall i | 0 <= i < |p.booked|
      ensures Overlap(Occupied(start, duration, policy), p.booked[i]) <==> !Clears(p.booked[i], start, duration, policy)
    {
    }
  }

  /** What a customer is shown: the provider's own slot, as long as the services take, clear of
      everything booked that day. */
  lemma {:induction false} OfferedSlotIs(branch: seq<LocalInterval>, p: ProviderDay, items: seq<ServiceItem>,
      policy: Policy, dayStart: int, now: int, slot: Slot)
    requires ValidIntervals(branch) && policy.slotInterval > 0 && ValidProvider(p, items)
    requires OfferedSlot(branch, p, items, policy, dayStart, now, slot)
    ensures var duration := TotalDuration(items, p.overrides);
            && slot.staff == p.staff && slot.end == slot.start + 60_000 * duration
            && slot.start - now >= 60_000 * policy.leadMinutes
            && forall i :: 0 <= i < |p.booked| ==> Clears(p.booked[i], slot.start, duration, policy)
  {
    var m :| Offered(branch, p, items, policy, dayStart, now, m)
             && slot == SlotOf(p.staff, TotalDuration(items, p.overrides), dayStart, m);
    OfferedIff(branch, p, items, policy, dayStart, now, m);
  }

  lemma NineToFive()
    ensures ValidIntervals([LocalInterval("09:00", "17:00")])
    ensures forall k :: OpenAt([LocalInterval("09:00", "17:00")], k) <==> 540 <= k < 1020
  {
    CompareIsNumeric("09:00", "17:00");
    OneInterval(LocalInterval("09:00", "17:00"));
  }

  /** Open from nine to five, a 15-minute buffer after each appointment, and 10:30 to 11:15
      taken: a half-hour cut is offered at 09:30, and not at 10:00, where it would end in time
      but leave no buffer. */
  lemma BufferAfterKeepsAway()
    ensures var day, cut := [LocalInterval("09:00", "17:00")], [ServiceItem("cut", 30)];
            var p := ProviderDay("ann", day, map[], [Window(37_800_000, 40_500_000)]);
            && ValidIntervals(day)
            && Offered(day, p, cut, Policy(30, 0, 30, 0, 15), 0, 0, 570)
            && !Offered(day, p, cut, Policy(30, 0, 30, 0, 15), 0, 0, 600)
            && Offered(day, p, cut, Policy(30, 0, 30, 15, 0), 0, 0, 600)
  {
    var day, cut := [LocalInterval("09:00", "17:00")], [ServiceItem("cut", 30)];
    var p := ProviderDay("ann", day, map[], [Window(37_800_000, 40_500_000)]);
    NineToFive();
    DurationOfOne(cut[0], map[]);
    assert forall k :: BothOpen(day, day, k) <==> 540 <= k < 1020;
    assert OpenSince(day, day, 540, 570) && (570 - 540) % 30 == 0;
    assert OpenSince(day, day, 540, 600) && (600 - 540) % 30 == 0;
    OfferedIff(day, p, cut, Policy(30, 0, 30, 0, 15), 0, 0, 570);
    OfferedIff(day, p, cut, Policy(30, 0, 30, 0, 15), 0, 0, 600);
    OfferedIff(day, p, cut, Policy(30, 0, 30, 15, 0), 0, 0, 600);
    assert !Clears(p.booked[0], 36_000_000, 30, Policy(30, 0, 30, 0, 15));
  }
}
