/** Who may perform a whole request (availability-engine.service.ts). */
module Eligibility {
  import opened Options
  import opened Sorting

  datatype Assignment = Assignment(staff: string, service: string, bookable: bool)

  /** The staff member holds a bookable assignment to the service. */
  ghost predicate Assigned(assignments: seq<Assignment>, staff: string, service: string) {
    exists i :: 0 <= i < |assignments| && Matches(assignments[i], staff, service)
  }

  predicate Matches(a: Assignment, staff: string, service: string) {
    a.staff == staff && a.service == service && a.bookable
  }

  ghost predicate AssignedToAll(assignments: seq<Assignment>, staff: string, serviceIds: seq<string>) {
    serviceIds != [] && forall id :: id in serviceIds ==> Assigned(assignments, staff, id)
  }

  /** An empty requested id counts as none. */
  predicate Wanted(requested: Option<string>, staff: string) {
    requested.None? || requested.value == "" || requested.value == staff
  }

  /** The Map from staff to the requested services they are assigned to, with its keys in order. */
  datatype ByStaff = ByStaff(keys: seq<string>, services: map<string, set<string>>)

  function ServicesOf(b: ByStaff, staff: string): set<string> {
    if staff in b.services then b.services[staff] else {}
  }

  ghost predicate Groups(b: ByStaff, assignments: seq<Assignment>, serviceIds: seq<string>) {
    && Distinct(b.keys)
    && (forall staff :: staff in b.keys <==> staff in b.services)
    && (forall staff :: staff in b.services ==> b.services[staff] != {})
    && (forall staff, id :: id in ServicesOf(b, staff) <==> id in serviceIds && Assigned(assignments, staff, id))
  }

  function Add(b: ByStaff, a: Assignment, serviceIds: seq<string>): ByStaff {
    if !a.bookable || a.service !in serviceIds then b
    else ByStaff(if a.staff in b.services then b.keys else b.keys + [a.staff],
      b.services[a.staff := ServicesOf(b, a.staff) + {a.service}])
  }

  lemma AddGroups(b: ByStaff, assignments: seq<Assignment>, a: Assignment, serviceIds: seq<string>)
    requires Groups(b, assignments, serviceIds)
    ensures Groups(Add(b, a, serviceIds), assignments + [a], serviceIds)
  {
    forall staff, id
      ensures Assigned(assignments + [a], staff, id) <==> Assigned(assignments, staff, id) || Matches(a, staff, id)
    {
      assert forall i :: 0 <= i < |assignments| ==> (assignments + [a])[i] == assignments[i];
      assert (assignments + [a])[|assignments|] == a;
    }
    var next := Add(b, a, serviceIds);
    assert forall staff :: staff in next.keys <==>
      staff in b.keys || (a.bookable && a.service in serviceIds && staff == a.staff);
    forall staff, id
      ensures id in ServicesOf(next, staff) <==> id in serviceIds && Assigned(assignments + [a], staff, id)
    {
      assert id in ServicesOf(b, staff) <==> id in serviceIds && Assigned(assignments, staff, id);
    }
  }

  method GroupByStaff(assignments: seq<Assignment>, serviceIds: seq<string>) returns (b: ByStaff)
    ensures Groups(b, assignments, serviceIds)
  {
    b := ByStaff([], map[]);
    for i := 0 to |assignments|
      invariant Groups(b, assignments[..i], serviceIds)
    {
      assert assignments[..i + 1] == assignments[..i] + [assignments[i]];
      AddGroups(b, assignments[..i], assignments[i], serviceIds);
      b := Add(b, assignments[i], serviceIds);
    }
    assert assignments[..|assignments|] == assignments;
  }

  lemma AllServices(b: ByStaff, assignments: seq<Assignment>, serviceIds: seq<string>, staff: string)
    requires Groups(b, assignments, serviceIds) && staff in b.services
    ensures (forall id :: id in serviceIds ==> id in b.services[staff]) <==>
      AssignedToAll(assignments, staff, serviceIds)
  {
    var some :| some in b.services[staff];
    assert some in ServicesOf(b, staff);
    forall id ensures id in b.services[staff] <==> id in serviceIds && Assigned(assignments, staff, id) {
      assert id in ServicesOf(b, staff) <==> id in b.services[staff];
    }
  }

  /** Exactly the active staff with a bookable assignment to every requested service, once
      each, or only the one asked for. */
  method ResolveEligibleProviders(assignments: seq<Assignment>, serviceIds: seq<string>, active: set<string>,
      requested: Option<string>)
    returns (eligible: seq<string>)
    ensures Distinct(eligible)
    ensures forall staff :: staff in eligible <==>
      AssignedToAll(assignments, staff, serviceIds) && staff in active && Wanted(requested, staff)
  {
    var b := GroupByStaff(assignments, serviceIds);
    eligible := [];
    for i := 0 to |b.keys|
      invariant Distinct(eligible) && forall k :: i <= k < |b.keys| ==> b.keys[k] !in eligible
      invariant forall staff :: staff in eligible <==>
        staff in b.keys[..i] && AssignedToAll(assignments, staff, serviceIds) && staff in active
    {
      var staff := b.keys[i];
      assert forall x :: x in b.keys[..i + 1] <==> x in b.keys[..i] || x == staff;
      AllServices(b, assignments, serviceIds, staff);
      if (forall id :: id in serviceIds ==> id in b.services[staff]) && staff in active {
        eligible := eligible + [staff];
      }
    }
    assert b.keys[..|b.keys|] == b.keys;
    forall staff | AssignedToAll(assignments, staff, serviceIds) ensures staff in b.keys {
      assert serviceIds[0] in serviceIds;
      assert Assigned(assignments, staff, serviceIds[0]);
      assert serviceIds[0] in ServicesOf(b, staff);
    }
    if requested.Some? && requested.value != "" {
      eligible := if requested.value in eligible then [requested.value] else [];
    }
  }
}
