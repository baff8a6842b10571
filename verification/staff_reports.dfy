/** Revenue and commission per staff member (report-aggregation.util.ts). */
module StaffReports {
  import opened Money
  import opened Sorting
  import opened Strings
  import opened Reports

  /** A sale, refund or reversal line; or an earned, refunded or reversed accrual. */
  datatype Kind = Gross | Refund | Reversal

  /** `policy` tells an accrual that a commission policy matched; lines do not use it. */
  datatype Posted = Posted(staff: string, amount: Amount, kind: Kind, policy: bool)

  function IsKind(kind: Kind): Posted -> bool {
    (p: Posted) => p.kind == kind
  }

  function EarnedFrom(policy: bool): Posted -> bool {
    (p: Posted) => p.kind == Gross && p.policy == policy
  }

  /** The amounts of one staff member's rows that satisfy `f`. */
  function Of(rows: seq<Posted>, staff: string, f: Posted -> bool): seq<Amount> {
    if rows == [] then []
    else
      var last := rows[|rows| - 1];
      Of(rows[..|rows| - 1], staff, f) + if f(last) && last.staff == staff then [last.amount] else []
  }

  // ---------- Grouping ----------

  type Groups = map<string, seq<Amount>>

  function ListOf(m: Groups, staff: string): seq<Amount> {
    if staff in m then m[staff] else []
  }

  function PushInto(m: Groups, staff: string, entry: Amount): Groups {
    m[staff := ListOf(m, staff) + [entry]]
  }

  function Group(rows: seq<Posted>, f: Posted -> bool): Groups {
    if rows == [] then map[]
    else
      var before, last := Group(rows[..|rows| - 1], f), rows[|rows| - 1];
      if f(last) then PushInto(before, last.staff, last.amount) else before
  }

  /** A group holds exactly the amounts of its staff member, in order. */
  lemma {:induction false} GroupIs(rows: seq<Posted>, f: Posted -> bool, staff: string)
    ensures ListOf(Group(rows, f), staff) == Of(rows, staff, f)
    ensures staff in Group(rows, f) <==> Of(rows, staff, f) != []
  {
    if rows != [] {
      GroupIs(rows[..|rows| - 1], f, staff);
    }
  }

  method GroupByKind(rows: seq<Posted>) returns (gross: Groups, refunded: Groups, reversed: Groups)
    ensures gross == Group(rows, IsKind(Gross)) && refunded == Group(rows, IsKind(Refund))
    ensures reversed == Group(rows, IsKind(Reversal))
  {
    gross, refunded, reversed := map[], map[], map[];
    for i := 0 to |rows|
      invariant gross == Group(rows[..i], IsKind(Gross))
      invariant refunded == Group(rows[..i], IsKind(Refund))
      invariant reversed == Group(rows[..i], IsKind(Reversal))
    {
      assert rows[..i + 1][..i] == rows[..i];
      match rows[i].kind
      case Gross => gross := PushInto(gross, rows[i].staff, rows[i].amount);
      case Refund => refunded := PushInto(refunded, rows[i].staff, rows[i].amount);
      case Reversal => reversed := PushInto(reversed, rows[i].staff, rows[i].amount);
    }
    assert rows[..|rows|] == rows;
  }

  method GroupBySource(rows: seq<Posted>) returns (policy: Groups, noPolicy: Groups, refunded: Groups, reversed: Groups)
    ensures policy == Group(rows, EarnedFrom(true)) && noPolicy == Group(rows, EarnedFrom(false))
    ensures refunded == Group(rows, IsKind(Refund)) && reversed == Group(rows, IsKind(Reversal))
  {
    policy, noPolicy, refunded, reversed := map[], map[], map[], map[];
    for i := 0 to |rows|
      invariant policy == Group(rows[..i], EarnedFrom(true)) && noPolicy == Group(rows[..i], EarnedFrom(false))
      invariant refunded == Group(rows[..i], IsKind(Refund)) && reversed == Group(rows[..i], IsKind(Reversal))
    {
      assert rows[..i + 1][..i] == rows[..i];
      match rows[i].kind
      case Refund => refunded := PushInto(refunded, rows[i].staff, rows[i].amount);
      case Reversal => reversed := PushInto(reversed, rows[i].staff, rows[i].amount);
      case Gross =>
        if rows[i].policy {
          policy := PushInto(policy, rows[i].staff, rows[i].amount);
        } else {
          noPolicy := PushInto(noPolicy, rows[i].staff, rows[i].amount);
        }
    }
    assert rows[..|rows|] == rows;
  }

  // ---------- Staff ids, sorted ----------

  ghost predicate StrictlyOrdered(ids: seq<string>) {
    forall i, j :: 0 <= i < j < |ids| ==> Less(ids[i], ids[j])
  }

  function ById(): (string, string) -> bool {
    (a: string, b: string) => Leq(a, b)
  }

  method SortedIds(staffIds: set<string>) returns (ids: seq<string>)
    ensures StrictlyOrdered(ids)
    ensures forall id :: id in ids <==> id in staffIds
  {
    var left, found := staffIds, [];
    while left != {}
      invariant left <= staffIds && Distinct(found)
      invariant forall id :: id in found <==> id in staffIds && id !in left
      decreases |left|
    {
      var id :| id in left;
      left, found := left - {id}, found + [id];
    }
    ids := Sort(ById(), found);
    IdOrder();
    SortCorrect(ById(), found);
    PermutationKeepsDistinct(found, ids);
    forall id ensures id in ids <==> id in found {
      assert id in ids <==> id in multiset(ids);
      assert id in found <==> id in multiset(found);
    }
    forall i, j | 0 <= i < j < |ids| ensures Less(ids[i], ids[j]) {
      assert ById()(ids[i], ids[j]);
    }
  }

  lemma IdOrder()
    ensures TotalPreorder(ById())
  {
    forall x: string, y: string ensures ById()(x, y) || ById()(y, x) { LeqTotal(x, y); }
    forall x: string, y: string, z: string | ById()(x, y) && ById()(y, z)
      ensures ById()(x, z)
    {
      LeqTransitive(x, y, z);
    }
  }

  // ---------- The two reports ----------

  /** Gross, refunded, reversed and net totals of one staff member. */
  datatype Split = Split(gross: seq<Amount>, refunded: seq<Amount>, reversed: seq<Amount>, net: seq<Amount>)

  datatype StaffEntry = StaffEntry(staff: string, revenue: Split, commission: Split)

  ghost predicate IsSplit(s: Split, rows: seq<Posted>, staff: string) {
    && IsSummary(s.gross, Of(rows, staff, IsKind(Gross)))
    && IsSummary(s.refunded, Of(rows, staff, IsKind(Refund)))
    && IsSummary(s.reversed, Of(rows, staff, IsKind(Reversal)))
    && IsNet(s.net, s.gross, [s.refunded, s.reversed])
  }

  method SplitOf(gross: Groups, refunded: Groups, reversed: Groups, staff: string,
      ghost rows: seq<Posted>) returns (s: Split)
    requires gross == Group(rows, IsKind(Gross)) && refunded == Group(rows, IsKind(Refund))
    requires reversed == Group(rows, IsKind(Reversal))
    ensures IsSplit(s, rows, staff)
  {
    GroupIs(rows, IsKind(Gross), staff);
    GroupIs(rows, IsKind(Refund), staff);
    GroupIs(rows, IsKind(Reversal), staff);
    var g := SumByCurrency(ListOf(gross, staff));
    var f := SumByCurrency(ListOf(refunded, staff));
    var v := SumByCurrency(ListOf(reversed, staff));
    var n := NetByCurrency(g, [f, v]);
    s := Split(g, f, v, n);
  }

  predicate HasKind(rows: seq<Posted>, staff: string, kind: Kind) {
    Of(rows, staff, IsKind(kind)) != []
  }

  /** Who gets an entry: anyone with a line, or with earned commission. */
  predicate Reported(lines: seq<Posted>, accruals: seq<Posted>, staff: string) {
    HasKind(lines, staff, Gross) || HasKind(lines, staff, Refund) || HasKind(lines, staff, Reversal)
      || HasKind(accruals, staff, Gross)
  }

  ghost predicate IsStaffEntry(e: StaffEntry, lines: seq<Posted>, accruals: seq<Posted>) {
    IsSplit(e.revenue, lines, e.staff) && IsSplit(e.commission, accruals, e.staff)
  }

  ghost predicate IsStaffReport(entries: seq<StaffEntry>, lines: seq<Posted>, accruals: seq<Posted>) {
    && StrictlyOrdered(StaffOf(entries))
    && (forall staff :: staff in StaffOf(entries) <==> Reported(lines, accruals, staff))
    && (forall i :: 0 <= i < |entries| ==> IsStaffEntry(entries[i], lines, accruals))
  }

  function StaffOf(entries: seq<StaffEntry>): seq<string> {
    seq(|entries|, i requires 0 <= i < |entries| => entries[i].staff)
  }

  lemma {:induction false} ReportedKeys(lines: seq<Posted>, accruals: seq<Posted>, staff: string)
    ensures Reported(lines, accruals, staff) <==>
      staff in Group(lines, IsKind(Gross)).Keys + Group(lines, IsKind(Refund)).Keys
        + Group(lines, IsKind(Reversal)).Keys + Group(accruals, IsKind(Gross)).Keys
  {
    GroupIs(lines, IsKind(Gross), staff);
    GroupIs(lines, IsKind(Refund), staff);
    GroupIs(lines, IsKind(Reversal), staff);
    GroupIs(accruals, IsKind(Gross), staff);
  }

  method EntryOf(lineGroups: (Groups, Groups, Groups), accrualGroups: (Groups, Groups, Groups), staff: string,
      ghost lines: seq<Posted>, ghost accruals: seq<Posted>)
    returns (e: StaffEntry)
    requires lineGroups == (Group(lines, IsKind(Gross)), Group(lines, IsKind(Refund)), Group(lines, IsKind(Reversal)))
    requires accrualGroups
      == (Group(accruals, IsKind(Gross)), Group(accruals, IsKind(Refund)), Group(accruals, IsKind(Reversal)))
    ensures e.staff == staff && IsStaffEntry(e, lines, accruals)
  {
    var r := SplitOf(lineGroups.0, lineGroups.1, lineGroups.2, staff, lines);
    var c := SplitOf(accrualGroups.0, accrualGroups.1, accrualGroups.2, staff, accruals);
    e := StaffEntry(staff, r, c);
  }

  method EntriesOf(lineGroups: (Groups, Groups, Groups), accrualGroups: (Groups, Groups, Groups), ids: seq<string>,
      ghost lines: seq<Posted>, ghost accruals: seq<Posted>)
    returns (entries: seq<StaffEntry>)
    requires lineGroups == (Group(lines, IsKind(Gross)), Group(lines, IsKind(Refund)), Group(lines, IsKind(Reversal)))
    requires accrualGroups
      == (Group(accruals, IsKind(Gross)), Group(accruals, IsKind(Refund)), Group(accruals, IsKind(Reversal)))
    ensures StaffOf(entries) == ids
    ensures forall i :: 0 <= i < |entries| ==> IsStaffEntry(entries[i], lines, accruals)
  {
    entries := [];
    for i := 0 to |ids|
      invariant StaffOf(entries) == ids[..i]
      invariant forall k :: 0 <= k < |entries| ==> IsStaffEntry(entries[k], lines, accruals)
    {
      var e := EntryOf(lineGroups, accrualGroups, ids[i], lines, accruals);
      assert StaffOf(entries + [e]) == StaffOf(entries) + [e.staff];
      entries := entries + [e];
    }
  }

  method AggregateStaffPerformance(lines: seq<Posted>, accruals: seq<Posted>) returns (entries: seq<StaffEntry>)
    ensures IsStaffReport(entries, lines, accruals)
  {
    var revenue, refunded, reversed := GroupByKind(lines);
    var earned, commissionRefunded, commissionReversed := GroupByKind(accruals);
    var ids := SortedIds(revenue.Keys + refunded.Keys + reversed.Keys + earned.Keys);
    forall staff ensures staff in ids <==> Reported(lines, accruals, staff) {
      ReportedKeys(lines, accruals, staff);
    }
    entries :=
      EntriesOf((revenue, refunded, reversed), (earned, commissionRefunded, commissionReversed), ids, lines, accruals);
  }

  datatype CommissionEntry = CommissionEntry(
    staff: string, policyAccrued: seq<Amount>, noPolicyAccrued: seq<Amount>, refunded: seq<Amount>,
      reversed: seq<Amount>, net: seq<Amount>)

  ghost predicate IsCommissionEntry(e: CommissionEntry, accruals: seq<Posted>) {
    && IsSummary(e.policyAccrued, Of(accruals, e.staff, EarnedFrom(true)))
    && IsSummary(e.noPolicyAccrued, Of(accruals, e.staff, EarnedFrom(false)))
    && IsSummary(e.refunded, Of(accruals, e.staff, IsKind(Refund)))
    && IsSummary(e.reversed, Of(accruals, e.staff, IsKind(Reversal)))
    && ByCurrency(e.net)
    && forall c ::
      Total(e.net, c)
      == Total(e.policyAccrued, c) + Total(e.noPolicyAccrued, c) - Total(e.refunded, c) - Total(e.reversed, c)
  }

  function CommissionStaff(entries: seq<CommissionEntry>): seq<string> {
    seq(|entries|, i requires 0 <= i < |entries| => entries[i].staff)
  }

  ghost predicate IsCommissionReport(entries: seq<CommissionEntry>, accruals: seq<Posted>) {
    && StrictlyOrdered(CommissionStaff(entries))
    && (forall i :: 0 <= i < |accruals| ==> accruals[i].staff in CommissionStaff(entries))
    && (forall k :: 0 <= k < |entries| ==> IsCommissionEntry(entries[k], accruals))
  }

  method CommissionOf(policy: Groups, noPolicy: Groups, refunded: Groups, reversed: Groups, staff: string,
      ghost accruals: seq<Posted>)
    returns (e: CommissionEntry)
    requires policy == Group(accruals, EarnedFrom(true)) && noPolicy == Group(accruals, EarnedFrom(false))
    requires refunded == Group(accruals, IsKind(Refund)) && reversed == Group(accruals, IsKind(Reversal))
    ensures e.staff == staff && IsCommissionEntry(e, accruals)
  {
    GroupIs(accruals, EarnedFrom(true), staff);
    GroupIs(accruals, EarnedFrom(false), staff);
    GroupIs(accruals, IsKind(Refund), staff);
    GroupIs(accruals, IsKind(Reversal), staff);
    var p := SumByCurrency(ListOf(policy, staff));
    var n := SumByCurrency(ListOf(noPolicy, staff));
    var f := SumByCurrency(ListOf(refunded, staff));
    var v := SumByCurrency(ListOf(reversed, staff));
    var earned := NetByCurrency(p + n, []);
    var net := NetByCurrency(earned, [f, v]);
    forall c ensures Total(net, c) == Total(p, c) + Total(n, c) - Total(f, c) - Total(v, c) {
      SumBySplit(InCurrency(c), p, n);
      TwoDeductions(f, v, c);
    }
    e := CommissionEntry(staff, p, n, f, v, net);
  }

  lemma {:induction false} TwoDeductions(f: seq<Amount>, v: seq<Amount>, c: string)
    ensures SumOfTotals([f, v], c) == Total(f, c) + Total(v, c)
  {
    assert [f, v][..1] == [f] && [f][..0] == [];
    assert SumOfTotals([f], c) == SumOfTotals([], c) + Total(f, c);
    assert SumOfTotals([f, v], c) == SumOfTotals([f], c) + Total(v, c);
  }

  lemma {:induction false} OfHas(rows: seq<Posted>, i: nat, f: Posted -> bool)
    requires i < |rows| && f(rows[i])
    ensures Of(rows, rows[i].staff, f) != []
    decreases |rows|
  {
    if i < |rows| - 1 { OfHas(rows[..|rows| - 1], i, f); }
  }

  lemma {:induction false} SomeGroupHas(accruals: seq<Posted>, i: nat)
    requires i < |accruals|
    ensures var staff := accruals[i].staff;
            staff in Group(accruals, EarnedFrom(true)) || staff in Group(accruals, EarnedFrom(false))
            || staff in Group(accruals, IsKind(Refund)) || staff in Group(accruals, IsKind(Reversal))
  {
    var p := accruals[i];
    var f := if p.kind == Gross then EarnedFrom(p.policy) else IsKind(p.kind);
    assert f(p);
    OfHas(accruals, i, f);
    GroupIs(accruals, f, p.staff);
    assert p.policy == true || p.policy == false;
  }

  method CommissionEntries(policy: Groups, noPolicy: Groups, refunded: Groups, reversed: Groups, ids: seq<string>,
      ghost accruals: seq<Posted>)
    returns (entries: seq<CommissionEntry>)
    requires policy == Group(accruals, EarnedFrom(true)) && noPolicy == Group(accruals, EarnedFrom(false))
    requires refunded == Group(accruals, IsKind(Refund)) && reversed == Group(accruals, IsKind(Reversal))
    ensures CommissionStaff(entries) == ids
    ensures forall k :: 0 <= k < |entries| ==> IsCommissionEntry(entries[k], accruals)
  {
    entries := [];
    for i := 0 to |ids|
      invariant CommissionStaff(entries) == ids[..i]
      invariant forall k :: 0 <= k < |entries| ==> IsCommissionEntry(entries[k], accruals)
    {
      var e := CommissionOf(policy, noPolicy, refunded, reversed, ids[i], accruals);
      assert CommissionStaff(entries + [e]) == CommissionStaff(entries) + [e.staff];
      entries := entries + [e];
    }
  }

  method AggregateCommissionsBySource(accruals: seq<Posted>) returns (entries: seq<CommissionEntry>)
    ensures IsCommissionReport(entries, accruals)
  {
    var policy, noPolicy, refunded, reversed := GroupBySource(accruals);
    var ids := SortedIds(policy.Keys + noPolicy.Keys + refunded.Keys + reversed.Keys);
    forall i | 0 <= i < |accruals| ensures accruals[i].staff in ids { SomeGroupHas(accruals, i); }
    entries := CommissionEntries(policy, noPolicy, refunded, reversed, ids, accruals);
  }

  // ---------- Conservation ----------

  /** What a row adds to a currency's net. */
  function SignedAmount(p: Posted, c: string): int {
    if p.amount.currency != c then 0 else if p.kind == Gross then p.amount.minor else -p.amount.minor
  }

  function Signed(c: string): Posted -> int {
    (p: Posted) => SignedAmount(p, c)
  }

  function SignedOf(staff: string, c: string): Posted -> int {
    (p: Posted) => if p.staff == staff then SignedAmount(p, c) else 0
  }

  function SignedAmong(ids: seq<string>, c: string): Posted -> int {
    (p: Posted) => if p.staff in ids then SignedAmount(p, c) else 0
  }

  function NetOf(rows: seq<Posted>, staff: string, c: string): int {
    Total(Of(rows, staff, IsKind(Gross)), c) - Total(Of(rows, staff, IsKind(Refund)), c)
    - Total(Of(rows, staff, IsKind(Reversal)), c)
  }

  lemma {:induction false} OfLast(rows: seq<Posted>, staff: string, f: Posted -> bool, c: string)
    requires rows != []
    ensures var last := rows[|rows| - 1];
            Total(Of(rows, staff, f), c)
            == Total(Of(rows[..|rows| - 1], staff, f), c)
               + if f(last) && last.staff == staff then InCurrency(c)(last.amount) else 0
  {
    var front, last := rows[..|rows| - 1], rows[|rows| - 1];
    SumByAppend(InCurrency(c), Of(front, staff, f), last.amount);
    assert Of(front, staff, f) + [] == Of(front, staff, f);
  }

  lemma LastRowNet(rows: seq<Posted>, staff: string, c: string)
    requires rows != []
    ensures var last := rows[|rows| - 1];
            NetOf(rows, staff, c)
            == NetOf(rows[..|rows| - 1], staff, c) + if last.staff == staff then SignedAmount(last, c) else 0
  {
    OfLast(rows, staff, IsKind(Gross), c);
    OfLast(rows, staff, IsKind(Refund), c);
    OfLast(rows, staff, IsKind(Reversal), c);
  }

  lemma {:induction false} NetIsSigned(rows: seq<Posted>, staff: string, c: string)
    ensures NetOf(rows, staff, c) == SumBy(SignedOf(staff, c), rows)
  {
    if rows != [] {
      var front, last := rows[..|rows| - 1], rows[|rows| - 1];
      LastRowNet(rows, staff, c);
      NetIsSigned(front, staff, c);
      SignedLast(front, last, staff, c);
      assert rows == front + [last];
    }
  }

  lemma SignedLast(front: seq<Posted>, last: Posted, staff: string, c: string)
    ensures SumBy(SignedOf(staff, c), front + [last])
      == SumBy(SignedOf(staff, c), front) + if last.staff == staff then SignedAmount(last, c) else 0
  {
    SumByAppend(SignedOf(staff, c), front, last);
  }

  lemma {:induction false} PolicySplit(rows: seq<Posted>, staff: string, c: string)
    ensures Total(Of(rows, staff, EarnedFrom(true)), c) + Total(Of(rows, staff, EarnedFrom(false)), c)
      == Total(Of(rows, staff, IsKind(Gross)), c)
  {
    if rows != [] {
      PolicySplit(rows[..|rows| - 1], staff, c);
      OfLast(rows, staff, IsKind(Gross), c);
      OfLast(rows, staff, EarnedFrom(true), c);
      OfLast(rows, staff, EarnedFrom(false), c);
    }
  }

  function StaffNet(rows: seq<Posted>, c: string): string -> int {
    (staff: string) => NetOf(rows, staff, c)
  }

  /** The nets of distinct staff add up to the rows of those staff. */
  lemma {:induction false} NetsOfStaff(rows: seq<Posted>, ids: seq<string>, c: string)
    requires Distinct(ids)
    ensures SumBy(StaffNet(rows, c), ids) == SumBy(SignedAmong(ids, c), rows)
  {
    if ids == [] {
      ZeroSum(SignedAmong(ids, c), rows);
    } else {
      NetsOfStaff(rows, ids[1..], c);
      NetIsSigned(rows, ids[0], c);
      assert ids[0] !in ids[1..];
      assert forall staff :: staff in ids <==> staff == ids[0] || staff in ids[1..];
      SumByAdd(SignedAmong(ids, c), SignedOf(ids[0], c), SignedAmong(ids[1..], c), rows);
    }
  }

  lemma {:induction false} ZeroSum(f: Posted -> int, rows: seq<Posted>)
    requires forall p :: p in rows ==> f(p) == 0
    ensures SumBy(f, rows) == 0
  {
    if rows != [] { ZeroSum(f, rows[1..]); }
  }

  lemma OrderedIsDistinct(ids: seq<string>)
    requires StrictlyOrdered(ids)
    ensures Distinct(ids)
  {
  }

  lemma SplitNet(s: Split, rows: seq<Posted>, staff: string, c: string)
    requires IsSplit(s, rows, staff)
    ensures Total(s.net, c) == NetOf(rows, staff, c)
  {
    TwoDeductions(s.refunded, s.reversed, c);
  }

  function RevenueNet(c: string): StaffEntry -> int {
    (e: StaffEntry) => Total(e.revenue.net, c)
  }

  function CommissionNet(c: string): StaffEntry -> int {
    (e: StaffEntry) => Total(e.commission.net, c)
  }

  lemma {:induction false} EntryNets(entries: seq<StaffEntry>, lines: seq<Posted>, accruals: seq<Posted>, c: string)
    requires forall i :: 0 <= i < |entries| ==> IsStaffEntry(entries[i], lines, accruals)
    ensures SumBy(RevenueNet(c), entries) == SumBy(StaffNet(lines, c), StaffOf(entries))
    ensures SumBy(CommissionNet(c), entries) == SumBy(StaffNet(accruals, c), StaffOf(entries))
  {
    if entries != [] {
      EntryNets(entries[1..], lines, accruals, c);
      assert StaffOf(entries)[1..] == StaffOf(entries[1..]);
      SplitNet(entries[0].revenue, lines, entries[0].staff, c);
      SplitNet(entries[0].commission, accruals, entries[0].staff, c);
    }
  }

  lemma {:induction false} RowIsReported(rows: seq<Posted>, i: nat)
    requires i < |rows|
    ensures HasKind(rows, rows[i].staff, rows[i].kind)
  {
    OfHas(rows, i, IsKind(rows[i].kind));
  }

  /** An accrual whose staff member has neither a line nor earned commission: it is left out. */
  predicate Dropped(lines: seq<Posted>, accruals: seq<Posted>, p: Posted) {
    !Reported(lines, accruals, p.staff)
  }

  function DroppedAmount(lines: seq<Posted>, accruals: seq<Posted>, c: string): Posted -> int {
    (p: Posted) => if Dropped(lines, accruals, p) then SignedAmount(p, c) else 0
  }

  /** Per currency, the net revenue of all entries is sales less refunds less reversals over
      all lines. Net commission is the same over all accruals, except for the accruals of
      staff without a line and without earned commission, who get no entry. */
  lemma {:induction false} StaffReportConserves(entries: seq<StaffEntry>, lines: seq<Posted>, accruals: seq<Posted>,
      c: string)
    requires IsStaffReport(entries, lines, accruals)
    ensures SumBy(RevenueNet(c), entries) == SumBy(Signed(c), lines)
    ensures SumBy(CommissionNet(c), entries)
      == SumBy(Signed(c), accruals) - SumBy(DroppedAmount(lines, accruals, c), accruals)
  {
    var ids := StaffOf(entries);
    OrderedIsDistinct(ids);
    EntryNets(entries, lines, accruals, c);
    NetsOfStaff(lines, ids, c);
    NetsOfStaff(accruals, ids, c);
    forall p | p in lines ensures SignedAmong(ids, c)(p) == Signed(c)(p) {
      var i :| 0 <= i < |lines| && lines[i] == p;
      RowIsReported(lines, i);
    }
    SumByCongruent(SignedAmong(ids, c), Signed(c), lines);
    SumByAdd(Signed(c), SignedAmong(ids, c), DroppedAmount(lines, accruals, c), accruals);
  }

  lemma {:induction false} NonPositiveSum(f: Posted -> int, rows: seq<Posted>)
    requires forall p :: p in rows ==> f(p) <= 0
    ensures SumBy(f, rows) <= 0
    ensures SumBy(f, rows) == 0 <==> forall p :: p in rows ==> f(p) == 0
  {
    if rows != [] {
      NonPositiveSum(f, rows[1..]);
      assert forall p :: p in rows <==> p == rows[0] || p in rows[1..];
    }
  }

  /** Net commission is conserved exactly when no accrual of a positive amount is dropped. */
  lemma {:induction false} CommissionConservedIff(entries: seq<StaffEntry>, lines: seq<Posted>, accruals: seq<Posted>,
      c: string)
    requires IsStaffReport(entries, lines, accruals)
    requires forall i :: 0 <= i < |accruals| ==> accruals[i].amount.minor >= 0
    ensures SumBy(CommissionNet(c), entries) == SumBy(Signed(c), accruals) <==>
      forall p :: p in accruals && Dropped(lines, accruals, p) && p.amount.currency == c ==> p.amount.minor == 0
  {
    StaffReportConserves(entries, lines, accruals, c);
    forall p | p in accruals
      ensures DroppedAmount(lines, accruals, c)(p) <= 0
      ensures DroppedAmount(lines, accruals, c)(p) == 0 <==>
        (Dropped(lines, accruals, p) && p.amount.currency == c ==> p.amount.minor == 0)
    {
      var i :| 0 <= i < |accruals| && accruals[i] == p;
      DroppedIsDeduction(lines, accruals, c, i);
    }
    NonPositiveSum(DroppedAmount(lines, accruals, c), accruals);
  }

  /** Only refunded and reversed accruals are ever dropped. */
  lemma DroppedIsDeduction(lines: seq<Posted>, accruals: seq<Posted>, c: string, i: nat)
    requires i < |accruals| && accruals[i].amount.minor >= 0
    ensures DroppedAmount(lines, accruals, c)(accruals[i]) <= 0
    ensures DroppedAmount(lines, accruals, c)(accruals[i]) == 0 <==>
      (Dropped(lines, accruals, accruals[i]) && accruals[i].amount.currency == c ==> accruals[i].amount.minor == 0)
  {
    RowIsReported(accruals, i);
  }

  /** One posted transaction with the rows written in it: every accrual, earned or
      correcting, is written beside a SERVICE line of the same staff member. */
  datatype PostedTransaction = PostedTransaction(lines: seq<Posted>, accruals: seq<Posted>)

  ghost predicate LinesBesideAccruals(t: PostedTransaction) {
    forall i :: 0 <= i < |t.accruals| ==> exists k :: 0 <= k < |t.lines| && t.lines[k].staff == t.accruals[i].staff
  }

  function AllLines(transactions: seq<PostedTransaction>): seq<Posted> {
    if transactions == [] then [] else transactions[0].lines + AllLines(transactions[1..])
  }

  function AllAccruals(transactions: seq<PostedTransaction>): seq<Posted> {
    if transactions == [] then [] else transactions[0].accruals + AllAccruals(transactions[1..])
  }

  lemma {:induction false} AccrualHasLine(transactions: seq<PostedTransaction>, p: Posted)
    requires forall i :: 0 <= i < |transactions| ==> LinesBesideAccruals(transactions[i])
    requires p in AllAccruals(transactions)
    ensures exists l :: l in AllLines(transactions) && l.staff == p.staff
  {
    var first, rest := transactions[0], transactions[1..];
    if p in first.accruals {
      var i :| 0 <= i < |first.accruals| && first.accruals[i] == p;
      assert LinesBesideAccruals(transactions[0]);
      var k :| 0 <= k < |first.lines| && first.lines[k].staff == first.accruals[i].staff;
      assert first.lines[k] in AllLines(transactions);
    } else {
      AccrualHasLine(rest, p);
      var l :| l in AllLines(rest) && l.staff == p.staff;
      assert l in AllLines(transactions);
    }
  }

  lemma NeverDropped(lines: seq<Posted>, accruals: seq<Posted>, p: Posted)
    requires exists l :: l in lines && l.staff == p.staff
    ensures !Dropped(lines, accruals, p)
  {
    var l :| l in lines && l.staff == p.staff;
    var i :| 0 <= i < |lines| && lines[i] == l;
    RowIsReported(lines, i);
  }

  /** On what the report really reads, the lines and accruals of the same posted transactions,
      net commission is conserved for every period and currency: no entry is missing. */
  lemma {:induction false} CommittedReportConserves(entries: seq<StaffEntry>, transactions: seq<PostedTransaction>,
      c: string)
    requires forall i :: 0 <= i < |transactions| ==> LinesBesideAccruals(transactions[i])
    requires IsStaffReport(entries, AllLines(transactions), AllAccruals(transactions))
    ensures SumBy(CommissionNet(c), entries) == SumBy(Signed(c), AllAccruals(transactions))
  {
    var lines, accruals := AllLines(transactions), AllAccruals(transactions);
    StaffReportConserves(entries, lines, accruals, c);
    forall p | p in accruals ensures DroppedAmount(lines, accruals, c)(p) == 0 {
      AccrualHasLine(transactions, p);
      NeverDropped(lines, accruals, p);
    }
    ZeroSum(DroppedAmount(lines, accruals, c), accruals);
  }

  lemma HeadIsMember(ids: seq<string>)
    ensures ids != [] ==> exists id :: id in ids
  {
    if ids != [] { assert ids[0] in ids; }
  }

  /** The accruals of a period without the lines written beside them would lose a refund: the
      condition above is needed, and the lines are what meets it. */
  lemma {:induction false} RefundWithoutItsLineIsLost(without: seq<StaffEntry>, with: seq<StaffEntry>)
    requires IsStaffReport(without, [], [Posted("ann", Amount("EUR", 5), Refund, true)])
    requires IsStaffReport(with, [Posted("ann", Amount("EUR", 50), Refund, true)],
      [Posted("ann", Amount("EUR", 5), Refund, true)])
    ensures SumBy(CommissionNet("EUR"), without) == 0
    ensures SumBy(CommissionNet("EUR"), with) == -5
  {
    var p, l := Posted("ann", Amount("EUR", 5), Refund, true), Posted("ann", Amount("EUR", 50), Refund, true);
    forall staff ensures !Reported([], [p], staff) {
      OfNone([p], staff, IsKind(Gross));
    }
    HeadIsMember(StaffOf(without));
    OneRefund(p, l, with);
  }

  lemma {:induction false} OneRefund(p: Posted, l: Posted, entries: seq<StaffEntry>)
    requires p.staff == l.staff && p.kind == Refund && IsStaffReport(entries, [l], [p])
    ensures SumBy(CommissionNet(p.amount.currency), entries) == -p.amount.minor
  {
    var t := PostedTransaction([l], [p]);
    assert AllLines([t]) == [l] + AllLines([t][1..]) == [l] && AllAccruals([t]) == [p] + AllAccruals([t][1..]) == [p];
    assert t.lines[0].staff == t.accruals[0].staff;
    CommittedReportConserves(entries, [t], p.amount.currency);
    assert SumBy(Signed(p.amount.currency), [p])
      == SignedAmount(p, p.amount.currency) + SumBy(Signed(p.amount.currency), []);
  }

  lemma {:induction false} OfNone(rows: seq<Posted>, staff: string, f: Posted -> bool)
    requires forall i :: 0 <= i < |rows| ==> !f(rows[i])
    ensures Of(rows, staff, f) == []
  {
    if rows != [] { OfNone(rows[..|rows| - 1], staff, f); }
  }

  function BySourceNet(c: string): CommissionEntry -> int {
    (e: CommissionEntry) => Total(e.net, c)
  }

  lemma {:induction false} CommissionEntryNets(entries: seq<CommissionEntry>, accruals: seq<Posted>, c: string)
    requires forall k :: 0 <= k < |entries| ==> IsCommissionEntry(entries[k], accruals)
    ensures SumBy(BySourceNet(c), entries) == SumBy(StaffNet(accruals, c), CommissionStaff(entries))
  {
    if entries != [] {
      CommissionEntryNets(entries[1..], accruals, c);
      assert CommissionStaff(entries)[1..] == CommissionStaff(entries[1..]);
      PolicySplit(accruals, entries[0].staff, c);
    }
  }

  /** The report by source loses nothing: per currency its nets add up to all accruals. */
  lemma {:induction false} CommissionReportConserves(entries: seq<CommissionEntry>, accruals: seq<Posted>, c: string)
    requires IsCommissionReport(entries, accruals)
    ensures SumBy(BySourceNet(c), entries) == SumBy(Signed(c), accruals)
  {
    var ids := CommissionStaff(entries);
    OrderedIsDistinct(ids);
    CommissionEntryNets(entries, accruals, c);
    NetsOfStaff(accruals, ids, c);
    forall p | p in accruals ensures SignedAmong(ids, c)(p) == Signed(c)(p) {
      var i :| 0 <= i < |accruals| && accruals[i] == p;
    }
    SumByCongruent(SignedAmong(ids, c), Signed(c), accruals);
  }

  // ---------- What an entry says ----------

  /** The minor units a row adds to one staff member's total of one kind and currency. */
  function Counted(staff: string, kind: Kind, c: string): Posted -> int {
    (p: Posted) => if p.staff == staff && p.kind == kind && p.amount.currency == c then p.amount.minor else 0
  }

  /** The same for earned commission, by whether a policy matched. */
  function Earned(staff: string, policy: bool, c: string): Posted -> int {
    (p: Posted) =>
      if p.staff == staff && p.kind == Gross && p.policy == policy && p.amount.currency == c then p.amount.minor else 0
  }

  lemma {:induction false} KindTotal(rows: seq<Posted>, staff: string, kind: Kind, c: string)
    ensures Total(Of(rows, staff, IsKind(kind)), c) == SumBy(Counted(staff, kind, c), rows)
  {
    if rows != [] {
      var front, last := rows[..|rows| - 1], rows[|rows| - 1];
      KindTotal(front, staff, kind, c);
      OfLast(rows, staff, IsKind(kind), c);
      SumByAppend(Counted(staff, kind, c), front, last);
      assert rows == front + [last];
    }
  }

  lemma {:induction false} EarnedTotal(rows: seq<Posted>, staff: string, policy: bool, c: string)
    ensures Total(Of(rows, staff, EarnedFrom(policy)), c) == SumBy(Earned(staff, policy, c), rows)
  {
    if rows != [] {
      var front, last := rows[..|rows| - 1], rows[|rows| - 1];
      EarnedTotal(front, staff, policy, c);
      OfLast(rows, staff, EarnedFrom(policy), c);
      SumByAppend(Earned(staff, policy, c), front, last);
      assert rows == front + [last];
    }
  }

  lemma {:induction false} SplitSays(s: Split, rows: seq<Posted>, staff: string, c: string)
    requires IsSplit(s, rows, staff)
    ensures Total(s.gross, c) == SumBy(Counted(staff, Gross, c), rows)
    ensures Total(s.refunded, c) == SumBy(Counted(staff, Refund, c), rows)
    ensures Total(s.reversed, c) == SumBy(Counted(staff, Reversal, c), rows)
  {
    KindTotal(rows, staff, Gross, c);
    KindTotal(rows, staff, Refund, c);
    KindTotal(rows, staff, Reversal, c);
  }

  /** The figures under each heading are that staff member's rows of that kind: sales, refunds
      and reversals under revenue, earned, refunded and reversed accruals under commission. */
  lemma {:induction false} StaffEntrySays(entries: seq<StaffEntry>, lines: seq<Posted>, accruals: seq<Posted>, k: nat,
      c: string)
    requires IsStaffReport(entries, lines, accruals) && k < |entries|
    ensures var e := entries[k];
            && Total(e.revenue.gross, c) == SumBy(Counted(e.staff, Gross, c), lines)
            && Total(e.revenue.refunded, c) == SumBy(Counted(e.staff, Refund, c), lines)
            && Total(e.revenue.reversed, c) == SumBy(Counted(e.staff, Reversal, c), lines)
            && Total(e.commission.gross, c) == SumBy(Counted(e.staff, Gross, c), accruals)
            && Total(e.commission.refunded, c) == SumBy(Counted(e.staff, Refund, c), accruals)
            && Total(e.commission.reversed, c) == SumBy(Counted(e.staff, Reversal, c), accruals)
  {
    assert IsStaffEntry(entries[k], lines, accruals);
    SplitSays(entries[k].revenue, lines, entries[k].staff, c);
    SplitSays(entries[k].commission, accruals, entries[k].staff, c);
  }

  /** The same for the report by source. */
  lemma {:induction false} CommissionEntrySays(entries: seq<CommissionEntry>, accruals: seq<Posted>, k: nat, c: string)
    requires IsCommissionReport(entries, accruals) && k < |entries|
    ensures var e := entries[k];
            && Total(e.policyAccrued, c) == SumBy(Earned(e.staff, true, c), accruals)
            && Total(e.noPolicyAccrued, c) == SumBy(Earned(e.staff, false, c), accruals)
            && Total(e.refunded, c) == SumBy(Counted(e.staff, Refund, c), accruals)
            && Total(e.reversed, c) == SumBy(Counted(e.staff, Reversal, c), accruals)
  {
    var staff := entries[k].staff;
    EarnedTotal(accruals, staff, true, c);
    EarnedTotal(accruals, staff, false, c);
    KindTotal(accruals, staff, Refund, c);
    KindTotal(accruals, staff, Reversal, c);
  }
}
