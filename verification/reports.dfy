/** Report aggregation and in-memory paging (report-aggregation.util.ts). A JavaScript Map is a
    map with its keys in insertion order; currency codes compare by their characters. */
module Reports {
  import opened Arithmetic
  import opened Money
  import opened Options
  import opened Sorting
  import opened Strings

  datatype Amount = Amount(currency: string, minor: int)

  function InCurrency(c: string): Amount -> int {
    (a: Amount) => if a.currency == c then a.minor else 0
  }

  function Total(amounts: seq<Amount>, c: string): int {
    SumBy(InCurrency(c), amounts)
  }

  predicate Has(amounts: seq<Amount>, c: string) {
    exists i :: 0 <= i < |amounts| && amounts[i].currency == c
  }

  ghost predicate ByCurrency(amounts: seq<Amount>) {
    forall i, j :: 0 <= i < j < |amounts| ==> Less(amounts[i].currency, amounts[j].currency)
  }

  // ---------- A Map from currency to amount ----------

  /** A map and its keys in the order they were first set. */
  datatype Tally = Tally(keys: seq<string>, sums: map<string, int>)

  ghost predicate Valid(t: Tally) {
    Distinct(t.keys) && forall k :: k in t.keys <==> k in t.sums
  }

  function Get(t: Tally, c: string): int {
    if c in t.sums then t.sums[c] else 0
  }

  function Bump(t: Tally, c: string, more: int): Tally {
    Tally(if c in t.sums then t.keys else t.keys + [c], t.sums[c := Get(t, c) + more])
  }

  lemma BumpValid(t: Tally, c: string, more: int)
    requires Valid(t)
    ensures Valid(Bump(t, c, more))
  {
    assert forall k :: k in Bump(t, c, more).keys <==> k in t.keys || k == c;
  }

  /** r is t with every item added, or subtracted for sign -1. */
  ghost predicate Added(r: Tally, t: Tally, items: seq<Amount>, sign: int) {
    && (forall c :: Get(r, c) == Get(t, c) + sign * Total(items, c))
    && (forall c :: c in r.sums <==> c in t.sums || Has(items, c))
  }

  lemma AddOne(r: Tally, t: Tally, items: seq<Amount>, x: Amount, sign: int)
    requires Valid(r) && Added(r, t, items, sign)
    ensures Valid(Bump(r, x.currency, sign * x.minor))
    ensures Added(Bump(r, x.currency, sign * x.minor), t, items + [x], sign)
  {
    var next := Bump(r, x.currency, sign * x.minor);
    BumpValid(r, x.currency, sign * x.minor);
    forall c
      ensures Get(next, c) == Get(t, c) + sign * Total(items + [x], c)
      ensures c in next.sums <==> c in t.sums || Has(items + [x], c)
    {
      SumByAppend(InCurrency(c), items, x);
      HasAppend(items, x, c);
      DistributeLeft(sign, Total(items, c), InCurrency(c)(x));
    }
  }

  lemma NoneAdded(t: Tally, sign: int)
    ensures Added(t, t, [], sign)
  {
  }

  method AddAll(t: Tally, items: seq<Amount>, sign: int) returns (r: Tally)
    requires Valid(t)
    ensures Valid(r) && Added(r, t, items, sign)
  {
    r := t;
    NoneAdded(t, sign);
    assert items[..0] == [];
    for i := 0 to |items|
      invariant Valid(r) && Added(r, t, items[..i], sign)
    {
      assert items[..i + 1] == items[..i] + [items[i]];
      AddOne(r, t, items[..i], items[i], sign);
      r := Bump(r, items[i].currency, sign * items[i].minor);
    }
    assert items[..|items|] == items;
  }

  lemma HasAppend(items: seq<Amount>, x: Amount, c: string)
    ensures Has(items + [x], c) <==> Has(items, c) || c == x.currency
  {
    if Has(items, c) {
      var i :| 0 <= i < |items| && items[i].currency == c;
      assert (items + [x])[i].currency == c;
    }
    assert (items + [x])[|items|] == x;
  }

  function AmountLeq(): (Amount, Amount) -> bool {
    (a: Amount, b: Amount) => Leq(a.currency, b.currency)
  }

  lemma AmountOrder()
    ensures TotalPreorder(AmountLeq())
  {
    forall x: Amount, y: Amount ensures AmountLeq()(x, y) || AmountLeq()(y, x) {
      LeqTotal(x.currency, y.currency);
    }
    forall x: Amount, y: Amount, z: Amount | AmountLeq()(x, y) && AmountLeq()(y, z) ensures AmountLeq()(x, z) {
      LeqTransitive(x.currency, y.currency, z.currency);
    }
  }

  /** The entries of the map, by currency. */
  method Entries(t: Tally) returns (r: seq<Amount>)
    requires Valid(t)
    ensures ByCurrency(r)
    ensures forall c :: Total(r, c) == Get(t, c)
    ensures forall c :: Has(r, c) <==> c in t.sums
  {
    var entries := seq(|t.keys|, i requires 0 <= i < |t.keys| && t.keys[i] in t.sums =>
      Amount(t.keys[i], t.sums[t.keys[i]]));
    r := Sort(AmountLeq(), entries);
    AmountOrder();
    SortCorrect(AmountLeq(), entries);
    SortedIsByCurrency(entries, r);
    forall c ensures Total(r, c) == Get(t, c) && (Has(r, c) <==> c in t.sums) {
      SumByPermutes(InCurrency(c), entries, r);
      SameCurrencies(entries, r, c);
      assert forall i, j :: 0 <= i < j < |entries| ==> entries[i].currency != entries[j].currency;
      TotalOfDistinct(entries, c);
      if c in t.keys {
        var i :| 0 <= i < |t.keys| && t.keys[i] == c;
        assert entries[i].currency == c;
      }
    }
  }

  lemma SameCurrencies(a: seq<Amount>, b: seq<Amount>, c: string)
    requires multiset(a) == multiset(b)
    ensures Has(a, c) <==> Has(b, c)
  {
    forall x: Amount ensures x in a <==> x in b {
      assert x in a <==> x in multiset(a);
      assert x in b <==> x in multiset(b);
    }
    if Has(a, c) { var i :| 0 <= i < |a| && a[i].currency == c; assert a[i] in b; }
    if Has(b, c) { var i :| 0 <= i < |b| && b[i].currency == c; assert b[i] in a; }
  }

  lemma SortedIsByCurrency(entries: seq<Amount>, r: seq<Amount>)
    requires multiset(entries) == multiset(r) && SortedBy(AmountLeq(), r)
    requires forall i, j :: 0 <= i < j < |entries| ==> entries[i].currency != entries[j].currency
    ensures ByCurrency(r)
  {
    PermutationKeepsDistinct(entries, r);
    forall i, j | 0 <= i < j < |r| ensures Less(r[i].currency, r[j].currency) {
      assert r[i] in multiset(entries) && r[j] in multiset(entries);
      var a :| 0 <= a < |entries| && entries[a] == r[i];
      var b :| 0 <= b < |entries| && entries[b] == r[j];
      assert AmountLeq()(r[i], r[j]);
    }
  }

  /** With one entry a currency, the total is that entry's amount. */
  lemma {:induction false} TotalOfDistinct(entries: seq<Amount>, c: string)
    requires forall i, j :: 0 <= i < j < |entries| ==> entries[i].currency != entries[j].currency
    ensures !Has(entries, c) ==> Total(entries, c) == 0
    ensures forall i :: 0 <= i < |entries| && entries[i].currency == c ==> Total(entries, c) == entries[i].minor
  {
    if entries != [] {
      var rest := entries[1..];
      assert forall i :: 0 <= i < |rest| ==> rest[i] == entries[i + 1];
      TotalOfDistinct(rest, c);
      if Has(rest, c) {
        var i :| 0 <= i < |rest| && rest[i].currency == c;
        assert entries[i + 1].currency == c;
      }
      assert forall i :: 0 < i < |entries| ==> entries[i] == rest[i - 1];
    }
  }

  // ---------- Totals by currency ----------

  /** One entry for each currency that occurs, in order, holding its total. */
  ghost predicate IsSummary(r: seq<Amount>, items: seq<Amount>) {
    && ByCurrency(r)
    && (forall c :: Total(r, c) == Total(items, c))
    && (forall c :: Has(r, c) <==> Has(items, c))
  }

  method SumByCurrency(items: seq<Amount>) returns (r: seq<Amount>)
    ensures IsSummary(r, items)
  {
    var sums := AddAll(Tally([], map[]), items, 1);
    r := Entries(sums);
  }

  function SumOfTotals(lists: seq<seq<Amount>>, c: string): int {
    if lists == [] then 0 else SumOfTotals(lists[..|lists| - 1], c) + Total(lists[|lists| - 1], c)
  }

  ghost predicate HasInSome(lists: seq<seq<Amount>>, c: string) {
    exists i :: 0 <= i < |lists| && Has(lists[i], c)
  }

  /** Gross less every deduction, a currency that only a deduction mentions included. */
  ghost predicate IsNet(r: seq<Amount>, gross: seq<Amount>, deductions: seq<seq<Amount>>) {
    && ByCurrency(r)
    && (forall c :: Total(r, c) == Total(gross, c) - SumOfTotals(deductions, c))
    && (forall c :: Has(r, c) <==> Has(gross, c) || HasInSome(deductions, c))
  }

  method NetByCurrency(gross: seq<Amount>, deductions: seq<seq<Amount>>) returns (r: seq<Amount>)
    ensures IsNet(r, gross, deductions)
  {
    var net := AddAll(Tally([], map[]), gross, 1);
    for i := 0 to |deductions|
      invariant Valid(net)
      invariant forall c :: Get(net, c) == Total(gross, c) - SumOfTotals(deductions[..i], c)
      invariant forall c :: c in net.sums <==> Has(gross, c) || HasInSome(deductions[..i], c)
    {
      var front := deductions[..i + 1];
      assert front[..i] == deductions[..i] && front[i] == deductions[i];
      forall c ensures HasInSome(front, c) <==> HasInSome(deductions[..i], c) || Has(deductions[i], c) {
        assert forall k :: 0 <= k < i ==> front[k] == deductions[..i][k];
      }
      net := AddAll(net, deductions[i], -1);
    }
    assert deductions[..|deductions|] == deductions;
    r := Entries(net);
  }

  lemma {:induction false} FirstCurrency(r: seq<Amount>, c: string)
    requires ByCurrency(r) && r != [] && Has(r, c)
    ensures Leq(r[0].currency, c)
  {
    LeqTotal(c, c);
  }

  /** Two summaries of the same totals are the same list. */
  lemma {:induction false} SummaryUnique(a: seq<Amount>, b: seq<Amount>)
    requires ByCurrency(a) && ByCurrency(b)
    requires forall c :: Total(a, c) == Total(b, c)
    requires forall c :: Has(a, c) <==> Has(b, c)
    ensures a == b
  {
    if a == [] {
      forall i | 0 <= i < |b| ensures Has(a, b[i].currency) { assert Has(b, b[i].currency); }
    } else {
      assert Has(a, a[0].currency);
      assert Has(b, a[0].currency) && b != [];
      assert Has(b, b[0].currency);
      FirstCurrency(a, b[0].currency);
      FirstCurrency(b, a[0].currency);
      LeqTotal(a[0].currency, b[0].currency);
      forall c ensures (Has(a[1..], c) <==> Has(b[1..], c)) && Total(a[1..], c) == Total(b[1..], c) {
        RestTotals(a, c);
        RestTotals(b, c);
      }
      RestTotals(a, a[0].currency);
      RestTotals(b, a[0].currency);
      SummaryUnique(a[1..], b[1..]);
      assert a == [a[0]] + a[1..] && b == [b[0]] + b[1..];
    }
  }

  lemma RestTotals(a: seq<Amount>, c: string)
    requires ByCurrency(a) && a != []
    ensures Has(a[1..], c) <==> Has(a, c) && c != a[0].currency
    ensures c == a[0].currency ==> Total(a, c) == a[0].minor && Total(a[1..], c) == 0
    ensures c != a[0].currency ==> Total(a[1..], c) == Total(a, c)
    ensures ByCurrency(a[1..])
  {
    assert forall i :: 0 <= i < |a| - 1 ==> a[1..][i] == a[i + 1];
    if Has(a, c) && c != a[0].currency {
      var i :| 0 <= i < |a| && a[i].currency == c;
      assert a[1..][i - 1].currency == c;
    }
    TotalOfDistinct(a[1..], c);
  }
}
