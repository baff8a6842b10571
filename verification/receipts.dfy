/** Receipt numbers and their per-branch, per-year series (receipt-number.util.ts,
    receipt.service.ts). The sequence row is incremented under its row lock, in the
    transaction that inserts the receipt. */
module Receipts {
  import opened Money
  import opened Options
  import opened Strings

  // ---------- The printed number ----------

  function Digit(n: nat): char
    requires n < 10
  {
    '0' + n as char
  }

  predicate AllDigits(s: string) {
    forall i :: 0 <= i < |s| ==> IsDigit(s[i])
  }

  function Decimal(n: nat): (s: string)
    ensures AllDigits(s) && |s| > 0
  {
    if n < 10 then [Digit(n)] else Decimal(n / 10) + [Digit(n % 10)]
  }

  const SEQUENCE_PADDING := 5

  function PadStart(s: string, width: nat): string
    decreases width - |s|
  {
    if |s| >= width then s else PadStart("0" + s, width)
  }

  function FormatReceiptNumber(code: string, year: nat, sequence: nat): string {
    code + "-" + Decimal(year) + "-" + PadStart(Decimal(sequence), SEQUENCE_PADDING)
  }

  function Value(s: string): nat
    requires AllDigits(s)
  {
    if s == [] then 0 else Value(s[..|s| - 1]) * 10 + DigitValue(s[|s| - 1])
  }

  lemma {:induction false} DecimalValue(n: nat)
    ensures Value(Decimal(n)) == n
  {
    if n >= 10 {
      DecimalValue(n / 10);
      var s := Decimal(n);
      assert s[..|s| - 1] == Decimal(n / 10);
    } else {
      assert Decimal(n)[..0] == [];
    }
  }

  lemma {:induction false} LeadingZero(s: string)
    requires AllDigits(s)
    ensures AllDigits("0" + s) && Value("0" + s) == Value(s)
  {
    if s == [] {
      assert ("0" + s)[..0] == [];
    } else {
      LeadingZero(s[..|s| - 1]);
      assert ("0" + s)[..|s|] == "0" + s[..|s| - 1];
    }
  }

  lemma {:induction false} PaddingKeepsValue(s: string, width: nat)
    requires AllDigits(s)
    ensures AllDigits(PadStart(s, width)) && Value(PadStart(s, width)) == Value(s)
    decreases width - |s|
  {
    if |s| < width {
      LeadingZero(s);
      PaddingKeepsValue("0" + s, width);
    }
  }

  /** The last dash of a text whose tail is all digits is where the tail starts. */
  lemma LastDash(a: string, x: string, b: string, y: string)
    requires AllDigits(x) && AllDigits(y) && a + "-" + x == b + "-" + y
    ensures a == b && x == y
  {
    var s := a + "-" + x;
    assert s[|a|] == '-' && s[|b|] == '-';
    assert forall i :: |a| < i < |s| ==> s[i] == x[i - |a| - 1];
    assert forall i :: |b| < i < |s| ==> s[i] == y[i - |b| - 1];
    assert |a| == |b|;
    assert a == s[..|a|] && b == s[..|b|];
    assert x == s[|a| + 1..] && y == s[|b| + 1..];
  }

  /** Different (code, year, sequence) print differently, whatever dashes the codes contain. */
  lemma NumbersAreInjective(code1: string, year1: nat, sequence1: nat, code2: string, year2: nat, sequence2: nat)
    requires FormatReceiptNumber(code1, year1, sequence1) == FormatReceiptNumber(code2, year2, sequence2)
    ensures code1 == code2 && year1 == year2 && sequence1 == sequence2
  {
    var tail1, tail2 := PadStart(Decimal(sequence1), SEQUENCE_PADDING), PadStart(Decimal(sequence2), SEQUENCE_PADDING);
    PaddingKeepsValue(Decimal(sequence1), SEQUENCE_PADDING);
    PaddingKeepsValue(Decimal(sequence2), SEQUENCE_PADDING);
    LastDash(code1 + "-" + Decimal(year1), tail1, code2 + "-" + Decimal(year2), tail2);
    LastDash(code1, Decimal(year1), code2, Decimal(year2));
    DecimalValue(sequence1);
    DecimalValue(sequence2);
    DecimalValue(year1);
    DecimalValue(year2);
  }

  // ---------- The series ----------

  datatype Series = Series(branch: nat, year: nat)
  datatype Receipt = Receipt(transaction: nat, series: Series, sequence: nat, number: string, corrective: bool)

  /** Branch codes are unique in an organization (unique index) and have no update path. */
  datatype Office = Office(codes: seq<string>, last: map<Series, nat>, receipts: seq<Receipt>)

  const MAX_SEQUENCE_ATTEMPTS: nat := 5

  function LastOf(o: Office, s: Series): nat {
    if s in o.last then o.last[s] else 0
  }

  predicate Taken(receipts: seq<Receipt>, number: string) {
    exists i :: 0 <= i < |receipts| && receipts[i].number == number
  }

  function Find(receipts: seq<Receipt>, transaction: nat): (r: Option<Receipt>)
    ensures r.Some? <==> exists i :: 0 <= i < |receipts| && receipts[i].transaction == transaction
    ensures r.Some? ==> r.value in receipts && r.value.transaction == transaction
  {
    if receipts == [] then None
    else if receipts[0].transaction == transaction then Some(receipts[0])
    else
      assert forall i :: 0 < i < |receipts| ==> receipts[i] == receipts[1..][i - 1];
      Find(receipts[1..], transaction)
  }

  datatype Request = Request(transaction: nat, series: Series, corrective: bool)

  function Numbered(o: Office, r: Request): Receipt
    requires r.series.branch < |o.codes|
  {
    var sequence := LastOf(o, r.series) + 1;
    Receipt(r.transaction, r.series, sequence,
      FormatReceiptNumber(o.codes[r.series.branch], r.series.year, sequence), r.corrective)
  }

  /** One more number for the series. */
  function Advance(o: Office, s: Series): Office {
    o.(last := o.last[s := LastOf(o, s) + 1])
  }

  datatype Issued = Issued(office: Office, receipt: Option<Receipt>)

  /** Up to n numbers are drawn until one is not taken; then the receipt is inserted. */
  function Allocate(o: Office, r: Request, n: nat): Issued
    requires r.series.branch < |o.codes|
    decreases n
  {
    if n == 0 then Issued(o, None)
    else
      var receipt := Numbered(o, r);
      if Taken(o.receipts, receipt.number) then Allocate(Advance(o, r.series), r, n - 1)
      else Issued(Advance(o, r.series).(receipts := o.receipts + [receipt]), Some(receipt))
  }

  function Issue(o: Office, r: Request): Issued
    requires r.series.branch < |o.codes|
  {
    var existing := Find(o.receipts, r.transaction);
    if existing.Some? then Issued(o, existing) else Allocate(o, r, MAX_SEQUENCE_ATTEMPTS)
  }

  class ReceiptService {
    const codes: seq<string>
    var last: map<Series, nat>
    var receipts: seq<Receipt>

    function State(): Office reads this { Office(codes, last, receipts) }

    constructor (codes: seq<string>)
      ensures State() == Office(codes, map[], [])
    {
      this.codes, this.last, this.receipts := codes, map[], [];
    }

    /** Sale and corrective receipts draw from the same series. */
    method IssueReceipt(r: Request) returns (receipt: Option<Receipt>)
      requires r.series.branch < |codes|
      modifies this
      ensures Issued(State(), receipt) == Issue(old(State()), r)
    {
      receipt := Find(receipts, r.transaction);
      if receipt.Some? { return; }
      for attempt := 0 to MAX_SEQUENCE_ATTEMPTS
        invariant receipt == None
        invariant Allocate(State(), r, MAX_SEQUENCE_ATTEMPTS - attempt)
          == Allocate(old(State()), r, MAX_SEQUENCE_ATTEMPTS)
      {
        var sequence := (if r.series in last then last[r.series] else 0) + 1;
        last := last[r.series := sequence];
        var number := FormatReceiptNumber(codes[r.series.branch], r.series.year, sequence);
        if !Taken(receipts, number) {
          receipt := Some(Receipt(r.transaction, r.series, sequence, number, r.corrective));
          receipts := receipts + [receipt.value];
          return;
        }
      }
    }
  }

  // ---------- Numbers 1 to the last, without a gap ----------

  /** The sequence numbers of one series, in the order they were issued. */
  function SequencesOf(receipts: seq<Receipt>, s: Series): seq<nat> {
    if receipts == [] then []
    else SequencesOf(receipts[..|receipts| - 1], s)
         + if receipts[|receipts| - 1].series == s then [receipts[|receipts| - 1].sequence] else []
  }

  function UpTo(n: nat): seq<nat> {
    seq(n, i => i + 1)
  }

  ghost predicate NumberedFrom(o: Office, r: Receipt) {
    && r.series.branch < |o.codes|
    && 1 <= r.sequence <= LastOf(o, r.series)
    && r.number == FormatReceiptNumber(o.codes[r.series.branch], r.series.year, r.sequence)
  }

  ghost predicate Inv(o: Office) {
    && (forall i, j :: 0 <= i < j < |o.codes| ==> o.codes[i] != o.codes[j])
    && (forall s :: SequencesOf(o.receipts, s) == UpTo(LastOf(o, s)))
    && (forall i :: 0 <= i < |o.receipts| ==> NumberedFrom(o, o.receipts[i]))
    && (forall i, j :: 0 <= i < j < |o.receipts| ==> o.receipts[i].transaction != o.receipts[j].transaction)
  }

  /** The next number of a series is never taken, so the retry loop never runs twice. */
  lemma FirstAttemptSucceeds(o: Office, r: Request)
    requires Inv(o) && r.series.branch < |o.codes|
    ensures !Taken(o.receipts, Numbered(o, r).number)
    ensures Issue(o, r) == if Find(o.receipts, r.transaction).Some? then Issued(o, Find(o.receipts, r.transaction))
                           else Issued(Advance(o, r.series).(receipts := o.receipts + [Numbered(o, r)]),
                             Some(Numbered(o, r)))
  {
    forall i | 0 <= i < |o.receipts| ensures o.receipts[i].number != Numbered(o, r).number {
      var x := o.receipts[i];
      assert NumberedFrom(o, x);
      if x.number == Numbered(o, r).number {
        NumbersAreInjective(o.codes[x.series.branch], x.series.year, x.sequence, o.codes[r.series.branch],
          r.series.year, LastOf(o, r.series) + 1);
      }
    }
  }

  lemma IssueKeepsInv(o: Office, r: Request)
    requires Inv(o) && r.series.branch < |o.codes|
    ensures Inv(Issue(o, r).office)
  {
    FirstAttemptSucceeds(o, r);
    if Find(o.receipts, r.transaction).None? {
      InsertKeepsInv(o, r);
    }
  }

  lemma {:induction false} AppendToSeries(receipts: seq<Receipt>, x: Receipt, s: Series, last: nat)
    requires SequencesOf(receipts, s) == UpTo(last) && (x.series == s ==> x.sequence == last + 1)
    ensures SequencesOf(receipts + [x], s) == UpTo(if x.series == s then last + 1 else last)
  {
    var all := receipts + [x];
    assert all[..|all| - 1] == receipts && all[|all| - 1] == x;
    assert UpTo(last) + [last + 1] == UpTo(last + 1);
  }

  lemma InsertKeepsInv(o: Office, r: Request)
    requires Inv(o) && r.series.branch < |o.codes|
    requires forall i :: 0 <= i < |o.receipts| ==> o.receipts[i].transaction != r.transaction
    ensures Inv(Advance(o, r.series).(receipts := o.receipts + [Numbered(o, r)]))
  {
    var after := Advance(o, r.series).(receipts := o.receipts + [Numbered(o, r)]);
    forall s ensures SequencesOf(after.receipts, s) == UpTo(LastOf(after, s)) {
      AppendToSeries(o.receipts, Numbered(o, r), s, LastOf(o, s));
    }
    forall i | 0 <= i < |after.receipts| ensures NumberedFrom(after, after.receipts[i]) {
      assert i < |o.receipts| ==> NumberedFrom(o, o.receipts[i]);
    }
  }

  function Run(o: Office, requests: seq<Request>): Office
    requires forall i :: 0 <= i < |requests| ==> requests[i].series.branch < |o.codes|
    ensures Run(o, requests).codes == o.codes
  {
    if requests == [] then o
    else
      var before := Run(o, requests[..|requests| - 1]);
      IssueKeepsCodes(before, requests[|requests| - 1]);
      Issue(before, requests[|requests| - 1]).office
  }

  lemma IssueKeepsCodes(o: Office, r: Request)
    requires r.series.branch < |o.codes|
    ensures Issue(o, r).office.codes == o.codes
  {
    if Find(o.receipts, r.transaction).None? { AllocateKeepsCodes(o, r, MAX_SEQUENCE_ATTEMPTS); }
  }

  lemma {:induction false} AllocateKeepsCodes(o: Office, r: Request, n: nat)
    requires r.series.branch < |o.codes|
    ensures Allocate(o, r, n).office.codes == o.codes
    decreases n
  {
    if n > 0 { AllocateKeepsCodes(Advance(o, r.series), r, n - 1); }
  }

  lemma {:induction false} RunKeepsInv(o: Office, requests: seq<Request>)
    requires forall i :: 0 <= i < |requests| ==> requests[i].series.branch < |o.codes|
    requires Inv(o)
    ensures Inv(Run(o, requests))
  {
    if requests != [] {
      RunKeepsInv(o, requests[..|requests| - 1]);
      IssueKeepsInv(Run(o, requests[..|requests| - 1]), requests[|requests| - 1]);
    }
  }

  /** However sales, corrections and repeats are mixed: every series carries exactly the
      numbers 1 to its last, in order; every request is answered with its own receipt, and no
      two receipts print the same number. */
  lemma {:induction false} ReceiptNumbering(codes: seq<string>, requests: seq<Request>, s: Series, next: Request)
    requires forall i, j :: 0 <= i < j < |codes| ==> codes[i] != codes[j]
    requires forall i :: 0 <= i < |requests| ==> requests[i].series.branch < |codes|
    requires next.series.branch < |codes|
    ensures var o := Run(Office(codes, map[], []), requests);
            && SequencesOf(o.receipts, s) == UpTo(LastOf(o, s))
            && Issue(o, next).receipt.Some? && Issue(o, next).receipt.value.transaction == next.transaction
            && (forall i, j :: 0 <= i < j < |o.receipts| ==> o.receipts[i].number != o.receipts[j].number)
  {
    var start := Office(codes, map[], []);
    assert forall t :: UpTo(LastOf(start, t)) == [];
    RunKeepsInv(start, requests);
    var o := Run(start, requests);
    FirstAttemptSucceeds(o, next);
    forall i, j | 0 <= i < j < |o.receipts| ensures o.receipts[i].number != o.receipts[j].number {
      var x, y := o.receipts[i], o.receipts[j];
      assert NumberedFrom(o, x) && NumberedFrom(o, y);
      if x.number == y.number {
        NumbersAreInjective(o.codes[x.series.branch], x.series.year, x.sequence, o.codes[y.series.branch],
          y.series.year, y.sequence);
        SequencesDistinct(o, i, j);
      }
    }
  }

  /** Receipt i's number sits, in its series, where the receipts before it say. */
  lemma {:induction false} PlaceOf(receipts: seq<Receipt>, i: nat)
    requires i < |receipts|
    ensures var s := receipts[i].series; var p := |SequencesOf(receipts[..i], s)|;
            p < |SequencesOf(receipts, s)| && SequencesOf(receipts, s)[p] == receipts[i].sequence
    decreases |receipts|
  {
    var front := receipts[..|receipts| - 1];
    if i < |front| {
      PlaceOf(front, i);
      assert front[..i] == receipts[..i];
    }
  }

  lemma SequencesDistinct(o: Office, i: nat, j: nat)
    requires Inv(o) && i < j < |o.receipts| && o.receipts[i].series == o.receipts[j].series
    ensures o.receipts[i].sequence < o.receipts[j].sequence
  {
    var s := o.receipts[i].series;
    PlaceOf(o.receipts, i);
    PlaceOf(o.receipts, j);
    PlaceOf(o.receipts[..j], i);
    assert o.receipts[..j][..i] == o.receipts[..i];
    assert SequencesOf(o.receipts, s) == UpTo(LastOf(o, s));
  }

  // ---------- What a receipt prints ----------

  lemma {:induction false} PaddingFills(s: string, width: nat)
    ensures |PadStart(s, width)| == if |s| < width then width else |s|
    ensures var zeros := |PadStart(s, width)| - |s|;
            && PadStart(s, width)[zeros..] == s
            && forall i :: 0 <= i < zeros ==> PadStart(s, width)[i] == '0'
    decreases width - |s|
  {
    if |s| < width {
      PaddingFills("0" + s, width);
      var zeros := |PadStart(s, width)| - |s|;
      assert PadStart(s, width)[zeros - 1..] == "0" + s;
      assert PadStart(s, width)[zeros..] == PadStart(s, width)[zeros - 1..][1..];
    }
  }

  lemma {:induction false} DigitsOf(n: nat, width: nat)
    requires width >= 1
    ensures |Decimal(n)| <= width <==> n < Pow10(width)
  {
    if n >= 10 {
      if width == 1 {
        assert |Decimal(n)| >= 2;
      } else {
        DigitsOf(n / 10, width - 1);
        assert Pow10(width) == 10 * Pow10(width - 1);
      }
    } else {
      PowAtLeast(width);
    }
  }

  function Pow10(k: nat): nat {
    if k == 0 then 1 else 10 * Pow10(k - 1)
  }

  lemma {:induction false} PowAtLeast(k: nat)
    requires k >= 1
    ensures Pow10(k) >= 10
  {
    if k > 1 { PowAtLeast(k - 1); }
  }

  /** The printed sequence is the number in decimal after as many zeros as make five digits;
      from 100 000 on it is printed in full. */
  lemma {:induction false} SequenceIsFiveDigits(code: string, year: nat, sequence: nat)
    ensures var printed := FormatReceiptNumber(code, year, sequence); var head := code + "-" + Decimal(year) + "-";
            && |head| <= |printed| && printed[..|head|] == head
            && var tail := printed[|head|..];
               && AllDigits(tail) && Value(tail) == sequence
               && (sequence < 100_000 ==> |tail| == 5)
               && (sequence >= 100_000 ==> tail == Decimal(sequence))
  {
    var tail := PadStart(Decimal(sequence), SEQUENCE_PADDING);
    PaddingFills(Decimal(sequence), SEQUENCE_PADDING);
    PaddingKeepsValue(Decimal(sequence), SEQUENCE_PADDING);
    DecimalValue(sequence);
    DigitsOf(sequence, 5);
    FifthPower();
    var printed, head := FormatReceiptNumber(code, year, sequence), code + "-" + Decimal(year) + "-";
    assert printed == head + tail && printed[|head|..] == tail;
  }

  lemma FifthPower()
    ensures Pow10(5) == 100_000
  {
    assert Pow10(2) == 100 && Pow10(3) == 1000 && Pow10(4) == 10_000;
  }

  /** In every run a first request gets a new receipt of its own: for its transaction, in its
      branch's series of its year, one after the last, and marked as what it is for. */
  lemma {:induction false} ReceiptIsAsAsked(codes: seq<string>, requests: seq<Request>, next: Request)
    requires forall i, j :: 0 <= i < j < |codes| ==> codes[i] != codes[j]
    requires forall i :: 0 <= i < |requests| ==> requests[i].series.branch < |codes|
    requires next.series.branch < |codes|
    ensures var o := Run(Office(codes, map[], []), requests); var issued := Issue(o, next);
            if exists i :: 0 <= i < |o.receipts| && o.receipts[i].transaction == next.transaction
            then issued.office == o && issued.receipt.Some? && issued.receipt.value in o.receipts
            else
              && issued.office.receipts[..|o.receipts|] == o.receipts
              && |issued.office.receipts| == |o.receipts| + 1
              && issued.receipt == Some(issued.office.receipts[|o.receipts|])
              && var r := issued.receipt.value;
                 && r.transaction == next.transaction && r.series == next.series && r.corrective == next.corrective
                 && r.sequence == |SequencesOf(o.receipts, next.series)| + 1
                 && r.number == FormatReceiptNumber(codes[next.series.branch], next.series.year, r.sequence)
  {
    var start := Office(codes, map[], []);
    assert forall t :: UpTo(LastOf(start, t)) == [];
    RunKeepsInv(start, requests);
    var o := Run(start, requests);
    FirstAttemptSucceeds(o, next);
    assert SequencesOf(o.receipts, next.series) == UpTo(LastOf(o, next.series));
  }
}
