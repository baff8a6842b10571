/** What the corrections of a sale say about the requests that were carried out. */
module CorrectionsHistory {
  import opened Money
  import opened Options
  import opened Corrections
  import opened CorrectionsRuns

  /** The command was carried out. */
  predicate Took(s: Sale, e: Event) {
    Step(s, e) != s
  }

  // ---------- Statuses ----------

  /** The version counts the commands carried out on the correction. */
  datatype Note = Note(kind: Kind, items: seq<Item>, status: Status, version: int)

  function Mark(notes: seq<Note>, id: nat, status: Status): seq<Note> {
    if id < |notes| then notes[id := notes[id].(status := status, version := notes[id].version + 1)] else notes
  }

  /** What a command means for the corrections, nothing else considered. */
  function Write(s: Sale, notes: seq<Note>, e: Event): seq<Note> {
    match e
    case RefundEvent(items) => notes + [Note(REFUND, items, REQUESTED, 1)]
    case ReversalEvent(_) => notes + [Note(REVERSAL, WholeSale(s), REQUESTED, 1)]
    case DecideEvent(id, _, _, to) => Mark(notes, id, to)
    case ExecuteEvent(id, _, _) => Mark(notes, id, EXECUTED)
  }

  /** Every line of the sale at its full price. */
  function WholeSale(s: Sale): seq<Item> {
    seq(|s.order|, i requires 0 <= i < |s.order| => Item(s.order[i], PriceOn(s.lines)(s.order[i])))
  }

  /** The corrections after the commands carried out. */
  function History(s: Sale, events: seq<Event>): seq<Note> {
    if events == [] then Notes(s)
    else
      var front, e := events[..|events| - 1], events[|events| - 1];
      if Took(Run(s, front), e) then Write(s, History(s, front), e) else History(s, front)
  }

  function NoteOf(c: Correction): Note {
    Note(c.kind, c.items, c.status, c.version)
  }

  function Notes(s: Sale): seq<Note> {
    seq(|s.corrections|, i requires 0 <= i < |s.corrections| => NoteOf(s.corrections[i]))
  }

  lemma OneNote(s: Sale, e: Event)
    ensures Notes(Step(s, e)) == if Took(s, e) then Write(s, Notes(s), e) else Notes(s)
  {
    if Took(s, e) {
      var before, after := Notes(s), Notes(Step(s, e));
      match e
      case RefundEvent(items) => assert after == before + [Note(REFUND, items, REQUESTED, 1)];
      case ReversalEvent(_) =>
        FullIsWhole(s);
        assert after == before + [Note(REVERSAL, WholeSale(s), REQUESTED, 1)];
      case DecideEvent(id, _, _, to) => assert after == Mark(before, id, to);
      case ExecuteEvent(id, _, _) => assert after == Mark(before, id, EXECUTED);
    }
  }

  lemma FullIsWhole(s: Sale)
    ensures FullItems(s) == WholeSale(s)
  {
    forall i | 0 <= i < |s.order| ensures FullItems(s)[i] == WholeSale(s)[i] {
      var price := PriceOn(s.lines)(s.order[i]);
      assert WholeSale(s)[i] == Item(s.order[i], price);
      assert FullItems(s)[i] == Item(s.order[i], price);
    }
  }

  lemma SameWhole(s: Sale, t: Sale)
    requires s.order == t.order && s.lines == t.lines
    ensures WholeSale(s) == WholeSale(t)
  {
  }

  /** Every correction is what was asked for and stands where the last command about it put it:
      a rejected one is REJECTED, an approved one APPROVED, and only an execution executes. */
  lemma {:induction false} CorrectionsAreHistory(s: Sale, events: seq<Event>)
    ensures Notes(Run(s, events)) == History(s, events)
  {
    if events != [] {
      var front := events[..|events| - 1];
      CorrectionsAreHistory(s, front);
      SaleUnchanged(s, front);
      SameWhole(s, Run(s, front));
      OneNote(Run(s, front), events[|events| - 1]);
    }
  }

  /** A correction that was rejected, cancelled or executed is never anything else again. */
  lemma {:induction false} ClosedForEver(s: Sale, events: seq<Event>, id: nat)
    requires id < |s.corrections|
    requires var status := s.corrections[id].status; status.REJECTED? || status.CANCELLED? || status.EXECUTED?
    ensures id < |Run(s, events).corrections| && Run(s, events).corrections[id] == s.corrections[id]
  {
    if events != [] { ClosedForEver(s, events[..|events| - 1], id); }
  }

  /** Command k of the run was carried out. */
  predicate TookAt(s: Sale, events: seq<Event>, k: nat) {
    k < |events| && Took(Run(s, events[..k]), events[k])
  }

  ghost predicate ApprovedAt(s: Sale, events: seq<Event>, id: nat, k: nat) {
    TookAt(s, events, k) && events[k].DecideEvent? && events[k].id == id && events[k].to == APPROVED
  }

  predicate ExecutedAt(s: Sale, events: seq<Event>, id: nat, k: nat) {
    TookAt(s, events, k) && events[k].ExecuteEvent? && events[k].id == id
  }

  lemma LongerRun(s: Sale, events: seq<Event>, id: nat, k: nat)
    requires events != [] && k < |events| - 1
    ensures TookAt(s, events, k) <==> TookAt(s, events[..|events| - 1], k)
    ensures ApprovedAt(s, events, id, k) <==> ApprovedAt(s, events[..|events| - 1], id, k)
    ensures ExecutedAt(s, events, id, k) <==> ExecutedAt(s, events[..|events| - 1], id, k)
  {
    assert events[..|events| - 1][..k] == events[..k];
  }

  lemma {:induction false} ApprovedByDecision(s: Sale, events: seq<Event>, id: nat)
    requires s.corrections == []
    requires id < |Run(s, events).corrections| && Run(s, events).corrections[id].status.APPROVED?
    ensures exists k: nat :: ApprovedAt(s, events, id, k)
  {
    var front, before := events[..|events| - 1], Run(s, events[..|events| - 1]);
    if id < |before.corrections| && before.corrections[id].status.APPROVED? {
      ApprovedByDecision(s, front, id);
      var k: nat :| ApprovedAt(s, front, id, k);
      LongerRun(s, events, id, k);
    } else {
      assert ApprovedAt(s, events, id, |events| - 1);
    }
  }

  /** Nothing is paid back without approval: before the execution of a correction there is a
      decision, carried out, to approve it. */
  lemma {:induction false} ExecutedWasApproved(s: Sale, events: seq<Event>, id: nat)
    requires s.corrections == []
    requires id < |Run(s, events).corrections| && Run(s, events).corrections[id].status.EXECUTED?
    ensures exists j: nat, k: nat :: j < k && ApprovedAt(s, events, id, j) && ExecutedAt(s, events, id, k)
  {
    var front, before := events[..|events| - 1], Run(s, events[..|events| - 1]);
    if id < |before.corrections| && before.corrections[id].status.EXECUTED? {
      ExecutedWasApproved(s, front, id);
      var j: nat, k: nat :| j < k && ApprovedAt(s, front, id, j) && ExecutedAt(s, front, id, k);
      LongerRun(s, events, id, j);
      LongerRun(s, events, id, k);
    } else {
      assert before.corrections[id].status.APPROVED?;
      ApprovedByDecision(s, front, id);
      var j: nat :| ApprovedAt(s, front, id, j);
      LongerRun(s, events, id, j);
      assert ExecutedAt(s, events, id, |events| - 1);
    }
  }

  // ---------- When a command is carried out ----------

  /** A refund can be requested for distinct lines of the sale, each at no more than its price. */
  lemma RefundTakesIff(s: Sale, items: seq<Item>)
    ensures Took(s, RefundEvent(items)) <==>
      && items != [] && Total(items) <= 2_147_483_647
      && (forall i, j :: 0 <= i < j < |items| ==> items[i].lineId != items[j].lineId)
      && (forall i :: 0 <= i < |items| ==>
            items[i].lineId in s.lines
            && 1 <= items[i].amount <= 500_000_000 && items[i].amount <= s.lines[items[i].lineId].price)
  {
    if RequestRefund(s, items).Ok? { assert |RequestRefund(s, items).value.corrections| != |s.corrections|; }
  }

  /** A decision is carried out exactly on the state and version that were read: approving and
      rejecting need a request, cancelling needs one that has not been executed or closed. */
  lemma DecisionTakesIff(s: Sale, id: nat, seen: Status, seenVersion: int, to: Status)
    ensures Took(s, DecideEvent(id, seen, seenVersion, to)) <==>
      && id < |s.corrections| && s.corrections[id].status == seen && s.corrections[id].version == seenVersion
      && (to == APPROVED || to == REJECTED || to == CANCELLED)
      && (seen == REQUESTED || (seen == APPROVED && to == CANCELLED))
  {
    if Decide(s, id, seen, seenVersion, to).Ok? {
      assert Decide(s, id, seen, seenVersion, to).value.corrections[id].version != s.corrections[id].version;
    }
  }

  lemma {:induction false} VersionsRise(s: Sale, events: seq<Event>, id: nat)
    requires id < |s.corrections|
    ensures id < |Run(s, events).corrections| && Run(s, events).corrections[id].version >= s.corrections[id].version
  {
    if events != [] { VersionsRise(s, events[..|events| - 1], id); }
  }

  /** Of two decisions made on the same read only one is ever carried out. */
  lemma {:induction false} SecondDecisionLoses(s: Sale, first: Event, between: seq<Event>, second: Event)
    requires first.DecideEvent? && second.DecideEvent? && first.id == second.id
    requires first.seenVersion == second.seenVersion && Took(s, first)
    ensures !Took(Run(Step(s, first), between), second)
  {
    VersionsRise(Step(s, first), between, first.id);
  }

  /** An execution is carried out exactly for an approved correction: a reversal while nothing
      has been executed, a refund while each of its lines still has the amount and its stocked
      lines are whole. */
  lemma ExecutionTakesIff(s: Sale, id: nat, tracked: set<string>, envOk: bool)
    requires Inv(s)
    ensures Took(s, ExecuteEvent(id, tracked, envOk)) <==>
      && id < |s.corrections| && s.corrections[id].status == APPROVED && envOk
      && Total(s.corrections[id].items) <= 2_147_483_647
      && if s.corrections[id].kind == REVERSAL then !SomeExecuted(s.corrections)
         else AllAllowed(s, s.corrections[id].items)
  {
    if id < |s.corrections| && s.corrections[id].status == APPROVED {
      ApprovedExecutesIff(s, id);
      assert Executable(s, id, envOk) ==>
        Execute(s, id, tracked, envOk).value.corrections[id].status != s.corrections[id].status;
    }
  }

  // ---------- What an execution leaves ----------

  /** The correction covers the line, which was sold from tracked stock. */
  predicate BringsBack(s: Sale, items: seq<Item>, tracked: set<string>, id: string) {
    Corrects(items, id) && id in s.lines && s.lines[id].stocked && id in tracked
  }

  lemma {:induction false} RestorationsIff(s: Sale, items: seq<Item>, tracked: set<string>, r: Restored)
    ensures r in Restorations(s, items, tracked) <==>
      BringsBack(s, items, tracked, r.lineId) && r.quantity == s.lines[r.lineId].quantity
  {
    if items != [] {
      var front, last := items[..|items| - 1], items[|items| - 1];
      RestorationsIff(s, front, tracked, r);
      assert Corrects(items, r.lineId) <==> Corrects(front, r.lineId) || last.lineId == r.lineId by {
        if Corrects(front, r.lineId) {
          var i :| 0 <= i < |front| && front[i].lineId == r.lineId;
          assert items[i].lineId == r.lineId;
        }
      }
    }
  }

  /** An execution posts the correction's own kind, lines and amount; brings back the sold
      quantity of exactly the tracked stocked lines it covers; and closes the correction. */
  lemma ExecutionDoesAsAsked(s: Sale, id: nat, tracked: set<string>, envOk: bool, r: Restored)
    requires Inv(s) && Took(s, ExecuteEvent(id, tracked, envOk))
    ensures var after := Step(s, ExecuteEvent(id, tracked, envOk)); var c := s.corrections[id];
            && after.corrections[id].status == EXECUTED
            && |after.posted| == |s.posted| + 1 && after.posted[..|s.posted|] == s.posted
            && after.posted[|s.posted|].items == c.items && after.posted[|s.posted|].kind == c.kind
            && (c.kind == REVERSAL ==> after.posted[|s.posted|].remaining == None)
            && after.posted[|s.posted|].total == SumBy((item: Item) => item.amount, c.items)
            && |s.restored| <= |after.restored| && after.restored[..|s.restored|] == s.restored
            && (r in after.restored[|s.restored|..] <==>
                  BringsBack(s, c.items, tracked, r.lineId) && r.quantity == s.lines[r.lineId].quantity)
  {
    var c, after := s.corrections[id], Step(s, ExecuteEvent(id, tracked, envOk));
    RestorationsIff(s, c.items, tracked, r);
    assert after.restored[|s.restored|..] == Restorations(s, c.items, tracked);
    SumByCongruent(ItemAmount(), (item: Item) => item.amount, c.items);
  }
}
