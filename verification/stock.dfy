/** A branch's stock and its movement ledger (branch-inventory.service.ts). A movement is one
    atomic step; the movements of a posted or corrected transaction commit together. */
module Stock {
  import opened Arithmetic
  import opened Money
  import opened Options

  datatype Movement = Movement(delta: int, before: int, after: int)
  datatype Shelf = Shelf(onHand: int, movements: seq<Movement>)
  datatype Variant = Variant(archived: bool, tracked: bool)

  /** Shelves exist once a first movement needs them. */
  datatype Branch = Branch(variants: map<string, Variant>, shelves: map<string, Shelf>)

  /** One line of a transaction; a service line names no variant. */
  datatype Line = Line(variant: Option<string>, quantity: int)

  function ShelfOf(b: Branch, v: string): Shelf {
    if v in b.shelves then b.shelves[v] else Shelf(0, [])
  }

  function OnHand(b: Branch, v: string): int {
    ShelfOf(b, v).onHand
  }

  predicate Active(b: Branch, v: string) {
    v in b.variants && !b.variants[v].archived
  }

  predicate Tracked(b: Branch, v: string) {
    v in b.variants && b.variants[v].tracked
  }

  /** Writes what was computed from the quantity read. */
  function Commit(b: Branch, v: string, seen: int, delta: int): Branch {
    b.(shelves := b.shelves[v := Shelf(seen + delta, ShelfOf(b, v).movements + [Movement(delta, seen, seen + delta)])])
  }

  predicate Storable(quantity: int) {
    0 <= quantity <= POSTGRES_INT_MAX
  }

  function ApplySaleMovement(b: Branch, v: string, delta: int): Result<Branch> {
    if !Active(b, v) then Err
    else if !Tracked(b, v) then Ok(b)
    else if !Storable(OnHand(b, v) + delta) then Err
    else Ok(Commit(b, v, OnHand(b, v), delta))
  }

  /** Receiving and adjusting, which an untracked product refuses. */
  function MutateStock(b: Branch, v: string, delta: int): Result<Branch> {
    if !Active(b, v) || !Tracked(b, v) || !Storable(OnHand(b, v) + delta) then Err
    else Ok(Commit(b, v, OnHand(b, v), delta))
  }

  /** Every line in turn: sign -1 takes a sale off the shelves, 1 puts a correction back. */
  function ApplyLines(b: Branch, lines: seq<Line>, sign: int): Result<Branch> {
    if lines == [] then Ok(b)
    else
      var before, line := ApplyLines(b, lines[..|lines| - 1], sign), lines[|lines| - 1];
      if before.Err? || line.variant.None? then before
      else ApplySaleMovement(before.value, line.variant.value, sign * line.quantity)
  }

  class BranchInventory {
    var variants: map<string, Variant>
    var shelves: map<string, Shelf>

    function State(): Branch reads this { Branch(variants, shelves) }

    constructor (variants: map<string, Variant>)
      ensures State() == Branch(variants, map[])
    {
      this.variants, this.shelves := variants, map[];
    }

    method Apply(v: string, delta: int) returns (ok: bool)
      modifies this`shelves
      ensures ok == ApplySaleMovement(old(State()), v, delta).Ok?
      ensures State() == if ok then ApplySaleMovement(old(State()), v, delta).value else old(State())
    {
      if v !in variants || variants[v].archived { return false; }
      if !variants[v].tracked { return true; }
      var shelf := if v in shelves then shelves[v] else Shelf(0, []);
      var after := shelf.onHand + delta;
      if !Storable(after) { return false; }
      shelves := shelves[v := Shelf(after, shelf.movements + [Movement(delta, shelf.onHand, after)])];
      ok := true;
    }

    method Mutate(v: string, delta: int) returns (ok: bool)
      modifies this`shelves
      ensures ok == MutateStock(old(State()), v, delta).Ok?
      ensures State() == if ok then MutateStock(old(State()), v, delta).value else old(State())
    {
      if v !in variants || !variants[v].tracked { return false; }
      ok := Apply(v, delta);
    }

    /** Moves a transaction's lines, or rolls every one of them back. */
    method MoveLines(lines: seq<Line>, sign: int) returns (ok: bool)
      modifies this`shelves
      ensures ok == ApplyLines(old(State()), lines, sign).Ok?
      ensures State() == if ok then ApplyLines(old(State()), lines, sign).value else old(State())
    {
      var saved := shelves;
      ghost var start := State();
      for i := 0 to |lines|
        invariant ApplyLines(start, lines[..i], sign) == Ok(State())
      {
        assert lines[..i + 1][..i] == lines[..i];
        if lines[i].variant.Some? {
          ok := Apply(lines[i].variant.value, sign * lines[i].quantity);
          if !ok {
            LaterLinesStayRefused(start, lines, sign, i + 1);
            shelves := saved;
            return;
          }
        }
      }
      assert lines[..|lines|] == lines;
      ok := true;
    }
  }

  lemma {:induction false} LaterLinesStayRefused(b: Branch, lines: seq<Line>, sign: int, n: nat)
    requires n <= |lines| && ApplyLines(b, lines[..n], sign).Err?
    ensures ApplyLines(b, lines, sign).Err?
    decreases |lines|
  {
    if n == |lines| {
      assert lines[..n] == lines;
    } else {
      var front := lines[..|lines| - 1];
      assert front[..n] == lines[..n];
      LaterLinesStayRefused(b, front, sign, n);
    }
  }

  // ---------- The ledger invariant ----------

  function Delta(): Movement -> int {
    (m: Movement) => m.delta
  }

  /** The quantity the last movement left. */
  function After(movements: seq<Movement>): int {
    if movements == [] then 0 else movements[|movements| - 1].after
  }

  /** On hand is the sum of the movements, never negative, and every movement starts where
      the one before it ended. */
  ghost predicate ShelfInv(s: Shelf) {
    && s.onHand == SumBy(Delta(), s.movements) && Storable(s.onHand)
    && (forall i :: 0 <= i < |s.movements| ==>
          s.movements[i].after == s.movements[i].before + s.movements[i].delta >= 0)
    && (forall i :: 0 <= i < |s.movements| ==> s.movements[i].before == After(s.movements[..i]))
    && s.onHand == After(s.movements)
  }

  ghost predicate Inv(b: Branch) {
    forall v :: v in b.shelves ==> ShelfInv(b.shelves[v])
  }

  lemma ShelfKeepsInvIff(s: Shelf, seen: int, delta: int)
    requires ShelfInv(s) && Storable(seen + delta)
    ensures ShelfInv(Shelf(seen + delta, s.movements + [Movement(delta, seen, seen + delta)])) <==> seen == s.onHand
  {
    var last := Movement(delta, seen, seen + delta);
    var more := s.movements + [last];
    SumByAppend(Delta(), s.movements, last);
    assert more[|s.movements|] == last && more[..|s.movements|] == s.movements;
    forall i | 0 <= i < |s.movements| ensures more[i] == s.movements[i] && more[..i] == s.movements[..i] { }
  }

  /** A movement computed from a quantity keeps the ledger exactly when that quantity is still
      the one on the shelf: without the atomic step an update would be lost. */
  lemma CommitKeepsInvIff(b: Branch, v: string, seen: int, delta: int)
    requires Inv(b) && Storable(seen + delta)
    ensures Inv(Commit(b, v, seen, delta)) <==> seen == OnHand(b, v)
  {
    var after := Commit(b, v, seen, delta);
    EmptyShelf();
    ShelfKeepsInvIff(ShelfOf(b, v), seen, delta);
    forall w | w in after.shelves && w != v ensures ShelfInv(after.shelves[w]) {
      assert w in b.shelves && after.shelves[w] == b.shelves[w];
    }
    assert v in after.shelves;
  }

  lemma EmptyShelf()
    ensures ShelfInv(Shelf(0, []))
  {
  }

  lemma ApplyKeepsInv(b: Branch, v: string, delta: int)
    requires Inv(b) && ApplySaleMovement(b, v, delta).Ok?
    ensures Inv(ApplySaleMovement(b, v, delta).value)
  {
    if Tracked(b, v) { CommitKeepsInvIff(b, v, OnHand(b, v), delta); }
  }

  lemma {:induction false} LinesKeepInv(b: Branch, lines: seq<Line>, sign: int)
    requires Inv(b) && ApplyLines(b, lines, sign).Ok?
    ensures Inv(ApplyLines(b, lines, sign).value)
  {
    if lines != [] {
      var front, line := lines[..|lines| - 1], lines[|lines| - 1];
      LinesKeepInv(b, front, sign);
      if line.variant.Some? {
        ApplyKeepsInv(ApplyLines(b, front, sign).value, line.variant.value, sign * line.quantity);
      }
    }
  }

  datatype Event =
    | MutateEvent(v: string, delta: int)
    | LinesEvent(lines: seq<Line>, sign: int)
    | VariantEvent(v: string, to: Variant)

  function Step(b: Branch, e: Event): Branch {
    match e
    case MutateEvent(v, delta) => if MutateStock(b, v, delta).Ok? then MutateStock(b, v, delta).value else b
    case LinesEvent(lines, sign) => if ApplyLines(b, lines, sign).Ok? then ApplyLines(b, lines, sign).value else b
    case VariantEvent(v, to) => b.(variants := b.variants[v := to])
  }

  function Run(b: Branch, events: seq<Event>): Branch {
    if events == [] then b else Step(Run(b, events[..|events| - 1]), events[|events| - 1])
  }

  /** Over every run of receipts, adjustments, sales, corrections and product changes, each
      shelf's quantity is the sum of its movements, which chain and never go below zero. */
  lemma {:induction false} StockLedger(b: Branch, events: seq<Event>)
    requires Inv(b)
    ensures Inv(Run(b, events))
  {
    if events != [] {
      var before := Run(b, events[..|events| - 1]);
      StockLedger(b, events[..|events| - 1]);
      match events[|events| - 1]
      case MutateEvent(v, delta) => if MutateStock(before, v, delta).Ok? { ApplyKeepsInv(before, v, delta); }
      case LinesEvent(lines, sign) => if ApplyLines(before, lines, sign).Ok? { LinesKeepInv(before, lines, sign); }
      case VariantEvent(v, to) =>
    }
  }

  // ---------- Whole transactions ----------

  function QuantityOf(v: string): Line -> int {
    (l: Line) => if l.variant == Some(v) then l.quantity else 0
  }

  /** How much of a variant all the lines together name. */
  function Wanted(lines: seq<Line>, v: string): int {
    SumBy(QuantityOf(v), lines)
  }

  /** A transaction moves each tracked variant by exactly what its lines add up to. */
  lemma {:induction false} LinesEffect(b: Branch, lines: seq<Line>, sign: int, v: string)
    requires ApplyLines(b, lines, sign).Ok?
    ensures ApplyLines(b, lines, sign).value.variants == b.variants
    ensures OnHand(ApplyLines(b, lines, sign).value, v)
      == OnHand(b, v) + if Tracked(b, v) then sign * Wanted(lines, v) else 0
  {
    if lines != [] {
      var front, line := lines[..|lines| - 1], lines[|lines| - 1];
      LinesEffect(b, front, sign, v);
      assert lines == front + [line];
      SumByAppend(QuantityOf(v), front, line);
      DistributeLeft(sign, Wanted(front, v), QuantityOf(v)(line));
    }
  }

  ghost predicate AllActive(b: Branch, lines: seq<Line>) {
    forall i :: 0 <= i < |lines| && lines[i].variant.Some? ==>
      var v := lines[i].variant.value; v in b.variants && !b.variants[v].archived
  }

  /** Each tracked variant holds at least what the lines together want of it. */
  ghost predicate Covered(b: Branch, lines: seq<Line>) {
    forall v :: v in b.variants && b.variants[v].tracked ==> Wanted(lines, v) <= OnHand(b, v)
  }

  ghost predicate PositiveLines(lines: seq<Line>) {
    forall i :: 0 <= i < |lines| ==> lines[i].quantity > 0
  }

  /** A sale, several lines of one variant included, posts exactly when every variant it names
      is active and every tracked one holds all that the sale wants: it never oversells and
      never refuses what is there. */
  lemma {:induction false} SalePostsIff(b: Branch, lines: seq<Line>)
    requires Inv(b) && PositiveLines(lines)
    ensures ApplyLines(b, lines, -1).Ok? <==> AllActive(b, lines) && Covered(b, lines)
  {
    if lines == [] {
      forall v ensures OnHand(b, v) >= 0 { }
    } else {
      var front, line := lines[..|lines| - 1], lines[|lines| - 1];
      assert lines == front + [line];
      SalePostsIff(b, front);
      forall v ensures Wanted(lines, v) == Wanted(front, v) + QuantityOf(v)(line) >= Wanted(front, v) {
        SumByAppend(QuantityOf(v), front, line);
      }
      assert AllActive(b, lines) ==> AllActive(b, front);
      assert Covered(b, lines) ==> Covered(b, front);
      if ApplyLines(b, front, -1).Ok? {
        LastLinePostsIff(b, front, line);
      }
    }
  }

  lemma OneMoreWanted(front: seq<Line>, line: Line, v: string)
    ensures Wanted(front + [line], v) == Wanted(front, v) + if line.variant == Some(v) then line.quantity else 0
  {
    SumByAppend(QuantityOf(v), front, line);
  }

  lemma OneMoreCovered(b: Branch, front: seq<Line>, line: Line, v: string)
    requires Covered(b, front) && line.variant == Some(v)
    ensures Covered(b, front + [line]) <==> (Tracked(b, v) ==> Wanted(front, v) + line.quantity <= OnHand(b, v))
  {
    forall w ensures Wanted(front + [line], w) == Wanted(front, w) + if v == w then line.quantity else 0 {
      OneMoreWanted(front, line, w);
    }
  }

  lemma OneMoreActive(b: Branch, front: seq<Line>, line: Line)
    requires AllActive(b, front)
    ensures AllActive(b, front + [line]) <==> (line.variant.Some? ==> Active(b, line.variant.value))
  {
    var lines := front + [line];
    assert forall i :: 0 <= i < |front| ==> lines[i] == front[i];
    assert lines[|front|] == line;
  }

  lemma SameCovered(b: Branch, front: seq<Line>, line: Line)
    requires Covered(b, front) && line.variant.None?
    ensures Covered(b, front + [line])
  {
    forall w ensures Wanted(front + [line], w) == Wanted(front, w) { OneMoreWanted(front, line, w); }
  }

  lemma {:induction false} LastLinePostsIff(b: Branch, front: seq<Line>, line: Line)
    requires Inv(b) && ApplyLines(b, front, -1).Ok? && line.quantity > 0
    requires AllActive(b, front) && Covered(b, front)
    ensures ApplyLines(b, front + [line], -1).Ok? <==> AllActive(b, front + [line]) && Covered(b, front + [line])
  {
    var lines, before := front + [line], ApplyLines(b, front, -1).value;
    assert lines[..|lines| - 1] == front && lines[|lines| - 1] == line;
    OneMoreActive(b, front, line);
    if line.variant.None? {
      SameCovered(b, front, line);
    } else {
      var v := line.variant.value;
      OneMoreCovered(b, front, line, v);
      LinesEffect(b, front, -1, v);
      LinesKeepInv(b, front, -1);
      assert OnHand(before, v) <= POSTGRES_INT_MAX;
    }
  }

  /** Selling and then putting the same lines back leaves every quantity as it was. */
  lemma {:induction false} SellThenRestore(b: Branch, lines: seq<Line>)
    requires Inv(b) && PositiveLines(lines) && ApplyLines(b, lines, -1).Ok?
    ensures var sold := ApplyLines(b, lines, -1).value;
            && ApplyLines(sold, lines, 1).Ok?
            && forall v :: OnHand(ApplyLines(sold, lines, 1).value, v) == OnHand(b, v)
  {
    var sold := ApplyLines(b, lines, -1).value;
    LinesEffect(b, lines, -1, "");
    SalePostsIff(b, lines);
    forall v
      ensures OnHand(sold, v) + (if Tracked(b, v) then Wanted(lines, v) else 0) == OnHand(b, v) <= POSTGRES_INT_MAX
    {
      LinesEffect(b, lines, -1, v);
    }
    LinesKeepInv(b, lines, -1);
    RestoreFits(sold, lines);
    forall v ensures OnHand(ApplyLines(sold, lines, 1).value, v) == OnHand(b, v) { LinesEffect(sold, lines, 1, v); }
  }

  /** Putting lines back is refused only for an archived product or a full column. */
  lemma {:induction false} RestoreFits(b: Branch, lines: seq<Line>)
    requires Inv(b) && PositiveLines(lines) && AllActive(b, lines)
    requires forall v :: Tracked(b, v) ==> OnHand(b, v) + Wanted(lines, v) <= POSTGRES_INT_MAX
    ensures ApplyLines(b, lines, 1).Ok?
  {
    if lines != [] {
      var front, line := lines[..|lines| - 1], lines[|lines| - 1];
      assert lines == front + [line];
      forall v ensures Wanted(lines, v) == Wanted(front, v) + QuantityOf(v)(line) >= Wanted(front, v) {
        SumByAppend(QuantityOf(v), front, line);
      }
      RestoreFits(b, front);
      LinesKeepInv(b, front, 1);
      if line.variant.Some? {
        LinesEffect(b, front, 1, line.variant.value);
      }
    }
  }

  // ---------- On hand as the record of what moved ----------

  /** The event was carried out. */
  predicate Took(b: Branch, e: Event) {
    Step(b, e) != b
  }

  /** What a request means for a variant's quantity. */
  function Moves(b: Branch, e: Event, v: string): int {
    match e
    case MutateEvent(w, delta) => if w == v then delta else 0
    case LinesEvent(lines, sign) => if v in b.variants && b.variants[v].tracked then sign * Wanted(lines, v) else 0
    case VariantEvent(_, _) => 0
  }

  function History(b: Branch, events: seq<Event>, v: string): int {
    if events == [] then 0
    else
      var front, e := events[..|events| - 1], events[|events| - 1];
      History(b, front, v) + if Took(Run(b, front), e) then Moves(Run(b, front), e, v) else 0
  }

  lemma OneMove(b: Branch, e: Event, v: string)
    ensures OnHand(Step(b, e), v) == OnHand(b, v) + if Took(b, e) then Moves(b, e, v) else 0
  {
    if e.LinesEvent? && ApplyLines(b, e.lines, e.sign).Ok? { LinesEffect(b, e.lines, e.sign, v); }
  }

  /** A variant's quantity is what was received, adjusted, sold and given back of it: each
      movement that was carried out counts once, with its sign, and nothing else does. */
  lemma {:induction false} OnHandIsHistory(b: Branch, events: seq<Event>, v: string)
    ensures OnHand(Run(b, events), v) == OnHand(b, v) + History(b, events, v)
  {
    if events != [] {
      OnHandIsHistory(b, events[..|events| - 1], v);
      OneMove(Run(b, events[..|events| - 1]), events[|events| - 1], v);
    }
  }

  /** Receiving and adjusting need an active, tracked product and a quantity that stays in its
      column. */
  lemma MutationTakesIff(b: Branch, v: string, delta: int)
    ensures Took(b, MutateEvent(v, delta)) <==>
      && v in b.variants && !b.variants[v].archived && b.variants[v].tracked
      && 0 <= OnHand(b, v) + delta <= 2_147_483_647
  {
    if MutateStock(b, v, delta).Ok? {
      var after := MutateStock(b, v, delta).value;
      assert |ShelfOf(after, v).movements| != |ShelfOf(b, v).movements|;
    }
  }
}
