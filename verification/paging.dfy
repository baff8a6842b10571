/** In-memory cursor paging over a sorted list (paginateInMemory in report-aggregation.util.ts). */
module Paging {
  import opened Arithmetic
  import opened Options
  import opened Strings

  datatype Page<T> = Page(data: seq<T>, hasMore: bool, nextCursor: Option<string>)

  ghost predicate Increasing<T>(items: seq<T>, keyOf: T -> string) {
    forall i, j :: 0 <= i < j < |items| ==> Less(keyOf(items[i]), keyOf(items[j]))
  }

  /** The first index whose key is above the cursor, or the length. */
  function FirstAbove<T>(items: seq<T>, keyOf: T -> string, cursor: string): (i: nat)
    ensures i <= |items|
    ensures forall k :: 0 <= k < i ==> !Less(cursor, keyOf(items[k]))
    ensures i < |items| ==> Less(cursor, keyOf(items[i]))
  {
    if items == [] then 0
    else if Less(cursor, keyOf(items[0])) then 0
    else
      var rest := FirstAbove(items[1..], keyOf, cursor);
      assert forall k :: 0 < k <= rest && k < |items| ==> items[k] == items[1..][k - 1];
      rest + 1
  }

  /** An absent or empty cursor starts from the beginning. */
  function From<T>(items: seq<T>, keyOf: T -> string, cursor: Option<string>): (i: nat)
    ensures i <= |items|
  {
    if cursor.None? || cursor.value == "" then 0 else FirstAbove(items, keyOf, cursor.value)
  }

  function PaginateInMemory<T>(items: seq<T>, cursor: Option<string>, limit: nat, keyOf: T -> string): Page<T>
    requires limit >= 1
  {
    var start := From(items, keyOf, cursor);
    var page := items[start..Min(start + limit, |items|)];
    var hasMore := start + limit < |items|;
    Page(page, hasMore, if hasMore then Some(keyOf(page[|page| - 1])) else None)
  }

  /** The endpoint as its callers see it: a page for each cursor. */
  function Endpoint<T>(items: seq<T>, limit: nat, keyOf: T -> string): Option<string> -> Page<T>
    requires limit >= 1
  {
    (cursor: Option<string>) => PaginateInMemory(items, cursor, limit, keyOf)
  }

  /** Following `nextCursor` for at most n requests: what was read, if the last page was met. */
  function Follow<T>(pages: Option<string> -> Page<T>, cursor: Option<string>, n: nat): Option<seq<T>>
    decreases n
  {
    if n == 0 then None
    else
      var page := pages(cursor);
      if page.nextCursor.None? then Some(page.data)
      else
        var rest := Follow(pages, page.nextCursor, n - 1);
        if rest.None? then None else Some(page.data + rest.value)
  }

  /** The cursor of a page leads to the item after it, unless it is the empty key, which reads
      as no cursor. */
  lemma CursorContinues<T>(items: seq<T>, keyOf: T -> string, last: nat)
    requires Increasing(items, keyOf) && last < |items|
    ensures From(items, keyOf, Some(keyOf(items[last]))) == if keyOf(items[last]) == "" then 0 else last + 1
  {
    forall k | 0 <= k <= last ensures !Less(keyOf(items[last]), keyOf(items[k])) {
      LeqTotal(keyOf(items[k]), keyOf(items[last]));
    }
    assert last + 1 < |items| ==> Less(keyOf(items[last]), keyOf(items[last + 1]));
  }

  /** The empty key sorts before every other, so only the first item can have it. */
  lemma EmptyKeyIsFirst<T>(items: seq<T>, keyOf: T -> string, i: nat)
    requires Increasing(items, keyOf) && 0 < i < |items|
    ensures keyOf(items[i]) != ""
  {
    LeqTotal(keyOf(items[0]), keyOf(items[i]));
  }

  /** The one list whose paging never ends: its first page is the item with the empty key. */
  predicate Stuck<T>(items: seq<T>, limit: nat, keyOf: T -> string) {
    limit == 1 && |items| > 1 && keyOf(items[0]) == ""
  }

  /** One page: what it holds, and where its cursor leads. */
  ghost predicate PageContinues<T>(pages: Option<string> -> Page<T>, start: Option<string> -> nat, items: seq<T>,
      limit: nat, cursor: Option<string>) {
    && start(cursor) <= |items|
    && if start(cursor) + limit < |items|
       then pages(cursor).data == items[start(cursor)..start(cursor) + limit]
         && pages(cursor).nextCursor.Some? && start(pages(cursor).nextCursor) == start(cursor) + limit
       else pages(cursor).data == items[start(cursor)..] && pages(cursor).nextCursor.None?
  }

  function Starts<T>(items: seq<T>, keyOf: T -> string): Option<string> -> nat {
    (cursor: Option<string>) => From(items, keyOf, cursor)
  }

  lemma PageStep<T>(items: seq<T>, cursor: Option<string>, limit: nat, keyOf: T -> string)
    requires limit >= 1 && Increasing(items, keyOf) && !Stuck(items, limit, keyOf)
    ensures PageContinues(Endpoint(items, limit, keyOf), Starts(items, keyOf), items, limit, cursor)
  {
    var start := From(items, keyOf, cursor);
    PageIs(items, cursor, limit, keyOf);
    if start + limit < |items| { NextStart(items, start, limit, keyOf); }
  }

  lemma PageIs<T>(items: seq<T>, cursor: Option<string>, limit: nat, keyOf: T -> string)
    requires limit >= 1
    ensures var start := From(items, keyOf, cursor);
            PaginateInMemory(items, cursor, limit, keyOf)
            == if start + limit < |items|
               then Page(items[start..start + limit], true, Some(keyOf(items[start + limit - 1])))
               else Page(items[start..], false, None)
  {
    var start := From(items, keyOf, cursor);
    if start + limit < |items| { LastOfPage(items, start, limit); }
  }

  lemma NextStart<T>(items: seq<T>, start: nat, limit: nat, keyOf: T -> string)
    requires limit >= 1 && Increasing(items, keyOf) && !Stuck(items, limit, keyOf) && start + limit < |items|
    ensures From(items, keyOf, Some(keyOf(items[start + limit - 1]))) == start + limit
  {
    if start + limit - 1 > 0 { EmptyKeyIsFirst(items, keyOf, start + limit - 1); }
    CursorContinues(items, keyOf, start + limit - 1);
  }

  lemma LastOfPage<T>(items: seq<T>, start: nat, limit: nat)
    requires limit >= 1 && start + limit <= |items|
    ensures |items[start..start + limit]| == limit && items[start..start + limit][limit - 1] == items[start + limit - 1]
  {
  }

  lemma Cut<T>(items: seq<T>, a: nat, b: nat)
    requires a <= b <= |items|
    ensures items[a..] == items[a..b] + items[b..]
  {
  }

  lemma {:induction false} FollowRest<T>(pages: Option<string> -> Page<T>, start: Option<string> -> nat, items: seq<T>,
      limit: nat, cursor: Option<string>, n: nat)
    requires limit >= 1 && forall c :: PageContinues(pages, start, items, limit, c)
    requires n > |items| - start(cursor)
    ensures start(cursor) <= |items| && Follow(pages, cursor, n) == Some(items[start(cursor)..])
    decreases n
  {
    assert PageContinues(pages, start, items, limit, cursor);
    var next := pages(cursor).nextCursor;
    if next.Some? {
      FollowRest(pages, start, items, limit, next, n - 1);
      Cut(items, start(cursor), start(next));
    }
  }

  lemma {:induction false} StuckNeverEnds<T>(items: seq<T>, cursor: Option<string>, keyOf: T -> string, n: nat)
    requires Increasing(items, keyOf) && Stuck(items, 1, keyOf) && (cursor.None? || cursor.value == "")
    ensures Follow(Endpoint(items, 1, keyOf), cursor, n).None?
    decreases n
  {
    if n > 0 {
      assert items[0..1][0] == items[0];
      StuckNeverEnds(items, Some(""), keyOf, n - 1);
    }
  }

  /** For strictly increasing keys, following the cursors ends within |items| + 1 requests and
      reads exactly the list, unless pages hold one item and the first key is empty: then it
      never ends. */
  lemma {:induction false} PagingIsComplete<T>(items: seq<T>, limit: nat, keyOf: T -> string)
    requires limit >= 1 && Increasing(items, keyOf)
    ensures Follow(Endpoint(items, limit, keyOf), None, |items| + 1) == Some(items) <==> !Stuck(items, limit, keyOf)
    ensures (exists n :: Follow(Endpoint(items, limit, keyOf), None, n).Some?) <==> !Stuck(items, limit, keyOf)
  {
    if Stuck(items, limit, keyOf) {
      forall n ensures Follow(Endpoint(items, limit, keyOf), None, n).None? { StuckNeverEnds(items, None, keyOf, n); }
    } else {
      forall c
        ensures PageContinues(Endpoint(items, limit, keyOf), Starts(items, keyOf), items, limit, c)
      {
        PageStep(items, c, limit, keyOf);
      }
      FollowRest(Endpoint(items, limit, keyOf), Starts(items, keyOf), items, limit, None, |items| + 1);
      assert items[0..] == items;
    }
  }

  /** A page holds as many items as were asked for, and less only at the end of the list. */
  lemma PageIsFull<T>(items: seq<T>, cursor: Option<string>, limit: nat, keyOf: T -> string)
    requires limit >= 1
    ensures var page := PaginateInMemory(items, cursor, limit, keyOf);
            && |page.data| <= limit
            && (page.hasMore <==> page.nextCursor.Some?)
            && (page.hasMore ==> |page.data| == limit && page.nextCursor == Some(keyOf(page.data[limit - 1])))
  {
  }
}
