/** The order the repository's sorts rely on, and what any of its sorts returns. */
module Sorting {

  ghost predicate TotalPreorder<T(!new)>(le: (T, T) -> bool) {
    && (forall x, y :: le(x, y) || le(y, x))
    && (forall x, y, z :: le(x, y) && le(y, z) ==> le(x, z))
  }

  ghost predicate SortedBy<T>(le: (T, T) -> bool, s: seq<T>) {
    forall i, j :: 0 <= i < j < |s| ==> le(s[i], s[j])
  }

  function Insert<T>(le: (T, T) -> bool, x: T, s: seq<T>): seq<T> {
    if s == [] then [x]
    else if le(x, s[0]) then [x] + s
    else [s[0]] + Insert(le, x, s[1..])
  }

  /** The stable sort behind `Array.prototype.sort` with comparator `le`. */
  function Sort<T>(le: (T, T) -> bool, s: seq<T>): seq<T> {
    if s == [] then [] else Insert(le, s[0], Sort(le, s[1..]))
  }

  lemma {:induction false} InsertPermutes<T>(le: (T, T) -> bool, x: T, s: seq<T>)
    ensures multiset(Insert(le, x, s)) == multiset{x} + multiset(s)
    ensures |Insert(le, x, s)| == |s| + 1
  {
    if s == [] {
    } else if le(x, s[0]) {
    } else {
      InsertPermutes(le, x, s[1..]);
      assert s == [s[0]] + s[1..];
    }
  }

  lemma {:induction false} InsertKeepsSorted<T(!new)>(le: (T, T) -> bool, x: T, s: seq<T>)
    requires TotalPreorder(le) && SortedBy(le, s)
    ensures SortedBy(le, Insert(le, x, s))
  {
    if s == [] || le(x, s[0]) {
    } else {
      InsertKeepsSorted(le, x, s[1..]);
      var t := Insert(le, x, s[1..]);
      InsertPermutes(le, x, s[1..]);
      forall j | 0 <= j < |t| ensures le(s[0], t[j]) {
        assert t[j] in multiset(t);
        assert t[j] == x || t[j] in s[1..];
      }
    }
  }

  /** A sort loses and invents nothing, and its result is in order. */
  lemma {:induction false} SortCorrect<T(!new)>(le: (T, T) -> bool, s: seq<T>)
    requires TotalPreorder(le)
    ensures multiset(Sort(le, s)) == multiset(s)
    ensures |Sort(le, s)| == |s|
    ensures SortedBy(le, Sort(le, s))
  {
    if s == [] {
    } else {
      SortCorrect(le, s[1..]);
      InsertPermutes(le, s[0], Sort(le, s[1..]));
      InsertKeepsSorted(le, s[0], Sort(le, s[1..]));
      assert s == [s[0]] + s[1..];
    }
  }

  predicate Tied<T>(le: (T, T) -> bool, x: T, y: T) {
    le(x, y) && le(y, x)
  }

  /** The elements tied with x, in their order. */
  function Ties<T>(le: (T, T) -> bool, x: T, s: seq<T>): seq<T> {
    if s == [] then [] else (if Tied(le, x, s[0]) then [s[0]] else []) + Ties(le, x, s[1..])
  }

  lemma {:induction false} InsertKeepsTies<T(!new)>(le: (T, T) -> bool, y: T, s: seq<T>, x: T)
    requires TotalPreorder(le)
    ensures Ties(le, x, Insert(le, y, s)) == Ties(le, x, [y] + s)
  {
    assert ([y] + s)[1..] == s;
    if s != [] && !le(y, s[0]) {
      InsertKeepsTies(le, y, s[1..], x);
      assert ([y] + s[1..])[1..] == s[1..];
      assert Insert(le, y, s)[1..] == Insert(le, y, s[1..]);
      assert !(Tied(le, x, y) && Tied(le, x, s[0]));
    }
  }

  /** Elements that the order does not tell apart stay as they were. */
  lemma {:induction false} SortIsStable<T(!new)>(le: (T, T) -> bool, s: seq<T>, x: T)
    requires TotalPreorder(le)
    ensures Ties(le, x, Sort(le, s)) == Ties(le, x, s)
  {
    if s != [] {
      SortIsStable(le, s[1..], x);
      InsertKeepsTies(le, s[0], Sort(le, s[1..]), x);
      assert ([s[0]] + Sort(le, s[1..]))[1..] == Sort(le, s[1..]);
    }
  }

  ghost predicate Ranked<T>(s: seq<T>, rank: T -> int) {
    forall i, j :: 0 <= i < j < |s| ==> rank(s[i]) <= rank(s[j])
  }

  lemma {:induction false} RankedTies<T>(le: (T, T) -> bool, s: seq<T>, rank: T -> int, x: T)
    requires Ranked(s, rank)
    ensures Ranked(Ties(le, x, s), rank)
    ensures forall y :: y in Ties(le, x, s) ==> y in s
  {
    if s != [] {
      RankedTies(le, s[1..], rank, x);
      var rest := Ties(le, x, s[1..]);
      forall k | 0 <= k < |rest| ensures rank(s[0]) <= rank(rest[k]) {
        assert rest[k] in rest;
        var i :| 0 <= i < |s[1..]| && s[1..][i] == rest[k];
        assert s[i + 1] == rest[k];
      }
    }
  }

  lemma {:induction false} TiedIsThere<T>(le: (T, T) -> bool, s: seq<T>, x: T, j: nat)
    requires j < |s| && Tied(le, x, s[j])
    ensures s[j] in Ties(le, x, s)
  {
    if j > 0 { TiedIsThere(le, s[1..], x, j - 1); }
  }

  /** If the tied elements are ranked among themselves, so are they where they stand. */
  lemma {:induction false} RankedWhereTied<T>(le: (T, T) -> bool, s: seq<T>, rank: T -> int, x: T, i: nat, j: nat)
    requires Ranked(Ties(le, x, s), rank)
    requires i < j < |s| && Tied(le, x, s[i]) && Tied(le, x, s[j])
    ensures rank(s[i]) <= rank(s[j])
  {
    var ties, rest := Ties(le, x, s), Ties(le, x, s[1..]);
    var head := |ties| - |rest|;
    assert forall k :: 0 <= k < |rest| ==> ties[head + k] == rest[k];
    if i == 0 {
      TiedIsThere(le, s[1..], x, j - 1);
      var b :| 0 <= b < |rest| && rest[b] == s[j];
      assert ties[0] == s[0] && ties[head + b] == s[j];
    } else {
      RankedWhereTied(le, s[1..], rank, x, i - 1, j - 1);
    }
  }

  /** What was in the order of `rank` before a sort still is among tied elements after it. */
  lemma {:induction false} TiesKeepRank<T(!new)>(le: (T, T) -> bool, s: seq<T>, rank: T -> int, i: nat, j: nat)
    requires TotalPreorder(le) && i < j < |Sort(le, s)| && le(Sort(le, s)[j], Sort(le, s)[i])
    requires Ranked(s, rank)
    ensures rank(Sort(le, s)[i]) <= rank(Sort(le, s)[j])
  {
    var r := Sort(le, s);
    SortCorrect(le, s);
    assert le(r[i], r[j]);
    SortIsStable(le, s, r[i]);
    RankedTies(le, s, rank, r[i]);
    RankedWhereTied(le, r, rank, r[i], i, j);
  }

  lemma RemoveAt<T>(s: seq<T>, i: nat)
    requires i < |s|
    ensures multiset(s[..i] + s[i + 1..]) == multiset(s) - multiset{s[i]}
  {
    assert s == s[..i] + ([s[i]] + s[i + 1..]);
    assert multiset(s) == multiset(s[..i]) + (multiset{s[i]} + multiset(s[i + 1..]));
  }

  lemma DropHead<T>(s: seq<T>)
    requires s != []
    ensures s[0] in multiset(s) && multiset(s[1..]) == multiset(s) - multiset{s[0]}
  {
    RemoveAt(s, 0);
    assert s[..0] + s[1..] == s[1..];
  }

  /** Two lists of the same elements: drop the head of one and its match in the other. */
  lemma MatchHead<T>(a: seq<T>, b: seq<T>) returns (i: nat)
    requires a != [] && multiset(a) == multiset(b)
    ensures i < |b| && b[i] == a[0]
    ensures multiset(a[1..]) == multiset(b[..i] + b[i + 1..])
  {
    DropHead(a);
    assert a[0] in multiset(b);
    i :| 0 <= i < |b| && b[i] == a[0];
    RemoveAt(b, i);
  }

  predicate Distinct<T(==)>(s: seq<T>) {
    forall i, j :: 0 <= i < j < |s| ==> s[i] != s[j]
  }

  lemma {:induction false} DistinctIffMultiset<T>(s: seq<T>)
    ensures Distinct(s) <==> forall x :: x in multiset(s) ==> multiset(s)[x] == 1
  {
    if s == [] {
    } else {
      var t := s[1..];
      DistinctIffMultiset(t);
      assert s == [s[0]] + t;
      assert multiset(s) == multiset{s[0]} + multiset(t);
      if Distinct(s) {
        assert Distinct(t);
        assert s[0] !in t;
      }
      if forall x :: x in multiset(s) ==> multiset(s)[x] == 1 {
        assert s[0] !in multiset(t) by {
          assert multiset(s)[s[0]] == 1 + multiset(t)[s[0]];
        }
        forall x | x in multiset(t) ensures multiset(t)[x] == 1 {
          assert x in multiset(s);
        }
        forall i, j | 0 <= i < j < |s| ensures s[i] != s[j] {
          if i == 0 { assert s[j] == t[j - 1]; assert s[j] in multiset(t); }
            else { assert s[i] == t[i - 1] && s[j] == t[j - 1]; }
        }
      }
    }
  }

  lemma PermutationKeepsDistinct<T>(s: seq<T>, t: seq<T>)
    requires multiset(s) == multiset(t) && Distinct(s)
    ensures Distinct(t)
  {
    DistinctIffMultiset(s);
    DistinctIffMultiset(t);
  }
}
