/** Searching, removing and inserting in a sequence, as the kernel's lists do with callbacks. */
module Matching {
  import opened Sequences

  /** The first element that matches. */
  function FirstMatch<T>(s: seq<T>, matches: T -> bool): (r: Option<T>)
    ensures r.Some? ==> r.value in s && matches(r.value)
    ensures r.None? ==> forall x <- s :: !matches(x)
  {
    if s == [] then None else if matches(s[0]) then Some(s[0]) else FirstMatch(s[1..], matches)
  }

  /** The sequence without its first element that matches. */
  function WithoutMatch<T>(s: seq<T>, matches: T -> bool): seq<T> {
    if s == [] then [] else if matches(s[0]) then s[1..] else [s[0]] + WithoutMatch(s[1..], matches)
  }

  function Dropped<T>(s: seq<T>, i: nat): seq<T>
    requires i < |s|
  {
    s[..i] + s[i + 1..]
  }

  lemma {:induction false} MatchAt<T>(s: seq<T>, matches: T -> bool, n: nat)
    requires n < |s| && matches(s[n]) && forall k | 0 <= k < n :: !matches(s[k])
    ensures FirstMatch(s, matches) == Some(s[n]) && WithoutMatch(s, matches) == Dropped(s, n)
  {
    if n > 0 {
      MatchAt(s[1..], matches, n - 1);
    }
  }

  lemma {:induction false} NoMatch<T>(s: seq<T>, matches: T -> bool)
    requires forall k | 0 <= k < |s| :: !matches(s[k])
    ensures FirstMatch(s, matches) == None && WithoutMatch(s, matches) == s
  {
    if s != [] {
      NoMatch(s[1..], matches);
    }
  }

  /** Removing by equality, as the scheduler's queues do with pids. */
  lemma {:induction false} WithoutEqual(s: seq<nat>, x: nat)
    ensures WithoutMatch(s, y => y == x) == RemoveFirst(s, x)
  {
    if s != [] {
      WithoutEqual(s[1..], x);
    }
  }

  lemma DroppedFrom<T>(s: seq<T>, i: nat)
    requires i < |s|
    ensures forall x <- Dropped(s, i) :: x in s
  {
  }

  lemma Cut<T>(s: seq<T>, i: nat)
    requires NoDup(s) && i < |s|
    ensures var r := Dropped(s, i);
            |r| == |s| - 1 && NoDup(r) && forall k | 0 <= k < |r| :: r[k] == s[if k < i then k else k + 1]
  {
  }

  // ----- sorted insertion -----

  /** `x` goes before the first element that compares greater, or to the end. */
  function InsertSorted<T>(s: seq<T>, x: T, compare: (T, T) -> int): seq<T> {
    if s == [] then [x] else if compare(x, s[0]) < 0 then [x] + s else [s[0]] + InsertSorted(s[1..], x, compare)
  }

  function Inserted<T>(s: seq<T>, i: nat, x: T): seq<T>
    requires i <= |s|
  {
    s[..i] + [x] + s[i..]
  }

  lemma {:induction false} InsertAt<T>(s: seq<T>, x: T, compare: (T, T) -> int, n: nat)
    requires n <= |s| && (n < |s| ==> compare(x, s[n]) < 0) && forall k | 0 <= k < n :: compare(x, s[k]) >= 0
    ensures InsertSorted(s, x, compare) == Inserted(s, n, x)
  {
    if n > 0 {
      InsertAt(s[1..], x, compare, n - 1);
      assert s[1..][n - 1..] == s[n..];
    }
  }

  /** Where sorted insertion puts `x`. */
  lemma {:induction false} InsertPlace<T>(s: seq<T>, x: T, compare: (T, T) -> int) returns (n: nat)
    ensures n <= |s| && (n < |s| ==> compare(x, s[n]) < 0) && forall k | 0 <= k < n :: compare(x, s[k]) >= 0
    ensures InsertSorted(s, x, compare) == Inserted(s, n, x)
  {
    n := 0;
    while n < |s| && compare(x, s[n]) >= 0
      invariant n <= |s| && forall k | 0 <= k < n :: compare(x, s[k]) >= 0
    {
      n := n + 1;
    }
    InsertAt(s, x, compare, n);
  }

  /** Signs agree both ways round and `<= 0` is transitive. */
  ghost predicate Orders<T(!new)>(compare: (T, T) -> int) {
    && (forall a, b :: compare(a, b) < 0 <==> compare(b, a) > 0)
    && (forall a, b, c :: compare(a, b) <= 0 && compare(b, c) <= 0 ==> compare(a, c) <= 0)
  }

  ghost predicate Sorted<T>(s: seq<T>, compare: (T, T) -> int) {
    forall i, j | 0 <= i < j < |s| :: compare(s[i], s[j]) <= 0
  }

  /** In a sorted list the elements `x` does not go before are exactly those up to its place. */
  lemma TiesComeFirst<T(!new)>(s: seq<T>, x: T, compare: (T, T) -> int, n: nat)
    requires Orders(compare) && Sorted(s, compare)
    requires n <= |s| && (n < |s| ==> compare(x, s[n]) < 0) && forall k | 0 <= k < n :: compare(x, s[k]) >= 0
    ensures forall k | 0 <= k < |s| :: compare(x, s[k]) >= 0 <==> k < n
  {
    forall k | n < k < |s| ensures compare(x, s[k]) < 0 {
      assert compare(s[n], s[k]) <= 0;
      var a, b := s[n], s[k];
      assert compare(b, x) <= 0 ==> compare(a, x) <= 0;
    }
  }

  lemma PlacedIsSorted<T(!new)>(s: seq<T>, x: T, compare: (T, T) -> int, n: nat)
    requires Orders(compare) && Sorted(s, compare) && n <= |s|
    requires forall k | 0 <= k < |s| :: compare(x, s[k]) >= 0 <==> k < n
    ensures Sorted(Inserted(s, n, x), compare)
  {
    var r := Inserted(s, n, x);
    forall i, j | 0 <= i < j < |r| ensures compare(r[i], r[j]) <= 0 {
      if i == n {
        assert r[j] == s[j - 1];
      } else if j == n {
        assert r[i] == s[i];
      } else {
        assert r[i] == s[if i < n then i else i - 1] && r[j] == s[if j < n then j else j - 1];
      }
    }
  }

  /** Sorted insertion keeps a list sorted, and puts `x` after every element it ties with. */
  lemma InsertKeepsSorted<T(!new)>(s: seq<T>, x: T, compare: (T, T) -> int)
    requires Orders(compare) && Sorted(s, compare)
    ensures Sorted(InsertSorted(s, x, compare), compare)
    ensures exists n | 0 <= n <= |s| :: InsertSorted(s, x, compare) == Inserted(s, n, x) &&
              forall k | 0 <= k < |s| :: (compare(x, s[k]) >= 0 <==> k < n)
  {
    hide Orders, Sorted, InsertSorted, Inserted;
    var n := InsertPlace(s, x, compare);
    TiesComeFirst(s, x, compare, n);
    PlacedIsSorted(s, x, compare, n);
  }
}
