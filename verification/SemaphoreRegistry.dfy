/** Semaphores by name: the comparison loops over C strings, and the sorted list that `semOpen`,
    `sem_unlink` and `getSem` keep. */
module SemaphoreRegistry {
  import opened Sequences
  import opened Matching
  import DoublyLinkedList

  type Ptr = DoublyLinkedList.Ptr

  /** A signed character other than the terminator, and a string without it. */
  type Char = c: int | -128 <= c < 128 && c != 0 witness 1
  type CString = seq<Char>

  /** What `name[i]` reads: the terminator just past the end. */
  function CharAt(s: CString, i: nat): int
    requires i <= |s|
  {
    if i < |s| then s[i] else 0
  }

  // ----- comparing names -----

  /** Dictionary order: -1, 0 or 1. */
  function Compare(a: CString, b: CString): int {
    if a == [] && b == [] then 0
    else if a == [] then -1
    else if b == [] then 1
    else if a[0] < b[0] then -1
    else if a[0] > b[0] then 1
    else Compare(a[1..], b[1..])
  }

  lemma {:induction false} CompareOrders(a: CString, b: CString)
    ensures Compare(a, b) == 0 <==> a == b
    ensures Compare(b, a) == -Compare(a, b) && -1 <= Compare(a, b) <= 1
  {
    if a != [] && b != [] && a[0] == b[0] {
      CompareOrders(a[1..], b[1..]);
      assert a == [a[0]] + a[1..] && b == [b[0]] + b[1..];
    }
  }

  lemma {:induction false} CompareTransitive(a: CString, b: CString, c: CString)
    requires Compare(a, b) <= 0 && Compare(b, c) <= 0
    ensures Compare(a, c) <= 0
  {
    if a != [] && b != [] && c != [] && a[0] == b[0] == c[0] {
      CompareTransitive(a[1..], b[1..], c[1..]);
    }
  }

  /** Dictionary order: `a` is a proper beginning of `b`, or smaller at the first place they differ. */
  predicate Before(a: CString, b: CString) {
    || (|a| < |b| && a == b[..|a|])
    || exists i | 0 <= i < |a| && i < |b| :: a[..i] == b[..i] && a[i] < b[i]
  }

  lemma {:induction false} CompareIsDictionary(a: CString, b: CString)
    ensures Compare(a, b) < 0 <==> Before(a, b)
  {
    if a != [] && b != [] {
      if a[0] == b[0] {
        CompareIsDictionary(a[1..], b[1..]);
        BeforeTails(a, b);
      } else if a[0] < b[0] {
        assert a[..0] == b[..0];
      }
    }
  }

  /** A common first character does not matter. */
  lemma BeforeTails(a: CString, b: CString)
    requires a != [] && b != [] && a[0] == b[0]
    ensures Before(a, b) <==> Before(a[1..], b[1..])
  {
    var (u, v) := (a[1..], b[1..]);
    assert a == [a[0]] + u && b == [a[0]] + v;
    assert |a| < |b| ==> b[..|a|] == [a[0]] + v[..|u|];
    if i :| 0 <= i < |a| && i < |b| && a[..i] == b[..i] && a[i] < b[i] {
      assert u[..i - 1] == a[..i][1..] && v[..i - 1] == b[..i][1..];
      assert u[i - 1] < v[i - 1];
    }
    if i :| 0 <= i < |u| && i < |v| && u[..i] == v[..i] && u[i] < v[i] {
      assert a[..i + 1] == [a[0]] + u[..i] && b[..i + 1] == [a[0]] + v[..i];
      assert a[i + 1] < b[i + 1];
    }
  }

  /** `cmpSem` on two names. */
  method CompareNames(a: CString, b: CString) returns (r: int)
    ensures r == Compare(a, b)
  {
    var i := 0;
    while CharAt(a, i) != 0 && CharAt(b, i) != 0
      invariant i <= |a| && i <= |b| && Compare(a[i..], b[i..]) == Compare(a, b)
      decreases |a| - i
    {
      if CharAt(a, i) < CharAt(b, i) {
        return -1;
      }
      if CharAt(a, i) > CharAt(b, i) {
        return 1;
      }
      assert a[i..][1..] == a[i + 1..] && b[i..][1..] == b[i + 1..];
      i := i + 1;
    }
    if CharAt(a, i) == 0 && CharAt(b, i) != 0 {
      return -1;
    }
    if CharAt(a, i) != 0 && CharAt(b, i) == 0 {
      return 1;
    }
    return 0;
  }

  /** `matchSemName` on two names. */
  method SameName(a: CString, b: CString) returns (r: bool)
    ensures r <==> a == b
  {
    var i := 0;
    while CharAt(a, i) != 0 && CharAt(b, i) != 0
      invariant i <= |a| && i <= |b| && a[..i] == b[..i]
      decreases |a| - i
    {
      if CharAt(a, i) != CharAt(b, i) {
        return false;
      }
      i := i + 1;
    }
    return CharAt(a, i) == CharAt(b, i);
  }

  // ----- the list of semaphores -----

  type Names = map<Ptr, CString>

  function NameOf(names: Names, p: Ptr): CString {
    if p in names then names[p] else []
  }

  function ByName(names: Names): (Ptr, Ptr) -> int {
    (p: Ptr, q: Ptr) => Compare(NameOf(names, p), NameOf(names, q))
  }

  function Called(names: Names, name: CString): Ptr -> bool {
    (p: Ptr) => NameOf(names, p) == name
  }

  /** Sorted by name, each name once, null never listed. */
  ghost predicate ListOk(s: seq<Ptr>, names: Names) {
    && (forall p <- s :: p != 0 && p in names)
    && forall i, j | 0 <= i < j < |s| :: Compare(names[s[i]], names[s[j]]) < 0
  }

  /** The names of the listed semaphores, one after the other in the dictionary. */
  ghost predicate Ascends(s: seq<Ptr>, names: Names) {
    forall i, j | 0 <= i < j < |s| :: Before(NameOf(names, s[i]), NameOf(names, s[j]))
  }

  lemma ListAscends(s: seq<Ptr>, names: Names)
    requires ListOk(s, names)
    ensures Ascends(s, names)
  {
    forall i, j | 0 <= i < j < |s| ensures Before(NameOf(names, s[i]), NameOf(names, s[j])) {
      CompareIsDictionary(names[s[i]], names[s[j]]);
    }
    hide Before, Compare;
  }

  lemma ByNameOrders(names: Names)
    ensures Orders(ByName(names))
  {
    var cmp := ByName(names);
    forall a, b ensures cmp(a, b) < 0 <==> cmp(b, a) > 0 {
      CompareOrders(NameOf(names, a), NameOf(names, b));
    }
    forall a, b, c | cmp(a, b) <= 0 && cmp(b, c) <= 0 ensures cmp(a, c) <= 0 {
      CompareTransitive(NameOf(names, a), NameOf(names, b), NameOf(names, c));
    }
  }

  /** At most one semaphore bears a name, so the first match is the only one. */
  lemma OneMatch(s: seq<Ptr>, names: Names, p: Ptr)
    requires ListOk(s, names) && p in s
    ensures FirstMatch(s, Called(names, names[p])) == Some(p)
  {
    var q := FirstMatch(s, Called(names, names[p])).value;
    var i :| 0 <= i < |s| && s[i] == p;
    var j :| 0 <= j < |s| && s[j] == q;
    CompareOrders(names[p], names[q]);
    CompareOrders(names[q], names[p]);
  }

  /** A new name leaves the order of the listed ones alone. */
  lemma StaysSorted(s: seq<Ptr>, names: Names, p: Ptr, name: CString)
    requires ListOk(s, names) && p !in s && FirstMatch(s, Called(names, name)) == None
    ensures Sorted(s, ByName(names[p := name]))
    ensures p != 0 ==> ListOk(s, names[p := name]) && forall q <- s :: names[p := name][q] != name
  {
    forall q | q in s ensures names[q] != name {
      assert !Called(names, name)(q);
    }
    assert forall i | 0 <= i < |s| :: s[i] in s;
    hide FirstMatch;
  }

  /** Inserting a new name in order keeps the list strictly sorted. */
  lemma InsertName(s: seq<Ptr>, names: Names, p: Ptr, name: CString)
    requires ListOk(s, names) && p != 0 && p !in s && FirstMatch(s, Called(names, name)) == None
    ensures var names' := names[p := name]; ListOk(InsertSorted(s, p, ByName(names')), names')
    ensures forall q :: q in InsertSorted(s, p, ByName(names[p := name])) <==> q in s || q == p
  {
    hide InsertSorted, Orders, Sorted, FirstMatch, ByName, ListOk, Inserted;
    var names' := names[p := name];
    var cmp := ByName(names');
    ByNameOrders(names');
    StaysSorted(s, names, p, name);
    InsertKeepsSorted(s, p, cmp);
    var n :| 0 <= n <= |s| && InsertSorted(s, p, cmp) == Inserted(s, n, p)
             && forall k | 0 <= k < |s| :: (cmp(p, s[k]) >= 0 <==> k < n);
    StrictAround(s, names', p, n);
    InsertedElems(s, n, p);
  }

  lemma InsertedElems<T>(s: seq<T>, n: nat, x: T)
    requires n <= |s|
    ensures forall y :: y in Inserted(s, n, x) <==> y in s || y == x
  {
    var r := Inserted(s, n, x);
    assert r[n] == x;
    forall y | y in s ensures y in r {
      var k :| 0 <= k < |s| && s[k] == y;
      assert r[if k < n then k else k + 1] == y;
    }
  }

  lemma StrictAround(s: seq<Ptr>, names: Names, p: Ptr, n: nat)
    requires ListOk(s, names) && n <= |s| && p != 0 && p in names && forall q <- s :: names[q] != names[p]
    requires forall k | 0 <= k < |s| :: (ByName(names)(p, s[k]) >= 0 <==> k < n)
    ensures ListOk(Inserted(s, n, p), names)
  {
    var r := Inserted(s, n, p);
    forall k | 0 <= k < |s| ensures if k < n then Compare(names[s[k]], names[p]) < 0 else Compare(names[p], names[s[k]]) < 0 {
      assert s[k] in s && (ByName(names)(p, s[k]) >= 0 <==> k < n);
      CompareOrders(names[p], names[s[k]]);
    }
    forall i, j | 0 <= i < j < |r| ensures Compare(names[r[i]], names[r[j]]) < 0 {
      assert r[i] == if i < n then s[i] else if i == n then p else s[i - 1];
      assert r[j] == if j < n then s[j] else if j == n then p else s[j - 1];
    }
  }

  lemma ListedOnce(s: seq<Ptr>, names: Names, i: nat)
    requires ListOk(s, names) && i < |s|
    ensures forall k | 0 <= k < |s| && k != i :: s[k] in names && names[s[k]] != names[s[i]]
  {
    forall k | 0 <= k < |s| && k != i ensures s[k] in names && names[s[k]] != names[s[i]] {
      assert s[k] in s;
      CompareOrders(names[s[k]], names[s[i]]);
      CompareOrders(names[s[i]], names[s[k]]);
    }
  }

  lemma DropName(s: seq<Ptr>, names: Names, i: nat)
    requires ListOk(s, names) && i < |s| && forall k | 0 <= k < |s| && k != i :: s[k] != s[i]
    ensures ListOk(Dropped(s, i), names)
    ensures forall q :: q in Dropped(s, i) <==> q in s && q != s[i]
  {
    var r := Dropped(s, i);
    assert forall k | 0 <= k < |r| :: r[k] == s[if k < i then k else k + 1];
    forall q | q in s && q != s[i] ensures q in r {
      var j :| 0 <= j < |s| && s[j] == q;
      assert r[if j < i then j else j - 1] == q;
    }
  }

  /** Removing by name removes exactly the one that bears it. */
  lemma RemoveName(s: seq<Ptr>, names: Names, p: Ptr)
    requires ListOk(s, names) && p in s
    ensures ListOk(WithoutMatch(s, Called(names, names[p])), names)
    ensures forall q :: q in WithoutMatch(s, Called(names, names[p])) <==> q in s && q != p
  {
    var i :| 0 <= i < |s| && s[i] == p;
    ListedOnce(s, names, i);
    DropName(s, names, i);
    hide WithoutMatch, FirstMatch, ListOk, Dropped;
    MatchAt(s, Called(names, names[p]), i);
  }

  // ----- the registry as it runs -----

  /** Unlinked semaphores are no longer listed, so no name leads to one. */
  ghost predicate NonePending(s: seq<Ptr>, pending: set<Ptr>) {
    forall p <- s :: p !in pending
  }

  lemma PendingElsewhere(s: seq<Ptr>, r: seq<Ptr>, p: Ptr, pending: set<Ptr>)
    requires NonePending(s, pending) && p !in pending && forall q :: q in r <==> q in s || q == p
    ensures NonePending(r, pending)
  {
  }

  class Registry {
    const list: DoublyLinkedList.List
    var names: Names
    var value: map<Ptr, int>
    var pending: set<Ptr>
    var next: Ptr

    ghost predicate Valid()
      reads this, list, list.spine
    {
      && list.Valid() && ListOk(list.Contents(), names) && next > 0
      && (forall p <- names :: p < next && p in value)
      && (forall p <- pending :: p < next)
      && NonePending(list.Contents(), pending)
    }

    /** `semaphoresInit` */
    constructor ()
      ensures Valid() && list.Contents() == [] && fresh(list)
    {
      list := new DoublyLinkedList.List();
      names, value, pending, next := map[], map[], {}, 1;
    }

    /** Before and after every call the list is in dictionary order. */
    lemma InOrder()
      requires Valid()
      ensures Ascends(list.Contents(), names)
    {
      ListAscends(list.Contents(), names);
    }

    /** `getSem`: the one listed semaphore of that name, or null. */
    method Get(name: CString) returns (sem: Ptr)
      requires Valid()
      ensures sem != 0 ==> sem in list.Contents() && names[sem] == name && sem !in pending
      ensures sem == 0 ==> forall p <- list.Contents() :: names[p] != name
      ensures forall p <- list.Contents() :: names[p] == name ==> p == sem
    {
      sem := list.Find(Called(names, name));
      forall p | p in list.Contents() && names[p] == name ensures p == sem {
        OneMatch(list.Contents(), names, p);
      }
    }

    /** `semOpen`: an existing semaphore is returned as it is, whatever value is asked for. */
    method Open(name: CString, initial: int) returns (sem: Ptr)
      requires Valid()
      modifies this`names, this`value, this`next, list, list.spine
      ensures Valid() && sem != 0 && sem in list.Contents() && names[sem] == name
      ensures if exists p <- old(list.Contents()) :: old(names)[p] == name
              then names == old(names) && value == old(value) && list.Contents() == old(list.Contents())
              else sem == old(next) && value == old(value)[sem := initial] && names == old(names)[sem := name]
                   && list.Contents() == InsertSorted(old(list.Contents()), sem, ByName(names))
    {
      sem := Get(name);
      if sem == 0 {
        sem := Create(name, initial);
      }
    }

    /** The rest of `semOpen`, for a name nobody has. */
    method Create(name: CString, initial: int) returns (sem: Ptr)
      requires Valid() && forall p <- list.Contents() :: names[p] != name
      modifies this`names, this`value, this`next, list, list.spine
      ensures Valid() && sem == old(next) && value == old(value)[sem := initial] && names == old(names)[sem := name]
      ensures sem in list.Contents() && list.Contents() == InsertSorted(old(list.Contents()), sem, ByName(names))
    {
      sem := next;
      NoneCalled(list.Contents(), names, name);
      InsertName(list.Contents(), names, sem, name);
      PendingElsewhere(list.Contents(), InsertSorted(list.Contents(), sem, ByName(names[sem := name])), sem, pending);
      hide ListOk, InsertSorted, FirstMatch, ByName;
      next := next + 1;
      value := value[sem := initial];
      names := names[sem := name];
      list.AddSorted(sem, ByName(names));
    }

    /** `sem_unlink` */
    method Unlink(name: CString) returns (r: int, ghost sem: Ptr)
      requires Valid()
      modifies this`pending, list, list.spine
      ensures Valid()
      ensures r == -1 ==> list.Contents() == old(list.Contents()) && pending == old(pending)
                          && forall p <- list.Contents() :: names[p] != name
      ensures r != -1 ==> r == 0 && sem in old(list.Contents()) && names[sem] == name && pending == old(pending) + {sem}
      ensures r != -1 ==> forall q :: q in list.Contents() <==> q in old(list.Contents()) && q != sem
    {
      var found := Get(name);
      sem := found;
      if found == 0 {
        return -1, sem;
      }
      hide FirstMatch, WithoutMatch;
      RemoveName(list.Contents(), names, sem);
      RemovedPending(list.Contents(), WithoutMatch(list.Contents(), Called(names, name)), sem, pending);
      assert sem < next;
      hide ListOk, Called, NonePending;
      list.Remove(Called(names, name));
      pending := pending + {found};
      return 0, sem;
    }
  }

  lemma RemovedPending(s: seq<Ptr>, r: seq<Ptr>, p: Ptr, pending: set<Ptr>)
    requires NonePending(s, pending) && forall q :: q in r <==> q in s && q != p
    ensures NonePending(r, pending + {p})
  {
  }

  lemma NoneCalled(s: seq<Ptr>, names: Names, name: CString)
    requires forall p <- s :: p in names && names[p] != name
    ensures FirstMatch(s, Called(names, name)) == None
  {
    hide FirstMatch;
  }
}
