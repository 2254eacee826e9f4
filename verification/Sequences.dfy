/** Sequences without repetition, as the kernel's lists and queues hold them. */
module Sequences {

  datatype Option<+T> = None | Some(value: T)

  ghost predicate NoDup<T>(s: seq<T>) {
    forall i, j | 0 <= i < j < |s| :: s[i] != s[j]
  }

  lemma EmptyOrElement<T>(s: seq<T>)
    ensures s == [] || s[0] in s
  {
  }

  /** Unlink the first node holding `x`. */
  function RemoveFirst<T(==)>(s: seq<T>, x: T): seq<T> {
    if s == [] then []
    else if s[0] == x then s[1..]
    else [s[0]] + RemoveFirst(s[1..], x)
  }

  lemma {:induction false} RemoveFirstElems<T>(s: seq<T>, x: T)
    requires NoDup(s)
    ensures NoDup(RemoveFirst(s, x))
    ensures |RemoveFirst(s, x)| == if x in s then |s| - 1 else |s|
    ensures forall y :: y in RemoveFirst(s, x) <==> y in s && y != x
  {
    if s != [] {
      assert s == [s[0]] + s[1..];
      RemoveFirstElems(s[1..], x);
      assert s[0] !in s[1..];
    }
  }

  lemma {:induction false} RemoveAbsent<T>(s: seq<T>, x: T)
    requires x !in s
    ensures RemoveFirst(s, x) == s
  {
    if s != [] {
      RemoveAbsent(s[1..], x);
    }
  }

  /** Removing the element at the first position where it occurs. */
  lemma {:induction false} RemoveAt<T>(s: seq<T>, n: nat)
    requires n < |s| && forall k | 0 <= k < n :: s[k] != s[n]
    ensures RemoveFirst(s, s[n]) == s[..n] + s[n + 1..]
  {
    if n > 0 {
      RemoveAt(s[1..], n - 1);
    }
  }
}
