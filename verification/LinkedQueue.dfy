/** The kernel's queue: singly linked nodes with head, tail and length, proved to behave as a sequence. */
module LinkedQueue {
  import opened Sequences
  import opened Matching

  // ----- the linked queue -----

  /** An address; 0 is null. */
  type Ptr = nat

  class Node {
    const obj: Ptr
    var next: Node?

    constructor (obj: Ptr)
      ensures this.obj == obj && next == null
    {
      this.obj, next := obj, null;
    }
  }

  ghost predicate Linked(spine: seq<Node>)
    reads spine
  {
    NoDup(spine) && forall i {:trigger spine[i].next} | 0 <= i < |spine| :: spine[i].next == Nth(spine, i + 1)
  }

  /** Node `i` of the chain, null past its end. */
  ghost function Nth(spine: seq<Node>, i: nat): Node? {
    if i < |spine| then spine[i] else null
  }

  ghost function Objects(spine: seq<Node>): (s: seq<Ptr>)
    ensures |s| == |spine| && forall i | 0 <= i < |s| :: s[i] == spine[i].obj
  {
    seq(|spine|, i requires 0 <= i < |spine| => spine[i].obj)
  }

  lemma ObjectsCut(spine: seq<Node>, i: nat)
    requires i < |spine|
    ensures Objects(Dropped(spine, i)) == Dropped(Objects(spine), i)
  {
  }

  lemma ObjectsTail(spine: seq<Node>)
    requires spine != []
    ensures Objects(spine[1..]) == Objects(spine)[1..]
  {
  }

  lemma ObjectsAppend(spine: seq<Node>, node: Node)
    ensures Objects(spine + [node]) == Objects(spine) + [node.obj]
  {
  }

  lemma LinkedTail(spine: seq<Node>)
    requires Linked(spine) && spine != []
    ensures Linked(spine[1..]) && Nth(spine[1..], 0) == Nth(spine, 1) == spine[0].next
  {
    forall i | 0 <= i < |spine| - 1 ensures spine[1..][i].next == Nth(spine[1..], i + 1) {
      assert spine[i + 1].next == Nth(spine, i + 2);
    }
  }

  /** A chain but for node `i - 1`, which points past node `i`. */
  ghost predicate Skips(was: seq<Node>, i: nat)
    requires 0 < i < |was|
    reads was
  {
    && NoDup(was) && was[i - 1].next == Nth(was, i + 1)
    && forall k {:trigger was[k].next} | 0 <= k < |was| && k != i - 1 :: was[k].next == Nth(was, k + 1)
  }

  lemma Relinked(was: seq<Node>, i: nat)
    requires 0 < i < |was| && Skips(was, i)
    ensures var r := Dropped(was, i);
            && Linked(r) && |r| == |was| - 1 && r != [] && Nth(r, 0) == Nth(was, 0)
            && r[|r| - 1] == was[if i == |was| - 1 then i - 1 else |was| - 1]
  {
    Cut(was, i);
    var r := Dropped(was, i);
    hide Dropped;
    forall k | 0 <= k < |r| ensures r[k].next == Nth(r, k + 1) {
      assert r[k] == was[if k < i then k else k + 1];
      assert k + 1 < |r| ==> r[k + 1] == was[if k + 1 < i then k + 1 else k + 2];
    }
  }

  class Queue {
    var head: Node?
    var tail: Node?
    var length: int
    ghost var spine: seq<Node>

    /** Head, tail and length agree with the chain of nodes. */
    ghost predicate Valid()
      reads this, spine
    {
      && Linked(spine) && length == |spine|
      && head == Nth(spine, 0)
      && tail == if spine == [] then null else spine[|spine| - 1]
    }

    ghost function Contents(): (s: seq<Ptr>)
      reads this
    {
      Objects(spine)
    }

    /** `NewQueue` */
    constructor ()
      ensures Valid() && Contents() == [] && fresh(spine)
    {
      head, tail, length, spine := null, null, 0, [];
    }

    /** `Enqueue`; a null object is ignored. */
    method Enqueue(obj: Ptr)
      requires Valid()
      modifies this, spine
      ensures Valid() && forall n <- spine :: n in old(spine) || fresh(n)
      ensures Contents() == if obj == 0 then old(Contents()) else old(Contents()) + [obj]
    {
      if obj == 0 {
        return;
      }
      var node := new Node(obj);
      Append(node);
    }

    method Append(node: Node)
      requires Valid() && node !in spine && node.next == null
      modifies this, spine
      ensures Valid() && spine == old(spine) + [node] && Contents() == old(Contents()) + [node.obj]
    {
      ghost var was := spine;
      ObjectsAppend(was, node);
      assert forall k | 0 <= k < |was| - 1 :: was[k] != was[|was| - 1];
      hide Objects;
      if tail == null {
        head := node;
      } else {
        tail.next := node;
      }
      tail := node;
      length := length + 1;
      spine := spine + [node];
      forall k | 0 <= k < |spine| ensures spine[k].next == Nth(spine, k + 1) {
        if k < |was| - 1 {
          assert was[k].next == Nth(was, k + 1);
        }
      }
    }

    /** `Dequeue`; null when the queue is empty. */
    method Dequeue() returns (obj: Ptr)
      requires Valid()
      modifies this
      ensures Valid() && forall n <- spine :: n in old(spine)
      ensures if old(Contents()) == [] then obj == 0 && Contents() == []
              else obj == old(Contents())[0] && Contents() == old(Contents())[1..]
    {
      if length == 0 {
        return 0;
      }
      LinkedTail(spine);
      ObjectsTail(spine);
      obj := head.obj;
      head := head.next;
      if head == null {
        tail := null;
      }
      length := length - 1;
      spine := spine[1..];
    }

    /** `QueueLength` and `IsQueueEmpty` */
    method Length() returns (n: int, empty: bool)
      requires Valid()
      ensures n == |Contents()| && (empty <==> Contents() == [])
    {
      n, empty := length, length == 0;
    }

    /** `FindInQueue` */
    method Find(matches: Ptr -> bool) returns (obj: Ptr)
      requires Valid()
      ensures obj == match FirstMatch(Contents(), matches) case None => 0 case Some(x) => x
    {
      var current := head;
      ghost var i := 0;
      while current != null
        invariant 0 <= i <= |spine| && current == Nth(spine, i)
        invariant forall k | 0 <= k < i :: !matches(spine[k].obj)
        decreases |spine| - i
      {
        if matches(current.obj) {
          MatchAt(Contents(), matches, i);
          return current.obj;
        }
        current := current.next;
        i := i + 1;
      }
      NoMatch(Contents(), matches);
      return 0;
    }

    /** `RemoveFromQueue`: walk with a trailing pointer and unlink the first match. */
    method Remove(matches: Ptr -> bool)
      requires Valid()
      modifies this, spine
      ensures Valid() && forall n <- spine :: n in old(spine)
      ensures Contents() == WithoutMatch(old(Contents()), matches)
    {
      hide Objects, Dropped, WithoutMatch, FirstMatch;
      var current := head;
      var previous: Node? := null;
      ghost var i := 0;
      while current != null
        invariant Valid() && spine == old(spine)
        invariant 0 <= i <= |spine| && current == Nth(spine, i)
        invariant previous == if i == 0 then null else spine[i - 1]
        invariant forall k | 0 <= k < i :: !matches(spine[k].obj)
        decreases |spine| - i
      {
        if matches(current.obj) {
          MatchAt(Contents(), matches, i);
          ObjectsCut(spine, i);
          DroppedFrom(spine, i);
          if previous == null {
            UnlinkHead(current);
          } else {
            UnlinkAfter(i, current, previous);
          }
          return;
        }
        previous := current;
        current := current.next;
        i := i + 1;
      }
      NoMatch(Contents(), matches);
    }

    method UnlinkHead(current: Node)
      requires Valid() && spine != [] && current == spine[0]
      modifies this
      ensures Valid() && spine == Dropped(old(spine), 0)
    {
      LinkedTail(spine);
      hide Linked;
      head := current.next;
      if head == null {
        tail := null;
      }
      length := length - 1;
      spine := spine[1..];
    }

    method UnlinkAfter(ghost i: nat, current: Node, previous: Node)
      requires Valid() && 0 < i < |spine| && current == spine[i] && previous == spine[i - 1]
      modifies this, previous
      ensures Valid() && spine == Dropped(old(spine), i)
    {
      hide Dropped;
      ghost var was := spine;
      SoleNext(was, i);
      previous.next := current.next;
      if current.next == null {
        tail := previous;
      }
      assert Skips(was, i);
      hide Linked, Skips;
      Relinked(was, i);
      length := length - 1;
      spine := Dropped(spine, i);
    }
  }

  lemma SoleNext(was: seq<Node>, i: nat)
    requires Linked(was) && 0 < i < |was|
    ensures was[i].next == Nth(was, i + 1)
    ensures forall k | 0 <= k < |was| && k != i - 1 :: was[k] != was[i - 1]
  {
  }
}
