/** The kernel's doubly linked list, proved to behave as a sequence with insertion at the front, stable
    sorted insertion, search and removal of the first match. */
module DoublyLinkedList {
  import opened Sequences
  import opened Matching

  /** What a node holds; 0 is null. */
  type Ptr = nat

  class Node {
    const elem: Ptr
    var next: Node?
    var prev: Node?

    constructor (elem: Ptr)
      ensures this.elem == elem && next == null && prev == null
    {
      this.elem, next, prev := elem, null, null;
    }
  }

  /** Node `i` of the chain, null outside it. */
  ghost function Nth(spine: seq<Node>, i: int): Node? {
    if 0 <= i < |spine| then spine[i] else null
  }

  ghost predicate Forward(spine: seq<Node>)
    reads spine
  {
    forall i {:trigger spine[i].next} | 0 <= i < |spine| :: spine[i].next == Nth(spine, i + 1)
  }

  ghost predicate Backward(spine: seq<Node>)
    reads spine
  {
    forall i {:trigger spine[i].prev} | 0 <= i < |spine| :: spine[i].prev == Nth(spine, i - 1)
  }

  /** Every node points to its neighbours on both sides. */
  ghost predicate Linked(spine: seq<Node>)
    reads spine
  {
    NoDup(spine) && Forward(spine) && Backward(spine)
  }

  lemma OnlyAt(spine: seq<Node>, i: int)
    requires NoDup(spine)
    ensures forall k | 0 <= k < |spine| && k != i :: Nth(spine, i) != spine[k]
  {
  }

  ghost function Elems(spine: seq<Node>): (s: seq<Ptr>)
    ensures |s| == |spine| && forall i | 0 <= i < |s| :: s[i] == spine[i].elem
  {
    seq(|spine|, i requires 0 <= i < |spine| => spine[i].elem)
  }

  lemma ElemsDropped(spine: seq<Node>, i: nat)
    requires i < |spine|
    ensures Elems(Dropped(spine, i)) == Dropped(Elems(spine), i)
  {
  }

  lemma ElemsInserted(spine: seq<Node>, i: nat, node: Node)
    requires i <= |spine|
    ensures Elems(Inserted(spine, i, node)) == Inserted(Elems(spine), i, node.elem)
  {
  }

  // ----- links after an update -----

  /** The forward links of a chain into which `node` has been spliced before position `i`. */
  ghost predicate SplicedNext(was: seq<Node>, i: nat, node: Node)
    reads was, node
  {
    && node.next == Nth(was, i)
    && forall k {:trigger was[k].next} | 0 <= k < |was| :: was[k].next == if k == i - 1 then node else Nth(was, k + 1)
  }

  ghost predicate SplicedPrev(was: seq<Node>, i: nat, node: Node)
    reads was, node
  {
    && node.prev == Nth(was, i - 1)
    && forall k {:trigger was[k].prev} | 0 <= k < |was| :: was[k].prev == if k == i then node else Nth(was, k - 1)
  }

  lemma InsertedAt(was: seq<Node>, i: nat, node: Node)
    requires i <= |was|
    ensures var r := Inserted(was, i, node);
            && |r| == |was| + 1
            && forall k {:trigger Nth(r, k)} | -1 <= k <= |r| ::
                 Nth(r, k) == if k < i then Nth(was, k) else if k == i then node else Nth(was, k - 1)
    ensures NoDup(was) && node !in was ==> NoDup(Inserted(was, i, node))
  {
    var r := Inserted(was, i, node);
    assert r[i] == node;
    forall k | -1 <= k <= |r|
      ensures Nth(r, k) == if k < i then Nth(was, k) else if k == i then node else Nth(was, k - 1)
    {
      if 0 <= k < i {
        assert r[k] == was[k];
      } else if i < k < |r| {
        assert r[k] == was[k - 1];
      }
    }
  }

  lemma DroppedAt(was: seq<Node>, i: nat)
    requires i < |was|
    ensures var r := Dropped(was, i);
            && |r| == |was| - 1
            && forall k {:trigger Nth(r, k)} | -1 <= k <= |r| ::
                 Nth(r, k) == if k < i then Nth(was, k) else Nth(was, k + 1)
    ensures NoDup(was) ==> NoDup(Dropped(was, i))
  {
  }

  lemma SpliceForward(was: seq<Node>, i: nat, node: Node)
    requires i <= |was| && SplicedNext(was, i, node)
    ensures Forward(Inserted(was, i, node))
  {
    InsertedAt(was, i, node);
    var r := Inserted(was, i, node);
    hide Inserted;
    forall k | 0 <= k < |r| ensures r[k].next == Nth(r, k + 1) {
      assert r[k] == Nth(r, k);
    }
  }

  lemma SpliceBackward(was: seq<Node>, i: nat, node: Node)
    requires i <= |was| && SplicedPrev(was, i, node)
    ensures Backward(Inserted(was, i, node))
  {
    InsertedAt(was, i, node);
    var r := Inserted(was, i, node);
    hide Inserted;
    forall k | 0 <= k < |r| ensures r[k].prev == Nth(r, k - 1) {
      assert r[k] == Nth(r, k);
    }
  }

  lemma SplicedIsLinked(was: seq<Node>, i: nat, node: Node)
    requires i <= |was| && NoDup(was) && node !in was && SplicedNext(was, i, node) && SplicedPrev(was, i, node)
    ensures var r := Inserted(was, i, node);
            Linked(r) && |r| == |was| + 1 && Nth(r, 0) == (if i == 0 then node else Nth(was, 0))
  {
    InsertedAt(was, i, node);
    SpliceForward(was, i, node);
    SpliceBackward(was, i, node);
    hide Inserted, SplicedNext, SplicedPrev, Forward, Backward, NoDup;
  }

  /** The forward links of a chain around node `i` once its neighbours point past it. */
  ghost predicate BypassedNext(was: seq<Node>, i: nat)
    reads was
  {
    forall k {:trigger was[k].next} | 0 <= k < |was| && k != i ::
      was[k].next == if k == i - 1 then Nth(was, i + 1) else Nth(was, k + 1)
  }

  ghost predicate BypassedPrev(was: seq<Node>, i: nat)
    reads was
  {
    forall k {:trigger was[k].prev} | 0 <= k < |was| && k != i ::
      was[k].prev == if k == i + 1 then Nth(was, i - 1) else Nth(was, k - 1)
  }

  lemma BypassForward(was: seq<Node>, i: nat)
    requires i < |was| && BypassedNext(was, i)
    ensures Forward(Dropped(was, i))
  {
    DroppedAt(was, i);
    var r := Dropped(was, i);
    hide Dropped;
    forall k | 0 <= k < |r| ensures r[k].next == Nth(r, k + 1) {
      assert r[k] == Nth(r, k);
    }
  }

  lemma BypassBackward(was: seq<Node>, i: nat)
    requires i < |was| && BypassedPrev(was, i)
    ensures Backward(Dropped(was, i))
  {
    DroppedAt(was, i);
    var r := Dropped(was, i);
    hide Dropped;
    forall k | 0 <= k < |r| ensures r[k].prev == Nth(r, k - 1) {
      assert r[k] == Nth(r, k);
    }
  }

  lemma BypassedIsLinked(was: seq<Node>, i: nat)
    requires i < |was| && NoDup(was) && BypassedNext(was, i) && BypassedPrev(was, i)
    ensures var r := Dropped(was, i);
            Linked(r) && |r| == |was| - 1 && Nth(r, 0) == (if i == 0 then Nth(was, 1) else Nth(was, 0))
  {
    DroppedAt(was, i);
    BypassForward(was, i);
    BypassBackward(was, i);
    hide Dropped, BypassedNext, BypassedPrev, Forward, Backward, NoDup;
  }

  // ----- the list -----

  class List {
    var head: Node?
    var length: int
    ghost var spine: seq<Node>

    ghost predicate Valid()
      reads this, spine
    {
      Linked(spine) && length == |spine| && head == Nth(spine, 0)
    }

    ghost function Contents(): (s: seq<Ptr>)
      reads this
    {
      Elems(spine)
    }

    /** `newDoubleLinkedListADT` */
    constructor ()
      ensures Valid() && Contents() == [] && spine == []
    {
      head, length, spine := null, 0, [];
    }

    /** `addToDoubleLinkedList`: insertion at the front. */
    method Add(elem: Ptr)
      requires Valid()
      modifies this, spine
      ensures Valid() && forall n <- spine :: n in old(spine) || fresh(n)
      ensures Contents() == [elem] + old(Contents())
    {
      var node := new Node(elem);
      if head != null {
        SpliceBefore(0, head, node);
      } else {
        SpliceFirst(node);
      }
      InsertedFirst(old(Contents()), elem);
      hide Inserted, Elems, Linked;
    }

    /** `addToDoubleLinkedListSorted`: insertion before the first element that compares greater. */
    method AddSorted(elem: Ptr, compare: (Ptr, Ptr) -> int)
      requires Valid()
      modifies this, spine
      ensures Valid() && forall n <- spine :: n in old(spine) || fresh(n)
      ensures Contents() == InsertSorted(old(Contents()), elem, compare)
    {
      hide Elems, Inserted, InsertSorted;
      var node := new Node(elem);
      if head == null {
        InsertAt(Contents(), elem, compare, 0);
        SpliceFirst(node);
        return;
      }
      var cur := head;
      ghost var i := 0;
      while true
        invariant Valid() && spine == old(spine) && fresh(node) && node.elem == elem
        invariant node.next == null && node.prev == null
        invariant 0 <= i < |spine| && cur == spine[i]
        invariant forall k | 0 <= k < i :: compare(elem, spine[k].elem) >= 0
        decreases |spine| - i
      {
        if compare(elem, cur.elem) < 0 {
          InsertAt(Contents(), elem, compare, i);
          SpliceBefore(i, cur, node);
          return;
        }
        if cur.next == null {
          InsertAt(Contents(), elem, compare, i + 1);
          SpliceLast(cur, node);
          return;
        }
        cur := cur.next;
        i := i + 1;
      }
    }

    method SpliceFirst(node: Node)
      requires Valid() && spine == [] && node.next == null && node.prev == null
      modifies this
      ensures Valid() && spine == [node] && Contents() == Inserted(old(Contents()), 0, node.elem)
    {
      head := node;
      length := length + 1;
      spine := [node];
    }

    method SpliceBefore(ghost i: nat, cur: Node, node: Node)
      requires Valid() && i < |spine| && cur == spine[i] && node !in spine
      modifies this, spine, node
      ensures Valid() && (forall n <- spine :: n in old(spine) || n == node)
      ensures Contents() == Inserted(old(Contents()), i, node.elem)
    {
      ghost var was := spine;
      InsertedFrom(was, i, node);
      ElemsInserted(was, i, node);
      hide NoDup, Elems, Inserted, SplicedNext, SplicedPrev;
      PointForward(i, cur, node);
      PointBack(i, cur, node);
      hide Linked;
      length := length + 1;
      SplicedIsLinked(was, i, node);
      spine := Inserted(was, i, node);
    }

    /** The links that lead forward over the new node. */
    method PointForward(ghost i: nat, cur: Node, node: Node)
      requires NoDup(spine) && Forward(spine) && i < |spine| && cur == spine[i] && cur.prev == Nth(spine, i - 1)
      requires node !in spine && head == Nth(spine, 0)
      modifies this`head, spine, node
      ensures SplicedNext(spine, i, node) && head == if i == 0 then node else Nth(spine, 0)
      ensures node.prev == old(node.prev) && forall n <- spine :: n.prev == old(n.prev)
    {
      OnlyAt(spine, i - 1);
      hide NoDup;
      node.next := cur;
      if cur.prev != null {
        cur.prev.next := node;
      } else {
        head := node;
      }
    }

    /** The links that lead back over it. */
    method PointBack(ghost i: nat, cur: Node, node: Node)
      requires NoDup(spine) && Backward(spine) && i < |spine| && cur == spine[i] && node !in spine
      modifies cur, node
      ensures SplicedPrev(spine, i, node) && (old(SplicedNext(spine, i, node)) ==> SplicedNext(spine, i, node))
    {
      OnlyAt(spine, i);
      assert cur.prev == Nth(spine, i - 1);
      hide NoDup;
      node.prev := cur.prev;
      cur.prev := node;
    }

    method SpliceLast(cur: Node, node: Node)
      requires Valid() && spine != [] && cur == spine[|spine| - 1] && node !in spine && node.next == null
      modifies this, cur, node
      ensures Valid() && (forall n <- spine :: n in old(spine) || n == node)
      ensures Contents() == Inserted(old(Contents()), old(|spine|), node.elem)
    {
      ghost var was := spine;
      OnlyAt(was, |was| - 1);
      Neighbours(was, |was| - 1);
      InsertedFrom(was, |was|, node);
      hide NoDup, Elems, Inserted;
      node.next := null;
      node.prev := cur;
      cur.next := node;
      length := length + 1;
      assert SplicedNext(was, |was|, node) && SplicedPrev(was, |was|, node);
      hide Linked, SplicedNext, SplicedPrev;
      SplicedIsLinked(was, |was|, node);
      ElemsInserted(was, |was|, node);
      spine := Inserted(was, |was|, node);
    }

    /** `findInDoubleLinkedList` */
    method Find(matches: Ptr -> bool) returns (elem: Ptr)
      requires Valid()
      ensures elem == match FirstMatch(Contents(), matches) case None => 0 case Some(x) => x
    {
      hide Elems, FirstMatch;
      var cur := head;
      ghost var i := 0;
      while cur != null
        invariant 0 <= i <= |spine| && cur == Nth(spine, i)
        invariant forall k | 0 <= k < i :: !matches(spine[k].elem)
        decreases |spine| - i
      {
        if matches(cur.elem) {
          MatchAt(Contents(), matches, i);
          return cur.elem;
        }
        cur := cur.next;
        i := i + 1;
      }
      NoMatch(Contents(), matches);
      return 0;
    }

    /** `removeFromDoubleLinkedList` */
    method Remove(matches: Ptr -> bool)
      requires Valid()
      modifies this, spine
      ensures Valid() && forall n <- spine :: n in old(spine)
      ensures Contents() == WithoutMatch(old(Contents()), matches)
    {
      hide Elems, Dropped, WithoutMatch, FirstMatch;
      var cur := head;
      ghost var i := 0;
      while cur != null
        invariant Valid() && spine == old(spine)
        invariant 0 <= i <= |spine| && cur == Nth(spine, i)
        invariant forall k | 0 <= k < i :: !matches(spine[k].elem)
        decreases |spine| - i
      {
        if matches(cur.elem) {
          MatchAt(Contents(), matches, i);
          Unlink(i, cur);
          return;
        }
        cur := cur.next;
        i := i + 1;
      }
      NoMatch(Contents(), matches);
    }

    method Unlink(ghost i: nat, cur: Node)
      requires Valid() && i < |spine| && cur == spine[i]
      modifies this, spine
      ensures Valid() && (forall n <- spine :: n in old(spine))
      ensures Contents() == Dropped(old(Contents()), i)
    {
      ghost var was := spine;
      ElemsDropped(was, i);
      DroppedFrom(was, i);
      Neighbours(was, i);
      hide NoDup, Elems, Dropped, BypassedNext, BypassedPrev;
      PassForward(i, cur);
      PassBack(i, cur);
      hide Linked;
      length := length - 1;
      BypassedIsLinked(was, i);
      spine := Dropped(was, i);
    }

    method PassForward(ghost i: nat, cur: Node)
      requires NoDup(spine) && Forward(spine) && i < |spine| && cur == spine[i] && cur.prev == Nth(spine, i - 1)
      requires head == Nth(spine, 0)
      modifies this`head, spine
      ensures BypassedNext(spine, i) && head == if i == 0 then Nth(spine, 1) else Nth(spine, 0)
      ensures cur.next == old(cur.next) && forall n <- spine :: n.prev == old(n.prev)
    {
      OnlyAt(spine, i - 1);
      assert cur.next == Nth(spine, i + 1);
      hide NoDup;
      if cur.prev != null {
        cur.prev.next := cur.next;
      } else {
        head := cur.next;
      }
    }

    method PassBack(ghost i: nat, cur: Node)
      requires NoDup(spine) && Backward(spine) && i < |spine| && cur == spine[i] && cur.next == Nth(spine, i + 1)
      modifies spine
      ensures BypassedPrev(spine, i) && (old(BypassedNext(spine, i)) ==> BypassedNext(spine, i))
    {
      OnlyAt(spine, i + 1);
      assert cur.prev == Nth(spine, i - 1);
      hide NoDup;
      if cur.next != null {
        cur.next.prev := cur.prev;
      }
    }

    /** `getDoubleLinkedListLength` and `isListEmpty` */
    method Length() returns (n: int, empty: bool)
      requires Valid()
      ensures n == |Contents()| && (empty <==> Contents() == [])
    {
      n, empty := length, length == 0;
    }
  }

  lemma Neighbours(spine: seq<Node>, i: nat)
    requires Linked(spine) && i < |spine|
    ensures spine[i].next == Nth(spine, i + 1) && spine[i].prev == Nth(spine, i - 1)
  {
  }

  lemma InsertedFirst<T>(s: seq<T>, x: T)
    ensures Inserted(s, 0, x) == [x] + s
  {
  }

  lemma InsertedFrom<T>(s: seq<T>, i: nat, x: T)
    requires i <= |s|
    ensures forall y <- Inserted(s, i, x) :: y in s || y == x
  {
  }
}
