/** Which block `mem_alloc` takes and where `mem_free` puts it: the free lists after each call, entry by
    entry, and what that means for the sets of free blocks. */
module BuddyChoice {
  import opened Powers
  import opened Sequences
  import opened Tilings
  import opened BuddyModel
  import opened BuddyProofs

  // ----- splitting -----

  /** List `k` after the head of list `o` has been split down to `order`, its last piece still listed. */
  function SplitList(lists: seq<seq<nat>>, a: nat, o: nat, order: nat, k: nat): seq<nat>
    requires order <= o < |lists| && k < |lists| && (lists[o] == [] ==> k != o)
  {
    if order == o then lists[k]
    else if k == o then lists[o][1..]
    else if k == order then [LastPiece(a, o, order), LastPiece(a, o, order + 1)]
    else if order < k < o then [LastPiece(a, o, k + 1)]
    else lists[k]
  }

  /** Where the last 2^k bytes of the block of order `o` at `a` begin. */
  function LastPiece(a: nat, o: nat, k: nat): (r: nat)
    requires k <= o
    ensures r + Pow2(k) == a + Pow2(o) && a <= r
  {
    Pow2Monotone(k, o);
    a + Pow2(o) - Pow2(k)
  }

  lemma {:induction false} SplitDownIs(s: State, o: nat, order: nat)
    requires order <= o < |s.lists| && s.lists[o] != []
    requires forall k | order <= k < o :: s.lists[k] == []
    ensures forall k | 0 <= k < |s.lists| ::
              SplitDown(s, o, order).lists[k] == SplitList(s.lists, s.lists[o][0], o, order, k)
    decreases o
  {
    if o > order {
      var t, a := SplitOnce(s, o), s.lists[o][0];
      assert Pow2(o) == 2 * Pow2(o - 1);
      assert t.lists[o - 1] == [a + Pow2(o - 1), a] && t.lists[o] == s.lists[o][1..];
      assert forall k | 0 <= k < |s.lists| && k != o && k != o - 1 :: t.lists[k] == s.lists[k];
      SplitDownIs(t, o - 1, order);
      assert forall k | order <= k <= o - 1 :: LastPiece(a + Pow2(o - 1), o - 1, k) == LastPiece(a, o, k);
      hide Pow2, SplitOnce;
    }
  }

  // ----- mem_alloc -----

  /** List `k` after the head of list `o` has been split and its last piece of order `order` taken. */
  function AllocList(lists: seq<seq<nat>>, o: nat, order: nat, k: nat): seq<nat>
    requires order <= o < |lists| && k < |lists| && lists[o] != []
  {
    if k == o then lists[o][1..]
    else if order <= k < o then [LastPiece(lists[o][0], o, k + 1)]
    else lists[k]
  }

  ghost predicate TookPiece(lists: seq<seq<nat>>, lists': seq<seq<nat>>, o: nat, order: nat) {
    && order <= o < |lists| == |lists'| && lists[o] != []
    && forall k | 0 <= k < |lists| :: lists'[k] == AllocList(lists, o, order, k)
  }

  /** `mem_alloc` splits the head of the first sufficient list that is not empty, returns the last piece
      of it, and leaves one piece on each list it passes; no other list changes. */
  lemma AllocExactly(s: State, size: nat)
    requires s.maxOrder < |s.lists|
    ensures var order := OrderFor(size, MIN_ORDER);
            var (s', p) := Alloc(s, size);
            if forall k | order <= k <= s.maxOrder :: s.lists[k] == [] then p == 0 && s' == s
            else exists o | order <= o <= s.maxOrder && s.lists[o] != [] ::
                   && (forall k | order <= k < o :: s.lists[k] == [])
                   && p == LastPiece(s.lists[o][0], o, order) && TookPiece(s.lists, s'.lists, o, order)
  {
    var order := OrderFor(size, MIN_ORDER);
    if exists k | order <= k <= s.maxOrder :: s.lists[k] != [] {
      var o := FirstNonEmpty(s.lists, order, s.maxOrder);
      SplitDownIs(s, o, order);
      hide SplitDown, FirstNonEmpty;
      var t, a := SplitDown(s, o, order), s.lists[o][0];
      assert t.lists[order] == SplitList(s.lists, a, o, order, order);
      assert LastPiece(a, o, o) == a;
      assert Alloc(s, size) == Take(t, order);
      forall k | 0 <= k < |s.lists| ensures Take(t, order).0.lists[k] == AllocList(s.lists, o, order, k) {
        assert t.lists[k] == SplitList(s.lists, a, o, order, k);
      }
    }
  }

  /** The same of the set of free blocks: the block taken is the last piece of a smallest free block that
      suffices, and every other free block stays free. */
  lemma AllocTakesSmallest(s: State, live: set<Block>, lo: nat, hi: nat, size: nat)
    requires Inv(s, live, lo, hi) && Alloc(s, size).1 != 0
    ensures var (order, p) := (OrderFor(size, MIN_ORDER), Alloc(s, size).1);
            exists b <- FreeSet(s.lists) ::
              && order <= b.order && (forall c <- FreeSet(s.lists) :: order <= c.order ==> b.order <= c.order)
              && Within(Block(p, order), b) && p + Pow2(order) == b.addr + Size(b)
              && FreeSet(s.lists) - {b} <= FreeSet(Alloc(s, size).0.lists)
              && forall c <- FreeSet(Alloc(s, size).0.lists) :: c !in FreeSet(s.lists) ==> Within(c, b)
  {
    var order := OrderFor(size, MIN_ORDER);
    AllocExactly(s, size);
    var (s', p) := Alloc(s, size);
    hide Alloc, OrderFor, Inv, FreeSet, TookPiece;
    var o :| order <= o <= s.maxOrder && s.lists[o] != [] && (forall k | order <= k < o :: s.lists[k] == [])
             && p == LastPiece(s.lists[o][0], o, order) && TookPiece(s.lists, s'.lists, o, order);
    forall c | c in FreeSet(s.lists) && order <= c.order ensures o <= c.order {
      FreeOrders(s, live, lo, hi, c);
    }
    HeadIsFree(s.lists, o);
    OthersStayFree(s.lists, s'.lists, o, order);
    NewInside(s.lists, s'.lists, o, order);
  }

  lemma HeadIsFree(lists: seq<seq<nat>>, o: nat)
    requires o < |lists| && lists[o] != []
    ensures Block(lists[o][0], o) in FreeSet(lists)
  {
  }

  lemma OthersStayFree(lists: seq<seq<nat>>, lists': seq<seq<nat>>, o: nat, order: nat)
    requires TookPiece(lists, lists', o, order) && forall k | order <= k < o :: lists[k] == []
    ensures FreeSet(lists) - {Block(lists[o][0], o)} <= FreeSet(lists')
  {
    var b := Block(lists[o][0], o);
    InFreeSet(lists);
    InFreeSet(lists');
    hide FreeSet;
    forall c | c in FreeSet(lists) && c != b ensures c in FreeSet(lists') {
      assert lists'[c.order] == AllocList(lists, o, order, c.order);
      assert c.order == o ==> lists[o] == [b.addr] + lists[o][1..];
    }
  }

  lemma NewInside(lists: seq<seq<nat>>, lists': seq<seq<nat>>, o: nat, order: nat)
    requires TookPiece(lists, lists', o, order)
    ensures forall c <- FreeSet(lists') :: c !in FreeSet(lists) ==> Within(c, Block(lists[o][0], o))
  {
    var b := Block(lists[o][0], o);
    InFreeSet(lists);
    InFreeSet(lists');
    assert lists[o] == [b.addr] + lists[o][1..];
    hide FreeSet;
    forall c | c in FreeSet(lists') && c !in FreeSet(lists) ensures Within(c, b) {
      assert lists'[c.order] == AllocList(lists, o, order, c.order);
      PieceInside(b.addr, o, c.order);
    }
  }

  lemma FreeOrders(s: State, live: set<Block>, lo: nat, hi: nat, c: Block)
    requires Inv(s, live, lo, hi) && c in FreeSet(s.lists)
    ensures c.order <= s.maxOrder < |s.lists| && s.lists[c.order] != []
  {
    InFreeSet(s.lists);
    FreeIsTiling(FreeSet(s.lists), live, s.maxOrder);
  }

  /** The piece left on list `k` lies inside the block. */
  lemma PieceInside(a: nat, o: nat, k: nat)
    ensures k < o ==> LastPiece(a, o, k + 1) + Pow2(k) <= a + Pow2(o)
  {
    if k < o {
      Pow2Monotone(k, k + 1);
    }
  }

  // ----- mem_free -----

  function RoundDown(x: nat, m: nat): nat
    requires m > 0
  {
    x / m * m
  }

  /** The aligned block of order `k` that holds address `x`. */
  function Around(x: nat, k: nat): Block {
    Block(RoundDown(x, Pow2(k)), k)
  }

  lemma AroundIs(b: Block, x: nat)
    requires Aligned(b.addr, b.order) && Contains(b, x)
    ensures Around(x, b.order) == b
  {
    var m := Pow2(b.order);
    var q := Quotient(b.addr, m);
    DivModUnique(x, m, q, x - b.addr);
  }

  /** List `k` after the block around `x` of order `from` has been merged up to order `to` and pushed. */
  function MergedList(lists: seq<seq<nat>>, x: nat, from: nat, to: nat, k: nat): seq<nat>
    requires k < |lists|
  {
    if k == to then [Around(x, k).addr] + lists[k]
    else if from <= k < to then RemoveFirst(lists[k], Buddy(Around(x, k)).addr)
    else lists[k]
  }

  ghost predicate MergedTo(
    lists: seq<seq<nat>>, lists': seq<seq<nat>>, x: nat, from: nat, to: nat, maxOrder: nat)
  {
    && from <= to <= maxOrder < |lists| == |lists'|
    && (forall k | from <= k < to :: Buddy(Around(x, k)).addr in lists[k])
    && (to < maxOrder ==> Buddy(Around(x, to)).addr !in lists[to])
    && forall k | 0 <= k < |lists| :: lists'[k] == MergedList(lists, x, from, to, k)
  }

  /** `mem_free` merges the block with its buddy exactly as long as the buddy is listed and the block is
      not of the top order, takes each such buddy off its list, puts the result at the head of its own,
      and leaves every other list alone. */
  lemma FreeExactly(s: State, live: set<Block>, lo: nat, hi: nat, b: Block)
    requires Inv(s, live, lo, hi) && b in live
    ensures OrderAt(s.orderMap, s.base, b.addr) == b.order <= s.maxOrder < |s.lists| == |Free(s, b.addr).lists|
    ensures exists to :: MergedTo(s.lists, Free(s, b.addr).lists, b.addr, b.order, to, s.maxOrder)
    ensures Free(s, b.addr) == s.(lists := Free(s, b.addr).lists)
  {
    FreeInv(s, live, lo, hi, b);
    LiveBlock(s, live, lo, hi, b);
    hide Inv;
    CoalesceIs(s.lists, b, s.maxOrder, b.addr);
  }

  lemma LiveBlock(s: State, live: set<Block>, lo: nat, hi: nat, b: Block)
    requires Inv(s, live, lo, hi) && b in live
    ensures WellFormed(b, s.maxOrder) && s.maxOrder < |s.lists|
  {
    assert b in FreeSet(s.lists) + live;
  }

  lemma {:induction false} CoalesceIs(lists: seq<seq<nat>>, b: Block, maxOrder: nat, x: nat)
    requires WellFormed(b, maxOrder) && maxOrder < |lists| && Contains(b, x)
    ensures var (lists', c) := Coalesce(lists, b, maxOrder);
            && c == Around(x, c.order)
            && MergedTo(lists, Push(lists', c.order, c.addr), x, b.order, c.order, maxOrder)
    decreases maxOrder - b.order
  {
    AroundIs(b, x);
    if b.order < maxOrder && Buddy(b).addr in lists[b.order] {
      ParentOf(b, maxOrder);
      HalvesOf(Parent(b), maxOrder);
      CoalesceIs(Unlink(lists, b.order, Buddy(b).addr), Parent(b), maxOrder, x);
    }
  }

  /** The block freed last, merged as far as it goes, is the first to be handed out again. */
  lemma LastFreedFirst(s: State, live: set<Block>, lo: nat, hi: nat, b: Block, size: nat)
    requires Inv(s, live, lo, hi) && b in live
    ensures OrderAt(s.orderMap, s.base, b.addr) <= s.maxOrder < |s.lists| == |Free(s, b.addr).lists|
    ensures exists k | b.order <= k <= s.maxOrder ::
              && Around(b.addr, k) in FreeSet(Free(s, b.addr).lists)
              && (OrderFor(size, MIN_ORDER) == k ==> Alloc(Free(s, b.addr), size).1 == Around(b.addr, k).addr)
  {
    hide Inv, Alloc, Free, Around, MergedTo, FreeSet;
    FreeExactly(s, live, lo, hi, b);
    var s' := Free(s, b.addr);
    var to :| MergedTo(s.lists, s'.lists, b.addr, b.order, to, s.maxOrder);
    MergedHead(s.lists, s'.lists, b.addr, b.order, to, s.maxOrder);
    if OrderFor(size, MIN_ORDER) == to {
      HeadIsTaken(s', size, to);
    }
  }

  lemma MergedHead(lists: seq<seq<nat>>, lists': seq<seq<nat>>, x: nat, from: nat, to: nat, maxOrder: nat)
    requires MergedTo(lists, lists', x, from, to, maxOrder)
    ensures from <= to <= maxOrder < |lists'| && lists'[to] != [] && lists'[to][0] == Around(x, to).addr
    ensures Around(x, to) in FreeSet(lists')
  {
    HeadIsFree(lists', to);
  }

  /** A request that fits the head of a list exactly is given that block. */
  lemma HeadIsTaken(s: State, size: nat, o: nat)
    requires o <= s.maxOrder < |s.lists| && s.lists[o] != [] && OrderFor(size, MIN_ORDER) == o
    ensures Alloc(s, size).1 == s.lists[o][0]
  {
    AllocExactly(s, size);
    LastPieceOfSame(s.lists[o][0], o);
    hide Alloc, OrderFor, TookPiece;
  }

  lemma LastPieceOfSame(a: nat, o: nat)
    ensures LastPiece(a, o, o) == a
  {
  }
}
