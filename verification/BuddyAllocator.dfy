/** The buddy allocator as it runs: arrays updated in place by the split and coalesce loops,
    proved to compute the functions of BuddyModel and to keep the invariant of BuddyProofs. */
module BuddyAllocator {
  import opened Powers
  import opened Sequences
  import opened Tilings
  import opened BuddyModel
  import opened BuddyProofs

  /** The placement loops of `mem_init`: the largest blocks first, then one order down at a time. */
  method FillAll(l: Layout, lists: array<seq<nat>>, orders: array<nat>) returns (total: nat)
    requires LayoutOk(l) && lists.Length == MAX_ORDER && orders.Length == l.pages
    requires lists[..] == Blank(l).lists && orders[..] == Blank(l).orderMap
    modifies lists, orders
    ensures State(l.base, l.maxOrder, lists[..], orders[..], total)
            == Fill(Blank(l), l.base, l.end, l.maxOrder).0
  {
    ghost var target := Fill(Blank(l), l.base, l.end, l.maxOrder).0;
    total := 0;
    var cur, i := l.base, l.maxOrder;
    while i >= MIN_ORDER
      invariant MIN_ORDER - 1 <= i <= l.maxOrder && l.base <= cur
      invariant Fill(State(l.base, l.maxOrder, lists[..], orders[..], total), cur, l.end, i).0 == target
      decreases i
    {
      AlignUpIsLeast(cur, Pow2(i));
      cur, total := FillOne(l, lists, orders, AlignUp(cur, Pow2(i)), i, total);
      i := i - 1;
    }
  }

  method FillOne(l: Layout, lists: array<seq<nat>>, orders: array<nat>, start: nat, i: nat, before: nat)
    returns (cur: nat, total: nat)
    requires LayoutOk(l) && MIN_ORDER <= i < lists.Length && orders.Length == l.pages && l.base <= start
    modifies lists, orders
    ensures (State(l.base, l.maxOrder, lists[..], orders[..], total), cur)
            == FillOrder(State(l.base, l.maxOrder, old(lists[..]), old(orders[..]), before), start, l.end, i)
    ensures l.base <= cur
  {
    ghost var target := FillOrder(State(l.base, l.maxOrder, lists[..], orders[..], before), start, l.end, i);
    cur, total := start, before;
    while cur + Pow2(i) <= l.end
      invariant l.base <= cur
      invariant FillOrder(State(l.base, l.maxOrder, lists[..], orders[..], total), cur, l.end, i) == target
      decreases l.end - cur
    {
      PlaceIndex(l, cur, i);
      ghost var s := State(l.base, l.maxOrder, lists[..], orders[..], total);
      lists[i] := [cur] + lists[i];
      orders[(cur - l.base) / PAGE] := i;
      total := total + Pow2(i);
      assert State(l.base, l.maxOrder, lists[..], orders[..], total) == Place(s, cur, i);
      cur := cur + Pow2(i);
    }
  }

  lemma InitFacts(start: nat, length: nat)
    requires MapFits(start, length) && BelowTop(start, length)
    ensures LayoutOk(LayoutOf(start, length))
    ensures var s, lo := Init(start, length), RegionLow(start, length);
            && Inv(s, {}, lo, lo + s.managed) && LayoutOf(start, length).mapBase <= lo
            && (0 < s.managed ==> lo + s.managed <= LayoutOf(start, length).end)
  {
    InitInv(start, length);
    LayoutFacts(start, length);
  }

  class Allocator {
    var base: nat
    var maxOrder: nat
    const freeList: array<seq<nat>>
    const orderMap: array<nat>
    var managedTotal: nat
    ghost var live: set<Block>
    ghost const lo: nat
    ghost const hi: nat

    ghost function Abs(): State
      reads this, freeList, orderMap
    {
      State(base, maxOrder, freeList[..], orderMap[..], managedTotal)
    }

    ghost predicate Valid()
      reads this, freeList, orderMap
    {
      freeList.Length == MAX_ORDER && Inv(Abs(), live, lo, hi)
    }

    /** `mem_init` */
    constructor (start: nat, length: nat)
      requires MapFits(start, length) && BelowTop(start, length)
      ensures Valid() && fresh(freeList) && fresh(orderMap)
      ensures Abs() == Init(start, length) && live == {}
      ensures LayoutOf(start, length).mapBase <= lo && (lo < hi ==> hi <= LayoutOf(start, length).end)
    {
      var l := LayoutOf(start, length);
      InitFacts(start, length);
      var lists := new seq<nat>[MAX_ORDER](i => []);
      var orders := new nat[l.pages](i => 0);
      assert lists[..] == Blank(l).lists && orders[..] == Blank(l).orderMap;
      var total := FillAll(l, lists, orders);
      base, maxOrder, managedTotal := l.base, l.maxOrder, total;
      freeList, orderMap := lists, orders;
      live, lo, hi := {}, RegionLow(start, length), RegionLow(start, length) + total;
    }

    /** `mem_alloc`; a request above 2^63 bytes has no defined shift. Returns 0 for NULL. */
    method Alloc(size: nat) returns (p: nat)
      requires Valid() && size <= 0x8000_0000_0000_0000
      modifies this`live, freeList, orderMap
      ensures Valid() && p == BuddyModel.Alloc(old(Abs()), size).1
      ensures Abs() == BuddyModel.Alloc(old(Abs()), size).0
      ensures live == LiveAfterAlloc(old(live), size, p)
    {
      AllocKeepsInv(Abs(), live, lo, hi, size);
      ShapeOf(Abs(), live, lo, hi);
      var order := OrderForSize(size);
      if order > maxOrder {
        return 0;
      }
      var o := FirstFit(order);
      if o > maxOrder {
        return 0;
      }
      SplitStart(Abs(), live, lo, hi, o);
      SplitLoop(o, order, live);
      TakeIndex(Abs(), live, lo, hi, order);
      p := TakeHead(order);
      live := live + {Block(p, order)};
    }

    /** The order loop: the least order from the minimum up whose block size reaches the request. */
    method OrderForSize(size: nat) returns (order: nat)
      ensures order == OrderFor(size, MIN_ORDER)
    {
      order := MIN_ORDER;
      while Pow2(order) < size
        invariant order >= MIN_ORDER && OrderFor(size, order) == OrderFor(size, MIN_ORDER)
        decreases size - Pow2(order)
      {
        order := order + 1;
      }
    }

    method FirstFit(order: nat) returns (o: nat)
      requires freeList.Length == MAX_ORDER && order <= maxOrder < MAX_ORDER
      ensures o == FirstNonEmpty(freeList[..], order, maxOrder)
    {
      o := order;
      while o <= maxOrder && freeList[o] == []
        invariant order <= o <= maxOrder + 1
        invariant FirstNonEmpty(freeList[..], o, maxOrder) == FirstNonEmpty(freeList[..], order, maxOrder)
      {
        o := o + 1;
      }
    }

    /** The split loop: halve the head of list `from` down to `order`. */
    method SplitLoop(from: nat, order: nat, ghost used: set<Block>)
      requires freeList.Length == MAX_ORDER && MIN_ORDER <= order <= from
      requires SplitInv(Abs(), used, lo, hi, from)
      modifies freeList, orderMap
      ensures Abs() == SplitDown(old(Abs()), from, order)
      ensures SplitInv(Abs(), used, lo, hi, order)
    {
      hide SplitOnce, Tiles, MapOk, FreeSet, Tiling, NoDups;
      var o := from;
      while o > order
        invariant order <= o <= from && SplitInv(Abs(), used, lo, hi, o)
        invariant SplitDown(Abs(), o, order) == SplitDown(old(Abs()), from, order)
      {
        SplitFacts(Abs(), used, lo, hi, o);
        SplitHead(o);
        o := o - 1;
      }
    }

    /** One iteration of the split loop. */
    method SplitHead(o: nat)
      requires 0 < o < freeList.Length && freeList[o] != [] && base <= freeList[o][0]
      requires (freeList[o][0] - base) / PAGE < orderMap.Length
      requires (freeList[o][0] + Pow2(o - 1) - base) / PAGE < orderMap.Length
      modifies freeList, orderMap
      ensures Abs() == SplitOnce(old(Abs()), o)
    {
      ghost var s := Abs();
      var block := freeList[o][0];
      freeList[o] := freeList[o][1..];
      var half := block + Pow2(o - 1);
      freeList[o - 1] := [block] + freeList[o - 1];
      freeList[o - 1] := [half] + freeList[o - 1];
      orderMap[(block - base) / PAGE] := o - 1;
      orderMap[(half - base) / PAGE] := o - 1;
      assert freeList[..] == SplitOnce(s, o).lists;
      assert orderMap[..] == SplitOnce(s, o).orderMap;
    }

    method TakeHead(order: nat) returns (b: nat)
      requires order < freeList.Length && freeList[order] != [] && base <= freeList[order][0]
      requires (freeList[order][0] - base) / PAGE < orderMap.Length
      modifies freeList, orderMap
      ensures (Abs(), b) == Take(old(Abs()), order)
    {
      b := freeList[order][0];
      freeList[order] := freeList[order][1..];
      orderMap[(b - base) / PAGE] := order;
    }

    /** `mem_free` of NULL or of a live block. */
    method Free(ptr: nat)
      requires Valid() && (ptr != 0 ==> exists b <- live :: b.addr == ptr)
      modifies this`live, freeList
      ensures Valid()
      ensures ptr == 0 ==> Abs() == old(Abs()) && live == old(live)
      ensures ptr != 0 ==> var s := old(Abs());
              && OrderAt(s.orderMap, s.base, ptr) <= s.maxOrder && Abs() == BuddyModel.Free(s, ptr)
              && Block(ptr, OrderAt(s.orderMap, s.base, ptr)) in old(live)
              && live == old(live) - {Block(ptr, OrderAt(s.orderMap, s.base, ptr))}
    {
      if ptr == 0 {
        return;
      }
      hide Inv, BuddyModel.Free, OrderAt;
      ghost var b := FreeFacts(Abs(), live, lo, hi, ptr);
      FreeAt(ptr);
      live := live - {b};
    }

    method FreeAt(ptr: nat)
      requires freeList.Length == MAX_ORDER && maxOrder < MAX_ORDER && ptr != 0
      requires base <= ptr && (ptr - base) / PAGE < orderMap.Length
      requires orderMap[(ptr - base) / PAGE] <= maxOrder
      modifies freeList
      ensures Abs() == BuddyModel.Free(old(Abs()), ptr)
    {
      var order := orderMap[(ptr - base) / PAGE];
      MergeAndPush(ptr, order);
    }

    /** The coalesce loop and the final push. */
    method MergeAndPush(ptr: nat, order0: nat)
      requires freeList.Length == MAX_ORDER && order0 <= maxOrder < MAX_ORDER
      modifies freeList
      ensures var (lists, b) := Coalesce(old(freeList[..]), Block(ptr, order0), maxOrder);
              freeList[..] == Push(lists, b.order, b.addr)
    {
      ghost var goal := Coalesce(freeList[..], Block(ptr, order0), maxOrder);
      var addr: nat, order: nat, merging := ptr, order0, true;
      while merging && order < maxOrder
        invariant order <= maxOrder
        invariant merging ==> Coalesce(freeList[..], Block(addr, order), maxOrder) == goal
        invariant !merging ==> (freeList[..], Block(addr, order)) == goal
        decreases merging, maxOrder - order
      {
        var buddy := BuddyAddr(addr, order);
        merging := UnlinkBuddy(order, buddy);
        if merging {
          addr := if addr < buddy then addr else buddy;
          order := order + 1;
        }
      }
      freeList[order] := [addr] + freeList[order];
      assert freeList[..] == Push(goal.0, order, addr);
    }

    /** Walk the list of one order for the buddy and unlink it if it is there. */
    method UnlinkBuddy(order: nat, buddy: nat) returns (found: bool)
      requires order < freeList.Length
      modifies freeList
      ensures found <==> buddy in old(freeList[..])[order]
      ensures freeList[..] == if found then Unlink(old(freeList[..]), order, buddy) else old(freeList[..])
    {
      var list := freeList[order];
      var n := 0;
      while n < |list| && list[n] != buddy
        invariant n <= |list| && forall k | 0 <= k < n :: list[k] != buddy
      {
        n := n + 1;
      }
      if n == |list| {
        return false;
      }
      RemoveAt(list, n);
      ghost var lists := freeList[..];
      freeList[order] := list[..n] + list[n + 1..];
      assert freeList[..] == Unlink(lists, order, buddy);
      return true;
    }

    /** `mem_get_stats` */
    method GetStats() returns (total: nat, used: int, free: nat)
      requires Valid()
      ensures Stats(total, used, free) == BuddyModel.GetStats(Abs())
      ensures used == Bytes(live) && total == hi - lo && used + free == total
    {
      StatsFacts(Abs(), live, lo, hi);
      free := 0;
      var i := MIN_ORDER;
      while i <= maxOrder
        invariant MIN_ORDER <= i <= maxOrder + 1 && free == ListBytes(freeList[..], i)
      {
        free := AddList(i, free);
        i := i + 1;
      }
      total := managedTotal;
      used := total - free;
    }

    method AddList(i: nat, before: nat) returns (free: nat)
      requires i < freeList.Length
      ensures free == before + |freeList[i]| * Pow2(i)
    {
      var n := 0;
      free := before;
      while n < |freeList[i]|
        invariant n <= |freeList[i]| && free == before + n * Pow2(i)
      {
        MulNext(n, Pow2(i));
        free := free + Pow2(i);
        n := n + 1;
      }
    }
  }

  lemma AllocKeepsInv(s: State, live: set<Block>, lo: nat, hi: nat, size: nat)
    requires Inv(s, live, lo, hi)
    ensures Inv(BuddyModel.Alloc(s, size).0, LiveAfterAlloc(live, size, BuddyModel.Alloc(s, size).1), lo, hi)
    ensures var p := BuddyModel.Alloc(s, size).1;
            p == 0 <==> OrderFor(size, MIN_ORDER) > s.maxOrder
                        || FirstNonEmpty(s.lists, OrderFor(size, MIN_ORDER), s.maxOrder) > s.maxOrder
  {
    AllocInv(s, live, lo, hi, size);
    var order := OrderFor(size, MIN_ORDER);
    if order <= s.maxOrder {
      var o := FirstNonEmpty(s.lists, order, s.maxOrder);
      if o <= s.maxOrder {
        AllocFound(s, live, lo, hi, order, o);
      }
    }
  }

  lemma ShapeOf(s: State, live: set<Block>, lo: nat, hi: nat)
    requires Inv(s, live, lo, hi)
    ensures |s.lists| == MAX_ORDER && MIN_ORDER <= s.maxOrder < MAX_ORDER
  {
  }

  lemma SplitStart(s: State, live: set<Block>, lo: nat, hi: nat, o: nat)
    requires Inv(s, live, lo, hi) && o <= s.maxOrder && s.lists[o] != []
    ensures SplitInv(s, live, lo, hi, o)
  {
    PopSet(s.lists, o);
  }

  lemma PlaceIndex(l: Layout, cur: nat, i: nat)
    requires LayoutOk(l) && l.base <= cur && cur + Pow2(i) <= l.end && i >= MIN_ORDER
    ensures (cur - l.base) / PAGE < l.pages
  {
    Pow2Monotone(MIN_ORDER, i);
    assert Pow2(12) == PAGE;
  }

  lemma SplitFacts(s: State, live: set<Block>, lo: nat, hi: nat, o: nat)
    requires SplitInv(s, live, lo, hi, o) && o > MIN_ORDER
    ensures 0 < o < |s.lists| && s.lists[o] != []
    ensures var addr := s.lists[o][0];
            && s.base <= addr && (addr - s.base) / PAGE < |s.orderMap|
            && (addr + Pow2(o - 1) - s.base) / PAGE < |s.orderMap|
    ensures SplitInv(SplitOnce(s, o), live, lo, hi, o - 1)
  {
    HalfIndices(s, live, lo, hi, o);
    SplitOnceInv(s, live, lo, hi, o);
  }

  lemma HalfIndices(s: State, live: set<Block>, lo: nat, hi: nat, o: nat)
    requires SplitInv(s, live, lo, hi, o) && o > MIN_ORDER
    ensures var addr := s.lists[o][0];
            && s.base <= addr && (addr - s.base) / PAGE < |s.orderMap|
            && (addr + Pow2(o - 1) - s.base) / PAGE < |s.orderMap|
  {
    PopSet(s.lists, o);
    var b := Head(s, o);
    assert b in FreeSet(s.lists) + live;
    BlockInRegion(FreeSet(s.lists) + live, s.maxOrder, lo, hi, b);
    HalvesOf(b, s.maxOrder);
    PageAligned(Upper(b), s.maxOrder);
  }

  lemma TakeIndex(s: State, live: set<Block>, lo: nat, hi: nat, order: nat)
    requires SplitInv(s, live, lo, hi, order)
    ensures s.base <= s.lists[order][0] && (s.lists[order][0] - s.base) / PAGE < |s.orderMap|
  {
    PopSet(s.lists, order);
    MarkFree(s.base, s.orderMap, FreeSet(s.lists), live, lo, hi, Head(s, order), s.maxOrder);
  }

  lemma FreeFacts(s: State, live: set<Block>, lo: nat, hi: nat, ptr: nat) returns (b: Block)
    requires Inv(s, live, lo, hi) && exists c <- live :: c.addr == ptr
    ensures b in live && b == Block(ptr, OrderAt(s.orderMap, s.base, ptr))
    ensures |s.lists| == MAX_ORDER && b.order <= s.maxOrder < MAX_ORDER
    ensures ptr != 0 && s.base <= ptr && (ptr - s.base) / PAGE < |s.orderMap|
    ensures Inv(BuddyModel.Free(s, ptr), live - {b}, lo, hi)
  {
    b :| b in live && b.addr == ptr;
    FreeInv(s, live, lo, hi, b);
    assert b in FreeSet(s.lists) + live;
    BlockInRegion(FreeSet(s.lists) + live, s.maxOrder, lo, hi, b);
  }

  lemma StatsFacts(s: State, live: set<Block>, lo: nat, hi: nat)
    requires Inv(s, live, lo, hi)
    ensures |s.lists| == MAX_ORDER && MIN_ORDER <= s.maxOrder < MAX_ORDER
    ensures ListBytes(s.lists, MIN_ORDER) == 0
    ensures BuddyModel.GetStats(s) == Stats(hi - lo, Bytes(live), hi - lo - Bytes(live)) && s.managed == hi - lo
  {
    StatsAreExact(s, live, lo, hi);
    forall o | 0 <= o < MIN_ORDER ensures s.lists[o] == [] {
      assert s.lists[o] != [] ==> Block(s.lists[o][0], o) in FreeSet(s.lists);
      FreeIsTiling(FreeSet(s.lists), live, s.maxOrder);
    }
    ListBytesEmpty(s.lists, 0, MIN_ORDER);
  }
}
