/** What every run of the buddy allocator keeps, and what each call does to the free bytes. */
module BuddyProofs {
  import opened Powers
  import opened Sequences
  import opened Tilings
  import opened BuddyModel

  // ----- free lists as sets of blocks -----

  lemma PushSet(lists: seq<seq<nat>>, o: nat, addr: nat)
    requires o < |lists| && NoDups(lists) && Block(addr, o) !in FreeSet(lists)
    ensures NoDups(Push(lists, o, addr))
    ensures FreeSet(Push(lists, o, addr)) == FreeSet(lists) + {Block(addr, o)}
  {
    var l := Push(lists, o, addr);
    forall b | b in FreeSet(lists) + {Block(addr, o)} ensures b in FreeSet(l) {
      if b == Block(addr, o) {
        assert l[o][0] == addr;
      } else {
        var i :| 0 <= i < |lists[b.order]| && lists[b.order][i] == b.addr;
        assert l[b.order][if b.order == o then i + 1 else i] == b.addr;
      }
    }
    forall b | b in FreeSet(l) ensures b in FreeSet(lists) + {Block(addr, o)} {
      var i :| 0 <= i < |l[b.order]| && l[b.order][i] == b.addr;
      assert b.order == o && i > 0 ==> lists[o][i - 1] == b.addr;
    }
    forall i | 0 <= i < |lists[o]| ensures lists[o][i] != addr {
      assert Block(lists[o][i], o) in FreeSet(lists);
    }
  }

  lemma UnlinkSet(lists: seq<seq<nat>>, o: nat, addr: nat)
    requires o < |lists| && NoDups(lists) && addr in lists[o]
    ensures NoDups(Unlink(lists, o, addr))
    ensures Block(addr, o) in FreeSet(lists)
    ensures FreeSet(Unlink(lists, o, addr)) == FreeSet(lists) - {Block(addr, o)}
  {
    RemoveFirstElems(lists[o], addr);
    InFreeSet(lists);
    InFreeSet(Unlink(lists, o, addr));
  }

  lemma InFreeSet(lists: seq<seq<nat>>)
    ensures forall b: Block :: b in FreeSet(lists) <==> b.order < |lists| && b.addr in lists[b.order]
  {
    forall b: Block | b.order < |lists| && b.addr in lists[b.order] ensures b in FreeSet(lists) {
      var i :| 0 <= i < |lists[b.order]| && lists[b.order][i] == b.addr;
    }
  }

  lemma PopSet(lists: seq<seq<nat>>, o: nat)
    requires o < |lists| && NoDups(lists) && lists[o] != []
    ensures NoDups(Pop(lists, o))
    ensures Block(lists[o][0], o) in FreeSet(lists)
    ensures FreeSet(Pop(lists, o)) == FreeSet(lists) - {Block(lists[o][0], o)}
  {
    assert Pop(lists, o) == Unlink(lists, o, lists[o][0]);
    UnlinkSet(lists, o, lists[o][0]);
  }

  lemma {:induction false} ListBytesPop(lists: seq<seq<nat>>, o: nat, k: nat)
    requires o < |lists| && lists[o] != [] && k <= |lists|
    ensures ListBytes(Pop(lists, o), k) + (if o < k then Pow2(o) else 0) == ListBytes(lists, k)
  {
    if k > 0 {
      ListBytesPop(lists, o, k - 1);
      if o == k - 1 {
        assert |lists[o]| * Pow2(o) == (|lists[o]| - 1) * Pow2(o) + Pow2(o);
      }
    }
  }

  lemma {:induction false} ListBytesEmpty(lists: seq<seq<nat>>, j: nat, k: nat)
    requires j <= k <= |lists| && forall o | j <= o < k :: lists[o] == []
    ensures ListBytes(lists, k) == ListBytes(lists, j)
  {
    if j < k {
      ListBytesEmpty(lists, j, k - 1);
    }
  }

  /** The free total of the statistics is the size of the free set. */
  lemma {:induction false} ListBytesIsBytes(lists: seq<seq<nat>>)
    requires NoDups(lists)
    ensures ListBytes(lists, |lists|) == Bytes(FreeSet(lists))
    decreases |FreeSet(lists)|
  {
    if o :| 0 <= o < |lists| && lists[o] != [] {
      PopSet(lists, o);
      ListBytesPop(lists, o, |lists|);
      ListBytesIsBytes(Pop(lists, o));
      BytesRemove(FreeSet(lists), Block(lists[o][0], o));
    } else {
      assert FreeSet(lists) == {};
      ListBytesEmpty(lists, 0, |lists|);
    }
  }

  // ----- the order map -----

  lemma SetOrderAt(orderMap: seq<nat>, base: nat, addr: nat, order: nat, other: nat)
    requires base % PAGE == 0 && addr % PAGE == 0 && other % PAGE == 0 && base <= addr && base <= other
    requires (addr - base) / PAGE < |orderMap|
    ensures OrderAt(SetOrder(orderMap, base, addr, order), base, other)
            == if other == addr then order else OrderAt(orderMap, base, other)
  {
  }

  // ----- steps on the set of blocks -----

  lemma DisjointFromWhole(d: Block, p: Block, maxOrder: nat)
    requires WellFormed(d, maxOrder) && WellFormed(p, maxOrder) && p.order > MIN_ORDER
    requires Disjoint(d, Lower(p)) && Disjoint(d, Upper(p))
    ensures Disjoint(d, p)
  {
    if !Disjoint(d, p) {
      if d.order >= p.order {
        Nested(p, d, maxOrder);
      } else {
        Nested(d, p, maxOrder);
      }
    }
  }

  /** Splitting one block of a tiling gives a tiling, and merging its halves gives it back. */
  lemma SplitTiles(r: set<Block>, b: Block, maxOrder: nat)
    requires Tiling(r + {b}, maxOrder) && b !in r && b.order > MIN_ORDER
    ensures Lower(b) !in r && Upper(b) !in r && Tiling(r + {Lower(b)} + {Upper(b)}, maxOrder)
  {
    assert b in r + {b};
    HalvesOf(b, maxOrder);
    forall c | c in r
      ensures Disjoint(c, Lower(b)) && Disjoint(c, Upper(b)) && c != Lower(b) && c != Upper(b)
    {
      assert c in r + {b} && Disjoint(c, b);
    }
  }

  lemma MergeTiles(r: set<Block>, b: Block, maxOrder: nat)
    requires WellFormed(b, maxOrder) && b.order > MIN_ORDER
    requires Lower(b) !in r && Upper(b) !in r && Tiling(r + {Lower(b)} + {Upper(b)}, maxOrder)
    ensures b !in r && Tiling(r + {b}, maxOrder)
  {
    forall c | c in r ensures Disjoint(c, b) && c != b {
      var t := r + {Lower(b)} + {Upper(b)};
      assert c in t && Lower(b) in t && Upper(b) in t;
      DisjointFromWhole(c, b, maxOrder);
    }
  }

  lemma HalvesSameBytes(r: set<Block>, b: Block, maxOrder: nat)
    requires WellFormed(b, maxOrder) && b.order > MIN_ORDER
    requires b !in r && Lower(b) !in r && Upper(b) !in r
    ensures SameBytes(r + {Lower(b)} + {Upper(b)}, r + {b})
    ensures Bytes(r + {Lower(b)} + {Upper(b)}) == Bytes(r + {b})
  {
    HalvesOf(b, maxOrder);
    forall x ensures Covers(r + {Lower(b)} + {Upper(b)}, x) <==> Covers(r + {b}, x) {
      CoversUnion(r, {b}, x);
      CoversUnion(r, {Lower(b)}, x);
      CoversUnion(r + {Lower(b)}, {Upper(b)}, x);
      CoversOne(b, x);
      CoversOne(Lower(b), x);
      CoversOne(Upper(b), x);
    }
    BytesAdd(r, b);
    BytesAdd(r, Lower(b));
    BytesAdd(r + {Lower(b)}, Upper(b));
  }

  lemma SplitStep(free: set<Block>, live: set<Block>, b: Block, maxOrder: nat)
    requires Tiling(free + live, maxOrder) && free !! live
    requires b in free && b.order > MIN_ORDER && Coalesced(free - {b}, maxOrder)
    ensures Lower(b) !in free - {b} && Upper(b) !in free - {b} + {Lower(b)}
    ensures var free' := free - {b} + {Lower(b)} + {Upper(b)};
            && Tiling(free' + live, maxOrder) && free' !! live
            && SameBytes(free', free) && Bytes(free') == Bytes(free)
            && Coalesced(free' - {Upper(b)}, maxOrder)
  {
    var rest := free - {b};
    var free' := rest + {Lower(b)} + {Upper(b)};
    assert rest + live + {b} == free + live && rest + {b} == free;
    SplitTiles(rest + live, b, maxOrder);
    assert rest + live + {Lower(b)} + {Upper(b)} == free' + live;
    assert b in free + live;
    HalvesSameBytes(rest, b, maxOrder);
    HalvesOf(b, maxOrder);
    assert free' - {Upper(b)} == rest + {Lower(b)};
    forall c | c in rest && c.order < maxOrder ensures Buddy(c) != Lower(b) {
      assert c in free + live;
      BuddyInvolution(c, maxOrder);
    }
  }

  /** `r` holds what neither half of `p` is in; the halves are the pending block and its free buddy. */
  lemma MergeWith(free: set<Block>, live: set<Block>, b: Block, c: Block, p: Block, maxOrder: nat)
    requires Tiling(free + live + {b}, maxOrder) && free !! live && b !in free + live
    requires c in free && WellFormed(p, maxOrder) && p.order > MIN_ORDER
    requires (Lower(p) == b && Upper(p) == c) || (Lower(p) == c && Upper(p) == b)
    ensures p !in free - {c} + live && Tiling(free - {c} + live + {p}, maxOrder)
  {
    var rest := free - {c};
    if Lower(p) == b {
      assert rest + live + {b} + {c} == free + live + {b};
    } else {
      assert rest + live + {c} + {b} == free + live + {b};
    }
    MergeTiles(rest + live, p, maxOrder);
  }

  lemma MergeBytes(free: set<Block>, b: Block, c: Block, p: Block, maxOrder: nat)
    requires b !in free && c in free && WellFormed(p, maxOrder) && p.order > MIN_ORDER && p !in free - {c}
    requires (Lower(p) == b && Upper(p) == c) || (Lower(p) == c && Upper(p) == b)
    ensures SameBytes(free - {c} + {p}, free + {b}) && Bytes(free - {c} + {p}) == Bytes(free + {b})
  {
    var rest := free - {c};
    if Lower(p) == b {
      assert rest + {b} + {c} == free + {b};
    } else {
      assert rest + {c} + {b} == free + {b};
    }
    HalvesSameBytes(rest, p, maxOrder);
  }

  lemma MergeStep(free: set<Block>, live: set<Block>, b: Block, maxOrder: nat)
    requires Tiling(free + live + {b}, maxOrder) && free !! live && b !in free + live
    requires Coalesced(free, maxOrder) && b.order < maxOrder && Buddy(b) in free
    ensures Parent(b) !in free - {Buddy(b)} + live
    ensures var free' := free - {Buddy(b)};
            && Tiling(free' + live + {Parent(b)}, maxOrder) && free' !! live
            && SameBytes(free' + {Parent(b)}, free + {b})
            && Bytes(free' + {Parent(b)}) == Bytes(free + {b})
            && Coalesced(free', maxOrder)
  {
    assert b in free + live + {b};
    ParentOf(b, maxOrder);
    MergeWith(free, live, b, Buddy(b), Parent(b), maxOrder);
    MergeBytes(free, b, Buddy(b), Parent(b), maxOrder);
  }

  // ----- the invariant -----

  /** Free and live blocks tile [lo, hi) exactly, no two free buddies are left unmerged, and the
      order map and totals describe them. */
  ghost predicate Inv(s: State, live: set<Block>, lo: nat, hi: nat) {
    && ListsOk(s, live)
    && Coalesced(FreeSet(s.lists), s.maxOrder)
    && Tiles(FreeSet(s.lists) + live, lo, hi)
    && Bytes(FreeSet(s.lists)) + Bytes(live) == s.managed == hi - lo
    && MapOk(s.base, s.orderMap, live, lo, hi)
  }

  ghost predicate ListsOk(s: State, live: set<Block>) {
    && |s.lists| == MAX_ORDER && MIN_ORDER <= s.maxOrder < MAX_ORDER
    && NoDups(s.lists)
    && FreeSet(s.lists) !! live
    && Tiling(FreeSet(s.lists) + live, s.maxOrder)
  }

  ghost predicate Tiles(t: set<Block>, lo: nat, hi: nat) {
    lo <= hi && forall x :: Covers(t, x) <==> lo <= x < hi
  }

  ghost predicate MapOk(base: nat, orderMap: seq<nat>, live: set<Block>, lo: nat, hi: nat) {
    && base % PAGE == 0
    && base <= lo && (lo < hi ==> 0 < lo && hi <= base + PAGE * |orderMap|)
    && forall b <- live :: OrderAt(orderMap, base, b.addr) == b.order
  }

  lemma BlockInRegion(t: set<Block>, maxOrder: nat, lo: nat, hi: nat, b: Block)
    requires Tiling(t, maxOrder) && Tiles(t, lo, hi) && b in t
    ensures lo <= b.addr && b.addr + Size(b) <= hi
    ensures b.addr % PAGE == 0 && Size(b) >= PAGE
  {
    assert Contains(b, b.addr) && Contains(b, b.addr + Size(b) - 1);
    assert Covers(t, b.addr) && Covers(t, b.addr + Size(b) - 1);
    PageAligned(b, maxOrder);
  }

  lemma PageAligned(b: Block, maxOrder: nat)
    requires WellFormed(b, maxOrder)
    ensures b.addr % PAGE == 0 && Size(b) >= PAGE
  {
    AlignedDown(b.addr, MIN_ORDER, b.order);
    Pow2Monotone(MIN_ORDER, b.order);
    assert Pow2(12) == 4096;
  }

  ghost function Head(s: State, o: nat): Block
    requires o < |s.lists| && s.lists[o] != []
  {
    Block(s.lists[o][0], o)
  }

  /** The invariant inside the split loop: everything but the block about to be taken is coalesced. */
  ghost predicate SplitInv(s: State, live: set<Block>, lo: nat, hi: nat, o: nat) {
    && ListsOk(s, live) && o <= s.maxOrder && s.lists[o] != []
    && Coalesced(FreeSet(s.lists) - {Head(s, o)}, s.maxOrder)
    && Tiles(FreeSet(s.lists) + live, lo, hi)
    && Bytes(FreeSet(s.lists)) + Bytes(live) == s.managed == hi - lo
    && MapOk(s.base, s.orderMap, live, lo, hi)
  }

  lemma TilesSame(t: set<Block>, u: set<Block>, v: set<Block>, lo: nat, hi: nat)
    requires SameBytes(t, u) && Tiles(u + v, lo, hi)
    ensures Tiles(t + v, lo, hi)
  {
    forall x ensures Covers(t + v, x) <==> lo <= x < hi {
      CoversUnion(t, v, x);
      CoversUnion(u, v, x);
    }
  }

  /** Writing the order of a free block leaves the recorded order of every live block alone. */
  lemma MarkKeepsMap(base: nat, orderMap: seq<nat>, live: set<Block>, lo: nat, hi: nat, b: Block, maxOrder: nat)
    requires MapOk(base, orderMap, live, lo, hi)
    requires Tiling(live + {b}, maxOrder) && b !in live
    requires forall c <- live + {b} :: lo <= c.addr && c.addr + Size(c) <= hi
    ensures MapOk(base, SetOrder(orderMap, base, b.addr, b.order), live, lo, hi)
    ensures OrderAt(SetOrder(orderMap, base, b.addr, b.order), base, b.addr) == b.order
  {
    assert b in live + {b};
    PageAligned(b, maxOrder);
    SetOrderAt(orderMap, base, b.addr, b.order, b.addr);
    forall c | c in live
      ensures OrderAt(SetOrder(orderMap, base, b.addr, b.order), base, c.addr) == c.order
    {
      assert c in live + {b} && Disjoint(c, b);
      PageAligned(c, maxOrder);
      SetOrderAt(orderMap, base, b.addr, b.order, c.addr);
    }
  }

  lemma RegionOf(t: set<Block>, maxOrder: nat, lo: nat, hi: nat)
    requires Tiling(t, maxOrder) && Tiles(t, lo, hi)
    ensures forall c <- t :: lo <= c.addr && c.addr + Size(c) <= hi
  {
    forall c | c in t ensures lo <= c.addr && c.addr + Size(c) <= hi {
      BlockInRegion(t, maxOrder, lo, hi, c);
    }
  }

  lemma MarkFree(base: nat, orderMap: seq<nat>, free: set<Block>, live: set<Block>, lo: nat, hi: nat, b: Block, maxOrder: nat)
    requires MapOk(base, orderMap, live, lo, hi) && free !! live && b in free
    requires Tiling(free + live, maxOrder) && Tiles(free + live, lo, hi)
    ensures MapOk(base, SetOrder(orderMap, base, b.addr, b.order), live, lo, hi)
    ensures OrderAt(SetOrder(orderMap, base, b.addr, b.order), base, b.addr) == b.order
    ensures base <= b.addr && (b.addr - base) / PAGE < |orderMap|
  {
    RegionOf(free + live, maxOrder, lo, hi);
    assert live + {b} <= free + live;
    assert b in free + live;
    PageAligned(b, maxOrder);
    MarkKeepsMap(base, orderMap, live, lo, hi, b, maxOrder);
  }

  lemma SplitFreeSet(s: State, o: nat)
    requires 0 < o < |s.lists| && s.lists[o] != [] && NoDups(s.lists)
    requires Lower(Head(s, o)) !in FreeSet(s.lists) - {Head(s, o)}
    requires Upper(Head(s, o)) !in FreeSet(s.lists) - {Head(s, o)} + {Lower(Head(s, o))}
    ensures NoDups(SplitOnce(s, o).lists)
    ensures var b := Head(s, o);
            FreeSet(SplitOnce(s, o).lists) == FreeSet(s.lists) - {b} + {Lower(b)} + {Upper(b)}
  {
    var b := Head(s, o);
    PopSet(s.lists, o);
    PushSet(Pop(s.lists, o), o - 1, b.addr);
    PushSet(Push(Pop(s.lists, o), o - 1, b.addr), o - 1, Upper(b).addr);
  }

  lemma SplitLists(s: State, live: set<Block>, o: nat)
    requires ListsOk(s, live) && MIN_ORDER < o <= s.maxOrder && s.lists[o] != []
    requires Coalesced(FreeSet(s.lists) - {Head(s, o)}, s.maxOrder)
    ensures var s', b := SplitOnce(s, o), Head(s, o);
            && ListsOk(s', live) && Head(s', o - 1) == Upper(b)
            && Lower(b) in FreeSet(s'.lists) && Upper(b) in FreeSet(s'.lists)
            && SameBytes(FreeSet(s'.lists), FreeSet(s.lists)) && Bytes(FreeSet(s'.lists)) == Bytes(FreeSet(s.lists))
            && Coalesced(FreeSet(s'.lists) - {Upper(b)}, s.maxOrder)
  {
    PopSet(s.lists, o);
    SplitStep(FreeSet(s.lists), live, Head(s, o), s.maxOrder);
    SplitFreeSet(s, o);
  }

  lemma SplitMap(s: State, free: set<Block>, live: set<Block>, lo: nat, hi: nat, b: Block)
    requires b.order > 0 && MapOk(s.base, s.orderMap, live, lo, hi)
    requires free !! live && Tiling(free + live, s.maxOrder) && Tiles(free + live, lo, hi)
    requires Lower(b) in free && Upper(b) in free
    ensures MapOk(s.base, SetOrder(SetOrder(s.orderMap, s.base, b.addr, b.order - 1), s.base, Upper(b).addr, b.order - 1),
                  live, lo, hi)
  {
    MarkFree(s.base, s.orderMap, free, live, lo, hi, Lower(b), s.maxOrder);
    MarkFree(s.base, SetOrder(s.orderMap, s.base, b.addr, b.order - 1), free, live, lo, hi, Upper(b), s.maxOrder);
  }

  lemma SplitOnceInv(s: State, live: set<Block>, lo: nat, hi: nat, o: nat)
    requires SplitInv(s, live, lo, hi, o) && o > MIN_ORDER
    ensures SplitInv(SplitOnce(s, o), live, lo, hi, o - 1)
    ensures SameBytes(FreeSet(SplitOnce(s, o).lists), FreeSet(s.lists))
  {
    SplitLists(s, live, o);
    SplitTilesAndMap(s, FreeSet(SplitOnce(s, o).lists), live, lo, hi, Head(s, o));
  }

  lemma SplitTilesAndMap(s: State, free: set<Block>, live: set<Block>, lo: nat, hi: nat, b: Block)
    requires b.order > 0 && MapOk(s.base, s.orderMap, live, lo, hi)
    requires free !! live && Tiling(free + live, s.maxOrder)
    requires Tiles(FreeSet(s.lists) + live, lo, hi) && SameBytes(free, FreeSet(s.lists))
    requires Lower(b) in free && Upper(b) in free
    ensures Tiles(free + live, lo, hi)
    ensures MapOk(s.base, SetOrder(SetOrder(s.orderMap, s.base, b.addr, b.order - 1), s.base, Upper(b).addr, b.order - 1),
                  live, lo, hi)
  {
    TilesSame(free, FreeSet(s.lists), live, lo, hi);
    SplitMap(s, free, live, lo, hi, b);
  }

  lemma {:induction false} SplitDownInv(s: State, live: set<Block>, lo: nat, hi: nat, o: nat, order: nat)
    requires SplitInv(s, live, lo, hi, o) && MIN_ORDER <= order <= o
    ensures SplitInv(SplitDown(s, o, order), live, lo, hi, order)
    ensures SameBytes(FreeSet(SplitDown(s, o, order).lists), FreeSet(s.lists))
    decreases o
  {
    if o > order {
      SplitOnceInv(s, live, lo, hi, o);
      SplitDownInv(SplitOnce(s, o), live, lo, hi, o - 1, order);
    }
  }

  // ----- mem_alloc -----

  /** The blocks live after an allocation that returned `p`. */
  ghost function LiveAfterAlloc(live: set<Block>, size: nat, p: nat): set<Block> {
    if p == 0 then live else live + {Block(p, OrderFor(size, MIN_ORDER))}
  }

  lemma TakeInv(s: State, live: set<Block>, lo: nat, hi: nat, order: nat)
    requires SplitInv(s, live, lo, hi, order)
    ensures Inv(Take(s, order).0, live + {Head(s, order)}, lo, hi)
    ensures Head(s, order) in FreeSet(s.lists)
    ensures FreeSet(Take(s, order).0.lists) == FreeSet(s.lists) - {Head(s, order)}
    ensures lo <= Head(s, order).addr < hi
  {
    var b := Head(s, order);
    var free := FreeSet(s.lists);
    PopSet(s.lists, order);
    MarkFree(s.base, s.orderMap, free, live, lo, hi, b, s.maxOrder);
    assert (free - {b}) + (live + {b}) == free + live;
    BytesRemove(free, b);
    BytesAdd(live, b);
    RegionOf(free + live, s.maxOrder, lo, hi);
    assert b in free + live;
    PageAligned(b, s.maxOrder);
  }

  lemma AllocFound(s: State, live: set<Block>, lo: nat, hi: nat, order: nat, o: nat)
    requires Inv(s, live, lo, hi) && MIN_ORDER <= order <= o <= s.maxOrder && s.lists[o] != []
    ensures var (s', p) := Take(SplitDown(s, o, order), order);
            && p != 0 && Inv(s', live + {Block(p, order)}, lo, hi)
            && Block(p, order) !in live
            && WhollyCovered(Block(p, order), FreeSet(s.lists))
            && forall x :: Covers(FreeSet(s'.lists), x) <==> Covers(FreeSet(s.lists), x) && !Contains(Block(p, order), x)
  {
    PopSet(s.lists, o);
    SplitDownInv(s, live, lo, hi, o, order);
    var t := SplitDown(s, o, order);
    TakeInv(t, live, lo, hi, order);
    FreeIsTiling(FreeSet(t.lists), live, s.maxOrder);
    TakenBytes(FreeSet(t.lists), FreeSet(s.lists), Head(t, order), s.maxOrder);
  }

  lemma TakenBytes(t: set<Block>, u: set<Block>, b: Block, maxOrder: nat)
    requires Tiling(t, maxOrder) && b in t && SameBytes(t, u)
    ensures WhollyCovered(b, u)
    ensures forall x :: Covers(t - {b}, x) <==> Covers(u, x) && !Contains(b, x)
  {
    forall x ensures Covers(t - {b}, x) <==> Covers(u, x) && !Contains(b, x) {
      assert t == t - {b} + {b};
      CoversUnion(t - {b}, {b}, x);
      CoversOne(b, x);
      if Covers(t - {b}, x) {
        var c :| c in t - {b} && Contains(c, x);
        assert Disjoint(b, c);
      }
    }
    forall x | Contains(b, x) ensures Covers(u, x) {
      assert Covers(t, x);
    }
  }

  /** Every allocation keeps the invariant, hands out bytes that were all free, and takes exactly those. */
  lemma AllocInv(s: State, live: set<Block>, lo: nat, hi: nat, size: nat)
    requires Inv(s, live, lo, hi)
    ensures var (s', p) := Alloc(s, size);
            && Inv(s', LiveAfterAlloc(live, size, p), lo, hi)
            && (p == 0 ==> s' == s)
            && (p != 0 ==>
                  var b := Block(p, OrderFor(size, MIN_ORDER));
                  && Size(b) >= size && b !in live && lo <= p && p + Size(b) <= hi
                  && WhollyCovered(b, FreeSet(s.lists))
                  && forall x :: Covers(FreeSet(s'.lists), x) <==> Covers(FreeSet(s.lists), x) && !Contains(b, x))
  {
    var order := OrderFor(size, MIN_ORDER);
    if order <= s.maxOrder {
      var o := FirstNonEmpty(s.lists, order, s.maxOrder);
      if o <= s.maxOrder {
        AllocFound(s, live, lo, hi, order, o);
        var (s', p) := Alloc(s, size);
        var b := Block(p, order);
        RegionOf(FreeSet(s'.lists) + (live + {b}), s.maxOrder, lo, hi);
        assert b in FreeSet(s'.lists) + (live + {b});
      }
    }
  }

  /** `mem_alloc` fails exactly when no aligned, wholly free range of the rounded-up size exists. */
  lemma AllocFailsIffNoRange(s: State, live: set<Block>, lo: nat, hi: nat, size: nat)
    requires Inv(s, live, lo, hi)
    ensures Alloc(s, size).1 == 0 <==>
            !exists r: Block :: r.order == OrderFor(size, MIN_ORDER) && WellFormed(r, s.maxOrder)
                                && WhollyCovered(r, FreeSet(s.lists))
  {
    var order := OrderFor(size, MIN_ORDER);
    AllocInv(s, live, lo, hi, size);
    var (s', p) := Alloc(s, size);
    if p != 0 {
      var b := Block(p, order);
      assert b in FreeSet(s'.lists) + LiveAfterAlloc(live, size, p);
      assert WellFormed(b, s'.maxOrder);
    } else if r: Block :| r.order == order && WellFormed(r, s.maxOrder) && WhollyCovered(r, FreeSet(s.lists)) {
      var free := FreeSet(s.lists);
      FreeIsTiling(free, live, s.maxOrder);
      var b := RangeInOneBlock(free, s.maxOrder, r);
      assert b.order >= order by {
        if b.order < order { Pow2Monotone(b.order, order); }
      }
      InFreeSet(s.lists);
      assert free + live == live + free;
      assert b in free + live;
      var o := FirstNonEmpty(s.lists, order, s.maxOrder);
      AllocFound(s, live, lo, hi, order, o);
      assert false;
    }
  }

  lemma FreeIsTiling(free: set<Block>, live: set<Block>, maxOrder: nat)
    requires Tiling(free + live, maxOrder)
    ensures Tiling(free, maxOrder)
  {
    forall b | b in free ensures WellFormed(b, maxOrder) {
      assert b in free + live;
    }
    forall b, c | b in free && c in free && b != c ensures Disjoint(b, c) {
      assert b in free + live && c in free + live;
    }
  }

  // ----- mem_free -----

  /** The coalesce loop: the pending block swallows free buddies and covers the same bytes as before. */
  lemma {:induction false} CoalesceInv(lists: seq<seq<nat>>, live: set<Block>, b: Block, maxOrder: nat)
    requires b.order <= maxOrder < |lists| && NoDups(lists)
    requires b !in FreeSet(lists) + live && FreeSet(lists) !! live
    requires Tiling(FreeSet(lists) + live + {b}, maxOrder) && Coalesced(FreeSet(lists), maxOrder)
    ensures var (lists', b') := Coalesce(lists, b, maxOrder);
            && NoDups(lists') && b' !in FreeSet(lists') + live && FreeSet(lists') !! live
            && Tiling(FreeSet(lists') + live + {b'}, maxOrder)
            && Coalesced(FreeSet(lists'), maxOrder)
            && (b'.order < maxOrder ==> Buddy(b') !in FreeSet(lists'))
            && SameBytes(FreeSet(lists') + {b'}, FreeSet(lists) + {b})
            && Bytes(FreeSet(lists') + {b'}) == Bytes(FreeSet(lists) + {b})
    decreases maxOrder - b.order
  {
    InFreeSet(lists);
    if b.order < maxOrder && Buddy(b).addr in lists[b.order] {
      UnlinkSet(lists, b.order, Buddy(b).addr);
      MergeStep(FreeSet(lists), live, b, maxOrder);
      CoalesceInv(Unlink(lists, b.order, Buddy(b).addr), live, Parent(b), maxOrder);
    }
  }

  lemma PendingCoalesced(free: set<Block>, b: Block, maxOrder: nat)
    requires Tiling(free + {b}, maxOrder) && Coalesced(free, maxOrder)
    requires b.order < maxOrder ==> Buddy(b) !in free
    ensures Coalesced(free + {b}, maxOrder)
  {
    forall c | c in free + {b} && c.order < maxOrder ensures Buddy(c) !in free + {b} {
      BuddyInvolution(c, maxOrder);
      ParentOf(c, maxOrder);
    }
  }

  /** Freeing a live block keeps the invariant and gives back exactly that block's bytes. */
  lemma FreeInv(s: State, live: set<Block>, lo: nat, hi: nat, b: Block)
    requires Inv(s, live, lo, hi) && b in live
    ensures b.addr != 0 && OrderAt(s.orderMap, s.base, b.addr) == b.order <= s.maxOrder
    ensures Inv(Free(s, b.addr), live - {b}, lo, hi)
    ensures forall x :: Covers(FreeSet(Free(s, b.addr).lists), x) <==> Covers(FreeSet(s.lists), x) || Contains(b, x)
  {
    var free, rest := FreeSet(s.lists), live - {b};
    assert b in free + live;
    RegionOf(free + live, s.maxOrder, lo, hi);
    assert free + rest + {b} == free + live;
    FreeIsTiling(free, live, s.maxOrder);
    CoalesceInv(s.lists, rest, b, s.maxOrder);
    var (lists', b') := Coalesce(s.lists, b, s.maxOrder);
    var free' := FreeSet(lists') + {b'};
    PushSet(lists', b'.order, b'.addr);
    assert FreeSet(lists') + rest + {b'} == free' + rest;
    FreeIsTiling(free', rest, s.maxOrder);
    PendingCoalesced(FreeSet(lists'), b', s.maxOrder);
    BytesAdd(free, b);
    BytesRemove(live, b);
    assert (free + {b}) + rest == free + live;
    TilesSame(free', free + {b}, rest, lo, hi);
    forall x ensures Covers(free', x) <==> Covers(free, x) || Contains(b, x) {
      CoversUnion(free, {b}, x);
      CoversOne(b, x);
    }
  }

  // ----- consequences over states and runs -----

  /** The free set is a function of the live set: it does not matter how the state was reached. */
  lemma FreeSetDeterminedByLive(s: State, s': State, live: set<Block>, lo: nat, hi: nat)
    requires Inv(s, live, lo, hi) && Inv(s', live, lo, hi) && s.maxOrder == s'.maxOrder
    ensures FreeSet(s.lists) == FreeSet(s'.lists)
  {
    var t, u := FreeSet(s.lists), FreeSet(s'.lists);
    forall x ensures Covers(t, x) <==> Covers(u, x) {
      SideOf(t, live, s.maxOrder, x);
      SideOf(u, live, s.maxOrder, x);
      CoversUnion(t, live, x);
      CoversUnion(u, live, x);
    }
    FreeIsTiling(t, live, s.maxOrder);
    FreeIsTiling(u, live, s.maxOrder);
    CoalescedTilingUnique(t, u, s.maxOrder);
  }

  lemma SideOf(t: set<Block>, live: set<Block>, maxOrder: nat, x: int)
    requires Tiling(t + live, maxOrder) && t !! live
    ensures !(Covers(t, x) && Covers(live, x))
  {
    forall b, c | b in t && c in live ensures Disjoint(b, c) {
      assert b in t + live && c in t + live;
    }
  }

  /** Freeing what was just allocated restores the set of free blocks. */
  lemma AllocThenFree(s: State, live: set<Block>, lo: nat, hi: nat, size: nat)
    requires Inv(s, live, lo, hi) && Alloc(s, size).1 != 0
    ensures var (s', p) := Alloc(s, size);
            && OrderAt(s'.orderMap, s'.base, p) <= s'.maxOrder
            && FreeSet(Free(s', p).lists) == FreeSet(s.lists)
  {
    var (s', p) := Alloc(s, size);
    AllocInv(s, live, lo, hi, size);
    var b := Block(p, OrderFor(size, MIN_ORDER));
    FreeInv(s', live + {b}, lo, hi, b);
    assert live + {b} - {b} == live;
    FreeSetDeterminedByLive(s, Free(s', p), live, lo, hi);
  }

  /** The statistics: what is in use is the total size of the live blocks. */
  lemma StatsAreExact(s: State, live: set<Block>, lo: nat, hi: nat)
    requires Inv(s, live, lo, hi)
    ensures GetStats(s) == Stats(hi - lo, Bytes(live), Bytes(FreeSet(s.lists)))
  {
    forall o | s.maxOrder < o < |s.lists| ensures s.lists[o] == [] {
      assert s.lists[o] != [] ==> Block(s.lists[o][0], o) in FreeSet(s.lists);
      FreeIsTiling(FreeSet(s.lists), live, s.maxOrder);
    }
    ListBytesEmpty(s.lists, s.maxOrder + 1, |s.lists|);
    ListBytesIsBytes(s.lists);
  }

  datatype Op = AllocOp(size: nat) | FreeOp(ptr: nat)

  /** The caller's side of the contract: only live pointers, or NULL, are freed. */
  ghost predicate Legal(live: set<Block>, op: Op) {
    op.FreeOp? && op.ptr != 0 ==> exists b <- live :: b.addr == op.ptr
  }

  ghost predicate Step(s: State, live: set<Block>, op: Op, s': State, live': set<Block>)
    requires s.maxOrder < |s.lists|
  {
    && Legal(live, op)
    && match op
       case AllocOp(size) => s' == Alloc(s, size).0 && live' == LiveAfterAlloc(live, size, Alloc(s, size).1)
       case FreeOp(ptr) =>
         if ptr == 0 then s' == s && live' == live else
           exists b <- live :: b.addr == ptr && OrderAt(s.orderMap, s.base, ptr) <= s.maxOrder
                               && s' == Free(s, ptr) && live' == live - {b}
  }

  lemma StepInv(s: State, live: set<Block>, op: Op, s': State, live': set<Block>, lo: nat, hi: nat)
    requires Inv(s, live, lo, hi) && Step(s, live, op, s', live')
    ensures Inv(s', live', lo, hi) && s'.maxOrder == s.maxOrder
  {
    match op
    case AllocOp(size) => AllocInv(s, live, lo, hi, size);
    case FreeOp(ptr) =>
      if ptr != 0 {
        var b :| b in live && b.addr == ptr && OrderAt(s.orderMap, s.base, ptr) <= s.maxOrder
                 && s' == Free(s, ptr) && live' == live - {b};
        FreeInv(s, live, lo, hi, b);
      }
  }

  /** A run: states and live sets linked by legal operations. */
  ghost predicate Run(states: seq<State>, lives: seq<set<Block>>, ops: seq<Op>) {
    && |states| == |lives| == |ops| + 1
    && forall i | 0 <= i < |ops| ::
         states[i].maxOrder < |states[i].lists| && Step(states[i], lives[i], ops[i], states[i + 1], lives[i + 1])
  }

  lemma {:induction false} RunInv(states: seq<State>, lives: seq<set<Block>>, ops: seq<Op>, lo: nat, hi: nat, n: nat)
    requires Run(states, lives, ops) && n < |states| && Inv(states[0], lives[0], lo, hi)
    ensures Inv(states[n], lives[n], lo, hi) && states[n].maxOrder == states[0].maxOrder
  {
    if n > 0 {
      RunInv(states, lives, ops, lo, hi, n - 1);
      StepInv(states[n - 1], lives[n - 1], ops[n - 1], states[n], lives[n], lo, hi);
    }
  }

  // ----- mem_init -----

  /** While filling: the blocks placed so far tile [lo, cur) and none is smaller than order `i`. */
  ghost predicate FillInv(s: State, lo: nat, cur: nat, i: nat) {
    && ListsOk(s, {}) && i <= s.maxOrder
    && Coalesced(FreeSet(s.lists), s.maxOrder)
    && Tiles(FreeSet(s.lists), lo, cur)
    && Bytes(FreeSet(s.lists)) == s.managed == cur - lo
    && forall k | 0 <= k < i :: s.lists[k] == []
  }

  /** Below the top order at most one more block fits, and the list it goes to is still empty. */
  ghost predicate Room(s: State, cur: nat, end: nat, i: nat)
    requires i < |s.lists|
  {
    i == s.maxOrder || end < cur + Pow2(i) || (s.lists[i] == [] && end < cur + 2 * Pow2(i))
  }

  lemma AppendTile(free: set<Block>, b: Block, lo: nat, maxOrder: nat)
    requires Tiling(free, maxOrder) && Tiles(free, lo, b.addr) && WellFormed(b, maxOrder)
    requires Coalesced(free, maxOrder) && (b.order == maxOrder || forall c <- free :: c.order != b.order)
    ensures b !in free && Tiling(free + {b}, maxOrder) && Tiles(free + {b}, lo, b.addr + Size(b))
    ensures Coalesced(free + {b}, maxOrder)
  {
    RegionOf(free, maxOrder, lo, b.addr);
    forall x ensures Covers(free + {b}, x) <==> lo <= x < b.addr + Size(b) {
      CoversUnion(free, {b}, x);
      CoversOne(b, x);
    }
    if b.order < maxOrder {
      ParentOf(b, maxOrder);
    }
  }

  lemma PlaceBlock(s: State, lo: nat, cur: nat, i: nat)
    requires FillInv(s, lo, cur, i) && MIN_ORDER <= i && Aligned(cur, i)
    requires i == s.maxOrder || s.lists[i] == []
    ensures FillInv(Place(s, cur, i), lo, cur + Pow2(i), i)
  {
    var free, b := FreeSet(s.lists), Block(cur, i);
    assert free + {} == free && (free + {b}) + {} == free + {b};
    InFreeSet(s.lists);
    AppendTile(free, b, lo, s.maxOrder);
    PushSet(s.lists, i, cur);
    BytesAdd(free, b);
  }

  lemma {:induction false} FillOrderEnd(s: State, cur: nat, end: nat, i: nat)
    requires i < |s.lists| && Aligned(cur, i)
    ensures var (s', cur') := FillOrder(s, cur, end, i);
            && Aligned(cur', i) && end < cur' + Pow2(i)
            && cur <= cur' && (cur <= end ==> cur' <= end) && (end < cur ==> cur' == cur)
            && s'.base == s.base && |s'.orderMap| == |s.orderMap| && s'.maxOrder == s.maxOrder
    decreases end - cur
  {
    if cur + Pow2(i) <= end {
      AlignedNext(cur, i);
      FillOrderEnd(Place(s, cur, i), cur + Pow2(i), end, i);
    }
  }

  lemma {:induction false} FillOrderInv(s: State, lo: nat, cur: nat, end: nat, i: nat)
    requires FillInv(s, lo, cur, i) && MIN_ORDER <= i && Aligned(cur, i) && Room(s, cur, end, i)
    ensures FillInv(FillOrder(s, cur, end, i).0, lo, FillOrder(s, cur, end, i).1, i)
    decreases end - cur
  {
    if cur + Pow2(i) <= end {
      assert Room(Place(s, cur, i), cur + Pow2(i), end, i);
      hide FillInv, Pow2, Place, Room;
      PlaceBlock(s, lo, cur, i);
      AlignedNext(cur, i);
      FillOrderInv(Place(s, cur, i), lo, cur + Pow2(i), end, i);
    }
  }

  lemma {:induction false} FillRest(s: State, lo: nat, cur: nat, end: nat, i: nat)
    requires FillInv(s, lo, cur, i) && MIN_ORDER - 1 <= i && Aligned(cur, i + 1)
    requires i < s.maxOrder ==> s.lists[i] == [] && end < cur + Pow2(i + 1)
    ensures var (s', cur') := Fill(s, cur, end, i);
            && FillInv(s', lo, cur', 0) && cur <= cur' && (cur <= end ==> cur' <= end) && (end < cur ==> cur' == cur)
            && end < cur' + PAGE && Aligned(cur', MIN_ORDER)
            && s'.base == s.base && |s'.orderMap| == |s.orderMap| && s'.maxOrder == s.maxOrder
    decreases i
  {
    if i >= MIN_ORDER {
      AlignedDown(cur, i, i + 1);
      AlignUpIsLeast(cur, Pow2(i));
      FillOrderEnd(s, cur, end, i);
      FillOrderInv(s, lo, cur, end, i);
      var (s', cur') := FillOrder(s, cur, end, i);
      FillRest(s', lo, cur', end, i - 1);
    }
  }

  // ----- the layout computed by mem_init -----

  lemma WrapSub(x: int, y: int)
    ensures Wrap64(x - Wrap64(y)) == Wrap64(x - y)
  {
  }

  lemma TotalOf(start: nat, length: nat)
    requires start + length + PAGE <= TWO64
    ensures start / PAGE * PAGE == start - start % PAGE
    ensures Wrap64(length - Wrap64(start / PAGE * PAGE - start)) == length + start % PAGE
  {
    WrapSub(length, start / PAGE * PAGE - start);
  }

  lemma EndOf(total: nat, start: nat, base: nat)
    requires base <= total + start && total + start - base < TWO64
    ensures base + Wrap64(total - Wrap64(base - start)) == total + start
  {
    WrapSub(total, base - start);
  }

  /** In 64-bit arithmetic `mem_init` treats a region that starts `d` bytes into a page as if it also
      ran from the page's start, and then places its end `d` bytes too far. */
  lemma LayoutArithmetic(start: nat, length: nat)
    requires start + length + 2 * PAGE <= TWO64
    ensures var l, d := LayoutOf(start, length), start % PAGE;
            && l.mapBase == start - d && l.pages == (length + d) / PAGE
            && l.base == l.mapBase + AlignUp(l.pages, PAGE) && l.end == start + length + d
  {
    TotalOf(start, length);
    var l := LayoutOf(start, length);
    AlignUpIsLeast(l.pages, PAGE);
    EndOf(length + start % PAGE, start, l.base);
  }

  /** The layout stays inside the region given to `mem_init` exactly when the region is page aligned. */
  lemma LayoutInsideRegionIff(start: nat, length: nat)
    requires start + length + 2 * PAGE <= TWO64
    ensures var l := LayoutOf(start, length);
            (start <= l.mapBase && l.end <= start + length) <==> start % PAGE == 0
  {
    LayoutArithmetic(start, length);
  }

  function RegionLow(start: nat, length: nat): nat {
    var l := LayoutOf(start, length);
    AlignUp(l.base, Pow2(l.maxOrder))
  }

  /** The order map has an entry for every block that `mem_init` places: not so if a region that covers
      no whole page starts so far into one that its shifted end does. */
  predicate MapFits(start: nat, length: nat) {
    length + start % PAGE < PAGE ==> length + 2 * (start % PAGE) < PAGE
  }

  lemma LayoutBounds(length: nat, d: nat, pages: nat, meta: nat)
    requires d < PAGE && pages == (length + d) / PAGE
    requires pages <= meta < pages + PAGE && meta % PAGE == 0
    ensures pages > 0 ==> PAGE <= meta && length + 2 * d < meta + PAGE * pages + PAGE
    ensures pages == 0 <==> length + d < PAGE
    ensures pages == 0 ==> meta == 0
  {
  }

  lemma LayoutFacts(start: nat, length: nat)
    requires start + length + 2 * PAGE <= TWO64
    ensures var l := LayoutOf(start, length);
            && (LayoutOk(l) <==> MapFits(start, length))
            && MIN_ORDER <= l.maxOrder < MAX_ORDER && l.base % PAGE == 0
            && l.mapBase <= l.base <= RegionLow(start, length) && l.end == start + length + start % PAGE
  {
    hide LayoutOf, AlignUp, Pow2;
    var l := LayoutOf(start, length);
    LayoutArithmetic(start, length);
    OrderInRange(start, length);
    AlignUpIsLeast(l.pages, PAGE);
    AlignUpIsLeast(l.base, Pow2(l.maxOrder));
    LayoutBounds(length, start % PAGE, l.pages, l.base - l.mapBase);
  }

  lemma OrderInRange(start: nat, length: nat)
    ensures MIN_ORDER <= LayoutOf(start, length).maxOrder < MAX_ORDER
    ensures LayoutOf(start, length).pages == 0 ==> LayoutOf(start, length).maxOrder == MIN_ORDER
  {
    assert Pow2(13) == 2 * PAGE;
    hide AlignUp;
  }

  /** No 64-bit wrap-around in rounding an address of the region up to any block size. */
  ghost predicate BelowTop(start: nat, length: nat) {
    start + length + 0x1_0000_0000 <= TWO64
  }

  /** `mem_init` establishes the invariant with nothing live, whatever the region's address, exactly if
      the order map fits. What it manages starts only where the top block size first divides the address,
      and takes in every whole page from there to the layout's end. */
  lemma InitInv(start: nat, length: nat)
    requires BelowTop(start, length)
    ensures var s, l, lo := Init(start, length), LayoutOf(start, length), RegionLow(start, length);
            && (Inv(s, {}, lo, lo + s.managed) <==> MapFits(start, length))
            && l.mapBase <= s.base == l.base <= lo
            && s.managed == if l.end < lo then 0 else (l.end - lo) / PAGE * PAGE
  {
    hide LayoutOf, AlignUp, Fill, Inv, LayoutOk, MapFits;
    LayoutFacts(start, length);
    FillFromBlank(LayoutOf(start, length), RegionLow(start, length));
    if !MapFits(start, length) {
      MapTooShort(start, length);
    }
  }

  /** The one page placed has no entry. */
  lemma MapTooShort(start: nat, length: nat)
    requires BelowTop(start, length) && !MapFits(start, length)
    ensures var s, l, lo := Init(start, length), LayoutOf(start, length), RegionLow(start, length);
            !Inv(s, {}, lo, lo + s.managed)
  {
    hide LayoutOf, Fill, AlignUp;
    var l, lo := LayoutOf(start, length), RegionLow(start, length);
    LayoutFacts(start, length);
    LayoutArithmetic(start, length);
    OrderInRange(start, length);
    AlignUpIsLeast(l.pages, PAGE);
    LayoutBounds(length, start % PAGE, l.pages, l.base - l.mapBase);
    assert Pow2(12) == PAGE;
    AlignUpIsLeast(l.base, PAGE);
    FillFromBlank(l, lo);
    hide Pow2, FreeSet, Bytes, ListsOk, Coalesced, Tiles;
  }

  lemma FillTop(s: State, lo: nat, base: nat, end: nat)
    requires FillInv(s, lo, lo, s.maxOrder) && lo == AlignUp(base, Pow2(s.maxOrder))
    ensures var (s', cur') := Fill(s, base, end, s.maxOrder);
            && FillInv(s', lo, cur', 0) && lo <= cur' && (lo <= end ==> cur' <= end < cur' + PAGE)
            && (end < lo ==> cur' == lo) && Aligned(cur', MIN_ORDER)
            && s'.base == s.base && |s'.orderMap| == |s.orderMap|
  {
    AlignUpIsLeast(base, Pow2(s.maxOrder));
    FillOrderEnd(s, lo, end, s.maxOrder);
    FillOrderInv(s, lo, lo, end, s.maxOrder);
    var (s1, cur) := FillOrder(s, lo, end, s.maxOrder);
    FillRest(s1, lo, cur, end, s.maxOrder - 1);
  }

  ghost predicate LayoutOk(l: Layout) {
    && MIN_ORDER <= l.maxOrder < MAX_ORDER && l.base % PAGE == 0
    && (l.pages > 0 ==> l.end < l.base + PAGE * l.pages + PAGE && 0 < l.base)
    && (l.pages == 0 ==> l.end < l.base + PAGE)
  }

  lemma FillFromBlank(l: Layout, lo: nat)
    requires MIN_ORDER <= l.maxOrder < MAX_ORDER && l.base % PAGE == 0
    requires lo == AlignUp(l.base, Pow2(l.maxOrder)) && l.base <= lo
    ensures var s := Fill(Blank(l), l.base, l.end, l.maxOrder).0;
            && (LayoutOk(l) ==> Inv(s, {}, lo, lo + s.managed))
            && s.base == l.base && |s.orderMap| == l.pages
            && s.managed == if l.end < lo then 0 else (l.end - lo) / PAGE * PAGE
  {
    hide Fill, FillInv, Inv, Pow2, AlignUp;
    AlignUpIsLeast(l.base, Pow2(l.maxOrder));
    AlignedDown(lo, MIN_ORDER, l.maxOrder);
    BlankInv(Blank(l), lo);
    FillTop(Blank(l), lo, l.base, l.end);
    hide Aligned, LayoutOk;
    var (s, cur) := Fill(Blank(l), l.base, l.end, l.maxOrder);
    FilledUpTo(s, lo, cur);
    WholePages(lo, l.end, s.managed);
    if LayoutOk(l) {
      MapCovers(l, lo, s.managed);
      FilledInv(s, lo);
    }
  }

  lemma FilledUpTo(s: State, lo: nat, cur: nat)
    requires FillInv(s, lo, cur, 0)
    ensures cur == lo + s.managed
  {
  }

  lemma MapCovers(l: Layout, lo: nat, managed: nat)
    requires LayoutOk(l) && l.base <= lo && Aligned(lo + managed, MIN_ORDER)
    requires managed % PAGE == 0 && (0 < managed ==> lo + managed <= l.end)
    ensures l.base % PAGE == 0 && (0 < managed ==> 0 < lo && lo + managed <= l.base + PAGE * l.pages)
  {
    assert Pow2(12) == PAGE;
  }

  lemma WholePages(lo: nat, end: nat, managed: nat)
    requires Aligned(lo, MIN_ORDER) && Aligned(lo + managed, MIN_ORDER)
    requires if lo <= end then lo + managed <= end < lo + managed + PAGE else managed == 0
    ensures managed == if end < lo then 0 else (end - lo) / PAGE * PAGE
    ensures managed % PAGE == 0
  {
    assert Pow2(12) == PAGE;
  }

  lemma FilledInv(s: State, lo: nat)
    requires FillInv(s, lo, lo + s.managed, 0)
    requires s.base % PAGE == 0 && s.base <= lo
    requires 0 < s.managed ==> 0 < lo && lo + s.managed <= s.base + PAGE * |s.orderMap|
    ensures Inv(s, {}, lo, lo + s.managed)
  {
    assert FreeSet(s.lists) + {} == FreeSet(s.lists);
  }

  lemma BlankInv(s: State, lo: nat)
    requires s.lists == seq(MAX_ORDER, i => []) && MIN_ORDER <= s.maxOrder < MAX_ORDER && s.managed == 0
    ensures FillInv(s, lo, lo, s.maxOrder)
  {
    assert FreeSet(s.lists) == {};
  }

  /** After any legal run that leaves nothing live, the free blocks are those `mem_init` made. */
  lemma FullyFreedIsInitial(start: nat, length: nat, states: seq<State>, lives: seq<set<Block>>, ops: seq<Op>)
    requires MapFits(start, length) && BelowTop(start, length)
    requires Run(states, lives, ops) && states[0] == Init(start, length) && lives[0] == {}
    requires lives[|ops|] == {}
    ensures FreeSet(states[|ops|].lists) == FreeSet(Init(start, length).lists)
  {
    InitInv(start, length);
    var lo := RegionLow(start, length);
    var hi := lo + Init(start, length).managed;
    RunInv(states, lives, ops, lo, hi, |ops|);
    FreeSetDeterminedByLive(states[|ops|], states[0], {}, lo, hi);
  }
}
