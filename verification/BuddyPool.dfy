/** What `mem_init` makes of the memory it is given: how much it leaves out, and when nothing is left. */
module BuddyPool {
  import opened Powers
  import opened Tilings
  import opened BuddyModel
  import opened BuddyProofs

  /** Bytes behind the order map that no block will ever hand out. */
  function Lost(start: nat, length: nat): int {
    LayoutOf(start, length).end - LayoutOf(start, length).base - Init(start, length).managed
  }

  /** Less than a page behind the order map is lost exactly if the top block size divides the address
      there, or not even one page is left; otherwise all bytes up to the next such address are. */
  lemma LostLessThanPageIff(start: nat, length: nat)
    requires BelowTop(start, length)
    ensures var l := LayoutOf(start, length);
            && (Lost(start, length) < PAGE <==> l.base % Pow2(l.maxOrder) == 0 || l.end < l.base + PAGE)
            && (l.end >= RegionLow(start, length) ==> Lost(start, length) >= RegionLow(start, length) - l.base)
  {
    hide LayoutOf, Init, Inv, RegionLow, AlignUp, MaxOrderFor;
    var l, lo := LayoutOf(start, length), RegionLow(start, length);
    InitInv(start, length);
    LayoutFacts(start, length);
    LowIs(start, length);
    LowIsPage(start, length);
    PagesApart(l.base, lo);
  }

  lemma LowIs(start: nat, length: nat)
    ensures var l, lo := LayoutOf(start, length), RegionLow(start, length);
            l.base <= lo < l.base + Pow2(l.maxOrder) && (lo == l.base <==> l.base % Pow2(l.maxOrder) == 0)
  {
    AlignUpIsLeast(LayoutOf(start, length).base, Pow2(LayoutOf(start, length).maxOrder));
  }

  lemma LowIsPage(start: nat, length: nat)
    requires MIN_ORDER <= LayoutOf(start, length).maxOrder
    ensures RegionLow(start, length) % PAGE == 0
  {
    var l, lo := LayoutOf(start, length), RegionLow(start, length);
    AlignUpIsLeast(l.base, Pow2(l.maxOrder));
    AlignedDown(lo, MIN_ORDER, l.maxOrder);
    assert Pow2(12) == PAGE;
  }

  lemma PagesApart(a: nat, b: nat)
    requires a % PAGE == 0 && b % PAGE == 0
    ensures a < b ==> a + PAGE <= b
  {
  }

  /** The pool hands out nothing at all, not even one byte, exactly if the first address that the top
      block size divides leaves no whole page. */
  lemma NothingToAllocateIff(start: nat, length: nat)
    requires MapFits(start, length) && BelowTop(start, length)
    ensures ListsFit(Init(start, length))
    ensures (forall size: nat :: Alloc(Init(start, length), size).1 == 0) <==> Init(start, length).managed == 0
    ensures Init(start, length).managed == 0 <==> LayoutOf(start, length).end < RegionLow(start, length) + PAGE
  {
    hide LayoutOf, Init, RegionLow, Alloc, Inv, OrderFor;
    var s, lo := Init(start, length), RegionLow(start, length);
    InitInv(start, length);
    InvFits(s, lo);
    WholePage(LayoutOf(start, length).end - lo);
    if s.managed == 0 {
      forall size: nat ensures Alloc(s, size).1 == 0 {
        NoBytesNoBlock(s, lo, size);
      }
    } else {
      FirstPage(s, lo);
    }
  }

  lemma WholePage(n: int)
    ensures 0 <= n ==> (n / PAGE * PAGE == 0 <==> n < PAGE)
  {
  }

  predicate ListsFit(s: State) {
    s.maxOrder < |s.lists|
  }

  lemma InvFits(s: State, lo: nat)
    requires Inv(s, {}, lo, lo + s.managed)
    ensures ListsFit(s)
  {
  }

  lemma NoBytesNoBlock(s: State, lo: nat, size: nat)
    requires Inv(s, {}, lo, lo) && ListsFit(s)
    ensures Alloc(s, size).1 == 0
  {
    hide Inv, Alloc;
    AllocInv(s, {}, lo, lo, size);
  }

  /** A pool that manages anything can hand out a page. */
  lemma FirstPage(s: State, lo: nat)
    requires Inv(s, {}, lo, lo + s.managed) && 0 < s.managed && ListsFit(s)
    ensures Alloc(s, 1).1 != 0
  {
    var free := FreeSet(s.lists);
    assert free + {} == free;
    assert Covers(free, lo);
    var b :| b in free && Contains(b, lo);
    var r := Block(b.addr, MIN_ORDER);
    assert WellFormed(b, s.maxOrder);
    AlignedDown(b.addr, MIN_ORDER, b.order);
    Pow2Monotone(MIN_ORDER, b.order);
    forall x | Contains(r, x) ensures Covers(free, x) {
      assert Contains(b, x);
    }
    assert OrderFor(1, MIN_ORDER) == MIN_ORDER;
    hide Inv, Alloc, Aligned, Contains, Covers;
    AllocFailsIffNoRange(s, {}, lo, lo + s.managed, 1);
  }

  /** The order loop of `mem_init` stops at the largest order whose blocks still fit into the length. */
  lemma {:induction false} MaxOrderIsLargest(total: nat, m: nat, k: nat)
    requires m <= k < MAX_ORDER && Pow2(m) <= total
    ensures Pow2(k) <= total <==> k <= MaxOrderFor(total, m)
    decreases MAX_ORDER - m
  {
    if Pow2(m + 1) <= total && m + 1 < MAX_ORDER {
      if k > m {
        MaxOrderIsLargest(total, m + 1, k);
      }
    } else if k > m {
      Pow2Monotone(m + 1, k);
    }
  }

  /** Each initial list is in descending order: the blocks of an order are handed out from the top. */
  ghost predicate Descends(lists: seq<seq<nat>>, cur: nat) {
    && (forall o, i | 0 <= o < |lists| && 0 <= i < |lists[o]| :: lists[o][i] < cur)
    && forall o, i, j | 0 <= o < |lists| && 0 <= i < j < |lists[o]| :: lists[o][i] > lists[o][j]
  }

  lemma {:induction false} FillOrderDescends(s: State, cur: nat, end: nat, i: nat)
    requires i < |s.lists| && Descends(s.lists, cur)
    ensures var (s', cur') := FillOrder(s, cur, end, i); cur <= cur' && Descends(s'.lists, cur')
    decreases end - cur
  {
    if cur + Pow2(i) <= end {
      FillOrderDescends(Place(s, cur, i), cur + Pow2(i), end, i);
    }
  }

  lemma {:induction false} FillDescends(s: State, cur: nat, end: nat, i: nat)
    requires i < |s.lists| && Descends(s.lists, cur)
    ensures var (s', cur') := Fill(s, cur, end, i); Descends(s'.lists, cur')
    decreases i
  {
    if i >= MIN_ORDER {
      AlignUpIsLeast(cur, Pow2(i));
      var next := AlignUp(cur, Pow2(i));
      assert Descends(s.lists, next);
      hide Descends, AlignUp, FillOrder;
      FillOrderDescends(s, next, end, i);
      FillDescends(FillOrder(s, next, end, i).0, FillOrder(s, next, end, i).1, end, i - 1);
    }
  }

  lemma InitDescends(start: nat, length: nat)
    ensures forall o, i, j | 0 <= o < |Init(start, length).lists| && 0 <= i < j < |Init(start, length).lists[o]| ::
              Init(start, length).lists[o][i] > Init(start, length).lists[o][j]
  {
    var l := LayoutOf(start, length);
    FillDescends(Blank(l), l.base, l.end, l.maxOrder);
    hide LayoutOf, Fill;
  }

  /** The largest block order a power-of-two length allows is its own. */
  lemma {:induction false} MaxOrderOfPower(o: nat, m: nat)
    requires m <= o < MAX_ORDER
    ensures MaxOrderFor(Pow2(o), m) == o
    decreases o - m
  {
    Pow2Monotone(m, o);
    if m < o {
      Pow2Monotone(m + 1, o);
      MaxOrderOfPower(o, m + 1);
    } else if m + 1 < MAX_ORDER {
      assert Pow2(m + 1) > Pow2(o);
    }
  }

  /** A pool of 2^o bytes whose address 2^o divides manages nothing: its metadata push the first block
      to the next multiple of 2^o, which is its end. */
  lemma OwnSizedPoolIsEmpty(start: nat, o: nat)
    requires MIN_ORDER <= o < MAX_ORDER && Aligned(start, o) && BelowTop(start, Pow2(o))
    ensures Init(start, Pow2(o)).managed == 0
    ensures start % PAGE == 0 && RegionLow(start, Pow2(o)) == start + Pow2(o)
  {
    hide LayoutOf, Init, Aligned, Inv, Pow2, AlignUp;
    PowerLayout(start, o);
    NextMultiple(start, LayoutOf(start, Pow2(o)).base, o);
    InitInv(start, Pow2(o));
  }

  lemma PowerLayout(start: nat, o: nat)
    requires MIN_ORDER <= o < MAX_ORDER && Aligned(start, o) && BelowTop(start, Pow2(o))
    ensures start % PAGE == 0
    ensures var l := LayoutOf(start, Pow2(o)); l.maxOrder == o && start < l.base <= l.end == start + Pow2(o)
  {
    AlignedDown(start, MIN_ORDER, o);
    assert Pow2(12) == PAGE;
    hide Aligned, AlignUp;
    PowerOfPages(o);
    LayoutArithmetic(start, Pow2(o));
    TotalOf(start, Pow2(o));
    MaxOrderOfPower(o, MIN_ORDER);
  }

  lemma PowerOfPages(o: nat)
    requires MIN_ORDER <= o
    ensures PAGE <= Pow2(o) && Pow2(o) % PAGE == 0
    ensures 0 < AlignUp(Pow2(o) / PAGE, PAGE) <= Pow2(o)
  {
    Pow2Split(MIN_ORDER, o);
    assert Pow2(12) == PAGE;
    AlignUpIsLeast(Pow2(o) / PAGE, PAGE);
    var k := Pow2(o - MIN_ORDER);
    assert Pow2(o) == k * PAGE;
  }

  lemma NextMultiple(start: nat, base: nat, o: nat)
    requires Aligned(start, o) && start < base <= start + Pow2(o)
    ensures AlignUp(base, Pow2(o)) == start + Pow2(o)
  {
    var m := Pow2(o);
    var q := Quotient(start, m);
    MulNext(q, m);
    DivModUnique(base + m - 1, m, q + 1, base - 1 - start);
  }

  /** The kernel's own pool: of 8 MiB at 6 MiB, one page holds the order map, the 2 MiB less that page up
      to 8 MiB are lost, and 6 MiB are managed. */
  lemma KernelPool()
    ensures var l := LayoutOf(0x60_0000, 0x80_0000);
            l.mapBase == 0x60_0000 && l.base == 0x60_1000 && l.maxOrder == 23 && l.end == 0xE0_0000
    ensures RegionLow(0x60_0000, 0x80_0000) == 0x80_0000
    ensures Init(0x60_0000, 0x80_0000).managed == 0x60_0000 && Lost(0x60_0000, 0x80_0000) == 0x1F_F000
  {
    hide LayoutOf, Init, Inv, Pow2, Fill;
    KernelLayout();
    EightMiB();
    InitInv(0x60_0000, 0x80_0000);
  }

  lemma EightMiB()
    ensures Pow2(23) == 0x80_0000
  {
    Pow2Split(12, 23);
    assert Pow2(11) == 0x800 && Pow2(12) == 0x1000;
  }

  lemma KernelLayout()
    ensures LayoutOf(0x60_0000, 0x80_0000) == Layout(0x60_0000, 0x60_1000, 0x800, 23, 0xE0_0000)
  {
    EightMiB();
    hide Pow2, MaxOrderFor;
    MaxOrderOfPower(23, MIN_ORDER);
    LayoutArithmetic(0x60_0000, 0x80_0000);
    TotalOf(0x60_0000, 0x80_0000);
  }
}
