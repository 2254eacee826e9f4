/** The buddy allocator as functions on its state: free lists, order map and totals. */
module BuddyModel {
  import opened Powers
  import opened Sequences
  import opened Tilings

  const PAGE: nat := 4096
  const TWO64: nat := 0x1_0000_0000_0000_0000

  /** `lists[o]` is `free_list[o]` from its head; `orderMap[i]` belongs to the i-th page from `base`. */
  datatype State = State(base: nat, maxOrder: nat, lists: seq<seq<nat>>, orderMap: seq<nat>, managed: nat)

  // ----- free lists -----

  function Push(lists: seq<seq<nat>>, o: nat, addr: nat): seq<seq<nat>>
    requires o < |lists|
  {
    lists[o := [addr] + lists[o]]
  }

  function Pop(lists: seq<seq<nat>>, o: nat): seq<seq<nat>>
    requires o < |lists| && lists[o] != []
  {
    lists[o := lists[o][1..]]
  }

  function Unlink(lists: seq<seq<nat>>, o: nat, addr: nat): seq<seq<nat>>
    requires o < |lists|
  {
    lists[o := RemoveFirst(lists[o], addr)]
  }

  ghost function FreeSet(lists: seq<seq<nat>>): set<Block> {
    set o, i | 0 <= o < |lists| && 0 <= i < |lists[o]| :: Block(lists[o][i], o)
  }

  ghost predicate NoDups(lists: seq<seq<nat>>) {
    forall o | 0 <= o < |lists| :: NoDup(lists[o])
  }

  /** Bytes on the lists of order below `k`, as `mem_get_stats` adds them up. */
  function ListBytes(lists: seq<seq<nat>>, k: nat): nat
    requires k <= |lists|
  {
    if k == 0 then 0 else ListBytes(lists, k - 1) + |lists[k - 1]| * Pow2(k - 1)
  }

  // ----- order map -----

  function SetOrder(orderMap: seq<nat>, base: nat, addr: nat, order: nat): seq<nat> {
    if base <= addr && (addr - base) / PAGE < |orderMap|
    then orderMap[(addr - base) / PAGE := order] else orderMap
  }

  function OrderAt(orderMap: seq<nat>, base: nat, addr: nat): nat {
    if base <= addr && (addr - base) / PAGE < |orderMap| then orderMap[(addr - base) / PAGE] else 0
  }

  // ----- mem_init -----

  function Wrap64(x: int): nat {
    x % TWO64
  }

  function MaxOrderFor(total: nat, m: nat): (o: nat)
    requires m < MAX_ORDER
    ensures m <= o < MAX_ORDER
    decreases total, MAX_ORDER - m
  {
    if Pow2(m + 1) <= total && m + 1 < MAX_ORDER then MaxOrderFor(total, m + 1) else m
  }

  /** The order map lies in [mapBase, base); blocks are placed in [base, end). */
  datatype Layout = Layout(mapBase: nat, base: nat, pages: nat, maxOrder: nat, end: nat)

  function LayoutOf(start: nat, length: nat): Layout {
    var mapBase := start / PAGE * PAGE;
    var total := Wrap64(length - Wrap64(mapBase - start));
    var base := mapBase + AlignUp(total / PAGE, PAGE);
    Layout(mapBase, base, total / PAGE, MaxOrderFor(total, MIN_ORDER),
           base + Wrap64(total - Wrap64(base - start)))
  }

  function Place(s: State, addr: nat, i: nat): State
    requires i < |s.lists|
  {
    s.(lists := Push(s.lists, i, addr), orderMap := SetOrder(s.orderMap, s.base, addr, i),
       managed := s.managed + Pow2(i))
  }

  function FillOrder(s: State, cur: nat, end: nat, i: nat): (r: (State, nat))
    requires i < |s.lists|
    ensures |r.0.lists| == |s.lists|
    decreases end - cur
  {
    if cur + Pow2(i) <= end then
      FillOrder(Place(s, cur, i), cur + Pow2(i), end, i)
    else (s, cur)
  }

  function Fill(s: State, cur: nat, end: nat, i: nat): (State, nat)
    requires i < |s.lists|
    decreases i
  {
    if i < MIN_ORDER then (s, cur) else
      var (s', cur') := FillOrder(s, AlignUp(cur, Pow2(i)), end, i);
      Fill(s', cur', end, i - 1)
  }

  function Blank(l: Layout): State {
    State(l.base, l.maxOrder, seq(MAX_ORDER, i => []), seq(l.pages, i => 0), 0)
  }

  function Init(start: nat, length: nat): State {
    var l := LayoutOf(start, length);
    Fill(Blank(l), l.base, l.end, l.maxOrder).0
  }

  // ----- mem_alloc -----

  function OrderFor(size: nat, o: nat): (r: nat)
    ensures r >= o && Pow2(r) >= size
    ensures r > o ==> Pow2(r - 1) < size
    decreases size - Pow2(o)
  {
    if Pow2(o) < size then OrderFor(size, o + 1) else o
  }

  function FirstNonEmpty(lists: seq<seq<nat>>, o: nat, maxOrder: nat): (r: nat)
    requires maxOrder < |lists| && o <= maxOrder + 1
    ensures o <= r <= maxOrder + 1
    ensures r <= maxOrder ==> lists[r] != []
    ensures forall k | o <= k < r :: lists[k] == []
    decreases maxOrder + 1 - o
  {
    if o <= maxOrder && lists[o] == [] then FirstNonEmpty(lists, o + 1, maxOrder) else o
  }

  function SplitDown(s: State, o: nat, order: nat): (r: State)
    requires order <= o < |s.lists| && s.lists[o] != []
    ensures |r.lists| == |s.lists| && r.lists[order] != []
    ensures r.base == s.base && r.maxOrder == s.maxOrder && r.managed == s.managed
    ensures |r.orderMap| == |s.orderMap|
    decreases o
  {
    if o == order then s else SplitDown(SplitOnce(s, o), o - 1, order)
  }

  /** Take the head of list `o` and push its lower, then its upper half on list `o - 1`. */
  function SplitOnce(s: State, o: nat): State
    requires 0 < o < |s.lists| && s.lists[o] != []
  {
    var addr := s.lists[o][0];
    var half := addr + Pow2(o - 1);
    s.(lists := Push(Push(Pop(s.lists, o), o - 1, addr), o - 1, half),
       orderMap := SetOrder(SetOrder(s.orderMap, s.base, addr, o - 1), s.base, half, o - 1))
  }

  function Take(s: State, order: nat): (State, nat)
    requires order < |s.lists| && s.lists[order] != []
  {
    var addr := s.lists[order][0];
    (s.(lists := Pop(s.lists, order), orderMap := SetOrder(s.orderMap, s.base, addr, order)), addr)
  }

  /** The state after `mem_alloc(size)` and the address returned, 0 for NULL. */
  function Alloc(s: State, size: nat): (State, nat)
    requires s.maxOrder < |s.lists|
  {
    var order := OrderFor(size, MIN_ORDER);
    if order > s.maxOrder then (s, 0) else
      var o := FirstNonEmpty(s.lists, order, s.maxOrder);
      if o > s.maxOrder then (s, 0) else Take(SplitDown(s, o, order), order)
  }

  // ----- mem_free -----

  function Coalesce(lists: seq<seq<nat>>, b: Block, maxOrder: nat): (r: (seq<seq<nat>>, Block))
    requires b.order <= maxOrder < |lists|
    ensures |r.0| == |lists| && r.1.order <= maxOrder
    decreases maxOrder - b.order
  {
    if b.order < maxOrder && Buddy(b).addr in lists[b.order]
    then Coalesce(Unlink(lists, b.order, Buddy(b).addr), Parent(b), maxOrder)
    else (lists, b)
  }

  /** The state after `mem_free(ptr)`. */
  function Free(s: State, ptr: nat): State
    requires s.maxOrder < |s.lists|
    requires ptr != 0 ==> OrderAt(s.orderMap, s.base, ptr) <= s.maxOrder
  {
    if ptr == 0 then s else
      var (lists, b) := Coalesce(s.lists, Block(ptr, OrderAt(s.orderMap, s.base, ptr)), s.maxOrder);
      s.(lists := Push(lists, b.order, b.addr))
  }

  // ----- mem_get_stats -----

  datatype Stats = Stats(total: nat, used: int, free: nat)

  function GetStats(s: State): Stats
    requires s.maxOrder < |s.lists|
  {
    var free := ListBytes(s.lists, s.maxOrder + 1);
    Stats(s.managed, s.managed - free, free)
  }
}
