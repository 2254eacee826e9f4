/** The page-bitmap allocator as functions on its state, and what they keep: a page is marked exactly
    when it is metadata or part of one live run. */
module BitmapModel {
  import opened Sequences

  const PAGE: nat := 4096

  /** `bitmap`, `runlen` and the two page counters; `meta` is the number of metadata pages. */
  datatype Pool = Pool(base: nat, meta: nat, used: seq<bool>, runlen: seq<nat>, usedPages: int, freePages: int)

  // ----- sizes -----

  /** `pages_needed` */
  function PagesNeeded(bytes: nat): nat {
    if bytes == 0 then 1 else bytes / PAGE + if bytes % PAGE != 0 then 1 else 0
  }

  /** The least positive number of pages that holds the request. */
  lemma PagesNeededIsLeast(bytes: nat, k: nat)
    ensures PagesNeeded(bytes) >= 1 && PagesNeeded(bytes) * PAGE >= bytes
    ensures k >= 1 && k * PAGE >= bytes ==> PagesNeeded(bytes) <= k
  {
  }

  function RoundUp(x: nat): nat {
    (x + PAGE - 1) / PAGE * PAGE
  }

  function MetaPages(pages: nat): nat {
    (RoundUp(pages) + RoundUp(4 * pages)) / PAGE
  }

  /** The two tables lie one after the other inside the metadata pages. */
  lemma TablesFit(pages: nat)
    ensures pages <= RoundUp(pages) && RoundUp(pages) + 4 * pages <= MetaPages(pages) * PAGE
    ensures MetaPages(pages) * PAGE == RoundUp(pages) + RoundUp(4 * pages)
    ensures pages > 0 ==> MetaPages(pages) >= 2
  {
    var a, b := (pages + PAGE - 1) / PAGE, (4 * pages + PAGE - 1) / PAGE;
    assert RoundUp(pages) + RoundUp(4 * pages) == (a + b) * PAGE;
  }

  /** Rounding up wastes no page: it gives the least number of whole pages that holds `x` bytes. */
  lemma RoundUpIsLeast(x: nat, k: nat)
    ensures RoundUp(x) % PAGE == 0
    ensures k * PAGE >= x <==> k * PAGE >= RoundUp(x)
  {
  }

  /** The metadata are the least number of pages that holds a byte per page, and behind them the least
      number that holds four bytes per page. */
  lemma MetaPagesIsLeast(pages: nat, a: nat, b: nat)
    requires a * PAGE >= pages && (a == 0 || (a - 1) * PAGE < pages)
    requires b * PAGE >= 4 * pages && (b == 0 || (b - 1) * PAGE < 4 * pages)
    ensures MetaPages(pages) == a + b
  {
    RoundUpIsLeast(pages, a);
    RoundUpIsLeast(4 * pages, b);
  }

  /** The kernel's pool of 8 MiB at 6 MiB spends three of its pages on metadata, and the first request
      for a page gets the fourth. */
  lemma KernelPool()
    ensures var s := Init(0x60_0000, 0x80_0000);
            s.Some? && s.value.meta == s.value.usedPages == 3 && s.value.freePages == 2045
            && Alloc(s.value, PAGE).1 == 0x60_3000
  {
    MetaPagesIsLeast(2048, 1, 2);
    var s := Init(0x60_0000, 0x80_0000).value;
    InitInv(0x60_0000, 0x80_0000);
    AllocInv(s, PAGE);
    assert FreeRun(s.used, 3, 1) && forall h: nat | h < 3 :: !FreeRun(s.used, h, 1);
    hide FirstFit, Alloc, Inv, Init;
  }

  // ----- operations -----

  /** `mem_init`, which refuses a pool without room for a page beside its metadata. */
  function Init(base: nat, length: nat): Option<Pool> {
    var n := length / PAGE;
    var m := MetaPages(n);
    if n <= m then None else
      Some(Pool(base, m, Marked(seq(n, _ => false), 0, m, true), seq(n, _ => 0), m, n - m))
  }

  /** Pages `h` up to `h + k` set to `v`. */
  function Marked(b: seq<bool>, h: nat, k: nat, v: bool): (r: seq<bool>)
    requires h + k <= |b|
    ensures |r| == |b| && forall i | 0 <= i < |b| :: r[i] == if h <= i < h + k then v else b[i]
  {
    b[..h] + seq(k, _ => v) + b[h + k..]
  }

  predicate FreeRun(b: seq<bool>, h: nat, k: nat) {
    h + k <= |b| && forall i | h <= i < h + k :: !b[i]
  }

  /** The lowest start from `h` on of a run of `k` free pages. */
  function FirstFit(b: seq<bool>, k: nat, h: nat): (r: Option<nat>)
    ensures r.Some? ==> h <= r.value && FreeRun(b, r.value, k) && forall j: nat | h <= j < r.value :: !FreeRun(b, j, k)
    ensures r.None? ==> forall j: nat | h <= j :: !FreeRun(b, j, k)
    decreases |b| + 1 - h
  {
    if h + k > |b| then None else if FreeRun(b, h, k) then Some(h) else FirstFit(b, k, h + 1)
  }

  function Address(s: Pool, idx: nat): nat {
    s.base + idx * PAGE
  }

  /** `mem_alloc`: the pool afterwards and the address, 0 for NULL. */
  function Alloc(s: Pool, bytes: nat): (Pool, nat) {
    var k := PagesNeeded(bytes);
    if k > s.freePages then (s, 0) else
      var h := FirstFit(s.used, k, 0);
      if h.None? || h.value >= |s.runlen| then (s, 0) else (Taken(s, h.value, k), Address(s, h.value))
  }

  function Taken(s: Pool, h: nat, k: nat): Pool
    requires h + k <= |s.used| && h < |s.runlen|
  {
    s.(used := Marked(s.used, h, k, true), runlen := s.runlen[h := k],
       usedPages := s.usedPages + k, freePages := s.freePages - k)
  }

  /** `mem_free` of a pointer into page `idx`; only the head page of a run has a length. */
  function Free(s: Pool, idx: nat): Pool
    requires idx < |s.runlen| && idx + s.runlen[idx] <= |s.used|
  {
    var k := s.runlen[idx];
    s.(used := Marked(s.used, idx, k, false), runlen := s.runlen[idx := 0],
       usedPages := s.usedPages - k, freePages := s.freePages + k)
  }

  // ----- invariant -----

  function Count(b: seq<bool>): nat {
    if b == [] then 0 else Count(b[..|b| - 1]) + if b[|b| - 1] then 1 else 0
  }

  /** Page `i` belongs to the live run that starts at `h`. */
  predicate Owns(runlen: seq<nat>, h: nat, i: int) {
    h < |runlen| && h <= i < h + runlen[h]
  }

  /** A live run lies among the data pages, all marked, with no other run starting inside it. */
  ghost predicate RunOk(meta: nat, used: seq<bool>, runlen: seq<nat>, h: nat)
    requires |used| == |runlen| && h < |runlen|
  {
    runlen[h] > 0 ==>
      && meta <= h && h + runlen[h] <= |used|
      && forall i: nat | h <= i < h + runlen[h] :: used[i] && (i != h ==> runlen[i] == 0)
  }

  ghost predicate RunsOk(meta: nat, used: seq<bool>, runlen: seq<nat>)
    requires |used| == |runlen|
  {
    forall h: nat | h < |runlen| :: RunOk(meta, used, runlen, h)
  }

  ghost predicate PagesOk(meta: nat, used: seq<bool>, runlen: seq<nat>) {
    forall i: nat | i < |used| :: used[i] <==> i < meta || exists h: nat :: Owns(runlen, h, i)
  }

  ghost predicate Inv(s: Pool) {
    && |s.used| == |s.runlen| && 1 <= s.meta < |s.used|
    && RunsOk(s.meta, s.used, s.runlen) && PagesOk(s.meta, s.used, s.runlen)
    && s.usedPages == Count(s.used) && s.freePages == |s.used| - Count(s.used)
  }

  /** No page belongs to two live runs. */
  lemma RunsDisjoint(s: Pool, g: nat, h: nat, i: nat)
    requires Inv(s) && Owns(s.runlen, g, i) && Owns(s.runlen, h, i)
    ensures g == h
  {
    assert RunOk(s.meta, s.used, s.runlen, g) && RunOk(s.meta, s.used, s.runlen, h);
  }

  // ----- counting -----

  lemma {:induction false} CountAppend(a: seq<bool>, b: seq<bool>)
    ensures Count(a + b) == Count(a) + Count(b)
  {
    if b == [] {
      assert a + b == a;
    } else {
      CountAppend(a, b[..|b| - 1]);
      assert (a + b)[..|a + b| - 1] == a + b[..|b| - 1];
    }
  }

  lemma {:induction false} CountSame(b: seq<bool>, v: bool)
    requires forall i | 0 <= i < |b| :: b[i] == v
    ensures Count(b) == if v then |b| else 0
  {
    if b != [] {
      CountSame(b[..|b| - 1], v);
    }
  }

  /** Marking a stretch that is all the other way moves the count by its length. */
  lemma CountMarked(b: seq<bool>, h: nat, k: nat, v: bool)
    requires h + k <= |b| && forall i | h <= i < h + k :: b[i] == !v
    ensures Count(Marked(b, h, k, v)) == if v then Count(b) + k else Count(b) - k
  {
    hide Count, Marked;
    var x, y, z, m := b[..h], b[h..h + k], b[h + k..], seq(k, _ => v);
    CountSame(y, !v);
    CountSame(m, v);
    CountThree(x, y, z);
    CountThree(x, m, z);
    Cut(b, h, k, v);
  }

  lemma Cut(b: seq<bool>, h: nat, k: nat, v: bool)
    requires h + k <= |b|
    ensures b == b[..h] + b[h..h + k] + b[h + k..]
    ensures Marked(b, h, k, v) == b[..h] + seq(k, _ => v) + b[h + k..]
  {
  }

  lemma CountThree(a: seq<bool>, m: seq<bool>, c: seq<bool>)
    ensures Count(a + m + c) == Count(a) + Count(m) + Count(c)
  {
    CountAppend(a + m, c);
    CountAppend(a, m);
  }

  /** More pages than are free in all are not free in a row. */
  lemma RunNeedsPages(b: seq<bool>, h: nat, k: nat)
    requires FreeRun(b, h, k)
    ensures k <= |b| - Count(b)
  {
    CountMarked(b, h, k, true);
    CountBounded(Marked(b, h, k, true));
    hide Count;
  }

  lemma {:induction false} CountBounded(b: seq<bool>)
    ensures Count(b) <= |b|
  {
    if b != [] {
      CountBounded(b[..|b| - 1]);
    }
  }

  // ----- every operation keeps it -----

  lemma InitInv(base: nat, length: nat)
    ensures var n := length / PAGE;
            match Init(base, length)
            case None => n <= MetaPages(n)
            case Some(s) => n > MetaPages(n) && Inv(s) && |s.used| == n && s.meta == MetaPages(n) >= 2
                            && s.base == base
                            && forall h <- s.runlen :: h == 0
  {
    var n := length / PAGE;
    TablesFit(n);
    if n > MetaPages(n) {
      CountSame(seq(n, _ => false), false);
      CountMarked(seq(n, _ => false), 0, MetaPages(n), true);
      hide MetaPages, Count;
    }
  }

  lemma FreeIsUnowned(s: Pool, h: nat, k: nat)
    requires Inv(s) && k > 0 && FreeRun(s.used, h, k)
    ensures s.meta <= h && Unowned(s.runlen, h)
    ensures forall i: nat | h <= i < h + k :: Unowned(s.runlen, i)
  {
    UnownedPage(s, h);
    forall i: nat | h <= i < h + k ensures Unowned(s.runlen, i) {
      UnownedPage(s, i);
    }
    hide Inv;
  }

  ghost predicate Unowned(runlen: seq<nat>, i: nat) {
    i < |runlen| && runlen[i] == 0 && forall g: nat :: !Owns(runlen, g, i)
  }

  lemma UnownedPage(s: Pool, i: nat)
    requires Inv(s) && i < |s.used| && !s.used[i]
    ensures s.meta <= i && Unowned(s.runlen, i)
  {
    assert s.runlen[i] > 0 ==> Owns(s.runlen, i, i);
  }

  lemma TakenRuns(s: Pool, h: nat, k: nat)
    requires Inv(s) && k > 0 && FreeRun(s.used, h, k)
    ensures RunsOk(s.meta, Taken(s, h, k).used, Taken(s, h, k).runlen)
  {
    FreeIsUnowned(s, h, k);
    var r := Taken(s, h, k);
    forall g: nat | g < |r.runlen| ensures RunOk(s.meta, r.used, r.runlen, g) {
      assert RunOk(s.meta, s.used, s.runlen, g);
      assert Unowned(s.runlen, h) && !Owns(s.runlen, g, h);
      assert forall i: nat | h <= i < h + k :: s.runlen[i] == 0 by {
        forall i: nat | h <= i < h + k ensures s.runlen[i] == 0 {
          assert Unowned(s.runlen, i);
        }
      }
    }
    hide PagesOk, Count;
  }

  lemma TakenPages(s: Pool, h: nat, k: nat)
    requires Inv(s) && k > 0 && FreeRun(s.used, h, k)
    ensures PagesOk(s.meta, Taken(s, h, k).used, Taken(s, h, k).runlen)
  {
    FreeIsUnowned(s, h, k);
    assert Unowned(s.runlen, h);
    var r := Taken(s, h, k);
    hide RunsOk, Count;
    assert forall g: nat, i: nat :: Owns(r.runlen, g, i) <==> (g == h && h <= i < h + k) || (g != h && Owns(s.runlen, g, i));
    forall i: nat | i < |r.used| ensures r.used[i] <==> i < s.meta || exists g: nat :: Owns(r.runlen, g, i) {
      if h <= i < h + k {
        assert Owns(r.runlen, h, i);
      } else if exists g: nat :: Owns(s.runlen, g, i) {
        var g: nat :| Owns(s.runlen, g, i);
        assert Owns(r.runlen, g, i);
      } else {
        assert r.used[i] == s.used[i];
      }
    }
  }

  /** Taking a run marks exactly its pages and records its length at its first page. */
  lemma TakenIs(s: Pool, h: nat, k: nat)
    requires h + k <= |s.used| && h < |s.runlen|
    ensures var r := Taken(s, h, k);
            && |r.used| == |s.used| && (forall i | 0 <= i < |s.used| :: r.used[i] <==> s.used[i] || h <= i < h + k)
            && r.runlen == s.runlen[h := k] && r.base == s.base && r.meta == s.meta
            && r.usedPages == s.usedPages + k && r.freePages == s.freePages - k
  {
  }

  /** First fit: a request fails exactly when no run of free pages is long enough anywhere; otherwise it
      gets the lowest one, which is neither metadata nor part of a live run, and the invariant holds on. */
  lemma AllocInv(s: Pool, bytes: nat)
    requires Inv(s)
    ensures var (r, p) := Alloc(s, bytes);
            var k := PagesNeeded(bytes);
            && Inv(r)
            && (p == 0 <==> forall h: nat :: !FreeRun(s.used, h, k))
            && (p == 0 ==> r == s)
            && (p != 0 ==> exists h: nat ::
                  && s.meta <= h && FreeRun(s.used, h, k) && p == s.base + h * PAGE && r == Taken(s, h, k)
                  && forall j: nat | j < h :: !FreeRun(s.used, j, k))
  {
    var k := PagesNeeded(bytes);
    PagesNeededIsLeast(bytes, k);
    hide RunsOk, PagesOk, Count, PagesNeeded;
    forall h: nat | FreeRun(s.used, h, k) ensures k <= s.freePages {
      RunNeedsPages(s.used, h, k);
    }
    var f := FirstFit(s.used, k, 0);
    if f.Some? {
      var h := f.value;
      FreeIsUnowned(s, h, k);
      TakenRuns(s, h, k);
      TakenPages(s, h, k);
      CountMarked(s.used, h, k, true);
    }
  }

  lemma FreedRuns(s: Pool, idx: nat)
    requires Inv(s) && idx < |s.used|
    ensures idx + s.runlen[idx] <= |s.used|
    ensures forall i | idx <= i < idx + s.runlen[idx] :: s.used[i]
    ensures RunsOk(s.meta, Free(s, idx).used, Free(s, idx).runlen)
  {
    assert RunOk(s.meta, s.used, s.runlen, idx);
    var r := Free(s, idx);
    forall g: nat | g < |r.runlen| ensures RunOk(s.meta, r.used, r.runlen, g) {
      assert RunOk(s.meta, s.used, s.runlen, g);
      forall i: nat | g <= i < g + r.runlen[g] ensures !Owns(s.runlen, idx, i) {
        if Owns(s.runlen, idx, i) {
          RunsDisjoint(s, g, idx, i);
        }
      }
      assert forall i: nat | g <= i < g + r.runlen[g] :: i < |s.used| && r.used[i] == s.used[i];
    }
    hide PagesOk, Count;
  }

  lemma FreedPages(s: Pool, idx: nat)
    requires Inv(s) && idx < |s.used| && idx + s.runlen[idx] <= |s.used|
    ensures PagesOk(s.meta, Free(s, idx).used, Free(s, idx).runlen)
  {
    var r := Free(s, idx);
    assert s.runlen[idx] > 0 ==> s.meta <= idx by {
      assert RunOk(s.meta, s.used, s.runlen, idx);
    }
    hide RunsOk, Count;
    assert forall g: nat, i: nat :: Owns(r.runlen, g, i) <==> g != idx && Owns(s.runlen, g, i);
    forall i: nat | i < |r.used| ensures r.used[i] <==> i < s.meta || exists g: nat :: Owns(r.runlen, g, i) {
      if Owns(s.runlen, idx, i) {
        forall g: nat ensures !Owns(r.runlen, g, i) {
          if Owns(s.runlen, g, i) {
            RunsDisjoint(s, g, idx, i);
          }
        }
      } else if exists g: nat :: Owns(s.runlen, g, i) {
        var g: nat :| Owns(s.runlen, g, i);
        assert Owns(r.runlen, g, i);
      } else {
        assert r.used[i] == s.used[i];
      }
    }
  }

  /** Freeing the page a run starts at frees that run; freeing any other page of the pool does nothing. */
  lemma FreeInv(s: Pool, idx: nat)
    requires Inv(s) && idx < |s.used|
    ensures idx + s.runlen[idx] <= |s.used|
    ensures Inv(Free(s, idx))
    ensures s.runlen[idx] == 0 ==> Free(s, idx) == s
    ensures forall i: nat | i < |s.used| :: Free(s, idx).used[i] <==> s.used[i] && !Owns(s.runlen, idx, i)
    ensures Free(s, idx).runlen == s.runlen[idx := 0]
    ensures Free(s, idx).base == s.base && Free(s, idx).meta == s.meta && |Free(s, idx).used| == |s.used|
  {
    FreedRuns(s, idx);
    FreedPages(s, idx);
    CountMarked(s.used, idx, s.runlen[idx], false);
    assert s.runlen[idx] == 0 ==> Free(s, idx).used == s.used && Free(s, idx).runlen == s.runlen;
    hide RunsOk, PagesOk, Count;
  }

  lemma Untaken(s: Pool, h: nat, k: nat)
    requires FreeRun(s.used, h, k) && Unowned(s.runlen, h)
    ensures h < |Taken(s, h, k).runlen| && h + Taken(s, h, k).runlen[h] <= |Taken(s, h, k).used|
    ensures Free(Taken(s, h, k), h) == s
  {
    var r := Free(Taken(s, h, k), h);
    assert r.used == s.used && r.runlen == s.runlen;
  }

  /** Freeing a block just allocated restores the bitmap, the lengths and the counters exactly. */
  lemma AllocThenFree(s: Pool, bytes: nat)
    requires Inv(s) && Alloc(s, bytes).1 != 0
    ensures var (r, p) := Alloc(s, bytes);
            && s.base <= p
            && var idx := (p - s.base) / PAGE;
               idx < |r.runlen| && idx + r.runlen[idx] <= |r.used| && Free(r, idx) == s
  {
    hide RunsOk, PagesOk, PagesNeeded, FirstFit, Count, Alloc, Free, Taken;
    AllocInv(s, bytes);
    var (r, p) := Alloc(s, bytes);
    var k := PagesNeeded(bytes);
    PagesNeededIsLeast(bytes, k);
    var h: nat :| s.meta <= h && FreeRun(s.used, h, k) && p == s.base + h * PAGE && r == Taken(s, h, k);
    FreeIsUnowned(s, h, k);
    Untaken(s, h, k);
    AddressIndex(s, h);
  }

  lemma AddressIndex(s: Pool, h: nat)
    ensures (s.base + h * PAGE - s.base) / PAGE == h
  {
  }

  // ----- runs -----

  datatype Op = AllocBytes(bytes: nat) | FreePage(idx: nat)

  function Step(s: Pool, op: Op): Pool {
    match op
    case AllocBytes(bytes) => Alloc(s, bytes).0
    case FreePage(idx) =>
      if idx < |s.runlen| && idx + s.runlen[idx] <= |s.used| then Free(s, idx) else s
  }

  function After(s: Pool, ops: seq<Op>): Pool {
    if ops == [] then s else Step(After(s, ops[..|ops| - 1]), ops[|ops| - 1])
  }

  /** In every reachable state the bitmap, the run lengths and the counters agree. */
  lemma {:induction false} RunInv(s: Pool, ops: seq<Op>)
    requires Inv(s)
    ensures Inv(After(s, ops)) && |After(s, ops).used| == |s.used| && After(s, ops).meta == s.meta
  {
    if ops != [] {
      var r := After(s, ops[..|ops| - 1]);
      RunInv(s, ops[..|ops| - 1]);
      match ops[|ops| - 1]
      case AllocBytes(bytes) =>
        AllocInv(r, bytes);
        hide Inv, FirstFit, PagesNeeded;
      case FreePage(idx) =>
        assert |r.used| == |r.runlen|;
        hide RunsOk, PagesOk, Count;
        if idx < |r.used| {
          FreeInv(r, idx);
        }
    }
  }
}
