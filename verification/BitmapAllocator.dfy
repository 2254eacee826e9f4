/** The page-bitmap allocator as it runs: two arrays and two counters updated by scanning loops. */
module BitmapAllocator {
  import opened Sequences
  import opened BitmapModel

  datatype Stats = Stats(total: int, used: int, free: int)

  /** `mem_init`: 0 and a pool, or -1 before any table is written if no page is left beside the metadata. */
  method MemInit(start: nat, length: nat) returns (status: int, pool: Allocator?)
    requires length / PAGE < 0x8000_0000
    ensures status == (if Init(start, length).None? then -1 else 0)
    ensures status == 0 ==> pool != null && fresh(pool) && fresh(pool.bitmap) && fresh(pool.runlen)
                            && pool.Valid() && Some(pool.Abs()) == Init(start, length)
    ensures status == -1 ==> pool == null
  {
    var pages := length / PAGE;
    if pages <= MetaPages(pages) {
      return -1, null;
    }
    hide Inv, Marked, MetaPages;
    pool := new Allocator(start, length);
    return 0, pool;
  }

  class Allocator {
    const base: nat
    const meta: nat
    const bitmap: array<bool>
    const runlen: array<nat>
    var usedPages: int
    var freePages: int

    ghost function Abs(): Pool
      reads this, bitmap, runlen
    {
      Pool(base, meta, bitmap[..], runlen[..], usedPages, freePages)
    }

    /** The scan counts pages in an `int`. */
    ghost predicate Valid()
      reads this, bitmap, runlen
    {
      Inv(Abs()) && bitmap.Length < 0x8000_0000
    }

    /** `mem_init` behind its check for room. */
    constructor (start: nat, length: nat)
      requires Init(start, length).Some? && length / PAGE < 0x8000_0000
      ensures Valid() && fresh(bitmap) && fresh(runlen) && Some(Abs()) == Init(start, length)
    {
      var pages := length / PAGE;
      base, meta := start, MetaPages(pages);
      bitmap, runlen := new bool[pages], new nat[pages];
      usedPages, freePages := 0, 0;
      new;
      InitInv(start, length);
      hide Inv;
      for i := 0 to bitmap.Length
        invariant forall j | 0 <= j < i :: !bitmap[j]
      {
        bitmap[i] := false;
      }
      for i := 0 to runlen.Length
        invariant forall j | 0 <= j < i :: runlen[j] == 0
        invariant forall j | 0 <= j < bitmap.Length :: !bitmap[j]
      {
        runlen[i] := 0;
      }
      assert bitmap[..] == seq(pages, _ => false) && runlen[..] == seq(pages, _ => 0);
      MarkPages(0, meta, true);
      usedPages, freePages := meta, pages - meta;
    }

    method MarkPages(h: nat, k: nat, v: bool)
      requires h + k <= bitmap.Length
      modifies bitmap
      ensures bitmap[..] == Marked(old(bitmap[..]), h, k, v)
    {
      for i := h to h + k
        invariant forall j | 0 <= j < bitmap.Length :: bitmap[j] == if h <= j < i then v else old(bitmap[j])
      {
        bitmap[i] := v;
      }
    }

    /** The scan of `mem_alloc`: count free pages in a row until there are enough. */
    method FindRun(k: nat) returns (head: Option<nat>)
      requires k > 0
      ensures head == FirstFit(bitmap[..], k, 0)
    {
      ghost var b := bitmap[..];
      var streak, start := 0, 0;
      for i := 0 to bitmap.Length
        invariant 0 <= streak <= i && streak < k && (streak > 0 ==> start == i - streak)
        invariant forall j | i - streak <= j < i :: !b[j]
        invariant i == streak || b[i - streak - 1]
        invariant forall h: nat | h + k <= i :: !FreeRun(b, h, k)
      {
        if !bitmap[i] {
          streak := streak + 1;
          if streak == 1 {
            start := i;
          }
          if streak == k {
            assert FreeRun(b, start, k);
            return Some(start);
          }
        } else {
          streak := 0;
        }
        forall h: nat | h + k <= i + 1 ensures !FreeRun(b, h, k) {
          if h + k == i + 1 {
            assert b[if streak == 0 then i else i - streak];
          }
        }
      }
      return None;
    }

    /** `mem_alloc`; returns 0 for NULL. */
    method Alloc(bytes: nat) returns (p: nat)
      requires Valid()
      modifies this`usedPages, this`freePages, bitmap, runlen
      ensures Valid() && (Abs(), p) == BitmapModel.Alloc(old(Abs()), bytes)
    {
      hide RunsOk, PagesOk, FirstFit, PagesNeeded, Count, Marked, FreeRun;
      AllocKeeps(Abs(), bytes);
      var needed := PagesNeeded(bytes);
      if needed > freePages {
        return 0;
      }
      var head := FindRun(needed);
      if head.None? {
        return 0;
      }
      FitIsInside(bitmap[..], needed);
      Take(head.value, needed);
      return base + head.value * PAGE;
    }

    method Take(h: nat, k: nat)
      requires h + k <= bitmap.Length && h < runlen.Length
      modifies this`usedPages, this`freePages, bitmap, runlen
      ensures Abs() == Taken(old(Abs()), h, k)
    {
      MarkPages(h, k, true);
      runlen[h] := k;
      usedPages := usedPages + k;
      freePages := freePages - k;
    }

    /** `mem_free` of any address inside the pool. */
    method Free(p: nat)
      requires Valid() && base <= p && (p - base) / PAGE < bitmap.Length
      modifies this`usedPages, this`freePages, bitmap, runlen
      ensures Valid()
      ensures var s, idx := old(Abs()), (p - base) / PAGE;
              idx < |s.runlen| && idx + s.runlen[idx] <= |s.used| && Abs() == BitmapModel.Free(s, idx)
    {
      hide RunsOk, PagesOk, Count;
      var idx := (p - base) / PAGE;
      FreeInv(Abs(), idx);
      hide Marked;
      var size := runlen[idx];
      MarkPages(idx, size, false);
      runlen[idx] := 0;
      usedPages := usedPages - size;
      freePages := freePages + size;
    }

    /** `mem_get_stats` */
    method GetStats() returns (r: Stats)
      requires Valid()
      ensures r == Stats(bitmap.Length * PAGE, Count(bitmap[..]) * PAGE, (bitmap.Length - Count(bitmap[..])) * PAGE)
      ensures r.used + r.free == r.total
    {
      r := Stats(bitmap.Length * PAGE, usedPages * PAGE, freePages * PAGE);
    }
  }

  lemma AllocKeeps(s: Pool, bytes: nat)
    requires Inv(s)
    ensures Inv(BitmapModel.Alloc(s, bytes).0) && PagesNeeded(bytes) > 0
  {
    AllocInv(s, bytes);
    PagesNeededIsLeast(bytes, 1);
    hide Inv, FirstFit, PagesNeeded;
  }

  lemma FitIsInside(b: seq<bool>, k: nat)
    ensures FirstFit(b, k, 0).Some? ==> FirstFit(b, k, 0).value + k <= |b|
  {
    assert FirstFit(b, k, 0).Some? ==> FreeRun(b, FirstFit(b, k, 0).value, k);
  }
}
