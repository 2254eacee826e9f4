/** Sets of aligned power-of-two blocks, and the theory the buddy allocator rests on:
    a fully coalesced tiling is determined by the bytes it covers. */
module Tilings {
  import opened Powers

  const MIN_ORDER: nat := 12
  const MAX_ORDER: nat := 32

  datatype Block = Block(addr: nat, order: nat)

  function Size(b: Block): nat {
    Pow2(b.order)
  }

  ghost predicate Contains(b: Block, x: int) {
    b.addr <= x < b.addr + Size(b)
  }

  ghost predicate Within(b: Block, c: Block) {
    c.addr <= b.addr && b.addr + Size(b) <= c.addr + Size(c)
  }

  ghost predicate Disjoint(b: Block, c: Block) {
    b.addr + Size(b) <= c.addr || c.addr + Size(c) <= b.addr
  }

  /** `addr ^ (1 << order)`: flip bit `order` of the address. */
  function BuddyAddr(addr: nat, order: nat): nat {
    if addr / Pow2(order) % 2 == 0 then addr + Pow2(order)
    else addr - HighBit(addr, order)
  }

  function HighBit(addr: nat, order: nat): (p: nat)
    requires addr / Pow2(order) % 2 != 0
    ensures p == Pow2(order) <= addr
  {
    var m := Pow2(order);
    assert addr / m >= 1;
    MulOrder(1, addr / m, m);
    m
  }

  function Buddy(b: Block): Block {
    Block(BuddyAddr(b.addr, b.order), b.order)
  }

  function Lower(b: Block): Block
    requires b.order > 0
  {
    Block(b.addr, b.order - 1)
  }

  function Upper(b: Block): Block
    requires b.order > 0
  {
    Block(b.addr + Pow2(b.order - 1), b.order - 1)
  }

  /** The block obtained by merging a block with its buddy. */
  function Parent(b: Block): Block {
    Block(if b.addr < Buddy(b).addr then b.addr else Buddy(b).addr, b.order + 1)
  }

  ghost predicate WellFormed(b: Block, maxOrder: nat) {
    MIN_ORDER <= b.order <= maxOrder && Aligned(b.addr, b.order)
  }

  ghost predicate Tiling(t: set<Block>, maxOrder: nat) {
    && (forall b <- t :: WellFormed(b, maxOrder))
    && (forall b <- t, c <- t :: b != c ==> Disjoint(b, c))
  }

  ghost predicate Covers(t: set<Block>, x: int) {
    exists b <- t :: Contains(b, x)
  }

  /** No two free buddies that could still be merged. */
  ghost predicate Coalesced(t: set<Block>, maxOrder: nat) {
    forall b <- t :: b.order < maxOrder ==> Buddy(b) !in t
  }

  ghost predicate WhollyCovered(b: Block, t: set<Block>) {
    forall x :: Contains(b, x) ==> Covers(t, x)
  }

  ghost predicate SameBytes(t: set<Block>, u: set<Block>) {
    forall x :: Covers(t, x) <==> Covers(u, x)
  }

  /** The bytes in a finite set of blocks, by size. */
  ghost function Bytes(t: set<Block>): nat {
    if t == {} then 0 else
      var b :| b in t;
      Size(b) + Bytes(t - {b})
  }

  lemma {:induction false} BytesRemove(t: set<Block>, b: Block)
    requires b in t
    ensures Bytes(t) == Size(b) + Bytes(t - {b})
  {
    var c :| c in t && Bytes(t) == Size(c) + Bytes(t - {c});
    if b != c {
      BytesRemove(t - {c}, b);
      BytesRemove(t - {b}, c);
      assert t - {c} - {b} == t - {b} - {c};
    }
  }

  lemma BytesAdd(t: set<Block>, b: Block)
    requires b !in t
    ensures Bytes(t + {b}) == Size(b) + Bytes(t)
  {
    BytesRemove(t + {b}, b);
    assert t + {b} - {b} == t;
  }

  lemma CoversUnion(t: set<Block>, u: set<Block>, x: int)
    ensures Covers(t + u, x) <==> Covers(t, x) || Covers(u, x)
  {
    if Covers(t, x) {
      var b :| b in t && Contains(b, x);
      assert b in t + u;
    }
    if Covers(u, x) {
      var b :| b in u && Contains(b, x);
      assert b in t + u;
    }
  }

  lemma CoversOne(b: Block, x: int)
    ensures Covers({b}, x) <==> Contains(b, x)
  {
    if Contains(b, x) {
      assert b in {b};
    }
  }

  lemma Nested(b: Block, c: Block, maxOrder: nat)
    requires WellFormed(b, maxOrder) && WellFormed(c, maxOrder)
    requires b.order <= c.order && !Disjoint(b, c)
    ensures Within(b, c)
  {
    AlignedNested(c.addr, c.order, b.addr, b.order);
  }

  /** The halves of a block are well formed, disjoint, make up the block, and are buddies. */
  lemma HalvesOf(b: Block, maxOrder: nat)
    requires WellFormed(b, maxOrder) && b.order > MIN_ORDER
    ensures WellFormed(Lower(b), maxOrder) && WellFormed(Upper(b), maxOrder)
    ensures Buddy(Lower(b)) == Upper(b) && Buddy(Upper(b)) == Lower(b)
    ensures Lower(b) != Upper(b) && Disjoint(Lower(b), Upper(b))
    ensures Size(Lower(b)) + Size(Upper(b)) == Size(b)
    ensures forall x :: Contains(b, x) <==> Contains(Lower(b), x) || Contains(Upper(b), x)
  {
    EvenAndOdd(b.addr, b.order - 1);
    hide Pow2;
  }

  /** An address aligned to one order is an even multiple of the order below, its middle an odd one. */
  lemma EvenAndOdd(addr: nat, k: nat)
    requires Aligned(addr, k + 1)
    ensures var m := Pow2(k);
            && Pow2(k + 1) == 2 * m && Aligned(addr, k) && Aligned(addr + m, k)
            && addr / m % 2 == 0 && (addr + m) / m % 2 == 1
  {
    var m := Pow2(k);
    var q := Quotient(addr, Pow2(k + 1));
    assert q * (2 * m) == (2 * q) * m + 0 by { MulAssoc(q, 2, m); }
    DivModUnique(addr, m, 2 * q, 0);
    MulNext(2 * q, m);
    DivModUnique(addr + m, m, 2 * q + 1, 0);
  }

  lemma DoubleIndex(addr: nat, m: nat, q: nat)
    requires m > 0 && addr == q * m
    ensures q % 2 == 0 ==> addr == q / 2 * (2 * m)
    ensures q % 2 == 1 ==> addr == q / 2 * (2 * m) + m
  {
    if q % 2 == 0 {
      assert q == 2 * (q / 2);
    } else {
      assert q == 2 * (q / 2) + 1;
    }
  }

  /** Merging undoes splitting: the parent's halves are the block and its buddy. */
  lemma ParentOf(b: Block, maxOrder: nat)
    requires WellFormed(b, maxOrder) && b.order < maxOrder
    ensures WellFormed(Parent(b), maxOrder)
    ensures (Lower(Parent(b)) == b && Upper(Parent(b)) == Buddy(b))
         || (Lower(Parent(b)) == Buddy(b) && Upper(Parent(b)) == b)
    ensures WellFormed(Buddy(b), maxOrder) && Buddy(b) != b
  {
    var m := Pow2(b.order);
    var q := Quotient(b.addr, m);
    DoubleIndex(b.addr, m, q);
    MulMod(q / 2, 2 * m);
    assert Parent(b).addr == q / 2 * (2 * m);
    HalvesOf(Parent(b), maxOrder);
  }

  lemma BuddyInvolution(b: Block, maxOrder: nat)
    requires WellFormed(b, maxOrder) && b.order < maxOrder
    ensures Buddy(Buddy(b)) == b
  {
    ParentOf(b, maxOrder);
    HalvesOf(Parent(b), maxOrder);
  }

  /** In a coalesced tiling every aligned, wholly covered range lies inside one block. */
  lemma {:induction false} RangeInOneBlock(t: set<Block>, maxOrder: nat, r: Block) returns (b: Block)
    requires Tiling(t, maxOrder) && Coalesced(t, maxOrder)
    requires WellFormed(r, maxOrder) && WhollyCovered(r, t)
    ensures b in t && Within(r, b)
    decreases r.order
  {
    if r.order == MIN_ORDER {
      assert Contains(r, r.addr);
      b :| b in t && Contains(b, r.addr);
      Nested(r, b, maxOrder);
    } else {
      HalvesOf(r, maxOrder);
      b := RangeInOneBlock(t, maxOrder, Lower(r));
      var c := RangeInOneBlock(t, maxOrder, Upper(r));
      if b.order >= r.order {
        Nested(r, b, maxOrder);
      } else if c.order >= r.order {
        Nested(r, c, maxOrder);
        b := c;
      } else {
        HalfMatches(Lower(r), b);
        HalfMatches(Upper(r), c);
        assert false;
      }
    }
  }

  lemma HalfMatches(h: Block, b: Block)
    requires Within(h, b) && b.order <= h.order
    ensures b == h
  {
    Pow2Monotone(b.order, h.order);
  }

  /** Two blocks of one tiling that overlap are the same block. */
  lemma OverlapIsEqual(t: set<Block>, maxOrder: nat, b: Block, c: Block)
    requires Tiling(t, maxOrder) && b in t && c in t && Within(b, c)
    ensures b == c
  {
  }

  lemma UniqueOneWay(t: set<Block>, u: set<Block>, maxOrder: nat, b: Block)
    requires Tiling(t, maxOrder) && Coalesced(t, maxOrder)
    requires Tiling(u, maxOrder) && Coalesced(u, maxOrder)
    requires SameBytes(t, u) && b in t
    ensures b in u
  {
    assert WhollyCovered(b, u) by {
      forall x | Contains(b, x) ensures Covers(u, x) {
        assert Covers(t, x);
      }
    }
    var c := RangeInOneBlock(u, maxOrder, b);
    assert WhollyCovered(c, t) by {
      forall x | Contains(c, x) ensures Covers(t, x) {
        assert Covers(u, x);
      }
    }
    var d := RangeInOneBlock(t, maxOrder, c);
    OverlapIsEqual(t, maxOrder, b, d);
    if c.order <= b.order {
      HalfMatches(b, c);
    } else {
      HalfMatches(c, b);
    }
  }

  /** A coalesced tiling is determined by the bytes it covers. */
  lemma CoalescedTilingUnique(t: set<Block>, u: set<Block>, maxOrder: nat)
    requires Tiling(t, maxOrder) && Coalesced(t, maxOrder)
    requires Tiling(u, maxOrder) && Coalesced(u, maxOrder)
    requires SameBytes(t, u)
    ensures t == u
  {
    forall b | b in t ensures b in u {
      UniqueOneWay(t, u, maxOrder, b);
    }
    forall b | b in u ensures b in t {
      UniqueOneWay(u, t, maxOrder, b);
    }
  }
}
