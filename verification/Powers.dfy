/** Powers of two and the alignment facts the page allocators rely on. */
module Powers {

  /** `1 << n` on an unbounded integer. */
  function Pow2(n: nat): (p: nat)
    ensures p > 0
  {
    if n == 0 then 1 else 2 * Pow2(n - 1)
  }

  /** The `ALIGN_UP` macro, for any positive alignment. */
  function AlignUp(x: nat, a: nat): nat
    requires a > 0
  {
    (x + a - 1) / a * a
  }

  ghost predicate Aligned(x: nat, order: nat) {
    x % Pow2(order) == 0
  }

  lemma {:induction false} Pow2Split(k: nat, o: nat)
    requires k <= o
    ensures Pow2(o) == Pow2(o - k) * Pow2(k)
  {
    if k == o {
    } else {
      Pow2Split(k, o - 1);
      assert Pow2(o) == 2 * (Pow2(o - 1 - k) * Pow2(k));
    }
  }

  lemma {:induction false} Pow2Monotone(k: nat, o: nat)
    requires k <= o
    ensures Pow2(k) <= Pow2(o)
    ensures k < o ==> 2 * Pow2(k) <= Pow2(o)
  {
    if k < o {
      if k < o - 1 {
        Pow2Monotone(k, o - 1);
      }
    }
  }

  lemma MulOrder(x: int, y: int, m: int)
    requires m > 0
    ensures x <= y <==> x * m <= y * m
  {
    assert (y - x) * m == y * m - x * m;
    if x <= y {
      assert (y - x) * m >= 0;
    } else {
      assert (y - x) * m < 0;
    }
  }

  lemma Quotient(x: nat, m: nat) returns (q: nat)
    requires m > 0 && x % m == 0
    ensures x == q * m && q == x / m
  {
    q := x / m;
  }

  lemma MulMod(q: nat, m: nat)
    requires m > 0
    ensures (q * m) % m == 0 && q * m / m == q
  {
    assert q * m == q * m + 0;
    DivModUnique(q * m, m, q, 0);
  }

  lemma DivModUnique(x: int, m: int, q: int, r: int)
    requires m > 0 && x == q * m + r && 0 <= r < m
    ensures x / m == q && x % m == r
  {
    var q' := x / m;
    assert x == q' * m + x % m;
    MulOrder(q + 1, q', m);
    MulOrder(q' + 1, q, m);
    assert (q + 1) * m == q * m + m && (q' + 1) * m == q' * m + m;
  }

  /** An address aligned to a larger power of two is aligned to every smaller one. */
  lemma AlignedDown(x: nat, k: nat, o: nat)
    requires k <= o && Aligned(x, o)
    ensures Aligned(x, k)
  {
    Pow2Split(k, o);
    var q := Quotient(x, Pow2(o));
    MulAssoc(q, Pow2(o - k), Pow2(k));
    MulMod(q * Pow2(o - k), Pow2(k));
  }

  lemma MulNext(n: int, m: int)
    ensures (n + 1) * m == n * m + m
  {
  }

  lemma MulAssoc(a: int, b: int, c: int)
    ensures a * (b * c) == (a * b) * c
  {
  }

  lemma SumOfMultiples(x: nat, y: nat, m: nat)
    requires m > 0 && x % m == 0 && y % m == 0
    ensures (x + y) % m == 0
  {
    var q := Quotient(x, m);
    var r := Quotient(y, m);
    assert (q + r) * m == q * m + r * m;
    MulMod(q + r, m);
  }

  lemma AlignedNext(x: nat, o: nat)
    requires Aligned(x, o)
    ensures Aligned(x + Pow2(o), o)
  {
    MulMod(1, Pow2(o));
    SumOfMultiples(x, Pow2(o), Pow2(o));
  }

  /** `ALIGN_UP` returns the least multiple of the alignment that is not below its argument. */
  lemma AlignUpIsLeast(x: nat, a: nat)
    requires a > 0
    ensures x <= AlignUp(x, a) < x + a
    ensures AlignUp(x, a) % a == 0
    ensures x % a == 0 ==> AlignUp(x, a) == x
  {
    var q := (x + a - 1) / a;
    assert x + a - 1 == q * a + (x + a - 1) % a;
    MulMod(q, a);
    if x % a == 0 {
      var r := Quotient(x, a);
      DivModUnique(x + a - 1, a, r, a - 1);
    }
  }

  /** Two aligned power-of-two intervals that meet are nested. */
  lemma AlignedNested(a: nat, o: nat, c: nat, k: nat)
    requires k <= o && Aligned(a, o) && Aligned(c, k)
    requires a < c + Pow2(k) && c < a + Pow2(o)
    ensures a <= c && c + Pow2(k) <= a + Pow2(o)
  {
    Pow2Split(k, o);
    AlignedDown(a, k, o);
    var x := Quotient(a, Pow2(k));
    var y := Quotient(c, Pow2(k));
    MultiplesNested(x, Pow2(o - k), y, Pow2(k));
  }

  lemma MultiplesNested(x: nat, j: nat, y: nat, m: nat)
    requires m > 0
    requires x * m < y * m + m && y * m < x * m + j * m
    ensures x * m <= y * m && y * m + m <= x * m + j * m
  {
    assert (y + 1) * m == y * m + m;
    assert (x + j) * m == x * m + j * m;
    MulOrder(y + 1, x, m);
    MulOrder(x + j, y, m);
    MulOrder(x, y, m);
    MulOrder(y + 1, x + j, m);
  }
}
