/** Credits, shares and starvation: how long a ready queue, or a ready process, can be passed over. */
module Fairness {
  import opened Sequences
  import opened SchedulerModel
  import opened SchedulerInvariant

  // ----- sums of credits -----

  function Below(c: Credits, q: nat): nat
    requires q <= PRIO
  {
    if q == 0 then 0 else Below(c, q - 1) + c[q - 1]
  }

  function Total(c: Credits): nat {
    Below(c, PRIO)
  }

  function Others(c: Credits, q: Priority): nat {
    c[0] + c[1] + c[2] + c[3] - c[q]
  }

  /** Picks a non-empty queue may have to wait for: all credit of the others, the credit of the higher
      queues once more, and its own pick. */
  function Bound(q: Priority): (b: nat)
    ensures b == [7, 12, 16, 19][q]
  {
    assert Below(WEIGHTS, 1) == 4 && Below(WEIGHTS, 2) == 7 && Below(WEIGHTS, 3) == 9;
    Others(WEIGHTS, q) + Below(WEIGHTS, q) + 1
  }

  /** An upper bound on the picks of other queues before queue `q` is picked. */
  function Delay(c: Credits, q: Priority): nat {
    if c[q] > 0 then Below(c, q) else Others(c, q) + Below(WEIGHTS, q)
  }

  lemma BelowIs(c: Credits)
    ensures Below(c, 0) == 0 && Below(c, 1) == c[0] && Below(c, 2) == c[0] + c[1]
    ensures Below(c, 3) == c[0] + c[1] + c[2] && Total(c) == c[0] + c[1] + c[2] + c[3]
  {
  }

  lemma DelayBounded(c: Credits, q: Priority)
    requires CreditsOk(c)
    ensures Delay(c, q) < Bound(q)
  {
    BelowIs(c);
    BelowIs(WEIGHTS);
  }

  /** Every pick of another queue brings a non-empty queue strictly closer to its own. */
  lemma PickProgress(ready: Queues, c: Credits, q: Priority)
    requires CreditsOk(c) && ready[q] != []
    ensures var (c', p) := PickQueue(ready, c);
            CreditsOk(c') && p < PRIO && (p != q ==> Delay(c', q) < Delay(c, q))
  {
    PickKeepsCredits(ready, c);
    PickFindsWork(ready, c);
    var (c', p) := PickQueue(ready, c);
    UsableIs(ready, c);
    BelowIs(c);
    BelowIs(c');
    BelowIs(WEIGHTS);
    hide Below, UsableCredits;
  }

  // ----- sequences of picks, whatever happens to the queues in between -----

  /** The credits after the first `n` picks, the i-th made with queue contents `readys[i]`. */
  function CreditsAfter(readys: seq<Queues>, c: Credits, n: nat): Credits
    requires n <= |readys|
  {
    if n == 0 then c else PickQueue(readys[n - 1], CreditsAfter(readys, c, n - 1)).0
  }

  function Picked(readys: seq<Queues>, c: Credits, i: nat): nat
    requires i < |readys|
  {
    PickQueue(readys[i], CreditsAfter(readys, c, i)).1
  }

  lemma {:induction false} CreditsStayOk(readys: seq<Queues>, c: Credits, n: nat)
    requires n <= |readys| && CreditsOk(c)
    ensures CreditsOk(CreditsAfter(readys, c, n))
  {
    if n > 0 {
      CreditsStayOk(readys, c, n - 1);
      PickKeepsCredits(readys[n - 1], CreditsAfter(readys, c, n - 1));
    }
  }

  lemma {:induction false} DelayShrinks(readys: seq<Queues>, c: Credits, q: Priority, n: nat)
    requires n <= |readys| && CreditsOk(c) && forall i | 0 <= i < n :: readys[i][q] != [] && Picked(readys, c, i) != q
    ensures Delay(CreditsAfter(readys, c, n), q) + n <= Delay(c, q)
  {
    hide PickQueue;
    if n > 0 {
      hide Delay, CreditsOk;
      DelayShrinks(readys, c, q, n - 1);
      CreditsStayOk(readys, c, n - 1);
      assert Picked(readys, c, n - 1) != q && readys[n - 1][q] != [];
      PickProgress(readys[n - 1], CreditsAfter(readys, c, n - 1), q);
    }
  }

  /** Starvation bound: a queue that stays non-empty is picked within `Bound(q)` picks, at most 19. */
  lemma PickedWithinBound(readys: seq<Queues>, c: Credits, q: Priority)
    requires CreditsOk(c) && |readys| >= Bound(q) && forall i | 0 <= i < Bound(q) :: readys[i][q] != []
    ensures exists i | 0 <= i < Bound(q) :: Picked(readys, c, i) == q
    ensures Bound(q) <= 19
  {
    if forall i | 0 <= i < Bound(q) :: Picked(readys, c, i) != q {
      DelayShrinks(readys, c, q, Bound(q));
      DelayBounded(c, q);
    }
  }

  // ----- shares -----

  function Count(readys: seq<Queues>, c: Credits, p: nat, n: nat): nat
    requires n <= |readys|
  {
    if n == 0 then 0 else Count(readys, c, p, n - 1) + One(Picked(readys, c, n - 1) == p)
  }

  predicate Refills(readys: seq<Queues>, c: Credits, i: nat)
    requires i < |readys|
  {
    UsableCredits(readys[i], CreditsAfter(readys, c, i), 0) == 0
  }

  function RefillCount(readys: seq<Queues>, c: Credits, n: nat): nat
    requires n <= |readys|
  {
    if n == 0 then 0 else RefillCount(readys, c, n - 1) + One(Refills(readys, c, n - 1))
  }

  /** From one refill up to the next, queue `p` is picked at most `WEIGHTS[p]` times. */
  lemma {:induction false} PicksBetweenRefills(readys: seq<Queues>, c: Credits, p: Priority, n: nat)
    requires 0 < n <= |readys| && CreditsOk(c) && forall i | 1 <= i < n :: !Refills(readys, c, i)
    ensures Count(readys, c, p, n) + CreditsAfter(readys, c, n)[p] <= WEIGHTS[p]
  {
    OneMoreCount(readys, c, p, n - 1);
    SpendsOne(readys, c, p, n - 1);
    hide PickQueue, Picked, CreditsOk, UsableCredits;
    if n > 1 {
      PicksBetweenRefills(readys, c, p, n - 1);
      assert !Refills(readys, c, n - 1);
    }
  }

  lemma SpendsOne(readys: seq<Queues>, c: Credits, p: Priority, n: nat)
    requires n < |readys| && CreditsOk(c)
    ensures var d, d' := CreditsAfter(readys, c, n), CreditsAfter(readys, c, n + 1);
            d'[p] + One(Picked(readys, c, n) == p) == (if Refills(readys, c, n) then WEIGHTS[p] else d[p])
    ensures CreditsAfter(readys, c, n)[p] <= WEIGHTS[p]
  {
    CreditsStayOk(readys, c, n);
    PickFindsWork(readys[n], CreditsAfter(readys, c, n));
    hide UsableCredits;
  }

  ghost predicate Busy(ready: Queues) {
    forall i | 0 <= i < PRIO :: ready[i] != []
  }

  lemma BusyPick(ready: Queues, d: Credits)
    requires Busy(ready) && CreditsOk(d)
    ensures UsableCredits(ready, d, 0) == Total(d)
    ensures var (d', p) := PickQueue(ready, d);
            && p < PRIO && CreditsOk(d') && Total(d') <= 9
            && d' == if Total(d) == 0 then WEIGHTS[p := WEIGHTS[p] - 1] else d[p := d[p] - 1]
  {
    PickKeepsCredits(ready, d);
    PickFindsWork(ready, d);
    UsableIs(ready, d);
    var (d', p) := PickQueue(ready, d);
    BelowIs(d);
    BelowIs(d');
    hide Below, UsableCredits;
  }

  function One(b: bool): nat {
    if b then 1 else 0
  }

  lemma OneMoreCount(readys: seq<Queues>, c: Credits, p: nat, n: nat)
    requires n < |readys|
    ensures Count(readys, c, p, n + 1) == Count(readys, c, p, n) + One(Picked(readys, c, n) == p)
  {
  }

  /** One pick keeps one queue's balance. */
  lemma StepBalance(count: nat, d: nat, d': nat, c: nat, w: nat, k: nat, picked: bool, refill: bool)
    requires 1 <= w <= 4 && count + d == c + w * k && (refill ==> d == 0)
    requires d' + One(picked) == if refill then w else d
    ensures count + One(picked) + d' == c + w * (k + One(refill))
  {
    assert w * (k + 1) == w * k + w;
  }

  lemma OneMorePick(readys: seq<Queues>, c: Credits, p: Priority, n: nat)
    requires n < |readys| && CreditsOk(c) && Busy(readys[n])
    ensures var d, d', z := CreditsAfter(readys, c, n), CreditsAfter(readys, c, n + 1), Refills(readys, c, n);
            && z == (Total(d) == 0) && (z ==> d[p] == 0)
            && d'[p] + One(Picked(readys, c, n) == p) == (if z then WEIGHTS[p] else d[p])
            && Total(d') <= 9 && Total(d') + 1 == Total(d) + 10 * One(z)
  {
    var d := CreditsAfter(readys, c, n);
    CreditsStayOk(readys, c, n);
    BusyPick(readys[n], d);
    BelowIs(d);
    BelowIs(CreditsAfter(readys, c, n + 1));
    hide Below, UsableCredits, PickQueue, Busy, CreditsOk;
  }

  /** Picks of queue `p` so far are the credit it had and was granted, less what it still has. */
  ghost predicate Balanced(readys: seq<Queues>, c: Credits, p: Priority, n: nat)
    requires n <= |readys|
  {
    Count(readys, c, p, n) + CreditsAfter(readys, c, n)[p] == c[p] + WEIGHTS[p] * RefillCount(readys, c, n)
  }

  /** While no queue is empty, picks and refills balance queue by queue and in total. */
  lemma {:induction false} CreditBalance(readys: seq<Queues>, c: Credits, p: Priority, n: nat)
    requires n <= |readys| && CreditsOk(c) && forall i | 0 <= i < n :: Busy(readys[i])
    ensures Balanced(readys, c, p, n)
    ensures n + Total(CreditsAfter(readys, c, n)) == Total(c) + 10 * RefillCount(readys, c, n)
    ensures n > 0 ==> Total(CreditsAfter(readys, c, n)) <= 9
  {
    hide PickQueue, Total, Busy, CreditsOk, Refills, Picked;
    if n > 0 {
      hide Balanced, CreditsAfter, Count;
      CreditBalance(readys, c, p, n - 1);
      OneMorePick(readys, c, p, n - 1);
      BalanceOneMore(readys, c, p, n - 1);
    }
  }

  lemma BalanceOneMore(readys: seq<Queues>, c: Credits, p: Priority, n: nat)
    requires n < |readys| && CreditsOk(c) && Busy(readys[n]) && Balanced(readys, c, p, n)
    ensures Balanced(readys, c, p, n + 1)
  {
    hide PickQueue, Total, Count, CreditsAfter, RefillCount, Busy, Picked, CreditsOk, Refills, One;
    OneMoreCount(readys, c, p, n);
    OneMoreRefill(readys, c, n);
    OneMorePick(readys, c, p, n);
    StepBalance(Count(readys, c, p, n), CreditsAfter(readys, c, n)[p], CreditsAfter(readys, c, n + 1)[p], c[p],
                WEIGHTS[p], RefillCount(readys, c, n), Picked(readys, c, n) == p, Refills(readys, c, n));
  }

  lemma OneMoreRefill(readys: seq<Queues>, c: Credits, n: nat)
    requires n < |readys|
    ensures RefillCount(readys, c, n + 1) == RefillCount(readys, c, n) + One(Refills(readys, c, n))
  {
  }

  /** With all four queues busy a round is exactly ten picks, split 4:3:2:1, and ends with no credit. */
  lemma RoundIsExact(readys: seq<Queues>, c: Credits)
    requires |readys| >= 10 && CreditsOk(c) && Total(c) == 0 && forall i | 0 <= i < 10 :: Busy(readys[i])
    ensures Total(CreditsAfter(readys, c, 10)) == 0
    ensures forall p | 0 <= p < PRIO :: Count(readys, c, p, 10) == WEIGHTS[p]
  {
    hide PickQueue, Below, CreditsAfter, Count, RefillCount;
    CreditsStayOk(readys, c, 10);
    BelowIs(c);
    BelowIs(CreditsAfter(readys, c, 10));
    forall p | 0 <= p < PRIO ensures Count(readys, c, p, 10) == WEIGHTS[p] {
      CreditBalance(readys, c, p, 10);
    }
    CreditBalance(readys, c, 0, 10);
  }

  /** Over any number of picks with all queues busy, the share of queue `p` is within twice its weight
      of n * WEIGHTS[p] / 10. */
  lemma ShareIsProportional(readys: seq<Queues>, c: Credits, p: Priority, n: nat)
    requires n <= |readys| && CreditsOk(c) && forall i | 0 <= i < n :: Busy(readys[i])
    ensures -20 * WEIGHTS[p] <= 10 * Count(readys, c, p, n) - n * WEIGHTS[p] <= 20 * WEIGHTS[p]
  {
    hide PickQueue, Below, CreditsAfter, Count, RefillCount;
    CreditBalance(readys, c, p, n);
    CreditsStayOk(readys, c, n);
    BelowIs(c);
    BelowIs(CreditsAfter(readys, c, n));
    ShareArithmetic(Count(readys, c, p, n), c[p], CreditsAfter(readys, c, n)[p], Total(c),
                    Total(CreditsAfter(readys, c, n)), RefillCount(readys, c, n), n, WEIGHTS[p]);
  }

  lemma ShareArithmetic(count: nat, cp: nat, dp: nat, tc: nat, td: nat, k: nat, n: nat, w: nat)
    requires 1 <= w <= 4 && cp <= w && dp <= w && tc <= 10 && td <= 10
    requires n == tc - td + 10 * k && count + dp == cp + w * k
    ensures -20 * w <= 10 * count - n * w <= 20 * w
  {
    if w == 1 {
    } else if w == 2 {
    } else if w == 3 {
    } else {
      assert w == 4;
    }
  }

  // ----- the bound is attained -----

  /** While every queue is busy the delay is exact: it counts the picks of other queues. */
  lemma DelayIsExact(ready: Queues, c: Credits, q: Priority)
    requires CreditsOk(c) && Busy(ready)
    ensures var (c', p) := PickQueue(ready, c);
            && (p == q <==> Delay(c, q) == 0) && (p != q ==> Delay(c', q) == Delay(c, q) - 1)
  {
    BusyPick(ready, c);
    FirstIsPicked(ready, c);
    BelowIs(c);
    BelowIs(PickQueue(ready, c).0);
    BelowIs(WEIGHTS);
    hide Below, UsableCredits, PickQueue;
  }

  lemma FirstIsPicked(ready: Queues, c: Credits)
    requires CreditsOk(c) && Busy(ready)
    ensures var p, d := PickQueue(ready, c).1, if Total(c) == 0 then WEIGHTS else c;
            p < PRIO && d[p] > 0 && forall k | 0 <= k < p :: d[k] == 0
  {
    BusyPick(ready, c);
    hide UsableCredits, Below;
  }

  /** With all queues busy from pick `k` on, queue `q` is next picked after exactly `Delay` others. */
  lemma {:induction false} WaitsExactly(readys: seq<Queues>, c: Credits, q: Priority, k: nat, n: nat)
    requires CreditsOk(c) && k <= n < |readys| && forall i | k <= i <= n :: Busy(readys[i])
    requires Delay(CreditsAfter(readys, c, k), q) == n - k
    ensures Picked(readys, c, n) == q && forall i | k <= i < n :: Picked(readys, c, i) != q
    decreases n - k
  {
    hide PickQueue, Delay, Busy, CreditsOk;
    CreditsStayOk(readys, c, k);
    DelayIsExact(readys[k], CreditsAfter(readys, c, k), q);
    if k < n {
      WaitsExactly(readys, c, q, k + 1, n);
    }
  }

  /** Queue `q` is the only one with work. */
  ghost predicate Alone(ready: Queues, q: Priority) {
    forall j | 0 <= j < PRIO :: ready[j] != [] <==> j == q
  }

  /** Served alone while it has credit, queue `q` uses up its own and touches no other. */
  lemma {:induction false} AloneDrains(readys: seq<Queues>, c: Credits, q: Priority, n: nat)
    requires n <= |readys| && n <= c[q]
    requires forall i | 0 <= i < n :: Alone(readys[i], q)
    ensures CreditsAfter(readys, c, n) == c[q := c[q] - n]
  {
    hide PickQueue, Alone;
    if n > 0 {
      assert Alone(readys[n - 1], q);
      AloneDrains(readys, c, q, n - 1);
      AlonePick(readys[n - 1], CreditsAfter(readys, c, n - 1), q);
      DrainOneMore(c, q, c[q] - (n - 1));
    } else {
      assert c[q := c[q]] == c;
    }
  }

  lemma DrainOneMore(c: Credits, q: Priority, k: nat)
    requires k > 0
    ensures c[q := k][q := k - 1] == c[q := k - 1]
  {
  }

  lemma AlonePick(ready: Queues, d: Credits, q: Priority)
    requires d[q] > 0 && Alone(ready, q)
    ensures PickQueue(ready, d).0 == d[q := d[q] - 1]
  {
    PickFindsWork(ready, d);
    UsableIs(ready, d);
    hide UsableCredits;
    var c := Refilled(ready, d);
    assert c == d;
    var k := FirstWithCredit(ready, c, 0);
    assert k == q;
  }

  /** The starvation bound is exact: from the initial credits, once queue `q` has been served alone until
      its credit is gone and then all queues are busy, exactly the `Bound(q)`-th pick is its own. */
  lemma BoundIsAttained(readys: seq<Queues>, q: Priority)
    requires |readys| >= WEIGHTS[q] + Bound(q)
    requires forall i | 0 <= i < WEIGHTS[q] :: Alone(readys[i], q)
    requires forall i | WEIGHTS[q] <= i < WEIGHTS[q] + Bound(q) :: Busy(readys[i])
    ensures Picked(readys, WEIGHTS, WEIGHTS[q] + Bound(q) - 1) == q
    ensures forall i | WEIGHTS[q] <= i < WEIGHTS[q] + Bound(q) - 1 :: Picked(readys, WEIGHTS, i) != q
  {
    hide Picked, CreditsAfter, Below, Busy, Alone;
    AloneDrains(readys, WEIGHTS, q, WEIGHTS[q]);
    BelowIs(WEIGHTS);
    WaitsExactly(readys, WEIGHTS, q, WEIGHTS[q], WEIGHTS[q] + Bound(q) - 1);
  }
}
