/** The filled circle: how close the integer midpoint loop stays to the true circle, and which pixels
    its horizontal lines cover. */
module Circle {

  const TWO_63: int := 0x8000_0000_0000_0000
  const TWO_64: int := 0x1_0000_0000_0000_0000

  type Word = w: int | 0 <= w < TWO_64

  /** A 64-bit word read as a signed integer. */
  function Signed(w: Word): (s: int)
    ensures -TWO_63 <= s < TWO_63
  {
    if w < TWO_63 then w else w - TWO_64
  }

  datatype Mid = Mid(y: int, p: int)

  /** `y` and `p` when `x` has reached `k`. */
  function At(r: int, k: nat): Mid {
    if k == 0 then Mid(r, 1 - r)
    else
      var m := At(r, k - 1);
      if m.p < 0 then Mid(m.y, m.p + 2 * k + 1) else Mid(m.y - 1, m.p + 2 * k + 1 - 2 * (m.y - 1))
  }

  function Y(r: int, k: nat): int {
    At(r, k).y
  }

  /** The loop gets as far as `x == k`. */
  predicate Visited(r: int, k: nat) {
    k == 0 || k - 1 < Y(r, k - 1)
  }

  function Sq(x: int): int {
    x * x
  }

  function Abs(x: int): nat {
    if x < 0 then -x else x
  }

  /** The pixels, relative to the centre, of the four lines of `fillCircleOctants`. */
  predicate Span(dx: int, dy: int, u: int, v: int) {
    (Abs(v) == dy && Abs(u) <= dx) || (Abs(v) == dx && Abs(u) <= dy)
  }

  /** The pixels painted before clipping, relative to the centre. */
  ghost predicate Painted(r: int, u: int, v: int) {
    exists k: nat :: Visited(r, k) && Span(k, Y(r, k), u, v)
  }

  // ----- the loop stays on the circle -----

  lemma {:induction false} VisitedBefore(r: int, j: nat, k: nat)
    requires j <= k && Visited(r, k) && r >= 1
    ensures Visited(r, j) && Y(r, k) <= Y(r, j)
  {
    if j < k {
      if k > 1 {
        var m := At(r, k - 2);
        assert Y(r, k - 1) <= m.y;
      }
      VisitedBefore(r, j, k - 1);
    }
  }

  lemma StepBounds(r: int, k: nat, m: Mid, m': Mid)
    requires m.p == Sq(k + 1) + Sq(m.y) - m.y - Sq(r) && k < m.y
    requires Sq(k) + Sq(m.y) - m.y < Sq(r) <= Sq(k) + Sq(m.y) + m.y
    requires m' == if m.p < 0 then Mid(m.y, m.p + 2 * (k + 1) + 1) else Mid(m.y - 1, m.p + 2 * (k + 1) + 1 - 2 * (m.y - 1))
    ensures m'.p == Sq(k + 2) + Sq(m'.y) - m'.y - Sq(r)
    ensures Sq(k + 1) + Sq(m'.y) - m'.y <= Sq(r) <= Sq(k + 1) + Sq(m'.y) + m'.y
    ensures k + 1 <= m'.y ==> Sq(k + 1) + Sq(m'.y) - m'.y < Sq(r)
  {
    assert Sq(m.y - 1) == Sq(m.y) - 2 * m.y + 1;
    assert Sq(k + 1) == Sq(k) + 2 * k + 1 && Sq(k + 2) == Sq(k + 1) + 2 * k + 3;
  }

  /** At every point the loop visits, the decision value is exact and the point is within half a row of
      the circle; below the diagonal the lower bound is strict. */
  lemma {:induction false} OnCircle(r: int, k: nat)
    requires r >= 1 && Visited(r, k)
    ensures var (y, p) := (At(r, k).y, At(r, k).p);
            && p == Sq(k + 1) + Sq(y) - y - Sq(r)
            && Sq(k) + Sq(y) - y <= Sq(r) <= Sq(k) + Sq(y) + y
            && (k <= y ==> Sq(k) + Sq(y) - y < Sq(r))
            && 0 <= y <= r && k <= y + 1
  {
    if k == 0 {
      assert Sq(r) - r < Sq(r);
    } else {
      VisitedBefore(r, k - 1, k);
      OnCircle(r, k - 1);
      hide Sq;
      StepBounds(r, k - 1, At(r, k - 1), At(r, k));
    }
  }

  /** No value of the loop leaves twice the radius, so 64 bits hold it for any radius below 2^62. */
  lemma LoopFits(r: int, k: nat)
    requires 1 <= r < 0x4000_0000_0000_0000 && Visited(r, k)
    ensures var (y, p) := (At(r, k).y, At(r, k).p);
            && k <= r && 0 <= y <= r && -TWO_63 <= p < TWO_63 && 2 * k + 1 < TWO_63
  {
    hide Sq;
    OnCircle(r, k);
    SquareNext(k);
    if k > 0 {
      VisitedBefore(r, k - 1, k);
      OnCircle(r, k - 1);
    }
  }

  predicate Fits(x: int) {
    -TWO_63 <= x < TWO_63
  }

  /** No line of the circle leaves 64 bits on either side of a centre coordinate exactly if the circle's
      extreme points do not. */
  lemma LinesFitIff(r: int, c: int)
    requires 1 <= r < 0x4000_0000_0000_0000
    ensures (forall k: nat | Visited(r, k) :: Fits(c - k) && Fits(c + k) && Fits(c - Y(r, k)) && Fits(c + Y(r, k)))
            <==> Fits(c - r) && Fits(c + r)
  {
    assert Visited(r, 0) && Y(r, 0) == r;
    hide Visited, At;
    if Fits(c - r) && Fits(c + r) {
      forall k: nat | Visited(r, k) ensures Fits(c - k) && Fits(c + k) && Fits(c - Y(r, k)) && Fits(c + Y(r, k)) {
        LoopFits(r, k);
      }
    }
  }

  lemma SquareNext(x: int)
    ensures Sq(x + 1) == Sq(x) + 2 * x + 1
  {
  }

  // ----- what is painted -----

  lemma SquareOrder(a: int, b: int)
    requires 0 <= a && 0 <= b
    ensures a <= b <==> Sq(a) <= Sq(b)
  {
    assert Sq(b) - Sq(a) == (b - a) * (b + a);
    if a <= b {
      assert (b - a) * (b + a) >= 0;
    } else {
      assert (a - b) * (b + a) > 0;
    }
  }

  lemma SquareAbs(x: int)
    ensures Sq(Abs(x)) == Sq(x)
  {
  }

  /** Nothing is painted beyond r^2 + r. */
  lemma PaintedIsClose(r: int, u: int, v: int)
    requires r >= 1 && Painted(r, u, v)
    ensures Sq(u) + Sq(v) <= Sq(r) + r
  {
    var k: nat :| Visited(r, k) && Span(k, Y(r, k), u, v);
    OnCircle(r, k);
    SquareAbs(u);
    SquareAbs(v);
    SquareOrder(Abs(u), if Abs(v) == Y(r, k) && Abs(u) <= k then k else Y(r, k));
    hide Sq, At;
  }

  /** The loop ends at or past the diagonal. */
  lemma {:induction false} Last(r: int, k: nat) returns (n: nat)
    requires r >= 1 && Visited(r, k)
    ensures k <= n && Visited(r, n) && n >= Y(r, n)
    decreases Y(r, k) - k
  {
    if k >= Y(r, k) {
      n := k;
    } else {
      n := Last(r, k + 1);
    }
  }

  /** Rows are skipped nowhere: from `y >= b` the loop comes to `y == b` or ends above it. */
  lemma {:induction false} ReachRow(r: int, k: nat, b: nat) returns (n: nat)
    requires r >= 1 && Visited(r, k) && Y(r, k) >= b
    ensures k <= n && Visited(r, n) && (Y(r, n) == b || (Y(r, n) > b && n >= Y(r, n)))
    decreases Y(r, k) - k
  {
    if Y(r, k) == b || k >= Y(r, k) {
      n := k;
    } else {
      n := ReachRow(r, k + 1, b);
    }
  }

  /** A point of the disc no further out than the diagonal lies under the visited column. */
  lemma UnderCurve(r: int, a: nat, b: nat)
    requires r >= 1 && a <= b && Sq(a) + Sq(b) <= Sq(r)
    ensures Visited(r, a) && b <= Y(r, a)
  {
    hide Sq, At;
    var n := Last(r, 0);
    OnCircle(r, n);
    if a > n {
      SquareOrder(n + 1, a);
      SquareOrder(n + 1, b);
      SquareOrder(Y(r, n), n);
      SquareNext(n);
    } else {
      VisitedBefore(r, a, n);
      OnCircle(r, a);
      var y := Y(r, a);
      SquareNext(y);
      if b > y {
        SquareOrder(y + 1, b);
      }
    }
  }

  /** Every pixel of the true disc is painted. */
  lemma DiscIsPainted(r: int, u: int, v: int)
    requires r >= 1 && Sq(u) + Sq(v) <= Sq(r)
    ensures Painted(r, u, v)
  {
    SquareAbs(u);
    SquareAbs(v);
    var a, b := Abs(u), Abs(v);
    hide Sq, At;
    if b <= a {
      UnderCurve(r, b, a);
      assert Span(b, Y(r, b), u, v);
    } else {
      UnderCurve(r, a, b);
      var n := ReachRow(r, a, b);
      if Y(r, n) == b {
        assert Span(n, Y(r, n), u, v);
      } else {
        VisitedBefore(r, b, n);
        assert Span(b, Y(r, b), u, v);
      }
    }
  }

  // ----- drawing -----

  class Screen {
    const frame: array2<nat>

    constructor (width: nat, height: nat)
      ensures fresh(frame) && frame.Length0 == width && frame.Length1 == height
    {
      frame := new nat[width, height];
    }

    /** `putPixelIfValid`: pixels outside the screen are dropped. */
    method PutPixelIfValid(color: nat, x: int, y: int)
      modifies frame
      ensures forall i, j | 0 <= i < frame.Length0 && 0 <= j < frame.Length1 ::
                frame[i, j] == if i == x && j == y then color else old(frame[i, j])
    {
      if 0 <= x < frame.Length0 && 0 <= y < frame.Length1 {
        frame[x, y] := color;
      }
    }

    method DrawHLine(color: nat, x1: int, x2: int, y: int)
      modifies frame
      ensures forall i, j | 0 <= i < frame.Length0 && 0 <= j < frame.Length1 ::
                frame[i, j] == if j == y && (x1 <= i <= x2 || x2 <= i <= x1) then color else old(frame[i, j])
    {
      var lo, hi := x1, x2;
      if lo > hi {
        lo, hi := hi, lo;
      }
      var x := lo;
      while x <= hi
        invariant lo <= x <= hi + 1
        invariant forall i, j | 0 <= i < frame.Length0 && 0 <= j < frame.Length1 ::
                    frame[i, j] == if j == y && lo <= i < x then color else old(frame[i, j])
      {
        PutPixelIfValid(color, x, y);
        x := x + 1;
      }
    }

    method FillCircleOctants(color: nat, xc: int, yc: int, dx: int, dy: int)
      requires dx >= 0 && dy >= 0
      modifies frame
      ensures forall i, j | 0 <= i < frame.Length0 && 0 <= j < frame.Length1 ::
                frame[i, j] == if Span(dx, dy, i - xc, j - yc) then color else old(frame[i, j])
    {
      DrawHLine(color, xc - dx, xc + dx, yc + dy);
      DrawHLine(color, xc - dx, xc + dx, yc - dy);
      DrawHLine(color, xc - dy, xc + dy, yc + dx);
      DrawHLine(color, xc - dy, xc + dy, yc - dx);
    }

    /** `drawCircle`: a radius whose sign bit is set counts as negative and paints the centre only. */
    method DrawCircle(radius: Word, color: nat, xCenter: Word, yCenter: Word)
      modifies frame
      ensures var (r, xc, yc) := (Signed(radius), Signed(xCenter), Signed(yCenter));
              forall i, j | 0 <= i < frame.Length0 && 0 <= j < frame.Length1 ::
                frame[i, j] == if (if r <= 0 then i == xc && j == yc else Painted(r, i - xc, j - yc))
                               then color else old(frame[i, j])
    {
      var xc, yc, r := Signed(xCenter), Signed(yCenter), Signed(radius);
      if r <= 0 {
        PutPixelIfValid(color, xc, yc);
        return;
      }
      var x: nat, y, p := 0, r, 1 - r;
      FillCircleOctants(color, xc, yc, x, y);
      PaintedFirst(r);
      while x < y
        invariant Mid(y, p) == At(r, x) && Visited(r, x) && y >= 0
        invariant forall i, j | 0 <= i < frame.Length0 && 0 <= j < frame.Length1 ::
                    frame[i, j] == if PaintedUpTo(r, x, i - xc, j - yc) then color else old(frame[i, j])
        decreases y - x
      {
        x := x + 1;
        if p < 0 {
          p := p + 2 * x + 1;
        } else {
          y := y - 1;
          p := p + 2 * x + 1 - 2 * y;
        }
        FillCircleOctants(color, xc, yc, x, y);
        PaintedNext(r, x);
      }
      AllPainted(r, x);
    }
  }

  ghost predicate PaintedUpTo(r: int, n: nat, u: int, v: int) {
    exists k: nat :: k <= n && Span(k, Y(r, k), u, v)
  }

  lemma PaintedFirst(r: int)
    ensures forall u, v :: PaintedUpTo(r, 0, u, v) <==> Span(0, r, u, v)
  {
    forall u, v ensures PaintedUpTo(r, 0, u, v) <==> Span(0, r, u, v) {
      assert Y(r, 0) == r;
      if Span(0, r, u, v) {
        assert Span(0, Y(r, 0), u, v);
      }
    }
  }

  lemma PaintedNext(r: int, n: nat)
    requires n > 0
    ensures forall u, v :: PaintedUpTo(r, n, u, v) <==> PaintedUpTo(r, n - 1, u, v) || Span(n, Y(r, n), u, v)
  {
    forall u, v ensures PaintedUpTo(r, n, u, v) <==> PaintedUpTo(r, n - 1, u, v) || Span(n, Y(r, n), u, v) {
      if PaintedUpTo(r, n, u, v) {
        var k: nat :| k <= n && Span(k, Y(r, k), u, v);
      }
    }
  }

  /** When the loop has ended, every visited line has been drawn. */
  lemma AllPainted(r: int, n: nat)
    requires r >= 1 && Visited(r, n) && n >= Y(r, n)
    ensures forall u, v :: PaintedUpTo(r, n, u, v) <==> Painted(r, u, v)
  {
    forall k: nat | Visited(r, k) ensures k <= n {
      if k > n {
        VisitedBefore(r, n + 1, k);
      }
    }
    forall k: nat | k <= n ensures Visited(r, k) {
      VisitedBefore(r, k, n);
    }
    hide Span, Visited;
    forall u, v ensures PaintedUpTo(r, n, u, v) <==> Painted(r, u, v) {
      if PaintedUpTo(r, n, u, v) {
        var k: nat :| k <= n && Span(k, Y(r, k), u, v);
      }
      if Painted(r, u, v) {
        var k: nat :| Visited(r, k) && Span(k, Y(r, k), u, v);
      }
    }
  }
}
