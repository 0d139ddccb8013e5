/** Grid coordinates and the exact integer arithmetic that stands in for the
    simulation's floating-point helpers (clamping, Euclidean distance,
    truncating casts and Python's float modulo). */
module Geometry {

  /** An `(x, y)` tuple of the simulation. */
  datatype Pos = Pos(x: int, y: int)

  function Min(a: int, b: int): (r: int)
  {
    if a <= b then a else b
  }

  function Max(a: int, b: int): (r: int)
  {
    if a >= b then a else b
  }

  /** `max(0, min(size - 1, v))`, the clamp every coordinate update goes through. */
  function Clamp(v: int, size: int): (r: int)
    ensures size >= 1 ==> 0 <= r < size
    ensures 0 <= v < size ==> r == v
    ensures size >= 1 && v < 0 ==> r == 0
    ensures size >= 1 && v >= size ==> r == size - 1
  {
    Max(0, Min(size - 1, v))
  }

  /** Both coordinates lie in `[0, size-1]`. */
  predicate InGrid(p: Pos, size: int)
  {
    0 <= p.x < size && 0 <= p.y < size
  }

  function ClampPos(x: int, y: int, size: int): (r: Pos)
    ensures size >= 1 ==> InGrid(r, size)
    ensures InGrid(Pos(x, y), size) ==> r == Pos(x, y)
  {
    Pos(Clamp(x, size), Clamp(y, size))
  }

  /** Clamping an in-grid coordinate plus an offset of at most `k` lands at
      most `k` away from it. */
  lemma ClampNear(c: int, d: int, k: int, size: int)
    ensures 0 <= c < size && -k <= d <= k ==> -k <= Clamp(c + d, size) - c <= k
  {
  }

  /** The squared Euclidean distance; `sqrt(DistSq(a, b)) <= r` iff `DistSq(a, b) <= r * r`. */
  function DistSq(a: Pos, b: Pos): (r: nat)
  {
    (a.x - b.x) * (a.x - b.x) + (a.y - b.y) * (a.y - b.y)
  }

  /** A squared distance is zero exactly between equal points, and at most
      `k * k` when both coordinates differ by at most `k`. */
  lemma DistSqBounds(a: Pos, b: Pos, k: int)
    ensures DistSq(a, b) == 0 <==> a == b
    ensures -k <= a.x - b.x <= k && -k <= a.y - b.y <= k ==> DistSq(a, b) <= 2 * k * k
  {
    var dx, dy := a.x - b.x, a.y - b.y;
    if -k <= dx <= k && -k <= dy <= k {
      assert dx * dx <= k * k by { SquareBound(dx, k); }
      assert dy * dy <= k * k by { SquareBound(dy, k); }
    }
  }

  lemma SquareBound(d: int, k: int)
    requires -k <= d <= k
    ensures d * d <= k * k
  {
    var e := if d < 0 then -d else d;
    assert d * d == e * e;
    assert e * e <= e * k <= k * k;
  }

  lemma DivBounds(a: int, m: int)
    requires a >= 0 && m > 0
    ensures 0 <= a / m && (a / m) * m <= a < (a / m) * m + m
  {
  }

  /** Python's `int()` of the quotient `a / m` (truncation toward zero), the
      behaviour of numpy's `astype(int)` on a mean. */
  function TruncDiv(a: int, m: int): (r: int)
    requires m > 0
    ensures a >= 0 ==> 0 <= r && r * m <= a < r * m + m
    ensures a < 0 ==> r <= 0 && r * m - m < a <= r * m
  {
    if a >= 0 then DivBounds(a, m); a / m
    else DivBounds(-a, m); -((-a) / m)
  }

  /** Python's `int()` of a float: truncation toward zero. */
  function Trunc(v: real): (r: int)
    ensures v >= 0.0 ==> 0 <= r && r as real <= v < r as real + 1.0
    ensures v < 0.0 ==> r <= 0 && r as real - 1.0 < v <= r as real
  {
    if v >= 0.0 then v.Floor else -((-v).Floor)
  }

  /** Truncating the integer quotient agrees with truncating the exact real
      quotient, so the integer mean is the one `astype(int)` yields. */
  lemma TruncDivReal(a: int, m: int)
    requires m > 0
    ensures TruncDiv(a, m) == Trunc(a as real / m as real)
  {
    var r, mr := TruncDiv(a, m), m as real;
    var q := a as real / mr;
    assert a as real == q * mr;
    if a >= 0 {
      QuotientBelow(a, m, r, q);
      FloorOf(q, r);
    } else {
      QuotientAbove(a, m, r, q);
      if q < 0.0 {
        FloorOf(-q, -r);
      }
    }
  }

  /** `r * m <= a < r * m + m` places the real quotient in `[r, r + 1)`. */
  lemma QuotientBelow(a: int, m: int, r: int, q: real)
    requires m > 0 && r * m <= a < r * m + m && a as real == q * m as real
    ensures r as real <= q < r as real + 1.0
  {
    var mr, rr, lo := m as real, r as real, r * m;
    CastMul(r, m);
    assert lo as real <= a as real < lo as real + mr;
    assert lo as real + mr == (rr + 1.0) * mr;
    ScaleDown(rr, q, mr);
    ScaleDown(q, rr + 1.0, mr);
  }

  /** `r * m - m < a <= r * m` places the real quotient in `(r - 1, r]`. */
  lemma QuotientAbove(a: int, m: int, r: int, q: real)
    requires m > 0 && r * m - m < a <= r * m && a as real == q * m as real
    ensures r as real - 1.0 < q <= r as real
  {
    var mr, rr, hi := m as real, r as real, r * m;
    CastMul(r, m);
    assert hi as real - mr < a as real <= hi as real;
    assert hi as real - mr == (rr - 1.0) * mr;
    ScaleDown(rr - 1.0, q, mr);
    ScaleDown(q, rr, mr);
  }

  /** Converting a product to a real converts its factors. */
  lemma CastMul(x: int, y: int)
    ensures (x * y) as real == x as real * y as real
  {
  }

  /** The floor is the one integer `t` with `t <= v < t + 1`. */
  lemma FloorOf(v: real, t: int)
    requires t as real <= v < t as real + 1.0
    ensures v.Floor == t
  {
  }

  /** Dividing both sides by a positive factor keeps an order. */
  lemma ScaleDown(x: real, y: real, m: real)
    requires m > 0.0
    ensures x * m <= y * m ==> x <= y
    ensures x * m < y * m ==> x < y
  {
  }

  /** Python's `a % 360` on floats: the result lies in `[0, 360)` and differs
      from `a` by a whole multiple of 360. */
  function Mod360(a: real): (r: real)
    ensures 0.0 <= r < 360.0
  {
    var q := a / 360.0;
    assert a == 360.0 * q;
    a - 360.0 * q.Floor as real
  }

  /** `Mod360` is periodic: shifting by whole turns changes nothing. */
  lemma Mod360Shift(a: real, k: int)
    ensures Mod360(a + 360.0 * k as real) == Mod360(a)
  {
    var q := a / 360.0;
    assert (a + 360.0 * k as real) / 360.0 == q + k as real;
    FloorShift(q, k);
  }

  lemma FloorShift(q: real, k: int)
    ensures (q + k as real).Floor == q.Floor + k
  {
  }

  /** `Mod360` is the identity on `[0, 360)`. */
  lemma Mod360Identity(a: real)
    requires 0.0 <= a < 360.0
    ensures Mod360(a) == a
  {
    var q := a / 360.0;
    assert a == 360.0 * q;
    assert 0.0 <= q < 1.0;
    assert q.Floor == 0;
  }
}
