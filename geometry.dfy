/** Scalar and planar helpers of the simulation (app.js lines 44-50).
    Reals stand for the JavaScript numbers; square root is injected by the
    caller because the model does not define it. */
module Geometry {

  /** Four successive raw draws of Math.random(), each meant to lie in [0, 1). */
  datatype Uniform4 = Uniform4(u0: real, u1: real, u2: real, u3: real)

  predicate InUnit(u: real) { 0.0 <= u < 1.0 }

  predicate AllInUnit(q: Uniform4) {
    InUnit(q.u0) && InUnit(q.u1) && InUnit(q.u2) && InUnit(q.u3)
  }

  /** A planar vector. */
  datatype Vec = Vec(x: real, y: real)

  function Max(a: real, b: real): real { if a >= b then a else b }

  function Min(a: real, b: real): real { if a <= b then a else b }

  /** clamp(x, a, b) = max(a, min(b, x)): inside the window when the window is
      not empty, the identity on the window, and the lower end when the window
      is empty. */
  function Clamp(x: real, lo: real, hi: real): (r: real)
    ensures lo <= hi ==> lo <= r <= hi
    ensures lo <= x <= hi ==> r == x
    ensures x < lo ==> r == lo
    ensures lo <= hi < x ==> r == hi
    ensures hi < lo ==> r == lo
  {
    Max(lo, Min(hi, x))
  }

  /** rand(min, max) given the raw draw u. */
  function Rand(u: real, lo: real, hi: real): real
  {
    u * (hi - lo) + lo
  }

  /** rand(min, max) maps a draw in [0, 1) into [min, max). */
  lemma RandInRange(u: real, lo: real, hi: real)
    ensures InUnit(u) && lo <= hi ==> lo <= Rand(u, lo, hi) <= hi
    ensures InUnit(u) && lo < hi ==> Rand(u, lo, hi) < hi
  {
    if InUnit(u) && lo <= hi {
      var w := hi - lo;
      assert (1.0 - u) * w == w - u * w;
      assert 0.0 <= u * w by { NonNegProduct(u, w); }
      assert 0.0 <= (1.0 - u) * w by { NonNegProduct(1.0 - u, w); }
      if lo < hi {
        assert 0.0 < (1.0 - u) * w by { PosProduct(1.0 - u, w); }
        assert u * w < w;
        assert Rand(u, lo, hi) == u * w + lo;
      }
    }
  }

  lemma NonNegProduct(a: real, b: real)
    requires 0.0 <= a && 0.0 <= b
    ensures 0.0 <= a * b
  {
  }

  lemma PosProduct(a: real, b: real)
    requires 0.0 < a && 0.0 < b
    ensures 0.0 < a * b
  {
  }

  function Sq(v: real): real { v * v }

  /** The injected square root is exact at s: non-negative and squaring back to s. */
  predicate RootAt(sqrt: real -> real, s: real) {
    0.0 <= sqrt(s) && sqrt(s) * sqrt(s) == s
  }

  /** Squares of non-negative reals keep their order: y^2 - x^2 is
      (y - x)(y + x). */
  lemma SquareMonotone(x: real, y: real)
    requires 0.0 <= x < y
    ensures Sq(x) < Sq(y)
  {
    var sx, sy := Sq(x), Sq(y);
    assert sx == x * x;
    assert sy == y * y;
    assert sy - sx == (y - x) * (y + x);
    PosProduct(y - x, y + x);
  }

  /** Euclidean distance between two centres, with the injected square root. */
  function Dist(ax: real, ay: real, bx: real, bY: real, sqrt: real -> real): real
  {
    var dx, dy := ax - bx, ay - bY;
    sqrt(dx * dx + dy * dy)
  }

  /** With a square root exact at the squared distance, the distance squares
      back to it. */
  lemma DistSquared(ax: real, ay: real, bx: real, bY: real, sqrt: real -> real)
    requires RootAt(sqrt, Sq(ax - bx) + Sq(ay - bY))
    ensures 0.0 <= Dist(ax, ay, bx, bY, sqrt)
    ensures Sq(Dist(ax, ay, bx, bY, sqrt)) == Sq(ax - bx) + Sq(ay - bY)
  {
  }

  /** normalize(dx, dy): divides by the length, or by 1 when the length is 0. */
  function Normalize(dx: real, dy: real, sqrt: real -> real): Vec
  {
    var len := sqrt(dx * dx + dy * dy);
    var d := if len == 0.0 then 1.0 else len;
    Vec(dx / d, dy / d)
  }

  /** Away from coincidence, normalizing the difference of two centres divides
      it by their distance. */
  lemma NormalizeByDist(ax: real, ay: real, bx: real, bY: real, sqrt: real -> real)
    requires Dist(ax, ay, bx, bY, sqrt) != 0.0
    ensures Normalize(ax - bx, ay - bY, sqrt)
         == Vec((ax - bx) / Dist(ax, ay, bx, bY, sqrt), (ay - bY) / Dist(ax, ay, bx, bY, sqrt))
  {
  }
}
