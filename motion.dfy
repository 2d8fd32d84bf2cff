/** Gas motion (app.js lines 67-76): advance by the velocity and reflect off the
    four walls; and the gas anti-overlap pass (lines 237-260). The source
    mutates the molecules in place; here each operation returns the updated
    values. */
module Motion {
  import opened Geometry
  import opened Species

  /** The centre coordinate v keeps a disc of radius rad inside [0, extent]. */
  predicate Inside(v: real, rad: real, extent: real) {
    rad <= v <= extent - rad
  }

  /** One axis of a wall bounce: v0 and vel0 are the coordinate and velocity
      component after the advance, v and vel after the two wall checks. When
      the extent is at least a diameter, the centre is clamped into
      [rad, extent - rad] (so it ends inside the walls), it stays where the
      advance took it exactly when that point was inside, and the velocity
      component is negated exactly when the coordinate was clamped. */
  ghost predicate Reflected(v0: real, vel0: real, v: real, vel: real, rad: real, extent: real) {
    2.0 * rad <= extent ==>
      v == Clamp(v0, rad, extent - rad) &&
      Inside(v, rad, extent) &&
      (v == v0 <==> Inside(v0, rad, extent)) &&
      vel == (if v == v0 then vel0 else -vel0)
  }

  /** What one call of move(speed) guarantees about the molecule r that m
      becomes: kind and used mark unchanged, and each axis advanced by its
      velocity times the speed and then reflected off its walls. */
  ghost predicate Moved(m: GasMol, r: GasMol, speed: real, width: real, height: real) {
    var rad := EnvelopeRadius(m.kind);
    r.kind == m.kind && r.used == m.used &&
    Reflected(m.x + m.vx * speed, m.vx, r.x, r.vx, rad, width) &&
    Reflected(m.y + m.vy * speed, m.vy, r.y, r.vy, rad, height)
  }

  /** The two wall checks of one axis: first the low wall at rad, then the
      high wall at extent - rad; each clamps the coordinate and negates the
      velocity component. */
  method Bounce(v0: real, vel0: real, rad: real, extent: real) returns (v: real, vel: real)
    ensures Reflected(v0, vel0, v, vel, rad, extent)
  {
    v, vel := v0, vel0;
    if v < rad { v, vel := rad, -vel; }
    if v > extent - rad { v, vel := extent - rad, -vel; }
  }

  /** GasMol.move(speed) in an arena of the given size: advance by the
      velocity times the speed, then reflect off the left and right walls and
      then off the top and bottom walls. */
  method Move(m: GasMol, speed: real, width: real, height: real) returns (r: GasMol)
    ensures Moved(m, r, speed, width, height)
  {
    var x, y := m.x + m.vx * speed, m.y + m.vy * speed;
    var rad := EnvelopeRadius(m.kind);
    var vx, vy;
    x, vx := Bounce(x, m.vx, rad, width);
    y, vy := Bounce(y, m.vy, rad, height);
    r := m.(x := x, y := y, vx := vx, vy := vy);
  }

  /** The pair push of resolveOverlapsGas: when the centres are closer than
      the sum of the envelope radii (and not almost coincident), each molecule
      moves away from the other along the line of centres by 0.55 of the
      overlap. Only positions change. */
  function PushApart(a: GasMol, b: GasMol, sqrt: real -> real): (r: (GasMol, GasMol))
    ensures r.0 == a.(x := r.0.x, y := r.0.y)
    ensures r.1 == b.(x := r.1.x, y := r.1.y)
  {
    var d := Dist(a.x, a.y, b.x, b.y, sqrt);
    var minD := EnvelopeRadius(a.kind) + EnvelopeRadius(b.kind);
    if d < minD && d > 0.001 then
      var overlap := minD - d;
      Shift(a, b, Normalize(a.x - b.x, a.y - b.y, sqrt), overlap * 0.55)
    else
      (a, b)
  }

  /** a moves by c along n and b by c against it. */
  function Shift(a: GasMol, b: GasMol, n: Vec, c: real): (GasMol, GasMol)
  {
    (a.(x := a.x + n.x * c, y := a.y + n.y * c), b.(x := b.x - n.x * c, y := b.y - n.y * c))
  }

  /** Shifting by c each way along n widens the difference by 2c along n. */
  lemma ShiftDifference(a: GasMol, b: GasMol, n: Vec, c: real)
    ensures Shift(a, b, n, c).0.x - Shift(a, b, n, c).1.x == (a.x - b.x) + 2.0 * n.x * c
    ensures Shift(a, b, n, c).0.y - Shift(a, b, n, c).1.y == (a.y - b.y) + 2.0 * n.y * c
  {
  }

  /** Moving two points apart by c each along the unit vector (dx, dy) / d
      of their difference, where d is its exact length, makes them d + 2c
      apart. */
  lemma PushAlgebra(dx: real, dy: real, d: real, c: real)
    requires 0.0 < d && Sq(d) == Sq(dx) + Sq(dy)
    ensures Sq(dx + 2.0 * (dx / d) * c) + Sq(dy + 2.0 * (dy / d) * c) == Sq(d + 2.0 * c)
  {
    UnitDirection(dx, dy, d);
    Stretch(dx, d, c);
    Stretch(dy, d, c);
    SqProduct(dx / d, d + 2.0 * c);
    SqProduct(dy / d, d + 2.0 * c);
    assert Sq(dx / d) * Sq(d + 2.0 * c) + Sq(dy / d) * Sq(d + 2.0 * c)
        == (Sq(dx / d) + Sq(dy / d)) * Sq(d + 2.0 * c);
  }

  /** (dx, dy) / d is a unit vector when d is the length of (dx, dy). */
  lemma UnitDirection(dx: real, dy: real, d: real)
    requires 0.0 < d && Sq(d) == Sq(dx) + Sq(dy)
    ensures Sq(dx / d) + Sq(dy / d) == 1.0
  {
    assert (dx / d) * d == dx && (dy / d) * d == dy;
    SqProduct(dx / d, d);
    SqProduct(dy / d, d);
    SquareMonotone(0.0, d);
    UnitParts(Sq(dx / d), Sq(dy / d), Sq(d), Sq(dx), Sq(dy));
  }

  /** One coordinate of the push: x + 2 (x / d) c is x / d times d + 2c. */
  lemma Stretch(x: real, d: real, c: real)
    requires 0.0 < d
    ensures x + 2.0 * (x / d) * c == (x / d) * (d + 2.0 * c)
  {
    assert (x / d) * d == x;
  }

  lemma SqProduct(x: real, y: real)
    ensures Sq(x * y) == Sq(x) * Sq(y)
  {
  }

  /** Two parts that a positive factor scales to summands of itself add up to one. */
  lemma UnitParts(sx: real, sy: real, sd: real, p: real, q: real)
    requires 0.0 < sd && sx * sd == p && sy * sd == q && p + q == sd
    ensures sx + sy == 1.0
  {
    assert (sx + sy - 1.0) * sd == 0.0;
  }

  /** A pair at distance d with 0.001 < d < minD, pushed 0.55 of the overlap
      each along the line of centres, ends d + 1.1 (minD - d) apart, which is
      more than minD. */
  lemma PushWidens(dx: real, dy: real, d: real, minD: real, ex: real, ey: real)
    requires 0.001 < d < minD && Sq(d) == Sq(dx) + Sq(dy)
    requires ex == dx + 2.0 * (dx / d) * ((minD - d) * 0.55)
    requires ey == dy + 2.0 * (dy / d) * ((minD - d) * 0.55)
    ensures Sq(ex) + Sq(ey) == Sq(d + 1.1 * (minD - d))
    ensures Sq(minD) < Sq(ex) + Sq(ey)
  {
    PushAlgebra(dx, dy, d, (minD - d) * 0.55);
    assert d + 2.0 * ((minD - d) * 0.55) == d + 1.1 * (minD - d);
    SquareMonotone(minD, d + 1.1 * (minD - d));
  }

  /** The push separates the pair it acts on. With a square root that is
      exact at the squared distance, a pair whose distance d is below the
      envelope sum minD (and above 0.001) ends d + 1.1 * (minD - d) apart,
      which is more than minD; any other pair is left as it is. */
  lemma PushSeparates(a: GasMol, b: GasMol, sqrt: real -> real)
    requires RootAt(sqrt, Sq(a.x - b.x) + Sq(a.y - b.y))
    ensures var d, minD := Dist(a.x, a.y, b.x, b.y, sqrt), EnvelopeRadius(a.kind) + EnvelopeRadius(b.kind);
      var r := PushApart(a, b, sqrt);
      if d < minD && d > 0.001 then
        Sq(r.0.x - r.1.x) + Sq(r.0.y - r.1.y) == Sq(d + 1.1 * (minD - d)) &&
        Sq(minD) < Sq(r.0.x - r.1.x) + Sq(r.0.y - r.1.y)
      else
        r == (a, b)
  {
    var minD := EnvelopeRadius(a.kind) + EnvelopeRadius(b.kind);
    if Dist(a.x, a.y, b.x, b.y, sqrt) < minD && Dist(a.x, a.y, b.x, b.y, sqrt) > 0.001 {
      DistSquared(a.x, a.y, b.x, b.y, sqrt);
      PushDifference(a, b, sqrt);
      PushWidens(a.x - b.x, a.y - b.y, Dist(a.x, a.y, b.x, b.y, sqrt), minD,
                 PushApart(a, b, sqrt).0.x - PushApart(a, b, sqrt).1.x,
                 PushApart(a, b, sqrt).0.y - PushApart(a, b, sqrt).1.y);
    }
  }

  /** The separation after the push, coordinate by coordinate. */
  lemma PushDifference(a: GasMol, b: GasMol, sqrt: real -> real)
    requires Dist(a.x, a.y, b.x, b.y, sqrt) < EnvelopeRadius(a.kind) + EnvelopeRadius(b.kind)
    requires Dist(a.x, a.y, b.x, b.y, sqrt) > 0.001
    ensures var d, c := Dist(a.x, a.y, b.x, b.y, sqrt), (EnvelopeRadius(a.kind) + EnvelopeRadius(b.kind) - Dist(a.x, a.y, b.x, b.y, sqrt)) * 0.55;
      var r := PushApart(a, b, sqrt);
      r.0.x - r.1.x == (a.x - b.x) + 2.0 * ((a.x - b.x) / d) * c &&
      r.0.y - r.1.y == (a.y - b.y) + 2.0 * ((a.y - b.y) / d) * c
  {
    var d := Dist(a.x, a.y, b.x, b.y, sqrt);
    var c := (EnvelopeRadius(a.kind) + EnvelopeRadius(b.kind) - d) * 0.55;
    var n := Vec((a.x - b.x) / d, (a.y - b.y) / d);
    NormalizeByDist(a.x, a.y, b.x, b.y, sqrt);
    assert PushApart(a, b, sqrt) == Shift(a, b, n, c);
    ShiftDifference(a, b, n, c);
  }

  /** r differs from s only in the positions of unused molecules: same
      length, and every molecule keeps its kind, used mark and velocity. */
  ghost predicate PushedOnly(s: seq<GasMol>, r: seq<GasMol>) {
    |r| == |s| &&
    (forall t :: 0 <= t < |s| ==>
      r[t].kind == s[t].kind && r[t].used == s[t].used &&
      r[t].vx == s[t].vx && r[t].vy == s[t].vy) &&
    (forall t :: 0 <= t < |s| && s[t].used ==> r[t] == s[t])
  }

  /** The push of the pair (i, j) in the sweep, both unused: the two
      molecules are replaced by their pushed copies. */
  function PushPair(s: seq<GasMol>, i: nat, j: nat, sqrt: real -> real): (r: seq<GasMol>)
    requires i < j < |s| && !s[i].used && !s[j].used
    ensures |r| == |s| && r[i] == s[i].(x := r[i].x, y := r[i].y)
    ensures r[j] == s[j].(x := r[j].x, y := r[j].y)
    ensures forall t :: 0 <= t < |s| && t != i && t != j ==> r[t] == s[t]
  {
    var pair := PushApart(s[i], s[j], sqrt);
    s[i := pair.0][j := pair.1]
  }

  /** The inner loop of the sweep for the unused molecule at i: the pairs
      (i, j), (i, j + 1), ... up to the end of the list, in that order. */
  function SweepRow(s: seq<GasMol>, i: nat, j: nat, sqrt: real -> real): (r: seq<GasMol>)
    requires i < j <= |s| && !s[i].used
    ensures |r| == |s| && !r[i].used
    decreases |s| - j
  {
    if j == |s| then s
    else if s[j].used then SweepRow(s, i, j + 1, sqrt)
    else SweepRow(PushPair(s, i, j, sqrt), i, j + 1, sqrt)
  }

  /** The reference sweep of resolveOverlapsGas from the molecule at i on:
      a used molecule is skipped, an unused one has its row of later
      partners pushed in order. Sweep(s, 0, sqrt) is one whole pass. */
  function Sweep(s: seq<GasMol>, i: nat, sqrt: real -> real): (r: seq<GasMol>)
    requires i <= |s|
    ensures |r| == |s|
    decreases |s| - i
  {
    if i == |s| then s
    else if s[i].used then Sweep(s, i + 1, sqrt)
    else Sweep(SweepRow(s, i, i + 1, sqrt), i + 1, sqrt)
  }

  /** n whole sweeps in a row. */
  function Sweeps(s: seq<GasMol>, n: nat, sqrt: real -> real): (r: seq<GasMol>)
    ensures |r| == |s|
  {
    if n == 0 then s else Sweep(Sweeps(s, n - 1, sqrt), 0, sqrt)
  }

  lemma PushedOnlyTransitive(a: seq<GasMol>, b: seq<GasMol>, c: seq<GasMol>)
    requires PushedOnly(a, b) && PushedOnly(b, c)
    ensures PushedOnly(a, c)
  {
  }

  /** A row of the sweep moves only unused molecules and changes nothing
      but their positions. */
  lemma {:induction false} SweepRowFrame(s: seq<GasMol>, i: nat, j: nat, sqrt: real -> real)
    requires i < j <= |s| && !s[i].used
    ensures PushedOnly(s, SweepRow(s, i, j, sqrt))
    decreases |s| - j
  {
    if j < |s| {
      var next := if s[j].used then s else PushPair(s, i, j, sqrt);
      SweepRowFrame(next, i, j + 1, sqrt);
      PushedOnlyTransitive(s, next, SweepRow(next, i, j + 1, sqrt));
    }
  }

  /** The whole sweep moves only unused molecules and changes nothing but
      their positions. */
  lemma {:induction false} SweepFrame(s: seq<GasMol>, i: nat, sqrt: real -> real)
    requires i <= |s|
    ensures PushedOnly(s, Sweep(s, i, sqrt))
    decreases |s| - i
  {
    if i < |s| {
      var next := if s[i].used then s else SweepRow(s, i, i + 1, sqrt);
      if !s[i].used {
        SweepRowFrame(s, i, i + 1, sqrt);
      }
      SweepFrame(next, i + 1, sqrt);
      PushedOnlyTransitive(s, next, Sweep(next, i + 1, sqrt));
    }
  }

  /** resolveOverlapsGas(list): every pair i < j of unused molecules, in
      order, is pushed apart, which is the reference sweep; so only the
      positions of unused molecules change. */
  method ResolveOverlapsGas(list: seq<GasMol>, sqrt: real -> real) returns (res: seq<GasMol>)
    ensures res == Sweep(list, 0, sqrt)
    ensures PushedOnly(list, res)
  {
    res := list;
    var i := 0;
    while i < |res|
      invariant 0 <= i <= |res| == |list|
      invariant Sweep(res, i, sqrt) == Sweep(list, 0, sqrt)
    {
      if !res[i].used {
        res := PushRow(res, i, sqrt);
      }
      i := i + 1;
    }
    SweepFrame(list, 0, sqrt);
  }

  /** The inner loop of resolveOverlapsGas for the unused molecule at i: the
      later unused molecules, in order, are each pushed apart from it and
      the pushed pair written back. */
  method PushRow(s: seq<GasMol>, i: nat, sqrt: real -> real) returns (res: seq<GasMol>)
    requires i < |s| && !s[i].used
    ensures res == SweepRow(s, i, i + 1, sqrt)
  {
    res := s;
    var j := i + 1;
    while j < |res|
      invariant i < j <= |res| == |s|
      invariant !res[i].used
      invariant SweepRow(res, i, j, sqrt) == SweepRow(s, i, i + 1, sqrt)
    {
      res := if res[j].used then res else PushPair(res, i, j, sqrt);
      j := j + 1;
    }
  }
}
