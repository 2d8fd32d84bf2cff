/** The two kinds of particle of app.js (lines 37-42, 52-101) as values, and the
    counting and filtering that the world's bookkeeping rests on (lines 313,
    318-324). */
module Species {
  import opened Geometry

  /** "H2" (the reactant gas) or "H2O" (the product). */
  datatype GasKind = H2 | H2O

  /** "CuO" (the oxide) or "Cu" (the metal). */
  datatype SolidKind = CuO | Cu

  /** A GasMol: kind, centre, velocity and the used mark set by a reaction. */
  datatype GasMol = GasMol(kind: GasKind, x: real, y: real, vx: real, vy: real, used: bool)

  /** A SolidParticle: kind and its fixed centre. */
  datatype SolidParticle = SolidParticle(kind: SolidKind, x: real, y: real)

  /** Atom radii of the AT table. */
  const HRadius: real := 6.0
  const ORadius: real := 8.0

  /** envelopeRadius(): the collision radius of a gas molecule, larger for
      the three-atom product than for the two-atom reactant. */
  function EnvelopeRadius(kind: GasKind): (r: real)
    ensures 0.0 < r <= 26.0
    ensures kind == H2 ==> r < 26.0
  {
    match kind
    case H2 => HRadius + HRadius + 4.0
    case H2O => ORadius + HRadius + HRadius + 6.0
  }

  /** new GasMol(kind): a fresh, unused molecule placed from four draws in the
      upper part of an arena of the given size, away from the pile. */
  function NewGasMol(kind: GasKind, q: Uniform4, width: real, height: real): (m: GasMol)
    ensures m.kind == kind && !m.used
    ensures AllInUnit(q) ==> -1.0 <= m.vx < 1.0 && -1.0 <= m.vy < 1.0
    ensures AllInUnit(q) && 120.0 < width ==> 60.0 <= m.x < width - 60.0
    ensures AllInUnit(q) && 280.0 < height ==> 60.0 <= m.y < height - 220.0
  {
    RandInRange(q.u2, -1.0, 1.0);
    RandInRange(q.u3, -1.0, 1.0);
    RandInRange(q.u0, 60.0, width - 60.0);
    RandInRange(q.u1, 60.0, height - 220.0);
    GasMol(kind, Rand(q.u0, 60.0, width - 60.0), Rand(q.u1, 60.0, height - 220.0),
           Rand(q.u2, -1.0, 1.0), Rand(q.u3, -1.0, 1.0), false)
  }

  // ---------------------------------------------------------------------------
  // Counting

  function Tick(b: bool): nat { if b then 1 else 0 }

  /** gas.filter(m => m.type === kind).length */
  function CountGas(s: seq<GasMol>, kind: GasKind): (c: nat)
    ensures c <= |s|
  {
    if s == [] then 0 else CountGas(s[..|s| - 1], kind) + Tick(s[|s| - 1].kind == kind)
  }

  /** The molecules of a kind that are not marked used. */
  function CountLive(s: seq<GasMol>, kind: GasKind): (c: nat)
    ensures c <= CountGas(s, kind)
  {
    if s == [] then 0
    else CountLive(s[..|s| - 1], kind) + Tick(s[|s| - 1].kind == kind && !s[|s| - 1].used)
  }

  /** solid.filter(s => s.kind === kind).length */
  function CountSolid(s: seq<SolidParticle>, kind: SolidKind): (c: nat)
    ensures c <= |s|
  {
    if s == [] then 0 else CountSolid(s[..|s| - 1], kind) + Tick(s[|s| - 1].kind == kind)
  }

  predicate NoUsed(s: seq<GasMol>) {
    forall i :: 0 <= i < |s| ==> !s[i].used
  }

  /** gas.filter(m => !m.used) */
  function Live(s: seq<GasMol>): seq<GasMol>
  {
    if s == [] then []
    else Live(s[..|s| - 1]) + (if s[|s| - 1].used then [] else [s[|s| - 1]])
  }

  /** Filtering a list followed by unused molecules keeps those molecules. */
  lemma {:induction false} LiveAppendFresh(a: seq<GasMol>, b: seq<GasMol>)
    requires NoUsed(b)
    ensures Live(a + b) == Live(a) + b
    decreases |b|
  {
    if b != [] {
      var c := b[..|b| - 1];
      assert (a + b)[..|a + b| - 1] == a + c;
      LiveAppendFresh(a, c);
    } else {
      assert a + b == a;
    }
  }

  /** Every molecule is either reactant or product. */
  lemma {:induction false} GasKindsPartition(s: seq<GasMol>)
    ensures CountGas(s, H2) + CountGas(s, H2O) == |s|
  {
    if s != [] { GasKindsPartition(s[..|s| - 1]); }
  }

  /** Every solid particle is either oxide or metal. */
  lemma {:induction false} SolidKindsPartition(s: seq<SolidParticle>)
    ensures CountSolid(s, CuO) + CountSolid(s, Cu) == |s|
  {
    if s != [] { SolidKindsPartition(s[..|s| - 1]); }
  }

  /** Without used molecules, live counts and plain counts agree. */
  lemma {:induction false} LiveCountWhenNoUsed(s: seq<GasMol>, kind: GasKind)
    requires NoUsed(s)
    ensures CountLive(s, kind) == CountGas(s, kind)
  {
    if s != [] { LiveCountWhenNoUsed(s[..|s| - 1], kind); }
  }

  /** Appending one molecule adds it to its kind's counts. */
  lemma AppendGas(s: seq<GasMol>, m: GasMol, kind: GasKind)
    ensures CountGas(s + [m], kind) == CountGas(s, kind) + Tick(m.kind == kind)
    ensures CountLive(s + [m], kind) == CountLive(s, kind) + Tick(m.kind == kind && !m.used)
  {
    assert (s + [m])[..|s|] == s;
  }

  /** Replacing one molecule changes the live count of a kind by at most one,
      in the direction of the replacement. */
  lemma {:induction false} UpdateLive(s: seq<GasMol>, i: nat, m: GasMol, kind: GasKind)
    requires i < |s|
    ensures CountLive(s[i := m], kind) + Tick(s[i].kind == kind && !s[i].used)
         == CountLive(s, kind) + Tick(m.kind == kind && !m.used)
  {
    var n := |s| - 1;
    if i < n {
      assert s[i := m][..n] == s[..n][i := m];
      UpdateLive(s[..n], i, m, kind);
    } else {
      assert s[i := m][..n] == s[..n];
    }
  }

  /** Replacing one solid particle changes the count of a kind accordingly. */
  lemma {:induction false} UpdateSolid(s: seq<SolidParticle>, j: nat, p: SolidParticle, kind: SolidKind)
    requires j < |s|
    ensures CountSolid(s[j := p], kind) + Tick(s[j].kind == kind)
         == CountSolid(s, kind) + Tick(p.kind == kind)
  {
    var n := |s| - 1;
    if j < n {
      assert s[j := p][..n] == s[..n][j := p];
      UpdateSolid(s[..n], j, p, kind);
    } else {
      assert s[j := p][..n] == s[..n];
    }
  }

  /** The filter keeps no used molecule. */
  lemma {:induction false} LiveNoUsed(s: seq<GasMol>)
    ensures NoUsed(Live(s))
  {
    if s != [] {
      var n := |s| - 1;
      LiveNoUsed(s[..n]);
    }
  }

  /** The filter keeps one molecule per live molecule of each kind. */
  lemma {:induction false} LiveCount(s: seq<GasMol>, kind: GasKind)
    ensures CountGas(Live(s), kind) == CountLive(s, kind)
  {
    if s != [] {
      var n := |s| - 1;
      LiveCount(s[..n], kind);
      assert CountLive(s, kind) == CountLive(s[..n], kind) + Tick(s[n].kind == kind && !s[n].used);
      if s[n].used {
        assert Live(s) == Live(s[..n]);
      } else {
        assert Live(s) == Live(s[..n]) + [s[n]];
        AppendGas(Live(s[..n]), s[n], kind);
      }
    }
  }

  /** The filter drops no live molecule. */
  lemma {:induction false} LiveKeeps(s: seq<GasMol>)
    ensures forall m :: m in s && !m.used ==> m in Live(s)
  {
    if s != [] {
      var n := |s| - 1;
      LiveKeeps(s[..n]);
      forall m | m in s && !m.used
        ensures m in Live(s)
      {
        if m != s[n] {
          assert m in s[..n];
        }
      }
    }
  }

  /** Two gas lists that agree, index by index, on kind and used mark. */
  predicate SameSpecies(a: seq<GasMol>, b: seq<GasMol>) {
    |a| == |b| && forall i :: 0 <= i < |a| ==> a[i].kind == b[i].kind && a[i].used == b[i].used
  }

  /** Moving molecules without changing kinds or marks changes no count. */
  lemma {:induction false} SameSpeciesCounts(a: seq<GasMol>, b: seq<GasMol>, kind: GasKind)
    requires SameSpecies(a, b)
    ensures CountGas(a, kind) == CountGas(b, kind)
    ensures CountLive(a, kind) == CountLive(b, kind)
  {
    if a != [] {
      var n := |a| - 1;
      SameSpeciesCounts(a[..n], b[..n], kind);
    }
  }

  /** The number of indices at which oxide in `before` became metal in `after`. */
  function Converted(before: seq<SolidParticle>, after: seq<SolidParticle>): (c: nat)
    requires |before| == |after|
    ensures c <= CountSolid(before, CuO)
  {
    if before == [] then 0
    else
      var n := |before| - 1;
      Converted(before[..n], after[..n]) + Tick(before[n].kind == CuO && after[n].kind == Cu)
  }

  /** Turning one more oxide particle into metal adds one conversion. */
  lemma {:induction false} ConvertOne(before: seq<SolidParticle>, after: seq<SolidParticle>, j: nat)
    requires |before| == |after| && j < |after|
    requires before[j].kind == CuO && after[j].kind == CuO
    ensures Converted(before, after[j := after[j].(kind := Cu)]) == Converted(before, after) + 1
  {
    var n := |before| - 1;
    var p := after[j].(kind := Cu);
    if j < n {
      assert after[j := p][..n] == after[..n][j := p];
      ConvertOne(before[..n], after[..n], j);
    } else {
      assert after[j := p][..n] == after[..n];
    }
  }

  /** Nothing has been converted between a list and itself. */
  lemma {:induction false} ConvertedNone(s: seq<SolidParticle>)
    ensures Converted(s, s) == 0
  {
    if s != [] { ConvertedNone(s[..|s| - 1]); }
  }

  /** A list with an oxide (metal) particle at index j counts at least one. */
  lemma SolidPresent(s: seq<SolidParticle>, j: nat, kind: SolidKind)
    requires j < |s| && s[j].kind == kind
    ensures 1 <= CountSolid(s, kind)
  {
    UpdateSolid(s, j, s[j].(kind := if kind == CuO then Cu else CuO), kind);
  }

  /** A list without any molecule of a kind counts none of it. */
  lemma {:induction false} GasAbsent(s: seq<GasMol>, kind: GasKind)
    requires forall t :: 0 <= t < |s| ==> s[t].kind != kind
    ensures CountGas(s, kind) == 0
  {
    if s != [] { GasAbsent(s[..|s| - 1], kind); }
  }

  /** A list without any particle of a kind counts none of it. */
  lemma {:induction false} SolidAbsent(s: seq<SolidParticle>, kind: SolidKind)
    requires forall t :: 0 <= t < |s| ==> s[t].kind != kind
    ensures CountSolid(s, kind) == 0
  {
    if s != [] { SolidAbsent(s[..|s| - 1], kind); }
  }
}
