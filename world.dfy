/** The world and the simulation step (app.js lines 26-35, 165-169, 262-324,
    365-409 and the hidden keys at 422-437). The global variables of the
    script are the fields of one World object; the slider temperature, the
    exponential, the square root and every Math.random() draw are passed in. */
module Simulation {
  import opened Geometry
  import opened Kinetics
  import opened Species
  import opened Motion
  import opened Pile

  /** The requested counts recorded at init, before the pile caps the oxide. */
  datatype Initial = Initial(h2: int, cuo: int)

  /** The result of counts(). */
  datatype SpeciesCounts = SpeciesCounts(h2: nat, h2o: nat, cuo: nat, cu: nat)

  const ContactFactor: real := 1.25
  /** Approximate size of one oxide unit. */
  const SolidRadius: real := 18.0
  /** Passes of the de-clumping loop run by init. */
  const DeclumpPasses: nat := 140

  /** (envelope radius + 18) * 1.25: contact is seen a little before overlap. */
  function ContactThreshold(kind: GasKind): (t: real)
    ensures 0.0 < t
  {
    (EnvelopeRadius(kind) + SolidRadius) * ContactFactor
  }

  /** dist(m, sp) <= threshold. Both sides are non-negative, so it is stated
      on squares and needs no square root. */
  predicate InContact(m: GasMol, sp: SolidParticle) {
    Sq(m.x - sp.x) + Sq(m.y - sp.y) <= Sq(ContactThreshold(m.kind))
  }

  /** clamp((H - y) / 220, 0.35, 1): particles higher in the pile react more
      readily, and every particle keeps at least 0.35 of the probability. */
  function SurfaceBoost(sp: SolidParticle, height: real): (b: real)
    ensures 0.35 <= b <= 1.0
  {
    Clamp((height - sp.y) / 220.0, 0.35, 1.0)
  }

  /** The water molecule emitted by a reaction: unused, within 20 across and
      10 to 30 above the converted particle, with a small velocity. */
  function SpawnWater(sp: SolidParticle, q: Uniform4): (w: GasMol)
    ensures w.kind == H2O && !w.used
    ensures AllInUnit(q) ==> sp.x - 20.0 <= w.x < sp.x + 20.0 && sp.y - 30.0 < w.y <= sp.y - 10.0
    ensures AllInUnit(q) ==> -1.0 <= w.vx < 1.0 && -1.0 <= w.vy < 1.0
  {
    RandInRange(q.u0, -20.0, 20.0);
    RandInRange(q.u1, 10.0, 30.0);
    RandInRange(q.u2, -1.0, 1.0);
    RandInRange(q.u3, -1.0, 1.0);
    GasMol(H2O, sp.x + Rand(q.u0, -20.0, 20.0), sp.y - Rand(q.u1, 10.0, 30.0),
           Rand(q.u2, -1.0, 1.0), Rand(q.u3, -1.0, 1.0), false)
  }

  /** The pile part of the reaction pass's loop invariant: same size, same
      places, metal stays metal, and exactly k oxide particles became metal. */
  ghost predicate PileProgress(solid0: seq<SolidParticle>, solid: seq<SolidParticle>, k: nat) {
    |solid| == |solid0| &&
    (forall j :: 0 <= j < |solid| ==>
      solid[j].x == solid0[j].x && solid[j].y == solid0[j].y &&
      (solid0[j].kind == Cu ==> solid[j].kind == Cu)) &&
    Converted(solid0, solid) == k &&
    CountSolid(solid, CuO) + k == CountSolid(solid0, CuO)
  }

  /** Converting one more oxide particle in place is one more event. */
  lemma PileProgressStep(solid0: seq<SolidParticle>, solid: seq<SolidParticle>, k: nat, hit: nat)
    requires PileProgress(solid0, solid, k)
    requires hit < |solid| && solid[hit].kind == CuO
    ensures PileProgress(solid0, solid[hit := solid[hit].(kind := Cu)], k + 1)
  {
    var p := solid[hit].(kind := Cu);
    UpdateSolid(solid, hit, p, CuO);
    ConvertOne(solid0, solid, hit);
  }

  /** The draw u of one molecule against one particle succeeds: the two are
      in contact and u is below p times the particle's surface boost. */
  predicate Reacts(m: GasMol, sp: SolidParticle, u: real, pReact: real, height: real) {
    InContact(m, sp) && u < pReact * SurfaceBoost(sp, height)
  }

  /** The number of molecules whose search succeeded, where hits[t] is the
      particle molecule t converted, or -1. */
  function CountHits(hits: seq<int>): (c: nat)
    ensures c <= |hits|
  {
    if hits == [] then 0 else CountHits(hits[..|hits| - 1]) + Tick(hits[|hits| - 1] >= 0)
  }

  /** The water molecules emitted by the pass, in the order of the
      molecules whose search succeeded; molecule t draws its water from
      spawn(t). */
  function Waters(solid0: seq<SolidParticle>, hits: seq<int>, spawn: nat -> Uniform4): seq<GasMol>
  {
    if hits == [] then []
    else
      var h := hits[|hits| - 1];
      Waters(solid0, hits[..|hits| - 1], spawn) +
        (if 0 <= h < |solid0| then [SpawnWater(solid0[h], spawn(|hits| - 1))] else [])
  }

  /** Particle j is still oxide when the pass reaches a molecule: it was
      oxide on entry and none of the earlier outcomes converted it. */
  ghost predicate OxideWhen(solid0: seq<SolidParticle>, earlier: seq<int>, j: nat)
    requires j < |solid0|
  {
    solid0[j].kind == CuO && j !in earlier
  }

  /** The outcome x of the search of molecule m, the t-th of the pass, with
      the outcomes of the earlier molecules: x is -1 or a particle. Only a
      live reactant molecule can succeed. For a live reactant molecule,
      every particle still oxide before x (before the end of the pile when
      x is -1) fails its draw, and x, when it is a particle, is still oxide
      and succeeds. So x is the first particle still oxide whose draw
      succeeds, and -1 when there is none. */
  ghost predicate SearchOutcome(m: GasMol, solid0: seq<SolidParticle>, earlier: seq<int>, x: int, t: nat,
                                pReact: real, draw: (nat, nat) -> real, height: real)
  {
    -1 <= x < |solid0| &&
    (x >= 0 ==> m.kind == H2 && !m.used) &&
    (m.kind == H2 && !m.used ==>
      (forall j :: 0 <= j < |solid0| && (x < 0 || j < x) && OxideWhen(solid0, earlier, j) ==>
        !Reacts(m, solid0[j], draw(t, j), pReact, height)) &&
      (x >= 0 ==> OxideWhen(solid0, earlier, x) && Reacts(m, solid0[x], draw(t, x), pReact, height)))
  }

  /** Every recorded outcome is the outcome of its molecule's search, given
      the outcomes before it. */
  ghost predicate Outcomes(gas0: seq<GasMol>, solid0: seq<SolidParticle>, hits: seq<int>,
                           pReact: real, draw: (nat, nat) -> real, height: real)
    requires |hits| <= |gas0|
  {
    hits == [] ||
    var t := |hits| - 1;
    Outcomes(gas0, solid0, hits[..t], pReact, draw, height) &&
    SearchOutcome(gas0[t], solid0, hits[..t], hits[t], t, pReact, draw, height)
  }

  /** The pile after the searches recorded in hits: exactly the particles
      hit become metal, and nothing else changes. */
  ghost predicate PileAfter(solid0: seq<SolidParticle>, hits: seq<int>, solid: seq<SolidParticle>) {
    |solid| == |solid0| &&
    forall j :: 0 <= j < |solid0| ==>
      solid[j] == (if j in hits then solid0[j].(kind := Cu) else solid0[j])
  }

  /** A velocity component reversed n times. */
  function Flip(v: real, n: nat): real
  {
    if n == 0 then v else -Flip(v, n - 1)
  }

  /** The number of the first n particles that are still oxide after the
      earlier outcomes and in contact with m: each of them reverses the
      molecule's velocity during its search. */
  ghost function Contacts(m: GasMol, solid0: seq<SolidParticle>, earlier: seq<int>, n: nat): nat
    requires n <= |solid0|
  {
    if n == 0 then 0
    else Contacts(m, solid0, earlier, n - 1) + Tick(OxideWhen(solid0, earlier, n - 1) && InContact(m, solid0[n - 1]))
  }

  /** Molecule m after its search with outcome x. A used or product
      molecule is skipped. A live reactant molecule has its velocity
      reversed once per contact up to and including the particle it
      converts (all of the pile when x is -1), and is marked used exactly
      when it converted one. */
  ghost function Searched(m: GasMol, solid0: seq<SolidParticle>, earlier: seq<int>, x: int): GasMol
  {
    if m.used || m.kind != H2 then m
    else
      var c := Contacts(m, solid0, earlier, if 0 <= x < |solid0| then x + 1 else |solid0|);
      m.(vx := Flip(m.vx, c), vy := Flip(m.vy, c), used := x >= 0)
  }

  /** The original molecules after their searches, in order. */
  ghost function SearchedAll(gas0: seq<GasMol>, solid0: seq<SolidParticle>, hits: seq<int>): (r: seq<GasMol>)
    requires |hits| <= |gas0|
    ensures |r| == |hits|
  {
    if hits == [] then []
    else
      var t := |hits| - 1;
      SearchedAll(gas0, solid0, hits[..t]) + [Searched(gas0[t], solid0, hits[..t], hits[t])]
  }

  /** The molecules visited so far hold their searched values. */
  ghost predicate SearchedPrefix(gas0: seq<GasMol>, solid0: seq<SolidParticle>, hits: seq<int>, gas: seq<GasMol>) {
    |hits| <= |gas0| && |hits| <= |gas| && gas[..|hits|] == SearchedAll(gas0, solid0, hits)
  }

  /** Counted against the pile of the moment, a molecule's contacts are
      those of the pile on entry with the earlier conversions. */
  lemma {:induction false} ContactsNow(m: GasMol, solid0: seq<SolidParticle>, hits: seq<int>,
                                       solid: seq<SolidParticle>, n: nat)
    requires PileAfter(solid0, hits, solid) && n <= |solid0|
    ensures Contacts(m, solid, [], n) == Contacts(m, solid0, hits, n)
  {
    if n > 0 {
      ContactsNow(m, solid0, hits, solid, n - 1);
      assert solid[n - 1].x == solid0[n - 1].x && solid[n - 1].y == solid0[n - 1].y;
    }
  }

  /** A search read against the pile of the moment is the search read
      against the pile on entry with the earlier conversions. */
  lemma SearchedNow(m: GasMol, solid0: seq<SolidParticle>, hits: seq<int>, solid: seq<SolidParticle>, x: int)
    requires PileAfter(solid0, hits, solid)
    ensures Searched(m, solid, [], x) == Searched(m, solid0, hits, x)
  {
    ContactsNow(m, solid0, hits, solid, if 0 <= x < |solid0| then x + 1 else |solid0|);
  }

  /** Writing the searched molecule back extends the searched prefix. */
  lemma SearchedStep(gas0: seq<GasMol>, solid0: seq<SolidParticle>, hits: seq<int>, gas: seq<GasMol>,
                     x: int, gas1: seq<GasMol>)
    requires SearchedPrefix(gas0, solid0, hits, gas) && |hits| < |gas0| && |hits| < |gas1|
    requires gas1[..|hits|] == gas[..|hits|] && gas1[|hits|] == Searched(gas0[|hits|], solid0, hits, x)
    ensures SearchedPrefix(gas0, solid0, hits + [x], gas1)
  {
    assert (hits + [x])[..|hits|] == hits;
    assert gas1[..|hits| + 1] == gas1[..|hits|] + [gas1[|hits|]];
  }

  /** The reaction loop after the molecules before i: one outcome for each
      original molecule visited, k successes, the pile converted at the hits,
      and the emitted water appended after the original molecules. */
  ghost predicate HitsProgress(gas0: seq<GasMol>, solid0: seq<SolidParticle>, hits: seq<int>,
                               gas: seq<GasMol>, solid: seq<SolidParticle>, i: nat, k: nat,
                               pReact: real, draw: (nat, nat) -> real, spawn: nat -> Uniform4, height: real)
  {
    |hits| == (if i < |gas0| then i else |gas0|) && k == CountHits(hits) &&
    Outcomes(gas0, solid0, hits, pReact, draw, height) &&
    PileAfter(solid0, hits, solid) &&
    |gas0| <= |gas| && gas[|gas0|..] == Waters(solid0, hits, spawn)
  }

  /** What interfaceReactions(pReact) does to a gas list gas0 and a pile
      solid0, given the outcomes hits: each original molecule's search ended
      as SearchOutcome says, k searches succeeded, the pile is converted at
      the hits, and the final gas list is the searched original molecules
      that are still unused, in order, followed by the emitted water
      molecules, in order. */
  ghost predicate ReactionPass(gas0: seq<GasMol>, solid0: seq<SolidParticle>, hits: seq<int>,
                               gas: seq<GasMol>, solid: seq<SolidParticle>, k: nat,
                               pReact: real, draw: (nat, nat) -> real, spawn: nat -> Uniform4, height: real)
  {
    |hits| == |gas0| && k == CountHits(hits) &&
    Outcomes(gas0, solid0, hits, pReact, draw, height) &&
    PileAfter(solid0, hits, solid) &&
    gas == Live(SearchedAll(gas0, solid0, hits)) + Waters(solid0, hits, spawn)
  }

  /** The search outcome of a molecule is determined by the draws: two
      outcomes of the same search agree. */
  lemma OutcomeUnique(m: GasMol, solid0: seq<SolidParticle>, earlier: seq<int>, x1: int, x2: int, t: nat,
                      pReact: real, draw: (nat, nat) -> real, height: real)
    requires SearchOutcome(m, solid0, earlier, x1, t, pReact, draw, height)
    requires SearchOutcome(m, solid0, earlier, x2, t, pReact, draw, height)
    ensures x1 == x2
  {
  }

  /** Recorded outcomes of the same molecules are the same outcomes. */
  lemma {:induction false} OutcomesUnique(gas0: seq<GasMol>, solid0: seq<SolidParticle>, h1: seq<int>, h2: seq<int>,
                                          pReact: real, draw: (nat, nat) -> real, height: real)
    requires |h1| == |h2| <= |gas0|
    requires Outcomes(gas0, solid0, h1, pReact, draw, height) && Outcomes(gas0, solid0, h2, pReact, draw, height)
    ensures h1 == h2
    decreases |h1|
  {
    if h1 != [] {
      var t := |h1| - 1;
      OutcomesUnique(gas0, solid0, h1[..t], h2[..t], pReact, draw, height);
      OutcomeUnique(gas0[t], solid0, h1[..t], h1[t], h2[t], t, pReact, draw, height);
      assert h1 == h1[..t] + [h1[t]] && h2 == h2[..t] + [h2[t]];
    }
  }

  /** The reaction pass is determined by the gas, the pile and the draws:
      which molecule converts which particle, the pile and the gas
      afterwards and the number of events. */
  lemma ReactionPassUnique(gas0: seq<GasMol>, solid0: seq<SolidParticle>,
                           h1: seq<int>, gas1: seq<GasMol>, solid1: seq<SolidParticle>, k1: nat,
                           h2: seq<int>, gas2: seq<GasMol>, solid2: seq<SolidParticle>, k2: nat,
                           pReact: real, draw: (nat, nat) -> real, spawn: nat -> Uniform4, height: real)
    requires ReactionPass(gas0, solid0, h1, gas1, solid1, k1, pReact, draw, spawn, height)
    requires ReactionPass(gas0, solid0, h2, gas2, solid2, k2, pReact, draw, spawn, height)
    ensures h1 == h2 && solid1 == solid2 && k1 == k2 && gas1 == gas2
  {
    OutcomesUnique(gas0, solid0, h1, h2, pReact, draw, height);
    assert forall j :: 0 <= j < |solid0| ==> solid1[j] == solid2[j];
  }

  /** Recording one more outcome x keeps the earlier outcomes and counts x. */
  lemma HitsExtend(gas0: seq<GasMol>, solid0: seq<SolidParticle>, hits: seq<int>, x: int,
                   pReact: real, draw: (nat, nat) -> real, height: real)
    requires |hits| < |gas0| && Outcomes(gas0, solid0, hits, pReact, draw, height)
    requires SearchOutcome(gas0[|hits|], solid0, hits, x, |hits|, pReact, draw, height)
    ensures Outcomes(gas0, solid0, hits + [x], pReact, draw, height)
    ensures CountHits(hits + [x]) == CountHits(hits) + Tick(x >= 0)
  {
    assert (hits + [x])[..|hits|] == hits;
  }

  /** A molecule that is skipped, or whose search failed, records -1: the
      pile and the appended water are as before, whatever happens to the
      original molecules (gas1). */
  lemma HitsNone(gas0: seq<GasMol>, solid0: seq<SolidParticle>, hits: seq<int>,
                 gas: seq<GasMol>, gas1: seq<GasMol>, solid: seq<SolidParticle>, i: nat, k: nat,
                 pReact: real, draw: (nat, nat) -> real, spawn: nat -> Uniform4, height: real)
    requires HitsProgress(gas0, solid0, hits, gas, solid, i, k, pReact, draw, spawn, height)
    requires i < |gas0|
    requires gas0[i].kind == H2 && !gas0[i].used ==>
      forall j :: 0 <= j < |solid| && solid[j].kind == CuO ==> !Reacts(gas0[i], solid[j], draw(i, j), pReact, height)
    requires |gas1| == |gas| && gas1[|gas0|..] == gas[|gas0|..]
    ensures HitsProgress(gas0, solid0, hits + [-1], gas1, solid, i + 1, k, pReact, draw, spawn, height)
  {
    var h := hits + [-1];
    if gas0[i].kind == H2 && !gas0[i].used {
      forall j | 0 <= j < |solid0| && OxideWhen(solid0, hits, j)
        ensures !Reacts(gas0[i], solid0[j], draw(i, j), pReact, height)
      {
        assert solid[j] == solid0[j];
      }
    }
    HitsExtend(gas0, solid0, hits, -1, pReact, draw, height);
    assert h[..|hits|] == hits;
    assert Waters(solid0, h, spawn) == Waters(solid0, hits, spawn);
  }

  /** A live reactant molecule whose search converted particle hit: the
      first particle still oxide whose draw succeeds. */
  lemma HitsOne(gas0: seq<GasMol>, solid0: seq<SolidParticle>, hits: seq<int>,
                gas: seq<GasMol>, solid: seq<SolidParticle>, i: nat, k: nat, hit: nat, r: GasMol,
                pReact: real, draw: (nat, nat) -> real, spawn: nat -> Uniform4, height: real)
    requires HitsProgress(gas0, solid0, hits, gas, solid, i, k, pReact, draw, spawn, height)
    requires i < |gas0| && gas0[i].kind == H2 && !gas0[i].used
    requires hit < |solid| && solid[hit].kind == CuO
    requires Reacts(gas0[i], solid[hit], draw(i, hit), pReact, height)
    requires forall j :: 0 <= j < hit && solid[j].kind == CuO ==> !Reacts(gas0[i], solid[j], draw(i, j), pReact, height)
    ensures HitsProgress(gas0, solid0, hits + [hit],
                         (gas + [SpawnWater(solid[hit], spawn(i))])[i := r],
                         solid[hit := solid[hit].(kind := Cu)], i + 1, k + 1, pReact, draw, spawn, height)
  {
    FirstHit(gas0[i], solid0, hits, solid, i, hit, pReact, draw, height);
    HitsExtend(gas0, solid0, hits, hit, pReact, draw, height);
    PileAfterHit(solid0, hits, solid, hit);
    WatersHit(gas0, solid0, hits, gas, i, hit, r, spawn);
  }

  /** The search outcome of a hit, read against the pile on entry. */
  lemma FirstHit(m: GasMol, solid0: seq<SolidParticle>, hits: seq<int>, solid: seq<SolidParticle>,
                 i: nat, hit: nat, pReact: real, draw: (nat, nat) -> real, height: real)
    requires PileAfter(solid0, hits, solid) && m.kind == H2 && !m.used
    requires hit < |solid| && solid[hit].kind == CuO
    requires Reacts(m, solid[hit], draw(i, hit), pReact, height)
    requires forall j :: 0 <= j < hit && solid[j].kind == CuO ==> !Reacts(m, solid[j], draw(i, j), pReact, height)
    ensures SearchOutcome(m, solid0, hits, hit, i, pReact, draw, height)
  {
    assert solid[hit] == solid0[hit];
    forall j | 0 <= j < hit && OxideWhen(solid0, hits, j)
      ensures !Reacts(m, solid0[j], draw(i, j), pReact, height)
    {
      assert solid[j] == solid0[j];
    }
  }

  /** Converting a particle still oxide adds it to the hits. */
  lemma PileAfterHit(solid0: seq<SolidParticle>, hits: seq<int>, solid: seq<SolidParticle>, hit: nat)
    requires PileAfter(solid0, hits, solid) && hit < |solid| && solid[hit].kind == CuO
    ensures PileAfter(solid0, hits + [hit], solid[hit := solid[hit].(kind := Cu)])
  {
    assert solid[hit] == solid0[hit];
    forall j | 0 <= j < |solid0|
      ensures (j in hits + [hit]) == (j in hits || j == hit)
    {
    }
  }

  /** The water emitted by a hit is appended after the earlier water. */
  lemma WatersHit(gas0: seq<GasMol>, solid0: seq<SolidParticle>, hits: seq<int>, gas: seq<GasMol>,
                  i: nat, hit: nat, r: GasMol, spawn: nat -> Uniform4)
    requires |hits| == i < |gas0| <= |gas| && gas[|gas0|..] == Waters(solid0, hits, spawn) && hit < |solid0|
    ensures var w := SpawnWater(solid0[hit], spawn(i));
      ((gas + [w])[i := r])[|gas0|..] == Waters(solid0, hits + [hit], spawn)
  {
    var w := SpawnWater(solid0[hit], spawn(i));
    assert ((gas + [w])[i := r])[|gas0|..] == gas[|gas0|..] + [w];
    assert (hits + [hit])[..|hits|] == hits;
  }

  /** Every molecule of gas0 moved once, in place, to the one in gas. */
  ghost predicate MovedAll(gas0: seq<GasMol>, gas: seq<GasMol>, speed: real, width: real, height: real) {
    |gas| == |gas0| && forall t :: 0 <= t < |gas0| ==> Moved(gas0[t], gas[t], speed, width, height)
  }

  /** The three phases of an unpaused step, from the gas gas0 and the pile
      solid0: every molecule moves with the speed of the kinetic parameters
      (moved), the moved gas is swept for overlaps (resolved), and the
      reaction pass runs on it with their probability. */
  ghost predicate StepPhases(gas0: seq<GasMol>, solid0: seq<SolidParticle>, moved: seq<GasMol>,
                             resolved: seq<GasMol>, hits: seq<int>, gas: seq<GasMol>, solid: seq<SolidParticle>,
                             k: nat, kp: KineticOutput, sqrt: real -> real, draw: (nat, nat) -> real,
                             spawn: nat -> Uniform4, width: real, height: real)
  {
    MovedAll(gas0, moved, kp.speed, width, height) &&
    resolved == Sweep(moved, 0, sqrt) &&
    ReactionPass(resolved, solid0, hits, gas, solid, k, kp.p, draw, spawn, height)
  }

  /** The gas part of the reaction pass's loop invariant after visiting the
      first i molecules with k successes: k water molecules appended, unused,
      at the end; live reactant down by k and live product up by k; product
      molecules untouched; unvisited molecules untouched. */
  ghost predicate GasProgress(gas0: seq<GasMol>, gas: seq<GasMol>, i: nat, k: nat) {
    i <= |gas| == |gas0| + k &&
    CountLive(gas, H2) + k == CountLive(gas0, H2) &&
    CountLive(gas, H2O) == CountLive(gas0, H2O) + k &&
    (forall t :: |gas0| <= t < |gas| ==> gas[t].kind == H2O && !gas[t].used) &&
    (forall t :: 0 <= t < |gas0| && gas0[t].kind == H2O ==> gas[t] == gas0[t]) &&
    (forall t :: i <= t < |gas0| ==> gas[t] == gas0[t])
  }

  /** Visiting a molecule that is used or a product changes nothing. */
  lemma GasProgressSkip(gas0: seq<GasMol>, gas: seq<GasMol>, i: nat, k: nat)
    requires GasProgress(gas0, gas, i, k) && i < |gas|
    ensures GasProgress(gas0, gas, i + 1, k)
  {
  }

  /** A live reactant molecule whose search failed keeps its kind and stays live. */
  lemma GasProgressMiss(gas0: seq<GasMol>, gas: seq<GasMol>, i: nat, k: nat, r: GasMol)
    requires GasProgress(gas0, gas, i, k) && i < |gas0|
    requires gas[i].kind == H2 && !gas[i].used && r.kind == H2 && !r.used
    ensures GasProgress(gas0, gas[i := r], i + 1, k)
  {
    UpdateLive(gas, i, r, H2);
    UpdateLive(gas, i, r, H2O);
  }

  /** A live reactant molecule that reacted is marked used and one unused
      product molecule is appended: one more event. */
  lemma GasProgressHit(gas0: seq<GasMol>, gas: seq<GasMol>, i: nat, k: nat, r: GasMol, w: GasMol)
    requires GasProgress(gas0, gas, i, k) && i < |gas0|
    requires gas[i].kind == H2 && !gas[i].used && r.kind == H2 && r.used
    requires w.kind == H2O && !w.used
    ensures GasProgress(gas0, (gas + [w])[i := r], i + 1, k + 1)
  {
    AppendGas(gas, w, H2);
    AppendGas(gas, w, H2O);
    UpdateLive(gas + [w], i, r, H2);
    UpdateLive(gas + [w], i, r, H2O);
  }

  /** The whole loop invariant after a live reactant molecule converted
      particle hit, the first particle still oxide whose draw succeeds. */
  lemma SearchHit(gas0: seq<GasMol>, solid0: seq<SolidParticle>, hits: seq<int>,
                  gas: seq<GasMol>, solid: seq<SolidParticle>, i: nat, k: nat, hit: nat, r: GasMol,
                  gas1: seq<GasMol>, solid1: seq<SolidParticle>,
                  pReact: real, draw: (nat, nat) -> real, spawn: nat -> Uniform4, height: real)
    requires GasProgress(gas0, gas, i, k) && PileProgress(solid0, solid, k)
    requires HitsProgress(gas0, solid0, hits, gas, solid, i, k, pReact, draw, spawn, height)
    requires i < |gas0| && gas[i].kind == H2 && !gas[i].used && r.kind == H2 && r.used
    requires hit < |solid| && solid[hit].kind == CuO
    requires Reacts(gas[i], solid[hit], draw(i, hit), pReact, height)
    requires forall j :: 0 <= j < hit && solid[j].kind == CuO ==> !Reacts(gas[i], solid[j], draw(i, j), pReact, height)
    requires gas1 == (gas + [SpawnWater(solid[hit], spawn(i))])[i := r]
    requires solid1 == solid[hit := solid[hit].(kind := Cu)]
    requires SearchedPrefix(gas0, solid0, hits, gas) && r == Searched(gas[i], solid, [], hit)
    ensures GasProgress(gas0, gas1, i + 1, k + 1) && PileProgress(solid0, solid1, k + 1)
    ensures HitsProgress(gas0, solid0, hits + [hit], gas1, solid1, i + 1, k + 1, pReact, draw, spawn, height)
    ensures SearchedPrefix(gas0, solid0, hits + [hit], gas1)
    ensures CountSolid(solid0, CuO) != 0
  {
    SearchedNow(gas[i], solid0, hits, solid, hit);
    assert gas[i] == gas0[i] && gas1[..i] == gas[..i];
    SearchedStep(gas0, solid0, hits, gas, hit, gas1);
    PileProgressStep(solid0, solid, k, hit);
    GasProgressHit(gas0, gas, i, k, r, SpawnWater(solid[hit], spawn(i)));
    HitsOne(gas0, solid0, hits, gas, solid, i, k, hit, r, pReact, draw, spawn, height);
    SolidPresent(solid0, hit, CuO);
  }

  /** The whole loop invariant after a live reactant molecule whose search
      failed, written back as r. */
  lemma SearchMiss(gas0: seq<GasMol>, solid0: seq<SolidParticle>, hits: seq<int>,
                   gas: seq<GasMol>, solid: seq<SolidParticle>, i: nat, k: nat, r: GasMol, gas1: seq<GasMol>,
                   pReact: real, draw: (nat, nat) -> real, spawn: nat -> Uniform4, height: real)
    requires GasProgress(gas0, gas, i, k) && PileProgress(solid0, solid, k)
    requires HitsProgress(gas0, solid0, hits, gas, solid, i, k, pReact, draw, spawn, height)
    requires i < |gas0| && gas[i].kind == H2 && !gas[i].used && r.kind == H2 && !r.used
    requires forall j :: 0 <= j < |solid| && solid[j].kind == CuO ==> !Reacts(gas[i], solid[j], draw(i, j), pReact, height)
    requires gas1 == gas[i := r]
    requires SearchedPrefix(gas0, solid0, hits, gas) && r == Searched(gas[i], solid, [], -1)
    ensures GasProgress(gas0, gas1, i + 1, k) && PileProgress(solid0, solid, k)
    ensures HitsProgress(gas0, solid0, hits + [-1], gas1, solid, i + 1, k, pReact, draw, spawn, height)
    ensures SearchedPrefix(gas0, solid0, hits + [-1], gas1)
  {
    SearchedNow(gas[i], solid0, hits, solid, -1);
    assert gas[i] == gas0[i] && gas1[..i] == gas[..i];
    SearchedStep(gas0, solid0, hits, gas, -1, gas1);
    GasProgressMiss(gas0, gas, i, k, r);
    assert gas1[|gas0|..] == gas[|gas0|..];
    HitsNone(gas0, solid0, hits, gas, gas1, solid, i, k, pReact, draw, spawn, height);
  }

  /** The pile at the end of the reaction pass: k more metal particles. */
  lemma PileDone(solid0: seq<SolidParticle>, solid: seq<SolidParticle>, k: nat)
    requires PileProgress(solid0, solid, k)
    ensures CountSolid(solid, Cu) == CountSolid(solid0, Cu) + k
  {
    SolidKindsPartition(solid);
    SolidKindsPartition(solid0);
  }

  /** The gas at the end of the reaction pass, after the used molecules are
      filtered out: no used molecule, k fewer reactant and k more product
      molecules than were live on entry, every live product kept, and the
      length unchanged when nothing was used on entry. */
  lemma PassFilter(gas0: seq<GasMol>, gas1: seq<GasMol>, k: nat)
    requires GasProgress(gas0, gas1, |gas1|, k)
    ensures NoUsed(Live(gas1))
    ensures CountGas(Live(gas1), H2) + k == CountLive(gas0, H2)
    ensures CountGas(Live(gas1), H2O) == CountLive(gas0, H2O) + k
    ensures forall w :: w in gas0 && w.kind == H2O && !w.used ==> w in Live(gas1)
    ensures NoUsed(gas0) ==> |Live(gas1)| == |gas0|
  {
    LiveNoUsed(gas1);
    LiveCount(gas1, H2);
    LiveCount(gas1, H2O);
    LiveKeeps(gas1);
    forall w | w in gas0 && w.kind == H2O && !w.used
      ensures w in gas1
    {
      var t :| 0 <= t < |gas0| && gas0[t] == w;
      assert gas1[t] == w;
    }
    if NoUsed(gas0) {
      GasKindsPartition(Live(gas1));
      GasKindsPartition(gas0);
      LiveCountWhenNoUsed(gas0, H2);
      LiveCountWhenNoUsed(gas0, H2O);
    }
  }

  /** The final filter keeps the unused original molecules, in order,
      followed by all the water appended during the pass, in order. */
  lemma PassTail(gas0: seq<GasMol>, gas1: seq<GasMol>, k: nat, searched: seq<GasMol>, waters: seq<GasMol>)
    requires GasProgress(gas0, gas1, |gas1|, k)
    requires gas1[..|gas0|] == searched && gas1[|gas0|..] == waters
    ensures Live(gas1) == Live(searched) + waters
  {
    assert gas1 == searched + waters;
    LiveAppendFresh(searched, waters);
  }

  /** The end of the reaction pass: the loop invariant after the last
      molecule, followed by the filter, is the whole pass. */
  lemma PassEnd(gas0: seq<GasMol>, solid0: seq<SolidParticle>, hits: seq<int>,
                gas1: seq<GasMol>, solid: seq<SolidParticle>, k: nat,
                pReact: real, draw: (nat, nat) -> real, spawn: nat -> Uniform4, height: real)
    requires GasProgress(gas0, gas1, |gas1|, k) && PileProgress(solid0, solid, k)
    requires HitsProgress(gas0, solid0, hits, gas1, solid, |gas1|, k, pReact, draw, spawn, height)
    requires SearchedPrefix(gas0, solid0, hits, gas1)
    ensures ReactionPass(gas0, solid0, hits, Live(gas1), solid, k, pReact, draw, spawn, height)
    ensures CountSolid(solid, Cu) == CountSolid(solid0, Cu) + k
    ensures NoUsed(Live(gas1))
    ensures CountGas(Live(gas1), H2) + k == CountLive(gas0, H2)
    ensures CountGas(Live(gas1), H2O) == CountLive(gas0, H2O) + k
    ensures forall w :: w in gas0 && w.kind == H2O && !w.used ==> w in Live(gas1)
    ensures NoUsed(gas0) ==> |Live(gas1)| == |gas0|
  {
    PassFilter(gas0, gas1, k);
    PassTail(gas0, gas1, k, SearchedAll(gas0, solid0, hits), Waters(solid0, hits, spawn));
    PileDone(solid0, solid, k);
  }

  /** The reference cloud of the first loop of init: n fresh reactant
      molecules, the t-th placed from the t-th draw. */
  function Cloud(n: nat, place: nat -> Uniform4, width: real, height: real): seq<GasMol>
  {
    if n == 0 then [] else Cloud(n - 1, place, width, height) + [NewGasMol(H2, place(n - 1), width, height)]
  }

  /** The cloud holds n molecules, all unused reactant. */
  lemma {:induction false} CloudFresh(n: nat, place: nat -> Uniform4, width: real, height: real)
    ensures |Cloud(n, place, width, height)| == n
    ensures forall t :: 0 <= t < n ==>
      Cloud(n, place, width, height)[t].kind == H2 && !Cloud(n, place, width, height)[t].used
  {
    if n > 0 {
      CloudFresh(n - 1, place, width, height);
    }
  }

  /** When the draws lie in [0, 1) and the arena is large enough, every
      molecule of the cloud starts in the region above the pile, at least 60
      from the side and top walls and 220 above the bottom. */
  lemma {:induction false} CloudPlacement(n: nat, place: nat -> Uniform4, width: real, height: real)
    requires forall t :: AllInUnit(place(t))
    requires 120.0 < width && 280.0 < height
    ensures |Cloud(n, place, width, height)| == n
    ensures forall t :: 0 <= t < n ==>
      60.0 <= Cloud(n, place, width, height)[t].x < width - 60.0 &&
      60.0 <= Cloud(n, place, width, height)[t].y < height - 220.0
  {
    if n > 0 {
      CloudPlacement(n - 1, place, width, height);
    }
  }

  /** The first loop of init: nH2 fresh reactant molecules, none for a
      negative count. */
  method ReactantCloud(nH2: int, place: nat -> Uniform4, width: real, height: real)
    returns (cloud: seq<GasMol>)
    ensures cloud == Cloud(NonNeg(nH2), place, width, height)
  {
    cloud := [];
    var i := 0;
    while i < nH2
      invariant 0 <= i <= NonNeg(nH2)
      invariant cloud == Cloud(i, place, width, height)
    {
      cloud := cloud + [NewGasMol(H2, place(i), width, height)];
      i := i + 1;
    }
  }

  /** Moving and de-overlapping change no kind and no mark: a gas list
      without used molecules keeps its counts, now all live. */
  lemma ShuffleKeepsCounts(a: seq<GasMol>, b: seq<GasMol>, c: seq<GasMol>)
    requires SameSpecies(a, b) && SameSpecies(b, c) && NoUsed(a)
    ensures |c| == |a| && NoUsed(c)
    ensures CountLive(c, H2) == CountGas(a, H2) && CountLive(c, H2O) == CountGas(a, H2O)
  {
    assert SameSpecies(a, c);
    SameSpeciesCounts(a, c, H2);
    SameSpeciesCounts(a, c, H2O);
    LiveCountWhenNoUsed(a, H2);
    LiveCountWhenNoUsed(a, H2O);
  }

  /** The de-clumping loop of init: `passes` overlap passes in a row, so
      `passes` reference sweeps; only the positions of unused molecules
      change. */
  method Declump(gas0: seq<GasMol>, passes: nat, sqrt: real -> real) returns (gas: seq<GasMol>)
    ensures gas == Sweeps(gas0, passes, sqrt)
    ensures PushedOnly(gas0, gas)
  {
    gas := gas0;
    var pass := 0;
    while pass < passes
      invariant pass <= passes
      invariant gas == Sweeps(gas0, pass, sqrt)
      invariant PushedOnly(gas0, gas)
    {
      ghost var before := gas;
      gas := ResolveOverlapsGas(gas, sqrt);
      PushedOnlyTransitive(gas0, before, gas);
      pass := pass + 1;
    }
  }

  /** A freshly placed and de-clumped reactant cloud: all reactant, none used. */
  lemma FreshGasCounts(cloud: seq<GasMol>, gas: seq<GasMol>)
    requires forall t :: 0 <= t < |cloud| ==> cloud[t].kind == H2 && !cloud[t].used
    requires SameSpecies(cloud, gas)
    ensures NoUsed(gas) && CountGas(gas, H2) == |gas| && CountGas(gas, H2O) == 0
  {
    GasAbsent(gas, H2O);
    GasKindsPartition(gas);
  }

  /** The gas of init: the reactant cloud of the first loop (none for a
      negative count), de-clumped by 140 overlap passes. All of it is live
      reactant. */
  method DeclumpedCloud(nH2: int, place: nat -> Uniform4, width: real, height: real, sqrt: real -> real)
    returns (gas: seq<GasMol>)
    ensures gas == Sweeps(Cloud(NonNeg(nH2), place, width, height), DeclumpPasses, sqrt)
    ensures |gas| == NonNeg(nH2)
    ensures NoUsed(gas) && CountGas(gas, H2) == |gas| && CountGas(gas, H2O) == 0
  {
    var cloud := ReactantCloud(nH2, place, width, height);
    CloudFresh(NonNeg(nH2), place, width, height);
    gas := Declump(cloud, DeclumpPasses, sqrt);
    FreshGasCounts(cloud, gas);
  }

  /** A freshly built pile: all oxide. */
  lemma FreshPileCounts(solid: seq<SolidParticle>)
    requires forall t :: 0 <= t < |solid| ==> solid[t].kind == CuO
    ensures CountSolid(solid, Cu) == 0 && CountSolid(solid, CuO) == |solid|
  {
    SolidAbsent(solid, Cu);
    SolidKindsPartition(solid);
  }

  /** The inner loop of interfaceReactions for the live reactant molecule
      m, the i-th of the pass, over the pile: every oxide particle in
      contact reverses the molecule's velocity, and the first of them whose
      draw is below p times its surface boost marks the molecule used and
      ends the search. The outcome hit is that particle, or -1: it is the
      search outcome read against this pile, and r is m after the search. */
  method SearchPile(i: nat, m: GasMol, solid: seq<SolidParticle>, pReact: real, draw: (nat, nat) -> real, height: real)
    returns (r: GasMol, hit: int)
    requires m.kind == H2 && !m.used
    ensures -1 <= hit < |solid| && r == Searched(m, solid, [], hit)
    ensures hit >= 0 ==> solid[hit].kind == CuO && Reacts(m, solid[hit], draw(i, hit), pReact, height)
    ensures forall j :: 0 <= j < |solid| && (hit < 0 || j < hit) && solid[j].kind == CuO ==>
      !Reacts(m, solid[j], draw(i, j), pReact, height)
    ensures CountSolid(solid, CuO) == 0 ==> r == m
  {
    r, hit := m, -1;
    ghost var c := 0;
    var j := 0;
    while j < |solid|
      invariant 0 <= j <= |solid| && hit == -1
      invariant c == Contacts(m, solid, [], j)
      invariant r == m.(vx := Flip(m.vx, c), vy := Flip(m.vy, c))
      invariant CountSolid(solid, CuO) == 0 ==> r == m
      invariant forall j' :: 0 <= j' < j && solid[j'].kind == CuO ==>
        !Reacts(m, solid[j'], draw(i, j'), pReact, height)
    {
      var sp := solid[j];
      if sp.kind == CuO {
        SolidPresent(solid, j, CuO);
        if InContact(m, sp) {
          r, c := r.(vx := -r.vx, vy := -r.vy), c + 1;
          if draw(i, j) < pReact * SurfaceBoost(sp, height) {
            r := r.(used := true);
            hit := j;
            break;
          }
        }
      }
      j := j + 1;
    }
  }

  class World {
    /** The canvas size. */
    const width: real
    const height: real

    var gas: seq<GasMol>
    var solid: seq<SolidParticle>
    var initial: Initial
    var reactionsDone: nat
    var paused: bool
    var trapMode: bool
    var rIdx: nat

    /** The bookkeeping invariant between steps: no used molecule is left,
        the pile keeps the size it was built with, and every reaction event
        has turned one oxide particle into metal, consumed one reactant
        molecule and emitted one product molecule. */
    ghost predicate Valid()
      reads this
    {
      rIdx < |RateLevels| &&
      NoUsed(gas) &&
      |solid| == PileSize(initial.cuo) &&
      CountSolid(solid, Cu) == reactionsDone &&
      CountGas(gas, H2O) == reactionsDone &&
      CountGas(gas, H2) + reactionsDone == NonNeg(initial.h2)
    }

    /** The script's globals as they stand before the first init. */
    constructor (width: real, height: real)
      ensures Valid() && this.width == width && this.height == height
      ensures gas == [] && solid == [] && initial == Initial(0, 0) && reactionsDone == 0
      ensures !paused && !trapMode && rIdx == DefaultRateIndex
    {
      this.width, this.height := width, height;
      gas, solid := [], [];
      initial := Initial(0, 0);
      reactionsDone := 0;
      paused, trapMode := false, false;
      rIdx := DefaultRateIndex;
    }

    /** counts(): the reactant, product, oxide and metal populations; the gas
        is all reactant or product and the pile all oxide or metal. */
    function Counts(): (c: SpeciesCounts)
      reads this
      ensures c.h2 + c.h2o == |gas|
      ensures c.cuo + c.cu == |solid|
    {
      GasKindsPartition(gas);
      SolidKindsPartition(solid);
      SpeciesCounts(CountGas(gas, H2), CountGas(gas, H2O), CountSolid(solid, CuO), CountSolid(solid, Cu))
    }

    /** What the diagnostic overlay shows, tied together: the events equal the
        metal and the water counts, the oxide lost is the pile size minus the
        oxide left, the reactant lost is the requested reactant minus the
        reactant left, and the requested oxide count is only reliable when it
        does not exceed the pile's 70 places. */
    lemma EventsBalance()
      requires Valid()
      ensures Counts().cu == reactionsDone && Counts().h2o == reactionsDone
      ensures Counts().cuo + reactionsDone == |solid| == PileSize(initial.cuo)
      ensures Counts().h2 + reactionsDone == NonNeg(initial.h2)
      ensures 0 <= initial.cuo <= MaxPile ==> Counts().cuo + reactionsDone == initial.cuo
    {
      SolidKindsPartition(solid);
    }

    /** The search of one reactant molecule over the pile (the inner loop of
        interfaceReactions), with its effect on the world. The first
        successful draw turns its particle into metal, appends one water
        molecule spawned at it, counts one event and ends the search; the
        search itself is SearchPile, and the writes that precede the break
        are made once it has returned. So the particle converted is the
        first oxide particle whose draw succeeds; without one every oxide
        particle's draw fails and nothing but the velocity changes. */
    method TryReact(i: nat, m: GasMol, pReact: real, draw: (nat, nat) -> real, spawn: nat -> Uniform4)
      returns (r: GasMol, hit: int)
      requires m.kind == H2 && !m.used
      modifies this`gas, this`solid, this`reactionsDone
      ensures r == m.(vx := r.vx, vy := r.vy, used := r.used)
      ensures !r.used ==>
        hit == -1 && gas == old(gas) && solid == old(solid) && reactionsDone == old(reactionsDone)
      ensures r.used ==>
        0 <= hit < |old(solid)| && old(solid)[hit].kind == CuO &&
        InContact(m, old(solid)[hit]) &&
        solid == old(solid)[hit := old(solid)[hit].(kind := Cu)] &&
        gas == old(gas) + [SpawnWater(old(solid)[hit], spawn(i))] &&
        reactionsDone == old(reactionsDone) + 1
      ensures r == Searched(m, old(solid), [], hit)
      ensures r.used ==> Reacts(m, old(solid)[hit], draw(i, hit), pReact, height)
      ensures forall j :: 0 <= j < |old(solid)| && (!r.used || j < hit) && old(solid)[j].kind == CuO ==>
        !Reacts(m, old(solid)[j], draw(i, j), pReact, height)
      ensures CountSolid(old(solid), CuO) == 0 ==> r == m
    {
      r, hit := SearchPile(i, m, solid, pReact, draw, height);
      if r.used {
        var sp := solid[hit];
        solid := solid[hit := sp.(kind := Cu)];
        gas := gas + [SpawnWater(sp, spawn(i))];
        reactionsDone := reactionsDone + 1;
      }
    }

    /** One pass of the outer loop of interfaceReactions: a used or product
        molecule is skipped; a live reactant molecule searches the pile. The
        loop invariant of the reaction pass advances by one molecule and by
        the k - k0 (zero or one) events of the search, and the molecule's
        outcome is recorded in hits. */
    method VisitMolecule(i: nat, pReact: real, draw: (nat, nat) -> real, spawn: nat -> Uniform4,
                         ghost gas0: seq<GasMol>, ghost solid0: seq<SolidParticle>, k0: nat, ghost hits0: seq<int>)
      returns (k: nat, ghost hits: seq<int>)
      requires i < |gas| && GasProgress(gas0, gas, i, k0) && PileProgress(solid0, solid, k0)
      requires HitsProgress(gas0, solid0, hits0, gas, solid, i, k0, pReact, draw, spawn, height)
      requires SearchedPrefix(gas0, solid0, hits0, gas)
      requires CountSolid(solid0, CuO) == 0 ==> gas == gas0 && solid == solid0
      modifies this`gas, this`solid, this`reactionsDone
      ensures GasProgress(gas0, gas, i + 1, k) && PileProgress(solid0, solid, k)
      ensures HitsProgress(gas0, solid0, hits, gas, solid, i + 1, k, pReact, draw, spawn, height)
      ensures SearchedPrefix(gas0, solid0, hits, gas)
      ensures k0 <= k && reactionsDone - old(reactionsDone) == k - k0
      ensures CountSolid(solid0, CuO) == 0 ==> gas == gas0 && solid == solid0
    {
      var m := gas[i];
      if !m.used && m.kind == H2 {
        k, hits := SearchMolecule(i, pReact, draw, spawn, gas0, solid0, k0, hits0);
      } else {
        k, hits := k0, hits0;
        GasProgressSkip(gas0, gas, i, k);
        if i < |gas0| {
          HitsNone(gas0, solid0, hits0, gas, gas, solid, i, k, pReact, draw, spawn, height);
          SearchedStep(gas0, solid0, hits0, gas, -1, gas);
          hits := hits0 + [-1];
        }
      }
    }

    /** The live reactant molecule at i searches the pile and is written
        back, reacted or not. */
    method SearchMolecule(i: nat, pReact: real, draw: (nat, nat) -> real, spawn: nat -> Uniform4,
                          ghost gas0: seq<GasMol>, ghost solid0: seq<SolidParticle>, k0: nat, ghost hits0: seq<int>)
      returns (k: nat, ghost hits: seq<int>)
      requires i < |gas| && GasProgress(gas0, gas, i, k0) && PileProgress(solid0, solid, k0)
      requires HitsProgress(gas0, solid0, hits0, gas, solid, i, k0, pReact, draw, spawn, height)
      requires SearchedPrefix(gas0, solid0, hits0, gas)
      requires CountSolid(solid0, CuO) == 0 ==> gas == gas0 && solid == solid0
      requires !gas[i].used && gas[i].kind == H2
      modifies this`gas, this`solid, this`reactionsDone
      ensures GasProgress(gas0, gas, i + 1, k) && PileProgress(solid0, solid, k)
      ensures HitsProgress(gas0, solid0, hits, gas, solid, i + 1, k, pReact, draw, spawn, height)
      ensures SearchedPrefix(gas0, solid0, hits, gas)
      ensures k0 <= k && reactionsDone - old(reactionsDone) == k - k0
      ensures CountSolid(solid0, CuO) == 0 ==> gas == gas0 && solid == solid0
    {
      k, hits := k0, hits0;
      var m := gas[i];
      assert i < |gas0| && m == gas0[i];
      ghost var gasI, solidI := gas, solid;
      var r, hit := TryReact(i, m, pReact, draw, spawn);
      gas := gas[i := r];
      if r.used {
        SearchHit(gas0, solid0, hits0, gasI, solidI, i, k, hit, r, gas, solid, pReact, draw, spawn, height);
        hits := hits0 + [hit];
        k := k + 1;
      } else {
        SearchMiss(gas0, solid0, hits0, gasI, solidI, i, k, r, gas, pReact, draw, spawn, height);
        hits := hits0 + [-1];
      }
    }

    /** interfaceReactions(pReact) with k successful draws. The events rise by
        k; exactly k oxide particles become metal, no metal turns back and no
        particle moves; the live reactant falls by k and the live product
        rises by k; no used molecule survives the final filter; no product is
        consumed; and without used molecules on entry the gas list keeps its
        length. With no oxide left the pass changes nothing but the filter.
        Molecule by molecule, the outcomes are those of ReactionPass: which
        particle each search converts (by the draws against p times the
        surface boost) and which water it emits. */
    method InterfaceReactions(pReact: real, draw: (nat, nat) -> real, spawn: nat -> Uniform4)
      returns (k: nat, ghost hits: seq<int>)
      modifies this`gas, this`solid, this`reactionsDone
      ensures ReactionPass(old(gas), old(solid), hits, gas, solid, k, pReact, draw, spawn, height)
      ensures reactionsDone == old(reactionsDone) + k
      ensures |solid| == |old(solid)|
      ensures forall j :: 0 <= j < |solid| ==>
        solid[j].x == old(solid)[j].x && solid[j].y == old(solid)[j].y &&
        (old(solid)[j].kind == Cu ==> solid[j].kind == Cu)
      ensures Converted(old(solid), solid) == k
      ensures CountSolid(solid, CuO) + k == old(CountSolid(solid, CuO))
      ensures CountSolid(solid, Cu) == old(CountSolid(solid, Cu)) + k
      ensures CountGas(gas, H2) + k == old(CountLive(gas, H2))
      ensures CountGas(gas, H2O) == old(CountLive(gas, H2O)) + k
      ensures NoUsed(gas)
      ensures NoUsed(old(gas)) ==> |gas| == |old(gas)|
      ensures forall w :: w in old(gas) && w.kind == H2O && !w.used ==> w in gas
      ensures old(CountSolid(solid, CuO)) == 0 ==> k == 0 && solid == old(solid) && gas == Live(old(gas))
    {
      ghost var gas0, solid0 := gas, solid;
      k, hits := ReactionLoop(pReact, draw, spawn);
      var gas1 := gas;
      gas := Live(gas1);
      PassEnd(gas0, solid0, hits, gas1, solid, k, pReact, draw, spawn, height);
    }

    /** The outer loop of interfaceReactions, before the final filter: every
        molecule, including the water appended on the way, is visited once,
        and the loop invariant of the pass holds over the whole list. */
    method ReactionLoop(pReact: real, draw: (nat, nat) -> real, spawn: nat -> Uniform4)
      returns (k: nat, ghost hits: seq<int>)
      modifies this`gas, this`solid, this`reactionsDone
      ensures GasProgress(old(gas), gas, |gas|, k) && PileProgress(old(solid), solid, k)
      ensures HitsProgress(old(gas), old(solid), hits, gas, solid, |gas|, k, pReact, draw, spawn, height)
      ensures SearchedPrefix(old(gas), old(solid), hits, gas)
      ensures reactionsDone == old(reactionsDone) + k
      ensures CountSolid(old(solid), CuO) == 0 ==> gas == old(gas) && solid == old(solid)
    {
      ghost var gas0, solid0 := gas, solid;
      ConvertedNone(solid);
      k, hits := 0, [];
      var i := 0;
      while i < |gas|
        invariant GasProgress(gas0, gas, i, k)
        invariant PileProgress(solid0, solid, k)
        invariant HitsProgress(gas0, solid0, hits, gas, solid, i, k, pReact, draw, spawn, height)
        invariant SearchedPrefix(gas0, solid0, hits, gas)
        invariant reactionsDone == old(reactionsDone) + k
        invariant CountSolid(solid0, CuO) == 0 ==> gas == gas0 && solid == solid0
        decreases |gas0| + CountLive(gas0, H2) - i
      {
        k, hits := VisitMolecule(i, pReact, draw, spawn, gas0, solid0, k, hits);
        i := i + 1;
      }
    }

    /** gas.forEach(m => m.move(speed)): each molecule is moved once, in
        order, and nothing else about the list changes. */
    method MoveAll(speed: real)
      modifies this`gas
      ensures MovedAll(old(gas), gas, speed, width, height)
      ensures SameSpecies(old(gas), gas)
    {
      var i := 0;
      while i < |gas|
        invariant 0 <= i <= |gas| == |old(gas)|
        invariant forall t :: 0 <= t < i ==> Moved(old(gas)[t], gas[t], speed, width, height)
        invariant forall t :: i <= t < |gas| ==> gas[t] == old(gas)[t]
      {
        var moved := Move(gas[i], speed, width, height);
        gas := gas[i := moved];
        i := i + 1;
      }
    }

    /** step(): while paused nothing changes; otherwise every molecule moves,
        the gas is de-overlapped and the reaction pass runs. The bookkeeping
        invariant is kept, the gas keeps its length, the pile keeps its size
        and its places, and the k events of the step are one oxide particle
        and one reactant molecule each. Unpaused, the phases run in order
        with the kinetic parameters of the slider temperature, the current
        rate multiplier and the trap mode: moved, resolved and the reaction
        outcomes hits are the intermediate states. */
    method Step(tc: real, exp: real -> real, sqrt: real -> real, draw: (nat, nat) -> real, spawn: nat -> Uniform4)
      returns (k: nat, ghost moved: seq<GasMol>, ghost resolved: seq<GasMol>, ghost hits: seq<int>)
      requires Valid()
      modifies this`gas, this`solid, this`reactionsDone
      ensures Valid()
      ensures paused ==> k == 0 && gas == old(gas) && solid == old(solid)
      ensures !paused ==>
        StepPhases(old(gas), old(solid), moved, resolved, hits, gas, solid, k,
                   KineticParams(tc, RateLevels[rIdx], trapMode, exp), sqrt, draw, spawn, width, height)
      ensures reactionsDone == old(reactionsDone) + k
      ensures |gas| == |old(gas)|
      ensures |solid| == |old(solid)|
      ensures forall j :: 0 <= j < |solid| ==>
        solid[j].x == old(solid)[j].x && solid[j].y == old(solid)[j].y &&
        (old(solid)[j].kind == Cu ==> solid[j].kind == Cu)
      ensures CountSolid(solid, CuO) + k == old(CountSolid(solid, CuO))
      ensures CountGas(gas, H2) + k == old(CountGas(gas, H2))
    {
      if paused {
        return 0, gas, gas, [];
      }
      var kp := KineticParams(tc, RateLevels[rIdx], trapMode, exp);
      k, moved, resolved, hits := Advance(kp, sqrt, draw, spawn);
    }

    /** The body of an unpaused step with the kinetic parameters kp: move,
        de-overlap, react. */
    method Advance(kp: KineticOutput, sqrt: real -> real, draw: (nat, nat) -> real, spawn: nat -> Uniform4)
      returns (k: nat, ghost moved: seq<GasMol>, ghost resolved: seq<GasMol>, ghost hits: seq<int>)
      requires Valid()
      modifies this`gas, this`solid, this`reactionsDone
      ensures Valid()
      ensures StepPhases(old(gas), old(solid), moved, resolved, hits, gas, solid, k, kp, sqrt, draw, spawn, width, height)
      ensures reactionsDone == old(reactionsDone) + k
      ensures |gas| == |old(gas)|
      ensures |solid| == |old(solid)|
      ensures forall j :: 0 <= j < |solid| ==>
        solid[j].x == old(solid)[j].x && solid[j].y == old(solid)[j].y &&
        (old(solid)[j].kind == Cu ==> solid[j].kind == Cu)
      ensures CountSolid(solid, CuO) + k == old(CountSolid(solid, CuO))
      ensures CountGas(gas, H2) + k == old(CountGas(gas, H2))
    {
      MoveAll(kp.speed);
      moved := gas;
      gas := ResolveOverlapsGas(gas, sqrt);
      resolved := gas;
      assert SameSpecies(moved, gas);
      ShuffleKeepsCounts(old(gas), moved, gas);
      k, hits := InterfaceReactions(kp.p, draw, spawn);
    }

    /** init() up to the first step: the pause is lifted, the event counter
        reset, nH2 fresh reactant molecules are placed, the pile is built for
        nCuO, the requested counts are recorded and the gas is de-clumped by
        140 overlap passes, which are 140 reference sweeps of the placed
        cloud. The new gas and pile are computed first and the
        globals are then set together, which no other code can observe. */
    method Populate(nH2: int, nCuO: int, place: nat -> Uniform4, jitter: nat -> (real, real), sqrt: real -> real)
      requires rIdx < |RateLevels|
      modifies this`paused, this`reactionsDone, this`gas, this`solid, this`initial
      ensures Valid()
      ensures !paused && reactionsDone == 0 && initial == Initial(nH2, nCuO)
      ensures gas == Sweeps(Cloud(NonNeg(nH2), place, width, height), DeclumpPasses, sqrt)
      ensures |gas| == NonNeg(nH2)
      ensures CountGas(gas, H2) == |gas|
      ensures solid == PileRows(NonNeg(nCuO), MaxRows, BaseX(width), BaseY(height), jitter)
      ensures CountSolid(solid, CuO) == |solid| == PileSize(nCuO)
    {
      var declumped := DeclumpedCloud(nH2, place, width, height, sqrt);
      var pile := BuildSolidPile(nCuO, width, height, jitter);
      FreshPileCounts(pile);
      paused, reactionsDone, gas, solid, initial := false, 0, declumped, pile, Initial(nH2, nCuO);
    }

    /** init(): Populate followed by the first step. The invariant holds, and
        the events of that step are accounted for against the requested
        reactant and the built pile. The step starts from the de-clumped
        cloud (populated) and the reference pile. */
    method Init(nH2: int, nCuO: int, place: nat -> Uniform4, jitter: nat -> (real, real),
                tc: real, exp: real -> real, sqrt: real -> real, draw: (nat, nat) -> real, spawn: nat -> Uniform4)
      returns (k: nat, ghost populated: seq<GasMol>, ghost moved: seq<GasMol>,
               ghost resolved: seq<GasMol>, ghost hits: seq<int>)
      requires rIdx < |RateLevels|
      modifies this`paused, this`reactionsDone, this`gas, this`solid, this`initial
      ensures Valid()
      ensures !paused && initial == Initial(nH2, nCuO) && reactionsDone == k
      ensures populated == Sweeps(Cloud(NonNeg(nH2), place, width, height), DeclumpPasses, sqrt)
      ensures StepPhases(populated, PileRows(NonNeg(nCuO), MaxRows, BaseX(width), BaseY(height), jitter),
                         moved, resolved, hits, gas, solid, k,
                         KineticParams(tc, RateLevels[rIdx], trapMode, exp), sqrt, draw, spawn, width, height)
      ensures |gas| == NonNeg(nH2) && CountGas(gas, H2) + k == NonNeg(nH2)
      ensures |solid| == PileSize(nCuO) && CountSolid(solid, CuO) + k == |solid|
    {
      Populate(nH2, nCuO, place, jitter, sqrt);
      populated := gas;
      k, moved, resolved, hits := Step(tc, exp, sqrt, draw, spawn);
    }

    /** The R key: the next of the four rate multipliers, cyclically. */
    method CycleRate()
      requires Valid()
      modifies this`rIdx
      ensures Valid() && rIdx == NextRateIndex(old(rIdx))
    {
      rIdx := NextRateIndex(rIdx);
    }

    /** The T key: trap mode on or off. */
    method ToggleTrap()
      requires Valid()
      modifies this`trapMode
      ensures Valid() && trapMode == !old(trapMode)
    {
      trapMode := !trapMode;
    }

    /** The pause button: pause or resume. */
    method TogglePause()
      requires Valid()
      modifies this`paused
      ensures Valid() && paused == !old(paused)
    {
      paused := !paused;
    }
  }
}
