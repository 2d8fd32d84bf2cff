/** The solid pile (app.js lines 171-195): oxide particles stacked in rows
    above a fixed base, row r holding at most 6 + r/2 particles, with a hard
    stop after nine rows. PileRows is the row-by-row reference layout that the
    loops of BuildSolidPile are proved to produce. */
module Pile {
  import opened Geometry
  import opened Species

  const Spacing: real := 18.0
  /** The builder stops once `row > 8`, so rows 0 to 8 exist at most. */
  const MaxRows: nat := 9
  /** 6 + 6 + 7 + 7 + 8 + 8 + 9 + 9 + 10 */
  const MaxPile: nat := 70

  function NonNeg(n: int): nat { if n < 0 then 0 else n }

  function MinNat(a: nat, b: nat): nat { if a <= b then a else b }

  /** The base of the pile is centred, 90 above the bottom edge of the arena (y grows downward). */
  function BaseX(width: real): real { width * 0.50 }
  function BaseY(height: real): real { height - 90.0 }

  /** 6 + floor(row / 2): a little wider at the bottom. */
  function RowCapacity(row: nat): nat { 6 + row / 2 }

  /** The total capacity of the rows below `row`. */
  function CapacityBelow(row: nat): nat
  {
    if row == 0 then 0 else CapacityBelow(row - 1) + RowCapacity(row - 1)
  }

  /** How many particles were placed before row `row` started, for n requested. */
  function PlacedBefore(n: nat, row: nat): (p: nat)
    ensures p <= n
  {
    if row == 0 then 0 else MinNat(n, PlacedBefore(n, row - 1) + RowCapacity(row - 1))
  }

  /** inRow = min(nCuO - placed, 6 + floor(row / 2)): never more than the row
      can hold nor than remain to place, and it advances the placed count. */
  function InRow(n: nat, row: nat): (c: nat)
    ensures c <= RowCapacity(row) && c <= n - PlacedBefore(n, row)
    ensures PlacedBefore(n, row) + c == PlacedBefore(n, row + 1)
  {
    MinNat(n - PlacedBefore(n, row), RowCapacity(row))
  }

  /** Before row `row`, the builder has placed everything asked for or filled
      every row below. */
  lemma {:induction false} PlacedBeforeCapped(n: nat, row: nat)
    ensures PlacedBefore(n, row) == MinNat(n, CapacityBelow(row))
  {
    if row > 0 { PlacedBeforeCapped(n, row - 1); }
  }

  /** The number of particles the pile holds when nCuO are requested. */
  function PileSize(nCuO: int): nat { MinNat(NonNeg(nCuO), MaxPile) }

  /** Nine rows hold seventy particles: PlacedBefore(n, 9) is min(n, 70). */
  lemma NineRowsPlacePileSize(n: nat)
    ensures PlacedBefore(n, MaxRows) == PileSize(n)
  {
    PlacedBeforeCapped(n, MaxRows);
    assert CapacityBelow(MaxRows) == MaxPile by {
      assert CapacityBelow(2) == 12;
      assert CapacityBelow(4) == 26;
      assert CapacityBelow(6) == 42;
      assert CapacityBelow(8) == 60;
    }
  }

  /** The k-th particle of row `row`: an oxide particle centred on the row,
      18 apart, with a jitter of [-3, 3) across and [-2, 2) up and down drawn
      for the particle numbered PlacedBefore(n, row) + k. */
  function PileParticle(n: nat, row: nat, k: nat, baseX: real, baseY: real, jitter: nat -> (real, real)): SolidParticle
  {
    var inRow := InRow(n, row);
    var y := baseY - row as real * (Spacing * 0.9);
    var xStart := baseX - (inRow - 1) as real * (Spacing * 0.55);
    var draw := jitter(PlacedBefore(n, row) + k);
    SolidParticle(CuO, xStart + k as real * Spacing + Rand(draw.0, -3.0, 3.0), y + Rand(draw.1, -2.0, 2.0))
  }

  /** The first k particles of row `row`. */
  function RowPrefix(n: nat, row: nat, k: nat, baseX: real, baseY: real, jitter: nat -> (real, real)): seq<SolidParticle>
  {
    if k == 0 then [] else RowPrefix(n, row, k - 1, baseX, baseY, jitter) + [PileParticle(n, row, k - 1, baseX, baseY, jitter)]
  }

  /** The pile made of its first `rows` rows. */
  function PileRows(n: nat, rows: nat, baseX: real, baseY: real, jitter: nat -> (real, real)): seq<SolidParticle>
  {
    if rows == 0 then []
    else PileRows(n, rows - 1, baseX, baseY, jitter) + RowPrefix(n, rows - 1, InRow(n, rows - 1), baseX, baseY, jitter)
  }

  /** The t-th particle of a row prefix is the t-th particle of the row. */
  lemma {:induction false} RowPrefixShape(n: nat, row: nat, k: nat, baseX: real, baseY: real, jitter: nat -> (real, real))
    ensures |RowPrefix(n, row, k, baseX, baseY, jitter)| == k
    ensures forall t :: 0 <= t < k ==> RowPrefix(n, row, k, baseX, baseY, jitter)[t] == PileParticle(n, row, t, baseX, baseY, jitter)
  {
    if k > 0 { RowPrefixShape(n, row, k - 1, baseX, baseY, jitter); }
  }

  /** Once everything asked for is placed, further rows add nothing. */
  lemma {:induction false} PileRowsSaturated(n: nat, row: nat, rows: nat, baseX: real, baseY: real, jitter: nat -> (real, real))
    requires row <= rows && PlacedBefore(n, row) == n
    ensures PileRows(n, rows, baseX, baseY, jitter) == PileRows(n, row, baseX, baseY, jitter)
    ensures PlacedBefore(n, rows) == n
    decreases rows - row
  {
    if row < rows {
      assert InRow(n, row) == 0;
      assert PileRows(n, row + 1, baseX, baseY, jitter) == PileRows(n, row, baseX, baseY, jitter) + [];
      PileRowsSaturated(n, row + 1, rows, baseX, baseY, jitter);
    }
  }

  /** Whether the builder stops because everything asked for is placed or
      because nine rows are built, the pile so far is the nine-row layout and
      holds min(n, 70) particles. */
  lemma PileFinished(n: nat, row: nat, baseX: real, baseY: real, jitter: nat -> (real, real))
    requires row <= MaxRows && (row == MaxRows || PlacedBefore(n, row) == n)
    ensures PileRows(n, MaxRows, baseX, baseY, jitter) == PileRows(n, row, baseX, baseY, jitter)
    ensures PlacedBefore(n, row) == PileSize(n)
  {
    if row < MaxRows {
      PileRowsSaturated(n, row, MaxRows, baseX, baseY, jitter);
    }
    NineRowsPlacePileSize(n);
  }

  /** Row r sits 16.2 * r above the base, give or take the vertical jitter, so
      a pile of `rows` rows lies between the base and the height of row rows - 1. */
  lemma {:induction false} PileRowsHeight(n: nat, rows: nat, baseX: real, baseY: real, jitter: nat -> (real, real))
    requires forall t :: InUnit(jitter(t).1)
    ensures forall p :: p in PileRows(n, rows, baseX, baseY, jitter) ==>
      baseY - (rows - 1) as real * (Spacing * 0.9) - 2.0 <= p.y < baseY + 2.0
  {
    if rows > 0 {
      PileRowsHeight(n, rows - 1, baseX, baseY, jitter);
      var row := rows - 1;
      RowPrefixShape(n, row, InRow(n, row), baseX, baseY, jitter);
      forall p | p in RowPrefix(n, row, InRow(n, row), baseX, baseY, jitter)
        ensures baseY - row as real * (Spacing * 0.9) - 2.0 <= p.y < baseY + 2.0
      {
        var t :| 0 <= t < InRow(n, row) && RowPrefix(n, row, InRow(n, row), baseX, baseY, jitter)[t] == p;
        RandInRange(jitter(PlacedBefore(n, row) + t).1, -2.0, 2.0);
      }
    }
  }

  /** One pass of the inner loop of buildSolidPile: the particles of row
      `row` are appended, each with its own jitter draw, and `placed` advances
      by the size of the row. */
  method PlaceRow(nCuO: int, row: nat, placed0: nat, pile0: seq<SolidParticle>,
                  baseX: real, baseY: real, jitter: nat -> (real, real))
    returns (pile: seq<SolidParticle>, placed: nat)
    requires placed0 == PlacedBefore(NonNeg(nCuO), row) && placed0 < nCuO
    requires |pile0| == placed0 && forall t :: 0 <= t < |pile0| ==> pile0[t].kind == CuO
    ensures placed == PlacedBefore(NonNeg(nCuO), row + 1)
    ensures |pile| == placed && forall t :: 0 <= t < |pile| ==> pile[t].kind == CuO
    ensures pile == pile0 + RowPrefix(NonNeg(nCuO), row, InRow(NonNeg(nCuO), row), baseX, baseY, jitter)
  {
    ghost var n := NonNeg(nCuO);
    pile, placed := pile0, placed0;
    var inRow := if nCuO - placed <= RowCapacity(row) then nCuO - placed else RowCapacity(row);
    assert inRow == InRow(n, row);
    var y := baseY - row as real * (Spacing * 0.9);
    var xStart := baseX - (inRow - 1) as real * (Spacing * 0.55);
    var k := 0;
    while k < inRow && placed < nCuO
      invariant 0 <= k <= inRow
      invariant placed == placed0 + k
      invariant pile == pile0 + RowPrefix(n, row, k, baseX, baseY, jitter)
      invariant |pile| == placed && forall t :: 0 <= t < |pile| ==> pile[t].kind == CuO
    {
      var draw := jitter(placed);
      var x := xStart + k as real * Spacing + Rand(draw.0, -3.0, 3.0);
      var particle := SolidParticle(CuO, x, y + Rand(draw.1, -2.0, 2.0));
      assert particle == PileParticle(n, row, k, baseX, baseY, jitter);
      pile := pile + [particle];
      placed := placed + 1;
      k := k + 1;
    }
    assert k == inRow;
  }

  /** buildSolidPile(nCuO): rows are filled bottom up until everything asked
      for is placed or nine rows are built. The pile is the reference layout,
      holds min(nCuO, 70) particles (none for a negative request) and all of
      them are oxide. */
  method BuildSolidPile(nCuO: int, width: real, height: real, jitter: nat -> (real, real))
    returns (pile: seq<SolidParticle>)
    ensures pile == PileRows(NonNeg(nCuO), MaxRows, BaseX(width), BaseY(height), jitter)
    ensures |pile| == PileSize(nCuO)
    ensures forall i :: 0 <= i < |pile| ==> pile[i].kind == CuO
  {
    ghost var n := NonNeg(nCuO);
    var baseY := BaseY(height);
    var baseX := BaseX(width);
    pile := [];
    var placed := 0;
    var row := 0;
    while placed < nCuO
      invariant row < MaxRows
      invariant placed == PlacedBefore(n, row)
      invariant pile == PileRows(n, row, baseX, baseY, jitter)
      invariant |pile| == placed && forall t :: 0 <= t < |pile| ==> pile[t].kind == CuO
      decreases MaxRows - row
    {
      pile, placed := PlaceRow(nCuO, row, placed, pile, baseX, baseY, jitter);
      row := row + 1;
      if row > 8 { break; }
    }
    assert row == MaxRows || placed == n;
    PileFinished(n, row, baseX, baseY, jitter);
  }
}
