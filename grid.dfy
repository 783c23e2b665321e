/**
 * The uniform acceleration grid: its size, the mapping from ground-plane
 * coordinates to cell indices, and the block of cells an agent scans.
 * The grid itself is an `array2<seq<T>>` whose cells are lists of markers;
 * the scan is specified on a snapshot of its contents (`Contents`).
 */
module Grid {

  /** Side length of the ground plane, in world units. */
  const PLANE_SCALE: int := 40

  /** The grid has PLANE_SCALE + 4 cells on each side. */
  const GRID_SIZE: int := PLANE_SCALE + 4

  /** How many cells an agent scans on either side of its own cell. */
  const NEIGHBORHOOD_RADIUS: int := 3

  /** Math.ceil. */
  function Ceil(x: real): (c: int)
    ensures x <= c as real < x + 1.0
  {
    -((-x).Floor)
  }

  /** The cell index of a coordinate: ceil(x) shifted by half the plane. */
  function CellIndex(x: real): int {
    Ceil(x) + PLANE_SCALE / 2
  }

  /** A coordinate in [-20.5, 21) lands in a cell between 0 and 41. */
  lemma CellIndexInRange(x: real)
    requires -20.5 <= x < 21.0
    ensures 0 <= CellIndex(x) <= 41
  {
  }

  /**
   * First index the neighbourhood loop visits on one axis. The loop starts at
   * c - 3 and its body raises a negative index to 0.
   */
  function ScanLo(c: int): int {
    if c - NEIGHBORHOOD_RADIUS < 0 then 0 else c - NEIGHBORHOOD_RADIUS
  }

  /**
   * One past the last index visited on one axis. The loop runs while the index
   * is below c + 3, but an index raised to 0 is visited once even when c + 3 <= 0.
   */
  function ScanHi(c: int): int {
    var lo := ScanLo(c);
    if c + NEIGHBORHOOD_RADIUS <= lo then lo + 1 else c + NEIGHBORHOOD_RADIUS
  }

  /**
   * The visited range on one axis is never negative, is never empty, spans at
   * most 6 indices, and is exactly [c - 3, c + 3) once c >= 3.
   */
  lemma ScanRange(c: int)
    ensures 0 <= ScanLo(c) < ScanHi(c)
    ensures ScanHi(c) - ScanLo(c) <= 2 * NEIGHBORHOOD_RADIUS
    ensures c >= NEIGHBORHOOD_RADIUS ==>
              ScanLo(c) == c - NEIGHBORHOOD_RADIUS && ScanHi(c) == c + NEIGHBORHOOD_RADIUS
    ensures c + NEIGHBORHOOD_RADIUS <= 0 ==> ScanLo(c) == 0 && ScanHi(c) == 1
  {
  }

  /** With no upper clamp, the range fits a grid of GRID_SIZE cells exactly when c <= 41. */
  lemma ScanFitsGrid(c: int)
    ensures ScanHi(c) <= GRID_SIZE <==> c <= GRID_SIZE - NEIGHBORHOOD_RADIUS
  {
  }

  /** Cells (i, j) with j in [jlo, jhi), in increasing order. */
  function RowCells(i: int, jlo: int, jhi: int): seq<(int, int)>
    decreases jhi - jlo
  {
    if jhi <= jlo then [] else RowCells(i, jlo, jhi - 1) + [(i, jhi - 1)]
  }

  /** The block [ilo, ihi) x [jlo, jhi) in row-major order, as the nested loops visit it. */
  function ScanCells(ilo: int, ihi: int, jlo: int, jhi: int): seq<(int, int)>
    decreases ihi - ilo
  {
    if ihi <= ilo then [] else ScanCells(ilo, ihi - 1, jlo, jhi) + RowCells(ihi - 1, jlo, jhi)
  }

  /** (a, b) comes strictly before (c, d) in row-major order. */
  predicate Before(p: (int, int), q: (int, int)) {
    p.0 < q.0 || (p.0 == q.0 && p.1 < q.1)
  }

  lemma {:induction false} RowCellsShape(i: int, jlo: int, jhi: int)
    ensures |RowCells(i, jlo, jhi)| == if jhi <= jlo then 0 else jhi - jlo
    ensures forall p | p in RowCells(i, jlo, jhi) :: p.0 == i && jlo <= p.1 < jhi
    ensures forall j | jlo <= j < jhi :: (i, j) in RowCells(i, jlo, jhi)
    ensures forall p, q | 0 <= p < q < |RowCells(i, jlo, jhi)| ::
              Before(RowCells(i, jlo, jhi)[p], RowCells(i, jlo, jhi)[q])
    decreases jhi - jlo
  {
    if jlo < jhi {
      RowCellsShape(i, jlo, jhi - 1);
    }
  }

  /**
   * The scanned block contains exactly the cells of the rectangle, each once
   * (the visiting order is strictly increasing), and there are
   * (ihi - ilo) * (jhi - jlo) of them.
   */
  lemma ScanCellsShape(ilo: int, ihi: int, jlo: int, jhi: int)
    requires ilo <= ihi && jlo <= jhi
    ensures |ScanCells(ilo, ihi, jlo, jhi)| == (ihi - ilo) * (jhi - jlo)
    ensures forall c :: c in ScanCells(ilo, ihi, jlo, jhi) <==> ilo <= c.0 < ihi && jlo <= c.1 < jhi
    ensures forall p, q | 0 <= p < q < |ScanCells(ilo, ihi, jlo, jhi)| ::
              Before(ScanCells(ilo, ihi, jlo, jhi)[p], ScanCells(ilo, ihi, jlo, jhi)[q])
  {
    ScanCellsLength(ilo, ihi, jlo, jhi);
    ScanCellsMembers(ilo, ihi, jlo, jhi);
    ScanCellsOrdered(ilo, ihi, jlo, jhi);
  }

  lemma {:induction false} ScanCellsLength(ilo: int, ihi: int, jlo: int, jhi: int)
    requires ilo <= ihi && jlo <= jhi
    ensures |ScanCells(ilo, ihi, jlo, jhi)| == (ihi - ilo) * (jhi - jlo)
    decreases ihi - ilo
  {
    if ilo < ihi {
      ScanCellsLength(ilo, ihi - 1, jlo, jhi);
      RowCellsShape(ihi - 1, jlo, jhi);
      var n, w := ihi - 1 - ilo, jhi - jlo;
      assert (n + 1) * w == n * w + w;
    }
  }

  lemma {:induction false} ScanCellsMembers(ilo: int, ihi: int, jlo: int, jhi: int)
    requires ilo <= ihi && jlo <= jhi
    ensures forall c :: c in ScanCells(ilo, ihi, jlo, jhi) <==> ilo <= c.0 < ihi && jlo <= c.1 < jhi
    decreases ihi - ilo
  {
    if ilo < ihi {
      ScanCellsMembers(ilo, ihi - 1, jlo, jhi);
      RowCellsShape(ihi - 1, jlo, jhi);
      var prev, row := ScanCells(ilo, ihi - 1, jlo, jhi), RowCells(ihi - 1, jlo, jhi);
      assert ScanCells(ilo, ihi, jlo, jhi) == prev + row;
      forall c: (int, int) ensures c in prev + row <==> ilo <= c.0 < ihi && jlo <= c.1 < jhi {
        assert c in prev + row <==> c in prev || c in row;
      }
    }
  }

  lemma {:induction false} ScanCellsOrdered(ilo: int, ihi: int, jlo: int, jhi: int)
    requires ilo <= ihi && jlo <= jhi
    ensures forall p, q | 0 <= p < q < |ScanCells(ilo, ihi, jlo, jhi)| ::
              Before(ScanCells(ilo, ihi, jlo, jhi)[p], ScanCells(ilo, ihi, jlo, jhi)[q])
    decreases ihi - ilo
  {
    if ilo < ihi {
      ScanCellsOrdered(ilo, ihi - 1, jlo, jhi);
      ScanCellsMembers(ilo, ihi - 1, jlo, jhi);
      RowCellsShape(ihi - 1, jlo, jhi);
      var prev, row := ScanCells(ilo, ihi - 1, jlo, jhi), RowCells(ihi - 1, jlo, jhi);
      assert ScanCells(ilo, ihi, jlo, jhi) == prev + row;
      forall p, q | 0 <= p < q < |prev + row|
        ensures Before((prev + row)[p], (prev + row)[q])
      {
        if q < |prev| {
          assert (prev + row)[p] == prev[p] && (prev + row)[q] == prev[q];
        } else if p >= |prev| {
          assert (prev + row)[p] == row[p - |prev|];
          assert (prev + row)[q] == row[q - |prev|];
        } else {
          assert (prev + row)[p] == prev[p] && prev[p] in prev;
          assert (prev + row)[q] == row[q - |prev|] && row[q - |prev|] in row;
        }
      }
    }
  }

  /** The contents of a grid as a value: row i, column j is `grid[i, j]`. */
  function Contents<T>(grid: array2<seq<T>>): (g: seq<seq<seq<T>>>)
    reads grid
    ensures |g| == grid.Length0
    ensures forall i | 0 <= i < |g| :: |g[i]| == grid.Length1
    ensures forall i, j | 0 <= i < grid.Length0 && 0 <= j < grid.Length1 :: g[i][j] == grid[i, j]
  {
    seq(grid.Length0, i requires 0 <= i < grid.Length0 reads grid =>
      seq(grid.Length1, j requires 0 <= j < grid.Length1 reads grid => grid[i, j]))
  }

  /** Every row of `g` has at least `cols` cells. */
  predicate Wide<T>(g: seq<seq<seq<T>>>, cols: int) {
    forall i | 0 <= i < |g| :: cols <= |g[i]|
  }

  /** Concatenation of the grid cells listed in `cells`, in that order. */
  function Gather<T>(g: seq<seq<seq<T>>>, cells: seq<(int, int)>): seq<T>
    requires forall c | c in cells :: 0 <= c.0 < |g| && 0 <= c.1 < |g[c.0]|
  {
    if cells == [] then []
    else
      var last := cells[|cells| - 1];
      Gather(g, cells[..|cells| - 1]) + g[last.0][last.1]
  }

  lemma {:induction false} GatherAppend<T>(g: seq<seq<seq<T>>>, a: seq<(int, int)>, b: seq<(int, int)>)
    requires forall c | c in a + b :: 0 <= c.0 < |g| && 0 <= c.1 < |g[c.0]|
    ensures Gather(g, a + b) == Gather(g, a) + Gather(g, b)
    decreases |b|
  {
    if b != [] {
      var b', last := b[..|b| - 1], b[|b| - 1];
      assert (a + b)[..|a + b| - 1] == a + b';
      assert (a + b)[|a + b| - 1] == last;
      assert forall c | c in a + b' :: c in a + b;
      GatherAppend(g, a, b');
      assert Gather(g, a + b) == Gather(g, a + b') + g[last.0][last.1];
      assert Gather(g, b) == Gather(g, b') + g[last.0][last.1];
    } else {
      assert a + b == a;
    }
  }

  /** The cells a scan has visited before cell (row, col) lie inside the grid. */
  lemma ScanPrefixInside(ilo: int, jlo: int, jhi: int, row: int, col: int, rows: int, cols: int)
    requires 0 <= ilo <= row <= rows && 0 <= jlo <= col <= jhi <= cols && (row < rows || col == jlo)
    ensures forall c | c in ScanCells(ilo, row, jlo, jhi) + RowCells(row, jlo, col) ::
              0 <= c.0 < rows && 0 <= c.1 < cols
  {
    ScanCellsShape(ilo, row, jlo, jhi);
    RowCellsShape(row, jlo, col);
  }

  /**
   * The contents of the cells a row-major scan of columns [jlo, jhi), starting
   * at row ilo, has visited before reaching cell (row, col).
   */
  function ScanPrefix<T>(g: seq<seq<seq<T>>>, ilo: int, jlo: int, jhi: int, row: int, col: int): seq<T>
    requires 0 <= ilo <= row <= |g| && 0 <= jlo <= col <= jhi && Wide(g, jhi)
    requires row < |g| || col == jlo
  {
    ScanPrefixInside(ilo, jlo, jhi, row, col, |g|, jhi);
    Gather(g, ScanCells(ilo, row, jlo, jhi) + RowCells(row, jlo, col))
  }

  lemma ScanPrefixStart<T>(g: seq<seq<seq<T>>>, ilo: int, jlo: int, jhi: int)
    requires 0 <= ilo <= |g| && 0 <= jlo <= jhi && Wide(g, jhi)
    ensures ScanPrefix(g, ilo, jlo, jhi, ilo, jlo) == []
  {
    assert ScanCells(ilo, ilo, jlo, jhi) + RowCells(ilo, jlo, jlo) == [];
  }

  /** Visiting cell (row, col) appends its contents. */
  lemma ScanPrefixNextCell<T>(g: seq<seq<seq<T>>>, ilo: int, jlo: int, jhi: int, row: int, col: int, col': int)
    requires 0 <= ilo <= row < |g| && 0 <= jlo <= col < jhi && Wide(g, jhi) && col' == col + 1
    ensures ScanPrefix(g, ilo, jlo, jhi, row, col') == ScanPrefix(g, ilo, jlo, jhi, row, col) + g[row][col]
  {
    var prev := ScanCells(ilo, row, jlo, jhi) + RowCells(row, jlo, col);
    ScanPrefixInside(ilo, jlo, jhi, row, col + 1, |g|, jhi);
    assert ScanCells(ilo, row, jlo, jhi) + RowCells(row, jlo, col + 1) == prev + [(row, col)];
    GatherAppend(g, prev, [(row, col)]);
    assert Gather(g, [(row, col)]) == g[row][col] by {
      assert [(row, col)][..0] == [];
    }
  }

  /** Finishing a row is the same as starting the next one. */
  lemma ScanPrefixNextRow<T>(g: seq<seq<seq<T>>>, ilo: int, jlo: int, jhi: int, row: int, row': int)
    requires 0 <= ilo <= row < |g| && 0 <= jlo <= jhi && Wide(g, jhi) && row' == row + 1
    ensures ScanPrefix(g, ilo, jlo, jhi, row', jlo) == ScanPrefix(g, ilo, jlo, jhi, row, jhi)
  {
    assert ScanCells(ilo, row + 1, jlo, jhi) + RowCells(row + 1, jlo, jlo) ==
           ScanCells(ilo, row, jlo, jhi) + RowCells(row, jlo, jhi);
  }

  /** The cells an agent whose cell is (cx, cy) visits, in visiting order. */
  function NeighbourhoodCells(cx: int, cy: int): seq<(int, int)> {
    ScanCells(ScanLo(cx), ScanHi(cx), ScanLo(cy), ScanHi(cy))
  }

  /** Every listed cell lies in a grid the scan fits into. */
  lemma NeighbourhoodInside(cx: int, cy: int, rows: int, cols: int)
    requires ScanHi(cx) <= rows && ScanHi(cy) <= cols
    ensures forall c | c in NeighbourhoodCells(cx, cy) :: 0 <= c.0 < rows && 0 <= c.1 < cols
  {
    ScanRange(cx);
    ScanRange(cy);
    ScanCellsShape(ScanLo(cx), ScanHi(cx), ScanLo(cy), ScanHi(cy));
  }

  /**
   * An agent visits each cell of its neighbourhood once, never a negative
   * index, and at most 36 cells; away from the lower edges it visits
   * exactly the 6 x 6 block [cx - 3, cx + 3) x [cy - 3, cy + 3).
   */
  lemma NeighbourhoodShape(cx: int, cy: int)
    ensures forall p, q | 0 <= p < q < |NeighbourhoodCells(cx, cy)| ::
              NeighbourhoodCells(cx, cy)[p] != NeighbourhoodCells(cx, cy)[q]
    ensures forall c | c in NeighbourhoodCells(cx, cy) :: 0 <= c.0 && 0 <= c.1
    ensures |NeighbourhoodCells(cx, cy)| <= 4 * NEIGHBORHOOD_RADIUS * NEIGHBORHOOD_RADIUS
    ensures cx >= NEIGHBORHOOD_RADIUS && cy >= NEIGHBORHOOD_RADIUS ==>
              forall c :: c in NeighbourhoodCells(cx, cy) <==>
                cx - NEIGHBORHOOD_RADIUS <= c.0 < cx + NEIGHBORHOOD_RADIUS &&
                cy - NEIGHBORHOOD_RADIUS <= c.1 < cy + NEIGHBORHOOD_RADIUS
  {
    ScanRange(cx);
    ScanRange(cy);
    var ilo, ihi, jlo, jhi := ScanLo(cx), ScanHi(cx), ScanLo(cy), ScanHi(cy);
    ScanCellsShape(ilo, ihi, jlo, jhi);
    var cells := NeighbourhoodCells(cx, cy);
    forall p, q | 0 <= p < q < |cells| ensures cells[p] != cells[q] {
      assert Before(cells[p], cells[q]);
    }
    SmallProduct(ihi - ilo, jhi - jlo, |cells|);
  }

  lemma SmallProduct(w: int, h: int, p: int)
    requires 0 < w <= 2 * NEIGHBORHOOD_RADIUS && 0 < h <= 2 * NEIGHBORHOOD_RADIUS && p == w * h
    ensures p <= 4 * NEIGHBORHOOD_RADIUS * NEIGHBORHOOD_RADIUS
  {
    assert w * h <= 6 * h;
  }

  /** The markers an agent whose cell is (cx, cy) visits, in visiting order. */
  function Neighbourhood<T>(g: seq<seq<seq<T>>>, cx: int, cy: int): seq<T>
    requires ScanHi(cx) <= |g| && Wide(g, ScanHi(cy))
  {
    NeighbourhoodInside(cx, cy, |g|, ScanHi(cy));
    Gather(g, NeighbourhoodCells(cx, cy))
  }

  /** A finished scan has gathered the whole neighbourhood. */
  lemma ScanPrefixWhole<T>(g: seq<seq<seq<T>>>, cx: int, cy: int)
    requires ScanHi(cx) <= |g| && Wide(g, ScanHi(cy))
    ensures ScanPrefix(g, ScanLo(cx), ScanLo(cy), ScanHi(cy), ScanHi(cx), ScanLo(cy)) == Neighbourhood(g, cx, cy)
  {
    ScanRange(cx);
    ScanRange(cy);
    assert ScanCells(ScanLo(cx), ScanHi(cx), ScanLo(cy), ScanHi(cy)) + RowCells(ScanHi(cx), ScanLo(cy), ScanLo(cy))
           == NeighbourhoodCells(cx, cy);
  }
}
