/** The reference semantics the distributed engine is measured against: one
    Life generation on the whole grid, toroidal in both directions. It is
    defined independently of bands and halos: a cell's neighbours are the
    eight cells at the offsets below, row and column indices taken modulo
    the grid's height and width. */
module Torus {

  import opened Grids
  import opened Life

  /** The eight neighbour offsets (row, column). */
  const Offsets: seq<(int, int)> :=
    [(-1, -1), (-1, 0), (-1, 1), (0, -1), (0, 1), (1, -1), (1, 0), (1, 1)]

  /** Live cells of `g` at the given offsets from `(y, x)`, wrapping on both
      axes. */
  function SumAt(g: Grid, w: nat, y: nat, x: nat, offs: seq<(int, int)>): int
    requires |g| >= 1 && w >= 1 && IsGrid(g, |g|, w)
  {
    if |offs| == 0 then 0
    else Bit(g[(y + offs[0].0) % |g|][(x + offs[0].1) % w]) + SumAt(g, w, y, x, offs[1..])
  }

  /** The number of live neighbours of cell `(y, x)` on the torus. */
  function LiveNeighbours(g: Grid, w: nat, y: nat, x: nat): int
    requires |g| >= 1 && w >= 1 && IsGrid(g, |g|, w)
  {
    SumAt(g, w, y, x, Offsets)
  }

  /** One toroidal Life generation of the whole grid. */
  function GlobalStep(g: Grid, w: nat): (next: Grid)
    requires |g| >= 1 && w >= 1 && IsGrid(g, |g|, w)
    ensures IsGrid(next, |g|, w)
  {
    seq(|g|, y requires 0 <= y < |g| =>
      seq(w, x requires 0 <= x < w => Rule(g[y][x], LiveNeighbours(g, w, y, x))))
  }

  /** `n` toroidal generations. */
  function GlobalRun(g: Grid, w: nat, n: nat): (out: Grid)
    requires |g| >= 1 && w >= 1 && IsGrid(g, |g|, w)
    ensures IsGrid(out, |g|, w)
  {
    if n == 0 then g else GlobalStep(GlobalRun(g, w, n - 1), w)
  }

  /** The toroidal neighbour count splits by rows: three cells of the row
      above (wrapping to the last row), the two side cells of the row itself
      and three cells of the row beneath (wrapping to the first row). */
  lemma NeighboursByRows(g: Grid, w: nat, y: nat, x: nat)
    requires |g| >= 1 && w >= 1 && IsGrid(g, |g|, w)
    requires y < |g| && x < w
    ensures LiveNeighbours(g, w, y, x) ==
      Count3(g[(y - 1) % |g|], x, w) + Count2(g[y], x, w) + Count3(g[(y + 1) % |g|], x, w)
  {
    UpperThree(g, w, y, x);
    MiddleTwo(g, w, y, x);
    LowerThree(g, w, y, x);
  }

  /** The first three offsets count the row above. */
  lemma UpperThree(g: Grid, w: nat, y: nat, x: nat)
    requires |g| >= 1 && w >= 1 && IsGrid(g, |g|, w)
    requires y < |g| && x < w
    ensures SumAt(g, w, y, x, Offsets) == Count3(g[(y - 1) % |g|], x, w) + SumAt(g, w, y, x, Offsets[3..])
  {
    RowTriple(g, w, y, x, Offsets, -1);
  }

  /** The next two offsets count the two side cells of the row itself. */
  lemma MiddleTwo(g: Grid, w: nat, y: nat, x: nat)
    requires |g| >= 1 && w >= 1 && IsGrid(g, |g|, w)
    requires y < |g| && x < w
    ensures SumAt(g, w, y, x, Offsets[3..]) == Count2(g[y], x, w) + SumAt(g, w, y, x, Offsets[5..])
  {
    var o, mid := Offsets[3..], g[y];
    assert y % |g| == y;
    var l, r := Wrap(x, -1, w), Wrap(x, 1, w);
    assert o[0] == (0, -1) && o[1] == (0, 1) && o[1..][1..] == Offsets[5..];
    calc {
      SumAt(g, w, y, x, o);
      Bit(mid[l]) + SumAt(g, w, y, x, o[1..]);
      Bit(mid[l]) + Bit(mid[r]) + SumAt(g, w, y, x, Offsets[5..]);
    }
  }

  /** The last three offsets count the row beneath. */
  lemma LowerThree(g: Grid, w: nat, y: nat, x: nat)
    requires |g| >= 1 && w >= 1 && IsGrid(g, |g|, w)
    requires y < |g| && x < w
    ensures SumAt(g, w, y, x, Offsets[5..]) == Count3(g[(y + 1) % |g|], x, w)
  {
    RowTriple(g, w, y, x, Offsets[5..], 1);
    assert Offsets[5..][3..] == [];
  }

  /** Three offsets `(dy, -1), (dy, 0), (dy, 1)` count the left, same and
      right cells of row `y + dy`, wrapping. */
  lemma RowTriple(g: Grid, w: nat, y: nat, x: nat, offs: seq<(int, int)>, dy: int)
    requires |g| >= 1 && w >= 1 && IsGrid(g, |g|, w) && x < w
    requires |offs| >= 3 && offs[0] == (dy, -1) && offs[1] == (dy, 0) && offs[2] == (dy, 1)
    ensures SumAt(g, w, y, x, offs) == Count3(g[(y + dy) % |g|], x, w) + SumAt(g, w, y, x, offs[3..])
  {
    var row := g[(y + dy) % |g|];
    var l, m, r := Wrap(x, -1, w), Wrap(x, 0, w), Wrap(x, 1, w);
    calc {
      SumAt(g, w, y, x, offs);
      Bit(row[l]) + SumAt(g, w, y, x, offs[1..]);
      { assert offs[1..][0] == (dy, 0) && offs[1..][1..] == offs[2..]; }
      Bit(row[l]) + Bit(row[m]) + SumAt(g, w, y, x, offs[2..]);
      { assert offs[2..][0] == (dy, 1) && offs[2..][1..] == offs[3..]; }
      Bit(row[l]) + Bit(row[m]) + Bit(row[r]) + SumAt(g, w, y, x, offs[3..]);
    }
  }

  /** Row `y` of the toroidal step is the band rule applied to the rows
      above and beneath `y` on the torus. */
  lemma GlobalStepRow(g: Grid, w: nat, y: nat)
    requires |g| >= 1 && w >= 1 && IsGrid(g, |g|, w)
    requires y < |g|
    ensures GlobalStep(g, w)[y] == NextRow(g[(y - 1) % |g|], g[y], g[(y + 1) % |g|], w)
  {
    var H := |g|;
    var want := NextRow(g[(y - 1) % H], g[y], g[(y + 1) % H], w);
    forall x | 0 <= x < w
      ensures GlobalStep(g, w)[y][x] == want[x]
    {
      NeighboursByRows(g, w, y, x);
    }
  }
}
