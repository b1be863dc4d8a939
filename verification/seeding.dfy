/** Seeding: the program writes the initial pattern through global
    coordinates, and every rank keeps only the writes that fall inside its
    own band. */
module Seeding {

  import opened Grids
  import opened Decomposition

  /** The program's `set`: writes `val` at global `(glY, glX)` when that
      coordinate lies in the band of `p`, translated to local coordinates;
      otherwise it does nothing. */
  function Set(world: Grid, p: Partition, glY: nat, glX: nat, val: bool): (r: Grid)
    requires IsGrid(world, p.height, p.width)
    ensures IsGrid(r, p.height, p.width)
    ensures Covers(p, glY, glX) ==> r[glY - p.yoffset][glX - p.xoffset] == val
    ensures forall j, i ::
              0 <= j < p.height && 0 <= i < p.width && (p.yoffset + j, p.xoffset + i) != (glY, glX)
              ==> r[j][i] == world[j][i]
    ensures !Covers(p, glY, glX) ==> r == world
  {
    if Covers(p, glY, glX) then
      var j, i := glY - p.yoffset, glX - p.xoffset;
      world[j := world[j][i := val]]
    else
      world
  }

  /** Several `set` calls in order, all writing `val`. */
  function SetAll(world: Grid, p: Partition, cells: seq<(nat, nat)>, val: bool): (r: Grid)
    requires IsGrid(world, p.height, p.width)
    ensures IsGrid(r, p.height, p.width)
    decreases |cells|
  {
    if |cells| == 0 then world
    else SetAll(Set(world, p, cells[0].0, cells[0].1, val), p, cells[1..], val)
  }

  /** After the writes, a local cell holds `val` exactly when its global
      coordinate is one of the written cells, and keeps its old state
      otherwise. */
  lemma {:induction false} SetAllCells(world: Grid, p: Partition, cells: seq<(nat, nat)>, val: bool)
    requires IsGrid(world, p.height, p.width)
    ensures var r := SetAll(world, p, cells, val);
      IsGrid(r, p.height, p.width) &&
      forall j, i :: 0 <= j < p.height && 0 <= i < p.width ==>
        r[j][i] == if (p.yoffset + j, p.xoffset + i) in cells then val else world[j][i]
    decreases |cells|
  {
    if |cells| > 0 {
      var next := Set(world, p, cells[0].0, cells[0].1, val);
      SetAllCells(next, p, cells[1..], val);
      assert cells == [cells[0]] + cells[1..];
    }
  }

  /** The F-pentomino, as the program places it:

        .##
        ##.
        .#.

      with its top-left corner at row `height / 2` and column `height / 2`.
      The column base is taken from the height, not the width, as the
      program writes it. */
  function FPentomino(c: Config): (cells: seq<(nat, nat)>)
    ensures |cells| == 5
    ensures forall k :: 0 <= k < |cells| ==>
      c.height / 2 <= cells[k].0 <= c.height / 2 + 2 && c.height / 2 <= cells[k].1 <= c.height / 2 + 2
    ensures (c.height / 2, c.height / 2) !in cells
  {
    var m := c.height / 2;
    [(m, m + 1), (m, m + 2), (m + 1, m), (m + 1, m + 1), (m + 2, m + 1)]
  }

  /** The five cells are pairwise distinct. */
  lemma FPentominoDistinct(c: Config)
    ensures forall a, b :: 0 <= a < b < 5 ==> FPentomino(c)[a] != FPentomino(c)[b]
  {
  }

  /** The band of rank `rank` after start-up: all cells dead, then the five
      pentomino writes. A local cell is alive exactly when its global
      coordinate (row offset by the band's `yoffset`) is a pentomino cell. */
  function SeedBand(c: Config, procs: nat, rank: nat): (band: Grid)
    requires rank < procs
    ensures IsGrid(band, BandHeight(c, procs), c.width)
    ensures forall j, i :: 0 <= j < BandHeight(c, procs) && 0 <= i < c.width ==>
      (band[j][i] <==> (MakePartition(c, procs, rank).yoffset + j, i) in FPentomino(c))
  {
    var p := MakePartition(c, procs, rank);
    SeedCells(p, FPentomino(c));
    SetAll(EmptyGrid(p.height, p.width), p, FPentomino(c), true)
  }

  /** Writing live cells into a dead band of a partition that starts at
      column 0 makes a local cell alive exactly when its global coordinate
      is one of the written cells. */
  lemma SeedCells(p: Partition, cells: seq<(nat, nat)>)
    requires p.xoffset == 0
    ensures var band := SetAll(EmptyGrid(p.height, p.width), p, cells, true);
      IsGrid(band, p.height, p.width) &&
      forall j, i :: 0 <= j < p.height && 0 <= i < p.width ==> (band[j][i] <==> (p.yoffset + j, i) in cells)
  {
    SetAllCells(EmptyGrid(p.height, p.width), p, cells, true);
  }

  /** The seeded bands of all ranks. */
  function SeedBands(c: Config, procs: nat): (bands: seq<Grid>)
    requires procs >= 1
    ensures |bands| == procs && Uniform(bands, BandHeight(c, procs))
  {
    seq(procs, r requires 0 <= r < procs => SeedBand(c, procs, r))
  }

  /** Global row `y` of the intended start grid: alive exactly at the
      pentomino cells of that row. */
  function IntendedRow(c: Config, y: nat): (row: Row)
    ensures |row| == c.width
  {
    seq(c.width, x requires 0 <= x < c.width => (y, x) in FPentomino(c))
  }

  /** The intended start grid of `rows` rows. */
  function Intended(c: Config, rows: nat): (g: Grid)
    ensures IsGrid(g, rows, c.width)
    ensures forall y :: 0 <= y < rows ==> g[y] == IntendedRow(c, y)
  {
    seq(rows, y requires 0 <= y < rows => IntendedRow(c, y))
  }

  /** Seed round trip: the seeded bands, stacked in rank order, are the
      intended pattern on the rows the ranks cover. A pentomino cell in a
      trailing row of an uneven division, or in a column at or beyond the
      width, is written by no rank. */
  lemma SeedRoundTrip(c: Config, procs: nat)
    requires procs >= 1
    ensures Concat(SeedBands(c, procs)) == Intended(c, procs * BandHeight(c, procs))
  {
    var h := BandHeight(c, procs);
    var bands := SeedBands(c, procs);
    var g := Concat(bands);
    var want := Intended(c, procs * h);
    ConcatLength(bands, h);
    forall y | 0 <= y < procs * h
      ensures g[y] == want[y]
    {
      SeedRow(c, procs, y);
    }
  }

  /** One global row of the stacked seeded bands is the intended row. */
  lemma SeedRow(c: Config, procs: nat, y: nat)
    requires procs >= 1 && y < procs * BandHeight(c, procs)
    ensures var bands := SeedBands(c, procs);
      y < |Concat(bands)| && Concat(bands)[y] == IntendedRow(c, y)
  {
    var h := BandHeight(c, procs);
    var bands := SeedBands(c, procs);
    var r, j := Split(y, h, procs);
    ConcatAt(bands, h, r, j);
    assert MakePartition(c, procs, r).yoffset + j == y;
    BandRow(c, procs, r, j);
  }

  /** Row `j` of rank `r`'s seeded band is the intended row at its global
      position. */
  lemma BandRow(c: Config, procs: nat, r: nat, j: nat)
    requires r < procs && j < BandHeight(c, procs)
    ensures SeedBand(c, procs, r)[j] == IntendedRow(c, MakePartition(c, procs, r).yoffset + j)
  {
    var row := SeedBand(c, procs, r)[j];
    var want := IntendedRow(c, MakePartition(c, procs, r).yoffset + j);
    forall x | 0 <= x < c.width
      ensures row[x] == want[x]
    {
    }
  }

  /** The live cells of a grid. */
  function LiveCells(g: Grid, w: nat): set<(nat, nat)>
    requires IsGrid(g, |g|, w)
  {
    set y: nat, x: nat | y < |g| && x < w && g[y][x] :: (y, x)
  }

  /** Seeding writes exactly five live cells when the pattern fits inside
      the covered rows and the width. */
  lemma FiveLiveCells(c: Config, procs: nat)
    requires procs >= 1
    requires c.height / 2 + 2 < procs * BandHeight(c, procs) && c.height / 2 + 2 < c.width
    ensures var g := Concat(SeedBands(c, procs));
      IsGrid(g, |g|, c.width) && |LiveCells(g, c.width)| == 5
  {
    SeedRoundTrip(c, procs);
    IntendedLive(c, procs * BandHeight(c, procs));
  }

  /** The live cells of the intended grid are the five pentomino cells,
      when the pattern fits inside it. */
  lemma IntendedLive(c: Config, rows: nat)
    requires c.height / 2 + 2 < rows && c.height / 2 + 2 < c.width
    ensures |LiveCells(Intended(c, rows), c.width)| == 5
  {
    var g := Intended(c, rows);
    var f := FPentomino(c);
    var cells := {f[0], f[1], f[2], f[3], f[4]};
    forall y: nat, x: nat | (y, x) in LiveCells(g, c.width)
      ensures (y, x) in cells
    {
      assert g[y] == IntendedRow(c, y);
    }
    forall k | 0 <= k < 5
      ensures f[k] in LiveCells(g, c.width)
    {
      assert g[f[k].0] == IntendedRow(c, f[k].0);
    }
    assert LiveCells(g, c.width) == cells;
    FPentominoDistinct(c);
  }
}
