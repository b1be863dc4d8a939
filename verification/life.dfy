/** The Life rule evaluator of one rank: one generation of a band, with the
    columns wrapping around and two halo rows standing in for the rows just
    outside the band. */
module Life {

  import opened Grids

  /** The Life transition: a live cell with 2 or 3 live neighbours survives,
      a dead cell with exactly 3 is born, every other cell is dead. */
  function Rule(alive: bool, c: int): (next: bool)
    ensures next <==> c == 3 || (alive && c == 2)
    ensures !alive && next ==> c == 3
    ensures alive && !next ==> c < 2 || c > 3
  {
    if alive then c == 2 || c == 3 else c == 3
  }

  /** The column `d` steps to the right of column `i` (with `d` in -1..1),
      written as the program writes it: `(i + width + d) % width`. */
  function Wrap(i: nat, d: int, w: nat): (k: nat)
    requires w >= 1 && i < w && -1 <= d <= 1
    ensures k < w
    ensures k == (i + d) % w
    ensures d == -1 ==> k == if i == 0 then w - 1 else i - 1
    ensures d == 0 ==> k == i
    ensures d == 1 ==> k == if i == w - 1 then 0 else i + 1
  {
    WrapCases(i, d, w);
    (i + w + d) % w
  }

  /** Case analysis of `(i + w + d) % w`: only column 0 stepping left and
      the last column stepping right wrap around. */
  lemma WrapCases(i: nat, d: int, w: nat)
    requires w >= 1 && i < w && -1 <= d <= 1
    ensures (i + w + d) % w == (i + d) % w
    ensures (i + w + d) % w == if i + d < 0 then w - 1 else if i + d >= w then 0 else i + d
  {
    if i + d < 0 {
      ModBelow(i + w + d, w);
      ModWrap(w);
    } else if i + d >= w {
      ModWrap(w);
    } else {
      ModAbove(i + w + d, w);
      ModBelow(i + d, w);
    }
  }

  /** Live cells among the left, same and right columns of `row`. */
  function Count3(row: Row, i: nat, w: nat): int
    requires w >= 1 && i < w && |row| == w
  {
    Bit(row[Wrap(i, -1, w)]) + Bit(row[Wrap(i, 0, w)]) + Bit(row[Wrap(i, 1, w)])
  }

  /** Live cells among the left and right columns of `row` (the cell itself
      is not its own neighbour). */
  function Count2(row: Row, i: nat, w: nat): int
    requires w >= 1 && i < w && |row| == w
  {
    Bit(row[Wrap(i, -1, w)]) + Bit(row[Wrap(i, 1, w)])
  }

  /** The next state of cell `i` of row `mid`, given the rows `up` above it
      and `down` beneath it. */
  function NextCell(up: Row, mid: Row, down: Row, i: nat, w: nat): bool
    requires w >= 1 && i < w && |up| == w && |mid| == w && |down| == w
  {
    Rule(mid[i], Count3(up, i, w) + Count2(mid, i, w) + Count3(down, i, w))
  }

  /** The next state of a whole row. */
  function NextRow(up: Row, mid: Row, down: Row, w: nat): (r: Row)
    requires w >= 1 && |up| == w && |mid| == w && |down| == w
    ensures |r| == w
  {
    seq(w, i requires 0 <= i < w => NextCell(up, mid, down, i, w))
  }

  /** What a band evaluation needs: at least two rows of `w >= 1` cells,
      and two halo rows of the same width. */
  predicate BandReady(world: Grid, fromAbove: Row, fromBeneath: Row, w: nat) {
    w >= 1 && |world| >= 2 && IsGrid(world, |world|, w) && |fromAbove| == w && |fromBeneath| == w
  }

  /** One generation of a band, in the program's three zones: the first row
      takes its upper neighbours from the halo received from above, the
      middle rows only read the band, and the last row takes its lower
      neighbours from the halo received from beneath. */
  function StepBand(world: Grid, fromAbove: Row, fromBeneath: Row, w: nat): (next: Grid)
    requires BandReady(world, fromAbove, fromBeneath, w)
    ensures IsGrid(next, |world|, w)
  {
    var h := |world|;
    [NextRow(fromAbove, world[0], world[1], w)]
    + seq(h - 2, k requires 0 <= k < h - 2 => NextRow(world[k], world[k + 1], world[k + 2], w))
    + [NextRow(world[h - 2], world[h - 1], fromBeneath, w)]
  }

  /** The band framed by its two halo rows: row `j` of the band is row
      `j + 1` here. */
  function Padded(world: Grid, fromAbove: Row, fromBeneath: Row): (pad: Grid)
    ensures |pad| == |world| + 2
    ensures pad[0] == fromAbove && pad[|world| + 1] == fromBeneath
    ensures forall j :: 0 <= j < |world| ==> pad[j + 1] == world[j]
  {
    [fromAbove] + world + [fromBeneath]
  }

  /** The three zones agree with one uniform rule: every row `j` of the next
      band is computed from rows `j`, `j + 1`, `j + 2` of the padded band,
      so each halo row is used exactly where the band has no row of its
      own. */
  lemma ZonesAgree(world: Grid, fromAbove: Row, fromBeneath: Row, w: nat, j: nat)
    requires BandReady(world, fromAbove, fromBeneath, w)
    requires j < |world|
    ensures var pad := Padded(world, fromAbove, fromBeneath);
      StepBand(world, fromAbove, fromBeneath, w)[j] == NextRow(pad[j], pad[j + 1], pad[j + 2], w)
  {
    var h := |world|;
    if j == 0 {
      FirstZone(world, fromAbove, fromBeneath, w);
    } else if j == h - 1 {
      LastZone(world, fromAbove, fromBeneath, w);
    } else {
      MiddleZone(world, fromAbove, fromBeneath, w, j);
    }
  }

  /** The first row reads the halo from above. */
  lemma FirstZone(world: Grid, fromAbove: Row, fromBeneath: Row, w: nat)
    requires BandReady(world, fromAbove, fromBeneath, w)
    ensures StepBand(world, fromAbove, fromBeneath, w)[0] == NextRow(fromAbove, world[0], world[1], w)
  {
  }

  /** The last row reads the halo from beneath. */
  lemma LastZone(world: Grid, fromAbove: Row, fromBeneath: Row, w: nat)
    requires BandReady(world, fromAbove, fromBeneath, w)
    ensures var h := |world|;
      StepBand(world, fromAbove, fromBeneath, w)[h - 1] == NextRow(world[h - 2], world[h - 1], fromBeneath, w)
  {
  }

  /** A middle row reads only the band. */
  lemma MiddleZone(world: Grid, fromAbove: Row, fromBeneath: Row, w: nat, j: nat)
    requires BandReady(world, fromAbove, fromBeneath, w)
    requires 0 < j < |world| - 1
    ensures StepBand(world, fromAbove, fromBeneath, w)[j] == NextRow(world[j - 1], world[j], world[j + 1], w)
  {
  }

  /** Every cell of the next band follows the Life rule applied to its own
      state and the live count of its eight neighbours, taken from the
      padded band with columns wrapping. */
  lemma StepBandCell(world: Grid, fromAbove: Row, fromBeneath: Row, w: nat, j: nat, i: nat)
    requires BandReady(world, fromAbove, fromBeneath, w)
    requires j < |world| && i < w
    ensures var pad := Padded(world, fromAbove, fromBeneath);
      var c := Count3(pad[j], i, w) + Count2(world[j], i, w) + Count3(pad[j + 2], i, w);
      StepBand(world, fromAbove, fromBeneath, w)[j][i] == Rule(world[j][i], c)
  {
    ZonesAgree(world, fromAbove, fromBeneath, w, j);
  }
}
