/** Cell grids shared by every part of the model.

    The program stores cells as `int`, but it only ever stores 0 (initial
    state), 1 (seeding) and the outcome of a comparison (the Life rule), so a
    cell is modelled as a `bool`: `true` is alive. A grid is row-major: a
    sequence of rows, each a sequence of cells. */
module Grids {

  type Row = seq<bool>
  type Grid = seq<Row>

  datatype Option<+T> = None | Some(value: T)

  /** `g` has exactly `h` rows of exactly `w` cells each. */
  predicate IsGrid(g: Grid, h: nat, w: nat) {
    |g| == h && forall j :: 0 <= j < h ==> |g[j]| == w
  }

  /** The numeric value of a cell when neighbours are summed. */
  function Bit(b: bool): int {
    if b then 1 else 0
  }

  /** A grid of `h` rows and `w` columns with every cell dead, as the
      program allocates both `world` and `buffer` at start-up. */
  function EmptyGrid(h: nat, w: nat): (g: Grid)
    ensures IsGrid(g, h, w)
    ensures forall j, i :: 0 <= j < h && 0 <= i < w ==> !g[j][i]
  {
    seq(h, j => seq(w, i => false))
  }

  /** The bands of all ranks, in rank order: at least one rank, every band
      `h >= 2` rows by `w >= 1` columns. Bands of a single row or of none
      are outside the model: there the program reads past its band or
      underflows `height - 1`. */
  predicate Bands(bands: seq<Grid>, h: nat, w: nat) {
    |bands| >= 1 && h >= 2 && w >= 1 && forall r :: 0 <= r < |bands| ==> IsGrid(bands[r], h, w)
  }

  /** Stacks the bands of all ranks in rank order into one grid. */
  function Concat(bands: seq<Grid>): Grid
  {
    if |bands| == 0 then [] else bands[0] + Concat(bands[1..])
  }

  /** Every band has `h` rows: the row-count half of `Bands`, without the
      widths, which the stacking lemmas below do not need. */
  predicate Uniform(bands: seq<Grid>, h: nat) {
    forall r :: 0 <= r < |bands| ==> |bands[r]| == h
  }

  /** Stacking `P` bands of `h` rows gives `P * h` rows. */
  lemma {:induction false} ConcatLength(bands: seq<Grid>, h: nat)
    requires Uniform(bands, h)
    ensures |Concat(bands)| == |bands| * h
  {
    if |bands| > 0 {
      ConcatLength(bands[1..], h);
      MulPred(|bands|, h);
    }
  }

  /** Row `j` of band `r` lands at global row `r * h + j` of the stack. */
  lemma {:induction false} ConcatAt(bands: seq<Grid>, h: nat, r: nat, j: nat)
    requires Uniform(bands, h)
    requires r < |bands| && j < h
    ensures r * h + j < |Concat(bands)|
    ensures Concat(bands)[r * h + j] == bands[r][j]
  {
    ConcatLength(bands, h);
    MulMono(r + 1, |bands|, h);
    if r > 0 {
      var rest := bands[1..];
      ConcatAt(rest, h, r - 1, j);
      MulPred(r, h);
      assert Concat(bands)[r * h + j] == Concat(rest)[(r - 1) * h + j];
    }
  }

  /** Stacking bands of `h` rows by `w` columns gives a `|bands| * h` by `w`
      grid. */
  lemma ConcatShape(bands: seq<Grid>, h: nat, w: nat)
    requires forall r :: 0 <= r < |bands| ==> IsGrid(bands[r], h, w)
    ensures IsGrid(Concat(bands), |bands| * h, w)
  {
    ConcatLength(bands, h);
    var g := Concat(bands);
    forall y | 0 <= y < |bands| * h
      ensures |g[y]| == w
    {
      var r, j := Split(y, h, |bands|);
      ConcatAt(bands, h, r, j);
    }
  }

  /** The global grid the bands make up, stacked in rank order. */
  function Stack(bands: seq<Grid>, h: nat, w: nat): (g: Grid)
    requires Bands(bands, h, w)
    ensures g == Concat(bands)
    ensures |g| >= 2 && IsGrid(g, |g|, w)
  {
    ConcatShape(bands, h, w);
    MulMono(1, |bands|, h);
    Concat(bands)
  }

  /** A row `y` of a stack of `n` bands of `h` rows lies in band `y / h` at
      offset `y % h`. */
  lemma Split(y: nat, h: nat, n: nat) returns (r: nat, j: nat)
    requires y < n * h
    ensures r == y / h && j == y % h
    ensures r < n && j < h && y == r * h + j
  {
    r, j := y / h, y % h;
    if r >= n {
      MulMono(n, r, h);
    }
  }

  /** Reduction modulo `m` leaves a value in `[0, m)` alone. */
  lemma ModBelow(x: int, m: int)
    requires 0 <= x < m
    ensures x % m == x
  {
  }

  /** A value in `[m, 2 * m)` reduces to itself minus `m`. */
  lemma ModAbove(x: int, m: int)
    requires 0 < m <= x < 2 * m
    ensures x % m == x - m
  {
  }

  /** One step below 0 wraps to `m - 1`, and `m` itself wraps to 0. */
  lemma ModWrap(m: int)
    requires m > 0
    ensures (-1) % m == m - 1 && m % m == 0 && (2 * m) % m == 0
  {
  }

  /** Multiplication by a natural number is monotone. */
  lemma MulMono(a: nat, b: nat, h: nat)
    requires a <= b
    ensures a * h <= b * h
  {
  }

  /** `n * h` peels one band off the front. */
  lemma MulPred(n: nat, h: nat)
    requires n > 0
    ensures n * h == (n - 1) * h + h
  {
  }
}
