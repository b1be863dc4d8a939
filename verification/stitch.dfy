/** The distributed generation: every rank steps its own band with the halos
    the exchange delivers. Stacking the stepped bands in rank order gives one
    toroidal Life step of the stacked grid, which is what makes the row
    decomposition invisible in the result. */
module Stitch {

  import opened Grids
  import opened Decomposition
  import opened Life
  import opened Torus
  import opened Exchange

  /** One generation on every rank: exchange halos, then step each band. */
  function DistributedStep(bands: seq<Grid>, h: nat, w: nat): (next: seq<Grid>)
    requires Bands(bands, h, w)
    ensures Bands(next, h, w) && |next| == |bands|
  {
    var halos := HaloExchange(bands, h, w);
    seq(|bands|, r requires 0 <= r < |bands| =>
      StepBand(bands[r], halos[r].fromAbove, halos[r].fromBeneath, w))
  }

  /** Rank `r`'s part of a distributed generation. */
  lemma DistributedStepAt(bands: seq<Grid>, h: nat, w: nat, r: nat)
    requires Bands(bands, h, w) && r < |bands|
    ensures var halo := HaloExchange(bands, h, w)[r];
      BandReady(bands[r], halo.fromAbove, halo.fromBeneath, w)
      && DistributedStep(bands, h, w)[r] == StepBand(bands[r], halo.fromAbove, halo.fromBeneath, w)
  {
  }

  /** `n` distributed generations. */
  function Run(bands: seq<Grid>, h: nat, w: nat, n: nat): (out: seq<Grid>)
    requires Bands(bands, h, w)
    ensures Bands(out, h, w) && |out| == |bands|
  {
    if n == 0 then bands else DistributedStep(Run(bands, h, w, n - 1), h, w)
  }

  /** The row just above row `j` of band `r` on the torus: the band's own
      row `j - 1`, or at the seam the last row of the rank above (the last
      rank, for rank 0). */
  lemma RowAboveOnTorus(bands: seq<Grid>, h: nat, w: nat, r: nat, j: nat)
    requires Bands(bands, h, w) && r < |bands| && j < h
    ensures var g := Stack(bands, h, w);
      var y := r * h + j;
      y < |g| && (if j == 0 then bands[Above(r, |bands|)][h - 1] else bands[r][j - 1]) == g[(y - 1) % |g|]
  {
    ConcatAt(bands, h, r, j);
    if j > 0 {
      StepInside(bands, h, w, r, j - 1);
    } else if r == 0 {
      WrapSeam(bands, h, w);
    } else {
      StepAcross(bands, h, w, r - 1);
    }
  }

  /** The row just beneath row `j` of band `r` on the torus: the band's own
      row `j + 1`, or at the seam the first row of the rank beneath (rank 0,
      for the last rank). */
  lemma RowBeneathOnTorus(bands: seq<Grid>, h: nat, w: nat, r: nat, j: nat)
    requires Bands(bands, h, w) && r < |bands| && j < h
    ensures var g := Stack(bands, h, w);
      var y := r * h + j;
      y < |g| && (if j == h - 1 then bands[Beneath(r, |bands|)][0] else bands[r][j + 1]) == g[(y + 1) % |g|]
  {
    ConcatAt(bands, h, r, j);
    if j < h - 1 {
      StepInside(bands, h, w, r, j);
    } else if r == |bands| - 1 {
      WrapSeam(bands, h, w);
    } else {
      StepAcross(bands, h, w, r);
    }
  }

  /** Inside a band, global rows `y` and `y + 1` are band rows `j` and
      `j + 1`, and neither step wraps. */
  lemma StepInside(bands: seq<Grid>, h: nat, w: nat, r: nat, j: nat)
    requires Bands(bands, h, w) && r < |bands| && j + 1 < h
    ensures var g := Stack(bands, h, w);
      var y := r * h + j;
      y + 1 < |g| && g[y] == bands[r][j] && g[y + 1] == bands[r][j + 1]
      && ((y + 1) - 1) % |g| == y && (y + 1) % |g| == y + 1
  {
    var g := Stack(bands, h, w);
    var y := r * h + j;
    ConcatAt(bands, h, r, j);
    ConcatAt(bands, h, r, j + 1);
    ModBelow(y, |g|);
    ModBelow(y + 1, |g|);
  }

  /** Across the seam between ranks `r` and `r + 1`: the last row of band
      `r` is followed by the first row of band `r + 1`, without wrapping. */
  lemma StepAcross(bands: seq<Grid>, h: nat, w: nat, r: nat)
    requires Bands(bands, h, w) && r + 1 < |bands|
    ensures var g := Stack(bands, h, w);
      var y := r * h + (h - 1);
      y + 1 == (r + 1) * h + 0 && y + 1 < |g|
      && g[y] == bands[r][h - 1] && g[y + 1] == bands[r + 1][0]
      && ((y + 1) - 1) % |g| == y && (y + 1) % |g| == y + 1
  {
    var g := Stack(bands, h, w);
    var y := r * h + (h - 1);
    ConcatAt(bands, h, r, h - 1);
    ConcatAt(bands, h, r + 1, 0);
    MulPred(r + 1, h);
    ModBelow(y, |g|);
    ModBelow(y + 1, |g|);
  }

  /** Across the wrap-around seam: the row above global row 0 is the last
      row of the last rank, and the row beneath the last global row is the
      first row of rank 0. */
  lemma WrapSeam(bands: seq<Grid>, h: nat, w: nat)
    requires Bands(bands, h, w)
    ensures var g := Stack(bands, h, w);
      var last := |bands| - 1;
      last * h + (h - 1) == |g| - 1
      && g[|g| - 1] == bands[last][h - 1] && g[0] == bands[0][0]
      && (0 * h + 0 - 1) % |g| == |g| - 1 && (last * h + (h - 1) + 1) % |g| == 0
  {
    var g := Stack(bands, h, w);
    var last := |bands| - 1;
    ConcatAt(bands, h, last, h - 1);
    ConcatAt(bands, h, 0, 0);
    ConcatLength(bands, h);
    MulPred(|bands|, h);
    ModWrap(|g|);
  }

  /** The padded band of rank `r`, framed by the halos the exchange wires
      to it, holds the global rows just above, at and just beneath each of
      its rows on the torus. */
  lemma PaddedIsTorus(bands: seq<Grid>, h: nat, w: nat, r: nat, j: nat)
    requires Bands(bands, h, w) && r < |bands| && j < h
    ensures var procs := |bands|;
      var g := Stack(bands, h, w);
      var y := r * h + j;
      var pad := Padded(bands[r], bands[Above(r, procs)][h - 1], bands[Beneath(r, procs)][0]);
      y < |g| && pad[j] == g[(y - 1) % |g|] && pad[j + 1] == g[y] && pad[j + 2] == g[(y + 1) % |g|]
  {
    ConcatAt(bands, h, r, j);
    RowAboveOnTorus(bands, h, w, r, j);
    RowBeneathOnTorus(bands, h, w, r, j);
  }

  /** The stitching theorem: stepping each band with halos from its ring
      neighbours and stacking the results in rank order equals one toroidal
      Life step of the stacked grid. */
  lemma Stitch(bands: seq<Grid>, h: nat, w: nat)
    requires Bands(bands, h, w)
    ensures Stack(DistributedStep(bands, h, w), h, w) == GlobalStep(Stack(bands, h, w), w)
  {
    var g := Stack(bands, h, w);
    var next := DistributedStep(bands, h, w);
    var lhs := Stack(next, h, w);
    var rhs := GlobalStep(g, w);
    ConcatLength(bands, h);
    ConcatLength(next, h);
    forall y | 0 <= y < |g|
      ensures lhs[y] == rhs[y]
    {
      StitchRow(bands, h, w, y);
    }
  }

  /** One global row of the stitching theorem: row `y` of the stacked
      stepped bands is row `y` of the toroidal step. */
  lemma StitchRow(bands: seq<Grid>, h: nat, w: nat, y: nat)
    requires Bands(bands, h, w) && y < |Stack(bands, h, w)|
    ensures var next := Stack(DistributedStep(bands, h, w), h, w);
      |next| == |Stack(bands, h, w)| && next[y] == GlobalStep(Stack(bands, h, w), w)[y]
  {
    var procs := |bands|;
    var g := Stack(bands, h, w);
    var next := DistributedStep(bands, h, w);
    var halos := HaloExchange(bands, h, w);
    ConcatLength(bands, h);
    ConcatLength(next, h);
    var r, j := Split(y, h, procs);
    ConcatAt(next, h, r, j);
    ZonesAgree(bands[r], halos[r].fromAbove, halos[r].fromBeneath, w, j);
    PaddedIsTorus(bands, h, w, r, j);
    GlobalStepRow(g, w, y);
  }

  /** Decomposition invariance over any number of generations: the stacked
      distributed run equals the toroidal run of the stacked start grid. */
  lemma {:induction false} DecompositionInvariance(bands: seq<Grid>, h: nat, w: nat, n: nat)
    requires Bands(bands, h, w)
    ensures Stack(Run(bands, h, w, n), h, w) == GlobalRun(Stack(bands, h, w), w, n)
  {
    if n > 0 {
      var m: nat := n - 1;
      var prev := Run(bands, h, w, m);
      var g := Stack(bands, h, w);
      DecompositionInvariance(bands, h, w, m);
      assert Stack(prev, h, w) == GlobalRun(g, w, m);
      calc {
        Stack(Run(bands, h, w, n), h, w);
        { RunSucc(bands, h, w, m); }
        Stack(DistributedStep(prev, h, w), h, w);
        { Stitch(prev, h, w); }
        GlobalStep(Stack(prev, h, w), w);
        GlobalStep(GlobalRun(g, w, m), w);
        { GlobalRunSucc(g, w, m); }
        GlobalRun(g, w, n);
      }
    }
  }

  /** Unfolds one distributed generation. */
  lemma RunSucc(bands: seq<Grid>, h: nat, w: nat, m: nat)
    requires Bands(bands, h, w)
    ensures Run(bands, h, w, m + 1) == DistributedStep(Run(bands, h, w, m), h, w)
  {
  }

  /** Unfolds one toroidal generation. */
  lemma GlobalRunSucc(g: Grid, w: nat, m: nat)
    requires |g| >= 1 && w >= 1 && IsGrid(g, |g|, w)
    ensures GlobalRun(g, w, m + 1) == GlobalStep(GlobalRun(g, w, m), w)
  {
  }

  /** A single rank is its own rank above and beneath, so its halos are its
      own last and first rows and its run is the toroidal run. */
  lemma SingleRank(g: Grid, w: nat, n: nat)
    requires |g| >= 2 && w >= 1 && IsGrid(g, |g|, w)
    ensures Above(0, 1) == 0 && Beneath(0, 1) == 0
    ensures Bands([g], |g|, w)
    ensures Run([g], |g|, w, n) == [GlobalRun(g, w, n)]
  {
    assert Concat([g]) == g by {
      assert [g][1..] == [];
    }
    DecompositionInvariance([g], |g|, w, n);
    var out := Run([g], |g|, w, n);
    assert out[1..] == [];
    assert Concat(out) == out[0] + Concat(out[1..]) == out[0];
    assert out == [out[0]];
  }

  /** Any process count gives the same stacked result as a single process
      running the stacked grid. */
  lemma SameAsOneProcess(bands: seq<Grid>, h: nat, w: nat, n: nat)
    requires Bands(bands, h, w)
    ensures var g := Stack(bands, h, w);
      Bands([g], |g|, w) && Stack(Run(bands, h, w, n), h, w) == Run([g], |g|, w, n)[0]
  {
    var g := Stack(bands, h, w);
    DecompositionInvariance(bands, h, w, n);
    SingleRank(g, w, n);
  }
}
