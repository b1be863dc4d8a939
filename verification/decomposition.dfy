/** The domain partitioner: which rows of the global grid a rank owns and
    which ranks are its ring neighbours. Every rank computes this once at
    start-up from the configuration, the process count and its own rank. */
module Decomposition {

  import Grids

  /** The global configuration. The flag `quiet` only suppresses output. */
  datatype Config = Config(width: nat, height: nat, steps: nat, quiet: bool)

  /** What one rank knows about its place in the decomposition: its band
      starts at global row `yoffset` and spans `height` rows of `width`
      cells; `above` and `beneath` are the ranks owning the bands before and
      after it on the ring. */
  datatype Partition = Partition(
    rank: nat, procs: nat,
    above: nat, beneath: nat,
    xoffset: nat, yoffset: nat,
    width: nat, height: nat)

  /** The ring predecessor of `rank`: the rank whose band lies just above. */
  function Above(rank: nat, procs: nat): (a: nat)
    requires rank < procs
    ensures a < procs
    ensures a == if rank == 0 then procs - 1 else rank - 1
  {
    (rank + procs - 1) % procs
  }

  /** The ring successor of `rank`: the rank whose band lies just beneath. */
  function Beneath(rank: nat, procs: nat): (b: nat)
    requires rank < procs
    ensures b < procs
    ensures b == if rank == procs - 1 then 0 else rank + 1
  {
    (rank + 1) % procs
  }

  /** Going beneath and then above (or above and then beneath) returns to
      the same rank: the neighbours form a ring. */
  lemma RingInverse(rank: nat, procs: nat)
    requires rank < procs
    ensures Above(Beneath(rank, procs), procs) == rank
    ensures Beneath(Above(rank, procs), procs) == rank
  {
  }

  /** Rows per band: the global height divided by the process count,
      rounded down. */
  function BandHeight(c: Config, procs: nat): nat
    requires procs >= 1
  {
    c.height / procs
  }

  /** The partition of rank `rank` out of `procs`. */
  function MakePartition(c: Config, procs: nat, rank: nat): (p: Partition)
    requires rank < procs
    ensures p.rank == rank && p.procs == procs
    ensures p.above == Above(rank, procs) && p.beneath == Beneath(rank, procs)
    ensures p.above < procs && p.beneath < procs
    ensures p.xoffset == 0 && p.width == c.width
    ensures p.height == BandHeight(c, procs)
    ensures p.yoffset == rank * p.height
    ensures p.yoffset + p.height <= c.height
  {
    var h := c.height / procs;
    assert (rank + 1) * h <= procs * h <= c.height by {
      Grids.MulMono(rank + 1, procs, h);
    }
    Partition(rank, procs, Above(rank, procs), Beneath(rank, procs), 0, h * rank, c.width, h)
  }

  /** The boundary check of `set`: the global coordinate falls inside this
      rank's band. */
  function Covers(p: Partition, glY: nat, glX: nat): (inside: bool)
    ensures inside <==> 0 <= glY - p.yoffset < p.height && 0 <= glX - p.xoffset < p.width
  {
    p.xoffset <= glX < p.xoffset + p.width && p.yoffset <= glY < p.yoffset + p.height
  }

  /** Rank `rank` owns global row `y` exactly when `y` lies within the first
      `procs * h` rows and `y / h == rank`; the trailing rows of an uneven
      division belong to nobody. */
  lemma BandOwner(c: Config, procs: nat, rank: nat, y: nat)
    requires rank < procs
    ensures var p := MakePartition(c, procs, rank);
      p.yoffset <= y < p.yoffset + p.height
      <==> y < procs * p.height && y / p.height == rank
  {
    var p := MakePartition(c, procs, rank);
    if p.yoffset <= y < p.yoffset + p.height {
      InBandDivides(procs, p.height, rank, y);
    }
    if y < procs * p.height && y / p.height == rank {
      DividesInBand(procs, p.height, rank, y);
    }
  }

  /** A row of band `rank` lies within the first `procs * h` rows and
      divides to `rank`. */
  lemma InBandDivides(procs: nat, h: nat, rank: nat, y: nat)
    requires rank < procs && rank * h <= y < rank * h + h
    ensures y < procs * h && y / h == rank
  {
    Grids.MulMono(rank + 1, procs, h);
    DivBand(y, h, rank);
  }

  /** A row of the first `procs * h` rows that divides to `rank` lies in
      band `rank`. */
  lemma DividesInBand(procs: nat, h: nat, rank: nat, y: nat)
    requires y < procs * h && y / h == rank
    ensures rank * h <= y < rank * h + h
  {
    var r, j := Grids.Split(y, h, procs);
  }

  /** A row in `[k * h, k * h + h)` divides to `k`. */
  lemma DivBand(y: nat, h: nat, k: nat)
    requires h > 0 && k * h <= y < k * h + h
    ensures y / h == k
  {
    var q, m := y / h, y % h;
    assert y == q * h + m;
    if q < k {
      Grids.MulMono(q + 1, k, h);
    } else if q > k {
      Grids.MulMono(k + 1, q, h);
    }
  }

  /** The set of ranks whose `set` takes effect for a global coordinate. */
  function Owners(c: Config, procs: nat, y: nat, x: nat): set<nat>
  {
    set r: nat | r < procs && Covers(MakePartition(c, procs, r), y, x)
  }

  /** Every in-range coordinate of the first `procs * h` rows is owned by
      exactly one rank, `y / h`; any other coordinate is owned by none. */
  lemma ExactlyOneOwner(c: Config, procs: nat, y: nat, x: nat)
    requires procs >= 1
    ensures var h := BandHeight(c, procs);
      Owners(c, procs, y, x) ==
        if y < procs * h && x < c.width then {y / h} else {}
  {
    var h := BandHeight(c, procs);
    var want := if y < procs * h && x < c.width then {y / h} else {};
    forall r: nat | r < procs
      ensures Covers(MakePartition(c, procs, r), y, x) <==> r in want
    {
      BandOwner(c, procs, r, y);
    }
    if y < procs * h && x < c.width {
      var r, j := Grids.Split(y, h, procs);
    }
  }

  /** Two distinct ranks never both own a row. */
  lemma BandsDisjoint(c: Config, procs: nat, r1: nat, r2: nat, y: nat)
    requires r1 < procs && r2 < procs && r1 != r2
    ensures var p1, p2 := MakePartition(c, procs, r1), MakePartition(c, procs, r2);
      !(p1.yoffset <= y < p1.yoffset + p1.height && p2.yoffset <= y < p2.yoffset + p2.height)
  {
    BandOwner(c, procs, r1, y);
    BandOwner(c, procs, r2, y);
  }
}
