/** The generation driver of the program, as loops: each rank holds two
    equally shaped buffers, evaluates the three zones of its band into the
    buffer, and then swaps the roles of the two buffers. */
module Engine {

  import opened Grids
  import opened Decomposition
  import opened Life
  import opened Torus
  import opened Exchange
  import opened Seeding
  import opened Stitch

  /** One rank's private state: the current generation `world` and the
      scratch `buffer` the next generation is written into. */
  datatype LocalState = LocalState(world: Grid, buffer: Grid)

  /** Both buffers of a rank are `h` by `w`. */
  predicate Shaped(s: LocalState, h: nat, w: nat) {
    IsGrid(s.world, h, w) && IsGrid(s.buffer, h, w)
  }

  /** A rank right after start-up: both buffers allocated dead, then the
      pentomino seeded into `world`. */
  function Startup(c: Config, procs: nat, rank: nat): (s: LocalState)
    requires rank < procs
    ensures Shaped(s, BandHeight(c, procs), c.width)
    ensures forall j, i :: 0 <= j < BandHeight(c, procs) && 0 <= i < c.width ==>
      !s.buffer[j][i] && (s.world[j][i] <==> (MakePartition(c, procs, rank).yoffset + j, i) in FPentomino(c))
  {
    LocalState(SeedBand(c, procs, rank), EmptyGrid(BandHeight(c, procs), c.width))
  }

  /** Evaluates one row into the buffer row `target`, cell by cell, counting
      the neighbours with the program's wrapped column indices. */
  method EvolveRow(up: Row, mid: Row, down: Row, target: Row, w: nat) returns (row: Row)
    requires w >= 1 && |up| == w && |mid| == w && |down| == w && |target| == w
    ensures |row| == w
    ensures forall i :: 0 <= i < w ==>
      row[i] == Rule(mid[i], Count3(up, i, w) + Count2(mid, i, w) + Count3(down, i, w))
    ensures row == NextRow(up, mid, down, w)
  {
    ghost var want := NextRow(up, mid, down, w);
    row := target;
    var i := 0;
    while i < w
      invariant 0 <= i <= w && |row| == w
      invariant forall k :: 0 <= k < i ==> row[k] == want[k]
    {
      var left, same, right := (i + w - 1) % w, (i + w + 0) % w, (i + w + 1) % w;
      var c := Bit(up[left]) + Bit(up[same]) + Bit(up[right])
             + Bit(mid[left]) + Bit(mid[right])
             + Bit(down[left]) + Bit(down[same]) + Bit(down[right]);
      LoopCell(up, mid, down, w, i, c);
      row := row[i := if mid[i] then c == 2 || c == 3 else c == 3];
      i := i + 1;
    }
    assert row == want;
    forall k | 0 <= k < w
      ensures row[k] == Rule(mid[k], Count3(up, k, w) + Count2(mid, k, w) + Count3(down, k, w))
    {
      assert want[k] == NextCell(up, mid, down, k, w);
    }
  }

  /** The value the cell loop writes for cell `i`, from the count `c` it
      sums with the program's literal wrapped indices, is cell `i` of the
      next row. */
  lemma LoopCell(up: Row, mid: Row, down: Row, w: nat, i: nat, c: int)
    requires w >= 1 && i < w && |up| == w && |mid| == w && |down| == w
    requires c == Bit(up[(i + w - 1) % w]) + Bit(up[(i + w + 0) % w]) + Bit(up[(i + w + 1) % w])
                + Bit(mid[(i + w - 1) % w]) + Bit(mid[(i + w + 1) % w])
                + Bit(down[(i + w - 1) % w]) + Bit(down[(i + w + 0) % w]) + Bit(down[(i + w + 1) % w])
    ensures (if mid[i] then c == 2 || c == 3 else c == 3) == NextRow(up, mid, down, w)[i]
  {
    LoopCount(up, mid, down, w, i);
    assert NextRow(up, mid, down, w)[i] == NextCell(up, mid, down, i, w);
  }

  /** The count the cell loop sums, with the program's literal wrapped
      indices, is the row rule's neighbour count of cell `i`. */
  lemma LoopCount(up: Row, mid: Row, down: Row, w: nat, i: nat)
    requires w >= 1 && i < w && |up| == w && |mid| == w && |down| == w
    ensures Bit(up[(i + w - 1) % w]) + Bit(up[(i + w + 0) % w]) + Bit(up[(i + w + 1) % w])
          + Bit(mid[(i + w - 1) % w]) + Bit(mid[(i + w + 1) % w])
          + Bit(down[(i + w - 1) % w]) + Bit(down[(i + w + 0) % w]) + Bit(down[(i + w + 1) % w])
          == Count3(up, i, w) + Count2(mid, i, w) + Count3(down, i, w)
  {
    var l, m, r := Wrap(i, -1, w), Wrap(i, 0, w), Wrap(i, 1, w);
    assert l == (i + w - 1) % w && m == (i + w + 0) % w && r == (i + w + 1) % w;
  }

  /** One generation on one rank, given the halos it received: the first
      row, the middle rows and the last row are written into the buffer,
      then world and buffer swap roles. The world is only read, so the new
      buffer is the old world, untouched. */
  method Generate(s: LocalState, halo: Halo, w: nat) returns (t: LocalState)
    requires BandReady(s.world, halo.fromAbove, halo.fromBeneath, w)
    requires IsGrid(s.buffer, |s.world|, w)
    ensures t.world == StepBand(s.world, halo.fromAbove, halo.fromBeneath, w)
    ensures t.buffer == s.world
  {
    var world, buffer := s.world, s.buffer;
    var h := |world|;
    ghost var next := StepBand(world, halo.fromAbove, halo.fromBeneath, w);
    var row := EvolveRow(halo.fromAbove, world[0], world[1], buffer[0], w);
    ZonesAgree(world, halo.fromAbove, halo.fromBeneath, w, 0);
    buffer := buffer[0 := row];
    var j := 1;
    while j < h - 1
      invariant 1 <= j <= h - 1 && IsGrid(buffer, h, w)
      invariant forall k :: 0 <= k < j ==> buffer[k] == next[k]
    {
      row := EvolveRow(world[j - 1], world[j], world[j + 1], buffer[j], w);
      ZonesAgree(world, halo.fromAbove, halo.fromBeneath, w, j);
      buffer := buffer[j := row];
      j := j + 1;
    }
    row := EvolveRow(world[h - 2], world[h - 1], halo.fromBeneath, buffer[h - 1], w);
    ZonesAgree(world, halo.fromAbove, halo.fromBeneath, w, h - 1);
    buffer := buffer[h - 1 := row];
    assert buffer == next;
    t := LocalState(buffer, world);
  }

  /** The current generation of every rank. */
  function Worlds(states: seq<LocalState>): (worlds: seq<Grid>)
    ensures |worlds| == |states|
    ensures forall r :: 0 <= r < |states| ==> worlds[r] == states[r].world
  {
    seq(|states|, r requires 0 <= r < |states| => states[r].world)
  }

  /** One generation on every rank: halos are exchanged among the current
      worlds, then every rank runs `Generate` with its own halos. */
  method GenerationAll(states: seq<LocalState>, h: nat, w: nat) returns (next: seq<LocalState>)
    requires Bands(Worlds(states), h, w)
    requires forall r :: 0 <= r < |states| ==> Shaped(states[r], h, w)
    ensures |next| == |states|
    ensures forall r :: 0 <= r < |next| ==> Shaped(next[r], h, w) && next[r].buffer == states[r].world
    ensures Worlds(next) == DistributedStep(Worlds(states), h, w)
  {
    var current := Worlds(states);
    var halos := HaloExchange(current, h, w);
    ghost var want := DistributedStep(current, h, w);
    next := [];
    var r := 0;
    while r < |states|
      invariant r <= |states| && |next| == r
      invariant forall k :: 0 <= k < r ==> Advanced(states[k], next[k], want[k], h, w)
    {
      DistributedStepAt(current, h, w, r);
      assert current[r] == states[r].world;
      var t := Generate(states[r], halos[r], w);
      assert Advanced(states[r], t, want[r], h, w);
      ghost var prev := next;
      next := next + [t];
      forall k | 0 <= k < r + 1
        ensures Advanced(states[k], next[k], want[k], h, w)
      {
        if k < r {
          assert next[k] == prev[k];
        }
      }
      r := r + 1;
    }
  }

  /** `t` is `s` one generation on: its world is `band`, its buffer the
      old world. */
  predicate Advanced(s: LocalState, t: LocalState, band: Grid, h: nat, w: nat) {
    t.world == band && t.buffer == s.world && Shaped(t, h, w)
  }

  /** Runs `steps` generations on every rank from the given start states.
      The stacked result is the toroidal run of the stacked start grid. */
  method Simulate(start: seq<LocalState>, h: nat, w: nat, steps: nat) returns (worlds: seq<Grid>)
    requires Bands(Worlds(start), h, w)
    requires forall r :: 0 <= r < |start| ==> Shaped(start[r], h, w)
    ensures Bands(worlds, h, w) && |worlds| == |start|
    ensures Stack(worlds, h, w) == GlobalRun(Stack(Worlds(start), h, w), w, steps)
  {
    var init := Worlds(start);
    var states := start;
    var g := 0;
    while g < steps
      invariant g <= steps && |states| == |init|
      invariant forall r :: 0 <= r < |states| ==> Shaped(states[r], h, w)
      invariant Worlds(states) == Run(init, h, w, g)
    {
      states := GenerationAll(states, h, w);
      RunSucc(init, h, w, g);
      g := g + 1;
    }
    worlds := Worlds(states);
    DecompositionInvariance(init, h, w, steps);
  }

  /** The whole program on `procs` ranks: every rank starts up, then all run
      the configured number of generations. Stacked in rank order, the
      result is the toroidal run of the pentomino start grid; when the
      process count divides the height, it is the same grid a single
      process computes. */
  method Program(c: Config, procs: nat) returns (worlds: seq<Grid>)
    requires procs >= 1 && BandHeight(c, procs) >= 2 && c.width >= 1
    ensures Bands(worlds, BandHeight(c, procs), c.width) && |worlds| == procs
    ensures var rows := procs * BandHeight(c, procs);
      rows >= 1 && Stack(worlds, BandHeight(c, procs), c.width) == GlobalRun(Intended(c, rows), c.width, c.steps)
  {
    var h := BandHeight(c, procs);
    var states := seq(procs, r requires 0 <= r < procs => Startup(c, procs, r));
    assert Worlds(states) == SeedBands(c, procs);
    SeedRoundTrip(c, procs);
    worlds := Simulate(states, h, c.width, c.steps);
  }

  /** Decomposition invariance of the whole program: when the process count
      divides the height, the stacked result on `procs` ranks equals the
      single-process result. */
  lemma ProgramInvariance(c: Config, procs: nat)
    requires procs >= 1 && BandHeight(c, procs) >= 2 && c.width >= 1
    requires c.height % procs == 0
    ensures var h := BandHeight(c, procs);
      var bands := SeedBands(c, procs);
      var single := SeedBands(c, 1);
      Bands(bands, h, c.width) && Bands(single, c.height, c.width)
      && Stack(Run(bands, h, c.width, c.steps), h, c.width) == Run(single, c.height, c.width, c.steps)[0]
  {
    var h := BandHeight(c, procs);
    var bands := SeedBands(c, procs);
    var single := SeedBands(c, 1);
    assert procs * h == c.height;
    SeedRoundTrip(c, procs);
    SeedRoundTrip(c, 1);
    var g := Stack(bands, h, c.width);
    assert BandHeight(c, 1) == c.height && 1 * c.height == c.height;
    assert g == Intended(c, c.height);
    assert single == [g] by {
      assert single[1..] == [];
      assert Concat(single) == single[0] + Concat(single[1..]) == single[0];
    }
    SameAsOneProcess(bands, h, c.width, c.steps);
  }
}
