# Distributed Game of Life on a torus, by row bands

This project models the core of `gameoflife-openmpi-stitch`. That program runs Conway's Game of Life on a
`height` by `width` grid that wraps around in both directions. The grid is split across `P` cooperating
processes ("ranks"). Each rank owns a horizontal band of `height / P` consecutive rows and all columns.
The bands form a ring: rank `r` has a rank above (`r - 1`, or `P - 1` for rank 0) and a rank beneath
(`r + 1`, or 0 for the last rank).

Each generation runs in four steps:

1. Every rank sends its first row to the rank above and its last row to the rank beneath.
2. It receives the two halo rows that bracket its band.
3. It evaluates the Life rule in three zones: the first row, the middle rows and the last row.
4. It swaps its world and buffer.

At start-up every rank allocates two dead bands. It then seeds an F-pentomino by writing five global
coordinates. Each write takes effect only on the rank whose band contains that coordinate.

The modules follow the program's structure:

- `Grids` holds grids as `seq<seq<bool>>` and stacks bands in rank order. It also carries the small
  arithmetic facts the proofs need.
- `Decomposition` holds the ring neighbours, the band geometry and the boundary check of `set`.
- `Seeding` holds `set`, the pentomino writes and the seeded bands.
- `Life` holds the Life rule, the wrapped column indices and the three-zone band step.
- `Torus` is an independent reference: one Life step of the whole grid on the torus, counting the eight
  neighbours with wrap-around on both axes.
- `Exchange` models the halo exchange as posted messages `(source, dest, tag, payload)`. A receive
  takes the first posted message matching its destination, source and tag.
- `Stitch` proves the distributed step and the torus step are the same thing, for one generation and
  for any number.
- `Engine` holds the program's loops as methods: the cell-by-cell row evaluation, one generation with
  its buffer swap, all ranks, and all generations.

The main theorem is `Stitch.DecompositionInvariance`. Take the bands after `n` distributed generations
and stack them in rank order: the result is the grid after `n` toroidal generations of the stacked start
grid. `Engine.ProgramInvariance` concludes from it that, when `P` divides the height, the program's
stacked result on `P` ranks equals its result on one rank.

Two behaviours of the program are easy to miss. The model follows the code in both.

- The code and its own comment at line 137 disagree about the column. The comment puts the pattern's
  corner at row `height / 2`, column `width / 2`. The code uses `height / 2` for the column too
  (`Seeding.FPentomino`).
- When `P` does not divide the height, the last `height mod P` rows belong to no rank. The model keeps
  that: `Seeding.SeedRoundTrip` and `Engine.Program` speak of the first `P * (height / P)` rows only.
  A pentomino cell that falls outside those rows, or at a column at or past the width, is written by
  nobody.

## Model

| member | source | states |
|---|---|---|
| Decomposition.Above | src/gameoflife-openmpi-stitch.cpp:109 | the rank above is a valid rank: the predecessor, or the last rank for rank 0 |
| Decomposition.Beneath | src/gameoflife-openmpi-stitch.cpp:110 | the rank beneath is a valid rank: the successor, or rank 0 for the last rank |
| Decomposition.RingInverse | src/gameoflife-openmpi-stitch.cpp:109-110 | above and beneath are inverse to each other, so the neighbours form a ring |
| Decomposition.MakePartition | src/gameoflife-openmpi-stitch.cpp:112-115 | a band starts at column 0, spans the full width and `height / P` rows, starts at row `rank * (height / P)` and ends within the global height |
| Decomposition.Covers | src/gameoflife-openmpi-stitch.cpp:85-86 | the boundary check of `set`; its own contract only restates the check in local coordinates (the indices line 87 writes at), and `Decomposition.ExactlyOneOwner` and `Seeding.Set` give its meaning |
| Decomposition.BandOwner | src/gameoflife-openmpi-stitch.cpp:113-115 | rank `r` owns global row `y` iff `y < P * h` and `y / h == r`, in both directions |
| Decomposition.BandsDisjoint | src/gameoflife-openmpi-stitch.cpp:113-115 | two distinct ranks never own the same row |
| Decomposition.ExactlyOneOwner | src/gameoflife-openmpi-stitch.cpp:83-89 | the ranks for which `set` takes effect are exactly `{y / h}` for an in-range coordinate, and none otherwise |
| Seeding.Set | src/gameoflife-openmpi-stitch.cpp:83-89 | a covered coordinate is written, translated to local coordinates; every other cell is unchanged; an uncovered write changes nothing |
| Seeding.SetAll | src/gameoflife-openmpi-stitch.cpp:139-145 | several `set` calls in order keep the band's shape; `Seeding.SetAllCells` gives their effect cell by cell |
| Seeding.FPentomino | src/gameoflife-openmpi-stitch.cpp:139-145 | the five written cells lie in the 3 by 3 box whose corner is row `height / 2`, column `height / 2`, and the corner itself is not written |
| Seeding.SetAllCells | src/gameoflife-openmpi-stitch.cpp:139-145 | after a sequence of writes, a local cell holds the written value iff its global coordinate is one of the written cells, and keeps its old state otherwise |
| Seeding.SeedCells | src/gameoflife-openmpi-stitch.cpp:121-145 | writing live cells into a dead band leaves a cell alive iff its global coordinate was written |
| Seeding.SeedBand | src/gameoflife-openmpi-stitch.cpp:121-145 | after start-up a band cell is alive iff its global coordinate is one of the five pentomino cells |
| Seeding.FPentominoDistinct | src/gameoflife-openmpi-stitch.cpp:139-145 | the five written coordinates are pairwise distinct |
| Seeding.BandRow | src/gameoflife-openmpi-stitch.cpp:113-145 | each seeded band row is the intended global row at its offset |
| Seeding.SeedRow | src/gameoflife-openmpi-stitch.cpp:113-145 | each row of the stacked seeded bands is the intended global row |
| Seeding.SeedRoundTrip | src/gameoflife-openmpi-stitch.cpp:139-145 | the seeded bands stacked in rank order are the intended start grid on the first `P * h` rows |
| Seeding.FiveLiveCells | src/gameoflife-openmpi-stitch.cpp:139-145 | when the pattern fits in the covered rows and the width, exactly five cells are alive |
| Grids.EmptyGrid | src/gameoflife-openmpi-stitch.cpp:121-130 | a freshly allocated band is `h` by `w` and every cell is dead |
| Life.Rule | src/gameoflife-openmpi-stitch.cpp:181 | a cell is alive next iff it has 3 live neighbours, or it is alive and has 2; a dead cell is only born with 3, and a live cell dies with fewer than 2 or more than 3 |
| Life.NextRow | src/gameoflife-openmpi-stitch.cpp:184-196 | the row rule; its own contract gives only the length (`w` cells), and `Torus.GlobalStepRow` and `Life.StepBandCell` give its meaning |
| Life.StepBand | src/gameoflife-openmpi-stitch.cpp:171-210 | the three-zone step of a band; its own contract gives only the shape (`h` rows of `w` cells), and `Life.ZonesAgree` and `Stitch.Stitch` give its meaning |
| Life.Wrap | src/gameoflife-openmpi-stitch.cpp:173-180 | `(i + width + d) % width` is in range and is the left, same or right column, wrapping only at the two edges |
| Life.WrapCases | src/gameoflife-openmpi-stitch.cpp:173-180 | the program's index equals `(i + d) mod width` and only column 0 stepping left or the last column stepping right wraps |
| Life.ZonesAgree | src/gameoflife-openmpi-stitch.cpp:170-210 | the first-row, middle-row and last-row zones all compute row `j` from rows `j`, `j + 1`, `j + 2` of the band framed by its two halos |
| Life.StepBandCell | src/gameoflife-openmpi-stitch.cpp:171-210 | each next cell is the Life rule applied to the cell and the live count of its eight neighbours from the framed band |
| Torus.NeighboursByRows | src/gameoflife-openmpi-stitch.cpp:173-180 | the eight-neighbour count on the torus is three cells of the row above, two of the own row and three of the row beneath |
| Torus.GlobalStepRow | src/gameoflife-openmpi-stitch.cpp:171-195 | each row of a toroidal step is the row rule applied to the toroidal rows above, at and beneath it |
| Exchange.Outbox | src/gameoflife-openmpi-stitch.cpp:152-156 | a rank posts two sends from itself to valid ranks: its first row to the rank above, tagged "from beneath" because the receiver has the sender as its rank beneath; and its last row to the rank beneath, tagged "from above" for the same reason |
| Exchange.Posted | src/gameoflife-openmpi-stitch.cpp:152-156 | the pool of one generation's sends holds two messages per rank; `Exchange.PostedAt` places them |
| Exchange.PostedAt | src/gameoflife-openmpi-stitch.cpp:152-156 | rank `r`'s two sends are in the pool, and every pooled message travels between valid ranks |
| Exchange.Receive | src/gameoflife-openmpi-stitch.cpp:162-165 | a receive returns nothing iff no posted message matches, and otherwise the payload of a matching message |
| Exchange.MatchFromAbove | src/gameoflife-openmpi-stitch.cpp:153-162 | any message of the generation's sends that comes from rank `a` tagged "from above" carries the last row of `a` |
| Exchange.MatchFromBeneath | src/gameoflife-openmpi-stitch.cpp:152-163 | any message of the generation's sends that comes from rank `b` tagged "from beneath" carries the first row of `b` |
| Exchange.Delivery | src/gameoflife-openmpi-stitch.cpp:152-165 | the first-match receive from above gets the last row of the rank above and the one from beneath gets the first row of the rank beneath; `Exchange.MatchFromAbove` and `Exchange.MatchFromBeneath` show that any other matching message of the generation's sends carries the same row |
| Exchange.DeliveryFromAbove | src/gameoflife-openmpi-stitch.cpp:153-164 | the receive from above is matched, and by the last row of the rank above |
| Exchange.DeliveryFromBeneath | src/gameoflife-openmpi-stitch.cpp:152-165 | the receive from beneath is matched, and by the first row of the rank beneath |
| Exchange.ReceiveHalo | src/gameoflife-openmpi-stitch.cpp:161-165 | after both waits a rank holds the last row of its rank above and the first row of its rank beneath |
| Exchange.HaloExchange | src/gameoflife-openmpi-stitch.cpp:152-165 | every rank receives exactly those two rows |
| Exchange.TwoRanksShareBothSends | src/gameoflife-openmpi-stitch.cpp:155-156 | with two ranks both sends of rank 1 go to rank 0 and are told apart only by their tags |
| Stitch.DistributedStep | src/gameoflife-openmpi-stitch.cpp:150-210 | one generation on every rank, with the exchanged halos; its own contract gives only the shape (as many bands, each `h` by `w`), and `Stitch.Stitch` gives its meaning |
| Stitch.Run | src/gameoflife-openmpi-stitch.cpp:150-216 | `n` distributed generations; its own contract gives only the shape, and `Stitch.DecompositionInvariance` gives its meaning |
| Stitch.RowAboveOnTorus | src/gameoflife-openmpi-stitch.cpp:152-164 | the row above a band row on the torus is the band's previous row, or at the seam the last row of the rank above |
| Stitch.RowBeneathOnTorus | src/gameoflife-openmpi-stitch.cpp:153-165 | the row beneath a band row on the torus is the band's next row, or at the seam the first row of the rank beneath |
| Stitch.PaddedIsTorus | src/gameoflife-openmpi-stitch.cpp:152-165 | a band framed by its halos holds the global rows above, at and beneath each of its rows on the torus |
| Stitch.StitchRow | src/gameoflife-openmpi-stitch.cpp:150-210 | row `y` of the stacked stepped bands is row `y` of one toroidal step of the stacked grid |
| Stitch.Stitch | src/gameoflife-openmpi-stitch.cpp:150-215 | stacking the stepped bands in rank order gives one toroidal Life step of the stacked grid |
| Stitch.DecompositionInvariance | src/gameoflife-openmpi-stitch.cpp:150-216 | after `n` generations the stacked bands equal `n` toroidal steps of the stacked start grid |
| Stitch.SingleRank | src/gameoflife-openmpi-stitch.cpp:109-110 | a single rank is its own neighbour on both sides and its run is the toroidal run |
| Stitch.SameAsOneProcess | src/gameoflife-openmpi-stitch.cpp:150-216 | any process count gives the stacked result a single process computes on the stacked grid |
| Engine.Startup | src/gameoflife-openmpi-stitch.cpp:120-145 | after start-up the buffer is dead and a world cell is alive iff its global coordinate is a pentomino cell |
| Engine.EvolveRow | src/gameoflife-openmpi-stitch.cpp:171-181 | the cell loop with the program's wrapped indices writes the Life rule for every cell of the row |
| Engine.Generate | src/gameoflife-openmpi-stitch.cpp:169-215 | after one generation the world is the three-zone step of the old world and the buffer is the old world, untouched |
| Engine.GenerationAll | src/gameoflife-openmpi-stitch.cpp:150-215 | all ranks together perform one distributed generation and keep both buffers shaped |
| Engine.Simulate | src/gameoflife-openmpi-stitch.cpp:150-216 | after the generation loop the stacked worlds are the toroidal run of the stacked start grid |
| Engine.Program | src/gameoflife-openmpi-stitch.cpp:108-216 | the whole program's stacked result is the toroidal run of the intended pentomino start grid |
| Engine.ProgramInvariance | src/gameoflife-openmpi-stitch.cpp:108-216 | when `P` divides the height, the result on `P` ranks equals the result on one rank |

## Left out

- The message-passing runtime is not modelled: initialisation, rank and size queries, and finalisation. The process count and the rank are parameters.
- Non-blocking sends are not modelled as requests. They are never waited on. Each rank's code posts its two sends before its two receives; the model posts every rank's sends of a generation before any receive, which is not an order the program enforces across ranks.
- Exchange.Delivery: proved for the sends of one generation, kept apart from every other generation's. The ranks are not synchronised: once rank `above(r)` has received rank `r`'s row, it can finish its generation and post its next `MSG_FROM_ABOVE` row to `r` before `r`'s receive at line 162 has matched. That message has the same source, destination and tag as the one `r` wants. The program then relies on the message-passing runtime matching messages with the same source, destination and tag in the order they were sent; the model does not state or check that guarantee.
- The output phase (`print`, lines 44-73) and its token chain from rank to rank are left out. It only writes text and does not change any band.
- `printMsg` (lines 75-81) and the start-up `printf` that reports each rank's range are left out. They are debugging output.
- `readConfig` (lines 23-42) is not modelled: it parses command-line options. The configuration is a parameter, and `quiet` is carried but has no effect in the model.
- Cells are `bool`, not `int`. The program only ever stores 0 and 1 in them: the initial zeroes, the seeding value 1, and the comparison results of the Life rule.
- The 64-bit unsigned and 32-bit signed widths of the program's variables are not modelled. The neighbour count is at most 8, and the wrapped column index `i + width + 1` fits whenever `2 * width` does.
- Engine.Program: requires `height / P >= 2` and `width >= 1`. With one row per band the first-row zone reads row 1, which does not exist. With no rows `height - 1` wraps around. With width 0 the program runs without fault: every `% width` sits inside a loop over the columns, which then never runs, and `set` never writes, so the result is the trivial grid of empty rows. The model leaves that case out because `Life.Wrap` and the reference step in `Torus` need a positive modulus.
- Stitch.Stitch: a band must have at least two rows. The combined zone a one-row band would need is not defined by the program.
- `World.cpp` and `Engine.cpp` are not part of this model. They are not used by the program that is modelled.
