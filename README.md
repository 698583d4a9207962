# Boids partitioning, migration and load balancing — a Dafny model

The boids system spreads a flock over a grid of rectangular partitions
called BoidCPUs. Each BoidCPU owns the boids inside its bounds
`[xmin, ymin, xmax, ymax]`. When a boid crosses a bound, the BoidCPU hands
it to the neighbour at that bearing. An overloaded BoidCPU can ask to move
its edges so that its neighbours take some of its boids. The same logic
exists in three generations, and this project models all three:

- **The Python simulations.**
  - `Python-Simulation/` has the BoidCPU and Simulation classes and the load-balancing planner.
  - The older `Simulation/` has BoidCPU and Location, with a grid that does not wrap around.
- **The FPGA cores.**
  - The BoidCPU and the BoidMaster are C++ cores that talk over 32-bit command words.
  - The Gatekeeper is a MicroBlaze C program. It routes those commands between the cores on a board and over Ethernet.
- **The prototype.** An earlier BoidCPU core, with an integer `Vector` and a Galois LFSR, and its Gatekeeper.

The modules follow that structure:

| module | file | what it holds |
|---|---|---|
| `Common` | common.dfy | bearings, coordinate slots, `Option`, the `uint8`/`uint32` conversions of the C cores |
| `Migration` | migration.dfy | the transfer rule shared by all Python generations |
| `Topology` | topology.dfy | toroidal and bounded grids, and the two literal 3x3 neighbour tables proved equal to them |
| `Planner` | planner.dfy | the value-level planner helpers (`valid_edge`, `min_size_enforced`, `move_edge`, histogram sums) and the specification functions of the planner loops |
| `Partitions` | partition.dfy | class `Partition`: one Python BoidCPU/Location with its boids, count, `coords` array and the imperative planner |
| `Affected` | affected.dfy | `identify_affected_boidcpus` and `change_bounds` as values, and proofs that the tiling survives |
| `Transfers` | transfers.dfy | boid hand-over over whole grids: as written (a scan of the list being shrunk) and over a snapshot |
| `Balance` | balance.dfy | the negotiated (type 3) strategy: requests, per-edge and per-partition lists, and the 110% prediction check |
| `Grids` | grid.dfy | class `Grid`: an array of partitions, its construction, transfer step and overload handling |
| `Wire` | wire.dfy | fixed-point boid packing, the command layout, and big-endian Ethernet words |
| `FpgaBoidCpu` | fpga_boidcpu.dfy | class `BoidCpu` of the FPGA core: bound tests, escapes, transmission, the accept queue, load-balance decoding and packing |
| `FpgaMaster` | fpga_master.dfy | class `BoidMaster` of the FPGA core: ping replies, setup (boid split, grid shape, tiling, neighbours), the ACK phase machine and the naive load balancer |
| `Gatekeeper` | gatekeeper.dfy | class `Gatekeeper` of the FPGA board: routing tables, setup interception, ACK aggregation, frame layout and the drawn-boids monitor |
| `ProtoBoidCpu` | prototype_boidcpu.dfy | class `BoidCpu` and class `Vector` of the prototype: LFSR, `moveBoids`, `contain`, `generateOutput`, 12-bit vector operations |
| `ProtoGatekeeper` | prototype_gatekeeper.dfy | class `Gatekeeper` of the prototype: arrival/departure checks, channel lookup, setup interception and ACK aggregation |

Some code changes state step by step. There the model is imperative:
classes with `modifies` clauses, arrays for the C arrays, and `while` loops
with invariants. Each such method is proved against a specification
function, and the properties are proved about those functions. The
integer widths of the C cores are written out explicitly: `uint8` and
`uint32` truncation, 16-bit two's complement in the packed words, 12-bit
wrap-around in the prototype vectors, and a 16-bit LFSR register.

Python iterates over a list while it shrinks it, and the model keeps that
behaviour where the program relies on it (see Findings).

In the prototype Gatekeeper, a forwarded command reuses the received
length where the body length is expected. Each forwarded command is
therefore four words longer than the one received, and its last four words
are read from past the copied body (Prototype/gatekeeper.c:186, 230 and
267-275). The model keeps that behaviour: those four words are the
parameter `beyond` of every forwarding operation.

## Model

| member | source | states |
|---|---|---|
| Migration.Rank | Python-Simulation/boidCPU.py:169-225 | the order in which bearings are tried: the four diagonals (NW, NE, SE, SW) take ranks 0-3, before the sides N, E, S, W |
| Migration.TransferBearing | Python-Simulation/boidCPU.py:169-225 | at most one bearing is chosen. A chosen bearing has a nonzero neighbour and the boid is strictly beyond its bound(s), and it comes first in rank order among all such bearings. None iff no bearing applies. A boid on or inside its bounds never leaves |
| Migration.TransferTarget | Simulation/location.py:75-122 | the receiving partition is a nonzero entry of the neighbour list. It exists iff the list has been filled and some bearing applies; none for a boid inside the bounds |
| Migration.DiagonalFirst | Simulation/boidCPU.py:133-180 | a diagonal whose two bounds are crossed wins over the sides it combines whenever no earlier diagonal applies |
| Migration.WithoutId | Python-Simulation/boidCPU.py:248 | filtering by id keeps exactly the boids with another id, never lengthens the list, and shortens it when the id is present |
| Migration.WithoutIdAt | Python-Simulation/boidCPU.py:248 | with distinct ids, filtering out the id of entry k removes exactly entry k and keeps the order of the rest |
| Migration.WithoutIdAbsent | Python-Simulation/boidCPU.py:248 | filtering out an id nobody carries leaves the list unchanged |
| Migration.DistinctIdsRemove | Python-Simulation/boidCPU.py:248 | removing one boid keeps the remaining ids distinct |
| Topology.WrapStep | FPGA-Implementation/boidMaster.cpp:422-425 | one step along a wrapping axis stays in range and, on an axis longer than one cell, always moves |
| Topology.WrapStepBack | FPGA-Implementation/boidMaster.cpp:422-425 | stepping back along the opposite direction returns to the starting cell |
| Topology.TorusNeighbour | FPGA-Implementation/boidMaster.cpp:418-435 | the toroidal neighbour at a bearing is a cell of the grid (row-major index in range) |
| Topology.TorusIds | FPGA-Implementation/boidMaster.cpp:427-434 | a partition has eight toroidal neighbour ids, in bearing order NW, N, NE, E, SE, S, SW, W |
| Topology.TorusSymmetric | FPGA-Implementation/boidMaster.cpp:418-435 | toroidal neighbourhood is symmetric: from the neighbour at bearing d, bearing d+4 leads back |
| Topology.TorusNoSelf | FPGA-Implementation/boidMaster.cpp:418-435 | with at least two rows and two columns, no partition is its own toroidal neighbour |
| Topology.BoundedNeighbour | Simulation/simulation.py:243-272 | a non-wrapping neighbour exists iff the step stays inside the grid, and is then a cell of the grid |
| Topology.BoundedIds | Simulation/simulation.py:243-272 | eight entries, each 0 (no neighbour) or a 1-based partition id |
| Topology.BoidCpuNeighbours | Python-Simulation/simulation.py:321-343 | the wrap-around table answers exactly ids 1..9 (any other id raises), with eight entries |
| Topology.LocationNeighbours | Simulation/simulation.py:243-272 | the non-wrapping table answers exactly ids 1..9, with eight entries |
| Topology.BoidCpuTableIsTorus | Python-Simulation/simulation.py:321-343 | every entry of the wrap-around table is the toroidal 3x3 neighbour at that bearing, ids in row-major order |
| Topology.BoidCpuTableEntries | Python-Simulation/simulation.py:321-343 | every entry lies in 1..9 and differs from the asking id |
| Topology.BoidCpuTableSymmetric | Python-Simulation/simulation.py:322-339 | if b is at bearing d of a, then a is at bearing (d+4) mod 8 of b |
| Topology.LocationTableIsBounded | Simulation/simulation.py:243-272 | every entry of the non-wrapping table is the bounded 3x3 neighbour at that bearing, and 0 where the bearing leaves the grid |
| Topology.LocationTableSymmetric | Simulation/simulation.py:244-270 | a nonzero entry b at bearing d of a is another partition, and has a at bearing (d+4) mod 8 |
| Topology.LocationNeighbourCounts | Simulation/simulation.py:244-270 | corner locations have 3 nonzero neighbours, border locations 5 and the centre 8 |
| Planner.BoidsToRelease | Python-Simulation/simulation.py:93-94 | the released count is the threshold times the fraction rounded up: r-1 < threshold·fraction <= r |
| Planner.DefaultRelease | Python-Simulation/simulation.py:89-94 | a threshold of 30 with 15% to remove releases 5 boids |
| Planner.EdgeToCoord | Python-Simulation/boidCPU.py:307-311 | the top edge moves ymin, the right edge xmax, the bottom edge ymax and the left edge xmin |
| Planner.EdgeToCoordInjective | Python-Simulation/boidCPU.py:307-311 | distinct edges move distinct coordinates |
| Planner.ValidEdgeOffBoundary | Python-Simulation/boidCPU.py:419-459 | an edge may move iff it does not lie on the outer boundary of the grid |
| Planner.ValidEdgeCount | Python-Simulation/boidCPU.py:419-459 | corner partitions have two movable edges, border partitions three and inner partitions four |
| Planner.MovedEdge | Python-Simulation/boidCPU.py:547-575 | moving an edge changes only that edge's coordinate. A top or bottom move changes the height by ±step·steps and keeps the width; a left or right move changes the width and keeps the height. `decrease` shrinks the rectangle |
| Planner.MovedEdgeBack | Python-Simulation/boidCPU.py:547-575 | moving an edge in and then out by the same steps restores the bounds |
| Planner.MovedEdgeCommute | Python-Simulation/boidCPU.py:547-575 | moves of different edges commute |
| Planner.MinSizeEnforced | Python-Simulation/boidCPU.py:386-414 | true iff moving the edge in by the proposed steps leaves the height (top, bottom) or width (right, left) at least the minimum size. It is a function of the bounds, which it does not change |
| Planner.MinSizeMonotone | Python-Simulation/boidCPU.py:386-414 | a move rejected for some bounds is also rejected for smaller bounds or more steps |
| Planner.FirstSegment | Python-Simulation/boidCPU.py:291-300 | the segment found is the first whose upper bound exceeds the coordinate; none when no segment's bound does |
| Planner.CellOf | Python-Simulation/boidCPU.py:288-303 | a boid is placed in at most one cell, and that cell lies inside the histogram |
| Planner.Histogram | Python-Simulation/boidCPU.py:274-303 | the histogram has height-segments rows of width-segments cells |
| Planner.HistogramRow | Python-Simulation/boidCPU.py:288-303 | row h of the histogram counts exactly the boids placed in row h |
| Planner.HistogramColumn | Python-Simulation/boidCPU.py:288-303 | column w counts exactly the boids placed in column w |
| Planner.HistogramTotal | Python-Simulation/boidCPU.py:288-303 | the cells together count each placed boid once, so their total is at most the number of boids |
| Planner.RowColCountsBand | Python-Simulation/boidCPU.py:315-326 | the row or column read for the bound-th step of an edge counts the boids in the band that step uncovers: row `bound` for top, column W-1-bound for right, row H-1-bound for bottom, column `bound` for left |
| Planner.ShrunkAdvance | Python-Simulation/boidCPU.py:359-367 | advancing an edge once more moves it (changes[e]+1) steps further in on the tentative bounds, as the planner's `move_edge` call does |
| Partitions.InitialIdsDistinct | Simulation/boidCPU.py:49-57 | partitions created with equal boid counts hand out disjoint ids: two start-up ids agree only for the same boid of the same partition |
| Partitions.Partition.constructor | Simulation/boidCPU.py:17-57 | a partition starts with the given bounds and grid position, one boid per initial position numbered ((id-1)·count)+i+1, a count equal to the list length, no neighbour table yet and not minimal |
| Partitions.Partition.AcceptBoid | Python-Simulation/boidCPU.py:229-233 | the boid joins the end of the list and the count grows by one; nothing else changes |
| Partitions.Partition.DropBoid | Python-Simulation/boidCPU.py:241-249 | the sender's half of a transfer: every boid with that id leaves, the rest keep their order, the count drops by one |
| Partitions.Partition.SetNeighbours | Simulation/location.py:150-151 | the partition stores the neighbour table row it is given |
| Partitions.Partition.UpdateBoids | Simulation/boidCPU.py:70-72 | each of the first n boids is replaced by its update computed from the gathered boids; the rest of the list is unchanged |
| Partitions.Updated | Simulation/boidCPU.py:70-72 | the updated list has the same length, the first n boids updated and the others untouched |
| Partitions.Partition.ChangeBounds | Python-Simulation/boidCPU.py:583-632 | the edge moves by steps·stepSize: top/bottom inwards in the overloaded partition's row and outwards elsewhere, right/left inwards in its column and outwards elsewhere. Any other edge value moves nothing. The partition is no longer minimal; boids, count and neighbours are unchanged |
| Partitions.Partition.ChangeBoundsNamed | Simulation/boidCPU.py:88-130 | the older `changeBounds` moves the named edge ("top", "right", "bottom", "left") by the given pixels under the same row/column rule; an unknown name moves nothing |
| Partitions.EdgeNamed | Simulation/boidCPU.py:95-127 | the four edge names map to the four edges, and every other string to none |
| Partitions.Partition.CreateBoidDistribution | Python-Simulation/boidCPU.py:274-303 | the stored histogram equals the specification histogram of the partition's own boids over step-sized cells, so its total is at most the number of boids |
| Partitions.PlaceBoid | Python-Simulation/boidCPU.py:288-303 | the nested loop for one boid adds one to the cell of its first width segment and first height segment, and changes nothing when there is no such cell |
| Partitions.Partition.AnalyseBoidDistribution | Python-Simulation/boidCPU.py:347-380 | the returned step counts leave immovable edges at 0 and return [0,0,0,0] when the partition was already minimal. On exit, enough boids are released or the partition is marked minimal, in which case no movable edge can advance once more. Every moved dimension stays at least the minimum size |
| Partitions.PlanChanges | Python-Simulation/boidCPU.py:356-374 | the `while` loop over the start bounds and histogram, with the same exit guarantees as AnalyseBoidDistribution; it terminates because every round shrinks the tentative bounds or flags every edge |
| Partitions.AdvanceEdges | Python-Simulation/boidCPU.py:357-370 | one round over the edges keeps the planner state. It shrinks the tentative bounds unless every edge is flagged at its minimum |
| Partitions.TryEdge | Python-Simulation/boidCPU.py:358-370 | one edge attempt: the edge advances one step further when the minimum size allows, and is flagged at its minimum otherwise; the planner state is kept |
| Partitions.PlanStart | Python-Simulation/boidCPU.py:348-354 | before the first round nothing has moved, nothing is released and exactly the immovable edges are flagged |
| Partitions.PlanOutcome | Python-Simulation/boidCPU.py:373-380 | when all edges are flagged, no movable edge can advance once more |
| Partitions.AdvanceKeepsPlan | Python-Simulation/boidCPU.py:361-368 | an allowed advance keeps the planner state: it stays inside the histogram |
| Partitions.AdvanceBookkeeping | Python-Simulation/boidCPU.py:361-368 | after an advance, the tentative bounds are the start bounds shrunk by the new step counts. The released count grows by exactly the band just uncovered, and fixed edges stay put |
| Partitions.AdvanceSizes | Python-Simulation/boidCPU.py:361-368 | after an advance the tentative height and width stay between the minimum size and the original size. Edges already stuck at their minimum stay stuck |
| Partitions.AdvanceShrinks | Python-Simulation/boidCPU.py:361-368 | an advance the minimum size allows strictly shrinks the tentative bounds, so the planning loop terminates |
| Partitions.FlagKeepsPlan | Python-Simulation/boidCPU.py:369-370 | flagging an edge the minimum size stops keeps the planner state |
| Partitions.ReleasedAdvance | Python-Simulation/boidCPU.py:362-368 | advancing an edge once adds the next band of that edge to the released boids |
| Affected.DefaultRequest | Python-Simulation/simulation.py:513-535 | with no request, edge e asks for 1 step exactly when it may move and one step keeps the minimum size, and for 0 otherwise |
| Affected.EntriesMeaning | Python-Simulation/simulation.py:550-581 | the per-partition list names each edge at most once. It names edge e with s steps exactly when s is nonzero and is the propagated step count: the same row or column moves the requested edges, the row above moves its bottom with the top request, the row below its top with the bottom request, the column to the right its left edge with the right request, the column to the left its right edge with the left request |
| Affected.EntriesGiveRebounded | Python-Simulation/boidCPU.py:512-527 | applying a partition's list in the order it was built, with the `change_bounds` direction rule, gives exactly the rebounded rectangle, whatever that order is |
| Affected.ApplyAppend | Python-Simulation/simulation.py:484-486 | applying two lists of edge changes in sequence is applying their concatenation |
| Affected.ReboundedKeepsTiling | Python-Simulation/simulation.py:482-486 | if every partition is the cell of its grid position, after a request every partition is the cell of the same position in the grid where only the overloaded row's and column's boundaries moved; the partitions still tile the area |
| Affected.InitialBoundsTile | Python-Simulation/simulation.py:135-143 | start-up partition i gets the square at column i mod 3 and row floor(i/3), which is a cell of a 3x3 grid of that side |
| Transfers.TargetOfAims | Python-Simulation/boidCPU.py:169-225 | a partition whose neighbour ids are partitions (or 0) hands boids only to partitions, and never to itself when it is not its own neighbour |
| Transfers.LinkedUpdate | Python-Simulation/simulation.py:321-343 | giving one partition a well-formed neighbour row that excludes itself keeps every partition's neighbours well formed |
| Transfers.Move | Python-Simulation/simulation.py:350-351 | a transfer keeps the number of partitions. When the boid was in the sender, the sender's list gets shorter unless it sends to itself |
| Transfers.MoveKeepsTotal | Python-Simulation/boidCPU.py:229-249 | `transfer_boid` followed by the target's `accept_boid` moves one unit of count from sender to target, so the sum of counts is unchanged |
| Transfers.MoveEffect | Simulation/location.py:126-141 | a transfer to another partition leaves no boid with that id in the sender, puts the boid at the end of the target's list, and leaves every other partition alone |
| Transfers.MoveElsewhere | Simulation/simulation.py:281-282 | a transfer changes another partition only when that partition is the target, by appending the boid and counting one more |
| Transfers.Staying | Python-Simulation/simulation.py:306-307 | the boids that stay form a sublist, no longer than the list |
| Transfers.SentTo | Python-Simulation/simulation.py:306-307 | the boids sent to one partition form a sublist, no longer than the list |
| Transfers.Leaving | Python-Simulation/simulation.py:306-307 | the number of boids that leave is the list length minus the number that stay |
| Transfers.StayingMembers | Python-Simulation/simulation.py:306-307 | a boid stays iff it is in the list and has no partition to go to |
| Transfers.SentToMembers | Python-Simulation/simulation.py:306-307 | a boid is sent to partition `to` iff it is in the list and its rule names `to` |
| Transfers.SnapshotKeeps | Python-Simulation/simulation.py:303-307 | with distinct ids and no partition its own neighbour, the scan over a snapshot leaves the scanned partition exactly the boids with nowhere to go, in order, and lowers its count by the number that left |
| Transfers.SnapshotDelivers | Python-Simulation/simulation.py:303-307 | the scan over a snapshot appends to every other partition, in order, exactly the boids bound for it, and raises its count by that number |
| Transfers.DropPending | Python-Simulation/boidCPU.py:248-249 | sending the next boid away removes exactly it from the list, keeps the ids distinct and lowers the count by one |
| Transfers.LiveRunStep | Python-Simulation/simulation.py:306-307 | one step of the scan as written offers the boid at the current index and moves on to the next index, even though a transfer has shortened the list |
| Transfers.LiveRunKeepsTotal | Python-Simulation/simulation.py:302-307 | the scan as written keeps the total boid count |
| Transfers.SnapshotRunKeepsTotal | Python-Simulation/simulation.py:302-307 | the scan over a snapshot keeps the total boid count |
| Transfers.Sweep | Python-Simulation/simulation.py:302-307 | a transfer step over all partitions in id order keeps the number of partitions |
| Transfers.SweepKeepsTotal | Python-Simulation/simulation.py:302-307 | a whole transfer step keeps the total boid count |
| Transfers.WestTargets | Python-Simulation/boidCPU.py:221-225 | two boids past the west bound of a partition whose neighbours are all partition 2 are both bound for partition 2 |
| Transfers.LiveRunSkipsBoid | Python-Simulation/simulation.py:306-307 | counterexample: scanning [A, B] as written sends A and never examines B, although B is bound for partition 2 |
| Transfers.SnapshotSendsBoth | Python-Simulation/simulation.py:306-307 | on the same input the snapshot scan sends both boids |
| Balance.ByEdgeMembers | Python-Simulation/simulation.py:544-581 | the list of edge e names partition id with s steps exactly when s is the nonzero propagated step count of that partition's edge e, and the ids rise strictly along the list |
| Balance.ByEdgeNext | Python-Simulation/simulation.py:550-581 | examining one more partition appends its entry to the end of the edge's list |
| Balance.ListedAll | Python-Simulation/simulation.py:544-581 | over the whole list of edge e, a partition is listed exactly when its edge e moves |
| Balance.ListsAgree | Python-Simulation/simulation.py:544-583 | the two returned structures agree: [id, s] is in the list of edge e iff [e, s] is in the list of partition id |
| Balance.StageZero | Python-Simulation/simulation.py:482-486 | before any edge list is applied, bounds and minimal flags are those the walk starts from |
| Balance.StageStep | Python-Simulation/simulation.py:484-486 | applying one `change_bounds` entry of edge e's list moves edge e of a partition that no earlier entry of that list named, and clears its minimal flag |
| Balance.StageEnd | Python-Simulation/simulation.py:484-486 | after the whole list of edge e, exactly the partitions whose edge e moves have moved it |
| Balance.StageFinal | Python-Simulation/simulation.py:482-486 | once the four lists are applied, every partition has its rebounded rectangle, and it has lost its minimal flag exactly when its own list of edge changes is not empty |
| Balance.Refused | Python-Simulation/simulation.py:478-482 | a refused change leaves every bound and flag as it was |
| Balance.StagedRebounded | Python-Simulation/simulation.py:484-486 | moving the four edges in turn, each by its propagated steps, gives exactly the rebounded rectangle; the order of the per-edge lists does not matter |
| Balance.MovedEdgeZero | Python-Simulation/boidCPU.py:547-575 | moving an edge by zero steps leaves the bounds as they are |
| Balance.TouchedIffListed | Python-Simulation/boidCPU.py:631-632 | a partition receives `change_bounds`, and so loses its minimal flag, exactly when its own list of edge changes is not empty |
| Balance.EdgeFlagsMeaning | Python-Simulation/boidCPU.py:478-481 | edge e is flagged exactly when some request names it |
| Balance.AddIdKeeps | Python-Simulation/boidCPU.py:484-501 | adding an id to the set, kept as a list in insertion order, keeps the ids distinct |
| Balance.AffectedIdsMeaning | Python-Simulation/boidCPU.py:484-501 | the gathered neighbour ids are distinct and are exactly the neighbours at the wanted bearings: a diagonal when both of its edges move, a side when its edge moves |
| Balance.WantedTable | Python-Simulation/boidCPU.py:485-501 | bearing by bearing: NW wanted iff top and left move, N iff top, NE iff top and right, and so on round the compass |
| Balance.AffectedIdsIn | Python-Simulation/boidCPU.py:505-507 | every gathered id lies in the grid when every neighbour id does |
| Balance.CountWithinAppend | Python-Simulation/boidCPU.py:534-538 | counting two lists one after the other adds their counts |
| Balance.CountWithinBound | Python-Simulation/boidCPU.py:534-538 | the prediction never exceeds the number of boids checked, and equals it exactly when every boid lies within the closed new bounds |
| Balance.EvaluationPredicts | Python-Simulation/boidCPU.py:472-543 | what `evaluate_boundary_change` counts, applying the partition's own list to a copy of its bounds, is the number of checked boids within its rebounded rectangle |
| Balance.OverloadedCountZero | Python-Simulation/simulation.py:478-479 | no count vetoes the change exactly when none exceeds 110% of the threshold |
| Balance.VetoAt | Python-Simulation/simulation.py:462-482 | under strategy 3, one partition whose predicted count exceeds 110% of the threshold refuses the change; the other strategies allow every change |
| Balance.NoVetoAllowed | Python-Simulation/simulation.py:462-482 | under strategy 3, a change that overloads no partition's prediction is allowed |
| Grids.GatheredMembers | Python-Simulation/boidCPU.py:143-147 | a boid is gathered exactly when some nonzero entry of the neighbour list names a partition holding it |
| Grids.GatheredLength | Python-Simulation/boidCPU.py:143-147 | the gathered list is as long as the lists of the nonzero neighbours put together (a neighbour listed twice counts twice) |
| Grids.BoidCpuTableFits | Python-Simulation/simulation.py:321-343 | each row of the wrap-around table names only partitions 1..9 and never the asking partition |
| Grids.LocationTableFits | Simulation/simulation.py:243-272 | each row of the bounded table names only 0 or partitions 1..9 and never the asking partition |
| Grids.Grid.constructor | Python-Simulation/simulation.py:128-148 | partition i gets id i+1, grid position [i / 3, i % 3], the square of the given side at column i % 3 and row i / 3, and its boids; the grid is well formed |
| Grids.Grid.TransferBoid | Python-Simulation/simulation.py:350-351 | the receiving partition gains the boid, the sending one loses every boid with that id, nothing else changes and the grid-wide count is kept |
| Grids.Grid.Offer | Python-Simulation/boidCPU.py:169-225 | a boid is handed over exactly when its partition names a target for it, and the grid then moves it there |
| Grids.Grid.TransferStepLive | Python-Simulation/simulation.py:306-307 | the scan over the live list leaves the grid as the as-written live run does (which can skip a boid), keeping the grid-wide count |
| Grids.Grid.TransferStep | Python-Simulation/simulation.py:302-307 | the scan over a snapshot leaves the grid as the snapshot run says: every boid held at the start is examined once; the grid-wide count is kept |
| Grids.Grid.TransferAll | Python-Simulation/simulation.py:302-314 | every partition in id order runs its transfer scan; neighbours and bounds stay and the grid-wide count is kept |
| Grids.Grid.PossibleNeighbouringBoids | Simulation/boidCPU.py:208-218 | the result is a new list: the partition's own boids followed by those of each nonzero neighbour in table order; nothing changes |
| Grids.Grid.GatherChecked | Python-Simulation/boidCPU.py:504-507 | the boids to check are the partition's own followed by those of each listed neighbour, id 0 reading the last partition |
| Grids.Grid.SetNeighbours | Python-Simulation/boidCPU.py:138 | only the partition's neighbour list changes, and the grid stays well linked |
| Grids.Grid.UpdateOwn | Simulation/boidCPU.py:71-72 | the partition's first boidCount boids are replaced by their updated selves; nothing else changes |
| Grids.Grid.CalculateBoidNeighbours | Python-Simulation/boidCPU.py:136-147 | the partition takes its row of the wrap-around table and the gathered list is its own boids followed by its neighbours'; no boid moves |
| Grids.Grid.Flock | Simulation/boidCPU.py:66-72 | the partition takes its neighbour list and its boids become their updated selves given the gathered boids; bounds and counts stay |
| Grids.Grid.Update | Simulation/boidCPU.py:66-80 | overload is signalled exactly when the generation checks load and the count is at least the threshold; the flocked boids are then handed over by the snapshot run; the grid-wide count is kept |
| Grids.Grid.ChangeBoundsOf | Python-Simulation/simulation.py:486 | only the named partition's bounds move, by the edge rule, and its minimal flag clears |
| Grids.Grid.ApplyEdge | Python-Simulation/simulation.py:485-486 | applying one edge's list moves the grid from the stage before that edge to the stage after it |
| Grids.Grid.ApplyChanges | Python-Simulation/simulation.py:484-486 | after the four edge lists every partition holds its rebounded rectangle and has lost its minimal flag exactly when its own list was not empty |
| Grids.Grid.EvaluateAll | Python-Simulation/simulation.py:462-470 | each partition reports its current count and its predicted count; nothing changes |
| Grids.Grid.Decide | Python-Simulation/simulation.py:462-482 | the change is allowed exactly when no predicted count exceeds 110% of the threshold under strategy 3, and always otherwise |
| Grids.Grid.BoidcpuOverloaded | Python-Simulation/simulation.py:450-486 | with the request (own or default), the change goes through exactly when it is allowed; then every partition takes its rebounded rectangle; boids and neighbours stay |
| Grids.Grid.Rebalance | Python-Simulation/simulation.py:462-486 | the decision and, when allowed, the application of the edge lists; the grid otherwise stays as it was |
| Grids.Grid.IdentifyAffected | Python-Simulation/simulation.py:510-583 | the request is the given one or the default, and the per-edge and per-partition lists are exactly those of the specification of affected partitions |
| Grids.Grid.EvaluateBoundaryChange | Python-Simulation/boidCPU.py:472-543 | the pair is the partition's boid count and the number of checked boids lying in its bounds once the requests are applied to a copy |
| Grids.FlagEdges | Python-Simulation/boidCPU.py:478-481 | an edge is flagged exactly when some request names it |
| Grids.TempBounds | Python-Simulation/boidCPU.py:510-527 | the temporary bounds are the requests applied in order to a copy, inwards along the overloaded row and column and outwards elsewhere |
| Grids.CountInside | Python-Simulation/boidCPU.py:534-538 | the counter is the number of boids within the closed rectangle |
| Grids.AffectedLists | Python-Simulation/simulation.py:544-583 | the four per-edge lists and the per-partition lists equal their reference definitions for every edge and partition |
| Grids.Examine | Python-Simulation/simulation.py:551-581 | one partition's eight tests extend each per-edge list by that partition's entry and produce its own list |
| Grids.ExamineAcross | Python-Simulation/simulation.py:551-565 | the neighbouring rows and columns append the facing edge with the requested step exactly when their test holds |
| Grids.ExamineOwn | Python-Simulation/simulation.py:567-581 | the overloaded row and column append the requested edge itself exactly when their test holds |
| Wire.Command | FPGA-Implementation/boidCPU.cpp:1050-1067 | the command's length word counts the header and the body, the header holds destination, sender and type, and the body is the first len data words |
| Wire.PackPair | FPGA-Implementation/boidCPU.cpp:992-1008 | the word two 16-bit fixed-point values are packed into fits 32 bits unsigned |
| Wire.UnpackPair | FPGA-Implementation/boidCPU.cpp:907-916 | both values read back from a word fit 16 bits signed |
| Wire.PairRoundTrip | FPGA-Implementation/boidCPU.cpp:907-916 | unpacking a packed word gives back both values, negative ones included |
| Wire.PackPairInjective | FPGA-Implementation/boidCPU.cpp:992-1008 | different pairs of values pack to different words |
| Wire.PackBoid | FPGA-Implementation/boidCPU.cpp:992-1014 | a boid packs into three 32-bit words |
| Wire.ParseBoid | FPGA-Implementation/boidCPU.cpp:904-921 | a boid parsed from three words has every field within its 16-bit register |
| Wire.BoidRoundTrip | FPGA-Implementation/boidCPU.cpp:904-1014 | parsing the three words a boid was packed into gives back that boid |
| Wire.Slots | FPGA-Implementation/boidCPU.cpp:974-1017 | the body of a run of boids is three words per boid |
| Wire.SlotsAt | FPGA-Implementation/boidCPU.cpp:1011-1016 | slot i of the body holds the packed boid i |
| Wire.Queued | FPGA-Implementation/boidCPU.cpp:811-819 | the five queued words of a received boid each fit 16 bits signed |
| Wire.Fixed | FPGA-Implementation/boidCPU.cpp:841-842 | a whole number taken into a 16-bit fixed-point value stays within the register |
| Wire.Committed | FPGA-Implementation/boidCPU.cpp:840-843 | a committed boid's id fits 16 bits unsigned |
| Wire.TransferredBoid | FPGA-Implementation/boidCPU.cpp:756-843 | a boid handed between FPGA cores arrives with its id and with position and velocity cut to whole pixels toward zero; a non-negative whole position survives |
| Wire.WholeFits | FPGA-Implementation/boidCPU.cpp:762-766 | the whole part of a 16-bit fixed-point value fits 12 bits signed and survives the word casts of the transfer unchanged |
| Wire.Signed4 | FPGA-Implementation/boidCPU.cpp:528 | a 4-bit pattern reads as a number in -8..7 equal to the pattern modulo 16 |
| Wire.EdgePattern | FPGA-Implementation/boidMaster.cpp:630-657 | the pattern of four 4-bit edge changes fits 16 bits |
| Wire.EdgeWord | FPGA-Implementation/boidMaster.cpp:630-657 | the sign-extended pattern fits a 32-bit word |
| Wire.Field | FPGA-Implementation/boidCPU.cpp:524-543 | each field read from the word is a 4-bit signed number |
| Wire.EdgeWordRoundTrip | FPGA-Implementation/boidCPU.cpp:524-543 | the BoidCPU reads back exactly the four edge changes the master wrote, negative ones included |
| Wire.FieldRead | FPGA-Implementation/boidCPU.cpp:524-528 | sign extension to 32 bits and the cast back to 16 leave every 4-bit field as it was |
| FpgaBoidCpu.SideTestsAgree | FPGA-Implementation/boidCPU.cpp:645-724 | for the four side bearings the core's bound test is the Python partitions' test; every diagonal bearing is tested as north-west |
| FpgaBoidCpu.BearingEscapes | FPGA-Implementation/boidCPU.cpp:613-621 | one boid's pairs are exactly the neighbours of the bearings that apply to it, at most one per bearing |
| FpgaBoidCpu.Escapes | FPGA-Implementation/boidCPU.cpp:611-622 | the escape list holds at most eight pairs per boid, each naming a boid of the list |
| FpgaBoidCpu.EscapesComplete | FPGA-Implementation/boidCPU.cpp:611-628 | every applicable bearing of every boid is listed, and the list is empty (so only an ACK goes out) exactly when no bearing applies |
| FpgaBoidCpu.Ids | FPGA-Implementation/boidCPU.cpp:617 | the id list is the first component of each pair, in order |
| FpgaBoidCpu.FirstIndex | FPGA-Implementation/boidCPU.cpp:759-760 | the index found is the first holding the id, or the count when none does |
| FpgaBoidCpu.RemoveShift | FPGA-Implementation/boidCPU.cpp:779-791 | one removal pass cuts out the first boid with the id; with no such boid it drops the last boid; the count falls by one either way |
| FpgaBoidCpu.RemoveAll | FPGA-Implementation/boidCPU.cpp:779-792 | the removal loop shortens the list by exactly one per id, found or not |
| FpgaBoidCpu.RemoveAllKeeps | FPGA-Implementation/boidCPU.cpp:779-792 | the removal loop never introduces a boid: everything left was in the list before |
| FpgaBoidCpu.Route | Python-Simulation/boidCPU.py:169-225 | the intended target of an FPGA boid is a present neighbour, and exists exactly when some bearing fires by the Python rule |
| FpgaBoidCpu.Routes | FPGA-Implementation/boidCPU.cpp:603-629 | the intended escape list holds at most one pair per boid |
| FpgaBoidCpu.Staying | FPGA-Implementation/boidCPU.cpp:779-792 | the boids without a route, which with the routed ones make up the whole list |
| FpgaBoidCpu.RoutesRemoveExactly | FPGA-Implementation/boidCPU.cpp:779-792 | with one pair per escaping boid and distinct ids the removal loop removes exactly the escaping boids and keeps the others in order |
| FpgaBoidCpu.EnqueueKeepsPrefix | FPGA-Implementation/boidCPU.cpp:1050-1067 | the output buffer keeps the commands sent while it has room, never more than 15, and drops the rest |
| FpgaBoidCpu.Ack | FPGA-Implementation/boidCPU.cpp:889-892 | an ACK is a one-word command to the controller carrying the mode |
| FpgaBoidCpu.Send | FPGA-Implementation/boidCPU.cpp:759-775 | a pair yields one message exactly when some held boid has its id |
| FpgaBoidCpu.Sends | FPGA-Implementation/boidCPU.cpp:758-776 | at most one message per pair, each a nine-word CMD_BOID from this core |
| FpgaBoidCpu.Message | FPGA-Implementation/boidCPU.cpp:963-1021 | message i is well sized and its first body word counts the messages still to follow |
| FpgaBoidCpu.Messages | FPGA-Implementation/boidCPU.cpp:963-1026 | the list holds one message per part, message i covering boids 9i to 9i+8 |
| FpgaBoidCpu.AsWrittenCountFits | FPGA-Implementation/boidCPU.cpp:949-953 | the computed message count never asks for more parts than there are boids to fill, and is positive when there are boids |
| FpgaBoidCpu.Unpacked | FPGA-Implementation/boidCPU.cpp:904-921 | the receiver reads (length - 5) / 3 boids from a message, slot by slot |
| FpgaBoidCpu.SlotRoundTrip | FPGA-Implementation/boidCPU.cpp:904-1016 | a slot holding a packed boid parses back to that boid |
| FpgaBoidCpu.MessageRoundTrip | FPGA-Implementation/boidCPU.cpp:963-1021 | the receiver reads back exactly the boids one message carries |
| FpgaBoidCpu.MessagesDeliver | FPGA-Implementation/boidCPU.cpp:963-1026 | the first k messages deliver the first 9k boids, in order |
| FpgaBoidCpu.PackedAllRoundTrip | FPGA-Implementation/boidCPU.cpp:942-1032 | with ceil(n / 9) messages the receiver reads back the whole boid list in order, and no message exceeds the 30-word body |
| FpgaBoidCpu.PackedDelivers | FPGA-Implementation/boidCPU.cpp:942-1032 | as written the receiver reads only the first 9 * ceil(3n / 29) boids |
| FpgaBoidCpu.PackedLosesBoid | FPGA-Implementation/boidCPU.cpp:949-1026 | nineteen boids go out in two messages and the nineteenth is never sent |
| FpgaBoidCpu.CornerBearings | FPGA-Implementation/boidCPU.cpp:645-667 | a boid past the north and east bounds is listed for north and east only, never north-east |
| FpgaBoidCpu.InsideBearings | FPGA-Implementation/boidCPU.cpp:613-621 | a boid well inside its bounds is listed for no bearing |
| FpgaBoidCpu.EscapesDuplicateBoid | FPGA-Implementation/boidCPU.cpp:603-629 | the corner boid is sent twice and the removal loop then drops the boid that never left |
| FpgaBoidCpu.ExampleEscapes | FPGA-Implementation/boidCPU.cpp:611-622 | the escape list of the two-boid example is north and east for the corner boid |
| FpgaBoidCpu.ExampleSends | FPGA-Implementation/boidCPU.cpp:758-776 | both pairs of the example find their boid, so two messages go out |
| FpgaBoidCpu.ExampleRemoval | FPGA-Implementation/boidCPU.cpp:779-792 | removing the example's two ids leaves no boid |
| FpgaBoidCpu.RoutesCornerOnce | Python-Simulation/boidCPU.py:169-225 | by the transfer rule the corner boid goes north-east alone and the other boid stays |
| FpgaBoidCpu.I12 | FPGA-Implementation/boidCPU.cpp:528-548 | a store into a 12-bit signed register keeps the value modulo 4096 in -2048..2047, and leaves values already in range alone |
| FpgaBoidCpu.Rebounded | FPGA-Implementation/boidCPU.cpp:524-543 | the new bounds are four 12-bit values |
| FpgaBoidCpu.Contained | FPGA-Implementation/boidCPU.cpp:471-482 | a contained position lies within the simulation area, a position already inside stays, and id and velocity are untouched |
| FpgaBoidCpu.Commits | FPGA-Implementation/boidCPU.cpp:837-846 | the committed boids are the queued entries built into boids, one for one |
| FpgaBoidCpu.BoidCpu.constructor | FPGA-Implementation/boidCPU.cpp:245-265 | the core starts with the given bounds, neighbour table, simulation size and boids, an empty queue and an empty output buffer |
| FpgaBoidCpu.BoidCpu.GenerateOutput | FPGA-Implementation/boidCPU.cpp:1050-1067 | the command is appended unless 15 are waiting; boids and queue stay |
| FpgaBoidCpu.BoidCpu.SendAck | FPGA-Implementation/boidCPU.cpp:889-892 | the ACK for the mode is appended while the buffer has room |
| FpgaBoidCpu.BoidCpu.EscapedBoids | FPGA-Implementation/boidCPU.cpp:611-622 | the recorded pairs are the escape list of the held boids; nothing changes |
| FpgaBoidCpu.BoidCpu.FindBoid | FPGA-Implementation/boidCPU.cpp:759-760 | the index of the first held boid with the id, or the count; nothing changes |
| FpgaBoidCpu.BoidCpu.SendPairs | FPGA-Implementation/boidCPU.cpp:758-776 | one CMD_BOID per pair whose boid is held is appended; boids stay |
| FpgaBoidCpu.BoidCpu.RemoveBoid | FPGA-Implementation/boidCPU.cpp:780-791 | the held boids become one removal pass of the old ones and the count falls by one |
| FpgaBoidCpu.BoidCpu.TransmitBoids | FPGA-Implementation/boidCPU.cpp:756-796 | the messages for the pairs and then an ACK are appended, and the held boids become the removal loop over the pairs' ids |
| FpgaBoidCpu.BoidCpu.CalculateEscapedBoids | FPGA-Implementation/boidCPU.cpp:603-629 | as written: the escape list goes to transmitBoids, sending and removing one boid per pair |
| FpgaBoidCpu.BoidCpu.RouteEscapedBoids | FPGA-Implementation/boidCPU.cpp:603-629 | with one pair per escaping boid the boids that stay are exactly those without a route, in order |
| FpgaBoidCpu.BoidCpu.AcceptBoid | FPGA-Implementation/boidCPU.cpp:811-820 | the five words are queued when fewer than MAX_QUEUED_BOIDS - 1 wait, and dropped otherwise; the boids stay |
| FpgaBoidCpu.BoidCpu.CommitAcceptedBoids | FPGA-Implementation/boidCPU.cpp:834-854 | queued boids are appended in order while the count is below MAX_BOIDS - 1, the rest are dropped, and the queue empties |
| FpgaBoidCpu.BoidCpu.CalcNextBoidPositions | FPGA-Implementation/boidCPU.cpp:465-487 | every updated boid is contained within the simulation area, then the ACK is appended |
| FpgaBoidCpu.BoidCpu.FromNeighbour | FPGA-Implementation/boidCPU.cpp:1082-1094 | the sender counts as a neighbour exactly when the table is set up and lists it |
| FpgaBoidCpu.BoidCpu.LoadBalance | FPGA-Implementation/boidCPU.cpp:523-561 | the bounds become the rebounded ones, and the minimal report is 2, 0, 1 or none exactly as width and height compare with the vision radius |
| FpgaBoidCpu.BoidCpu.ChunkBody | FPGA-Implementation/boidCPU.cpp:970-1017 | a message body is the part number followed by three words per boid of the range |
| FpgaBoidCpu.BoidCpu.SendMessages | FPGA-Implementation/boidCPU.cpp:963-1026 | the messages for the given count are appended; boids stay |
| FpgaBoidCpu.BoidCpu.PackBoidsForSending | FPGA-Implementation/boidCPU.cpp:942-1032 | as written: ceil(3n / 29) messages of up to nine boids, or one message with a zero body when there are none |
| FpgaBoidCpu.BoidCpu.SendAllBoids | FPGA-Implementation/boidCPU.cpp:942-1032 | with ceil(n / 9) messages, and the receiver reads back every held boid in order |
| FpgaMaster.Shares | FPGA-Implementation/boidMaster.cpp:331-340 | one count per BoidCPU |
| FpgaMaster.SharesSum | FPGA-Implementation/boidMaster.cpp:331-340 | when the last count fits its 8-bit field, every BoidCPU but the last gets the quotient, the last also the remainder, and the counts add up to the flock size |
| FpgaMaster.SharesShape | FPGA-Implementation/boidMaster.cpp:334-340 | the counts are n - 1 quotients followed by the quotient plus the remainder |
| FpgaMaster.ClosestMultiples | FPGA-Implementation/boidMaster.cpp:488-503 | the grid shape is a factor pair of the BoidCPU count, width at least height, with the smallest difference of all such pairs |
| FpgaMaster.ScanColumn | FPGA-Implementation/boidMaster.cpp:492-501 | after the inner loop for i the kept pair is no worse than any factor pair starting with i |
| FpgaMaster.ClosestPairUnique | FPGA-Implementation/boidMaster.cpp:488-503 | two factor pairs with the same difference are the same pair, so the grid shape is determined by the count |
| FpgaMaster.CellCoords | FPGA-Implementation/boidMaster.cpp:350-389 | a BoidCPU's bounds are four values |
| FpgaMaster.Tiles | FPGA-Implementation/boidMaster.cpp:350-415 | along each axis the cells start at 0, end at the full size, each ends where the next starts and none is empty |
| FpgaMaster.CellOwnsPoint | FPGA-Implementation/boidMaster.cpp:366-415 | every position of the area lies in exactly one cell interval per axis |
| FpgaMaster.Around | FPGA-Implementation/boidMaster.cpp:418-435 | each BoidCPU is given eight neighbour entries |
| FpgaMaster.AroundIsTorus | FPGA-Implementation/boidMaster.cpp:418-435 | read off the numbered grid, the eight entries are the ids of the toroidal neighbours, north-west first and clockwise |
| FpgaMaster.OnesAreRepeats | FPGA-Implementation/boidMaster.cpp:449-462 | flags that mark exactly the entries repeating an earlier one count the repeats |
| FpgaMaster.DistinctNeighbourCount | FPGA-Implementation/boidMaster.cpp:438-469 | the count sent is eight less the repeated entries, less one more when the BoidCPU itself is listed twice or more |
| FpgaMaster.FlagRepeatsOf | FPGA-Implementation/boidMaster.cpp:451-460 | the inner loop for an unflagged entry flags and counts every later equal entry |
| FpgaMaster.FlaggedAll | FPGA-Implementation/boidMaster.cpp:449-465 | once all eight entries are examined the count is the number of repeats and the own flag says whether the id repeats |
| FpgaMaster.NoRepeats | FPGA-Implementation/boidMaster.cpp:438-469 | with pairwise different entries the distinct count is the list length |
| FpgaMaster.LoneBoidCpu | FPGA-Implementation/boidMaster.cpp:438-469 | a lone BoidCPU lists itself eight times and so counts no distinct neighbour |
| FpgaMaster.RepeatsOfRepeat | FPGA-Implementation/boidMaster.cpp:449-462 | m copies of one value hold m - 1 repeats |
| FpgaMaster.AckRound | FPGA-Implementation/boidMaster.cpp:531-593 | with g gatekeepers, the first g - 1 ACKs only count, and the g-th advances the phase, broadcasts it and clears the count |
| FpgaMaster.AckRunAppend | FPGA-Implementation/boidMaster.cpp:531-593 | processing two runs of ACKs in turn is processing their concatenation |
| FpgaMaster.Frame | FPGA-Implementation/boidMaster.cpp:557-584 | from the neighbour phase three rounds of ACKs broadcast the position, transfer and draw modes in that order |
| FpgaMaster.GpuAckStartsFrame | FPGA-Implementation/boidMaster.cpp:532-535 | the BoidGPU's ACK restarts the cycle at the neighbour phase whatever the count |
| FpgaMaster.LoadWordDecodes | FPGA-Implementation/boidMaster.cpp:630-731 | a BoidCPU reads from its word exactly the four edge changes the master meant, and the overloaded one moves every edge not on the border inwards |
| FpgaMaster.LoadPatternZero | FPGA-Implementation/boidMaster.cpp:729-731 | a command goes out exactly when some edge of that BoidCPU changes |
| FpgaMaster.ColumnsStayJoined | FPGA-Implementation/boidMaster.cpp:696-721 | a column's east edge and the next column's west edge get the same new value |
| FpgaMaster.OuterColumnsStay | FPGA-Implementation/boidMaster.cpp:641-657 | the left and right borders of the area do not move |
| FpgaMaster.RowsStayJoined | FPGA-Implementation/boidMaster.cpp:668-691 | a row's south edge and the next row's north edge get the same new value |
| FpgaMaster.OuterRowsStay | FPGA-Implementation/boidMaster.cpp:635-651 | the top and bottom of the area do not move |
| FpgaMaster.LoadCommands | FPGA-Implementation/boidMaster.cpp:661-748 | at most one one-word command per BoidCPU |
| FpgaMaster.LoadCommandsOne | FPGA-Implementation/boidMaster.cpp:729-731 | a BoidCPU gets one command with its change word when the word is not zero, none otherwise |
| FpgaMaster.LoadCommandsNearby | FPGA-Implementation/boidMaster.cpp:661-721 | only BoidCPUs in, or next to, the overloaded one's row or column are told to move an edge |
| FpgaMaster.Joined | FPGA-Implementation/boidMaster.cpp:285-291 | one record per BoidCPU the gatekeeper reports |
| FpgaMaster.SetupBody | FPGA-Implementation/boidMaster.cpp:816-830 | the setup body carries id, boid count, bounds, distinct count, neighbours and the area size at their offsets |
| FpgaMaster.SetupCommands | FPGA-Implementation/boidMaster.cpp:814-836 | one setup command per BoidCPU, in order |
| FpgaMaster.AffectedChanges | FPGA-Implementation/boidMaster.cpp:661-721 | the change pattern for a BoidCPU is its load pattern |
| FpgaMaster.TileRow | FPGA-Implementation/boidMaster.cpp:369-412 | the BoidCPUs of row h get the cells of that row from left to right and the grid row records their ids |
| FpgaMaster.MovingEdges | FPGA-Implementation/boidMaster.cpp:635-657 | an edge of the overloaded BoidCPU moves exactly when it is not on the border of the area |
| FpgaMaster.BoidMaster.constructor | FPGA-Implementation/boidMaster.cpp:102-127 | the master starts pinging with no gatekeepers, no BoidCPUs, no grid, no output and a flock of 100 |
| FpgaMaster.BoidMaster.CreateCommand | FPGA-Implementation/boidMaster.cpp:978-991 | the command is appended to the output; nothing else changes |
| FpgaMaster.BoidMaster.IssueMode | FPGA-Implementation/boidMaster.cpp:796-800 | a broadcast with an empty body is appended; nothing else changes |
| FpgaMaster.BoidMaster.ProcessPingReply | FPGA-Implementation/boidMaster.cpp:277-292 | one more gatekeeper, and a fresh record for each BoidCPU it reports, numbered on from those already known |
| FpgaMaster.BoidMaster.ProcessUserData | FPGA-Implementation/boidMaster.cpp:250-255 | the flock size is taken, the state becomes setup, the grid is laid out and every BoidCPU is sent its setup |
| FpgaMaster.BoidMaster.SetupSimulation | FPGA-Implementation/boidMaster.cpp:329-473 | the grid has the closest factor shape, every BoidCPU gets its cell, its toroidal neighbours and its distinct count, and the setup commands go out |
| FpgaMaster.BoidMaster.AssignShares | FPGA-Implementation/boidMaster.cpp:331-340 | each BoidCPU's boid count becomes its share; nothing else changes |
| FpgaMaster.BoidMaster.TileGrid | FPGA-Implementation/boidMaster.cpp:350-415 | each BoidCPU is placed at its row-major cell with that cell's bounds |
| FpgaMaster.BoidMaster.LinkNeighbours | FPGA-Implementation/boidMaster.cpp:418-435 | each BoidCPU's neighbours become the eight cells around it on the torus |
| FpgaMaster.BoidMaster.CountDistinctNeighbours | FPGA-Implementation/boidMaster.cpp:438-470 | each BoidCPU's distinct count becomes the count of its neighbour list |
| FpgaMaster.BoidMaster.IssueSetupInformation | FPGA-Implementation/boidMaster.cpp:814-836 | one setup command per BoidCPU is appended, addressed to its gatekeeper |
| FpgaMaster.BoidMaster.ProcessAck | FPGA-Implementation/boidMaster.cpp:531-593 | phase, count and broadcasts move as one ACK step says |
| FpgaMaster.BoidMaster.ProcessLoadData | FPGA-Implementation/boidMaster.cpp:624-749 | the load commands for every BoidCPU, in order, are appended; nothing else changes |
| FpgaMaster.BoidMaster.IssueLoadChange | FPGA-Implementation/boidMaster.cpp:661-731 | one BoidCPU's command is appended when its change word is not zero |
| Gatekeeper.Readdressed | FPGA-Implementation/gatekeeper.c:982-989 | rebuilding a well-formed command from its own fields with a new recipient changes only the recipient |
| Gatekeeper.Bytes | FPGA-Implementation/gatekeeper.c:1332-1339 | a word becomes four octets |
| Gatekeeper.Decode | FPGA-Implementation/gatekeeper.c:1353-1355 | four octets join into one 32-bit word |
| Gatekeeper.DecodeBytes | FPGA-Implementation/gatekeeper.c:1332-1355 | decoding the octets of a word gives back its 32-bit image |
| Gatekeeper.BytesDecode | FPGA-Implementation/gatekeeper.c:1332-1355 | encoding the word decoded from four octets gives back the same octets |
| Gatekeeper.EncodeWord | FPGA-Implementation/gatekeeper.c:1332-1339 | the word's octets land at idx..idx+4, most significant first, nothing else in the buffer changes, and the index moves on by four |
| Gatekeeper.Encoded | FPGA-Implementation/gatekeeper.c:684-694 | the encoding of n words is 4n octets |
| Gatekeeper.EncodedAt | FPGA-Implementation/gatekeeper.c:684-694 | word k occupies octets 4k..4k+4 of the encoding |
| Gatekeeper.Padding | FPGA-Implementation/gatekeeper.c:696-701 | the padding is zeros bringing the frame up to 64 octets, and nothing when it is longer |
| Gatekeeper.FrameLayout | FPGA-Implementation/gatekeeper.c:660-724 | a frame is the broadcast destination, the own address, the EtherType, the words and the padding, max(64, 14 + 4n) octets long |
| Gatekeeper.FrameOctets | FPGA-Implementation/gatekeeper.c:660-701 | every octet of a frame is a byte |
| Gatekeeper.FrameRoundTrip | FPGA-Implementation/gatekeeper.c:446-452 | a receiver decoding a frame word by word gets back every word of the command sent |
| Gatekeeper.ReadExternalInput | FPGA-Implementation/gatekeeper.c:446-452 | the decoded words are the received octets taken four at a time from octet 14 on |
| Gatekeeper.ReceivedRoundTrip | FPGA-Implementation/gatekeeper.c:443-452 | a received buffer that starts with a sent frame decodes to the sent command |
| Gatekeeper.ScanChannels | FPGA-Implementation/gatekeeper.c:1208-1217 | the channel found is the first from i on with the id, or 99 exactly when there is none |
| Gatekeeper.InternalIffChannel | FPGA-Implementation/gatekeeper.c:797-862 | a command for a BoidCPU stays on the board exactly when internalChannelLookUp finds a channel for it, and leaves exactly when it does not |
| Gatekeeper.MulticastChannels | FPGA-Implementation/gatekeeper.c:600-615 | a multicast goes down every BoidCPU channel whose id is not the sender's, each once, in order |
| Gatekeeper.Deliver | FPGA-Implementation/gatekeeper.c:611-613 | one delivery of the command per channel, in order |
| Gatekeeper.MergedContents | FPGA-Implementation/gatekeeper.c:963-979 | merging keeps the old list as a prefix, adds at most one entry per neighbour, and lists exactly the union |
| Gatekeeper.MergedNoDups | FPGA-Implementation/gatekeeper.c:963-979 | merging into a list without duplicates leaves it without duplicates |
| Gatekeeper.NeighboursOf | FPGA-Implementation/gatekeeper.c:964-965 | a setup command carries eight neighbour ids |
| Gatekeeper.AckRunFromZero | FPGA-Implementation/gatekeeper.c:393-403 | from zero, n ACKs send one collective ACK per two and leave n mod 2 pending; none is forwarded singly |
| Gatekeeper.DrawnIncrementCounts | FPGA-Implementation/gatekeeper.c:333-336 | a draw command carrying n boids adds exactly n to the drawn count |
| Gatekeeper.DrawnIncrementShort | FPGA-Implementation/gatekeeper.c:333-336 | a draw command without its count word adds 1431655765, the unsigned wrap of -1 divided by 3 |
| Gatekeeper.WriteHeader | FPGA-Implementation/gatekeeper.c:663-683 | the first 14 octets become the frame header and the rest of the buffer stays |
| Gatekeeper.BuildFrame | FPGA-Implementation/gatekeeper.c:660-724 | the octets handed to the controller are exactly the frame of the command |
| Gatekeeper.Multicast | FPGA-Implementation/gatekeeper.c:600-615 | one delivery per BoidCPU channel other than the sender's |
| Gatekeeper.Listed | FPGA-Implementation/gatekeeper.c:966-973 | the search finds the id exactly when it is among the first count entries |
| Gatekeeper.MergeNeighbours | FPGA-Implementation/gatekeeper.c:963-979 | the list's first entries become the merge of the old ones with the eight neighbour ids, growing by at most eight |
| Gatekeeper.ChannelDeliveries | FPGA-Implementation/gatekeeper.c:571-644 | the deliveries are the command down each channel sendInternalMessage chooses |
| Gatekeeper.Gatekeeper.constructor | FPGA-Implementation/gatekeeper.c:108-131 | the gatekeeper starts with channel 1 to set up, no ids, no neighbours, no counts and nothing sent |
| Gatekeeper.Gatekeeper.InternalChannelLookUp | FPGA-Implementation/gatekeeper.c:1200-1218 | channel 0 exactly for the BoidMaster, a BoidCPU channel only when it holds the id, and 99 exactly when no channel does |
| Gatekeeper.Gatekeeper.RecipientLookUp | FPGA-Implementation/gatekeeper.c:797-862 | the recipient is the one the routing table gives for the destination and sender |
| Gatekeeper.Gatekeeper.ExternalMessageRelevant | FPGA-Implementation/gatekeeper.c:753-783 | a command from another board is relevant exactly when it is from the BoidMaster, a broadcast, for the BoidMaster, or from a listed neighbour, and never when it is for the BoidGPU |
| Gatekeeper.Gatekeeper.SendExternalMessage | FPGA-Implementation/gatekeeper.c:660-733 | the frame of the command is appended to the Ethernet log; nothing else changes |
| Gatekeeper.Gatekeeper.SendInternalMessage | FPGA-Implementation/gatekeeper.c:571-644 | the command is delivered down each chosen channel; nothing else changes |
| Gatekeeper.Gatekeeper.SendMessage | FPGA-Implementation/gatekeeper.c:519-555 | the command goes out on Ethernet, the channels or both, as the routing decision says |
| Gatekeeper.Gatekeeper.SimulateBoidGpuAck | FPGA-Implementation/gatekeeper.c:355-360 | the time step advances and an ACK in the BoidGPU's name goes to the BoidMaster's channel |
| Gatekeeper.Gatekeeper.MonitorDrawnBoids | FPGA-Implementation/gatekeeper.c:333-342 | a draw command adds its boids to the 32-bit count, and only a count equal to the boid count resets it and sends the BoidGPU's ACK |
| Gatekeeper.Gatekeeper.RespondToPing | FPGA-Implementation/gatekeeper.c:926-939 | a ping reply counting both resident BoidCPUs goes to the BoidMaster, and the discovered count grows by two |
| Gatekeeper.Gatekeeper.InterceptSetupInfo | FPGA-Implementation/gatekeeper.c:953-1003 | the channel being set up records the new id, the neighbour ids are merged, the command goes down that channel as a broadcast, and setup completes after the second channel |
| Gatekeeper.Gatekeeper.InterceptMessage | FPGA-Implementation/gatekeeper.c:881-911 | a ping is answered, a setup command for this gatekeeper is taken in and not forwarded, a ping reply is counted and passed on |
| Gatekeeper.Gatekeeper.ProcessReceivedInternalMessage | FPGA-Implementation/gatekeeper.c:374-429 | the drawn boids are counted first, and the BoidGPU's ACK is sent once all are drawn. ACKs are counted and one collective ACK goes out per two. Before setup, every other command is first intercepted: a ping is answered, a setup command for this Gatekeeper is taken in and not forwarded, a ping reply is counted and relayed. Then commands for the BoidGPU stop here and everything else is relayed, so a ping reply is relayed twice |
| Gatekeeper.Gatekeeper.ProcessReceivedExternalMessage | FPGA-Implementation/gatekeeper.c:443-499 | the drawn boids are counted first, and the BoidGPU's ACK is sent once all are drawn. Before setup the command then only goes through interception: a ping is answered, a setup command for this Gatekeeper is taken in, a ping reply is counted and relayed, and anything else is dropped. After setup it is relayed exactly when it is relevant. ACKs are not counted |
| Gatekeeper.Gatekeeper.ForwardIfRelevant | FPGA-Implementation/gatekeeper.c:475-495 | a relevant command is sent on as it arrived, and an irrelevant one changes nothing |
| ProtoBoidCpu.Wrap12Shift | Prototype/boidCPU.h:101 | storing into an int12 register forgets multiples of 4096 |
| ProtoBoidCpu.DivPart | Prototype/boidCPU.cpp:804-811 | a component divided by a positive divisor never grows in magnitude, and is zero exactly when its magnitude is below the divisor |
| ProtoBoidCpu.PlusMinus | Prototype/boidCPU.cpp:813-822 | subtracting a vector after adding it gives the original back, even when the int12 sum wrapped |
| ProtoBoidCpu.ScaledStep | Prototype/boidCPU.cpp:798-803 | multiplying by n + 1 gives the same int12 vector as multiplying by n and adding the vector once more, however often the products wrapped |
| ProtoBoidCpu.DivPartTruncates | Prototype/boidCPU.cpp:804-811 | a component's quotient is C's truncating division: the remainder is smaller than the divisor and has the dividend's sign |
| ProtoBoidCpu.CappedBounds | Prototype/boidCPU.cpp:866-871 | bounding caps each component at n from above only, leaves components at or below n alone, and is idempotent |
| ProtoBoidCpu.Vector.constructor | Prototype/boidCPU.cpp:779-783 | the new vector holds the three given components |
| ProtoBoidCpu.Vector.Add | Prototype/boidCPU.cpp:786-791 | the vector becomes its old value plus v, each component wrapped to int12 |
| ProtoBoidCpu.Vector.Sub | Prototype/boidCPU.cpp:792-797 | the vector becomes its old value minus v, each component wrapped to int12 |
| ProtoBoidCpu.Vector.Mul | Prototype/boidCPU.cpp:798-803 | the vector becomes its old value scaled by the 8-bit factor, wrapped to int12 |
| ProtoBoidCpu.Vector.Div | Prototype/boidCPU.cpp:804-811 | a zero divisor leaves the vector unchanged; otherwise each component is divided, truncating toward zero |
| ProtoBoidCpu.Vector.Bound | Prototype/boidCPU.cpp:866-871 | each component above n becomes n and the others are kept |
| ProtoBoidCpu.Vector.Empty | Prototype/boidCPU.cpp:873-881 | true exactly when all three components are zero |
| ProtoBoidCpu.WrapCoordinate | Prototype/boidCPU.cpp:727-739 | a coordinate past the far edge re-enters at 0, one below 0 re-enters at the far edge, one inside is kept, and the result lies within the area |
| ProtoBoidCpu.ContainedInArea | Prototype/boidCPU.cpp:727-739 | a contained position lies inside the 720 by 720 area with z untouched, an inside position is unchanged, and containing is idempotent |
| ProtoBoidCpu.SearchedBearing | Prototype/boidCPU.cpp:384-436 | the bearing examined is the first one, in the order NW, NE, SE, SW, N, E, S, W, with a nonzero neighbour; there is none exactly when every neighbour is 0 |
| ProtoBoidCpu.ChosenIsLastLeaver | Prototype/boidCPU.cpp:384-436 | a recipient is named exactly when some boid lies beyond the searched bearing; it is that bearing's neighbour and the boid is the last such boid, otherwise the default boid and 0 remain |
| ProtoBoidCpu.ShiftLfsr | Prototype/boidCPU.cpp:581-594 | when it returns, the register equals the mask after the least number of shifts that reach it; otherwise no shift within the fuel reaches the mask. A zero register never returns for a nonzero mask |
| ProtoBoidCpu.RandomValue | Prototype/boidCPU.cpp:574-579 | the value lies between min and max whenever min <= max |
| ProtoBoidCpu.RandomIsFixed | Prototype/boidCPU.cpp:574-579 | the exclusive-or of the two registers is always 46092, so the id drawn from 1 to 100 is always 93 |
| ProtoBoidCpu.BoidCpu.constructor | Prototype/boidCPU.cpp:69-85 | zeroed globals, default boids, no neighbours, and the LFSR seeds 0xF429 and 0x51D1 |
| ProtoBoidCpu.BoidCpu.GetRandom | Prototype/boidCPU.cpp:574-579 | when all shifts end, the result is the seed-independent value in the range and both registers hold their masks |
| ProtoBoidCpu.BoidCpu.Initialisation | Prototype/boidCPU.cpp:199-206 | the temporary id is the value drawn from 1 to 100 and the FPGA id is 123 |
| ProtoBoidCpu.BoidCpu.GenerateOutput | Prototype/boidCPU.cpp:458-471 | the output buffer starts with the command header and the first len data words, the rest of the buffer is unchanged, and output is flagged |
| ProtoBoidCpu.BoidCpu.Identify | Prototype/boidCPU.cpp:212-219 | the output is the ping reply carrying the BoidCPU id and the FPGA id |
| ProtoBoidCpu.BoidCpu.Contain | Prototype/boidCPU.cpp:727-739 | only the i-th boid changes, and only its position, which is wrapped into the area |
| ProtoBoidCpu.BoidCpu.MoveBoids | Prototype/boidCPU.cpp:384-436 | the result is the boid and recipient chosen by the search over the live boids; nothing changes |
| ProtoGatekeeper.Truncated | Prototype/gatekeeper.c:110-112 | each word goes out as its low byte, and the length is kept |
| ProtoGatekeeper.ChannelsFor | Prototype/gatekeeper.c:141-150 | channel 0 or 1 alone, and both for any other channel number |
| ProtoGatekeeper.Forwarded | Prototype/gatekeeper.c:218-233 | the forwarded command is four words longer than the received one; it carries the received header fields and body, followed by the four words read past the body |
| ProtoGatekeeper.ChannelOf | Prototype/gatekeeper.c:323-332 | the channel is the first resident whose id matches, and all channels exactly when no resident matches |
| ProtoGatekeeper.LookupDelivers | Prototype/gatekeeper.c:323-332 | a resident is reached on its own channel alone; an unknown recipient goes down both channels |
| ProtoGatekeeper.SetupTestNeverPasses | Prototype/gatekeeper.c:175-176 | with Gatekeeper id 0, the test as written rejects every command, while the intended test accepts a setup command addressed to the Gatekeeper |
| ProtoGatekeeper.Gatekeeper.constructor | Prototype/gatekeeper.c:23-30 | id 0, no resident set up, no neighbour listed, no ACK counted, not finalised |
| ProtoGatekeeper.Gatekeeper.ArrivalCheckPassed | Prototype/gatekeeper.c:288-301 | passes exactly for the controller or a listed neighbour id at or above the first BoidCPU id |
| ProtoGatekeeper.Gatekeeper.ChannelLookup | Prototype/gatekeeper.c:323-332 | the result agrees with ChannelOf on the resident table |
| ProtoGatekeeper.Gatekeeper.SendExternalMessage | Prototype/gatekeeper.c:93-117 | one byte-truncated frame is appended to what went out over Ethernet, and nothing else changes |
| ProtoGatekeeper.Gatekeeper.SendInternalMessage | Prototype/gatekeeper.c:123-151 | the command is delivered down channel 0, channel 1, or both, and nothing else changes |
| ProtoGatekeeper.Gatekeeper.ReplyToPing | Prototype/gatekeeper.c:168-173 | a ping reply carrying the resident count goes to the controller |
| ProtoGatekeeper.Gatekeeper.InterceptSetup | Prototype/gatekeeper.c:177-216 | the setup command goes as a broadcast down the next resident's channel; that resident's new id is recorded; its neighbours are merged without duplicates; the ids become final once both residents are set up |
| ProtoGatekeeper.Gatekeeper.ForwardArrival | Prototype/gatekeeper.c:218-233 | a command that passes the arrival check goes down its recipient's channel, or down both; any other command is dropped |
| ProtoGatekeeper.Gatekeeper.ProcessExternalMessageAsWritten | Prototype/gatekeeper.c:166-234 | the assignment overwrites the recipient byte; with id 0 nothing is set up, the ids never become final and nothing is forwarded internally |
| ProtoGatekeeper.Gatekeeper.ProcessExternalMessage | Prototype/gatekeeper.c:166-234 | before setup completes, a ping is answered. A setup command addressed to the Gatekeeper is broadcast down the channel of the next resident, that resident's id is recorded, its neighbours are merged in, and the ids become final after the second. Anything else is dropped. Afterwards a command from the controller or from a resident's neighbour goes down its recipient's channel, or both; anything else is dropped. The tables stay fixed |
| ProtoGatekeeper.Gatekeeper.ProcessInternalMessage | Prototype/gatekeeper.c:240-278 | one ACK goes to the controller for every two ACKs counted; a multicast goes both internally and over Ethernet; a command for the controller or the BoidGPU goes over Ethernet; anything else is dropped |

## Left out

Python simulation (Python-Simulation/):
- Flocking, the Tk canvas, matplotlib graphs, `time.clock` timing and logging are not modelled. The flocking update is the parameter `move` of `Grids.Grid.Update`, and the initial random positions are parameters.
- Iteration over Python sets in the boundary evaluation is taken to follow insertion order. The program does not fix the order.
- The 1.1 overload factor is evaluated exactly over reals, not in floating point.
- Topology.LocationNeighbours: returns None for an id outside 1..9. Simulation/simulation.py:243-272 hands back the list it stored last instead, which the program never relies on because it asks only for ids 1..9.
- Planner.BoidsToRelease: evaluated exactly over reals and returned as an integer. Python-Simulation/simulation.py:93-94 applies `np.floor` to a floating-point product and yields a float, so floating-point rounding of the product and the float result type are not modelled.
- The per-BoidCPU lists of the affected-BoidCPU computation are built by appending. The program appends to dictionary entries, so this is the same order.
- `old_boid_counts`, the debug output and the violation counters of `calc_step` (Python-Simulation/simulation.py:273-277) are not modelled.
- Grids.Grid.EvaluateBoundaryChange: the type-3 change is modelled only when every neighbour list has its full length of eight.
- An empty requested change (`if not requested_change`) is modelled as `None` of an Option rather than as an empty list.
- A BoidCPU id of 0 reads the last partition, as Python's index -1 does.
- Grids.Grid.Update: uses the snapshot scan of `Grids.Grid.TransferStep`, not the live-list scan (see Findings). The live-list scan is kept as `Grids.Grid.TransferStepLive`.

FPGA master (FPGA-Implementation/boidMaster.cpp):
- The output buffer of 15 commands is unbounded. The program has no guard against overflowing it.
- The LOAD_BALANCING build is not modelled: the ack list, the minimal-BoidCPU flags (391-403), `updateMinimalBoidCPUsList` and the load-balancing branch of `processAck`. `ProcessLoadData` and `IssueLoadChange` model only the edge-word encoding.
- FpgaMaster.BoidMaster.ProcessPingReply: requires room in the 32-entry BoidCPU table. The program writes past it.
- FpgaMaster.BoidMaster.ProcessUserData: requires at least one BoidCPU, because the share division needs one.
- FpgaMaster.BoidMaster.SetupSimulation: requires at least one BoidCPU, for the same reason.
- The stream loops, the end of the ping phase on a timer and `printCommand` are not modelled.

FPGA BoidCPU (FPGA-Implementation/boidCPU.cpp):
- The boid update of `calcNextBoidPositions` is a parameter of the model. The boid placement of `simulationSetup` (289-321) is the parameter `initial`.
- FpgaBoidCpu.BoidCpu.CalculateEscapedBoids: requires the escape list to fit in the boid count, which sizes the program's array.
- FpgaBoidCpu.BoidCpu.PackBoidsForSending: requires `boidCount + 9 < 256`, which keeps the 8-bit indices from wrapping.
- FpgaBoidCpu.BoidCpu.SendAllBoids: requires `boidCount + 9 < 256`, which keeps the 8-bit indices from wrapping.

FPGA gatekeeper (FPGA-Implementation/gatekeeper.c):
- The interrupt-fed ring buffer of received frames (`extInputProcessPtr`) is not modelled. Each received frame is a parameter.
- Words put on the stream channels are modelled as whole-command deliveries.
- UART input, `takeUserInput`, `uiBoidCPUSearch`, `sendKillCommand`, `registerWithSwitch`, `setupEthernet`, printing and `decodeAndPrintBoids` are not modelled.
- Gatekeeper.Gatekeeper.ProcessReceivedExternalMessage: takes the frame's words already decoded, and requires well-formed commands.
- `drawnBoidsCount` is held as a 32-bit image. The time step is unbounded.
- An internal ping reply is forwarded twice, as written. This is kept in the model and not treated as a finding.

Prototype (Prototype/):
- ProtoBoidCpu.ShiftLfsr: takes fuel, because the program loops until the register equals the mask, which a zero register never does.
- ProtoBoidCpu.BoidCpu.GetRandom: takes fuel, for the same reason.
- ProtoBoidCpu.BoidCpu.Initialisation: takes fuel, for the same reason.
- These parts of Prototype/boidCPU.cpp are not modelled:
  - `simulationSetup`, `findNeighbours` and `calcNextBoidPositions`;
  - the Boid flocking members;
  - `mag`, `setMag`, `normalise`, `limit` and `distanceBetween`, which take square roots in floating point;
  - `acceptBoid`;
  - the `topleveltwo` dispatch;
  - the stubs `loadBalance`, `updateDisplay`, `transmit` and `receive`.
- A Boid's Vectors are held by value. `Vector::equal` is equality of the `Vec` value.
- The Vector class declared in Prototype/boidCPU.h:119-131 has two 16-bit fixed-point components. The definitions in Prototype/boidCPU.cpp:773-881 use three int12 components. The model follows the definitions.
- Prototype/vector.h and Prototype/vector.cpp are an older 8-bit Vector and are not part of this model.
- The gatekeeper's receive buffer is indexed by command word, as the program indexes it. A received command must be 4 to 30 words long.
- The two channel writes of a broadcast are modelled as two deliveries, not interleaved words.
- The main loop, `getFSLData`, the EmacLite driver and `rand()` are not modelled.
- The BoidCPU's boid count is kept within 0 to 30.
- Prototype/location.cpp, Prototype/boid.cpp, Prototype/main.c, Prototype/toplevel.cpp, the test benches and Prototype/boidMaster.cpp are not part of this model. They are either not compiled into the design or repeat code modelled elsewhere. The headers contribute only constants.

## Findings

| source | as written | input that shows it | evidently intended | confidence | as-written member | corrected member |
|---|---|---|---|---|---|---|
| Python-Simulation/simulation.py:306-307 | the loop walks `boidcpu.boids`, while `transfer_boid` (Python-Simulation/boidCPU.py:248) rewrites that same list in place, so the boid after each transferred one is never examined | partition 1 holds boids A and B, both past its west bound, and every neighbour is partition 2: only A is sent | every boid that has left the partition is sent, as it would be by a scan of a copy of the list | not executed | Transfers.LiveRunSkipsBoid (with Transfers.LiveRun and Grids.Grid.TransferStepLive) | Transfers.SnapshotSendsBoth (with Transfers.SnapshotRun and Grids.Grid.TransferStep) |
| FPGA-Implementation/boidCPU.cpp:603-629, 779-792 | `calculateEscapedBoids` lists a boid once for every bearing whose test it passes. `transmitBoids` then sends it once per listing and decrements the boid count once per listing. A second removal of an id that is no longer present still drops the last boid | boids [EX_CORNER, EX_INSIDE] with EX_CORNER past the north and the east bound: EX_CORNER is sent to two neighbours and both boids are gone | each leaving boid goes to one neighbour, and only leaving boids are removed | not executed | FpgaBoidCpu.EscapesDuplicateBoid (with FpgaBoidCpu.BoidCpu.CalculateEscapedBoids) | FpgaBoidCpu.RoutesRemoveExactly and FpgaBoidCpu.RoutesCornerOnce (with FpgaBoidCpu.BoidCpu.RouteEscapedBoids) |
| FPGA-Implementation/boidCPU.cpp:645-667 | `isBoidBeyond` applies the north-and-west test to all four diagonal bearings | EX_CORNER, past the north and the east bound, is never found beyond the north-east edge | each diagonal tests its own two sides, as the transfer rule of the Python partitions does | not executed | FpgaBoidCpu.SideTestsAgree and FpgaBoidCpu.CornerBearings | FpgaBoidCpu.Route and FpgaBoidCpu.RoutesCornerOnce |
| FPGA-Implementation/boidCPU.cpp:949-957 | the number of messages is ceil(3n/29), but each message carries at most 9 boids | n = 19 boids: 2 messages carry 18 boids, and the 19th is never sent | enough messages to carry every boid, that is ceil(n/9) | not executed | FpgaBoidCpu.PackedLosesBoid (with FpgaBoidCpu.BoidCpu.PackBoidsForSending) | FpgaBoidCpu.PackedAllRoundTrip (with FpgaBoidCpu.BoidCpu.SendAllBoids) |
| Prototype/gatekeeper.c:175-176 | `recv_buffer[CMD_TO] = gatekeeperID` assigns instead of comparing. With the Gatekeeper's id 0 the test is always false, so no setup command is taken in and nothing from outside is ever forwarded | the setup command [19, 0, 1, 5, ...] addressed to Gatekeeper 0 is dropped | a setup command addressed to the Gatekeeper is intercepted | not executed | ProtoGatekeeper.SetupTestNeverPasses (with ProtoGatekeeper.Gatekeeper.ProcessExternalMessageAsWritten) | ProtoGatekeeper.Gatekeeper.ProcessExternalMessage (with ProtoGatekeeper.Gatekeeper.InterceptSetup) |
