# UnityBoids in Dafny

A model of the flocking core of UnityBoids. Boids fly in a box-shaped volume. Each
fixed update, every boid finds its neighbours and is steered by the classic rules:

- separation pushes it away from neighbours that come too close;
- alignment turns it towards their heading;
- cohesion pulls it towards their mean position;
- avoidance pushes it off obstacles.

The boid then turns, has its speed clamped and moves. A boid that leaves the volume
re-enters through the opposite face.

There are two managers:

- `BoidManager` tests every pair of boids on the CPU. It also lays a grid of cells over
  the volume.
- `ComputeBoidManager` gets the pair test from a compute shader as a flat buffer of 0/1
  flags. It unpacks that buffer into neighbour lists.

Modules, one per part of the program:

| module | file | what it holds |
|---|---|---|
| `Vectors` | vectors.dfy | `Vector3` over reals: sums, products, length, `normalized` |
| `Boundary` | boundary.dfy | the bounds of the volume and the toroidal wrap (`GetWrappedPosition`) |
| `Obstacles` | obstacles.dfy | `CylindricalObstacle` and `PlaneObstacle`: the collision tests and the plane's `OnValidate` geometry |
| `Steering` | steering.dfy | the four rules as functions of the neighbours' positions and velocities |
| `Agents` | agent.dfy | the `ComputeBoid` class and its `UpdatePosition` step |
| `NeighbourSearch` | search.dfy | the pairwise search as a value: which pairs it links, and the lists it leaves |
| `Flocking` | flocking.dfy | the rule methods both managers share, over the array of boids |
| `Pairs` | pairs.dfy | the layout of the shader's pair buffer and `GetRunningTotal` |
| `GpuManager` | gpu_manager.dfy | `ComputeBoidManager`: unpacking the buffer, `CalculateRules`, `FixedUpdate` |
| `Cells` | cell.dfy | the `Cell` class |
| `CellGrid` | grid.dfy | the grid `GenerateCells` builds, as a value |
| `CpuManager` | cpu_manager.dfy | `BoidManager`: the radius search, `GenerateCells`, `FixedUpdate` |
| `Scenarios` | scenarios.dfy | concrete inputs that show what the general lemmas mean |

The stateful parts are imperative, as they are in the C#:

- each boid is a `ComputeBoid` object;
- each manager holds an `array<ComputeBoid>` and updates the boids in place, one after
  another;
- a boid steered later in a pass therefore sees the neighbours already moved earlier in
  the same pass (no snapshot is taken).

Each manager method is proved against a function of the flock before the call (`Search`,
`Pass`, `Tick`). The lemmas state what those functions promise.

Both managers drive their boids through `ComputeBoid`. `BoidManager` declares its array as
`Boid`, but `Boid.cs` has none of the members the manager calls (`AddNeighbour`,
`SetBoidVelocity`, `UpdatePosition`). The `ComputeBoid` members are exactly those calls.

`ComputeBoid.UpdatePosition` reads its speed limits, time step, wrap switch and bounds
from `ComputeBoidManager.Instance`. The model passes them in as a `Motion` value, and uses
the same value for boids driven by `BoidManager`.

The neighbour lists hold indices into the manager's array, not references. The array
holds each boid once for the whole run, so an index names exactly one boid.

## Model

| member | source | states |
|---|---|---|
| `Boundary.FromCollider` | Assets/Scripts/BoidManager.cs:59-60 | the bounds span exactly the collider's size and are centred on its world centre |
| `Boundary.WrapAxis` | Assets/Scripts/BoidManager.cs:393-435 | a coordinate inside the range is kept; one below re-enters at the top by the amount it overshot; one above re-enters at the bottom; the result is always shifted by zero or by one whole extent; within one extent of the range it lands inside |
| `Boundary.WrapInsideUnchanged` | Assets/Scripts/BoidManager.cs:393-435 | wrapping leaves a position already inside the volume unchanged |
| `Boundary.WrapLandsInside` | Assets/Scripts/BoidManager.cs:393-435 | a position less than one extent outside the volume is wrapped inside, and wrapping again changes nothing |
| `Boundary.GetWrappedPosition` | Assets/Scripts/ComputeBoidManager.cs:325-370 | the per-axis if/else chain of the method computes the wrap of the position |
| `Boundary.GetWrappedPositionIfEnabled` | Assets/Scripts/ComputeBoid.cs:35-36 | with wrapping off the position is kept; with it on, it is wrapped |
| `Obstacles.CylinderCollision` | Assets/Scripts/CylindricalObstacle.cs:11-48 | hit exactly when the point is within the radius in the XZ plane and within half the height vertically; a miss gives no force; near the top or bottom cap (beyond 95% of the half height) the force is straight up or down; otherwise it is the horizontal offset from the axis |
| `Obstacles.PlaneCollision` | Assets/Scripts/PlaneObstacle.cs:45-58 | the force is always the raw normal; hit exactly when the point lies on or behind the plane measured along the normalised normal |
| `Obstacles.FlatCylinderNeverHit` | Assets/Scripts/CylindricalObstacle.cs:20-21 | a cylinder of zero or negative height never collides and gives no force |
| `Obstacles.CylinderPushesOutward` | Assets/Scripts/CylindricalObstacle.cs:24-41 | the force never points back towards the cylinder's centre; any vertical force is straight up or down; a point on the axis inside the middle band is a hit with a zero force |
| `Obstacles.PlaneSideTest` | Assets/Scripts/PlaneObstacle.cs:47-57 | for a non-zero normal, normalising does not change the side test: hit exactly when the point lies on or behind the plane along the raw normal |
| `Obstacles.ZeroNormalAlwaysHits` | Assets/Scripts/PlaneObstacle.cs:47-57 | a plane with a zero normal reports a hit everywhere, with zero force |
| `Obstacles.PlaneIgnoresSize` | Assets/Scripts/PlaneObstacle.cs:45-58 | the collision test does not depend on the plane's width or length: the plane is infinite |
| `Obstacles.PlaneAxesOrthogonal` | Assets/Scripts/PlaneObstacle.cs:25-26 | the forward axis is perpendicular to both the normal and the right axis |
| `Obstacles.PlaneCornersSymmetric` | Assets/Scripts/PlaneObstacle.cs:28-42 | opposite corners are symmetric about the origin |
| `Obstacles.PlaneCornerSpans` | Assets/Scripts/PlaneObstacle.cs:28-42 | the top edge spans the width along the right axis, and the left edge spans the length along the forward axis |
| `Obstacles.PlaneObstacle.constructor` | Assets/Scripts/PlaneObstacle.cs:9-18 | a new plane faces up with a 1 x 1 size and no derived geometry yet |
| `Obstacles.PlaneObstacle.OnValidate` | Assets/Scripts/PlaneObstacle.cs:20-43 | the inspector fields are untouched, and the axes and the four corners become the frame derived from the origin, normal and size |
| `Steering.SeparationTermWeight` | Assets/Scripts/BoidManager.cs:240-266 | one neighbour's separation term is the offset away from it scaled by a weight: positive exactly when it is nearer than the separation distance, zero otherwise |
| `Steering.SeparationPushesAway` | Assets/Scripts/BoidManager.cs:240-266 | the separation force is a combination of the offsets away from the neighbours, with a positive weight for each neighbour inside the separation distance and a zero weight for every other |
| `Steering.AlignmentUsesLastOnly` | Assets/Scripts/BoidManager.cs:269-284 | the alignment force depends only on the number of neighbours and the last one's heading: the normalised last velocity divided by the count |
| `Steering.HeadingSumRemove` | Assets/Scripts/BoidManager.cs:277-280 | the heading sum of the corrected rule is the sum without any one neighbour, plus that neighbour's heading |
| `Steering.MeanHeadingPermutation` | Assets/Scripts/BoidManager.cs:269-284 | the corrected mean heading does not depend on the order of the neighbour list |
| `Steering.AlignmentOfPair` | Assets/Scripts/BoidManager.cs:269-284 | with two neighbours, the second moving at unit speed, the force is half that neighbour's velocity, whatever the first is doing |
| `Steering.PositionSumTranslate` | Assets/Scripts/BoidManager.cs:287-304 | moving every neighbour by the same offset moves the position sum by that offset times the count |
| `Steering.CohesionTranslationInvariant` | Assets/Scripts/BoidManager.cs:287-304 | moving the boid and all its neighbours by the same offset leaves the cohesion force unchanged |
| `Steering.CohesionTowardsCommonPoint` | Assets/Scripts/BoidManager.cs:287-304 | when every neighbour stands at the same point, cohesion points from the boid straight to it (through the helper `Steering.AllZeroSum`: positions that are all zero sum to zero) |
| `Steering.Translate` | Assets/Scripts/BoidManager.cs:287-304 | translating keeps the count and moves each position by the offset |
| `Steering.Colliding` | Assets/Scripts/BoidManager.cs:313-321 | an obstacle is kept if and only if it is an obstacle of the scene that the probe point hits |
| `Steering.AvoidanceSumOfColliding` | Assets/Scripts/BoidManager.cs:307-325 | the avoidance loop's sum is the sum of the forces of exactly the obstacles hit |
| `Steering.NothingCollidesNoAvoidance` | Assets/Scripts/BoidManager.cs:307-325 | when no obstacle is hit at the probe point, the avoidance force is zero |
| `Steering.NoneCollidingEmpty` | Assets/Scripts/BoidManager.cs:313-321 | when no obstacle is hit, none is kept |
| `Steering.AvoidanceUnitOrZero` | Assets/Scripts/BoidManager.cs:323-324 | the avoidance force is zero or of unit length |
| `Steering.SeparationSumStep` | Assets/Scripts/ComputeBoidManager.cs:206-222 | the separation sum over one more neighbour adds exactly that neighbour's term |
| `Steering.OverwrittenHeadingStep` | Assets/Scripts/ComputeBoidManager.cs:208 | after each neighbour, the heading accumulator holds that neighbour's heading alone |
| `Steering.PositionSumStep` | Assets/Scripts/ComputeBoidManager.cs:209 | the position sum over one more neighbour adds exactly its position |
| `Steering.AvoidanceSumStep` | Assets/Scripts/BoidManager.cs:313-321 | the avoidance sum over one more obstacle adds its force exactly when it is hit |
| `Agents.Clamp` | Assets/Scripts/ComputeBoid.cs:29-30 | the result lies between the limits, equals the value when the value is in range, is the lower limit when the value is below it, and is the upper limit when the value is above it |
| `Agents.IntegrateSpeedBounded` | Assets/Scripts/ComputeBoid.cs:17-37 | after a step the boid faces the turned axis, keeps its neighbour list, and its speed lies between the minimum and maximum speed: a too-fast boid moves at the maximum, a too-slow one at the minimum, any other keeps its speed |
| `Agents.StoppedBoidRestarts` | Assets/Scripts/ComputeBoid.cs:19-20 | a boid at rest with a unit forward axis sets off at unit speed clamped to the limits |
| `Agents.IntegrateStaysInside` | Assets/Scripts/ComputeBoid.cs:32-36 | with wrapping on, a boid inside the volume stays inside when one step at top speed is shorter than the volume along every axis |
| `Agents.ComputeBoid.constructor` | Assets/Scripts/ComputeBoid.cs:7-8 | a new boid is at rest with no neighbours |
| `Agents.ComputeBoid.UpdatePosition` | Assets/Scripts/ComputeBoid.cs:17-37 | the new state is the step `Integrate` describes, whose speed and containment are the lemmas above |
| `Agents.ComputeBoid.GetBoidVelocity` | Assets/Scripts/ComputeBoid.cs:39-42 | returns the current velocity |
| `Agents.ComputeBoid.SetBoidVelocity` | Assets/Scripts/ComputeBoid.cs:44-47 | only the velocity changes |
| `Agents.ComputeBoid.AddNeighbour` | Assets/Scripts/ComputeBoid.cs:49-52 | the neighbour is appended, duplicates allowed; nothing else changes |
| `Agents.ComputeBoid.ClearNeighbours` | Assets/Scripts/ComputeBoid.cs:54-57 | only the list changes, and it becomes empty |
| `Agents.ComputeBoid.GetNeighbourCount` | Assets/Scripts/ComputeBoid.cs:59-62 | returns the length of the list |
| `Agents.ComputeBoid.IterateNeighbours` | Assets/Scripts/ComputeBoid.cs:64-70 | yields exactly the list, in insertion order |
| `Agents.SetThenGetVelocity` | Assets/Scripts/ComputeBoid.cs:39-47 | reading back a velocity just set gives that velocity, and the list is untouched |
| `Agents.AddThenCount` | Assets/Scripts/ComputeBoid.cs:49-70 | adding a neighbour raises the count by one, keeps the earlier entries in order, and puts the new one last |
| `Agents.ClearThenCount` | Assets/Scripts/ComputeBoid.cs:54-62 | clearing twice is clearing once, and the count is then zero |
| `NeighbourSearch.FoundSpec` | Assets/Scripts/BoidManager.cs:220-237 | the boids a search finds for `k` are exactly its linked partners below the bound: each once, in ascending order, never `k` itself |
| `NeighbourSearch.SearchStart` | Assets/Scripts/BoidManager.cs:222-223 | before the first pair nothing has been appended |
| `NeighbourSearch.RowDone` | Assets/Scripts/BoidManager.cs:222-236 | the end of row `i` is the start of row `i + 1` |
| `NeighbourSearch.SearchEnd` | Assets/Scripts/BoidManager.cs:222-236 | after the last row each list holds the full search |
| `NeighbourSearch.FoundStable` | Assets/Scripts/BoidManager.cs:220-237 | raising the bound over boids not linked with `k` finds nothing more |
| `NeighbourSearch.NothingLeft` | Assets/Scripts/ComputeBoidManager.cs:174-187 | a search cut short at a pair is already complete when no later pair is linked |
| `NeighbourSearch.PairStepRow` | Assets/Scripts/BoidManager.cs:230-233 | a linked pair `(i, j)` appends `j` to boid `i`'s list |
| `NeighbourSearch.PairStepColumn` | Assets/Scripts/BoidManager.cs:230-233 | a linked pair `(i, j)` appends `i` to boid `j`'s list |
| `NeighbourSearch.PairStepOther` | Assets/Scripts/BoidManager.cs:230-233 | a pair leaves every other boid's list alone |
| `NeighbourSearch.SearchRelation` | Assets/Scripts/BoidManager.cs:220-237 | from empty lists, `j` is in `i`'s list exactly when they differ and the pair is linked; the relation is symmetric; no list holds its own boid or a repeat |
| `NeighbourSearch.SearchIndicesIn` | Assets/Scripts/BoidManager.cs:220-237 | the search keeps the flock's size and every neighbour index inside the flock |
| `NeighbourSearch.SearchedFlockStart` | Assets/Scripts/BoidManager.cs:222-223 | before the first pair the whole flock is untouched |
| `NeighbourSearch.SearchedFlockRow` | Assets/Scripts/BoidManager.cs:222-236 | the flock at the end of row `i` is the flock at the start of row `i + 1` |
| `NeighbourSearch.SearchedFlockEnd` | Assets/Scripts/BoidManager.cs:222-236 | after the last row the flock is the full search |
| `NeighbourSearch.SearchedFlockStop` | Assets/Scripts/ComputeBoidManager.cs:174-187 | a stopped search with no linked pair left is the full search |
| `NeighbourSearch.SearchedFlockPair` | Assets/Scripts/BoidManager.cs:228-234 | handling one pair moves the search one pair on: both lists grow when it is linked, nothing changes when it is not |
| `NeighbourSearch.SearchedFlock` | Assets/Scripts/BoidManager.cs:220-237 | the search part way through keeps the flock's size |
| `Flocking.DisabledRuleIgnored` | Assets/Scripts/BoidManager.cs:84-123 | a switched-off rule does not affect the steering sum, whatever it would compute |
| `Flocking.AllRulesOff` | Assets/Scripts/BoidManager.cs:84-123 | with every rule off the steering sum is zero |
| `Flocking.FlockOfPointwise` | Assets/Scripts/BoidManager.cs:77-154 | the array's flock equals any flock that agrees with every boid |
| `Flocking.LinkPair` | Assets/Scripts/BoidManager.cs:230-233 | the array's flock becomes the one-pair step of the search: both lists grow exactly when the pair is linked |
| `Flocking.SearchPair` | Assets/Scripts/BoidManager.cs:228-234 | one pair of the loop moves the array from the search at `(i, j)` to the search at `(i, j + 1)` |
| `Flocking.CalculateSeparation` | Assets/Scripts/BoidManager.cs:240-266 | the loop computes the separation rule of the boid's neighbours (see `Steering.SeparationPushesAway`) |
| `Flocking.CalculateAlignment` | Assets/Scripts/BoidManager.cs:269-284 | the loop computes the alignment rule, overwriting the heading each time (see `Steering.AlignmentUsesLastOnly`) |
| `Flocking.CalculateCohesion` | Assets/Scripts/BoidManager.cs:287-304 | the loop computes the cohesion rule of the neighbours' positions |
| `Flocking.CalculateAvoidance` | Assets/Scripts/BoidManager.cs:307-325 | the force is the avoidance rule at the probe point ahead of the boid (see `Steering.AvoidanceSumOfColliding`) |
| `Flocking.SumPushes` | Assets/Scripts/BoidManager.cs:313-321 | the loop over the obstacles sums the forces of those hit |
| `Flocking.CalculateRules` | Assets/Scripts/ComputeBoidManager.cs:190-228 | without neighbours the three `ref` forces are left as they came in; otherwise the one fused pass yields exactly the separate separation, alignment and cohesion rules |
| `Flocking.AccumulateRules` | Assets/Scripts/ComputeBoidManager.cs:206-222 | the fused loop yields the separation sum, the last neighbour's heading and the position sum |
| `Flocking.AbsorbNeighbour` | Assets/Scripts/ComputeBoidManager.cs:207-221 | one neighbour adds its separation term and its position, and replaces the heading |
| `Pairs.RowStartClosed` | Assets/Scripts/ComputeBoidManager.cs:174-187 | the rows before row `i` hold `i (2n - i - 1) / 2` slots |
| `Pairs.PairCountClosed` | Assets/Scripts/ComputeBoidManager.cs:174-187 | `n` boids make `n (n - 1) / 2` pairs |
| `Pairs.PairIndexInRange` | Assets/Scripts/ComputeBoidManager.cs:174-187 | every pair's slot lies below the number of pairs |
| `Pairs.RowStartMonotone` | Assets/Scripts/ComputeBoidManager.cs:174-187 | later rows start later, by at least the rows in between |
| `Pairs.PairIndexOrdered` | Assets/Scripts/ComputeBoidManager.cs:174-187 | slot order is the loops' row order |
| `Pairs.PairIndexInjective` | Assets/Scripts/ComputeBoidManager.cs:174-187 | distinct pairs have distinct slots |
| `Pairs.RunningTotalEven` | Assets/Scripts/ComputeBoidManager.cs:372-375 | for an even number of boids the buffer has one slot per pair |
| `Pairs.RunningTotalOdd` | Assets/Scripts/ComputeBoidManager.cs:372-375 | for an odd number of boids the buffer falls `(n + 1) / 2` slots short |
| `Pairs.RunningTotalNegative` | Assets/Scripts/ComputeBoidManager.cs:372-375 | the buffer size is negative exactly for a single boid |
| `Pairs.RunningTotalCoversPairs` | Assets/Scripts/ComputeBoidManager.cs:372-375 | the buffer covers every pair exactly when the number of boids is even |
| `Pairs.PairBufferSizeExact` | Assets/Scripts/ComputeBoidManager.cs:156 | the corrected size gives every pair a slot, for every number of boids |
| `GpuManager.BufferLinksFull` | Assets/Scripts/ComputeBoidManager.cs:179-183 | with a slot for every pair, a pair is linked exactly when its slot holds 1 |
| `GpuManager.CorrectedBufferLinks` | Assets/Scripts/ComputeBoidManager.cs:156-187 | with the corrected buffer size, every pair is read, and linked exactly when its slot holds 1 |
| `GpuManager.PassClears` | Assets/Scripts/ComputeBoidManager.cs:75-133 | a pass keeps the flock's size, leaves earlier boids alone and empties the list of every boid it steers |
| `GpuManager.TickClearsLists` | Assets/Scripts/ComputeBoidManager.cs:67-134 | with updates on and an even number of boids, every list is empty after the update |
| `GpuManager.TickOnlySearches` | Assets/Scripts/ComputeBoidManager.cs:67-134 | with an odd number of boids or updates off, the update only adds neighbours: no boid moves, turns or changes velocity, and old list entries stay |
| `GpuManager.ZeroSumDropsVelocity` | Assets/Scripts/ComputeBoidManager.cs:130-131 | a zero steering sum replaces the velocity, so the boid restarts along its forward axis |
| `GpuManager.LonelyBoidSteersZero` | Assets/Scripts/ComputeBoidManager.cs:84 | a boid without neighbours gets a zero steering sum |
| `GpuManager.ShortRowEndsSearch` | Assets/Scripts/ComputeBoidManager.cs:174-187 | when the slot index runs off the buffer, the number of boids is odd and the lists already hold the full search |
| `GpuManager.PassStep` | Assets/Scripts/ComputeBoidManager.cs:75-133 | a pass that goes through can steer its current boid, and continues from the flock with that boid updated |
| `GpuManager.StopsShort` | Assets/Scripts/ComputeBoidManager.cs:174-187 | past the end of the buffer no pair is linked, and only odd flocks have such pairs |
| `GpuManager.ComputeBoidManager.constructor` | Assets/Scripts/ComputeBoidManager.cs:56-65 | the manager holds the given boids and settings |
| `GpuManager.ComputeBoidManager.PerformNeighbourSearch` | Assets/Scripts/ComputeBoidManager.cs:136-188 | completes exactly when the number of boids is even; either way the lists become the search the buffer describes |
| `GpuManager.ComputeBoidManager.UnpackRow` | Assets/Scripts/ComputeBoidManager.cs:176-186 | one row of the unpacking either ends at the next row's first slot, or runs off the buffer (odd flocks only) with the search already complete |
| `GpuManager.ComputeBoidManager.FixedUpdate` | Assets/Scripts/ComputeBoidManager.cs:67-134 | the flock becomes `Tick`: the search, then, for an even flock with updates on, every boid steered in place in order |
| `GpuManager.ComputeBoidManager.SteerAll` | Assets/Scripts/ComputeBoidManager.cs:75-133 | the loop leaves the flock `Pass` computes from the searched flock |
| `GpuManager.ComputeBoidManager.SteerEach` | Assets/Scripts/ComputeBoidManager.cs:75-133 | the loop over the boids in array order ends at the flock the whole pass computes |
| `GpuManager.ComputeBoidManager.SteerNext` | Assets/Scripts/ComputeBoidManager.cs:75-133 | one iteration keeps the pass on course for the same final flock |
| `GpuManager.ComputeBoidManager.UpdateBoid` | Assets/Scripts/ComputeBoidManager.cs:77-133 | one boid takes the steering sum as its velocity, moves and clears its list; the others are untouched |
| `GpuManager.ComputeBoidManager.MoveBoid` | Assets/Scripts/ComputeBoidManager.cs:130-132 | the velocity is replaced by the sum whatever it is, then the boid moves and its list is cleared; the others are untouched |
| `GpuManager.ComputeBoidManager.SteeringVelocity` | Assets/Scripts/ComputeBoidManager.cs:82-128 | the weighted sum of the enabled rules from `CalculateRules`; a boid without neighbours gets zero, whatever the weights (through the helper `GpuManager.AllZeroRules`) |
| `Cells.CentreIsMidpoint` | Assets/Scripts/Cell.cs:15-23 | the stored centre is the midpoint of the two corners |
| `Cells.Cell.constructor` | Assets/Scripts/Cell.cs:15-23 | a cell stores its box, the box's centre and far corner, and an empty list |
| `Cells.Cell.Clear` | Assets/Scripts/Cell.cs:32-35 | the list becomes empty and the geometry is untouched |
| `CellGrid.Truncate` | Assets/Scripts/BoidManager.cs:346 | the `(int)` cast of a non-negative count is its whole part |
| `CellGrid.Row` | Assets/Scripts/BoidManager.cs:369-375 | the innermost loop makes `nz` cells |
| `CellGrid.LayerSize` | Assets/Scripts/BoidManager.cs:366-377 | the middle loop makes `ny * nz` cells |
| `CellGrid.LayerAt` | Assets/Scripts/BoidManager.cs:366-377 | cell `(x, y, z)` sits at slot `y * nz + z` of its layer |
| `CellGrid.GridSize` | Assets/Scripts/BoidManager.cs:363-379 | the outer loop makes `nx * ny * nz` cells |
| `CellGrid.AllCellsSize` | Assets/Scripts/BoidManager.cs:346-347 | the cells exactly fill the array of `(int)x * (int)y * (int)z` slots |
| `CellGrid.GridAt` | Assets/Scripts/BoidManager.cs:362-379 | cell `(x, y, z)` lands at slot `x * ny * nz + y * nz + z` of the array: row-major order |
| `CellGrid.GridPrefixAt` | Assets/Scripts/BoidManager.cs:363-379 | later layers only append: cells already placed keep their slots |
| `CellGrid.SlotInGrid` | Assets/Scripts/BoidManager.cs:371 | every slot the loops write lies inside the array |
| `CellGrid.CellsTile` | Assets/Scripts/BoidManager.cs:371-378 | along each axis, each cell starts where the one before it ends |
| `CellGrid.GridReachesMaxX` | Assets/Scripts/BoidManager.cs:350-363 | along x the last cell ends at the volume's maximum when the count is whole, and never beyond it otherwise |
| `CpuManager.SqrDistanceSymmetric` | Assets/Scripts/BoidManager.cs:229 | the squared distance between two boids does not depend on their order |
| `CpuManager.NearNeighbours` | Assets/Scripts/BoidManager.cs:220-237 | from empty lists, `j` becomes a neighbour of `i` exactly when they are different boids no further apart than the radius; the relation is symmetric; no list holds its own boid or a repeat |
| `CpuManager.PassStep` | Assets/Scripts/BoidManager.cs:77-154 | a pass that goes through can steer its current boid, and continues from the flock with that boid updated |
| `CpuManager.SteeredBoidOf` | Assets/Scripts/BoidManager.cs:147-153 | a boid's turn is the step taken from its state with the velocity replaced exactly when the steering sum is non-zero |
| `CpuManager.PassClears` | Assets/Scripts/BoidManager.cs:77-154 | a pass keeps the flock's size, leaves earlier boids alone and empties the list of every boid it steers |
| `CpuManager.TickClearsLists` | Assets/Scripts/BoidManager.cs:66-155 | with updates on every list is empty after the update; with updates off the flock is unchanged |
| `CpuManager.ZeroSumKeepsVelocity` | Assets/Scripts/BoidManager.cs:147-150 | a zero steering sum keeps the old velocity: the boid moves on as before |
| `CpuManager.EmptySceneAvoidanceVanishes` | Assets/Scripts/BoidManager.cs:126-140 | skipping avoidance in an empty scene loses nothing: the term would be zero |
| `CpuManager.ApplyTurn` | Assets/Scripts/BoidManager.cs:147-153 | a non-zero sum becomes the velocity, then the boid moves and its list is cleared |
| `CpuManager.SetVelocityIfMoving` | Assets/Scripts/BoidManager.cs:147-150 | the velocity is replaced exactly when the sum is non-zero |
| `CpuManager.BoidManager.constructor` | Assets/Scripts/BoidManager.cs:6-54 | the manager holds the given boids, settings and cell counts, and no cells yet |
| `CpuManager.BoidManager.GenerateCells` | Assets/Scripts/BoidManager.cs:344-380 | a fresh array of exactly `(int)x * (int)y * (int)z` cells, each holding the box of the grid at its row-major slot |
| `CpuManager.BoidManager.FillLayer` | Assets/Scripts/BoidManager.cs:366-377 | the middle loop writes one layer's cells into consecutive slots |
| `CpuManager.BoidManager.FillRow` | Assets/Scripts/BoidManager.cs:369-375 | the innermost loop writes one row's cells into consecutive slots |
| `CpuManager.BoidManager.FixedUpdate` | Assets/Scripts/BoidManager.cs:66-155 | the flock becomes `Tick`: nothing when updates are off, else the radius search, then every boid steered in place in order |
| `CpuManager.BoidManager.PerformNeighbourSearch` | Assets/Scripts/BoidManager.cs:220-237 | the lists become the search with the squared-radius test |
| `CpuManager.BoidManager.SearchRow` | Assets/Scripts/BoidManager.cs:225-235 | one row moves the search from the start of row `i` to the start of row `i + 1` |
| `CpuManager.BoidManager.SteerAll` | Assets/Scripts/BoidManager.cs:77-154 | the loop leaves the flock `Pass` computes from the searched flock |
| `CpuManager.BoidManager.SteerEach` | Assets/Scripts/BoidManager.cs:77-154 | the loop over the boids in array order ends at the flock the whole pass computes |
| `CpuManager.BoidManager.SteerNext` | Assets/Scripts/BoidManager.cs:77-154 | one iteration keeps the pass on course for the same final flock |
| `CpuManager.BoidManager.UpdateBoid` | Assets/Scripts/BoidManager.cs:79-153 | one boid takes its turn and the others are untouched |
| `CpuManager.BoidManager.MoveBoid` | Assets/Scripts/BoidManager.cs:147-153 | the velocity is replaced only by a non-zero sum, then the boid moves and its list is cleared |
| `CpuManager.BoidManager.SteeringVelocity` | Assets/Scripts/BoidManager.cs:81-145 | the enabled rules, plus weighted avoidance when there are obstacles and avoidance is on |
| `CpuManager.BoidManager.RulesVelocity` | Assets/Scripts/BoidManager.cs:84-123 | the three neighbour rules, each weighted and only when switched on |
| `CpuManager.BoidManager.AddSeparation` | Assets/Scripts/BoidManager.cs:84-95 | with separation on, the sum grows by the separation rule times its factor; with it off, the sum is unchanged |
| `CpuManager.BoidManager.AddAlignment` | Assets/Scripts/BoidManager.cs:98-109 | with alignment on, the sum grows by the alignment rule times its factor; with it off, the sum is unchanged |
| `CpuManager.BoidManager.AddCohesion` | Assets/Scripts/BoidManager.cs:112-123 | with cohesion on, the sum grows by the cohesion rule times its factor; with it off, the sum is unchanged |
| `Scenarios.WrapExample` | Assets/Scripts/BoidManager.cs:393-435 | in a ten-unit cube, leaving through one face re-enters through the opposite one |
| `Scenarios.PlaneRightAxisSkewed` | Assets/Scripts/PlaneObstacle.cs:25 | for the normal (1, 1, 0) the right axis is not perpendicular to the normal |
| `Scenarios.PlaneForwardDegenerate` | Assets/Scripts/PlaneObstacle.cs:25-26 | for a normal along (1, 1, 1) the forward axis is zero, so the corners collapse onto a segment |
| `Scenarios.AlignmentDependsOnOrder` | Assets/Scripts/BoidManager.cs:277-280 | swapping two neighbours with different headings changes the alignment force |
| `Scenarios.ThreeBoidsBuffer` | Assets/Scripts/ComputeBoidManager.cs:372-375 | three boids get one slot for three pairs; one boid gets a size of -1 |

## Left out

- The rotation step of `UpdatePosition` (`Quaternion.LookRotation` and `RotateTowards`) is not modelled. The forward axis it produces is an input (`turned`), given per boid.
- The compute shader `FindNeighbour` is not part of this model. Its output buffer is an input `seq<int>`. Uploading the boid data, dispatching and releasing the buffers are I/O.
- Floating point: `Vector3` is over exact reals. The square root is a parameter, and lemmas that need it assume that it is one. Unity's `normalized` returns zero below a length of 1e-5; the model returns zero only for the zero vector.
- Agents.ComputeBoid.UpdatePosition: the zero-velocity test uses exact equality, whereas Unity's `Vector3 ==` treats vectors whose squared difference is below 1e-10 as equal. A velocity such as (1e-6, 0, 0) is replaced by the forward axis in the source but kept, and then clamped, in the model (`Agents.Integrate` likewise).
- `Steering.SeparationSum`: dividing by a zero squared distance (a neighbour at the same position) gives NaN components in C# (the difference is the zero vector, which `Normalize` leaves zero, so each component is 0/0), not an exception. Reals cannot express that, so the `Steerable` predicates of both managers exclude it. A flock where two neighbours coincide inside the separation distance has no modelled update.
- `Pairs.GetRunningTotal`: 32-bit wrap-around is not modelled; it matters only beyond about 65,000 boids.
- A negative buffer size (one boid) throws when the arrays are created, not while unpacking. The model treats it like the other short buffers: the update ends after an empty search, which for one boid has no pairs anyway.
- `GpuManager.ComputeBoidManager.PerformNeighbourSearch`: the thrown `IndexOutOfRangeException` is modelled as the result `completed == false`, which ends `FixedUpdate`.
- `SortBoidsIntoCells` returns at its first line (BoidManager.cs:159), so it has no effect and is not modelled. The rest of its body is dead code.
- `GenerateBoids` (random placement), `Awake`/`Start` wiring and the `Instance` singleton are not modelled; the flock and the settings are inputs.
- Debug drawing (`Draw`, `OnDrawGizmos`, the debug rays) has no effect on the simulation and is not modelled.
- `Boid.cs` is not part of this model; both managers drive `ComputeBoid` (see above).
- `CpuManager.BoidManager.GenerateCells`: cell counts that are zero, negative or not numbers are excluded (`ValidCounts`), because C# then throws or builds an empty array. The method also does not state that each new cell's list is empty; `Cells.Cell.constructor` states that.
- The managers assume that `m_numBoids` equals the array length, as `GenerateBoids` makes it.
- Each `FixedUpdate` is one call; the sequence of calls over time is not modelled.

## Findings

| source | as written | input that shows it | evidently intended | confidence | as-written member | corrected member |
|---|---|---|---|---|---|---|
| Assets/Scripts/ComputeBoidManager.cs:372-375 | the buffer size is `(n / 2) * (1 + n) - n` in integer arithmetic, which is `n (n - 1) / 2` only for even `n` | 3 boids: 1 slot for 3 pairs, so the unpacking reads past the buffer and the update ends before any boid moves | `n (n - 1) / 2`, one slot per pair | not executed | `Pairs.RunningTotalOdd`, `GpuManager.TickOnlySearches`, `Scenarios.ThreeBoidsBuffer` | `Pairs.PairBufferSizeExact`, `GpuManager.CorrectedBufferLinks` |
| Assets/Scripts/BoidManager.cs:277-280, Assets/Scripts/ComputeBoidManager.cs:208 | the heading accumulator is assigned, not added to, so alignment uses only the last neighbour's heading, divided by the count | neighbours heading (1, 0, 0) then (0, 1, 0) give (0, 0.5, 0); in the other order (0.5, 0, 0) | the mean of the neighbours' headings, independent of list order | not executed | `Steering.AlignmentUsesLastOnly`, `Scenarios.AlignmentDependsOnOrder` | `Steering.MeanHeadingPermutation` |

Where the comments and the code disagree, or where the two managers differ, the model
follows the code:

- The comment at BoidManager.cs:268 calls alignment the average heading of the flockmates; the code overwrites the accumulator (the second finding).
- Both managers update the boids in place, in array order, with no snapshot of the flock, so a later boid sees the earlier boids already moved. `Pass` in both managers models that order.
- With a zero steering sum, `BoidManager` keeps the boid's velocity, because it sets the velocity only when the sum is non-zero (`CpuManager.ZeroSumKeepsVelocity`). `ComputeBoidManager` sets the zero sum as the velocity, so the boid restarts along its forward axis (`GpuManager.ZeroSumDropsVelocity`).
- `ComputeBoidManager` runs the neighbour search before checking `m_updatePosition`, while `BoidManager` checks first; the lists of a paused GPU flock therefore keep growing (`GpuManager.TickOnlySearches`).
