# hpxML in Dafny

A verification project beside the hpxML repository: the example programs that
drive HPX's adaptive parallel loops, the Clang tool that extracts loop features,
and two pieces of the runtime, modelled in Dafny and proved correct for all
inputs, all schedules and all sizes. `dafny verify dfyconfig.toml` checks it.

Doubles are mathematical reals. HPX primitives are explicit small-step state,
with the assumed semantics written at the head of the module that uses them:

- a future is set once, and a task may run when its inputs are set (`Dataflow`);
- a sliding semaphore's `wait(t)` returns only when `t - nd` is at most the lower
  limit, initially 0 (`Dataflow`);
- a channel keeps one row per tag, `set` is fire and forget, `get` completes when
  the row has arrived (`HaloProtocol`);
- a barrier counts arrivals and starts a new generation (`BootBarrier`).

## What is proved

**1D heat solvers.** `HeatSerial` is the specification: the time loop on a ring,
with the heat equation it follows exactly, conservation of heat and the maximum
principle. `HeatPartitioned` shows that
cutting the ring into partitions commutes with a step. `Dataflow` is the futurised
time loop as a transition system over any task: every order of firing ready tasks
keeps the invariant, cannot get stuck, ends, and returns the same layer, although
only two layers of future slots exist; the sliding window bounds how far the main
thread runs ahead. `HeatFutures`, `HeatProxy` and `HeatRepart` instantiate it with
local partitions, with one-element proxies on several localities, and with a
partitioning that changes between runs.

**2D stencil.** `HaloGrid` holds the phases of a step and the lockstep solution,
`HaloProtocol` the workers and channels, `HaloRuns` and `HaloSkew` the theorems
over all schedules: every worker follows the lockstep solution, rows are sent and
received once each and at most two are unread, the system never gets stuck and
ends, and exactly how far ranks can drift apart. `HaloGlue` shows that the stripes
of all ranks are one grid, and `StencilGrid` says cell by cell what that grid is,
down to every number a worker writes out. `StencilRows`, `StencilKernel` and
`StencilWorker` are the program's own rows, cursors, loops on flat arrays and
double buffer, proved to do what the row-wise phases say; `StencilRun` drives the
arrays of all workers through the exchange. `Communicator` pairs the channels by
name and shows that the exchange talks by these names.

**Octree.** `OctreeGeometry` is the numbering of boxes and the partition of space
by each level; `OctreeBuild` builds the heap of cubes; `OctreeLevels` states what
a built tree promises about bodies, masses, centres and links.

**Hydrodynamics.** `Tube` is any scheme on a row of cells with fixed ends, `Upwind`
the flux update: conservation over whole runs, positivity, and the memoising
`compute`. `UpwindLaws` states the update in physical terms: the Euler fluxes in
numbers, the state equation, fluid at rest, a moving contact and the shock tube.

**Loop features.** `TripCount` is the trip-count simulator in fixed-width
arithmetic, `LoopFeatures` the traversal with 32-bit counters, `LoopFeatureLaws`
what the counters mean.

**Matrix kernel, exception list, boot.** `BlockedMatrix`, `ExceptionList` and
`BootBarrier`.

`Sums`, `Blocks`, `Division`, `SignalPoints`, `FiniteSets` and `Options` are shared
groundwork.

## Where the code and its promises differ

The model follows the code; each difference has a lemma that says exactly when
the promise holds.

- The repartitioning solver groups its coefficient as `k*dt/dx*dx`, which is
  `k*dt`: it is the operator of the other solvers exactly if `k*dt` is 0 or
  `dx*dx` is 1 (`HeatRepart.RepartOperatorAgrees`).
- Stencil ranks are not kept within their distance of each other: a rank sends its
  first row upwards before it has finished its own step, so the rank above may
  complete two steps more. Within the distance exactly for one rank or at most one
  step (`HaloSkew.DriftExact`); the true bound, which some run reaches, is
  `HaloSkew.SkewExact`.
- A stencil worker's comment says that nothing is sent in the last step; the code
  always sends, and the rows of the last tag are never read (`HaloRuns.LastRowUnread`).
- A stencil worker always writes out its first buffer, which is one step old after
  an odd number of steps: all stripes write out their result exactly if the number
  of steps is even (`StencilRows.EvenStepsExactly`); one given grid also if its
  last step changes nothing (`HaloRuns.OutputExact`).
- A row iterator's distance is divided as an unsigned number, so it undoes an
  advance except a backward one over rows of more than one cell
  (`StencilKernel.DistanceUndoesAdvance`).
- `locidx` names an existing locality for every partition exactly if the number of
  localities divides the number of partitions (`HeatProxy.PlacementValid`).
- The octree's level bound `8^level+9` is right at levels 1 and 2 only
  (`OctreeBuild.LevelEndExact`); a fourth level is cut short
  (`OctreeLevels.FourthLevelCut`), and a fifth reads past the end of the list, so
  trees are built exactly for up to four levels (`OctreeBuild.CreateOctree`).
- The octree's centre of mass divides the plain sum of locations by the mass. That
  is a centre of mass wherever the bodies are exactly if all masses are 1
  (`OctreeLevels.CentreOfCube`, `OctreeLevels.CentreExactly`).
- The trip counter's exit tests for `>` and `>=` are not those of the loop. The
  count is the loop's own exactly if the comparison is not `>`, and with `>=` the
  bound is not hit (`TripCount.CountFaithful`); for `>=` with `-= n` that is known
  from the header (`TripCount.GreaterEqFaithful`).
- Loop levels are not lowered again after a loop: the reported level is the nesting
  depth exactly if every loop, counted with those before it, fits into that depth
  (`LoopFeatureLaws.DeepestIsDepth`).
- The 32-bit operation counters wrap around, so floating-point operations can
  outnumber operations (`LoopFeatureLaws.BoundedExactly`).
- Two threads that both find the exception list empty leave a base code that is
  not that of the front (`ExceptionList.TwoAdders`). In all runs they agree exactly
  if the list did not start empty or all codes are the same
  (`ExceptionList.AgreeExactly`).

## Model

| member | source | states |
|---|---|---|
| `HeatSerial.DoWork` | hpxml/examples/1d_stencil/1d_stencil_1.cpp:47-74 | the double-buffered time loop returns nt ring steps from the ramp f(0,i)=i, which is still i at every point that the seam has not reached |
| `HeatSerial.StepInto` | hpxml/examples/1d_stencil/1d_stencil_1.cpp:61-69 | the three-part loop body writes exactly one ring step, both ends included |
| `HeatSerial.SerialRunCompose` | hpxml/examples/1d_stencil/1d_stencil_1.cpp:58-70 | s steps and then t steps are s+t steps |
| `HeatSerial.FollowsHeatEquation` | hpxml/examples/1d_stencil/1d_stencil_1.cpp:41-74 | values that bend evenly with second derivative w rise by k*w per unit of time, exactly as in the heat equation, at every point the seam has not reached |
| `HeatSerial.QuadraticBends` | hpxml/examples/1d_stencil/1d_stencil_1.cpp:41-44 | the values of a*i*i + b*i + d bend evenly, with second derivative 2*a |
| `HeatSerial.HeatIsConserved` | hpxml/examples/1d_stencil/1d_stencil_1.cpp:41-74 | the total of all points never changes, for every coefficient, ring and number of steps |
| `HeatSerial.RunWithin` | hpxml/examples/1d_stencil/1d_stencil_1.cpp:41-74 | for a coefficient in [0, 1/2] every value of every step stays within any bounds of the initial values |
| `HeatSerial.MaximumPrinciple` | hpxml/examples/1d_stencil/1d_stencil_1.cpp:41-74 | all runs keep all initial bounds if and only if the coefficient lies in [0, 1/2] |
| `HeatPartitioned.PartStepIsSerialStep` | hpxml/examples/1d_stencil/1d_stencil_3.cpp:97-111 | the partitioned operator on a partition and its cyclic neighbours gives that partition of the next serial state |
| `HeatPartitioned.InitialPart` | hpxml/examples/1d_stencil/1d_stencil_3.cpp:52-58 | the initialising constructor fills i*size plus the local index |
| `HeatPartitioned.InitialLayer` | hpxml/examples/1d_stencil/1d_stencil_3.cpp:122-124 | the initial partitions are the partitions of the ramp |
| `HeatPartitioned.FillPart` | hpxml/examples/1d_stencil/1d_stencil_3.cpp:100-110 | the loop fills the next state of a partition from the two points next to it |
| `HeatPartitioned.HeatPart` | hpxml/examples/1d_stencil/1d_stencil_3.cpp:97-111 | the partitioned operator, for partitions of at least two points |
| `HeatPartitioned.StepLayer` | hpxml/examples/1d_stencil/1d_stencil_3.cpp:129-134 | one pass over all partitions turns the cut of u into the cut of its next state |
| `HeatPartitioned.DoWork` | hpxml/examples/1d_stencil/1d_stencil_3.cpp:115-139 | the partitioned solver returns the cut of the serial solution on np*nx points |
| `Blocks.JoinSplit` | hpxml/examples/1d_stencil/1d_stencil_3.cpp:113-124 | gluing the partitions of a whole gives the whole back |
| `Dataflow.RunInv` | hpxml/examples/1d_stencil/1d_stencil_4.cpp:140-194 | in every state of every schedule, each launched future reads its three cyclic neighbours of the layer before, holds the value of its layer once set, and the two slot layers name the last two launches |
| `Dataflow.Progress` | hpxml/examples/1d_stencil/1d_stencil_4.cpp:161-194 | until all is done some step is enabled |
| `Dataflow.WaitReturns` | hpxml/examples/1d_stencil/1d_stencil_4.cpp:176-190 | with all tasks done and signals given the wait is enabled: the signal it needs was attached before it |
| `Dataflow.Termination` | hpxml/examples/1d_stencil/1d_stencil_4.cpp:161-194 | every schedule is finite, with a bound in np and nt |
| `Dataflow.CompleteResult` | hpxml/examples/1d_stencil/1d_stencil_4.cpp:164-194 | every completed run returns the same layer, that of nt steps, from two layers of slots |
| `Dataflow.Execute` | hpxml/examples/1d_stencil/1d_stencil_4.cpp:134-195 | driving the system by any scheduler ends and returns that layer |
| `Dataflow.Cone` | hpxml/examples/1d_stencil/1d_stencil_4.cpp:167-172 | a finished task stands on a cone of finished tasks, one partition wider per layer down |
| `Dataflow.SlidingWindow` | hpxml/examples/1d_stencil/1d_stencil_4.cpp:156-191 | once wait(t) has returned for t > nd, partition 0 is finished through one layer above the last multiple of nd before t, which is at least t-nd+1, and all partitions np/2 layers lower |
| `HeatFutures.StepSplit` | hpxml/examples/1d_stencil/1d_stencil_4.cpp:114-130 | a step of the partitioned operator on all partitions is a serial step on points |
| `HeatFutures.EveryScheduleAgrees` | hpxml/examples/1d_stencil/1d_stencil_4.cpp:114-195 | in every schedule each finished future holds its part of the serial solution |
| `HeatFutures.FuturisedRefinesSerial` | hpxml/examples/1d_stencil/1d_stencil_4.cpp:114-195 | every completed schedule, throttled or not, returns the serial solution on np*nx points |
| `HeatProxy.ProxyReads` | hpxml/examples/1d_stencil/1d_stencil_6.cpp:79-100 | a proxy can be read at its one boundary index and nowhere else, with the partition's own value |
| `HeatProxy.HeatPartData` | hpxml/examples/1d_stencil/1d_stencil_6.cpp:258-272 | the operator through the accessors of partial buffers |
| `HeatProxy.ProxyRefinement` | hpxml/examples/1d_stencil/1d_stencil_6.cpp:160-178 | proxies make every access safe and give what full neighbour partitions give |
| `HeatProxy.ActionsAreLocal` | hpxml/examples/1d_stencil/1d_stencil_6.cpp:328-348 | in every schedule each finished partition holds its part of the serial solution on the locality `locidx` names, which exists if nl divides np |
| `HeatProxy.DistributedRefinesSerial` | hpxml/examples/1d_stencil/1d_stencil_6.cpp:274-353 | where every partition has a locality, whole distributed runs end with the serial solution on its localities, in any order of remote tasks |
| `HeatProxy.PlacementValid` | hpxml/examples/1d_stencil/1d_stencil_6.cpp:45-48 | every partition gets an existing locality if and only if the number of localities divides the number of partitions |
| `HeatProxy.PlacementBlocks` | hpxml/examples/1d_stencil/1d_stencil_6.cpp:328-348 | then each locality owns one contiguous block of np/nl partitions |
| `HeatRepart.RepartOperatorAgrees` | hpxml/examples/1d_stencil/1d_stencil_4_repart.cpp:186-189 | this solver's operator is that of the others if and only if k*dt is 0 or dx*dx is 1 |
| `HeatRepart.FindDivisors` | hpxml/examples/1d_stencil/1d_stencil_4_repart.cpp:304-313 | the search loop collects the candidate partition counts |
| `HeatRepart.DivisorsDivide` | hpxml/examples/1d_stencil/1d_stencil_4_repart.cpp:304-325 | each candidate is at least the thread count and cuts nx points into equal non-empty partitions; there are at least two |
| `HeatRepart.DivisorsExact` | hpxml/examples/1d_stencil/1d_stencil_4_repart.cpp:308-313 | the candidates are exactly the divisors from the thread count to below the square root, and their cofactors |
| `HeatRepart.HeatPartAnySize` | hpxml/examples/1d_stencil/1d_stencil_4_repart.cpp:193-214 | the partitioned operator, also for partitions of one point |
| `HeatRepart.CopiedParts` | hpxml/examples/1d_stencil/1d_stencil_4_repart.cpp:243-256 | a later run starts from the cut of the gathered array |
| `HeatRepart.CopyIntoArray` | hpxml/examples/1d_stencil/1d_stencil_4_repart.cpp:150-155 | a partition is copied to its place and nothing else changes |
| `HeatRepart.Gather` | hpxml/examples/1d_stencil/1d_stencil_4_repart.cpp:373-381 | the gather loop glues the partitions |
| `HeatRepart.RunOnce` | hpxml/examples/1d_stencil/1d_stencil_4_repart.cpp:349-381 | one run advances the array by nt serial steps, under any schedule |
| `HeatRepart.RepartitionedRuns` | hpxml/examples/1d_stencil/1d_stencil_4_repart.cpp:304-381 | for any in-range choices of the partition count, nr runs are nr*nt serial steps from the ramp; without a candidate nothing is computed |
| `HaloGrid.NextBufferFramed` | examples/stencil/main.cpp:89-147 | a step leaves every never written cell at its initial value |
| `HaloGrid.AnyRowOrder` | examples/stencil/main.cpp:112-121 | the order of the parallel loop over interior rows does not matter |
| `HaloGrid.BottomCompletes` | examples/stencil/main.cpp:89-141 | the three phases together turn the older buffer into the next one, whatever it held in the written cells |
| `HaloProtocol.RunInv` | examples/stencil/main.cpp:44-147 | in every state of every schedule each worker is where the lockstep solution says, phase by phase, and each channel holds the rows sent and not yet received, with the right contents |
| `HaloProtocol.LockstepUnique` | examples/stencil/main.cpp:89-147 | the lockstep recurrence has one solution, the function Lockstep |
| `HaloGlue.StripesAreOneGrid` | examples/stencil/main.cpp:89-147 | the lockstep of the stripes is that of one grid: row y of stripe r is row r*(ny-1)+y, for all rows but the last of stripes that have a neighbour below |
| `HaloGlue.EveryRunIsOneGrid` | examples/stencil/main.cpp:44-161 | so every worker of every run holds its part of the one grid, as it is after the steps the worker has made |
| `HaloRuns.ScheduleIndependence` | examples/stencil/main.cpp:44-161 | whatever the interleaving, the current buffer after t steps is the lockstep buffer of t, both buffers keep the never written cells, and a finished worker's first buffer is that of the last even step |
| `HaloRuns.InFlight` | examples/stencil/communicator.hpp:65-78 | on every channel each tag is set once and got at most once, in order, and at most two rows are unread |
| `HaloRuns.LastRowUnread` | examples/stencil/main.cpp:105-109 | the row of the last tag is never received, and once all workers have finished it is the only one left, on every channel |
| `HaloRuns.SkewBound` | examples/stencil/main.cpp:89-147 | of two ranks the lower leads by at most twice their distance, the higher by at most the distance plus one |
| `HaloRuns.Progress` | examples/stencil/main.cpp:365-378 | an unfinished system always has an enabled step |
| `HaloRuns.Termination` | examples/stencil/main.cpp:89-147 | every schedule is finite, with a bound in the number of ranks and steps |
| `HaloSkew.LeadReached` | examples/stencil/main.cpp:93-141 | for any two ranks some run reaches a lead of twice the distance for the lower rank, of the distance plus one for the higher, or of all steps if these are fewer |
| `HaloSkew.SkewExact` | examples/stencil/main.cpp:89-147 | a number bounds the lead of one rank over another in all runs if and only if it is at least that |
| `HaloSkew.DriftExact` | examples/stencil/main.cpp:89-147 | all runs keep ranks within their distance if and only if there is one rank or at most one step |
| `StencilRows.StripesLawful` | examples/stencil/stencil.hpp:38-51 | the line update keeps the two ends, and what it writes does not depend on what was there |
| `StencilRows.BoundaryKept` | examples/stencil/stencil.hpp:12-36 | in every reachable state both buffers keep their shape and the initial value in columns 0 and Nx-1, row Ny-1, and row 0 of rank 0 |
| `StencilGrid.GridIsField` | examples/stencil/stencil.hpp:38-51 | the one grid cell by cell: ones on the boundary, zeros inside to start with, then a quarter of the four diagonal neighbours minus the cell itself |
| `StencilGrid.RunComputesField` | examples/stencil/main.cpp:44-161 | for any number of workers and any schedule, every worker's current rows are those of that field |
| `StencilGrid.OutputIsField` | examples/stencil/main.cpp:159-160 | every number that a finished worker writes out is the field's at its place, after the last even step |
| `HaloRuns.OutputExact` | examples/stencil/main.cpp:159-160 | all finished workers of all runs write out the result if and only if the number of steps is even or the last step changes nothing |
| `StencilRows.CentreChanges` | examples/stencil/stencil.hpp:43-47 | on a 3 by 3 stripe every step changes the inner cell |
| `StencilRows.EvenStepsExactly` | examples/stencil/main.cpp:159-160 | all stripes write out their result if and only if the number of steps is even |
| `StencilKernel.DistanceUndoesAdvance` | examples/stencil/row_iterator.hpp:89-98 | the distance to an advanced row iterator is the advance if and only if it was forward or rows have one cell |
| `StencilKernel.RowAt` | examples/stencil/row_iterator.hpp:32-42 | the iterator advanced to row y points at the rows around y; on the first row it points before the array |
| `StencilKernel.UpdateLine` | examples/stencil/stencil.hpp:38-51 | the loop through three cursors overwrites all but the ends of one line, in bounds, for lines of at least two cells |
| `StencilKernel.PutUp` | examples/stencil/main.cpp:93-110 | the first row is updated from the received row: the row-wise top phase |
| `StencilKernel.UpdateInterior` | examples/stencil/main.cpp:117-120 | the loop body updates one interior row |
| `StencilKernel.Interior` | examples/stencil/main.cpp:112-121 | the parallel loop in any order is the row-wise interior phase |
| `StencilKernel.PutDown` | examples/stencil/main.cpp:123-141 | the last but one row is updated from the received row: the row-wise bottom phase |
| `StencilWorker.NewBuffer` | examples/stencil/stencil.hpp:12-36 | allocation and `init` give ones on the outer boundary of all stripes and zeros inside |
| `StencilWorker.Step` | examples/stencil/main.cpp:89-141 | one pass of the step loop writes the next buffer of the lockstep recurrence and returns the rows to be sent |
| `StencilRun.Move` | examples/stencil/main.cpp:62-146 | one move of a worker on its arrays is the move of the protocol |
| `StencilRun.WorkStep` | examples/stencil/main.cpp:62-146 | so it is among all workers, with the rows received and sent, and no other worker's arrays are touched |
| `StencilRun.RunStripes` | examples/stencil/main.cpp:365-378 | all workers, of any number, driven through any schedule: their arrays are what the protocol says |
| `StencilRun.WrittenOut` | examples/stencil/main.cpp:159-160 | the array a finished worker writes out is the lockstep solution of the last even step |
| `Communicator.Endpoints.constructor` | examples/stencil/communicator.hpp:25-58 | the channel ends a rank sends and receives on, by registered name |
| `Communicator.Endpoints.HasNeighbor` | examples/stencil/communicator.hpp:60-63 | a rank sees a neighbour exactly on the sides where there is a rank |
| `Communicator.Pairing` | examples/stencil/communicator.hpp:32-57 | a rank receives on a channel if and only if the rank beside it sends back on it |
| `Communicator.TalksByName` | examples/stencil/communicator.hpp:65-77 | a move of the protocol takes a row from the channel the worker receives on by name, puts one on the channel it sends on by name, and leaves all others alone |
| `Communicator.TakesByName` | examples/stencil/communicator.hpp:72-77 | the row taken is the one the worker goes on with |
| `OctreeGeometry.OneOctant` | examples/nbody/octree.hpp:117-212 | the eight sub-cubes partition a half-open box |
| `OctreeGeometry.SideLaw` | examples/nbody/octree.hpp:120-208 | a cube of a level measures the same along each axis, half as much as on the level before |
| `OctreeGeometry.FirstCubes` | examples/nbody/octree.hpp:78-212 | the root and its eight sub-cubes in numbers |
| `OctreeGeometry.LinksTouch` | examples/nbody/octree.hpp:214-245 | two sub-cubes are linked on a side if and only if they share that face, and links lead back |
| `OctreeGeometry.LevelPartition` | examples/nbody/octree.hpp:117-212 | exactly one cube of each level holds a given point of the root |
| `OctreeGeometry.LevelKeepsWeight` | examples/nbody/octree.hpp:20-38 | any weight on bodies is shared out exactly by the boxes of each level |
| `OctreeBuild.ScatterInto` | examples/nbody/octree.hpp:20-45 | a sub-cube receives the bodies of its parent in its box, in order, with their mass, sum of locations and centre, and becomes their parent |
| `OctreeBuild.LinkCube` | examples/nbody/octree.hpp:17-18 | the sub-cube is appended to its parent's members and nothing else changes |
| `OctreeBuild.FillCube` | examples/nbody/octree.hpp:13-38 | one more cube is complete: bodies, mass, centre, links, and the bodies' parents |
| `OctreeBuild.DivideBodies` | examples/nbody/octree.hpp:11-47 | all eight sub-cubes of a cube are complete |
| `OctreeBuild.AddCube` | examples/nbody/octree.hpp:117-128 | a new sub-cube gets the number, level, box and parent of its place |
| `OctreeBuild.LinkSiblings` | examples/nbody/octree.hpp:214-245 | the eight new cubes get their neighbour links and nothing else changes |
| `OctreeBuild.DivideCube` | examples/nbody/octree.hpp:113-257 | eight cubes are made, appended and filled |
| `OctreeBuild.DivideLevel` | examples/nbody/octree.hpp:107-258 | the loop over parents makes and fills all cubes up to the bound if the level starts where the list ends; otherwise it would read past the end |
| `OctreeBuild.StartEnd` | examples/nbody/octree.hpp:50-68 | the start is the sum of the smaller powers of 8, the end 8^level+9, or 9 at level 1 |
| `OctreeBuild.LevelEndExact` | examples/nbody/octree.hpp:61-65 | the end is where the next level starts if and only if the level is 1 or 2 |
| `OctreeBuild.NewRoot` | examples/nbody/octree.hpp:73-100 | the root takes all bodies, their mass and sum of locations, has its centre by the mass unless that is 0, and is their parent |
| `OctreeBuild.CreateOctree` | examples/nbody/octree.hpp:71-260 | a tree is built if and only if there are at most four levels; then octree[k] has id k and its box, bodies, mass, centre and links, and each body's parent is the last cube that holds it |
| `OctreeLevels.LevelPartitionsBodies` | examples/nbody/octree.hpp:71-260 | each complete level lists each body as often as it was given, and only in the cube around it |
| `OctreeLevels.LevelMass` | examples/nbody/octree.hpp:31-32 | the masses of each complete level add up to the mass of all bodies |
| `OctreeLevels.ParentIsDeepest` | examples/nbody/octree.hpp:36-36 | in a tree of complete levels a body's parent is the cube of the last level around it |
| `OctreeLevels.CubesInNumbers` | examples/nbody/octree.hpp:78-212 | in a built tree cube 0 is [-500,500)^3 and a cube of level l measures 1000/2^l along each axis |
| `OctreeLevels.FourthLevelCut` | examples/nbody/octree.hpp:62-65 | with four levels a body reaches the last one if and only if its cube of the third level is not among the last eight |
| `OctreeLevels.LinksLeadAcross` | examples/nbody/octree.hpp:214-245 | in a built tree every link leads to a cube that shares that face, and back, and every sub-cube is linked on exactly one of two opposite sides |
| `OctreeLevels.CentreOfCube` | examples/nbody/octree.hpp:33-45 | along each axis a cube's centre is the centre of mass of its bodies if and only if plain and weighted sums agree |
| `OctreeLevels.CentreExactly` | examples/nbody/octree.hpp:33-45 | they agree wherever the bodies are if and only if all masses are 1 |
| `UpwindLaws.SodJump` | hpxml/examples/1d_hydro/1d_hydro_upwind.cpp:531-563 | the initial state is at rest with one jump at x = -0.1, from density 1 to 0.125, with ten times the energy and pressure on the left |
| `UpwindLaws.SodStarts` | hpxml/examples/1d_hydro/1d_hydro_upwind.cpp:405-456 | in the first step exactly the cells at the jump are set in motion, to the right, by dt/dx times half the pressure difference |
| `Upwind.Update` | hpxml/examples/1d_hydro/1d_hydro_upwind.cpp:396-480 | the update with its branches for both faces is the flux form, for every sign of the velocities |
| `Upwind.Inflow` | hpxml/examples/1d_hydro/1d_hydro_upwind.cpp:422-436 | the left-face branch adds what passes the face between the two cells |
| `Upwind.Outflow` | hpxml/examples/1d_hydro/1d_hydro_upwind.cpp:439-453 | the right-face branch takes away what passes the face between the two cells |
| `Upwind.FaceFromTheLeft` | hpxml/examples/1d_hydro/1d_hydro_upwind.cpp:422-453 | the right-face branch of a cell and the left-face branch of the next agree, also at rest |
| `Upwind.UpwindConserves` | hpxml/examples/1d_hydro/1d_hydro_upwind.cpp:405-456 | over whole runs, with any step sizes, interior density, momentum and energy change by what passes the two outermost faces, of the pressures only the outermost |
| `UpwindLaws.StepBalance` | hpxml/examples/1d_hydro/1d_hydro_upwind.cpp:422-456 | in every step the interior amounts of density, momentum and energy change by dt/dx times the Euler fluxes through the two outermost faces, written out, with half the sum of the two pressures pushing at each |
| `UpwindLaws.RestIsPushed` | hpxml/examples/1d_hydro/1d_hydro_upwind.cpp:455-456 | fluid at rest gets the momentum dt/dx times half the difference of the pressures, left minus right, and keeps density and energy |
| `UpwindLaws.ContactMoves` | hpxml/examples/1d_hydro/1d_hydro_upwind.cpp:422-456 | where speed, pressure and internal energy are the same on all sides, the fluid goes on at that speed with that internal energy |
| `UpwindLaws.EntropyIsCarried` | hpxml/examples/1d_hydro/1d_hydro_upwind.cpp:422-453 | where the entropy variable is the same multiple of the density on all sides, it stays so |
| `UpwindLaws.PressureIs` | hpxml/examples/1d_hydro/1d_hydro_upwind.cpp:512-529 | the pressure is gamma - 1 times the internal energy at any speed, if that energy is not small or is recorded |
| `UpwindLaws.EntropyMatters` | hpxml/examples/1d_hydro/1d_hydro_upwind.cpp:518-526 | the pressure depends on the entropy variable if and only if the internal energy is at most a thousandth of the total |
| `UpwindLaws.EntropyRecorded` | hpxml/examples/1d_hydro/1d_hydro_upwind.cpp:473-480 | the internal energy is recorded where it is more than a tenth of the total, elsewhere the record is carried along |
| `Upwind.StaysPositive` | hpxml/examples/1d_hydro/1d_hydro_upwind.cpp:422-453 | positive densities and less than total outflow give a positive density |
| `Upwind.OutflowExact` | hpxml/examples/1d_hydro/1d_hydro_upwind.cpp:422-453 | where fluid leaves by both faces the new density is positive if and only if less than the contents leaves |
| `Upwind.PositiveDensity` | hpxml/examples/1d_hydro/1d_hydro_upwind.cpp:346-456 | from the shock tube on, densities are positive in every cell as long as the outflow condition holds in every step before |
| `Upwind.StableRunsArePositive` | hpxml/examples/1d_hydro/1d_hydro_upwind.cpp:422-439 | such runs never divide by a zero density |
| `Upwind.Grid.Compute` | hpxml/examples/1d_hydro/1d_hydro_upwind.cpp:346-509 | computing on demand with a table gives the layer-by-layer solution and forgets nothing |
| `TripCount.CountIterations` | ClangTool/LoopConvert.cpp:165-194 | the simulation returns the number of iterations before the first exit, modulo 2^32 |
| `TripCount.TripsBound` | ClangTool/LoopConvert.cpp:165-194 | a loop that ends does so in fewer iterations than there are numbers of its width, so up to 32 bits the count has not wrapped |
| `TripCount.LessAdd` | ClangTool/LoopConvert.cpp:169-185 | `<` with `+= n` or `++`: the count is the quotient of the distance by n, rounded up, if and only if so many strides stay in the number range |
| `TripCount.LessEqAdd` | ClangTool/LoopConvert.cpp:171-185 | `<=` with `+= n` or `++`: the quotient plus one, if and only if so many strides stay in the number range |
| `TripCount.GreaterEqSub` | ClangTool/LoopConvert.cpp:175-187 | `>=` with `-= n` or `--`: the quotient rounded up, if and only if so many strides stay at or above 0 |
| `TripCount.NotEqPlusPlus` | ClangTool/LoopConvert.cpp:177-181 | `!=` with `++` always ends, after the distance modulo the number range |
| `TripCount.LessMul` | ClangTool/LoopConvert.cpp:169-189 | `<` with `*= n`: the least k with i0 * n^k at the bound |
| `TripCount.PowerReaches` | ClangTool/LoopConvert.cpp:169-189 | from a positive start and a factor of at least two there is such a k |
| `TripCount.CountFaithful` | ClangTool/LoopConvert.cpp:165-194 | the count of a loop that ends is the loop's own number of iterations if and only if the comparison is not `>`, and with `>=` the bound is not hit |
| `TripCount.GreaterEqFaithful` | ClangTool/LoopConvert.cpp:175-187 | `>=` with `-= n` or `--`, without wrapping: the count is right if and only if the loop starts below the bound or n does not divide the distance |
| `TripCount.OneShort` | ClangTool/LoopConvert.cpp:175-187 | where it is wrong, and the next stride does not wrap, it is one short |
| `TripCount.DownwardIsZero` | ClangTool/LoopConvert.cpp:173-174 | a loop `i > c` that starts above c is counted as none, and makes at least one iteration |
| `LoopFeatures.Statistics.AnalyzeBinaryOperator` | ClangTool/LoopConvert.cpp:78-92 | which counters a binary operator raises by the factor |
| `LoopFeatures.Statistics.AnalyzeUnaryOperator` | ClangTool/LoopConvert.cpp:94-98 | a unary operator raises the operations by the factor |
| `LoopFeatures.Statistics.AnalyzeDeclStatement` | ClangTool/LoopConvert.cpp:100-111 | a single declaration with a literal counts as a variable, once |
| `LoopFeatures.Statistics.AnalyzeForLoop` | ClangTool/LoopConvert.cpp:113-195 | a loop adds two operations and a comparison once, a call if its header is not literal, and returns its trip count |
| `LoopFeatures.Statistics.Visit` | ClangTool/LoopConvert.cpp:331-367 | what one statement adds to every counter, and the factor and level for what is below it |
| `LoopFeatures.Statistics.AnalyzeStatement` | ClangTool/LoopConvert.cpp:325-373 | the traversal raises every counter by what the tree counts, modulo 2^32, and the deepest level to the highest level met |
| `LoopFeatures.CountedIsRuns` | ClangTool/LoopConvert.cpp:325-373 | what the tree counts is each operator as often as it is executed, by the product of the trip counts around it, plus each loop's own share once |
| `LoopFeatures.CountedWraps` | ClangTool/LoopConvert.cpp:331-345 | 32-bit factors handed down the tree do not change any total modulo 2^32, also of the counters that look at the reduced factor |
| `LoopFeatureLaws.OperationsMean` | ClangTool/LoopConvert.cpp:78-116 | operations are the executed binary and unary operators and two per written loop; comparisons are the executed comparing operators and one per written loop |
| `LoopFeatureLaws.FloatsMean` | ClangTool/LoopConvert.cpp:86-88 | floating-point operations are the executed binary operators with a floating operand |
| `LoopFeatureLaws.BranchesMean` | ClangTool/LoopConvert.cpp:127-130 | conditionals and calls count as executed, and a loop with a variable in its header as one call |
| `LoopFeatureLaws.VariablesMean` | ClangTool/LoopConvert.cpp:100-111 | single declarations with a literal count once each |
| `LoopFeatureLaws.CountedBound` | ClangTool/LoopConvert.cpp:78-92 | floating-point operations and comparisons are at most the operations |
| `LoopFeatureLaws.BoundedExactly` | ClangTool/LoopConvert.cpp:78-116 | all trees of n operations keep the 32-bit counters so ordered if and only if n is below 2^32 or wraps to the largest value |
| `LoopFeatureLaws.InLoopIsLooped` | ClangTool/LoopConvert.cpp:356-367 | the counters of conditionals and calls in loops count what is executed inside a loop of more than one turn, as often as it is executed, while products of trip counts stay below 2^32 |
| `LoopFeatureLaws.DeepestLoopLevel` | ClangTool/LoopConvert.cpp:342-350 | the deepest level lies between the nesting depth and the number of loops |
| `LoopFeatureLaws.DeepestIsDepth` | ClangTool/LoopConvert.cpp:342-371 | the deepest level is the nesting depth if and only if every loop, counted with the loops met before it, fits into that depth |
| `LoopFeatureLaws.SideBySideIsDeep` | ClangTool/LoopConvert.cpp:346-371 | n loops side by side are reported as n levels |
| `BlockedMatrix.TileSums` | examples/matrix_mult/main.cpp:43-84 | the sixteen sums of a tile are entries of the plain product |
| `BlockedMatrix.Tile` | examples/matrix_mult/main.cpp:41-104 | a tile writes its sixteen entries of the product and no others |
| `BlockedMatrix.Body` | examples/matrix_mult/main.cpp:39-107 | the loop body for i writes rows i to i+3 of the product if 4 divides i, and nothing else |
| `BlockedMatrix.Multiply` | examples/matrix_mult/main.cpp:39-113 | in every order of the loop over i every entry ends as the plain sum over k, for every N divisible by 4 and any arithmetic |
| `BlockedMatrix.UnitRowPicks` | examples/matrix_mult/main.cpp:63-84 | a row with a one at place p picks entry p of the row of b, in any arithmetic with zero and one |
| `ExceptionList.RunInv` | hpxml/src/exception_list.cpp:131-146 | in every interleaving the lock has one holder, the list the calls that pushed, and the base code is that of the last call that set it |
| `ExceptionList.NothingLost` | hpxml/src/exception_list.cpp:131-146 | no add is lost or duplicated: with the lock free the list holds each completed call once |
| `ExceptionList.BaseIsListed` | hpxml/src/exception_list.cpp:131-146 | with the lock free and the list not empty the base code is that of some element |
| `ExceptionList.SingleAdder` | hpxml/src/exception_list.cpp:101-107 | if no two adds overlap, the base code is that of the front, as `get_error` says |
| `ExceptionList.AgreeExactly` | hpxml/src/exception_list.cpp:101-146 | in all runs base code and front agree if and only if the list did not start empty or all codes to be added are the same |
| `ExceptionList.TwoAdders` | hpxml/src/exception_list.cpp:136-144 | any two calls with different codes on an empty list have a run after which they do not agree |
| `ExceptionList.Progress` | hpxml/src/exception_list.cpp:131-146 | until all adds are done one can move |
| `ExceptionList.Termination` | hpxml/src/exception_list.cpp:131-146 | every add takes at most six moves |
| `ExceptionList.List.From` | hpxml/src/exception_list.cpp:64-67 | a list built from a list has the code of its front |
| `ExceptionList.List.Add` | hpxml/src/exception_list.cpp:131-146 | for one thread: appends, and sets the base code only on an empty list |
| `ExceptionList.List.GetError` | hpxml/src/exception_list.cpp:101-107 | the base code, unless the list is empty |
| `BootBarrier.RunInv` | hpxml/src/pre_main.cpp:153-190 | in every interleaving each locality has passed as many barriers as there were generations, or waits at the last one, free to leave |
| `BootBarrier.ActionsInOrder` | hpxml/src/pre_main.cpp:125-191 | of two actions with a barrier between them, none starts the later one before all have finished the earlier one |
| `BootBarrier.StagesClose` | hpxml/src/pre_main.cpp:157-190 | the stages of any two localities differ by at most one |
| `BootBarrier.SeparatedInOrder` | hpxml/src/pre_main.cpp:125-191 | where one action comes before another with a barrier between them, no locality begins the later before all have done the earlier |
| `BootBarrier.BootList` | hpxml/src/pre_main.cpp:125-191 | every action of the boot list occurs exactly once, and a barrier separates two of them if and only if they belong to different stages, in the order of the stages |
| `BootBarrier.StagesInOrder` | hpxml/src/pre_main.cpp:125-191 | no locality begins an action of a stage before all have done all of the stages before, and none leaves before all have done everything |
| `BootBarrier.BootOrder` | hpxml/hpx/runtime_impl.hpp:306-308 | system-wide, all pre-startup functions have run before any startup function |
| `BootBarrier.Progress` | hpxml/src/pre_main.cpp:157-190 | until all localities are through, one of them can move |
| `BootBarrier.Termination` | hpxml/src/pre_main.cpp:125-191 | every run ends, with a bound in the number of localities |

## Left out

- Rounding: doubles are reals throughout, so every equality of results is up to rounding.
- The 2D stencil against a grid of num*ny rows: the last row of a stripe with a neighbour below is never updated and not part of the one grid, which has num*(ny-1)+1 rows.
- `worker_chunk` and `worker_prefecth` of the 2D stencil: timing variants of the modelled worker.
- StencilRun.RunStripes: one step at a time, so the workers' threads do not overlap inside a step; no two workers share an array.
- HaloProtocol.RunInv: a worker's work between two communications is one step, since it touches only its own buffers.
- HeatRepart.RepartitionedRuns: the candidates are not sorted, because any in-range index may be chosen in every run anyway; the tuner itself, whose stated range includes one index past the end, is a parameter.
- HeatProxy.HeatPartData: the buffers are values, so that a proxy refers to the partition's storage instead of copying it is not captured.
- `1d_stencil_2`, `1d_stencil_5`, `1d_stencil_7`, `1d_stencil_8`, and the OpenMP, parallel and throttle copies: other forms of the same solver.
- OctreeBuild.CreateOctree: that the code reads past the end of the cube list is reported as failure; what it does after that is not modelled.
- OctreeBuild.NewRoot: for bodies without mass, where the code divides by zero, the root's centre is arbitrary.
- OctreeBuild.AddCube: the array of sub-cubes of a cube, which names the same eight cubes as its list of members, is not modelled.
- OctreeBuild.Body.constructor: location and mass are constants of a body, because building the tree does not change them.
- `find_parent`, the Barnes-Hut force and the movement of bodies: formulas over the built tree.
- Upwind.Grid.Compute: step sizes are given per time step, and the sliding window over the table, the CFL messages and the locking per cell are not modelled.
- Upwind.Update: for a zero density, where the code continues with infinities, there is no claim.
- Upwind.UpwindConserves: at a face between cells of total density 0 the model's velocity is 0 where the code divides by zero, so there the statement is not about the code; Upwind.PositiveDensity says when this cannot happen.
- The analytic Sod solution: output only.
- LoopFeatures.Statistics.AnalyzeStatement: every literal loop must end, because on others the analysis does not end either.
- The matching of calls and the rewriting of source text in the Clang tool: they depend on the compiler's libraries.
- BlockedMatrix.PutFour: the sixteen assignments of a tile are grouped by rows.
- ExceptionList.RunInv: obtaining an error code does not fail; messages and diagnostics are not modelled.
- BootBarrier.BootOrder: localities in connect mode, which skip the barriers, and a locality that fails while booting are not modelled.
- Runtime start and stop, command lines, performance counters, thread-local storage, logistic regression and the stream benchmark: input and output, thin forwarding, or code outside the repository.
