# Verified model of the MAPF visualizer's coordination core

The repository drives many agents over a grid of integer cells. It does so with several
implementations of the same one-step planner, PIBT (priority inheritance with backtracking),
plus the bookkeeping around it: tasks to pick up and deliver, station queues, vertex and edge
locks, and the text formats of maps and recorded solutions. This project models that logic
and proves what each part promises. All of it is sequential and tick-driven.

Modules, following the program's components:

- `Grid`, `ServerGrid`, `Worlds`: row-major cell numbering (`y*w+x`) and 4-neighbourhoods.
  `Grid.MemoGrid` keeps the memoised neighbour lists of the browser grids, which
  `addObstacle` invalidates. `ServerGrid` is the server's boolean occupancy grid. `Worlds`
  is the planner world of the standalone PIBT library.
- `DistTables`: the breadth-first distance tables of the second controller and of the server.
- `Resolver`, `ResolverStep`, `Ordering`: the array-based `funcPIBT`/`step`, shared by the
  MAPD game, the third and second controllers and the server. Each agent's candidate order
  is a parameter, so the results hold for every shuffle and every tie-break. `Ordering` is
  the stable sort that orders candidates and agents.
- `Stacked`: the same resolver step as written, for starts that may share a cell, as the
  MAPD game's own layout does (see Findings).
- `Mapd`: the pickup-and-delivery game. It covers task creation, each tick's task
  lifecycle, and arming contracted agents with the targets of one resolver step.
- `Controller2`: the second controller. It covers priority growth, goal picking and
  re-planning.
- `PathSearch`, `Locks`, `Fragments`, `LockGoals`: the lock-based controller.
  - `PathSearch` holds its breadth-first path searches.
  - `Locks` holds the vertex and edge lock tables and the discrete half of its path-following
    agent.
  - `Fragments` chains planned moves into fragments and rejects a plan that would close a
    cycle (a potential deadlock).
  - `LockGoals` holds its goal picking.
- `PibtMaps`, `PibtPlanning`, `PibtSteps`, `PibtStale`: the map-based PIBT of the MAPD step.
  - `PibtMaps` covers cell keys, neighbourhoods, targets, priorities and the decision per
    candidate.
  - `PibtPlanning` is the recursive `pibt` over a shared plan and `visiting` set.
  - `PibtSteps` is the whole `step`.
  - `PibtStale` is a concrete run of the planning loop as written (see Findings).
- `TaskManagers`, `Reservations`, `Robots`, `Priorities`: the standalone PIBT library. They
  cover its task manager, its half-open-interval reservation table, its robot motion
  primitives and its priority tiers.
  - The tier test names a `Carrying` mode that the robot's `Mode` enumeration does not have.
    The model follows the code: that tier never occurs, and a robot on its way to a delivery
    ranks last.
- `Stations`, `ServerSim`: the server simulator.
  - `Stations` models the station sets with their FIFO queues.
  - `ServerSim` models the loader, dump and charger cycle with battery counters, staging
    cells, and the PIBT step that moves the fleet.
- `Hiveminds`, `DestinationBins`: the server's shuttle between bins and base, and its
  capacity-bounded bins.
- `MapClasses`, `MapReaders`, `Solutions`, `Decimal`: the parsers of map files (the
  visualizer's and the server's) and of recorded solutions, with the text helpers they share.

Classes model the objects whose fields the source updates in place. Arrays model the
resolver's occupancy arrays. Datatypes and functions model the pure parts. The map-based
planner's string-keyed maps (`"x,y"`) are maps keyed by agent number holding cells. The model
proves that keys are injective, so nothing is lost by this.

Several copies differ in small details, and the model keeps each copy's behaviour:
- `game.ts` uses a stable sort. The second controller and the server shuffle first.
- `!t.assignedTo` treats agent id 0 as unassigned.
- The server clears its occupancy arrays after each step. The browser copies allocate new
  ones.

`src/ts/game.ts` and `src/vis/TwoController3.tsx` are near-duplicates. They are modelled once,
and the table cites whichever copy a member's lines come from.

## Model

| member | source | states |
|---|---|---|
| Grid.XyOfId | src/ts/game.ts:39-45 | `xy(id(x, y)) == (x, y)` for every column `x < w` and every row |
| Grid.IdOfXy | src/vis/TwoController3.tsx:39-45 | `id(xy(c)) == c` for every non-negative index, and the column of `xy(c)` is below `w` |
| Grid.NeighborListSize | src/ts/game.ts:61-72 | `neighbors(u)` has at most four entries and is empty for an obstacle cell |
| Grid.NeighborListSpec | src/vis/TwoController3.tsx:61-72 | `v` is listed for an in-bounds `u` exactly when neither is an obstacle, `v` is in bounds and at Manhattan distance 1 |
| Grid.NeighborListSymmetric | src/ts/TwoController2.tsx:43-53 | on non-obstacle cells `v ∈ neighbors(u) ⇔ u ∈ neighbors(v)` (the obstacle-free grid is the case of no obstacles) |
| Grid.MemoGrid.constructor | src/ts/game.ts:32-37 | a new grid has the given size, an empty memo and no obstacles |
| Grid.MemoGrid.AddObstacle | src/ts/game.ts:52-55 | the cell joins the obstacles and the memo is emptied, so every memoised list stays the one `neighbors` would compute now |
| Grid.MemoGrid.Neighbors | src/ts/game.ts:61-72 | the answer is the neighbour list for the current obstacles; the memo gains it only for a non-obstacle cell not yet cached |
| Resolver.ClaimStep | src/ts/game.ts:94-98 | claiming a free candidate that passed the swap test keeps every move legal, every claim exact and no swap |
| Resolver.FallbackStep | src/ts/game.ts:104-106 | staying put after every candidate failed keeps the move legal and breaks no claim but the caller's |
| Resolver.FuncPibt | src/ts/game.ts:90-107 | agent `i` ends resolved; resolved agents keep their cells; moves stay legal, claims exact, no swap; on failure `i` stays on its start and only the caller's claim is lost |
| Resolver.TryCandidate | src/ts/TwoController2.tsx:111-121 | one candidate: skipped when already claimed or when its occupant moves onto `i`'s cell, else handed to `Claim`; `claimed` is true exactly where the source returns true; other resolved agents keep their cells |
| Resolver.Claim | src/ts/TwoController2.tsx:115-120 | `i` takes the cell and claims it, then pushes its unresolved occupant; on success moves stay legal, claims exact and no swap arises; when the push fails `i`'s loop state holds again and only claims of cells held by then-unresolved agents have changed |
| ResolverStep.ResolvedIsSafe | src/ts/game.ts:94-97 | once every agent is resolved: each stays or moves to a neighbour, no two share a target, no two swap |
| ResolverStep.ResolveOne | src/vis/TwoController3.tsx:117 | an agent not yet resolved is resolved; the invariants are kept |
| ResolverStep.ResolveAll | src/ts/TwoController2.tsx:135-141 | after the priority-ordered loop every agent has a target, and the step is safe (neighbour-or-stay, distinct, no swap) |
| ResolverStep.Step | src/ts/game.ts:109-118 | for distinct starts and any candidate order: every agent stays or moves to a neighbour, targets are distinct, no two agents swap |
| ResolverStep.StepReusing | server/abomination.py:90-103 | the same safety for the server's planner, and its reused `occupied_now`/`occupied_nxt` are all NIL again on return |
| Ordering.InsertBy | src/ts/game.ts:92 | the insertion keeps the multiset of elements |
| Ordering.SortBy | src/ts/game.ts:92 | the stable sort is a permutation of its input |
| Ordering.InsertBySorted | src/ts/game.ts:92 | inserting into a sorted sequence keeps it sorted |
| Ordering.SortBySorted | src/vis/TwoController3.tsx:93 | `sort` by the distance key gives an ascending sequence and a permutation |
| Ordering.ByPriorityOrder | src/ts/game.ts:115 | the agent order lists every agent once, in descending priority |
| Ordering.FirstMinimal | src/ts/game.ts:326-329 | the first index of least key: its key is minimal and every earlier key is larger |
| Ordering.SortByHead | src/ts/game.ts:326-329 | the head of a stable ascending sort is the first element of least key |
| Ordering.InsertByOfKey | src/ts/game.ts:92 | insertion puts the new element in front of every element of its own key and leaves the order of each key's elements |
| Ordering.SortByStable | src/ts/game.ts:92 | the sort is stable: for every key, the elements of that key come out in their input order |
| Mapd.FindTask | src/ts/game.ts:311 | `tasks.find` by id: the first index carrying that id, or none when no task has it |
| Mapd.Available | src/ts/game.ts:326 | `filter(t => !t.done && !t.assignedTo)`: exactly the indices of not-done tasks whose `assignedTo` is falsy (agent id 0 included), in list order |
| Mapd.ChooseTaskSpec | src/ts/game.ts:325-334 | no task is taken iff none is available; otherwise the taken one is available, has a nearest pickup, and every earlier available task is strictly further (stable sort) |
| Mapd.GoalNodeOf | src/ts/game.ts:284-292 | a free agent has no goal node; otherwise it is the delivery (carrying) or pickup (to_pickup) of the agent's task |
| Mapd.TierDominates | src/ts/game.ts:294-299 | `tier*1000 - 10*eta - id`: a higher tier gives a higher priority whenever `10*eta + id` lies in `[0, 1000)` for both agents |
| Mapd.CandidatesCells | src/ts/game.ts:91 | the candidates are exactly the agent's cell and its neighbours, all on the grid |
| Mapd.CandidatesNearestFirst | src/ts/game.ts:92 | candidates are tried in ascending distance to the agent's goal |
| Mapd.Arrive | src/vis/TwoController3.tsx:157-168 | a contracted or not-yet-arrived agent is untouched; an arrived one sets `current := next`, `next := null`, contracted; the cell it occupies or heads for is unchanged |
| Mapd.ArriveEach | src/ts/game.ts:306 | every agent takes its own arrival step |
| Mapd.Settle | src/ts/game.ts:309-324 | at its pickup a to_pickup agent marks the task picked and carries; at its delivery a carrying agent marks it done, clears `assignedTo`, becomes free without a task; task flags only move forward |
| Mapd.Assign | src/ts/game.ts:325-334 | a free agent takes the task `ChooseTask` picks, recording its id in `assignedTo` and becoming to_pickup; with none available nothing changes |
| Mapd.Advance | src/ts/game.ts:308-336 | the task half of `update` for one agent keeps the game consistent, moves task flags forward, skips extended agents and never changes the agent's cells or motion state |
| Mapd.AdvanceUpTo | src/vis/TwoController3.tsx:410-438 | the task loop over the first `n` agents keeps the game consistent, touches no later agent and only moves task flags forward |
| Mapd.Armed | src/ts/game.ts:354-360 | exactly the agents whose resolved cell differs from their own get it as `next` and become extended; the others are unchanged |
| Mapd.MakeTasks | src/ts/game.ts:273-282 | `n` tasks; task `i` has id `i+1`, pickup `pickups[i % |pickups|]`, delivery `deliveries[i % |deliveries|]`, unassigned |
| Mapd.FindMadeTask | src/vis/TwoController3.tsx:323-332 | made task ids are distinct and `find` locates id `k` at index `k-1` |
| Mapd.MapdGame.constructor | src/ts/game.ts:258-264 | for distinct start cells, the game starts consistent, every agent free and contracted at its start, with the made tasks, so every later PIBT step is safe |
| Mapd.MapdGame.ArriveAll | src/ts/game.ts:306 | the arrival loop applies every agent's arrival step and keeps the game consistent |
| Mapd.MapdGame.AdvanceAll | src/ts/game.ts:308-336 | the task loop leaves agents and tasks as `AdvanceUpTo` over all agents |
| Mapd.MapdGame.Update | src/ts/game.ts:305-362 | one tick: arrivals, task lifecycle, then a PIBT step exactly when all agents are contracted, whose safe targets arm exactly the moving agents |
| Mapd.MapdGame.Resolve | src/ts/game.ts:339-353 | the resolver's result is a safe step from the agents' cells (neighbour-or-stay, distinct, no swap) |
| Mapd.MapdGame.ArmAgents | src/vis/TwoController3.tsx:456-462 | the agents become `Armed(old agents, Q_to)` and the game stays consistent |
| Controller2.Arrive | src/ts/TwoController2.tsx:177-191 | a contracted agent, or one that has not arrived, is unchanged; an arrived extended agent settles on its `next` cell contracted; the target, goal and id never change |
| Controller2.Filter | src/ts/TwoController2.tsx:429-430 | exactly the cells below `n` that pass the filter, each once, in increasing order |
| Controller2.PickNewGoalSpec | src/ts/TwoController2.tsx:426-434 | the new goal is an unoccupied cell; it avoids the other agents' goals whenever some cell does, is otherwise the smallest unoccupied cell, and is missing only when every cell is occupied |
| Controller2.ArriveEach | src/ts/TwoController2.tsx:363 | every agent takes its own arrival step |
| Controller2.CandidatesCells | src/ts/TwoController2.tsx:108-110 | whatever the shuffle did, every candidate is the agent's cell or one of its grid neighbours |
| Controller2.ShareBounds | src/ts/TwoController2.tsx:289 | a distance below the cell count gives a starting priority in `[0, 1)`, and a nearer agent gets a smaller one |
| Controller2.Bump | src/ts/TwoController2.tsx:392-398 | away from the goal the priority grows by one; on the goal it drops to its fractional part, in `[0, 1)` and differing from the old value by a whole number |
| Controller2.BuildTables | src/ts/TwoController2.tsx:100 | one table per goal, each a shortest-distance table of the grid from that goal |
| Controller2.PickGoals | src/ts/TwoController2.tsx:365-374 | the loop's result is `GoalsChosen`: each done agent that is not a finisher gets `pickNewGoal` over the agents as they stand at its turn; exactly the agents given a goal join the finishers; a re-plan is requested exactly when one was or some agent got a goal; nothing but goals changes and targets stay distinct and on the grid |
| Controller2.PickOne | src/ts/TwoController2.tsx:366-373 | one turn of the goal loop extends the finished prefix by one agent, keeping the agents placed |
| Controller2.ChosenUnoccupied | src/ts/TwoController2.tsx:366-373 | every goal the loop changes is a grid cell on which no agent stands |
| Controller2.Mount | src/ts/TwoController2.tsx:283-297 | agent `i` starts contracted on the `i`-th shuffled cell and heads for the `(n+i)`-th; the agents are placed with distinct cells |
| Controller2.PlanStep | src/ts/TwoController2.tsx:381-382 | the resolver's answer is a safe step onto grid cells: stay or move to a neighbour, distinct targets, no swap |
| Controller2.SafeStepOnGrid | src/ts/TwoController2.tsx:381-382 | a safe step from grid cells lands on grid cells |
| Controller2.CandidateLists | src/ts/TwoController2.tsx:108-110 | every agent's candidate list holds only its own cell and its grid neighbours |
| Controller2.ArmedPlaced | src/ts/TwoController2.tsx:383-389 | arming the agents along a safe step keeps every target distinct and on the grid, and each target is the resolved cell |
| Controller2.ArmEach | src/ts/TwoController2.tsx:383-389 | an agent whose resolved cell differs from its current one is extended towards it; the others are unchanged |
| Controller2.BumpEach | src/ts/TwoController2.tsx:390-399 | every priority takes its own `Bump`, by whether the agent's resolved cell is its goal |
| Controller2.ArrivePlaced | src/ts/TwoController2.tsx:363 | arrivals keep every target, so the agents stay distinct and on the grid |
| Controller2.TwoController2.constructor | src/ts/TwoController2.tsx:267-297 | the controller starts with the mounted agents, one distance table per goal and priority `dist(start)/(w*h)`, no re-plan requested and no finishers |
| Controller2.TwoController2.Replan | src/ts/TwoController2.tsx:437-440 | fresh shortest-distance tables for the current goals and priorities `dist(current)/(w*h)` |
| Controller2.TwoController2.PerformReplan | src/ts/TwoController2.tsx:436-443 | fresh tables and priorities; the re-plan request and the finishers are cleared |
| Controller2.TwoController2.ChooseGoals | src/ts/TwoController2.tsx:365-374 | the agents, finishers and re-plan request become what `GoalsChosen` prescribes for the old ones; only goals change, and only for done agents that were not finishers |
| Controller2.TwoController2.StepAndBump | src/ts/TwoController2.tsx:380-399 | the resolved step is safe, the agents are armed along it without moving yet, and every priority is bumped |
| Controller2.TwoController2.Update | src/ts/TwoController2.tsx:356-400 | the whole new state: the goal loop's outcome over the arrived agents (`GoalsChosen`), then `Stepped`: a re-plan (fresh tables for the chosen goals, request and finishers cleared) exactly when one was requested and every agent is contracted, a plan exactly then, a safe step along which the agents are armed and every priority is bumped from its value after any re-plan; otherwise the chosen agents and old priorities |
| Controller2.TwoController2.ArriveAndChoose | src/ts/TwoController2.tsx:363-374 | every agent takes its arrival step, then the goal loop runs on the arrived agents as `GoalsChosen` says |
| Controller2.TwoController2.Settle | src/ts/TwoController2.tsx:376-400 | `Stepped` from the state it starts in: the re-plan when requested with every agent contracted, then the armed safe step and bumped priorities, or nothing when some agent is extended |
| DistTables.LowerStep | src/ts/TwoController2.tsx:71-73 | lowering a neighbour to the popped distance + 1 and queueing it keeps the table bounded, settled outside the queue and supported |
| DistTables.Relax | src/ts/TwoController2.tsx:69-75 | relaxing the popped cell's neighbours keeps the loop facts, and the table sum falls by at least the number of cells queued |
| DistTables.Sweep | src/ts/TwoController2.tsx:66-76 | the queue loop ends with the source at 0, every entry within the sentinel, no neighbour more than one step further, and every finite entry reached from a smaller neighbour |
| DistTables.WalkLowerBound | src/ts/TwoController2.tsx:66-76 | no walk from the source to `v` is shorter than the table entry at `v` |
| DistTables.WalkFromTable | src/ts/TwoController2.tsx:66-76 | every entry below the sentinel is the length of some walk from the source |
| DistTables.DistanceIsShortest | src/ts/TwoController2.tsx:79-81 | a finished table holds shortest-walk lengths: finite entries are the length of a walk and of no shorter one; a sentinel entry means no walk is shorter than the sentinel |
| DistTables.GridNeighborsClosed | src/ts/TwoController2.tsx:43-53 | the grid neighbours of a cell lie on the grid |
| DistTables.FreeNeighborsClosed | server/abomination.py:48-56 | the server's neighbours of a cell lie on the grid |
| DistTables.Build | src/ts/TwoController2.tsx:64-76 | a table of `m` entries that is a finished distance table from the source |
| DistTables.GridDistTable | src/ts/TwoController2.tsx:61-77 | `w*h` entries, sentinel `w*h`, holding the shortest distance from the goal |
| DistTables.ServerDistTable | server/abomination.py:21-43 | all INT32_MAX when the source is blocked; otherwise a shortest-distance table over free cells, where only free cells get a finite entry |
| ServerGrid.FreeNeighborsSpec | server/abomination.py:48-56 | `v` is listed exactly when it is an in-bounds free cell at Manhattan distance 1; at most four entries |
| PathSearch.RouteIsWalk | src/ts/TwoController.tsx:372-376 | with no forbidden vertex or edge, a route is exactly a walk along listed neighbours |
| PathSearch.RouteInside | src/ts/TwoController.tsx:366-381 | a route that starts inside a set closed under allowed moves ends inside it (no route escapes an exhausted search) |
| PathSearch.Discover | src/ts/TwoController.tsx:64-67 | discovering a neighbour (mark, set parent, queue) keeps every discovered cell linked to a shallower one by an allowed move |
| PathSearch.Trace | src/ts/TwoController.tsx:77-84 | following parents back from the goal and reversing gives a route from the start to the goal |
| PathSearch.ScanAll | src/ts/TwoController.tsx:63-73 | the inner loop discovers every undiscovered neighbour unless it stops early, and it reports `found` exactly when the goal was discovered |
| PathSearch.FindPath | src/ts/TwoController.tsx:54-85 | `[start]` when start is the goal; otherwise a walk from start to goal, and no answer exactly when no such walk exists |
| PathSearch.ScanAllowed | src/ts/TwoController.tsx:372-380 | every allowed undiscovered neighbour of the popped cell is discovered and queued |
| PathSearch.FindConstrainedPath | src/ts/TwoController.tsx:359-391 | a route that enters no forbidden vertex but the goal and uses no forbidden edge, and no answer exactly when no such route exists |
| Locks.LockMove | src/ts/TwoController.tsx:99-108 | the lock fails, changing nothing, exactly when another agent owns `v`, `u->v` or `v->u`; otherwise the agent owns `v` and `u->v` and nothing else changes |
| Locks.Release | src/ts/TwoController.tsx:109-113 | edge `from->to` and vertex `from` are dropped only where the agent owns them; every other entry is kept |
| Locks.Occupy | src/ts/TwoController.tsx:114-116 | the agent owns `v` whoever owned it before; nothing else changes |
| Locks.HeldSeparates | src/ts/TwoController.tsx:99-108 | while every agent holds its locks, no two agents stand on or move into a common cell, so none swap |
| Locks.LockKeepsHeld | src/ts/TwoController.tsx:166-172 | a contracted agent's lock attempt keeps every agent's locks held, and on success the agent holds its move |
| Locks.ArriveKeepsHeld | src/ts/TwoController.tsx:182-191 | arrival (release, then occupy the new cell) keeps every agent's locks held |
| Locks.OccupyEachKeeps | src/ts/TwoController.tsx:578-588 | occupying other cells leaves an earlier occupation and every edge lock as they were |
| Locks.OccupyEachHeld | src/ts/TwoController.tsx:577-588 | standing agents with distinct ids and cells all hold their locks after each occupies its cell on fresh tables |
| Locks.Reservations.constructor | src/ts/TwoController.tsx:92-95 | both tables start empty |
| Locks.Reservations.TryLockMove | src/ts/TwoController.tsx:99-108 | the result and the new tables are those of `LockMove` |
| Locks.Reservations.ReleaseAfterArrive | src/ts/TwoController.tsx:109-113 | the new tables are those of `Release` |
| Locks.Reservations.OccupyVertex | src/ts/TwoController.tsx:114-116 | the new tables are those of `Occupy` |
| Locks.Agent.constructor | src/ts/TwoController.tsx:142-159 | the agent stands contracted on the first path cell, aims at the last, and occupies the first cell |
| Locks.Agent.DesiredNext | src/ts/TwoController.tsx:163-165 | the next path cell, and none exactly at the end of the path |
| Locks.Agent.TryStartMove | src/ts/TwoController.tsx:166-172 | at the end of the path nothing changes; otherwise the tables are those of `LockMove` and the agent is extended toward the next path cell exactly when the lock succeeded |
| Locks.Agent.Arrive | src/ts/TwoController.tsx:182-191 | the tables are released and the new cell occupied; the agent stands contracted on the next path cell |
| Locks.Agent.Step | src/ts/TwoController.tsx:173-192 | a finished agent changes nothing; an extended agent that has not arrived keeps its locks and cell; one that arrived stands contracted on the next path cell |
| Fragments.JoinAt | src/ts/TwoController.tsx:407-408 | each position of a joined fragment reads the matching position of one of its two parts |
| Fragments.JoinRefers | src/ts/TwoController.tsx:425-426 | a join of fragments that name planned moves names planned moves |
| Fragments.JoinDistinct | src/ts/TwoController.tsx:423-425 | two fragments with no agent in common, each without repeats, join without repeats |
| Fragments.JoinChain | src/ts/TwoController.tsx:421-430 | two agent-disjoint chains, the second starting where the first ends, join into a chain from the first's start to the second's end |
| Fragments.GrownTrans | src/ts/TwoController.tsx:448-451 | growing the fragment tables by one agent, twice, is growing them by that agent |
| Fragments.AppendGrows | src/ts/TwoController.tsx:448-451 | appending a fragment that names the agent grows the table by that agent |
| Fragments.FileKeeps | src/ts/TwoController.tsx:436-452 | filing a chain that is no potential deadlock under its start and its end keeps every filed entry a chain with the right end cells |
| Fragments.RegisterFragment | src/ts/TwoController.tsx:436-452 | the fragment is appended to the `thetaS` list of the cell its first move leaves and to the `thetaT` list of the cell its last move enters; nothing else changes |
| Fragments.SingleChain | src/ts/TwoController.tsx:403 | a single move of a planned path is a chain from that path cell to the next |
| Fragments.File | src/ts/TwoController.tsx:404 | filing a chain through the agent keeps the tables filed, grows them only by that agent, and lists the chain under its start and its end |
| Fragments.ExtendBack | src/ts/TwoController.tsx:405-412 | the first loop either files every agent-free chain ending at `u` followed by the move, or reports a potential deadlock through the agent |
| Fragments.ExtendFront | src/ts/TwoController.tsx:413-420 | the second loop either files the move followed by every agent-free chain starting at `v`, or reports a potential deadlock through the agent |
| Fragments.BridgeFrom | src/ts/TwoController.tsx:422-430 | for one chain ending at `u`, every joined chain through the move is filed, or a potential deadlock through the agent is reported |
| Fragments.Bridge | src/ts/TwoController.tsx:421-431 | the third loop files every agent-disjoint chain ending at `u`, the move, and a chain starting at `v`, or reports a potential deadlock through the agent |
| Fragments.AddMove | src/ts/TwoController.tsx:400-432 | filing one move and running the three loops: `false` means a potential deadlock through the agent; `true` extends complete tables past that move |
| Fragments.AddPathToFragments | src/ts/TwoController.tsx:393-434 | `false` only when a chain through the agent is a potential deadlock; `true` leaves every chain over the planned paths filed |
| Fragments.InGrown | src/ts/TwoController.tsx:448-451 | a filed fragment stays filed as the tables grow |
| Fragments.FiledBothGrown | src/ts/TwoController.tsx:448-451 | a fragment filed under its start and end stays so as the tables grow |
| Fragments.SliceChain | src/ts/TwoController.tsx:442-447 | a non-empty run of a chain is a chain from the cell its first move leaves to the cell its last move enters |
| Fragments.SliceApart | src/ts/TwoController.tsx:423-424 | the agents before and after any position of a chain differ from the one at that position and from each other |
| Fragments.SliceJoin | src/ts/TwoController.tsx:407-426 | a chain is the join of its moves before a position, the move there, and its moves after |
| Fragments.BackMono | src/ts/TwoController.tsx:405-412 | what the first loop filed stays filed as the tables grow |
| Fragments.FrontMono | src/ts/TwoController.tsx:413-420 | what the second loop filed stays filed as the tables grow |
| Fragments.BridgedMono | src/ts/TwoController.tsx:421-431 | what the third loop filed stays filed as the tables grow |
| Fragments.PrefixFiled | src/ts/TwoController.tsx:405 | the part of a chain before the agent's move was filed at `u` when the tables were complete |
| Fragments.SuffixFiled | src/ts/TwoController.tsx:413 | the part of a chain after the agent's move was filed at `v` when the tables were complete |
| Fragments.ThroughMove | src/ts/TwoController.tsx:400-432 | every chain through the move is filed once the move and the three loops have run |
| Fragments.CompleteStep | src/ts/TwoController.tsx:400-432 | filing a move with the three loops completes the tables for that move |
| Fragments.CompleteAll | src/ts/TwoController.tsx:400 | once every move of the path is past, every chain is filed |
| Fragments.FiledNoCircularWait | src/ts/TwoController.tsx:454-462 | tables holding every chain, none of two or more agents a potential deadlock, mean no chain of moves closes a circle |
| Fragments.Unrelated | src/ts/TwoController.tsx:351 | a fragment without agent `b` reads the same whether or not `b`'s path is planned |
| Fragments.NextAgent | src/ts/TwoController.tsx:349-352 | planning a new agent keeps the tables filed and complete for its first move |
| Fragments.GridClosed | src/ts/TwoController.tsx:43-53 | the grid's neighbour lists stay on the grid |
| Fragments.RouteMoving | src/ts/TwoController.tsx:372-379 | a route over the grid never stays put, so each of its steps is a move |
| Fragments.ForbiddenVerts | src/ts/TwoController.tsx:336-339 | exactly the goals of the other agents, except one that is the agent's own start |
| Fragments.ForbiddenEdges | src/ts/TwoController.tsx:340-348 | an edge is forbidden exactly when it goes from a cell `u` into the first cell of a chain filed as ending at `u` |
| Fragments.ComputePaths | src/ts/TwoController.tsx:329-357 | a returned plan takes every agent from its start to its goal along grid neighbours, never through another agent's goal, and holds no chain of moves that is a potential deadlock; no plan means planning stopped at some agent of `order`, after the earlier agents were planned and filed, because that agent had no route avoiding the forbidden vertices and edges, or its route closed a chain through it that is a potential deadlock |
| Fragments.RouteFacts | src/ts/TwoController.tsx:349 | a constrained route is a walk that avoids the other agents' goals |
| LockGoals.PickNewGoalSpec | src/ts/TwoController.tsx:558-566 | the new goal is a grid cell; it avoids occupied cells and other agents' goals whenever some cell does; otherwise it is the smallest unoccupied cell; with every cell occupied it is cell 0 |
| Worlds.JsRem | src/pibt/world.ts:37 | JavaScript's remainder: the dividend minus it is a multiple of the divisor, and it has the dividend's sign and a smaller magnitude than the divisor |
| Worlds.IndexOfPos | src/pibt/world.ts:32-40 | `index(pos(i))` is `i` for every index, negative ones included |
| Worlds.PosOfIndex | src/pibt/world.ts:32-40 | `pos(index(x, y))` is `(x, y)` for `0 <= x < width` and `y >= 0` |
| Worlds.NewWorld | src/pibt/world.ts:24-30 | a new world has the given size and no in-bounds obstacle |
| Worlds.KeepOpenSpec | src/pibt/world.ts:58-60 | the filter keeps exactly the in-bounds, unblocked candidates |
| Worlds.GetNodeNeighborsSpec | src/pibt/world.ts:51-61 | at most four neighbours, each an open node at Manhattan distance 1, and every such node listed |
| Worlds.KeepOpenOrder | src/pibt/world.ts:52-60 | the filter keeps the candidates' order +x, -x, +y, -y |
| Robots.DirVec | src/pibt/robot.ts:128-133 | every heading's step is a unit step along one axis |
| Robots.WrapThetaSpec | src/pibt/robot.ts:135-137 | every integer wraps into `0..3`, congruent to it modulo 4 |
| Robots.TurnsBetweenSpec | src/pibt/robot.ts:139-142 | at most two quarter turns, symmetric, zero exactly for equal headings, one exactly for neighbouring headings |
| Robots.PrimaryHeading | src/pibt/robot.ts:144-152 | along x when `|dx| >= |dy|`, Right exactly when `dx >= 0`; otherwise along y, Down exactly when `dy >= 0` |
| Robots.PrimaryHeadingApproaches | src/pibt/robot.ts:144-152 | one step along the primary heading brings a robot one step closer to the target |
| Robots.Robot.constructor | src/pibt/robot.ts:38-54 | the robot starts free on its node and heading, with no task and no primitive |
| Robots.Robot.Begin | src/pibt/robot.ts:60-63 | the primitive becomes the current one; the robot is idle at its finish time and busy at its start when that is earlier |
| Robots.Robot.Finish | src/pibt/robot.ts:65-71 | nothing changes without a due primitive; a due one moves the robot to its end node and heading and clears it; afterwards no primitive is left exactly when the robot was idle |
| Robots.Robot.ForwardSpec | src/pibt/robot.ts:73-84 | none exactly when the node ahead is out of bounds or blocked; otherwise the move to it with the heading kept |
| Robots.Robot.RotateLeftSpec | src/pibt/robot.ts:86-95 | a turn in place ending at `theta + 3` mod 4 |
| Robots.Robot.RotateRightSpec | src/pibt/robot.ts:97-106 | a turn in place ending at `theta + 1` mod 4 |
| Robots.Robot.WaitSpec | src/pibt/robot.ts:108-116 | a primitive that keeps node and heading |
| Robots.Robot.CandidateSpecs | src/pibt/robot.ts:118-126 | left, right and wait, preceded by forward exactly when it is available; all start from the robot's node and heading |
| Robots.TurnsCancel | src/pibt/robot.ts:86-106 | a right turn then a left turn, or the reverse, restores the heading |
| Priorities.Tier | src/pibt/priorities.ts:4-10 | `ToPickup` gets 2, `Free` 1, everything else 0 |
| Priorities.PriorityOf | src/pibt/priorities.ts:4-10 | the tier of the robot's mode, tie-broken by its id |
| Priorities.ComparePriority | src/pibt/priorities.ts:12-17 | negative exactly when `a` has the higher tier, or the same tier and the lower id |
| Priorities.CompareAntisymmetric | src/pibt/priorities.ts:12-17 | `compare(a, b) == -compare(b, a)` |
| Priorities.CompareZero | src/pibt/priorities.ts:12-17 | zero exactly when tiers and ids are both equal |
| Priorities.CompareTransitive | src/pibt/priorities.ts:12-17 | the order is transitive |
| Priorities.DeliveringRanksLast | src/pibt/priorities.ts:5-8 | a robot heading to its delivery ranks below any free robot, because the `Carrying` tier never matches |
| TaskManagers.Manhattan | src/pibt/tasks.ts:71-73 | a non-negative distance, zero exactly for equal nodes |
| TaskManagers.OpenTasks | src/pibt/tasks.ts:36 | exactly the pending, unbound tasks, each once, in insertion order |
| TaskManagers.List | src/pibt/tasks.ts:30-33 | every stored task, in insertion order, without a filter; with one, exactly the stored tasks that pass it, in insertion order and each once per occurrence (an order-preserving selection, `Filters.Kept`) |
| TaskManagers.Choice | src/pibt/tasks.ts:36-39 | a chosen task is stored, pending and unbound |
| TaskManagers.ChoiceSpec | src/pibt/tasks.ts:35-39 | no choice exactly when no task is open; otherwise the choice's pickup is nearest among the open tasks, and every open task created before it is strictly further |
| TaskManagers.ByRobot | src/pibt/tasks.ts:61-64 | the first task bound to the robot and not done, and none exactly when there is no such task |
| TaskManagers.Get | src/pibt/tasks.ts:66-68 | a task with that id, and none exactly when no stored task has it |
| TaskManagers.ProgressedTrans | src/pibt/tasks.ts:40-41 | status only moving forward and bindings never changing compose over several calls |
| TaskManagers.TaskManager.constructor | src/pibt/tasks.ts:20-22 | no tasks, next id 1 |
| TaskManagers.TaskManager.AddTask | src/pibt/tasks.ts:24-28 | one pending, unbound task with the next id is appended, its id above every earlier one |
| TaskManagers.TaskManager.NextFor | src/pibt/tasks.ts:35-43 | none exactly when no task is open; otherwise the chosen task alone is bound to the robot and set to ToPickup; statuses only move forward |
| TaskManagers.TaskManager.OnArrivePickup | src/pibt/tasks.ts:45-51 | none without a live task; only ToPickup moves to Carrying; any other status is returned unchanged |
| TaskManagers.TaskManager.OnArriveDelivery | src/pibt/tasks.ts:53-59 | none without a live task; only Carrying moves to Done; any other status is returned unchanged |
| TaskManagers.GetById | src/pibt/tasks.ts:66-68 | `get` finds exactly the ids `1..n`, at entry `id - 1` |
| TaskManagers.GetFirst | src/pibt/tasks.ts:66-68 | `get` returns the first stored task with the id |
| TaskManagers.DoneNeverReturned | src/pibt/tasks.ts:35-64 | a done task is never chosen by `nextFor` nor found by `byRobot` |
| Reservations.OverlapSpec | src/pibt/reservations.ts:35-37 | overlap is symmetric, and for non-empty intervals means a shared instant of the half-open intervals |
| Reservations.TouchingDoNotOverlap | src/pibt/reservations.ts:35-37 | intervals that only touch do not overlap |
| Reservations.KeepCells | src/pibt/reservations.ts:22 | exactly the cell reservations still running after `time` and not owned by a truthy robot id |
| Reservations.KeepEdges | src/pibt/reservations.ts:23 | exactly the edge reservations still running after `time` and not owned by a truthy robot id |
| Reservations.ReservationTable.constructor | src/pibt/reservations.ts:9-11 | both lists start empty |
| Reservations.ReservationTable.ReserveCell | src/pibt/reservations.ts:13-15 | one record appended, nothing else changed; any other robot now conflicts on that node over an overlapping interval |
| Reservations.ReservationTable.ReserveEdge | src/pibt/reservations.ts:17-19 | one record appended, nothing else changed; any other robot now conflicts on that edge in either direction |
| Reservations.ReservationTable.FreeOlderThan | src/pibt/reservations.ts:21-24 | every kept reservation ends after `time` and, for a truthy robot id, is not that robot's |
| Reservations.NoSelfConflict | src/pibt/reservations.ts:26-32 | a robot never conflicts with its own reservations |
| Reservations.ConflictEdgeReversed | src/pibt/reservations.ts:30-47 | an edge conflict is the same in both directions of travel |
| Hiveminds.Trunc | server/hivemind.py:37 | Python's `int(x)`: the integer next to `x` toward zero |
| Hiveminds.Turn | server/hivemind.py:45-55 | an unassigned robot is sent to the chosen bin; one not at its target keeps its assignment; one at a bin is sent to the base, keeping its bin; one at the base is sent to a newly chosen bin |
| Hiveminds.TurnAlternates | server/hivemind.py:41-55 | every new assignment of an assigned robot flips its phase between bin and base |
| Hiveminds.Run | server/hivemind.py:46-55 | no more moves are commanded than robots have taken their turn |
| Hiveminds.RunKeepsOthers | server/hivemind.py:46-55 | robots that have not taken their turn keep their assignment or their lack of one |
| Hiveminds.RunMoves | server/hivemind.py:39-43 | every commanded move is for a robot that took its turn, towards its current target |
| Hiveminds.RunTurns | server/hivemind.py:45-55 | with distinct ids, each robot gets exactly the turn its own old assignment calls for, and a move is commanded for it exactly when it gets a new assignment |
| Hiveminds.RunDests | server/hivemind.py:36-42 | every assignment's bin index stays in range |
| Hiveminds.Hivemind.constructor | server/hivemind.py:9-24 | the robots, base and bins are recorded and no robot is assigned |
| Hiveminds.Hivemind.BinCells | server/hivemind.py:37 | each bin's target is its position truncated toward zero |
| Hiveminds.Hivemind.Step | server/hivemind.py:45-55 | every robot takes its own turn, robots outside the dictionary keep their assignment, and each commanded move heads to the robot's new target |
| DestinationBins.DestinationBin.constructor | server/destination_bin.py:2-7 | a new bin has the given id, position and capacity and no items |
| DestinationBins.DestinationBin.AddItem | server/destination_bin.py:9-12 | the bin is full exactly when it already holds `capacity` items, and then nothing changes; otherwise the item is appended, so a bin within capacity stays within it |
| DestinationBins.DestinationBin.CleanItems | server/destination_bin.py:14-15 | the items become exactly the given list |
| DestinationBins.Add | server/destination_bin.py:9-12 | full exactly at capacity, with the list unchanged; otherwise the item is appended and the list stays within capacity |
| DestinationBins.AddNeverOverfills | server/destination_bin.py:9-12 | however many items are offered, a bin filled by `add_item` never exceeds its capacity and holds as many as fit |
| Decimal.TrimStart | src/Components/Solution.ts:45 | only leading whitespace is removed, and the rest starts with a non-blank; whitespace is JavaScript's (ASCII tab to carriage return, the Unicode space separators, the line and paragraph separators, the byte-order mark) or Python's `isspace()` set (the same without the byte-order mark, with U+001C to U+001F and U+0085) |
| Decimal.TrimEnd | src/Components/Solution.ts:45 | only trailing whitespace of the chosen language is removed, and the rest ends with a non-blank |
| Decimal.Trim | src/vis/MapClass.ts:26 | JavaScript's `trim()` or Python's `strip()`: no whitespace of that language is left at either end, the result is no longer than the input, and text without any there is unchanged |
| Decimal.TrimSpec | src/vis/MapClass.ts:26 | the trimmed text is exactly the slice of the input between its leading and its trailing whitespace, with only whitespace before and after it; it is empty exactly when the input is all whitespace |
| Decimal.IndexOf | src/vis/MapClass.ts:30 | the first position of the character, and none exactly when it is absent |
| Decimal.Split | src/Components/Solution.ts:54 | at least one part, and no part holds the separator |
| Decimal.JoinSplit | src/Components/Solution.ts:54 | joining the parts of a split with the separator gives back the text |
| Decimal.SplitJoin | src/vis/MapClass.ts:30 | splitting parts joined with a separator they do not hold gives back the parts |
| Decimal.IndexOfAfter | src/vis/MapClass.ts:30 | the first separator of `a + sep + b`, with none in `a`, is the one after `a` |
| Decimal.DigitChar | src/vis/MapClass.ts:11 | each digit value has a digit character that reads back as it |
| Decimal.NatToString | src/vis/MapClass.ts:11 | the decimal text of a number reads back as that number and has no leading zero |
| Decimal.IntToString | src/vis/MapClass.ts:11 | an integer's text holds no comma, parenthesis or space |
| Decimal.JsNumberOf | src/Components/Solution.ts:57-58 | `Number(undefined)` is NaN |
| Decimal.IntRoundTrip | src/Components/Solution.ts:57-58 | `Number` of an integer's text is that integer |
| Decimal.IntToStringInjective | src/vis/MapClass.ts:11 | distinct integers have distinct texts |
| Decimal.Lower | server/map_reader.py:13 | ASCII lower case: the same length, capitals shifted by 32, everything else kept |
| Solutions.OrientationFromString | src/Components/Solution.ts:21-29 | each of the four names gives its orientation, exactly; anything else, undefined included, gives NONE |
| Solutions.NewPose | src/Components/Solution.ts:31-39 | a missing position is the origin, a missing orientation NONE; given arguments are kept |
| Solutions.Groups | src/Components/Solution.ts:49 | every match is a `(`, text without `)`, and a `)` |
| Solutions.GroupAt | src/Components/Solution.ts:49 | a `(` followed by text without `)` and then a `)` is a match |
| Solutions.GroupsEmpty | src/Components/Solution.ts:49 | a line has no match exactly when no `(` comes before a `)` |
| Solutions.Traverse | src/Components/Solution.ts:51-64 | the results of every element in order, or the error of the first element that throws |
| Solutions.PoseOfParts | src/Components/Solution.ts:51-63 | a fourth part throws with its text in the message; otherwise x is `Number` of the first part, y of the second when present, and the orientation that of the third, NONE without one |
| Solutions.ParseLine | src/Components/Solution.ts:47-67 | a line without a group throws "Invalid solution"; otherwise pose k is the parse of group k, one per group, or the error is that of the first group whose parse throws, every earlier group parsing |
| Solutions.Lines | src/Components/Solution.ts:46 | as many lines as the newline split gives |
| Solutions.ParseSolution | src/Components/Solution.ts:43-68 | one pose list per line of the trimmed text, each that line's parse, or the error of the first line that throws, every earlier line parsing |
| Solutions.BlankTextFails | src/Components/Solution.ts:44-65 | blank text throws "Invalid solution" |
| Solutions.Name | src/Components/Solution.ts:21-29 | an orientation's name holds no comma or closing parenthesis |
| Solutions.PoseRoundTrip | src/Components/Solution.ts:51-63 | a written pose `(x,y,NAME)` parses back to the same coordinates and orientation |
| MapClasses.KeyInjective | src/vis/MapClass.ts:10-12 | two coordinates have the same key exactly when they are equal |
| MapClasses.KeysAgree | src/vis/MapClass.ts:10-12 | equal keys come from equal coordinates |
| MapClasses.RemoveCr | src/vis/MapClass.ts:26 | no carriage return is left, and every other character is kept, in order, as often as it occurs (`Filters.Kept` with `NotCr`) |
| MapClasses.NonBlank | src/vis/MapClass.ts:26 | exactly the lines that are not blank are kept, in their order and with their repetitions (`Filters.Kept` with `Solid`) |
| MapClasses.Token1 | src/vis/MapClass.ts:30 | the second token is undefined exactly when the line has no space |
| MapClasses.RowKeysSpec | src/vis/MapClass.ts:42-46 | a key is filed for a row exactly at its cells that are not `.` |
| MapClasses.GridKeysSpec | src/vis/MapClass.ts:38-47 | a key is filed exactly for the cells of the grid that are not `.` |
| MapClasses.MapClass.constructor | src/vis/MapClass.ts:17-19 | zero size and no obstacles before parsing |
| MapClasses.MapClass.ParseGraph | src/vis/MapClass.ts:25-48 | fewer than four lines, a wrong height or a row of the wrong width throws with its message, the last after filing the rows before the bad one; otherwise the size is recorded and the obstacles are exactly the cells that are not `.` |
| MapClasses.MapClass.ParseLines | src/vis/MapClass.ts:27-47 | the same outcome for the non-blank lines |
| MapClasses.FileRows | src/vis/MapClass.ts:38-47 | succeeds exactly when every row has the width; the keys are exactly the non-`.` cells of the rows before the first row of the wrong width (all rows on success) |
| MapReaders.LeadingSpaces | server/map_reader.py:14 | the run of Python whitespace (what `\s` matches) at the front, ending at the first other character |
| MapReaders.LeadingDigits | server/map_reader.py:14 | the run of ASCII digits at the front, ending at the first other character |
| MapReaders.Keyword | server/map_reader.py:14-17 | a match starts with the keyword |
| MapReaders.Kinds | server/map_reader.py:12-18 | one classification per line |
| MapReaders.Header | server/map_reader.py:12-18 | the scan stops at or after its start and within the file |
| MapReaders.LastFrom | server/map_reader.py:15-17 | a width or height line becomes the fallback for the lines after it |
| MapReaders.HeaderSpec | server/map_reader.py:12-18 | the scan stops just after the first `map` line, or at the end; width and height are those of the last matching lines before the stop |
| MapReaders.ScanHeader | server/map_reader.py:12-18 | the loop yields the header scan's width, height and stop |
| MapReaders.RowsFrom | server/map_reader.py:20-22 | `height` rows, each the next line or the empty string past the end of the file |
| MapReaders.RowObstacles | server/map_reader.py:27-29 | exactly the `@` cells of the row, left to right |
| MapReaders.Obstacles | server/map_reader.py:25-29 | exactly the `@` cells of the rows |
| MapReaders.ObstaclesOrdered | server/map_reader.py:25-29 | obstacles are listed in row-major order without repeats |
| MapReaders.CollectObstacles | server/map_reader.py:24-29 | fails with "row width mismatch" exactly when some row has another length; otherwise the `@` cells |
| MapReaders.ReadRows | server/map_reader.py:19-22 | the rows read after the header |
| MapReaders.GetGrid | server/map_reader.py:9-30 | the result is that of the whole reading |
| MapReaders.GridOfSpec | server/map_reader.py:9-30 | fails exactly when a row read is not `width` long; otherwise the header's size, and exactly the `@` cells of the rows in row-major order |
| PibtMaps.KeyRoundTrip | src/pibt/pibt.ts:33-40 | `v(k(p))` reads back both coordinates of `p` |
| PibtMaps.KeyInjective | src/pibt/pibt.ts:33-35 | two cells share a key exactly when they are the same cell |
| PibtMaps.Manhattan | src/pibt/pibt.ts:50-52 | zero exactly for equal cells |
| PibtMaps.Walkables | src/pibt/pibt.ts:55-60 | exactly the walkable candidates are kept |
| PibtMaps.Neigh | src/pibt/pibt.ts:54-63 | one to five cells, the last being the cell itself |
| PibtMaps.NeighSpec | src/pibt/pibt.ts:54-63 | a cell is offered exactly when it is the cell itself or a walkable cell one step away |
| PibtMaps.TaskOf | src/pibt/pibt.ts:145 | the map built from the task list holds, for an id, the last task with that id, and none when no task has it |
| PibtMaps.TargetOf | src/pibt/pibt.ts:65-69 | the delivery while carrying, the pickup on the way to it, otherwise the agent's own cell |
| PibtMaps.Priority | src/pibt/pibt.ts:71-76 | tier 3, 2 or 1 exactly for carrying, to-pickup and free; eta is the distance to the target, zero exactly on it |
| PibtMaps.HigherOrder | src/pibt/pibt.ts:131 | the push test is a strict total order on priorities |
| PibtMaps.CmpAgents | src/pibt/pibt.ts:78-84 | negative exactly when `a` ranks higher, positive exactly when `b` does, zero exactly when the priorities agree |
| PibtMaps.ChooseOrder | src/pibt/pibt.ts:86-88 | the sort is a permutation of the offered cells |
| PibtMaps.ChooseOrderSpec | src/pibt/pibt.ts:86-88 | the offered cells come nearest to the goal first, and they are exactly the cell itself and its walkable steps |
| PibtMaps.OccupantAt | src/pibt/pibt.ts:98-101 | the first agent on the cell, and none exactly when nobody stands there |
| PibtMaps.OccupantOfOwnCell | src/pibt/pibt.ts:98-101 | with agents on distinct cells, an agent's own cell is occupied by that agent |
| PibtMaps.Verdict | src/pibt/pibt.ts:118-137 | a candidate is skipped exactly when planned, crossing a planned move, or held by an unplanned agent of no lower priority; taken exactly when free or held by a planned agent; otherwise its strictly lower unplanned occupant is pushed |
| PibtPlanning.Planner.constructor | src/pibt/pibt.ts:158-161 | an empty plan and no open calls over a fleet on distinct cells |
| PibtPlanning.Planner.Pibt | src/pibt/pibt.ts:103-141 | an agent whose call is open fails at once; `visiting` is as on entry; a failure leaves the plan unchanged; a success plans the agent, keeps every earlier key, leaves agents with open calls untouched and never lands on a cell held by an unplanned agent with an open call; the plan stays injective, within each agent's offered cells, and swap-free when it was and the agent was unplanned |
| PibtPlanning.Planner.PlanAll | src/pibt/pibt.ts:160-162 | the loop as written: the plan stays sound (offered cells, injective, occupants followed), no call stays open and only fleet agents are planned; no swap-freedom is promised |
| PibtPlanning.Planner.PlanGuarded | src/pibt/pibt.ts:160-162 | calling `pibt` only for agents without a plan also leaves the plan swap-free |
| PibtPlanning.Planner.PlanKeys | src/pibt/pibt.ts:124-133 | only agents of the fleet are planned |
| PibtPlanning.AfterTake | src/pibt/pibt.ts:123-126 | taking a free cell, or one whose occupant is planned, keeps the plan sound and leaves agents with open calls untouched |
| PibtPlanning.TakeInjective | src/pibt/pibt.ts:120-124 | an unplanned cell keeps the plan injective |
| PibtPlanning.TakeClear | src/pibt/pibt.ts:123-124 | a cell that is free or held by a planned agent is not protected |
| PibtPlanning.TakeNoSwap | src/pibt/pibt.ts:121-124 | a cell that crosses no planned move keeps a plan swap-free |
| PibtPlanning.AfterPush | src/pibt/pibt.ts:131-136 | after a successful push the pusher's entry keeps the plan sound |
| PibtPlanning.FollowAfterPush | src/pibt/pibt.ts:132-133 | the pushed occupant has a plan, so the pusher may follow onto its cell |
| PibtPlanning.UntouchedAfterPush | src/pibt/pibt.ts:133 | the pusher's entry leaves the open agents' entries alone |
| PibtPlanning.TakeAfterPush | src/pibt/pibt.ts:132-133 | neither the push nor the pusher's entry lands on a protected cell |
| PibtPlanning.FreeAfterPush | src/pibt/pibt.ts:120-133 | no entry made during the push goes to the pusher's cell, so the plan stays injective |
| PibtPlanning.NoSwapAfterPush | src/pibt/pibt.ts:121-133 | the pusher's entry does not trade cells with an entry made before or during the push |
| PibtPlanning.FinalCells | src/pibt/pibt.ts:163-167 | after planning every agent ends on a cell of its own, offered to it; a swap-free plan lets no two agents trade cells |
| PibtStale.Offered | src/pibt/pibt.ts:65-88 | in the run, the four agents' targets and the candidate orders `chooseOrder` gives them |
| PibtStale.First | src/pibt/pibt.ts:103-141 | in the run, `pibt(0)` pushes 1, which pushes 2, and 2, 1 and 0 take their first candidates |
| PibtStale.Second | src/pibt/pibt.ts:113-127 | in the run, the repeated `pibt(1)` skips two planned cells and re-plans 1 onto (0, 2) |
| PibtStale.Third | src/pibt/pibt.ts:113-136 | in the run, the repeated `pibt(2)` skips its own planned cell, pushes 3, which takes (1, 1), and re-plans 2 onto (1, 2) |
| PibtStale.Fourth | src/pibt/pibt.ts:113-140 | in the run, every candidate of the repeated `pibt(3)` is planned, so the plan stays |
| PibtStale.BeforeThird | src/pibt/pibt.ts:162 | in the run, the plan before the third call is sound and swap-free |
| PibtStale.AfterThird | src/pibt/pibt.ts:162 | after the third call the plan is still sound, but agents 2 and 3 trade cells |
| PibtStale.StaleReplanSwaps | src/pibt/pibt.ts:162 | the planning loop as written, on a 4x3 grid with four agents, produces a plan in which two agents trade cells |
| PibtSteps.OpenTasks | src/pibt/pibt.ts:148 | exactly the tasks not done and not assigned (owner 0 counting as none), in list order |
| PibtSteps.Pick | src/pibt/pibt.ts:148-151 | a picked task is open |
| PibtSteps.PickSpec | src/pibt/pibt.ts:148-151 | nothing is picked exactly when no task is open; otherwise the pick's pickup is nearest among open tasks and every open task before it is strictly further |
| PibtSteps.AssignOneSpec | src/pibt/pibt.ts:146-156 | ids and cells are kept and every agent stays known; the picked task stops being open unless the agent's id is 0 |
| PibtSteps.TaskOfIds | src/pibt/pibt.ts:145 | task lookup by id only depends on the ids, so updating task fields keeps every lookup |
| PibtSteps.KnownKept | src/pibt/pibt.ts:146-184 | updating agents to ones with stored tasks, and tasks without changing ids, keeps every agent's task findable |
| PibtSteps.AssignedSpec | src/pibt/pibt.ts:146-157 | the whole assignment loop keeps ids, cells and known agents |
| PibtSteps.InsertRank | src/pibt/pibt.ts:160 | inserting an agent adds exactly it to the order |
| PibtSteps.SortRank | src/pibt/pibt.ts:160 | the sort is a permutation of the agent numbers |
| PibtSteps.InsertRankRanked | src/pibt/pibt.ts:160 | inserting into a ranked order keeps it ranked |
| PibtSteps.SortRankRanked | src/pibt/pibt.ts:160 | the sorted order is ranked by `cmpAgents` |
| PibtSteps.Rearranged | src/pibt/pibt.ts:160 | a rearrangement of the agent numbers lists each exactly once |
| PibtSteps.ByRankSpec | src/pibt/pibt.ts:160 | the planning order lists every agent once, none after one of lower priority, and with distinct ids strictly by priority |
| PibtSteps.Cell | src/pibt/pibt.ts:165 | a cell exactly when both parts read as numbers |
| PibtSteps.CellOfKey | src/pibt/pibt.ts:164-166 | reading back a cell's key gives the cell |
| PibtSteps.Moved | src/pibt/pibt.ts:163-167 | every agent keeps all but its cell |
| PibtSteps.MovedSpec | src/pibt/pibt.ts:163-167 | a sound plan puts every agent on an offered cell, no two on one cell, and, when swap-free, no two trading cells |
| PibtSteps.AdvanceSpec | src/pibt/pibt.ts:168-184 | only this agent changes, and it changes exactly when it is under way and on its target; at the pickup it starts carrying and the task is picked; at the delivery it is freed and the task is done and unowned |
| PibtSteps.AdvancedSpec | src/pibt/pibt.ts:168-184 | the progress loop keeps ids, cells and known agents |
| PibtSteps.Floor.constructor | src/pibt/pibt.ts:143-145 | the grid, agents and tasks are recorded |
| PibtSteps.Floor.AssignFree | src/pibt/pibt.ts:146-157 | the new agents and tasks are those of the whole assignment loop |
| PibtSteps.Floor.MoveAll | src/pibt/pibt.ts:163-167 | every agent stands on its plan entry or stays |
| PibtSteps.Floor.AdvanceAll | src/pibt/pibt.ts:168-184 | the new agents and tasks are those of the whole progress loop |
| PibtSteps.Floor.PlanMoves | src/pibt/pibt.ts:158-162 | the planning order lists every agent once and the guarded planner gives a sound, swap-free plan |
| PibtSteps.Floor.Step | src/pibt/pibt.ts:143-189 | with `pibt` called only for agents without a plan: the fleet stays valid (distinct ids and cells, tasks findable), the plan is sound and swap-free, every agent ends on a cell offered to it and no two trade cells; the new agents and tasks are those of assignment, moves and progress in turn |
| Stations.StationSet.constructor | server/abomination.py:106-111 | every station starts with no holder, an empty queue and an empty membership set |
| Stations.StationSet.ClaimIfFree | server/abomination.py:120-124 | succeeds exactly when the station had no holder, and then makes the agent its holder; otherwise nothing changes; the queues never change |
| Stations.StationSet.Enqueue | server/abomination.py:126-129 | the agent is appended exactly when it neither waits at nor holds the station; afterwards it does one or the other; the queue never repeats an agent and the set mirrors it |
| Stations.StationSet.PopNext | server/abomination.py:131-137 | none exactly when the queue is empty, with nothing changed; otherwise the head of the queue becomes the holder and leaves the queue and the set |
| Stations.StationSet.ReleaseIfHolder | server/abomination.py:139-141 | the station is freed exactly when the agent held it; afterwards the agent does not hold it |
| ServerSim.NearestUnclaimed | server/abomination.py:208-228 | none exactly when every station is held; otherwise a free station no further than any other free one, and strictly nearer than every free one before it |
| ServerSim.FirstFree | server/abomination.py:246-250 | none exactly when every dump is held; otherwise the first free dump in the shuffled order |
| ServerSim.ShortestQueue | server/abomination.py:237-239 | a station whose queue is no longer than any other, and strictly shorter than every queue before it |
| ServerSim.Discover | server/abomination.py:282-289 | one expansion of the breadth-first search leaves every neighbour visited, only extends the queue, queues every newly visited cell (recording for it the expanded cell's walk plus one step) and changes nothing when no cell is new |
| ServerSim.LayeredStep | server/abomination.py:279-289 | taking the head off the queue and queueing its unvisited neighbours keeps the queue ordered by walk length within two lengths, keeps dequeued cells no farther than queued ones, and leaves their neighbours visited at most one step farther |
| ServerSim.Reach | server/abomination.py:279-289 | in that scan every walk from the target no longer than the head's walk ends at a visited cell whose recorded walk is no longer |
| ServerSim.HeadNearest | server/abomination.py:279-281 | when every dequeued cell is unfit, no walk shorter than the head's reaches a fit cell: the cell the scan returns is a nearest one |
| ServerSim.Exhausted | server/abomination.py:290 | a scan that empties its queue without a fit cell leaves no fit cell reachable from the target |
| ServerSim.FirstFreeNear | server/abomination.py:271-290 | the target when it is fine; otherwise a fine cell that a walk reaches from the target with no shorter walk reaching any fine cell (breadth-first nearest), or none only when no fine cell can be reached from the target |
| ServerSim.Simulator.FindStagingCellNear | server/abomination.py:267-290 | a cell of the grid: the target when it is good, else a good cell no good cell is nearer to the target than (in walk length), and the first agent's cell only when no good cell can be reached from the target |
| ServerSim.Simulator.WaitAt | server/abomination.py:237-243 | the agent waits at or holds a station with a shortest queue, no other queue changes, holders are kept, and the staging cell it gets is reserved |
| ServerSim.Simulator.ChooseNearestTarget | server/abomination.py:233-243 | a free station exists exactly when one is claimed: then the agent holds the nearest free one and heads for it; otherwise it queues at a shortest queue and heads for a reserved staging cell |
| ServerSim.Simulator.ChooseDumpTarget | server/abomination.py:245-255 | a free dump exists exactly when one is claimed: then the agent holds the first free dump in the shuffled order; otherwise it queues at a shortest queue and heads for a reserved staging cell |
| ServerSim.Simulator.Seat | server/abomination.py:191-194 | every agent starts heading for a loader at full battery; exactly the first as many agents as there are loaders claim one and stand for it, the rest wait on reserved staging cells |
| ServerSim.Simulator.constructor | server/abomination.py:158-199 | the simulator is valid, the parameters are recorded, the agents are seated as in the seating loop and each priority is the distance to the goal over the grid size |
| ServerSim.Simulator.LeaveDump | server/abomination.py:320-341 | the agent gives its dump up and heads for a charger at or below the low mark, else for a loader; battery and dwell are kept and no other dump holder changes except to free |
| ServerSim.Simulator.FinishDwell | server/abomination.py:355-366 | the agent gives its loader up and heads for a dump, keeping its battery |
| ServerSim.Simulator.LeaveCharger | server/abomination.py:375-386 | the agent gives its charger up and heads for a loader, keeping its battery |
| ServerSim.Simulator.ArriveOne | server/abomination.py:310-350 | one agent of the arrival pass changes as the arrival rules say, and no other agent changes |
| ServerSim.Simulator.Arrivals | server/abomination.py:310-350 | every agent changes as the arrival rules say; an agent that starts waiting waits on its own cell for a drawn number of steps within the bounds; a dump reached is given up |
| ServerSim.Simulator.WorkOne | server/abomination.py:351-386 | one agent of the second pass counts down or charges as the rules say, and no other agent changes; a finished dwell frees the loader, a full charge frees the charger |
| ServerSim.Simulator.Work | server/abomination.py:351-386 | every agent counts down or charges as the rules say, freeing the loader or charger it leaves |
| ServerSim.Simulator.ServeOne | server/abomination.py:387-396 | a free station with waiting agents goes to the head of its queue, which is handed the station; afterwards the station is not free while agents wait for it; otherwise nothing changes |
| ServerSim.Simulator.ServeAll | server/abomination.py:387-395 | the loop over the stations of one kind visits each once: a station that was free with waiting agents goes to the head of its queue, the others are unchanged, and each agent ends as handed the last station that served it |
| ServerSim.Simulator.HandOver | server/abomination.py:387-416 | after the loop over one kind no station of it is free while agents wait; each station that was free with waiting agents goes to the head of its queue, and each agent ends as handed the last station that served it |
| ServerSim.Simulator.HandedTwice | server/abomination.py:391-395 | a second hand-over overrides the first: the agent ends with the later station |
| ServerSim.ServedBy | server/abomination.py:387-395 | the last station served whose queue had `a` at its head, and none when no such station was free |
| ServerSim.Simulator.GoalsForPibt | server/abomination.py:292-299 | one goal per agent, a cell of the grid: the agent's own cell when it stays, else its goal |
| ServerSim.Candidates | server/abomination.py:72-74 | a permutation of the shuffled candidates, sorted by distance to the goal |
| ServerSim.ShuffledCell | server/abomination.py:72-73 | each shuffled candidate is the agent's cell or one of its free neighbours |
| ServerSim.Plan | server/abomination.py:71-103 | the next configuration is a safe step (each agent stays or moves to a free neighbour, no two share a cell, no two swap), and the occupancy arrays are cleared again |
| ServerSim.Simulator.Advance | server/abomination.py:417-420 | the planner's next configuration is a safe step within the grid |
| ServerSim.Simulator.DrainMoved | server/abomination.py:421-424 | exactly the agents that moved lose one unit of battery, not below zero |
| ServerSim.Simulator.UpdatePriorities | server/abomination.py:301-306 | an agent off its goal gains 1; one on its goal keeps only the fractional part, which is below 1 |
| ServerSim.Simulator.Assign | server/abomination.py:310-416 | every agent changes by the arrival rules, then by the dwell and charging rules, then is handed the last loader, dump and charger that served it; each kind's stations are handed over from the holders and queues left by the first two passes, after which no station is free while agents wait for it |
| ServerSim.Simulator.Move | server/abomination.py:417-427 | the planner aims each agent at its own cell while it waits at a loader and at its goal otherwise; the agents make a safe step; exactly the agents that moved lose one unit of battery; an agent off its goal gains one priority, one on it keeps the fractional part; time advances by one |
| ServerSim.Simulator.Step | server/abomination.py:308-428 | the conjunction of the station half and the motion half: each agent goes through the arrival, dwell and charging rules and the three hand-overs, then the planner's safe step, the battery drain and the priority update from that state; time advances by one and no station is free while agents wait for it |
| ServerSim.SeatAsWritten | server/abomination.py:191-198 | the seating loop as written finishes exactly when there are no more agents than loaders |
| Stacked.OccNow | src/ts/game.ts:112-113 | `occupied_now` after the fill loop: each recorded agent stands on its cell, every start cell records someone |
| Stacked.Recorded | src/ts/game.ts:113 | an agent is recorded exactly when no later agent shares its cell, so an earlier agent on a shared cell is recorded nowhere |
| Stacked.Pibt | src/ts/game.ts:90-107 | `funcPIBT` as written with no premise on the starts keeps the sizes of `Q_to` and `occupied_nxt` |
| Stacked.Try | src/ts/game.ts:92-104 | the candidate loop as written keeps the sizes of `Q_to` and `occupied_nxt` |
| Stacked.ResolveFrom | src/ts/game.ts:116 | the priority loop as written gives one entry per agent |
| Stacked.StepAsWritten | src/ts/game.ts:109-118 | `step` as written gives one entry per agent, with no premise on the starts |
| Stacked.CandsLegal | src/ts/game.ts:91-92 | in the stacked run every candidate is the agent's cell or a grid neighbour of it |
| Stacked.Collides | src/ts/game.ts:109-118 | the stacked run's result puts two agents on one cell, so it is not a safe step |
| Stacked.SafeExists | src/ts/game.ts:109-118 | a safe step exists from the stacked starts |
| Stacked.HiddenStart | src/ts/game.ts:258-264 | with two agents on one start, `occupied_now` hides the first, and `step` as written puts it and a third agent on one cell although a safe step exists |
| MapClasses.FirstBad | src/vis/MapClass.ts:37-40 | the first row of the wrong width: every row before it has the width, and it is past the end when all do |

## Left out

- Continuous motion: headings, velocities and braking in every controller's `Agent.step`, and `server/robot.py`. These are floating-point trigonometry. Arrival is a boolean parameter of the discrete contracted/extended transition.
- Rendering and UI: Two.js drawing (`drawGrid`, `drawPD`, `layout`, `destroy`), the drawing half of each controller's `update`, React components and pages.
- Randomness: `shuffle`, `Math.random`, `rng.shuffle`, `py_rng.shuffle`/`randint`/`randrange` and `rng.choice` become parameters (a permutation, an index or a draw within its range). Every property is stated for all of them.
- Timing: `performance.now` and the clamping of `dt`.
- Networking and the async loops of the server and client, `server/solver.py`, `python/main.py` and the console driver `src/pibt/demo.ts`.
- The lock-based controller's `update`, `mount` and `performReplan` orchestration. Its path search, locks, fragment chaining, `computePaths` and `pickNewGoal` are modelled.
- File I/O: `load_movingai_map` and the `open`/`readline` plumbing of `server/map_reader.py`. The parsers take the file as a sequence of lines.
- `console.log` output and the event dictionaries that `Simulator.step` returns. Only the state changes are modelled.
- `Solution.ts` `orientationToRotation`: it returns radians.
- Floating point: the server's priorities are exact `real`s, not IEEE doubles. The same holds for the second controller's.
- numpy storage: grids are boolean sequences. INT32_MAX is a constant.
- ServerSim.Simulator: `dist(target, pos)` is a parameter that stands for `dist_to`. It is not tied to `DistTables.ServerDistTable`, so the cache filling of `dist_to` is not modelled.
- ServerSim.Simulator: the constructor requires at least one loader, dump and charger. The source would raise on an empty list when an agent first queues.
- ServerSim.Simulator: the `index` dictionary of `StationSet`, and the `staging` and `queued` fields of `AgentState`, are never read by the source. They are not modelled.
- Mapd.MapdGame.constructor: the agents' starts and the pickup and delivery lists are parameters, not the hard-coded 8x8 layout. That layout starts ten agents on `pickups[i % 2]` of two pickups (src/ts/game.ts:258-264), so five agents share each pickup cell; the resolver's distinct-start premise excludes it, and `Stacked.HiddenStart` shows what the planner does with stacked starts.
- Decimal.JsNumberOf: only blank text and an optional sign followed by ASCII decimal digits are read; text that JavaScript's `Number()` reads as some other number (a fraction such as `4.0` or `1.5`, an exponent such as `4e0`, a `0x`/`0o`/`0b` prefix, `Infinity`) is NaN in the model. So a map header `height 4.0`, which `MapClass` accepts as 4, is rejected here, and a pose written `(1.0,2,X_MINUS)` is refused.
- Decimal.IntToString: JavaScript writes integers of magnitude 10^21 and above in exponent form and loses precision beyond 2^53; the model writes every integer in full, exactly.
- Decimal.Lower: ASCII only. Python's `lower()` also lowers non-ASCII capitals, so a header such as `WİDTH 5` is classified differently.
- MapReaders.LeadingDigits: ASCII digits only. Python's `\d` and `int()` also accept other Unicode decimal digits.
- MapClasses.MapClass.ParseGraph: a row's length counts Unicode code points, while `.length` in src/vis/MapClass.ts:39 counts UTF-16 code units. So a row holding a character outside the Basic Multilingual Plane passes or fails the width check differently.
- MapClasses.MapClass.ParseLines: the same code-point counting, for the width check and the cell keys it files (src/vis/MapClass.ts:38-47).
- MapClasses.FileRows: `row[x]` reads the x-th code point, while src/vis/MapClass.ts:43 reads the x-th UTF-16 code unit. The cell indices of a row with such a character therefore differ from the source's.
- JavaScript `for ... of` over an array the loop body extends: modelled over a snapshot. The invariants show that the appended entries are skipped.
- PibtPlanning.Planner.PlanAll: it does not promise that no two agents trade cells. For the loop as written, that property fails (see Findings).

## Findings

| source | as written | input that shows it | evidently intended | confidence | as-written member | corrected member |
|---|---|---|---|---|---|---|
| src/pibt/pibt.ts:162 | `step` calls `pibt(id)` for every agent in priority order, including agents that a recursive call has already planned. The repeated call can overwrite a plan entry after its own swap test read the old one. | A 4x3 grid with (2, 2) blocked and four agents in priority order at (0, 0), (0, 1), (1, 1) and (1, 2), heading for (0, 2), (2, 1), (3, 2) and (0, 0). The third call re-plans agent 2 onto (1, 2) while agent 3 takes (1, 1), so agents 2 and 3 trade cells. | Call `pibt` only for agents without a plan entry, so that no two agents trade cells; the step of the map-based game, `PibtSteps.Floor.PlanMoves` and `PibtSteps.Floor.Step`, is built on that corrected planner. | not executed | PibtStale.StaleReplanSwaps | PibtPlanning.Planner.PlanGuarded |
| server/abomination.py:191-198 | `__init__` seats the agents before it creates `staging_reserved`. An agent that finds every loader held goes to `find_staging_cell_near`, which reads the missing attribute. | 8 starts and 4 loaders, as in the `__main__` driver: the fifth agent raises AttributeError. | Create `staging_reserved` before the seating loop, so that extra agents wait on reserved staging cells. | not executed | ServerSim.SeatAsWritten | ServerSim.Simulator.constructor |
| src/ts/game.ts:258-264 | The constructor starts ten agents on `pickups[i % 2]`, two pickup cells, so five agents share each start. `step` records only the last agent of each cell in `occupied_now`, so the others are invisible: nobody pushes them and no swap test looks at them. | A 3x1 grid with agents 0 and 1 on cell 1 and agent 2 on cell 0, heading for cells 0, 2 and 2, in priority order 2, 1, 0. Agent 2 claims cell 1 and pushes agent 1 on to cell 2; agent 0 finds every candidate blocked and stays on cell 1, so agents 0 and 2 end on one cell. | Start the agents on distinct cells, so that every step is safe. | not executed | Stacked.HiddenStart | Mapd.MapdGame.constructor |
