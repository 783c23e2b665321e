# BioCrowds steering kernel

This project models the per-frame crowd-steering kernel of the BioCrowds
demo (`src/main.js`, `src/agent.js`, `src/marker.js`) and proves properties
of that model. The ground plane is 40 x 40 units and is covered by
stratified-sampled markers. Those markers sit in a 44 x 44 uniform grid of
buckets.

Every frame, `onUpdate` clears the owner of every marker. Then each agent,
in list order, takes a turn:

1. It empties its own list.
2. It scans the grid cells around its own cell, with the lower-only clamp
   the source uses.
3. It runs `setOwner` on every marker it visits. `setOwner` is a running
   minimum over all agents' ground-plane distances under a strict threshold
   of 4. The winner becomes the owner and gets the marker appended to its
   list.
4. It blends the unit displacements to the markers it holds into a new
   direction. Each displacement is weighted by (1 + cos θ) / (1 + distance).
   The blend is divided by the total weight and capped at length 8.
5. It moves by direction * timestep * 5, re-aims at its goal and drops its
   markers.

The model follows the code's own order. Claiming, steering and moving are
interleaved agent by agent, so a later agent claims against the positions of
agents that have already moved. The lower-only clamp is kept, and the
neighbourhood must fit the grid. A zero total weight is an explicit failure
rather than a fallback direction. A design that separates the phases, clamps
both ends and falls back to a cruising speed would differ from the code on
each of these three points.

Layout:

- `wrappers.dfy` defines `Option`.
- `vectors.dfy` holds the THREE.Vector3 operations the kernel uses, over
  reals. A square root cannot be defined here, so it is a parameter `sqrt`
  that must satisfy `IsSqrt`.
- `grid.dfy` holds the cell index mapping, the scanned index ranges and the
  row-major order of the scan, all as values.
- `claiming.dfy` holds the `setOwner` selection rule, on a list of distances.
- `steering.dfy` holds the `computeNewDirection` blend and cap, as functions
  with their bounds.
- `crowd.dfy` holds the `Marker` and `Agent` classes:
  - their fields are updated in place;
  - the grid scan is a nested loop proved against `Neighbourhood`, `Won`
    and `ClaimedOwner`;
  - the steering loop is proved against `Steer`.
- `simulation.dfy` holds the scene as a class `World`: the grid
  (`array2<seq<Marker>>`), the marker and agent lists, marker placement,
  `clearScene` and `onUpdate`.

## Model

| member | source | states |
|---|---|---|
| Vectors.LengthSq | src/agent.js:63 | A squared length is never negative and is zero exactly for the zero vector. |
| Vectors.LengthOfSquare | src/agent.js:63 | `length()` is the non-negative root of the squared length, and it is zero only for the zero vector. |
| Vectors.NormalizeUnit | src/main.js:177-178 | `normalize()` gives a vector of squared length 1, and it leaves the zero vector at zero. |
| Vectors.ScaleTwice | src/main.js:170-172 | Scaling by the timestep and then by 5 equals one scaling by their product. |
| Vectors.DotBounded | src/agent.js:68 | The dot product of two vectors of length at most 1 (the cosine) lies in [-1, 1]. |
| Grid.Ceil | src/agent.js:34-35 | Math.ceil: the least integer not below x. |
| Grid.CellIndexInRange | src/main.js:66-67 | A coordinate in [-20.5, 21) maps to a cell index ceil(x) + 20 between 0 and 41. |
| Grid.ScanRange | src/agent.js:37-44 | The scanned indices on one axis are never negative and never an empty range. They span at most 6 indices and are exactly [c - 3, c + 3) once c >= 3. When c + 3 <= 0, index 0 is still visited once. |
| Grid.ScanFitsGrid | src/agent.js:45 | With no upper clamp, the scan stays inside a 44-cell axis exactly when the centre index is at most 41. |
| Grid.RowCellsShape | src/agent.js:38 | One row of the scan holds exactly the columns [jlo, jhi), in strictly increasing order. |
| Grid.ScanCellsShape | src/agent.js:37-38 | The nested loops visit exactly the cells of the rectangle, each once, in row-major order. There are (rows x columns) of them. |
| Grid.ScanPrefixNextCell | src/agent.js:45-49 | Visiting one more cell appends that cell's markers to the markers visited so far. |
| Grid.ScanPrefixNextRow | src/agent.js:37-38 | Finishing a row of the scan is the same as starting the next one. |
| Grid.ScanPrefixWhole | src/agent.js:37-51 | A finished scan has visited the whole neighbourhood, in visiting order. |
| Grid.NeighbourhoodInside | src/agent.js:45 | When the scanned range fits the grid, every visited cell index is in bounds. |
| Grid.NeighbourhoodShape | src/agent.js:37-44 | A scan visits no cell twice, never a negative index, and at most 36 cells. Away from the lower edges it visits exactly the 6 x 6 block around the agent's cell. |
| Claiming.Nearest | src/marker.js:15-24 | The running minimum selects an index only if its distance is below 4. That index has the least distance and lies strictly below every earlier index's distance. It selects nothing exactly when every distance is at least 4. |
| Claiming.NearestIsArgmin | src/marker.js:18-24 | Both directions: the running minimum selects k if and only if k is the lowest-indexed least distance below 4. |
| Claiming.ThresholdExclusive | src/marker.js:16-20 | An agent at distance 4 or more is never selected. |
| Steering.WeightRange | src/agent.js:69 | (1 + cos θ) / (1 + d) lies in [0, 2] for cos θ in [-1, 1] and d >= 0. |
| Steering.WeightBounds | src/agent.js:61-69 | With a goal direction of length at most 1, every marker's weight lies in [0, 2]. |
| Steering.WeightZero | src/agent.js:68-69 | A weight is zero exactly when the marker lies straight against the goal direction. |
| Steering.SumsSnoc | src/agent.js:72-74 | One loop iteration adds the marker's weight to the total and its weighted unit displacement to the sum. |
| Steering.TotalWeightFacts | src/agent.js:57-75 | The total weight of n markers lies in [0, 2n]. It is zero exactly when every marker's weight is zero. |
| Steering.CapBound | src/agent.js:80-82 | The capped vector has length at most 8. A vector within the limit is unchanged, and a longer one ends with length exactly 8. |
| Steering.Steer | src/agent.js:54-85 | No markers means no direction (division by zero). Any direction produced has length at most MAX_SPEED. |
| Steering.SteerUndefined | src/agent.js:77 | Both directions: the division by a zero total happens exactly when every held marker lies straight against the goal direction, which includes holding none. |
| Crowd.Advance | src/main.js:170-178 | Position, plane position and mesh position all move by direction * 5 * timestep, and the direction is kept. |
| Crowd.AdvanceKeepsPlaced | src/main.js:170-178 | A move keeps the AGENT_HEIGHT / 2 offset between position and plane position that src/agent.js:10 sets. It keeps the mesh on the position and leaves a goal direction of length at most 1. |
| Crowd.Winner | src/marker.js:18-24 | The selected agent is an index into the agent list. |
| Crowd.ClaimedOwner | src/marker.js:26-27 | After a sequence of setOwner calls, a marker keeps its earlier owner, or it was visited and is owned by an agent of the list. |
| Crowd.WonSnoc | src/marker.js:26-28 | One setOwner call appends the marker to the list of the agent that wins it and to no other list. |
| Crowd.RepeatedClaim | src/marker.js:18-28 | Repeating setOwner on a marker picks the same owner again, but it appends the marker to the winner's list a second time. |
| Crowd.ClaimedStart | src/agent.js:32 | Before any setOwner call of a scan, every list and every owner is as it was at the start. |
| Crowd.ClaimStep | src/marker.js:26-28 | The scan state (every list is its start followed by the markers it won, and every owner is its claimed owner) extends by one setOwner call. |
| Crowd.ClaimOne | src/agent.js:47-48 | One setOwner call extends the scan state by the marker it ran on. |
| Crowd.ClaimAt | src/agent.js:46-49 | The call on marker k of a cell extends the scan state from that cell's first k markers to its first k + 1. |
| Crowd.ClaimMarkers | src/agent.js:46-49 | The loop over a cell extends the scan state by all that cell's markers, in order. |
| Crowd.Marker.constructor | src/marker.js:4-11 | A new marker has the given position and no owner. |
| Crowd.Marker.ClearOwner | src/marker.js:33-36 | clearOwner leaves the marker without an owner. |
| Crowd.Marker.ClosestAgent | src/marker.js:15-24 | The loop over the agents computes the running minimum of their ground-plane distances under the threshold 4. |
| Crowd.Marker.SetOwner | src/marker.js:14-31 | The winner becomes the owner, and with no winner the owner is unchanged. The marker is appended to the winner's list and to no other list. No agent moves. |
| Crowd.Agent.constructor | src/agent.js:8-21 | Position and goal are given, and the plane position is AGENT_HEIGHT / 2 below the position. The goal direction is the normalised direction to the goal, the direction equals it and the list is empty. The new agent is well placed. |
| Crowd.Agent.AddMarker | src/agent.js:23-25 | Appends exactly the one marker at the end of the list. |
| Crowd.Agent.ClearMarkers | src/agent.js:27-29 | Empties the list. |
| Crowd.Agent.SetNearbyMarkers | src/agent.js:31-52 | Each agent's list becomes its list at the start, followed by the markers of the scanned neighbourhood it wins, in visiting order. The scanning agent's own list starts empty. Every marker gets its claimed owner, and no agent moves. |
| Crowd.Agent.ScanRow | src/agent.js:38-50 | The middle loop, with the in-loop clamp of i and j, scans exactly one row of the neighbourhood. It extends the scan state by that row's markers. |
| Crowd.Agent.Move | src/main.js:170-178 | The agent's kinematics become Advance of its old kinematics. |
| Crowd.Agent.ComputeNewDirection | src/agent.js:54-85 | The new direction is Steer of the held markers' positions, and its length is at most MAX_SPEED. A zero total weight reports failure and leaves the direction unchanged. |
| Simulation.SampleCount | src/main.js:60-61 | The sampling loop runs exactly 54 times on each axis. |
| Simulation.SampleInGrid | src/main.js:51-67 | A jittered sample coordinate lies in [-20.5, 20.25) and so in a cell between 0 and 41. |
| Simulation.World.constructor | src/main.js:11-21 | The grid is 44 x 44 with every cell empty, and there are no markers or agents. |
| Simulation.World.PlaceMarker | src/main.js:63-72 | A new marker is appended once to the cell (ceil(x) + 20, ceil(z) + 20) and once to the scene markers. No other cell changes, and the grid stays consistent. |
| Simulation.World.PlaceRow | src/main.js:61-73 | The inner sampling loop places the 54 markers of one row at their jittered sample positions. The earlier markers stay where they are. |
| Simulation.World.PlaceMarkers | src/main.js:60-74 | The placement loops add 54 x 54 markers after the existing ones, the n-th at SamplePosition(random, n). The grid stays consistent. |
| Simulation.World.SpawnAgent | src/main.js:126-133 | A new agent is appended to the scene agents, and every agent stays well placed. |
| Simulation.World.ClearScene | src/main.js:148 | The agent list is empty and the markers are kept. |
| Simulation.World.ClearOwners | src/main.js:160-162 | Every scene marker ends without an owner. |
| Simulation.World.Claim | src/main.js:166-167 | The current agent holds exactly the markers of its neighbourhood that it wins. Every other agent's list grows by exactly the visited markers it wins, in visiting order. Every marker has its claimed owner and no agent moves. |
| Simulation.World.FinishTurn | src/main.js:168-179 | The agent steers. If the total weight is non-zero, it moves by Advance with the steered direction and drops its markers. If the total weight is zero, it neither moves nor changes its list. |
| Simulation.World.StepAgent | src/main.js:166-179 | A whole turn: claim, steer, move, clear. The turn succeeds exactly when Steer of the won markers is defined, and then the agent moves by Advance with that direction and ends with no markers. Otherwise it keeps its motion, and Steer of the markers it still holds is undefined. No other agent moves, every other list grows by the markers it won, and owners are the claimed owners. |
| Simulation.World.AgentTurn | src/main.js:166-180 | A turn fails with OffGrid exactly when the agent's neighbourhood runs past the grid, and then nothing changes. Otherwise it fails with NoWeight exactly when Steer of the markers the agent won is undefined (the division by zero of src/agent.js:77). It carries the effects of StepAgent: the Advance move when the turn succeeds, the claimed owners and the other agents' won markers. No other agent moves in any case. |
| Simulation.World.OnUpdate | src/main.js:156-181 | A frame keeps the grid consistent and every agent well placed, and every owner names a scene agent. A frame stopped by OffGrid names an agent whose neighbourhood does not fit the grid. One stopped by NoWeight names an agent for which Steer of the markers it holds is undefined. After a complete frame the last agent holds no markers, and with no agents every owner is cleared. |

## Left out

- Rendering is not part of this model: three.js geometries, meshes, materials and colours, including the colour copy in `setOwner` and the colour reset in `clearOwner`. Also left out are the light, the plane mesh, the camera, the GUI, `Framework.init`, `lerpColor` and the scene-child removal loop in `clearScene`. The mesh position is kept as a plain field.
- `Math.random` becomes the input `random` of `PlaceMarkers`, one value in [0, 1) per draw. `THREE.Clock` becomes the parameter `timestep`.
- Floating point is not modelled: coordinates are reals, and rounding is not modelled.
- `sqrt` is not modelled: `Math.sqrt` inside `length()`, `normalize()` and `setLength()` is a parameter constrained by `IsSqrt`.
- `loadScene1` and `loadScene2` place agents with sin and cos, so they are left out. `SpawnAgent` models one of their `new Agent` plus `sceneAgents.push` steps with the positions as inputs.
- Simulation.World.AgentTurn: the source reads an undefined cell and throws part-way through the scan when the neighbourhood runs past the grid. The model reports OffGrid before the scan starts, so the partial scan is not modelled.
- Simulation.World.AgentTurn: when the total weight is zero, the source divides by zero at src/agent.js:77 and goes on with whatever direction three.js makes of that. Depending on the three.js version, that is a zero vector or a not-a-number vector. The model reports NoWeight and ends the frame instead.
- Crowd.Agent.SetNearbyMarkers: it requires the scanned range to fit the grid, because the source has no upper clamp and fails otherwise. That failure is modelled one level up, in AgentTurn.
- Simulation.World.OnUpdate: the frame is not composed turn by turn in its contract. It states the frame's invariants, the reason for a fault and the state of the last agent. What each turn does is stated by AgentTurn, which is the body of the frame's agent loop.
- Crowd.Advance: the velocity is one scaling by timestep * 5. Crowd.Agent.Move scales twice, as the source does, and is proved equal to Advance through ScaleTwice.
- An owner is the index of the winning agent in the list passed to `setOwner`, not a reference to the agent.
- The constructor makes `direction` and `goalDirection` the same THREE.Vector3 object. This aliasing has no effect in the source, because `computeNewDirection` replaces `direction` with a fresh vector before `goalDirection` is next changed. The model therefore keeps two value fields.
