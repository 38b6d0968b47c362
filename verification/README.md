# Slime mould simulation, modelled in Dafny

This project models the discrete engine of the slime mould simulation:

- **Vectors and circles** (`base.dfy`, module `Base`). A `Vector` is a 2D vector that wraps a two-slot array by reference. Its `x`/`y` views read and write that array. `CircleFactory.build` makes circles for the renderer.
- **Simulation objects** (`objects.dfy`, module `Objects`):
  - the bounded, newest-first trail store (`LimitedStore`);
  - the `Agent`, with `move`, `check_bounds`, `sense`, `turn` and `_get_non_self_agents`;
  - `measure_cos_theta`;
  - the two agent factories and `make_n_agents`;
  - the `SpatialGrid`, which buckets agents by integer cell.
- **The driver** (`slime.dfy`, module `Slime`). `SlimeMoldSimulation` covers start-up and one tick of the world, `_run_one_timestep`.

The code that changes state in place is modelled as classes over arrays and fields, with `modifies` frames:

- `Vector` over an `array<int>`;
- `Agent` over two vectors;
- `LimitedStore` with a `seq` field;
- `SpatialGrid` with a `map` field;
- the simulation, with its agent list, trail list and step counter.

Each method is proved against a specification function:

- `sense` against `Closest`, a filtered arg-min over candidate positions;
- `get_nearby_agents` against `Nearby`;
- a whole tick against a value-level reference. `MovedPositions`, `Bounced` and `TickVelocities` compute the tick from the old positions and velocities.

Lemmas then state what those functions promise:

- the nearest qualifying candidate, earliest on ties;
- the 3x3 block's membership;
- which agents a tick's grid query sees;
- the trail's newest-first content.

The cosine of `measure_cos_theta` is kept exact. It is either the raw dot product or a quotient `dot / sqrt(p)`, so `cos_theta < 0.5` is decided without a square root (`BelowHalf`, `BelowHalfExact`). Distances are compared as squared distances. The square root keeps strict order, so this picks the same agent.

## Model

| member | source | states |
|---|---|---|
| Base.Sub | base.py:22-25 | the difference is the vector that, added back to the second operand, gives the first |
| Base.SubAdd | base.py:22-25 | subtracting what was added gives back the original point |
| Base.NormSq | objects.py:58 | the squared norm is never negative and is zero exactly at the origin |
| Base.Vector.constructor | base.py:6-11 | the vector keeps the given array itself, not a copy, and shows its two entries |
| Base.Vector.X | base.py:27-29 | the `x` getter reads slot 0 of the backing array, so a write through any alias of that array is seen |
| Base.Vector.Y | base.py:34-36 | the `y` getter reads slot 1 of the backing array, so a write through any alias of that array is seen |
| Base.Vector.Iter | base.py:14-17 | iterating yields exactly two items, the array's entries, x then y |
| Base.Vector.SetX | base.py:30-32 | setting x writes slot 0 only; y is unchanged |
| Base.Vector.SetY | base.py:38-40 | setting y writes slot 1 only; x is unchanged |
| Base.Vector.Minus | base.py:22-25 | `__sub__` returns a new vector over a new array holding the component-wise difference; neither operand changes |
| Base.CircleFactory.Build | base.py:61-65 | the centre, alpha and factory colour pass through; the radius is the given one, or the factory's when none is given |
| Base.DefaultRadius | base.py:61-63 | omitting the radius is the same as passing the factory's radius |
| Objects.PrefixSlice | objects.py:18 | Python's `s[:k]` is a prefix of `s` of length `min(k, len)`, or `len + k` floored at 0 for negative `k` |
| Objects.Pushed | objects.py:16-18 | after `add` the item is at index 0, the older entries follow newest first, and the length is `min(size, old length + 1)` |
| Objects.NewestFirst | objects.py:16-18 | after any run of `add`s the store is the added items newest first, then the old entries, cut to `size` |
| Objects.HistoryExample | test_objects.py:27-32 | adding foo, bar, hey leaves `[hey, bar]` at size 2 and `[hey]` at size 1 |
| Objects.LimitedStore.constructor | objects.py:12-14 | a new store has the given size and no entries |
| Objects.LimitedStore.Add | objects.py:16-18 | `add` leaves the store as `Pushed` describes |
| Objects.MeasureCosTheta | objects.py:84-92 | the raw dot product is returned exactly when it is not positive, so no norm is computed and a zero vector gives 0; otherwise a quotient with positive dot and norm product |
| Objects.BelowHalfExact | objects.py:54-55 | for every real number the cosine stands for, `d / sqrt(p)` included when it is irrational, the root-free test `BelowHalf` agrees with `cos_theta < 0.5` |
| Objects.BelowHalfMeans | objects.py:55 | on any cosine with a positive norm product, `BelowHalf` holds exactly when the real number it stands for is below one half |
| Objects.CosineDiagonal | objects.py:51-56 | heading (2, 0) and offset (1, 1) give the irrational cosine `1 / sqrt(2)`, which is at least one half, so the candidate passes the cone |
| Objects.CosineOfSelf | objects.py:84-92 | the cosine of a nonzero vector with itself stands for exactly 1 |
| Base.Dot | objects.py:85 | `np.dot`; a vector's dot product with itself is its squared norm |
| Objects.CosineExample | test_objects.py:62-67 | for (3, 4) with itself the cosine is 25 / sqrt(625), exactly 1 |
| Objects.CosineAtMostOne | objects.py:84-92 | the real number a cosine stands for never exceeds 1 (Cauchy-Schwarz) |
| Objects.ConeTest | objects.py:54-56 | a candidate passes the cone exactly when the dot product is positive and four times its square reaches the product of squared norms |
| Objects.Qualifies | objects.py:51-56 | a candidate survives both `continue`s of `sense`: inside the 100-wide box and `cos_theta >= 0.5`; `ConeTest` gives the cone in closed form |
| Objects.Closest | objects.py:47-63 | the scan of `sense` over candidate positions; its result, when there is one, indexes a candidate; `ClosestChoice` states what it picks |
| Objects.ClosestChoice | objects.py:50-63 | the scan finds nothing iff no candidate qualifies; otherwise a qualifying candidate at minimum distance, strictly nearer than every earlier qualifying one (first wins ties) |
| Objects.NearerSecond | objects.py:59-61 | of two qualifying candidates the second replaces the first only when strictly nearer |
| Objects.SenseExample | test_objects.py:48-52 | from (0, 0) heading (0, 2), among (2, 2) and (1, 1), the scan picks (1, 1) |
| Objects.Blend | objects.py:67-68 | `(1 - alpha) * velocity + alpha * (target - position)`, whose meaning `BlendInterpolates` states |
| Objects.BlendInterpolates | objects.py:67-68 | the blend moves the heading `alpha` of the way to the vector to the target: alpha 0 keeps it, alpha 1 gives that vector |
| Objects.Reflect | objects.py:35-42 | bouncing keeps the magnitude of each velocity component, and inside the world it keeps the velocity |
| Objects.ReflectTwice | objects.py:35-42 | the position is untouched, so reflecting twice restores the velocity |
| Objects.Agent.constructor | objects.py:26-28 | the agent holds the given position and velocity vectors themselves |
| Objects.Agent.Move | objects.py:30-31 | the position array gains the velocity component-wise; the velocity is unchanged |
| Objects.Agent.CheckBounds | objects.py:35-42 | the velocity becomes the reflected velocity, each component negated on its own when the position is outside `[0, max]` on that axis; the position is unchanged |
| Objects.Agent.NonSelfAgents | objects.py:73-77 | the result holds every given agent other than this one as often as it is given, and this one not at all |
| Objects.Agent.NonSelfConcat | objects.py:75-77 | the filter keeps order: filtering a concatenation concatenates the filtered parts |
| Objects.Agent.KeptBefore | objects.py:75-77 | an agent listed before the first appearance of a kept agent is kept before it |
| Objects.Agent.Sense | objects.py:45-63 | returns null or another agent of the list, namely the one `Closest` picks over the other agents' positions; changes nothing |
| Objects.Agent.Turn | objects.py:65-70 | the velocity becomes the rescaled blend of the old velocity with the vector to the target; the position is unchanged |
| Objects.Build | objects.py:104-124 | a new agent over the given position array; the random factory gives it a new velocity vector holding the draw, the fixed factory its own shared vector |
| Objects.MakeNAgents | objects.py:128-141 | fails on `n <= 0` and on a centre list of the wrong length, succeeds otherwise with `n` new, distinct agents, the `i`-th at the `i`-th centre on a copied array; random velocities are the draws and share nothing, fixed ones are the factory's vector |
| Objects.Place | objects.py:140-141 | one pass copies the centre's array and builds an agent over the copy |
| Objects.BuildAsWritten | objects.py:104-124 | as written, the random factory builds an agent exactly when given a bare array and the fixed factory exactly when given a `Vector`; a bare array stops the fixed factory with the attribute error |
| Objects.PlaceAsWritten | objects.py:140-141 | as written, one pass hands `build` a bare copy of the centre's array: the random factory builds an agent at the centre, the fixed factory stops |
| Objects.TurnLengthSqAsWritten | objects.py:68-70 | as written, a blend of Euclidean length `len` is scaled by `2 / sqrt(len)` and stored with squared length `4 * len`, not 4 |
| Objects.ScaledLength | objects.py:70 | scaling a blend by `k` multiplies its squared length by `k * k` |
| Objects.TurnStretchesAsWritten | test_objects.py:54-59 | turning (0, 2) at alpha 0 blends to (0, 2) itself, of length 2, which as written is stored with squared length 8 instead of 4 |
| Objects.TurnLengthSq | objects.py:69-70 | scaled by 2 over its Euclidean length, any nonzero blend is stored with squared length 4, the original magnitude squared |
| Objects.CellOf | objects.py:150-151 | `_get_cell` by floor division; `CellBounds` states which coordinates each cell holds |
| Objects.CellBounds | objects.py:150-151 | a cell index holds exactly the coordinates in `[k * cellSize, (k + 1) * cellSize)` |
| Objects.Insert | objects.py:153-157 | the agent is appended to the end of its cell's bucket, which is created when absent; every other bucket is unchanged |
| Objects.FilledBuckets | slime.py:40-43 | after adding a list of agents, each bucket lists exactly the agents of that cell in list order, and only cells of some agent have buckets |
| Objects.Nearby | objects.py:159-167 | the buckets of the 3x3 block around a cell, dx outer and dy inner; `NearbyMembers` states which agents they hold |
| Objects.NearbyMembers | objects.py:159-167 | the query returns exactly the agents in the buckets of the 3x3 block; an agent two or more cells away on either axis is not returned |
| Objects.NearbyOfEmpty | objects.py:169-170 | after `clear`, every query returns nothing |
| Objects.WideCellsCover | objects.py:52-53 | with cells at least 100 wide, every candidate the bounding box admits lies in the 3x3 block |
| Objects.NarrowCellsMiss | slime.py:19 | with 70-wide cells, a candidate 100 ahead qualifies but lies two cells away |
| Objects.SpatialGrid.constructor | objects.py:145-148 | a new grid has the given cell size and world size and no buckets |
| Objects.SpatialGrid.AddAgent | objects.py:153-157 | the grid becomes `Insert` of the agent under the cell of its current position |
| Objects.SpatialGrid.GetNearbyAgents | objects.py:159-167 | the loops return `Nearby` of the position's cell: the 3x3 block's buckets, dx outer and dy inner; the grid is not changed |
| Objects.SpatialGrid.GatherColumn | objects.py:163-166 | the inner loop appends the buckets of one column of the block in dy order |
| Objects.SpatialGrid.Clear | objects.py:169-170 | the grid has no buckets afterwards |
| Slime.TargetChoice | objects.py:45-63 | at the value level, sensing finds nothing iff no other candidate qualifies, otherwise a qualifying agent no farther than any qualifying agent |
| Slime.TargetFirstOnTies | objects.py:50-61 | ties go to the agent listed first: every qualifying other agent listed before the target's first appearance is strictly farther |
| Slime.TickTarget | slime.py:46-50 | the agent a tick's agent senses is another agent of the simulation |
| Slime.TickGridSeesMoved | slime.py:40-46 | a query during a tick returns an agent exactly when the cell of its moved position is adjacent, so every query sees all post-move positions |
| Slime.OffScheduleKeepsHeading | slime.py:48 | an agent off its sensing turn ends the tick with its bounced velocity |
| Slime.SlimeMoldSimulation.constructor | slime.py:15-23 | an empty 720 x 720 world with 70-wide cells, circle factory radius 2 and colour white, step 0 |
| Slime.SlimeMoldSimulation.Start | slime.py:26-33 | `n <= 0` adds nothing; otherwise `n` new agents at (360, 360) with the drawn velocities, each with a new empty trail |
| Slime.SlimeMoldSimulation.Enrol | slime.py:31-33 | each agent is appended together with a new, empty trail of its own |
| Slime.SlimeMoldSimulation.RunOneTimestep | slime.py:36-57 | the step counter rises by one; positions, velocities and trails end as the reference tick computes them from the old ones; agents and trails stay the same objects; the grid ends empty |
| Slime.SlimeMoldSimulation.Tick | slime.py:40-57 | the two loops and `clear` leave positions, velocities, trails and grid as the reference tick says |
| Slime.SlimeMoldSimulation.MoveAll | slime.py:40-43 | every agent is moved and bounced before any senses, and the grid holds all of them under their moved cells |
| Slime.SlimeMoldSimulation.MoveStep | slime.py:40-43 | one more pass of the first loop keeps its invariant |
| Slime.SlimeMoldSimulation.MoveOne | slime.py:41-43 | one agent moves and bounces, no other agent changes, and only its cell's bucket grows |
| Slime.SlimeMoldSimulation.SenseAll | slime.py:45-54 | positions stay put; velocities become the reference's steered velocities; each trail gains the agent's position at the front |
| Slime.SlimeMoldSimulation.SenseOne | slime.py:46-54 | only agent `i`'s velocity and trail change, to its steered velocity and its pushed trail |
| Slime.SlimeMoldSimulation.Steer | slime.py:48-52 | agent `i` turns towards its target only on its sensing turn and only when one is found |
| Slime.SlimeMoldSimulation.FindTarget | slime.py:46-49 | the grid query and `sense` return the reference's target for agent `i` |

## Left out

- Coordinates are integers, as in the repository's tests. The source computes on numpy floats (`d/2` in `start`, `cos`/`sin` velocities); rounding is not modelled.
- Objects.Agent.Turn: the rescaling by `ORIGINAL_MAGNITUDE / sqrt(norm(...))` is a parameter `renormalise` from integer points to integer points, because it needs a square root. No such function rescales exactly, so `Turn` promises nothing about the stored length; the length law is stated on reals by `TurnLengthSqAsWritten` and `TurnLengthSq`, apart from `Turn`. A zero blend, which divides by zero in the source, is not modelled either.
- Turn writes the new velocity into the existing array. The source binds a new array to the velocity vector. Under the random factory no other object sees that array, so nothing observable differs.
- Random velocities: `random.uniform`, `cos` and `sin` are replaced by a parameter `draws`, whose `i`-th value is the `i`-th agent's velocity.
- Objects.Build: takes a `Vector` over the copied array, not the bare array that `make_n_agents` passes; see Findings. `BuildAsWritten` models the factories as written.
- The `TypeError` branch of `make_n_agents` cannot be reached with typed arguments (`Centre` is either one vector or a list).
- Objects.SpatialGrid.AddAgent and GetNearbyAgents require a positive cell size; the source never uses another.
- Vectors are two-dimensional; `Vector` requires an array of length 2.
- Objects.LimitedStore.Get returns the store list itself and carries no contract of its own.
- Objects.Blend, Objects.Qualifies, Objects.CellOf, Objects.Nearby, Base.Vector.X and Base.Vector.Y only compute; their meaning is stated by the lemmas and methods their rows name.
- The rendering tail of `_run_one_timestep` (slime.py:59-67), `make_world`, the game engine, `try_running_one_timestep` and the main loop are I/O on pygame and are left out. So are `__str__` and `_plotted_points`.
- pygame_interactions.py is not part of this model.

## Findings

| source | as written | input that shows it | evidently intended | confidence | as-written member | corrected member |
|---|---|---|---|---|---|---|
| objects.py:122, objects.py:141 | `make_n_agents` passes `np.array(c.coordinates)` to `build`, and `FixedVelocityAgentFactory.build` reads `position.coordinates` from it | `make_n_agents(3, [Vector(...)] * 3, FixedVelocityAgentFactory(v))`, as in test_objects.py:40-46, raises an attribute error on the first agent | the fixed factory wraps the array it is given, as the random factory does (objects.py:106) | high; not executed | Objects.BuildAsWritten, Objects.PlaceAsWritten | Objects.MakeNAgents |
| objects.py:69-70 | the blend is scaled by `2 / sqrt(norm(blend))`, so the stored velocity has length `2 * sqrt(norm)` | `turn` with alpha 0 on velocity (0, 2), as in test_objects.py:54-59, stores about (0, 2.83), squared length 8 | the velocity is rescaled to `ORIGINAL_MAGNITUDE`, 2, by dividing by the norm itself | high; not executed | Objects.TurnLengthSqAsWritten, Objects.TurnStretchesAsWritten | Objects.TurnLengthSq |

`Turn` and the tick take the rescaling as a parameter `renormalise` on integer points. Neither the rescaling as written nor the corrected one is such a function: both produce irrational coordinates in general. The two rescalings are stated on real numbers, in `TurnLengthSqAsWritten` and `TurnLengthSq`, and are not connected to `Turn`.
