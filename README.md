# last_of_ants: a verified model of the ant-colony core

This project models the simulation core of *last_of_ants*, a 2D game in
which ants live on a navigation mesh built from a tile map. The player walks
along walls, kills ants, collects clues and works out which ant is
"zombie zero". It is written in Dafny 4.11. The model covers these parts:

- the **navigation mesh** (`nav_mesh.rs`). One Background node is built per
  empty tile, and one edge node per side of an empty tile that faces a wall
  or the border. Edge nodes are linked to each other with Straight, Concave
  and Convex links.
- the **tile lookup** (`nav_mesh_lut.rs`), which maps world positions and
  grid coordinates to tile entities.
- the **pheromone fields**. The current six-channel field uses
  scatter/combine diffusion, evaporation, floor snapping, sources and
  per-node gradients. The two older revisions are a three-channel field
  (`pheromons.rs`) and a two-channel field (`pheromon.rs`).
- the **ant state machine**:
  - moving between the background and the walls, and moving along a surface
    (`position.rs`);
  - steering (`direction.rs`);
  - spawning on a node (`live_ants.rs`, `zombants.rs`);
  - goals, jobs and resource objects (`goal.rs`, `job.rs`, `object.rs`,
    `movement.rs`, `pheromon_source.rs`).
- the **small game state machines**:
  - pheromone deposits of dead ants, zombants and the queen;
  - the player's wall sensor;
  - clue reveal and clue placement;
  - player animation frames;
  - the ant material's flag word;
  - the key toggle and counter run conditions.

Each source file becomes one Dafny module in the file of the same name.
Code that updates state in place becomes classes, arrays and methods. The
methods are proved equal to specification functions, and the properties the
game relies on are proved about those functions as lemmas. Code that only
computes a value becomes functions and lemmas.

Modelling choices:

- **Entities** are `nat` ids, and ECS queries are maps or sequences.
- **Numbers and randomness.** `f32` is modelled as `real`. Random draws
  (`choose`, `choose_multiple`, `gen_range`, `gen_bool`) are parameters.
- **Commands.** The ECS commands a system issues are modelled as the
  sequence of commands in issue order.
- **Constants.** The crate-root constants TILE_SIZE, ANT_SIZE,
  ANT_WALL_CLIPPING, WALL_Z_FACTOR, COCOON_ROOMS and CLUES_NUMBER come from
  `lib.rs`. It is not part of this model, so they are a `GameConstants`
  parameter that requires their sizes to be positive.
- **Pheromone arrays.** A node's per-channel arrays are rows of an
  `array2<real>`: row m is node m and column i is channel i.

The files come from different revisions of the repository, and each is
modelled as written:

- `nav_mesh.rs` builds NavNodes whose links are all present. The later
  NavNode read by `gradients.rs` and `position.rs` has optional `left`,
  `right` and `back` on horizontal edges. It is a separate datatype, in
  module NavNodes.
- `direction.rs` reads `goal.job`, which `goal.rs` does not have. The model
  passes the ant's job in beside its movement record.
- `position.rs` reads `tile_width` and `tile_height` from the lookup
  table, which this revision of `nav_mesh_lut.rs` does not have. The model
  passes them to `update_ant_position` as parameters.
- `movement.rs` calls `reached_storage_target` and `reached_food_target`.
  The model binds them to `goal.rs`'s `step_storage` and `step_food`, which
  take the same arguments.

## Model

| member | source | states |
|---|---|---|
| NavMesh.NavNode.Neighbors | src/components/nav_mesh.rs:49-62 | a Background node has 4 neighbours and an edge node has 3, whose third is its back node, so the diffusion division is never by zero |
| NavMesh.Index2d.X | src/components/nav_mesh.rs:463-465 | the column lies in [0, width) |
| NavMesh.Index2d.Y | src/components/nav_mesh.rs:466-468 | the row lies in [0, height), and the index is row·width + column |
| NavMesh.Index2d.At | src/components/nav_mesh.rs:452-459 | the tile at given in-grid coordinates is a valid index in the same grid with those coordinates |
| NavMesh.Index2d.Up | src/components/nav_mesh.rs:469-478 | a neighbour, when there is one, is a valid index of the same grid (where it is: NeighborFacts) |
| NavMesh.Index2d.Left | src/components/nav_mesh.rs:479-488 | a neighbour, when there is one, is a valid index of the same grid (where it is: NeighborFacts) |
| NavMesh.Index2d.Down | src/components/nav_mesh.rs:489-498 | a neighbour, when there is one, is a valid index of the same grid (where it is: NeighborFacts) |
| NavMesh.Index2d.Right | src/components/nav_mesh.rs:499-508 | a neighbour, when there is one, is a valid index of the same grid (where it is: NeighborFacts) |
| NavMesh.Index2d.Neighbor | src/components/nav_mesh.rs:469-508 | the neighbour on a side, when there is one, is a valid index of the same grid |
| NavMesh.StepInGrid | src/components/nav_mesh.rs:489-508 | the +width and +1 steps stay below width·height away from the last row and the last column |
| NavMesh.NeighborFacts | src/components/nav_mesh.rs:469-508 | the neighbour on side s exists exactly when the coordinates one step away are in the grid, and it has those coordinates |
| NavMesh.SameCoords | src/components/nav_mesh.rs:452-468 | two tiles of one grid with the same column and row are the same tile |
| NavMesh.NeighborInverse | src/components/nav_mesh.rs:469-508 | stepping to a neighbour and back gives the starting tile |
| NavMesh.NeighborCorner | src/components/nav_mesh.rs:469-508 | two perpendicular steps commute, and the second exists whenever the pair does |
| NavMesh.Level.TileAt | src/components/nav_mesh.rs:452-459 | every tile number of the level is a valid in-grid index with that number |
| NavMesh.EdgeExists | src/components/nav_mesh.rs:138-162 | a side carries an edge exactly when its tile is empty and the neighbour there is off the map or not empty (exists_and_is_empty at 432-443), and the edge is the entity spawned for that side |
| NavMesh.LinkFacts | src/components/nav_mesh.rs:174-206 | every unwrap of an along-the-wall link is safe: a missing perpendicular edge implies the neighbour exists and is empty, and then the Straight or Convex target edge exists |
| NavMesh.LinkSymmetric | src/components/nav_mesh.rs:177-206 | an edge reached by a link of kind k links back to the starting edge with the same kind k |
| NavMesh.SymmetricConcave | src/components/nav_mesh.rs:177-206 | Concave links are symmetric |
| NavMesh.SymmetricConvex | src/components/nav_mesh.rs:177-206 | Convex links are symmetric |
| NavMesh.SymmetricStraight | src/components/nav_mesh.rs:177-206 | Straight links are symmetric |
| NavMesh.SpawnNavMesh | src/components/nav_mesh.rs:73-377 | the builder produces the edges of every tile (grid_edges) and exactly the node table that the NavNode specification functions give |
| NavMesh.SpawnEdges | src/components/nav_mesh.rs:138-162 | grid_edges holds, for every tile in order, the edges its sides carry |
| NavMesh.SpawnNodes | src/components/nav_mesh.rs:167-375 | every empty tile gets its Background node and each of its edges gets its edge node; nothing else is inserted |
| NavMesh.InsertEdgeNode | src/components/nav_mesh.rs:167-375 | the edge on side s of tile i, if any, receives its node and the rest of the table is kept |
| NavMesh.InsertBackground | src/components/nav_mesh.rs:367-374 | an empty tile's Background node is inserted for it, with its four links |
| NavMesh.BackLinks | src/components/nav_mesh.rs:174-176 | every edge's back is its own tile's Background node, whose link in the edge's direction is that edge (also lines 207, 304, 367-374) |
| NavMesh.EdgeLinksAreLinks | src/components/nav_mesh.rs:167-375 | an edge's along-the-wall links are its links towards the two perpendicular sides |
| NavMesh.EdgeLinksSymmetric | src/components/nav_mesh.rs:177-353 | if edge a reaches b with kind k, then b is an edge node that reaches a with kind k |
| NavMesh.NeighborsSymmetric | src/components/nav_mesh.rs:49-62 | every neighbour of a node is a node of the mesh and has the first node among its own neighbours (the links come from 167-375) |
| NavMesh.BackgroundLinkSymmetric | src/components/nav_mesh.rs:367-374 | a Background node's neighbour has it among its own neighbours |
| NavMesh.EdgeNeighborSymmetric | src/components/nav_mesh.rs:174-353 | an edge node's neighbour has the edge among its own neighbours |
| NavMesh.EdgeCollider | src/components/nav_mesh.rs:511-573 | the polyline collider of an edge is its first end, its middle (the origin) and its last end |
| NavMesh.EdgeColliderBends | src/components/nav_mesh.rs:525-538 | a Concave end turns towards the tile, a Convex end away from it, and a Straight end stays on the wall line |
| NavMesh.EdgeColliderMirror | src/components/nav_mesh.rs:551-564 | the collider of a right-side (down-side) edge mirrors that of the left-side (up-side) edge in x (y) |
| NavMeshLut.TileIndexFacts | src/resources/nav_mesh_lut.rs:30-33 | inside the tiled part of the map, the index floor(x/T) + floor((H·T − y)/T)·W is in range and decodes to the column and the row |
| NavMeshLut.TileCoords | src/resources/nav_mesh_lut.rs:30-32 | inside the tiled part of the map, the column and the row are in range |
| NavMeshLut.GridIndex | src/resources/nav_mesh_lut.rs:42 | row-major indexing of a w by h grid is in range and decodes back to the column and the row |
| NavMeshLut.GetTileEntityAsWritten | src/resources/nav_mesh_lut.rs:21-39 | as written: Missing outside the closed rectangle; an out-of-bounds index exactly when the guard admits a position whose index is past the table; on success, an empty tile and its entity |
| NavMeshLut.BottomBorderPanics | src/resources/nav_mesh_lut.rs:22-34 | y == 0 passes the guard and indexes one row past the table |
| NavMeshLut.RightBorderFindsWrongTile | src/resources/nav_mesh_lut.rs:22-38 | x == W·T passes the guard and resolves to the first tile of the next row |
| NavMeshLut.GetTileEntity | src/resources/nav_mesh_lut.rs:21-39 | Some exactly for a position in [0, W·T) × (0, H·T] over an empty tile; the result is that tile's entity and its index, and the tile's square contains the position, with rows counted from the top |
| NavMeshLut.GetTileEntityAgrees | src/resources/nav_mesh_lut.rs:21-39 | away from the two borders the guard wrongly admits, the corrected lookup and the written one agree |
| NavMeshLut.GetTileEntityGridAsWritten | src/resources/nav_mesh_lut.rs:41-49 | as written: an out-of-bounds index exactly when index == len; otherwise below len, the entity at the index |
| NavMeshLut.GridIndexAtLengthPanics | src/resources/nav_mesh_lut.rs:42-48 | the cell just past the last one passes the guard and indexes out of bounds |
| NavMeshLut.GetTileEntityGrid | src/resources/nav_mesh_lut.rs:41-49 | Some exactly when x + y·W < len, with the entity at that index |
| NavMeshLut.GetTileEntityGridAgrees | src/resources/nav_mesh_lut.rs:41-49 | the two grid lookups agree away from index == len |
| NavMeshLut.GetTileEdges | src/resources/nav_mesh_lut.rs:51-53 | returns the stored edges of the tile unchanged |
| Pheromones.PheromoneKind.Index | src/components/pheromones.rs:8-17 | every discriminant is below N_PHEROMONE_KINDS = 6 |
| Pheromones.IndexBijective | src/components/pheromones.rs:8-17 | the discriminants are distinct and cover 0..5 |
| Pheromones.DefaultConfig | src/components/pheromones.rs:31-70 | the default table by kind, with the later write winning: diffusion 0.01, 0.06, 0.06, 0.9, 0.01 and 0.01 for Default, Storage, Food, Zombqueen, Zombant and DeadAnt; evaporation 0.001 except 0.01 Zombqueen, 0.1 Zombant and 0.05 DeadAnt; both floors 0.001 except 0.0001 for Zombqueen; deposits 1.0, 1.0 and 40.0; every rate in [0, 1] |
| Pheromones.DefaultColors | src/components/pheromones.rs:40-51 | the colour pair of every kind after the overwrites |
| Pheromones.DefaultRates | src/components/pheromones.rs:36-39 | the rate and floor arrays after the overwrites at lines 53-67, in the order written |
| Concentrations.Column | src/components/pheromones/concentrations.rs:51-54 | column i holds channel i of every node, in node order |
| Concentrations.CombineAllAt | src/components/pheromones/concentrations.rs:70-79 | node k's new value is (c·(1−d) + buf)·(1−e) when that is above the concentration floor, and 0 otherwise |
| Concentrations.ScatterPass | src/components/pheromones/concentrations.rs:53-64 | the buffers of channel i become the scatter of every node above the diffusion floor; concentrations and the other channels are untouched |
| Concentrations.ScatterNode | src/components/pheromones/concentrations.rs:54-63 | a node with c·d above the floor adds c·d/\|neighbours\| to each neighbour's buffer in turn, and otherwise changes nothing |
| Concentrations.CombinePass | src/components/pheromones/concentrations.rs:67-82 | channel i becomes the combine of itself and its buffers, and the buffers of channel i become 0 |
| Concentrations.DiffuseChannel | src/components/pheromones/concentrations.rs:52-82 | one channel: the concentrations become Step of the old ones, the channel's buffers end at 0, other channels are untouched |
| Concentrations.DiffusePheromones | src/components/pheromones/concentrations.rs:46-84 | every channel becomes its own Step from before the pass, and every buffer ends at 0 |
| Concentrations.InitPheromones | src/components/pheromones/concentrations.rs:35-44 | every new node starts with all-zero concentrations and buffers |
| Concentrations.ScatterAt | src/components/pheromones/concentrations.rs:59-62 | a target listed k times gains k shares; every other entry is unchanged |
| Concentrations.SumScatter | src/components/pheromones/concentrations.rs:59-62 | scattering raises the buffer total by one share per target |
| Concentrations.ShareTotal | src/components/pheromones/concentrations.rs:56-62 | a scattering node hands out exactly its diffused part c·d |
| Concentrations.BuffersNonNegative | src/components/pheromones/concentrations.rs:53-64 | from non-negative values and rates, the buffers stay non-negative |
| Concentrations.SumBuffers | src/components/pheromones/concentrations.rs:53-64 | the scatter pass raises the buffer total by exactly what the nodes hand out |
| Concentrations.SentBound | src/components/pheromones/concentrations.rs:54-63 | a node hands out at most c·d, and nothing at or below the diffusion floor |
| Concentrations.CombineBounds | src/components/pheromones/concentrations.rs:70-79 | with fractional rates, the combined value is at most what was kept plus what was received |
| Concentrations.StepNonNegative | src/components/pheromones/concentrations.rs:70-79 | with rates in [0, 1] and non-negative inputs, every new concentration is non-negative, and it is 0 or above the floor |
| Concentrations.StepTotal | src/components/pheromones/concentrations.rs:51-83 | the channel total after a step is at most the total before it plus what was already buffered |
| Concentrations.BuffersTotal | src/components/pheromones/concentrations.rs:53-64 | after the scatter pass the buffers are non-negative and hold at most their start plus the diffused parts |
| Concentrations.KeptPlusDiffused | src/components/pheromones/concentrations.rs:54-72 | what a node keeps and what it diffuses add up to what it had |
| Concentrations.CombineAllTotal | src/components/pheromones/concentrations.rs:67-82 | combining keeps at most (1 − d) of the total plus everything buffered |
| Concentrations.SumBelow | src/components/pheromones/concentrations.rs:67-82 | a pointwise bound carries over to the totals |
| Concentrations.StepTotalNonIncreasing | src/components/pheromones/concentrations.rs:51-83 | with empty buffers before the step, the channel total never increases |
| Concentrations.ZeroStaysZero | src/components/pheromones/concentrations.rs:70-79 | a node at 0 with nothing received stays exactly 0 |
| Concentrations.BuffersAt | src/components/pheromones/concentrations.rs:53-64 | a node's buffer is its start plus one share per listing by every earlier scattering node, read from concentrations before the pass |
| Concentrations.DepositTotal | src/components/ants/zombants.rs:248-251 | a deposit of `amount` per target raises the channel total by the number of targets times the amount |
| Concentrations.Deposit | src/components/ants/dead_ants.rs:67-73 | adds the amount to one channel of each target in turn; every other channel and row is untouched |
| Sources.SetAddCreateOnlyWhenAbsent | src/components/pheromones/sources.rs:31-58 | set and add turn an absent source into the one-hot array and leave a present one unchanged (they write to a copy) |
| Sources.ClearRemovesIff | src/components/pheromones/sources.rs:41-48 | clear removes a present source exactly when every other channel is 0, and otherwise changes nothing; None stays None |
| Sources.SubRemovesIff | src/components/pheromones/sources.rs:60-67 | sub removes a present source exactly when max(c[kind] − x, 0) = 0 and every other channel is 0, and otherwise changes nothing |
| Sources.PheromoneSources.constructor | src/components/pheromones/sources.rs:14-28 | the default component has no source |
| Sources.PheromoneSources.Set | src/components/pheromones/sources.rs:31-39 | the field becomes the set specification of the old one |
| Sources.PheromoneSources.Clear | src/components/pheromones/sources.rs:41-48 | the field becomes the clear specification of the old one |
| Sources.PheromoneSources.Add | src/components/pheromones/sources.rs:50-58 | the field becomes the add specification of the old one |
| Sources.PheromoneSources.Sub | src/components/pheromones/sources.rs:60-67 | the field becomes the sub specification of the old one |
| Sources.AppliedIdempotent | src/components/pheromones/sources.rs:70-76 | applying the same sources twice equals applying them once |
| Sources.ApplySources | src/components/pheromones/sources.rs:70-76 | a node with a source gets that array as its row; a node without one keeps its row |
| Sources.CopyRow | src/components/pheromones/sources.rs:73 | row k becomes the array and every other row is kept |
| Sources.AddAllFirstWins | src/components/pheromones/sources.rs:89-90 | a node with a source keeps it, and one without gets the one-hot array of its first object |
| Sources.ObjectsAtStep | src/components/pheromones/sources.rs:84-90 | one more tile appends its object at its own node and nowhere else |
| Sources.PlaceStep | src/components/pheromones/sources.rs:89-100 | one more tile places its object on its node and strips its tile, when the entity found is a node |
| Sources.InitSources | src/components/pheromones/sources.rs:78-102 | every object adds its concentration on its channel at the node under it, is inserted on that node and is removed with its coordinates from its tile; objects whose cell is not a node are skipped |
| Sources.AddObject | src/components/pheromones/sources.rs:85-90 | the j-th object is added on the node under it, if that is a node; no other node changes |
| Gradients.GradientComponents.Max | src/components/pheromones/gradients.rs:32-39 | the maximum of the six components: at least each one and equal to one of them |
| Gradients.NodeComponents | src/components/pheromones/gradients.rs:57-121 | the accumulated components of node e on channel i equal their specification by node variant |
| Gradients.ComputeGradients | src/components/pheromones/gradients.rs:50-130 | for every channel and node, the gradient is zero when the node is at least as concentrated as the largest component, and the component vector otherwise |
| Gradients.PeakHasZeroGradient | src/components/pheromones/gradients.rs:123-124 | a node at least as concentrated as each direction has a zero gradient |
| Gradients.NonZeroGradientBelowPeak | src/components/pheromones/gradients.rs:123-127 | a nonzero gradient means some direction beats the node, and it is (right − left, up − down, foreground − background) (vec at 41-47) |
| Gradients.BackgroundGradient | src/components/pheromones/gradients.rs:59-92 | on a Background node, each of the up, down, left and right neighbours fills its own direction when it is a Background node, and otherwise leaves that direction 0 and adds at least its concentration to the foreground; background stays 0 and the z component is non-negative |
| Gradients.VerticalEdgeGradient | src/components/pheromones/gradients.rs:93-102 | a vertical edge has x component 0 and z = −back |
| Gradients.HorizontalEdgeGradient | src/components/pheromones/gradients.rs:103-120 | a horizontal edge has y component 0, and absent left, right and back contribute 0 |
| Gradients.ZeroFieldZeroGradient | src/components/pheromones/gradients.rs:123-124 | an all-zero field has all-zero gradients |
| Pheromons.DefaultConfig | src/components/pheromons.rs:24-33 | evaporation 0.005, diffusion 0.01, 0.4 and 0.1, both floors 0.001, over 3 channels, every rate in [0, 1] |
| Pheromons.PheromonsSource.constructor | src/components/pheromons.rs:49-51 | a new source is absent |
| Pheromons.PheromonsSource.Add | src/components/pheromons.rs:54-62 | on a present source only a copy changes; an absent one becomes the one-hot array |
| Pheromons.PheromonsSource.Sub | src/components/pheromons.rs:64-71 | the source is removed only when the lowered copy is all zero, and is otherwise unchanged |
| Pheromons.ApplySources | src/components/pheromons.rs:135-141 | a present source overwrites the node's row; other rows are kept |
| Pheromons.DiffusePheromons | src/components/pheromons.rs:143-181 | each of the three channels becomes the shared two-phase step under this configuration, and every buffer ends at 0 |
| Pheromons.DefaultStepNonNegative | src/components/pheromons.rs:160-178 | under the default configuration a step keeps every concentration non-negative, and 0 or above the floor, and does not raise the channel's total |
| Pheromons.ComputeGradients | src/components/pheromons.rs:183-235 | every node's gradient for every channel follows the five-neighbour rule |
| Pheromons.GradientRule | src/components/pheromons.rs:228-232 | zero exactly when own ≥ max(n, s, e, w, b), and (e − w, n − s) otherwise: back enters the max but not the vector |
| Pheromons.EdgeGradientAxes | src/components/pheromons.rs:209-224 | horizontal edges get y = 0 and vertical edges get x = 0 |
| Pheromon.FixedRates | src/components/pheromon.rs:53-78 | the hard-coded constants as rates: 1% diffuses, scattering above 0.005, no evaporation, floor 0.001, all in [0, 1] |
| Pheromon.CombineWithoutEvaporation | src/components/pheromon.rs:71-78 | the combine keeps c·0.99 + buf when that is above 0.001 and 0 otherwise, with no evaporation; a node scatters exactly when c·0.01 > 0.005 |
| Pheromon.PheromonDiffusion | src/components/pheromon.rs:48-82 | both channels take the shared step under the fixed rates, and the buffers end at 0 |
| Pheromon.TotalNonIncreasing | src/components/pheromon.rs:56-81 | from non-negative values and empty buffers, a channel's total never grows |
| Pheromon.UpdateGradient | src/components/pheromon.rs:84-134 | every node's gradient for both channels follows the four-neighbour rule |
| Pheromon.GradientRule | src/components/pheromon.rs:127-131 | zero exactly when own ≥ max(n, s, e, w), whatever back holds; otherwise (e − w, n − s) |
| Pheromon.AgreesWithPheromons | src/components/pheromon.rs:127-131 | where the later three-channel gradient is zero this one is too, and where this one is nonzero the two agree |
| Position.Transform.constructor | src/components/ants/position.rs:300 | a transform holds the translation it is given |
| Position.FindClosestWall | src/components/ants/position.rs:349-381 | the result, when there is one, is a nav node that is not a Background node |
| Position.FindClosestWallIsFirstNearest | src/components/ants/position.rs:354-380 | None exactly when no contact is a nav node; otherwise the first contact at minimum xy distance (ties keep the earlier one) |
| Position.PlacementFacts | src/components/ants/position.rs:383-419 | placing on a wall sets the kind, keeps the other axis and leaves z at or above the clipping depth; placing on the background sets Background with z = 0 and is idempotent |
| Position.PlaceAntOnHorizontalWall | src/components/ants/position.rs:383-397 | the ant's state becomes the horizontal-wall placement of the old one |
| Position.PlaceAntOnVerticalWall | src/components/ants/position.rs:399-413 | the ant's state becomes the vertical-wall placement of the old one |
| Position.PlaceAntOnBackground | src/components/ants/position.rs:415-419 | the ant's state becomes the background placement of the old one |
| Position.BackgroundKindUpdate | src/components/ants/position.rs:41-76 | the background branch of one frame: the closest wall, if any, puts the ant on that edge, otherwise it stays |
| Position.HorizontalKindUpdate | src/components/ants/position.rs:77-166 | the horizontal-wall branch of one frame equals its specification |
| Position.VerticalKindUpdate | src/components/ants/position.rs:167-244 | the vertical-wall branch of one frame equals its specification |
| Position.TileUnder | src/resources/nav_mesh_lut.rs:21-39 | the tile under a point by the lookup as written: none outside the closed map rectangle; inside the tiled part exactly the corrected lookup's tile; any result is the entity of an empty tile |
| Position.RightBorderTileUnder | src/resources/nav_mesh_lut.rs:21-39 | on the right border of a 2 by 2 map the lookup the systems call returns the next row's first tile, where the corrected one finds none |
| Position.BottomBorderTileLookupPanics | src/resources/nav_mesh_lut.rs:21-39 | on the bottom border of a 1 by 1 map the lookup the systems call indexes past the table |
| Position.UpdateAntPositionKind | src/components/ants/position.rs:20-265 | the ant's new state is the one-frame transition function, and its material is replaced unless the frame was skipped; the background tile comes from the lookup as written, which must not index past the table (a y == 0 ant panics there) and may return the next row's tile on the right border |
| Position.KindStepFacts | src/components/ants/position.rs:246-264 | the top material goes with a background ant for which the lookup as written finds a tile, and that tile becomes its Background node; the side material goes with a wall ant; adopting a wall state sets the current node to that edge |
| Position.LeavingWall | src/components/ants/position.rs:79-100 | a wall ant at or below the clipping depth gets z = 0 and keeps its node; on a horizontal wall it goes to the background, with the ∓2·clip y offset and direction.y = ∓1, exactly when the edge has a back, and otherwise stays on the wall; on a vertical wall it always goes to the background with the ±2·clip x offset and direction.x = ±1 |
| Position.MisplacedExactly | src/components/ants/position.rs:276-291 | exactly the ants whose kind disagrees with their node's variant are despawned |
| Position.AssertAnts | src/components/ants/position.rs:267-296 | the despawn commands are exactly those for misplaced ants |
| Position.EffectiveDtBounds | src/components/ants/position.rs:306 | the clamped dt is at most the frame's dt, and speed·dt ≤ TILE_SIZE/4 |
| Position.MoveStepBounds | src/components/ants/position.rs:307-345 | the ant stays in the map, the axis normal to its surface is only clamped, and a wall ant stays at most at the wall height |
| Position.ClampedPlanarStep | src/components/ants/position.rs:338-345 | clamping a planar step back into the map does not make it longer |
| Position.BackgroundStepWithin | src/components/ants/position.rs:308-313 | a background step of length a along a vector of length at most 1 moves at most a |
| Position.MoveStepLength | src/components/ants/position.rs:306-313 | a background step moves the ant at most a quarter tile |
| Position.MoveStepAlongWall | src/components/ants/position.rs:314-336 | a wall step moves the ant at most a quarter tile along the wall and not at all across it (signum(0) = +1) |
| Position.MoveOnBackground | src/components/ants/position.rs:308-313 | only x and y change, by the step along the normalized xy direction |
| Position.MoveOnVerticalWall | src/components/ants/position.rs:314-324 | only y and z change: y by signum·speed·dt, and z by the yz projection, capped at the wall height |
| Position.MoveOnHorizontalWall | src/components/ants/position.rs:325-336 | only x and z change: x by signum·speed·dt, and z by the xz projection, capped at the wall height |
| Position.UpdateAntPosition | src/components/ants/position.rs:299-347 | with `unit` the normalize_or_zero of the direction in the ant's plane, the new translation is the one-frame move function, clamped to the map rectangle, and a background step from inside the map moves the ant at most a quarter tile |
| Direction.RotationKeepsLength | src/components/ants/movement/direction.rs:36-56 | a rotation about an axis keeps that component and the length of the other two |
| Direction.DirectionStepFacts | src/components/ants/movement/direction.rs:25-59 | the gradient branch is taken exactly when the followed gradient is nonzero and elapsed − last > random + 0.5, and it sets direction := gradient and last := elapsed; otherwise last is kept and the direction is kept or rotated about the surface's axis |
| Direction.BackgroundTurn | src/components/ants/movement/direction.rs:34-44 | below 0.01 a quarter-turn-bounded z rotation, below 0.1 a twelfth-turn-bounded one, otherwise no change |
| Direction.WallTurnNeedsTime | src/components/ants/movement/direction.rs:45-58 | a wall ant turns only when elapsed − last > random + 2 |
| Direction.UpdateOneAntDirection | src/components/ants/movement/direction.rs:18-60 | one ant's direction and clock become the step function of its state |
| Direction.UpdateAntDirection | src/components/ants/movement/direction.rs:11-62 | every ant takes its own step; nothing else about the ants changes |
| Direction.UpdateOneAntDirectionRandomly | src/components/ants/movement/direction.rs:64-77 | on a hit the direction becomes the drawn vector, of length 1; otherwise it is kept |
| LiveAnts.AntCollider | src/components/ants/live_ants.rs:40-122 | a live ant's collider is a box of the ant's size |
| LiveAnts.PlaceOnNode | src/components/ants/live_ants.rs:56-79 | Background: z = 0; VerticalEdge: the same side, z = TILE_SIZE·WALL_Z_FACTOR, x shifted by ±(ANT_SIZE.x/2 − clip); HorizontalEdge: the same side and z, y shifted by ∓ that offset |
| LiveAnts.SpawnedAntIsNotMisplaced | src/components/ants/live_ants.rs:56-98 | the spawned kind agrees with the node variant, so the spawn passes assert_ants |
| LiveAnts.SpawnedOffTheWall | src/components/ants/live_ants.rs:62-77 | a wall ant is spawned off the wall, on the side the wall faces |
| LiveAnts.NewOnNavNode | src/components/ants/live_ants.rs:40-122 | the movement record holds the node as current node, last update 0, and speed, direction and goal as given; the side material is used exactly when the node is not Background |
| LiveAnts.SpawnOnNavNode | src/components/ants/live_ants.rs:125-155 | the spawned ant has the bundle's movement record and transform |
| Zombants.NewOnNavNode | src/components/ants/zombants.rs:43-127 | a zombant is placed on the node exactly as a live ant is |
| Zombants.SpawnZombantQueen | src/components/ants/zombants.rs:184-241 | without a spawn point nothing is spawned; otherwise one queen, holding nothing, built from a live ant at speed 40 on the node the lookup as written finds under the spawn point (the unwrap demands that it finds one, which it also does on the right border) |
| Zombants.UpdateZombantsDeposit | src/components/ants/zombants.rs:243-252 | each zombant adds the deposit to the Zombant channel of its current node in turn; nothing else changes |
| Zombants.UpdateZombqueenSource | src/components/ants/zombants.rs:254-266 | with one queen, the source is added to the Zombqueen channel at her node and the state is kept; with none or several, the next state is Win and nothing is deposited |
| DeadAnts.NewDeadAnt | src/components/ants/dead_ants.rs:34-58 | keeps the transform and style, uses the dead material and a collider of a third of the ant's size |
| DeadAnts.DeadColliderSmaller | src/components/ants/dead_ants.rs:45-47 | the dead ant's collider fits strictly inside the live ant's |
| DeadAnts.DeadAntTiles | src/components/ants/dead_ants.rs:68-70 | one tile per dead ant, each the tile the lookup as written finds under that ant |
| DeadAnts.UpdateDeadAntsDeposit | src/components/ants/dead_ants.rs:61-74 | each dead ant adds the deposit to the DeadAnt channel of the tile the lookup as written finds under it (on the right border, the next row's tile); every other channel is untouched |
| Jobs.Job.Follows | src/components/ants/job.rs:15-22 | Food → Food, Storage → Storage, Thief → Storage, Offering → Zombqueen, always a channel below 6 |
| Jobs.Job.NextJob | src/components/ants/job.rs:24-31 | Food ↔ Storage and Thief ↔ Offering, so each pair is closed |
| Jobs.NextJobInvolution | src/components/ants/job.rs:24-31 | next(next(j)) = j |
| Goals.TakeOne | src/components/ants/goal.rs:22-31 | Some(q) with q > 1 becomes Some(q − 1), which stays above 0; Some(q ≤ 1) and None are left as they are; never more than before |
| Goals.StoreOne | src/components/ants/goal.rs:40 | Some(q + 1), or Some(1) from None |
| Goals.TakeThenStore | src/components/ants/goal.rs:13-43 | taking a unit then storing it into an object with the same quantity restores the quantity when more than one unit was there |
| Goals.NegInvolutive | src/components/ants/goal.rs:34 | turning round twice faces the original way |
| Goals.AntGoal.constructor | src/components/ants/goal.rs:6-10 | the default goal is the Default kind, holding 0 |
| Goals.AntGoal.StepFood | src/components/ants/goal.rs:13-35 | kind := Storage, holds := 1, quantity by TakeOne, direction negated |
| Goals.AntGoal.StepStorage | src/components/ants/goal.rs:37-43 | kind := Food, holds := 0, quantity by StoreOne, direction negated |
| Movement.AntMovement.constructor | src/components/ants/movement.rs:12-20 | the record holds the fields it is given |
| Movement.AntMovement.ReachedObject | src/components/ants/movement.rs:23-39 | Storage runs the storage step and Food the food step, with the ant's own direction; any other kind leaves the ant and the object unchanged |
| Objects.ObjectKind.Index | src/components/object.rs:11-19 | the discriminant is below 5 and equals that of the pheromone kind of the same name |
| Objects.Object.Kind | src/components/object.rs:23-25 | the channel index of the object, below N_PHEROMONES = 5, of the pheromone kind of the same name |
| Objects.DefaultObject | src/components/object.rs:4-9 | the Default kind, no quantity and concentration 0 |
| Objects.SourceTypeKind | src/components/object.rs:49-72 | "Food" gives Food, "Storage" gives Storage, and anything else gives Default |
| Objects.BundleEntity | src/components/object.rs:41-73 | the kind comes from the SourceType field, the quantity and concentration are copied, and the coordinates come from the grid |
| PheromonSource.SourceObject.PheromonType | src/components/pheromon_source.rs:27-34 | Food → 2, Storage → 1, Corpse and Cemetery → 0, always below N_PH = 3 |
| PheromonSource.BundleEntity | src/components/pheromon_source.rs:59-96 | "Food" keeps an optional quantity, "Storage" requires one, and the coordinates come from the entity grid |
| PheromonSource.BundleEntityRoundTrip | src/components/pheromon_source.rs:36-96 | a parsed object gives back its entity's concentration and quantity, and emits on the channel of its source type |
| Ants.NewRandom | src/components/ants.rs:39-49 | the drawn kind is never White |
| Ants.NewRandomCovers | src/components/ants.rs:39-49 | every kind but White can be drawn |
| Ants.SecondaryCandidates | src/components/ants.rs:52-63 | every candidate list is non-empty, so the choice never fails |
| Ants.NewRandomFromPrimary | src/components/ants.rs:52-63 | the drawn kind is one of the primary's candidates, and is White exactly when the primary is White |
| Ants.SecondaryTable | src/components/ants.rs:53-60 | White pairs only with White, Red and Brown share {Black, Red, Brown}, and no other primary has White among its candidates |
| Ants.RandomPairNeverWhite | src/components/ants.rs:39-63 | a random primary followed by its secondary never involves White |
| AntExplosions.ContactCommandsAreKills | src/components/ants.rs:90-99 | one ant's commands are one kill per explosion contact: it is detached and despawned, and a dead ant with its transform and style is spawned under its parent |
| AntExplosions.ExplosionCommandsExactly | src/components/ants.rs:89-100 | three commands per explosion contact; an entity is despawned exactly when it is an ant with an explosion contact; every spawned dead ant copies such an ant |
| AntExplosions.OneAntCommands | src/components/ants.rs:90-99 | what one ant's commands despawn and spawn |
| AntExplosions.AntExplosionCollision | src/components/ants.rs:84-102 | the commands issued are exactly the specification's, in order |
| Players.Player.constructor | src/components/player.rs:138-145 | a new player touches no wall and no ground |
| Players.SenseExactly | src/components/player.rs:104-123 | on_wall holds exactly the vertical edges touched, and on_ground exactly the down-side horizontal edges; a side flag is set exactly when a vertical edge of that side is touched; ants and Background nodes never count |
| Players.SensorCommandsExactly | src/components/player.rs:85-133 | a contact is despawned exactly when it is an ant off the background, or a clue that is neither an ant nor a node; every spawned dead ant copies such an ant |
| Players.FoundCluesExactly | src/components/player.rs:124-131 | a Found event is sent when some contact is a clue, at most one per contact |
| Players.TouchContact | src/components/player.rs:85-133 | one contact: the footing, commands and events by priority ant, then wall, then clue |
| Players.SenseContacts | src/components/player.rs:80-134 | the flags and sets are reset, then the footing, commands and events are those of the contacts |
| Players.LastSensorOf | src/components/player.rs:66-134 | the index of the last sensor attached to the player, or none when none is |
| Players.FootingAfterLast | src/components/player.rs:66-134 | only the last sensor attached to a player decides its footing |
| Players.SenseSensor | src/components/player.rs:76-133 | only the sensor's player changes, to the sensor's footing |
| Players.UpdatePlayerSensor | src/components/player.rs:66-135 | each player ends with its last sensor's footing, or its old one without a sensor; the commands and events are those of every attached sensor in order |
| ClueResource.RevealOf | src/resources/clues.rs:20-37 | (true, true) adds a charge, (true, false) reveals the secondary colour, (false, true) the primary colour, and (false, false) the one the coin picks |
| ClueResource.NextClueProgress | src/resources/clues.rs:19-38 | every reveal earns exactly one thing: flags are never cleared, and charges rise by 1 only once both flags are set |
| ClueResource.RevealAllProgress | src/resources/clues.rs:19-38 | from nothing revealed, two clues reveal both colours whatever the coins, and every later clue is one charge |
| ClueResource.RestyleKeepsColours | src/resources/clues.rs:40-61 | after a recolouring, the clue ant's primary kind is never White and its secondary is one of the primary's candidates |
| ClueResource.Clues.constructor | src/resources/clues.rs:6-16 | nothing revealed and no charge |
| ClueResource.Clues.RevealPrimaryColor | src/resources/clues.rs:40-48 | the primary flag is set even without a style; with one, both colour kinds are drawn again |
| ClueResource.Clues.RevealSecondaryColor | src/resources/clues.rs:50-61 | the secondary flag is set even without a style; with one, both colours are drawn again |
| ClueResource.Clues.RevealNext | src/resources/clues.rs:19-38 | the new state is the reveal specification of the old one |
| ClueResource.Clues.CluesReceiveEvents | src/resources/clues.rs:69-79 | one reveal per Found event, in order |
| ClueResource.RevealStep | src/resources/clues.rs:74-78 | one more Found event is one more reveal, of the state and of the clue ant's style |
| Cocoons.NewCocoon | src/components/cocoons.rs:37-52 | the clue material exactly for a clue |
| Cocoons.DefaultCocoon | src/components/cocoons.rs:31-35 | Default is new(false, 0) |
| Cocoons.AsU8 | src/components/cocoons.rs:62-64 | the `as u8` cast keeps the low eight bits |
| Cocoons.BundleEntity | src/components/cocoons.rs:56-67 | a plain cocoon of the Room field's room, which must be one of COCOON_ROOMS |
| Cocoons.InRoomExactly | src/components/cocoons.rs:81-84 | the rows of a room are exactly the query's rows in that room, in order |
| Cocoons.InRoomSameRooms | src/components/cocoons.rs:81-84 | the rows of a room depend only on the rooms |
| Cocoons.InRoomPrefix | src/components/cocoons.rs:81-84 | the room's rows among the first i rows are the first rows of that room |
| Cocoons.Chosen | src/components/cocoons.rs:81-85 | the pick-th cocoon of the room, or none when the room has none |
| Cocoons.RoomPicks | src/components/cocoons.rs:79-91 | every cocoon a draw picks is an index into the cocoon query |
| Cocoons.Picks | src/components/cocoons.rs:74-92 | every cocoon picked over all events is an index into the cocoon query |
| Cocoons.MarkAllExactly | src/components/cocoons.rs:86-89 | exactly the chosen cocoons become clues with the clue material; none changes entity or room, none stops being a clue, and other rows are unchanged |
| Cocoons.MarkAllConsistent | src/components/cocoons.rs:86-89 | every cocoon is still drawn with the clue material exactly when it is a clue |
| Cocoons.RoomPicksFillSelected | src/components/cocoons.rs:79-91 | within one draw, the picked cocoons fill exactly the selected rooms that have cocoons |
| Cocoons.PicksFillSelected | src/components/cocoons.rs:74-92 | over all events, the picked cocoons fill exactly the selected rooms that have cocoons |
| Cocoons.PlaceCluesEffect | src/components/cocoons.rs:70-93 | only cocoons of selected rooms become clues; every selected room with cocoons gets one, and at most one per room and event; no clue is lost |
| Cocoons.ChooseInRoom | src/components/cocoons.rs:81-84 | the scan returns the specified chosen cocoon |
| Cocoons.MarkAllSameRooms | src/components/cocoons.rs:86-89 | marking keeps every row's room |
| Cocoons.MarkChosen | src/components/cocoons.rs:80-90 | for one selected room, the chosen cocoon, if any, becomes a clue |
| Cocoons.MarkAllAppend | src/components/cocoons.rs:79-91 | marking some cocoons and then more is marking all of them in order |
| Cocoons.MarkRoom | src/components/cocoons.rs:80-90 | the j-th selected room's chosen cocoon is marked on top of the earlier ones |
| Cocoons.PlaceCluesForEvent | src/components/cocoons.rs:78-91 | one event marks the cocoons its draw picks, on top of the earlier marks |
| Cocoons.PlaceClues | src/components/cocoons.rs:70-93 | the cocoons become the marks of every pick of every Transformed event |
| CluePlacement.ClueComponents | src/components/clues.rs:41-46 | the Clue marker with a sensor capsule (half length 6, radius 3) that collides only with the player sensor |
| CluePlacement.InsertsAt | src/components/clues.rs:40-47 | the t-th insert goes to the t-th chosen cocoon |
| CluePlacement.InsertsAreClues | src/components/clues.rs:29-48 | every insert goes to a cocoon that ends up a clue, and every cocoon that becomes a clue gets the Clue components |
| CluePlacement.InsertsAppend | src/components/clues.rs:29-48 | the inserts of a longer pick list extend those of a shorter one |
| CluePlacement.MarkAndInsert | src/components/clues.rs:30-47 | the j-th selected room: its chosen cocoon is marked and gets its insert |
| CluePlacement.PlaceCluesForEvent | src/components/clues.rs:28-48 | one event marks the cocoons its draw picks and inserts their components |
| CluePlacement.PlaceClues | src/components/clues.rs:19-50 | as the cocoon revision, and every chosen cocoon also receives the Clue components, in the order chosen |
| PlayerAnimations.IndicesOf | src/render/player_animation.rs:91-97 | the range of the given state |
| PlayerAnimations.SetState | src/render/player_animation.rs:99-102 | state := s and index := first of s; nothing else changes |
| PlayerAnimations.Configured | src/render/player_animation.rs:34-48 | ranges 0..0, 7..12 and 14..20 with the frame in range, standing and facing right |
| PlayerAnimations.TickInRange | src/render/player_animation.rs:124-133 | first ≤ index ≤ last is preserved; the ranges never change; the state changes only from Jumping to Standing |
| PlayerAnimations.TicksWalk | src/render/player_animation.rs:130-132 | from a state's first frame, k finished ticks move k frames within the range |
| PlayerAnimations.PlaysThenLoopsOrStands | src/render/player_animation.rs:124-133 | Jumping plays once and stands on the standing range's first frame; Standing and Running loop |
| PlayerAnimations.PlayerAnimation.constructor | src/render/player_animation.rs:22-70 | the configured animation |
| PlayerAnimations.PlayerAnimation.GetIndices | src/render/player_animation.rs:91-97 | the range of the current state |
| PlayerAnimations.PlayerAnimation.SetStateOf | src/render/player_animation.rs:99-102 | the animation becomes SetState of the old one |
| PlayerAnimations.UpdatePlayerAnimation | src/render/player_animation.rs:114-138 | on a finished timer the animation advances one tick and the sprite shows the frame, with flip_x = !is_facing_right; otherwise nothing changes |
| RenderAnt.New | src/render/render_ant.rs:110-123 | bit 0 is is_side, bit 1 is_dead and bit 2 has_halo, and nothing else is set |
| RenderAnt.FlagsRoundTrip | src/render/render_ant.rs:110-123 | each property is read back from its bit, and the word is below 8 |
| RenderAnt.FlagsInjective | src/render/render_ant.rs:110-123 | different properties give different words |
| RenderAnt.Preset | src/render/render_ant.rs:54-56 | SIDE = 1, TOP = 0 and DEAD = 2 |
| RenderAnt.WallScale | src/render/render_ant.rs:279-297 | vertical wall: scale.y = −1 exactly when direction.y < 0, and scale.x = −1 exactly when not left-side; horizontal wall: scale.x = −1 exactly when direction.x > 0, and scale.y = −1 exactly when up-side |
| Helpers.ToggleParity | src/helpers/mod.rs:10-17 | after any presses the toggle is on exactly when it started on and was pressed an even number of times |
| Helpers.Toggle.constructor | src/helpers/mod.rs:12 | the toggle starts off |
| Helpers.Toggle.Run | src/helpers/mod.rs:10-17 | flips exactly on a just-pressed key and returns the new value |
| Helpers.RunAfterOutputsAt | src/helpers/mod.rs:23-33 | the k-th call fires exactly when the counter equals count then |
| Helpers.RunAfterFiresOnce | src/helpers/mod.rs:23-33 | a fresh counter fires exactly once over more than count calls, and never over fewer |
| Helpers.RunAfterNeverAgain | src/helpers/mod.rs:23-33 | past count it never fires again |
| Helpers.RunAfter.constructor | src/helpers/mod.rs:23-25 | the counter starts at 0 |
| Helpers.RunAfter.Run | src/helpers/mod.rs:23-33 | fires exactly when the counter equals count before the call, and always increments it |
| Helpers.TogglePhysicsDebug | src/helpers/mod.rs:19-21 | enabled is negated on every call |
| Helpers.LastFocusDecides | src/helpers/mod.rs:35-46 | the last focus event decides, and no event changes nothing |
| Helpers.PauseIfNotFocused | src/helpers/mod.rs:35-46 | paused becomes the specification of the events, in order |

## Left out

- Rendering and GPU plumbing, the UI, the inspector glue, the binaries, plugin registration and the debug gizmos (`debug_nav_mesh`, `debug_ants`) are outside the simulation core. The atan2 rotation of Background ants in `extract_ants_render_transform` is trigonometry, so RenderAnt.WallScale returns None there.
- `lib.rs` is not part of this model: its constants are the GameConstants parameter, which requires them to be positive.
- LDtk loading, rapier collision detection, bevy queries, commands and transforms: contacts are input lists, queries are maps, commands are sequences, and `reparented_to` is an offset between translations.
- `f32` is `real`: rounding, NaN and infinities are not modelled. `normalize_or_zero`, `normalize` and the quaternion rotations are inputs with only the facts the code relies on (a length of at most 1; a rotation as a unit (cos, sin) pair about one axis).
- Randomness is a parameter. `thread_rng`, `choose`, `choose_multiple`, `gen_range` and `gen_bool` draws are passed in, and a draw is required to lie in the range the source samples from.
- `AntColorKind::generate_color` shades are random f32 colours: a reveal takes the new colours as inputs.
- Integer widths: `usize`, `i32` and `u8` are unbounded integers, except for the `as u8` cast of the cocoon room (Cocoons.AsU8).
- A panic (`unwrap`, out-of-range index, `assert!`, `unreachable!`) on a path the game is required to avoid becomes a precondition. The tile lookup's guards, which let a panic through, are findings. The systems that call the lookup (position.rs, dead_ants.rs, zombants.rs) are modelled on the lookup as written, so its out-of-bounds index is a precondition there and the wrong right-border tile flows through.
- Timers, `Time` and the AnimationTimer: the elapsed time, dt and "timer just finished" are inputs.
- `warn!`, `info!` and `error!` logs have no modelled effect.
- `found_clue` only sends one Found event; the sensor's events are counted by Players.FoundClues instead.
- The Clues resource's UI entities (`ui_text`, `ui_container`, `ui_ant_clue`) are not modelled.
- `reached_zombqueen` delegates to `AntGoal::reached_zombqueen`, which `goal.rs` does not define, so its effect is unknown.
- `init_pheromons` of the older fields, and the older `init_sources` of `pheromons.rs`, are not modelled. Only the current field's initialisers are.
- Pheromones.DefaultRates and Pheromones.DefaultColors group the writes of PheromoneConfig::default per array. The order of writes within each array is kept, and arrays are independent, so the result is the same.
- Cocoons.PlaceCluesForEvent: requires only that the draw's rooms and picks are in range. Distinct rooms matter only for Cocoons.PlaceCluesEffect's at-most-one-per-room statement.
- Concentrations.Deposit: states the node-by-node result, and the total through Concentrations.DepositTotal, rather than "k ants on one node add k·deposit" directly. Concentrations.ScatterAt gives that count for a repeated target.
- Position.FindClosestWall: states the strict-< fold's result together with Position.FindClosestWallIsFirstNearest, not on its own.

## Findings

| source | as written | input that shows it | evidently intended | confidence | as-written member | corrected member |
|---|---|---|---|---|---|---|
| src/resources/nav_mesh_lut.rs:22-34 | the guard admits y == 0, whose row is H after the flip, so `grid_is_empty[index]` is one row past the table | a 1×1 map with TILE_SIZE 1, position (0.5, 0.0) | admit only y > 0, or clamp the row to H − 1 | not executed | NavMeshLut.BottomBorderPanics | NavMeshLut.GetTileEntity |
| src/resources/nav_mesh_lut.rs:22-38 | the guard admits x == W·T, whose column is W, so the index is the first tile of the next row (or past the table on the last row) | a 2×2 map with TILE_SIZE 1, position (2.0, 1.5) resolves to tile 2 | admit only x < W·T | not executed | NavMeshLut.RightBorderFindsWrongTile | NavMeshLut.GetTileEntity |
| src/resources/nav_mesh_lut.rs:42-48 | the guard refuses only index > len, so index == len reaches `grid_entity[index]` | a 2×1 grid, cell (0, 1) | refuse index >= len | not executed | NavMeshLut.GridIndexAtLengthPanics | NavMeshLut.GetTileEntityGrid |
