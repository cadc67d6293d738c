# coppercaves chunk cache, navigation toggle and inventory binder in Dafny

This project models the core of *coppercaves*, a Bevy game in Rust:

- **The chunk-streaming cache of `src/grid.rs`.** Every tick the camera's chunk is found by floor division. The desired set becomes the 5x5 square of chunks around it. Desired chunks that are not loaded and lie within ±50 get 64 tiles, each tagged with a `ChunkMarker`. Tiles whose marker is no longer desired are despawned, and their chunk leaves the loaded set. At startup, the obstacle cells of the first 8x8 chunk are written into the navigation grid, at most once each, followed by one `build()`.
- **The older revision of the cache in `src/world.rs`.** The square is 3x3 around the chunk of the camera's pixel position. Each chunk gets 16 tiles, and there is no world bound. Tiles carry no tag: the cleanup recovers a tile's chunk from its pixel position by floor division by 48.
- **The terrain colour and obstacle range tables** of both revisions, over a real-valued noise sample.
- **`src/worker.rs`:**
  - `move_player` commits each agent's `NextPos`.
  - A left click asks for a path to the clicked tile.
  - A right click toggles one navigation cell between `Impassable` and `Passable(1)`, then calls `build()`.
- **`src/ui_game.rs`:**
  - `ui_load_items` binds the first unassigned inventory stack to the first empty slot.
  - `ui_slot_selection` makes a pressed slot the selected object.
  - `can_player_interact` allows building only while no button is interacted with.

Files:
- `wrappers.dfy` holds `Option`.
- `chunk_math.dfy` holds floor division, chunk squares and cell rectangles, and their sizes.
- `terrain.dfy` holds the colours and the meaning of an ordered range table.
- `northstar.dfy` abstracts the pathfinding library's `CardinalGrid` (`nav`, `set_nav`, `build`) and the agent components.
- `grid.dfy`, `world.dfy`, `worker.dfy` and `ui_game.dfy` follow the source files of the same names.

Each ECS system is a method of a class that holds the resources it reads and writes. Spawned tiles are a set of tile records. Each method's `ensures` ties the new state to a specification function of the old state. Lemmas then prove what the cache promises about those functions: no double spawn, exact tile counts, no orphaned tiles, idempotence, and the same result whichever order spawn and delete run in.

## Model

| member | source | states |
|---|---|---|
| ChunkMath.FloorDiv | src/grid.rs:80-81 | `.floor()` of a division by a positive size: the result `q` satisfies `d*q <= p < d*q + d`, so negative positions round toward minus infinity |
| ChunkMath.FloorDivUnique | src/world.rs:149-150 | the floor quotient is the only `q` with `d*q <= p < d*q + d` |
| ChunkMath.ChunkOf | src/world.rs:76-77 | the chunk of a position: floor division on both axes, with the bounds on each axis |
| ChunkMath.Square | src/grid.rs:84-88 | the chunks the two inclusive loops insert: exactly those within `r` of the centre on both axes |
| ChunkMath.SquareCard | src/grid.rs:84-88 | the inclusive square of radius `r` has `(2r+1)^2` chunks |
| ChunkMath.BuildSquare | src/grid.rs:83-88 | the nested loops that start from an empty set build exactly the square |
| ChunkMath.Rect | src/grid.rs:120-121 | the cells of two half-open ranges: membership exactly when both coordinates are in range |
| ChunkMath.RectCard | src/grid.rs:120-121 | a rectangle has width times height cells |
| ChunkMath.ChunkCells | src/grid.rs:120-123 | the world cells `c*size + x`, `x` in `[0, size)` on both axes, of chunk `c` |
| ChunkMath.ChunkCellsCard | src/grid.rs:120-121 | a chunk has `size*size` cells |
| ChunkMath.ChunkCellsRoundTrip | src/grid.rs:122-123 | flooring a chunk cell by the chunk size gives back the chunk |
| Terrain.FirstMatch | src/world.rs:107-118 | an ordered table of inclusive ranges gives the colour of the first range that contains the value, or the fallback when none does |
| Northstar.NavGrid.NavAt | src/worker.rs:94 | `nav(p)` is `None` exactly outside the grid; an unwritten in-grid cell reads `Passable(1)` |
| Northstar.NavGrid.constructor | src/grid.rs:46-47 | a fresh grid of the given size with no written cells and no build yet |
| Northstar.NavGrid.SetNav | src/grid.rs:71 | `set_nav` writes only the given cell and counts one write; every other cell reads as before |
| Northstar.NavGrid.Build | src/worker.rs:106 | `build()` publishes the current cells and counts one build |
| Northstar.Agent.constructor | src/grid.rs:58-62 | an agent at a position and translation, with no `NextPos` and no `Pathfind` |
| Worker.MovePlayer | src/worker.rs:32-51 | every agent with a `NextPos` gets that position and translation `(x*12, y*12, 0)`, and loses `NextPos`; nothing else changes |
| Worker.Stepped | src/worker.rs:38-49 | one agent's step: with a `NextPos`, the agent takes that position and translation and loses `NextPos`; without one, nothing changes. `MovePlayer` promises it for every agent |
| Worker.Toggled | src/worker.rs:95-101 | the toggle makes a cell impassable exactly when it was not, and reopens an impassable cell at cost 1 |
| Worker.ToggleTwice | src/worker.rs:95-100 | toggling twice restores `Impassable` and `Passable(1)`; any other cost ends at `Passable(1)` |
| Worker.ToggleCell | src/worker.rs:90-108 | outside the grid nothing is written and nothing is built; inside it only the clicked cell is toggled, with exactly one write followed by one build |
| Worker.Input | src/worker.rs:78-108 | a left press with a clicked tile sets `Pathfind` to it; a right press with a clicked tile toggles that cell; without a clicked tile the grid is unchanged |
| Grid.ImpassableBand | src/grid.rs:150-156 | `generate_impasable_coords(v)` is `Some(true)` exactly when `-0.8 <= v <= -0.1`, otherwise `None`, and never `Some(false)` |
| Grid.AssignColor | src/grid.rs:158-176 | the seven-arm colour chain; `AssignColorIsFirstMatch` proves it equal to the first-match lookup in its range table |
| Grid.AssignColorIsFirstMatch | src/grid.rs:158-176 | `assign_color` is the first-match lookup in its seven-range table, with white as fallback |
| Grid.AssignColorFallback | src/grid.rs:173-175 | white is used exactly for values outside `[-1.2, 1.2]` |
| Grid.ObstacleBandIsWaterRange | src/grid.rs:150-165 | the obstacle band and the colour chain agree on one value: a value in the band is blue or light blue, except the shared bound -0.8, which is navy; every blue or light-blue value is in the band. The source classifies a cell from the noise at the raw cell (`src/grid.rs:66`) but colours its tile from the noise at the cell divided by 200 (`src/grid.rs:125-128`), so this says nothing about how an obstacle cell is drawn |
| Grid.TileAt | src/grid.rs:122-141 | the tile of one cell of a chunk: translation `12 *` the world cell, colour from the noise at `cell / 200`, marker the chunk; `ChunkTilesShape` proves a chunk's 64 tiles distinct and marked |
| Grid.ChunkTilesShape | src/grid.rs:120-142 | one chunk spawns 64 distinct tiles, all marked with the chunk, on translations `12 *` one of the chunk's cells |
| Grid.TilesForCard | src/grid.rs:106-146 | the tiles of a set of chunks number 64 per chunk: no two chunks share a tile |
| Grid.TilesForRestrict | src/grid.rs:92-93 | the tiles whose marker is desired are exactly the tiles of the desired chunks |
| Grid.SpawnLoaded | src/grid.rs:106-145 | the loaded set after `spawn_new_chunks`: the old set plus the desired chunks within ±50; out-of-world chunks are skipped and stay unloaded. Its properties are in `SpawnIdempotent`, `SpawnKeepsConsistent` and `SpawnThenDelete` |
| Grid.SpawnTiles | src/grid.rs:106-144 | the tiles after `spawn_new_chunks`: the old tiles plus the tiles of the desired, unloaded, in-world chunks. `SpawnKeepsConsistent` proves none of them was already there and counts them |
| Grid.DeleteTiles | src/grid.rs:92-94 | the tiles after `delete_old_chunks`: exactly those whose marker is desired. `DeleteExact` proves these are the desired loaded chunks' tiles |
| Grid.DeleteLoaded | src/grid.rs:92-95 | the loaded set after `delete_old_chunks`: a chunk leaves it only when some tile carries it as an undesired marker. `DeleteExact` proves this is `loaded ∩ desired` on a consistent cache |
| Grid.SpawnIdempotent | src/grid.rs:106-107 | a second `spawn_new_chunks` with the same sets finds no new chunk and changes neither the loaded set nor the tiles |
| Grid.SpawnKeepsConsistent | src/grid.rs:106-146 | from a consistent cache, spawning adds no tile that is already there, adds exactly `64 *` the number of new chunks, and keeps every loaded chunk in the world and every tile belonging to a loaded chunk |
| Grid.DeleteExact | src/grid.rs:91-98 | from a consistent cache, deletion keeps exactly `loaded ∩ desired` and exactly those chunks' tiles; every desired tile survives |
| Grid.SpawnThenDelete | src/grid.rs:35 | spawn then delete leaves exactly the desired chunks inside the world loaded, with exactly their tiles |
| Grid.DeleteThenSpawn | src/grid.rs:35 | delete then spawn reaches the same state as spawn then delete |
| Grid.GridState.constructor | src/grid.rs:29-32 | empty chunk, obstacle and tile sets form a consistent cache |
| Grid.GridState.GenerateNewChunkData | src/grid.rs:79-89 | the desired set is replaced by the 25 chunks of the radius-2 square around `floor(camera / 8)` |
| Grid.GridState.SpawnChunk | src/grid.rs:120-144 | the nested loops spawn exactly the chunk's tiles |
| Grid.GridState.SpawnColumn | src/grid.rs:121-143 | the inner loop spawns the tiles of one local column |
| Grid.GridState.SpawnNewChunks | src/grid.rs:100-148 | loaded becomes `loaded ∪ (desired within ±50)`; the tiles gain exactly the tiles of the desired, unloaded, in-world chunks; every newly loaded chunk is desired and in the world |
| Grid.GridState.DeleteOldChunks | src/grid.rs:91-98 | every tile whose marker is not desired is despawned and its marker leaves the loaded set; nothing else changes |
| Grid.GridState.SetGridData | src/grid.rs:50-77 | the obstacle set gains exactly the obstacle cells of `[0,8)^2`; the grid marks exactly the newly recorded cells impassable, with one write each; one build follows; the player spawns at `(4, 4, 0)` |
| Grid.GridState.MarkColumn | src/grid.rs:65-73 | the inner loop records and writes the new obstacle cells of one column |
| Grid.GridState.MarkCell | src/grid.rs:66-72 | a cell is recorded and written once, only when its noise is in an obstacle range and it is not yet recorded |
| World.WorldColor | src/world.rs:107-118 | the nine-arm colour `match`; `WorldColorIsFirstMatch` proves it equal to the first-match lookup in its range table |
| World.WorldColorIsFirstMatch | src/world.rs:107-118 | the colour `match` is the first-match lookup in its nine-range table, with grey as fallback |
| World.WaterArms | src/world.rs:108-112 | the arms up to 0.0 agree with the first-match lookup |
| World.LandArms | src/world.rs:113-117 | the arms above 0.0 agree with the first-match lookup |
| World.WorldColorFallback | src/world.rs:114-117 | grey is used exactly outside `[-1.2, 0.8]`; silver is used exactly on `(0.2, 0.8]` |
| World.WTileAt | src/world.rs:99-127 | the sprite of one world cell: translation `12 *` the cell, colour from the noise at `pixel / 300`; `ChunkWTilesShape` proves a chunk's 16 sprites distinct |
| World.Recover | src/world.rs:149-150 | a sprite's chunk, `floor(translation / 48)` on each axis: the translation lies in `[48c, 48c + 48)` |
| World.RecoverRoundTrip | src/world.rs:149-152 | the sprite of cell `c*4 + x` sits at pixel `(c*4 + x)*12`, and `floor(pixel / 48)` recovers `c` |
| World.ChunkWTilesShape | src/world.rs:97-128 | one chunk spawns 16 distinct sprites, each recovering to the chunk |
| World.WTilesForRecover | src/world.rs:149-152 | every sprite of a set of chunks recovers to one of those chunks |
| World.WTilesForCard | src/world.rs:93-131 | the sprites of a set of chunks number 16 per chunk |
| World.SpawnLoaded | src/world.rs:93-130 | the loaded set after `spawn_new_chunks`: the old set plus every desired chunk, with no bound. Its properties are in `SpawnIdempotent`, `SpawnKeepsConsistent` and `SpawnThenCleanup` |
| World.SpawnTiles | src/world.rs:93-129 | the sprites after `spawn_new_chunks`: the old sprites plus the sprites of `desired \ loaded`. `SpawnKeepsConsistent` proves none was already there and counts them |
| World.ToRemove | src/world.rs:141-144 | `chunks_to_remove`: the loaded chunks that are not desired |
| World.CleanupLoaded | src/world.rs:146-157 | the loaded set after `cleanup_distant_chunks`: the removed chunks leave it. `CleanupExact` proves this is `loaded ∩ desired` |
| World.CleanupTiles | src/world.rs:148-155 | the sprites after cleanup: those whose recovered chunk is not removed. `CleanupExact` proves these are exactly the desired loaded chunks' sprites |
| World.SpawnIdempotent | src/world.rs:93-94 | a second `spawn_new_chunks` with the same sets finds nothing to spawn and changes nothing |
| World.SpawnKeepsConsistent | src/world.rs:93-131 | from a consistent cache, spawning adds no sprite that is already there, adds exactly `16 *` the number of unloaded desired chunks, and keeps the cache consistent |
| World.CleanupExact | src/world.rs:141-158 | from a consistent cache, cleanup keeps exactly `loaded ∩ desired` and exactly those chunks' sprites: position recovery removes all sprites of the removed chunks and no other |
| World.SpawnThenCleanup | src/world.rs:32 | spawn then cleanup leaves exactly the desired chunks loaded, with exactly their sprites |
| World.CleanupThenSpawn | src/world.rs:32 | cleanup then spawn reaches the same state as spawn then cleanup |
| World.WorldState.constructor | src/world.rs:26-29 | empty chunk and sprite sets form a consistent cache |
| World.WorldState.GenerateNewChunkData | src/world.rs:75-85 | the desired set is replaced by the 9 chunks of the radius-1 square around `floor(camera / 48)` |
| World.WorldState.SpawnChunk | src/world.rs:97-129 | the nested loops spawn exactly the chunk's 16 sprites |
| World.WorldState.SpawnColumn | src/world.rs:98-128 | the inner loop spawns the sprites of one local column |
| World.WorldState.SpawnNewChunks | src/world.rs:87-133 | loaded becomes `loaded ∪ desired`; the sprites gain exactly the sprites of `desired \ loaded`; no bound check |
| World.WorldState.ChunkSprites | src/world.rs:148-155 | the inner loop selects exactly the sprites whose recovered chunk is the given chunk |
| World.WorldState.CleanupDistantChunks | src/world.rs:135-159 | loaded loses exactly `loaded \ desired`; exactly the sprites recovering to a removed chunk are despawned, so none of them remains |
| UiGame.FirstUnassigned | src/ui_game.rs:133 | `find(!assigned)` gives the first unassigned stack, or `None` exactly when all are assigned |
| UiGame.FirstEmptySlot | src/ui_game.rs:135 | `find(item == None)` gives the first empty slot, or `None` exactly when no slot is empty |
| UiGame.Bind | src/ui_game.rs:136-141 | one bind: the slot takes the stack's item and total and is assigned; the stack is assigned and records the slot's entity. `LoadBinds` proves nothing else changes |
| UiGame.LoadItems | src/ui_game.rs:133-142 | `ui_load_items`: bind the first unassigned stack to the first empty slot when both exist, otherwise change nothing. Characterised by `LoadAllAssigned`, `LoadNoEmptySlot`, `LoadBinds`, `LoadBindsAtMostOne` and `LoadFillsSlot` |
| UiGame.LoadAllAssigned | src/ui_game.rs:133 | when every stack is assigned, `ui_load_items` changes nothing |
| UiGame.LoadNoEmptySlot | src/ui_game.rs:135 | when no slot is empty nothing changes, and the same stack is still the first unassigned one for a later tick |
| UiGame.LoadBinds | src/ui_game.rs:133-142 | only the first unassigned stack and the first empty slot change; the slot takes the stack's item and total, both become assigned, and the stack records the slot's entity; the slot's entity, interaction and change flag stay |
| UiGame.LoadBindsAtMostOne | src/ui_game.rs:133-142 | the number of unassigned stacks drops by exactly one when both searches succeed and is unchanged otherwise |
| UiGame.LoadFillsSlot | src/ui_game.rs:135-138 | a bind fills the slot only when the stack's item is not `Object::None`; a `None` stack leaves the same slot first empty |
| UiGame.AnyInteracting | src/ui_game.rs:121 | `any(i != None)` is true exactly when some interaction is not `None` |
| UiGame.LastSelecting | src/ui_game.rs:126-127 | the last slot whose interaction changed to `Pressed`, or `None` exactly when there is none |
| UiGame.Selection | src/ui_game.rs:126-127 | the selection after a tick: the `(item, entity)` of the last slot `LastSelecting` finds, otherwise the old selection. `UiSlotSelection` is proved to compute it |
| UiGame.GameUi.constructor | src/player.rs:38-41 | building starts disabled and `Worker` on entity 0 is selected |
| UiGame.GameUi.CanPlayerInteract | src/ui_game.rs:120-123 | `enabled` becomes true exactly when every button's interaction is `None` |
| UiGame.GameUi.UiSlotSelection | src/ui_game.rs:125-129 | the selection becomes the `(item, entity)` of the last slot pressed this tick, and is unchanged when no slot was pressed |
| UiGame.GameUi.UiLoadItems | src/ui_game.rs:132-143 | the stacks and slots become the result of binding the first unassigned stack to the first empty slot, if both exist |

## Left out

- Grid.GridState.GenerateNewChunkData: the camera position is an integer and the `f32` division and `.floor()` are Euclidean integer division by a positive divisor. The camera's own module is not part of this model, so the unit of `MainCameraActualPosition` is taken as the code divides it: by 8 in `src/grid.rs` and by 48 in `src/world.rs`.
- World.WorldState.GenerateNewChunkData: the same integer-camera simplification as the grid revision.
- Perlin noise comes from a foreign crate. It is a parameter of each state class, a function from two reals to a real, with no property assumed.
- Floating-point rounding is not modelled. Noise samples, range bounds and translations are exact reals, and NaN cannot occur.
- Grid.GridState.GenerateNewChunkData: the `i32` bounds `camera_chunk ± RENDER_DISTANCE` (`src/grid.rs:80-85`) are unbounded integers here, so the model always returns 25 chunks. In the source, `.floor() as i32` saturates for a camera beyond about `8 * 2^31`, and adding 2 then overflows: a panic in a debug build, a wrap-around in a release build. Not modelled.
- World.WorldState.GenerateNewChunkData: the same unmodelled `i32` overflow of `camera_chunk ± RENDER_DISTANCE` (`src/world.rs:76-82`), for a camera beyond about `48 * 2^31`.
- World.WTileAt: the pixel products `(chunk * 4 + x) * 12` (`src/world.rs:99-100`) are `i32` in the source and overflow once `|chunk|` exceeds about `4.4 * 10^7`. They are unbounded here, and no wrap-around is modelled. With chunks bounded by ±50 in `src/grid.rs`, no tile or cell product there can overflow.
- ECS plumbing is not modelled:
  - Deferred `Commands` are applied, in this model, when the system that issued them ends. Despawns are collected and applied after the loop, and the player spawn in `set_grid_data` comes after the grid writes. In Bevy the commands wait until the end of the `Update` schedule, and the three systems are unordered (`src/world.rs:32`, `src/grid.rs:35`).
  - That simplification hides one interleaving, a claim about the source that was not executed. In `src/world.rs`, one frame may run `spawn_new_chunks`, then `generate_new_chunk_data` with a moved camera, then `cleanup_distant_chunks`. The chunk spawned that frame is already in `loaded` but not in `desired`. Its sprites are still deferred, so the query at `src/world.rs:148` cannot see them, and `src/world.rs:157` drops the chunk from `loaded`. The sprites then appear with no loaded chunk, and a later visit spawns the chunk again on top of them. `src/grid.rs` recovers, because `delete_old_chunks` works from the markers of the tiles that exist: a later frame in which the chunk is still undesired despawns such orphans.
  - `HashSet` and `Query` iteration order is arbitrary: the loops pick any remaining element.
  - Spawn and delete within a tick are unordered: both orders are proved to agree.
- Entities are values. Spawned tiles form a set of records (translation, colour and, in `src/grid.rs`, the marker). From a consistent cache, the spawn lemmas prove that a new tile never coincides with an existing one, so no entity is lost by this there. Outside that invariant, a set merges equal records into one: a sprite re-spawned in `src/world.rs` over an orphan of the interleaving described above carries no marker, equals the orphan, and the two entities become one record. Entity ids are not modelled, except the slot entity a stack records in `src/ui_game.rs`.
- UiGame.GameUi.UiSlotSelection: the slots are visited in sequence order, while Bevy's query order is unspecified. "The last pressed slot wins" refers to that order.
- Rendering is not modelled: sprite sizes, `Transform` scale, the z coordinate of the translation, `Color::srgb` values (collapsed into a `Color` enum) and the `println!` calls.
- The pathfinding library is abstracted. `CardinalGrid` is cells, a snapshot published by `build()`, and counters of writes and builds. The path search that turns `Pathfind` into `NextPos`, and `Nav` variants other than `Impassable` and `Passable`, are not modelled.
- Grid.GridState.SetGridData: the player entity is modelled by its `AgentPos` and translation. Its `Name` is not modelled.
- `src/world.rs` `setup_grid_data` and `generate_path_grid` are not modelled. The noise loop of the first has all of its writes commented out, and the second only builds the library grid.
- `src/grid.rs` `setup_grid` is represented by the `NavGrid` constructor.
- `src/worker.rs` `setup` and `draw_player` (spawning and gizmos) are not modelled.
- Worker.Input: the player entity of `input` (`Single<Entity, With<AgentPos>>`, `src/worker.rs:57`) is a given `Agent`. In the wired program two `AgentPos` entities exist, one from `setup` (`src/worker.rs:14-19`) and one from `set_grid_data` (`src/grid.rs:58-62`). With two matches, Bevy's `Single` fails validation and skips `input`, so neither the toggle nor `Pathfind` would happen. This is a claim from reading the code that was not executed. Plugin wiring is not modelled.
- Perlin noise at the raw cells: `set_grid_data` samples the noise at integer points `(x, y)` (`src/grid.rs:66`). The noise crate is not part of this model. If it is classic gradient noise, which is zero at integer lattice points, no cell falls in `[-0.8, -0.1]` and the obstacle set stays empty. This is an unexecuted claim about the source. The model keeps the noise an arbitrary function and proves `SetGridData` for any result.
- The cursor-to-tile projection in `input` (`viewport_to_world_2d` and `.round()`) is not modelled. The clicked tile arrives as an optional grid position.
- `src/mouse.rs` (cursor and camera I/O), `src/main.rs` (plugin wiring) and `src/grid_path.rs` (its loop body is commented out) are not part of this model. Neither are the UI layout and logging of `src/ui_game.rs` (`setup`, `build_item_slot`, `log_slots`).
- Two source comments disagree with the code, and the model follows the code. `src/grid.rs:116` says chunks range "from 0 to WORLDMAXSIZE", but the check at line 118 allows `[-50, 50]`. `src/world.rs:42` says "8 * 12 = 96", but `CHUNK_SIZE * TILESIZE` is 48.
