/**
 * The chunk cache of `src/grid.rs`. Every tick the desired chunks are the
 * square of radius `RenderDistance` around the camera's chunk; chunks that
 * are desired, not yet loaded and inside `±WorldMaxSize` get 64 tiles, each
 * tagged with its chunk's `ChunkMarker`; tiles whose marker is no longer
 * desired are despawned and their chunk is dropped from the loaded set. At
 * startup the first chunk's obstacle cells are written into the navigation
 * grid.
 */
module Grid {
  import opened Wrappers
  import opened ChunkMath
  import opened Terrain
  import opened Northstar

  const ChunkSize: nat := 8
  const RenderDistance: nat := 2
  /** The world bound on chunk coordinates, in both directions of both axes. */
  const WorldMaxSize: int := 50
  const GridSquareSize: int := 12

  // ---------------------------------------------------------------------------
  // Terrain classification

  /**
   * `generate_impasable_coords`: two adjacent obstacle ranges, otherwise no answer.
   * The two ranges join into one, and the answer is never `Some(false)`.
   */
  function ImpassableBand(v: real): (r: Option<bool>)
    ensures r == Some(true) <==> -0.8 <= v <= -0.1
    ensures r != Some(false)
  {
    if -0.8 <= v <= -0.5 then Some(true)
    else if -0.5 <= v <= -0.1 then Some(true)
    else None
  }

  /** `assign_color`: the chain of inclusive ranges tried in order, white when none matches. */
  function AssignColor(v: real): Color
  {
    if -1.2 <= v <= -0.8 then Navy
    else if -0.8 <= v <= -0.5 then Blue
    else if -0.5 <= v <= -0.1 then LightBlue
    else if -0.1 <= v <= 0.0 then Sand
    else if 0.0 <= v <= 0.4 then LightGreen
    else if 0.4 <= v <= 0.8 then Green
    else if 0.8 <= v <= 1.2 then Silver
    else White
  }

  /** The range table behind `assign_color`. */
  const GridBands: seq<Band> := [
    Band(-1.2, -0.8, Navy), Band(-0.8, -0.5, Blue), Band(-0.5, -0.1, LightBlue), Band(-0.1, 0.0, Sand),
    Band(0.0, 0.4, LightGreen), Band(0.4, 0.8, Green), Band(0.8, 1.2, Silver)]

  /** `assign_color` is the first-match lookup in its range table with white as fallback. */
  lemma AssignColorIsFirstMatch(v: real)
    ensures AssignColor(v) == FirstMatch(GridBands, v, White)
  {
    var t := GridBands;
    if -1.2 <= v <= -0.8 {
      assert InBand(t[0], v);
    } else if -0.8 <= v <= -0.5 {
      assert InBand(t[1], v);
    } else if -0.5 <= v <= -0.1 {
      assert InBand(t[2], v);
    } else if -0.1 <= v <= 0.0 {
      assert InBand(t[3], v);
    } else if 0.0 <= v <= 0.4 {
      assert InBand(t[4], v);
    } else if 0.4 <= v <= 0.8 {
      assert InBand(t[5], v);
    } else if 0.8 <= v <= 1.2 {
      assert InBand(t[6], v);
    } else {
      assert forall i :: 0 <= i < |t| ==> !InBand(t[i], v);
    }
  }

  /** The fallback colour is used exactly for values outside `[-1.2, 1.2]`. */
  lemma AssignColorFallback(v: real)
    ensures AssignColor(v) == White <==> v < -1.2 || v > 1.2
  {
  }

  /**
   * The obstacle band and the colour chain agree on one noise value: a value
   * in the obstacle band is coloured blue or light blue, except the shared
   * bound -0.8, which the colour chain gives to navy; every blue or
   * light-blue value is in the obstacle band. This compares the two tables
   * only: `set_grid_data` samples the noise at the raw cell and the tile
   * colour samples it at the cell divided by 200, so the same cell is
   * classified and coloured from different samples.
   */
  lemma ObstacleBandIsWaterRange(v: real)
    ensures ImpassableBand(v) == Some(true) ==> AssignColor(v) in {Blue, LightBlue} || (v == -0.8 && AssignColor(v) == Navy)
    ensures AssignColor(v) in {Blue, LightBlue} ==> ImpassableBand(v) == Some(true)
  {
  }

  // ---------------------------------------------------------------------------
  // Tiles

  /** A spawned tile: its pixel translation, its sprite colour and its `ChunkMarker`. */
  datatype Tile = Tile(translation: Coord, color: Color, marker: Coord)

  /** The tile `spawn_new_chunks` creates for world cell `cell` of chunk `chunk`. */
  function TileAt(perlin: (real, real) -> real, chunk: Coord, cell: Coord): Tile
  {
    Tile((cell.0 * GridSquareSize, cell.1 * GridSquareSize),
         AssignColor(perlin(cell.0 as real / 200.0, cell.1 as real / 200.0)),
         chunk)
  }

  function TilesOfCells(perlin: (real, real) -> real, chunk: Coord, cells: set<Coord>): set<Tile>
  {
    set cell | cell in cells :: TileAt(perlin, chunk, cell)
  }

  /** The tiles of one chunk. */
  function ChunkTiles(perlin: (real, real) -> real, c: Coord): set<Tile>
  {
    TilesOfCells(perlin, c, ChunkCells(c, ChunkSize))
  }

  /** The tiles of a set of chunks. */
  function TilesFor(perlin: (real, real) -> real, chunks: set<Coord>): set<Tile>
  {
    set c, cell | c in chunks && cell in ChunkCells(c, ChunkSize) :: TileAt(perlin, c, cell)
  }

  /**
   * One chunk spawns 64 tiles on 64 distinct world cells
   * `(c.0 * 8 + x, c.1 * 8 + y)`, `x, y` in `[0, 8)`, all marked with `c`.
   */
  lemma ChunkTilesShape(perlin: (real, real) -> real, c: Coord)
    ensures |ChunkTiles(perlin, c)| == 64
    ensures forall t :: t in ChunkTiles(perlin, c) ==>
              t.marker == c && t.translation.0 % GridSquareSize == 0 && t.translation.1 % GridSquareSize == 0
              && (t.translation.0 / GridSquareSize, t.translation.1 / GridSquareSize) in ChunkCells(c, ChunkSize)
  {
    var cells := ChunkCells(c, ChunkSize);
    var f := (cell: Coord) => TileAt(perlin, c, cell);
    assert ChunkTiles(perlin, c) == Image(cells, f);
    forall a, b | a in cells && b in cells && f(a) == f(b) ensures a == b {
      TileAtCell(perlin, c, a);
      TileAtCell(perlin, c, b);
    }
    InjectiveImageCard(cells, f);
    ChunkCellsCard(c, ChunkSize);
    forall t | t in ChunkTiles(perlin, c)
      ensures t.marker == c && t.translation.0 % GridSquareSize == 0 && t.translation.1 % GridSquareSize == 0
              && (t.translation.0 / GridSquareSize, t.translation.1 / GridSquareSize) in cells
    {
      var cell :| cell in cells && t == TileAt(perlin, c, cell);
      TileAtCell(perlin, c, cell);
    }
  }

  /** A tile's translation is a multiple of the square size that divides back to its cell. */
  lemma TileAtCell(perlin: (real, real) -> real, chunk: Coord, cell: Coord)
    ensures TileAt(perlin, chunk, cell).translation.0 % GridSquareSize == 0
    ensures TileAt(perlin, chunk, cell).translation.1 % GridSquareSize == 0
    ensures (TileAt(perlin, chunk, cell).translation.0 / GridSquareSize, TileAt(perlin, chunk, cell).translation.1 / GridSquareSize) == cell
  {
  }

  lemma TilesOfCellsAdd(perlin: (real, real) -> real, chunk: Coord, cells: set<Coord>, cell: Coord)
    ensures TilesOfCells(perlin, chunk, cells + {cell}) == TilesOfCells(perlin, chunk, cells) + {TileAt(perlin, chunk, cell)}
  {
  }

  lemma TilesOfCellsUnion(perlin: (real, real) -> real, chunk: Coord, a: set<Coord>, b: set<Coord>)
    ensures TilesOfCells(perlin, chunk, a + b) == TilesOfCells(perlin, chunk, a) + TilesOfCells(perlin, chunk, b)
  {
  }

  /** Spawning the tiles of cells `a`, then those of cells `b`, spawns the tiles of `a + b`. */
  lemma SpawnSteps(perlin: (real, real) -> real, chunk: Coord, base: set<Tile>, a: set<Coord>, b: set<Coord>, t1: set<Tile>, t2: set<Tile>)
    requires t1 == base + TilesOfCells(perlin, chunk, a) && t2 == t1 + TilesOfCells(perlin, chunk, b)
    ensures t2 == base + TilesOfCells(perlin, chunk, a + b)
  {
    TilesOfCellsUnion(perlin, chunk, a, b);
  }

  lemma TilesForEmpty(perlin: (real, real) -> real)
    ensures TilesFor(perlin, {}) == {}
  {
  }

  /** Adding a chunk adds exactly its own tiles. */
  lemma TilesForAdd(perlin: (real, real) -> real, chunks: set<Coord>, c: Coord)
    ensures TilesFor(perlin, chunks + {c}) == TilesFor(perlin, chunks) + ChunkTiles(perlin, c)
  {
    forall t | t in TilesFor(perlin, chunks + {c})
      ensures t in TilesFor(perlin, chunks) + ChunkTiles(perlin, c)
    {
      var c', cell :| c' in chunks + {c} && cell in ChunkCells(c', ChunkSize) && t == TileAt(perlin, c', cell);
      if c' == c {
        assert t in ChunkTiles(perlin, c);
      }
    }
  }

  /** Every tile of a set of chunks is marked with one of those chunks. */
  lemma TilesForMarkers(perlin: (real, real) -> real, chunks: set<Coord>)
    ensures forall t :: t in TilesFor(perlin, chunks) ==> t.marker in chunks
  {
  }

  /** The tiles of a set of chunks number 64 per chunk: no two chunks share a tile. */
  lemma {:induction false} TilesForCard(perlin: (real, real) -> real, chunks: set<Coord>)
    ensures |TilesFor(perlin, chunks)| == 64 * |chunks|
  {
    if chunks == {} {
      TilesForEmpty(perlin);
    } else {
      var c :| c in chunks;
      var rest := chunks - {c};
      TilesForCard(perlin, rest);
      TilesForAdd(perlin, rest, c);
      assert rest + {c} == chunks;
      TilesForMarkers(perlin, rest);
      ChunkTilesShape(perlin, c);
      assert TilesFor(perlin, rest) !! ChunkTiles(perlin, c);
    }
  }

  /** Keeping the tiles whose marker is desired keeps exactly the tiles of the desired loaded chunks. */
  lemma TilesForRestrict(perlin: (real, real) -> real, chunks: set<Coord>, desired: set<Coord>)
    ensures (set t | t in TilesFor(perlin, chunks) && t.marker in desired) == TilesFor(perlin, chunks * desired)
  {
  }

  /** A loaded chunk has a tile: the one on its first cell. */
  lemma ChunkHasTile(perlin: (real, real) -> real, chunks: set<Coord>, c: Coord)
    requires c in chunks
    ensures TileAt(perlin, c, (c.0 * ChunkSize, c.1 * ChunkSize)) in TilesFor(perlin, chunks)
  {
    assert (c.0 * ChunkSize, c.1 * ChunkSize) in ChunkCells(c, ChunkSize);
  }

  // ---------------------------------------------------------------------------
  // The cache systems as functions of their inputs

  /** The bound check of `spawn_new_chunks`: a chunk with either axis beyond `±WorldMaxSize`. */
  predicate OutOfWorld(c: Coord)
  {
    (c.0 > WorldMaxSize || c.1 > WorldMaxSize) || (c.0 < -WorldMaxSize || c.1 < -WorldMaxSize)
  }

  function InWorld(chunks: set<Coord>): set<Coord>
  {
    set c | c in chunks && !OutOfWorld(c)
  }

  /** The chunks one run of `spawn_new_chunks` materializes. */
  function NewChunks(loaded: set<Coord>, desired: set<Coord>): set<Coord>
  {
    set c | c in desired && c !in loaded && !OutOfWorld(c)
  }

  function SpawnLoaded(loaded: set<Coord>, desired: set<Coord>): set<Coord>
  {
    loaded + InWorld(desired)
  }

  function SpawnTiles(perlin: (real, real) -> real, loaded: set<Coord>, tiles: set<Tile>, desired: set<Coord>): set<Tile>
  {
    tiles + TilesFor(perlin, NewChunks(loaded, desired))
  }

  function DeleteTiles(tiles: set<Tile>, desired: set<Coord>): set<Tile>
  {
    set t | t in tiles && t.marker in desired
  }

  function DeleteLoaded(loaded: set<Coord>, tiles: set<Tile>, desired: set<Coord>): set<Coord>
  {
    loaded - set t | t in tiles && t.marker !in desired :: t.marker
  }

  /**
   * The cache invariant: every loaded chunk is inside the world, every
   * loaded chunk has all of its tiles, and every tile belongs to a loaded
   * chunk (no orphaned tiles).
   */
  ghost predicate Consistent(perlin: (real, real) -> real, loaded: set<Coord>, tiles: set<Tile>)
  {
    (forall c :: c in loaded ==> !OutOfWorld(c)) && tiles == TilesFor(perlin, loaded)
  }

  /**
   * A second `spawn_new_chunks` with the same sets spawns nothing: no chunk is
   * new any more, and neither the loaded set nor the tiles change.
   */
  lemma SpawnIdempotent(perlin: (real, real) -> real, loaded: set<Coord>, tiles: set<Tile>, desired: set<Coord>)
    ensures NewChunks(SpawnLoaded(loaded, desired), desired) == {}
    ensures SpawnLoaded(SpawnLoaded(loaded, desired), desired) == SpawnLoaded(loaded, desired)
    ensures SpawnTiles(perlin, SpawnLoaded(loaded, desired), SpawnTiles(perlin, loaded, tiles, desired), desired)
            == SpawnTiles(perlin, loaded, tiles, desired)
  {
    var l1 := SpawnLoaded(loaded, desired);
    assert NewChunks(l1, desired) == {};
    TilesForEmpty(perlin);
  }

  /**
   * From a consistent cache, `spawn_new_chunks` never spawns a tile that is
   * already there (no double spawn), adds exactly 64 tiles per new chunk,
   * never loads a chunk outside the world, and keeps the cache consistent.
   */
  lemma SpawnKeepsConsistent(perlin: (real, real) -> real, loaded: set<Coord>, tiles: set<Tile>, desired: set<Coord>)
    requires Consistent(perlin, loaded, tiles)
    ensures tiles !! TilesFor(perlin, NewChunks(loaded, desired))
    ensures |SpawnTiles(perlin, loaded, tiles, desired)| == |tiles| + 64 * |NewChunks(loaded, desired)|
    ensures Consistent(perlin, SpawnLoaded(loaded, desired), SpawnTiles(perlin, loaded, tiles, desired))
  {
    var added := NewChunks(loaded, desired);
    TilesForMarkers(perlin, loaded);
    TilesForMarkers(perlin, added);
    assert tiles !! TilesFor(perlin, added);
    TilesForCard(perlin, added);
    assert SpawnLoaded(loaded, desired) == loaded + added;
    TilesForUnion(perlin, loaded, added);
  }

  /** The tiles of two sets of chunks together are the tiles of their union. */
  lemma TilesForUnion(perlin: (real, real) -> real, a: set<Coord>, b: set<Coord>)
    ensures TilesFor(perlin, a) + TilesFor(perlin, b) == TilesFor(perlin, a + b)
  {
    forall t | t in TilesFor(perlin, a + b)
      ensures t in TilesFor(perlin, a) + TilesFor(perlin, b)
    {
      var c, cell :| c in a + b && cell in ChunkCells(c, ChunkSize) && t == TileAt(perlin, c, cell);
      if c in a {
        assert t in TilesFor(perlin, a);
      } else {
        assert t in TilesFor(perlin, b);
      }
    }
  }

  /**
   * From a consistent cache, `delete_old_chunks` drops exactly the loaded
   * chunks that are no longer desired together with all of their tiles, and
   * leaves the desired loaded chunks and their tiles untouched.
   */
  lemma DeleteExact(perlin: (real, real) -> real, loaded: set<Coord>, tiles: set<Tile>, desired: set<Coord>)
    requires Consistent(perlin, loaded, tiles)
    ensures DeleteLoaded(loaded, tiles, desired) == loaded * desired
    ensures DeleteTiles(tiles, desired) == TilesFor(perlin, loaded * desired)
    ensures forall t :: t in tiles && t.marker in desired ==> t in DeleteTiles(tiles, desired)
    ensures Consistent(perlin, DeleteLoaded(loaded, tiles, desired), DeleteTiles(tiles, desired))
  {
    var gone := set t | t in tiles && t.marker !in desired :: t.marker;
    TilesForMarkers(perlin, loaded);
    forall c | c in loaded && c !in desired
      ensures c in gone
    {
      ChunkHasTile(perlin, loaded, c);
      var t := TileAt(perlin, c, (c.0 * ChunkSize, c.1 * ChunkSize));
      assert t in tiles && t.marker == c;
    }
    assert loaded - gone == loaded * desired;
    TilesForRestrict(perlin, loaded, desired);
  }

  /**
   * Spawn and delete run unordered within a tick. From a consistent cache,
   * spawning then deleting leaves exactly the desired chunks inside the
   * world loaded, each with all of its tiles.
   */
  lemma SpawnThenDelete(perlin: (real, real) -> real, loaded: set<Coord>, tiles: set<Tile>, desired: set<Coord>)
    requires Consistent(perlin, loaded, tiles)
    ensures var l1 := SpawnLoaded(loaded, desired);
            var t1 := SpawnTiles(perlin, loaded, tiles, desired);
            DeleteLoaded(l1, t1, desired) == InWorld(desired) && DeleteTiles(t1, desired) == TilesFor(perlin, InWorld(desired))
  {
    SpawnKeepsConsistent(perlin, loaded, tiles, desired);
    var l1 := SpawnLoaded(loaded, desired);
    var t1 := SpawnTiles(perlin, loaded, tiles, desired);
    DeleteExact(perlin, l1, t1, desired);
    LoadedMeetsDesired(loaded, desired);
  }

  /** Deleting then spawning ends in the same state as spawning then deleting. */
  lemma DeleteThenSpawn(perlin: (real, real) -> real, loaded: set<Coord>, tiles: set<Tile>, desired: set<Coord>)
    requires Consistent(perlin, loaded, tiles)
    ensures var l2 := DeleteLoaded(loaded, tiles, desired);
            var t2 := DeleteTiles(tiles, desired);
            SpawnLoaded(l2, desired) == InWorld(desired) && SpawnTiles(perlin, l2, t2, desired) == TilesFor(perlin, InWorld(desired))
  {
    DeleteExact(perlin, loaded, tiles, desired);
    var l2 := DeleteLoaded(loaded, tiles, desired);
    var t2 := DeleteTiles(tiles, desired);
    SpawnKeepsConsistent(perlin, l2, t2, desired);
    LoadedMeetsDesired(loaded, desired);
    assert SpawnLoaded(l2, desired) == InWorld(desired);
  }

  /** Loaded chunks are inside the world, so after a spawn the desired loaded chunks are the desired chunks inside the world. */
  lemma LoadedMeetsDesired(loaded: set<Coord>, desired: set<Coord>)
    requires forall c :: c in loaded ==> !OutOfWorld(c)
    ensures SpawnLoaded(loaded, desired) * desired == InWorld(desired)
    ensures SpawnLoaded(loaded * desired, desired) == InWorld(desired)
  {
  }

  // ---------------------------------------------------------------------------
  // Obstacles of the startup chunk

  /** A world cell whose noise value, sampled at the unscaled cell, is in an obstacle range. */
  predicate IsObstacle(perlin: (real, real) -> real, cell: Coord)
  {
    ImpassableBand(perlin(cell.0 as real, cell.1 as real)) == Some(true)
  }

  function Obstacles(perlin: (real, real) -> real, cells: set<Coord>): set<Coord>
  {
    set c | c in cells && IsObstacle(perlin, c)
  }

  /** The grid cells of a set of non-negative world cells. */
  function Lift(cells: set<Coord>): set<UVec3>
  {
    set c | c in cells && c.0 >= 0 && c.1 >= 0 :: UVec3(c.0, c.1, 0)
  }

  lemma LiftUnion(a: set<Coord>, b: set<Coord>)
    ensures Lift(a + b) == Lift(a) + Lift(b)
  {
  }

  /** The written cells `m` after `set_nav(p, Impassable)` for every `p` in `cells`. */
  function MarkImpassable(m: map<UVec3, Nav>, cells: set<UVec3>): map<UVec3, Nav>
  {
    m + map p | p in cells :: Impassable
  }

  lemma MarkImpassableUnion(m: map<UVec3, Nav>, a: set<UVec3>, b: set<UVec3>)
    ensures MarkImpassable(MarkImpassable(m, a), b) == MarkImpassable(m, a + b)
  {
  }

  lemma ObstaclesUnion(perlin: (real, real) -> real, a: set<Coord>, b: set<Coord>)
    ensures Obstacles(perlin, a + b) == Obstacles(perlin, a) + Obstacles(perlin, b)
  {
  }

  lemma LiftOne(x: nat, y: nat)
    ensures Lift({(x, y)}) == {UVec3(x, y, 0)}
  {
    assert (x, y) in {(x, y)};
  }

  /** Recording the obstacles of `a`, then those of `b`, records the obstacles of `a + b`. */
  lemma MarkSteps(perlin: (real, real) -> real, base: set<Coord>, a: set<Coord>, b: set<Coord>, i1: set<Coord>, i2: set<Coord>)
    requires i1 == base + Obstacles(perlin, a) && i2 == i1 + Obstacles(perlin, b)
    ensures i2 == base + Obstacles(perlin, a + b)
  {
    ObstaclesUnion(perlin, a, b);
  }

  /** Two rounds of marking newly recorded cells compose into one round over everything recorded since `i0`. */
  lemma MarkComposes(m: map<UVec3, Nav>, i0: set<Coord>, i1: set<Coord>, i2: set<Coord>)
    requires i0 <= i1 <= i2
    ensures MarkImpassable(MarkImpassable(m, Lift(i1 - i0)), Lift(i2 - i1)) == MarkImpassable(m, Lift(i2 - i0))
    ensures |i1 - i0| + |i2 - i1| == |i2 - i0|
  {
    assert (i2 - i0) == (i1 - i0) + (i2 - i1);
    LiftUnion(i1 - i0, i2 - i1);
    MarkImpassableUnion(m, Lift(i1 - i0), Lift(i2 - i1));
  }

  // ---------------------------------------------------------------------------
  // The plugin's resources and systems

  /** The resources of the grid plugin: the Perlin instance, the chunk sets, the obstacle set and the spawned tiles. */
  class GridState {
    const perlin: (real, real) -> real
    var desired: set<Coord>
    var loaded: set<Coord>
    var impassable: set<Coord>
    var tiles: set<Tile>

    constructor (perlin: (real, real) -> real)
      ensures this.perlin == perlin
      ensures desired == {} && loaded == {} && impassable == {} && tiles == {}
      ensures Consistent(perlin, loaded, tiles)
    {
      this.perlin := perlin;
      desired, loaded, impassable, tiles := {}, {}, {}, {};
      new;
      TilesForEmpty(perlin);
    }

    /**
     * `generate_new_chunk_data`: the desired set is replaced by the 25 chunks
     * of the square of radius 2 around the camera's chunk; nothing of the
     * previous desired set survives unless it is in the new square.
     */
    method GenerateNewChunkData(camera: Coord)
      modifies this`desired
      ensures desired == Square(ChunkOf(camera, ChunkSize), RenderDistance)
      ensures |desired| == 25
    {
      var center := ChunkOf(camera, ChunkSize);
      desired := BuildSquare(center, RenderDistance);
      SquareCard(center, RenderDistance);
    }

    /** The 64 tiles of chunk `c`, spawned by two nested loops over the local cells (the inner one in `SpawnColumn`). */
    method SpawnChunk(c: Coord)
      modifies this`tiles
      ensures tiles == old(tiles) + ChunkTiles(perlin, c)
    {
      var x0, y0 := c.0 * ChunkSize, c.1 * ChunkSize;
      var x := 0;
      while x < ChunkSize
        invariant 0 <= x <= ChunkSize
        invariant tiles == old(tiles) + TilesOfCells(perlin, c, Rect(x0, x0 + x, y0, y0 + ChunkSize))
      {
        ghost var before := tiles;
        SpawnColumn(c, x);
        SpawnSteps(perlin, c, old(tiles), Rect(x0, x0 + x, y0, y0 + ChunkSize), Rect(x0 + x, x0 + x + 1, y0, y0 + ChunkSize), before, tiles);
        RectAddColumn(x0, x0 + x, y0, y0 + ChunkSize);
        x := x + 1;
      }
    }

    /** The tiles of local column `x` of chunk `c`, one per local `y`. */
    method SpawnColumn(c: Coord, x: int)
      modifies this`tiles
      ensures tiles == old(tiles) + TilesOfCells(perlin, c, Rect(c.0 * ChunkSize + x, c.0 * ChunkSize + x + 1, c.1 * ChunkSize, c.1 * ChunkSize + ChunkSize))
    {
      var wx, y0 := c.0 * ChunkSize + x, c.1 * ChunkSize;
      var y := 0;
      while y < ChunkSize
        invariant 0 <= y <= ChunkSize
        invariant tiles == old(tiles) + TilesOfCells(perlin, c, Rect(wx, wx + 1, y0, y0 + y))
      {
        TilesOfCellsAdd(perlin, c, Rect(wx, wx + 1, y0, y0 + y), (wx, y0 + y));
        RectAddCell(wx, y0, y0 + y);
        tiles := tiles + {TileAt(perlin, c, (wx, y0 + y))};
        y := y + 1;
      }
    }

    /**
     * `spawn_new_chunks`: every desired chunk that is not loaded and lies in
     * the world gets its tiles and joins the loaded set; chunks outside the
     * world are skipped, and no loaded chunk is removed.
     */
    method SpawnNewChunks()
      modifies this`loaded, this`tiles
      ensures loaded == SpawnLoaded(old(loaded), desired)
      ensures tiles == SpawnTiles(perlin, old(loaded), old(tiles), desired)
      ensures forall c :: c in loaded - old(loaded) ==> c in desired && !OutOfWorld(c)
    {
      var todo := desired;
      ghost var done: set<Coord> := {};
      TilesForEmpty(perlin);
      while todo != {}
        invariant todo + done == desired && todo !! done
        invariant loaded == old(loaded) + InWorld(done)
        invariant tiles == old(tiles) + TilesFor(perlin, NewChunks(old(loaded), done))
        decreases todo
      {
        var c :| c in todo;
        if c !in loaded {
          if !OutOfWorld(c) {
            SpawnChunk(c);
            loaded := loaded + {c};
            TilesForAdd(perlin, NewChunks(old(loaded), done), c);
            assert NewChunks(old(loaded), done + {c}) == NewChunks(old(loaded), done) + {c};
          } else {
            assert NewChunks(old(loaded), done + {c}) == NewChunks(old(loaded), done);
          }
        } else {
          assert NewChunks(old(loaded), done + {c}) == NewChunks(old(loaded), done);
        }
        todo := todo - {c};
        done := done + {c};
      }
      assert NewChunks(old(loaded), done) == NewChunks(old(loaded), desired);
    }

    /**
     * `delete_old_chunks`: every tile whose marker is not desired is
     * despawned (the despawns are applied after the pass over the tiles) and
     * its marker is removed from the loaded set.
     */
    method DeleteOldChunks()
      modifies this`loaded, this`tiles
      ensures loaded == DeleteLoaded(old(loaded), old(tiles), desired)
      ensures tiles == DeleteTiles(old(tiles), desired)
    {
      var rest := tiles;
      ghost var seen: set<Tile> := {};
      var despawned: set<Tile> := {};
      while rest != {}
        invariant tiles == old(tiles)
        invariant rest + seen == old(tiles) && rest !! seen
        invariant despawned == set t | t in seen && t.marker !in desired
        invariant loaded == old(loaded) - set t | t in seen && t.marker !in desired :: t.marker
        decreases rest
      {
        var t :| t in rest;
        if t.marker !in desired {
          despawned := despawned + {t};
          loaded := loaded - {t.marker};
        }
        rest := rest - {t};
        seen := seen + {t};
      }
      tiles := tiles - despawned;
    }

    /**
     * `set_grid_data`: marks every cell of `[0, 8)^2` whose noise value is an
     * obstacle as impassable, writing each such cell at most once (only when
     * it is not yet in the obstacle set), calls `build()` once after the
     * loops, and spawns the player at cell (4, 4).
     */
    method SetGridData(grid: NavGrid) returns (player: Agent)
      requires ChunkSize <= grid.width && ChunkSize <= grid.height
      modifies this`impassable, grid`cells, grid`writes, grid`built, grid`builds
      ensures fresh(player) && player.agentPos == UVec3(4, 4, 0) && player.translation == (1.0, 1.0, 1.0)
      ensures player.nextPos == None
      ensures impassable == old(impassable) + Obstacles(perlin, Rect(0, ChunkSize, 0, ChunkSize))
      ensures grid.cells == MarkImpassable(old(grid.cells), Lift(impassable - old(impassable)))
      ensures grid.writes == old(grid.writes) + |impassable - old(impassable)|
      ensures grid.builds == old(grid.builds) + 1 && grid.built == grid.cells
    {
      var x := 0;
      while x < ChunkSize
        invariant 0 <= x <= ChunkSize
        invariant impassable == old(impassable) + Obstacles(perlin, Rect(0, x, 0, ChunkSize))
        invariant grid.cells == MarkImpassable(old(grid.cells), Lift(impassable - old(impassable)))
        invariant grid.writes == old(grid.writes) + |impassable - old(impassable)|
        invariant grid.builds == old(grid.builds)
      {
        ghost var before := impassable;
        MarkColumn(grid, x);
        MarkSteps(perlin, old(impassable), Rect(0, x, 0, ChunkSize), Rect(x, x + 1, 0, ChunkSize), before, impassable);
        MarkComposes(old(grid.cells), old(impassable), before, impassable);
        RectAddColumn(0, x, 0, ChunkSize);
        x := x + 1;
      }
      grid.Build();
      // the player spawn is a deferred command: it takes effect when the system ends
      player := new Agent(UVec3(4, 4, 0), (1.0, 1.0, 1.0));
    }

    /** The inner loop of `set_grid_data` over the cells `(x, y)`, `y` in `[0, 8)`. */
    method MarkColumn(grid: NavGrid, x: nat)
      requires x < ChunkSize <= grid.width && ChunkSize <= grid.height
      modifies this`impassable, grid`cells, grid`writes
      ensures impassable == old(impassable) + Obstacles(perlin, Rect(x, x + 1, 0, ChunkSize))
      ensures grid.cells == MarkImpassable(old(grid.cells), Lift(impassable - old(impassable)))
      ensures grid.writes == old(grid.writes) + |impassable - old(impassable)|
    {
      var y := 0;
      while y < ChunkSize
        invariant 0 <= y <= ChunkSize
        invariant impassable == old(impassable) + Obstacles(perlin, Rect(x, x + 1, 0, y))
        invariant grid.cells == MarkImpassable(old(grid.cells), Lift(impassable - old(impassable)))
        invariant grid.writes == old(grid.writes) + |impassable - old(impassable)|
      {
        ghost var before := impassable;
        MarkCell(grid, x, y);
        MarkSteps(perlin, old(impassable), Rect(x, x + 1, 0, y), {(x, y)}, before, impassable);
        MarkComposes(old(grid.cells), old(impassable), before, impassable);
        RectAddCell(x, 0, y);
        y := y + 1;
      }
    }

    /** One iteration of the inner loop: the cell `(x, y)` is written only when it is an obstacle not yet recorded. */
    method MarkCell(grid: NavGrid, x: nat, y: nat)
      requires x < grid.width && y < grid.height
      modifies this`impassable, grid`cells, grid`writes
      ensures impassable == old(impassable) + Obstacles(perlin, {(x, y)})
      ensures grid.cells == MarkImpassable(old(grid.cells), Lift(impassable - old(impassable)))
      ensures grid.writes == old(grid.writes) + |impassable - old(impassable)|
    {
      var noise := perlin(x as real, y as real);
      if ImpassableBand(noise) == Some(true) && (x, y) !in impassable {
        impassable := impassable + {(x, y)};
        grid.SetNav(UVec3(x, y, 0), Impassable);
        assert impassable - old(impassable) == {(x, y)};
        LiftOne(x, y);
      } else {
        assert impassable - old(impassable) == {};
        assert Lift({}) == {};
      }
    }
  }
}
