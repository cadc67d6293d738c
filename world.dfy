/**
 * The older chunk cache of `src/world.rs`. The desired chunks are the square
 * of radius `RenderDistance` around the chunk of the camera's pixel
 * position; every desired chunk that is not loaded gets 16 tiles (there is
 * no world bound in this revision); the tiles carry no chunk tag, so the
 * cleanup recovers a tile's chunk from its pixel position by floor division
 * by `ChunkWorldSize`.
 */
module World {
  import opened ChunkMath
  import opened Terrain

  const ChunkSize: nat := 4
  const RenderDistance: nat := 1
  const TileSize: int := 12
  /** The side of a chunk in pixels: `ChunkSize * TileSize`. */
  const ChunkWorldSize: int := 48

  // ---------------------------------------------------------------------------
  // Terrain colour

  /** The colour `match` of `spawn_new_chunks`: nine inclusive ranges tried in order, grey when none matches. */
  function WorldColor(v: real): Color
  {
    if -1.2 <= v <= -0.9 then Navy
    else if -0.9 <= v <= -0.6 then Blue
    else if -0.6 <= v <= -0.4 then LightBlue
    else if -0.4 <= v <= -0.1 then Sand
    else if -0.1 <= v <= 0.0 then LightGreen
    else if 0.0 <= v <= 0.2 then Green
    else if 0.2 <= v <= 0.4 then Silver
    else if 0.4 <= v <= 0.6 then Silver
    else if 0.6 <= v <= 0.8 then Silver
    else Grey
  }

  /** The range table of the colour `match`. */
  const WorldBands: seq<Band> := [
    Band(-1.2, -0.9, Navy), Band(-0.9, -0.6, Blue), Band(-0.6, -0.4, LightBlue), Band(-0.4, -0.1, Sand),
    Band(-0.1, 0.0, LightGreen), Band(0.0, 0.2, Green), Band(0.2, 0.4, Silver), Band(0.4, 0.6, Silver),
    Band(0.6, 0.8, Silver)]

  /** The colour `match` is the first-match lookup in its range table with grey as fallback. */
  lemma WorldColorIsFirstMatch(v: real)
    ensures WorldColor(v) == FirstMatch(WorldBands, v, Grey)
  {
    if v <= 0.0 {
      WaterArms(v);
    } else {
      LandArms(v);
    }
  }

  /** The arms up to 0.0 of the colour `match`. */
  lemma WaterArms(v: real)
    requires v <= 0.0
    ensures WorldColor(v) == FirstMatch(WorldBands, v, Grey)
  {
    var t := WorldBands;
    if -1.2 <= v <= -0.9 {
      assert InBand(t[0], v);
    } else if -0.9 <= v <= -0.6 {
      assert InBand(t[1], v);
    } else if -0.6 <= v <= -0.4 {
      assert InBand(t[2], v);
    } else if -0.4 <= v <= -0.1 {
      assert InBand(t[3], v);
    } else if -0.1 <= v <= 0.0 {
      assert InBand(t[4], v);
    } else {
      assert forall i :: 0 <= i < |t| ==> !InBand(t[i], v);
    }
  }

  /** The arms above 0.0 of the colour `match`. */
  lemma LandArms(v: real)
    requires v > 0.0
    ensures WorldColor(v) == FirstMatch(WorldBands, v, Grey)
  {
    var t := WorldBands;
    assert forall i :: 0 <= i < 5 ==> !InBand(t[i], v);
    if v <= 0.2 {
      assert InBand(t[5], v);
    } else if v <= 0.4 {
      assert InBand(t[6], v);
    } else if v <= 0.6 {
      assert InBand(t[7], v);
    } else if v <= 0.8 {
      assert InBand(t[8], v);
    } else {
      assert forall i :: 0 <= i < |t| ==> !InBand(t[i], v);
    }
  }

  /**
   * Grey is used exactly for values outside `[-1.2, 0.8]`; the three silver
   * arms cover `(0.2, 0.8]`, the shared bound 0.2 going to the green arm
   * before them.
   */
  lemma WorldColorFallback(v: real)
    ensures WorldColor(v) == Grey <==> v < -1.2 || v > 0.8
    ensures WorldColor(v) == Silver <==> 0.2 < v <= 0.8
  {
  }

  // ---------------------------------------------------------------------------
  // Tiles

  /** A spawned sprite: its pixel translation and its colour. It carries no chunk tag. */
  datatype WTile = WTile(translation: Coord, color: Color)

  /** The sprite spawned for world cell `cell`: at pixel `cell * 12`, coloured by the noise at `cell * 12 / 300`. */
  function WTileAt(perlin: (real, real) -> real, cell: Coord): WTile
  {
    var px := (cell.0 * TileSize, cell.1 * TileSize);
    WTile(px, WorldColor(perlin(px.0 as real / 300.0, px.1 as real / 300.0)))
  }

  /** The chunk the cleanup recovers from a sprite's translation. */
  function Recover(t: WTile): (c: Coord)
    ensures ChunkWorldSize * c.0 <= t.translation.0 < ChunkWorldSize * c.0 + ChunkWorldSize
    ensures ChunkWorldSize * c.1 <= t.translation.1 < ChunkWorldSize * c.1 + ChunkWorldSize
  {
    ChunkOf(t.translation, ChunkWorldSize)
  }

  function WTilesOfCells(perlin: (real, real) -> real, cells: set<Coord>): set<WTile>
  {
    set cell | cell in cells :: WTileAt(perlin, cell)
  }

  /** The sprites of one chunk. */
  function ChunkWTiles(perlin: (real, real) -> real, c: Coord): set<WTile>
  {
    WTilesOfCells(perlin, ChunkCells(c, ChunkSize))
  }

  /** The sprites of a set of chunks. */
  function WTilesFor(perlin: (real, real) -> real, chunks: set<Coord>): set<WTile>
  {
    set c, cell | c in chunks && cell in ChunkCells(c, ChunkSize) :: WTileAt(perlin, cell)
  }

  /**
   * The position round trip: the sprite of world cell `c * 4 + x` sits at
   * pixel `(c * 4 + x) * 12`, and flooring that by 48 gives back `c`.
   */
  lemma RecoverRoundTrip(perlin: (real, real) -> real, c: Coord, cell: Coord)
    requires cell in ChunkCells(c, ChunkSize)
    ensures Recover(WTileAt(perlin, cell)) == c
  {
    var px := WTileAt(perlin, cell).translation;
    assert ChunkWorldSize * c.0 <= px.0 < ChunkWorldSize * c.0 + ChunkWorldSize;
    assert ChunkWorldSize * c.1 <= px.1 < ChunkWorldSize * c.1 + ChunkWorldSize;
    FloorDivUnique(px.0, ChunkWorldSize, c.0);
    FloorDivUnique(px.1, ChunkWorldSize, c.1);
  }

  /** One chunk spawns 16 sprites on 16 distinct pixels, each of which recovers to the chunk. */
  lemma ChunkWTilesShape(perlin: (real, real) -> real, c: Coord)
    ensures |ChunkWTiles(perlin, c)| == 16
    ensures forall t :: t in ChunkWTiles(perlin, c) ==> Recover(t) == c
  {
    var cells := ChunkCells(c, ChunkSize);
    var f := (cell: Coord) => WTileAt(perlin, cell);
    assert ChunkWTiles(perlin, c) == Image(cells, f);
    forall a, b | a in cells && b in cells && f(a) == f(b) ensures a == b {
      assert a.0 * TileSize == b.0 * TileSize;
      assert a.1 * TileSize == b.1 * TileSize;
    }
    InjectiveImageCard(cells, f);
    ChunkCellsCard(c, ChunkSize);
    forall t | t in ChunkWTiles(perlin, c) ensures Recover(t) == c {
      var cell :| cell in cells && t == WTileAt(perlin, cell);
      RecoverRoundTrip(perlin, c, cell);
    }
  }

  lemma WTilesOfCellsUnion(perlin: (real, real) -> real, a: set<Coord>, b: set<Coord>)
    ensures WTilesOfCells(perlin, a + b) == WTilesOfCells(perlin, a) + WTilesOfCells(perlin, b)
  {
  }

  /** Spawning the sprites of cells `a`, then those of cells `b`, spawns the sprites of `a + b`. */
  lemma SpawnSteps(perlin: (real, real) -> real, base: set<WTile>, a: set<Coord>, b: set<Coord>, t1: set<WTile>, t2: set<WTile>)
    requires t1 == base + WTilesOfCells(perlin, a) && t2 == t1 + WTilesOfCells(perlin, b)
    ensures t2 == base + WTilesOfCells(perlin, a + b)
  {
    WTilesOfCellsUnion(perlin, a, b);
  }

  lemma WTilesForEmpty(perlin: (real, real) -> real)
    ensures WTilesFor(perlin, {}) == {}
  {
  }

  /** Adding a chunk adds exactly its own sprites. */
  lemma WTilesForAdd(perlin: (real, real) -> real, chunks: set<Coord>, c: Coord)
    ensures WTilesFor(perlin, chunks + {c}) == WTilesFor(perlin, chunks) + ChunkWTiles(perlin, c)
  {
    forall t | t in WTilesFor(perlin, chunks + {c})
      ensures t in WTilesFor(perlin, chunks) + ChunkWTiles(perlin, c)
    {
      var c', cell :| c' in chunks + {c} && cell in ChunkCells(c', ChunkSize) && t == WTileAt(perlin, cell);
      if c' == c {
        assert t in ChunkWTiles(perlin, c);
      }
    }
    forall t | t in ChunkWTiles(perlin, c)
      ensures t in WTilesFor(perlin, chunks + {c})
    {
      var cell :| cell in ChunkCells(c, ChunkSize) && t == WTileAt(perlin, cell);
      assert c in chunks + {c};
    }
  }

  /** Every sprite of a set of chunks recovers to one of those chunks. */
  lemma WTilesForRecover(perlin: (real, real) -> real, chunks: set<Coord>)
    ensures forall t :: t in WTilesFor(perlin, chunks) ==> Recover(t) in chunks
  {
    forall t | t in WTilesFor(perlin, chunks) ensures Recover(t) in chunks {
      var c, cell :| c in chunks && cell in ChunkCells(c, ChunkSize) && t == WTileAt(perlin, cell);
      RecoverRoundTrip(perlin, c, cell);
    }
  }

  /** The sprites of a set of chunks number 16 per chunk: no two chunks share a sprite. */
  lemma {:induction false} WTilesForCard(perlin: (real, real) -> real, chunks: set<Coord>)
    ensures |WTilesFor(perlin, chunks)| == 16 * |chunks|
  {
    if chunks == {} {
      WTilesForEmpty(perlin);
    } else {
      var c :| c in chunks;
      var rest := chunks - {c};
      WTilesForCard(perlin, rest);
      WTilesForAdd(perlin, rest, c);
      assert rest + {c} == chunks;
      WTilesForRecover(perlin, rest);
      ChunkWTilesShape(perlin, c);
      assert WTilesFor(perlin, rest) !! ChunkWTiles(perlin, c);
    }
  }

  /** The sprites of two sets of chunks together are the sprites of their union. */
  lemma WTilesForUnion(perlin: (real, real) -> real, a: set<Coord>, b: set<Coord>)
    ensures WTilesFor(perlin, a) + WTilesFor(perlin, b) == WTilesFor(perlin, a + b)
  {
    forall t | t in WTilesFor(perlin, a + b)
      ensures t in WTilesFor(perlin, a) + WTilesFor(perlin, b)
    {
      var c, cell :| c in a + b && cell in ChunkCells(c, ChunkSize) && t == WTileAt(perlin, cell);
      if c in a {
        assert t in WTilesFor(perlin, a);
      } else {
        assert t in WTilesFor(perlin, b);
      }
    }
  }

  // ---------------------------------------------------------------------------
  // The cache systems as functions of their inputs

  function SpawnLoaded(loaded: set<Coord>, desired: set<Coord>): set<Coord>
  {
    loaded + desired
  }

  function SpawnTiles(perlin: (real, real) -> real, loaded: set<Coord>, tiles: set<WTile>, desired: set<Coord>): set<WTile>
  {
    tiles + WTilesFor(perlin, desired - loaded)
  }

  /** The chunks `cleanup_distant_chunks` removes: the collected difference `loaded \ desired`. */
  function ToRemove(loaded: set<Coord>, desired: set<Coord>): set<Coord>
  {
    loaded - desired
  }

  function CleanupLoaded(loaded: set<Coord>, desired: set<Coord>): set<Coord>
  {
    loaded - ToRemove(loaded, desired)
  }

  /** The sprites that survive the cleanup: those whose recovered chunk is not being removed. */
  function CleanupTiles(tiles: set<WTile>, removed: set<Coord>): set<WTile>
  {
    set t | t in tiles && Recover(t) !in removed
  }

  /** The cache invariant: the sprites are exactly the sprites of the loaded chunks. */
  ghost predicate Consistent(perlin: (real, real) -> real, loaded: set<Coord>, tiles: set<WTile>)
  {
    tiles == WTilesFor(perlin, loaded)
  }

  /** A second `spawn_new_chunks` with the same sets spawns nothing and changes nothing. */
  lemma SpawnIdempotent(perlin: (real, real) -> real, loaded: set<Coord>, tiles: set<WTile>, desired: set<Coord>)
    ensures desired - SpawnLoaded(loaded, desired) == {}
    ensures SpawnLoaded(SpawnLoaded(loaded, desired), desired) == SpawnLoaded(loaded, desired)
    ensures SpawnTiles(perlin, SpawnLoaded(loaded, desired), SpawnTiles(perlin, loaded, tiles, desired), desired)
            == SpawnTiles(perlin, loaded, tiles, desired)
  {
    assert desired - SpawnLoaded(loaded, desired) == {};
    WTilesForEmpty(perlin);
  }

  /**
   * From a consistent cache, `spawn_new_chunks` never spawns a sprite that
   * is already there, adds exactly 16 sprites per new chunk, and keeps the
   * cache consistent.
   */
  lemma SpawnKeepsConsistent(perlin: (real, real) -> real, loaded: set<Coord>, tiles: set<WTile>, desired: set<Coord>)
    requires Consistent(perlin, loaded, tiles)
    ensures tiles !! WTilesFor(perlin, desired - loaded)
    ensures |SpawnTiles(perlin, loaded, tiles, desired)| == |tiles| + 16 * |desired - loaded|
    ensures Consistent(perlin, SpawnLoaded(loaded, desired), SpawnTiles(perlin, loaded, tiles, desired))
  {
    var added := desired - loaded;
    WTilesForRecover(perlin, loaded);
    WTilesForRecover(perlin, added);
    assert tiles !! WTilesFor(perlin, added);
    WTilesForCard(perlin, added);
    assert SpawnLoaded(loaded, desired) == loaded + added;
    WTilesForUnion(perlin, loaded, added);
  }

  /**
   * From a consistent cache, `cleanup_distant_chunks` keeps exactly the
   * loaded chunks that are still desired and exactly their sprites: the
   * position-based recovery removes every sprite of a removed chunk and no
   * other sprite.
   */
  lemma CleanupExact(perlin: (real, real) -> real, loaded: set<Coord>, tiles: set<WTile>, desired: set<Coord>)
    requires Consistent(perlin, loaded, tiles)
    ensures CleanupLoaded(loaded, desired) == loaded * desired
    ensures CleanupTiles(tiles, ToRemove(loaded, desired)) == WTilesFor(perlin, loaded * desired)
    ensures Consistent(perlin, CleanupLoaded(loaded, desired), CleanupTiles(tiles, ToRemove(loaded, desired)))
  {
    var removed := ToRemove(loaded, desired);
    forall t | t in CleanupTiles(tiles, removed) ensures t in WTilesFor(perlin, loaded * desired) {
      var c, cell :| c in loaded && cell in ChunkCells(c, ChunkSize) && t == WTileAt(perlin, cell);
      RecoverRoundTrip(perlin, c, cell);
      assert c in loaded * desired;
    }
    forall t | t in WTilesFor(perlin, loaded * desired) ensures t in CleanupTiles(tiles, removed) {
      var c, cell :| c in loaded * desired && cell in ChunkCells(c, ChunkSize) && t == WTileAt(perlin, cell);
      RecoverRoundTrip(perlin, c, cell);
      assert t in WTilesFor(perlin, loaded);
    }
  }

  /**
   * Spawn and cleanup run unordered within a tick. From a consistent cache,
   * spawning then cleaning up leaves exactly the desired chunks loaded,
   * each with all of its sprites.
   */
  lemma SpawnThenCleanup(perlin: (real, real) -> real, loaded: set<Coord>, tiles: set<WTile>, desired: set<Coord>)
    requires Consistent(perlin, loaded, tiles)
    ensures var l1 := SpawnLoaded(loaded, desired);
            var t1 := SpawnTiles(perlin, loaded, tiles, desired);
            CleanupLoaded(l1, desired) == desired && CleanupTiles(t1, ToRemove(l1, desired)) == WTilesFor(perlin, desired)
  {
    SpawnKeepsConsistent(perlin, loaded, tiles, desired);
    var l1 := SpawnLoaded(loaded, desired);
    var t1 := SpawnTiles(perlin, loaded, tiles, desired);
    CleanupExact(perlin, l1, t1, desired);
    KeptJoinDesired(loaded, desired);
  }

  /** Cleaning up then spawning ends in the same state as spawning then cleaning up. */
  lemma CleanupThenSpawn(perlin: (real, real) -> real, loaded: set<Coord>, tiles: set<WTile>, desired: set<Coord>)
    requires Consistent(perlin, loaded, tiles)
    ensures var l2 := CleanupLoaded(loaded, desired);
            var t2 := CleanupTiles(tiles, ToRemove(loaded, desired));
            SpawnLoaded(l2, desired) == desired && SpawnTiles(perlin, l2, t2, desired) == WTilesFor(perlin, desired)
  {
    CleanupExact(perlin, loaded, tiles, desired);
    var l2 := CleanupLoaded(loaded, desired);
    var t2 := CleanupTiles(tiles, ToRemove(loaded, desired));
    SpawnKeepsConsistent(perlin, l2, t2, desired);
    KeptJoinDesired(loaded, desired);
  }

  lemma KeptJoinDesired(loaded: set<Coord>, desired: set<Coord>)
    ensures SpawnLoaded(loaded * desired, desired) == desired
    ensures SpawnLoaded(loaded, desired) * desired == desired
  {
  }

  // ---------------------------------------------------------------------------
  // The plugin's resources and systems

  /** The resources of the world plugin: the Perlin instance, the chunk sets and the spawned sprites. */
  class WorldState {
    const perlin: (real, real) -> real
    var desired: set<Coord>
    var loaded: set<Coord>
    var tiles: set<WTile>

    constructor (perlin: (real, real) -> real)
      ensures this.perlin == perlin
      ensures desired == {} && loaded == {} && tiles == {}
      ensures Consistent(perlin, loaded, tiles)
    {
      this.perlin := perlin;
      desired, loaded, tiles := {}, {}, {};
      new;
      WTilesForEmpty(perlin);
    }

    /**
     * `generate_new_chunk_data`: the desired set is replaced by the 9 chunks
     * of the square of radius 1 around the chunk of the camera's pixel
     * position (floor division by 48).
     */
    method GenerateNewChunkData(camera: Coord)
      modifies this`desired
      ensures desired == Square(ChunkOf(camera, ChunkWorldSize), RenderDistance)
      ensures |desired| == 9
    {
      var center := ChunkOf(camera, ChunkWorldSize);
      desired := BuildSquare(center, RenderDistance);
      SquareCard(center, RenderDistance);
    }

    /** The 16 sprites of chunk `c`, spawned by two nested loops over the local cells (the inner one in `SpawnColumn`). */
    method SpawnChunk(c: Coord)
      modifies this`tiles
      ensures tiles == old(tiles) + ChunkWTiles(perlin, c)
    {
      var x0, y0 := c.0 * ChunkSize, c.1 * ChunkSize;
      var x := 0;
      while x < ChunkSize
        invariant 0 <= x <= ChunkSize
        invariant tiles == old(tiles) + WTilesOfCells(perlin, Rect(x0, x0 + x, y0, y0 + ChunkSize))
      {
        ghost var before := tiles;
        SpawnColumn(c, x);
        SpawnSteps(perlin, old(tiles), Rect(x0, x0 + x, y0, y0 + ChunkSize), Rect(x0 + x, x0 + x + 1, y0, y0 + ChunkSize), before, tiles);
        RectAddColumn(x0, x0 + x, y0, y0 + ChunkSize);
        x := x + 1;
      }
    }

    /** The sprites of local column `x` of chunk `c`, one per local `y`. */
    method SpawnColumn(c: Coord, x: int)
      modifies this`tiles
      ensures tiles == old(tiles) + WTilesOfCells(perlin, Rect(c.0 * ChunkSize + x, c.0 * ChunkSize + x + 1, c.1 * ChunkSize, c.1 * ChunkSize + ChunkSize))
    {
      var wx, y0 := c.0 * ChunkSize + x, c.1 * ChunkSize;
      var y := 0;
      while y < ChunkSize
        invariant 0 <= y <= ChunkSize
        invariant tiles == old(tiles) + WTilesOfCells(perlin, Rect(wx, wx + 1, y0, y0 + y))
      {
        RectAddCell(wx, y0, y0 + y);
        tiles := tiles + {WTileAt(perlin, (wx, y0 + y))};
        y := y + 1;
      }
    }

    /**
     * `spawn_new_chunks`: every desired chunk that is not loaded gets its
     * sprites and joins the loaded set; no loaded chunk is removed.
     */
    method SpawnNewChunks()
      modifies this`loaded, this`tiles
      ensures loaded == SpawnLoaded(old(loaded), desired)
      ensures tiles == SpawnTiles(perlin, old(loaded), old(tiles), desired)
    {
      var todo := desired;
      ghost var done: set<Coord> := {};
      WTilesForEmpty(perlin);
      while todo != {}
        invariant todo + done == desired && todo !! done
        invariant loaded == old(loaded) + done
        invariant tiles == old(tiles) + WTilesFor(perlin, done - old(loaded))
        decreases todo
      {
        var c :| c in todo;
        if c !in loaded {
          SpawnChunk(c);
          loaded := loaded + {c};
          WTilesForAdd(perlin, done - old(loaded), c);
          assert (done + {c}) - old(loaded) == (done - old(loaded)) + {c};
        } else {
          assert (done + {c}) - old(loaded) == done - old(loaded);
        }
        todo := todo - {c};
        done := done + {c};
      }
    }

    /** One pass of the inner loop of the cleanup: the sprites whose recovered chunk is `c`. */
    method ChunkSprites(c: Coord) returns (matching: set<WTile>)
      ensures matching == set t | t in tiles && Recover(t) == c
    {
      var rest := tiles;
      ghost var seen: set<WTile> := {};
      matching := {};
      while rest != {}
        invariant rest + seen == tiles && rest !! seen
        invariant matching == set t | t in seen && Recover(t) == c
        decreases rest
      {
        var t :| t in rest;
        var chunk := (FloorDiv(t.translation.0, ChunkWorldSize), FloorDiv(t.translation.1, ChunkWorldSize));
        if chunk == c {
          matching := matching + {t};
        }
        rest := rest - {t};
        seen := seen + {t};
      }
    }

    /**
     * `cleanup_distant_chunks`: for every chunk of the collected difference
     * `loaded \ desired`, every sprite whose recovered chunk is that chunk is
     * despawned (the despawns are applied after the system) and the chunk
     * leaves the loaded set.
     */
    method CleanupDistantChunks()
      modifies this`loaded, this`tiles
      ensures loaded == CleanupLoaded(old(loaded), desired)
      ensures tiles == CleanupTiles(old(tiles), ToRemove(old(loaded), desired))
      ensures forall t :: t in tiles ==> Recover(t) !in ToRemove(old(loaded), desired)
    {
      var toRemove := loaded - desired;
      ghost var done: set<Coord> := {};
      var despawned: set<WTile> := {};
      while toRemove != {}
        invariant toRemove + done == ToRemove(old(loaded), desired) && toRemove !! done
        invariant tiles == old(tiles)
        invariant loaded == old(loaded) - done
        invariant despawned == set t | t in tiles && Recover(t) in done
        decreases toRemove
      {
        var c :| c in toRemove;
        var matching := ChunkSprites(c);
        despawned := despawned + matching;
        loaded := loaded - {c};
        toRemove := toRemove - {c};
        done := done + {c};
      }
      tiles := tiles - despawned;
    }
  }
}
