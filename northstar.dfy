/**
 * The navigation grid and the agent components the game uses from its
 * pathfinding library (a `CardinalGrid` with `nav`, `set_nav` and `build`,
 * and the `AgentPos`, `NextPos` and `Pathfind` components). The library's
 * internals are not modelled: `build()` is a snapshot of the cells plus a
 * counter of calls, and the path search is left to the library.
 */
module Northstar {
  import opened Wrappers

  /** An unsigned grid position; the grids here are two-dimensional, so `z` is 0. */
  datatype UVec3 = UVec3(x: nat, y: nat, z: nat)

  /** The navigation state of one grid cell. */
  datatype Nav = Impassable | Passable(cost: nat)

  /** The cost of a cell that was never written. */
  const DefaultNav: Nav := Passable(1)

  /** A `width` by `height` two-dimensional navigation grid. */
  class NavGrid {
    const width: nat
    const height: nat
    /** The cells written by `SetNav`; every other in-grid cell holds `DefaultNav`. */
    var cells: map<UVec3, Nav>
    /** The cells as they were at the last `Build`: what path queries see. */
    var built: map<UVec3, Nav>
    /** How many times `Build` has run. */
    var builds: nat
    /** How many times `SetNav` has run. */
    var writes: nat

    predicate InGrid(p: UVec3)
    {
      p.x < width && p.y < height && p.z == 0
    }

    /** `nav(p)`: `None` outside the grid, otherwise the cell's current state. */
    function NavAt(p: UVec3): (r: Option<Nav>)
      reads this
      ensures r.None? <==> !InGrid(p)
      ensures r.Some? && p !in cells ==> r.value == DefaultNav
    {
      if !InGrid(p) then None
      else if p in cells then Some(cells[p])
      else Some(DefaultNav)
    }

    constructor (width: nat, height: nat)
      ensures this.width == width && this.height == height
      ensures cells == map[] && built == map[] && builds == 0 && writes == 0
    {
      this.width, this.height := width, height;
      cells, built, builds, writes := map[], map[], 0, 0;
    }

    /** `set_nav(p, n)`: writes one in-grid cell; path queries do not see it until `Build`. */
    method SetNav(p: UVec3, n: Nav)
      requires InGrid(p)
      modifies this`cells, this`writes
      ensures cells == old(cells)[p := n] && writes == old(writes) + 1
      ensures NavAt(p) == Some(n)
      ensures forall q :: q != p ==> NavAt(q) == old(NavAt(q))
    {
      cells := cells[p := n];
      writes := writes + 1;
    }

    /** `build()`: path queries see the cells as they are now. */
    method Build()
      modifies this`built, this`builds
      ensures built == cells && builds == old(builds) + 1
    {
      built := cells;
      builds := builds + 1;
    }
  }

  /** An agent entity: its `AgentPos`, optional `NextPos` and `Pathfind`, and its `Transform` translation. */
  class Agent {
    var agentPos: UVec3
    var nextPos: Option<UVec3>
    var pathfind: Option<UVec3>
    var translation: (real, real, real)

    constructor (agentPos: UVec3, translation: (real, real, real))
      ensures this.agentPos == agentPos && this.translation == translation
      ensures nextPos == None && pathfind == None
    {
      this.agentPos, this.translation := agentPos, translation;
      nextPos, pathfind := None, None;
    }
  }
}
