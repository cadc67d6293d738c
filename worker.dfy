/**
 * The worker systems: `move_player` commits each agent's `NextPos`, and the
 * mouse handler of `input` either asks for a path to the clicked tile (left
 * button) or toggles the clicked cell's navigation state (right button).
 * The screen-to-tile projection is not modelled: the clicked tile arrives
 * as an optional grid position.
 */
module Worker {
  import opened Wrappers
  import opened Northstar

  /** Side of a grid square in pixels. */
  const TileSize: real := 12.0

  /** The translation an agent standing on `p` is drawn at. */
  function CellTranslation(p: UVec3): (real, real, real)
  {
    (p.x as real * TileSize, p.y as real * TileSize, 0.0)
  }

  /** What `move_player` does to one agent: commit a pending `NextPos`, or leave the agent alone. */
  twostate predicate Stepped(a: Agent)
    reads a
  {
    && a.pathfind == old(a.pathfind)
    && (old(a.nextPos).Some? ==>
          a.agentPos == old(a.nextPos).value
          && a.translation == CellTranslation(old(a.nextPos).value)
          && a.nextPos == None)
    && (old(a.nextPos).None? ==>
          a.agentPos == old(a.agentPos) && a.translation == old(a.translation) && a.nextPos == None)
  }

  /**
   * `move_player`: every agent that has a `NextPos` moves there, is drawn at
   * that cell, and loses its `NextPos`; agents without one are not visited.
   */
  method MovePlayer(agents: seq<Agent>)
    requires forall i, j :: 0 <= i < j < |agents| ==> agents[i] != agents[j]
    modifies set a | a in agents
    ensures forall i :: 0 <= i < |agents| ==> Stepped(agents[i])
  {
    var i := 0;
    while i < |agents|
      invariant 0 <= i <= |agents|
      invariant forall k :: 0 <= k < i ==> Stepped(agents[k])
      invariant forall k :: i <= k < |agents| ==> unchanged(agents[k])
    {
      var a := agents[i];
      if a.nextPos.Some? {
        var next := a.nextPos.value;
        a.translation := CellTranslation(next);
        a.agentPos := next;
        a.nextPos := None;
      }
      i := i + 1;
    }
  }

  /**
   * The right-click rule: a cell that is not impassable becomes impassable, an
   * impassable one `Passable(1)`. The toggle flips passability, and an
   * impassable cell always reopens at cost 1.
   */
  function Toggled(n: Nav): (r: Nav)
    ensures r.Impassable? <==> !n.Impassable?
    ensures n.Impassable? ==> r == Passable(1)
  {
    if n != Impassable then Impassable else Passable(1)
  }

  /**
   * Toggling twice restores `Impassable` and `Passable(1)` cells; any other
   * passable cell ends at `Passable(1)`, losing its cost.
   */
  lemma ToggleTwice(n: Nav)
    ensures n == Impassable || n == Passable(1) ==> Toggled(Toggled(n)) == n
    ensures n.Passable? && n.cost != 1 ==> Toggled(Toggled(n)) == Passable(1)
  {
  }

  /**
   * The right-click branch of `input`: a cell outside the grid is left alone
   * and `build()` is not called; otherwise only that cell is toggled, and one
   * `build()` follows the single write.
   */
  method ToggleCell(grid: NavGrid, position: UVec3)
    modifies grid`cells, grid`writes, grid`built, grid`builds
    ensures old(grid.NavAt(position)).None? ==>
              grid.cells == old(grid.cells) && grid.writes == old(grid.writes)
              && grid.built == old(grid.built) && grid.builds == old(grid.builds)
    ensures old(grid.NavAt(position)).Some? ==>
              && grid.NavAt(position) == Some(Toggled(old(grid.NavAt(position)).value))
              && grid.writes == old(grid.writes) + 1
              && grid.builds == old(grid.builds) + 1
              && grid.built == grid.cells
    ensures forall q :: q != position ==> grid.NavAt(q) == old(grid.NavAt(q))
  {
    var nav := grid.NavAt(position);
    if nav.Some? {
      if nav.value != Impassable {
        grid.SetNav(position, Impassable);
      } else {
        grid.SetNav(position, Passable(1));
      }
    } else {
      return;
    }
    grid.Build();
  }

  /**
   * The mouse branches of `input`. A left press with a clicked tile gives the
   * player a `Pathfind` to it; a right press with a clicked tile toggles that
   * cell. Without a clicked tile neither happens.
   */
  method Input(leftPressed: bool, rightPressed: bool, clickedTile: Option<UVec3>, player: Agent, grid: NavGrid)
    modifies player`pathfind, grid`cells, grid`writes, grid`built, grid`builds
    ensures player.pathfind == if leftPressed && clickedTile.Some? then Some(clickedTile.value) else old(player.pathfind)
    ensures !(rightPressed && clickedTile.Some?) ==> unchanged(grid)
    ensures rightPressed && clickedTile.Some? && old(grid.NavAt(clickedTile.value)).Some? ==>
              && grid.NavAt(clickedTile.value) == Some(Toggled(old(grid.NavAt(clickedTile.value)).value))
              && grid.builds == old(grid.builds) + 1
              && grid.built == grid.cells
    ensures rightPressed && clickedTile.Some? && old(grid.NavAt(clickedTile.value)).None? ==> unchanged(grid)
    ensures forall q :: clickedTile != Some(q) ==> grid.NavAt(q) == old(grid.NavAt(q))
  {
    if leftPressed {
      if clickedTile.Some? {
        player.pathfind := Some(clickedTile.value);
      }
    }
    if rightPressed {
      if clickedTile.Some? {
        ToggleCell(grid, clickedTile.value);
      }
    }
  }
}
