/** A rectangular map of integer cell codes, indexed `g[x][y]` with `x`
    first, as every map array of the raycaster is. A code above zero is a
    wall; zero is empty floor. */
module Grid {

  type Map = seq<seq<int>>

  ghost predicate IsGrid(g: Map)
  {
    |g| >= 1 && |g[0]| >= 1 && forall x :: 0 <= x < |g| ==> |g[x]| == |g[0]|
  }

  function Width(g: Map): nat
    requires IsGrid(g)
  {
    |g|
  }

  function Height(g: Map): nat
    requires IsGrid(g)
  {
    |g[0]|
  }

  predicate InGrid(g: Map, x: int, y: int)
    requires IsGrid(g)
  {
    0 <= x < Width(g) && 0 <= y < Height(g)
  }

  predicate OnBorder(g: Map, x: int, y: int)
    requires IsGrid(g)
  {
    x == 0 || x == Width(g) - 1 || y == 0 || y == Height(g) - 1
  }

  predicate Interior(g: Map, x: int, y: int)
    requires IsGrid(g)
  {
    1 <= x < Width(g) - 1 && 1 <= y < Height(g) - 1
  }

  /** Every cell on the outer ring of the map is a wall. */
  ghost predicate SolidBorder(g: Map)
  {
    IsGrid(g) &&
    forall x, y :: InGrid(g, x, y) && OnBorder(g, x, y) ==> g[x][y] > 0
  }

  /** On a map with a solid border, a cell that is not a wall lies in the
      interior, so one step in any direction stays on the map. */
  lemma OpenCellIsInterior(g: Map, x: int, y: int)
    requires SolidBorder(g) && InGrid(g, x, y) && g[x][y] <= 0
    ensures Interior(g, x, y)
  {
  }
}
