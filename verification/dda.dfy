/** Grid DDA: the walk of a ray from cell to cell, crossing one grid line
    at a time, until it enters a wall cell. `Advance` is one iteration of
    the `while (!hit)` loop of maze.cpp and of both loops of
    lib/raycast.hpp; `Traverse` is the loop. */
module Dda {
  import opened CMath
  import opened Grid

  /** The sentinel maze.cpp uses for `deltaDist` when the ray is parallel
      to an axis. */
  const Parallel: real := 1e30

  /** What one column's walk keeps fixed: the step direction and the ray
      length between two grid lines, per axis. */
  datatype Ray = Ray(stepX: int, stepY: int, deltaDistX: real, deltaDistY: real)

  /** What the walk updates: the current cell, the ray length to the next
      x and y grid line, and which axis was crossed last (0 = x, 1 = y). */
  datatype Walker = Walker(mapX: int, mapY: int, sideDistX: real, sideDistY: real, side: int)

  predicate ValidRay(r: Ray)
  {
    (r.stepX == 1 || r.stepX == -1) && (r.stepY == 1 || r.stepY == -1)
  }

  /** `deltaDist` for one axis: the ray length between two grid lines. */
  function DeltaDist(rayDir: real): (d: real)
    ensures d > 0.0
    ensures rayDir != 0.0 ==> d * Abs(rayDir) == 1.0
    ensures rayDir == 0.0 ==> d == Parallel
  {
    if rayDir == 0.0 then Parallel else Abs(1.0 / rayDir)
  }

  /** The cell step for one axis. */
  function StepOf(rayDir: real): (s: int)
    ensures s == 1 || s == -1
    ensures s == -1 <==> rayDir < 0.0
  {
    if rayDir < 0.0 then -1 else 1
  }

  /** The initial `sideDist` for one axis: the ray length from the camera
      to the first grid line in the step direction. From the camera's own
      cell that line is at most one `deltaDist` away. */
  function InitialSideDist(pos: real, cell: int, rayDir: real, delta: real): (sd: real)
    ensures cell as real <= pos < cell as real + 1.0 && delta > 0.0 ==> 0.0 <= sd <= delta
    ensures rayDir < 0.0 ==> sd == (pos - cell as real) * delta
    ensures rayDir >= 0.0 ==> sd == (cell as real + 1.0 - pos) * delta
  {
    var f := if rayDir < 0.0 then pos - cell as real else cell as real + 1.0 - pos;
    if 0.0 <= f <= 1.0 && delta > 0.0 then
      ScaleWithin(f, delta);
      f * delta
    else
      f * delta
  }

  /** `xDistanceToNextGrid` of lib/walls.cpp: how far `ray` is from the
      next grid line in the direction of `step`, or 0 when `step` is 0. */
  function DistanceToNextGrid(ray: real, step: real): (d: real)
    requires ray >= 0.0
    ensures step > 0.0 ==> 0.0 < d <= 1.0 && ray + d == (Trunc(ray) + 1) as real
    ensures step < 0.0 ==> 0.0 <= d < 1.0 && ray - d == Trunc(ray) as real
    ensures step == 0.0 ==> d == 0.0
  {
    var grid := Trunc(ray);
    if step != 0.0 then
      (if step > 0.0 then 1.0 - (ray - grid as real) else ray - grid as real)
    else 0.0
  }

  /** lib/walls.cpp starts every ray at (5, 5), on a grid corner: the next
      line is a whole cell ahead going up and right here going down. */
  lemma NextGridFromCorner(step: real)
    ensures step > 0.0 ==> DistanceToNextGrid(5.0, step) == 1.0
    ensures step < 0.0 ==> DistanceToNextGrid(5.0, step) == 0.0
  {
  }

  /** The initial `sideDist` of maze.cpp is the distance to the next grid
      line of lib/walls.cpp scaled by `deltaDist`, for a camera at a
      nonnegative position in its own cell and a ray not parallel to the
      axis. */
  lemma {:induction false} SideDistIsScaledGridDistance(pos: real, rayDir: real)
    requires pos >= 0.0 && rayDir != 0.0
    ensures InitialSideDist(pos, Trunc(pos), rayDir, DeltaDist(rayDir))
         == DistanceToNextGrid(pos, rayDir) * DeltaDist(rayDir)
  {
  }

  /** One DDA iteration: cross the nearer grid line. The x axis is taken
      only when its line is strictly nearer; a tie crosses the y line. */
  function Advance(r: Ray, w: Walker): (v: Walker)
    ensures v.side == 0 <==> w.sideDistX < w.sideDistY
    ensures v.side == 0 ==> v.mapX == w.mapX + r.stepX && v.mapY == w.mapY
    ensures v.side == 1 ==> v.mapY == w.mapY + r.stepY && v.mapX == w.mapX
    ensures ValidRay(r) ==> Abs((v.mapX - w.mapX) as real) + Abs((v.mapY - w.mapY) as real) == 1.0
    ensures r.deltaDistX >= 0.0 && r.deltaDistY >= 0.0 ==>
      Min(w.sideDistX, w.sideDistY) <= Min(v.sideDistX, v.sideDistY)
  {
    if w.sideDistX < w.sideDistY then
      Walker(w.mapX + r.stepX, w.mapY, w.sideDistX + r.deltaDistX, w.sideDistY, 0)
    else
      Walker(w.mapX, w.mapY + r.stepY, w.sideDistX, w.sideDistY + r.deltaDistY, 1)
  }

  /** The walker after `n` iterations. */
  ghost function Walk(r: Ray, w: Walker, n: nat): Walker
  {
    if n == 0 then w else Advance(r, Walk(r, w, n - 1))
  }

  /** The termination measure: the cells left before the border, counted
      along the step direction of each axis. */
  function CellsToBorder(g: Map, r: Ray, w: Walker): int
    requires IsGrid(g)
  {
    (if r.stepX > 0 then Width(g) - 1 - w.mapX else w.mapX) +
    (if r.stepY > 0 then Height(g) - 1 - w.mapY else w.mapY)
  }

  /** Every iteration brings the walker exactly one cell closer to the
      border in the measure of `CellsToBorder`. */
  lemma AdvanceShrinksMeasure(g: Map, r: Ray, w: Walker)
    requires IsGrid(g) && ValidRay(r)
    ensures CellsToBorder(g, r, Advance(r, w)) == CellsToBorder(g, r, w) - 1
  {
  }

  /** Every cell the walk enters before iteration `n` is on the map and
      open. */
  ghost predicate OpenBefore(g: Map, r: Ray, w0: Walker, n: nat)
    requires IsGrid(g)
  {
    forall k :: 1 <= k < n ==>
      InGrid(g, Walk(r, w0, k).mapX, Walk(r, w0, k).mapY) &&
      g[Walk(r, w0, k).mapX][Walk(r, w0, k).mapY] <= 0
  }

  /** An open cell at iteration `n` extends the open prefix by one. */
  lemma OpenBeforeExtend(g: Map, r: Ray, w0: Walker, n: nat)
    requires IsGrid(g) && OpenBefore(g, r, w0, n)
    requires n >= 1 ==> InGrid(g, Walk(r, w0, n).mapX, Walk(r, w0, n).mapY) && g[Walk(r, w0, n).mapX][Walk(r, w0, n).mapY] <= 0
    ensures OpenBefore(g, r, w0, n + 1)
  {
  }

  /** One more iteration from an open cell (or from the start, whose
      first cell is on the map) enters a cell on the map, one step closer
      to the border. */
  lemma AdvanceStaysOnMap(g: Map, r: Ray, w0: Walker, w: Walker, n: nat)
    requires SolidBorder(g) && ValidRay(r)
    requires InGrid(g, Advance(r, w0).mapX, Advance(r, w0).mapY)
    requires n == 0 ==> w == w0
    requires n >= 1 ==> (InGrid(g, w.mapX, w.mapY) && g[w.mapX][w.mapY] <= 0
                         && n + CellsToBorder(g, r, w) == CellsToBorder(g, r, w0))
    ensures InGrid(g, Advance(r, w).mapX, Advance(r, w).mapY)
    ensures n + 1 + CellsToBorder(g, r, Advance(r, w)) == CellsToBorder(g, r, w0)
  {
    if n >= 1 {
      OpenCellIsInterior(g, w.mapX, w.mapY);
    }
    AdvanceShrinksMeasure(g, r, w);
  }

  /** The `while (!hit)` loop. The first cell it enters must lie on the
      map (the source does not check bounds); after that, a solid border
      keeps every cell it enters on the map. It stops at the first cell it
      enters whose code is above zero, after at most `CellsToBorder`
      iterations. */
  method Traverse(g: Map, r: Ray, w0: Walker) returns (w: Walker, ghost n: nat)
    requires SolidBorder(g) && ValidRay(r)
    requires InGrid(g, Advance(r, w0).mapX, Advance(r, w0).mapY)
    ensures 1 <= n <= CellsToBorder(g, r, w0)
    ensures w == Walk(r, w0, n)
    ensures InGrid(g, w.mapX, w.mapY) && g[w.mapX][w.mapY] > 0
    ensures OpenBefore(g, r, w0, n)
  {
    w := w0;
    n := 0;
    var hit := false;
    while !hit
      invariant w == Walk(r, w0, n)
      invariant n == 0 ==> !hit && w == w0
      invariant n >= 1 ==> (InGrid(g, w.mapX, w.mapY) && (hit <==> g[w.mapX][w.mapY] > 0)
                            && n + CellsToBorder(g, r, w) == CellsToBorder(g, r, w0))
      invariant OpenBefore(g, r, w0, n)
      decreases CellsToBorder(g, r, w0) + 1 - n
    {
      AdvanceStaysOnMap(g, r, w0, w, n);
      OpenBeforeExtend(g, r, w0, n);
      w := Advance(r, w);
      n := n + 1;
      if g[w.mapX][w.mapY] > 0 {
        hit := true;
      }
    }
  }

  /** The starting state of one screen column in maze.cpp: the camera's
      cell, the step directions, `deltaDist` and the initial `sideDist`.
      `side` is not yet set in the source; it starts at 0 here. */
  function ColumnRay(rayDirX: real, rayDirY: real): Ray
  {
    Ray(StepOf(rayDirX), StepOf(rayDirY), DeltaDist(rayDirX), DeltaDist(rayDirY))
  }

  function ColumnStart(posX: real, posY: real, rayDirX: real, rayDirY: real): Walker
  {
    var mapX, mapY := Trunc(posX), Trunc(posY);
    Walker(mapX, mapY,
           InitialSideDist(posX, mapX, rayDirX, DeltaDist(rayDirX)),
           InitialSideDist(posY, mapY, rayDirY, DeltaDist(rayDirY)), 0)
  }

  /** For a camera inside the map (x, y >= 0) both initial `sideDist`s lie
      between 0 and one `deltaDist`. */
  lemma ColumnStartDistances(posX: real, posY: real, rayDirX: real, rayDirY: real)
    requires posX >= 0.0 && posY >= 0.0
    ensures var w := ColumnStart(posX, posY, rayDirX, rayDirY);
      0.0 <= w.sideDistX <= DeltaDist(rayDirX) && 0.0 <= w.sideDistY <= DeltaDist(rayDirY)
  {
  }

  /** The ray cast of one screen column of maze.cpp (the cell, step and
      `sideDist` set-up and the DDA loop): from an interior camera cell it
      returns the first wall cell the ray enters, the axis crossed last, and
      `texNum`, the wall code less one. */
  method CastColumn(g: Map, posX: real, posY: real, rayDirX: real, rayDirY: real)
    returns (mapX: int, mapY: int, side: int, texNum: int, ghost n: nat)
    requires SolidBorder(g) && Interior(g, Trunc(posX), Trunc(posY))
    ensures InGrid(g, mapX, mapY) && g[mapX][mapY] > 0 && texNum == g[mapX][mapY] - 1 >= 0
    ensures side == 0 || side == 1
    ensures 1 <= n <= Width(g) + Height(g) - 4
    ensures var w := Walk(ColumnRay(rayDirX, rayDirY), ColumnStart(posX, posY, rayDirX, rayDirY), n);
      w.mapX == mapX && w.mapY == mapY && w.side == side
    ensures OpenBefore(g, ColumnRay(rayDirX, rayDirY), ColumnStart(posX, posY, rayDirX, rayDirY), n)
  {
    var r := ColumnRay(rayDirX, rayDirY);
    var w0 := ColumnStart(posX, posY, rayDirX, rayDirY);
    var w;
    w, n := Traverse(g, r, w0);
    mapX, mapY, side := w.mapX, w.mapY, w.side;
    texNum := g[mapX][mapY] - 1;
    assert w == Advance(r, Walk(r, w0, n - 1));
  }

  /** `distanceToWall` of lib/raycast.hpp. Its walk starts at map cell
      (0, 0), not at the player's cell, with `deltaDist` equal to the
      length `len` of the ray direction on both axes. The source indexes
      the map without a bounds check, so the first cell entered must lie on
      the map; that cell is then on the border, so the walk always stops
      after one step. The result is the distance from the ray position to
      the crossed cell along the crossed axis, with the other component 0. */
  method DistanceToWall(g: Map, rayPosX: real, rayPosY: real, rayDirX: real, rayDirY: real, len: real)
    returns (distX: real, distY: real, ghost mapX: int, ghost mapY: int, ghost wallHitX: int, ghost wallHitY: int)
    requires SolidBorder(g)
    requires var r := Ray(StepOf(rayDirX), StepOf(rayDirY), len, len);
      var first := Advance(r, Walker(0, 0, InitialSideDist(rayPosX, 0, rayDirX, len),
                                           InitialSideDist(rayPosY, 0, rayDirY, len), 0));
      InGrid(g, first.mapX, first.mapY)
    ensures (wallHitX == 0) != (wallHitY == 0)
    ensures wallHitX == -1 ==> distX == rayPosX - mapX as real && distY == 0.0
    ensures wallHitX == 1 ==> distX == mapX as real + 1.0 - rayPosX && distY == 0.0
    ensures wallHitY == -1 ==> distY == rayPosY - mapY as real && distX == 0.0
    ensures wallHitY == 1 ==> distY == mapY as real + 1.0 - rayPosY && distX == 0.0
    ensures (mapX, mapY, wallHitX, wallHitY) == (1, 0, 1, 0) || (mapX, mapY, wallHitX, wallHitY) == (0, 1, 0, 1)
    ensures (distX, distY) == (2.0 - rayPosX, 0.0) || (distX, distY) == (0.0, 2.0 - rayPosY)
  {
    var r := Ray(StepOf(rayDirX), StepOf(rayDirY), len, len);
    var w0 := Walker(0, 0, InitialSideDist(rayPosX, 0, rayDirX, len),
                           InitialSideDist(rayPosY, 0, rayDirY, len), 0);
    var w;
    ghost var n;
    w, n := Traverse(g, r, w0);
    assert Walk(r, w0, 1) == Advance(r, w0);
    if n > 1 {
      assert false;
    }
    var hitX, hitY := w.mapX, w.mapY;
    var hitSideX, hitSideY;
    if w.side == 0 {
      hitSideX, hitSideY := r.stepX, 0;
    } else {
      hitSideX, hitSideY := 0, r.stepY;
    }
    distX, distY := 0.0, 0.0;
    if hitSideX == -1 {
      distX := rayPosX - hitX as real;
    } else if hitSideX == 1 {
      distX := hitX as real + 1.0 - rayPosX;
    } else if hitSideY == -1 {
      distY := rayPosY - hitY as real;
    } else if hitSideY == 1 {
      distY := hitY as real + 1.0 - rayPosY;
    }
    mapX, mapY, wallHitX, wallHitY := hitX, hitY, hitSideX, hitSideY;
  }
}
