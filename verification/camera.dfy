/** The player of maze.cpp: position, view direction and camera plane,
    moved with a per-axis collision check (maze.cpp and `playerMove` of
    lib/raycast.hpp) and turned by a rotation whose cosine and sine are
    given. */
module Camera {
  import opened CMath
  import opened Grid
  import opened World

  /** The map cell that holds point (x, y) is empty. The position is kept
      nonnegative, where C's `(int)` is the floor. */
  ghost predicate EmptyAt(g: Map, x: real, y: real)
  {
    IsGrid(g) && 0.0 <= x && 0.0 <= y && InGrid(g, Trunc(x), Trunc(y)) && g[Trunc(x)][Trunc(y)] == 0
  }

  /** The start position of maze.cpp, (22, 11.5), is on open floor of the
      world map, so the movement precondition holds from the first frame. */
  lemma StartIsEmpty()
    ensures SolidBorder(WorldMap) && EmptyAt(WorldMap, 22.0, 11.5)
  {
    WorldMapFacts();
    StartCellOpen();
    assert Trunc(22.0) == 22 && Trunc(11.5) == 11;
  }

  /** A step shorter than one cell. */
  predicate Short(d: real)
  {
    -1.0 < d < 1.0
  }

  /** The collision-checked step: x moves by `dX` only if the cell at the
      new x and the old y is empty; then y moves by `dY` only if the cell at
      the new x and the new y is empty. */
  function Moved(g: Map, x: real, y: real, dX: real, dY: real): (p: (real, real))
    requires SolidBorder(g) && EmptyAt(g, x, y) && Short(dX) && Short(dY)
    ensures EmptyAt(g, p.0, p.1)
    ensures p.0 == x || p.0 == x + dX
    ensures p.1 == y || p.1 == y + dY
    ensures p.0 == x + dX && dX != 0.0 ==> EmptyAt(g, x + dX, y)
    ensures EmptyAt(g, x + dX, y) ==> p.0 == x + dX
    ensures !EmptyAt(g, x + dX, y) ==> p.0 == x
    ensures EmptyAt(g, p.0, y + dY) ==> p.1 == y + dY
    ensures !EmptyAt(g, p.0, y + dY) ==> p.1 == y
  {
    OpenCellIsInterior(g, Trunc(x), Trunc(y));
    TruncNear(x, dX);
    var x' := if g[Trunc(x + dX)][Trunc(y)] == 0 then x + dX else x;
    assert EmptyAt(g, x', y);
    OpenCellIsInterior(g, Trunc(x'), Trunc(y));
    TruncNear(y, dY);
    var y' := if g[Trunc(x')][Trunc(y + dY)] == 0 then y + dY else y;
    (x', y')
  }

  /** A step onto a wall on both axes leaves the player where it was. */
  lemma {:induction false} BlockedStepStays(g: Map, x: real, y: real, dX: real, dY: real)
    requires SolidBorder(g) && EmptyAt(g, x, y) && Short(dX) && Short(dY)
    requires !EmptyAt(g, x + dX, y) && !EmptyAt(g, x, y + dY)
    ensures Moved(g, x, y, dX, dY) == (x, y)
  {
    OpenCellIsInterior(g, Trunc(x), Trunc(y));
    TruncNear(x, dX);
    TruncNear(y, dY);
  }

  /** A step inside one empty cell is taken in full. */
  lemma {:induction false} FreeStepIsTaken(g: Map, x: real, y: real, dX: real, dY: real)
    requires SolidBorder(g) && EmptyAt(g, x, y) && Short(dX) && Short(dY)
    requires 0.0 <= x + dX && 0.0 <= y + dY
    requires Trunc(x + dX) == Trunc(x) && Trunc(y + dY) == Trunc(y)
    ensures Moved(g, x, y, dX, dY) == (x + dX, y + dY)
  {
  }

  /** The vector (x, y) turned by the angle with cosine `c` and sine `s`:
      its x and y components. */
  function TurnX(x: real, y: real, c: real, s: real): real
  {
    x * c - y * s
  }

  function TurnY(x: real, y: real, c: real, s: real): real
  {
    x * s + y * c
  }

  /** Turning two vectors by the same angle, with cosine `c` and sine `s`,
      keeps their dot product, hence lengths and the angle between them. */
  lemma {:induction false} RotationKeepsDot(ux: real, uy: real, vx: real, vy: real, c: real, s: real)
    requires c * c + s * s == 1.0
    ensures TurnX(ux, uy, c, s) * TurnX(vx, vy, c, s) + TurnY(ux, uy, c, s) * TurnY(vx, vy, c, s) == ux * vx + uy * vy
  {
    calc {
      TurnX(ux, uy, c, s) * TurnX(vx, vy, c, s) + TurnY(ux, uy, c, s) * TurnY(vx, vy, c, s);
      (ux * c - uy * s) * (vx * c - vy * s) + (ux * s + uy * c) * (vx * s + vy * c);
      ux * vx * (c * c + s * s) + uy * vy * (c * c + s * s);
      ux * vx + uy * vy;
    }
  }

  /** The camera plane is perpendicular to the view direction, and their
      lengths are 1 and 0.66, the field of view of maze.cpp. */
  predicate ValidView(dx: real, dy: real, px: real, py: real)
  {
    dx * px + dy * py == 0.0 && dx * dx + dy * dy == 1.0 && px * px + py * py == 0.66 * 0.66
  }

  /** Turning a valid camera keeps it valid. */
  lemma RotatedCamera(dx: real, dy: real, px: real, py: real, c: real, s: real)
    requires c * c + s * s == 1.0 && ValidView(dx, dy, px, py)
    ensures ValidView(TurnX(dx, dy, c, s), TurnY(dx, dy, c, s), TurnX(px, py, c, s), TurnY(px, py, c, s))
  {
    RotationKeepsDot(dx, dy, px, py, c, s);
    RotationKeepsDot(dx, dy, dx, dy, c, s);
    RotationKeepsDot(px, py, px, py, c, s);
  }

  class Player {
    var posX: real
    var posY: real
    var dirX: real
    var dirY: real
    var planeX: real
    var planeY: real

    ghost predicate CameraValid()
      reads this
    {
      ValidView(dirX, dirY, planeX, planeY)
    }

    /** The start of maze.cpp: at (22, 11.5) looking along -x. */
    constructor ()
      ensures posX == 22.0 && posY == 11.5
      ensures dirX == -1.0 && dirY == 0.0 && planeX == 0.0 && planeY == 0.66
      ensures CameraValid()
    {
      posX, posY := 22.0, 11.5;
      dirX, dirY := -1.0, 0.0;
      planeX, planeY := 0.0, 0.66;
    }

    /** `playerMove`: the collision-checked step; a player in an empty cell
        stays in one, and the view does not change. */
    method Move(g: Map, dX: real, dY: real)
      requires SolidBorder(g) && EmptyAt(g, posX, posY) && Short(dX) && Short(dY)
      modifies this
      ensures (posX, posY) == Moved(g, old(posX), old(posY), dX, dY)
      ensures EmptyAt(g, posX, posY)
      ensures dirX == old(dirX) && dirY == old(dirY) && planeX == old(planeX) && planeY == old(planeY)
    {
      OpenCellIsInterior(g, Trunc(posX), Trunc(posY));
      TruncNear(posX, dX);
      if g[Trunc(posX + dX)][Trunc(posY)] == 0 {
        posX := posX + dX;
      }
      OpenCellIsInterior(g, Trunc(posX), Trunc(posY));
      TruncNear(posY, dY);
      if g[Trunc(posX)][Trunc(posY + dY)] == 0 {
        posY := posY + dY;
      }
    }

    /** The up key: a step of `moveSpeed` along the view direction. */
    method MoveForward(g: Map, moveSpeed: real)
      requires SolidBorder(g) && EmptyAt(g, posX, posY)
      requires Short(dirX * moveSpeed) && Short(dirY * moveSpeed)
      modifies this
      ensures (posX, posY) == Moved(g, old(posX), old(posY), old(dirX) * moveSpeed, old(dirY) * moveSpeed)
      ensures EmptyAt(g, posX, posY)
      ensures dirX == old(dirX) && dirY == old(dirY) && planeX == old(planeX) && planeY == old(planeY)
    {
      Move(g, dirX * moveSpeed, dirY * moveSpeed);
    }

    /** The down key: a step of `moveSpeed` against the view direction. */
    method MoveBackward(g: Map, moveSpeed: real)
      requires SolidBorder(g) && EmptyAt(g, posX, posY)
      requires Short(dirX * moveSpeed) && Short(dirY * moveSpeed)
      modifies this
      ensures (posX, posY) == Moved(g, old(posX), old(posY), -(old(dirX) * moveSpeed), -(old(dirY) * moveSpeed))
      ensures EmptyAt(g, posX, posY)
      ensures dirX == old(dirX) && dirY == old(dirY) && planeX == old(planeX) && planeY == old(planeY)
    {
      Move(g, -(dirX * moveSpeed), -(dirY * moveSpeed));
    }

    /** The left and right keys: direction and plane turned together by
        the angle with cosine `c` and sine `s` (the right key passes the
        negated angle). The camera stays valid and the position does not
        change. */
    method Rotate(c: real, s: real)
      requires CameraValid() && c * c + s * s == 1.0
      modifies this
      ensures dirX == TurnX(old(dirX), old(dirY), c, s) && dirY == TurnY(old(dirX), old(dirY), c, s)
      ensures planeX == TurnX(old(planeX), old(planeY), c, s) && planeY == TurnY(old(planeX), old(planeY), c, s)
      ensures posX == old(posX) && posY == old(posY)
      ensures CameraValid()
    {
      RotatedCamera(dirX, dirY, planeX, planeY, c, s);
      dirX, dirY, planeX, planeY :=
        TurnX(dirX, dirY, c, s), TurnY(dirX, dirY, c, s), TurnX(planeX, planeY, c, s), TurnY(planeX, planeY, c, s);
    }
  }
}
