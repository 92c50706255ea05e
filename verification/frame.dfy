/** The body of the per-column loop of maze.cpp: the camera ray of screen
    column `x`, the DDA walk over the world map, the texture column and the
    stripe write. The line height and the hit position along the wall come
    from floating-point division and are given. */
module Frame {
  import opened CMath
  import opened Grid
  import opened World
  import opened Dda
  import opened Colour
  import opened Textures
  import opened Stripe

  /** `cameraX = 2 * x / double(w) - 1`: the x-coordinate of screen
      column `x` on the camera plane. */
  function CameraX(x: int): real
  {
    (2 * x) as real / ScreenWidth as real - 1.0
  }

  /** Across the screen the camera coordinate runs from -1 up to (but not
      including) 1, starting at -1 and passing 0 at the middle column. */
  lemma {:induction false} CameraCoordinateRange(x: int)
    requires 0 <= x < ScreenWidth
    ensures -1.0 <= CameraX(x) < 1.0
    ensures x == 0 <==> CameraX(x) == -1.0
    ensures x == ScreenWidth / 2 <==> CameraX(x) == 0.0
  {
    assert CameraX(x) == x as real / 320.0 - 1.0;
  }

  /** Neighbouring columns are 2 / 640 apart on the camera plane. */
  lemma {:induction false} CameraXStep(x: int)
    ensures CameraX(x + 1) == CameraX(x) + 2.0 / ScreenWidth as real
  {
    assert CameraX(x) == x as real / 320.0 - 1.0;
    assert CameraX(x + 1) == (x + 1) as real / 320.0 - 1.0;
  }

  /** The ray direction `dir + plane * cameraX` of screen column `x`: the
      leftmost column looks along `dir - plane`, the middle one along
      `dir`. */
  function ColumnDirection(dirX: real, dirY: real, planeX: real, planeY: real, x: int): (d: (real, real))
    ensures d == (dirX + planeX * CameraX(x), dirY + planeY * CameraX(x))
    ensures x == 0 ==> d == (dirX - planeX, dirY - planeY)
    ensures x == ScreenWidth / 2 ==> d == (dirX, dirY)
  {
    assert x == 0 ==> CameraX(x) == -1.0;
    assert x == ScreenWidth / 2 ==> CameraX(x) == 0.0 && planeX * CameraX(x) == 0.0 && planeY * CameraX(x) == 0.0;
    (dirX + planeX * CameraX(x), dirY + planeY * CameraX(x))
  }

  /** The rays sweep the camera plane evenly: each column's ray is the
      previous one plus `plane * 2 / 640`. */
  lemma {:induction false} ColumnsSweepPlane(dirX: real, dirY: real, planeX: real, planeY: real, x: int)
    ensures ColumnDirection(dirX, dirY, planeX, planeY, x + 1).0 ==
            ColumnDirection(dirX, dirY, planeX, planeY, x).0 + planeX * (2.0 / ScreenWidth as real)
    ensures ColumnDirection(dirX, dirY, planeX, planeY, x + 1).1 ==
            ColumnDirection(dirX, dirY, planeX, planeY, x).1 + planeY * (2.0 / ScreenWidth as real)
  {
    var c, step := CameraX(x), 2.0 / ScreenWidth as real;
    CameraXStep(x);
    assert planeX * (c + step) == planeX * c + planeX * step;
    assert planeY * (c + step) == planeY * c + planeY * step;
  }

  /** One column of the frame: the ray of column `x`, the walk from the
      camera's cell to the first wall, its texture (code - 1, one of the
      eight wall textures), the texture column from `wallX`, and the stripe
      with the maze.cpp pitch of 100. Only column `x` changes. */
  method DrawWorldColumn(buffer: array2<bv32>, texture: array2<Uint32>, x: int,
                         posX: real, posY: real, dirX: real, dirY: real, planeX: real, planeY: real,
                         lineHeight: int, wallX: real)
    returns (rayDirX: real, rayDirY: real, mapX: int, mapY: int, side: int, texNum: int, texX: int, ghost n: nat)
    requires IsBuffer(buffer)
    requires texture.Length0 == TextureCount && texture.Length1 == TexWidth * TexHeight
    requires 0 <= x < ScreenWidth
    requires Interior(WorldMap, Trunc(posX), Trunc(posY))
    requires 0.0 <= wallX < 1.0
    modifies buffer
    ensures (rayDirX, rayDirY) == ColumnDirection(dirX, dirY, planeX, planeY, x)
    ensures var w := Walk(ColumnRay(rayDirX, rayDirY), ColumnStart(posX, posY, rayDirX, rayDirY), n);
      w.mapX == mapX && w.mapY == mapY && w.side == side
    ensures OpenBefore(WorldMap, ColumnRay(rayDirX, rayDirY), ColumnStart(posX, posY, rayDirX, rayDirY), n)
    ensures InGrid(WorldMap, mapX, mapY) && WorldMap[mapX][mapY] > 0
    ensures texNum == WorldMap[mapX][mapY] - 1 && 0 <= texNum < 8
    ensures side == 0 || side == 1
    ensures texX == TexX(wallX, side, rayDirX, rayDirY)
    ensures forall y | DrawRange(lineHeight, Pitch).0 <= y < DrawRange(lineHeight, Pitch).1 ::
      buffer[y, x] == Pixel(Stripe.Texel(texture, texNum, texX, lineHeight, Pitch, y), side)
    ensures forall y, x' | 0 <= y < ScreenHeight && 0 <= x' < ScreenWidth &&
      (x' != x || y < DrawRange(lineHeight, Pitch).0 || DrawRange(lineHeight, Pitch).1 <= y) ::
      buffer[y, x'] == old(buffer[y, x'])
  {
    WorldMapFacts();
    rayDirX, rayDirY := ColumnDirection(dirX, dirY, planeX, planeY, x).0, ColumnDirection(dirX, dirY, planeX, planeY, x).1;
    mapX, mapY, side, texNum, n := CastColumn(WorldMap, posX, posY, rayDirX, rayDirY);
    texX := TexX(wallX, side, rayDirX, rayDirY);
    var drawStart, drawEnd := DrawColumn(buffer, texture, x, lineHeight, Pitch, texNum, texX, side);
  }
}
