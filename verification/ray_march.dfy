/** The ray-march renderer of lib/drawwalls.hpp and lib/drawwalls.cpp
    (whose march is repeated in lib/temp.cpp): per screen column a probe
    walks out in steps of 0.1 until the map lookup reads 1 or the distance
    reaches 320, then each of the 640 rows of the column is classified as
    ceiling, wall or floor. The probe starts at the map origin, not at a
    player position. */
module RayMarch {
  import opened CMath
  import opened Grid
  import opened MapLookup

  /** `HEIGHT` of the renderer's window. */
  const Height: int := 640
  const TileSize: int := 64
  /** `TILE_SIZE * 5`: the march gives up at this distance. */
  const MaxDistance: real := 320.0
  /** 320 / 0.1: the number of probes a march makes at most. */
  const MaxProbes: nat := 3200

  /** The distance after `k` probes: `k` steps of 0.1, in exact arithmetic. */
  function ProbeDistance(k: nat): real
  {
    k as real / 10.0
  }

  /** The lookup at distance `d` along direction (eyeX, eyeY). */
  function ProbeAt(m: Map, eyeX: real, eyeY: real, d: real): int
    requires IsMazeMap(m)
  {
    GetMapValue(m, Trunc(eyeX * d), Trunc(eyeY * d))
  }

  /** The lookup at the `k`-th probe. */
  function Probe(m: Map, eyeX: real, eyeY: real, k: nat): int
    requires IsMazeMap(m)
  {
    ProbeAt(m, eyeX, eyeY, ProbeDistance(k))
  }

  /** The march loop. It stops at the first probe whose lookup is exactly 1
      or after 3200 probes; every probe before the last missed. */
  method March(m: Map, eyeX: real, eyeY: real) returns (distanceToWall: real, hitWall: bool, k: nat)
    requires IsMazeMap(m)
    ensures 1 <= k <= MaxProbes && distanceToWall == ProbeDistance(k)
    ensures hitWall <==> Probe(m, eyeX, eyeY, k) == 1
    ensures !hitWall ==> k == MaxProbes
    ensures forall j :: 1 <= j < k ==> Probe(m, eyeX, eyeY, j) != 1
  {
    distanceToWall := 0.0;
    hitWall := false;
    k := 0;
    while !hitWall && distanceToWall < MaxDistance
      invariant k <= MaxProbes && distanceToWall == ProbeDistance(k)
      invariant k == 0 ==> !hitWall
      invariant k >= 1 ==> (hitWall <==> Probe(m, eyeX, eyeY, k) == 1)
      invariant forall j :: 1 <= j < k ==> Probe(m, eyeX, eyeY, j) != 1
      decreases MaxProbes - k
    {
      distanceToWall := distanceToWall + 0.1;
      k := k + 1;
      var testX := Trunc(eyeX * distanceToWall);
      var testY := Trunc(eyeY * distanceToWall);
      if GetMapValue(m, testX, testY) == 1 {
        hitWall := true;
      }
      assert hitWall <==> ProbeAt(m, eyeX, eyeY, distanceToWall) == 1;
    }
  }

  /** Probe `k` is where the march stops: the first probe that reads 1, or
      the last probe when none of them does. */
  predicate FirstStop(m: Map, eyeX: real, eyeY: real, k: nat)
    requires IsMazeMap(m)
  {
    1 <= k <= MaxProbes && (Probe(m, eyeX, eyeY, k) == 1 || k == MaxProbes) &&
    forall j :: 1 <= j < k ==> Probe(m, eyeX, eyeY, j) != 1
  }

  /** A march has one stopping probe only, so its distance is determined by
      the map and the direction. */
  lemma FirstStopUnique(m: Map, eyeX: real, eyeY: real, k1: nat, k2: nat)
    requires IsMazeMap(m) && FirstStop(m, eyeX, eyeY, k1) && FirstStop(m, eyeX, eyeY, k2)
    ensures k1 == k2
  {
  }

  /** A unit direction (a sine and a cosine) moves less than one cell in
      the first 0.1, so the first probe reads the origin cell. On both maps
      that cell is a wall, so every march stops at distance 0.1. */
  lemma {:induction false} FirstProbeIsOrigin(m: Map, eyeX: real, eyeY: real)
    requires IsMazeMap(m) && -1.0 <= eyeX <= 1.0 && -1.0 <= eyeY <= 1.0
    ensures Probe(m, eyeX, eyeY, 1) == GetMapValue(m, 0, 0)
  {
    assert -1.0 < eyeX * ProbeDistance(1) < 1.0;
    assert -1.0 < eyeY * ProbeDistance(1) < 1.0;
  }

  /** The texture set chosen by distance: 0 up to 128, then 1 below 192,
      2 below 256, and 3 beyond. */
  function WallType(distanceToWall: real): (t: int)
    ensures 0 <= t <= 3
    ensures t == 0 <==> distanceToWall <= 128.0
    ensures t == 3 <==> distanceToWall >= 256.0
  {
    if distanceToWall <= (TileSize * 2) as real then 0
    else if distanceToWall < (TileSize * 3) as real then 1
    else if distanceToWall < (TileSize * 4) as real then 2
    else 3
  }

  /** Farther walls never use a lower texture index. */
  lemma WallTypeMonotone(d1: real, d2: real)
    requires d1 <= d2
    ensures WallType(d1) <= WallType(d2)
  {
  }

  /** `ceiling`: the first wall row, half the screen minus `HEIGHT` over
      the distance, truncated to `int`. */
  function Ceiling(distanceToWall: real): int
    requires distanceToWall > 0.0
  {
    Trunc((Height / 2) as real - Height as real / distanceToWall)
  }

  /** What one row of a column shows. */
  datatype RowKind = CeilingRow | WallRow(textureX: int, textureY: int) | FloorRow

  /** `textureX` of a wall row: the row's position between `ceiling` and
      `floor` scaled to 0..256 by `int` division (both operands are
      positive here, so C's truncation and Dafny's division agree),
      mirrored to `256 - textureX - 1` on a boundary hit. */
  function TextureX(ceiling: int, y: int, hitBoundary: bool): (t: int)
    requires ceiling < y <= Height - ceiling
    ensures !hitBoundary ==> 0 <= t <= 256
    ensures hitBoundary ==> -1 <= t <= 255
    ensures !hitBoundary && y == Height - ceiling ==> t == 256
  {
    var floor := Height - ceiling;
    ScaledShare(y - ceiling, floor - ceiling);
    var textureX := 256 * (y - ceiling) / (floor - ceiling);
    if hitBoundary then 256 - textureX - 1 else textureX
  }

  /** Going down a wall stripe never moves left on the texture. */
  lemma {:induction false} TextureXMonotone(ceiling: int, y1: int, y2: int)
    requires ceiling < y1 <= y2 <= Height - ceiling
    ensures TextureX(ceiling, y1, false) <= TextureX(ceiling, y2, false)
  {
    var n := Height - 2 * ceiling;
    assert n > 0;
    DivMonotone(256 * (y1 - ceiling), 256 * (y2 - ceiling), n);
  }

  lemma DivMonotone(a: int, b: int, n: int)
    requires 0 <= a <= b && n > 0
    ensures a / n <= b / n
  {
    var qa, qb := a / n, b / n;
    assert n * qa <= a;
    assert b < n * (qb + 1);
    MulCancel(n, qa, qb + 1);
  }

  lemma MulCancel(n: int, x: int, y: int)
    requires n > 0 && n * x < n * y
    ensures x < y
  {
    assert n * (y - x) > 0;
  }

  /** Dividing a multiple of `n` by `n` gives the factor back. */
  lemma DivOfMultiple(k: int, n: int)
    requires n > 0
    ensures k * n / n == k
  {
    var q, r := k * n / n, k * n % n;
    assert n * q + r == k * n && 0 <= r < n;
    assert n * (k + 1) == n * k + n && n * (q + 1) == n * q + n;
    MulCancel(n, q, k + 1);
    MulCancel(n, k, q + 1);
  }

  /** A share of at most the whole, scaled to 256. */
  lemma ScaledShare(a: int, n: int)
    requires 0 <= a <= n && n > 0
    ensures 0 <= 256 * a / n <= 256
    ensures a == n ==> 256 * a / n == 256
  {
    DivOfMultiple(256, n);
    DivMonotone(0, 256 * a, n);
    DivMonotone(256 * a, 256 * n, n);
  }

  /** The row loop's choice for row `y`. */
  function ClassifyRow(ceiling: int, y: int, hitBoundary: bool, distanceToWall: real): (r: RowKind)
    ensures r.CeilingRow? <==> y < ceiling
    ensures r.WallRow? <==> ceiling < y <= Height - ceiling
    ensures r.FloorRow? <==> y == ceiling || (ceiling < y && Height - ceiling < y)
    ensures r.WallRow? && distanceToWall >= 0.0 ==> r.textureY >= 0
  {
    if y < ceiling then CeilingRow
    else if y > ceiling && y <= Height - ceiling then
      WallRow(TextureX(ceiling, y, hitBoundary), Trunc(distanceToWall * 256.0 / TileSize as real))
    else FloorRow
  }

  /** One column of `render`: march, then classify each row from top to
      bottom. */
  method RenderColumn(m: Map, eyeX: real, eyeY: real, hitBoundary: bool)
    returns (distanceToWall: real, k: nat, wallType: int, rows: seq<RowKind>)
    requires IsMazeMap(m)
    ensures FirstStop(m, eyeX, eyeY, k) && distanceToWall == ProbeDistance(k)
    ensures 0.0 < distanceToWall <= MaxDistance && wallType == WallType(distanceToWall)
    ensures |rows| == Height
    ensures forall y :: 0 <= y < Height ==>
      rows[y] == ClassifyRow(Ceiling(distanceToWall), y, hitBoundary, distanceToWall)
  {
    var hitWall;
    distanceToWall, hitWall, k := March(m, eyeX, eyeY);
    var ceiling := Ceiling(distanceToWall);
    wallType := WallType(distanceToWall);
    rows := [];
    for y := 0 to Height
      invariant |rows| == y
      invariant forall y' :: 0 <= y' < y ==> rows[y'] == ClassifyRow(ceiling, y', hitBoundary, distanceToWall)
    {
      rows := rows + [ClassifyRow(ceiling, y, hitBoundary, distanceToWall)];
    }
  }

  /** With the march starting on the wall at the origin, the distance is
      0.1, `ceiling` is -6080 and `floor` 6720, so every row of every column
      is a wall row of texture set 0. */
  lemma {:induction false} OriginWallFillsColumn(m: Map, eyeX: real, eyeY: real, y: int, hitBoundary: bool)
    requires IsMazeMap(m) && GetMapValue(m, 0, 0) == 1
    requires -1.0 <= eyeX <= 1.0 && -1.0 <= eyeY <= 1.0 && 0 <= y < Height
    ensures Probe(m, eyeX, eyeY, 1) == 1 && FirstStop(m, eyeX, eyeY, 1)
    ensures Ceiling(ProbeDistance(1)) == -6080 && WallType(ProbeDistance(1)) == 0
    ensures ClassifyRow(Ceiling(ProbeDistance(1)), y, hitBoundary, ProbeDistance(1)).WallRow?
  {
    FirstProbeIsOrigin(m, eyeX, eyeY);
    assert Height as real / ProbeDistance(1) == 6400.0;
  }
}
