/** The 10x10 maps of the ray-march renderer and their bounds-checked
    lookup `getMapValue`, which reads any coordinate off the map as the
    solid code 1. themaze.hpp, lib/walls.cpp and lib/temp.cpp share one
    literal, closed on all four sides; lib/drawwalls.hpp (also used by
    lib/drawwalls.cpp) has a three-cell gap in its last row. */
module MapLookup {
  import opened Grid

  /** `MAP_WIDTH` and `MAP_HEIGHT`. */
  const MapSize := 10

  const EdgeRow: seq<int> := [1, 1, 1, 1, 1, 1, 1, 1, 1, 1]
  const OpenRow: seq<int> := [1, 0, 0, 0, 0, 0, 0, 0, 0, 1]
  const PillarRow: seq<int> := [1, 0, 0, 0, 1, 1, 0, 0, 0, 1]
  const GapRow: seq<int> := [1, 1, 1, 0, 0, 0, 1, 1, 1, 1]

  /** The map of themaze.hpp, lib/walls.cpp and lib/temp.cpp: a closed room
      with a 2x2 pillar in the middle. */
  const SolidMaze: Map := [
    EdgeRow, OpenRow, OpenRow, OpenRow, PillarRow,
    PillarRow, OpenRow, OpenRow, OpenRow, EdgeRow
  ]

  /** The map of lib/drawwalls.hpp: the same room with cells (9, 3),
      (9, 4) and (9, 5) of the outer wall open. */
  const OpenMaze: Map := [
    EdgeRow, OpenRow, OpenRow, OpenRow, PillarRow,
    PillarRow, OpenRow, OpenRow, OpenRow, GapRow
  ]

  ghost predicate IsMazeMap(m: Map)
  {
    |m| == MapSize && forall x :: 0 <= x < MapSize ==> |m[x]| == MapSize
  }

  predicate OnMap(x: int, y: int)
  {
    0 <= x < MapSize && 0 <= y < MapSize
  }

  /** `getMapValue`: the code at `m[x][y]`, or 1 off the map. */
  function GetMapValue(m: Map, x: int, y: int): (v: int)
    requires IsMazeMap(m)
    ensures !OnMap(x, y) ==> v == 1
    ensures OnMap(x, y) ==> v == m[x][y]
  {
    if x < 0 || x >= MapSize || y < 0 || y >= MapSize then 1 else m[x][y]
  }

  /** Every code of the closed map is 0 or 1, and its whole border is 1. */
  lemma {:induction false} SolidMazeShape()
    ensures IsMazeMap(SolidMaze) && IsGrid(SolidMaze) && SolidBorder(SolidMaze)
    ensures forall x, y :: OnMap(x, y) ==> SolidMaze[x][y] == 0 || SolidMaze[x][y] == 1
  {
    assert forall x :: 0 <= x < MapSize ==> SolidMaze[x] in {EdgeRow, OpenRow, PillarRow};
  }

  /** On the closed map the lookup returns only 0 or 1, and 0 only inside
      the 8x8 interior: every coordinate outside it reads as a wall. */
  lemma {:induction false} SolidMazeLookup(x: int, y: int)
    ensures IsMazeMap(SolidMaze)
    ensures GetMapValue(SolidMaze, x, y) == 0 || GetMapValue(SolidMaze, x, y) == 1
    ensures GetMapValue(SolidMaze, x, y) == 0 ==> 1 <= x <= 8 && 1 <= y <= 8
  {
    SolidMazeShape();
  }

  /** The open map has the same codes, but its border is not solid: three
      cells of the last row are floor. The lookup still reads the
      coordinates beyond the gap as walls. */
  lemma {:induction false} OpenMazeGap()
    ensures IsMazeMap(OpenMaze) && IsGrid(OpenMaze) && !SolidBorder(OpenMaze)
    ensures forall y :: 3 <= y <= 5 ==> GetMapValue(OpenMaze, 9, y) == 0 && GetMapValue(OpenMaze, 10, y) == 1
    ensures forall x, y :: OnMap(x, y) && x != 9 ==> OpenMaze[x][y] == SolidMaze[x][y]
  {
    assert OpenMaze[9][4] == 0 && OnBorder(OpenMaze, 9, 4);
  }

  /** Both maps have a wall at the origin, where the ray march of the
      renderer starts. */
  lemma OriginIsWall()
    ensures GetMapValue(SolidMaze, 0, 0) == 1 && GetMapValue(OpenMaze, 0, 0) == 1
  {
  }
}
