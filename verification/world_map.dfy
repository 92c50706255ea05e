/** The 24 x 24 world map of the textured raycaster (maze.cpp). Codes
    1..8 are wall materials, 0 is open floor; the map is indexed
    `WorldMap[x][y]`. */
module World {
  import opened Grid

  const MapWidth := 24
  const MapHeight := 24

  /** `WorldMap[x]` is the `x`-th brace-enclosed row of the C initialiser. */
  const WorldMap: Map := [
    Row00, Row01, Row02, Row03, Row04, Row05, Row06, Row07,
    Row08, Row09, Row10, Row11, Row12, Row13, Row14, Row15,
    Row16, Row17, Row18, Row19, Row20, Row21, Row22, Row23
  ]

  const Row00: seq<int> := [8, 8, 8, 8, 8, 8, 8, 8, 8, 8, 8, 4, 4, 6, 4, 4, 6, 4, 6, 4, 4, 4, 6, 4]
  const Row01: seq<int> := [8, 0, 0, 0, 0, 0, 0, 0, 0, 0, 8, 4, 0, 0, 0, 0, 0, 0, 0, 0, 0, 0, 0, 4]
  const Row02: seq<int> := [8, 0, 3, 3, 0, 0, 0, 0, 0, 8, 8, 4, 0, 0, 0, 0, 0, 0, 0, 0, 0, 0, 0, 6]
  const Row03: seq<int> := [8, 0, 0, 3, 0, 0, 0, 0, 0, 0, 0, 0, 0, 0, 0, 0, 0, 0, 0, 0, 0, 0, 0, 6]
  const Row04: seq<int> := [8, 0, 3, 3, 0, 0, 0, 0, 0, 8, 8, 4, 0, 0, 0, 0, 0, 0, 0, 0, 0, 0, 0, 4]
  const Row05: seq<int> := [8, 0, 0, 0, 0, 0, 0, 0, 0, 0, 8, 4, 0, 0, 0, 0, 0, 6, 6, 6, 0, 6, 4, 6]
  const Row06: seq<int> := [8, 8, 8, 8, 0, 8, 8, 8, 8, 8, 8, 4, 4, 4, 4, 4, 4, 6, 0, 0, 0, 0, 0, 6]
  const Row07: seq<int> := [7, 7, 7, 7, 0, 7, 7, 7, 7, 0, 8, 0, 8, 0, 8, 0, 8, 4, 0, 4, 0, 6, 0, 6]
  const Row08: seq<int> := [7, 7, 0, 0, 0, 0, 0, 0, 7, 8, 0, 8, 0, 8, 0, 8, 8, 6, 0, 0, 0, 0, 0, 6]
  const Row09: seq<int> := [7, 0, 0, 0, 0, 0, 0, 0, 0, 0, 0, 0, 0, 0, 0, 0, 8, 6, 0, 0, 0, 0, 0, 4]
  const Row10: seq<int> := [7, 0, 0, 0, 0, 0, 0, 0, 0, 0, 0, 0, 0, 0, 0, 0, 8, 6, 0, 6, 0, 6, 0, 6]
  const Row11: seq<int> := [7, 7, 0, 0, 0, 0, 0, 0, 7, 8, 0, 8, 0, 8, 0, 8, 8, 6, 4, 6, 0, 6, 6, 6]
  const Row12: seq<int> := [7, 7, 7, 7, 0, 7, 7, 7, 7, 8, 8, 4, 0, 6, 8, 4, 8, 3, 3, 3, 0, 3, 3, 3]
  const Row13: seq<int> := [2, 2, 2, 2, 0, 2, 2, 2, 2, 4, 6, 4, 0, 0, 6, 0, 6, 3, 0, 0, 0, 0, 0, 3]
  const Row14: seq<int> := [2, 2, 0, 0, 0, 0, 0, 2, 2, 4, 0, 0, 0, 0, 0, 0, 4, 3, 0, 0, 0, 0, 0, 3]
  const Row15: seq<int> := [2, 0, 0, 0, 0, 0, 0, 0, 2, 4, 0, 0, 0, 0, 0, 0, 4, 3, 0, 0, 0, 0, 0, 3]
  const Row16: seq<int> := [1, 0, 0, 0, 0, 0, 0, 0, 1, 4, 4, 4, 4, 4, 6, 0, 6, 3, 3, 0, 0, 0, 3, 3]
  const Row17: seq<int> := [2, 0, 0, 0, 0, 0, 0, 0, 2, 2, 2, 1, 2, 2, 2, 6, 6, 0, 0, 5, 0, 5, 0, 5]
  const Row18: seq<int> := [2, 2, 0, 0, 0, 0, 0, 2, 2, 2, 0, 0, 0, 2, 2, 0, 5, 0, 5, 0, 0, 0, 5, 5]
  const Row19: seq<int> := [2, 0, 0, 0, 0, 0, 0, 0, 2, 0, 0, 0, 0, 0, 2, 5, 0, 5, 0, 5, 0, 5, 0, 5]
  const Row20: seq<int> := [1, 0, 0, 0, 0, 0, 0, 0, 0, 0, 0, 0, 0, 0, 0, 0, 0, 0, 0, 0, 0, 0, 0, 5]
  const Row21: seq<int> := [2, 0, 0, 0, 0, 0, 0, 0, 2, 0, 0, 0, 0, 0, 2, 5, 0, 5, 0, 5, 0, 5, 0, 5]
  const Row22: seq<int> := [2, 2, 0, 0, 0, 0, 0, 2, 2, 2, 0, 0, 0, 2, 2, 0, 5, 0, 5, 0, 0, 0, 5, 5]
  const Row23: seq<int> := [2, 2, 2, 2, 1, 2, 2, 2, 2, 2, 2, 1, 2, 2, 2, 5, 5, 5, 5, 5, 5, 5, 5, 5]

  /** A row of the initialiser: 24 codes, each a wall material 1..8 or
      open floor 0, with walls at both ends; an edge row is all walls. */
  ghost predicate WellFormedRow(row: seq<int>, edge: bool)
  {
    |row| == MapHeight &&
    (forall y :: 0 <= y < |row| ==> 0 <= row[y] <= 8) &&
    row[0] > 0 && row[MapHeight - 1] > 0 &&
    (edge ==> forall y :: 0 <= y < |row| ==> row[y] > 0)
  }

  lemma Rows00And01()
    ensures WellFormedRow(Row00, true) && WellFormedRow(Row01, false)
  {
  }

  lemma Rows02And03()
    ensures WellFormedRow(Row02, false) && WellFormedRow(Row03, false)
  {
  }

  lemma Rows04And05()
    ensures WellFormedRow(Row04, false) && WellFormedRow(Row05, false)
  {
  }

  lemma Rows06And07()
    ensures WellFormedRow(Row06, false) && WellFormedRow(Row07, false)
  {
  }

  lemma Rows08And09()
    ensures WellFormedRow(Row08, false) && WellFormedRow(Row09, false)
  {
  }

  lemma Rows10And11()
    ensures WellFormedRow(Row10, false) && WellFormedRow(Row11, false)
  {
  }

  lemma Rows12And13()
    ensures WellFormedRow(Row12, false) && WellFormedRow(Row13, false)
  {
  }

  lemma Rows14And15()
    ensures WellFormedRow(Row14, false) && WellFormedRow(Row15, false)
  {
  }

  lemma Rows16And17()
    ensures WellFormedRow(Row16, false) && WellFormedRow(Row17, false)
  {
  }

  lemma Rows18And19()
    ensures WellFormedRow(Row18, false) && WellFormedRow(Row19, false)
  {
  }

  lemma Rows20And21()
    ensures WellFormedRow(Row20, false) && WellFormedRow(Row21, false)
  {
  }

  lemma Rows22And23()
    ensures WellFormedRow(Row22, false) && WellFormedRow(Row23, true)
  {
  }

  lemma AllRowsWellFormed()
    ensures |WorldMap| == MapWidth
    ensures forall x :: 0 <= x < MapWidth ==> WellFormedRow(WorldMap[x], x == 0 || x == MapWidth - 1)
  {
    Rows00And01();
    Rows02And03();
    Rows04And05();
    Rows06And07();
    Rows08And09();
    Rows10And11();
    Rows12And13();
    Rows14And15();
    Rows16And17();
    Rows18And19();
    Rows20And21();
    Rows22And23();
  }

  /** The map is a 24 x 24 rectangle whose codes are all 0..8 and whose
      whole outer ring is wall, so a walk that stops at the first wall
      cannot leave it. */
  lemma WorldMapFacts()
    ensures IsGrid(WorldMap) && Width(WorldMap) == MapWidth && Height(WorldMap) == MapHeight
    ensures SolidBorder(WorldMap)
    ensures forall x, y :: 0 <= x < MapWidth && 0 <= y < MapHeight ==> 0 <= WorldMap[x][y] <= 8
  {
    AllRowsWellFormed();
  }

  /** The camera's start cell (int(22.0), int(11.5)) is open floor in the
      interior of the map. */
  lemma StartCellOpen()
    ensures IsGrid(WorldMap) && Interior(WorldMap, 22, 11) && WorldMap[22][11] == 0
  {
    WorldMapFacts();
  }
}
