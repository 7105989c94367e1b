/** The square simulation area cut into a grid of square subareas
    (models/request_generator.py: `Area`, `divide_square_area`,
    `find_subarea`). Coordinates are integers. */
module Areas {
  import opened Wrappers
  import opened Arithmetic

  /** A subarea: the half-open box [x1, x2) x [y1, y2). `periodicity`
      starts at 0; the per-area provider popularity is a random draw and
      is not part of this model. */
  datatype Area = Area(id: int, x1: int, y1: int, x2: int, y2: int, periodicity: int)

  predicate Contains(a: Area, x: int, y: int)
  {
    a.x1 <= x < a.x2 && a.y1 <= y < a.y2
  }

  /** `int(p ** 0.5)`: the integer square root. */
  function IntSqrt(p: nat): (s: nat)
    ensures s * s <= p < (s + 1) * (s + 1)
  {
    if p == 0 then 0
    else
      var r := IntSqrt(p - 1);
      if (r + 1) * (r + 1) <= p then r + 1 else r
  }

  /** The number of subareas per row, and the side of each. */
  function Columns(portions: int): (s: nat)
    requires portions >= 1
    ensures s >= 1
  {
    IntSqrt(portions)
  }

  function Side(dimensions: int, portions: int): int
    requires portions >= 1
  {
    dimensions / Columns(portions)
  }

  /** Subarea `i` of the grid: column `i mod s`, row `i div s`. */
  function GridCell(dimensions: int, portions: int, i: int): Area
    requires portions >= 1
  {
    var s, side := Columns(portions), Side(dimensions, portions);
    var x1, y1 := (i % s) * side, (i / s) * side;
    Area(i, x1, y1, x1 + side, y1 + side, 0)
  }

  /** `areas` is the grid `divide_square_area(dimensions, portions)` builds. */
  ghost predicate IsGrid(areas: seq<Area>, dimensions: int, portions: int)
    requires portions >= 1
  {
    |areas| == portions && forall i :: 0 <= i < portions ==> areas[i] == GridCell(dimensions, portions, i)
  }

  /** `divide_square_area`: `portions` subareas, numbered 0 to
      `portions - 1` in order. A zero or negative `portions` makes the
      source divide by zero or take the square root of a negative number. */
  method DivideSquareArea(dimensions: int, portions: int) returns (subareas: seq<Area>)
    requires portions >= 1
    ensures IsGrid(subareas, dimensions, portions)
    ensures forall i :: 0 <= i < |subareas| ==> subareas[i].id == i
  {
    var subareaDimensions := dimensions / IntSqrt(portions);
    subareas := [];
    for i := 0 to portions
      invariant |subareas| == i
      invariant forall j :: 0 <= j < i ==> subareas[j] == GridCell(dimensions, portions, j)
    {
      var row := i / IntSqrt(portions);
      var col := i % IntSqrt(portions);
      var x1, y1 := col * subareaDimensions, row * subareaDimensions;
      var x2, y2 := x1 + subareaDimensions, y1 + subareaDimensions;
      subareas := subareas + [Area(i, x1, y1, x2, y2, 0)];
    }
  }

  /** `find_subarea`: the first subarea whose box holds the point; the
      source's `-1` for a point outside every subarea is `None`. */
  function FindSubarea(x: int, y: int, subareas: seq<Area>): (r: Option<Area>)
    ensures r.Some? ==> r.value in subareas && Contains(r.value, x, y)
    ensures r.None? ==> forall i :: 0 <= i < |subareas| ==> !Contains(subareas[i], x, y)
  {
    if subareas == [] then None
    else if Contains(subareas[0], x, y) then Some(subareas[0])
    else FindSubarea(x, y, subareas[1..])
  }

  /** The subarea found is the first that holds the point. */
  lemma {:induction false} FindSubareaFirst(x: int, y: int, subareas: seq<Area>, i: nat)
    requires i < |subareas| && Contains(subareas[i], x, y)
    requires forall j :: 0 <= j < i ==> !Contains(subareas[j], x, y)
    ensures FindSubarea(x, y, subareas) == Some(subareas[i])
  {
    if i > 0 {
      assert !Contains(subareas[0], x, y);
      FindSubareaFirst(x, y, subareas[1..], i - 1);
    }
  }

  /** The point `(x, y)` lies in cell `j` of a grid with `s` columns of
      side `side`. */
  predicate InCell(s: int, side: int, j: int, x: int, y: int)
    requires s > 0
  {
    (j % s) * side <= x < (j % s) * side + side && (j / s) * side <= y < (j / s) * side + side
  }

  /** The cell `(y div side) * s + (x div side)` holds the point, and it
      is the only cell that does. */
  lemma CellOfPoint(s: int, side: int, x: int, y: int) returns (k: int)
    requires s > 0 && side > 0 && 0 <= x < s * side && 0 <= y < s * side
    ensures k == (y / side) * s + x / side
    ensures 0 <= k < s * s && InCell(s, side, k, x, y)
    ensures forall j :: 0 <= j < k ==> !InCell(s, side, j, x, y)
  {
    var col, row := x / side, y / side;
    BelowBound(x, side, s);
    BelowBound(y, side, s);
    k := row * s + col;
    CellIndexBound(row, col, s);
    DivModOf(k, s, row, col);
    OwnCell(s, side, k, x, y);
    forall j | 0 <= j < k
      ensures !InCell(s, side, j, x, y)
    {
      EarlierCellMisses(s, side, x, y, row, col, j);
    }
  }

  /** Row `row` and column `col` of an `s`-column grid number a cell
      below `s * s`. */
  lemma CellIndexBound(row: int, col: int, s: int)
    requires 0 <= row < s && 0 <= col < s
    ensures 0 <= row * s + col < s * s
  {
    MulMono(row + 1, s, s);
    assert (row + 1) * s == row * s + s;
  }

  /** The cell in row `y div side` and column `x div side` holds the point. */
  lemma OwnCell(s: int, side: int, k: int, x: int, y: int)
    requires s > 0 && side > 0 && k / s == y / side && k % s == x / side
    ensures InCell(s, side, k, x, y)
  {
  }

  /** A cell numbered before `row * s + col` is in an earlier row, or in
      the same row and an earlier column, so it misses a point of cell
      `(row, col)`. */
  lemma EarlierCellMisses(s: int, side: int, x: int, y: int, row: int, col: int, j: int)
    requires s > 0 && side > 0 && 0 <= col < s && 0 <= j < row * s + col
    requires col * side <= x && row * side <= y
    ensures !InCell(s, side, j, x, y)
  {
    var rj, cj := j / s, j % s;
    assert j == rj * s + cj;
    assert rj <= row by {
      assert rj * s <= j < (row + 1) * s;
      MulLess(rj, row + 1, s);
    }
    if rj < row {
      CellBelow(side, rj, row, y);
    } else {
      assert cj < col;
      CellBelow(side, cj, col, x);
    }
  }

  /** `0 <= v < s * side` puts `v div side` in `[0, s)`. */
  lemma BelowBound(v: int, side: int, s: int)
    requires side > 0 && 0 <= v < s * side
    ensures 0 <= v / side < s
  {
  }

  /** A cell in an earlier row (or column) ends before row (or column) `b`
      starts. */
  lemma CellBelow(side: int, a: int, b: int, y: int)
    requires side > 0 && a < b && b * side <= y
    ensures !(a * side <= y < a * side + side)
  {
    assert (b - a - 1) * side >= 0;
  }

  /** On a grid with positive sides, a point of the covered square
      `[0, s*side)^2` lies in subarea `(y div side) * s + (x div side)`,
      and that is the subarea `find_subarea` returns. */
  lemma GridLocate(dimensions: int, portions: int, subareas: seq<Area>, x: int, y: int)
    requires portions >= 1 && IsGrid(subareas, dimensions, portions)
    requires Side(dimensions, portions) > 0
    requires 0 <= x < Columns(portions) * Side(dimensions, portions)
    requires 0 <= y < Columns(portions) * Side(dimensions, portions)
    ensures var k := (y / Side(dimensions, portions)) * Columns(portions) + x / Side(dimensions, portions);
      && 0 <= k < portions
      && FindSubarea(x, y, subareas) == Some(subareas[k])
      && subareas[k].id == k
  {
    var s, side := Columns(portions), Side(dimensions, portions);
    var k := CellOfPoint(s, side, x, y);
    assert subareas[k] == GridCell(dimensions, portions, k);
    forall j | 0 <= j < k
      ensures !Contains(subareas[j], x, y)
    {
      assert subareas[j] == GridCell(dimensions, portions, j);
      assert !InCell(s, side, j, x, y);
    }
    FindSubareaFirst(x, y, subareas, k);
  }

  /** Area 0 starts at the origin, with positive extent once the area is
      at least as wide as the grid has columns. */
  lemma FirstCellAtOrigin(dimensions: int, portions: int, subareas: seq<Area>)
    requires portions >= 1 && IsGrid(subareas, dimensions, portions)
    ensures subareas[0].id == 0 && subareas[0].x1 == 0 && subareas[0].y1 == 0
    ensures dimensions >= Columns(portions) ==> subareas[0].x2 > 0 && subareas[0].y2 > 0
  {
  }

  /** A 10 x 10 area in 4 parts is a 2 x 2 grid of side 5. */
  lemma TenByFourGrid()
    ensures Columns(4) == 2 && Side(10, 4) == 5
  {
  }

  /** On that grid, the point `(x, y)` is found in subarea `k`. */
  lemma TenByFourLocate(subareas: seq<Area>, x: int, y: int, k: int)
    requires IsGrid(subareas, 10, 4)
    requires 0 <= x < 10 && 0 <= y < 10 && k == (y / 5) * 2 + x / 5
    ensures FindSubarea(x, y, subareas).Some? && FindSubarea(x, y, subareas).value.id == k
  {
    TenByFourGrid();
    GridLocate(10, 4, subareas, x, y);
  }

  /** A 10 x 10 area in 4 parts: a 2 x 2 grid of side 5. */
  lemma TenByTenInFour(subareas: seq<Area>)
    requires IsGrid(subareas, 10, 4)
    ensures |subareas| == 4
    ensures FindSubarea(1, 2, subareas).Some? && FindSubarea(1, 2, subareas).value.id == 0
    ensures FindSubarea(7, 2, subareas).Some? && FindSubarea(7, 2, subareas).value.id == 1
    ensures FindSubarea(3, 9, subareas).Some? && FindSubarea(3, 9, subareas).value.id == 2
    ensures FindSubarea(8, 9, subareas).Some? && FindSubarea(8, 9, subareas).value.id == 3
  {
    TenByFourLocate(subareas, 1, 2, 0);
    TenByFourLocate(subareas, 7, 2, 1);
    TenByFourLocate(subareas, 3, 9, 2);
    TenByFourLocate(subareas, 8, 9, 3);
  }
}
