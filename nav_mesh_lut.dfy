/**
 * The lookup table from world positions and grid coordinates to the tile
 * entities of the (single) level. Positions have y pointing up; tile rows
 * are counted from the top.
 */
module NavMeshLut {
  import opened Common
  import opened NavMesh

  datatype NavMeshLut = NavMeshLut(
    gridEntity: seq<Entity>,
    gridEdges: seq<TileEdges<Entity>>,
    gridIsEmpty: seq<bool>,
    gridWidth: nat,
    gridHeight: nat)
  {
    predicate Valid()
    {
      |gridEntity| == gridWidth * gridHeight && |gridIsEmpty| == gridWidth * gridHeight
    }
  }

  /** What a lookup as written can do: find a tile, refuse, or index past the table (a panic). */
  datatype Lookup = Found(entity: Entity, index: nat) | Missing | IndexOutOfBounds

  /** The column of a position: `(pos.x / TILE_SIZE) as usize` for pos.x >= 0. */
  function Column(pos: Vec2, tileSize: real): int
    requires tileSize > 0.0
  {
    (pos.x / tileSize).Floor
  }

  /** The row of a position counted from the top, after the flip `y := H * TILE_SIZE - y`. */
  function RowFromTop(lut: NavMeshLut, pos: Vec2, tileSize: real): int
    requires tileSize > 0.0
  {
    ((lut.gridHeight as real * tileSize - pos.y) / tileSize).Floor
  }

  function TileIndex(lut: NavMeshLut, pos: Vec2, tileSize: real): int
    requires tileSize > 0.0
  {
    Column(pos, tileSize) + RowFromTop(lut, pos, tileSize) * lut.gridWidth
  }

  /** The closed rectangle that the guard of get_tile_entity admits. */
  predicate InClosedMap(lut: NavMeshLut, pos: Vec2, tileSize: real)
  {
    0.0 <= pos.x <= lut.gridWidth as real * tileSize &&
    0.0 <= pos.y <= lut.gridHeight as real * tileSize
  }

  /** The part of the map covered by tiles: [0, W*T) x (0, H*T]. */
  predicate InMap(lut: NavMeshLut, pos: Vec2, tileSize: real)
  {
    0.0 <= pos.x < lut.gridWidth as real * tileSize &&
    0.0 < pos.y <= lut.gridHeight as real * tileSize
  }

  /** Floor bounds of a non-negative quotient below a bound of whole tiles. */
  lemma FloorBelow(a: real, t: real, n: nat)
    requires t > 0.0 && 0.0 <= a < n as real * t
    ensures 0 <= (a / t).Floor < n
  {
    assert a / t < n as real;
  }

  /** The tile found by flooring a / t spans [f * t, (f + 1) * t). */
  lemma FloorContains(a: real, t: real)
    requires t > 0.0
    ensures var f := (a / t).Floor;
      f as real * t <= a < (f + 1) as real * t
  {
    var q := a / t;
    var f := q.Floor;
    assert q * t == a;
    if f as real < q {
      MulStrictReal(f as real, q, t);
    }
    assert q < f as real + 1.0 && (f + 1) as real == f as real + 1.0;
    MulStrictReal(q, (f + 1) as real, t);
    assert q * t < (f + 1) as real * t;
    assert a < (f + 1) as real * t;
  }

  /** Inside the tiled part of the map the tile index is in range and decodes to the column and row. */
  lemma TileIndexFacts(lut: NavMeshLut, pos: Vec2, tileSize: real)
    requires lut.Valid() && tileSize > 0.0 && InMap(lut, pos, tileSize)
    ensures var index := TileIndex(lut, pos, tileSize);
      0 <= index < |lut.gridIsEmpty| &&
      index % lut.gridWidth == Column(pos, tileSize) &&
      index / lut.gridWidth == RowFromTop(lut, pos, tileSize)
  {
    TileCoords(lut, pos, tileSize);
    GridIndex(Column(pos, tileSize), RowFromTop(lut, pos, tileSize), lut.gridWidth, lut.gridHeight);
  }

  /** Inside the tiled part of the map the column and the row are in range. */
  lemma TileCoords(lut: NavMeshLut, pos: Vec2, tileSize: real)
    requires tileSize > 0.0 && InMap(lut, pos, tileSize)
    ensures 0 <= Column(pos, tileSize) < lut.gridWidth && 0 <= RowFromTop(lut, pos, tileSize) < lut.gridHeight
  {
    var h := lut.gridHeight as real * tileSize;
    var y := h - pos.y;
    assert 0.0 <= y < h;
    FloorBelow(pos.x, tileSize, lut.gridWidth);
    FloorBelow(y, tileSize, lut.gridHeight);
  }

  /** Row-major indexing of a w by h grid is in range and decodes back to the column and the row. */
  lemma GridIndex(x: int, y: int, w: nat, h: nat)
    requires 0 <= x < w && 0 <= y < h
    ensures 0 <= x + y * w < w * h
    ensures (x + y * w) % w == x && (x + y * w) / w == y
  {
    MulMonotone(y, h - 1, w);
    assert (h - 1) * w + w == w * h;
    DivModUnique(x + y * w, w, x, y);
  }

  /** get_tile_entity as written: the guard admits the closed rectangle. */
  function GetTileEntityAsWritten(lut: NavMeshLut, pos: Vec2, tileSize: real): (r: Lookup)
    requires lut.Valid() && tileSize > 0.0
    ensures !InClosedMap(lut, pos, tileSize) ==> r == Missing
    ensures r.IndexOutOfBounds? <==>
      InClosedMap(lut, pos, tileSize) && TileIndex(lut, pos, tileSize) >= |lut.gridIsEmpty|
    ensures r.Found? ==> r.index < |lut.gridIsEmpty| && lut.gridIsEmpty[r.index] &&
                         r.entity == lut.gridEntity[r.index]
  {
    if pos.x < 0.0 || pos.y < 0.0 || pos.x > lut.gridWidth as real * tileSize ||
       pos.y > lut.gridHeight as real * tileSize
    then Missing
    else
      var y := lut.gridHeight as real * tileSize - pos.y;
      assert 0.0 <= y;
      var gridPosX := (pos.x / tileSize).Floor;
      var gridPosY := (y / tileSize).Floor;
      var index := gridPosX + gridPosY * lut.gridWidth;
      if index >= |lut.gridIsEmpty| then IndexOutOfBounds
      else if !lut.gridIsEmpty[index] then Missing
      else Found(lut.gridEntity[index], index)
  }

  /** A position on the bottom border (y == 0) indexes one row past the table. */
  lemma BottomBorderPanics()
    ensures GetTileEntityAsWritten(NavMeshLut([7], [TileEdges(None, None, None, None)], [true], 1, 1),
                                   Vec2(0.5, 0.0), 1.0) == IndexOutOfBounds
  {
    var lut := NavMeshLut([7], [TileEdges(None, None, None, None)], [true], 1, 1);
    assert TileIndex(lut, Vec2(0.5, 0.0), 1.0) == 1;
  }

  /**
   * A position on the right border (x == W * TILE_SIZE) of the top row of a
   * 2 x 2 map resolves to the first tile of the second row, which does not
   * contain it.
   */
  lemma RightBorderFindsWrongTile()
    ensures GetTileEntityAsWritten(NavMeshLut([10, 11, 12, 13], [], [true, true, true, true], 2, 2),
                                   Vec2(2.0, 1.5), 1.0) == Found(12, 2)
  {
    var lut := NavMeshLut([10, 11, 12, 13], [], [true, true, true, true], 2, 2);
    assert Column(Vec2(2.0, 1.5), 1.0) == 2;
    assert RowFromTop(lut, Vec2(2.0, 1.5), 1.0) == 0;
  }

  /**
   * get_tile_entity with the guard restricted to the tiled part of the map:
   * the empty tile containing the position, with its index.
   */
  function GetTileEntity(lut: NavMeshLut, pos: Vec2, tileSize: real): (r: Option<(Entity, nat)>)
    requires lut.Valid() && tileSize > 0.0
    ensures InMap(lut, pos, tileSize) ==>
      0 <= TileIndex(lut, pos, tileSize) < |lut.gridIsEmpty|
    ensures r.Some? <==> InMap(lut, pos, tileSize) && lut.gridIsEmpty[TileIndex(lut, pos, tileSize)]
    ensures r.Some? ==>
      var (entity, index) := r.value;
      index == TileIndex(lut, pos, tileSize) && entity == lut.gridEntity[index] &&
      var col := index % lut.gridWidth;
      var row := index / lut.gridWidth;
      col == Column(pos, tileSize) && row == RowFromTop(lut, pos, tileSize) &&
      col as real * tileSize <= pos.x < (col + 1) as real * tileSize &&
      row as real * tileSize <= lut.gridHeight as real * tileSize - pos.y < (row + 1) as real * tileSize
  {
    if !InMap(lut, pos, tileSize) then None
    else
      TileIndexFacts(lut, pos, tileSize);
      FloorContains(pos.x, tileSize);
      FloorContains(lut.gridHeight as real * tileSize - pos.y, tileSize);
      var y := lut.gridHeight as real * tileSize - pos.y;
      var gridPosX := (pos.x / tileSize).Floor;
      var gridPosY := (y / tileSize).Floor;
      var index := gridPosX + gridPosY * lut.gridWidth;
      if !lut.gridIsEmpty[index] then None
      else Some((lut.gridEntity[index], index))
  }

  /** Inside the tiled part of the map the corrected lookup agrees with the original. */
  lemma GetTileEntityAgrees(lut: NavMeshLut, pos: Vec2, tileSize: real)
    requires lut.Valid() && tileSize > 0.0
    requires InMap(lut, pos, tileSize) || !InClosedMap(lut, pos, tileSize)
    ensures GetTileEntityAsWritten(lut, pos, tileSize) ==
      (match GetTileEntity(lut, pos, tileSize)
       case Some((e, i)) => Found(e, i)
       case None => Missing)
  {
  }

  /** get_tile_entity_grid as written: only an index past the length is refused. */
  function GetTileEntityGridAsWritten(lut: NavMeshLut, x: nat, y: nat): (r: Lookup)
    requires lut.Valid()
    ensures r.IndexOutOfBounds? <==> x + y * lut.gridWidth == |lut.gridEntity|
    ensures r.Found? ==> r.index == x + y * lut.gridWidth && r.index < |lut.gridEntity| &&
                         r.entity == lut.gridEntity[r.index]
  {
    var index := x + y * lut.gridWidth;
    if index > |lut.gridEntity| then Missing
    else if index == |lut.gridEntity| then IndexOutOfBounds
    else Found(lut.gridEntity[index], index)
  }

  /** The grid cell just past the last one passes the guard and indexes out of bounds. */
  lemma GridIndexAtLengthPanics()
    ensures GetTileEntityGridAsWritten(NavMeshLut([5, 6], [], [true, true], 2, 1), 0, 1) == IndexOutOfBounds
  {
  }

  /** get_tile_entity_grid with the guard `index >= len`: the entity at that index. */
  function GetTileEntityGrid(lut: NavMeshLut, x: nat, y: nat): (r: Option<(Entity, nat)>)
    requires lut.Valid()
    ensures r.Some? <==> x + y * lut.gridWidth < |lut.gridEntity|
    ensures r.Some? ==> r.value.1 == x + y * lut.gridWidth && r.value.0 == lut.gridEntity[r.value.1]
  {
    var index := x + y * lut.gridWidth;
    if index >= |lut.gridEntity| then None
    else Some((lut.gridEntity[index], index))
  }

  /** Away from the index equal to the length, both grid lookups agree. */
  lemma GetTileEntityGridAgrees(lut: NavMeshLut, x: nat, y: nat)
    requires lut.Valid() && x + y * lut.gridWidth != |lut.gridEntity|
    ensures GetTileEntityGridAsWritten(lut, x, y) ==
      (match GetTileEntityGrid(lut, x, y)
       case Some((e, i)) => Found(e, i)
       case None => Missing)
  {
  }

  /** The spawned edges of a tile, read back unchanged (the index must be in the table). */
  function GetTileEdges(lut: NavMeshLut, tileIndex: nat): (r: TileEdges<Entity>)
    requires tileIndex < |lut.gridEdges|
    ensures r == lut.gridEdges[tileIndex]
  {
    lut.gridEdges[tileIndex]
  }
}
