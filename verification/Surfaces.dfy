/** A map's layers as the level reads them: the solid cells of the collision layer, from which the
    merged rectangles and all standing heights are computed. */
module Surfaces {
  import opened FixedWidth
  import opened Basics

  /** A solid cell: its horizontal span and the height of its upper edge. */
  datatype Cell = Cell(x0: real, x1: real, top: real)

  datatype SurfaceQuery = SurfaceQuery(cells: seq<Cell>, tileHeight: real)

  datatype Layer = Layer(name: string, width: nat, height: nat, gids: seq<U32>)

  datatype MapObject = MapObject(name: string, x: real, y: real, width: real, height: real, tiledRect: bool)

  datatype MapData = MapData(width: nat, height: nat, tileWidth: nat, tileHeight: nat,
                             layers: seq<Layer>, objectGroups: seq<seq<MapObject>>)

  /** The three flip flags do not make a tile. */
  predicate Solid(gid: U32) {
    gid % 0x2000_0000 != 0
  }

  /** A gid is solid exactly when it names a tile, whatever its flips. */
  lemma SolidExactlyWhen(gid: U32)
    ensures Solid(gid) <==>
            exists tile: nat, flips: nat :: 0 < tile < 0x2000_0000 && flips < 8 && gid == Flipped(tile, flips)
  {
    assert gid == Flipped(gid % 0x2000_0000, gid / 0x2000_0000);
  }

  function Flipped(tile: nat, flips: nat): nat {
    flips * 0x2000_0000 + tile
  }

  function LowerChar(c: char): char {
    if 'A' <= c <= 'Z' then ((c as int) + 32) as char else c
  }

  predicate IsCollisionName(name: string) {
    |name| == 9 && forall i :: 0 <= i < 9 ==> LowerChar(name[i]) == "collision"[i]
  }

  /** The name of the layer, in small letters or capitals. */
  lemma CollisionNameExactlyWhen(name: string)
    ensures IsCollisionName(name) <==>
            |name| == 9 && forall i :: 0 <= i < 9 ==> name[i] == "collision"[i] || name[i] == "COLLISION"[i]
  {
    forall i, c: char | 0 <= i < 9
      ensures LowerChar(c) == "collision"[i] <==> c == "collision"[i] || c == "COLLISION"[i]
    {
    }
  }

  /** The index of the first Collision layer. */
  function FindCollision(layers: seq<Layer>, from: nat): (i: nat)
    requires from <= |layers|
    ensures from <= i <= |layers|
    ensures forall k :: from <= k < i ==> !IsCollisionName(layers[k].name)
    ensures i < |layers| ==> IsCollisionName(layers[i].name)
    decreases |layers| - from
  {
    if from == |layers| || IsCollisionName(layers[from].name) then from else FindCollision(layers, from + 1)
  }

  function PixelHeight(level: MapData): int {
    level.height * level.tileHeight
  }

  function CellAt(level: MapData, row: nat, column: nat): Cell {
    Cell((column * level.tileWidth) as real, ((column + 1) * level.tileWidth) as real,
         (PixelHeight(level) - row * level.tileHeight) as real)
  }

  // Building the query

  /** Cells in row-major order: rows from the top down, one tile apart; a row from left to right. */
  ghost predicate Before(c: Cell, d: Cell, tileHeight: real) {
    if c.top == d.top then c.x1 <= d.x0 else c.top - tileHeight >= d.top
  }

  ghost predicate GridCells(q: SurfaceQuery) {
    && q.tileHeight > 0.0
    && (forall i :: 0 <= i < |q.cells| ==> q.cells[i].x0 < q.cells[i].x1)
    && (forall i, j :: 0 <= i < j < |q.cells| ==> Before(q.cells[i], q.cells[j], q.tileHeight))
  }

  /** A solid cell of a layer. */
  ghost predicate SolidAt(level: MapData, layer: Layer, row: nat, column: nat) {
    && row < layer.height && column < layer.width
    && row * layer.width + column < |layer.gids|
    && Solid(layer.gids[row * layer.width + column])
  }

  lemma CellsOrdered(level: MapData, r: nat, c: nat, r': nat, c': nat)
    requires level.tileWidth >= 1 && level.tileHeight >= 1
    requires r < r' || (r == r' && c < c')
    ensures Before(CellAt(level, r, c), CellAt(level, r', c'), level.tileHeight as real)
    ensures CellAt(level, r, c).x0 < CellAt(level, r, c).x1
  {
    assert (c + 1) * level.tileWidth == c * level.tileWidth + level.tileWidth;
    if r < r' {
      ScaledGap(r, r', level.tileHeight);
    } else if c + 1 < c' {
      ScaledGap(c + 1, c', level.tileWidth);
    }
  }

  /** The point lies in the tile in this row, counted from the top, and this column. */
  ghost predicate InTile(level: MapData, row: nat, column: nat, px: real, py: real) {
    && (column * level.tileWidth) as real <= px < ((column + 1) * level.tileWidth) as real
    && ((level.height - row - 1) * level.tileHeight) as real <= py < ((level.height - row) * level.tileHeight) as real
  }

  /** A cell of the query covers the point. */
  ghost predicate CellCovers(q: SurfaceQuery, c: Cell, x: real, y: real) {
    c.x0 <= x < c.x1 && c.top - q.tileHeight <= y < c.top
  }

  ghost predicate Filled(q: SurfaceQuery, px: real, py: real) {
    exists c :: c in q.cells && CellCovers(q, c, px, py)
  }

  /** The point lies in the tile of a solid cell of the layer. */
  ghost predicate LayerFills(level: MapData, layer: Layer, px: real, py: real) {
    exists row: nat, column: nat :: SolidAt(level, layer, row, column) && InTile(level, row, column, px, py)
  }

  lemma CellIsTile(level: MapData, q: SurfaceQuery, row: nat, column: nat, px: real, py: real)
    requires q.tileHeight == level.tileHeight as real
    ensures CellCovers(q, CellAt(level, row, column), px, py) <==> InTile(level, row, column, px, py)
  {
    var h := level.tileHeight;
    assert (level.height - row) * h == level.height * h - row * h;
    assert (level.height - row - 1) * h == (level.height - row) * h - h;
  }

  lemma IndexInLayer(layer: Layer, row: nat, column: nat)
    requires row < layer.height && column < layer.width && |layer.gids| == layer.width * layer.height
    ensures row * layer.width + column < |layer.gids|
  {
    ScaledGap(row, layer.height, layer.width);
  }

  /** The cells are exactly the solid cells of the first Collision layer, in row-major order, and fill exactly
      their tiles, counted from the top of the map; a missing or malformed layer has none. */
  method BuildQuery(level: MapData) returns (q: SurfaceQuery)
    requires level.tileWidth >= 1 && level.tileHeight >= 1
    ensures GridCells(q) && q.tileHeight == level.tileHeight as real
    ensures var k := FindCollision(level.layers, 0);
            if k == |level.layers| || |level.layers[k].gids| != level.layers[k].width * level.layers[k].height
            then q.cells == []
            else
              && (forall row: nat, column: nat :: SolidAt(level, level.layers[k], row, column) ==>
                    CellAt(level, row, column) in q.cells)
              && (forall c :: c in q.cells ==> exists row: nat, column: nat ::
                    SolidAt(level, level.layers[k], row, column) && c == CellAt(level, row, column))
    ensures var k := FindCollision(level.layers, 0);
            k < |level.layers| && |level.layers[k].gids| == level.layers[k].width * level.layers[k].height ==>
              forall px, py :: Filled(q, px, py) <==> LayerFills(level, level.layers[k], px, py)
  {
    hide CellAt, Solid, Before, IsCollisionName, CellCovers, InTile;
    var k := FindCollision(level.layers, 0);
    if k == |level.layers| || |level.layers[k].gids| != level.layers[k].width * level.layers[k].height {
      return SurfaceQuery([], level.tileHeight as real);
    }
    var layer := level.layers[k];
    var built: seq<Cell> := [];
    ghost var origin: seq<(nat, nat)> := [];
    for row := 0 to layer.height
      invariant |origin| == |built|
      invariant forall i :: 0 <= i < |built| ==>
                  && origin[i].0 < row && SolidAt(level, layer, origin[i].0, origin[i].1)
                  && built[i] == CellAt(level, origin[i].0, origin[i].1)
      invariant forall i, j :: 0 <= i < j < |built| ==>
                  origin[i].0 < origin[j].0 || (origin[i].0 == origin[j].0 && origin[i].1 < origin[j].1)
      invariant forall r: nat, c: nat :: r < row && SolidAt(level, layer, r, c) ==> CellAt(level, r, c) in built
    {
      for column := 0 to layer.width
        invariant |origin| == |built|
        invariant forall i :: 0 <= i < |built| ==>
                    && (origin[i].0 < row || (origin[i].0 == row && origin[i].1 < column))
                    && SolidAt(level, layer, origin[i].0, origin[i].1)
                    && built[i] == CellAt(level, origin[i].0, origin[i].1)
        invariant forall i, j :: 0 <= i < j < |built| ==>
                    origin[i].0 < origin[j].0 || (origin[i].0 == origin[j].0 && origin[i].1 < origin[j].1)
        invariant forall r: nat, c: nat :: (r < row || (r == row && c < column)) && SolidAt(level, layer, r, c) ==>
                    CellAt(level, r, c) in built
      {
        IndexInLayer(layer, row, column);
        if Solid(layer.gids[row * layer.width + column]) {
          built := built + [CellAt(level, row, column)];
          origin := origin + [(row, column)];
        }
      }
    }
    q := SurfaceQuery(built, level.tileHeight as real);
    forall i, j | 0 <= i < j < |built| ensures Before(built[i], built[j], q.tileHeight) {
      CellsOrdered(level, origin[i].0, origin[i].1, origin[j].0, origin[j].1);
    }
    forall i | 0 <= i < |built| ensures built[i].x0 < built[i].x1 {
      CellsOrdered(level, origin[i].0, origin[i].1, origin[i].0 + 1, 0);
    }
    forall row: nat, column: nat, px: real, py: real
      ensures CellCovers(q, CellAt(level, row, column), px, py) <==> InTile(level, row, column, px, py)
    {
      CellIsTile(level, q, row, column, px, py);
    }
  }
}
