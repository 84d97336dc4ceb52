/** The board geometry of `Play` in www/index.js: tiles numbered row by row
    (`to_i`, `to_xy`) and the neighbour of a tile in each of the eight
    directions (`get_adj`). */
module Grid {
  import opened Wrappers

  /** `Play.DIR_U` .. `Play.DIR_UL`, clockwise from up. */
  datatype Direction = U | UR | R | DR | D | DL | L | UL

  /** `Play.to_i`: the index of tile (x, y) on a board `width` tiles wide. */
  function ToI(x: int, y: int, width: int): int
  {
    y * width + x
  }

  /** `Play.to_xy`: the column and row of tile index i. */
  function ToXY(i: nat, width: nat): (int, int)
    requires width > 0
  {
    (i % width, i / width)
  }

  /** The tiles of a width x height board. */
  predicate OnBoard(x: int, y: int, width: int, height: int)
  {
    0 <= x < width && 0 <= y < height
  }

  /** Numbering a tile and reading its position back gives the tile. */
  lemma PositionRoundTrip(x: nat, y: nat, width: nat)
    requires x < width
    ensures ToI(x, y, width) >= 0 && ToXY(ToI(x, y, width), width) == (x, y)
  {
    var i := y * width + x;
    DivModUnique(i, width, y, x);
  }

  /** Reading the position of an index and numbering it gives the index;
      the position lies on a board of width columns. */
  lemma IndexRoundTrip(i: nat, width: nat)
    requires width > 0
    ensures 0 <= ToXY(i, width).0 < width && ToXY(i, width).1 >= 0
    ensures ToI(ToXY(i, width).0, ToXY(i, width).1, width) == i
  {
  }

  /** Indices below width * height are exactly the tiles of the board. */
  lemma IndexOnBoard(i: nat, width: nat, height: nat)
    requires width > 0
    ensures i < width * height <==> OnBoard(ToXY(i, width).0, ToXY(i, width).1, width, height)
  {
    var x, y := i % width, i / width;
    assert i == y * width + x;
    RowBound(y, height, width);
  }

  lemma RowBound(y: nat, height: nat, width: nat)
    ensures y < height ==> y * width + width <= height * width
    ensures y >= height ==> y * width >= height * width
  {
    if y < height {
      var d := height - y;
      assert height * width == y * width + d * width;
      assert d * width >= width;
    } else {
      var d := y - height;
      assert y * width == height * width + d * width;
    }
  }

  lemma DivModUnique(i: nat, width: nat, q: nat, r: nat)
    requires r < width && i == q * width + r
    ensures i % width == r && i / width == q
  {
    RowBound(q, i / width, width);
    RowBound(i / width, q, width);
  }

  /** The column and row offsets of a direction. */
  function Offset(dir: Direction): (int, int)
  {
    match dir
    case U => (0, -1)
    case UR => (1, -1)
    case R => (1, 0)
    case DR => (1, 1)
    case D => (0, 1)
    case DL => (-1, 1)
    case L => (-1, 0)
    case UL => (-1, -1)
  }

  /** `Play.get_adj`: the index of the neighbour of (x, y) in direction dir,
      or None when the tile is on the edge that direction crosses. */
  function GetAdj(x: int, y: int, width: int, height: int, dir: Direction): Option<int>
  {
    match dir
    case U => if y != 0 then Some(ToI(x, y - 1, width)) else None
    case UR => if y != 0 && x != width - 1 then Some(ToI(x + 1, y - 1, width)) else None
    case R => if x != width - 1 then Some(ToI(x + 1, y, width)) else None
    case DR => if y != height - 1 && x != width - 1 then Some(ToI(x + 1, y + 1, width)) else None
    case D => if y != height - 1 then Some(ToI(x, y + 1, width)) else None
    case DL => if y != height - 1 && x != 0 then Some(ToI(x - 1, y + 1, width)) else None
    case L => if x != 0 then Some(ToI(x - 1, y, width)) else None
    case UL => if y != 0 && x != 0 then Some(ToI(x - 1, y - 1, width)) else None
  }

  /** For a tile on the board, `get_adj` gives the tile one step away in
      the direction exactly when that tile is on the board. */
  lemma AdjacentStep(x: int, y: int, width: int, height: int, dir: Direction)
    requires OnBoard(x, y, width, height)
    ensures var (dx, dy) := Offset(dir);
      GetAdj(x, y, width, height, dir) ==
        if OnBoard(x + dx, y + dy, width, height) then Some(ToI(x + dx, y + dy, width)) else None
  {
  }

  /** The eight directions reach every tile of the board that touches
      (x, y) (horizontally, vertically or diagonally), and only those. */
  lemma NeighboursComplete(x: nat, y: nat, width: nat, height: nat, nx: nat, ny: nat)
    requires OnBoard(x, y, width, height) && OnBoard(nx, ny, width, height)
    ensures (exists dir :: GetAdj(x, y, width, height, dir) == Some(ToI(nx, ny, width))) <==>
            ((nx, ny) != (x, y) && -1 <= nx - x <= 1 && -1 <= ny - y <= 1)
  {
    if (nx, ny) != (x, y) && -1 <= nx - x <= 1 && -1 <= ny - y <= 1 {
      var dir := DirectionOf(nx - x, ny - y);
      AdjacentStep(x, y, width, height, dir);
    }
    if exists dir :: GetAdj(x, y, width, height, dir) == Some(ToI(nx, ny, width)) {
      var dir :| GetAdj(x, y, width, height, dir) == Some(ToI(nx, ny, width));
      AdjacentStep(x, y, width, height, dir);
      var (dx, dy) := Offset(dir);
      IndexInjective(x + dx, y + dy, nx, ny, width);
    }
  }

  /** The direction of a non-zero offset of at most one in each axis. */
  function DirectionOf(dx: int, dy: int): (dir: Direction)
    requires -1 <= dx <= 1 && -1 <= dy <= 1 && (dx, dy) != (0, 0)
    ensures Offset(dir) == (dx, dy)
  {
    if dy == -1 then (if dx == -1 then UL else if dx == 0 then U else UR)
    else if dy == 0 then (if dx == -1 then L else R)
    else (if dx == -1 then DL else if dx == 0 then D else DR)
  }

  /** Distinct tiles of a board have distinct indices. */
  lemma IndexInjective(x1: nat, y1: nat, x2: nat, y2: nat, width: nat)
    requires x1 < width && x2 < width
    requires ToI(x1, y1, width) == ToI(x2, y2, width)
    ensures x1 == x2 && y1 == y2
  {
    PositionRoundTrip(x1, y1, width);
    PositionRoundTrip(x2, y2, width);
  }
}
