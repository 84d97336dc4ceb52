/** `SelectedTile` in www/index.js: the tile or rectangle of tiles the user
    has selected, and `shift`, which moves it one tile with the arrow keys
    without leaving the board. The board size (`rows`, `columns`, globals in
    the page) is passed in. */
module Selection {

  /** `TilePoint`: a column and a row (or, for a size, a width and a height). */
  datatype TilePoint = TilePoint(x: int, y: int)

  /** `SelectedTile.None`, `.One` and `.Many`, with what each selects: one
      tile, or the rectangle with top-left corner p and size s. */
  datatype Selected = NoTile | One(p: TilePoint) | Many(p: TilePoint, s: TilePoint)

  /** The arrow keys: `SelectedTile.Down`, `.Up`, `.Left`, `.Right`. */
  datatype Arrow = Down | Up | Left | Right

  /** The selection after `shift`: it moves one tile in the direction when
      its far edge is not already on the border of the board. */
  function Shifted(sel: Selected, dir: Arrow, rows: int, columns: int): Selected
  {
    match sel
    case NoTile => NoTile
    case One(p) =>
      One(match dir
        case Down => if p.y + 1 < rows then TilePoint(p.x, p.y + 1) else p
        case Up => if p.y >= 1 then TilePoint(p.x, p.y - 1) else p
        case Left => if p.x >= 1 then TilePoint(p.x - 1, p.y) else p
        case Right => if p.x + 1 < columns then TilePoint(p.x + 1, p.y) else p)
    case Many(p, s) =>
      Many(match dir
        case Down => if p.y + s.y < rows then TilePoint(p.x, p.y + 1) else p
        case Up => if p.y >= 1 then TilePoint(p.x, p.y - 1) else p
        case Left => if p.x >= 1 then TilePoint(p.x - 1, p.y) else p
        case Right => if p.x + s.x < columns then TilePoint(p.x + 1, p.y) else p, s)
  }

  /** The offset a shift moves by. */
  function Step(dir: Arrow): TilePoint
  {
    match dir
    case Down => TilePoint(0, 1)
    case Up => TilePoint(0, -1)
    case Left => TilePoint(-1, 0)
    case Right => TilePoint(1, 0)
  }

  /** The shift in the other direction. */
  function Opposite(dir: Arrow): Arrow
  {
    match dir
    case Down => Up
    case Up => Down
    case Left => Right
    case Right => Left
  }

  /** The top-left corner and size of a selection; one tile is a 1 x 1
      rectangle. */
  function Corner(sel: Selected): TilePoint
    requires !sel.NoTile?
  {
    sel.p
  }

  function Size(sel: Selected): TilePoint
    requires !sel.NoTile?
  {
    if sel.One? then TilePoint(1, 1) else sel.s
  }

  /** Every tile of the selection lies on the board. */
  predicate OnBoard(sel: Selected, rows: int, columns: int)
  {
    sel.NoTile? ||
    (var p, s := Corner(sel), Size(sel);
     0 <= p.x && 1 <= s.x && p.x + s.x <= columns && 0 <= p.y && 1 <= s.y && p.y + s.y <= rows)
  }

  /** A selection of one tile shifts exactly as a 1 x 1 rectangle. */
  lemma OneIsUnitRectangle(p: TilePoint, dir: Arrow, rows: int, columns: int)
    ensures Shifted(Many(p, TilePoint(1, 1)), dir, rows, columns) ==
            Many(Shifted(One(p), dir, rows, columns).p, TilePoint(1, 1))
  {
  }

  /** A shift keeps the kind and the size of the selection. */
  lemma ShiftKeepsShape(sel: Selected, dir: Arrow, rows: int, columns: int)
    ensures var after := Shifted(sel, dir, rows, columns);
      && after.NoTile? == sel.NoTile? && after.One? == sel.One?
      && (!sel.NoTile? ==> Size(after) == Size(sel))
  {
  }

  /** On the board, a shift moves the selection exactly when the moved
      selection still lies on the board. */
  lemma ShiftMovesWhenRoom(sel: Selected, dir: Arrow, rows: int, columns: int)
    requires !sel.NoTile? && OnBoard(sel, rows, columns)
    ensures var moved := TilePoint(Corner(sel).x + Step(dir).x, Corner(sel).y + Step(dir).y);
      Corner(Shifted(sel, dir, rows, columns)) ==
        if OnBoard(Many(moved, Size(sel)), rows, columns) then moved else Corner(sel)
  {
  }

  /** A selection on the board stays on the board. */
  lemma ShiftStaysOnBoard(sel: Selected, dir: Arrow, rows: int, columns: int)
    requires OnBoard(sel, rows, columns)
    ensures OnBoard(Shifted(sel, dir, rows, columns), rows, columns)
  {
  }

  /** On the board, a shift that moved the selection is undone by the
      opposite shift. */
  lemma ShiftBack(sel: Selected, dir: Arrow, rows: int, columns: int)
    requires OnBoard(sel, rows, columns)
    requires Shifted(sel, dir, rows, columns) != sel
    ensures Shifted(Shifted(sel, dir, rows, columns), Opposite(dir), rows, columns) == sel
  {
  }

  /** `SelectedTile`: the kind of selection and what it selects, changed in
      place by the arrow keys. */
  class SelectedTile {
    var select: Selected

    /** `select_none`. */
    method SelectNone()
      modifies this
      ensures select == NoTile
    {
      select := NoTile;
    }

    /** `select_one`. */
    method SelectOne(x: int, y: int)
      modifies this
      ensures select == One(TilePoint(x, y))
    {
      select := One(TilePoint(x, y));
    }

    /** `select_many`: the w x h rectangle with top-left corner (x, y). */
    method SelectMany(x: int, y: int, w: int, h: int)
      modifies this
      ensures select == Many(TilePoint(x, y), TilePoint(w, h))
    {
      select := Many(TilePoint(x, y), TilePoint(w, h));
    }

    /** `shift`. */
    method Shift(dir: Arrow, rows: int, columns: int)
      modifies this
      ensures select == Shifted(old(select), dir, rows, columns)
      ensures OnBoard(old(select), rows, columns) ==> OnBoard(select, rows, columns)
    {
      match select {
        case NoTile =>
        case One(p) =>
          match dir {
            case Down => if p.y + 1 < rows { select := One(TilePoint(p.x, p.y + 1)); }
            case Up => if p.y >= 1 { select := One(TilePoint(p.x, p.y - 1)); }
            case Left => if p.x >= 1 { select := One(TilePoint(p.x - 1, p.y)); }
            case Right => if p.x + 1 < columns { select := One(TilePoint(p.x + 1, p.y)); }
          }
        case Many(p, s) =>
          match dir {
            case Down => if p.y + s.y < rows { select := Many(TilePoint(p.x, p.y + 1), s); }
            case Up => if p.y >= 1 { select := Many(TilePoint(p.x, p.y - 1), s); }
            case Left => if p.x >= 1 { select := Many(TilePoint(p.x - 1, p.y), s); }
            case Right => if p.x + s.x < columns { select := Many(TilePoint(p.x + 1, p.y), s); }
          }
      }
    }
  }
}
