/**
 * Map regions.  The world map is a grid of screen-sized cells; a position
 * in a room falls in the cell given by the room's origin cell plus the
 * position divided by the screen size, truncated toward zero.
 */
module Regions {
  import opened Lists

  /** SCREEN_SIZE. */
  const ScreenWidth: int := 400
  const ScreenHeight: int := 224

  /** A cell of the world map. */
  datatype Cell = Cell(x: int, y: int)

  /** `int(x / d)`: true division followed by truncation toward zero. */
  function TruncDiv(x: int, d: int): (r: int)
    requires d > 0
    ensures x >= 0 ==> r >= 0 && d * r <= x < d * r + d
    ensures x < 0 ==> r <= 0 && d * r - d < x <= d * r
  {
    if x >= 0 then x / d else -((-x) / d)
  }

  /** `get_xregion`. */
  function XRegion(x: int): int
  {
    TruncDiv(x, ScreenWidth)
  }

  /** `get_yregion`. */
  function YRegion(y: int): int
  {
    TruncDiv(y, ScreenHeight)
  }

  /** Truncation rounds toward zero: down for positions at or after 0, up for the others. */
  lemma RegionBounds(x: int, y: int)
    ensures x >= 0 ==> XRegion(x) >= 0 && ScreenWidth * XRegion(x) <= x < ScreenWidth * (XRegion(x) + 1)
    ensures x < 0 ==> XRegion(x) <= 0 && ScreenWidth * (XRegion(x) - 1) < x <= ScreenWidth * XRegion(x)
    ensures y >= 0 ==> YRegion(y) >= 0 && ScreenHeight * YRegion(y) <= y < ScreenHeight * (YRegion(y) + 1)
    ensures y < 0 ==> YRegion(y) <= 0 && ScreenHeight * (YRegion(y) - 1) < y <= ScreenHeight * YRegion(y)
  {
  }

  /**
   * Truncation makes the column of cells straddling zero twice as wide as
   * the others: every position strictly between minus one screen and one
   * screen lands in region 0, and every other column is exactly one screen
   * wide.
   */
  lemma XRegionCells(x: int, q: int)
    ensures XRegion(x) == 0 <==> -ScreenWidth < x < ScreenWidth
    ensures q > 0 ==> (XRegion(x) == q <==> ScreenWidth * q <= x < ScreenWidth * (q + 1))
    ensures q < 0 ==> (XRegion(x) == q <==> ScreenWidth * (q - 1) < x <= ScreenWidth * q)
  {
    RegionBounds(x, 0);
  }

  /** The same holds for rows of cells, one screen high. */
  lemma YRegionCells(y: int, q: int)
    ensures YRegion(y) == 0 <==> -ScreenHeight < y < ScreenHeight
    ensures q > 0 ==> (YRegion(y) == q <==> ScreenHeight * q <= y < ScreenHeight * (q + 1))
    ensures q < 0 ==> (YRegion(y) == q <==> ScreenHeight * (q - 1) < y <= ScreenHeight * q)
  {
    RegionBounds(0, y);
  }

  /** `map_rooms.get(fname, (0, 0))`: a room's origin cell, the top-left one when the room is not on the map. */
  function RoomOrigin(rooms: map<string, Cell>, fname: string): Cell
  {
    if fname in rooms then rooms[fname] else Cell(0, 0)
  }

  /** The map cell of position (`px`, `py`) in a room whose origin cell is `origin`. */
  function CellAt(origin: Cell, px: int, py: int): Cell
  {
    Cell(origin.x + XRegion(px), origin.y + YRegion(py))
  }

  /** A position at or right of and below a room's top-left corner lies in the screen-sized cell `CellAt` names. */
  lemma CellAtBounds(origin: Cell, px: int, py: int)
    requires px >= 0 && py >= 0
    ensures var r := CellAt(origin, px, py);
              ScreenWidth * (r.x - origin.x) <= px < ScreenWidth * (r.x - origin.x + 1) &&
              ScreenHeight * (r.y - origin.y) <= py < ScreenHeight * (r.y - origin.y + 1)
  {
    RegionBounds(px, py);
  }

  /** The running minimum of the x coordinates, starting from 0, as `draw_map` keeps it. */
  function MinX(cells: seq<Cell>): int
  {
    if cells == [] then 0
    else var m := MinX(cells[..|cells| - 1]); var c := cells[|cells| - 1]; if c.x < m then c.x else m
  }

  function MaxX(cells: seq<Cell>): int
  {
    if cells == [] then 0
    else var m := MaxX(cells[..|cells| - 1]); var c := cells[|cells| - 1]; if c.x > m then c.x else m
  }

  function MinY(cells: seq<Cell>): int
  {
    if cells == [] then 0
    else var m := MinY(cells[..|cells| - 1]); var c := cells[|cells| - 1]; if c.y < m then c.y else m
  }

  function MaxY(cells: seq<Cell>): int
  {
    if cells == [] then 0
    else var m := MaxY(cells[..|cells| - 1]); var c := cells[|cells| - 1]; if c.y > m then c.y else m
  }

  /**
   * The bounds always take in the cell (0, 0) and every given cell, and each
   * edge is either 0 or the coordinate of some cell.
   */
  lemma {:induction false} BoundsCover(cells: seq<Cell>)
    ensures MinX(cells) <= 0 <= MaxX(cells) && MinY(cells) <= 0 <= MaxY(cells)
    ensures forall i :: 0 <= i < |cells| ==>
              MinX(cells) <= cells[i].x <= MaxX(cells) && MinY(cells) <= cells[i].y <= MaxY(cells)
    ensures MinX(cells) == 0 || exists i :: 0 <= i < |cells| && cells[i].x == MinX(cells)
    ensures MaxX(cells) == 0 || exists i :: 0 <= i < |cells| && cells[i].x == MaxX(cells)
    ensures MinY(cells) == 0 || exists i :: 0 <= i < |cells| && cells[i].y == MinY(cells)
    ensures MaxY(cells) == 0 || exists i :: 0 <= i < |cells| && cells[i].y == MaxY(cells)
  {
    if cells != [] {
      var init := cells[..|cells| - 1];
      BoundsCover(init);
      forall i | 0 <= i < |init| ensures init[i] == cells[i] { }
    }
  }

  /** The map's window when the caller gives none: its top-left cell and its size in cells. */
  datatype Window = Window(x: int, y: int, w: int, h: int)

  /**
   * The bounds computation of `draw_map`: each of `x`, `y`, `w` and `h` that
   * is not given is taken from the bounding box of the revealed and explored
   * cells; each one that is given is used as it is.
   */
  method MapWindow(cells: seq<Cell>, x: Option<int>, y: Option<int>, w: Option<int>, h: Option<int>)
    returns (r: Window)
    ensures r.x == if x.Some? then x.value else MinX(cells)
    ensures r.y == if y.Some? then y.value else MinY(cells)
    ensures r.w == if w.Some? then w.value else MaxX(cells) - r.x + 1
    ensures r.h == if h.Some? then h.value else MaxY(cells) - r.y + 1
    ensures x.None? && y.None? && w.None? && h.None? ==>
              forall i :: 0 <= i < |cells| ==>
                r.x <= cells[i].x < r.x + r.w && r.y <= cells[i].y < r.y + r.h
  {
    if x.None? || y.None? || w.None? || h.None? {
      var left, right, top, bottom := 0, 0, 0, 0;
      var i := 0;
      while i < |cells|
        invariant 0 <= i <= |cells|
        invariant left == MinX(cells[..i]) && right == MaxX(cells[..i])
        invariant top == MinY(cells[..i]) && bottom == MaxY(cells[..i])
      {
        assert cells[..i + 1][..i] == cells[..i];
        var c := cells[i];
        left := if c.x < left then c.x else left;
        right := if c.x > right then c.x else right;
        top := if c.y < top then c.y else top;
        bottom := if c.y > bottom then c.y else bottom;
        i := i + 1;
      }
      assert cells[..i] == cells;
      BoundsCover(cells);
      var rx := if x.Some? then x.value else left;
      var ry := if y.Some? then y.value else top;
      var rw := if w.Some? then w.value else right - rx + 1;
      var rh := if h.Some? then h.value else bottom - ry + 1;
      r := Window(rx, ry, rw, rh);
    } else {
      r := Window(x.value, y.value, w.value, h.value);
    }
  }
}
