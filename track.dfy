/** The occupancy grid of the track (internal/track/track.go): cell kinds, the
    column-major grid with its bounds-safe lookup, and the colour classifier. */
module Track {
  import opened GoNumerics
  import opened Vector

  /** Declared in the source's `iota` order, so `Wall` is the zero value. */
  datatype CellType = Wall | Tarmac | Gravel | Start | Finish | Direction

  datatype Cell = Cell(kind: CellType, friction: real)

  /** Go's zero `Cell`, and what `Get` answers outside the grid. */
  const WallCell := Cell(Wall, 0.0)

  /** A 16-bit colour channel as `color.Color.RGBA` returns it. */
  type Channel = c: int | 0 <= c < 0x1_0000

  /** The colour of one pixel; the alpha channel is not read by the classifier. */
  datatype Rgba = Rgba(r: Channel, g: Channel, b: Channel)

  /** `c >> 8` on a 16-bit channel. */
  function To8(c: Channel): (v: int)
    ensures 0 <= v < 256
    ensures v * 256 <= c < (v + 1) * 256
  {
    c / 256
  }

  predicate IsWhite(r: int, g: int, b: int) { r > 200 && g > 200 && b > 200 }
  predicate IsRed(r: int, g: int, b: int) { r > 200 && g < 100 && b < 100 }
  predicate IsYellow(r: int, g: int, b: int) { r > 200 && g > 200 && b < 100 }
  predicate IsGreen(r: int, g: int, b: int) { g > r + 50 && g > b + 50 }
  predicate IsDark(r: int, g: int, b: int) { r < 50 && g < 50 && b < 50 }

  /** The ordered threshold classifier on the 8-bit channels. Green is checked before
      dark, but no colour is both, so `Wall` is exactly the dark colours. */
  function ColorToCellType(c: Rgba): (t: CellType)
    ensures t != Finish
    ensures var (r, g, b) := (To8(c.r), To8(c.g), To8(c.b));
      && (t == Start <==> IsRed(r, g, b))
      && (t == Direction <==> IsYellow(r, g, b))
      && (t == Gravel <==> IsGreen(r, g, b) && !IsWhite(r, g, b) && !IsYellow(r, g, b))
      && (t == Wall <==> IsDark(r, g, b))
      && (t == Tarmac <==> IsWhite(r, g, b)
                           || (!IsRed(r, g, b) && !IsYellow(r, g, b) && !IsGreen(r, g, b) && !IsDark(r, g, b)))
  {
    var (r, g, b) := (To8(c.r), To8(c.g), To8(c.b));
    if r > 200 && g > 200 && b > 200 then Tarmac
    else if r > 200 && g < 100 && b < 100 then Start
    else if r > 200 && g > 200 && b < 100 then Direction
    else if g > r + 50 && g > b + 50 then Gravel
    else if r < 50 && g < 50 && b < 50 then Wall
    else Tarmac
  }

  /** The kind of the cell a world point falls in, with Go's `int` truncation; outside
      the cells it is a wall, as `Grid.Get` answers. */
  function KindAt(cells: seq<seq<Cell>>, p: Vec2): CellType
  {
    var x := Trunc(p.x);
    var y := Trunc(p.y);
    if 0 <= x < |cells| && 0 <= y < |cells[x]| then cells[x][y].kind else Wall
  }

  /** `Grid`: `width` columns of `height` cells, indexed `cells[x][y]`. */
  class Grid {
    const width: int
    const height: int
    var cells: seq<seq<Cell>>
    var scale: real

    ghost predicate Valid()
      reads this
    {
      && 0 <= width && 0 <= height
      && |cells| == width
      && forall x :: 0 <= x < |cells| ==> |cells[x]| == height
    }

    /** `NewGrid`: every cell is Go's zero cell, a wall with friction 0, and the scale is 1. */
    constructor (width: int, height: int)
      requires 0 <= width && 0 <= height
      ensures Valid()
      ensures this.width == width && this.height == height
      ensures cells == seq(width, _ => seq(height, _ => WallCell))
      ensures scale == 1.0
    {
      this.width := width;
      this.height := height;
      var columns: seq<seq<Cell>> := [];
      var i := 0;
      while i < width
        invariant 0 <= i <= width
        invariant columns == seq(i, _ => seq(height, _ => WallCell))
      {
        columns := columns + [seq(height, _ => WallCell)];
        i := i + 1;
      }
      cells := columns;
      scale := 1.0;
    }

    predicate InBounds(x: int, y: int)
    {
      0 <= x < width && 0 <= y < height
    }

    /** Bounds-safe lookup: everything outside the grid reads as a wall. */
    function Get(x: int, y: int): (c: Cell)
      reads this
      requires Valid()
      ensures !InBounds(x, y) ==> c == WallCell
      ensures InBounds(x, y) ==> c == cells[x][y]
    {
      if x < 0 || x >= width || y < 0 || y >= height then WallCell else cells[x][y]
    }
  }
}
