/** Tiles and boards of the game, as immutable values.

    A board is a grid of colours `cells[y][x]` with `y == 0` the bottom row.
    Only the lower `pRows` rows are playable; the rows above them hold the
    candies that fall in next. Colour -1 marks a cell whose colour is not
    known. */
module Boards {
  import opened Sets

  const UNKNOWN: int := -1

  /** Integer.MAX_VALUE, the walk bound used for board-wide scans. */
  const MAX_INT: int := 0x7fff_ffff

  /** Direction codes of CrushUtilities. Their numeric values are not part of
      this model; only their distinctness is relied upon. */
  const UP: int := 0
  const DOWN: int := 1
  const LEFT: int := 2
  const RIGHT: int := 3

  predicate IsDirection(d: int) {
    d == UP || d == DOWN || d == LEFT || d == RIGHT
  }

  /** A tile: its position and its colour. */
  datatype Tile = Tile(x: int, y: int, color: int)

  datatype Board = Board(cols: int, rows: int, pRows: int, cells: seq<seq<int>>)
  {
    predicate Valid() {
      && 0 < cols <= MAX_INT
      && 0 < pRows <= rows <= MAX_INT
      && |cells| == rows
      && (forall y | 0 <= y < rows :: |cells[y]| == cols)
    }

    /** The positions `giveTileAt` accepts: the whole grid, hidden rows included. */
    predicate Holds(x: int, y: int) {
      0 <= x < cols && 0 <= y < rows
    }

    function TileAt(x: int, y: int): (t: Tile)
      requires Valid() && Holds(x, y)
      ensures t.x == x && t.y == y
    {
      Tile(x, y, cells[y][x])
    }

    /** `t` is the tile this board holds at `t`'s position. */
    predicate IsTileOf(t: Tile) {
      Valid() && Holds(t.x, t.y) && cells[t.y][t.x] == t.color
    }

    /** The positions whose colour is known, over the whole grid. */
    function KnownCells(): set<(int, int)>
      requires Valid()
    {
      set x, y | 0 <= x < cols && 0 <= y < rows && cells[y][x] != UNKNOWN :: (x, y)
    }

    function KnownCount(): nat
      requires Valid()
    {
      |KnownCells()|
    }
  }

  /** The positions of the lowest `r` rows of a grid `c` columns wide. */
  function Grid(c: int, r: int): set<(int, int)> {
    set x, y | 0 <= x < c && 0 <= y < r :: (x, y)
  }

  /** The positions of row `y` of a grid `c` columns wide. */
  function RowCells(c: int, y: int): set<(int, int)> {
    set x | 0 <= x < c :: (x, y)
  }

  lemma {:induction false} RowCard(c: nat, y: int)
    ensures |RowCells(c, y)| == c
    decreases c
  {
    if c == 0 {
      assert RowCells(c, y) == {};
    } else {
      RowCard(c - 1, y);
      assert RowCells(c, y) == RowCells(c - 1, y) + {(c - 1, y)};
    }
  }

  lemma {:induction false} GridCard(c: nat, r: nat)
    ensures |Grid(c, r)| == c * r
    decreases r
  {
    if r == 0 {
      assert Grid(c, r) == {};
    } else {
      GridCard(c, r - 1);
      RowCard(c, r - 1);
      GridSplit(c, r - 1);
      DisjointUnionCard(Grid(c, r - 1), RowCells(c, r - 1));
      MulStep(c, r);
    }
  }

  lemma MulStep(c: int, r: int)
    ensures c * r == c * (r - 1) + c
  {
  }

  /** A grid one row higher is the grid with that row added, which it did
      not hold. */
  lemma GridSplit(c: int, y: int)
    requires 0 <= y
    ensures Grid(c, y + 1) == Grid(c, y) + RowCells(c, y)
    ensures Grid(c, y) * RowCells(c, y) == {}
  {
    forall p | p in Grid(c, y + 1)
      ensures p in Grid(c, y) + RowCells(c, y)
    {
      if p.1 < y {
        assert p in Grid(c, y);
      } else {
        assert p in RowCells(c, y);
      }
    }
  }

  /** A board knows the colour of at most all of its cells. */
  lemma KnownWithinGrid(b: Board)
    requires b.Valid()
    ensures b.KnownCount() <= b.cols * b.rows
  {
    GridCard(b.cols, b.rows);
    SubsetCard(b.KnownCells(), Grid(b.cols, b.rows));
  }

  /** Two tiles of one board at the same position are the same tile. */
  lemma {:induction false} TilesOfBoardByPosition(b: Board, t: Tile, u: Tile)
    requires b.IsTileOf(t) && b.IsTileOf(u)
    ensures (t.x == u.x && t.y == u.y) <==> t == u
  {
  }
}
