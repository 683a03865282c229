/** The operations of the game engine the move chooser calls but does not
    define: the board transformations and move generation of
    `CrushUtilities`, `Math.exp`, and the extra-turn flag of the
    candies-removed heuristic.

    They are fields of a `Game` value; `Game.Valid` states the assumptions
    the callers rely on, and nothing else is assumed about them. */
module Games {
  import opened Wrappers
  import opened Boards
  import opened BoardUtils
  import opened Moves
  import opened MathModels

  datatype Game = Game(
    /** `boardAfterFirstMove(board, dirMove)`: the two tiles swapped, nothing crushed. */
    afterFirstMove: (Board, seq<int>) -> Board,
    /** `boardAfterFirstCrush(board, dirMove)`: the swap and its first crush. */
    afterFirstCrush: (Board, seq<int>) -> Board,
    /** `boardAfterDeletingNples(board, pRows)`: every n-ple deleted once. */
    afterDeletingNples: (Board, int) -> Board,
    /** `boardAfterFullMove(board, dirMove)`: the swap and all its chained crushes. */
    afterFullMove: (Board, seq<int>) -> Board,
    /** `getAvailableMoves(board)`: moves as [x, y, direction]. */
    availableMoves: Board -> seq<seq<int>>,
    /** `calculateNextMove(dirMove)`: the same move as [x1, y1, x2, y2]. */
    nextMove: seq<int> -> seq<int>,
    /** `causedAnExtraTurn()` of the candies-removed heuristic of (board, move). */
    causedExtraTurn: (Board, Move) -> bool,
    /** `Math.exp`. */
    exp: real -> real,
    /** `cloneBoard(board, rows)`: a copy of the board for the search. */
    cloneBoard: (Board, int) -> Board)
  {
    /** What the move chooser relies on. */
    ghost predicate Valid() {
      && ExpLike(exp) && ExpIncreasing(exp)
      && (forall b: Board, r | b.Valid() :: cloneBoard(b, r).Valid())
      && (forall b: Board, d | b.Valid() :: SameShape(b, afterFirstMove(b, d)))
      && (forall b: Board, d | b.Valid() :: SameShape(b, afterFirstCrush(b, d)))
      && (forall b: Board, d | b.Valid() :: SameShape(b, afterFullMove(b, d)))
      && (forall b: Board, p | b.Valid() :: SameShape(b, afterDeletingNples(b, p)))
      // Deleting at least three n-ple tiles leaves at least that many
      // fewer cells of known colour.
      && (forall b: Board | b.Valid() && |AllNPles(b)| > 2 ::
            afterDeletingNples(b, b.pRows).KnownCount() + |AllNPles(b)| <= b.KnownCount())
      // An available move crushes, so the board after it has fewer known cells ...
      && (forall b: Board, dm | b.Valid() && dm in availableMoves(b) ::
            afterFullMove(b, dm).KnownCount() < b.KnownCount())
      // ... and it swaps two neighbouring playable tiles.
      && (forall b: Board, dm | b.Valid() && dm in availableMoves(b) ::
            CordsOn(b, nextMove(dm)) && Legal(b, MoveAt(b, nextMove(dm))))
    }
  }

  /** `c` is a board of the same dimensions as `b`. */
  predicate SameShape(b: Board, c: Board) {
    c.Valid() && c.cols == b.cols && c.rows == b.rows && c.pRows == b.pRows
  }

  /** Coordinates [x1, y1, x2, y2] of two playable cells of `b`. */
  predicate CordsOn(b: Board, c: seq<int>) {
    b.Valid() && |c| == 4 && IsValidCords(b, c[0], c[1]) && IsValidCords(b, c[2], c[3])
  }

  /** The move made of the tiles of `b` at the coordinates `c`, as
      `createChildren` builds it. */
  function MoveAt(b: Board, c: seq<int>): (m: Move)
    requires CordsOn(b, c)
    ensures m.Filled() && b.IsTileOf(m.first.value) && b.IsTileOf(m.second.value)
    ensures m.ToCordsArray() == Ok(c)
  {
    assert c == [c[0], c[1], c[2], c[3]];
    Move(Some(b.TileAt(c[0], c[1])), Some(b.TileAt(c[2], c[3])))
  }

  /** A move of two playable tiles of `b` on one row or column. */
  predicate Legal(b: Board, m: Move) {
    && m.Filled()
    && b.IsTileOf(m.first.value) && IsValidCords(b, m.first.value.x, m.first.value.y)
    && b.IsTileOf(m.second.value) && IsValidCords(b, m.second.value.x, m.second.value.y)
    && m.ToDirArray().Ok?
  }
}
