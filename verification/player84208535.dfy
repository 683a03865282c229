/** `Player84208535`: a minimax player with alpha-beta cut-offs over the
    heuristic value of `Node`, which scores a position with no available
    move by a fixed evaluation of the levels left unsearched. */
module Player84208535Players {
  import opened Wrappers
  import opened Boards
  import opened Moves
  import opened Games
  import opened Nodes
  import opened Minimax

  /** `doFixedEvaluation(remainingDepth)`: 4 when at most one level is
      left, 3 otherwise. */
  function DoFixedEvaluation(remainingDepth: int): (r: real)
    ensures r == 3.0 || r == 4.0
    ensures r == 4.0 <==> remainingDepth <= 1
  {
    if remainingDepth <= 1 then 4.0 else 3.0
  }

  /** `getNextMove(availableMoves, board)`: the coordinates of the first
      child of the search's root with the greatest value. The given list of
      moves is not consulted; the search generates its own. */
  method GetNextMove(g: Game, availableMoves: seq<seq<int>>, board: Board) returns (r: Result<seq<int>>, ghost best: int)
    requires g.Valid() && board.Valid()
    ensures var b := g.cloneBoard(board, 45);
            && b.Valid()
            && Chosen(g, b, Search(g, DoFixedEvaluation, Values(g), None, b, MINIMAX_DEPTH, -DOUBLE_MAX, DOUBLE_MAX, true).evals, r, best)
  {
    r, best := NextMove(g, DoFixedEvaluation, board);
  }

  /** A position with no available move, searched with levels still to
      go, is worth the node's own value plus (for the maximizing player)
      or minus a bonus of 3, or of 4 when at most one level remains; so
      running out of moves is always preferred by the maximizing player. */
  lemma ChildlessBonus(g: Game, value: (Board, Move) -> real, from: Option<(Board, Move)>, b: Board,
                       depth: int, min: real, max: real, maximizing: bool)
    requires g.Valid() && b.Valid() && depth != 0 && |Successors(g, b)| == 0
    ensures var v := Search(g, DoFixedEvaluation, value, from, b, depth, min, max, maximizing).value;
            var own := Own(value, from, maximizing);
            var bonus := if Next(g, from, depth) <= 1 then 4.0 else 3.0;
            && (maximizing ==> v == own + bonus && v > own)
            && (!maximizing ==> v == own - bonus && v < own)
  {
    LeafValues(g, DoFixedEvaluation, value, from, b, depth, min, max, maximizing);
  }
}
