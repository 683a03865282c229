/** `HeuristicPlayer`: the same minimax search as `Player84208535`, whose
    fixed evaluation of a position with no available move is zero. */
module HeuristicPlayers {
  import opened Wrappers
  import opened Boards
  import opened Moves
  import opened Games
  import opened Nodes
  import opened Minimax

  /** `doFixedEvaluation(remainingDepth)`: 0 for every depth. */
  function DoFixedEvaluation(remainingDepth: int): (r: real)
    ensures r == 0.0
  {
    if remainingDepth <= 1 then 0.0 else 0.0
  }

  /** `getNextMove(availableMoves, board)`: the coordinates of the first
      child of the search's root with the greatest value. The given list of
      moves is not consulted; the search generates its own. */
  method GetNextMove(g: Game, availableMoves: seq<seq<int>>, board: Board) returns (r: Result<seq<int>>, ghost best: int)
    requires g.Valid() && board.Valid()
    ensures var b := g.cloneBoard(board, 45);
            && b.Valid()
            && Chosen(g, b, Search(g, DoFixedEvaluation, Values(g), None, b, MINIMAX_DEPTH, -DOUBLE_MAX, DOUBLE_MAX, true).evals, r, best)
  {
    r, best := NextMove(g, DoFixedEvaluation, board);
  }

  /** A position with no available move is worth exactly the node's own
      value, whatever the depth left and whichever player is to move. */
  lemma ChildlessKeepsOwn(g: Game, value: (Board, Move) -> real, from: Option<(Board, Move)>, b: Board,
                          depth: int, min: real, max: real, maximizing: bool)
    requires g.Valid() && b.Valid() && |Successors(g, b)| == 0
    ensures Search(g, DoFixedEvaluation, value, from, b, depth, min, max, maximizing).value
            == Own(value, from, maximizing)
  {
    if depth != 0 {
      LeafValues(g, DoFixedEvaluation, value, from, b, depth, min, max, maximizing);
    }
  }
}
