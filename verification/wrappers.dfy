/** Optional values (a Java reference that may be null) and results that may
    carry one of the runtime exceptions the game code throws. */
module Wrappers {

  datatype Option<T> = None | Some(value: T)

  /** The runtime exceptions of the modelled classes, one constructor each. */
  datatype Failure =
    | NullBoard          // BoardUtils.NullBoardRuntimeException
    | NullMove           // BoardUtils.NullMoveRuntimeException
    | NullTile           // BoardUtils / PlayerMove NullTileRuntimeException
    | InvalidDirections  // BoardUtils.InvalidDirectionsRuntimeException
    | InvalidMove        // PlayerMove.InvalidMoveRuntimeException
    | EmptyMove          // PlayerMove.EmptyMoveRuntimeException
    | SameTiles          // PlayerMove.SameTilesRuntimeException
    | InvalidDirection   // PlayerMove.InvalidDirectionRuntimeException
    | IllegalWeight      // HeuristicsMathModel.IllegalWeightRuntimeException
    | NullNode           // Node.NullNodeRuntimeException
    | NonEvaluatedNode   // Node.NonEvaluatedNodeException
    | NullModel          // NullPointerException: an engine used without a math model
    | EmptyGroup         // not an exception: the 0/0 average of an empty heuristics group is NaN
    | NoBestMove         // NullPointerException: a search that found no move to convert

  datatype Result<T> = Ok(value: T) | Err(error: Failure)
}
