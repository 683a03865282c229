# Move chooser of the ThmmyCrushCompetition player

This project models the decision core of the Java player for the
ThmmyCrushCompetition tile-swap game. The game is played on a board of
coloured candies. A move swaps two neighbouring candies, and three or more
of one colour in a row or column are crushed.

Each turn the player builds a depth-limited minimax tree of moves with
alpha-beta style cut-offs. It scores each move by a weighted combination of
two heuristics, then plays the first child of the root with the highest
evaluation:

- **candies removed**: the candies a move crushes, directly and through the
  chain that follows;
- **distance from top**: how low on the board the move is played.

The model covers these source components:

- `BoardUtils`: same-colour walks, crushing groups and n-ple scans.
- `PlayerMove`: the move object with its getters and coordinate and
  direction conversions.
- `Heuristic`, `HeuristicsMathModel`/`SliderMathModel` and
  `HeuristicsEngine`: the weights, and the weighted mean of heuristic groups.
- `CandiesRemovedHeuristic` and `DistanceFromTopHeuristic`: the two
  heuristics.
- `Node` of `node84208535`: the tree node, with its children, evaluation and
  extra-turn flag.
- `Player84208535` and `HeuristicPlayer`: `getNextMove`,
  `createMinimaxTree`, `findBestMove` and `doFixedEvaluation`.

Modelling choices:

- **Values, references and failures.** Boards, tiles and heuristic inputs
  are values. A null reference is an `Option`. Every runtime exception the
  source throws is a `Failure` in a `Result`.
- **State.**
  - `PlayerMove`, `Heuristic`, `SliderMathModel`, `HeuristicsEngine` and
    `Node` are classes whose methods update their fields.
  - `PlayerMove` keeps its two tile slots in an array.
  - The search builds `Node` objects and writes their evaluations.
- **Proofs.** Each method is proved against a specification function:
  - the walk in one direction against `Ray`;
  - the crushing-group computation against `TilesThatCrush`;
  - the n-ple scan against `AllNPles`;
  - the weights against `Weights`;
  - the engine against `Overall`;
  - the tree construction against `Minimax.Search`.

  Lemmas then state what the source promises about those functions.
- **External calls.** The game engine's calls that the core uses but does
  not define are fields of a `Games.Game` value. `Game.Valid` states the
  only facts assumed about them. These calls are:
  - the board transformations of `CrushUtilities`;
  - `getAvailableMoves` and `calculateNextMove`;
  - `cloneBoard`;
  - `Math.exp`;
  - the extra-turn flag of the candies heuristic.
- **Numbers.** `double` is modelled as `real`. `Integer.MAX_VALUE` and
  `Double.MAX_VALUE` are the constants `MAX_INT` and `DOUBLE_MAX`.

## Model

| member | source | states |
|---|---|---|
| BoardUtils.CheckValidCords | src/gr/auth/ee/dsproject/crush/util/BoardUtils.java:356-364 | A null board is the NullBoard failure; otherwise the answer is true exactly when 0 <= x < cols and 0 <= y < playable rows |
| BoardUtils.IsValidGameCords | src/gr/auth/ee/dsproject/crush/util/BoardUtils.java:377-383 | True exactly inside the `NUMBER_OF_COLUMNS` x `NUMBER_OF_PLAYABLE_ROWS` playable area, and then valid on every board of those dimensions (both sizes fixed at 10, see "Left out") |
| BoardUtils.CompareByYThenX | src/gr/auth/ee/dsproject/crush/util/BoardUtils.java:402-417 | Returns -1, 0 or 1: 0 exactly for the same cell, -1 exactly when the first tile is on a lower row, or on the same row further left |
| BoardUtils.CompareIsOrder | src/gr/auth/ee/dsproject/crush/util/BoardUtils.java:402-417 | The comparator is antisymmetric and transitive, so it orders tiles |
| BoardUtils.Increment | src/gr/auth/ee/dsproject/crush/util/BoardUtils.java:174-196 | UP, DOWN, LEFT and RIGHT give the steps (0,1), (0,-1), (-1,0) and (1,0); every other value is rejected |
| BoardUtils.RaySteps | src/gr/auth/ee/dsproject/crush/util/BoardUtils.java:198-218 | The walk takes at most max steps, every step reached matches the start colour, and a walk shorter than max stops at a cell off the board or of another colour |
| BoardUtils.RayTiles | src/gr/auth/ee/dsproject/crush/util/BoardUtils.java:198-218 | Every tile collected is a tile of the board, in the playable area, of the start tile's colour |
| BoardUtils.RayExcludesStart | src/gr/auth/ee/dsproject/crush/util/BoardUtils.java:198-218 | The walk never collects the start cell, and stays on the start's column (vertical step) or row (horizontal step) |
| BoardUtils.RayReaches | src/gr/auth/ee/dsproject/crush/util/BoardUtils.java:198-218 | Every step within a matching prefix of length at most max is collected |
| BoardUtils.RaySize | src/gr/auth/ee/dsproject/crush/util/BoardUtils.java:198-218 | The walk collects at most as many tiles as steps it takes |
| BoardUtils.WalkRay | src/gr/auth/ee/dsproject/crush/util/BoardUtils.java:198-218 | The loop collects exactly the same-colour walk `Ray` |
| BoardUtils.FindInDirectionSameColorTiles | src/gr/auth/ee/dsproject/crush/util/BoardUtils.java:162-221 | Null board, then null tile, then an unknown direction are the three failures, in that order; otherwise the result is the walk in that direction |
| BoardUtils.AdjacentTiles | src/gr/auth/ee/dsproject/crush/util/BoardUtils.java:82-96 | Every adjacent tile found is a playable board tile of the same colour, on the same column or row as the given tile and not its cell |
| BoardUtils.RaysAlongDirections | src/gr/auth/ee/dsproject/crush/util/BoardUtils.java:89-93 | The union of the walks over the DIRECTIONS array is the walk set `Adjacent` |
| BoardUtils.CollectAdjacent | src/gr/auth/ee/dsproject/crush/util/BoardUtils.java:87-95 | The loop over the four directions yields exactly `Adjacent` |
| BoardUtils.FindAdjacentSameColorTiles | src/gr/auth/ee/dsproject/crush/util/BoardUtils.java:82-96 | Null board and null tile fail in that order; otherwise the result is `Adjacent` and never contains the given tile |
| BoardUtils.TilesThatCrush | src/gr/auth/ee/dsproject/crush/util/BoardUtils.java:247-342 | The crushing tiles are a subset of the input and none has the unknown colour |
| BoardUtils.CrushIdempotent | src/gr/auth/ee/dsproject/crush/util/BoardUtils.java:247-342 | Filtering crushing tiles twice gives the same set as once |
| BoardUtils.CategorizeTiles | src/gr/auth/ee/dsproject/crush/util/BoardUtils.java:263-323 | The nested map built tile by tile lists, for every (colour, axis, coordinate) key, exactly the input tiles with that key, each once |
| BoardUtils.CollectGroups | src/gr/auth/ee/dsproject/crush/util/BoardUtils.java:328-339 | The loop over the categories yields the union of the groups with more than two tiles |
| BoardUtils.CrushedByAllKnown | src/gr/auth/ee/dsproject/crush/util/BoardUtils.java:325-339 | Dropping colour -1 and keeping the groups of three or more gives `TilesThatCrush` |
| BoardUtils.CollectCrushing | src/gr/auth/ee/dsproject/crush/util/BoardUtils.java:247-341 | Categorising and collecting computes exactly `TilesThatCrush` |
| BoardUtils.FindTilesThatCrush | src/gr/auth/ee/dsproject/crush/util/BoardUtils.java:247-342 | A null set is the NullTile failure; otherwise the result is `TilesThatCrush` of the set |
| BoardUtils.PlusFourWalks | src/gr/auth/ee/dsproject/crush/util/BoardUtils.java:123-127 | The adjacent same-colour tiles of a cell (max Integer.MAX_VALUE) plus the cell are its four walks |
| BoardUtils.LineGroupSound | src/gr/auth/ee/dsproject/crush/util/BoardUtils.java:123-127 | A group of three or more same-line tiles around a cell lies in a line of three of equal colour |
| BoardUtils.LineGroupComplete | src/gr/auth/ee/dsproject/crush/util/BoardUtils.java:123-127 | A tile in a line of three of equal colour has a group of at least three in the plus around it |
| BoardUtils.NPlesSound | src/gr/auth/ee/dsproject/crush/util/BoardUtils.java:121-130 | Every tile the scan of any known cell collects is an n-ple of the board |
| BoardUtils.NPlesComplete | src/gr/auth/ee/dsproject/crush/util/BoardUtils.java:121-130 | Every n-ple is collected by the scan of its own cell |
| BoardUtils.AllNPlesMembers | src/gr/auth/ee/dsproject/crush/util/BoardUtils.java:112-135 | A tile is an n-ple exactly when it is a board tile on a playable row lying in three equal known colours in a row or column |
| BoardUtils.ScanAt | src/gr/auth/ee/dsproject/crush/util/BoardUtils.java:121-130 | One cell's scan adds only n-ples, and adds the cell itself when it is one |
| BoardUtils.CollectNPles | src/gr/auth/ee/dsproject/crush/util/BoardUtils.java:117-134 | The double loop over the playable rows and columns collects exactly `AllNPles` |
| BoardUtils.FindAllNPles | src/gr/auth/ee/dsproject/crush/util/BoardUtils.java:112-135 | A null board is the NullBoard failure; otherwise the result is `AllNPles` |
| Moves.Move.GetTiles | src/gr/auth/ee/dsproject/crush/player/move/PlayerMove.java:160-164 | Fails with EmptyMove exactly when a slot is empty; otherwise the two tiles in order |
| Moves.Move.X1 | src/gr/auth/ee/dsproject/crush/player/move/PlayerMove.java:178-181 | Fails with EmptyMove exactly when the first slot is empty; otherwise its x |
| Moves.Move.Y1 | src/gr/auth/ee/dsproject/crush/player/move/PlayerMove.java:192-195 | Fails with EmptyMove exactly when the first slot is empty; otherwise its y |
| Moves.Move.X2 | src/gr/auth/ee/dsproject/crush/player/move/PlayerMove.java:206-209 | Fails with EmptyMove exactly when the second slot is empty; otherwise its x |
| Moves.Move.Y2 | src/gr/auth/ee/dsproject/crush/player/move/PlayerMove.java:220-223 | Fails with EmptyMove exactly when the second slot is empty; otherwise its y |
| Moves.Move.ToCordsArray | src/gr/auth/ee/dsproject/crush/player/move/PlayerMove.java:236-245 | Fails with EmptyMove exactly when a slot is empty; otherwise [x1, y1, x2, y2] |
| Moves.Move.ToDirArray | src/gr/auth/ee/dsproject/crush/player/move/PlayerMove.java:264-290 | EmptyMove exactly for an unfilled move, SameTiles exactly for one cell twice, InvalidDirection exactly for a diagonal; otherwise [x1, y1, d] with d the direction whose step has the signs of the offset to the second tile |
| Moves.SwapReversesDirection | src/gr/auth/ee/dsproject/crush/player/move/PlayerMove.java:264-290 | Swapping the two tiles keeps every failure and turns the direction into its opposite |
| Moves.DirectionReachesSecond | src/gr/auth/ee/dsproject/crush/player/move/PlayerMove.java:264-290 | Stepping from the first tile in the computed direction reaches the second tile after a positive number of steps |
| Moves.TwoApartIsRight | src/gr/auth/ee/dsproject/crush/player/move/PlayerMove.java:264-290 | Tiles two cells apart on one row still get the direction RIGHT: neighbourhood is not checked |
| Moves.PlayerMove.Empty | src/gr/auth/ee/dsproject/crush/player/move/PlayerMove.java:57-59 | A new move with both slots empty |
| Moves.PlayerMove.FromArray | src/gr/auth/ee/dsproject/crush/player/move/PlayerMove.java:75-84 | A null array is NullTile, a length other than 2 is InvalidMove, a null tile is NullTile; otherwise the move keeps the very array given |
| Moves.PlayerMove.FromTiles | src/gr/auth/ee/dsproject/crush/player/move/PlayerMove.java:96-102 | Fails with NullTile exactly when a tile is missing; otherwise a new array holding the two tiles in order |
| Moves.PlayerMove.SetTilesArray | src/gr/auth/ee/dsproject/crush/player/move/PlayerMove.java:121-129 | The array constructor's three checks; on success the move holds the given array, on failure nothing changes |
| Moves.PlayerMove.SetTiles | src/gr/auth/ee/dsproject/crush/player/move/PlayerMove.java:141-145 | Fails with NullTile exactly when a tile is missing, leaving the slots unchanged; otherwise the slots hold the two tiles |
| Heuristics.Heuristic.constructor | src/gr/auth/ee/dsproject/crush/heuristics/Heuristic.java:32 | The default range is 100.0 |
| Heuristics.Heuristic.WithRange | src/gr/auth/ee/dsproject/crush/heuristics/Heuristic.java:33 | The range is the one given |
| Heuristics.Heuristic.SetRange | src/gr/auth/ee/dsproject/crush/heuristics/Heuristic.java:36 | The range becomes the one given |
| Heuristics.Heuristic.GetRange | src/gr/auth/ee/dsproject/crush/heuristics/Heuristic.java:39 | Returns the range |
| Heuristics.SetThenGet | src/gr/auth/ee/dsproject/crush/heuristics/Heuristic.java:36-39 | Reading the range back after setting it returns the value set |
| MathModels.SliderMathModel.constructor | src/gr/auth/ee/dsproject/crush/heuristics/SliderMathModel.java:66 | The default factor is 2.0 |
| MathModels.SliderMathModel.WithFactor | src/gr/auth/ee/dsproject/crush/heuristics/SliderMathModel.java:67 | The factor is the one given |
| MathModels.SliderMathModel.SetFactor | src/gr/auth/ee/dsproject/crush/heuristics/SliderMathModel.java:71 | The factor becomes the one given |
| MathModels.SliderMathModel.GetWeightScales | src/gr/auth/ee/dsproject/crush/heuristics/SliderMathModel.java:85-88 | The five scales VERY_LOW..VERY_HIGH in order, and nothing else |
| MathModels.SliderMathModel.IsValidWeight | src/gr/auth/ee/dsproject/crush/heuristics/HeuristicsMathModel.java:89-99 | True exactly for the five scales of the model |
| MathModels.SliderMathModel.ProcessModelScales | src/gr/auth/ee/dsproject/crush/heuristics/SliderMathModel.java:91-106 | The two loops compute `Weights`: each scale's exp(exponent * factor) over the sum of them all |
| MathModels.SliderMathModel.CalculateWeights | src/gr/auth/ee/dsproject/crush/heuristics/HeuristicsMathModel.java:61-69 | Fails with IllegalWeight exactly when some scale is not one of the model's; otherwise the weights of `ProcessModelScales` |
| MathModels.WeightIsShare | src/gr/auth/ee/dsproject/crush/heuristics/SliderMathModel.java:91-106 | The denominator is positive and each weight is its scale's term over it |
| MathModels.WeightInUnit | src/gr/auth/ee/dsproject/crush/heuristics/SliderMathModel.java:91-106 | Every weight lies in (0, 1] |
| MathModels.WeightsSumToOne | src/gr/auth/ee/dsproject/crush/heuristics/SliderMathModel.java:91-106 | The weights of a non-empty set of scales sum to 1 |
| MathModels.SliderWeightsNormalised | src/gr/auth/ee/dsproject/crush/heuristics/SliderMathModel.java:91-106 | The weights are positive, at most 1 and sum to 1 |
| MathModels.SingleScaleWeight | src/gr/auth/ee/dsproject/crush/heuristics/SliderMathModel.java:91-106 | A single scale gets weight 1, whatever the factor |
| MathModels.FactorZeroWeights | src/gr/auth/ee/dsproject/crush/heuristics/SliderMathModel.java:91-106 | With factor 0 every one of n scales gets weight 1/n |
| MathModels.WeightsMonotone | src/gr/auth/ee/dsproject/crush/heuristics/SliderMathModel.java:91-106 | With a non-negative factor a higher scale never gets a smaller weight |
| Engines.Added | src/gr/auth/ee/dsproject/crush/heuristics/HeuristicsEngine.java:105-120 | Adding puts the heuristic at the end of its weight's list, creating the list when missing, and leaves every other weight's list unchanged |
| Engines.HeuristicsEngine.constructor | src/gr/auth/ee/dsproject/crush/heuristics/HeuristicsEngine.java:57-59 | No model and no heuristics |
| Engines.HeuristicsEngine.WithModel | src/gr/auth/ee/dsproject/crush/heuristics/HeuristicsEngine.java:61-64 | The model given and no heuristics |
| Engines.HeuristicsEngine.WithGroups | src/gr/auth/ee/dsproject/crush/heuristics/HeuristicsEngine.java:66-72 | The model and the heuristic groups given |
| Engines.HeuristicsEngine.SetModel | src/gr/auth/ee/dsproject/crush/heuristics/HeuristicsEngine.java:76-78 | The model becomes the one given; the groups are unchanged |
| Engines.HeuristicsEngine.SetWeightedHeuristics | src/gr/auth/ee/dsproject/crush/heuristics/HeuristicsEngine.java:80-82 | The groups become the ones given; the model is unchanged |
| Engines.HeuristicsEngine.Add | src/gr/auth/ee/dsproject/crush/heuristics/HeuristicsEngine.java:105-120 | The groups become `Added` of the old groups; the model is unchanged |
| Engines.HeuristicsEngine.Evaluate | src/gr/auth/ee/dsproject/crush/heuristics/HeuristicsEngine.java:140-165 | No model is NullModel, a weight outside the model is IllegalWeight, an empty group is EmptyGroup; otherwise the sum over groups of the group's mean score times its slider weight |
| Engines.WeightedSum | src/gr/auth/ee/dsproject/crush/heuristics/HeuristicsEngine.java:147-162 | The loop over the groups computes `Overall`, failing exactly when some group is empty |
| Engines.SumScores | src/gr/auth/ee/dsproject/crush/heuristics/HeuristicsEngine.java:150-154 | The inner loop sums the scores of the group's heuristics |
| Engines.OverallOfNoGroups | src/gr/auth/ee/dsproject/crush/heuristics/HeuristicsEngine.java:140-165 | An engine with no heuristics evaluates to 0 |
| Engines.AddedKeepsNonEmpty | src/gr/auth/ee/dsproject/crush/heuristics/HeuristicsEngine.java:105-120 | Adding never leaves an empty group and always creates the weight's group |
| Engines.MeanInRange | src/gr/auth/ee/dsproject/crush/heuristics/HeuristicsEngine.java:152-162 | The mean of scores in [0, range] lies in [0, range] |
| Engines.OverallInRange | src/gr/auth/ee/dsproject/crush/heuristics/HeuristicsEngine.java:140-165 | With normalised weights and every score in [0, range], the overall value lies in [0, range] |
| Engines.OverallOfEqualScores | src/gr/auth/ee/dsproject/crush/heuristics/HeuristicsEngine.java:140-165 | With normalised weights, heuristics that all score c give exactly c |
| Engines.SliderOverallInRange | src/gr/auth/ee/dsproject/crush/heuristics/HeuristicsEngine.java:140-165 | With the slider model's weights, scores in [0, range] give an overall value in [0, range] |
| Distances.HigherY | src/gr/auth/ee/dsproject/crush/player/DistanceFromTopHeuristic.java:110-112 | The greater of the two tiles' y coordinates |
| Distances.DistanceFromTopHeuristic.Evaluate | src/gr/auth/ee/dsproject/crush/player/DistanceFromTopHeuristic.java:107-116 | EmptyMove exactly for an unfilled move; otherwise score times playable rows equals 100 times (rows - 1 - higher y), within [0, 100) for a move on the board |
| Distances.SwapKeepsScore | src/gr/auth/ee/dsproject/crush/player/DistanceFromTopHeuristic.java:107-116 | The order of the two tiles does not change the score |
| Distances.ScoreNonIncreasing | src/gr/auth/ee/dsproject/crush/player/DistanceFromTopHeuristic.java:107-116 | A move whose higher tile is further up never scores more |
| Distances.ScoresOnTenRows | src/gr/auth/ee/dsproject/crush/player/DistanceFromTopHeuristic.java:107-116 | On ten playable rows the higher tile on rows 9, 6, 1 and 0 scores 0, 30, 80 and 90 |
| Candies.Gathered | src/gr/auth/ee/dsproject/crush/player/CandiesRemovedHeuristic.java:211-217 | The candidates include both swapped tiles |
| Candies.GatherCandidates | src/gr/auth/ee/dsproject/crush/player/CandiesRemovedHeuristic.java:211-217 | The loop over the two swapped tiles collects them and their same-colour neighbours up to two steps away |
| Candies.AfterMoveTiles | src/gr/auth/ee/dsproject/crush/player/CandiesRemovedHeuristic.java:206-209 | The tiles of the swapped board at the move's two coordinates, in order |
| Candies.Transferred | src/gr/auth/ee/dsproject/crush/player/CandiesRemovedHeuristic.java:232-243 | The swap of a removed tile for its partner keeps the set within the set plus the pair, keeps its size when the pair differs, and changes nothing when both or neither are removed |
| Candies.MatchOnBoard | src/gr/auth/ee/dsproject/crush/player/CandiesRemovedHeuristic.java:246-248 | The loop maps each tile to the real board's tile at its coordinates |
| Candies.InitialRemoved | src/gr/auth/ee/dsproject/crush/player/CandiesRemovedHeuristic.java:192-251 | Fails exactly when the move's direction array fails, with the same failure |
| Candies.InitialCandiesRemoved | src/gr/auth/ee/dsproject/crush/player/CandiesRemovedHeuristic.java:192-251 | Computes `InitialRemoved` |
| Candies.InitialRemovedOnBoard | src/gr/auth/ee/dsproject/crush/player/CandiesRemovedHeuristic.java:192-251 | The removed candies are tiles of the real board, as many as the crushing tiles found on the swapped copy |
| Candies.InitialAtMostEighteen | src/gr/auth/ee/dsproject/crush/player/CandiesRemovedHeuristic.java:211-251 | A move removes at most 18 candies directly (two tiles and eight neighbours each) |
| Candies.AdjacentAtMostEight | src/gr/auth/ee/dsproject/crush/player/CandiesRemovedHeuristic.java:213 | Searching at most two steps each way finds at most eight same-colour neighbours |
| Candies.CountChained | src/gr/auth/ee/dsproject/crush/player/CandiesRemovedHeuristic.java:269-284 | Zero exactly when the board has at most two n-ples; otherwise at least the n-ples of this round, which are at least three |
| Candies.ChainedWithinKnown | src/gr/auth/ee/dsproject/crush/player/CandiesRemovedHeuristic.java:254-284 | The chained count never exceeds the number of cells of known colour |
| Candies.Score | src/gr/auth/ee/dsproject/crush/player/CandiesRemovedHeuristic.java:141-179 | Fails exactly when the move's direction array fails, with the same failure |
| Candies.CountRemoved | src/gr/auth/ee/dsproject/crush/player/CandiesRemovedHeuristic.java:142-150 | The direct count plus the chained count after the first crush, or the move's failure |
| Candies.Evaluate | src/gr/auth/ee/dsproject/crush/player/CandiesRemovedHeuristic.java:141-179 | Computes `Score` |
| Candies.TieredScore | src/gr/auth/ee/dsproject/crush/player/CandiesRemovedHeuristic.java:153-178 | The four tier steps compute the tiered score of the count |
| Candies.FirstTier | src/gr/auth/ee/dsproject/crush/player/CandiesRemovedHeuristic.java:153-157 | Up to six candies score 4 points each |
| Candies.ScoresByTier | src/gr/auth/ee/dsproject/crush/player/CandiesRemovedHeuristic.java:153-178 | 0, 3, 7, 9, 12 and 24 candies score 0, 12, 26, 30, 36 and 50 |
| Candies.ScoreMonotone | src/gr/auth/ee/dsproject/crush/player/CandiesRemovedHeuristic.java:153-178 | Removing more candies never scores less |
| Candies.ScoreOfBounded | src/gr/auth/ee/dsproject/crush/player/CandiesRemovedHeuristic.java:153-178 | Fewer than area + 24 candies score in [0, 100) |
| Candies.ScoreInRange | src/gr/auth/ee/dsproject/crush/player/CandiesRemovedHeuristic.java:132-141 | The score of every well-formed move lies in [0, 100) |
| Games.MoveAt | src/gr/auth/ee/dsproject/crush/node84208535/Node.java:293-298 | The move of the board's tiles at four coordinates; its coordinate array gives the coordinates back |
| Nodes.HeuristicScore | src/gr/auth/ee/dsproject/crush/heuristics/Heuristic.java:41-50 | Each heuristic's score lies in [0, 100] and is the one its own `evaluate` gives |
| Nodes.NodeGroups | src/gr/auth/ee/dsproject/crush/node84208535/Node.java:380-385 | Candies removed at VERY_HIGH and distance from top at VERY_LOW, one heuristic each |
| Nodes.NodeValueInRange | src/gr/auth/ee/dsproject/crush/node84208535/Node.java:378-395 | A move's heuristic value lies in [0, 100] |
| Nodes.Successors | src/gr/auth/ee/dsproject/crush/node84208535/Node.java:289-304 | One child per available move |
| Nodes.SuccessorAt | src/gr/auth/ee/dsproject/crush/node84208535/Node.java:291-302 | Child i is the move of the tiles at the i-th available move's coordinates, with the board after that full move |
| Nodes.SuccessorsAreMoves | src/gr/auth/ee/dsproject/crush/node84208535/Node.java:289-304 | Every child's move is a legal swap whose coordinates are those of its available move, and its board has the parent's shape |
| Nodes.SearchMovesScorable | src/gr/auth/ee/dsproject/crush/node84208535/Node.java:380-385 | Both heuristics built for a child's move on the parent's board are scorable, so `HeuristicScore` gives their own `evaluate` for every move of the search |
| Nodes.SuccessorsShrink | src/gr/auth/ee/dsproject/crush/node84208535/Node.java:289-304 | Every child's board has fewer cells of known colour than its parent's |
| Nodes.Node.constructor | src/gr/auth/ee/dsproject/crush/node84208535/Node.java:107-111 | No parent, board or move, empty children, not evaluated, no extra turn |
| Nodes.Node.WithParent | src/gr/auth/ee/dsproject/crush/node84208535/Node.java:119-122 | As the default node, with the parent given |
| Nodes.Node.WithBoard | src/gr/auth/ee/dsproject/crush/node84208535/Node.java:132-136 | As the default node, with the parent and board given |
| Nodes.Node.WithMove | src/gr/auth/ee/dsproject/crush/node84208535/Node.java:150-155 | As the default node, with the parent, board and move given |
| Nodes.Node.SetParent | src/gr/auth/ee/dsproject/crush/node84208535/Node.java:215 | Sets the parent, nothing else |
| Nodes.Node.SetChildren | src/gr/auth/ee/dsproject/crush/node84208535/Node.java:223 | Sets the children, nothing else |
| Nodes.Node.SetNodeBoard | src/gr/auth/ee/dsproject/crush/node84208535/Node.java:231 | Sets the board, nothing else |
| Nodes.Node.SetNodeDepth | src/gr/auth/ee/dsproject/crush/node84208535/Node.java:239 | Sets the depth, nothing else |
| Nodes.Node.SetNodeMove | src/gr/auth/ee/dsproject/crush/node84208535/Node.java:246 | Sets the move, nothing else |
| Nodes.Node.SetNodeEvaluation | src/gr/auth/ee/dsproject/crush/node84208535/Node.java:254 | Sets the evaluation, nothing else |
| Nodes.Node.AddChild | src/gr/auth/ee/dsproject/crush/node84208535/Node.java:268-275 | A null child is NullNode and changes nothing; otherwise the child is appended, creating the list when it is null |
| Nodes.Node.CreateChildren | src/gr/auth/ee/dsproject/crush/node84208535/Node.java:289-304 | Appends one fresh node per successor, in order, each with this node as parent, the successor's move and board, and default fields |
| Nodes.Node.AddChildren | src/gr/auth/ee/dsproject/crush/node84208535/Node.java:291-303 | The loop appends one fresh child per element of the successor list |
| Nodes.Node.AddNewChild | src/gr/auth/ee/dsproject/crush/node84208535/Node.java:302 | Appends one fresh child with this parent, move and board |
| Nodes.Node.Evaluate | src/gr/auth/ee/dsproject/crush/node84208535/Node.java:321-343 | A root evaluates to 0; otherwise the heuristic value of the move on the parent's board, negated when asked, with the extra-turn flag of that move; the node is marked evaluated |
| Nodes.Node.LeadsToExtraTurn | src/gr/auth/ee/dsproject/crush/node84208535/Node.java:356-361 | NonEvaluatedNode exactly before evaluation; afterwards the extra-turn flag |
| Nodes.Node.DoHeuristicEvaluation | src/gr/auth/ee/dsproject/crush/node84208535/Node.java:378-395 | Returns the heuristic value of the move on the board and records whether it gives an extra turn |
| Nodes.EvaluateMove | src/gr/auth/ee/dsproject/crush/node84208535/Node.java:380-387 | The engine built for the move evaluates to `NodeValue` |
| Nodes.NodeEngine | src/gr/auth/ee/dsproject/crush/node84208535/Node.java:380-385 | A new engine with a slider model of factor 1.7 and the two heuristic groups |
| Nodes.EvaluationBounds | src/gr/auth/ee/dsproject/crush/node84208535/Node.java:321-343 | A node's own evaluation lies in [0, 100], or in [-100, 0] when negated |
| Minimax.Next | src/gr/auth/ee/dsproject/crush/node84208535/Player84208535.java:170-171 | The depth is kept exactly when the move gave an extra turn, and otherwise lowered by one |
| Minimax.MaxLoopCut | src/gr/auth/ee/dsproject/crush/node84208535/Player84208535.java:196-205 | The maximising loop stops early only at a child that reaches max, and then returns that child's value |
| Minimax.MaxLoopFull | src/gr/auth/ee/dsproject/crush/node84208535/Player84208535.java:196-205 | Without a cut the loop visits every child and returns the greatest of its start and the children's values |
| Minimax.MinLoopCut | src/gr/auth/ee/dsproject/crush/node84208535/Player84208535.java:217-226 | The minimising loop stops early only at a child that reaches min, and then returns that child's value |
| Minimax.MinLoopFull | src/gr/auth/ee/dsproject/crush/node84208535/Player84208535.java:217-226 | Without a cut the loop visits every child and returns the least of its start and the children's values |
| Minimax.MaxLoopStep | src/gr/auth/ee/dsproject/crush/node84208535/Player84208535.java:196-205 | One turn of the maximising loop: stop at a cut, or go on with the new maximum |
| Minimax.MinLoopStep | src/gr/auth/ee/dsproject/crush/node84208535/Player84208535.java:217-226 | One turn of the minimising loop: stop at a cut, or go on with the new minimum |
| Minimax.SearchMax | src/gr/auth/ee/dsproject/crush/node84208535/Player84208535.java:188-207 | A maximising node with children is worth its own value plus the result of the maximising loop |
| Minimax.SearchMin | src/gr/auth/ee/dsproject/crush/node84208535/Player84208535.java:209-228 | A minimising node with children is worth its own value plus the result of the minimising loop |
| Minimax.LeafValues | src/gr/auth/ee/dsproject/crush/node84208535/Player84208535.java:174-185 | A node without moves adds the fixed evaluation of the remaining depth when maximising, and subtracts it when minimising |
| Minimax.RootIsBestChild | src/gr/auth/ee/dsproject/crush/node84208535/Player84208535.java:188-207 | Without cut-offs the root's value is at least every child's and is one of them, or -Double.MAX_VALUE |
| Minimax.EvaluateNode | src/gr/auth/ee/dsproject/crush/node84208535/Player84208535.java:160 | The node holds its own heuristic value for the side to move, and the extra-turn flag of its move |
| Minimax.CreateMinimaxTree | src/gr/auth/ee/dsproject/crush/node84208535/Player84208535.java:149-241 | Returns and stores `Search`'s value; drops the board, and drops the children of a node whose depth after the extra-turn rule is below MINIMAX_DEPTH - 1, as the source does; the kept children hold `Search`'s child evaluations |
| Minimax.SearchBelow | src/gr/auth/ee/dsproject/crush/node84208535/Player84208535.java:165-230 | Builds the children, applies the extra-turn rule and the leaf rule, and leaves `Search`'s value in the node |
| Minimax.ExploreChildren | src/gr/auth/ee/dsproject/crush/node84208535/Player84208535.java:188-229 | The node's value becomes `Search`'s and every child explored holds its evaluation |
| Minimax.SearchMaxChildren | src/gr/auth/ee/dsproject/crush/node84208535/Player84208535.java:188-207 | The maximising branch leaves `Search`'s value in the node |
| Minimax.SearchMinChildren | src/gr/auth/ee/dsproject/crush/node84208535/Player84208535.java:209-228 | The minimising branch leaves `Search`'s value in the node |
| Minimax.ExploreMax | src/gr/auth/ee/dsproject/crush/node84208535/Player84208535.java:189-207 | The node's value grows by the result of the maximising loop over the children |
| Minimax.ExploreMin | src/gr/auth/ee/dsproject/crush/node84208535/Player84208535.java:210-228 | The node's value grows by the result of the minimising loop over the children |
| Minimax.MaxChildren | src/gr/auth/ee/dsproject/crush/node84208535/Player84208535.java:196-205 | The loop over the children computes `MaxLoop`, with a cut-off at max |
| Minimax.MinChildren | src/gr/auth/ee/dsproject/crush/node84208535/Player84208535.java:217-226 | The loop over the children computes `MinLoop`, with a cut-off at min |
| Minimax.MaxTurn | src/gr/auth/ee/dsproject/crush/node84208535/Player84208535.java:197-204 | One child searched with (cMax, max); a cut exactly when the node's value plus the child's reaches max |
| Minimax.MinTurn | src/gr/auth/ee/dsproject/crush/node84208535/Player84208535.java:218-225 | One child searched with (cMin, max); a cut exactly when the node's value plus the child's reaches min |
| Minimax.SearchChild | src/gr/auth/ee/dsproject/crush/node84208535/Player84208535.java:197 | The recursive call on a child returns `Search`'s value for that child's move and board |
| Minimax.FindBestMove | src/gr/auth/ee/dsproject/crush/node84208535/Player84208535.java:251-266 | None exactly when no child is evaluated above -Double.MAX_VALUE; otherwise the move of the first child with the greatest evaluation |
| Minimax.SearchRoot | src/gr/auth/ee/dsproject/crush/node84208535/Player84208535.java:105-108 | A root with the board's copy, searched to MINIMAX_DEPTH, keeps one child per move in order, holding `Search`'s child evaluations |
| Minimax.PickMove | src/gr/auth/ee/dsproject/crush/node84208535/Player84208535.java:111 | The coordinates of the best child's move, or NoBestMove when there is none |
| Minimax.NextMove | src/gr/auth/ee/dsproject/crush/node84208535/Player84208535.java:101-112 | The move chosen is the first best child of the depth-3 search on the board's copy, as the coordinates of a legal swap on that board, or NoBestMove when no child beats -Double.MAX_VALUE |
| Player84208535Players.DoFixedEvaluation | src/gr/auth/ee/dsproject/crush/node84208535/Player84208535.java:280-283 | 4.0 exactly for a remaining depth of at most 1, else 3.0 |
| Player84208535Players.GetNextMove | src/gr/auth/ee/dsproject/crush/node84208535/Player84208535.java:101-112 | The first best child of the search with this player's fixed evaluation |
| Player84208535Players.ChildlessBonus | src/gr/auth/ee/dsproject/crush/node84208535/Player84208535.java:174-185 | A position without moves is worth strictly more than its own value to the maximiser and strictly less to the minimiser |
| HeuristicPlayers.DoFixedEvaluation | src/gr/auth/ee/dsproject/crush/player/HeuristicPlayer.java:289-292 | Always 0.0 |
| HeuristicPlayers.GetNextMove | src/gr/auth/ee/dsproject/crush/player/HeuristicPlayer.java:102-121 | The first best child of the search with this player's fixed evaluation |
| HeuristicPlayers.ChildlessKeepsOwn | src/gr/auth/ee/dsproject/crush/player/HeuristicPlayer.java:183-194 | A position without moves is worth exactly its own value |

## Left out

- **Floating point.** Every `double` is a real number, so rounding, NaN and
  infinity are not modelled. `Double.MAX_VALUE` is its exact value.
- **`CrushUtilities`.** Its board operations are not part of this model:
  - `boardAfterFirstMove`, `boardAfterFirstCrush`, `boardAfterFullMove` and
    `boardAfterDeletingNples`;
  - `getAvailableMoves`, `calculateNextMove` and `cloneBoard`;
  - the `Board` class and its `giveTileAt`.

  They are fields of `Games.Game`, constrained only by `Game.Valid`. This
  assumes three things:
  - they keep the board's dimensions;
  - deleting three or more n-ples, or playing an available move, lowers the
    number of cells of known colour;
  - an available move swaps two playable tiles on one row or column.

  The first assumption of the second bullet bounds the chain count. The
  second gives the minimax recursion its termination measure: the known-cell
  count of the node's board. The source relies on the game engine for both.
- **`Math.exp`** is a parameter function, assumed positive and monotone.
- **`causedAnExtraTurn`.** `Node.doHeuristicEvaluation` calls it, but the
  `CandiesRemovedHeuristic` class here does not define it. It is a field of
  `Games.Game`, so the extra-turn flag is not modelled.
- **`HeuristicPlayer` imports a `Node` class from another package.** That
  class is not part of this model. Both players are modelled on the `Node`
  of `node84208535`: the shared `Minimax` members, and each player's own
  `DoFixedEvaluation`.
- **`HeuristicPlayer.getNextMove` (lines 104 and 115-117)** measures
  wall-clock time and prints it. This is left out.
- **`Minimax.NextMove`.**
  - When no child beats -Double.MAX_VALUE, `findBestMove` returns null and
    `toCordsArray` throws a NullPointerException. The model returns
    `Err(NoBestMove)` instead.
  - The `availableMoves` argument of `getNextMove` is unused by the source,
    and is unused here too.
- **Player bookkeeping.** Player names, ids and scores, with their getters
  and setters, are left out. So are the getters of `Node`,
  `HeuristicsEngine`, `SliderMathModel` and the two heuristics, and those
  heuristics' setters. They only read or write a field.
- **Iteration order.** `HashMap` and `HashSet` iteration order is not
  modelled. Sets and maps are unordered. The minimax children follow the
  order of `getAvailableMoves`.
- **The inner array of `findTilesThatCrush`.** Its colour, axis and
  coordinate nesting is one map keyed by (colour, axis, coordinate).
- **Heuristics as values.** The two heuristics are values; their setters
  are left out. The `Heuristic` base class keeps only its range, and there
  is no inheritance.
- **The engine is generic over the heuristic type.** It takes the scoring
  function as a parameter.
- **Engines.HeuristicsEngine.Evaluate.** An empty heuristic group, reachable
  only through `setWeightedHeuristics`, makes the source divide 0 by 0, which
  gives NaN. The model returns `Err(EmptyGroup)` instead. A null model would
  throw a NullPointerException; the model returns `Err(NullModel)`.
- **Distances.DistanceFromTopHeuristic.Evaluate** requires a board with at
  least one playable row. On zero rows the source divides by zero.
- **Candies.Evaluate.** `Candies.Evaluate`, `Candies.InitialCandiesRemoved`
  and `Candies.CountRemoved` require the move's cells to lie on the board.
  The source would index outside the board's arrays and throw.
- **Nodes.HeuristicScore** scores a move the heuristic cannot evaluate as 0.
  `Nodes.SearchMovesScorable` proves this cannot happen for a move of the
  search, whose moves `Game.Valid` makes legal.
- **BoardUtils.IsValidGameCords** fixes the game's board size at 10 columns
  and 10 playable rows. `CrushUtilities.NUMBER_OF_COLUMNS` and
  `NUMBER_OF_PLAYABLE_ROWS` are not part of this model, so their values are
  a choice of the model.
- **Engines.HeuristicsEngine.WithGroups** and
  **Engines.HeuristicsEngine.SetWeightedHeuristics** keep a copy of the
  caller's map. In the source the engine shares the caller's `HashMap`, so a
  later `add` also changes the caller's map. Nothing in the move chooser
  depends on that sharing.
- **The search functions are ghost.** `Minimax.Search` and the heuristic
  value `Nodes.NodeValue` are ghost functions. The methods take the value
  function as a ghost parameter tied to `NodeValue`.
- **Minimax.CreateMinimaxTree** is proved for a node whose children list is
  fresh and empty, as every node built by `createChildren` and the root
  are.
- **Dead code.** The commented-out code in `BoardUtils`,
  `CandiesRemovedHeuristic` and `HeuristicPlayer` is left out. So are the
  test classes.
