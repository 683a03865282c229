/** A node of the search tree: the board a move leads to, the move, and
    the evaluation of that move. */
module Nodes {
  import opened Wrappers
  import opened Boards
  import opened Moves
  import opened MathModels
  import opened Engines
  import opened Heuristics
  import opened Games
  import opened Candies
  import opened Distances

  // ---------------------------------------------------------------------
  // The heuristic evaluation of a move
  // ---------------------------------------------------------------------

  /** The two heuristics a node combines. */
  datatype NodeHeuristic =
    | CandiesOf(candies: CandiesRemovedHeuristic)
    | DistanceOf(distance: DistanceFromTopHeuristic)

  /** The factor of the node's slider model. */
  const NODE_FACTOR: real := 1.7

  /** A move is scored only when it is well formed; a move of the search
      always is (`Game.Valid`), and the guards make the score defined on
      every heuristic the engine may hold. */
  predicate Scorable(h: NodeHeuristic) {
    match h
    case CandiesOf(c) => Playable(c) && c.move.ToDirArray().Ok?
    case DistanceOf(d) => d.board.pRows > 0 && d.move.Filled() && 0 <= HigherY(d.move) < d.board.pRows
  }

  /** `evaluate` of either heuristic, which the `Heuristic` base requires to
      lie in `[0, range]`, here `[0, 100]`. */
  function HeuristicScore(g: Game, h: NodeHeuristic): (r: real)
    requires g.Valid()
    ensures InRange(r, 100.0)
    ensures Scorable(h) && h.CandiesOf? ==> Score(g, h.candies) == Ok(r)
    ensures Scorable(h) && h.DistanceOf? ==> h.distance.Evaluate() == Ok(r)
  {
    match h
    case CandiesOf(c) =>
      if Scorable(h) then
        ScoreInRange(g, c);
        Score(g, c).value
      else 0.0
    case DistanceOf(d) =>
      if Scorable(h) then d.Evaluate().value else 0.0
  }

  /** The score the node's engine applies to its heuristics. */
  function Scorer(g: Game): NodeHeuristic --> real {
    h requires g.Valid() => HeuristicScore(g, h)
  }

  /** The heuristics of `doHeuristicEvaluation`, by scale: candies removed
      at VERY_HIGH, distance from top at VERY_LOW. */
  function NodeGroups(board: Board, move: Move): (groups: map<int, seq<NodeHeuristic>>)
    ensures groups.Keys == {VERY_HIGH, VERY_LOW}
    ensures NonEmptyGroups(groups)
  {
    map[VERY_HIGH := [CandiesOf(CandiesRemovedHeuristic(move, board))],
        VERY_LOW := [DistanceOf(DistanceFromTopHeuristic(move, board))]]
  }

  /** What `doHeuristicEvaluation(board, move)` returns. */
  ghost function NodeValue(g: Game, board: Board, move: Move): real
    requires g.Valid()
  {
    var groups := NodeGroups(board, move);
    Overall(groups, Weights(groups.Keys, NODE_FACTOR, g.exp), Scorer(g))
  }

  /** `value` gives the heuristic value of `doHeuristicEvaluation` for
      every board and move. */
  ghost predicate ValueOf(g: Game, value: (Board, Move) -> real)
    requires g.Valid()
  {
    forall b: Board, m: Move {:trigger NodeValue(g, b, m)} :: value(b, m) == NodeValue(g, b, m)
  }

  /** The heuristic value of every board and move, as one function. */
  ghost function Values(g: Game): (value: (Board, Move) -> real)
    requires g.Valid()
    ensures ValueOf(g, value)
  {
    (b: Board, m: Move) => NodeValue(g, b, m)
  }

  /** A move's heuristic value lies in `[0, 100]`. */
  lemma NodeValueInRange(g: Game, board: Board, move: Move)
    requires g.Valid()
    ensures InRange(NodeValue(g, board, move), 100.0)
  {
    var groups := NodeGroups(board, move);
    assert forall k, i | k in groups && 0 <= i < |groups[k]| :: InRange(Scorer(g)(groups[k][i]), 100.0);
    SliderOverallInRange(groups, NODE_FACTOR, g.exp, Scorer(g), 100.0);
  }

  // ---------------------------------------------------------------------
  // The children of a board
  // ---------------------------------------------------------------------

  /** A child of a node: the move and the board after it. */
  datatype Child = Child(move: Move, board: Board)

  /** What `createChildren` builds, in the order of `getAvailableMoves`:
      each available move, as the tiles at its coordinates, with the board
      after the full move. */
  function Successors(g: Game, b: Board): (kids: seq<Child>)
    requires g.Valid() && b.Valid()
    ensures |kids| == |g.availableMoves(b)|
  {
    var moves := g.availableMoves(b);
    seq(|moves|, i requires 0 <= i < |moves| =>
      Child(MoveAt(b, g.nextMove(moves[i])), g.afterFullMove(b, moves[i])))
  }

  /** Every child's board is a board with fewer cells of known colour, so
      a search over successors ends. */
  lemma SuccessorsShrink(g: Game, b: Board)
    requires g.Valid() && b.Valid()
    ensures var kids := Successors(g, b);
            forall i | 0 <= i < |kids| :: kids[i].board.Valid() && kids[i].board.KnownCount() < b.KnownCount()
  {
    var kids := Successors(g, b);
    forall i | 0 <= i < |kids|
      ensures kids[i].board.Valid() && kids[i].board.KnownCount() < b.KnownCount()
    {
      assert g.availableMoves(b)[i] in g.availableMoves(b);
    }
  }

  /** Every child is a legal move of two tiles of the board, at the
      coordinates `calculateNextMove` gives, with a board of the same
      dimensions after it. */
  lemma SuccessorsAreMoves(g: Game, b: Board)
    requires g.Valid() && b.Valid()
    ensures var kids := Successors(g, b);
            forall i | 0 <= i < |kids| ::
              && Legal(b, kids[i].move)
              && kids[i].move.ToCordsArray() == Ok(g.nextMove(g.availableMoves(b)[i]))
              && SameShape(b, kids[i].board)
  {
    var kids := Successors(g, b);
    forall i | 0 <= i < |kids|
      ensures Legal(b, kids[i].move)
    {
      assert g.availableMoves(b)[i] in g.availableMoves(b);
    }
  }

  /** Every move of the search is scored by both heuristics on the board it
      is played on, so the 0 fallback of `HeuristicScore` never applies to
      it. */
  lemma SearchMovesScorable(g: Game, b: Board, i: int)
    requires g.Valid() && b.Valid() && 0 <= i < |Successors(g, b)|
    ensures var m := Successors(g, b)[i].move;
            && Scorable(CandiesOf(CandiesRemovedHeuristic(m, b)))
            && Scorable(DistanceOf(DistanceFromTopHeuristic(m, b)))
  {
    SuccessorsAreMoves(g, b);
  }

  /** The `i`-th successor is the `i`-th available move, as tiles, with
      the board after it. */
  lemma SuccessorAt(g: Game, b: Board, i: int)
    requires g.Valid() && b.Valid() && 0 <= i < |g.availableMoves(b)|
    ensures CordsOn(b, g.nextMove(g.availableMoves(b)[i]))
    ensures Successors(g, b)[i]
            == Child(MoveAt(b, g.nextMove(g.availableMoves(b)[i])), g.afterFullMove(b, g.availableMoves(b)[i]))
  {
    assert g.availableMoves(b)[i] in g.availableMoves(b);
  }

  /** A child as `createChildren` leaves it: its parent, the move and the
      board after it, no children, not yet evaluated. */
  predicate Unexplored(kid: Node, p: Node, c: Child)
    reads kid
  {
    && kid.parent == p && kid.nodeMove == Some(c.move) && kid.nodeBoard == Some(c.board)
    && kid.children == Some([]) && kid.nodeEvaluation == 0.0
    && !kid.extraTurn && !kid.hasEvaluated
  }

  /** `added` are distinct nodes, the unexplored children of `p` for the
      successors `s`, in order. */
  predicate NewChildren(p: Node, added: seq<Node>, s: seq<Child>)
    reads added
  {
    && |added| == |s|
    && (forall i | 0 <= i < |added| :: Unexplored(added[i], p, s[i]))
    && Distinct(added)
  }

  /** No node occurs twice. */
  predicate Distinct(nodes: seq<Node>) {
    forall i, j | 0 <= i < j < |nodes| :: nodes[i] != nodes[j]
  }

  lemma NewChildrenSnoc(p: Node, added: seq<Node>, s: seq<Child>, kid: Node, c: Child)
    requires NewChildren(p, added, s) && kid !in added && Unexplored(kid, p, c)
    ensures NewChildren(p, added + [kid], s + [c])
  {
  }

  class Node {
    var parent: Node?
    /** None once the search has released the children. */
    var children: Option<seq<Node>>
    var nodeDepth: int
    var nodeMove: Option<Move>
    /** None once the search has released the board. */
    var nodeBoard: Option<Board>
    var nodeEvaluation: real
    var extraTurn: bool
    var hasEvaluated: bool

    /** A node with no parent, board or move: no children, not evaluated. */
    constructor ()
      ensures parent == null && children == Some([]) && nodeDepth == 0
      ensures nodeMove == None && nodeBoard == None && nodeEvaluation == 0.0
      ensures !extraTurn && !hasEvaluated
    {
      parent := null;
      children := Some([]);
      nodeDepth := 0;
      nodeMove := None;
      nodeBoard := None;
      nodeEvaluation := 0.0;
      extraTurn := false;
      hasEvaluated := false;
    }

    constructor WithParent(parent: Node?)
      ensures this.parent == parent && children == Some([]) && nodeDepth == 0
      ensures nodeMove == None && nodeBoard == None && nodeEvaluation == 0.0
      ensures !extraTurn && !hasEvaluated
    {
      this.parent := parent;
      children := Some([]);
      nodeDepth := 0;
      nodeMove := None;
      nodeBoard := None;
      nodeEvaluation := 0.0;
      extraTurn := false;
      hasEvaluated := false;
    }

    constructor WithBoard(parent: Node?, board: Option<Board>)
      ensures this.parent == parent && children == Some([]) && nodeDepth == 0
      ensures nodeMove == None && nodeBoard == board && nodeEvaluation == 0.0
      ensures !extraTurn && !hasEvaluated
    {
      this.parent := parent;
      children := Some([]);
      nodeDepth := 0;
      nodeMove := None;
      nodeBoard := board;
      nodeEvaluation := 0.0;
      extraTurn := false;
      hasEvaluated := false;
    }

    constructor WithMove(parent: Node?, board: Option<Board>, move: Option<Move>)
      ensures this.parent == parent && children == Some([]) && nodeDepth == 0
      ensures nodeMove == move && nodeBoard == board && nodeEvaluation == 0.0
      ensures !extraTurn && !hasEvaluated
    {
      this.parent := parent;
      children := Some([]);
      nodeDepth := 0;
      nodeMove := move;
      nodeBoard := board;
      nodeEvaluation := 0.0;
      extraTurn := false;
      hasEvaluated := false;
    }

    method SetParent(p: Node?)
      modifies this
      ensures parent == p
      ensures children == old(children) && nodeDepth == old(nodeDepth) && nodeMove == old(nodeMove)
      ensures nodeBoard == old(nodeBoard) && nodeEvaluation == old(nodeEvaluation)
      ensures extraTurn == old(extraTurn) && hasEvaluated == old(hasEvaluated)
    {
      parent := p;
    }

    method SetChildren(c: Option<seq<Node>>)
      modifies this
      ensures children == c
      ensures parent == old(parent) && nodeDepth == old(nodeDepth) && nodeMove == old(nodeMove)
      ensures nodeBoard == old(nodeBoard) && nodeEvaluation == old(nodeEvaluation)
      ensures extraTurn == old(extraTurn) && hasEvaluated == old(hasEvaluated)
    {
      children := c;
    }

    method SetNodeBoard(b: Option<Board>)
      modifies this
      ensures nodeBoard == b
      ensures parent == old(parent) && children == old(children) && nodeDepth == old(nodeDepth)
      ensures nodeMove == old(nodeMove) && nodeEvaluation == old(nodeEvaluation)
      ensures extraTurn == old(extraTurn) && hasEvaluated == old(hasEvaluated)
    {
      nodeBoard := b;
    }

    method SetNodeDepth(d: int)
      modifies this
      ensures nodeDepth == d
      ensures parent == old(parent) && children == old(children) && nodeMove == old(nodeMove)
      ensures nodeBoard == old(nodeBoard) && nodeEvaluation == old(nodeEvaluation)
      ensures extraTurn == old(extraTurn) && hasEvaluated == old(hasEvaluated)
    {
      nodeDepth := d;
    }

    method SetNodeMove(m: Option<Move>)
      modifies this
      ensures nodeMove == m
      ensures parent == old(parent) && children == old(children) && nodeDepth == old(nodeDepth)
      ensures nodeBoard == old(nodeBoard) && nodeEvaluation == old(nodeEvaluation)
      ensures extraTurn == old(extraTurn) && hasEvaluated == old(hasEvaluated)
    {
      nodeMove := m;
    }

    method SetNodeEvaluation(e: real)
      modifies this`nodeEvaluation
      ensures nodeEvaluation == e
    {
      nodeEvaluation := e;
    }

    /** `addChild`: a null child is NullNode; otherwise it goes at the end
      of the children, a released list being started afresh. */
    method AddChild(child: Node?) returns (r: Option<Failure>)
      modifies this
      ensures child == null ==> r == Some(NullNode) && children == old(children)
      ensures child != null ==> r.None? && children.Some?
      ensures child != null && old(children).Some? ==> children.value == old(children).value + [child]
      ensures child != null && old(children).None? ==> children.value == [child]
      ensures parent == old(parent) && nodeDepth == old(nodeDepth) && nodeMove == old(nodeMove)
      ensures nodeBoard == old(nodeBoard) && nodeEvaluation == old(nodeEvaluation)
      ensures extraTurn == old(extraTurn) && hasEvaluated == old(hasEvaluated)
    {
      if child == null {
        return Some(NullNode);
      }
      if children.None? {
        children := Some([]);
      }
      children := Some(children.value + [child]);
      return None;
    }

    /** `createChildren`: one new child per available move on the node's
      board, appended in the order the moves are listed. */
    method CreateChildren(g: Game) returns (ghost added: seq<Node>)
      requires g.Valid() && nodeBoard.Some? && nodeBoard.value.Valid() && children.Some?
      modifies this
      ensures parent == old(parent) && nodeDepth == old(nodeDepth) && nodeMove == old(nodeMove)
      ensures nodeBoard == old(nodeBoard) && nodeEvaluation == old(nodeEvaluation)
      ensures extraTurn == old(extraTurn) && hasEvaluated == old(hasEvaluated)
      ensures children.Some?
      ensures children.value == old(children).value + added
      ensures forall i | 0 <= i < |added| :: fresh(added[i])
      ensures NewChildren(this, added, Successors(g, nodeBoard.value))
    {
      var successors := Successors(g, nodeBoard.value);
      added := AddChildren(successors);
    }

    /** The loop of `createChildren` over the moves, each with its tiles and
      the board after it: a new node per move, appended in order. */
    method AddChildren(s: seq<Child>) returns (ghost added: seq<Node>)
      requires children.Some?
      modifies this
      ensures parent == old(parent) && nodeDepth == old(nodeDepth) && nodeMove == old(nodeMove)
      ensures nodeBoard == old(nodeBoard) && nodeEvaluation == old(nodeEvaluation)
      ensures extraTurn == old(extraTurn) && hasEvaluated == old(hasEvaluated)
      ensures children.Some?
      ensures children.value == old(children).value + added
      ensures forall i | 0 <= i < |added| :: fresh(added[i])
      ensures NewChildren(this, added, s)
    {
      ghost var before := children.value;
      added := [];
      for i := 0 to |s|
        invariant children.Some? && children.value == before + added
        invariant forall j | 0 <= j < |added| :: fresh(added[j])
        invariant NewChildren(this, added, s[..i])
        invariant parent == old(parent) && nodeDepth == old(nodeDepth) && nodeMove == old(nodeMove)
        invariant nodeBoard == old(nodeBoard) && nodeEvaluation == old(nodeEvaluation)
        invariant extraTurn == old(extraTurn) && hasEvaluated == old(hasEvaluated)
      {
        var child := AddNewChild(s[i].move, s[i].board, added, s[..i]);
        assert s[..i + 1] == s[..i] + [s[i]];
        added := added + [child];
      }
      assert s[..|s|] == s;
    }

    /** One step of `createChildren`: a new node for `move` and the board
      after it, added as the last child. */
    method AddNewChild(move: Move, after: Board, ghost added: seq<Node>, ghost s: seq<Child>)
        returns (child: Node)
      requires children.Some? && this !in added && NewChildren(this, added, s)
      modifies this
      ensures fresh(child) && NewChildren(this, added + [child], s + [Child(move, after)])
      ensures children == Some(old(children).value + [child])
      ensures parent == old(parent) && nodeDepth == old(nodeDepth) && nodeMove == old(nodeMove)
      ensures nodeBoard == old(nodeBoard) && nodeEvaluation == old(nodeEvaluation)
      ensures extraTurn == old(extraTurn) && hasEvaluated == old(hasEvaluated)
    {
      child := new Node.WithMove(this, Some(after), Some(move));
      var _ := AddChild(child);
      NewChildrenSnoc(this, added, s, child, Child(move, after));
    }

    /** `evaluate(negative)`: a node without a parent scores 0; otherwise
      the heuristic value of its move on the parent's board, negated when
      `negative`, which also refreshes the extra-turn flag. */
    method Evaluate(g: Game, ghost value: (Board, Move) -> real, negative: bool) returns (e: real)
      requires g.Valid() && ValueOf(g, value)
      requires parent != null ==> parent.nodeBoard.Some? && nodeMove.Some?
      modifies this`nodeEvaluation, this`hasEvaluated, this`extraTurn
      ensures hasEvaluated && e == nodeEvaluation
      ensures old(parent) == null ==> nodeEvaluation == 0.0 && extraTurn == old(extraTurn)
      ensures old(parent) != null ==>
                var v := value(old(parent.nodeBoard.value), old(nodeMove.value));
                && nodeEvaluation == (if negative then -v else v)
                && extraTurn == g.causedExtraTurn(old(parent.nodeBoard.value), old(nodeMove.value))
    {
      if parent == null {
        nodeEvaluation := 0.0;
      } else {
        var board, move := parent.nodeBoard.value, nodeMove.value;
        var v := DoHeuristicEvaluation(g, value, board, move);
        nodeEvaluation := if negative then -v else v;
      }
      hasEvaluated := true;
      return nodeEvaluation;
    }

    /** `leadsToExtraTurn`: NonEvaluatedNode before the first `evaluate`. */
    method LeadsToExtraTurn() returns (r: Result<bool>)
      ensures !hasEvaluated <==> r == Err(NonEvaluatedNode)
      ensures hasEvaluated ==> r == Ok(extraTurn)
    {
      if !hasEvaluated {
        return Err(NonEvaluatedNode);
      }
      return Ok(extraTurn);
    }

    /** `doHeuristicEvaluation`: an engine over a slider model of factor
      1.7, holding the candies-removed heuristic at VERY_HIGH and the
      distance-from-top heuristic at VERY_LOW. */
    method DoHeuristicEvaluation(g: Game, ghost value: (Board, Move) -> real, board: Board, move: Move)
        returns (score: real)
      requires g.Valid() && ValueOf(g, value)
      modifies this`extraTurn
      ensures score == value(board, move)
      ensures extraTurn == g.causedExtraTurn(board, move)
    {
      score := EvaluateMove(g, board, move);
      extraTurn := g.causedExtraTurn(board, move);
    }
  }

  /** The engine of `doHeuristicEvaluation` run on `board` and `move`:
      it always succeeds, with the heuristic value of the move. */
  method EvaluateMove(g: Game, board: Board, move: Move) returns (score: real)
    requires g.Valid()
    ensures score == NodeValue(g, board, move)
  {
    var engine := NodeEngine(board, move);
    var r := engine.Evaluate(Scorer(g), g.exp);
    score := r.value;
  }

  /** The engine `doHeuristicEvaluation` builds: a slider model of factor
      1.7, the candies-removed heuristic at VERY_HIGH and the
      distance-from-top heuristic at VERY_LOW. */
  method NodeEngine(board: Board, move: Move) returns (engine: HeuristicsEngine<NodeHeuristic>)
    ensures fresh(engine) && engine.model != null && fresh(engine.model)
    ensures engine.model.factor == NODE_FACTOR && engine.weightedHeuristics == NodeGroups(board, move)
  {
    var model := new SliderMathModel.WithFactor(NODE_FACTOR);
    engine := new HeuristicsEngine<NodeHeuristic>.WithModel(model);
    engine.Add(CandiesOf(CandiesRemovedHeuristic(move, board)), VERY_HIGH);
    engine.Add(DistanceOf(DistanceFromTopHeuristic(move, board)), VERY_LOW);
    assert engine.weightedHeuristics == NodeGroups(board, move);
  }

  /** A node's own value after `evaluate(negative)` is a heuristic value
      in `[0, 100]`, negated when `negative`. */
  lemma EvaluationBounds(g: Game, board: Board, move: Move, negative: bool)
    requires g.Valid()
    ensures var v := NodeValue(g, board, move);
            var e := if negative then -v else v;
            negative ==> -100.0 <= e <= 0.0
    ensures var v := NodeValue(g, board, move);
            var e := if negative then -v else v;
            !negative ==> 0.0 <= e <= 100.0
  {
    NodeValueInRange(g, board, move);
  }
}
