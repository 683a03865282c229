/** The depth-limited minimax with cut-offs that both players run over
    the nodes of `Nodes`, and the choice of the best first move.

    `Search` is the value `createMinimaxTree` computes, written as a
    function of the game, the move that led to the node (`from`, None for
    the root) and the node's board; `MaxLoop` and `MinLoop` are its two
    loops over the children. The methods build the tree of `Node`s and are
    proved to return `Search`'s value and to leave the children's
    evaluations `FindBestMove` reads. */
module Minimax {
  import opened Wrappers
  import opened Boards
  import opened Moves
  import opened Games
  import opened Nodes

  /** `Double.MAX_VALUE`. */
  const DOUBLE_MAX: real := 179769313486231570814527423731704356798070567525844996598917476803157260780028538760589558632766878171540458953514382464234321326889464182768467546703537516986049910576551282076245490090389328944075868508455133942304583236903222948165808559332123348274797826204144723168738177180919299881250404026184124858368.0

  /** The depth of the search of both players. */
  const MINIMAX_DEPTH: int := 3

  function Max(a: real, b: real): (m: real)
    ensures m >= a && m >= b && (m == a || m == b)
  {
    if a >= b then a else b
  }

  function Min(a: real, b: real): (m: real)
    ensures m <= a && m <= b && (m == a || m == b)
  {
    if a <= b then a else b
  }

  /** The value of a subtree, and the evaluations its node's children are
      left with (an unexplored child keeps 0). */
  datatype Outcome = Outcome(value: real, evals: seq<real>)

  function Last(s: seq<real>): real
    requires |s| > 0
  {
    s[|s| - 1]
  }

  /** Child evaluations: the explored ones, then 0 for the rest. */
  function Pad(evals: seq<real>, n: int): (p: seq<real>)
    requires |evals| <= n
    ensures |p| == n && p[..|evals|] == evals
    ensures forall j | |evals| <= j < n :: p[j] == 0.0
  {
    evals + seq(n - |evals|, _ => 0.0)
  }

  /** A node's own evaluation, `evaluate(maximizing)`: 0 at the root,
      otherwise the heuristic value of the move that led to it, negated on
      the maximizing player's turn (the move was the opponent's). */
  function Own(value: (Board, Move) -> real, from: Option<(Board, Move)>, maximizing: bool): real {
    match from
    case None => 0.0
    case Some((board, move)) =>
      var v := value(board, move);
      if maximizing then -v else v
  }

  /** Whether the move that led to the node grants an extra turn; never at
      the root. */
  function ExtraOf(g: Game, from: Option<(Board, Move)>): bool {
    from.Some? && g.causedExtraTurn(from.value.0, from.value.1)
  }

  /** The depth the children are searched to: an extra turn adds a level. */
  function Next(g: Game, from: Option<(Board, Move)>, depth: int): (d: int)
    ensures d == depth || d == depth - 1
    ensures d == depth <==> ExtraOf(g, from)
  {
    if ExtraOf(g, from) then depth else depth - 1
  }

  /** What `createMinimaxTree(n, depth, min, max, maximizing)` returns for
      a node reached by `from` holding board `b`, and the evaluations its
      children are left with. */
  ghost function Search(g: Game, fixed: int -> real, value: (Board, Move) -> real, from: Option<(Board, Move)>, b: Board,
                        depth: int, min: real, max: real, maximizing: bool): (o: Outcome)
    requires g.Valid() && b.Valid()
    decreases b.KnownCount(), 2
  {
    var own := Own(value, from, maximizing);
    if depth == 0 then Outcome(own, [])
    else
      var d := Next(g, from, depth);
      var n := |Successors(g, b)|;
      if n == 0 then
        Outcome(if maximizing then own + fixed(d) else own - fixed(d), [])
      else if maximizing then
        var loop := MaxLoop(ChildValues(g, fixed, value, b, d, max, ExtraOf(g, from)), n, 0, -DOUBLE_MAX, max, own);
        Outcome(own + loop.value, Pad(loop.evals, n))
      else
        var loop := MinLoop(ChildValues(g, fixed, value, b, d, max, !ExtraOf(g, from)), n, 0, DOUBLE_MAX, min, own);
        Outcome(own + loop.value, Pad(loop.evals, n))
  }

  /** The children's values as both loops see them: child `j` of `b`
      searched to depth `d` with the window (`c`, `max`), as a function of
      `j` and of the loop's best value so far `c`. */
  ghost function ChildValues(g: Game, fixed: int -> real, value: (Board, Move) -> real, b: Board,
                             d: int, max: real, next: bool): (int, real) -> real
    requires g.Valid() && b.Valid()
    decreases b.KnownCount(), 1
  {
    (j: int, c: real) =>
      if 0 <= j < |Successors(g, b)| then ChildValue(g, fixed, value, b, j, d, c, max, next) else 0.0
  }

  /** The value of child `i` of `b` searched to depth `d` with the window
      (`c`, `max`). */
  ghost function ChildValue(g: Game, fixed: int -> real, value: (Board, Move) -> real, b: Board, i: int, d: int,
                            c: real, max: real, next: bool): real
    requires g.Valid() && b.Valid() && 0 <= i < |Successors(g, b)|
    decreases b.KnownCount(), 0
  {
    SuccessorsShrink(g, b);
    var kid := Successors(g, b)[i];
    Search(g, fixed, value, Some((b, kid.move)), kid.board, d, c, max, next).value
  }

  /** The maximizing loop from child `i` of `n` on, with the best value so
      far `cMax`, where `eval(i, cMax)` is child `i`'s value: a child with
      `own + eval >= max` ends the loop with its value. */
  function MaxLoop(eval: (int, real) -> real, n: int, i: int, cMax: real, max: real, own: real): (o: Outcome)
    requires 0 <= i <= n
    decreases n - i
    ensures |o.evals| <= n - i && (i < n ==> |o.evals| > 0)
  {
    if i == n then Outcome(cMax, [])
    else
      var e := eval(i, cMax);
      if own + e >= max then Outcome(e, [e])
      else
        var rest := MaxLoop(eval, n, i + 1, Max(cMax, e), max, own);
        Outcome(rest.value, [e] + rest.evals)
  }

  /** The minimizing loop: a child with `own + eval <= min` ends it with
      its value. */
  function MinLoop(eval: (int, real) -> real, n: int, i: int, cMin: real, min: real, own: real): (o: Outcome)
    requires 0 <= i <= n
    decreases n - i
    ensures |o.evals| <= n - i && (i < n ==> |o.evals| > 0)
  {
    if i == n then Outcome(cMin, [])
    else
      var e := eval(i, cMin);
      if own + e <= min then Outcome(e, [e])
      else
        var rest := MinLoop(eval, n, i + 1, Min(cMin, e), min, own);
        Outcome(rest.value, [e] + rest.evals)
  }

  /** Child `i`'s value in the loops is the search of its board below the
      move to it. */
  lemma ChildValueAt(g: Game, fixed: int -> real, value: (Board, Move) -> real, b: Board,
                     d: int, max: real, next: bool, i: int, c: real)
    requires g.Valid() && b.Valid() && 0 <= i < |Successors(g, b)|
    ensures Successors(g, b)[i].board.Valid()
    ensures var kid := Successors(g, b)[i];
            ChildValues(g, fixed, value, b, d, max, next)(i, c)
            == Search(g, fixed, value, Some((b, kid.move)), kid.board, d, c, max, next).value
  {
    SuccessorsShrink(g, b);
  }

  /** `o` with `explored` in front of its evaluations. */
  function After(explored: seq<real>, o: Outcome): Outcome {
    Outcome(o.value, explored + o.evals)
  }

  /** One turn of the maximizing loop: child `i` either ends it or is
      followed by the rest of the loop with the larger best value. */
  lemma MaxLoopStep(eval: (int, real) -> real, n: int, i: int, cMax: real, max: real, own: real, explored: seq<real>)
    requires 0 <= i < n
    ensures var e := eval(i, cMax);
            var here := After(explored, MaxLoop(eval, n, i, cMax, max, own));
            && (own + e >= max ==> here == Outcome(e, explored + [e]))
            && (own + e < max ==> here == After(explored + [e], MaxLoop(eval, n, i + 1, Max(cMax, e), max, own)))
  {
    var e := eval(i, cMax);
    if own + e < max {
      var rest := MaxLoop(eval, n, i + 1, Max(cMax, e), max, own);
      assert explored + ([e] + rest.evals) == (explored + [e]) + rest.evals;
    }
  }

  /** One turn of the minimizing loop. */
  lemma MinLoopStep(eval: (int, real) -> real, n: int, i: int, cMin: real, min: real, own: real, explored: seq<real>)
    requires 0 <= i < n
    ensures var e := eval(i, cMin);
            var here := After(explored, MinLoop(eval, n, i, cMin, min, own));
            && (own + e <= min ==> here == Outcome(e, explored + [e]))
            && (own + e > min ==> here == After(explored + [e], MinLoop(eval, n, i + 1, Min(cMin, e), min, own)))
  {
    var e := eval(i, cMin);
    if own + e > min {
      var rest := MinLoop(eval, n, i + 1, Min(cMin, e), min, own);
      assert explored + ([e] + rest.evals) == (explored + [e]) + rest.evals;
    }
  }

  /** The node as the search receives it: holding board `b`, with no
      children yet, its parent holding the board the move `from` was made
      on; a root has not been granted an extra turn. */
  predicate Rooted(n: Node, from: Option<(Board, Move)>, b: Board)
    reads n, n.parent
  {
    && n.nodeBoard == Some(b) && n.children == Some([])
    && (from.None? <==> n.parent == null)
    && (from.Some? ==> n.parent.nodeBoard == Some(from.value.0) && n.nodeMove == Some(from.value.1))
    && (from.None? ==> !n.extraTurn)
  }

  /** `createMinimaxTree`: evaluates `n`, searches its children to the
      remaining depth and returns the node's value, which it also stores.
      It then releases the node's board, and its children when the depth
      left after the extra-turn rule is below `MINIMAX_DEPTH - 1`. A node whose board has no available
      move keeps both and adds the fixed evaluation of the remaining depth. */
  method CreateMinimaxTree(g: Game, fixed: int -> real, ghost value: (Board, Move) -> real, n: Node, ghost from: Option<(Board, Move)>,
                           ghost b: Board, depth: int, min: real, max: real, maximizing: bool)
      returns (r: real)
    requires g.Valid() && ValueOf(g, value) && b.Valid() && Rooted(n, from, b)
    modifies n
    decreases b.KnownCount(), 7
    ensures r == n.nodeEvaluation == Search(g, fixed, value, from, b, depth, min, max, maximizing).value
    ensures n.parent == old(n.parent) && n.nodeMove == old(n.nodeMove)
    ensures depth == 0 ==> n.nodeBoard.None? && n.children.None?
    ensures depth != 0 && |Successors(g, b)| == 0 ==> n.nodeBoard == Some(b) && n.children == Some([])
    ensures depth != 0 && |Successors(g, b)| != 0 ==>
              && n.nodeBoard.None?
              && (n.children.None? <==> Next(g, from, depth) < MINIMAX_DEPTH - 1)
    ensures n.children.Some? ==>
              Settled(n.children.value, Search(g, fixed, value, from, b, depth, min, max, maximizing).evals,
                      Successors(g, b))
  {
    EvaluateNode(g, value, n, from, maximizing);
    var remaining := depth;
    if depth != 0 {
      var leaf;
      remaining, leaf := SearchBelow(g, fixed, value, n, from, b, depth, min, max, maximizing);
      if leaf {
        return n.nodeEvaluation;
      }
    }
    n.SetNodeBoard(None);
    if remaining < MINIMAX_DEPTH - 1 {
      n.SetChildren(None);
    }
    return n.nodeEvaluation;
  }

  /** The part of `createMinimaxTree` below a node of non-zero depth: its
      children are created and searched, and their value is added to the
      node's own; with no children, the fixed evaluation is. Returns the
      depth the children were searched to, and whether there were none. */
  method SearchBelow(g: Game, fixed: int -> real, ghost value: (Board, Move) -> real, n: Node,
                     ghost from: Option<(Board, Move)>, ghost b: Board, depth: int, min: real, max: real,
                     maximizing: bool)
      returns (remaining: int, leaf: bool)
    requires g.Valid() && ValueOf(g, value) && b.Valid() && depth != 0
    requires n.nodeBoard == Some(b) && n.children == Some([])
    requires n.nodeEvaluation == Own(value, from, maximizing) && n.hasEvaluated && n.extraTurn == ExtraOf(g, from)
    modifies n
    decreases b.KnownCount(), 6
    ensures remaining == Next(g, from, depth) && (leaf <==> |Successors(g, b)| == 0)
    ensures n.nodeEvaluation == Search(g, fixed, value, from, b, depth, min, max, maximizing).value
    ensures n.parent == old(n.parent) && n.nodeMove == old(n.nodeMove) && n.nodeBoard == old(n.nodeBoard)
    ensures n.children.Some? && n !in n.children.value
    ensures Settled(n.children.value, Search(g, fixed, value, from, b, depth, min, max, maximizing).evals,
                    Successors(g, b))
  {
    ghost var added := n.CreateChildren(g);
    var extraTurn := n.LeadsToExtraTurn();
    remaining := depth;
    if !extraTurn.value {
      remaining := depth - 1;
    }
    var kids := n.children.value;
    assert kids == added;
    leaf := |kids| == 0;
    if leaf {
      if maximizing {
        n.SetNodeEvaluation(n.nodeEvaluation + fixed(remaining));
      } else {
        n.SetNodeEvaluation(n.nodeEvaluation - fixed(remaining));
      }
      return;
    }
    ExploreChildren(g, fixed, value, n, kids, from, b, depth, remaining, extraTurn.value, min, max, maximizing);
  }

  /** The loop of `createMinimaxTree` over a node's non-empty children, for
      the maximizing or the minimizing player, and the node's value. */
  method ExploreChildren(g: Game, fixed: int -> real, ghost value: (Board, Move) -> real, n: Node, kids: seq<Node>,
                         ghost from: Option<(Board, Move)>, ghost b: Board, ghost depth: int, remaining: int,
                         extraTurn: bool, min: real, max: real, maximizing: bool)
    requires g.Valid() && ValueOf(g, value) && b.Valid() && depth != 0 && |kids| > 0
    requires remaining == Next(g, from, depth) && extraTurn == ExtraOf(g, from)
    requires n.nodeBoard == Some(b) && n.children == Some(kids) && n !in kids
    requires NewChildren(n, kids, Successors(g, b))
    requires n.nodeEvaluation == Own(value, from, maximizing)
    modifies n`nodeEvaluation, kids
    decreases b.KnownCount(), 5
    ensures n.nodeEvaluation == Search(g, fixed, value, from, b, depth, min, max, maximizing).value
    ensures Settled(kids, Search(g, fixed, value, from, b, depth, min, max, maximizing).evals, Successors(g, b))
  {
    if maximizing {
      SearchMaxChildren(g, fixed, value, n, kids, from, b, depth, remaining, extraTurn, min, max);
    } else {
      SearchMinChildren(g, fixed, value, n, kids, from, b, depth, remaining, extraTurn, min, max);
    }
  }

  /** The maximizing player's node: the loop over its children gives it the
      value and the children the evaluations of the search. */
  method SearchMaxChildren(g: Game, fixed: int -> real, ghost value: (Board, Move) -> real, n: Node, kids: seq<Node>,
                           ghost from: Option<(Board, Move)>, ghost b: Board, ghost depth: int, remaining: int,
                           extraTurn: bool, min: real, max: real)
    requires g.Valid() && ValueOf(g, value) && b.Valid() && depth != 0 && |kids| > 0
    requires remaining == Next(g, from, depth) && extraTurn == ExtraOf(g, from)
    requires n.nodeBoard == Some(b) && n.children == Some(kids) && n !in kids
    requires NewChildren(n, kids, Successors(g, b))
    requires n.nodeEvaluation == Own(value, from, true)
    modifies n`nodeEvaluation, kids
    decreases b.KnownCount(), 4
    ensures n.nodeEvaluation == Search(g, fixed, value, from, b, depth, min, max, true).value
    ensures Settled(kids, Search(g, fixed, value, from, b, depth, min, max, true).evals, Successors(g, b))
  {
    ghost var evals := ExploreMax(g, fixed, value, n, kids, b, remaining, max, extraTurn);
    SearchMax(g, fixed, value, from, b, depth, min, max);
    ProgressPads(n, kids, evals, Successors(g, b));
  }

  /** The minimizing player's node: the loop over its children gives it the
      value and the children the evaluations of the search. */
  method SearchMinChildren(g: Game, fixed: int -> real, ghost value: (Board, Move) -> real, n: Node, kids: seq<Node>,
                           ghost from: Option<(Board, Move)>, ghost b: Board, ghost depth: int, remaining: int,
                           extraTurn: bool, min: real, max: real)
    requires g.Valid() && ValueOf(g, value) && b.Valid() && depth != 0 && |kids| > 0
    requires remaining == Next(g, from, depth) && extraTurn == ExtraOf(g, from)
    requires n.nodeBoard == Some(b) && n.children == Some(kids) && n !in kids
    requires NewChildren(n, kids, Successors(g, b))
    requires n.nodeEvaluation == Own(value, from, false)
    modifies n`nodeEvaluation, kids
    decreases b.KnownCount(), 4
    ensures n.nodeEvaluation == Search(g, fixed, value, from, b, depth, min, max, false).value
    ensures Settled(kids, Search(g, fixed, value, from, b, depth, min, max, false).evals, Successors(g, b))
  {
    ghost var evals := ExploreMin(g, fixed, value, n, kids, b, remaining, min, max, !extraTurn);
    SearchMin(g, fixed, value, from, b, depth, min, max);
    ProgressPads(n, kids, evals, Successors(g, b));
  }

  /** The maximizing branch of `createMinimaxTree` over the children: the
      node's value grows by the loop's value. */
  method ExploreMax(g: Game, fixed: int -> real, ghost value: (Board, Move) -> real, n: Node, kids: seq<Node>,
                    ghost b: Board, d: int, max: real, next: bool)
      returns (ghost evals: seq<real>)
    requires g.Valid() && ValueOf(g, value) && b.Valid() && n.nodeBoard == Some(b) && n !in kids
    requires NewChildren(n, kids, Successors(g, b))
    modifies n`nodeEvaluation, kids
    decreases b.KnownCount(), 3
    ensures var loop := MaxLoop(ChildValues(g, fixed, value, b, d, max, next), |Successors(g, b)|, 0, -DOUBLE_MAX, max,
                                old(n.nodeEvaluation));
            n.nodeEvaluation == old(n.nodeEvaluation) + loop.value && evals == loop.evals
    ensures Progress(n, kids, evals, Successors(g, b))
  {
    var cMax;
    cMax, evals := MaxChildren(g, fixed, value, n, kids, b, d, max, next, n.nodeEvaluation);
    n.SetNodeEvaluation(n.nodeEvaluation + cMax);
  }

  /** The minimizing branch of `createMinimaxTree` over the children: the
      node's value grows by the loop's value. */
  method ExploreMin(g: Game, fixed: int -> real, ghost value: (Board, Move) -> real, n: Node, kids: seq<Node>,
                    ghost b: Board, d: int, min: real, max: real, next: bool)
      returns (ghost evals: seq<real>)
    requires g.Valid() && ValueOf(g, value) && b.Valid() && n.nodeBoard == Some(b) && n !in kids
    requires NewChildren(n, kids, Successors(g, b))
    modifies n`nodeEvaluation, kids
    decreases b.KnownCount(), 3
    ensures var loop := MinLoop(ChildValues(g, fixed, value, b, d, max, next), |Successors(g, b)|, 0, DOUBLE_MAX, min,
                                old(n.nodeEvaluation));
            n.nodeEvaluation == old(n.nodeEvaluation) + loop.value && evals == loop.evals
    ensures Progress(n, kids, evals, Successors(g, b))
  {
    var cMin;
    cMin, evals := MinChildren(g, fixed, value, n, kids, b, d, min, max, next, n.nodeEvaluation);
    n.SetNodeEvaluation(n.nodeEvaluation + cMin);
  }

  /** A maximizing node with children is worth its own value plus the
      maximizing loop's, and leaves its children the loop's evaluations. */
  lemma SearchMax(g: Game, fixed: int -> real, value: (Board, Move) -> real, from: Option<(Board, Move)>, b: Board,
                  depth: int, min: real, max: real)
    requires g.Valid() && b.Valid() && depth != 0 && |Successors(g, b)| > 0
    ensures var own := Own(value, from, true);
            var n := |Successors(g, b)|;
            var loop := MaxLoop(ChildValues(g, fixed, value, b, Next(g, from, depth), max, ExtraOf(g, from)),
                                n, 0, -DOUBLE_MAX, max, own);
            Search(g, fixed, value, from, b, depth, min, max, true) == Outcome(own + loop.value, Pad(loop.evals, n))
  {
  }

  /** A minimizing node with children is worth its own value plus the
      minimizing loop's, and leaves its children the loop's evaluations. */
  lemma SearchMin(g: Game, fixed: int -> real, value: (Board, Move) -> real, from: Option<(Board, Move)>, b: Board,
                  depth: int, min: real, max: real)
    requires g.Valid() && b.Valid() && depth != 0 && |Successors(g, b)| > 0
    ensures var own := Own(value, from, false);
            var n := |Successors(g, b)|;
            var loop := MinLoop(ChildValues(g, fixed, value, b, Next(g, from, depth), max, !ExtraOf(g, from)),
                                n, 0, DOUBLE_MAX, min, own);
            Search(g, fixed, value, from, b, depth, min, max, false) == Outcome(own + loop.value, Pad(loop.evals, n))
  {
  }

  /** Once a loop ends, every child holds its entry of the padded
      evaluations. */
  lemma ProgressPads(n: Node, kids: seq<Node>, evals: seq<real>, s: seq<Child>)
    requires Progress(n, kids, evals, s)
    ensures Settled(kids, Pad(evals, |kids|), s)
  {
  }

  /** `n.evaluate(maximizing)` in the search: the node's own value. */
  method EvaluateNode(g: Game, ghost value: (Board, Move) -> real, n: Node, ghost from: Option<(Board, Move)>,
                      maximizing: bool)
    requires g.Valid() && ValueOf(g, value)
    requires from.None? <==> n.parent == null
    requires from.Some? ==> n.parent.nodeBoard == Some(from.value.0) && n.nodeMove == Some(from.value.1)
    modifies n`nodeEvaluation, n`hasEvaluated, n`extraTurn
    ensures n.nodeEvaluation == Own(value, from, maximizing) && n.hasEvaluated
    ensures n.extraTurn == (if from.None? then old(n.extraTurn) else ExtraOf(g, from))
  {
    var _ := n.Evaluate(g, value, maximizing);
  }

  /** Every child holds its evaluation in `evals` and the move of its
      successor in `s`. */
  predicate Settled(kids: seq<Node>, evals: seq<real>, s: seq<Child>)
    reads kids
  {
    && |kids| == |evals| == |s|
    && (forall j | 0 <= j < |kids| :: kids[j].nodeEvaluation == evals[j] && kids[j].nodeMove == Some(s[j].move))
  }

  /** The children's state during a loop of `createMinimaxTree`: the
      first `|evals|` searched, with those values, the rest unexplored. */
  predicate Progress(n: Node, kids: seq<Node>, evals: seq<real>, s: seq<Child>)
    reads kids
  {
    && |kids| == |s| && |evals| <= |kids|
    && (forall j | 0 <= j < |evals| :: kids[j].nodeEvaluation == evals[j] && kids[j].nodeMove == Some(s[j].move))
    && (forall j | |evals| <= j < |kids| :: Unexplored(kids[j], n, s[j]))
  }

  /** The recursive call of `createMinimaxTree` on the next unexplored
      child, with the window (min, max). */
  method SearchChild(g: Game, fixed: int -> real, ghost value: (Board, Move) -> real, kids: seq<Node>, i: int,
                     ghost n: Node, ghost b: Board, ghost s: seq<Child>, ghost evals: seq<real>,
                     d: int, min: real, max: real, next: bool)
      returns (eval: real)
    requires g.Valid() && ValueOf(g, value) && b.Valid() && s == Successors(g, b)
    requires 0 <= i == |evals| < |kids| && Distinct(kids) && n !in kids && n.nodeBoard == Some(b)
    requires Progress(n, kids, evals, s)
    modifies kids[i]
    decreases s[i].board.KnownCount(), 8
    ensures eval == Search(g, fixed, value, Some((b, s[i].move)), s[i].board, d, min, max, next).value
    ensures Progress(n, kids, evals + [eval], s) && n.nodeBoard == Some(b)
  {
    eval := CreateMinimaxTree(g, fixed, value, kids[i], Some((b, s[i].move)), s[i].board, d, min, max, next);
  }

  /** After the first `|evals|` of the `n` children of the maximizing
      loop, with best value `cMax`: the loop's outcome is theirs followed by
      the rest's. */
  ghost predicate MaxState(eval: (int, real) -> real, n: int, max: real, own: real, cMax: real, evals: seq<real>) {
    && |evals| <= n
    && MaxLoop(eval, n, 0, -DOUBLE_MAX, max, own) == After(evals, MaxLoop(eval, n, |evals|, cMax, max, own))
  }

  /** The same for the minimizing loop. */
  ghost predicate MinState(eval: (int, real) -> real, n: int, min: real, own: real, cMin: real, evals: seq<real>) {
    && |evals| <= n
    && MinLoop(eval, n, 0, DOUBLE_MAX, min, own) == After(evals, MinLoop(eval, n, |evals|, cMin, min, own))
  }

  /** One turn of the maximizing loop: search the next child, update the
      best value, and tell whether the child reaches the cut-off. */
  method MaxTurn(g: Game, fixed: int -> real, ghost value: (Board, Move) -> real, kids: seq<Node>, i: int,
                 ghost n: Node, ghost b: Board, ghost s: seq<Child>, ghost evals: seq<real>,
                 d: int, cMax: real, max: real, next: bool, own: real)
      returns (eval: real, cMax': real, cut: bool)
    requires g.Valid() && ValueOf(g, value) && b.Valid() && s == Successors(g, b)
    requires 0 <= i == |evals| < |kids| && Distinct(kids) && n !in kids && n.nodeBoard == Some(b)
    requires Progress(n, kids, evals, s) && MaxState(ChildValues(g, fixed, value, b, d, max, next), |s|, max, own, cMax, evals)
    modifies kids[i]
    decreases b.KnownCount(), 1
    ensures Progress(n, kids, evals + [eval], s) && n.nodeBoard == Some(b)
    ensures cut <==> own + eval >= max
    ensures cut ==> Outcome(cMax', evals + [eval]) == MaxLoop(ChildValues(g, fixed, value, b, d, max, next), |s|, 0, -DOUBLE_MAX, max, own)
    ensures !cut ==> MaxState(ChildValues(g, fixed, value, b, d, max, next), |s|, max, own, cMax', evals + [eval])
  {
    eval := SearchChild(g, fixed, value, kids, i, n, b, s, evals, d, cMax, max, next);
    ChildValueAt(g, fixed, value, b, d, max, next, i, cMax);
    MaxLoopStep(ChildValues(g, fixed, value, b, d, max, next), |s|, i, cMax, max, own, evals);
    cMax' := Max(cMax, eval);
    cut := own + eval >= max;
    if cut {
      cMax' := eval;
    }
  }

  /** One turn of the minimizing loop. */
  method MinTurn(g: Game, fixed: int -> real, ghost value: (Board, Move) -> real, kids: seq<Node>, i: int,
                 ghost n: Node, ghost b: Board, ghost s: seq<Child>, ghost evals: seq<real>,
                 d: int, cMin: real, min: real, max: real, next: bool, own: real)
      returns (eval: real, cMin': real, cut: bool)
    requires g.Valid() && ValueOf(g, value) && b.Valid() && s == Successors(g, b)
    requires 0 <= i == |evals| < |kids| && Distinct(kids) && n !in kids && n.nodeBoard == Some(b)
    requires Progress(n, kids, evals, s) && MinState(ChildValues(g, fixed, value, b, d, max, next), |s|, min, own, cMin, evals)
    modifies kids[i]
    decreases b.KnownCount(), 1
    ensures Progress(n, kids, evals + [eval], s) && n.nodeBoard == Some(b)
    ensures cut <==> own + eval <= min
    ensures cut ==> Outcome(cMin', evals + [eval]) == MinLoop(ChildValues(g, fixed, value, b, d, max, next), |s|, 0, DOUBLE_MAX, min, own)
    ensures !cut ==> MinState(ChildValues(g, fixed, value, b, d, max, next), |s|, min, own, cMin', evals + [eval])
  {
    eval := SearchChild(g, fixed, value, kids, i, n, b, s, evals, d, cMin, max, next);
    ChildValueAt(g, fixed, value, b, d, max, next, i, cMin);
    MinLoopStep(ChildValues(g, fixed, value, b, d, max, next), |s|, i, cMin, min, own, evals);
    cMin' := Min(cMin, eval);
    cut := own + eval <= min;
    if cut {
      cMin' := eval;
    }
  }

  /** The maximizing loop of `createMinimaxTree` over the children `kids`
      of `n`, returning `MaxLoop`'s value and leaving each explored child
      with its value and each other one as it was. */
  method MaxChildren(g: Game, fixed: int -> real, ghost value: (Board, Move) -> real, n: Node, kids: seq<Node>,
                     ghost b: Board, d: int, max: real, next: bool, own: real)
      returns (cMax: real, ghost evals: seq<real>)
    requires g.Valid() && ValueOf(g, value) && b.Valid() && n.nodeBoard == Some(b) && n !in kids
    requires NewChildren(n, kids, Successors(g, b))
    modifies kids
    decreases b.KnownCount(), 2
    ensures Outcome(cMax, evals) == MaxLoop(ChildValues(g, fixed, value, b, d, max, next), |Successors(g, b)|, 0, -DOUBLE_MAX, max, own)
    ensures Progress(n, kids, evals, Successors(g, b))
  {
    ghost var s := Successors(g, b);
    cMax := -DOUBLE_MAX;
    evals := [];
    var i := 0;
    while i < |kids|
      invariant 0 <= i <= |kids| && |evals| == i
      invariant MaxState(ChildValues(g, fixed, value, b, d, max, next), |s|, max, own, cMax, evals)
      invariant Progress(n, kids, evals, s) && n.nodeBoard == Some(b)
    {
      var eval, cut;
      eval, cMax, cut := MaxTurn(g, fixed, value, kids, i, n, b, s, evals, d, cMax, max, next, own);
      evals := evals + [eval];
      if cut {
        break;
      }
      i := i + 1;
    }
  }

  /** The minimizing loop of `createMinimaxTree`, returning `MinLoop`'s
      value. */
  method MinChildren(g: Game, fixed: int -> real, ghost value: (Board, Move) -> real, n: Node, kids: seq<Node>,
                     ghost b: Board, d: int, min: real, max: real, next: bool, own: real)
      returns (cMin: real, ghost evals: seq<real>)
    requires g.Valid() && ValueOf(g, value) && b.Valid() && n.nodeBoard == Some(b) && n !in kids
    requires NewChildren(n, kids, Successors(g, b))
    modifies kids
    decreases b.KnownCount(), 2
    ensures Outcome(cMin, evals) == MinLoop(ChildValues(g, fixed, value, b, d, max, next), |Successors(g, b)|, 0, DOUBLE_MAX, min, own)
    ensures Progress(n, kids, evals, Successors(g, b))
  {
    ghost var s := Successors(g, b);
    cMin := DOUBLE_MAX;
    evals := [];
    var i := 0;
    while i < |kids|
      invariant 0 <= i <= |kids| && |evals| == i
      invariant MinState(ChildValues(g, fixed, value, b, d, max, next), |s|, min, own, cMin, evals)
      invariant Progress(n, kids, evals, s) && n.nodeBoard == Some(b)
    {
      var eval, cut;
      eval, cMin, cut := MinTurn(g, fixed, value, kids, i, n, b, s, evals, d, cMin, min, max, next, own);
      evals := evals + [eval];
      if cut {
        break;
      }
      i := i + 1;
    }
  }

  /** `k` is the child `findBestMove` picks: the first whose evaluation is
      the greatest, provided it exceeds `-Double.MAX_VALUE`. */
  predicate FirstBest(evals: seq<real>, k: int) {
    && 0 <= k < |evals| && evals[k] > -DOUBLE_MAX
    && (forall j | 0 <= j < k :: evals[j] < evals[k])
    && (forall j | 0 <= j < |evals| :: evals[j] <= evals[k])
  }

  /** The evaluations of a node's children. */
  function Evaluations(kids: seq<Node>): (e: seq<real>)
    reads set j | 0 <= j < |kids| :: kids[j]
    ensures |e| == |kids| && forall j | 0 <= j < |kids| :: e[j] == kids[j].nodeEvaluation
  {
    seq(|kids|, j reads kids requires 0 <= j < |kids| => kids[j].nodeEvaluation)
  }

  /** `findBestMove`: the move of the first child with the greatest
      evaluation, or None when no evaluation exceeds `-Double.MAX_VALUE`. */
  method FindBestMove(root: Node) returns (bestMove: Option<Move>, ghost best: int)
    requires root.children.Some?
    ensures var kids := root.children.value;
            && (best == -1 <==> forall j | 0 <= j < |kids| :: kids[j].nodeEvaluation <= -DOUBLE_MAX)
            && (best == -1 ==> bestMove.None?)
            && (best != -1 ==> FirstBest(Evaluations(kids), best) && bestMove == kids[best].nodeMove)
  {
    var kids := root.children.value;
    bestMove := None;
    best := -1;
    var max := -DOUBLE_MAX;
    for i := 0 to |kids|
      invariant best == -1 ==> max == -DOUBLE_MAX && forall j | 0 <= j < i :: kids[j].nodeEvaluation <= -DOUBLE_MAX
      invariant best == -1 ==> bestMove.None?
      invariant best != -1 ==> && 0 <= best < i && max == kids[best].nodeEvaluation > -DOUBLE_MAX
                               && bestMove == kids[best].nodeMove
                               && (forall j | 0 <= j < best :: kids[j].nodeEvaluation < max)
                               && (forall j | 0 <= j < i :: kids[j].nodeEvaluation <= max)
    {
      var curEval := kids[i].nodeEvaluation;
      if max < curEval {
        max := curEval;
        bestMove := kids[i].nodeMove;
        best := i;
      }
    }
  }

  /** A node at depth 0 is worth its own evaluation; one with no available
      move, its own evaluation plus (for the maximizing player) or minus the
      fixed evaluation of the remaining depth. */
  lemma LeafValues(g: Game, fixed: int -> real, value: (Board, Move) -> real, from: Option<(Board, Move)>, b: Board,
                   depth: int, min: real, max: real, maximizing: bool)
    requires g.Valid() && b.Valid() && depth != 0 && |Successors(g, b)| == 0
    ensures maximizing ==> Search(g, fixed, value, from, b, depth, min, max, maximizing).value
                           == Own(value, from, maximizing) + fixed(Next(g, from, depth))
    ensures !maximizing ==> Search(g, fixed, value, from, b, depth, min, max, maximizing).value
                            == Own(value, from, maximizing) - fixed(Next(g, from, depth))
  {
  }

  /** The maximizing loop stops exactly at the first child with
      `own + eval >= max`, and then takes that child's value. */
  lemma {:induction false} MaxLoopCut(eval: (int, real) -> real, n: int, i: int, cMax: real, max: real, own: real)
    requires 0 <= i <= n
    decreases n - i
    ensures var o := MaxLoop(eval, n, i, cMax, max, own);
            && |o.evals| <= n - i
            && (forall j | 0 <= j < |o.evals| - 1 :: own + o.evals[j] < max)
            && (|o.evals| < n - i ==> |o.evals| > 0 && own + Last(o.evals) >= max)
            && (|o.evals| > 0 && own + Last(o.evals) >= max ==> o.value == Last(o.evals))
  {
    if i < n {
      var e := eval(i, cMax);
      if own + e < max {
        MaxLoopCut(eval, n, i + 1, Max(cMax, e), max, own);
        var rest := MaxLoop(eval, n, i + 1, Max(cMax, e), max, own);
        var o := MaxLoop(eval, n, i, cMax, max, own);
        assert forall j | 0 <= j < |rest.evals| :: rest.evals[j] == o.evals[j + 1];
      }
    }
  }

  /** Without a cut-off, the maximizing loop searches every remaining child
      and takes the greatest of `cMax` and their values. */
  lemma {:induction false} MaxLoopFull(eval: (int, real) -> real, n: int, i: int, cMax: real, max: real, own: real)
    requires 0 <= i <= n
    requires var o := MaxLoop(eval, n, i, cMax, max, own);
             forall j | 0 <= j < |o.evals| :: own + o.evals[j] < max
    decreases n - i
    ensures var o := MaxLoop(eval, n, i, cMax, max, own);
            && |o.evals| == n - i
            && o.value >= cMax && (forall j | 0 <= j < |o.evals| :: o.value >= o.evals[j])
            && (o.value == cMax || o.value in o.evals)
  {
    if i < n {
      var e := eval(i, cMax);
      var o := MaxLoop(eval, n, i, cMax, max, own);
      assert o.evals[0] == e;
      assert own + e < max;
      var rest := MaxLoop(eval, n, i + 1, Max(cMax, e), max, own);
      assert o == Outcome(rest.value, [e] + rest.evals);
      forall j | 0 <= j < |rest.evals|
        ensures own + rest.evals[j] < max
      {
        assert rest.evals[j] == o.evals[j + 1];
      }
      MaxLoopFull(eval, n, i + 1, Max(cMax, e), max, own);
      assert rest.value in rest.evals ==> rest.value in o.evals;
    }
  }

  /** The minimizing loop stops exactly at the first child with
      `own + eval <= min`, and then takes that child's value. */
  lemma {:induction false} MinLoopCut(eval: (int, real) -> real, n: int, i: int, cMin: real, min: real, own: real)
    requires 0 <= i <= n
    decreases n - i
    ensures var o := MinLoop(eval, n, i, cMin, min, own);
            && |o.evals| <= n - i
            && (forall j | 0 <= j < |o.evals| - 1 :: own + o.evals[j] > min)
            && (|o.evals| < n - i ==> |o.evals| > 0 && own + Last(o.evals) <= min)
            && (|o.evals| > 0 && own + Last(o.evals) <= min ==> o.value == Last(o.evals))
  {
    if i < n {
      var e := eval(i, cMin);
      if own + e > min {
        MinLoopCut(eval, n, i + 1, Min(cMin, e), min, own);
        var rest := MinLoop(eval, n, i + 1, Min(cMin, e), min, own);
        var o := MinLoop(eval, n, i, cMin, min, own);
        assert forall j | 0 <= j < |rest.evals| :: rest.evals[j] == o.evals[j + 1];
      }
    }
  }

  /** Without a cut-off, the minimizing loop searches every remaining child
      and takes the least of `cMin` and their values. */
  lemma {:induction false} MinLoopFull(eval: (int, real) -> real, n: int, i: int, cMin: real, min: real, own: real)
    requires 0 <= i <= n
    requires var o := MinLoop(eval, n, i, cMin, min, own);
             forall j | 0 <= j < |o.evals| :: own + o.evals[j] > min
    decreases n - i
    ensures var o := MinLoop(eval, n, i, cMin, min, own);
            && |o.evals| == n - i
            && o.value <= cMin && (forall j | 0 <= j < |o.evals| :: o.value <= o.evals[j])
            && (o.value == cMin || o.value in o.evals)
  {
    if i < n {
      var e := eval(i, cMin);
      var o := MinLoop(eval, n, i, cMin, min, own);
      assert o.evals[0] == e;
      assert own + e > min;
      var rest := MinLoop(eval, n, i + 1, Min(cMin, e), min, own);
      assert o == Outcome(rest.value, [e] + rest.evals);
      forall j | 0 <= j < |rest.evals|
        ensures own + rest.evals[j] > min
      {
        assert rest.evals[j] == o.evals[j + 1];
      }
      MinLoopFull(eval, n, i + 1, Min(cMin, e), min, own);
      assert rest.value in rest.evals ==> rest.value in o.evals;
    }
  }

  /** At the root of `getNextMove`'s search, when no child reaches the
      cut-off bound `max`, every child is searched and the root's value is
      the greatest child value (or `-Double.MAX_VALUE` if that is greater). */
  lemma RootIsBestChild(g: Game, fixed: int -> real, value: (Board, Move) -> real, b: Board, depth: int, max: real)
    requires g.Valid() && b.Valid() && depth != 0 && |Successors(g, b)| > 0
    requires var o := Search(g, fixed, value, None, b, depth, -DOUBLE_MAX, max, true);
             forall j | 0 <= j < |o.evals| :: o.evals[j] < max
    ensures var o := Search(g, fixed, value, None, b, depth, -DOUBLE_MAX, max, true);
            && (forall j | 0 <= j < |o.evals| :: o.value >= o.evals[j])
            && (o.value == -DOUBLE_MAX || o.value in o.evals)
  {
    var o := Search(g, fixed, value, None, b, depth, -DOUBLE_MAX, max, true);
    var d := Next(g, None, depth);
    var n := |Successors(g, b)|;
    var eval := ChildValues(g, fixed, value, b, d, max, false);
    var loop := MaxLoop(eval, n, 0, -DOUBLE_MAX, max, 0.0);
    MaxLoopCut(eval, n, 0, -DOUBLE_MAX, max, 0.0);
    assert o.value == loop.value && o.evals == Pad(loop.evals, n);
    assert o.evals[..|loop.evals|] == loop.evals;
    if |loop.evals| < n {
      assert Last(loop.evals) == o.evals[|loop.evals| - 1];
    } else {
      assert |o.evals| == |loop.evals|;
      assert forall j | 0 <= j < |loop.evals| :: loop.evals[j] == o.evals[j] < max;
      MaxLoopFull(eval, n, 0, -DOUBLE_MAX, max, 0.0);
    }
  }

  /** The first part of `getNextMove`: a root holding `b`, searched to
      MINIMAX_DEPTH levels with bounds (-Double.MAX_VALUE, Double.MAX_VALUE),
      keeps one child per available move, holding that move and its value. */
  method SearchRoot(g: Game, fixed: int -> real, ghost value: (Board, Move) -> real, b: Board) returns (root: Node)
    requires g.Valid() && ValueOf(g, value) && b.Valid()
    ensures root.children.Some?
    ensures var o := Search(g, fixed, value, None, b, MINIMAX_DEPTH, -DOUBLE_MAX, DOUBLE_MAX, true);
            var kids := root.children.value;
            && |kids| == |o.evals| == |Successors(g, b)|
            && Evaluations(kids) == o.evals
            && (forall j | 0 <= j < |kids| :: kids[j].nodeMove == Some(Successors(g, b)[j].move))
  {
    root := new Node.WithMove(null, Some(b), None);
    var _ := CreateMinimaxTree(g, fixed, value, root, None, b, MINIMAX_DEPTH, -DOUBLE_MAX, DOUBLE_MAX, true);
    assert Evaluations(root.children.value) == Search(g, fixed, value, None, b, MINIMAX_DEPTH, -DOUBLE_MAX, DOUBLE_MAX, true).evals;
  }

  /** `r` is what `getNextMove` returns on board `b` when the root's
      children hold `evals`, one per available move: NoBestMove when no
      evaluation exceeds -Double.MAX_VALUE, and otherwise the coordinates of
      the first child with the greatest evaluation, a legal move of `b`. */
  predicate Chosen(g: Game, b: Board, evals: seq<real>, r: Result<seq<int>>, best: int)
    requires g.Valid() && b.Valid()
  {
    && |evals| == |g.availableMoves(b)|
    && (r.Err? <==> forall j | 0 <= j < |evals| :: evals[j] <= -DOUBLE_MAX)
    && (r.Err? ==> r.error == NoBestMove)
    && (r.Ok? ==> && FirstBest(evals, best)
                  && r.value == g.nextMove(g.availableMoves(b)[best])
                  && CordsOn(b, r.value) && Legal(b, MoveAt(b, r.value)))
  }

  /** The last part of `getNextMove`: `findBestMove` on the searched root
      and the coordinates of the move it picks. */
  method PickMove(g: Game, b: Board, root: Node) returns (r: Result<seq<int>>, ghost best: int)
    requires g.Valid() && b.Valid() && root.children.Some?
    requires var kids := root.children.value;
             && |kids| == |Successors(g, b)|
             && (forall j | 0 <= j < |kids| :: kids[j].nodeMove == Some(Successors(g, b)[j].move))
    ensures Chosen(g, b, Evaluations(root.children.value), r, best)
  {
    var bestMove;
    bestMove, best := FindBestMove(root);
    if bestMove.None? {
      return Err(NoBestMove), best;
    }
    SuccessorsAreMoves(g, b);
    ghost var dm := g.availableMoves(b)[best];
    assert dm in g.availableMoves(b);
    r := bestMove.value.ToCordsArray();
  }

  /** `getNextMove` of a player whose fixed evaluation is `fixed`: the
      search from a root holding a clone of the board, and the move
      `findBestMove` then picks. */
  method NextMove(g: Game, fixed: int -> real, board: Board) returns (r: Result<seq<int>>, ghost best: int)
    requires g.Valid() && board.Valid()
    ensures var b := g.cloneBoard(board, 45);
            && b.Valid()
            && Chosen(g, b, Search(g, fixed, Values(g), None, b, MINIMAX_DEPTH, -DOUBLE_MAX, DOUBLE_MAX, true).evals, r, best)
  {
    var clone := g.cloneBoard(board, 45);
    var root := SearchRoot(g, fixed, Values(g), clone);
    r, best := PickMove(g, clone, root);
  }
}
