/** The distance-from-top heuristic: moves lower on the board score higher. */
module Distances {
  import opened Wrappers
  import opened Boards
  import opened Moves
  import opened Heuristics

  /** The larger row of the two tiles of a filled move. */
  function HigherY(m: Move): (y: int)
    requires m.Filled()
    ensures y >= m.first.value.y && y >= m.second.value.y
    ensures y == m.first.value.y || y == m.second.value.y
  {
    if m.first.value.y > m.second.value.y then m.first.value.y else m.second.value.y
  }

  /** The heuristic as `DistanceFromTopHeuristic(move, board)` builds it. */
  datatype DistanceFromTopHeuristic = DistanceFromTopHeuristic(move: Move, board: Board)
  {
    /** `evaluate`: `(100 / pRows) * (pRows - greaterY - 1)`, where greaterY
        is the larger row of the two tiles; an empty slot surfaces as
        EmptyMove from `getY1`/`getY2`. */
    function Evaluate(): (r: Result<real>)
      requires board.pRows > 0
      ensures r.Err? <==> !move.Filled()
      ensures r.Err? ==> r.error == EmptyMove
      ensures r.Ok? ==> r.value * (board.pRows as real)
                        == 100.0 * ((board.pRows - 1 - HigherY(move)) as real)
      ensures r.Ok? && 0 <= HigherY(move) < board.pRows ==> 0.0 <= r.value < 100.0
    {
      var y1 := move.Y1();
      if y1.Err? then Err(y1.error)
      else
        var y2 := move.Y2();
        if y2.Err? then Err(y2.error)
        else
          var greaterY := if y1.value > y2.value then y1.value else y2.value;
          var p := board.pRows as real;
          var score := (100.0 / p) * (p - (greaterY as real) - 1.0);
          ScoreTimesRows(greaterY, board.pRows);
          Ok(score)
    }
  }

  /** The score on `p` rows when the higher tile is on row `y`. */
  lemma ScoreTimesRows(y: int, p: int)
    requires p > 0
    ensures (100.0 / (p as real)) * ((p as real) - (y as real) - 1.0) * (p as real)
            == 100.0 * ((p - 1 - y) as real)
    ensures 0 <= y < p ==> 0.0 <= (100.0 / (p as real)) * ((p as real) - (y as real) - 1.0) < 100.0
  {
    var q := p as real;
    var k := 100.0 / q;
    assert k * q == 100.0;
    assert k * (q - (y as real) - 1.0) * q == k * q * (q - (y as real) - 1.0);
    if 0 <= y < p {
      assert 0.0 <= q - (y as real) - 1.0 < q;
      assert k * (q - (y as real) - 1.0) < k * q;
    }
  }

  /** Exchanging the two tiles does not change the score: only the larger
      row counts. */
  lemma SwapKeepsScore(h: DistanceFromTopHeuristic)
    requires h.board.pRows > 0
    ensures DistanceFromTopHeuristic(h.move.Swapped(), h.board).Evaluate() == h.Evaluate()
  {
    if h.move.Filled() {
      assert HigherY(h.move.Swapped()) == HigherY(h.move);
      Unscale(h.Evaluate().value,
              DistanceFromTopHeuristic(h.move.Swapped(), h.board).Evaluate().value, h.board.pRows as real);
    }
  }

  /** A higher tile never scores more. */
  lemma {:induction false} ScoreNonIncreasing(h: DistanceFromTopHeuristic, k: DistanceFromTopHeuristic)
    requires h.board.pRows > 0 && k.board.pRows == h.board.pRows
    requires h.move.Filled() && k.move.Filled() && HigherY(h.move) <= HigherY(k.move)
    ensures k.Evaluate().value <= h.Evaluate().value
  {
    var q := h.board.pRows as real;
    var p := h.board.pRows;
    var a, b := k.Evaluate().value, h.Evaluate().value;
    var da, db := (p - 1 - HigherY(k.move)) as real, (p - 1 - HigherY(h.move)) as real;
    assert a * q == 100.0 * da && b * q == 100.0 * db;
    assert da <= db;
    calc {
      a * q;
    ==
      100.0 * da;
    <=
      100.0 * db;
    ==
      b * q;
    }
    UnscaleLe(a, b, q);
  }

  /** The scores on a board of 10 playable rows: the top row gives 0, the
      bottom row 90. */
  lemma ScoresOnTenRows(b: Board, t: Tile, u: Tile)
    requires b.pRows == 10 && t.y <= u.y
    ensures u.y == 9 ==> DistanceFromTopHeuristic(Move(Some(t), Some(u)), b).Evaluate() == Ok(0.0)
    ensures u.y == 6 ==> DistanceFromTopHeuristic(Move(Some(t), Some(u)), b).Evaluate() == Ok(30.0)
    ensures u.y == 1 ==> DistanceFromTopHeuristic(Move(Some(t), Some(u)), b).Evaluate() == Ok(80.0)
    ensures u.y == 0 ==> DistanceFromTopHeuristic(Move(Some(t), Some(u)), b).Evaluate() == Ok(90.0)
  {
  }

  lemma Unscale(a: real, b: real, q: real)
    requires q > 0.0 && a * q == b * q
    ensures a == b
  {
  }

  lemma UnscaleLe(a: real, b: real, q: real)
    requires q > 0.0 && a * q <= b * q
    ensures a <= b
  {
  }
}
