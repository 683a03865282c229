/** The candies-removed heuristic: a move scores by how many candies it
    removes, directly and through the crushes it sets off. */
module Candies {
  import opened Wrappers
  import opened Sets
  import opened Boards
  import opened BoardUtils
  import opened Moves
  import opened Games

  /** The heuristic as `CandiesRemovedHeuristic(move, board)` builds it. */
  datatype CandiesRemovedHeuristic = CandiesRemovedHeuristic(move: Move, board: Board)

  /** What the heuristic needs of its fields: a well-formed board that
      holds the cells the move names. */
  predicate Playable(h: CandiesRemovedHeuristic) {
    && h.board.Valid()
    && (h.move.first.Some? ==> h.board.Holds(h.move.first.value.x, h.move.first.value.y))
    && (h.move.second.Some? ==> h.board.Holds(h.move.second.value.x, h.move.second.value.y))
  }

  // ---------------------------------------------------------------------
  // The candies removed directly
  // ---------------------------------------------------------------------

  /** The tiles of `ts` and their same-colour neighbours up to two steps
      away, as the loop over the two swapped tiles gathers them. */
  function Gathered(b: Board, ts: seq<Tile>): (r: set<Tile>)
    requires b.Valid()
    ensures forall i | 0 <= i < |ts| :: ts[i] in r
  {
    if ts == [] then {}
    else Gathered(b, ts[..|ts| - 1]) + Adjacent(b, ts[|ts| - 1], 2) + {ts[|ts| - 1]}
  }

  /** When only one of the two swapped tiles crushes, the other one takes
      its place, so that the set names the cells the real board loses. */
  function Transferred(s: set<Tile>, a0: Tile, a1: Tile): (r: set<Tile>)
    ensures r <= s + {a0, a1}
    ensures a0 != a1 ==> |r| == |s|
    ensures (a0 in s <==> a1 in s) ==> r == s
  {
    if a0 in s && a1 !in s then s + {a1} - {a0}
    else if a1 in s && a0 !in s then s + {a0} - {a1}
    else s
  }

  /** The tiles of `b` at the positions of the tiles of `s`. */
  function OnBoard(b: Board, s: set<Tile>): set<Tile>
    requires b.Valid()
  {
    set t | t in s && b.Holds(t.x, t.y) :: b.TileAt(t.x, t.y)
  }

  /** The two tiles at the move's cells once the move has been played. */
  function AfterMoveTiles(after: Board, m: Move): (a: seq<Tile>)
    requires after.Valid() && m.Filled()
    requires after.Holds(m.first.value.x, m.first.value.y)
    requires after.Holds(m.second.value.x, m.second.value.y)
    ensures |a| == 2 && after.IsTileOf(a[0]) && after.IsTileOf(a[1])
    ensures a[0].x == m.first.value.x && a[0].y == m.first.value.y
    ensures a[1].x == m.second.value.x && a[1].y == m.second.value.y
  {
    [after.TileAt(m.first.value.x, m.first.value.y), after.TileAt(m.second.value.x, m.second.value.y)]
  }

  /** What `initialCandiesRemoved` computes: play the move without crushing,
      gather the two swapped tiles and their neighbours, keep those that
      crush, and name them by the tiles of the board before the move. The
      move's direction array is computed first, so an unfilled or
      non-aligned move fails with its error. */
  function InitialRemoved(g: Game, h: CandiesRemovedHeuristic): (r: Result<set<Tile>>)
    requires g.Valid() && Playable(h)
    ensures r.Err? <==> h.move.ToDirArray().Err?
    ensures r.Err? ==> r.error == h.move.ToDirArray().error
  {
    var dir := h.move.ToDirArray();
    if dir.Err? then Err(dir.error)
    else
      var after := g.afterFirstMove(h.board, dir.value);
      var a := AfterMoveTiles(after, h.move);
      Ok(OnBoard(h.board, Transferred(TilesThatCrush(Gathered(after, a)), a[0], a[1])))
  }

  /** `initialCandiesRemoved`. */
  method InitialCandiesRemoved(g: Game, h: CandiesRemovedHeuristic) returns (r: Result<set<Tile>>)
    requires g.Valid() && Playable(h)
    ensures r == InitialRemoved(g, h)
  {
    var dir := h.move.ToDirArray();
    if dir.Err? {
      return Err(dir.error);
    }
    var after := g.afterFirstMove(h.board, dir.value);
    var afterMoveTiles := [after.TileAt(h.move.X1().value, h.move.Y1().value),
                           after.TileAt(h.move.X2().value, h.move.Y2().value)];
    assert afterMoveTiles == AfterMoveTiles(after, h.move);
    var tilesForRemoval := GatherCandidates(after, afterMoveTiles);
    tilesForRemoval := CollectCrushing(tilesForRemoval);
    var a0, a1 := afterMoveTiles[0], afterMoveTiles[1];
    if a0 in tilesForRemoval && a1 !in tilesForRemoval {
      tilesForRemoval := tilesForRemoval + {a1} - {a0};
    } else if a1 in tilesForRemoval && a0 !in tilesForRemoval {
      tilesForRemoval := tilesForRemoval + {a0} - {a1};
    }
    assert tilesForRemoval == Transferred(TilesThatCrush(Gathered(after, afterMoveTiles)), a0, a1);
    CandidatesHeld(h.board, after, a0, a1);
    var removedOnActualBoard := MatchOnBoard(h.board, tilesForRemoval);
    return Ok(removedOnActualBoard);
  }

  /** The loop of `initialCandiesRemoved` over the swapped tiles. */
  method GatherCandidates(b: Board, ts: seq<Tile>) returns (tiles: set<Tile>)
    requires b.Valid()
    ensures tiles == Gathered(b, ts)
  {
    tiles := {};
    for i := 0 to |ts|
      invariant tiles == Gathered(b, ts[..i])
    {
      var curTiles := CollectAdjacent(b, ts[i], 2);
      assert ts[..i + 1][..i] == ts[..i];
      tiles := tiles + curTiles + {ts[i]};
    }
    assert ts[..|ts|] == ts;
  }

  /** The loop of `initialCandiesRemoved` that takes each tile's position
      to the tile of `b` there. */
  method MatchOnBoard(b: Board, s: set<Tile>) returns (matched: set<Tile>)
    requires b.Valid() && forall t | t in s :: b.Holds(t.x, t.y)
    ensures matched == OnBoard(b, s)
  {
    matched := {};
    var rest := s;
    while rest != {}
      invariant rest <= s
      invariant matched == OnBoard(b, s - rest)
      decreases rest
    {
      var t :| t in rest;
      OnBoardAdd(b, s - rest, t);
      matched := matched + {b.TileAt(t.x, t.y)};
      assert s - (rest - {t}) == (s - rest) + {t};
      rest := rest - {t};
    }
    assert s - rest == s;
  }

  lemma {:induction false} OnBoardAdd(b: Board, s: set<Tile>, t: Tile)
    requires b.Valid() && b.Holds(t.x, t.y)
    ensures OnBoard(b, s + {t}) == OnBoard(b, s) + {b.TileAt(t.x, t.y)}
  {
  }

  /** Every gathered tile is a tile of the board it was gathered on. */
  lemma {:induction false} GatheredTiles(b: Board, ts: seq<Tile>, u: Tile)
    requires b.Valid() && forall i | 0 <= i < |ts| :: b.IsTileOf(ts[i])
    requires u in Gathered(b, ts)
    ensures b.IsTileOf(u)
  {
    var last := ts[|ts| - 1];
    if u in Gathered(b, ts[..|ts| - 1]) {
      GatheredTiles(b, ts[..|ts| - 1], u);
    } else if u in Adjacent(b, last, 2) {
      AdjacentTiles(b, last, 2, u);
    }
  }

  /** The transferred candidates are tiles of the board they were gathered
      on, so they lie on any board of its shape. */
  lemma CandidatesHeld(board: Board, after: Board, a0: Tile, a1: Tile)
    requires SameShape(board, after) && after.IsTileOf(a0) && after.IsTileOf(a1)
    ensures forall u | u in Transferred(TilesThatCrush(Gathered(after, [a0, a1])), a0, a1) ::
              after.IsTileOf(u) && board.Holds(u.x, u.y)
  {
    forall u | u in Transferred(TilesThatCrush(Gathered(after, [a0, a1])), a0, a1)
      ensures after.IsTileOf(u) && board.Holds(u.x, u.y)
    {
      if u != a0 && u != a1 {
        GatheredTiles(after, [a0, a1], u);
      }
    }
  }

  /** Matching tiles of one board to the tiles of another at the same
      positions neither merges nor drops any. */
  lemma {:induction false} OnBoardKeepsCount(b: Board, c: Board, s: set<Tile>)
    requires b.Valid() && SameShape(b, c) && forall u | u in s :: c.IsTileOf(u)
    ensures |OnBoard(b, s)| == |s|
    decreases s
  {
    if s != {} {
      var t :| t in s;
      OnBoardKeepsCount(b, c, s - {t});
      OnBoardKeepStep(b, c, s, t);
    }
  }

  /** Matching one more tile of `c` adds one more tile of `b`. */
  lemma OnBoardKeepStep(b: Board, c: Board, s: set<Tile>, t: Tile)
    requires b.Valid() && SameShape(b, c) && t in s && forall u | u in s :: c.IsTileOf(u)
    ensures |OnBoard(b, s)| == |OnBoard(b, s - {t})| + 1
  {
    OnBoardAdd(b, s - {t}, t);
    assert s - {t} + {t} == s;
    forall u | u in s - {t} && b.Holds(u.x, u.y)
      ensures b.TileAt(u.x, u.y) != b.TileAt(t.x, t.y)
    {
      TilesOfBoardByPosition(c, t, u);
    }
  }

  /** Every candy the move removes directly is a tile of the board before
      the move, and there are as many as crushing candidates: the transfer
      and the matching to the real board lose none and add none. */
  lemma InitialRemovedOnBoard(g: Game, h: CandiesRemovedHeuristic)
    requires g.Valid() && Playable(h) && h.move.ToDirArray().Ok?
    ensures forall t | t in InitialRemoved(g, h).value :: h.board.IsTileOf(t)
    ensures var after := g.afterFirstMove(h.board, h.move.ToDirArray().value);
            |InitialRemoved(g, h).value| == |TilesThatCrush(Gathered(after, AfterMoveTiles(after, h.move)))|
  {
    var after := g.afterFirstMove(h.board, h.move.ToDirArray().value);
    var a := AfterMoveTiles(after, h.move);
    assert a == [a[0], a[1]];
    assert a[0] != a[1];
    CandidatesHeld(h.board, after, a[0], a[1]);
    OnBoardKeepsCount(h.board, after, Transferred(TilesThatCrush(Gathered(after, a)), a[0], a[1]));
  }

  // ---------------------------------------------------------------------
  // The candies removed by chained crushes
  // ---------------------------------------------------------------------

  /** `countChainedCandiesRemoved`: while the board holds at least three
      n-ple tiles, count them, delete them and go on with the board that
      results. */
  function CountChained(g: Game, b: Board): (r: nat)
    requires g.Valid() && b.Valid()
    ensures r == 0 <==> |AllNPles(b)| <= 2
    ensures r != 0 ==> r >= |AllNPles(b)| >= 3
    decreases b.KnownCount()
  {
    var tilesForRemoval := AllNPles(b);
    var next := g.afterDeletingNples(b, b.pRows);
    if |tilesForRemoval| > 2 then |tilesForRemoval| + CountChained(g, next) else 0
  }

  /** The chain never removes more candies than the board has cells of
      known colour. */
  lemma {:induction false} ChainedWithinKnown(g: Game, b: Board)
    requires g.Valid() && b.Valid()
    ensures CountChained(g, b) <= b.KnownCount()
    decreases b.KnownCount()
  {
    if |AllNPles(b)| > 2 {
      ChainedWithinKnown(g, g.afterDeletingNples(b, b.pRows));
    }
  }

  // ---------------------------------------------------------------------
  // The score
  // ---------------------------------------------------------------------

  /** `n` limited to `[lo, hi]`. */
  function Clamp(n: int, lo: int, hi: int): (r: int)
    requires lo <= hi
    ensures lo <= r <= hi
    ensures lo <= n <= hi ==> r == n
    ensures n < lo ==> r == lo
    ensures n > hi ==> r == hi
  {
    if n < lo then lo else if n > hi then hi else n
  }

  /** The score of `n` removed candies on a board of `area` cells: 4 points
      for each of the first 6, 2 for each of the next 8, 1 for each of the
      next 10, and 50/area for each one beyond. */
  function ScoreOf(n: int, area: int): real
    requires area > 0
  {
    (4 * Clamp(n, 0, 6) + 2 * Clamp(n - 6, 0, 8) + Clamp(n - 14, 0, 10)) as real
    + (if n > 24 then ((n - 24) as real) * (50.0 / (area as real)) else 0.0)
  }

  /** The number of candies the move removes, directly and by the chain
      that follows its first crush. */
  function RemovedCount(g: Game, h: CandiesRemovedHeuristic): nat
    requires g.Valid() && Playable(h) && h.move.ToDirArray().Ok?
  {
    |InitialRemoved(g, h).value| + CountChained(g, g.afterFirstCrush(h.board, h.move.ToDirArray().value))
  }

  /** The number of cells of `b`, the divisor of the last tier. */
  function Area(b: Board): (a: int)
    requires b.Valid()
    ensures a > 0
  {
    b.rows * b.cols
  }

  lemma AreaAsReal(b: Board)
    requires b.Valid()
    ensures (b.rows as real) * (b.cols as real) == Area(b) as real
    ensures (b.rows as real) * (b.cols as real) > 0.0
  {
  }

  /** What `evaluate` computes. */
  function Score(g: Game, h: CandiesRemovedHeuristic): (r: Result<real>)
    requires g.Valid() && Playable(h)
    ensures r.Err? <==> h.move.ToDirArray().Err?
    ensures r.Err? ==> r.error == h.move.ToDirArray().error
  {
    var dir := h.move.ToDirArray();
    if dir.Err? then Err(dir.error)
    else Ok(ScoreOf(RemovedCount(g, h), Area(h.board)))
  }

  /** The first half of `evaluate`: the candies removed directly plus
      those removed by the chain after the first crush. */
  method CountRemoved(g: Game, h: CandiesRemovedHeuristic) returns (r: Result<nat>)
    requires g.Valid() && Playable(h)
    ensures r.Err? <==> h.move.ToDirArray().Err?
    ensures r.Err? ==> r.error == h.move.ToDirArray().error
    ensures r.Ok? ==> r.value == RemovedCount(g, h)
  {
    var initial := InitialCandiesRemoved(g, h);
    if initial.Err? {
      return Err(initial.error);
    }
    var crushed := g.afterFirstCrush(h.board, h.move.ToDirArray().value);
    return Ok(|initial.value| + CountChained(g, crushed));
  }

  /** `evaluate`: the count of removed candies, scored tier by tier. */
  method Evaluate(g: Game, h: CandiesRemovedHeuristic) returns (r: Result<real>)
    requires g.Valid() && Playable(h)
    ensures r == Score(g, h)
  {
    var count := CountRemoved(g, h);
    if count.Err? {
      return Err(count.error);
    }
    var score := TieredScore(count.value, h.board);
    return Ok(score);
  }

  /** The second half of `evaluate`: the score is built tier by tier,
      taking off each tier's size from the count as it goes. */
  method TieredScore(overallCandiesRemoved: int, board: Board) returns (score: real)
    requires board.Valid()
    ensures score == ScoreOf(overallCandiesRemoved, Area(board))
  {
    ghost var n := overallCandiesRemoved;
    var overall := overallCandiesRemoved;
    score := 0.0;
    if overall > 6 {
      score := score + 6.0 * 4.0;
    } else if overall > 0 {
      score := score + (overall as real) * 4.0;
    }
    overall := overall - 6;
    assert score == (4 * Clamp(n, 0, 6)) as real;

    if overall > 8 {
      score := score + 8.0 * 2.0;
    } else if overall > 0 {
      score := score + (overall as real) * 2.0;
    }
    overall := overall - 8;
    assert score == (4 * Clamp(n, 0, 6) + 2 * Clamp(n - 6, 0, 8)) as real;

    if overall > 10 {
      score := score + 10.0 * 1.0;
    } else if overall > 0 {
      score := score + (overall as real) * 1.0;
    }
    overall := overall - 10;
    assert score == (4 * Clamp(n, 0, 6) + 2 * Clamp(n - 6, 0, 8) + Clamp(n - 14, 0, 10)) as real;
    assert overall == n - 24;

    var area := (board.rows as real) * (board.cols as real);
    AreaAsReal(board);
    if overall > 0 {
      score := score + (overall as real) * (50.0 / area);
    }
  }

  // ---------------------------------------------------------------------
  // Properties of the score
  // ---------------------------------------------------------------------

  /** Up to six candies, each one is worth 4 points. */
  lemma FirstTier(n: int, area: int)
    requires area > 0 && 0 <= n <= 6
    ensures ScoreOf(n, area) == 4.0 * (n as real)
  {
  }

  /** Some scores, tier by tier: 12 for a plain three-in-a-row, 26 for
      seven candies, 30 for nine, 36 for twelve and 50 for twenty-four. */
  lemma ScoresByTier(area: int)
    requires area > 0
    ensures ScoreOf(0, area) == 0.0
    ensures ScoreOf(3, area) == 12.0
    ensures ScoreOf(7, area) == 26.0
    ensures ScoreOf(9, area) == 30.0
    ensures ScoreOf(12, area) == 36.0
    ensures ScoreOf(24, area) == 50.0
  {
  }

  /** Removing more candies never scores less. */
  lemma ScoreMonotone(n: int, m: int, area: int)
    requires area > 0 && n <= m
    ensures ScoreOf(n, area) <= ScoreOf(m, area)
  {
    if m > 24 {
      var unit := 50.0 / (area as real);
      assert unit > 0.0;
      if n > 24 {
        ScaleLe((n - 24) as real, (m - 24) as real, unit);
      }
    }
  }

  /** Fewer than `area + 24` candies score in `[0, 100)`. */
  lemma ScoreOfBounded(n: int, area: int)
    requires area > 0 && 0 <= n < area + 24
    ensures 0.0 <= ScoreOf(n, area) < 100.0
  {
    if n > 24 {
      var a := area as real;
      var unit := 50.0 / a;
      assert unit * a == 50.0;
      ScaleLe(0.0, (n - 24) as real, unit);
      ScaleLt((n - 24) as real, a, unit);
    }
  }

  lemma ScaleLe(x: real, y: real, u: real)
    requires x <= y && u >= 0.0
    ensures x * u <= y * u
  {
  }

  lemma ScaleLt(x: real, y: real, u: real)
    requires x < y && u > 0.0
    ensures x * u < y * u
  {
  }

  /** A walk of at most two steps in each of four directions finds at most
      eight neighbours. */
  lemma AdjacentAtMostEight(b: Board, t: Tile)
    requires b.Valid()
    ensures |Adjacent(b, t, 2)| <= 8
  {
    forall d | IsDirection(d)
      ensures |RayIn(b, t, d, 2)| <= 2
    {
      var step := Increment(d).value;
      RaySteps(b, t, step.0, step.1, 2);
      RaySize(b, t, step.0, step.1, 2);
    }
    var up, down, left, right := RayIn(b, t, UP, 2), RayIn(b, t, DOWN, 2), RayIn(b, t, LEFT, 2), RayIn(b, t, RIGHT, 2);
    UnionCard(up, down);
    UnionCard(up + down, left);
    UnionCard(up + down + left, right);
  }

  /** The move removes directly at most the two swapped tiles and eight
      neighbours of each. */
  lemma InitialAtMostEighteen(g: Game, h: CandiesRemovedHeuristic)
    requires g.Valid() && Playable(h) && h.move.ToDirArray().Ok?
    ensures |InitialRemoved(g, h).value| <= 18
  {
    var after := g.afterFirstMove(h.board, h.move.ToDirArray().value);
    RemovedAtMostEighteen(h.board, after, AfterMoveTiles(after, h.move));
  }

  /** The crushing tiles gathered around two tiles, transferred and
      matched to a board, are at most 18. */
  lemma RemovedAtMostEighteen(b: Board, after: Board, a: seq<Tile>)
    requires b.Valid() && after.Valid() && |a| == 2
    ensures |OnBoard(b, Transferred(TilesThatCrush(Gathered(after, a)), a[0], a[1]))| <= 18
  {
    var gathered := Gathered(after, a);
    GatheredAtMostEighteen(after, a);
    var crush := TilesThatCrush(gathered);
    SubsetCard(crush, gathered);
    var moved := Transferred(crush, a[0], a[1]);
    assert |moved| <= |crush|;
    OnBoardCard(b, moved);
  }

  lemma GatheredAtMostEighteen(b: Board, a: seq<Tile>)
    requires b.Valid() && |a| == 2
    ensures |Gathered(b, a)| <= 18
  {
    var first, second := Adjacent(b, a[0], 2), Adjacent(b, a[1], 2);
    assert a[..1][..0] == [] && a[..1] == [a[0]] && a[..2 - 1] == a[..1];
    assert Gathered(b, a[..1]) == first + {a[0]};
    assert Gathered(b, a) == Gathered(b, a[..1]) + second + {a[1]};
    AdjacentAtMostEight(b, a[0]);
    AdjacentAtMostEight(b, a[1]);
    UnionCard(first, {a[0]});
    UnionCard(first + {a[0]}, second);
    UnionCard(first + {a[0]} + second, {a[1]});
  }

  lemma {:induction false} OnBoardCard(b: Board, s: set<Tile>)
    requires b.Valid()
    ensures |OnBoard(b, s)| <= |s|
    decreases s
  {
    if s != {} {
      var t :| t in s;
      OnBoardCard(b, s - {t});
      OnBoardStep(b, s, t);
    }
  }

  /** Matching one more tile adds at most one tile of `b`. */
  lemma OnBoardStep(b: Board, s: set<Tile>, t: Tile)
    requires b.Valid() && t in s
    ensures |OnBoard(b, s)| <= |OnBoard(b, s - {t})| + 1
  {
    assert s - {t} + {t} == s;
    if b.Holds(t.x, t.y) {
      OnBoardAdd(b, s - {t}, t);
    } else {
      assert OnBoard(b, s) == OnBoard(b, s - {t});
    }
  }

  /** The score lies in `[0, 100)`, as the heuristic promises: the direct
      removals are at most 18, and the chain removes at most the known
      cells of the board. */
  lemma ScoreInRange(g: Game, h: CandiesRemovedHeuristic)
    requires g.Valid() && Playable(h) && Score(g, h).Ok?
    ensures 0.0 <= Score(g, h).value < 100.0
  {
    var crushed := g.afterFirstCrush(h.board, h.move.ToDirArray().value);
    InitialAtMostEighteen(g, h);
    ChainedWithinKnown(g, crushed);
    KnownWithinGrid(crushed);
    ScoreOfBounded(RemovedCount(g, h), Area(h.board));
  }
}
