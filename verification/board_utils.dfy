/** Run detection on a board: straight same-colour walks, their four-way
    union, the "three of one colour in a row or column" filter and the
    board-wide scan built on them. */
module BoardUtils {
  import opened Wrappers
  import opened Boards
  import opened Sets

  /** The four directions, in the order the adjacency search visits them. */
  const DIRECTIONS: seq<int> := [UP, DOWN, LEFT, RIGHT]

  // ---------------------------------------------------------------------
  // Coordinates and ordering
  // ---------------------------------------------------------------------

  /** Playable coordinates of a board: the hidden rows above `pRows` are out. */
  predicate IsValidCords(b: Board, x: int, y: int) {
    0 <= x < b.cols && 0 <= y < b.pRows
  }

  /** `isValidCords(board, x, y)` with the null-board check. */
  function CheckValidCords(board: Option<Board>, x: int, y: int): (r: Result<bool>)
    ensures board.None? <==> r == Err(NullBoard)
    ensures board.Some? ==> r.Ok? && (r.value <==> 0 <= x < board.value.cols && 0 <= y < board.value.pRows)
  {
    if board.None? then Err(NullBoard) else Ok(IsValidCords(board.value, x, y))
  }

  /** Board size of the game, from CrushUtilities. Those constants are not
      part of this model; 10 x 10 is the model's choice of their values. */
  const NUMBER_OF_COLUMNS: int := 10
  const NUMBER_OF_PLAYABLE_ROWS: int := 10

  /** `isValidCords(x, y)`: the same test against the game's constant size. */
  function IsValidGameCords(x: int, y: int): (r: bool)
    ensures r <==> 0 <= x < NUMBER_OF_COLUMNS && 0 <= y < NUMBER_OF_PLAYABLE_ROWS
    ensures r ==> forall b: Board | b.cols == NUMBER_OF_COLUMNS && b.pRows == NUMBER_OF_PLAYABLE_ROWS
                    :: IsValidCords(b, x, y)
  {
    0 <= x < NUMBER_OF_COLUMNS && 0 <= y < NUMBER_OF_PLAYABLE_ROWS
  }

  /** `TileFirstByYThenByX.compare`: rows first, then columns. */
  function CompareByYThenX(t1: Tile, t2: Tile): (r: int)
    ensures r == -1 || r == 0 || r == 1
    ensures r == 0 <==> t1.x == t2.x && t1.y == t2.y
    ensures r == -1 <==> t1.y < t2.y || (t1.y == t2.y && t1.x < t2.x)
  {
    if t1.y > t2.y then 1
    else if t1.y < t2.y then -1
    else if t1.x > t2.x then 1
    else if t1.x < t2.x then -1
    else 0
  }

  /** The comparator orders positions totally: it is antisymmetric and transitive. */
  lemma {:induction false} CompareIsOrder(t1: Tile, t2: Tile, t3: Tile)
    ensures CompareByYThenX(t1, t2) == -CompareByYThenX(t2, t1)
    ensures CompareByYThenX(t1, t2) <= 0 && CompareByYThenX(t2, t3) <= 0 ==> CompareByYThenX(t1, t3) <= 0
  {
  }

  // ---------------------------------------------------------------------
  // Walking in one direction
  // ---------------------------------------------------------------------

  /** The coordinate step of a direction code, or None for an unknown code. */
  function Increment(direction: int): (r: Option<(int, int)>)
    ensures r.Some? <==> IsDirection(direction)
    ensures direction == UP ==> r == Some((0, 1))
    ensures direction == DOWN ==> r == Some((0, -1))
    ensures direction == LEFT ==> r == Some((-1, 0))
    ensures direction == RIGHT ==> r == Some((1, 0))
  {
    if direction == UP then Some((0, 1))
    else if direction == DOWN then Some((0, -1))
    else if direction == LEFT then Some((-1, 0))
    else if direction == RIGHT then Some((1, 0))
    else None
  }

  predicate IsUnitStep(dx: int, dy: int) {
    (dx == 0 && (dy == 1 || dy == -1)) || (dy == 0 && (dx == 1 || dx == -1))
  }

  /** The playable cell at `(x, y)` exists and has colour `c`. */
  predicate SameColorAt(b: Board, x: int, y: int, c: int)
    requires b.Valid()
  {
    IsValidCords(b, x, y) && b.cells[y][x] == c
  }

  /** A step of at most one cell along each axis. */
  predicate IsStep(dx: int, dy: int) {
    -1 <= dx <= 1 && -1 <= dy <= 1
  }

  /** `i` times a step component `d` of -1, 0 or 1. */
  function Offset(i: int, d: int): int {
    if d == 1 then i else if d == -1 then -i else 0
  }

  /** The tile `i` steps away from `t` along `(dx, dy)`, with `t`'s colour. */
  function StepTile(t: Tile, dx: int, dy: int, i: int): Tile {
    Tile(t.x + Offset(i, dx), t.y + Offset(i, dy), t.color)
  }

  predicate StepMatches(b: Board, t: Tile, dx: int, dy: int, i: int)
    requires b.Valid()
  {
    SameColorAt(b, t.x + Offset(i, dx), t.y + Offset(i, dy), t.color)
  }

  /** The number of steps the walk takes: it steps to the next cell while
      that cell is playable and has the colour of the cell before it, at most
      `max` times. */
  function RayLength(b: Board, t: Tile, dx: int, dy: int, max: int): nat
    requires b.Valid()
    decreases max
  {
    if max <= 0 || !SameColorAt(b, t.x + dx, t.y + dy, t.color) then 0
    else 1 + RayLength(b, b.TileAt(t.x + dx, t.y + dy), dx, dy, max - 1)
  }

  /** One step from `t` and then `i - 1` more is `i` steps from `t`. */
  lemma {:induction false} StepShift(b: Board, t: Tile, dx: int, dy: int, i: int)
    requires b.Valid() && IsStep(dx, dy) && SameColorAt(b, t.x + dx, t.y + dy, t.color)
    ensures StepTile(b.TileAt(t.x + dx, t.y + dy), dx, dy, i - 1) == StepTile(t, dx, dy, i)
    ensures StepMatches(b, b.TileAt(t.x + dx, t.y + dy), dx, dy, i - 1) == StepMatches(b, t, dx, dy, i)
  {
  }

  /** The walk takes at most `max` steps, each onto a playable cell of the
      start colour, and stops early only at the border or at another colour. */
  lemma {:induction false} RaySteps(b: Board, t: Tile, dx: int, dy: int, max: int)
    requires b.Valid() && IsStep(dx, dy)
    ensures RayLength(b, t, dx, dy, max) <= (if max < 0 then 0 else max)
    ensures forall i | 1 <= i <= RayLength(b, t, dx, dy, max) :: StepMatches(b, t, dx, dy, i)
    ensures RayLength(b, t, dx, dy, max) < max ==>
              !StepMatches(b, t, dx, dy, RayLength(b, t, dx, dy, max) + 1)
    decreases max
  {
    if max > 0 && SameColorAt(b, t.x + dx, t.y + dy, t.color) {
      var next := b.TileAt(t.x + dx, t.y + dy);
      RaySteps(b, next, dx, dy, max - 1);
      var k := RayLength(b, next, dx, dy, max - 1);
      assert RayLength(b, t, dx, dy, max) == k + 1;
      ShiftSteps(b, t, next, dx, dy, k);
      StepShift(b, t, dx, dy, k + 2);
    }
  }

  /** `k` matching steps from the next cell of a walk are `k + 1` matching
      steps from its start. */
  lemma ShiftSteps(b: Board, t: Tile, next: Tile, dx: int, dy: int, k: int)
    requires b.Valid() && IsStep(dx, dy) && SameColorAt(b, t.x + dx, t.y + dy, t.color)
    requires next == b.TileAt(t.x + dx, t.y + dy)
    requires forall i | 1 <= i <= k :: StepMatches(b, next, dx, dy, i)
    ensures forall i | 1 <= i <= k + 1 :: StepMatches(b, t, dx, dy, i)
  {
    forall i | 1 <= i <= k + 1
      ensures StepMatches(b, t, dx, dy, i)
    {
      StepShift(b, t, dx, dy, i);
    }
  }

  /** What the walk collects: the tiles at steps 1..k, k being its length. */
  function Ray(b: Board, t: Tile, dx: int, dy: int, max: int): set<Tile>
    requires b.Valid()
  {
    set i | 1 <= i <= RayLength(b, t, dx, dy, max) :: StepTile(t, dx, dy, i)
  }

  /** The walk step by step: the next cell, then the walk from there. */
  lemma {:induction false} RayUnfold(b: Board, t: Tile, dx: int, dy: int, max: int)
    requires b.Valid() && IsStep(dx, dy)
    ensures Ray(b, t, dx, dy, max) ==
              if max <= 0 || !SameColorAt(b, t.x + dx, t.y + dy, t.color) then {}
              else {b.TileAt(t.x + dx, t.y + dy)} + Ray(b, b.TileAt(t.x + dx, t.y + dy), dx, dy, max - 1)
  {
    if max > 0 && SameColorAt(b, t.x + dx, t.y + dy, t.color) {
      var next := b.TileAt(t.x + dx, t.y + dy);
      RayHead(b, t, next, dx, dy, max);
      RayTail(b, t, next, dx, dy, max);
    }
  }

  /** Every tile of a walk is its next cell or on the walk from there. */
  lemma RayHead(b: Board, t: Tile, next: Tile, dx: int, dy: int, max: int)
    requires b.Valid() && IsStep(dx, dy) && max > 0 && SameColorAt(b, t.x + dx, t.y + dy, t.color)
    requires next == b.TileAt(t.x + dx, t.y + dy)
    ensures Ray(b, t, dx, dy, max) <= {next} + Ray(b, next, dx, dy, max - 1)
  {
    var k := RayLength(b, next, dx, dy, max - 1);
    assert RayLength(b, t, dx, dy, max) == k + 1;
    forall u | u in Ray(b, t, dx, dy, max) ensures u in {next} + Ray(b, next, dx, dy, max - 1) {
      var i :| 1 <= i <= k + 1 && u == StepTile(t, dx, dy, i);
      StepShift(b, t, dx, dy, i);
    }
  }

  /** The next cell of a walk and the walk from there are on the walk. */
  lemma RayTail(b: Board, t: Tile, next: Tile, dx: int, dy: int, max: int)
    requires b.Valid() && IsStep(dx, dy) && max > 0 && SameColorAt(b, t.x + dx, t.y + dy, t.color)
    requires next == b.TileAt(t.x + dx, t.y + dy)
    ensures {next} + Ray(b, next, dx, dy, max - 1) <= Ray(b, t, dx, dy, max)
  {
    var k := RayLength(b, next, dx, dy, max - 1);
    assert RayLength(b, t, dx, dy, max) == k + 1;
    StepShift(b, t, dx, dy, 1);
    forall u | u in Ray(b, next, dx, dy, max - 1) ensures u in Ray(b, t, dx, dy, max) {
      var i :| 1 <= i <= k && u == StepTile(next, dx, dy, i);
      StepShift(b, t, dx, dy, i + 1);
    }
    assert next in Ray(b, t, dx, dy, max);
  }

  /** A walk holds at most one tile per step. */
  lemma {:induction false} RaySize(b: Board, t: Tile, dx: int, dy: int, max: int)
    requires b.Valid() && IsStep(dx, dy)
    ensures |Ray(b, t, dx, dy, max)| <= RayLength(b, t, dx, dy, max)
    decreases max
  {
    RayUnfold(b, t, dx, dy, max);
    if max > 0 && SameColorAt(b, t.x + dx, t.y + dy, t.color) {
      var next := b.TileAt(t.x + dx, t.y + dy);
      RaySize(b, next, dx, dy, max - 1);
      AddOneCard(next, Ray(b, next, dx, dy, max - 1), Ray(b, t, dx, dy, max));
    }
  }

  /** Every tile of a walk is a playable tile of the board with the start colour. */
  lemma {:induction false} RayTiles(b: Board, t: Tile, dx: int, dy: int, max: int, u: Tile)
    requires b.Valid() && IsStep(dx, dy) && u in Ray(b, t, dx, dy, max)
    ensures b.IsTileOf(u) && IsValidCords(b, u.x, u.y) && u.color == t.color
  {
    RaySteps(b, t, dx, dy, max);
    var i :| 1 <= i <= RayLength(b, t, dx, dy, max) && u == StepTile(t, dx, dy, i);
    assert StepMatches(b, t, dx, dy, i);
  }

  /** The walk never holds its own starting position. */
  lemma {:induction false} RayExcludesStart(b: Board, t: Tile, dx: int, dy: int, max: int, u: Tile)
    requires b.Valid() && IsUnitStep(dx, dy) && u in Ray(b, t, dx, dy, max)
    ensures (u.x, u.y) != (t.x, t.y)
    ensures dx == 0 ==> u.x == t.x && u.y != t.y
    ensures dy == 0 ==> u.y == t.y && u.x != t.x
  {
    var i :| 1 <= i <= RayLength(b, t, dx, dy, max) && u == StepTile(t, dx, dy, i);
  }

  /** If the first `j` steps all match and the bound allows `j` steps, the
      walk reaches step `j`. */
  lemma {:induction false} RayReaches(b: Board, t: Tile, dx: int, dy: int, max: int, j: int)
    requires b.Valid() && IsStep(dx, dy) && 1 <= j <= max
    requires forall i | 1 <= i <= j :: StepMatches(b, t, dx, dy, i)
    ensures StepTile(t, dx, dy, j) in Ray(b, t, dx, dy, max)
  {
    RaySteps(b, t, dx, dy, max);
  }

  /** The walk itself. */
  method WalkRay(b: Board, t: Tile, dx: int, dy: int, max: int) returns (tiles: set<Tile>)
    requires b.Valid() && IsStep(dx, dy)
    ensures tiles == Ray(b, t, dx, dy, max)
  {
    tiles := {};
    var current := t;
    var i := 0;
    while i < max
      invariant 0 <= i && (max >= 0 ==> i <= max)
      invariant current.color == t.color
      invariant tiles + Ray(b, current, dx, dy, max - i) == Ray(b, t, dx, dy, max)
      decreases max - i
    {
      var nextX, nextY := current.x + dx, current.y + dy;
      if !IsValidCords(b, nextX, nextY) {
        WalkEnds(b, current, dx, dy, max - i);
        break;
      }
      var next := b.TileAt(nextX, nextY);
      if current.color == next.color {
        WalkGoesOn(b, current, next, dx, dy, max - i);
        tiles := tiles + {next};
      } else {
        WalkEnds(b, current, dx, dy, max - i);
        break;
      }
      current := next;
      i := i + 1;
    }
  }

  /** A walk that cannot take its next step is empty. */
  lemma WalkEnds(b: Board, t: Tile, dx: int, dy: int, max: int)
    requires b.Valid() && IsStep(dx, dy)
    requires !SameColorAt(b, t.x + dx, t.y + dy, t.color)
    ensures Ray(b, t, dx, dy, max) == {}
  {
    RayUnfold(b, t, dx, dy, max);
  }

  /** A walk that takes its next step is that cell and the walk from it. */
  lemma WalkGoesOn(b: Board, t: Tile, next: Tile, dx: int, dy: int, max: int)
    requires b.Valid() && IsStep(dx, dy) && max > 0
    requires SameColorAt(b, t.x + dx, t.y + dy, t.color) && next == b.TileAt(t.x + dx, t.y + dy)
    ensures Ray(b, t, dx, dy, max) == {next} + Ray(b, next, dx, dy, max - 1)
  {
    RayUnfold(b, t, dx, dy, max);
  }

  /** `findInDirectionSameColorTiles`: checks the board, then the tile, then
      the direction, and walks. */
  method FindInDirectionSameColorTiles(board: Option<Board>, tile: Option<Tile>, direction: int, max: int)
    returns (r: Result<set<Tile>>)
    requires board.Some? ==> board.value.Valid()
    ensures board.None? ==> r == Err(NullBoard)
    ensures board.Some? && tile.None? ==> r == Err(NullTile)
    ensures board.Some? && tile.Some? && !IsDirection(direction) ==> r == Err(InvalidDirections)
    ensures r.Ok? <==> board.Some? && tile.Some? && IsDirection(direction)
    ensures r.Ok? ==>
              var (dx, dy) := Increment(direction).value;
              r.value == Ray(board.value, tile.value, dx, dy, max)
  {
    if board.None? {
      return Err(NullBoard);
    }
    if tile.None? {
      return Err(NullTile);
    }
    var step := Increment(direction);
    if step.None? {
      return Err(InvalidDirections);
    }
    var tiles := WalkRay(board.value, tile.value, step.value.0, step.value.1, max);
    r := Ok(tiles);
  }

  // ---------------------------------------------------------------------
  // Walking in all four directions
  // ---------------------------------------------------------------------

  /** The walk in direction `d`. */
  function RayIn(b: Board, t: Tile, d: int, max: int): set<Tile>
    requires b.Valid() && IsDirection(d)
  {
    var step := Increment(d).value;
    Ray(b, t, step.0, step.1, max)
  }

  /** What `findAdjacentSameColorTiles` promises: the union of the four walks. */
  function Adjacent(b: Board, t: Tile, max: int): set<Tile>
    requires b.Valid()
  {
    RayIn(b, t, UP, max) + RayIn(b, t, DOWN, max) + RayIn(b, t, LEFT, max) + RayIn(b, t, RIGHT, max)
  }

  /** The union of the walks in the given directions. */
  function RaysAlong(b: Board, t: Tile, dirs: seq<int>, max: int): set<Tile>
    requires b.Valid() && forall i | 0 <= i < |dirs| :: IsDirection(dirs[i])
  {
    if dirs == [] then {}
    else RaysAlong(b, t, dirs[..|dirs| - 1], max) + RayIn(b, t, dirs[|dirs| - 1], max)
  }

  /** A neighbour found by the adjacency search is a playable tile of the
      board, of the start colour, on the start's row or column, and never the
      start itself. */
  lemma {:induction false} AdjacentTiles(b: Board, t: Tile, max: int, u: Tile)
    requires b.Valid() && u in Adjacent(b, t, max)
    ensures b.IsTileOf(u) && IsValidCords(b, u.x, u.y) && u.color == t.color
    ensures (u.x == t.x && u.y != t.y) || (u.y == t.y && u.x != t.x)
  {
    var d :| d in DIRECTIONS && u in RayIn(b, t, d, max);
    var step := Increment(d).value;
    RayTiles(b, t, step.0, step.1, max, u);
    RayExcludesStart(b, t, step.0, step.1, max, u);
  }

  /** Walking the directions of DIRECTIONS one after the other collects the
      four-way union. */
  lemma {:induction false} RaysAlongDirections(b: Board, t: Tile, max: int)
    requires b.Valid()
    ensures RaysAlong(b, t, DIRECTIONS, max) == Adjacent(b, t, max)
  {
    assert DIRECTIONS[..3] == [UP, DOWN, LEFT];
    assert [UP, DOWN, LEFT][..2] == [UP, DOWN];
    assert [UP, DOWN][..1] == [UP];
    assert [UP][..0] == [];
    assert RaysAlong(b, t, [UP], max) == RayIn(b, t, UP, max);
    assert RaysAlong(b, t, [UP, DOWN], max) == RayIn(b, t, UP, max) + RayIn(b, t, DOWN, max);
    assert RaysAlong(b, t, [UP, DOWN, LEFT], max)
        == RayIn(b, t, UP, max) + RayIn(b, t, DOWN, max) + RayIn(b, t, LEFT, max);
  }

  /** The four walks, collected in the order of DIRECTIONS. */
  method CollectAdjacent(b: Board, t: Tile, dirMax: int) returns (tiles: set<Tile>)
    requires b.Valid()
    ensures tiles == Adjacent(b, t, dirMax)
  {
    tiles := {};
    for i := 0 to |DIRECTIONS|
      invariant tiles == RaysAlong(b, t, DIRECTIONS[..i], dirMax)
    {
      var step := Increment(DIRECTIONS[i]).value;
      var found := WalkRay(b, t, step.0, step.1, dirMax);
      assert DIRECTIONS[..i + 1][..i] == DIRECTIONS[..i];
      tiles := tiles + found;
    }
    assert DIRECTIONS[..4] == DIRECTIONS;
    RaysAlongDirections(b, t, dirMax);
  }

  /** `findAdjacentSameColorTiles`: checks the board, then the tile. */
  method FindAdjacentSameColorTiles(board: Option<Board>, tile: Option<Tile>, dirMax: int)
    returns (r: Result<set<Tile>>)
    requires board.Some? ==> board.value.Valid()
    ensures board.None? ==> r == Err(NullBoard)
    ensures board.Some? && tile.None? ==> r == Err(NullTile)
    ensures r.Ok? <==> board.Some? && tile.Some?
    ensures r.Ok? ==> r.value == Adjacent(board.value, tile.value, dirMax)
    ensures r.Ok? ==> tile.value !in r.value
  {
    if board.None? {
      return Err(NullBoard);
    }
    if tile.None? {
      return Err(NullTile);
    }
    var tiles := CollectAdjacent(board.value, tile.value, dirMax);
    if tile.value in tiles {
      AdjacentTiles(board.value, tile.value, dirMax, tile.value);
    }
    r := Ok(tiles);
  }

  // ---------------------------------------------------------------------
  // Tiles that crush
  // ---------------------------------------------------------------------

  /** Tiles are grouped by colour and by column (SameX) or by row (SameY). */
  datatype Axis = SameX | SameY

  datatype GroupKey = GroupKey(color: int, axis: Axis, coord: int)

  function KeyOf(t: Tile, axis: Axis): GroupKey {
    GroupKey(t.color, axis, if axis == SameX then t.x else t.y)
  }

  /** The members of `s` that fall in group `k`. */
  function Group(s: set<Tile>, k: GroupKey): set<Tile> {
    set u | u in s && KeyOf(u, k.axis) == k
  }

  /** Every group some member of `s` falls in. */
  function KeysOf(s: set<Tile>): set<GroupKey> {
    (set u | u in s :: KeyOf(u, SameX)) + (set u | u in s :: KeyOf(u, SameY))
  }

  /** A tile of `s` crushes when its colour is known and `s` holds at least
      three tiles of that colour in its column or in its row. Contiguity is not
      required. */
  predicate Crushes(s: set<Tile>, t: Tile) {
    t.color != UNKNOWN && (|Group(s, KeyOf(t, SameX))| >= 3 || |Group(s, KeyOf(t, SameY))| >= 3)
  }

  function TilesThatCrush(s: set<Tile>): (r: set<Tile>)
    ensures r <= s
    ensures forall t | t in r :: t.color != UNKNOWN
  {
    set t | t in s && Crushes(s, t)
  }

  /** The tiles of `s` whose column or row group among the keys `ks` is large. */
  function CrushedBy(s: set<Tile>, ks: set<GroupKey>): set<Tile> {
    set u | u in s && ((KeyOf(u, SameX) in ks && |Group(s, KeyOf(u, SameX))| >= 3)
                       || (KeyOf(u, SameY) in ks && |Group(s, KeyOf(u, SameY))| >= 3))
  }

  /** A group of at least three tiles crushes as a whole, so filtering a
      second time keeps everything: the filter is idempotent. */
  lemma {:induction false} CrushIdempotent(s: set<Tile>)
    ensures TilesThatCrush(TilesThatCrush(s)) == TilesThatCrush(s)
  {
    var r := TilesThatCrush(s);
    forall t | t in r ensures Crushes(r, t) {
      var axis := if |Group(s, KeyOf(t, SameX))| >= 3 then SameX else SameY;
      var k := KeyOf(t, axis);
      forall u | u in Group(s, k) ensures u in r {
        assert KeyOf(u, axis) == k;
        assert Group(s, KeyOf(u, axis)) == Group(s, k);
      }
      assert Group(r, k) == Group(s, k);
    }
  }

  /** The list filed under `k`, empty when there is none yet. */
  function ListOf(groups: map<GroupKey, seq<Tile>>, k: GroupKey): seq<Tile> {
    if k in groups then groups[k] else []
  }

  /** `groups` lists, under each key, exactly the tiles of `done` in that group. */
  ghost predicate Categorizes(groups: map<GroupKey, seq<Tile>>, done: set<Tile>) {
    && groups.Keys == KeysOf(done)
    && forall k | k in groups :: (set u | u in groups[k]) == Group(done, k) && |groups[k]| == |Group(done, k)|
  }

  lemma {:induction false} GroupAdd(done: set<Tile>, t: Tile, k: GroupKey)
    ensures Group(done + {t}, k) == if KeyOf(t, k.axis) == k then Group(done, k) + {t} else Group(done, k)
  {
  }

  lemma {:induction false} KeysAdd(done: set<Tile>, t: Tile)
    ensures KeysOf(done + {t}) == KeysOf(done) + {KeyOf(t, SameX), KeyOf(t, SameY)}
  {
  }

  lemma {:induction false} ElementsAppend(xs: seq<Tile>, t: Tile)
    ensures (set u | u in xs + [t]) == (set u | u in xs) + {t}
  {
  }

  /** The list filed under `k` after filing `t`. */
  lemma {:induction false} CategorizeKey(groups: map<GroupKey, seq<Tile>>, done: set<Tile>, t: Tile, k: GroupKey, list: seq<Tile>)
    requires Categorizes(groups, done) && t !in done
    requires k in groups || KeyOf(t, k.axis) == k
    requires list == if KeyOf(t, k.axis) == k then ListOf(groups, k) + [t] else ListOf(groups, k)
    ensures (set u | u in list) == Group(done + {t}, k) && |list| == |Group(done + {t}, k)|
  {
    GroupAdd(done, t, k);
    if KeyOf(t, k.axis) == k {
      assert t !in Group(done, k);
      if k !in groups {
        assert Group(done, k) == {};
      }
      ElementsAppend(ListOf(groups, k), t);
    }
  }

  /** Filing a new tile under its column key and its row key. */
  lemma {:induction false} CategorizeStep(groups: map<GroupKey, seq<Tile>>, done: set<Tile>, t: Tile)
    requires Categorizes(groups, done) && t !in done
    ensures Categorizes(groups[KeyOf(t, SameX) := ListOf(groups, KeyOf(t, SameX)) + [t]]
                              [KeyOf(t, SameY) := ListOf(groups, KeyOf(t, SameY)) + [t]], done + {t})
  {
    var kx, ky := KeyOf(t, SameX), KeyOf(t, SameY);
    var next := groups[kx := ListOf(groups, kx) + [t]][ky := ListOf(groups, ky) + [t]];
    KeysAdd(done, t);
    forall k | k in next
      ensures (set u | u in next[k]) == Group(done + {t}, k) && |next[k]| == |Group(done + {t}, k)|
    {
      CategorizeKey(groups, done, t, k, next[k]);
    }
  }

  /** The tiles of `s` with their column and row groups, as lists. */
  method CategorizeTiles(s: set<Tile>) returns (groups: map<GroupKey, seq<Tile>>)
    ensures Categorizes(groups, s)
  {
    groups := map[];
    var rest := s;
    ghost var done: set<Tile> := {};
    while rest != {}
      invariant rest + done == s && rest !! done
      invariant Categorizes(groups, done)
      decreases rest
    {
      var t :| t in rest;
      var kx, ky := KeyOf(t, SameX), KeyOf(t, SameY);
      var byX := ListOf(groups, kx);
      var byY := ListOf(groups, ky);
      CategorizeStep(groups, done, t);
      groups := groups[kx := byX + [t]][ky := byY + [t]];
      rest := rest - {t};
      done := done + {t};
    }
  }

  /** Visiting one more group key. */
  lemma {:induction false} CrushedByStep(s: set<Tile>, visited: set<GroupKey>, k: GroupKey)
    ensures CrushedBy(s, visited + {k}) ==
              CrushedBy(s, visited) + (if |Group(s, k)| >= 3 then Group(s, k) else {})
  {
    if |Group(s, k)| >= 3 {
      forall u | u in Group(s, k) ensures u in CrushedBy(s, visited + {k}) {
        assert KeyOf(u, k.axis) == k;
      }
    }
  }

  /** Visiting every key of known colour finds exactly the crushing tiles. */
  lemma {:induction false} CrushedByAllKnown(s: set<Tile>)
    ensures CrushedBy(s, set k | k in KeysOf(s) && k.color != UNKNOWN) == TilesThatCrush(s)
  {
    var known := set k | k in KeysOf(s) && k.color != UNKNOWN;
    forall u | u in s && u.color != UNKNOWN ensures KeyOf(u, SameX) in known && KeyOf(u, SameY) in known {
      assert KeyOf(u, SameX) in KeysOf(s) && KeyOf(u, SameY) in KeysOf(s);
    }
  }

  /** The loop of `findTilesThatCrush` over the groups of known colour:
      every tile of a group of three or more. */
  method CollectGroups(s: set<Tile>, groups: map<GroupKey, seq<Tile>>) returns (crush: set<Tile>)
    requires forall k | k in groups :: (set u | u in groups[k]) == Group(s, k) && |groups[k]| == |Group(s, k)|
    ensures crush == CrushedBy(s, groups.Keys)
  {
    crush := {};
    var keys := groups.Keys;
    while keys != {}
      invariant keys <= groups.Keys
      invariant crush == CrushedBy(s, groups.Keys - keys)
      decreases keys
    {
      var k :| k in keys;
      CrushedByStep(s, groups.Keys - keys, k);
      if |groups[k]| > 2 {
        crush := crush + (set u | u in groups[k]);
      }
      MoveOne(groups.Keys, keys, k);
      keys := keys - {k};
    }
    assert groups.Keys - keys == groups.Keys;
  }

  /** The crushing tiles, collected group by group. */
  method CollectCrushing(s: set<Tile>) returns (crush: set<Tile>)
    ensures crush == TilesThatCrush(s)
  {
    var categorized := CategorizeTiles(s);
    // The groups of unknown colour are dropped as a whole.
    var groups := map k | k in categorized && k.color != UNKNOWN :: categorized[k];
    crush := CollectGroups(s, groups);
    CrushedByAllKnown(s);
    assert groups.Keys == set k | k in KeysOf(s) && k.color != UNKNOWN;
  }

  /** `findTilesThatCrush`, with its null check. */
  method FindTilesThatCrush(possibleAdjacentTiles: Option<set<Tile>>) returns (r: Result<set<Tile>>)
    ensures possibleAdjacentTiles.None? <==> r == Err(NullTile)
    ensures r.Ok? ==> r.value == TilesThatCrush(possibleAdjacentTiles.value)
  {
    if possibleAdjacentTiles.None? {
      return Err(NullTile);
    }
    var crush := CollectCrushing(possibleAdjacentTiles.value);
    r := Ok(crush);
  }

  // ---------------------------------------------------------------------
  // All n-ples of a board
  // ---------------------------------------------------------------------

  /** `t` lies in three consecutive playable cells of its own colour along
      the line through it in direction `(dx, dy)`. */
  predicate InLineOfThree(b: Board, t: Tile, dx: int, dy: int)
    requires b.Valid()
  {
    || (StepMatches(b, t, dx, dy, -2) && StepMatches(b, t, dx, dy, -1) && StepMatches(b, t, dx, dy, 0))
    || (StepMatches(b, t, dx, dy, -1) && StepMatches(b, t, dx, dy, 0) && StepMatches(b, t, dx, dy, 1))
    || (StepMatches(b, t, dx, dy, 0) && StepMatches(b, t, dx, dy, 1) && StepMatches(b, t, dx, dy, 2))
  }

  /** A known-colour tile in a vertical or horizontal line of three or more. */
  predicate IsNPle(b: Board, t: Tile)
    requires b.Valid()
  {
    t.color != UNKNOWN && (InLineOfThree(b, t, 0, 1) || InLineOfThree(b, t, 1, 0))
  }

  /** What `findAllNPles` promises: the playable tiles that are part of an n-ple. */
  function AllNPles(b: Board): set<Tile>
    requires b.Valid()
  {
    set x, y | 0 <= x < b.cols && 0 <= y < b.pRows && IsNPle(b, b.TileAt(x, y)) :: b.TileAt(x, y)
  }

  /** The candidates the scan checks around `o`: its unbounded walks and itself. */
  function Plus(b: Board, o: Tile): set<Tile>
    requires b.Valid()
  {
    Adjacent(b, o, MAX_INT) + {o}
  }

  predicate IsLineDirection(dx: int, dy: int) {
    (dx == 0 && dy == 1) || (dx == 1 && dy == 0)
  }

  /** The group key of the line in direction `(dx, dy)`: a column for a
      vertical line, a row for a horizontal one. */
  function LineAxis(dx: int): Axis {
    if dx == 0 then SameX else SameY
  }

  /** The candidates around `o` are `o` and its walks in the four directions. */
  lemma {:induction false} PlusFourWalks(b: Board, o: Tile)
    requires b.Valid()
    ensures Plus(b, o) == {o} + Ray(b, o, 0, 1, MAX_INT) + Ray(b, o, 0, -1, MAX_INT)
                          + Ray(b, o, 1, 0, MAX_INT) + Ray(b, o, -1, 0, MAX_INT)
  {
  }

  /** The same, sorted into the walks along a line and the walks across it. */
  lemma {:induction false} PlusByLine(b: Board, o: Tile, dx: int, dy: int)
    requires b.Valid() && IsLineDirection(dx, dy)
    ensures Plus(b, o) == {o} + Ray(b, o, dx, dy, MAX_INT) + Ray(b, o, -dx, -dy, MAX_INT)
                          + Ray(b, o, dy, dx, MAX_INT) + Ray(b, o, -dy, -dx, MAX_INT)
  {
    PlusFourWalks(b, o);
    LineWalks(b, o, dx, dy, MAX_INT);
  }

  /** The four walks of any length, regrouped by a line direction. */
  lemma LineWalks(b: Board, o: Tile, dx: int, dy: int, max: int)
    requires b.Valid() && IsLineDirection(dx, dy)
    ensures {o} + Ray(b, o, 0, 1, max) + Ray(b, o, 0, -1, max) + Ray(b, o, 1, 0, max) + Ray(b, o, -1, 0, max)
         == {o} + Ray(b, o, dx, dy, max) + Ray(b, o, -dx, -dy, max) + Ray(b, o, dy, dx, max) + Ray(b, o, -dy, -dx, max)
  {
    if dx != 0 {
      SwapPairs(o, Ray(b, o, 0, 1, max), Ray(b, o, 0, -1, max), Ray(b, o, 1, 0, max), Ray(b, o, -1, 0, max));
    }
  }

  lemma {:induction false} StepNegate(b: Board, t: Tile, dx: int, dy: int, i: int)
    requires b.Valid() && IsStep(dx, dy)
    ensures StepTile(t, -dx, -dy, i) == StepTile(t, dx, dy, -i)
    ensures StepMatches(b, t, -dx, -dy, i) == StepMatches(b, t, dx, dy, -i)
  {
  }

  lemma {:induction false} StepCompose(b: Board, t: Tile, dx: int, dy: int, j: int, q: int)
    requires b.Valid() && IsStep(dx, dy)
    ensures StepTile(StepTile(t, dx, dy, j), dx, dy, q) == StepTile(t, dx, dy, j + q)
    ensures StepMatches(b, StepTile(t, dx, dy, j), dx, dy, q) == StepMatches(b, t, dx, dy, j + q)
  {
  }

  /** The cells from `d` steps back to `a` steps forward of `o` all match. */
  lemma {:induction false} LineSegment(b: Board, o: Tile, dx: int, dy: int, m: int)
    requires b.Valid() && IsStep(dx, dy) && b.IsTileOf(o) && IsValidCords(b, o.x, o.y)
    requires -(RayLength(b, o, -dx, -dy, MAX_INT) as int) <= m <= RayLength(b, o, dx, dy, MAX_INT)
    ensures StepMatches(b, o, dx, dy, m)
  {
    if m > 0 {
      RayMatches(b, o, dx, dy, m);
    } else if m < 0 {
      BackRayMatches(b, o, dx, dy, -m);
    } else {
      OriginMatches(b, o, dx, dy);
    }
  }

  /** The start of a walk matches itself. */
  lemma OriginMatches(b: Board, o: Tile, dx: int, dy: int)
    requires b.Valid() && b.IsTileOf(o) && IsValidCords(b, o.x, o.y)
    ensures StepMatches(b, o, dx, dy, 0)
  {
  }

  /** Every cell the unbounded walk backwards passes matches the colour it
      started from. */
  lemma BackRayMatches(b: Board, o: Tile, dx: int, dy: int, i: int)
    requires b.Valid() && IsStep(dx, dy) && 1 <= i <= RayLength(b, o, -dx, -dy, MAX_INT)
    ensures StepMatches(b, o, dx, dy, -i)
  {
    RayMatches(b, o, -dx, -dy, i);
    StepNegate(b, o, dx, dy, i);
  }

  /** Every cell the unbounded walk passes matches the colour it started from. */
  lemma RayMatches(b: Board, o: Tile, dx: int, dy: int, i: int)
    requires b.Valid() && IsStep(dx, dy) && 1 <= i <= RayLength(b, o, dx, dy, MAX_INT)
    ensures StepMatches(b, o, dx, dy, i)
  {
    RaySteps(b, o, dx, dy, MAX_INT);
  }

  /** A tile on `o`'s line within the walks is a whole number of steps from `o`. */
  lemma {:induction false} LineIndex(b: Board, o: Tile, dx: int, dy: int, u: Tile) returns (j: int)
    requires b.Valid() && IsStep(dx, dy)
    requires u in {o} + Ray(b, o, dx, dy, MAX_INT) + Ray(b, o, -dx, -dy, MAX_INT)
    ensures -(RayLength(b, o, -dx, -dy, MAX_INT) as int) <= j <= RayLength(b, o, dx, dy, MAX_INT)
    ensures u == StepTile(o, dx, dy, j)
  {
    if u == o {
      j := 0;
    } else if u in Ray(b, o, dx, dy, MAX_INT) {
      j :| 1 <= j <= RayLength(b, o, dx, dy, MAX_INT) && u == StepTile(o, dx, dy, j);
    } else {
      var i :| 1 <= i <= RayLength(b, o, -dx, -dy, MAX_INT) && u == StepTile(o, -dx, -dy, i);
      StepNegate(b, o, dx, dy, i);
      j := -i;
    }
  }

  /** The walks along the line through `o` stay in `o`'s line group. */
  lemma {:induction false} AlongWalks(b: Board, o: Tile, dx: int, dy: int, w: Tile)
    requires b.Valid() && IsLineDirection(dx, dy)
    requires w in {o} + Ray(b, o, dx, dy, MAX_INT) + Ray(b, o, -dx, -dy, MAX_INT)
    ensures KeyOf(w, LineAxis(dx)) == KeyOf(o, LineAxis(dx))
  {
    if w in Ray(b, o, dx, dy, MAX_INT) {
      RayKey(b, o, dx, dy, w);
    } else if w in Ray(b, o, -dx, -dy, MAX_INT) {
      RayKey(b, o, -dx, -dy, w);
    }
  }

  /** A walk along a column stays in its start's column group, one along a
      row in its row group. */
  lemma RayKey(b: Board, o: Tile, dx: int, dy: int, w: Tile)
    requires b.Valid() && IsUnitStep(dx, dy) && (dx == 0 || dy == 0)
    requires w in Ray(b, o, dx, dy, MAX_INT)
    ensures KeyOf(w, LineAxis(dx)) == KeyOf(o, LineAxis(dx))
  {
    RayTiles(b, o, dx, dy, MAX_INT, w);
    RayExcludesStart(b, o, dx, dy, MAX_INT, w);
  }

  /** The walks across the line through `o` leave `o`'s line group but stay
      in `o`'s group on the other axis. */
  lemma {:induction false} AcrossWalks(b: Board, o: Tile, dx: int, dy: int, w: Tile)
    requires b.Valid() && IsLineDirection(dx, dy)
    requires w in Ray(b, o, dy, dx, MAX_INT) + Ray(b, o, -dy, -dx, MAX_INT)
    ensures KeyOf(w, LineAxis(dx)) != KeyOf(o, LineAxis(dx))
    ensures KeyOf(w, LineAxis(dy)) == KeyOf(o, LineAxis(dy))
  {
    if w in Ray(b, o, dy, dx, MAX_INT) {
      RayKey(b, o, dy, dx, w);
      CrossKey(b, o, dy, dx, w);
    } else {
      RayKey(b, o, -dy, -dx, w);
      CrossKey(b, o, -dy, -dx, w);
    }
  }

  /** A walk leaves the group of its start on the axis across it. */
  lemma CrossKey(b: Board, o: Tile, dx: int, dy: int, w: Tile)
    requires b.Valid() && IsUnitStep(dx, dy)
    requires w in Ray(b, o, dx, dy, MAX_INT)
    ensures KeyOf(w, LineAxis(dy)) != KeyOf(o, LineAxis(dy))
  {
    RayExcludesStart(b, o, dx, dy, MAX_INT, w);
  }

  /** A candidate off the line through `o` is alone in its line group. */
  lemma {:induction false} OffLineGroup(b: Board, o: Tile, dx: int, dy: int, u: Tile)
    requires b.Valid() && IsLineDirection(dx, dy)
    requires u in Plus(b, o) && u !in {o} + Ray(b, o, dx, dy, MAX_INT) + Ray(b, o, -dx, -dy, MAX_INT)
    ensures |Group(Plus(b, o), KeyOf(u, LineAxis(dx)))| <= 1
  {
    PlusByLine(b, o, dx, dy);
    var onLine := {o} + Ray(b, o, dx, dy, MAX_INT) + Ray(b, o, -dx, -dy, MAX_INT);
    var G := Group(Plus(b, o), KeyOf(u, LineAxis(dx)));
    AcrossWalks(b, o, dx, dy, u);
    forall w | w in G
      ensures w == u
    {
      if w in onLine {
        AlongWalks(b, o, dx, dy, w);
      } else {
        AcrossWalks(b, o, dx, dy, w);
      }
    }
    assert G <= {u};
    SubsetCard(G, {u});
  }

  /** A candidate on the line through `o` has only that line in its group. */
  lemma {:induction false} OnLineGroup(b: Board, o: Tile, dx: int, dy: int, u: Tile)
    requires b.Valid() && IsLineDirection(dx, dy)
    requires u in {o} + Ray(b, o, dx, dy, MAX_INT) + Ray(b, o, -dx, -dy, MAX_INT)
    ensures |Group(Plus(b, o), KeyOf(u, LineAxis(dx)))|
            <= 1 + RayLength(b, o, dx, dy, MAX_INT) + RayLength(b, o, -dx, -dy, MAX_INT)
  {
    var F, B := Ray(b, o, dx, dy, MAX_INT), Ray(b, o, -dx, -dy, MAX_INT);
    var G := Group(Plus(b, o), KeyOf(u, LineAxis(dx)));
    GroupOnLine(b, o, dx, dy, u);
    WithinPointAndTwo(G, o, F, B, |F|, |B|);
    LineCard(b, o, dx, dy, MAX_INT);
  }

  /** The two walks along a line hold no more tiles than their lengths. */
  lemma {:induction false} LineCard(b: Board, o: Tile, dx: int, dy: int, max: int)
    requires b.Valid() && IsStep(dx, dy)
    ensures |Ray(b, o, dx, dy, max)| + |Ray(b, o, -dx, -dy, max)|
            <= RayLength(b, o, dx, dy, max) + RayLength(b, o, -dx, -dy, max)
  {
    RaySize(b, o, dx, dy, max);
    RaySize(b, o, -dx, -dy, max);
  }

  /** The line group of a candidate on the line through `o` holds only
      tiles of that line. */
  lemma GroupOnLine(b: Board, o: Tile, dx: int, dy: int, u: Tile)
    requires b.Valid() && IsLineDirection(dx, dy)
    requires u in {o} + Ray(b, o, dx, dy, MAX_INT) + Ray(b, o, -dx, -dy, MAX_INT)
    ensures Group(Plus(b, o), KeyOf(u, LineAxis(dx))) <= {o} + Ray(b, o, dx, dy, MAX_INT) + Ray(b, o, -dx, -dy, MAX_INT)
  {
    PlusByLine(b, o, dx, dy);
    var onLine := {o} + Ray(b, o, dx, dy, MAX_INT) + Ray(b, o, -dx, -dy, MAX_INT);
    AlongWalks(b, o, dx, dy, u);
    forall w | w in Group(Plus(b, o), KeyOf(u, LineAxis(dx)))
      ensures w in onLine
    {
      if w !in onLine {
        AcrossWalks(b, o, dx, dy, w);
      }
    }
  }

  /** Soundness of the scan around one origin: a candidate whose line group
      holds three tiles lies in three consecutive cells of its colour. */
  lemma {:induction false} LineGroupSound(b: Board, o: Tile, dx: int, dy: int, u: Tile)
    requires b.Valid() && b.IsTileOf(o) && IsValidCords(b, o.x, o.y)
    requires IsLineDirection(dx, dy)
    requires u in Plus(b, o) && |Group(Plus(b, o), KeyOf(u, LineAxis(dx)))| >= 3
    ensures InLineOfThree(b, u, dx, dy)
  {
    var onLine := {o} + Ray(b, o, dx, dy, MAX_INT) + Ray(b, o, -dx, -dy, MAX_INT);
    if u !in onLine {
      OffLineGroup(b, o, dx, dy, u);
      assert false;
    }
    OnLineGroup(b, o, dx, dy, u);
    var a, d := RayLength(b, o, dx, dy, MAX_INT) as int, RayLength(b, o, -dx, -dy, MAX_INT) as int;
    assert a + d >= 2;
    var j := LineIndex(b, o, dx, dy, u);
    var s := if j - 2 >= -d then j - 2 else if j - 1 >= -d && j + 1 <= a then j - 1 else j;
    WindowOfThree(b, o, dx, dy, j, s);
  }

  /** Three consecutive cells within the walks from `o` put every one of
      them in a line of three. */
  lemma {:induction false} WindowOfThree(b: Board, o: Tile, dx: int, dy: int, j: int, s: int)
    requires b.Valid() && b.IsTileOf(o) && IsValidCords(b, o.x, o.y)
    requires IsLineDirection(dx, dy)
    requires -(RayLength(b, o, -dx, -dy, MAX_INT) as int) <= s
    requires s + 2 <= RayLength(b, o, dx, dy, MAX_INT)
    requires s <= j <= s + 2
    ensures InLineOfThree(b, StepTile(o, dx, dy, j), dx, dy)
  {
    LineSegment(b, o, dx, dy, s);
    LineSegment(b, o, dx, dy, s + 1);
    LineSegment(b, o, dx, dy, s + 2);
    WindowFrom(b, o, dx, dy, j, s);
  }

  /** Three consecutive matching cells put every one of them in a line of
      three. */
  lemma WindowFrom(b: Board, o: Tile, dx: int, dy: int, j: int, s: int)
    requires b.Valid() && IsStep(dx, dy) && s <= j <= s + 2
    requires StepMatches(b, o, dx, dy, s) && StepMatches(b, o, dx, dy, s + 1) && StepMatches(b, o, dx, dy, s + 2)
    ensures InLineOfThree(b, StepTile(o, dx, dy, j), dx, dy)
  {
    MatchFrom(b, o, dx, dy, j, s);
    MatchFrom(b, o, dx, dy, j, s + 1);
    MatchFrom(b, o, dx, dy, j, s + 2);
    InLineFromWindow(b, StepTile(o, dx, dy, j), dx, dy, s - j);
  }

  /** A matching cell `m` steps from `o` matches, seen from the `j`-th step. */
  lemma MatchFrom(b: Board, o: Tile, dx: int, dy: int, j: int, m: int)
    requires b.Valid() && IsStep(dx, dy) && StepMatches(b, o, dx, dy, m)
    ensures StepMatches(b, StepTile(o, dx, dy, j), dx, dy, m - j)
  {
    StepCompose(b, o, dx, dy, j, m - j);
  }

  /** A window of three matching steps covering the tile itself. */
  lemma {:induction false} InLineFromWindow(b: Board, u: Tile, dx: int, dy: int, q: int)
    requires b.Valid() && -2 <= q <= 0
    requires StepMatches(b, u, dx, dy, q) && StepMatches(b, u, dx, dy, q + 1) && StepMatches(b, u, dx, dy, q + 2)
    ensures InLineOfThree(b, u, dx, dy)
  {
  }

  /** Two more cells of `u`'s line, found among the candidates around `u`,
      make `u`'s line group hold three tiles. */
  lemma {:induction false} TripleInGroup(b: Board, u: Tile, dx: int, dy: int, p: int, q: int)
    requires b.Valid() && IsLineDirection(dx, dy)
    requires p != 0 && q != 0 && p != q
    requires StepTile(u, dx, dy, p) in Plus(b, u) && StepTile(u, dx, dy, q) in Plus(b, u)
    ensures |Group(Plus(b, u), KeyOf(u, LineAxis(dx)))| >= 3
  {
    var G := Group(Plus(b, u), KeyOf(u, LineAxis(dx)));
    var v, w := StepTile(u, dx, dy, p), StepTile(u, dx, dy, q);
    assert u in G && v in G && w in G;
    TripleCard(u, v, w, G);
  }

  /** Completeness of the scan at the tile itself: a tile in three
      consecutive cells of its colour has a line group of three around it. */
  lemma {:induction false} LineGroupComplete(b: Board, u: Tile, dx: int, dy: int)
    requires b.Valid() && IsLineDirection(dx, dy) && InLineOfThree(b, u, dx, dy)
    ensures |Group(Plus(b, u), KeyOf(u, LineAxis(dx)))| >= 3
  {
    if StepMatches(b, u, dx, dy, -2) && StepMatches(b, u, dx, dy, -1) {
      BehindInPlus(b, u, dx, dy, 1);
      BehindInPlus(b, u, dx, dy, 2);
      TripleInGroup(b, u, dx, dy, -1, -2);
    } else if StepMatches(b, u, dx, dy, -1) && StepMatches(b, u, dx, dy, 1) {
      BehindInPlus(b, u, dx, dy, 1);
      AheadInPlus(b, u, dx, dy, 1);
      TripleInGroup(b, u, dx, dy, -1, 1);
    } else {
      AheadInPlus(b, u, dx, dy, 1);
      AheadInPlus(b, u, dx, dy, 2);
      TripleInGroup(b, u, dx, dy, 1, 2);
    }
  }

  /** The cell one or two matching steps ahead of `u` is among its
      candidates. */
  lemma AheadInPlus(b: Board, u: Tile, dx: int, dy: int, k: int)
    requires b.Valid() && IsLineDirection(dx, dy) && 1 <= k <= 2
    requires StepMatches(b, u, dx, dy, 1) && StepMatches(b, u, dx, dy, k)
    ensures StepTile(u, dx, dy, k) in Plus(b, u)
  {
    RayReaches(b, u, dx, dy, MAX_INT, k);
    PlusByLine(b, u, dx, dy);
  }

  /** The cell one or two matching steps behind `u` is among its
      candidates. */
  lemma BehindInPlus(b: Board, u: Tile, dx: int, dy: int, k: int)
    requires b.Valid() && IsLineDirection(dx, dy) && 1 <= k <= 2
    requires StepMatches(b, u, dx, dy, -1) && StepMatches(b, u, dx, dy, -k)
    ensures StepTile(u, dx, dy, -k) in Plus(b, u)
  {
    BehindInRay(b, u, dx, dy, k);
    PlusByLine(b, u, dx, dy);
  }

  /** The same cell lies on the walk backwards from `u`. */
  lemma BehindInRay(b: Board, u: Tile, dx: int, dy: int, k: int)
    requires b.Valid() && IsStep(dx, dy) && 1 <= k <= 2
    requires StepMatches(b, u, dx, dy, -1) && StepMatches(b, u, dx, dy, -k)
    ensures StepTile(u, dx, dy, -k) in Ray(b, u, -dx, -dy, MAX_INT)
  {
    StepNegate(b, u, dx, dy, 1);
    StepNegate(b, u, dx, dy, k);
    RayReaches(b, u, -dx, -dy, MAX_INT, k);
  }

  /** Every tile the scan around a known playable origin finds is an n-ple. */
  lemma {:induction false} NPlesSound(b: Board, o: Tile, u: Tile)
    requires b.Valid() && b.IsTileOf(o) && IsValidCords(b, o.x, o.y)
    requires u in TilesThatCrush(Plus(b, o))
    ensures u in AllNPles(b)
  {
    if u != o {
      AdjacentTiles(b, o, MAX_INT, u);
    }
    if |Group(Plus(b, o), KeyOf(u, SameX))| >= 3 {
      LineGroupSound(b, o, 0, 1, u);
    } else {
      LineGroupSound(b, o, 1, 0, u);
    }
    assert u == b.TileAt(u.x, u.y);
  }

  /** Every n-ple is found by the scan around itself. */
  lemma {:induction false} NPlesComplete(b: Board, u: Tile)
    requires b.Valid() && u in AllNPles(b)
    ensures u in TilesThatCrush(Plus(b, u))
  {
    if InLineOfThree(b, u, 0, 1) {
      LineGroupComplete(b, u, 0, 1);
    } else {
      LineGroupComplete(b, u, 1, 0);
    }
  }

  /** The n-ples are exactly the known playable tiles of the board in a line
      of three or more of their colour. */
  lemma {:induction false} AllNPlesMembers(b: Board, u: Tile)
    requires b.Valid()
    ensures u in AllNPles(b) <==> b.IsTileOf(u) && u.y < b.pRows && IsNPle(b, u)
  {
    if b.IsTileOf(u) && u.y < b.pRows && IsNPle(b, u) {
      assert u == b.TileAt(u.x, u.y);
    }
  }

  /** The scan of `findAllNPles`: every known playable tile, row by row, with
      the crushing tiles among itself and its unbounded walks collected. */
  method CollectNPles(b: Board) returns (crush: set<Tile>)
    requires b.Valid()
    ensures crush == AllNPles(b)
  {
    crush := {};
    for y := 0 to b.pRows
      invariant crush <= AllNPles(b)
      invariant forall u | u in AllNPles(b) && u.y < y :: u in crush
    {
      for x := 0 to b.cols
        invariant crush <= AllNPles(b)
        invariant forall u | u in AllNPles(b) && (u.y < y || (u.y == y && u.x < x)) :: u in crush
      {
        var t := b.TileAt(x, y);
        if t.color != UNKNOWN {
          var found := ScanAt(b, t);
          crush := crush + found;
        }
        NPleAt(b, x, y);
      }
    }
  }

  /** One step of the scan: the crushing tiles among a known playable tile
      and its unbounded walks, which are n-ples and include the tile itself
      when it is one. */
  method ScanAt(b: Board, t: Tile) returns (found: set<Tile>)
    requires b.Valid() && b.IsTileOf(t) && IsValidCords(b, t.x, t.y) && t.color != UNKNOWN
    ensures found <= AllNPles(b)
    ensures t in AllNPles(b) ==> t in found
  {
    var adjacent := CollectAdjacent(b, t, MAX_INT);
    adjacent := adjacent + {t};
    found := CollectCrushing(adjacent);
    forall u | u in found
      ensures u in AllNPles(b)
    {
      NPlesSound(b, t, u);
    }
    if t in AllNPles(b) {
      NPlesComplete(b, t);
    }
  }

  /** The only n-ple at a playable cell is the tile there, when it is one. */
  lemma NPleAt(b: Board, x: int, y: int)
    requires b.Valid() && 0 <= x < b.cols && 0 <= y < b.pRows
    ensures forall u | u in AllNPles(b) && u.x == x && u.y == y :: u == b.TileAt(x, y)
  {
  }

  /** `findAllNPles`: fails on a missing board, else every n-ple. */
  method FindAllNPles(board: Option<Board>) returns (r: Result<set<Tile>>)
    requires board.Some? ==> board.value.Valid()
    ensures board.None? <==> r == Err(NullBoard)
    ensures r.Ok? ==> r.value == AllNPles(board.value)
  {
    if board.None? {
      return Err(NullBoard);
    }
    var crush := CollectNPles(board.value);
    return Ok(crush);
  }
}
