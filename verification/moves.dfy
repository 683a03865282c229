/** A move of the game: two tiles that swap places.

    `Move` is the value a move holds at any instant (a slot is empty until a
    tile is put in it); `PlayerMove` is the object that holds its two slots in
    an array and overwrites them in place. */
module Moves {
  import opened Wrappers
  import opened Boards
  import opened BoardUtils

  /** -1, 0 or 1 as `n` is negative, zero or positive. */
  function Sign(n: int): (r: int)
    ensures r == -1 || r == 0 || r == 1
    ensures r == 0 <==> n == 0
    ensures r == 1 <==> n > 0
  {
    if n > 0 then 1 else if n < 0 then -1 else 0
  }

  /** The two slots of a move. */
  datatype Move = Move(first: Option<Tile>, second: Option<Tile>)
  {
    predicate Filled() {
      first.Some? && second.Some?
    }

    /** `getTiles`: both tiles, first one first, or EmptyMove. */
    function GetTiles(): (r: Result<seq<Tile>>)
      ensures r.Ok? <==> Filled()
      ensures r.Err? ==> r.error == EmptyMove
      ensures r.Ok? ==> |r.value| == 2 && Some(r.value[0]) == first && Some(r.value[1]) == second
    {
      if first.None? || second.None? then Err(EmptyMove) else Ok([first.value, second.value])
    }

    /** `getX1`: fails only when the first slot is empty. */
    function X1(): (r: Result<int>)
      ensures r.Ok? <==> first.Some?
      ensures r.Err? ==> r.error == EmptyMove
      ensures r.Ok? ==> r.value == first.value.x
    {
      if first.None? then Err(EmptyMove) else Ok(first.value.x)
    }

    /** `getY1`: fails only when the first slot is empty. */
    function Y1(): (r: Result<int>)
      ensures r.Ok? <==> first.Some?
      ensures r.Err? ==> r.error == EmptyMove
      ensures r.Ok? ==> r.value == first.value.y
    {
      if first.None? then Err(EmptyMove) else Ok(first.value.y)
    }

    /** `getX2`: fails only when the second slot is empty. */
    function X2(): (r: Result<int>)
      ensures r.Ok? <==> second.Some?
      ensures r.Err? ==> r.error == EmptyMove
      ensures r.Ok? ==> r.value == second.value.x
    {
      if second.None? then Err(EmptyMove) else Ok(second.value.x)
    }

    /** `getY2`: fails only when the second slot is empty. */
    function Y2(): (r: Result<int>)
      ensures r.Ok? <==> second.Some?
      ensures r.Err? ==> r.error == EmptyMove
      ensures r.Ok? ==> r.value == second.value.y
    {
      if second.None? then Err(EmptyMove) else Ok(second.value.y)
    }

    /** `toCordsArray`: [x1, y1, x2, y2], agreeing with the four getters. */
    function ToCordsArray(): (r: Result<seq<int>>)
      ensures r.Ok? <==> Filled()
      ensures r.Err? ==> r.error == EmptyMove
      ensures r.Ok? ==> r.value == [X1().value, Y1().value, X2().value, Y2().value]
    {
      if first.None? || second.None? then Err(EmptyMove)
      else Ok([first.value.x, first.value.y, second.value.x, second.value.y])
    }

    /** `toDirArray`: [x1, y1, direction], where the direction is the one
        from the first tile towards the second. The distance between the two
        is not checked. */
    function ToDirArray(): (r: Result<seq<int>>)
      ensures !Filled() <==> r == Err(EmptyMove)
      ensures r == Err(SameTiles) <==>
                Filled() && first.value.x == second.value.x && first.value.y == second.value.y
      ensures r == Err(InvalidDirection) <==>
                Filled() && first.value.x != second.value.x && first.value.y != second.value.y
      ensures r.Ok? ==>
                && |r.value| == 3
                && r.value[0] == first.value.x && r.value[1] == first.value.y
                && Increment(r.value[2])
                   == Some((Sign(second.value.x - first.value.x), Sign(second.value.y - first.value.y)))
    {
      if first.None? || second.None? then Err(EmptyMove)
      else
        var x1, x2, y1, y2 := first.value.x, second.value.x, first.value.y, second.value.y;
        if x1 > x2 && y1 == y2 then Ok([x1, y1, LEFT])
        else if x1 < x2 && y1 == y2 then Ok([x1, y1, RIGHT])
        else if y1 > y2 && x1 == x2 then Ok([x1, y1, DOWN])
        else if y1 < y2 && x1 == x2 then Ok([x1, y1, UP])
        else if x1 == x2 && y1 == y2 then Err(SameTiles)
        else Err(InvalidDirection)
    }

    /** The move with its two tiles exchanged. */
    function Swapped(): Move {
      Move(second, first)
    }
  }

  /** The direction codes of two opposite directions. */
  predicate Opposite(d1: int, d2: int) {
    || (d1 == UP && d2 == DOWN) || (d1 == DOWN && d2 == UP)
    || (d1 == LEFT && d2 == RIGHT) || (d1 == RIGHT && d2 == LEFT)
  }

  /** Exchanging the two tiles turns the direction around and keeps the
      error cases. */
  lemma {:induction false} SwapReversesDirection(m: Move)
    ensures m.ToDirArray().Err? <==> m.Swapped().ToDirArray().Err?
    ensures m.ToDirArray().Err? ==> m.ToDirArray().error == m.Swapped().ToDirArray().error
    ensures m.ToDirArray().Ok? ==> Opposite(m.ToDirArray().value[2], m.Swapped().ToDirArray().value[2])
  {
    var r, s := m.ToDirArray(), m.Swapped().ToDirArray();
    if r.Ok? {
      var (dx, dy) := Increment(r.value[2]).value;
      var (ex, ey) := Increment(s.value[2]).value;
      assert ex == -dx && ey == -dy;
    }
  }

  /** A direction walked as many steps as the two tiles are apart leads from
      the first tile to the second: the direction is that of the straight
      line joining them. */
  lemma {:induction false} DirectionReachesSecond(m: Move)
    requires m.ToDirArray().Ok?
    ensures var (dx, dy) := Increment(m.ToDirArray().value[2]).value;
            var n := if dx == 0 then m.second.value.y - m.first.value.y else m.second.value.x - m.first.value.x;
            var k := if dx + dy > 0 then n else -n;
            k > 0 && StepTile(m.first.value, dx, dy, k).x == m.second.value.x
                  && StepTile(m.first.value, dx, dy, k).y == m.second.value.y
  {
    var (dx, dy) := Increment(m.ToDirArray().value[2]).value;
    assert IsUnitStep(dx, dy);
  }

  /** Tiles two cells apart on a row still give RIGHT. */
  lemma TwoApartIsRight()
    ensures Move(Some(Tile(1, 1, 0)), Some(Tile(3, 1, 0))).ToDirArray() == Ok([1, 1, RIGHT])
  {
  }

  /** The move object: two tile slots in an array that the setters fill. */
  class PlayerMove {
    var tiles: array<Option<Tile>>

    predicate Valid()
      reads this
    {
      tiles.Length == 2
    }

    /** The slots as a value. */
    function Value(): Move
      reads this, tiles
      requires Valid()
    {
      Move(tiles[0], tiles[1])
    }

    /** The no-argument constructor: both slots empty. */
    constructor Empty()
      ensures Valid() && fresh(tiles)
      ensures Value() == Move(None, None)
    {
      tiles := new Option<Tile>[2](_ => None);
    }

    /** Wraps an array already checked to hold two tiles. */
    constructor Wrap(a: array<Option<Tile>>)
      requires a.Length == 2
      ensures tiles == a && Valid()
    {
      tiles := a;
    }

    /** The array constructor: null array, then length, then null tiles are
        rejected; otherwise the very array given is kept. */
    static method FromArray(a: array?<Option<Tile>>) returns (r: Result<PlayerMove>)
      ensures a == null ==> r == Err(NullTile)
      ensures a != null && a.Length != 2 ==> r == Err(InvalidMove)
      ensures a != null && a.Length == 2 && (a[0].None? || a[1].None?) ==> r == Err(NullTile)
      ensures r.Ok? ==> fresh(r.value) && r.value.tiles == a && r.value.Valid()
                        && r.value.Value().Filled()
    {
      if a == null {
        return Err(NullTile);
      }
      if a.Length != 2 {
        return Err(InvalidMove);
      }
      if a[0].None? || a[1].None? {
        return Err(NullTile);
      }
      var m := new PlayerMove.Wrap(a);
      return Ok(m);
    }

    /** The two-tile constructor: either tile missing is NullTile. */
    static method FromTiles(t1: Option<Tile>, t2: Option<Tile>) returns (r: Result<PlayerMove>)
      ensures r.Err? <==> t1.None? || t2.None?
      ensures r.Err? ==> r.error == NullTile
      ensures r.Ok? ==> fresh(r.value) && fresh(r.value.tiles) && r.value.Valid()
                        && r.value.Value() == Move(t1, t2)
    {
      if t1.None? || t2.None? {
        return Err(NullTile);
      }
      var a := new Option<Tile>[2];
      a[0], a[1] := t1, t2;
      var m := new PlayerMove.Wrap(a);
      return Ok(m);
    }

    /** `setTiles(Tile[])`: the same checks as the array constructor; on
        success the move holds the given array itself, else nothing changes. */
    method SetTilesArray(a: array?<Option<Tile>>) returns (r: Option<Failure>)
      requires Valid()
      modifies this
      ensures a == null ==> r == Some(NullTile)
      ensures a != null && a.Length != 2 ==> r == Some(InvalidMove)
      ensures a != null && a.Length == 2 && (a[0].None? || a[1].None?) ==> r == Some(NullTile)
      ensures r.None? ==> tiles == a && Value().Filled()
      ensures r.Some? ==> tiles == old(tiles)
      ensures Valid()
    {
      if a == null {
        return Some(NullTile);
      }
      if a.Length != 2 {
        return Some(InvalidMove);
      }
      if a[0].None? || a[1].None? {
        return Some(NullTile);
      }
      tiles := a;
      return None;
    }

    /** `setTiles(tile1, tile2)`: overwrites the two slots of the array in
        place, or fails with NullTile and changes nothing. */
    method SetTiles(t1: Option<Tile>, t2: Option<Tile>) returns (r: Option<Failure>)
      requires Valid()
      modifies tiles
      ensures r.Some? <==> t1.None? || t2.None?
      ensures r.Some? ==> r.value == NullTile && tiles[..] == old(tiles[..])
      ensures r.None? ==> Value() == Move(t1, t2)
    {
      if t1.None? || t2.None? {
        return Some(NullTile);
      }
      tiles[0] := t1;
      tiles[1] := t2;
      return None;
    }
  }
}
