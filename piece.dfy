/**
  Movement rules of domain/piece: the queen (Queen.java) and the pawn that
  has not moved yet (InitPawn.java). A rule answers whether a move has a
  legal shape and, for a legal one, which squares lie on its way.
*/
module Piece {
  import opened Wrappers
  import opened Coordinate

  /** Side of a piece; only the pawn's forward direction depends on it. */
  datatype Color = WHITE | BLACK

  function Abs(n: int): nat {
    if n < 0 then -n else n
  }

  function Max(a: int, b: int): int {
    if a < b then b else a
  }

  /** Number of unit steps of a straight or diagonal move. */
  function Distance(source: Position, target: Position): nat {
    Max(Abs(target.DiffX(source)), Abs(target.DiffY(source)))
  }

  /** Displacement along one axis after k unit steps of size `step`. */
  function Offset(k: int, step: int): (d: int)
    requires -1 <= step <= 1
    ensures d == k * step
  {
    if step == 1 then k else if step == -1 then -k else 0
  }

  /**
    The squares a straight or diagonal walk from `source` crosses before it
    reaches `target`, in walking order: the k-th one (counting from 1) is
    source + k * (unit step), and there are Distance - 1 of them.
  */
  ghost predicate IsStraightRoute(source: Position, target: Position, route: seq<Position>) {
    var stepX := Queen.MoveCoordinate(target.DiffX(source));
    var stepY := Queen.MoveCoordinate(target.DiffY(source));
    && |route| == Distance(source, target) - 1
    && forall k :: 0 <= k < |route| ==>
         route[k].x == source.x + Offset(k + 1, stepX) && route[k].y == source.y + Offset(k + 1, stepY)
  }

  /** A straight route is fully determined by its two end squares. */
  lemma StraightRouteUnique(source: Position, target: Position, r1: seq<Position>, r2: seq<Position>)
    requires IsStraightRoute(source, target, r1) && IsStraightRoute(source, target, r2)
    ensures r1 == r2
  {
  }

  /** The queen of Queen.java; its colour plays no part in its movement. */
  datatype Queen = Queen(color: Color) {

    /** `getMoveCoordinate`: `Integer.compare(diff, 0)`, the unit step along
        one axis. */
    static function MoveCoordinate(diff: int): (step: int)
      ensures -1 <= step <= 1
      ensures step == 0 <==> diff == 0
      ensures step * diff == Abs(diff)
    {
      if diff < 0 then -1 else if diff == 0 then 0 else 1
    }

    /** `isMove`: at least one absolute difference is non-zero. */
    static predicate IsMove(diffX: nat, diffY: nat): (r: bool)
      ensures r <==> Max(diffX, diffY) >= 1
    {
      diffX != 0 || diffY != 0
    }

    /** `isRookMovable`: one of the absolute differences is zero. */
    static predicate IsRookMovable(diffX: nat, diffY: nat): (r: bool)
      ensures r <==> diffX * diffY == 0
    {
      diffX == 0 || diffY == 0
    }

    /** `isBishopMovable`: the absolute differences agree. */
    static predicate IsBishopMovable(diffX: nat, diffY: nat): (r: bool)
      ensures r ==> (diffX == 0 <==> diffY == 0)
    {
      diffX == diffY
    }

    /** `isMovable`: a queen moves along a row, a column or a diagonal, and
        never stays where it is. */
    function IsMovable(source: Position, target: Position): (r: bool)
      ensures r <==>
        source != target &&
        (target.x == source.x || target.y == source.y ||
         Abs(target.DiffX(source)) == Abs(target.DiffY(source)))
      ensures r ==> Distance(source, target) >= 1
    {
      var diffX := Abs(target.DiffX(source));
      var diffY := Abs(target.DiffY(source));
      IsMove(diffX, diffY) && (IsBishopMovable(diffX, diffY) || IsRookMovable(diffX, diffY))
    }

    /**
      Walking k unit steps from the source of a legal move stays on the
      board for every k up to the distance, meets the target exactly after
      `Distance` steps and is back at the source only after none.
    */
    lemma WalkAt(source: Position, target: Position, k: int)
      requires IsMovable(source, target)
      requires 0 <= k <= Distance(source, target)
      ensures var x := source.x + Offset(k, MoveCoordinate(target.DiffX(source)));
              var y := source.y + Offset(k, MoveCoordinate(target.DiffY(source)));
              && OnBoard(x, y)
              && ((x == target.x && y == target.y) <==> k == Distance(source, target))
              && ((x == source.x && y == source.y) <==> k == 0)
    {
    }

    /**
      `findPositions`: walk from the source by the unit step, collecting
      every position until the walk reaches the target. The loop compares
      positions by value; a ghost step counter bounds it.
    */
    method FindPositions(source: Position, target: Position, moveX: int, moveY: int)
      returns (positions: seq<Position>)
      requires IsMovable(source, target)
      requires moveX == MoveCoordinate(target.DiffX(source))
      requires moveY == MoveCoordinate(target.DiffY(source))
      ensures IsStraightRoute(source, target, positions)
      ensures source !in positions && target !in positions
    {
      ghost var n := Distance(source, target);
      ghost var k := 1;
      WalkAt(source, target, 1);
      positions := [];
      var position := source.Move(moveX, moveY).value;
      while position != target
        invariant 1 <= k <= n
        invariant position.x == source.x + Offset(k, moveX) && position.y == source.y + Offset(k, moveY)
        invariant |positions| == k - 1
        invariant forall i :: 0 <= i < |positions| ==>
          positions[i].x == source.x + Offset(i + 1, moveX) && positions[i].y == source.y + Offset(i + 1, moveY)
        decreases n - k
      {
        WalkAt(source, target, k);
        WalkAt(source, target, k + 1);
        positions := positions + [position];
        position := position.Move(moveX, moveY).value;
        k := k + 1;
      }
      forall i | 0 <= i < |positions|
        ensures positions[i] != source && positions[i] != target
      {
        WalkAt(source, target, i + 1);
      }
    }

    /** `findRoute`: reject an illegal shape (`validateMovable`), otherwise
        the squares strictly between source and target, in order. */
    method FindRoute(source: Position, target: Position) returns (route: Option<seq<Position>>)
      ensures route.None? <==> !IsMovable(source, target)
      ensures route.Some? ==> IsStraightRoute(source, target, route.value)
      ensures route.Some? ==> source !in route.value && target !in route.value
      ensures route.Some? ==> |route.value| == Distance(source, target) - 1
    {
      if !IsMovable(source, target) {
        return None;
      }
      var moveX := MoveCoordinate(target.DiffX(source));
      var moveY := MoveCoordinate(target.DiffY(source));
      var positions := FindPositions(source, target, moveX, moveY);
      route := Some(positions);
    }
  }

  /** The six squares strictly between (0, 0) and (0, 7), nearest first. */
  function ColumnRoute(): seq<Position> {
    [Position(0, 1), Position(0, 2), Position(0, 3), Position(0, 4), Position(0, 5), Position(0, 6)]
  }

  /** The squares (0, 1) .. (0, 6), in order, walk from (0, 0) to (0, 7). */
  lemma QueenColumnRouteHolds()
    ensures IsStraightRoute(Position(0, 0), Position(0, 7), ColumnRoute())
  {
    var route := ColumnRoute();
    assert Queen.MoveCoordinate(0) == 0 && Queen.MoveCoordinate(7) == 1;
    forall k | 0 <= k < |route|
      ensures route[k].x == Offset(k + 1, 0) && route[k].y == Offset(k + 1, 1)
    {
    }
  }

  /** The queen's route from (0, 0) to (0, 7) is (0, 1) .. (0, 6), and no
      other sequence is. */
  lemma QueenRouteAlongColumn(source: Position, target: Position, r: seq<Position>)
    requires source == Position(0, 0) && target == Position(0, 7)
    requires IsStraightRoute(source, target, r)
    ensures r == ColumnRoute()
  {
    QueenColumnRouteHolds();
    StraightRouteUnique(source, target, r, ColumnRoute());
  }

  /** The pawn of InitPawn.java, which may still advance two rows. */
  datatype InitPawn = InitPawn(color: Color) {

    /** `chooseDirection`: WHITE advances towards row 0, any other colour
        towards row 7. */
    function ChooseDirection(): (direction: int)
      ensures direction == -1 || direction == 1
      ensures direction == -1 <==> color == WHITE
    {
      if color == WHITE then -1 else 1
    }

    /** `isPawnMovable`: one row forward, at most one column aside. */
    static predicate IsPawnMovable(direction: int, diffY: int, diffX: int): (r: bool)
      ensures r && Abs(direction) == 1 ==> Max(Abs(diffX), Abs(diffY)) == 1
    {
      diffY == direction && -1 <= diffX <= 1
    }

    /** `isMovable`: one row forward (straight or diagonal), or two rows
        straight forward. */
    function IsMovable(source: Position, target: Position): (r: bool)
      ensures r <==>
        (target.DiffY(source) == ChooseDirection() && Abs(target.DiffX(source)) <= 1) ||
        (target.DiffY(source) == 2 * ChooseDirection() && target.x == source.x)
      ensures r ==> source != target
    {
      var direction := ChooseDirection();
      var diffY := target.DiffY(source);
      var diffX := target.DiffX(source);
      IsPawnMovable(direction, diffY, diffX) || (diffY == direction * 2 && diffX == 0)
    }

    /** Staying put, moving backward, moving only sideways, and moving two
        rows with any sideways component are all rejected. */
    lemma IllegalShapes(source: Position, target: Position)
      ensures source == target ==> !IsMovable(source, target)
      ensures target.DiffY(source) * ChooseDirection() <= 0 ==> !IsMovable(source, target)
      ensures target.DiffY(source) == 2 * ChooseDirection() && target.x != source.x ==> !IsMovable(source, target)
      ensures Abs(target.DiffY(source)) > 2 ==> !IsMovable(source, target)
    {
      var dy := target.DiffY(source);
      if ChooseDirection() == 1 {
        assert dy * ChooseDirection() == dy;
      } else {
        assert dy * ChooseDirection() == -dy;
      }
    }

    /** Legality depends only on the signed differences (and the colour),
        not on where on the board the move starts. */
    lemma ShapeOnlyMatters(s1: Position, t1: Position, s2: Position, t2: Position)
      requires t1.DiffX(s1) == t2.DiffX(s2) && t1.DiffY(s1) == t2.DiffY(s2)
      ensures IsMovable(s1, t1) == IsMovable(s2, t2)
    {
    }

    /** `getRoute`: nothing for a one-row move, otherwise the square one row
        forward from the source, the midpoint of the two-row move. */
    function GetRoute(source: Position, target: Position): (route: seq<Position>)
      requires IsMovable(source, target)
      ensures target.DiffY(source) == ChooseDirection() ==> route == []
      ensures target.DiffY(source) == 2 * ChooseDirection() ==>
        |route| == 1 && route[0].x == source.x &&
        route[0].y - source.y == target.y - route[0].y == ChooseDirection()
    {
      if target.DiffY(source) == ChooseDirection() then
        []
      else
        var next := source.Move(0, ChooseDirection());
        if next.Some? then [next.value] else assert false; []
    }

    /** `findRoute`: reject an illegal shape (`validateMovable`), otherwise
        the route of `getRoute`. */
    function FindRoute(source: Position, target: Position): (route: Option<seq<Position>>)
      ensures route.None? <==> !IsMovable(source, target)
      ensures route.Some? && target.DiffY(source) == ChooseDirection() ==> route.value == []
      ensures route.Some? && target.DiffY(source) != ChooseDirection() ==>
        |route.value| == 1 && route.value[0].x == source.x &&
        route.value[0].y - source.y == target.y - route.value[0].y == ChooseDirection()
    {
      if !IsMovable(source, target) then None else Some(GetRoute(source, target))
    }

    /**
      The pawn's route is the straight route a sliding piece would take
      between the same squares: empty for one row, the single square in
      between for two.
    */
    lemma RouteIsStraight(source: Position, target: Position)
      requires IsMovable(source, target)
      ensures FindRoute(source, target).Some?
      ensures IsStraightRoute(source, target, FindRoute(source, target).value)
    {
    }
  }

  /** A WHITE pawn on (4, 6) has the route [(4, 5)] to (4, 4), and an empty
      one to (4, 5). */
  lemma InitPawnRoutesFromStart()
    ensures InitPawn(WHITE).FindRoute(Position(4, 6), Position(4, 4)) == Some([Position(4, 5)])
    ensures InitPawn(WHITE).FindRoute(Position(4, 6), Position(4, 5)) == Some([])
  {
  }
}
