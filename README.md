# Chess movement rules: coordinates, queen, unmoved pawn

A Dafny model of three pieces of a Java chess program's movement logic.

- **Position** (`coordinate.dfy`, module `Coordinate`) is an immutable board coordinate (x, y).
  Positions come from a canonical 8 x 8 table, which a static initializer fills with two nested loops.
  The model writes that initializer as the class `PositionCache`, whose loops are proved to build exactly `Table()`.
  `Of` is a lookup in that table.
  `equals` and `hashCode` compare by value.
- **Queen** (`piece.dfy`, module `Piece`) holds the legality predicate and the route computation.
  The route is built by a loop that walks from the source by the unit step until it reaches the target.
  Every square it passes is collected.
- **InitPawn** (`piece.dfy`) is the pawn that has not moved yet.
  Its forward direction depends on its colour.
  It may advance one row (straight or diagonally) or two rows straight.
  Its route holds the square in between for a two-row move, and nothing otherwise.

An exception in the Java code is modelled as `Option.None`.
This covers an index out of range in `Position.of` and a shape rejected by `validateMovable`.

**Assumed definitions.** `diffX`, `diffY` and `move` are called by the pieces but are not defined in the modelled `Position.java`.
The model assumes the following:
- `a.diffX(b) = a.x - b.x`
- `a.diffY(b) = a.y - b.y`
- `p.move(dx, dy) = Position.of(p.x + dx, p.y + dy)`, so a move off the board fails as `of` does.

This is the natural reading: `move` adds its offset, and a difference is this minus other.
Under it the queen's walk reaches its target, and the pawn's route square lies between source and target.

`validateMovable` lives in the superclass `Piece`, which is not part of this model.
It is modelled as "fail when `isMovable` is false".

The queen's loop in `Queen.java` stops on `position != target`, which compares references.
That is correct only because `of` hands out one canonical instance per square.
The model compares positions by value instead.
It proves that the walk reaches the target after `Distance` steps, using the remaining step count as the loop variant.
`OfCanonical` records that the table lookup is canonical.

## Model

| member | source | states |
|---|---|---|
| Coordinate.Of | src/main/java/domain/coordinate/Position.java:25-28 | `of(x, y)` succeeds exactly when 0 <= x, y <= 7, and then returns the position whose fields are x and y; off the board it fails and returns no position |
| Coordinate.Table | src/main/java/domain/coordinate/Position.java:15-18 | the initialised cache has 8 rows of 8 entries, and entry [y][x] holds (x, y) |
| Coordinate.Row | src/main/java/domain/coordinate/Position.java:37-41 | row y of the table has 8 entries, and entry x holds (x, y) |
| Coordinate.PositionCache.constructor | src/main/java/domain/coordinate/Position.java:10-18 | the static initializer starts from an empty list and leaves the cache equal to `Table()` |
| Coordinate.PositionCache.AddColumn | src/main/java/domain/coordinate/Position.java:30-35 | starting from an empty cache, the loop appends one row per y and fills it, ending with exactly `Table()` |
| Coordinate.PositionCache.AddRow | src/main/java/domain/coordinate/Position.java:37-41 | appends the eight positions (0, y) .. (7, y), in order, to row y and leaves every other row unchanged |
| Coordinate.OfCanonical | src/main/java/domain/coordinate/Position.java:25-28 | two lookups give the same position exactly when they ask for the same on-board pair |
| Coordinate.OfPosition | src/main/java/domain/coordinate/Position.java:20-28 | every position that exists is the table's own entry for its coordinates, so fields never differ from the table |
| Coordinate.Position.Equals | src/main/java/domain/coordinate/Position.java:44-49 | `equals` is true exactly when the other object is a position with the same x and y; it is false for null or another class |
| Coordinate.EqualsIsEquivalence | src/main/java/domain/coordinate/Position.java:44-49 | `equals` is reflexive, symmetric and transitive |
| Coordinate.Position.HashCode | src/main/java/domain/coordinate/Position.java:51-54 | `Objects.hash(x, y)` lies in [961, 1209) on the board, and its remainder modulo 31 is y |
| Coordinate.HashCodeConsistent | src/main/java/domain/coordinate/Position.java:44-54 | equal positions have equal hash codes, and on the board equal hash codes mean equal positions |
| Coordinate.Position.DiffX | src/main/java/domain/piece/Queen.java:19-28 | (assumed `diffX`, also called at InitPawn.java:35) this.x - other.x: lies strictly between -8 and 8, and adding it to the other's x gives this x |
| Coordinate.Position.DiffY | src/main/java/domain/piece/Queen.java:19-28 | (assumed `diffY`, also called at InitPawn.java:23 and 34) this.y - other.y: lies strictly between -8 and 8, and adding it to the other's y gives this y |
| Coordinate.Position.Move | src/main/java/domain/piece/Queen.java:51-55 | (assumed `move`) succeeds exactly when the displaced square is on the board, and then has the displaced coordinates |
| Coordinate.MoveByDiff | src/main/java/domain/piece/Queen.java:19-20 | (assumed `diffX`, `diffY`, `move`) moving a source by the target's differences lands on the target |
| Piece.Queen.MoveCoordinate | src/main/java/domain/piece/Queen.java:45-47 | `Integer.compare(diff, 0)` lies in {-1, 0, 1}, is 0 exactly for a zero difference, and times the difference gives its absolute value |
| Piece.Queen.IsMove | src/main/java/domain/piece/Queen.java:33-35 | true exactly when the larger absolute difference is at least one square; `Queen.IsMovable`'s ensures fixes what it means for a move |
| Piece.Queen.IsRookMovable | src/main/java/domain/piece/Queen.java:37-39 | true exactly when the product of the absolute differences is zero, i.e. the move stays on one row or one column; `Queen.IsMovable`'s ensures fixes its role |
| Piece.Queen.IsBishopMovable | src/main/java/domain/piece/Queen.java:41-43 | when true, the move changes both coordinates or neither; `Queen.IsMovable`'s ensures fixes its exact meaning (equal absolute differences) |
| Piece.Queen.IsMovable | src/main/java/domain/piece/Queen.java:26-43 | legal exactly when source and target differ and lie on one column, one row or one diagonal; a legal move has a distance of at least 1 |
| Piece.Queen.WalkAt | src/main/java/domain/piece/Queen.java:49-58 | for a legal move, every square 0..Distance unit steps from the source is on the board; the walk meets the target only after Distance steps and the source only after none |
| Piece.Queen.FindPositions | src/main/java/domain/piece/Queen.java:49-58 | the loop terminates by value equality with the target and returns the Distance - 1 squares source + k * step (k = 1 ..), in walking order, containing neither endpoint |
| Piece.Queen.FindRoute | src/main/java/domain/piece/Queen.java:16-23 | fails exactly for an illegal shape; otherwise the route has max(\|dx\|, \|dy\|) - 1 squares, the k-th is source + k * (sign dx, sign dy), and neither endpoint is on it |
| Piece.StraightRouteUnique | src/main/java/domain/piece/Queen.java:49-58 | a route is fully determined by its source and target |
| Piece.QueenColumnRouteHolds | src/main/java/domain/piece/Queen.java:49-58 | the squares (0, 1), (0, 2), .., (0, 6), in that order, form a straight route from (0, 0) to (0, 7) |
| Piece.QueenRouteAlongColumn | src/main/java/domain/piece/Queen.java:16-23 | every straight route from (0, 0) to (0, 7), and so the queen's route, is exactly (0, 1), (0, 2), .., (0, 6) |
| Piece.InitPawn.ChooseDirection | src/main/java/domain/piece/InitPawn.java:44-50 | the direction is -1 exactly for WHITE and +1 for any other colour |
| Piece.InitPawn.IsPawnMovable | src/main/java/domain/piece/InitPawn.java:40-42 | for a unit direction, an accepted one-row step moves exactly one square (as a king would); `InitPawn.IsMovable`'s ensures fixes its exact meaning |
| Piece.InitPawn.IsMovable | src/main/java/domain/piece/InitPawn.java:30-42 | legal exactly for one row forward with \|dx\| <= 1, or two rows forward with dx = 0; a legal move never stays put |
| Piece.InitPawn.IllegalShapes | src/main/java/domain/piece/InitPawn.java:30-42 | zero-length, backward and purely sideways moves are illegal, and so are two-row moves with a sideways part and moves of more than two rows |
| Piece.InitPawn.ShapeOnlyMatters | src/main/java/domain/piece/InitPawn.java:30-38 | legality depends only on the signed differences and the colour, not on the source's rank or file |
| Piece.InitPawn.GetRoute | src/main/java/domain/piece/InitPawn.java:22-28 | for a legal move the route is empty after one row; after two rows it is the single square one row forward from the source, halfway to the target |
| Piece.InitPawn.FindRoute | src/main/java/domain/piece/InitPawn.java:16-28 | fails exactly for an illegal shape; a one-row move gives an empty route, and a two-row move gives exactly the square between source and target |
| Piece.InitPawn.RouteIsStraight | src/main/java/domain/piece/InitPawn.java:16-28 | a legal pawn move yields the same route a sliding piece would cross between the same two squares |
| Piece.InitPawnRoutesFromStart | src/main/java/domain/piece/InitPawn.java:16-28 | a WHITE pawn at (4, 6) has the route [(4, 5)] to (4, 4) and an empty route to (4, 5) |

## Left out

- `src/main/java/jdbc/ChessGameDao.java` is not part of this model. It holds JDBC persistence: connections, SQL, result sets and the piece-type lookup.
- The board, the game and turn handling are not part of this model, and neither are the other piece kinds or the `Piece` superclass. This includes the pawn replacement after a move, and occupancy and capture rules.
- The `Route` wrapper class is not part of this model. A route is the plain sequence of positions it wraps.
- The exception types thrown by `validateMovable` and by `List.get` are not modelled. Both are the single failure outcome `None`.
- Reference identity is not modelled. Java's `this == o` shortcut in `equals` and its `!=` loop test in `findPositions` become value equality.
- Colour is modelled as the two values WHITE and BLACK. The `Color` enum is not part of this model.
- Coordinate.PositionCache.constructor: the model does not state that `CACHE` is never written after initialisation. In Java, `addColumn` and `addRow` are private and run once, from the static initializer. In the model, `AddColumn` and `AddRow` stay callable on a finished cache, so nothing proves the cache frozen.
- Piece.Queen.IsBishopMovable: its own ensures states only a consequence (both coordinates change, or neither). Its exact meaning, equal absolute differences, is fixed through `Queen.IsMovable`'s ensures.
- Piece.InitPawn.IsPawnMovable: its own ensures states only a consequence (an accepted step moves exactly one square). Its exact meaning is fixed through `InitPawn.IsMovable`'s ensures.
