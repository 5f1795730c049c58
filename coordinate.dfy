/**
  The board coordinate of domain/coordinate/Position.java: an immutable
  (x, y) pair handed out from a canonical 8 x 8 table that a static
  initializer fills once.
*/
module Coordinate {
  import opened Wrappers

  /** Number of rows of the table, and of entries in each row. */
  const Size: int := 8

  /** A column or row index that the table holds. */
  type Index = i: int | 0 <= i < Size

  /** True when (x, y) names a square of the board. */
  predicate OnBoard(x: int, y: int) {
    0 <= x < Size && 0 <= y < Size
  }

  /**
    A coordinate. Its fields are final and its constructor is private, so
    the only positions that exist are the ones the table creates: both
    coordinates lie in 0..7.
  */
  datatype Position = Position(x: Index, y: Index) {

    /** Signed column difference, this minus `other` (assumed definition). */
    function DiffX(other: Position): (d: int)
      ensures -Size < d < Size
      ensures other.x + d == x
    {
      x - other.x
    }

    /** Signed row difference, this minus `other` (assumed definition). */
    function DiffY(other: Position): (d: int)
      ensures -Size < d < Size
      ensures other.y + d == y
    {
      y - other.y
    }

    /** The position (dx, dy) away, looked up like `of`; `None` off the board
        (assumed definition). */
    function Move(dx: int, dy: int): (r: Option<Position>)
      ensures r.Some? <==> OnBoard(x + dx, y + dy)
      ensures r.Some? ==> r.value.x == x + dx && r.value.y == y + dy
    {
      Of(x + dx, y + dy)
    }

    /** `equals(Object)`: `None` stands for null or an object of another
        class. Equal exactly when both coordinates agree. */
    function Equals(o: Option<Position>): (r: bool)
      ensures r <==> o == Some(this)
    {
      match o
      case None => false
      case Some(p) => x == p.x && y == p.y
    }

    /** `hashCode()`, i.e. `Objects.hash(x, y)`, which is 31 * (31 + x) + y;
        on the board it never leaves the 32-bit range. */
    function HashCode(): (h: int)
      ensures 31 * 31 <= h < 31 * 31 + 31 * Size
      ensures h % 31 == y
    {
      31 * (31 * 1 + x) + y
    }
  }

  /** One row of the table: entry x holds (x, y). */
  function Row(y: Index): (row: seq<Position>)
    ensures |row| == Size
    ensures forall x :: 0 <= x < Size ==> row[x].x == x && row[x].y == y
  {
    seq(Size, (x: int) requires 0 <= x < Size => Position(x, y))
  }

  /** The contents of the cache once the static initializer has run. */
  function Table(): (t: seq<seq<Position>>)
    ensures |t| == Size
    ensures forall y :: 0 <= y < Size ==> |t[y]| == Size
    ensures forall y, x :: 0 <= y < Size && 0 <= x < Size ==> t[y][x].x == x && t[y][x].y == y
  {
    seq(Size, (y: int) requires 0 <= y < Size => Row(y))
  }

  /** `Position.of(x, y)`: `CACHE.get(y).get(x)`; each `get` fails on an index
      outside the list, which is modelled as `None`. */
  function Of(x: int, y: int): (r: Option<Position>)
    ensures r.Some? <==> OnBoard(x, y)
    ensures r.Some? ==> r.value.x == x && r.value.y == y
  {
    var t := Table();
    if 0 <= y < |t| && 0 <= x < |t[y]| then Some(t[y][x]) else None
  }

  /** `of` is canonical: two lookups give the same position exactly when
      they ask for the same pair, and every on-board pair is reached. */
  lemma OfCanonical(x1: int, y1: int, x2: int, y2: int)
    requires OnBoard(x1, y1)
    ensures Of(x1, y1) == Of(x2, y2) <==> x1 == x2 && y1 == y2
  {
  }

  /** Every position is the table's own entry for its coordinates. */
  lemma OfPosition(p: Position)
    ensures Of(p.x, p.y) == Some(p)
  {
  }

  /** `equals` is an equivalence relation: reflexive, symmetric, transitive. */
  lemma EqualsIsEquivalence(p: Position, q: Position, r: Position)
    ensures p.Equals(Some(p))
    ensures p.Equals(Some(q)) <==> q.Equals(Some(p))
    ensures p.Equals(Some(q)) && q.Equals(Some(r)) ==> p.Equals(Some(r))
  {
  }

  /** `hashCode` agrees with `equals`, and on the board it even tells
      distinct positions apart. */
  lemma HashCodeConsistent(p: Position, q: Position)
    ensures p.Equals(Some(q)) ==> p.HashCode() == q.HashCode()
    ensures p.HashCode() == q.HashCode() ==> p.Equals(Some(q))
  {
  }

  /** Moving by the differences to a target lands on that target. */
  lemma MoveByDiff(source: Position, target: Position)
    ensures source.Move(target.DiffX(source), target.DiffY(source)) == Some(target)
  {
  }

  /**
    The static `CACHE` list of rows. In Java the two builders are private
    and run once, from the static initializer (the constructor here); in
    this model `AddColumn` and `AddRow` stay callable, so nothing here
    proves the finished cache frozen.
  */
  class PositionCache {
    var rows: seq<seq<Position>>

    /** The static initializer: start from an empty list and fill it. */
    constructor ()
      ensures rows == Table()
    {
      rows := [];
      new;
      AddColumn();
    }

    /** Appends eight rows, filling row y right after adding it. */
    method AddColumn()
      requires rows == []
      modifies this
      ensures rows == Table()
    {
      for y := 0 to Size
        invariant rows == Table()[..y]
      {
        rows := rows + [[]];
        AddRow(y);
        assert rows[y] == Table()[y];
        assert rows == Table()[..y] + [Table()[y]];
      }
    }

    /** Appends the eight positions of row y to the list at index y. */
    method AddRow(y: Index)
      requires y < |rows|
      modifies this
      ensures rows == old(rows)[y := old(rows)[y] + Row(y)]
    {
      assert old(rows)[y] + Row(y)[..0] == old(rows)[y];
      for x := 0 to Size
        invariant rows == old(rows)[y := old(rows)[y] + Row(y)[..x]]
      {
        ghost var done := old(rows)[y] + Row(y)[..x];
        rows := rows[y := rows[y] + [Position(x, y)]];
        assert done + [Position(x, y)] == old(rows)[y] + Row(y)[..x + 1];
      }
      assert Row(y)[..Size] == Row(y);
    }
  }
}
