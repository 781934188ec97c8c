/** The 5x5 board: cell coordinates, the bounds test and the row-major mapping
    of a cell onto one of the 25 slots of the board array. */
module Grid {

  const GridSize := 5
  const CellCount := GridSize * GridSize

  /** A cell coordinate; `x` is the column, `y` the row. */
  datatype Pos = Pos(x: int, y: int) {
    function Plus(v: Vec): Pos {
      Pos(x + v.dx, y + v.dy)
    }
  }

  /** A displacement between two cells. */
  datatype Vec = Vec(dx: int, dy: int)

  /** `isInBounds`: both coordinates lie in 0..GridSize-1. */
  predicate InBounds(p: Pos) {
    p.x >= 0 && p.x < GridSize && p.y >= 0 && p.y < GridSize
  }

  /** `getIndex`: the board slot of a cell, row by row. It is computed for any
      coordinates; only in-bounds cells land in 0..24. */
  function Index(p: Pos): (i: int)
    ensures InBounds(p) ==> 0 <= i < CellCount
  {
    p.y * GridSize + p.x
  }

  /** The cell a board slot stands for: the inverse of Index. */
  function CellAt(i: int): Pos {
    Pos(i % GridSize, i / GridSize)
  }

  /** Index maps in-bounds cells into 0..24 and CellAt undoes it. */
  lemma IndexRoundTrip(p: Pos)
    requires InBounds(p)
    ensures 0 <= Index(p) < CellCount
    ensures CellAt(Index(p)) == p
  {
  }

  /** Every slot 0..24 is the index of exactly the in-bounds cell CellAt gives. */
  lemma CellAtRoundTrip(i: int)
    requires 0 <= i < CellCount
    ensures InBounds(CellAt(i))
    ensures Index(CellAt(i)) == i
    ensures forall p | InBounds(p) && Index(p) == i :: p == CellAt(i)
  {
  }

  /** Two in-bounds cells with the same slot are the same cell. */
  lemma IndexInjective(p: Pos, q: Pos)
    requires InBounds(p) && InBounds(q)
    ensures Index(p) == Index(q) <==> p == q
  {
    if Index(p) == Index(q) {
      IndexRoundTrip(p);
      IndexRoundTrip(q);
    }
  }
}
