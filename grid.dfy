/** The playing field of the snake game: a square grid of cells, the four
    directions of travel, and the random choice of a cell for the food. */
module Grid {

  /** Number of cells along each side of the board. */
  const TileCount: int := 20

  /** One cell of the board; x grows to the right and y grows downwards. */
  datatype Cell = Cell(x: int, y: int)

  datatype Direction = Up | Down | Left | Right

  predicate InBounds(c: Cell)
  {
    0 <= c.x < TileCount && 0 <= c.y < TileCount
  }

  function Abs(n: int): nat
  {
    if n < 0 then -n else n
  }

  /** Number of unit steps between two cells along the grid lines. */
  function Distance(a: Cell, b: Cell): nat
  {
    Abs(a.x - b.x) + Abs(a.y - b.y)
  }

  function Opposite(d: Direction): (r: Direction)
    ensures r != d
  {
    match d
    case Up => Down
    case Down => Up
    case Left => Right
    case Right => Left
  }

  /** The cell the head reaches when it advances one cell in direction d.
      There is no wrap-around: the result may lie off the board. */
  function Step(c: Cell, d: Direction): (r: Cell)
    ensures Distance(c, r) == 1
  {
    match d
    case Up => c.(y := c.y - 1)
    case Down => c.(y := c.y + 1)
    case Left => c.(x := c.x - 1)
    case Right => c.(x := c.x + 1)
  }

  /** `Math.floor(Math.random() * tileCount)`, where u is the sample that
      `Math.random()` returned, read as an exact real in [0, 1). */
  function Sample(u: real): (r: int)
    requires 0.0 <= u < 1.0
    ensures 0 <= r < TileCount
  {
    (u * TileCount as real).Floor
  }

  /** Opposite is an involution. */
  lemma OppositeTwice(d: Direction)
    ensures Opposite(Opposite(d)) == d
  {
  }

  /** Stepping back in the opposite direction undoes a step. */
  lemma StepThenOpposite(c: Cell, d: Direction)
    ensures Step(Step(c, d), Opposite(d)) == c
  {
  }

  /** Different directions lead to different cells. */
  lemma StepInjective(c: Cell, d1: Direction, d2: Direction)
    requires d1 != d2
    ensures Step(c, d1) != Step(c, d2)
  {
  }

  /** Every column (and row) of the board is the result of some sample. */
  lemma SampleCoversBoard(k: int)
    requires 0 <= k < TileCount
    ensures 0.0 <= k as real / TileCount as real < 1.0
    ensures Sample(k as real / TileCount as real) == k
  {
    var u := k as real / TileCount as real;
    assert u * TileCount as real == k as real;
  }
}
