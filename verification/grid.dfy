/** The playing field of the Snake game: a square grid of integer cells and
    the four directions the snake can travel in. */
module Grid {

  /** Side length of the square board, in cells. */
  const TileCount: int := 20

  /** The four travel directions; the source keeps them as the strings
      "LEFT", "UP", "RIGHT" and "DOWN". Screen coordinates: y grows downward. */
  datatype Dir = Left | Up | Right | Down

  /** One grid cell. Coordinates are unbounded so that a move off the board
      can be represented and then detected. */
  datatype Cell = Cell(x: int, y: int)

  /** A cell lies on the board: both coordinates in [0, TileCount). */
  predicate InGrid(c: Cell) {
    0 <= c.x < TileCount && 0 <= c.y < TileCount
  }

  predicate Horizontal(d: Dir) {
    d == Left || d == Right
  }

  /** The direction that points the other way. */
  function Opposite(d: Dir): (r: Dir)
    ensures r != d
    ensures Horizontal(r) == Horizontal(d)
  {
    match d
    case Left => Right
    case Up => Down
    case Right => Left
    case Down => Up
  }

  function Abs(n: int): (r: nat)
    ensures r == n || r == -n
  {
    if n < 0 then -n else n
  }

  /** The neighbouring cell one step from `c` in direction `d`. */
  function NextHead(d: Dir, c: Cell): (r: Cell)
    // exactly one unit of movement ...
    ensures Abs(r.x - c.x) + Abs(r.y - c.y) == 1
    // ... along the axis of the direction, the other coordinate untouched ...
    ensures Horizontal(d) <==> r.y == c.y
    // ... and towards growing coordinates exactly for RIGHT and DOWN
    ensures (d == Right || d == Down) <==> (r.x > c.x || r.y > c.y)
  {
    match d
    case Left => Cell(c.x - 1, c.y)
    case Up => Cell(c.x, c.y - 1)
    case Right => Cell(c.x + 1, c.y)
    case Down => Cell(c.x, c.y + 1)
  }

  /** Stepping back the opposite way undoes a step. */
  lemma NextHeadOppositeUndoes(d: Dir, c: Cell)
    ensures NextHead(Opposite(d), NextHead(d, c)) == c
  {
  }

  /** From one cell, the four directions lead to four different cells, and
      a step in a fixed direction never merges two cells. */
  lemma NextHeadInjective(d: Dir, d': Dir, c: Cell, c': Cell)
    ensures NextHead(d, c) == NextHead(d', c) ==> d == d'
    ensures NextHead(d, c) == NextHead(d, c') ==> c == c'
  {
  }
}
