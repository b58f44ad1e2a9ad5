/** How keyboard and touch input change the pending travel direction.
    Both rules refuse a candidate direction that is the exact opposite of the
    pending one. */
module Input {
  import opened Grid

  /** The value of a key-down event's `key` field, as far as the game cares. */
  datatype Key = ArrowLeft | ArrowUp | ArrowRight | ArrowDown | OtherKey

  /** One input event: a key press, or a completed swipe with its integer
      displacement from touch start to touch end. */
  datatype Input = Press(key: Key) | Swipe(dx: int, dy: int)

  predicate IsArrow(k: Key) {
    !k.OtherKey?
  }

  /** The direction an arrow key asks for. */
  function ArrowDir(k: Key): Dir
    requires IsArrow(k)
  {
    match k
    case ArrowLeft => Left
    case ArrowUp => Up
    case ArrowRight => Right
    case ArrowDown => Down
  }

  /** The general turning rule both handlers follow: take the wanted
      direction unless it reverses the pending one. */
  function Turn(d: Dir, want: Dir): Dir {
    if want != Opposite(d) then want else d
  }

  /** The key-down handler: each arrow key is guarded against its own
      reverse; any other key is ignored. */
  function ApplyKey(d: Dir, k: Key): (r: Dir)
    ensures r != Opposite(d)
    ensures !IsArrow(k) ==> r == d
    ensures IsArrow(k) ==> r == Turn(d, ArrowDir(k))
  {
    match k
    case ArrowLeft => if d != Right then Left else d
    case ArrowUp => if d != Down then Up else d
    case ArrowRight => if d != Left then Right else d
    case ArrowDown => if d != Up then Down else d
    case OtherKey => d
  }

  /** The key a swipe amounts to: the axis with the strictly larger absolute
      displacement decides (ties go to the vertical axis), the sign picks the
      side; a swipe with no displacement on the chosen axis asks for nothing. */
  function SwipeKey(dx: int, dy: int): Key {
    if Abs(dx) > Abs(dy) then
      if dx > 0 then ArrowRight else ArrowLeft
    else if dy > 0 then ArrowDown
    else if dy < 0 then ArrowUp
    else OtherKey
  }

  /** The touch-end handler, branch for branch. */
  function ApplySwipe(d: Dir, dx: int, dy: int): (r: Dir)
    ensures r != Opposite(d)
    ensures Abs(dx) > Abs(dy) ==> r == d || Horizontal(r)
    ensures Abs(dx) <= Abs(dy) ==> r == d || !Horizontal(r)
    ensures dx == 0 && dy == 0 ==> r == d
    ensures r != d && r == Right ==> dx > 0
    ensures r != d && r == Left ==> dx < 0
    ensures r != d && r == Down ==> dy > 0
    ensures r != d && r == Up ==> dy < 0
    ensures Abs(dx) > Abs(dy) && dx > 0 && d != Left ==> r == Right
    ensures Abs(dx) > Abs(dy) && dx < 0 && d != Right ==> r == Left
    ensures Abs(dx) <= Abs(dy) && dy > 0 && d != Up ==> r == Down
    ensures Abs(dx) <= Abs(dy) && dy < 0 && d != Down ==> r == Up
  {
    if Abs(dx) > Abs(dy) then
      if dx > 0 && d != Left then Right
      else if dx < 0 && d != Right then Left
      else d
    else
      if dy > 0 && d != Up then Down
      else if dy < 0 && d != Down then Up
      else d
  }

  /** A swipe behaves exactly like pressing the arrow key it amounts to. */
  lemma SwipeIsKey(d: Dir, dx: int, dy: int)
    ensures ApplySwipe(d, dx, dy) == ApplyKey(d, SwipeKey(dx, dy))
  {
  }

  /** The new pending direction after one input event. */
  function NewDir(d: Dir, i: Input): (r: Dir)
    ensures r != Opposite(d)
  {
    match i
    case Press(k) => ApplyKey(d, k)
    case Swipe(dx, dy) => ApplySwipe(d, dx, dy)
  }

  /** Two inputs between ticks are each checked only against the pending
      direction, so together they can reverse it. */
  lemma TwoInputsCanReverse()
    ensures NewDir(NewDir(Right, Press(ArrowUp)), Press(ArrowLeft)) == Left
    ensures NewDir(NewDir(Right, Swipe(0, -5)), Swipe(-5, 0)) == Left
  {
  }
}
