/** The simulation state of the Snake game and the two operations on it: one
    timer tick, and one input event. */
module Game {
  import opened Grid
  import opened Input

  /** Everything the game loop reads and writes. `snake` lists the body head
      first; `dir` is the pending direction the next tick moves in;
      `ticking` says whether the repeating tick timer is live. */
  datatype State = State(snake: seq<Cell>, food: Cell, dir: Dir, gameOver: bool, ticking: bool)

  /** The state at mount: a one-cell snake in the middle heading right, the
      food at (15, 15), and the tick timer started. */
  const Init: State := State([Cell(10, 10)], Cell(15, 15), Right, false, true)

  /** The losing condition of a tick: the next head leaves the board or
      lands on any cell of the current body, the tail included. */
  predicate Collides(snake: seq<Cell>, head: Cell) {
    !InGrid(head) || head in snake
  }

  /** The cell the head moves to on the next tick. */
  function Ahead(s: State): Cell
    requires |s.snake| > 0
  {
    NextHead(s.dir, s.snake[0])
  }

  /** One tick of the timer. `newFood` stands for the random cell the food is
      moved to when it is eaten. When no timer is live nothing happens; a
      collision ends the game, leaves snake and food alone and stops the
      timer; otherwise the head is prepended and the tail dropped unless the
      food was eaten. */
  function Step(s: State, newFood: Cell): (r: State)
    requires |s.snake| > 0
    requires InGrid(newFood)
    ensures |r.snake| > 0
    ensures r.dir == s.dir
    ensures |r.snake| == |s.snake| || |r.snake| == |s.snake| + 1
    ensures InGrid(s.food) ==> InGrid(r.food)
    ensures s.gameOver ==> r.gameOver
  {
    if !s.ticking then s
    else
      var head := NextHead(s.dir, s.snake[0]);
      if Collides(s.snake, head) then
        s.(gameOver := true, ticking := false)
      else if head == s.food then
        s.(snake := [head] + s.snake, food := newFood)
      else
        s.(snake := [head] + s.snake[..|s.snake| - 1])
  }

  /** One input event, with the evidently intended timer behaviour: the
      pending direction changes and a stopped timer stays stopped. */
  function ApplyInput(s: State, i: Input): (r: State)
    ensures r.dir != Opposite(s.dir)
    ensures r.snake == s.snake && r.food == s.food
    ensures r.gameOver == s.gameOver && r.ticking == s.ticking
  {
    s.(dir := NewDir(s.dir, i))
  }

  /** One input event as the component behaves: a change of the pending
      direction re-runs the tick effect, which starts a new timer even after
      the game is over. */
  function ApplyInputAsWritten(s: State, i: Input): (r: State)
    ensures r.dir != Opposite(s.dir)
    ensures r.snake == s.snake && r.food == s.food && r.gameOver == s.gameOver
    ensures r.ticking <==> s.ticking || r.dir != s.dir
  {
    var d := NewDir(s.dir, i);
    s.(dir := d, ticking := s.ticking || d != s.dir)
  }

  /** Things that happen to the game, in order. */
  datatype Event = Tick(newFood: Cell) | Act(input: Input)

  predicate FoodInGrid(evs: seq<Event>) {
    forall i :: 0 <= i < |evs| && evs[i].Tick? ==> InGrid(evs[i].newFood)
  }

  /** The state after a sequence of events. */
  function Run(s: State, evs: seq<Event>): (r: State)
    requires |s.snake| > 0
    requires FoodInGrid(evs)
    ensures |r.snake| > 0
    decreases |evs|
  {
    if evs == [] then s
    else
      match evs[0]
      case Tick(f) => Run(Step(s, f), evs[1..])
      case Act(i) => Run(ApplyInput(s, i), evs[1..])
  }

  /** The state after a sequence of events under the component's own input
      rule, which restarts the timer on any change of direction. */
  function RunAsWritten(s: State, evs: seq<Event>): (r: State)
    requires |s.snake| > 0
    requires FoodInGrid(evs)
    ensures |r.snake| > 0
    decreases |evs|
  {
    if evs == [] then s
    else
      match evs[0]
      case Tick(f) => RunAsWritten(Step(s, f), evs[1..])
      case Act(i) => RunAsWritten(ApplyInputAsWritten(s, i), evs[1..])
  }

  /** While the timer is live the two input rules agree: the correction
      only matters after Game Over. */
  lemma AsWrittenAgreesWhileTicking(s: State, i: Input)
    requires s.ticking
    ensures ApplyInputAsWritten(s, i) == ApplyInput(s, i)
  {
  }

  // ---------------------------------------------------------------------
  // One tick

  /** A tick whose next head is off the board or on the body ends the game
      and changes neither snake nor food. */
  lemma StepCollision(s: State, newFood: Cell)
    requires |s.snake| > 0 && InGrid(newFood) && s.ticking
    requires Collides(s.snake, Ahead(s))
    ensures var r := Step(s, newFood);
      r.gameOver && !r.ticking && r.snake == s.snake && r.food == s.food
  {
  }

  /** A successful tick that misses the food moves the body one cell: the
      new head in front, the old tail gone, the length kept, the food kept. */
  lemma StepMove(s: State, newFood: Cell)
    requires |s.snake| > 0 && InGrid(newFood) && s.ticking
    requires !Collides(s.snake, Ahead(s)) && Ahead(s) != s.food
    ensures var r := Step(s, newFood);
      && r.snake[0] == NextHead(s.dir, s.snake[0])
      && r.snake[1..] == s.snake[..|s.snake| - 1]
      && |r.snake| == |s.snake|
      && r.food == s.food && r.gameOver == s.gameOver
  {
  }

  /** A successful tick onto the food grows the body by its new head, keeps
      the tail and moves the food to the supplied cell on the board. */
  lemma StepEat(s: State, newFood: Cell)
    requires |s.snake| > 0 && InGrid(newFood) && s.ticking
    requires !Collides(s.snake, Ahead(s)) && Ahead(s) == s.food
    ensures var r := Step(s, newFood);
      && r.snake[0] == s.food
      && r.snake[1..] == s.snake
      && |r.snake| == |s.snake| + 1
      && r.food == newFood && InGrid(r.food)
      && r.gameOver == s.gameOver
  {
  }

  /** The body grows on exactly the ticks that eat the food. */
  lemma GrowsIffEats(s: State, newFood: Cell)
    requires |s.snake| > 0 && InGrid(newFood)
    ensures |Step(s, newFood).snake| == |s.snake| + 1
      <==> s.ticking && !Collides(s.snake, Ahead(s)) && Ahead(s) == s.food
  {
  }

  /** Without a live timer no tick happens. */
  lemma StepStopped(s: State, newFood: Cell)
    requires |s.snake| > 0 && InGrid(newFood) && !s.ticking
    ensures Step(s, newFood) == s
  {
  }

  // ---------------------------------------------------------------------
  // Invariants

  /** All body cells pairwise different. */
  predicate Distinct(snake: seq<Cell>) {
    forall i, j :: 0 <= i < j < |snake| ==> snake[i] != snake[j]
  }

  /** All body cells on the board. */
  predicate AllInGrid(snake: seq<Cell>) {
    forall i :: 0 <= i < |snake| ==> InGrid(snake[i])
  }

  /** The shape every reachable state has. */
  predicate WellFormed(s: State) {
    && |s.snake| > 0
    && AllInGrid(s.snake)
    && Distinct(s.snake)
    && InGrid(s.food)
  }

  /** The timer is live exactly while the game is not over. */
  predicate Consistent(s: State) {
    s.ticking <==> !s.gameOver
  }

  /** A tick keeps the body on the board and free of overlaps. */
  lemma StepPreservesWellFormed(s: State, newFood: Cell)
    requires WellFormed(s) && InGrid(newFood)
    ensures WellFormed(Step(s, newFood))
  {
  }

  /** A tick keeps timer and game-over flag in step. */
  lemma StepPreservesConsistent(s: State, newFood: Cell)
    requires |s.snake| > 0 && InGrid(newFood) && Consistent(s)
    ensures Consistent(Step(s, newFood))
  {
  }

  /** Dropping the first event keeps the food cells on the board. */
  lemma FoodInGridRest(evs: seq<Event>)
    requires FoodInGrid(evs) && evs != []
    ensures FoodInGrid(evs[1..])
    ensures evs[0].Tick? ==> InGrid(evs[0].newFood)
  {
  }

  /** Every run with the corrected input rule from a well-formed,
      consistent state stays so. */
  lemma {:induction false} RunPreserves(s: State, evs: seq<Event>)
    requires WellFormed(s) && Consistent(s) && FoodInGrid(evs)
    ensures WellFormed(Run(s, evs)) && Consistent(Run(s, evs))
    decreases |evs|
  {
    if evs != [] {
      FoodInGridRest(evs);
      match evs[0]
      case Tick(f) =>
        StepPreservesWellFormed(s, f);
        StepPreservesConsistent(s, f);
        RunPreserves(Step(s, f), evs[1..]);
      case Act(i) =>
        RunPreserves(ApplyInput(s, i), evs[1..]);
    }
  }

  /** Every run of the component as written, restarts after Game Over
      included, keeps the body on the board and free of overlaps. */
  lemma {:induction false} RunAsWrittenWellFormed(s: State, evs: seq<Event>)
    requires WellFormed(s) && FoodInGrid(evs)
    ensures WellFormed(RunAsWritten(s, evs))
    decreases |evs|
  {
    if evs != [] {
      FoodInGridRest(evs);
      match evs[0]
      case Tick(f) =>
        StepPreservesWellFormed(s, f);
        RunAsWrittenWellFormed(Step(s, f), evs[1..]);
      case Act(i) =>
        RunAsWrittenWellFormed(ApplyInputAsWritten(s, i), evs[1..]);
    }
  }

  /** Once the game is over, no sequence of ticks and inputs moves the snake
      or the food again. */
  lemma {:induction false} GameOverIsTerminal(s: State, evs: seq<Event>)
    requires |s.snake| > 0 && Consistent(s) && s.gameOver && FoodInGrid(evs)
    ensures var r := Run(s, evs);
      r.snake == s.snake && r.food == s.food && r.gameOver
    decreases |evs|
  {
    if evs != [] {
      FoodInGridRest(evs);
      match evs[0]
      case Tick(f) =>
        GameOverIsTerminal(Step(s, f), evs[1..]);
      case Act(i) =>
        GameOverIsTerminal(ApplyInput(s, i), evs[1..]);
    }
  }

  lemma InitWellFormed()
    ensures WellFormed(Init) && Consistent(Init) && !Init.gameOver
  {
  }
}
