/** Runs of the game from concrete states: the opening from the mount state,
    the edge cases of the collision test, and the behaviour after Game Over
    as the component has it. */
module Scenarios {
  import opened Grid
  import opened Input
  import opened Game

  /** `n` ticks with no input in between, every eaten food moved to `f`. */
  function Ticks(n: nat, f: Cell): seq<Event> {
    seq(n, _ => Tick(f))
  }

  /** Running two event sequences one after the other is running their
      concatenation. */
  lemma {:induction false} RunAppend(s: State, a: seq<Event>, b: seq<Event>)
    requires |s.snake| > 0 && FoodInGrid(a) && FoodInGrid(b)
    ensures FoodInGrid(a + b)
    ensures Run(s, a + b) == Run(Run(s, a), b)
    decreases |a|
  {
    assert FoodInGrid(a + b) by {
      forall i | 0 <= i < |a + b| && (a + b)[i].Tick?
        ensures InGrid((a + b)[i].newFood)
      {
        if i < |a| {
          assert (a + b)[i] == a[i];
        } else {
          assert (a + b)[i] == b[i - |a|];
        }
      }
    }
    if a == [] {
      assert a + b == b;
    } else {
      FoodInGridRest(a);
      assert (a + b)[0] == a[0];
      assert (a + b)[1..] == a[1..] + b;
      match a[0]
      case Tick(f) =>
        RunAppend(Step(s, f), a[1..], b);
      case Act(i) =>
        RunAppend(ApplyInput(s, i), a[1..], b);
    }
  }

  /** A one-cell snake heading right with nothing in its way advances one
      cell per tick and stays one cell long. */
  lemma {:induction false} StraightRun(x: int, y: int, food: Cell, f: Cell, k: nat)
    requires 0 <= x && x + k < TileCount && 0 <= y < TileCount && InGrid(f)
    requires food.y != y || food.x <= x || food.x > x + k
    ensures FoodInGrid(Ticks(k, f))
    ensures Run(State([Cell(x, y)], food, Right, false, true), Ticks(k, f))
         == State([Cell(x + k, y)], food, Right, false, true)
    decreases k
  {
    if k > 0 {
      var s := State([Cell(x, y)], food, Right, false, true);
      assert Ticks(k, f)[0] == Tick(f);
      assert Ticks(k, f)[1..] == Ticks(k - 1, f);
      assert Step(s, f) == State([Cell(x + 1, y)], food, Right, false, true);
      StraightRun(x + 1, y, food, f, k - 1);
    }
  }

  /** From the mount state with no input, nine ticks bring the head to the
      right edge at (19, 10), still one cell long, and the tenth ends the
      game without moving anything, whatever food cells are drawn. */
  lemma OpeningRun(f: Cell)
    requires InGrid(f)
    ensures FoodInGrid(Ticks(9, f)) && FoodInGrid(Ticks(10, f))
    ensures Run(Init, Ticks(9, f)) == State([Cell(19, 10)], Cell(15, 15), Right, false, true)
    ensures Run(Init, Ticks(10, f)) == State([Cell(19, 10)], Cell(15, 15), Right, true, false)
  {
    StraightRun(10, 10, Cell(15, 15), f, 9);
    StraightRun(10, 10, Cell(15, 15), f, 1);
    assert Ticks(10, f) == Ticks(9, f) + Ticks(1, f);
    RunAppend(Init, Ticks(9, f), Ticks(1, f));
  }

  /** A head at the bottom-right corner moving right leaves the board. */
  lemma BoundaryCollision()
    ensures var s := State([Cell(19, 19)], Cell(15, 15), Right, false, true);
      var r := Step(s, Cell(0, 0));
      r.gameOver && r.snake == s.snake && r.food == s.food
  {
  }

  /** A head turned back onto its own body ends the game. */
  lemma SelfCollision()
    ensures var s := State([Cell(5, 5), Cell(5, 6), Cell(5, 7)], Cell(15, 15), Down, false, true);
      var r := Step(s, Cell(0, 0));
      r.gameOver && r.snake == s.snake
  {
  }

  /** Moving onto the food grows the snake by one and moves the food. */
  lemma FoodEaten()
    ensures var s := State([Cell(14, 15)], Cell(15, 15), Right, false, true);
      var r := Step(s, Cell(3, 4));
      r.snake == [Cell(15, 15), Cell(14, 15)] && r.food == Cell(3, 4) && !r.gameOver
  {
  }

  /** The collision test looks at the whole body, so chasing the tail into
      the cell it is about to vacate still ends the game. */
  lemma TailChase()
    ensures var s := State([Cell(1, 0), Cell(1, 1), Cell(0, 1), Cell(0, 0)], Cell(15, 15), Left, false, true);
      WellFormed(s) && Step(s, Cell(0, 0)).gameOver
  {
  }

  /** Two inputs before the next tick turn a right-moving two-cell snake
      straight back into its neck. */
  lemma DoubleTurnIntoNeck(f: Cell)
    requires InGrid(f)
    ensures var s := State([Cell(5, 5), Cell(4, 5)], Cell(15, 15), Right, false, true);
      var r := Run(s, [Act(Press(ArrowUp)), Act(Press(ArrowLeft)), Tick(f)]);
      r.gameOver && r.snake == s.snake
  {
    var s := State([Cell(5, 5), Cell(4, 5)], Cell(15, 15), Right, false, true);
    var evs := [Act(Press(ArrowUp)), Act(Press(ArrowLeft)), Tick(f)];
    var s1 := ApplyInput(s, Press(ArrowUp));
    var s2 := ApplyInput(s1, Press(ArrowLeft));
    assert s2.dir == Left;
    assert evs[1..] == [Act(Press(ArrowLeft)), Tick(f)];
    assert evs[1..][1..] == [Tick(f)];
    assert Run(s, evs) == Run(s2, [Tick(f)]);
    assert [Tick(f)][1..] == [];
    assert Run(s2, [Tick(f)]) == Step(s2, f);
  }

  /** The relocated food may land on the snake's body. */
  lemma FoodMayLandOnSnake()
    ensures var s := State([Cell(1, 0)], Cell(2, 0), Right, false, true);
      var r := Step(s, Cell(1, 0));
      WellFormed(r) && r.food in r.snake
  {
  }

  /** As the component behaves: after the opening run has ended the game, an
      up-arrow press restarts the timer and the next tick moves the snake to
      (19, 9) while the game is still over. With the intended input rule the
      same press and tick leave the snake where it died. */
  lemma MovesAfterGameOver(f: Cell)
    requires InGrid(f)
    ensures FoodInGrid(Ticks(10, f))
    ensures var over := Run(Init, Ticks(10, f));
      && over.gameOver
      && Step(ApplyInputAsWritten(over, Press(ArrowUp)), f).snake == [Cell(19, 9)]
      && Step(ApplyInputAsWritten(over, Press(ArrowUp)), f).gameOver
      && Run(over, [Act(Press(ArrowUp)), Tick(f)]).snake == [Cell(19, 10)]
  {
    OpeningRun(f);
    var over := Run(Init, Ticks(10, f));
    RunPreserves(Init, Ticks(10, f));
    GameOverIsTerminal(over, [Act(Press(ArrowUp)), Tick(f)]);
  }
}
