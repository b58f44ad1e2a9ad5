# Snake game core of the "Siedler coming soon" page

The landing page embeds a small Snake game (`SnakeGame` in `app/page.js`). Its logic is a
discrete state machine on a 20×20 grid of integer cells:

- the snake is a list of cells, head first;
- arrow keys and swipes set a pending direction, and a direct reversal of the pending
  direction is refused;
- every tick of a repeating timer moves the head one cell in the pending direction;
- a move off the board, or onto any cell of the current body, ends the game;
- otherwise the new head is prepended, and the tail is dropped unless the head lands on the
  food, which is then moved to a random cell.

The model has four modules:

- `Grid`: directions, cells, the board bounds and `NextHead`.
- `Input`: the key-down and touch-end rules for the pending direction.
- `Game`: one owned state record with `Step` (one tick) and `ApplyInput` (one input event),
  a `Run` over a sequence of events (`RunAsWritten` with the component's own input rule),
  and the invariants.
- `Scenarios`: concrete runs. These are the opening from the mount state, the collision edge
  cases, and the behaviour after Game Over.

Some things outside the state are passed in as parameters:

- The random food cell (`Math.floor(Math.random() * tileCount)` for each coordinate) is a
  parameter of `Step`, required to lie on the board.
- A swipe is its integer displacement `(dx, dy)`.
- One timer firing is one call of `Step`.

The state also records whether the tick timer is live (`ticking`). The component clears the
interval on a collision. It also starts a fresh interval whenever the tick effect's
dependencies change, and `direction` is one of them (see Findings).

The collision test scans the whole pre-move body, including the tail cell that this tick
would vacate (`TailChase`). The reversal guard compares against the pending direction, not
the direction of the last move. So two inputs between ticks can turn the snake back into its
neck (`TwoInputsCanReverse`, `DoubleTurnIntoNeck`). The food is relocated without excluding
snake cells, so it can land on the body (`FoodMayLandOnSnake`). The model keeps all three
behaviours as the code has them.

`Scenarios.SelfCollision` turns the body `[(5,5),(5,6),(5,7)]` DOWN into its neck `(5,6)`.

## Model

| member | source | states |
|---|---|---|
| Grid.NextHead | app/page.js:24-32 | the next head is exactly one unit away, on the direction's axis (y kept for LEFT/RIGHT, x kept for UP/DOWN), towards larger coordinates exactly for RIGHT and DOWN |
| Grid.NextHeadOppositeUndoes | app/page.js:24-32 | a step followed by a step in the opposite direction returns to the start cell |
| Grid.NextHeadInjective | app/page.js:24-32 | the four directions lead to four different cells, and a step in one direction never maps two cells to one |
| Input.ApplyKey | app/page.js:35-42 | the result is never the reverse of the pending direction; a non-arrow key keeps it; an arrow key sets its direction exactly when that is not the reverse of the pending one |
| Input.ApplySwipe | app/page.js:57-69 | never the reverse of the pending direction; a dominant horizontal displacement yields only LEFT/RIGHT, otherwise (ties included) only UP/DOWN; a zero swipe changes nothing; a change to RIGHT/LEFT/DOWN/UP needs dx>0/dx<0/dy>0/dy<0, and a dominant-axis swipe that is not a reversal always sets its direction |
| Input.SwipeIsKey | app/page.js:57-69 | a swipe has the same effect as pressing the arrow key of its dominant axis and sign (nothing for a zero swipe) |
| Input.NewDir | app/page.js:35-69 | any single input leaves a pending direction that is not the reverse of the previous one |
| Input.TwoInputsCanReverse | app/page.js:37-40 | two inputs, each checked only against the pending direction, can together turn RIGHT into LEFT (keys and swipes alike) |
| Game.Step | app/page.js:84-107 | one tick keeps the body non-empty and the direction, changes the length by 0 or +1, keeps the food on the board, and never clears Game Over |
| Game.ApplyInput | app/page.js:35-69 | an input changes only the pending direction, never to the reverse; snake, food, Game Over and the timer are untouched (the corrected timer behaviour, see Findings) |
| Game.ApplyInputAsWritten | app/page.js:81-122 | as the component behaves: the pending direction changes as above, and a change of direction starts the tick timer again even after Game Over |
| Game.Run | app/page.js:84-107 | folding ticks and corrected inputs over a state keeps the body non-empty |
| Game.RunAsWritten | app/page.js:81-122 | folding ticks and the component's own inputs (which restart the timer on a direction change) keeps the body non-empty |
| Game.AsWrittenAgreesWhileTicking | app/page.js:81-122 | while the timer is live, the component's input rule and the corrected one give the same state |
| Game.StepCollision | app/page.js:88-96 | a next head off the board or on any body cell sets Game Over, stops the timer, and leaves snake and food unchanged |
| Game.StepMove | app/page.js:98-107 | a successful tick that misses the food gives [next head] + the body without its last cell: same length, food unchanged |
| Game.StepEat | app/page.js:98-103 | a successful tick onto the food gives [food cell] + the whole old body, one longer, with the food moved to the supplied on-board cell |
| Game.GrowsIffEats | app/page.js:98-106 | the body grows by one on exactly the ticks whose next head is a free on-board cell holding the food |
| Game.StepStopped | app/page.js:93-95 | once the interval is cleared, a tick changes nothing |
| Game.StepPreservesWellFormed | app/page.js:88-107 | a tick keeps every body cell on the board, the cells pairwise distinct, and the food on the board |
| Game.StepPreservesConsistent | app/page.js:88-96 | a tick keeps "timer live" equal to "not Game Over" |
| Game.RunPreserves | app/page.js:84-107 | any sequence of ticks and corrected inputs keeps the body on the board, the cells distinct, and the timer in step with Game Over |
| Game.RunAsWrittenWellFormed | app/page.js:84-107 | any sequence of ticks and the component's own inputs, restarts after Game Over included, keeps every body cell on the board, the cells pairwise distinct, and the food on the board |
| Game.GameOverIsTerminal | app/page.js:93-95 | after Game Over, no sequence of ticks and (corrected) inputs moves the snake or the food |
| Game.InitWellFormed | app/page.js:16-22 | the mount state is well-formed, running and not over |
| Scenarios.RunAppend | app/page.js:84-107 | running two event sequences one after the other is the same as running their concatenation |
| Scenarios.StraightRun | app/page.js:84-107 | a one-cell snake heading right with no food in its path advances one cell per tick and stays one cell long |
| Scenarios.OpeningRun | app/page.js:16-22 | from the mount state with no input, nine ticks reach head (19,10) at length 1, and the tenth sets Game Over with the snake unmoved, whatever food cells are drawn |
| Scenarios.BoundaryCollision | app/page.js:88-90 | a head at (19,19) moving RIGHT sets Game Over with snake and food unchanged |
| Scenarios.SelfCollision | app/page.js:91 | a head turned onto a body cell sets Game Over |
| Scenarios.FoodEaten | app/page.js:98-103 | head (14,15) moving RIGHT onto food (15,15) grows the snake to two cells and moves the food |
| Scenarios.TailChase | app/page.js:91 | moving into the tail cell that the tick would vacate still ends the game |
| Scenarios.DoubleTurnIntoNeck | app/page.js:37-40 | UP then LEFT before one tick turns a right-moving two-cell snake into its neck and ends the game |
| Scenarios.FoodMayLandOnSnake | app/page.js:100-103 | the relocated food can lie on a body cell, and the state stays well-formed |
| Scenarios.MovesAfterGameOver | app/page.js:81-122 | after the opening run ends the game, an up-arrow press and one tick move the snake to (19,9) under the as-written input rule, and leave it at (19,10) under the corrected one |

## Left out

- React state hooks, re-rendering and listener registration and removal (app/page.js:34-79):
  framework lifecycle. Each input is modelled as applied to the pending direction before the
  next tick.
- The 150 ms interval and the host event loop: one timer firing is one call of `Step`, and
  `ticking` records only whether an interval is live.
- Canvas drawing (app/page.js:82, 109-118): a side effect that computes nothing in the state.
- `Math.random` and the floating-point `Math.floor` (app/page.js:101-102): replaced by an
  arbitrary on-board cell passed to `Step`.
- Reading `clientX`/`clientY` from touch events (app/page.js:51-59): only the displacement
  decision is modelled, and displacements are integers, not the browser's fractional pixels.
- The `Home` page markup and the "Game Over" text (app/page.js:3-12, 124-134): presentation.
- Game.Step: requires a non-empty body. The component would fail on an empty one, but no
  reachable state has an empty body (`RunPreserves`).

## Findings

| source | as written | input that shows it | evidently intended | confidence | as-written member | corrected member |
|---|---|---|---|---|---|---|
| app/page.js:81-122 | The tick effect lists `direction` among its dependencies. Its body never reads `gameOver`. A direction change after a collision therefore starts a new interval, and the snake moves on while "Game Over" is shown. | From the mount state, ten ticks with no input end the game at (19,10). Then ArrowUp and one tick move the head to (19,9). | Game Over is terminal: once the game is over, nothing moves again. | not executed; high, from the effect's dependency list and the unguarded tick body | Game.ApplyInputAsWritten (shown by Scenarios.MovesAfterGameOver) | Game.ApplyInput (Game.GameOverIsTerminal; used by Game.Run) |
