# Snake game state machine in Dafny

This project models the game logic of a browser Snake game written in
TypeScript (`script.ts`). The board has 20 × 20 cells. A snake is a list of
cells, head first, with a facing direction. Once per timer tick the game moves
the snake one cell. If the new head lands on the food, the score goes up by one,
the food moves to a random cell and the tail stays. Otherwise the tail is
dropped. The game ends when the head leaves the board or lands on another
segment of the body. Arrow keys turn the snake, except straight back. Space
starts a new game once the current one is over.

The model follows the code. `script.ts` has no wrap-around: leaving the board
ends the game. It has one kind of food and a fixed tick: there is no bonus
food, no speed ramp and no high-score list, and none are modelled.

Files:

- `grid.dfy`, module `Grid`: cells, directions, `Step` (one cell in a
  direction, no wrap-around), and `Sample`, the food's
  `Math.floor(Math.random() * tileCount)`.
- `game.dfy`, module `SnakeGame`:
  - the classes `Snake`, `Food` and `Game`, with the source's fields, updated
    in place;
  - the specification they are proved against: `GameState` (the whole
    observable state), `Tick` (one `update`), `Turn` (the keydown rule),
    `Collides` (what `checkCollision` reports), and `Consistent`, the invariant
    every `Game` keeps. `Game.Update` is proved to make `State()` equal to
    `Tick(old(State()), u, v)`.
- `facts.dfy`, module `GameFacts`: lemmas about `Tick`, about `Run` (a game
  played through any sequence of key presses and ticks) and about the
  direction rule.
- `scenarios.dfy`, module `Scenarios`: two worked examples of single ticks on the 20 × 20 board.

`Math.random()` is a parameter. Each method that draws food takes the two samples
`u`, `v` in `[0, 1)` that `Math.random()` would have returned. The samples are
exact reals, and `Sample(u)` is `(u * 20).Floor`.

## Model

| member | source | states |
|---|---|---|
| `Grid.Step` | script.ts:29-46 | the new head is exactly one grid step (distance 1) from the old head; there is no wrap-around |
| `Grid.StepThenOpposite` | script.ts:33-46 | a step followed by a step in the opposite direction returns to the start cell |
| `Grid.StepInjective` | script.ts:33-46 | the four directions lead to four different cells |
| `Grid.Opposite` | script.ts:149-170 | the direction under which an arrow key is ignored (its opposite) is never the key's own direction; Up/Down and Left/Right are paired |
| `Grid.OppositeTwice` | script.ts:149-170 | the opposite of the opposite direction is the direction itself |
| `Grid.Sample` | script.ts:111-114 | `floor(random * tileCount)` is always a column or row of the board, in `[0, 20)` |
| `Grid.SampleCoversBoard` | script.ts:111-114 | every column or row `k` of the board is drawn by some sample (`k / 20`) |
| `SnakeGame.Snake.constructor` | script.ts:22-27 | a new snake is the single cell (10,10), facing Right |
| `SnakeGame.Snake.Move` | script.ts:29-53 | the body becomes the cell one step ahead of the old head followed by the old body unchanged and in order; the result is always false |
| `SnakeGame.Snake.Grow` | script.ts:55-57 | growing changes nothing; growth comes from the caller keeping the tail |
| `SnakeGame.Snake.CheckCollision` | script.ts:59-76 | returns true iff the head is off the board or equals a segment at index 1 or later (the head is never compared with itself) |
| `SnakeGame.Food.constructor` | script.ts:105-109 | new food is placed at the cell the two samples choose, which is on the board |
| `SnakeGame.Food.Randomize` | script.ts:111-114 | the food moves to the cell the two samples choose, which is on the board |
| `SnakeGame.Game.constructor` | script.ts:136-142 | a new game has a one-segment snake at (10,10) facing Right, score 0, not over, and food on the board |
| `SnakeGame.Game.OnKeyDown` | script.ts:145-171 | the keydown handler sets the direction to `Turn(old direction, key)` and changes nothing else |
| `SnakeGame.Game.Update` | script.ts:174-194 | one update makes the game state equal to `Tick` of the old state and keeps the game invariant |
| `SnakeGame.OnSpace` | script.ts:230-235 | Space on a finished game yields a brand-new game; any other key, or a game still running, keeps the same game |
| `SnakeGame.KeyDirection` | script.ts:149-170 | exactly the four arrow keys ask for a direction |
| `SnakeGame.Turn` | script.ts:145-171 | the new direction is never the opposite of the current one; an arrow key is obeyed unless it asks for the opposite; every other key leaves the direction alone |
| `SnakeGame.Tick` | script.ts:174-194 | after an update the body is never empty |
| `SnakeGame.TickKeepsConsistent` | script.ts:174-194 | an update keeps the food on the board, the score non-negative, and, while the game runs, every segment on the board and no two segments on the same cell |
| `GameFacts.Apply` | script.ts:238-242 | a key press or a tick leaves the body non-empty |
| `GameFacts.Run` | script.ts:238-242 | any sequence of key presses and ticks leaves the body non-empty |
| `GameFacts.InitialGame` | script.ts:136-141 | a new game is a single segment at (10,10), facing Right, score 0, not over, and satisfies the game invariant |
| `GameFacts.TickWhenOver` | script.ts:175 | once the game is over, an update changes nothing |
| `GameFacts.TickEats` | script.ts:177-184 | when the new head lands on the food: score +1, the old body kept behind the new head (length +1), the new food on the board, and the direction unchanged |
| `GameFacts.TickMisses` | script.ts:185-188 | when the new head misses the food: score, food and direction unchanged, the last segment dropped, and the length unchanged |
| `GameFacts.TickGameOver` | script.ts:190-193 | a running game ends exactly when the body after the tail is dropped collides; a finished game stays finished |
| `GameFacts.TickScore` | script.ts:177-188 | the score never decreases and grows by at most one per update |
| `GameFacts.TickLengthFollowsScore` | script.ts:177-188 | an update changes the length and the score by the same amount |
| `GameFacts.EatingStaysOnBoard` | script.ts:180-193 | eating never takes the head off the board, so a game that ends on the food ends by the head meeting the body |
| `GameFacts.VacatedTailIsFree` | script.ts:185-193 | a head moving into the cell the tail leaves in the same update does not end the game |
| `GameFacts.RunKeepsConsistent` | script.ts:238-242 | the game invariant holds after any sequence of key presses and ticks |
| `GameFacts.RunScore` | script.ts:238-242 | over any sequence of events, the score never decreases, rises by at most one per event, moves in step with the length, and a finished game stays finished |
| `GameFacts.LengthIsScorePlusOne` | script.ts:228-242 | in every game played from the start, the snake is exactly one segment longer than the score |
| `GameFacts.SingleSegmentHitsOnlyWalls` | script.ts:59-76 | a one-segment snake collides iff its head is off the board |
| `GameFacts.OnBoardCollision` | script.ts:68-75 | with the head on the board, a collision happens iff the head appears among the other segments |
| `GameFacts.NoDirectReversal` | script.ts:148-170 | one key press never turns the snake to the exact opposite direction |
| `GameFacts.TwoKeysReverse` | script.ts:145-171 | two key presses between ticks (Up, then Left, while moving Right) do reverse the snake, because each press is checked against the current direction only |
| `Scenarios.FourSegmentExample` | script.ts:174-188 | a snake at (10,10)..(7,10) heading Right moves to (11,10)..(8,10) and keeps playing |
| `Scenarios.WallExample` | script.ts:63-66 | a head at (19,5) moving Right leaves the board and the game ends |

## Left out

- Drawing (`Snake.draw`, `Food.draw`, `Game.draw`), the canvas and its 2D context: rendering with no game logic.
- The `setTimeout` loop and `window.onload`: the loop is modelled only as a sequence of events (`GameFacts.Run`), with no timing.
- Registering listeners: each `Game` constructor adds a keydown listener, and earlier listeners stay attached to earlier games. The model has one handler per game (`Game.OnKeyDown`), and the Space handler is the method `OnSpace`.
- `Math.random`: its floating-point sampling is not modelled. The samples are exact reals in `[0, 1)`, passed in as parameters.
- Coordinates are JavaScript numbers. They are modelled as unbounded integers, which is exact for the small values the game reaches.
- `localization.ts`: a table of display strings and a stored language preference, with no game logic.
- `src/browser.ts` and `src/index.ts`: page glue around a `Greeter` class. `Greeter` is not part of this model.
