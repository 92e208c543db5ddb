# Snake board: a verified model of the simulation step

This project models the `Board` class of a browser Snake game. The class has
these fields:

- `snake`: the body, tail at index 0 and head last.
- `currentDot`: the head.
- `dotMap`: an occupancy map from cell to dot.
- `snakeLength`: the target length.
- `currentDirection`: one of the four `Arrows` vectors.
- `foodLocation`: the food cell.
- The score card.

A game starts with a one-dot snake heading right. Each step moves the head one
dot in the current direction. The step:

1. ends the game if the head would leave the board;
2. pushes the new head;
3. on food, grows the target length by one and places new food;
4. shifts out one tail segment if the body is too long;
5. ends the game if the new head is still a key of the map;
6. otherwise maps the new head.

An arrow key sets the direction and steps at once. Enter starts a new game at
any time.

The project has three files:

- `snake_rules.dfy` (module `SnakeRules`) holds the values (`Cell`, `Vec`,
  `Game`, `Draw`) and one specification function per board operation.
- `board.dfy` (module `SnakeBoard`) is the class `Board`. Its fields are the
  source's fields. Its methods update them in place, with the same branches in
  the same order as the source. `NewGame`, `CreateNextDotInChain`,
  `GenerateNextDot`, `Tick` and `KeyupEvent` are proved to leave the fields
  exactly as the specification function of the same name says.
  `GenerateFoodDot` is proved to set the food to `PlaceFood`.
  `CreateSnakeObject` and `GameOver` are helpers of those steps; their
  contracts state each field they set directly.
- `snake_properties.dfy` (module `SnakeProperties`) proves what the game
  promises about those functions.

Positions are integer pixel pairs `Cell(left, top)`, not the `"Npx|Mpx"`
strings of the source. A dot element is represented by the cell it is drawn
at, so `dotMap` maps each occupied cell to itself.

The random helper `generateRandomFromZero` is not part of this model. Its
results are supplied as `Draw(row, col)` pairs. One pair is the start cell of
a new game. A sequence of pairs is the candidates of the food rejection loop.

The `running` flag stands for the arrow-key listener and the step timer. Both
exist exactly while a game is on. `Tick` is a timer firing and does nothing
when no game is on. `KeyupEvent` does nothing when the listener is detached.

**Self-collision is tested after the tail is shifted out.** src/board.js:199
deletes the tail's key before the test at src/board.js:209. An arrow key
steps at once, so the segment behind the head always lies one step back
against the current direction (`StepKeepsTrailing`). Pressing the opposite
arrow on a two-segment snake therefore moves the head onto its tail's cell,
and the game goes on with the two cells swapped (`TwoSegmentReversal`). On a
longer snake the same key press ends the game (`LongerReversalCollides`).

**Food placed while eating can land on the new head.** The food is
regenerated before the new head enters the map (src/board.js:192 and 214).
So the food avoids every cell of the body before the step, but it may land on
the cell the head has just entered. `FoodMayLandOnNewHead` gives a concrete
case. While the snake does not eat, food that is off the body stays off it
(`FoodStaysClear`).

## Model

The specification functions `SnakeRules.CreateNextDotInChain`,
`GenerateNextDot`, `Tick`, `KeyupEvent` and `PlaceFood` have no rows of their
own. The `SnakeBoard.Board` method of the same name (for `PlaceFood`,
`GenerateFoodDot`) is proved to equal each of them. The lemmas listed against
the same source lines state what they promise.

| member | source | states |
|---|---|---|
| `SnakeRules.Arrows` | src/board.js:5-10 | A key code has a direction exactly when it is one of the four arrow names, and every direction in the table is a unit vector. |
| `SnakeRules.NextHead` | src/board.js:153-160 | For an arrow direction, the next head is one dot away from the head along exactly one axis, and differs from the head whenever the dot size is non-zero. |
| `SnakeProperties.NextHeadReverses` | src/board.js:152-160 | Stepping in any direction and then in the opposite direction returns to the starting cell. |
| `SnakeRules.FirstFree` | src/board.js:96-107 | The rejection loop stops at the first draw whose cell is not a key of the map: that draw's cell is free and every earlier one is taken. |
| `SnakeProperties.PlaceFoodFree` | src/board.js:96-128 | The food cell is one of the drawn cells. It is a whole, non-negative number of dots on both axes, and it is not a key of the map it was checked against. |
| `SnakeRules.NewGame` | src/board.js:28-54 | A new game is valid and running. Its body is the single start cell, with length 1. It heads right, and its food is not a key of the map. |
| `SnakeProperties.NewGameForgetsPast` | src/board.js:28-54 | Enter gives the same board whatever the prior state, and the map then holds only the start cell. |
| `SnakeProperties.OutOfBoundsEndsGame` | src/board.js:167-171 | If the next head has top < 0, left < 0, top >= height or left >= width, the game ends and nothing else changes. Otherwise the head moves onto the next head. |
| `SnakeProperties.ChainShape` | src/board.js:174-216 | An on-board step keeps the whole body when eating and the body without its tail otherwise, and appends the new head. The new head is mapped unless it is still a key after the shift, in which case the game ends. Length, score and food change only when eating. |
| `SnakeProperties.StepGrowsOrMoves` | src/board.js:186-202 | Eating appends the head without removing the tail, grows `snakeLength` by exactly 1, shows it as the score, and places new food against the pre-step body. Otherwise exactly the oldest segment is removed and length, score and food are unchanged. |
| `SnakeProperties.SelfCollision` | src/board.js:195-214 | An on-board step ends the game exactly when the new head is a cell of the body that stays after the tail is shifted out: the whole body when eating, the body without its tail otherwise. |
| `SnakeProperties.ShiftTail` | src/board.js:195-200 | Deleting the tail's key leaves a map whose keys are exactly the remaining body cells, which remain distinct. |
| `SnakeProperties.InsertHead` | src/board.js:208-214 | Mapping the new head when it is not yet a key keeps the keys equal to the body cells and keeps them distinct. On collision the keys still equal the body cells as a set. |
| `SnakeProperties.StepKeepsValid` | src/board.js:179-214 | A step from a running valid board leaves the body length equal to `snakeLength` and the score equal to it. The map's keys stay exactly the body cells, the head stays last, and the body cells stay pairwise distinct while the game goes on. |
| `SnakeProperties.StepKeepsTrailing` | src/board.js:152-216 | After a step that leaves the game on, the segment behind the head is one step back from the head against the current direction. |
| `SnakeProperties.TwoSegmentReversal` | src/board.js:195-227 | On a running two-segment snake, the arrow opposite to the current direction (tail not food, tail on the board) moves the head onto the tail's cell. The two cells swap and the game keeps running. |
| `SnakeProperties.LongerReversalCollides` | src/board.js:195-227 | On a running snake of three or more segments, the arrow opposite to the current direction ends the game. |
| `SnakeProperties.FoodStaysClear` | src/board.js:186-193 | A step that does not eat keeps food that was off the body off the new body. |
| `SnakeProperties.FoodMayLandOnNewHead` | src/board.js:186-214 | A one-cell snake eating at (10, 0) with the single draw (row 0, column 1) keeps running with its new food on its new head. |
| `SnakeProperties.OneStepRight` | src/board.js:152-216 | On a 200 by 200 board with 10-pixel dots, a timer step moves a one-dot snake heading right from (x, 100) to (x + 10, 100) while it stays on the board and misses the food. |
| `SnakeProperties.ThreeStepsRight` | src/board.js:28-54 | A new game started at (100, 100) with food at (0, 0) takes three timer steps right to (130, 100) and keeps score 1. |
| `SnakeProperties.ApplyKeepsSound` | src/board.js:152-227 | Every timer firing, key-up or Enter takes an idle or valid board to an idle or valid board. While the game is on, the segment behind the head stays one step back against the direction. |
| `SnakeProperties.ReplayKeepsSound` | src/board.js:28-227 | From the idle board, any history of events leaves a board whose body length equals `snakeLength` and whose map keys are the body cells. While the game is on, the body cells are distinct and the segment behind the head trails it. |
| `SnakeProperties.StepKeepsNonNegative` | src/board.js:152-216 | With a non-negative dot size, a step keeps every body cell, the head and the food at non-negative coordinates. |
| `SnakeProperties.ApplyKeepsNonNegative` | src/board.js:28-227 | With a non-negative dot size, every timer firing, key-up or Enter keeps all positions non-negative. |
| `SnakeProperties.ReplayKeepsNonNegative` | src/board.js:28-227 | With a non-negative dot size, any history of events keeps all positions non-negative, so the digit parsing of src/board.js:125-126 and 155-156 would read each one back unchanged. |
| `SnakeProperties.GameOverIsFinal` | src/board.js:133-135 | After game over, timer firings and key-ups leave the board unchanged until Enter. |
| `SnakeProperties.KeyupSetsDirection` | src/board.js:222-227 | An arrow key sets its direction whatever the current one is, reversal included, and takes the step at once. |
| `SnakeBoard.Board.constructor` | src/board.js:13-26 | The board keeps its width, height and dot size, and starts idle. |
| `SnakeBoard.Board.Default` | src/board.js:13-18 | Without settings, the board is 200 by 200 pixels with 10-pixel dots, and starts idle. |
| `SnakeBoard.Board.CreateSnakeObject` | src/board.js:77-94 | Returns the one-dot body at the start cell and maps that cell. Sets length 1, direction right, and the head to the start cell. |
| `SnakeBoard.Board.GenerateFoodDot` | src/board.js:96-131 | The rejection loop sets the food to the first free draw and changes nothing else. The food is not a key of the map. |
| `SnakeBoard.Board.NewGame` | src/board.js:28-54 | Leaves the fields exactly as `SnakeRules.NewGame`, valid and running. |
| `SnakeBoard.Board.GameOver` | src/board.js:133-135 | Clears the running flag and changes nothing else. |
| `SnakeBoard.Board.CreateNextDotInChain` | src/board.js:174-216 | Push, eat, shift and the collision test in the source's order leave the fields exactly as `SnakeRules.CreateNextDotInChain`. |
| `SnakeBoard.Board.GenerateNextDot` | src/board.js:152-172 | The bounds test, then game over or the chain step, leave the fields exactly as `SnakeRules.GenerateNextDot`. |
| `SnakeBoard.Board.Tick` | src/board.js:218-220 | A timer firing steps only while a game is on, and keeps a board idle, or valid with the segment behind the head trailing it. |
| `SnakeBoard.Board.KeyupEvent` | src/board.js:222-227 | While the listener is attached, an arrow sets the direction and steps; anything else changes nothing. It keeps a board idle, or valid with the segment behind the head trailing it. |

## Left out

- DOM construction and styling are not modelled: the board, score card and title elements, the game-over messages, `appendChild`/`removeChild`, and the element identity of dots. A dot is its cell.
- src/createSnakeObject.js and src/dot.js are not part of this model. The start cell is a `Draw` parameter of a new game.
- `setTimeout`/`clearTimeout` and `addEventListener`/`removeEventListener` are collapsed into the `running` flag. Timer firings and key-ups are explicit calls. The tick interval `speed` is therefore not modelled.
- `generateRandomFromZero` is not part of this model. Its results are supplied as `Draw(row, col)` values of natural numbers.
- SnakeBoard.Board.GenerateFoodDot: requires that some supplied draw names a free cell. When the grid is full the source's rejection loop never returns, and the model does not capture that non-termination.
- The `px` string formatting and the regex parsing of positions are not modelled. Positions are integers throughout. For a non-negative dot size every position stays non-negative (`ReplayKeepsNonNegative`), so the parsing is the identity on them.
- SnakeBoard.Board.constructor: accepts any width, height and dot size, as the source does. With a negative dot size the source's digit parsing would read a position such as `-10px` back as 10, while the model keeps -10; that case is not modelled.
- The `speed` setting of the constructor (default 200) is not modelled, because timers are not.
- The unused `score` field set to 0 in `newGame` is not modelled. `score` in this model is the number the score card shows.
- `noMessage` of `gameOver` only changes what is displayed and is not modelled.
- The `Arrows` lookup is modelled on the four arrow names only. Keyboard codes are never the names of inherited JavaScript object properties, so those names are left out.
