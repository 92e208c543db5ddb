/** What the Snake board promises, proved about the specification functions
    of SnakeRules. */
module SnakeProperties {
  import opened SnakeRules

  // ---- Bodies, their cells and their distinctness ----

  lemma CellsAppend(s: seq<Cell>, x: Cell)
    ensures Cells(s + [x]) == Cells(s) + {x}
  {
  }

  lemma CellsShift(s: seq<Cell>)
    requires |s| > 0 && Distinct(s)
    ensures Cells(s[1..]) == Cells(s) - {s[0]}
  {
  }

  lemma DistinctAppend(s: seq<Cell>, x: Cell)
    requires Distinct(s) && x !in Cells(s)
    ensures Distinct(s + [x])
  {
  }

  lemma DistinctShift(s: seq<Cell>)
    requires |s| > 0 && Distinct(s)
    ensures Distinct(s[1..])
  {
  }

  // ---- The next head ----

  /** Turning back the way one came returns to the same cell. */
  lemma NextHeadReverses(head: Cell, dir: Vec, dotSize: int)
    ensures NextHead(NextHead(head, dir, dotSize), Opposite(dir), dotSize) == head
  {
  }

  /** A pixel coordinate that is a whole number of dots from the origin. */
  function Scale(n: nat, size: int): int {
    n * size
  }

  /** A cell on the dot grid: a whole, non-negative number of dots from the
      origin on both axes. */
  ghost predicate OnGrid(c: Cell, size: int) {
    exists col: nat, row: nat :: c.left == Scale(col, size) && c.top == Scale(row, size)
  }

  /** The food the rejection loop settles on is one of the draws, on the
      grid, and not a key of the map it was checked against. */
  lemma {:induction false} PlaceFoodFree(draws: seq<Draw>, taken: set<Cell>, dotSize: int)
    requires FoodAvailable(draws, taken, dotSize)
    ensures PlaceFood(draws, taken, dotSize) !in taken
    ensures exists k :: 0 <= k < |draws| && PlaceFood(draws, taken, dotSize) == DrawCell(draws[k], dotSize)
    ensures OnGrid(PlaceFood(draws, taken, dotSize), dotSize)
  {
    var d := draws[FirstFree(draws, taken, dotSize)];
    assert PlaceFood(draws, taken, dotSize).left == Scale(d.col, dotSize);
    assert PlaceFood(draws, taken, dotSize).top == Scale(d.row, dotSize);
  }

  // ---- One step ----

  /** A step ends the game for leaving the board exactly when the target has
      top < 0, left < 0, top >= height or left >= width, and then nothing
      but the running flag changes; otherwise the head moves onto the
      target. */
  lemma OutOfBoundsEndsGame(g: Game, cfg: Config, draws: seq<Draw>)
    requires StepReady(g, cfg, draws)
    ensures OutOfBounds(Target(g, cfg), cfg) ==> GenerateNextDot(g, cfg, draws) == g.(running := false)
    ensures !OutOfBounds(Target(g, cfg), cfg) ==>
              GenerateNextDot(g, cfg, draws).currentDot == Target(g, cfg)
  {
  }

  /** The pieces of an on-board step from a running board: the body that
      stays, the map after the shift, and what the collision test makes of
      them. */
  lemma ChainShape(g: Game, cfg: Config, draws: seq<Draw>)
    requires Valid(g) && g.running && StepReady(g, cfg, draws)
    requires !OutOfBounds(Target(g, cfg), cfg)
    ensures var head := Target(g, cfg);
            var r := GenerateNextDot(g, cfg, draws);
            var kept := if Eats(g, cfg) then g.snake else g.snake[1..];
            var shifted := if Eats(g, cfg) then g.dotMap else g.dotMap - {g.snake[0]};
            && r.snake == kept + [head]
            && r.currentDot == head
            && r.running == (head !in shifted)
            && r.dotMap == (if head in shifted then shifted else shifted[head := head])
            && r.snakeLength == (if Eats(g, cfg) then g.snakeLength + 1 else g.snakeLength)
            && r.score == (if Eats(g, cfg) then r.snakeLength else g.score)
            && r.currentDirection == g.currentDirection
            && r.foodLocation == (if Eats(g, cfg) then PlaceFood(draws, g.dotMap.Keys, cfg.dotSize) else g.foodLocation)
  {
  }

  /** An on-board step from a running board: eating pushes the head without
      removing the tail, grows `snakeLength` by exactly one, shows it as the
      score and replaces the food by the first free draw against the body as
      it was before the step; not eating drops exactly the oldest segment
      and leaves the length, the score and the food alone. */
  lemma StepGrowsOrMoves(g: Game, cfg: Config, draws: seq<Draw>)
    requires Valid(g) && g.running && StepReady(g, cfg, draws)
    requires !OutOfBounds(Target(g, cfg), cfg)
    ensures var r := GenerateNextDot(g, cfg, draws);
            if Eats(g, cfg) then
              && r.snake == g.snake + [Target(g, cfg)]
              && r.snakeLength == g.snakeLength + 1
              && r.score == r.snakeLength
              && r.foodLocation == PlaceFood(draws, Cells(g.snake), cfg.dotSize)
            else
              && r.snake == g.snake[1..] + [Target(g, cfg)]
              && r.snakeLength == g.snakeLength
              && r.score == g.score
              && r.foodLocation == g.foodLocation
  {
  }

  /** The self-collision test runs after the tail has been shifted out: an
      on-board step ends the game exactly when the target is a cell of the
      body that stays, which is the whole body when eating and the body
      without its tail otherwise. */
  lemma SelfCollision(g: Game, cfg: Config, draws: seq<Draw>)
    requires Valid(g) && g.running && StepReady(g, cfg, draws)
    requires !OutOfBounds(Target(g, cfg), cfg)
    ensures !GenerateNextDot(g, cfg, draws).running <==>
              Target(g, cfg) in (if Eats(g, cfg) then Cells(g.snake) else Cells(g.snake[1..]))
  {
  }

  /** Adding the new head to a map that tracks a distinct body, unless it is
      already a key, keeps the map tracking the body with the head pushed. */
  lemma InsertHead(kept: seq<Cell>, shifted: map<Cell, Cell>, head: Cell)
    requires shifted.Keys == Cells(kept) && Distinct(kept)
    requires forall c :: c in shifted ==> shifted[c] == c
    ensures var m := if head in shifted then shifted else shifted[head := head];
            && m.Keys == Cells(kept + [head])
            && (forall c :: c in m ==> m[c] == c)
            && (head !in shifted ==> Distinct(kept + [head]))
  {
  }

  /** Shifting out the tail of a valid running board leaves a map that
      tracks the rest of the body. */
  lemma ShiftTail(g: Game)
    requires Valid(g) && g.running
    ensures (g.dotMap - {g.snake[0]}).Keys == Cells(g.snake[1..])
    ensures Distinct(g.snake[1..])
  {
  }

  /** A step from a running board keeps it tracked, and keeps the body
      cells distinct whenever the game goes on. */
  lemma {:induction false} StepKeepsValid(g: Game, cfg: Config, draws: seq<Draw>)
    requires Valid(g) && g.running && StepReady(g, cfg, draws)
    ensures Valid(GenerateNextDot(g, cfg, draws))
  {
    var head := Target(g, cfg);
    if OutOfBounds(head, cfg) {
      return;
    }
    var r := GenerateNextDot(g, cfg, draws);
    ChainShape(g, cfg, draws);
    var kept := if Eats(g, cfg) then g.snake else g.snake[1..];
    var shifted := if Eats(g, cfg) then g.dotMap else g.dotMap - {g.snake[0]};
    if !Eats(g, cfg) {
      ShiftTail(g);
    }
    InsertHead(kept, shifted, head);
    assert |r.snake| == r.snakeLength;
  }

  /** The segment behind the head lies one step back against the current
      direction: every direction change steps at once, so the head always
      arrived from there. */
  predicate Trailing(g: Game, cfg: Config) {
    |g.snake| >= 2 ==>
      g.snake[|g.snake| - 2] == NextHead(g.currentDot, Opposite(g.currentDirection), cfg.dotSize)
  }

  /** A step that leaves the game on leaves the old head right behind the new
      one, against the direction of travel. */
  lemma StepKeepsTrailing(g: Game, cfg: Config, draws: seq<Draw>)
    requires Valid(g) && g.running && StepReady(g, cfg, draws)
    ensures GenerateNextDot(g, cfg, draws).running ==> Trailing(GenerateNextDot(g, cfg, draws), cfg)
  {
  }

  /** No reversal lock: pressing the arrow opposite to the current direction
      on a two-segment snake moves the head onto the tail's cell, and since
      the tail leaves the map before the collision test the two cells swap
      and the game goes on. */
  lemma TwoSegmentReversal(g: Game, cfg: Config, code: string, draws: seq<Draw>)
    requires Valid(g) && g.running && Trailing(g, cfg)
    requires |g.snake| == 2 && Arrows(code) == Some(Opposite(g.currentDirection))
    requires g.foodLocation != g.snake[0] && !OutOfBounds(g.snake[0], cfg)
    ensures StepReady(Turned(g, code), cfg, draws)
    ensures KeyupEvent(g, cfg, code, draws).running
    ensures KeyupEvent(g, cfg, code, draws).snake == [g.snake[1], g.snake[0]]
  {
  }

  /** Pressing the arrow opposite to the current direction on a snake of
      three or more segments ends the game: the head turns onto the segment
      behind it, which stays in the map. */
  lemma LongerReversalCollides(g: Game, cfg: Config, code: string, draws: seq<Draw>)
    requires Valid(g) && g.running && Trailing(g, cfg)
    requires |g.snake| >= 3 && Arrows(code) == Some(Opposite(g.currentDirection))
    requires StepReady(Turned(g, code), cfg, draws)
    ensures !KeyupEvent(g, cfg, code, draws).running
  {
  }

  /** A step that does not eat keeps the food off the body: the new head is
      the food's cell only when eating. */
  lemma FoodStaysClear(g: Game, cfg: Config, draws: seq<Draw>)
    requires Valid(g) && g.running && StepReady(g, cfg, draws)
    requires g.foodLocation !in Cells(g.snake) && !Eats(g, cfg)
    ensures GenerateNextDot(g, cfg, draws).foodLocation !in Cells(GenerateNextDot(g, cfg, draws).snake)
  {
  }

  /** The food placed while eating avoids the whole body before the step,
      but it is chosen before the new head enters the map: here a one-cell
      snake at (0, 0) heading right eats the food at (10, 0), and the only
      draw, row 0 and column 1, puts the new food on the new head. */
  lemma FoodMayLandOnNewHead()
    ensures var cfg := Config(200, 200, 10);
            var c := Cell(0, 0);
            var g := Game([c], c, map[c := c], 1, 1, RIGHT, Cell(10, 0), true);
            var draws := [Draw(0, 1)];
            && Valid(g)
            && StepReady(g, cfg, draws)
            && GenerateNextDot(g, cfg, draws).running
            && GenerateNextDot(g, cfg, draws).foodLocation == GenerateNextDot(g, cfg, draws).currentDot
  {
    var cfg := Config(200, 200, 10);
    var c := Cell(0, 0);
    var g := Game([c], c, map[c := c], 1, 1, RIGHT, Cell(10, 0), true);
    var draws := [Draw(0, 1)];
    assert DrawCell(draws[0], 10) == Cell(10, 0);
    assert FoodAvailable(draws, {c}, 10);
    assert FirstFree(draws, {c}, 10) == 0;
    assert Cells([c]) == {c} by {
      CellsAppend([], c);
    }
  }

  /** A one-dot snake at (x, 100), heading right, with the food at (0, 0). */
  function LoneDot(x: int): Game {
    Game([Cell(x, 100)], Cell(x, 100), map[Cell(x, 100) := Cell(x, 100)], 1, 1, RIGHT, Cell(0, 0), true)
  }

  /** On a 200 by 200 board with 10-pixel dots, a timer step moves the
      one-dot snake ten pixels right while it stays on the board. */
  lemma OneStepRight(x: int)
    requires 0 <= x < 190
    ensures StepReady(LoneDot(x), Config(200, 200, 10), [])
    ensures Tick(LoneDot(x), Config(200, 200, 10), []) == LoneDot(x + 10)
  {
  }

  /** A new game started at row 10, column 10 with food drawn at (0, 0)
      takes three timer steps right to (130, 100) with score 1. */
  lemma {:induction false} ThreeStepsRight()
    ensures FoodAvailable([Draw(0, 0)], {Cell(100, 100)}, 10)
    ensures NewGame(Draw(10, 10), [Draw(0, 0)], Config(200, 200, 10)) == LoneDot(100)
    ensures Tick(LoneDot(100), Config(200, 200, 10), []) == LoneDot(110)
    ensures Tick(LoneDot(110), Config(200, 200, 10), []) == LoneDot(120)
    ensures Tick(LoneDot(120), Config(200, 200, 10), []) == LoneDot(130)
    ensures LoneDot(130).currentDot == Cell(130, 100) && LoneDot(130).score == 1
  {
    assert DrawCell([Draw(0, 0)][0], 10) == Cell(0, 0);
    assert FirstFree([Draw(0, 0)], {Cell(100, 100)}, 10) == 0;
    OneStepRight(100);
    OneStepRight(110);
    OneStepRight(120);
  }

  // ---- Whole runs ----

  /** What a board is after any history: idle, or valid and, while the game
      is on, with the segment behind the head trailing it. */
  predicate Sound(g: Game, cfg: Config) {
    Idle(g) || (Valid(g) && (g.running ==> Trailing(g, cfg)))
  }

  lemma {:induction false} ApplyKeepsSound(g: Game, cfg: Config, e: Event)
    requires Sound(g, cfg) && Ready(g, cfg, e)
    ensures Sound(Apply(g, cfg, e), cfg)
  {
    match e
    case TimerFired(d) =>
      if g.running {
        StepKeepsValid(g, cfg, d);
        StepKeepsTrailing(g, cfg, d);
      }
    case KeyUp(code, d) =>
      if g.running && Arrows(code).Some? {
        StepKeepsValid(Turned(g, code), cfg, d);
        StepKeepsTrailing(Turned(g, code), cfg, d);
      }
    case EnterPressed(start, d) =>
  }

  /** From the constructor's idle board, or any board reached from it, every
      history of timer firings, key-ups and new games leaves a board whose
      body is as long as `snakeLength`, whose map's keys are the body cells,
      and whose body cells are distinct, with the segment behind the head
      trailing it, while the game is on. */
  lemma {:induction false} ReplayKeepsSound(g: Game, cfg: Config, es: seq<Event>)
    requires Sound(g, cfg) && Feasible(g, cfg, es)
    ensures Sound(Replay(g, cfg, es), cfg)
    decreases |es|
  {
    if |es| > 0 {
      ApplyKeepsSound(g, cfg, es[0]);
      ReplayKeepsSound(Apply(g, cfg, es[0]), cfg, es[1..]);
    }
  }

  /** Every position the board holds is non-negative, so the `\d+` parsing
      of its pixel strings reads each one back unchanged. */
  predicate NonNegative(g: Game) {
    && (forall c :: c in g.snake ==> c.left >= 0 && c.top >= 0)
    && g.currentDot.left >= 0 && g.currentDot.top >= 0
    && g.foodLocation.left >= 0 && g.foodLocation.top >= 0
  }

  lemma DrawCellNonNegative(d: Draw, dotSize: int)
    requires dotSize >= 0
    ensures DrawCell(d, dotSize).left >= 0 && DrawCell(d, dotSize).top >= 0
  {
  }

  /** A step keeps positions non-negative: the new head passed the bounds
      test and new food is a whole number of dots. */
  lemma StepKeepsNonNegative(g: Game, cfg: Config, draws: seq<Draw>)
    requires cfg.dotSize >= 0 && NonNegative(g) && StepReady(g, cfg, draws)
    ensures NonNegative(GenerateNextDot(g, cfg, draws))
  {
  }

  lemma {:induction false} ApplyKeepsNonNegative(g: Game, cfg: Config, e: Event)
    requires cfg.dotSize >= 0 && NonNegative(g) && Ready(g, cfg, e)
    ensures NonNegative(Apply(g, cfg, e))
  {
    match e
    case TimerFired(d) =>
      if g.running {
        StepKeepsNonNegative(g, cfg, d);
      }
    case KeyUp(code, d) =>
      if g.running && Arrows(code).Some? {
        StepKeepsNonNegative(Turned(g, code), cfg, d);
      }
    case EnterPressed(start, d) =>
      DrawCellNonNegative(start, cfg.dotSize);
      DrawCellNonNegative(d[FirstFree(d, {DrawCell(start, cfg.dotSize)}, cfg.dotSize)], cfg.dotSize);
  }

  /** With a non-negative dot size, every history from a board whose
      positions are non-negative keeps them non-negative: start and food
      cells are whole numbers of dots and every new head passed the bounds
      test. */
  lemma {:induction false} ReplayKeepsNonNegative(g: Game, cfg: Config, es: seq<Event>)
    requires cfg.dotSize >= 0 && NonNegative(g) && Feasible(g, cfg, es)
    ensures NonNegative(Replay(g, cfg, es))
    decreases |es|
  {
    if |es| > 0 {
      ApplyKeepsNonNegative(g, cfg, es[0]);
      ReplayKeepsNonNegative(Apply(g, cfg, es[0]), cfg, es[1..]);
    }
  }

  /** After game over the timer and the arrow listener are gone: timer
      firings and key-ups change nothing until Enter starts a new game. */
  lemma {:induction false} GameOverIsFinal(g: Game, cfg: Config, es: seq<Event>)
    requires !g.running && Feasible(g, cfg, es)
    requires forall i :: 0 <= i < |es| ==> !es[i].EnterPressed?
    ensures Replay(g, cfg, es) == g
    decreases |es|
  {
    if |es| > 0 {
      assert !es[0].EnterPressed?;
      assert Apply(g, cfg, es[0]) == g;
      GameOverIsFinal(g, cfg, es[1..]);
    }
  }

  /** A new game resets the board whatever state it was in: pressing Enter
      on any two boards with the same draws gives the same board. */
  lemma NewGameForgetsPast(g1: Game, g2: Game, cfg: Config, start: Draw, d: seq<Draw>)
    requires Ready(g1, cfg, EnterPressed(start, d))
    ensures Ready(g2, cfg, EnterPressed(start, d))
    ensures Apply(g1, cfg, EnterPressed(start, d)) == Apply(g2, cfg, EnterPressed(start, d))
    ensures Apply(g1, cfg, EnterPressed(start, d)).dotMap == map[DrawCell(start, cfg.dotSize) := DrawCell(start, cfg.dotSize)]
  {
  }

  /** An arrow key sets its direction whatever the current one is, the
      opposite included, and takes the step at once. */
  lemma KeyupSetsDirection(g: Game, cfg: Config, code: string, draws: seq<Draw>)
    requires Valid(g) && g.running && Arrows(code).Some?
    requires StepReady(Turned(g, code), cfg, draws)
    ensures KeyupEvent(g, cfg, code, draws).currentDirection == Arrows(code).value
    ensures KeyupEvent(g, cfg, code, draws) == GenerateNextDot(Turned(g, code), cfg, draws)
  {
  }
}
