/** The values of the Snake board and one specification function per board
    operation: what each operation of `Board` in src/board.js does to the
    board's fields, stated on values. The class in board.dfy is proved to
    behave exactly as these functions say; snake_properties.dfy proves what
    the game promises about them. */
module SnakeRules {

  datatype Option<T> = None | Some(value: T)

  /** A grid position in pixels, as a dot's `style.left` and `style.top`. */
  datatype Cell = Cell(left: int, top: int)

  /** A direction as the board stores it: the pair `[dx, dy]` of `Arrows`. */
  datatype Vec = Vec(dx: int, dy: int)

  /** The board's fixed settings. */
  datatype Config = Config(width: int, height: int, dotSize: int)

  /** The four unit vectors of the `Arrows` table. */
  predicate IsArrow(v: Vec) {
    v == Vec(0, -1) || v == Vec(0, 1) || v == Vec(-1, 0) || v == Vec(1, 0)
  }

  /** The `Arrows` table, looked up by a key code. */
  function Arrows(code: string): (r: Option<Vec>)
    ensures r.Some? <==> code in {"ArrowUp", "ArrowDown", "ArrowLeft", "ArrowRight"}
    ensures r.Some? ==> IsArrow(r.value)
  {
    if code == "ArrowUp" then Some(Vec(0, -1))
    else if code == "ArrowDown" then Some(Vec(0, 1))
    else if code == "ArrowLeft" then Some(Vec(-1, 0))
    else if code == "ArrowRight" then Some(Vec(1, 0))
    else None
  }

  /** The direction straight back against `v`. */
  function Opposite(v: Vec): Vec {
    Vec(-v.dx, -v.dy)
  }

  /** The starting direction, `Arrows.ArrowRight`. */
  const RIGHT := Vec(1, 0)

  function Abs(x: int): nat {
    if x < 0 then -x else x
  }

  /** Two cells one step of `size` apart along exactly one axis. */
  predicate Adjacent(a: Cell, b: Cell, size: int) {
    (a.left == b.left && Abs(a.top - b.top) == size)
    || (a.top == b.top && Abs(a.left - b.left) == size)
  }

  /** The cell the head moves to: `dx` is applied to `left` and `dy` to
      `top`, each scaled by the dot size. */
  function NextHead(head: Cell, dir: Vec, dotSize: int): (r: Cell)
    ensures IsArrow(dir) ==> Adjacent(head, r, Abs(dotSize))
    ensures IsArrow(dir) && dotSize != 0 ==> r != head
  {
    Cell(head.left + dir.dx * dotSize, head.top + dir.dy * dotSize)
  }

  /** The bounds test of `generateNextDot`. */
  predicate OutOfBounds(c: Cell, cfg: Config) {
    c.top < 0 || c.left < 0 || c.top >= cfg.height || c.left >= cfg.width
  }

  /** One pair of results of the random helper: a row index, drawn first,
      and a column index. */
  datatype Draw = Draw(row: nat, col: nat)

  /** The pixel cell a draw names. */
  function DrawCell(d: Draw, dotSize: int): Cell {
    Cell(d.col * dotSize, d.row * dotSize)
  }

  /** Some draw names a cell outside `taken`: the only case in which the
      rejection loop of `generateFoodDot` returns. */
  predicate FoodAvailable(draws: seq<Draw>, taken: set<Cell>, dotSize: int) {
    exists i :: 0 <= i < |draws| && DrawCell(draws[i], dotSize) !in taken
  }

  /** The index of the draw the rejection loop stops at: the first one whose
      cell is free. */
  function FirstFree(draws: seq<Draw>, taken: set<Cell>, dotSize: int): (k: nat)
    requires FoodAvailable(draws, taken, dotSize)
    ensures k < |draws| && DrawCell(draws[k], dotSize) !in taken
    ensures forall j :: 0 <= j < k ==> DrawCell(draws[j], dotSize) in taken
  {
    if DrawCell(draws[0], dotSize) !in taken then 0
    else
      var i :| 0 <= i < |draws| && DrawCell(draws[i], dotSize) !in taken;
      assert DrawCell(draws[1..][i - 1], dotSize) !in taken;
      1 + FirstFree(draws[1..], taken, dotSize)
  }

  /** The food cell `generateFoodDot` settles on. */
  function PlaceFood(draws: seq<Draw>, taken: set<Cell>, dotSize: int): Cell
    requires FoodAvailable(draws, taken, dotSize)
  {
    DrawCell(draws[FirstFree(draws, taken, dotSize)], dotSize)
  }

  /** The board's fields. A dot element is represented by the cell it is
      drawn at, so `dotMap` maps a cell to the dot there; `score` is the
      number the score card shows; `running` stands for the arrow-key
      listener and the pending timer, both present exactly while a game is
      on. */
  datatype Game = Game(
    snake: seq<Cell>,
    currentDot: Cell,
    dotMap: map<Cell, Cell>,
    snakeLength: int,
    score: int,
    currentDirection: Vec,
    foodLocation: Cell,
    running: bool)

  /** The set of cells a body covers. */
  function Cells(s: seq<Cell>): set<Cell> {
    set c | c in s
  }

  predicate Distinct(s: seq<Cell>) {
    forall i, j :: 0 <= i < j < |s| ==> s[i] != s[j]
  }

  /** What every board keeps from its first new game on, game over included:
      the head is the last segment, the body is as long as `snakeLength`,
      the score card shows `snakeLength`, the map's keys are exactly the body
      cells (each mapped to its own dot) and the direction is an arrow. */
  predicate Tracked(g: Game) {
    && |g.snake| > 0
    && g.currentDot == g.snake[|g.snake| - 1]
    && |g.snake| == g.snakeLength
    && g.score == g.snakeLength
    && g.dotMap.Keys == Cells(g.snake)
    && (forall c :: c in g.dotMap ==> g.dotMap[c] == c)
    && IsArrow(g.currentDirection)
  }

  /** A tracked board whose body cells are pairwise distinct while the game
      is on. */
  predicate Valid(g: Game) {
    Tracked(g) && (g.running ==> Distinct(g.snake))
  }

  /** A board that has not started a game yet. */
  predicate Idle(g: Game) {
    !g.running && g.snake == []
  }

  /** The board as its constructor leaves it: no game, nothing listening. */
  const IDLE := Game([], Cell(0, 0), map[], 0, 0, RIGHT, Cell(0, 0), false)

  /** `newGame`: a fresh map holding only the start cell, length and score 1,
      heading right, food placed by the rejection loop, and the game on. */
  function NewGame(start: Draw, draws: seq<Draw>, cfg: Config): (g: Game)
    requires FoodAvailable(draws, {DrawCell(start, cfg.dotSize)}, cfg.dotSize)
    ensures Valid(g) && g.running
    ensures g.snake == [DrawCell(start, cfg.dotSize)] && g.snakeLength == 1
    ensures g.currentDirection == RIGHT
    ensures g.foodLocation !in g.dotMap
  {
    var c := DrawCell(start, cfg.dotSize);
    Game([c], c, map[c := c], 1, 1, RIGHT,
         PlaceFood(draws, {c}, cfg.dotSize), true)
  }

  /** The cell the head would move to next. */
  function Target(g: Game, cfg: Config): Cell {
    NextHead(g.currentDot, g.currentDirection, cfg.dotSize)
  }

  /** The next step stays on the board and lands on the food. */
  predicate Eats(g: Game, cfg: Config) {
    !OutOfBounds(Target(g, cfg), cfg) && Target(g, cfg) == g.foodLocation
  }

  /** The draws suffice for the food the next step may have to place: the
      map at that moment is the map before the step. */
  predicate StepReady(g: Game, cfg: Config, draws: seq<Draw>) {
    Eats(g, cfg) ==> FoodAvailable(draws, g.dotMap.Keys, cfg.dotSize)
  }

  /** `createNextDotInChain`: push the new head; on food grow by one, show
      the new length and regenerate the food (the map does not hold the new
      head yet); shift out and unmap one tail segment if the body is too
      long; then end the game if the new head is still a key of the map,
      and otherwise add it. */
  function CreateNextDotInChain(g: Game, head: Cell, cfg: Config, draws: seq<Draw>): Game
    requires head == g.foodLocation ==> FoodAvailable(draws, g.dotMap.Keys, cfg.dotSize)
  {
    var pushed := g.snake + [head];
    var eats := head == g.foodLocation;
    var len := if eats then g.snakeLength + 1 else g.snakeLength;
    var score := if eats then len else g.score;
    var food := if eats then PlaceFood(draws, g.dotMap.Keys, cfg.dotSize) else g.foodLocation;
    var shifted := |pushed| > len;
    var snake := if shifted then pushed[1..] else pushed;
    var dotMap := if shifted then g.dotMap - {pushed[0]} else g.dotMap;
    var next := g.(snake := snake, currentDot := head, snakeLength := len,
                   score := score, foodLocation := food);
    if head in dotMap then next.(dotMap := dotMap, running := false)
    else next.(dotMap := dotMap[head := head])
  }

  /** `generateNextDot`: one step in the current direction; leaving the
      board ends the game and changes nothing else. */
  function GenerateNextDot(g: Game, cfg: Config, draws: seq<Draw>): Game
    requires StepReady(g, cfg, draws)
  {
    var head := Target(g, cfg);
    if OutOfBounds(head, cfg) then g.(running := false)
    else CreateNextDotInChain(g, head, cfg, draws)
  }

  /** A firing of the step timer, which is pending only while the game is
      on. */
  function Tick(g: Game, cfg: Config, draws: seq<Draw>): Game
    requires g.running ==> StepReady(g, cfg, draws)
  {
    if g.running then GenerateNextDot(g, cfg, draws) else g
  }

  /** The direction a key-up leaves if it reaches `keyupEvent`. */
  function Turned(g: Game, code: string): Game
    requires Arrows(code).Some?
  {
    g.(currentDirection := Arrows(code).value)
  }

  /** A key-up: it reaches `keyupEvent` only while the game is on; an arrow
      then sets the direction, whatever it was, and steps at once. */
  function KeyupEvent(g: Game, cfg: Config, code: string, draws: seq<Draw>): Game
    requires g.running && Arrows(code).Some? ==> StepReady(Turned(g, code), cfg, draws)
  {
    if g.running && Arrows(code).Some? then GenerateNextDot(Turned(g, code), cfg, draws)
    else g
  }

  /** The inputs that drive a board: timer firings, key-ups, and Enter,
      which starts a new game at any time. */
  datatype Event =
    | TimerFired(draws: seq<Draw>)
    | KeyUp(code: string, draws: seq<Draw>)
    | EnterPressed(start: Draw, draws: seq<Draw>)

  predicate Ready(g: Game, cfg: Config, e: Event) {
    match e
    case TimerFired(d) => g.running ==> StepReady(g, cfg, d)
    case KeyUp(code, d) => g.running && Arrows(code).Some? ==> StepReady(Turned(g, code), cfg, d)
    case EnterPressed(start, d) => FoodAvailable(d, {DrawCell(start, cfg.dotSize)}, cfg.dotSize)
  }

  function Apply(g: Game, cfg: Config, e: Event): Game
    requires Ready(g, cfg, e)
  {
    match e
    case TimerFired(d) => Tick(g, cfg, d)
    case KeyUp(code, d) => KeyupEvent(g, cfg, code, d)
    case EnterPressed(start, d) => NewGame(start, d, cfg)
  }

  /** Every event of `es` can be applied in turn. */
  predicate Feasible(g: Game, cfg: Config, es: seq<Event>)
    decreases |es|
  {
    |es| == 0 || (Ready(g, cfg, es[0]) && Feasible(Apply(g, cfg, es[0]), cfg, es[1..]))
  }

  function Replay(g: Game, cfg: Config, es: seq<Event>): Game
    requires Feasible(g, cfg, es)
    decreases |es|
  {
    if |es| == 0 then g else Replay(Apply(g, cfg, es[0]), cfg, es[1..])
  }
}
