/** The `Board` class of src/board.js as a class whose methods update its
    fields in place. Each method is proved to leave the fields exactly as
    the matching function of SnakeRules says; the properties of those
    functions are proved in SnakeProperties. */
module SnakeBoard {
  import opened SnakeRules
  import SnakeProperties

  class Board {
    const width: int
    const height: int
    const dotSize: int

    /** The body, tail at index 0 and head last. */
    var snake: seq<Cell>
    /** The head's dot. */
    var currentDot: Cell
    /** Occupied cell to the dot drawn there. */
    var dotMap: map<Cell, Cell>
    var snakeLength: int
    /** The number the score card shows. */
    var score: int
    var currentDirection: Vec
    var foodLocation: Cell
    /** The arrow-key listener is attached and a step timer is pending. */
    var running: bool

    function Configuration(): Config {
      Config(width, height, dotSize)
    }

    /** The board's fields as a value. */
    function State(): Game
      reads this
    {
      Game(snake, currentDot, dotMap, snakeLength, score, currentDirection, foodLocation, running)
    }

    /** The board before its first game: nothing listens but Enter. */
    constructor (width: int, height: int, dotSize: int)
      ensures Configuration() == Config(width, height, dotSize)
      ensures State() == IDLE
    {
      this.width := width;
      this.height := height;
      this.dotSize := dotSize;
      snake := [];
      currentDot := Cell(0, 0);
      dotMap := map[];
      snakeLength := 0;
      score := 0;
      currentDirection := RIGHT;
      foodLocation := Cell(0, 0);
      running := false;
    }

    /** The board with the default settings of the source's constructor:
        200 by 200 pixels and 10-pixel dots. */
    constructor Default()
      ensures Configuration() == Config(200, 200, 10)
      ensures State() == IDLE
    {
      width := 200;
      height := 200;
      dotSize := 10;
      snake := [];
      currentDot := Cell(0, 0);
      dotMap := map[];
      snakeLength := 0;
      score := 0;
      currentDirection := RIGHT;
      foodLocation := Cell(0, 0);
      running := false;
    }

    /** `createSnakeObject`: a one-dot snake at the drawn start cell, length
        1, heading right, its cell added to the map. */
    method CreateSnakeObject(start: Draw) returns (body: seq<Cell>)
      modifies this
      ensures body == [DrawCell(start, dotSize)]
      ensures snakeLength == 1 && currentDirection == RIGHT && currentDot == DrawCell(start, dotSize)
      ensures dotMap == old(dotMap)[DrawCell(start, dotSize) := DrawCell(start, dotSize)]
      ensures snake == old(snake) && score == old(score)
      ensures foodLocation == old(foodLocation) && running == old(running)
    {
      var dot := DrawCell(start, dotSize);
      body := [dot];
      snakeLength := 1;
      currentDirection := RIGHT;
      currentDot := body[0];
      dotMap := dotMap[currentDot := currentDot];
    }

    /** `generateFoodDot`: draw cells until one is not a key of the map. */
    method GenerateFoodDot(draws: seq<Draw>)
      requires FoodAvailable(draws, dotMap.Keys, dotSize)
      modifies this`foodLocation
      ensures foodLocation == PlaceFood(draws, dotMap.Keys, dotSize)
      ensures foodLocation !in dotMap
    {
      var i := 0;
      var newTop := draws[i].row * dotSize;
      var newLeft := draws[i].col * dotSize;
      while Cell(newLeft, newTop) in dotMap
        invariant i <= FirstFree(draws, dotMap.Keys, dotSize)
        invariant Cell(newLeft, newTop) == DrawCell(draws[i], dotSize)
        decreases |draws| - i
      {
        i := i + 1;
        newTop := draws[i].row * dotSize;
        newLeft := draws[i].col * dotSize;
      }
      foodLocation := Cell(newLeft, newTop);
    }

    /** `newGame`: whatever the board held before, start afresh. */
    method NewGame(start: Draw, draws: seq<Draw>)
      requires FoodAvailable(draws, {DrawCell(start, dotSize)}, dotSize)
      modifies this
      ensures State() == SnakeRules.NewGame(start, draws, Configuration())
      ensures Valid(State()) && running
    {
      running := true;
      dotMap := map[];
      score := 1;
      snake := CreateSnakeObject(start);
      GenerateFoodDot(draws);
    }

    /** `gameOver`: the timer is cleared and the arrow listener removed. */
    method GameOver()
      modifies this`running
      ensures !running
    {
      running := false;
    }

    /** `createNextDotInChain`: push, eat, shift, then test for collision
        and either end the game or map the new head. */
    method CreateNextDotInChain(newLeft: int, newTop: int, draws: seq<Draw>)
      requires Cell(newLeft, newTop) == foodLocation ==> FoodAvailable(draws, dotMap.Keys, dotSize)
      modifies this
      ensures State() == SnakeRules.CreateNextDotInChain(old(State()), Cell(newLeft, newTop), Configuration(), draws)
    {
      var newDot := Cell(newLeft, newTop);
      snake := snake + [newDot];
      if newLeft == foodLocation.left && newTop == foodLocation.top {
        snakeLength := snakeLength + 1;
        score := snakeLength;
        GenerateFoodDot(draws);
      }
      if |snake| > snakeLength {
        var dot := snake[0];
        snake := snake[1..];
        dotMap := dotMap - {dot};
      }
      currentDot := newDot;
      if newDot in dotMap {
        GameOver();
      } else {
        dotMap := dotMap[newDot := currentDot];
      }
    }

    /** `generateNextDot`: one step in the current direction, ending the game
        if the head would leave the board. */
    method GenerateNextDot(draws: seq<Draw>)
      requires StepReady(State(), Configuration(), draws)
      modifies this
      ensures State() == SnakeRules.GenerateNextDot(old(State()), Configuration(), draws)
    {
      var newTop := currentDot.top + currentDirection.dy * dotSize;
      var newLeft := currentDot.left + currentDirection.dx * dotSize;
      if newTop < 0 || newLeft < 0 || newTop >= height || newLeft >= width {
        GameOver();
      } else {
        CreateNextDotInChain(newLeft, newTop, draws);
      }
    }

    /** The step timer fires; it is pending only while a game is on. */
    method Tick(draws: seq<Draw>)
      requires running ==> StepReady(State(), Configuration(), draws)
      modifies this
      ensures State() == SnakeRules.Tick(old(State()), Configuration(), draws)
      ensures old(SnakeProperties.Sound(State(), Configuration())) ==> SnakeProperties.Sound(State(), Configuration())
    {
      if SnakeProperties.Sound(State(), Configuration()) {
        SnakeProperties.ApplyKeepsSound(State(), Configuration(), TimerFired(draws));
      }
      if running {
        GenerateNextDot(draws);
      }
    }

    /** A key-up reaches `keyupEvent` only while the arrow listener is
        attached; an arrow sets the direction and steps at once. */
    method KeyupEvent(code: string, draws: seq<Draw>)
      requires running && Arrows(code).Some? ==> StepReady(Turned(State(), code), Configuration(), draws)
      modifies this
      ensures State() == SnakeRules.KeyupEvent(old(State()), Configuration(), code, draws)
      ensures old(SnakeProperties.Sound(State(), Configuration())) ==> SnakeProperties.Sound(State(), Configuration())
    {
      if SnakeProperties.Sound(State(), Configuration()) {
        SnakeProperties.ApplyKeepsSound(State(), Configuration(), KeyUp(code, draws));
      }
      if running {
        var dir := Arrows(code);
        if dir.Some? {
          currentDirection := dir.value;
          GenerateNextDot(draws);
        }
      }
    }
  }
}
