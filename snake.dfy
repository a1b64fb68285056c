/**
 * The `Snake` engine as a class whose fields are updated in place. Each
 * method's `ensures` gives the new state, in terms of a function of the
 * rules in snake_rules.dfy where there is one. The constructor establishes
 * the object invariant `Valid()`, and the public operations (`Go*`,
 * `Start`, `Update`) keep it; the private methods are steps of `Update`
 * and promise only their own effect on the state.
 */
module SnakeGame {
  import opened Wrappers
  import opened Geometry
  import opened SnakeRules

  class Snake {
    const boardSize: Vector2
    /** Index 0 is the tail end, the last element is the head. */
    var tailPositions: seq<Vector2>
    var foodPosition: Vector2
    var direction: Vector2
    var lastMoveDirection: Vector2
    /** Requested directions, oldest first. */
    var queuedDirections: seq<Vector2>
    var gameFinished: bool
    var won: bool
    /** Every event emitted so far, in order. */
    var events: seq<Event>

    /** The whole state as a value of the rules. */
    ghost function Model(): Game
      reads this
    {
      Game(boardSize, tailPositions, foodPosition, direction, lastMoveDirection,
           queuedDirections, gameFinished, won, events)
    }

    ghost predicate Valid()
      reads this
    {
      Inv(Model())
    }

    /** Construction on a board of at least 4 by 4 cells; see `Create` for the refusal. */
    constructor (boardSize: Vector2)
      requires ValidBoardSize(boardSize)
      ensures Valid() && Model() == Initial(boardSize)
    {
      this.boardSize := boardSize;
      var center := boardSize.HalfFloor();
      tailPositions := [center, center.AddXY(1, 0)];
      foodPosition := Vector2(0, 0);
      direction := Right;
      lastMoveDirection := Right;
      queuedDirections := [];
      gameFinished := false;
      won := false;
      events := [];
      new;
      InitialInv(boardSize);
    }

    /** `new Snake(boardSize)`, which throws (here: `None`) when the board is too small. */
    static method Create(boardSize: Vector2) returns (r: Option<Snake>)
      ensures r.None? <==> boardSize.x < 4 || boardSize.y < 4
      ensures r.Some? ==> fresh(r.value) && r.value.Valid() && r.value.Model() == Initial(boardSize)
    {
      if boardSize.x < 4 || boardSize.y < 4 {
        return None;
      }
      var s := new Snake(boardSize);
      r := Some(s);
    }

    function HeadPosition(): (p: Vector2)
      reads this
      requires |tailPositions| > 0
      ensures p == Head(tailPositions)
      ensures Valid() ==> InBoard(p, boardSize)
      ensures Valid() ==> forall i :: 0 <= i < |tailPositions| - 1 ==> tailPositions[i] != p
    {
      tailPositions[|tailPositions| - 1]
    }

    function Length(): (n: nat)
      reads this
      ensures n == |tailPositions|
      ensures Valid() ==> n >= 2
    {
      |tailPositions|
    }

    /** The number of apples eaten: the two starting segments do not score. */
    function Score(): (s: int)
      reads this
      ensures s + 2 == Length()
      ensures Valid() ==> s >= 0
    {
      Length() - 2
    }

    /** `won`: the win branch is dead, so it is false on every valid state. */
    function Won(): (w: bool)
      reads this
      ensures w == won
      ensures Valid() ==> !w
    {
      won
    }

    function CurrentDirection(): (d: Vector2)
      reads this
      ensures d == direction
      ensures Valid() ==> IsUnitDirection(d) && d.Negate() != lastMoveDirection
    {
      direction
    }

    /** `getTailPosition(index)`, which throws (here: `None`) outside `[0, length)`. */
    function GetTailPosition(index: int): (r: Option<Vector2>)
      reads this
      ensures r.None? <==> index < 0 || index >= Length()
      ensures r.Some? ==> r.value == tailPositions[index]
      ensures r.Some? && Valid() ==> InBoard(r.value, boardSize)
    {
      if index < 0 || index >= |tailPositions| then None
      else Some(tailPositions[index])
    }

    method GoLeft()
      requires Valid()
      modifies this`queuedDirections
      ensures Valid() && Model() == old(Model()).(queuedDirections := old(queuedDirections) + [Left])
    {
      queuedDirections := queuedDirections + [Left];
    }

    method GoRight()
      requires Valid()
      modifies this`queuedDirections
      ensures Valid() && Model() == old(Model()).(queuedDirections := old(queuedDirections) + [Right])
    {
      queuedDirections := queuedDirections + [Right];
    }

    /** As written, "up" queues the `Down` vector. */
    method GoUp()
      requires Valid()
      modifies this`queuedDirections
      ensures Valid() && Model() == old(Model()).(queuedDirections := old(queuedDirections) + [Down])
    {
      queuedDirections := queuedDirections + [Down];
    }

    /** As written, "down" queues the `Up` vector. */
    method GoDown()
      requires Valid()
      modifies this`queuedDirections
      ensures Valid() && Model() == old(Model()).(queuedDirections := old(queuedDirections) + [Up])
    {
      queuedDirections := queuedDirections + [Up];
    }

    /** `start()` without its timer: place the first food. */
    method Start(random: real)
      requires Valid() && 0.0 <= random < 1.0
      modifies this`foodPosition, this`events
      ensures Valid() && Model() == SnakeRules.PlaceFood(old(Model()), random).1
    {
      ghost var g := Model();
      var _ := PlaceFood(random);
      PlaceFoodSpec(g, random);
    }

    /**
     * One tick. Returns false, changing nothing, where the source throws
     * because the game is already finished. The statements of the source
     * are grouped into three private steps, called in the same order.
     */
    method Update(random: real) returns (ok: bool)
      requires Valid() && 0.0 <= random < 1.0
      modifies this
      ensures ok == !old(gameFinished)
      ensures !ok ==> Model() == old(Model())
      ensures ok ==> Model() == Tick(old(Model()), random)
      ensures Valid()
    {
      if gameFinished {
        return false;
      }
      ghost var g := Model();
      TickCases(g, random);
      TickPreservesInv(g, random);
      ok := true;

      TakeQueuedDirection();
      var newHeadPosition := ConstrainInBoard(HeadPosition().Add(direction));

      if IsTail(newHeadPosition) {
        gameFinished := true;
        events := events + [GameOver(Score())];
        return;
      }

      var foodEaten := EatOrSlide(newHeadPosition, random);
      PushHead(newHeadPosition, foodEaten);
    }

    /** The first statement of `update()`: shift the queue and apply the guarded direction. */
    method TakeQueuedDirection()
      modifies this`queuedDirections, this`direction
      ensures Model() == Turn(old(Model()))
    {
      var requested := if queuedDirections == [] then direction else queuedDirections[0];
      if queuedDirections != [] {
        queuedDirections := queuedDirections[1..];
      }
      SetDirection(requested);
    }

    /**
     * The food check of `update()`: on the food, place new food and, when
     * that fails, mark the game won and finished without returning;
     * otherwise drop the oldest segment.
     */
    method EatOrSlide(newHeadPosition: Vector2, random: real) returns (foodEaten: bool)
      requires |tailPositions| > 0 && 0.0 <= random < 1.0
      modifies this`foodPosition, this`events, this`won, this`gameFinished, this`tailPositions
      ensures foodEaten == (newHeadPosition == old(foodPosition))
      ensures foodEaten ==> Model() == Eat(old(Model()), random)
      ensures !foodEaten ==> Model() == old(Model()).(tailPositions := old(tailPositions)[1..])
    {
      foodEaten := false;
      if newHeadPosition == foodPosition {
        foodEaten := true;
        var placed := PlaceFood(random);
        if !placed {
          won := true;
          gameFinished := true;
          events := events + [Win(Score())];
        }
      } else {
        tailPositions := tailPositions[1..];
      }
    }

    /** The end of `update()`: push the new head, record the move, emit `moved` and maybe `scoreupdated`. */
    method PushHead(newHeadPosition: Vector2, foodEaten: bool)
      modifies this`tailPositions, this`lastMoveDirection, this`events
      ensures Model() == Advance(old(Model()), newHeadPosition, foodEaten)
    {
      tailPositions := tailPositions + [newHeadPosition];
      lastMoveDirection := direction;
      events := events + [Moved];
      if foodEaten {
        events := events + [ScoreUpdated(Score())];
      }
    }

    /** `placeFood()`: the draw `random` stands for `Math.random()`. */
    method PlaceFood(random: real) returns (placed: bool)
      requires 0.0 <= random < 1.0
      modifies this`foodPosition, this`events
      ensures (placed, Model()) == SnakeRules.PlaceFood(old(Model()), random)
    {
      var openTiles := GetOpenTiles();
      if |openTiles| == 0 {
        return false;
      }
      foodPosition := openTiles[Pick(random, |openTiles|)];
      events := events + [FoodPlaced(foodPosition)];
      placed := true;
    }

    /** `setDirection(dir)`: ignored when it would reverse the last move. */
    method SetDirection(dir: Vector2)
      modifies this`direction
      ensures direction == SnakeRules.SetDirection(old(direction), lastMoveDirection, dir)
    {
      if dir.Negate() == lastMoveDirection {
        return;
      }
      direction := dir;
    }

    /** `constrainInBoard`: JavaScript's `%`, then a correction of negative remainders. */
    method ConstrainInBoard(position: Vector2) returns (r: Vector2)
      requires boardSize.x > 0 && boardSize.y > 0
      ensures r == Wrap(position, boardSize)
    {
      var x := Rem(position.x, boardSize.x);
      var y := Rem(position.y, boardSize.y);
      if x < 0 {
        x := boardSize.x + x;
      }
      if y < 0 {
        y := boardSize.y + y;
      }
      r := Vector2(x, y);
    }

    /** `isTail(position)`: some segment occupies `position`. */
    function IsTail(position: Vector2): (r: bool)
      reads this
      ensures r <==> exists i :: 0 <= i < Length() && tailPositions[i] == position
    {
      position in tailPositions
    }

    /** `getOpenTiles()`: scan the board column by column, keeping the free cells. */
    method GetOpenTiles() returns (openTiles: seq<Vector2>)
      ensures openTiles == OpenTiles(boardSize, tailPositions)
    {
      openTiles := [];
      var x := 0;
      while x < boardSize.x
        invariant 0 <= x <= Columns(boardSize)
        invariant openTiles == Visited(tailPositions, Rows(boardSize), x, 0)
      {
        var y := 0;
        while y < boardSize.y
          invariant 0 <= y <= Rows(boardSize)
          invariant openTiles == Visited(tailPositions, Rows(boardSize), x, y)
        {
          var pos := Vector2(x, y);
          if !IsTail(pos) {
            openTiles := openTiles + [pos];
          }
          y := y + 1;
        }
        x := x + 1;
      }
    }
  }
}
