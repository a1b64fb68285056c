/**
 * The game rules of the `Snake` engine as pure functions over a value that
 * holds the engine's whole state. `Tick` is one call of `update()`;
 * `PlaceFood` is one call of `placeFood()`. The imperative class in
 * snake.dfy is proved to follow these functions, and the lemmas here state
 * what the rules guarantee.
 */
module SnakeRules {
  import opened Geometry

  /** What the engine emits, in order, instead of calling listeners. */
  datatype Event =
    | Moved
    | FoodPlaced(position: Vector2)
    | GameOver(score: int)
    | Win(score: int)
    | ScoreUpdated(score: int)

  /**
   * The engine state. `tailPositions[0]` is the tail end and the last
   * element is the head; `events` is everything emitted so far.
   */
  datatype Game = Game(
    boardSize: Vector2,
    tailPositions: seq<Vector2>,
    foodPosition: Vector2,
    direction: Vector2,
    lastMoveDirection: Vector2,
    queuedDirections: seq<Vector2>,
    finished: bool,
    won: bool,
    events: seq<Event>)

  predicate InBoard(p: Vector2, size: Vector2) {
    0 <= p.x < size.x && 0 <= p.y < size.y
  }

  /** Every cell of the board is taken by the body. */
  ghost predicate BoardFull(size: Vector2, body: seq<Vector2>) {
    forall p :: InBoard(p, size) ==> p in body
  }

  predicate NoDuplicates(s: seq<Vector2>) {
    forall i, j :: 0 <= i < j < |s| ==> s[i] != s[j]
  }

  /** The constructor refuses boards narrower or lower than 4 cells. */
  predicate ValidBoardSize(size: Vector2) {
    size.x >= 4 && size.y >= 4
  }

  function Head(body: seq<Vector2>): Vector2
    requires |body| > 0
  {
    body[|body| - 1]
  }

  /** The two initial segments are not scored. */
  function ScoreOf(g: Game): int {
    |g.tailPositions| - 2
  }

  /** The starting body: the centre cell and its right-hand neighbour. */
  function StartBody(size: Vector2): (body: seq<Vector2>)
    ensures |body| == 2 && body[0] == size.HalfFloor() && body[1] == body[0].Add(Right)
    ensures ValidBoardSize(size) ==> InBoard(body[0], size) && InBoard(body[1], size)
  {
    var center := size.HalfFloor();
    [center, center.AddXY(1, 0)]
  }

  /** The state right after construction, before any food is placed. */
  function Initial(size: Vector2): Game {
    Game(size, StartBody(size), Vector2(0, 0), Right, Right, [], false, false, [])
  }

  /**
   * What holds of every state the engine can reach: the body lies on the
   * board without repeated cells, every direction is a unit vector, the
   * current direction never reverses the last move, and the game is never won.
   */
  predicate Inv(g: Game) {
    && ValidBoardSize(g.boardSize)
    && |g.tailPositions| >= 2
    && (forall p :: p in g.tailPositions ==> InBoard(p, g.boardSize))
    && NoDuplicates(g.tailPositions)
    && InBoard(g.foodPosition, g.boardSize)
    && IsUnitDirection(g.direction)
    && IsUnitDirection(g.lastMoveDirection)
    && g.direction.Negate() != g.lastMoveDirection
    && (forall d :: d in g.queuedDirections ==> IsUnitDirection(d))
    && !g.won
  }

  lemma InitialInv(size: Vector2)
    requires ValidBoardSize(size)
    ensures Inv(Initial(size)) && ScoreOf(Initial(size)) == 0
  {
  }

  // ---------------------------------------------------------------- wrapping

  /** The board is a torus: the cell of the board congruent to `p`. */
  function Wrap(p: Vector2, size: Vector2): (r: Vector2)
    requires size.x > 0 && size.y > 0
    ensures InBoard(r, size)
    ensures (p.x - r.x) % size.x == 0 && (p.y - r.y) % size.y == 0
    ensures InBoard(p, size) ==> r == p
  {
    var r := Vector2(p.x % size.x, p.y % size.y);
    ModUnique(p.x - r.x, size.x, p.x / size.x, 0);
    ModUnique(p.y - r.y, size.y, p.y / size.y, 0);
    if InBoard(p, size) then
      ModUnique(p.x, size.x, 0, p.x);
      ModUnique(p.y, size.y, 0, p.y);
      r
    else r
  }

  // --------------------------------------------------------------- direction

  /** `setDirection`: a request that reverses the last move is ignored. */
  function SetDirection(current: Vector2, lastMove: Vector2, requested: Vector2): (r: Vector2)
    ensures requested.Negate() != lastMove ==> r == requested
    ensures r != current ==> r == requested && requested.Negate() != lastMove
  {
    if requested.Negate() == lastMove then current else requested
  }

  /** The direction a tick asks for: the oldest queued one, or the current one. */
  function Requested(g: Game): Vector2 {
    if g.queuedDirections == [] then g.direction else g.queuedDirections[0]
  }

  /** The queue after a tick has taken at most its front element. */
  function Dequeued(g: Game): seq<Vector2> {
    if g.queuedDirections == [] then [] else g.queuedDirections[1..]
  }

  // ----------------------------------------------------------- open tiles

  function Rows(size: Vector2): nat {
    if size.y > 0 then size.y else 0
  }

  function Columns(size: Vector2): nat {
    if size.x > 0 then size.x else 0
  }

  /**
   * The free cells the nested scan of `getOpenTiles` has collected on
   * reaching cell (x, y): the whole of every column left of x, then the
   * cells of column x below row y, in the order the scan meets them.
   */
  function Visited(body: seq<Vector2>, rows: nat, x: nat, y: nat): seq<Vector2>
    requires y <= rows
    decreases x, y
  {
    if y > 0 then
      var p := Vector2(x, y - 1);
      Visited(body, rows, x, y - 1) + (if p in body then [] else [p])
    else if x > 0 then Visited(body, rows, x - 1, rows)
    else []
  }

  /** `getOpenTiles`: every free cell, in the order the scan finds them. */
  function OpenTiles(size: Vector2, body: seq<Vector2>): seq<Vector2> {
    Visited(body, Rows(size), Columns(size), 0)
  }

  lemma {:induction false} VisitedHas(body: seq<Vector2>, rows: nat, x: nat, y: nat, p: Vector2)
    requires y <= rows
    ensures p in Visited(body, rows, x, y) <==>
      p !in body && 0 <= p.y < rows && (0 <= p.x < x || (p.x == x && p.y < y))
    decreases x, y
  {
    if y > 0 {
      VisitedHas(body, rows, x, y - 1, p);
    } else if x > 0 {
      VisitedHas(body, rows, x - 1, rows, p);
    }
  }

  lemma {:induction false} VisitedDistinct(body: seq<Vector2>, rows: nat, x: nat, y: nat)
    requires y <= rows
    ensures NoDuplicates(Visited(body, rows, x, y))
    decreases x, y
  {
    if y > 0 {
      var p := Vector2(x, y - 1);
      VisitedDistinct(body, rows, x, y - 1);
      if p !in body {
        VisitedHas(body, rows, x, y - 1, p);
        NoDuplicatesAppend(Visited(body, rows, x, y - 1), p);
      }
    } else if x > 0 {
      VisitedDistinct(body, rows, x - 1, rows);
    }
  }

  lemma NoDuplicatesAppend(s: seq<Vector2>, p: Vector2)
    requires NoDuplicates(s) && p !in s
    ensures NoDuplicates(s + [p])
  {
    forall i, j | 0 <= i < j < |s + [p]| ensures (s + [p])[i] != (s + [p])[j] {
      if j == |s| {
        assert (s + [p])[i] in s;
      }
    }
  }

  /** `getOpenTiles` lists every free cell of the board, and each only once. */
  lemma OpenTilesExact(size: Vector2, body: seq<Vector2>)
    ensures forall p :: p in OpenTiles(size, body) <==> InBoard(p, size) && p !in body
    ensures NoDuplicates(OpenTiles(size, body))
  {
    forall p ensures p in OpenTiles(size, body) <==> InBoard(p, size) && p !in body {
      VisitedHas(body, Rows(size), Columns(size), 0, p);
    }
    VisitedDistinct(body, Rows(size), Columns(size), 0);
  }

  // ---------------------------------------------------------------- food

  /** `Math.floor(Math.random() * n)` for a draw `0 <= random < 1`. */
  function Pick(random: real, n: nat): (i: nat)
    requires 0.0 <= random < 1.0 && n > 0
    ensures i < n
  {
    var scaled := random * n as real;
    assert 0.0 <= scaled < n as real;
    scaled.Floor
  }

  /**
   * `placeFood`: false, and nothing changes, when no cell is free;
   * otherwise the food moves to the drawn free cell and `foodplaced` is emitted.
   */
  function PlaceFood(g: Game, random: real): (bool, Game)
    requires 0.0 <= random < 1.0
  {
    var open := OpenTiles(g.boardSize, g.tailPositions);
    if |open| == 0 then (false, g)
    else
      var food := open[Pick(random, |open|)];
      (true, g.(foodPosition := food, events := g.events + [FoodPlaced(food)]))
  }

  lemma PlaceFoodSpec(g: Game, random: real)
    requires 0.0 <= random < 1.0
    ensures var (placed, g') := PlaceFood(g, random);
      && (placed <==> exists p :: InBoard(p, g.boardSize) && p !in g.tailPositions)
      && (!placed ==> g' == g)
      && (placed ==>
            && InBoard(g'.foodPosition, g.boardSize)
            && g'.foodPosition !in g.tailPositions
            && g' == g.(foodPosition := g'.foodPosition, events := g.events + [FoodPlaced(g'.foodPosition)]))
  {
    var open := OpenTiles(g.boardSize, g.tailPositions);
    OpenTilesExact(g.boardSize, g.tailPositions);
    if |open| > 0 {
      assert open[0] in open;
    }
  }

  // ---------------------------------------------------------------- tick

  /** What a tick requires of the state it starts from. */
  predicate CanTick(g: Game) {
    !g.finished && |g.tailPositions| > 0 && g.boardSize.x > 0 && g.boardSize.y > 0
  }

  /** The cell the head moves to in this tick. */
  function NextHead(g: Game, dir: Vector2): Vector2
    requires |g.tailPositions| > 0 && g.boardSize.x > 0 && g.boardSize.y > 0
  {
    Wrap(Head(g.tailPositions).Add(dir), g.boardSize)
  }

  /** The first step of a tick: take one queued direction, subject to the reversal guard. */
  function Turn(g: Game): (r: Game)
    ensures r == g.(direction := r.direction, queuedDirections := r.queuedDirections)
    ensures g.queuedDirections == [] ==> r.queuedDirections == [] && r.direction == g.direction
    ensures g.queuedDirections != [] ==> g.queuedDirections == [g.queuedDirections[0]] + r.queuedDirections
    ensures r.direction != g.direction ==>
      r.direction == g.queuedDirections[0] && r.direction.Negate() != g.lastMoveDirection
    ensures g.queuedDirections != [] && g.queuedDirections[0].Negate() != g.lastMoveDirection ==>
      r.direction == g.queuedDirections[0]
  {
    g.(direction := SetDirection(g.direction, g.lastMoveDirection, Requested(g)),
       queuedDirections := Dequeued(g))
  }

  /**
   * Eating: place new food; when that fails the game is marked won and
   * finished and `win` is emitted, but the tick then carries on as written.
   */
  function Eat(g: Game, random: real): (r: Game)
    requires 0.0 <= random < 1.0
    ensures r.tailPositions == g.tailPositions && r.boardSize == g.boardSize
    ensures r.direction == g.direction && r.lastMoveDirection == g.lastMoveDirection
    ensures r.queuedDirections == g.queuedDirections
    ensures r.won == (g.won || BoardFull(g.boardSize, g.tailPositions))
    ensures r.finished == (g.finished || BoardFull(g.boardSize, g.tailPositions))
    ensures r == g.(foodPosition := r.foodPosition, won := r.won, finished := r.finished, events := r.events)
    ensures !BoardFull(g.boardSize, g.tailPositions) ==>
      && InBoard(r.foodPosition, g.boardSize) && r.foodPosition !in g.tailPositions
      && r.events == g.events + [FoodPlaced(r.foodPosition)]
    ensures BoardFull(g.boardSize, g.tailPositions) ==>
      r.foodPosition == g.foodPosition && r.events == g.events + [Win(ScoreOf(g))]
    ensures |r.events| == |g.events| + 1 && r.events[..|g.events|] == g.events
  {
    PlaceFoodSpec(g, random);
    var (placed, fed) := PlaceFood(g, random);
    if placed then fed
    else fed.(won := true, finished := true, events := fed.events + [Win(ScoreOf(fed))])
  }

  /** The end of every tick that does not collide: push the head, record the move, emit. */
  function Advance(g: Game, head: Vector2, foodEaten: bool): (r: Game)
    ensures |r.tailPositions| == |g.tailPositions| + 1 && Head(r.tailPositions) == head
    ensures r.tailPositions[..|g.tailPositions|] == g.tailPositions
    ensures r.lastMoveDirection == g.direction
    ensures r == g.(tailPositions := r.tailPositions, lastMoveDirection := g.direction, events := r.events)
    ensures |r.events| == |g.events| + (if foodEaten then 2 else 1)
    ensures r.events[..|g.events|] == g.events && r.events[|g.events|] == Moved
    ensures foodEaten ==> r.events[|g.events| + 1] == ScoreUpdated(ScoreOf(r))
  {
    var moved := g.(tailPositions := g.tailPositions + [head], lastMoveDirection := g.direction,
                    events := g.events + [Moved]);
    if foodEaten then moved.(events := moved.events + [ScoreUpdated(ScoreOf(moved))]) else moved
  }

  /** A collision: the game is over; only `finished` and the log change. */
  function Collide(g: Game): (r: Game)
    ensures r.finished && r == g.(finished := true, events := r.events)
    ensures r.events == g.events + [GameOver(ScoreOf(r))]
  {
    g.(finished := true, events := g.events + [GameOver(ScoreOf(g))])
  }

  /**
   * `update()`: take one queued direction, wrap the new head onto the board,
   * end the game on a collision with any segment, otherwise grow onto the
   * food or slide forward.
   */
  function Tick(g: Game, random: real): (r: Game)
    requires CanTick(g) && 0.0 <= random < 1.0
    ensures r.boardSize == g.boardSize
    ensures |g.events| < |r.events| && r.events[..|g.events|] == g.events
  {
    var turned := Turn(g);
    var head := NextHead(g, turned.direction);
    if head in g.tailPositions then
      Collide(turned)
    else if head == g.foodPosition then
      Advance(Eat(turned, random), head, true)
    else
      Advance(turned.(tailPositions := turned.tailPositions[1..]), head, false)
  }

  /**
   * Proof step: unfolds `Tick` into the three ways a tick can end, each a
   * composition of its steps, for callers that reason branch by branch.
   */
  lemma TickCases(g: Game, random: real)
    requires CanTick(g) && 0.0 <= random < 1.0
    ensures var turned := Turn(g);
      var head := NextHead(g, turned.direction);
      && (head in g.tailPositions ==> Tick(g, random) == Collide(turned))
      && (head !in g.tailPositions && head == g.foodPosition ==>
            Tick(g, random) == Advance(Eat(turned, random), head, true))
      && (head !in g.tailPositions && head != g.foodPosition ==>
            Tick(g, random) == Advance(turned.(tailPositions := turned.tailPositions[1..]), head, false))
  {
  }

  /**
   * One queued direction at most is consumed per tick, oldest first; it is
   * applied unless it reverses the last move, and an empty queue keeps the
   * current direction.
   */
  lemma TickDirection(g: Game, random: real)
    requires CanTick(g) && 0.0 <= random < 1.0
    ensures var g' := Tick(g, random);
      && (g.queuedDirections == [] ==> g'.queuedDirections == [] && g'.direction == g.direction)
      && (g.queuedDirections != [] ==>
            && g'.queuedDirections == g.queuedDirections[1..]
            && (g.queuedDirections[0].Negate() == g.lastMoveDirection ==> g'.direction == g.direction)
            && (g.queuedDirections[0].Negate() != g.lastMoveDirection ==> g'.direction == g.queuedDirections[0]))
  {
  }

  /**
   * A head that lands on any segment, the oldest one included, ends the
   * game: `gameover` with the score, and the body, the food and the last
   * move stay as they were.
   */
  lemma TickCollision(g: Game, random: real)
    requires CanTick(g) && 0.0 <= random < 1.0
    requires NextHead(g, Tick(g, random).direction) in g.tailPositions
    ensures var g' := Tick(g, random);
      && g'.finished && g'.won == g.won
      && g'.tailPositions == g.tailPositions
      && g'.foodPosition == g.foodPosition
      && g'.lastMoveDirection == g.lastMoveDirection
      && g'.events == g.events + [GameOver(ScoreOf(g))]
  {
  }

  /**
   * Without a collision or food the body slides: the oldest segment is
   * dropped, the new head is appended, and only `moved` is emitted.
   */
  lemma TickSlide(g: Game, random: real)
    requires CanTick(g) && 0.0 <= random < 1.0
    requires var head := NextHead(g, Tick(g, random).direction);
      head !in g.tailPositions && head != g.foodPosition
    ensures var g' := Tick(g, random);
      && g'.tailPositions == g.tailPositions[1..] + [NextHead(g, g'.direction)]
      && |g'.tailPositions| == |g.tailPositions|
      && g'.lastMoveDirection == g'.direction
      && g'.foodPosition == g.foodPosition
      && !g'.finished && g'.won == g.won
      && g'.events == g.events + [Moved]
  {
  }

  /**
   * On a reachable state every free cell the head can move to leaves at
   * least that cell open, so placing new food never fails.
   */
  lemma {:induction false} BoardNeverFull(g: Game, head: Vector2)
    requires Inv(g) && InBoard(head, g.boardSize) && head !in g.tailPositions
    ensures OpenTiles(g.boardSize, g.tailPositions) != []
  {
    OpenTilesExact(g.boardSize, g.tailPositions);
    assert head in OpenTiles(g.boardSize, g.tailPositions);
  }

  /**
   * Eating grows the body by exactly one cell, places new food on a cell
   * that was free before the head moved (possibly the new head's own cell)
   * and emits `foodplaced`, `moved` and `scoreupdated` with the new score.
   * The game goes on: the win branch is never taken.
   */
  lemma TickGrow(g: Game, random: real)
    requires Inv(g) && CanTick(g) && 0.0 <= random < 1.0
    requires var head := NextHead(g, Tick(g, random).direction);
      head !in g.tailPositions && head == g.foodPosition
    ensures var g' := Tick(g, random);
      && g'.tailPositions == g.tailPositions + [NextHead(g, g'.direction)]
      && ScoreOf(g') == ScoreOf(g) + 1
      && g'.lastMoveDirection == g'.direction
      && InBoard(g'.foodPosition, g.boardSize) && g'.foodPosition !in g.tailPositions
      && !g'.finished && !g'.won
      && g'.events == g.events + [FoodPlaced(g'.foodPosition), Moved, ScoreUpdated(ScoreOf(g'))]
  {
    var g' := Tick(g, random);
    var dir := g'.direction;
    var turned := g.(direction := dir, queuedDirections := Dequeued(g));
    var head := NextHead(g, dir);
    BoardNeverFull(g, head);
    PlaceFoodSpec(turned, random);
  }

  /** A tick keeps every reachable-state invariant; in particular the game is never won. */
  lemma TickPreservesInv(g: Game, random: real)
    requires Inv(g) && !g.finished && 0.0 <= random < 1.0
    ensures Inv(Tick(g, random))
  {
    var g' := Tick(g, random);
    var head := NextHead(g, g'.direction);
    TickTurns(g, random);
    if head in g.tailPositions {
      TickCollision(g, random);
    } else if head == g.foodPosition {
      TickGrow(g, random);
      AppendFresh(g.tailPositions, head, g.boardSize);
    } else {
      TickSlide(g, random);
      AppendFresh(g.tailPositions[1..], head, g.boardSize);
    }
  }

  /** The direction a tick settles on is a unit vector that does not reverse the last move. */
  lemma TickTurns(g: Game, random: real)
    requires Inv(g) && !g.finished && 0.0 <= random < 1.0
    ensures var g' := Tick(g, random);
      && IsUnitDirection(g'.direction)
      && g'.direction.Negate() != g.lastMoveDirection
      && g'.direction.Negate() != g'.direction
      && g'.boardSize == g.boardSize
      && forall d :: d in g'.queuedDirections ==> d in g.queuedDirections
  {
    TickSettles(g, random);
    TurnSettles(g);
  }

  /** Proof step: the turn alone yields a unit direction that does not reverse the last move. */
  lemma TurnSettles(g: Game)
    requires Inv(g)
    ensures var dir := SetDirection(g.direction, g.lastMoveDirection, Requested(g));
      IsUnitDirection(dir) && dir.Negate() != g.lastMoveDirection && dir.Negate() != dir
    ensures forall d :: d in Dequeued(g) ==> d in g.queuedDirections
  {
    var requested := Requested(g);
    if g.queuedDirections != [] {
      assert requested in g.queuedDirections;
    }
    assert IsUnitDirection(requested);
    UnitNotSelfOpposite(SetDirection(g.direction, g.lastMoveDirection, requested));
  }

  /** The direction, the queue and the board a tick leaves behind, whichever branch it takes. */
  lemma TickSettles(g: Game, random: real)
    requires CanTick(g) && 0.0 <= random < 1.0
    ensures var g' := Tick(g, random);
      && g'.direction == SetDirection(g.direction, g.lastMoveDirection, Requested(g))
      && g'.queuedDirections == Dequeued(g)
      && g'.boardSize == g.boardSize
  {
    var turned := Turn(g);
    var head := NextHead(g, turned.direction);
    if head !in g.tailPositions && head == g.foodPosition {
      var (placed, fed) := PlaceFood(turned, random);
      assert fed.direction == turned.direction && fed.queuedDirections == Dequeued(g) && fed.boardSize == g.boardSize;
    }
  }

  /** Appending a fresh on-board cell to a duplicate-free on-board body keeps it so. */
  lemma AppendFresh(s: seq<Vector2>, p: Vector2, size: Vector2)
    requires NoDuplicates(s) && p !in s
    requires InBoard(p, size) && forall q :: q in s ==> InBoard(q, size)
    ensures NoDuplicates(s + [p])
    ensures forall q :: q in s + [p] ==> InBoard(q, size)
  {
    NoDuplicatesAppend(s, p);
  }

  /** The win branch is dead: no tick from a reachable state sets `won`. */
  lemma NeverWon(g: Game, random: real)
    requires Inv(g) && !g.finished && 0.0 <= random < 1.0
    ensures !Tick(g, random).won
  {
    TickPreservesInv(g, random);
  }

  /**
   * New food is not kept off the body: whenever the head eats, some draw
   * puts the new food on the very cell the head moves into.
   */
  lemma FoodCanLandUnderHead(g: Game, random: real)
    requires Inv(g) && CanTick(g) && 0.0 <= random < 1.0
    requires var head := NextHead(g, Tick(g, random).direction);
      head !in g.tailPositions && head == g.foodPosition
    ensures exists r :: 0.0 <= r < 1.0 && Tick(g, r).foodPosition == Head(Tick(g, r).tailPositions)
  {
    var dir := Tick(g, random).direction;
    var head := NextHead(g, dir);
    var open := OpenTiles(g.boardSize, g.tailPositions);
    OpenTilesExact(g.boardSize, g.tailPositions);
    assert head in open;
    var i :| 0 <= i < |open| && open[i] == head;
    var r := ExactDraw(i, |open|);
    assert Tick(g, r).direction == dir;
    TickGrow(g, r);
    assert Tick(g, r).foodPosition == head;
  }

  /** The draw that makes `Pick` choose index `i` of `n`. */
  lemma ExactDraw(i: nat, n: nat) returns (r: real)
    requires i < n
    ensures 0.0 <= r < 1.0 && Pick(r, n) == i
  {
    r := i as real / n as real;
    assert r * n as real == i as real;
  }
}
