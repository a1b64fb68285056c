# Snake engine and leaderboard sanitising, modelled in Dafny

This project models two parts of a browser Snake game written in TypeScript.

**The game engine** (`Snake` in src/logic/snake/snake.ts). The board is a
torus of `boardSize.x` by `boardSize.y` cells. The snake is a list of cells,
tail end first and head last. Each `update()` tick does the following:
- takes at most one queued direction, and ignores it if it would reverse
  the last move;
- moves the head one cell, wrapping round the edges;
- ends the game on a collision with any segment;
- otherwise either grows onto the food, placing new food on a random free
  cell, or slides forward.

The engine reports what happens through events.

The engine is modelled twice, and the two are proved to agree:
- `SnakeRules` (snake_rules.dfy) holds the rules as pure functions over a
  `Game` value, with the lemmas about them.
- `SnakeGame.Snake` (snake.dfy) is a class with the engine's fields. Its
  methods update those fields in place. Each method's `ensures` gives the
  new state `Model()`, in terms of a rule function where there is one
  (`Update` is `Tick`, `PlaceFood` is the rules' `PlaceFood`); the `go*`
  methods state the appended queue entry directly.

The invariant `Inv` holds in every state the engine can reach:
- the body is on the board and has no repeated cell;
- every direction is a unit vector;
- the direction never reverses the last move;
- the game is never won.

The constructor establishes `Inv`. The public operations keep it: the
`go*` methods, `Start` and `Update`. The private methods
`TakeQueuedDirection`, `EatOrSlide`, `PushHead`, `PlaceFood` and
`SetDirection` are steps of `Update` and promise only their own effect on
the state. Called on their own they need not keep `Inv`.

`Geometry` (geometry.dfy) holds the integer `Vector2` and JavaScript's `%`.

**The leaderboard provider** (src/data/leaderboard/firestore-leaderboard-provider.ts).
`Leaderboard` (leaderboard.dfy) models how a stored document becomes a
`LeaderboardEntry`:
- the name is cut to 12 characters;
- CR and LF are removed;
- every `<…>` run is removed;
- time and score are clamped at zero;
- the timestamp becomes milliseconds.

It also models the equality filters that `listLeaderboard` adds for a period. The
`switch` there has no `break`, so a day listing also filters by month and
year, and a month listing also filters by year. `PeriodSelects` proves that
the filters therefore select exactly the entries of the same UTC day, month
or year.

## Behaviour as written

The model follows the code wherever the code and the game's evident design
differ:

- **The win branch is dead.** `update()` calls `placeFood()` after eating but
  before pushing the new head. At that point the head's target cell is still
  free, so food can always be placed and `won` never becomes true.
  `SnakeRules.NeverWon` and `SnakeGame.Snake.Won` prove this. Had the branch
  run, the tick would not return: it would still push the head and emit
  `moved` and `scoreupdated`. `SnakeRules.Eat` and `Advance` model it that way.
- **Food can be placed under the new head.** This happens for the same
  reason; `SnakeRules.FoodCanLandUnderHead` exhibits the draw. The model
  therefore only promises that new food lies off the body as it was before
  the head moved (`SnakeRules.TickGrow`).
- **`goUp` queues `DOWN` and `goDown` queues `UP`.** The board's y
  coordinate grows downward on screen, so "up" on screen is a step of −1
  in y. The model keeps the names and the vectors as written.

## Model

| member | source | states |
|---|---|---|
| `Geometry.Vector2.HalfFloor` | src/logic/snake/snake.ts:39 | each coordinate of the centre is the floor of half the board size |
| `Geometry.Rem` | src/logic/snake/snake.ts:176-177 | JavaScript's `%`: the remainder has the sign of the dividend and magnitude below the divisor, and differs from the Euclidean remainder by the divisor exactly when it is negative |
| `SnakeRules.StartBody` | src/logic/snake/snake.ts:39-43 | the starting body is two cells: the first at floor(size/2), the second its right-hand neighbour, both on any board of at least 4 by 4 |
| `SnakeRules.InitialInv` | src/logic/snake/snake.ts:18-44 | the freshly constructed engine satisfies the reachable-state invariant and has score 0 |
| `SnakeRules.Wrap` | src/logic/snake/snake.ts:174-186 | the wrapped cell is on the board, congruent to the input modulo the board size on both axes, and equal to the input when that is already on the board |
| `SnakeRules.Visited` | src/logic/snake/snake.ts:195-203 | the free cells the nested scan has collected on reaching (x, y); no contract of its own, `VisitedHas` and `VisitedDistinct` state its contents |
| `SnakeRules.OpenTiles` | src/logic/snake/snake.ts:192-205 | the full scan; no contract of its own, `OpenTilesExact` states that it lists every free cell once |
| `SnakeRules.VisitedHas` | src/logic/snake/snake.ts:195-203 | after the scan reaches (x, y), the collected list holds exactly the free cells of earlier columns and of column x below row y |
| `SnakeRules.VisitedDistinct` | src/logic/snake/snake.ts:195-203 | the scan never collects a cell twice |
| `SnakeRules.OpenTilesExact` | src/logic/snake/snake.ts:192-205 | the open tiles are exactly the on-board cells not on the body, each listed once |
| `SnakeRules.Pick` | src/logic/snake/snake.ts:160 | `floor(random * n)` for a draw in [0, 1) is a valid index below n |
| `SnakeRules.PlaceFood` | src/logic/snake/snake.ts:152-164 | the food placement as a function of the state and the draw; no contract of its own, `PlaceFoodSpec` states its behaviour |
| `SnakeRules.PlaceFoodSpec` | src/logic/snake/snake.ts:152-164 | food is placed iff some on-board cell is free; on failure nothing changes; on success the food moves to a free on-board cell, `foodplaced` is emitted and nothing else changes |
| `SnakeRules.SetDirection` | src/logic/snake/snake.ts:166-172 | a request that does not reverse the last move is taken, and the direction changes only to such a request |
| `SnakeRules.Turn` | src/logic/snake/snake.ts:117 | the turn step changes only the direction and the queue; an empty queue keeps the direction, otherwise exactly the front is removed and becomes the direction iff it does not reverse the last move |
| `SnakeRules.Eat` | src/logic/snake/snake.ts:132-141 | eating changes only the food, `won`, `finished` and the log; when a cell is free the food moves to a free on-board cell and `foodplaced` is appended; when every cell is taken the food stays, `won` and `finished` are set and `win` with the score is appended |
| `SnakeRules.Advance` | src/logic/snake/snake.ts:145-149 | only the body, the last move and the log change: the body grows by the new head at the end, the last move becomes the direction, and `moved` is appended, followed by `scoreupdated` with the new score when food was eaten |
| `SnakeRules.Collide` | src/logic/snake/snake.ts:123-129 | only `finished` and the log change, and the log gains `gameover` with the score |
| `SnakeRules.Tick` | src/logic/snake/snake.ts:112-150 | a tick keeps the board size and only appends to the event log, at least one event; `TickDirection`, `TickCollision`, `TickSlide`, `TickGrow` and `TickPreservesInv` state the rest |
| `SnakeRules.TickDirection` | src/logic/snake/snake.ts:117 | a tick removes only the front of the queue; a reversing request is ignored, any other becomes the direction, and an empty queue keeps the direction |
| `SnakeRules.TickCollision` | src/logic/snake/snake.ts:123-129 | landing on any segment, the oldest included, finishes the game and emits `gameover` with the score; body, food and last move are unchanged and no `moved` is emitted |
| `SnakeRules.TickSlide` | src/logic/snake/snake.ts:142-149 | without food the oldest segment goes, the new head is appended, the length is unchanged, the last move becomes the direction and only `moved` is emitted |
| `SnakeRules.BoardNeverFull` | src/logic/snake/snake.ts:135-140 | when the head moves to a free on-board cell, the open-tile list is not empty |
| `SnakeRules.TickGrow` | src/logic/snake/snake.ts:131-149 | eating appends the head, raises the score by one, puts new food on a cell off the old body, keeps the game running and emits `foodplaced`, `moved` and `scoreupdated` with the new score |
| `SnakeRules.TickPreservesInv` | src/logic/snake/snake.ts:112-150 | every tick from a reachable state leads to a reachable state: body on the board without duplicates, unit directions, no reversal, not won |
| `SnakeRules.TickTurns` | src/logic/snake/snake.ts:117-121 | the direction a tick moves in is a unit vector that does not reverse the last move, and the queue only loses elements |
| `SnakeRules.TickSettles` | src/logic/snake/snake.ts:112-121 | whatever branch a tick takes, it leaves the guarded direction, the shortened queue and the board size |
| `SnakeRules.NeverWon` | src/logic/snake/snake.ts:135-140 | from a reachable state no tick sets `won`: the win branch is dead |
| `SnakeRules.FoodCanLandUnderHead` | src/logic/snake/snake.ts:131-145 | whenever the head eats, some draw places the new food on the head's own cell |
| `SnakeGame.Snake.constructor` | src/logic/snake/snake.ts:31-44 | the new engine is the initial state and satisfies the invariant |
| `SnakeGame.Snake.Create` | src/logic/snake/snake.ts:34-35 | construction fails exactly when the board is narrower or lower than 4 cells |
| `SnakeGame.Snake.HeadPosition` | src/logic/snake/snake.ts:46-48 | the head is the last segment; on a valid state it is on the board and no other segment shares its cell |
| `SnakeGame.Snake.Length` | src/logic/snake/snake.ts:53-55 | the number of segments, at least 2 on a valid state |
| `SnakeGame.Snake.Score` | src/logic/snake/snake.ts:60-62 | score plus 2 is the length, and the score is never negative on a valid state |
| `SnakeGame.Snake.Won` | src/logic/snake/snake.ts:64-66 | `won` is false on every valid state |
| `SnakeGame.Snake.CurrentDirection` | src/logic/snake/snake.ts:74-76 | on a valid state the direction is a unit vector that does not reverse the last move |
| `SnakeGame.Snake.GetTailPosition` | src/logic/snake/snake.ts:78-83 | fails exactly outside `[0, length)`, otherwise returns that segment, which is on the board |
| `SnakeGame.Snake.GoLeft` | src/logic/snake/snake.ts:85-87 | appends `LEFT` to the back of the queue and changes nothing else |
| `SnakeGame.Snake.GoRight` | src/logic/snake/snake.ts:89-91 | appends `RIGHT` to the back of the queue and changes nothing else |
| `SnakeGame.Snake.GoUp` | src/logic/snake/snake.ts:93-95 | appends `DOWN` to the back of the queue and changes nothing else |
| `SnakeGame.Snake.GoDown` | src/logic/snake/snake.ts:97-99 | appends `UP` to the back of the queue and changes nothing else |
| `SnakeGame.Snake.Start` | src/logic/snake/snake.ts:101-105 | starting places the first food as `placeFood` does and keeps the invariant |
| `SnakeGame.Snake.Update` | src/logic/snake/snake.ts:112-150 | fails, changing nothing, once the game is finished; otherwise performs one tick of the rules and keeps the invariant |
| `SnakeGame.Snake.TakeQueuedDirection` | src/logic/snake/snake.ts:117 | shifting the queue and setting the direction is the rules' turn step |
| `SnakeGame.Snake.EatOrSlide` | src/logic/snake/snake.ts:131-143 | reports whether the new head is on the food; if so it is the rules' eat step (with the fall-through win branch), otherwise it drops the oldest segment |
| `SnakeGame.Snake.PushHead` | src/logic/snake/snake.ts:145-149 | pushing the head, recording the move and emitting is the rules' advance step |
| `SnakeGame.Snake.PlaceFood` | src/logic/snake/snake.ts:152-164 | the result and the new state are those of the rules' food placement |
| `SnakeGame.Snake.SetDirection` | src/logic/snake/snake.ts:166-172 | the direction becomes the request unless that reverses the last move |
| `SnakeGame.Snake.ConstrainInBoard` | src/logic/snake/snake.ts:174-186 | the truncating remainder followed by the sign correction lands on the wrapped cell |
| `SnakeGame.Snake.IsTail` | src/logic/snake/snake.ts:188-190 | true exactly when some segment occupies the cell |
| `SnakeGame.Snake.GetOpenTiles` | src/logic/snake/snake.ts:192-205 | the nested loops build the open-tile list, which holds every free on-board cell once |
| `Leaderboard.Truncate` | src/data/leaderboard/firestore-leaderboard-provider.ts:48 | the result is a prefix of the name, of length 12 or the whole name when shorter |
| `Leaderboard.RemoveNewlines` | src/data/leaderboard/firestore-leaderboard-provider.ts:49 | the regex scan with CR LF tried first; no contract of its own, `RemoveNewlinesIsFilter` proves it equal to `WithoutNewlines` |
| `Leaderboard.WithoutNewlines` | src/data/leaderboard/firestore-leaderboard-provider.ts:49 | the filtered name holds no CR or LF, is no longer than the input, and equals it when it had none |
| `Leaderboard.RemoveNewlinesIsFilter` | src/data/leaderboard/firestore-leaderboard-provider.ts:49 | the regex scan, with CR LF matched as a pair, deletes exactly the CR and LF characters |
| `Leaderboard.WithoutNewlinesSubsequence` | src/data/leaderboard/firestore-leaderboard-provider.ts:49 | removing line breaks only deletes characters |
| `Leaderboard.SkipTag` | src/data/leaderboard/firestore-leaderboard-provider.ts:50 | what remains after a tag's body is a suffix of the text |
| `Leaderboard.StripTags` | src/data/leaderboard/firestore-leaderboard-provider.ts:50 | the stripped text holds no `<` and is no longer than the input |
| `Leaderboard.StripTagsSubsequence` | src/data/leaderboard/firestore-leaderboard-provider.ts:50 | tag stripping only deletes characters |
| `Leaderboard.StripTagsPrefix` | src/data/leaderboard/firestore-leaderboard-provider.ts:50 | text with no `<` in front of the rest is kept as it is |
| `Leaderboard.SkipTagPast` | src/data/leaderboard/firestore-leaderboard-provider.ts:50 | a tag body without `>` is consumed through the next `>`, or to the end if none follows |
| `Leaderboard.StripTagsClosedTag` | src/data/leaderboard/firestore-leaderboard-provider.ts:50 | a `<…>` run disappears with its brackets; the `<`-free text before it is kept, and the text after it is stripped in turn |
| `Leaderboard.StripTagsOpenTag` | src/data/leaderboard/firestore-leaderboard-provider.ts:50 | an unclosed `<` removes everything after it |
| `Leaderboard.SanitizeName` | src/data/leaderboard/firestore-leaderboard-provider.ts:46-50 | the three steps in the source's order; no contract of its own, `SanitizeNameSpec`, `CleanNameUnchanged` and `SanitizeNameIdempotent` state its behaviour |
| `Leaderboard.SanitizeNameSpec` | src/data/leaderboard/firestore-leaderboard-provider.ts:46-50 | the shown name has at most 12 characters, is a subsequence of the first 12 stored characters, and holds no CR, LF or `<` |
| `Leaderboard.CleanNameUnchanged` | src/data/leaderboard/firestore-leaderboard-provider.ts:46-50 | a name of at most 12 characters without CR, LF or `<` is shown unchanged |
| `Leaderboard.SanitizeNameIdempotent` | src/data/leaderboard/firestore-leaderboard-provider.ts:46-50 | sanitising a shown name again changes nothing |
| `Leaderboard.ClampNonNegative` | src/data/leaderboard/firestore-leaderboard-provider.ts:53 | `Math.max(0, v)` is at least 0 and at least v, and is one of them |
| `Leaderboard.ToEntry` | src/data/leaderboard/firestore-leaderboard-provider.ts:45-58 | an entry has the sanitised name, at most 12 characters long, time and score at least 0 and equal to the stored values when those are not negative, and a date of exactly the stored seconds in milliseconds |
| `Leaderboard.ToEntries` | src/data/leaderboard/firestore-leaderboard-provider.ts:44-58 | `ToEntry` applied to each document in order; no contract of its own, `EntriesClean` states what every entry satisfies |
| `Leaderboard.EntriesClean` | src/data/leaderboard/firestore-leaderboard-provider.ts:44-58 | one entry per document, each with the sanitised name, which holds no CR, LF or `<`, and with non-negative time and score |
| `Leaderboard.ListQuery` | src/data/leaderboard/firestore-leaderboard-provider.ts:25-39 | the query keeps the order and limit, and the fall-through switch adds exactly the filters listed for the period |
| `Leaderboard.PeriodSelects` | src/data/leaderboard/firestore-leaderboard-provider.ts:29-38 | a stored entry passes a day listing iff its UTC date is today; a month listing iff month and year match; a year listing iff the year matches; an all-time listing always |

## Left out

- Timing: the `time` getter, `timeStarted`/`timeEnded`, `end()`, and the `setInterval` in `start()` are wall-clock and timer plumbing. `update()` is an explicit method, and `start()` only places the first food.
- `Math.random()` is the parameter `random`, a real in [0, 1).
- The `EventEmitter` base class is an appended log of events. Listeners are not modelled.
- src/logic/math/vector2.ts is not part of this model. `Vector2` is taken to hold integers, so `equalsWithMargin(v, .1)` is equality, `round()` and `getCopy()` are the identity, and `UP`, `DOWN`, `LEFT` and `RIGHT` are assumed to be (0, 1), (0, -1), (-1, 0) and (1, 0). Floating-point coordinates are not modelled.
- The default `new Vector2()` for `foodPosition` (src/logic/snake/snake.ts:18) is taken to be (0, 0). `Inv` relies on that cell being on the board before `Start` places the first food.
- `scale`, `floor`, `add` and `addXY` are taken to return new vectors and leave their receiver unchanged. If `scale` changed its receiver, src/logic/snake/snake.ts:39 would also halve the board size; that aliasing is not modelled.
- `SnakeGame.Snake.GetTailPosition` takes an integer index. In the source a fractional index passes the range check and then throws on the array access; that case is not modelled.
- Thrown errors are values: the constructor's refusal is `Create` returning `None`, `update()` on a finished game returns `false`, and `getTailPosition` out of range returns `None`.
- `SnakeGame.Snake.Update` runs the statements of `update()` in their order but grouped into three private methods (`TakeQueuedDirection`, `EatOrSlide`, `PushHead`) so that each is proved on its own.
- Leaderboard I/O is not modelled: Firestore `collection`, `orderBy`, `limit`, `where` and `onSnapshot`, the RxJS `Observable`, and the network write of `createEntry`. `ListQuery` records the query it would send, and the current date is the parameter `now`. `PeriodSelects` takes a stored entry's `utcDay`, `utcMonth` and `utcYear` fields as `createEntry` writes them.
- `"" + docSnap.data()["name"]` turns any stored value into a string. The model takes the stored name to be a string already.
- `Leaderboard.ToEntry`: time and score are integers. `Math.max` on `NaN`, a missing field or a fractional number is not modelled, and neither are the timestamp's nanoseconds.
- Names are sequences of characters. JavaScript counts UTF-16 code units in `substr`, so cutting a surrogate pair in half is not modelled.
- The presentation files (scenes, PIXI rendering, key listeners) and the pass-through leaderboard repository and interface have no logic to model.
