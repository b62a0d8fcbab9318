# Snake game: the game-state machine

A model of the logic of a single-screen snake game (`src/App.js`). The
snake's head moves 5 pixels per tick along its direction. It eats food that
lies within a small box around it, and the game ends when the head leaves the
playfield. Enter restarts the game after a game over. The source mixes this
logic with a scene-graph component. The model keeps only the state and its
transitions, as an immutable `State` and pure functions over it:

- `Geometry`: points, direction vectors, the four headings.
- `Food`: where food is placed. `Math.random()` is replaced by a caller-supplied
  `Roll` of two reals in [0, 1), floored exactly as the source does.
- `Tail`: the per-tick tail update (put the head in front, drop at most the last segment).
- `Collision`: the food test, the wall test and the self-collision scan.
- `Game`: the state, the four arrow handlers, eating, ending, one tick, Enter,
  one `Step` per input event, and the invariant every reachable state keeps.
- `Runs`: sequences of events. Covers reachability of the invariant, score and
  tail monotonicity, a frozen game after game over, the rightward run that
  ends on tick 256, and a two-key reversal.

The game-over overlay's `visible` flag is the phase. `GameOver(shown)` also
carries the score the overlay displays.

Behaviour of the code worth knowing, all of it modelled as written:

- The tail is not capped at 3. Each tick removes at most one segment, and
  eating appends one first, so every meal made with three or more segments
  lengthens the tail by one for good (`Tail.TickTailLength`,
  `Tail.EatKeepsWholeTail`).
- Eating with exactly two tail segments leaves the same length (three) as a
  tick without food. The appended segment is dropped again on that same tick.
- The no-reverse rule applies to one key press at a time. Each arrow handler
  tests the direction the previous key press may already have replaced. So
  two arrow keys within one tick can reverse the snake, e.g. Up then Left
  while heading right, and the next tick puts the head back on its own
  earlier position (`Runs.TwoKeysReverse`).
- The arrow handlers change the direction during a game over too. The next
  restart overwrites it.
- The self-collision scan exists but no tick calls it, so it does not end the
  game here either. It is modelled on its own. `Game.EarlyEatWouldSelfCollide`
  shows that, if it were called, a meal with fewer than two tail segments
  would end the game at once.
- Food and walls are not ordered by precedence. The food test runs first and
  the wall test second, so one tick can score and end the game. With food
  placed by the game this can only happen at the bottom wall
  (`Collision.FoodAndWallOnlyAtBottom`).

## Model

| member | source | states |
|---|---|---|
| `Food.Spawn` | src/App.js:117-120 | every food position lies in [30, 1829] x [30, 1029] |
| `Food.SpawnCovers` | src/App.js:119-120 | every point of that rectangle is produced by some pair of random numbers, so the range is exact |
| `Geometry.Move` | src/App.js:143-144 | along a unit direction one step covers exactly `speed` pixels on one axis and none on the other |
| `Geometry.MoveBack` | src/App.js:143-144 | a step along the opposite direction undoes a step |
| `Geometry.UnitIsHeading` | src/App.js:153-169 | the four unit vectors are exactly the vectors the four handlers store |
| `Game.Init` | src/App.js:100-122 | a new game has the head at (300, 300), direction (1, 0), an empty tail, score 0, food in range, and is playing |
| `Game.HandleDown` | src/App.js:153-157 | only the direction changes; it becomes (0, 1) or stays; from a unit direction the result is a unit direction and never the opposite of the old one |
| `Game.HandleLeft` | src/App.js:159-161 | as for Down, with (-1, 0) |
| `Game.HandleRight` | src/App.js:163-165 | as for Down, with (1, 0) |
| `Game.HandleUp` | src/App.js:167-169 | as for Down, with (0, -1) |
| `Game.ArrowIsNoReverseTurn` | src/App.js:153-169 | for every unit direction, the component tests of the four handlers are exactly the rule "turn unless the key points straight back" |
| `Collision.FoodHit` | src/App.js:172-176 | the offset box test is the same as the head lying in the 41 x 41 window from food - 320 to food - 280 on both axes |
| `Collision.HitsWall` | src/App.js:179-184 | the head is inside the walls exactly when it lies in [-300, 1579] x [-300, 739] |
| `Collision.FoodAndWallOnlyAtBottom` | src/App.js:171-186 | a head that touches in-range food while hitting a wall has 740 <= y <= 749, i.e. is at the bottom wall |
| `Collision.CheckSelfCollision` | src/App.js:189-197 | the scan reports a collision exactly when the head equals a tail segment at index 1 or later |
| `Collision.FirstSegmentIgnored` | src/App.js:189-197 | the first tail segment never affects the scan's answer |
| `Game.Eat` | src/App.js:199-204 | score rises by exactly 1; the tail keeps its segments and gains the head position at its end; new food is in range; head, direction and phase are unchanged |
| `Game.EndGame` | src/App.js:239-243 | the game is over and the overlay shows the score of that moment; nothing else changes |
| `Tail.UpdateTail` | src/App.js:206-212 | the head is at index 0; the old segments follow in order; only the last one is dropped, and only when the tail with the head in front holds more than 3, so a drop leaves at least 3; the length grows by one below 3 and stays the same from 3 on |
| `Tail.Append` | src/App.js:200 | eating's `push`: the old segments keep their places and the point is added at the end |
| `Tail.TickTailLength` | src/App.js:199-212 | the tail never shrinks in a tick; a tick that eats ends one segment longer than a plain tick, except from two segments where both end with three |
| `Tail.EatKeepsWholeTail` | src/App.js:199-212 | with two or more segments, a tick that eats yields the head followed by the entire old tail |
| `Game.Tick` | src/App.js:142-148 | the head moves by direction x 5 before any test; score +1 and new food exactly when the moved head touches the food; game over exactly when the moved head is outside the walls, showing the score including a meal on that tick; the tail is updated last, from the tail as eating left it |
| `Game.Enter` | src/App.js:226-237 | no effect while playing; after a game over, head (300, 300), direction (1, 0), empty tail, score 0, new food, playing |
| `Game.Step` | src/App.js:142-243 | arrow keys change only the direction, in every phase, following the no-reverse rule for unit directions; a tick during a game over changes nothing; only Enter leaves a game over; only a tick that puts the head outside the walls ends a game |
| `Game.InitInv` | src/App.js:106-122 | a new game satisfies the invariant (unit direction, food in range, first segment is the head, inside the walls while playing) |
| `Game.StepPreservesInv` | src/App.js:142-243 | every event preserves the invariant: direction always a unit vector, food always in range, head outside the walls exactly when the game is over, and the overlay shows the current score |
| `Game.StepScore` | src/App.js:199-237 | the score rises only by 1 on a tick that eats; it drops only when Enter resets it to 0 after a game over |
| `Game.GameOverFrozen` | src/App.js:239-243 | during a game over, ticks and arrow keys change nothing but the direction |
| `Game.StepTailNeverShrinks` | src/App.js:206-212 | no event other than Enter shortens the tail |
| `Game.EarlyEatWouldSelfCollide` | src/App.js:189-212 | a tick that eats with fewer than two segments leaves the head on a later tail segment, so the self-collision scan would report a hit |
| `Game.ScoreAndEndInOneTick` | src/App.js:171-186 | one tick can both score and end the game; the overlay then shows the new score |
| `Runs.RunPreservesInv` | src/App.js:142-243 | the invariant holds after any sequence of events |
| `Runs.ReachableInv` | src/App.js:100-243 | in every state reachable from a new game, the direction is one of the four unit vectors, food is in range, and the overlay shows the current score |
| `Runs.RunWithoutEnter` | src/App.js:142-212 | without Enter, the score never falls and rises by at most one per event, and the tail never shrinks |
| `Runs.TicksAfterGameOver` | src/App.js:239-240 | after a game over, any number of ticks leave the state unchanged |
| `Runs.RightwardTicks` | src/App.js:142-186 | heading right at y = 300, each tick moves the head 5 pixels right whatever it eats; the game ends exactly on the tick that reaches x = 1580 |
| `Runs.TicksFromStart` | src/App.js:110-186 | from a new game with no key pressed, the head is at (300 + 5k, 300) after k <= 256 ticks; the game is still on exactly when k < 256 |
| `Runs.RunAppend` | src/App.js:142-148 | running two event sequences one after the other is running their concatenation |
| `Runs.TicksBeyondWall` | src/App.js:142-186 | from a new game with no key pressed, after any k >= 256 ticks the head is at (1580, 300) and the game is over |
| `Runs.PlainTick` | src/App.js:142-148 | a tick that neither eats nor hits a wall changes only the head (moved by direction x 5) and the tail (updated with the moved head) |
| `Runs.TwoKeysReverse` | src/App.js:153-169 | heading right, Up then Left within one tick turn the snake to face left; the next tick puts the head back on a tail segment behind index 0, with the game still on |

## Left out

- Drawing is not modelled: the scene template, fonts, colours, the score text and the segment rectangles (src/App.js:4-98, 203, 214-223, 234, 241-242).
- The animation object that drives the game loop is not modelled (src/App.js:124-150, 228, 231, 240). Its `start`/`stop`/`stopNow` behaviour belongs to the rendering library. A tick is the function `Game.Tick`, and a tick event during a game over has no effect.
- Restart timing is not modelled. Whether the old loop has fully stopped before the new one starts is host scheduling.
- `Math.random` is a caller-supplied real in [0, 1). Reals are exact, so floating-point rounding of `random * 1800` is not modelled. That product stays below 1800 in double precision as well.
- Integers are unbounded. The coordinates stay in the thousands, well inside the integers a double holds exactly.
