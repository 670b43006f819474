# Hand-gesture demos: lane-dodge session and rock-paper-scissors rules

This project models the decision logic of two browser demos that are driven by
hand tracking.

**Lane-dodge game (script.js).** A car sits in one of three lanes. Pairs of
obstacles spawn at the top and fall. Each obstacle has its own timer, and on
each firing it does one of three things:
- it leaves the playfield and scores a point, and every fifth point raises the speed;
- it hits the car, which ends the game;
- it moves down.

The hand tracker moves the car by mapping the wrist's x-coordinate to a lane.
The start and restart buttons reset the session.

- `lane_rules.dfy` (module `LaneRules`) states the session on values. It has the
  `Session` record, one step function per callback (`PollStep`, `SpawnStep`,
  `TickStep`, `Started`), the state invariant `Valid`, and the lemmas. Each
  callback runs to completion as one atomic step. The lemmas cover single steps
  and any run of steps (`Run`).
- `lane_game.dfy` (module `LaneGame`) holds the same state the way the script
  does: the mutable fields of a `Game` object. The methods `MapLane`, `Spawn`,
  `Tick`, `Start` and `Restart` follow the script's statements. Each method
  proves that its new state equals the matching step function applied to the
  old state, and that it keeps `Valid`.

**Rock-paper-scissors (game.js)**, module `RockPaperScissors`, is modelled as
pure functions:
- the winner of a round, checked against an independent cyclic rule (`Beats`);
- the gesture classifier over the 21 hand landmarks;
- the computer's random pick;
- the three texts one frame of results puts on screen.

Units and representations:
- The speed is an integer count of hundredths of a pixel per tick: 200 at a
  reset, plus 33 per step.
- Obstacle positions are the integers that `parseInt` reads back from the
  `style.top` text. An advancing obstacle therefore moves to the integer part
  of top + speed (`IntegerPart`).
- Horizontal collision compares pixel offsets `lane*109 + 27`. `LaneLeft`
  proves that this comparison is exactly lane equality.
- The playfield height (`game.offsetHeight`) is a parameter of `Spawn` and
  `Tick`, because the script reads it from the page on every firing.

Timers and game over, as the script has them:
- Game over clears only the colliding obstacle's timer and `gameInterval`
  (script.js:156, 162). The other obstacles' timers keep running. So `Spawn`
  and `Tick` are not gated on `gameOver`.
- `startGame` and `restartGame` start a new spawner interval without clearing
  an older one (script.js:57, 101).
- Game over hides the game area (script.js:157), after which the page reports
  height 0. A listed obstacle whose timer still runs then never collides, and
  it scores within two ticks (`HiddenPlayfieldScoresWithinTwoTicks`). An
  obstacle at top 0 first advances, and any other is off screen at once. The
  obstacle that collided stays in the list but never ticks again.
- The speed step is 0.33 px (script.js:147).
- Tops are read back with `parseInt` on every tick (script.js:132, 166), so
  positions stay integers.

## Model

| member | source | states |
|---|---|---|
| `LaneRules.LaneOf` | script.js:70-76 | the lane is always 0, 1 or 2; it is 0 iff x < W/3, 1 iff W/3 <= x < 2W/3, and 2 otherwise |
| `LaneRules.LaneOfMonotone` | script.js:70-76 | moving the wrist to the right never moves the car to a lane further left |
| `LaneRules.LaneLeft` | script.js:121 | the pixel left offset of a lane gives back the lane (divide by 109) and the centring margin 27 (remainder) |
| `LaneRules.SameLeftIffSameLane` | script.js:153 | equal left offsets of obstacle and car happen exactly when their lanes are equal |
| `LaneRules.IntegerPart` | script.js:132 | parseInt of a value given in hundredths is that value's integer part, truncated toward zero, for either sign |
| `LaneRules.Loaded` | script.js:27-34 | the script's initial values make a valid session with no spawner running and no game over |
| `LaneRules.Started` | script.js:37-44 | after a start or restart: score 0, speed 2 px, no obstacles, car in lane 1, spawner running, not over, and the invariant holds |
| `LaneRules.PollStep` | script.js:65-76 | a detected wrist changes only the car lane, to LaneOf(x, width); no hand changes nothing |
| `LaneRules.SpawnStep` | script.js:104-128 | only the obstacle list changes, and it grows by two exactly when the gate is open (details in SpawnGate) |
| `LaneRules.SpawnGate` | script.js:104-128 | if the newest obstacle's top (or the height when there is none) exceeds 190, exactly the two obstacles (laneA, 0) and (laneB, 0), in different lanes, are appended after the unchanged earlier ones and nothing else changes; otherwise nothing changes |
| `LaneRules.ReachesCar` | script.js:151-154 | the obstacle's span reaches the car's exactly when H - 200 <= top < H - 20 for playfield height H |
| `LaneRules.Branch` | script.js:139-154 | the off-screen branch is taken iff top > H; the collision branch iff not off screen, top + 90 >= car top, top < car bottom and the two left pixel offsets are equal |
| `LaneRules.SpeedAfterScoring` | script.js:146-148 | the speed never falls, and if it was one step per multiple of five of the old score it is one step per multiple of five of the new score |
| `LaneRules.TickStep` | script.js:131-168 | a tick never moves the car, raises the score by at most one, never lowers the speed, and removes an obstacle exactly when it scores (branches in TickOffScreen, TickCollision, TickAdvance) |
| `LaneRules.RemoveAt` | script.js:142 | removing the ticking obstacle leaves one fewer, the others in their original order, and the same multiset less that obstacle |
| `LaneRules.TickOffScreen` | script.js:139-148 | an obstacle below the playfield is removed with the others kept in order; the score rises by exactly 1; the speed rises by one step iff the new score is a multiple of 5 and is otherwise unchanged; car and flags are unchanged |
| `LaneRules.TickCollision` | script.js:150-162 | an on-screen obstacle whose span reaches the car's (top + 90 >= H - 110 and top < H - 20) in the car's lane sets game over and stops the spawner, and leaves score, speed, car and obstacles unchanged |
| `LaneRules.TickAdvance` | script.js:164-167 | otherwise only this obstacle's top changes, to the integer part of top + speed; in a valid session it moves strictly down, by at most the speed |
| `LaneRules.HiddenPlayfieldScoresWithinTwoTicks` | script.js:139-166 | with the page height at 0, a tick of a listed obstacle never collides, and an obstacle that advances is off screen at its next tick |
| `LaneRules.TickKeepsValid` | script.js:130-169 | every tick keeps the invariant: score >= 0, speed = 200 + 33 * (score / 5), car and obstacles in lanes 0..2, tops >= 0 |
| `LaneRules.SpawnKeepsValid` | script.js:104-128 | every spawn keeps the invariant |
| `LaneRules.StepKeepsValid` | script.js:61-169 | every callback (hand poll, spawn, tick, start, restart) keeps the invariant |
| `LaneRules.RunKeepsValid` | script.js:143-148 | along any run of callbacks the invariant holds, so the speed has risen by exactly one step per multiple of 5 scored |
| `LaneRules.StepNeverLowersScoreOrSpeed` | script.js:139-167 | a callback other than a reset raises the score by at most 1 and lowers neither score nor speed |
| `LaneRules.RunNeverLowersScoreOrSpeed` | script.js:130-169 | between resets, score and speed never decrease, and the score rises by at most one per callback |
| `LaneGame.Game.constructor` | script.js:27-34 | the object starts in the script's initial state |
| `LaneGame.Game.MapLane` | script.js:65-78 | a detected wrist sets the car lane to LaneOf(x, width); no hand changes nothing; the invariant is kept |
| `LaneGame.Game.Spawn` | script.js:104-128 | the gated loop that pushes one obstacle per accepted lane ends in the state SpawnStep describes and keeps the invariant |
| `LaneGame.Game.Tick` | script.js:130-169 | the tick, with its pixel-offset comparison, ends in the state TickStep describes and keeps the invariant |
| `LaneGame.Game.Start` | script.js:37-57 | startGame's state updates give the Started state |
| `LaneGame.Game.Restart` | script.js:88-101 | restartGame's state updates give the Started state |
| `RockPaperScissors.RandomIndex` | game.js:23 | floor(3r) for 0 <= r < 1 lies in 0..2 and is the integer part of 3r |
| `RockPaperScissors.GetRandomMove` | game.js:21-24 | the move drawn for index i is the one at position i of the moves array, so every index gives Rock, Paper or Scissors |
| `RockPaperScissors.DetermineWinner` | game.js:26-34 | the result is Draw iff the moves are equal, You Win! iff the user's move beats the computer's under the cyclic rule, and Computer Wins! iff the computer's move beats the user's |
| `RockPaperScissors.BeatsIsTheWinningPairs` | game.js:28-32 | the cyclic rule holds exactly for (Rock, Scissors), (Paper, Rock) and (Scissors, Paper) |
| `RockPaperScissors.WinnerSwap` | game.js:26-34 | swapping the moves turns You Win! into Computer Wins! and back, and keeps Draw |
| `RockPaperScissors.ExactlyOneAnswerPerOutcome` | game.js:26-34 | for each user move and each result there is exactly one computer move giving that result |
| `RockPaperScissors.FingerComparisons` | game.js:47-49 | each per-finger statement is the same as the four literal landmark comparisons of the source |
| `RockPaperScissors.IsFist` | game.js:47 | a fist is every fingertip below its knuckle (landmarks 8/5, 12/9, 16/13, 20/17) |
| `RockPaperScissors.IsOpenHand` | game.js:48 | an open hand is every fingertip above its middle joint (8/6, 12/10, 16/14, 20/18) |
| `RockPaperScissors.IsTwoFingers` | game.js:49 | two fingers is index and middle tips above their middle joints and ring and little tips below theirs |
| `RockPaperScissors.TwoFingersExcludesOpenHand` | game.js:48-49 | the two-finger and open-hand predicates never hold together |
| `RockPaperScissors.RecognizeGesture` | game.js:36-55 | Rock iff the fist predicate holds; Scissors iff not a fist and two fingers; Paper iff not a fist and an open hand; no move iff none of the three predicates holds |
| `RockPaperScissors.OnResults` | game.js:69-94 | with no hand: No Hand Detected / None / Waiting...; with an unrecognised hand: Unrecognized / None / Waiting...; otherwise the user's move, the drawn computer move, and the winner of exactly those two moves |
| `RockPaperScissors.WaitingIffNoComputerMove` | game.js:76-92 | the computer move shows None exactly when the result shows Waiting... |

## Left out

- Camera acquisition and video playback (`getUserMedia`, `play`). These are browser I/O.
- The handpose and MediaPipe Hands models. Their output is an input here: the wrist x-coordinate as an `Option`, and the list of detected hands as landmark sequences.
- `setInterval` scheduling, timer cancellation, and the order in which timers fire. Each callback is one atomic step, and any order of steps is allowed (`Run`).
- The spawner flag records only whether the interval held in `gameInterval` is live. Leftover intervals from repeated starts are not counted.
- Ticks of obstacles that a restart has already dropped from the obstacle list. Their timers keep firing in the script, but the model only ticks listed obstacles.
- The removal by identity at script.js:142 is modelled as removing the ticking obstacle's position in the list. Each obstacle object is pushed once, so the two agree.
- DOM and canvas effects: style strings, display toggles, text content, and drawing the landmarks. Only the numbers and lanes they encode are kept.
- `Math.random` and the rejection-sampling `do…while` loop. The lanes it settles on are parameters that must be distinct and in 0..2. Its termination is not modelled.
- Floating point. Lane thresholds are exact real comparisons. The speed is kept in exact hundredths, so rounding in repeated `+= 0.33` is not modelled.
- Hands with fewer than 21 landmarks. The hand model always reports 21. The `try/catch` path that a shorter list would take in the results handler is not modelled.
- `console.log` and `console.error` calls.
