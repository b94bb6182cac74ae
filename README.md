# Dino game: a verified model of the per-frame game logic

This project models the frame logic of `DinoGame`, a side-scrolling dinosaur game built on a
2D pixel engine. It covers the game state and the rules for changing it. Drawing is not
modelled.

- **Score and blink.** The score rises on a three-frame animation cadence. Every hundredth
  point starts a four-second blink. The read-out shows the score, padded to five digits,
  with the best score behind the letters "HI".
- **Runs and jumps.** The keyboard starts a run, makes the dinosaur jump and makes it duck.
  A jump follows a parabola that lasts 0.75 s.
- **Obstacles.** Cacti and pteranodons scroll in from the right edge at the ground speed
  and pteranodons flap their wings. They are filtered out once off screen. New ones are
  spawned only once the last obstacle has left room for a full jump. Cacti may come as a
  row of one to four.
- **Clouds.** Clouds drift, are filtered, and are capped at five.
- **Collisions.** The player's bounding box is tested against every obstacle. The first
  overlap ends the run: the best score is raised and the per-run counters reset.

The game object is the class `Game.DinoGame`. Its fields are the ones the game changes in
place. The obstacle and cloud vectors are `seq` fields that its methods reassign.

- Loops stay loops: the digit and padding loops of `drawNumber`, the cactus-row loop of
  `addCactus`, the cloud drift loop, the obstacle flap and scroll loops, the collision
  scan, and `remove_if`. The collision scan is proved against an existential over the
  obstacles (a hit exactly when some obstacle overlaps, at the first such one). Each of
  the others is proved against a function that specifies it.
- Each random draw a frame makes is an input. They are collected in `Game.Rolls`, whose
  cactus part is `Obstacles.CactusRolls`.
- Sprite sizes are positive integers held in `Sprites.Assets`.
- Times and positions are `real`.

Modules:

| module | covers |
|---|---|
| `Geometry` | rectangles and the overlap test |
| `Sprites` | the sprite sizes |
| `Player` | frames, the jump arc, the player's rectangle |
| `ScoreDisplay` | `drawNumber`, the blink phase, the read-out |
| `Vectors` | `remove_if` followed by a single `erase` |
| `Obstacles` | obstacles, flap, scroll, spawn rules, the cactus row, the collision scan |
| `Clouds` | clouds |
| `Game` | the timers and the class |

Three behaviours of this revision of the code are modelled as written:

- The ground speed never ramps up. It starts at 500 and is only ever reset to 500, so the
  jump length is always 375.
- The off-screen filter removes at most one element per call, even when several are off
  screen, because it erases a single position after `remove_if`.
- The animation timer keeps running while the game is over, because it is fed the real
  frame time, while the score, clouds and obstacles are fed zero.

## Model

| member | source | states |
|---|---|---|
| Geometry.RectAt | game.cpp:163-171 | a sprite at (x, y) of size w x h spans exactly w by h from its top-left corner |
| Geometry.OverlapsIffCommonPoint | game.cpp:173 | for proper rectangles, the four-way separation test fails exactly when the two rectangles share a point |
| Geometry.OverlapsSymmetric | game.cpp:173 | the collision test gives the same answer with enemy and player swapped |
| Geometry.Separated | game.cpp:173 | the separation test exactly as written: enemy right of the player, player right of the enemy, enemy below or player below |
| Geometry.Overlaps | game.cpp:173-174 | a collision is the negation of that test |
| Geometry.TouchingCollide | game.cpp:173 | rectangles that only touch count as colliding, because the comparisons are strict: a shared vertical edge with meeting vertical extents, a shared horizontal edge with meeting horizontal extents, or a shared corner |
| Sprites.Assets.Cactus | game.cpp:462-468 | "cactus_1".."cactus_9" all have positive size |
| Sprites.Assets.Pteranodon | game.cpp:469-470 | "pteranodon_1" and "pteranodon_2" have positive size |
| Sprites.Assets.Dino | game.cpp:107-109 | every "dino_<n>" frame has positive size |
| Player.JumpHeight | game.cpp:112 | the jump parabola -maxJumpHeight * (t * t - 0.75 * t) |
| Player.JumpArc | game.cpp:111-112 | the jump height is 0 at t = 0 and at t = 0.75 and never negative in between; its only maximum is at t = 0.375 |
| Player.ArcIsShiftedSquare | game.cpp:112 | the parabola equals its peak value minus maxJumpHeight * (t - 0.375)^2 |
| Player.ArcBelowPeak | game.cpp:112 | away from the midpoint the arc is strictly below its peak |
| Player.PlayerRect | game.cpp:107-114 | the player's box is proper, starts at x = 60 and has the frame's size; its bottom is never below the ground line screenHeight - 8, and it sits exactly on that line when the jump timer is 0 |
| ScoreDisplay.Digits | game.cpp:244-252 | the digits the loop peels off are each 0..9 with no leading zero, and there are none exactly when num <= 0 |
| ScoreDisplay.DigitsValue | game.cpp:244-252 | reading the peeled digits back gives num (round trip) |
| ScoreDisplay.ValueDigits | game.cpp:244-252 | every digit row without a leading zero is the peeled form of its value (the other direction of the round trip) |
| ScoreDisplay.ValueZeroPadded | game.cpp:254-258 | padding zeros on the most-significant side do not change the value shown |
| ScoreDisplay.ColumnClosedForm | game.cpp:249-257 | after k images the next goes at screenWidth - offset - k * digit width |
| ScoreDisplay.NumberGlyphs | game.cpp:237-259 | what drawNumber draws: the k-th image is the k-th least significant digit of num, or a padding zero, at screenWidth - offset - k * digit width, with max(number of digits, pad) images in all |
| ScoreDisplay.NumberReadsBack | game.cpp:237-259 | drawNumber draws max(number of digits, pad) images, and they read back as num (as 0 for num <= 0) |
| ScoreDisplay.NumberRightAligned | game.cpp:249-257 | the k-th image is at x = screenWidth - offset - k * digit width |
| ScoreDisplay.NonPositiveDrawsZeros | game.cpp:244-258 | for num <= 0 exactly pad zero images are drawn |
| ScoreDisplay.DrawNumber | game.cpp:237-259 | the two loops draw exactly the images the specification function gives |
| ScoreDisplay.DrawDigits | game.cpp:242-252 | the digit loop draws one image per digit, least significant first, and ends with count equal to the number of digits and addedOffset at the next free column |
| ScoreDisplay.DrawPadding | game.cpp:254-258 | the padding loop adds zero images until max(count, pad) images are drawn |
| ScoreDisplay.DigitStep | game.cpp:246-251 | one pass of the digit loop keeps the invariant: the digits left are those of num / 10, and the image drawn is the next one in the row |
| ScoreDisplay.CenturyValue | game.cpp:218 | the value shown while blinking is the multiple of 100 at or just below the score |
| ScoreDisplay.BlinkVisible | game.cpp:216 | the blink test ((int)(scoreTimer * 3)) % 2 == 0, with the truncation written as Floor (the same for a non-negative timer) |
| ScoreDisplay.BlinkPhase | game.cpp:216 | the blinking score is visible exactly during the even thirds of a second |
| ScoreDisplay.Scoreboard | game.cpp:204-234 | the read-out DrawScore draws: the current score (its hundred, and only in the visible phase, while blinking) at offset 2 digit widths from the right edge, then, when the best score is positive, the best score at offset 8 widths and "I" and "H" at offsets 14 and 15 widths |
| ScoreDisplay.GlyphRowStep | game.cpp:249-257 | each further image extends the row drawn so far by the image for the next position |
| ScoreDisplay.DigitsSuffix | game.cpp:246-247 | num % 10 is the next digit of the row, and num / 10 holds the rest |
| Vectors.WithoutMembers | game.cpp:312-316 | the survivors are exactly the elements the predicate keeps, and there are no more of them than before |
| Vectors.WithoutKeepsAll | game.cpp:312-316 | the filter returns the whole sequence exactly when nothing is off screen |
| Vectors.RemoveIf | game.cpp:312-316 | remove_if moves the survivors, in order, to the front; the returned end marks them; every entry is an element of the old vector |
| Vectors.RemoveIfEraseOne | game.cpp:309-318 | after remove_if and erase(i), the survivors come first in order; the vector shrinks by one when something was off screen and is unchanged otherwise |
| Vectors.SingleDropIsExact | game.cpp:309-318 | when at most one element goes, the single erase leaves exactly the survivors |
| Vectors.TwoDropsLeaveLeftover | game.cpp:317 | when two elements go in one call, the vector keeps one entry more than the survivors |
| Vectors.DroppedShrink | game.cpp:312-316 | two off-screen elements shorten the survivors by at least two |
| Obstacles.EnemyRect | game.cpp:163-166 | the obstacle's box runs from its position to its position plus its sprite size |
| Obstacles.JumpLength | game.cpp:353 | int jumpLength = jumpDuration * groundSpeed, truncated (Floor, the same for a non-negative speed) |
| Obstacles.GapClear | game.cpp:354 | the spawn gate last.pos.x < screenWidth - last.width - jumpLength, shared by addPteranodon and addCactus (line 382) |
| Obstacles.Offscreen | game.cpp:315 | the obstacle filter's predicate pos.x < -width |
| Obstacles.BaseJumpLength | game.cpp:353 | at the ground speed of 500 the jump length (int)(0.75 * 500) is 375 |
| Obstacles.Flap | game.cpp:297 | a flap turns pteranodon picture 1 into 2 and 2 into 1, changes nothing else, leaves cacti alone, and keeps obstacles well formed |
| Obstacles.FlapTwice | game.cpp:297 | two flaps restore a well-formed obstacle |
| Obstacles.FlapAll | game.cpp:295-298 | flapping the vector keeps its length and order; only picture indices change |
| Obstacles.FlapAllTwice | game.cpp:295-298 | flapping the vector twice restores it |
| Obstacles.ScrollAll | game.cpp:301-307 | scrolling keeps length and order and moves each obstacle's x by -dx, nothing else |
| Obstacles.NewPteranodon | game.cpp:335-348 | the new pteranodon enters at x = screenWidth with picture 1 or 2 and that picture's size; it flies low above a ducking dinosaur on an odd height roll and high on an even one |
| Obstacles.CactusAt | game.cpp:373-376 | a new cactus has its picture's size and stands with its bottom 4 pixels above the bottom of the screen |
| Obstacles.PassRuns | game.cpp:399 | the cluster loop's test i < rand() % 4 + 1, with the bound drawn afresh for pass i |
| Obstacles.Variant | game.cpp:401 | cluster cacti are always pictures 1..8 |
| Obstacles.StopPass | game.cpp:399-400 | the cluster loop stops after at most four passes |
| Obstacles.Cluster | game.cpp:397-408 | the cluster has 1..4 cacti (at least one unless the jump length is negative), standing on the ground, laid end to end from the right edge |
| Obstacles.LayCluster | game.cpp:397-408 | the cluster loop, with its re-drawn bound and its break, lays exactly the cluster the specification function gives |
| Obstacles.PassesBeforeStopRan | game.cpp:399-400 | every pass before the stopping one had a bound allowing it and a row no wider than the jump length |
| Obstacles.ClusterWithinJump | game.cpp:400-405 | no cactus of a cluster starts more than one jump length beyond the right edge |
| Obstacles.CactusSpawn | game.cpp:364-412 | addCactus appends nothing exactly when the list is non-empty and the gap is not clear; it appends at most 4 well-formed cacti on the ground, the first at the right edge; "cactus_9" only comes alone, on a non-empty list, and no wider than a jump |
| Obstacles.PteranodonSpawn | game.cpp:330-362 | addPteranodon appends exactly one pteranodon when the list is empty or the gap is clear, and nothing otherwise |
| Obstacles.SpawnLeavesJumpRoom | game.cpp:354 | whatever either spawner appends behind an obstacle starts more than a jump length beyond that obstacle's right end |
| Obstacles.FindOverlap | game.cpp:161-174 | the scan reports a hit exactly when some obstacle overlaps the player, and it stops at the first one |
| Clouds.Offscreen | game.cpp:435 | the cloud filter's predicate pos.x < -cloudWidth |
| Clouds.CloudGateOpen | game.cpp:449-456 | a cloud may enter when there is none, or the last one is left of screenWidth - 3 * cloudWidth / 2 (integer division) |
| Clouds.DriftAll | game.cpp:423-427 | drifting keeps the number and order of clouds and moves only x, by -dx |
| Clouds.CloudSpawn | game.cpp:440-459 | a cloud is appended, at (screenWidth, y), exactly when the run has started, the roll hits, fewer than five are up and the last cloud is left of screenWidth - 3 * cloudWidth / 2; never more than one |
| Clouds.CloudCap | game.cpp:441 | spawning never takes the cloud count above five |
| Clouds.CloudSpacing | game.cpp:456 | a new cloud enters more than one cloud width to the right of the previous one |
| Game.BlinkStep | game.cpp:193-202 | the blink keeps its timer within 0..4 s; it starts on a positive multiple of 100, accumulates time and ends once more than 4 s have accumulated; otherwise nothing changes |
| Game.NextFrame | game.cpp:91-100 | the frame is always in {1,2,3,4,6,7,8}; the priority is game over, then jumping, then ducking (7 and 8 alternate), then running (3 and 4 alternate), then standing (2 on a blink roll) |
| Game.AnimationAlternates | game.cpp:96-98 | while ducking or running, two animation steps return to the same frame |
| Game.JumpStep | game.cpp:132-140 | the jump timer stays within 0..0.75 s; it is frozen when not jumping or when the game is over, and the jump lands once more than 0.75 s have accumulated |
| Game.GroundedUnlessJumping | game.cpp:111-114 | when not jumping, the player stands on the ground line |
| Game.EnemySpawn | game.cpp:320-327 | nothing spawns below a score of 25 or on a missed roll; otherwise addCactus when the kind roll % 200 exceeds 50, else addPteranodon; all new obstacles are well formed and at or right of the edge |
| Game.CactusSpawnAtEdge | game.cpp:403-407 | every cactus addCactus appends starts at or right of the screen edge |
| Game.RowRisesAlong | game.cpp:405-407 | in a row laid end to end with positive widths, every later cactus starts right of the first |
| Game.DinoGame.Valid | game.cpp:16-51 | the frame invariant: ground speed 500, a frame the animation can show, never both started and over, score 0 outside a run, the timers within their periods, consistent blink and jump states, at most five clouds, every obstacle well formed |
| Game.DinoGame.constructor | game.cpp:16-51 | a new game stands on frame 1 with nothing on screen, at ground speed 500, with every counter, timer and flag at zero or false |
| Game.DinoGame.DrawScore | game.cpp:191-235 | the blink timer steps as BlinkStep says, and the read-out is drawn only during or after a run |
| Game.DinoGame.ReadOut | game.cpp:204-234 | draws the current score (its hundred, in the visible phase, while blinking), then the best score and the letters "I" and "H" once a best score exists |
| Game.DinoGame.DriftClouds | game.cpp:423-427 | every cloud has drifted by dx |
| Game.DinoGame.DrawClouds | game.cpp:414-460 | after drift and filter the survivors come first in order, at most one cloud is lost and every cloud left is a drifted one; then the cloud spawn is appended; at most five clouds remain |
| Game.DinoGame.SpawnCloud | game.cpp:440-459 | the list gains exactly what CloudSpawn says and stays at five or fewer |
| Game.DinoGame.FlapWings | game.cpp:295-298 | every pteranodon has flapped |
| Game.DinoGame.ScrollEnemies | game.cpp:301-307 | every obstacle has moved by dx |
| Game.DinoGame.AddPteranodon | game.cpp:330-362 | the vector gains exactly the pteranodon spawn, and existing obstacles are untouched |
| Game.DinoGame.AddCactus | game.cpp:364-412 | the vector gains exactly the cactus spawn, and existing obstacles are untouched |
| Game.DinoGame.TickWings | game.cpp:290-299 | once more than five frame periods have passed, the timer resets and all pteranodons flap |
| Game.DinoGame.CullEnemies | game.cpp:309-318 | after the filter the survivors come first in order, at most one obstacle is lost, every obstacle left was there before, and all remain well formed |
| Game.DinoGame.SpawnEnemy | game.cpp:320-327 | the vector gains exactly what EnemySpawn says |
| Game.DinoGame.DrawEnemies | game.cpp:288-328 | the flap timer, then the scroll, then the filter (survivors first, at most one lost, every entry a scrolled obstacle), then the spawn, composed as above |
| Game.DinoGame.Animate | game.cpp:87-106 | every three frame periods the frame advances as NextFrame says, and the score rises by exactly one, only during a run |
| Game.DinoGame.HandleInput | game.cpp:117-130 | Space outside a run starts one with the obstacles cleared and always sets jumping; Down ducks only during a run; releasing Down stands up |
| Game.DinoGame.AdvanceJump | game.cpp:132-140 | the jump timer steps as JumpStep says |
| Game.DinoGame.EndRun | game.cpp:176-182 | the game is over, the best score becomes max(best, score), and the score, the blink and the ground speed are reset |
| Game.DinoGame.DetectCollision | game.cpp:160-185 | the run ends exactly when some obstacle overlaps the player, with the effects of EndRun; otherwise nothing changes |
| Game.DinoGame.OnUserUpdate | game.cpp:74-189 | one frame keeps the invariant; the best score never decreases; without Space a finished game stays over, and with Space it restarts, running and with no obstacles; a run still going has no obstacle overlapping the player; a run that just ended, including in the frame it started, has one |
| Game.DinoGame.UpdateScenery | game.cpp:76-81 | the score, cloud and obstacle updates keep the invariant |
| Game.DinoGame.UpdatePlayer | game.cpp:86-186 | the frame advances as NextFrame says every three periods and the rectangle is taken from that frame and the jump timer before the keyboard; then Space, Down and the jump timer act as HandleInput and JumpStep say; a finished game without Space stays over; otherwise, including on a restart from game over, the run ends exactly when an obstacle overlaps the rectangle (never on a restart, whose obstacle list is empty), with the score (one higher after a scoring step) moved into the best score |
| Game.DinoGame.React | game.cpp:117-186 | the keyboard and the jump timer as HandleInput and JumpStep say, then the collision test unless the game is still over (it runs on a restart from game over): the run ends exactly when an obstacle overlaps, and otherwise score and best score are kept |

## Left out

- Rendering is not modelled. This covers `Clear`, `DrawDecal`, the placement of the
  game-over and arrow sprites (game.cpp:142-157) and `DrawGround` with its `time`
  scroll (game.cpp:261-286). The model returns the score images as `Glyph` values and
  the player's box as a `Rect`.
- Asset loading (`OnUserCreate`), seeding the random generator, and `main` are not
  modelled. Sprite sizes are inputs, given as a `Sprites.Assets` value with positive sizes.
- `getSprite` is not modelled separately. It is a size lookup by kind and picture. Its null
  result cannot arise, because an obstacle's kind is always cactus or pteranodon.
- The random number generator and its distributions are not modelled. Each `rand()` result
  is an input, and the model keeps only the remainders the code takes. The cactus row
  needs five loop-bound rolls and four picture rolls (`Obstacles.ClusterRolls.Enough`).
- Floating point is not modelled. Times and positions are reals, so float rounding, `float`
  to `int` truncation of positions and the exact float comparisons of the timers are left
  out. The jump length `(int)(0.75 * groundSpeed)` is modelled with `Floor`, which is the
  same for a non-negative speed.
- The cloud's y, `rand() % (begin - end) + begin` (game.cpp:445-447), is an input. Its
  divisor may be negative or zero.
- Game.DinoGame.DrawClouds: the entries the single `erase` leaves after the survivors are
  only known to be drifted clouds. Their exact values are left unspecified, as
  `remove_if` leaves them.
- Game.DinoGame.DrawEnemies: the obstacles left behind the survivors are only known to be
  scrolled obstacles, for the same reason.
- Game.DinoGame.CullEnemies: likewise, the obstacles behind the survivors are only known to
  be old ones.
- Game.DinoGame.OnUserUpdate: its contract is the frame invariant, the restart and the
  end-of-run guarantees. The effect of each step is stated on the method that performs it.
- Game.DinoGame.UpdateScenery: states only that the invariant is kept. The score, cloud and
  obstacle effects are stated on DrawScore, DrawClouds and DrawEnemies.
- `score` and `maxScore` are 32-bit `int` in the source; the model's are unbounded. The
  score would wrap only after about 2^31 scoring steps (years of play), so no promise
  depends on it.
- The `enemies.size() > 0` and `clouds.size() > 0` guards before the filter are not
  modelled separately. On an empty vector the filter changes nothing either way.
