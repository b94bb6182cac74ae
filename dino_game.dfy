/**
 * One frame of the game: the score read-out and its blink timer, the clouds, the
 * obstacles, the dinosaur's animation, the keyboard, the jump timer and the collision
 * test that ends a run. Everything the frame draws at random is passed in as Rolls.
 */
module Game {
  import opened Geometry
  import opened Sprites
  import opened Player
  import opened ScoreDisplay
  import opened Vectors
  import opened Obstacles
  import Clouds

  /** The game runs its animations against a 30 frames-per-second clock. */
  const Period: real := 1.0 / 30.0

  /** Enemies start to appear once the score reaches this. */
  const EnemyScore: int := 25

  /** The keys as the engine reports them for one frame. */
  datatype Keys = Keys(spacePressed: bool, downPressed: bool, downReleased: bool)

  /** The random draws, and the cloud's y, that one frame uses, in the order the frame uses them. */
  datatype Rolls = Rolls(
    cloudSpawn: nat, cloudY: real,
    enemySpawn: nat, enemyKind: nat,
    pteranodonHeight: nat, pteranodonIndex: nat,
    cactus: CactusRolls,
    blink: nat)
  {
    predicate Enough() {
      cactus.cluster.Enough()
    }
  }

  // ---------------------------------------------------------------- score blink

  /** The century blink: whether the score is blinking and for how long it has been. */
  datatype Blink = Blink(blinking: bool, timer: real)

  predicate BlinkOk(b: Blink) {
    0.0 <= b.timer <= 4.0 && (!b.blinking ==> b.timer == 0.0)
  }

  /**
   * One frame of the blink timer: a score that is a positive multiple of 100 starts a
   * blink, a blink accumulates the frame time and ends, with its timer reset, once more
   * than four seconds have accumulated.
   */
  function BlinkStep(score: int, b: Blink, dt: real): (r: Blink)
    requires BlinkOk(b) && dt >= 0.0
    ensures BlinkOk(r)
    ensures !(score > 0 && score % 100 == 0) && !b.blinking ==> r == b
    ensures (score > 0 && score % 100 == 0) || b.blinking ==>
              (r.blinking <==> b.timer + dt <= 4.0) && (r.blinking ==> r.timer == b.timer + dt)
  {
    if (score > 0 && score % 100 == 0) || b.blinking then
      if b.timer + dt > 4.0 then Blink(false, 0.0) else Blink(true, b.timer + dt)
    else b
  }

  // ---------------------------------------------------------------- animation

  /**
   * The frame the animation step picks, by priority: game over shows 6; a jump shows 1;
   * ducking alternates 7 and 8; running alternates 3 and 4; standing shows 1, or 2 (a
   * blink) when the roll is a multiple of 15.
   */
  function NextFrame(gameOver: bool, isJumping: bool, isDucking: bool, started: bool,
                     frame: int, blinkRoll: nat): (f: int)
    ensures f in DinoFrames
    ensures gameOver ==> f == 6
    ensures !gameOver && isJumping ==> f == 1
    ensures !gameOver && !isJumping && isDucking ==> (f == 7 || f == 8) && f != frame
    ensures !gameOver && !isJumping && !isDucking && started ==> (f == 3 || f == 4) && f != frame
    ensures !gameOver && !isJumping && !isDucking && !started ==>
              (f == 1 || f == 2) && (f == 2 <==> blinkRoll % 15 == 0)
  {
    if gameOver then 6
    else if isJumping then 1
    else if isDucking then (if frame == 7 then 8 else 7)
    else if started then (if frame == 3 then 4 else 3)
    else if blinkRoll % 15 != 0 then 1 else 2
  }

  /** Two animation steps in the running or ducking state come back to the same frame. */
  lemma AnimationAlternates(gameOver: bool, isJumping: bool, isDucking: bool, started: bool,
                            frame: int, blinkRoll: nat, nextRoll: nat)
    requires !gameOver && !isJumping && (isDucking || started)
    requires if isDucking then frame == 7 || frame == 8 else frame == 3 || frame == 4
    ensures NextFrame(gameOver, isJumping, isDucking, started,
                      NextFrame(gameOver, isJumping, isDucking, started, frame, blinkRoll), nextRoll) == frame
  {
  }

  // ---------------------------------------------------------------- jump

  /** The jump: whether the dinosaur is in the air and for how long it has been. */
  datatype Jump = Jump(jumping: bool, timer: real)

  predicate JumpOk(j: Jump) {
    0.0 <= j.timer <= JumpDuration && (!j.jumping ==> j.timer == 0.0)
  }

  /**
   * One frame of the jump timer: frozen while the game is over; otherwise a jump
   * accumulates the frame time and lands, with its timer reset, once more than the
   * jump duration has accumulated.
   */
  function JumpStep(j: Jump, gameOver: bool, dt: real): (r: Jump)
    requires JumpOk(j) && dt >= 0.0
    ensures JumpOk(r)
    ensures gameOver || !j.jumping ==> r == j
    ensures !gameOver && j.jumping ==>
              (r.jumping <==> j.timer + dt <= JumpDuration) && (r.jumping ==> r.timer == j.timer + dt)
  {
    if j.jumping && !gameOver then
      if j.timer + dt > JumpDuration then Jump(false, 0.0) else Jump(true, j.timer + dt)
    else j
  }

  /** Whenever the dinosaur is not in the air its rectangle stands on the ground line. */
  lemma GroundedUnlessJumping(dino: Size, screenHeight: int, j: Jump)
    requires Positive(dino) && JumpOk(j) && !j.jumping
    ensures PlayerRect(dino, screenHeight, j.timer).y1 == (screenHeight - 8) as real
  {
  }

  // ---------------------------------------------------------------- spawning

  /**
   * What DrawEnemies appends: nothing before the score reaches 25 or when the spawn roll
   * misses (roll % 200 != 0); otherwise addCactus when the kind roll % 200 exceeds 50,
   * addPteranodon when it does not.
   */
  function EnemySpawn(a: Assets, screenWidth: int, screenHeight: int, jumpLength: int,
                      score: int, enemies: seq<Enemy>, rolls: Rolls): (added: seq<Enemy>)
    requires a.Valid() && rolls.Enough()
    ensures score < EnemyScore || rolls.enemySpawn % 200 != 0 ==> added == []
    ensures score >= EnemyScore && rolls.enemySpawn % 200 == 0 && rolls.enemyKind % 200 > 50 ==>
              added == CactusSpawn(a, screenWidth, screenHeight, jumpLength, enemies, rolls.cactus)
    ensures score >= EnemyScore && rolls.enemySpawn % 200 == 0 && rolls.enemyKind % 200 <= 50 ==>
              added == PteranodonSpawn(a, screenWidth, screenHeight, jumpLength, enemies,
                                       rolls.pteranodonHeight, rolls.pteranodonIndex)
    ensures forall k :: 0 <= k < |added| ==> WellFormed(added[k]) && added[k].x >= screenWidth as real
  {
    if score >= EnemyScore && rolls.enemySpawn % 200 == 0 then
      if rolls.enemyKind % 200 > 50 then
        CactusSpawnAtEdge(a, screenWidth, screenHeight, jumpLength, enemies, rolls.cactus);
        CactusSpawn(a, screenWidth, screenHeight, jumpLength, enemies, rolls.cactus)
      else
        PteranodonSpawn(a, screenWidth, screenHeight, jumpLength, enemies, rolls.pteranodonHeight, rolls.pteranodonIndex)
    else []
  }

  /** Every cactus addCactus appends starts at or right of the screen edge. */
  lemma {:induction false} CactusSpawnAtEdge(a: Assets, screenWidth: int, screenHeight: int, jumpLength: int,
                                             enemies: seq<Enemy>, rolls: CactusRolls)
    requires a.Valid() && rolls.cluster.Enough()
    ensures var added := CactusSpawn(a, screenWidth, screenHeight, jumpLength, enemies, rolls);
            forall k :: 0 <= k < |added| ==> added[k].x >= screenWidth as real
  {
    var added := CactusSpawn(a, screenWidth, screenHeight, jumpLength, enemies, rolls);
    forall k | 0 <= k < |added|
      ensures added[k].x >= screenWidth as real
    {
      if k > 0 {
        RowRisesAlong(added, k);
      }
    }
  }

  /** In a row laid end to end from x0, with positive widths, nothing starts left of x0. */
  lemma {:induction false} RowRisesAlong(row: seq<Enemy>, k: nat)
    requires 0 < k < |row|
    requires forall j :: 0 <= j < |row| ==> WellFormed(row[j])
    requires forall j :: 0 < j < |row| ==> row[j].x == row[j - 1].x + row[j - 1].width as real
    ensures row[k].x > row[0].x
    decreases k
  {
    if k > 1 {
      RowRisesAlong(row, k - 1);
    }
  }

  // ---------------------------------------------------------------- the game

  class DinoGame {
    const assets: Assets
    const screenWidth: int
    const screenHeight: int

    var groundSpeed: real
    var elapsed: real
    var dinoIndex: int

    var started: bool
    var isJumping: bool
    var isDucking: bool
    var gameOver: bool

    var jumpTimer: real
    var pteranodonTimer: real

    var scoreBlinking: bool
    var scoreTimer: real

    var maxScore: int
    var score: int

    var clouds: seq<Clouds.Cloud>
    var enemies: seq<Enemy>

    /**
     * What holds between frames: the ground speed is the base speed; the frame is one
     * the animation can show; a run is never both started and over, and the score is
     * zero outside a run; the timers stay within their periods; the blink and jump
     * states are consistent; at most five clouds are up; every obstacle is well-formed.
     */
    predicate Valid()
      reads this
    {
      assets.Valid() && screenWidth > 0 && screenHeight > 0 &&
      groundSpeed == BaseGroundSpeed &&
      dinoIndex in DinoFrames &&
      !(started && gameOver) &&
      score >= 0 && maxScore >= 0 && (!started ==> score == 0) &&
      0.0 <= elapsed <= Period * 3.0 &&
      0.0 <= pteranodonTimer <= Period * 5.0 &&
      JumpOk(Jump(isJumping, jumpTimer)) &&
      BlinkOk(Blink(scoreBlinking, scoreTimer)) &&
      (gameOver ==> !scoreBlinking) &&
      |clouds| <= Clouds.MaxClouds &&
      (forall i :: 0 <= i < |enemies| ==> WellFormed(enemies[i]))
    }

    /** A new game: standing still on frame 1, nothing on screen, every counter at zero. */
    constructor (a: Assets, width: int, height: int)
      requires a.Valid() && width > 0 && height > 0
      ensures Valid()
      ensures assets == a && screenWidth == width && screenHeight == height
      ensures !started && !gameOver && !isJumping && !isDucking && dinoIndex == 1
      ensures score == 0 && maxScore == 0 && clouds == [] && enemies == []
      ensures groundSpeed == BaseGroundSpeed && elapsed == 0.0 && pteranodonTimer == 0.0
      ensures jumpTimer == 0.0 && !scoreBlinking && scoreTimer == 0.0
    {
      assets := a;
      screenWidth := width;
      screenHeight := height;
      groundSpeed := BaseGroundSpeed;
      elapsed := 0.0;
      dinoIndex := 1;
      started := false;
      isJumping := false;
      isDucking := false;
      gameOver := false;
      jumpTimer := 0.0;
      pteranodonTimer := 0.0;
      scoreBlinking := false;
      scoreTimer := 0.0;
      maxScore := 0;
      score := 0;
      clouds := [];
      enemies := [];
    }

    /** DrawScore: the blink timer, then the read-out, drawn only during or after a run. */
    method DrawScore(dt: real) returns (glyphs: seq<Glyph>)
      requires Valid() && dt >= 0.0
      modifies this`scoreBlinking, this`scoreTimer
      ensures Valid()
      ensures Blink(scoreBlinking, scoreTimer) == BlinkStep(score, Blink(old(scoreBlinking), old(scoreTimer)), dt)
      ensures glyphs == if started || gameOver
                        then Scoreboard(score, maxScore, scoreBlinking, scoreTimer, screenWidth, assets.digit)
                        else []
    {
      if (score > 0 && score % 100 == 0) || scoreBlinking {
        if !scoreBlinking {
          scoreBlinking := true;
        }
        scoreTimer := scoreTimer + dt;
        if scoreTimer > 4.0 {
          scoreBlinking := false;
          scoreTimer := 0.0;
        }
      }
      glyphs := [];
      if started || gameOver {
        glyphs := ReadOut();
      }
    }

    /**
     * The read-out part of DrawScore: the current score (its hundred, and only in the
     * visible phase, while blinking), then the best score and the letters "HI" once a
     * best score exists.
     */
    method ReadOut() returns (glyphs: seq<Glyph>)
      requires score >= 0 && scoreTimer >= 0.0
      ensures glyphs == Scoreboard(score, maxScore, scoreBlinking, scoreTimer, screenWidth, assets.digit)
    {
      var digit := assets.digit;
      var offset := 2 * digit.width;
      var current: seq<Glyph> := [];
      if scoreBlinking {
        if (scoreTimer * 3.0).Floor % 2 == 0 {
          current := DrawNumber(score / 100 * 100, offset, Pad, screenWidth, digit);
        }
      } else {
        current := DrawNumber(score, offset, Pad, screenWidth, digit);
      }
      var best: seq<Glyph> := [];
      if maxScore > 0 {
        offset := offset + 6 * digit.width;
        var number := DrawNumber(maxScore, offset, Pad, screenWidth, digit);
        offset := offset + 6 * digit.width;
        var letterI := Glyph(LetterImage('I'), screenWidth - offset, digit.height / 2);
        offset := offset + digit.width;
        var letterH := Glyph(LetterImage('H'), screenWidth - offset, digit.height / 2);
        best := number + [letterI, letterH];
      }
      glyphs := current + best;
    }

    /** Moves every cloud dx to the left, one at a time. */
    method DriftClouds(dx: real)
      modifies this`clouds
      ensures clouds == Clouds.DriftAll(old(clouds), dx)
    {
      var i := 0;
      while i < |clouds|
        invariant 0 <= i <= |clouds| == |old(clouds)|
        invariant forall k :: 0 <= k < i ==> clouds[k] == old(clouds)[k].(x := old(clouds)[k].x - dx)
        invariant forall k :: i <= k < |clouds| ==> clouds[k] == old(clouds)[k]
      {
        clouds := clouds[i := clouds[i].(x := clouds[i].x - dx)];
        i := i + 1;
      }
    }

    /**
     * DrawClouds: drift, drop (at most) the off-screen clouds, then maybe add one. The
     * survivors of the drift come first, in order, in what is left after the filter.
     */
    method DrawClouds(dt: real, spawnRoll: nat, y: real) returns (ghost culled: seq<Clouds.Cloud>)
      requires Valid() && dt >= 0.0
      modifies this`clouds
      ensures Valid()
      ensures var drifted := Clouds.DriftAll(old(clouds), dt * Clouds.CloudSpeed);
              var kept := Without(drifted, Clouds.Offscreen(assets.cloud.width));
              |kept| <= |culled| && culled[..|kept|] == kept &&
              |culled| == (if kept == drifted then |drifted| else |drifted| - 1) &&
              forall c :: c in culled ==> c in drifted
      ensures clouds == culled + Clouds.CloudSpawn(culled, started, spawnRoll, y, screenWidth, assets.cloud.width)
    {
      DriftClouds(dt * Clouds.CloudSpeed);
      clouds := RemoveIfEraseOne(clouds, Clouds.Offscreen(assets.cloud.width));
      culled := clouds;
      SpawnCloud(spawnRoll, y);
    }

    /** The spawn step of DrawClouds: at most one new cloud at the right edge. */
    method SpawnCloud(spawnRoll: nat, y: real)
      requires Valid()
      modifies this`clouds
      ensures Valid()
      ensures clouds == old(clouds) + Clouds.CloudSpawn(old(clouds), started, spawnRoll, y, screenWidth, assets.cloud.width)
    {
      Clouds.CloudCap(clouds, started, spawnRoll, y, screenWidth, assets.cloud.width);
      if started && spawnRoll % 1000 == 0 && |clouds| < Clouds.MaxClouds {
        if |clouds| == 0 {
          clouds := clouds + [Clouds.Cloud(screenWidth as real, y)];
        } else {
          var last := clouds[|clouds| - 1];
          if last.x < (screenWidth - 3 * assets.cloud.width / 2) as real {
            clouds := clouds + [Clouds.Cloud(screenWidth as real, y)];
          }
        }
      }
    }

    /** Flaps every pteranodon's wings, one obstacle at a time. */
    method FlapWings()
      requires Valid()
      modifies this`enemies
      ensures Valid()
      ensures enemies == FlapAll(old(enemies))
    {
      var i := 0;
      while i < |enemies|
        invariant 0 <= i <= |enemies| == |old(enemies)|
        invariant forall k :: 0 <= k < i ==> enemies[k] == Flap(old(enemies)[k])
        invariant forall k :: i <= k < |enemies| ==> enemies[k] == old(enemies)[k]
      {
        if enemies[i].kind == Pteranodon {
          enemies := enemies[i := enemies[i].(index := enemies[i].index % 2 + 1)];
        }
        i := i + 1;
      }
    }

    /** Moves every obstacle dx to the left, one at a time. */
    method ScrollEnemies(dx: real)
      requires Valid()
      modifies this`enemies
      ensures Valid()
      ensures enemies == ScrollAll(old(enemies), dx)
    {
      var i := 0;
      while i < |enemies|
        invariant 0 <= i <= |enemies| == |old(enemies)|
        invariant forall k :: 0 <= k < i ==> enemies[k] == old(enemies)[k].(x := old(enemies)[k].x - dx)
        invariant forall k :: i <= k < |enemies| ==> enemies[k] == old(enemies)[k]
      {
        enemies := enemies[i := enemies[i].(x := enemies[i].x - dx)];
        i := i + 1;
      }
    }

    /** addPteranodon. */
    method AddPteranodon(heightRoll: nat, indexRoll: nat)
      requires Valid()
      modifies this`enemies
      ensures Valid()
      ensures enemies == old(enemies) + PteranodonSpawn(assets, screenWidth, screenHeight, JumpLength(groundSpeed),
                                                        old(enemies), heightRoll, indexRoll)
    {
      var e := NewPteranodon(assets, screenWidth, screenHeight, heightRoll, indexRoll);
      if |enemies| == 0 {
        enemies := enemies + [e];
      } else {
        var last := enemies[|enemies| - 1];
        var jumpLength := JumpLength(groundSpeed);
        if last.x < (screenWidth - last.width - jumpLength) as real {
          enemies := enemies + [e];
        }
      }
    }

    /** addCactus. */
    method AddCactus(rolls: CactusRolls)
      requires Valid() && rolls.cluster.Enough()
      modifies this`enemies
      ensures Valid()
      ensures enemies == old(enemies) + CactusSpawn(assets, screenWidth, screenHeight, JumpLength(groundSpeed),
                                                    old(enemies), rolls)
    {
      if |enemies| == 0 {
        var index := rolls.first % 8 + 1;
        enemies := enemies + [CactusAt(assets, index, screenWidth as real, screenHeight)];
      } else {
        var last := enemies[|enemies| - 1];
        var jumpLength := JumpLength(groundSpeed);
        if last.x < (screenWidth - last.width - jumpLength) as real {
          var index := rolls.first % 9 + 1;
          if index == 9 && assets.Cactus(9).width <= jumpLength {
            enemies := enemies + [CactusAt(assets, 9, screenWidth as real, screenHeight)];
          } else {
            var cluster := LayCluster(assets, screenWidth, screenHeight, jumpLength, rolls.cluster);
            enemies := enemies + cluster;
          }
        }
      }
    }

    /**
     * DrawEnemies: the wing-flap timer, the scroll, the off-screen filter and, once the
     * score allows, a spawn.
     */
    method DrawEnemies(dt: real, rolls: Rolls) returns (ghost culled: seq<Enemy>)
      requires Valid() && dt >= 0.0 && rolls.Enough()
      modifies this`pteranodonTimer, this`enemies
      ensures Valid()
      ensures var flap := old(pteranodonTimer) + dt > Period * 5.0;
              pteranodonTimer == (if flap then 0.0 else old(pteranodonTimer) + dt) &&
              var scrolled := ScrollAll(if flap then FlapAll(old(enemies)) else old(enemies), dt * groundSpeed);
              var kept := Without(scrolled, Offscreen);
              |kept| <= |culled| && culled[..|kept|] == kept &&
              |culled| == (if kept == scrolled then |scrolled| else |scrolled| - 1) &&
              forall e :: e in culled ==> e in scrolled
      ensures enemies == culled + EnemySpawn(assets, screenWidth, screenHeight, JumpLength(groundSpeed),
                                             score, culled, rolls)
    {
      TickWings(dt);
      ScrollEnemies(dt * groundSpeed);
      CullEnemies();
      culled := enemies;
      SpawnEnemy(rolls);
    }

    /** The wing-flap timer: every five frames' worth of time all pteranodons flap. */
    method TickWings(dt: real)
      requires Valid() && dt >= 0.0
      modifies this`pteranodonTimer, this`enemies
      ensures Valid()
      ensures var flap := old(pteranodonTimer) + dt > Period * 5.0;
              pteranodonTimer == (if flap then 0.0 else old(pteranodonTimer) + dt) &&
              enemies == if flap then FlapAll(old(enemies)) else old(enemies)
    {
      pteranodonTimer := pteranodonTimer + dt;
      if pteranodonTimer > Period * 5.0 {
        pteranodonTimer := 0.0;
        FlapWings();
      }
    }

    /** The off-screen filter over the obstacles. */
    method CullEnemies()
      requires Valid()
      modifies this`enemies
      ensures Valid()
      ensures var kept := Without(old(enemies), Offscreen);
              |kept| <= |enemies| && enemies[..|kept|] == kept &&
              |enemies| == (if kept == old(enemies) then |old(enemies)| else |old(enemies)| - 1) &&
              forall e :: e in enemies ==> e in old(enemies)
    {
      enemies := RemoveIfEraseOne(enemies, Offscreen);
      forall k | 0 <= k < |enemies|
        ensures WellFormed(enemies[k])
      {
        assert enemies[k] in old(enemies);
      }
    }

    /** The spawn step: once the score allows and the roll hits, addCactus or addPteranodon. */
    method SpawnEnemy(rolls: Rolls)
      requires Valid() && rolls.Enough()
      modifies this`enemies
      ensures Valid()
      ensures enemies == old(enemies) + EnemySpawn(assets, screenWidth, screenHeight, JumpLength(groundSpeed),
                                                   score, old(enemies), rolls)
    {
      if score >= EnemyScore && rolls.enemySpawn % 200 == 0 {
        if rolls.enemyKind % 200 > 50 {
          AddCactus(rolls.cactus);
        } else {
          AddPteranodon(rolls.pteranodonHeight, rolls.pteranodonIndex);
        }
      }
    }

    /** The three-frame cadence: pick the next frame and, during a run, score a point. */
    method Animate(dt: real, blinkRoll: nat)
      requires Valid() && dt >= 0.0
      modifies this`elapsed, this`dinoIndex, this`score
      ensures Valid()
      ensures var step := old(elapsed) + dt > Period * 3.0;
              elapsed == (if step then 0.0 else old(elapsed) + dt) &&
              dinoIndex == (if step then NextFrame(gameOver, isJumping, isDucking, started, old(dinoIndex), blinkRoll)
                            else old(dinoIndex)) &&
              score == (if step && started && !gameOver then old(score) + 1 else old(score))
    {
      elapsed := elapsed + dt;
      if elapsed > Period * 3.0 {
        elapsed := 0.0;
        if gameOver {
          dinoIndex := 6;
        } else if isJumping {
          dinoIndex := 1;
        } else if isDucking {
          dinoIndex := if dinoIndex == 7 then 8 else 7;
        } else if started {
          dinoIndex := if dinoIndex == 3 then 4 else 3;
        } else {
          dinoIndex := if blinkRoll % 15 != 0 then 1 else 2;
        }
        if started && !gameOver {
          score := score + 1;
        }
      }
    }

    /**
     * The keyboard: Space starts a run when none is going (clearing the obstacles) and
     * always makes the dinosaur jump; Down ducks during a run; releasing Down stands up.
     */
    method HandleInput(keys: Keys)
      requires Valid()
      modifies this`gameOver, this`started, this`enemies, this`isJumping, this`isDucking
      ensures Valid()
      ensures keys.spacePressed && !old(started) ==> started && !gameOver && enemies == []
      ensures !(keys.spacePressed && !old(started)) ==>
                started == old(started) && gameOver == old(gameOver) && enemies == old(enemies)
      ensures isJumping == (old(isJumping) || keys.spacePressed)
      ensures isDucking == (!keys.downReleased && (old(isDucking) || (keys.downPressed && started)))
    {
      if keys.spacePressed {
        if !started {
          gameOver := false;
          started := true;
          enemies := [];
        }
        if started {
          isJumping := true;
        }
      }
      if keys.downPressed {
        if started {
          isDucking := true;
        }
      }
      if keys.downReleased {
        isDucking := false;
      }
    }

    /** The jump timer, advanced by the frame time. */
    method AdvanceJump(dt: real)
      requires Valid() && dt >= 0.0
      modifies this`isJumping, this`jumpTimer
      ensures Valid()
      ensures Jump(isJumping, jumpTimer) == JumpStep(Jump(old(isJumping), old(jumpTimer)), gameOver, dt)
    {
      if isJumping && !gameOver {
        jumpTimer := jumpTimer + dt;
        if jumpTimer > JumpDuration {
          isJumping := false;
          jumpTimer := 0.0;
        }
      }
    }

    /**
     * The end of a run: game over, the best score raised to the final score if it is
     * higher, and the score, its blink and the ground speed reset.
     */
    method EndRun()
      requires Valid()
      modifies this`gameOver, this`started, this`maxScore, this`score, this`scoreTimer,
               this`scoreBlinking, this`groundSpeed
      ensures Valid()
      ensures gameOver && !started
      ensures maxScore == MaxInt(old(score), old(maxScore)) && maxScore >= old(maxScore)
      ensures score == 0 && scoreTimer == 0.0 && !scoreBlinking && groundSpeed == BaseGroundSpeed
    {
      gameOver := true;
      started := false;
      maxScore := if maxScore < score then score else maxScore;
      score := 0;
      scoreTimer := 0.0;
      scoreBlinking := false;
      groundSpeed := BaseGroundSpeed;
    }

    /** The collision test: the first obstacle overlapping the player ends the run. */
    method DetectCollision(player: Rect)
      requires Valid() && !gameOver
      modifies this`gameOver, this`started, this`maxScore, this`score, this`scoreTimer,
               this`scoreBlinking, this`groundSpeed
      ensures Valid()
      ensures gameOver <==> exists i :: 0 <= i < |enemies| && Overlaps(EnemyRect(enemies[i]), player)
      ensures gameOver ==>
                !started && maxScore == MaxInt(old(score), old(maxScore)) &&
                score == 0 && scoreTimer == 0.0 && !scoreBlinking
      ensures !gameOver ==>
                started == old(started) && maxScore == old(maxScore) && score == old(score) &&
                scoreTimer == old(scoreTimer) && scoreBlinking == old(scoreBlinking)
    {
      var hit, at := FindOverlap(enemies, player);
      if hit {
        EndRun();
      }
    }

    /**
     * OnUserUpdate: one frame. While the game is over the score, clouds and obstacles
     * see no time pass. The player's rectangle is taken after the animation step and
     * before the keyboard and the jump timer are handled, and it is what the collision
     * test uses.
     */
    method OnUserUpdate(dt: real, keys: Keys, rolls: Rolls) returns (glyphs: seq<Glyph>, player: Rect)
      requires Valid() && dt >= 0.0 && rolls.Enough()
      modifies this
      ensures Valid()
      ensures maxScore >= old(maxScore)
      ensures old(gameOver) && !keys.spacePressed ==> gameOver && !started && score == 0
      ensures old(gameOver) && keys.spacePressed ==> !gameOver && started && enemies == []
      ensures !gameOver ==> forall i :: 0 <= i < |enemies| ==> !Overlaps(EnemyRect(enemies[i]), player)
      ensures var restart := keys.spacePressed && !old(started);
              gameOver && (!old(gameOver) || restart) ==>
                exists i :: 0 <= i < |enemies| && Overlaps(EnemyRect(enemies[i]), player)
    {
      glyphs := UpdateScenery(if gameOver then 0.0 else dt, rolls);
      player := UpdatePlayer(dt, keys, rolls.blink);
    }

    /** The first half of a frame: the score read-out, the clouds and the obstacles. */
    method UpdateScenery(frameDt: real, rolls: Rolls) returns (glyphs: seq<Glyph>)
      requires Valid() && frameDt >= 0.0 && rolls.Enough()
      modifies this`scoreBlinking, this`scoreTimer, this`clouds, this`pteranodonTimer, this`enemies
      ensures Valid()
    {
      glyphs := DrawScore(frameDt);
      ghost var culledClouds := DrawClouds(frameDt, rolls.cloudSpawn, rolls.cloudY);
      ghost var culledEnemies := DrawEnemies(frameDt, rolls);
    }

    /**
     * The second half of a frame: the animation step, the player's rectangle, the
     * keyboard, the jump timer and, unless the game is over, the collision test.
     */
    method UpdatePlayer(dt: real, keys: Keys, blinkRoll: nat) returns (player: Rect)
      requires Valid() && dt >= 0.0
      modifies this`elapsed, this`dinoIndex, this`score, this`gameOver, this`started, this`enemies,
               this`isJumping, this`isDucking, this`jumpTimer, this`maxScore, this`scoreTimer,
               this`scoreBlinking, this`groundSpeed
      ensures Valid()
      // the animation step
      ensures var step := old(elapsed) + dt > Period * 3.0;
              elapsed == (if step then 0.0 else old(elapsed) + dt) &&
              dinoIndex == (if step then NextFrame(old(gameOver), old(isJumping), old(isDucking), old(started),
                                                   old(dinoIndex), blinkRoll)
                            else old(dinoIndex))
      ensures player == PlayerRect(assets.Dino(dinoIndex), screenHeight, old(jumpTimer))
      // the keyboard, then the jump timer
      ensures var restart := keys.spacePressed && !old(started);
              enemies == (if restart then [] else old(enemies)) &&
              isDucking == (!keys.downReleased &&
                            (old(isDucking) || (keys.downPressed && (old(started) || keys.spacePressed)))) &&
              Jump(isJumping, jumpTimer) ==
                JumpStep(Jump(old(isJumping) || keys.spacePressed, old(jumpTimer)), old(gameOver) && !restart, dt)
      // the collision test runs unless the game is (still) over
      ensures var restart := keys.spacePressed && !old(started);
              var scored := if old(elapsed) + dt > Period * 3.0 && old(started) && !old(gameOver)
                            then old(score) + 1 else old(score);
              if old(gameOver) && !restart then
                gameOver && !started && score == old(score) && maxScore == old(maxScore)
              else if gameOver then
                !started && score == 0 && maxScore == MaxInt(scored, old(maxScore)) &&
                !scoreBlinking && scoreTimer == 0.0
              else
                started == (old(started) || keys.spacePressed) && score == scored && maxScore == old(maxScore) &&
                scoreBlinking == old(scoreBlinking) && scoreTimer == old(scoreTimer)
      ensures maxScore >= old(maxScore)
      ensures old(gameOver) && !keys.spacePressed ==> gameOver && !started && score == 0
      ensures !gameOver ==> forall i :: 0 <= i < |enemies| ==> !Overlaps(EnemyRect(enemies[i]), player)
      ensures var restart := keys.spacePressed && !old(started);
              gameOver && (!old(gameOver) || restart) ==>
                exists i :: 0 <= i < |enemies| && Overlaps(EnemyRect(enemies[i]), player)
    {
      Animate(dt, blinkRoll);
      player := PlayerRect(assets.Dino(dinoIndex), screenHeight, jumpTimer);
      React(dt, keys, player);
    }

    /**
     * The part of a frame after the player's rectangle is taken: the keyboard, the jump
     * timer and, unless the game is (still) over, the collision test against player.
     */
    method React(dt: real, keys: Keys, player: Rect)
      requires Valid() && dt >= 0.0
      modifies this`score, this`gameOver, this`started, this`enemies, this`isJumping, this`isDucking,
               this`jumpTimer, this`maxScore, this`scoreTimer, this`scoreBlinking, this`groundSpeed
      ensures Valid()
      ensures var restart := keys.spacePressed && !old(started);
              enemies == (if restart then [] else old(enemies)) &&
              isDucking == (!keys.downReleased &&
                            (old(isDucking) || (keys.downPressed && (old(started) || keys.spacePressed)))) &&
              Jump(isJumping, jumpTimer) ==
                JumpStep(Jump(old(isJumping) || keys.spacePressed, old(jumpTimer)), old(gameOver) && !restart, dt)
      ensures var restart := keys.spacePressed && !old(started);
              if old(gameOver) && !restart then
                gameOver && !started && score == old(score) && maxScore == old(maxScore)
              else if gameOver then
                !started && score == 0 && maxScore == MaxInt(old(score), old(maxScore)) &&
                !scoreBlinking && scoreTimer == 0.0
              else
                started == (old(started) || keys.spacePressed) && score == old(score) &&
                maxScore == old(maxScore) && scoreBlinking == old(scoreBlinking) && scoreTimer == old(scoreTimer)
      ensures !gameOver ==> forall i :: 0 <= i < |enemies| ==> !Overlaps(EnemyRect(enemies[i]), player)
      ensures var restart := keys.spacePressed && !old(started);
              gameOver && (!old(gameOver) || restart) ==>
                exists i :: 0 <= i < |enemies| && Overlaps(EnemyRect(enemies[i]), player)
    {
      HandleInput(keys);
      AdvanceJump(dt);
      if !gameOver {
        DetectCollision(player);
      }
    }
  }
}
