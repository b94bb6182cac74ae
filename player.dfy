/** The dinosaur: its animation frames, its jump arc and the rectangle used for collisions. */
module Player {
  import opened Geometry
  import opened Sprites

  /** Jump duration in seconds. */
  const JumpDuration: real := 0.75

  /** The dinosaur is always drawn at this x. */
  const PlayerX: real := 60.0

  /** The frames the animation can show: standing (1), blinking (2), running (3, 4),
      game over (6) and ducking (7, 8). Frame 5 is never chosen. */
  const DinoFrames: set<int> := {1, 2, 3, 4, 6, 7, 8}

  /** Height above the ground after t seconds of a jump whose peak parameter is
      maxJumpHeight (the dinosaur's height times 15). */
  function JumpHeight(maxJumpHeight: int, t: real): real {
    -(maxJumpHeight as real) * (t * t - JumpDuration * t)
  }

  /** The arc starts and ends on the ground, never dips below it, and has a single
      highest point, halfway through the jump. */
  lemma JumpArc(maxJumpHeight: int, t: real)
    requires maxJumpHeight > 0 && 0.0 <= t <= JumpDuration
    ensures JumpHeight(maxJumpHeight, 0.0) == 0.0
    ensures JumpHeight(maxJumpHeight, JumpDuration) == 0.0
    ensures 0.0 <= JumpHeight(maxJumpHeight, t) <= JumpHeight(maxJumpHeight, JumpDuration / 2.0)
    ensures JumpHeight(maxJumpHeight, t) == JumpHeight(maxJumpHeight, JumpDuration / 2.0)
            ==> t == JumpDuration / 2.0
  {
    var m := maxJumpHeight as real;
    var half := JumpDuration / 2.0;
    ArcIsShiftedSquare(maxJumpHeight, t);
    ArcIsShiftedSquare(maxJumpHeight, half);
    assert m * Square(half - half) == 0.0;
    ScaledSquareBound(m, t - half, half);
    if t != half {
      ArcBelowPeak(maxJumpHeight, t);
    }
  }

  function Square(u: real): real {
    u * u
  }

  /** Completing the square: the arc is its peak minus a scaled square. */
  lemma ArcIsShiftedSquare(maxJumpHeight: int, t: real)
    ensures JumpHeight(maxJumpHeight, t)
            == (maxJumpHeight as real) * Square(JumpDuration / 2.0)
               - (maxJumpHeight as real) * Square(t - JumpDuration / 2.0)
  {
  }

  lemma ScaledSquareBound(m: real, u: real, b: real)
    requires m > 0.0 && b >= 0.0 && -b <= u <= b
    ensures 0.0 <= m * Square(u) <= m * Square(b)
  {
    if u >= 0.0 {
      assert u * u <= u * b <= b * b;
    } else {
      assert u * u == (-u) * (-u) <= (-u) * b <= b * b;
    }
  }

  /** Away from the midpoint the arc is strictly below its peak. */
  lemma ArcBelowPeak(maxJumpHeight: int, t: real)
    requires maxJumpHeight > 0 && t != JumpDuration / 2.0
    ensures JumpHeight(maxJumpHeight, t) < JumpHeight(maxJumpHeight, JumpDuration / 2.0)
  {
    // the gap is m * (t - half)^2, written as a product of two distinct factors
    var a, b := (maxJumpHeight as real) * (t - JumpDuration / 2.0), t - JumpDuration / 2.0;
    assert JumpHeight(maxJumpHeight, JumpDuration / 2.0) - JumpHeight(maxJumpHeight, t) == a * b;
    if b > 0.0 {
      ProductPositive(a, b);
    } else {
      ProductOfNegatives(a, b);
    }
  }

  lemma ProductPositive(a: real, b: real)
    requires a > 0.0 && b > 0.0
    ensures a * b > 0.0
  {
  }

  lemma ProductOfNegatives(a: real, b: real)
    requires a < 0.0 && b < 0.0
    ensures a * b > 0.0
  {
  }

  /**
   * The player's rectangle: the frame's size drawn at x = 60, standing 8 pixels above
   * the bottom of the screen and lifted by the jump arc at jumpTimer.
   */
  function PlayerRect(dino: Size, screenHeight: int, jumpTimer: real): (r: Rect)
    requires Positive(dino) && 0.0 <= jumpTimer <= JumpDuration
    ensures Proper(r) && r.x0 == PlayerX
    ensures r.x1 - r.x0 == dino.width as real && r.y1 - r.y0 == dino.height as real
    ensures r.y1 <= (screenHeight - 8) as real
    ensures jumpTimer == 0.0 ==> r.y1 == (screenHeight - 8) as real
  {
    JumpArc(dino.height * 15, jumpTimer);
    RectAt(PlayerX, (screenHeight - dino.height - 8) as real - JumpHeight(dino.height * 15, jumpTimer),
           dino.width, dino.height)
  }
}
