/**
 * The background clouds: they drift left more slowly than the ground, leave the list
 * once past the left edge, and at most five are ever on screen, a new one entering at
 * the right edge only when the previous one has moved well clear of it.
 */
module Clouds {

  /** A cloud's top-left corner. */
  datatype Cloud = Cloud(x: real, y: real)

  const MaxClouds: int := 5

  /** Cloud drift in pixels per second. */
  const CloudSpeed: real := 150.0

  /** The list after every cloud has moved dx to the left: only x changes. */
  function DriftAll(s: seq<Cloud>, dx: real): (r: seq<Cloud>)
    ensures |r| == |s|
    ensures forall i :: 0 <= i < |s| ==> r[i].y == s[i].y && r[i].x == s[i].x - dx
  {
    seq(|s|, i requires 0 <= i < |s| => s[i].(x := s[i].x - dx))
  }

  /** Gone off the left edge: x < -cloudWidth. */
  function Offscreen(cloudWidth: int): Cloud -> bool {
    (c: Cloud) => c.x < -(cloudWidth as real)
  }

  /**
   * The spacing gate for clouds: the list is empty, or its last cloud has moved left of
   * screenWidth - 3 * cloudWidth / 2 (integer division, as the source computes it).
   */
  predicate CloudGateOpen(clouds: seq<Cloud>, screenWidth: int, cloudWidth: int) {
    clouds == [] || clouds[|clouds| - 1].x < (screenWidth - 3 * cloudWidth / 2) as real
  }

  /**
   * What DrawClouds appends: one cloud at the right edge, at the given height, when the
   * run has started, the spawn roll hits (roll % 1000 == 0), fewer than five clouds are
   * up and the gate is open; nothing otherwise.
   */
  function CloudSpawn(clouds: seq<Cloud>, started: bool, spawnRoll: nat, y: real,
                      screenWidth: int, cloudWidth: int): (added: seq<Cloud>)
    ensures |added| <= 1
    ensures added != [] <==>
              started && spawnRoll % 1000 == 0 && |clouds| < MaxClouds &&
              CloudGateOpen(clouds, screenWidth, cloudWidth)
    ensures added != [] ==> added[0] == Cloud(screenWidth as real, y)
  {
    if started && spawnRoll % 1000 == 0 && |clouds| < MaxClouds then
      if clouds == [] then [Cloud(screenWidth as real, y)]
      else if clouds[|clouds| - 1].x < (screenWidth - 3 * cloudWidth / 2) as real then
        [Cloud(screenWidth as real, y)]
      else []
    else []
  }

  /** Spawning never takes the list above five clouds. */
  lemma CloudCap(clouds: seq<Cloud>, started: bool, spawnRoll: nat, y: real, screenWidth: int, cloudWidth: int)
    requires |clouds| <= MaxClouds
    ensures |clouds + CloudSpawn(clouds, started, spawnRoll, y, screenWidth, cloudWidth)| <= MaxClouds
  {
  }

  /**
   * A new cloud enters more than 3 * cloudWidth / 2 pixels to the right of the one
   * before it, so for a positive width the two do not overlap.
   */
  lemma CloudSpacing(clouds: seq<Cloud>, started: bool, spawnRoll: nat, y: real, screenWidth: int, cloudWidth: int)
    requires clouds != [] && cloudWidth > 0
    ensures var added := CloudSpawn(clouds, started, spawnRoll, y, screenWidth, cloudWidth);
            added != [] ==>
              added[0].x - clouds[|clouds| - 1].x > (3 * cloudWidth / 2) as real &&
              added[0].x - clouds[|clouds| - 1].x > cloudWidth as real
  {
  }
}
