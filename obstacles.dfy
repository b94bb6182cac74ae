/**
 * Obstacles ("enemies"): cacti standing on the ground and flying pteranodons. They
 * scroll left at the ground speed, pteranodons flap their wings, new ones are spawned
 * at the right edge only when the last one has left room for a full jump, and the
 * player's rectangle is tested against each of them in turn.
 */
module Obstacles {
  import opened Geometry
  import opened Sprites
  import Player

  datatype Kind = Cactus | Pteranodon

  /** An obstacle: its sprite's size, its sprite variant, its kind and its top-left corner. */
  datatype Enemy = Enemy(width: int, height: int, index: int, kind: Kind, x: real, y: real)

  /** Sprite variants 1..9 for cacti and 1..2 for pteranodons; sizes positive. */
  predicate WellFormed(e: Enemy) {
    e.width > 0 && e.height > 0 &&
    (e.kind == Cactus ==> 1 <= e.index <= 9) &&
    (e.kind == Pteranodon ==> 1 <= e.index <= 2)
  }

  function EnemyRect(e: Enemy): Rect {
    RectAt(e.x, e.y, e.width, e.height)
  }

  /** The ground speed a run starts with; this revision never changes it during a run. */
  const BaseGroundSpeed: real := 500.0

  /** The distance the ground scrolls during one jump, truncated to an int. */
  function JumpLength(groundSpeed: real): int
    requires groundSpeed >= 0.0
  {
    (Player.JumpDuration * groundSpeed).Floor
  }

  lemma BaseJumpLength()
    ensures JumpLength(BaseGroundSpeed) == 375
  {
    assert Player.JumpDuration * BaseGroundSpeed == 375.0;
  }

  // ---------------------------------------------------------------- wing flap

  /** A pteranodon's flap toggles its sprite variant (index % 2 + 1); cacti are left alone. */
  function Flap(e: Enemy): (f: Enemy)
    ensures f.(index := e.index) == e
    ensures e.kind == Cactus ==> f == e
    ensures e.kind == Pteranodon && e.index == 1 ==> f.index == 2
    ensures e.kind == Pteranodon && e.index == 2 ==> f.index == 1
    ensures WellFormed(e) ==> WellFormed(f)
  {
    if e.kind == Pteranodon then e.(index := e.index % 2 + 1) else e
  }

  /** Two flaps bring a well-formed obstacle back to its first picture. */
  lemma FlapTwice(e: Enemy)
    requires WellFormed(e)
    ensures Flap(Flap(e)) == e
  {
  }

  /**
   * The vector after every element has flapped: same length, same order, only sprite
   * variants change, and well-formed obstacles stay well-formed.
   */
  function FlapAll(s: seq<Enemy>): (r: seq<Enemy>)
    ensures |r| == |s|
    ensures forall i :: 0 <= i < |s| ==> r[i].(index := s[i].index) == s[i]
    ensures (forall i :: 0 <= i < |s| ==> WellFormed(s[i])) ==> forall i :: 0 <= i < |r| ==> WellFormed(r[i])
  {
    seq(|s|, i requires 0 <= i < |s| => Flap(s[i]))
  }

  /** Flapping the whole vector twice restores every picture. */
  lemma FlapAllTwice(s: seq<Enemy>)
    requires forall i :: 0 <= i < |s| ==> WellFormed(s[i])
    ensures FlapAll(FlapAll(s)) == s
  {
    forall i | 0 <= i < |s|
      ensures FlapAll(FlapAll(s))[i] == s[i]
    {
      FlapTwice(s[i]);
    }
  }

  /**
   * The vector after every element has moved dx to the left: same length, same order,
   * only x changes.
   */
  function ScrollAll(s: seq<Enemy>, dx: real): (r: seq<Enemy>)
    ensures |r| == |s|
    ensures forall i :: 0 <= i < |s| ==> r[i].(x := s[i].x) == s[i] && r[i].x == s[i].x - dx
  {
    seq(|s|, i requires 0 <= i < |s| => s[i].(x := s[i].x - dx))
  }

  /** Gone off the left edge: x < -width. */
  predicate Offscreen(e: Enemy) {
    e.x < -(e.width as real)
  }

  // ---------------------------------------------------------------- spawning

  /**
   * The spacing gate: the last obstacle has moved further from the right edge than
   * its own width plus one jump length.
   */
  predicate GapClear(s: seq<Enemy>, screenWidth: int, jumpLength: int)
    requires s != []
  {
    s[|s| - 1].x < (screenWidth - s[|s| - 1].width - jumpLength) as real
  }

  /**
   * The pteranodon addPteranodon builds: flying low (just above a ducking dinosaur)
   * when heightRoll is odd, high otherwise, with variant indexRoll % 2 + 1, entering
   * at the right edge.
   */
  function NewPteranodon(a: Assets, screenWidth: int, screenHeight: int, heightRoll: nat, indexRoll: nat): (e: Enemy)
    requires a.Valid()
    ensures WellFormed(e) && e.kind == Pteranodon && e.x == screenWidth as real
    ensures e.index == indexRoll % 2 + 1
    ensures e.width == a.Pteranodon(e.index).width && e.height == a.Pteranodon(e.index).height
    ensures heightRoll % 2 == 1 ==>
              e.y == (screenHeight - a.Dino(1).height - 8 - a.Dino(7).height) as real
    ensures heightRoll % 2 == 0 ==>
              e.y == (screenHeight - 2 * a.Dino(1).height - 16) as real
  {
    var dinoHeight := a.Dino(1).height;
    var dinoDuckHeight := a.Dino(7).height;
    var low := (screenHeight - dinoHeight - 8) - dinoDuckHeight;
    var high := screenHeight - 2 * dinoHeight - 8 - 8;
    var y := if heightRoll % 2 != 0 then low else high;
    var index := indexRoll % 2 + 1;
    var size := a.Pteranodon(index);
    Enemy(size.width, size.height, index, Pteranodon, screenWidth as real, y as real)
  }

  /** A cactus of variant index at x, standing 4 pixels above the bottom of the screen. */
  function CactusAt(a: Assets, index: int, x: real, screenHeight: int): (e: Enemy)
    requires a.Valid() && 1 <= index <= 9
    ensures WellFormed(e) && e.kind == Cactus && e.index == index && e.x == x
    ensures e.width == a.Cactus(index).width && e.height == a.Cactus(index).height
    ensures e.y == (screenHeight - 4 - e.height) as real
  {
    var size := a.Cactus(index);
    Enemy(size.width, size.height, index, Cactus, x, (screenHeight - size.height - 4) as real)
  }

  /**
   * The rand() draws the cactus-cluster loop consumes: before pass i it draws bounds[i]
   * (the pass runs while i < bounds[i] % 4 + 1) and then picks[i] (the variant
   * picks[i] % 8 + 1). At most four passes run, and the bound is drawn once more for
   * the test that ends the loop, so five bounds and four picks suffice.
   */
  datatype ClusterRolls = ClusterRolls(bounds: seq<nat>, picks: seq<nat>) {
    predicate Enough() {
      |bounds| >= 5 && |picks| >= 4
    }
  }

  /** Pass i of the cluster loop runs: its freshly drawn bound exceeds i. */
  predicate PassRuns(rolls: ClusterRolls, i: nat)
    requires rolls.Enough() && i <= 4
  {
    i < rolls.bounds[i] % 4 + 1
  }

  /** The cactus variant pass k draws: 1..8 ("cactus_9" is never part of a cluster). */
  function Variant(rolls: ClusterRolls, k: nat): (index: int)
    requires rolls.Enough() && k < 4
    ensures 1 <= index <= 8
  {
    rolls.picks[k] % 8 + 1
  }

  /** How far the row reaches after k passes: the widths of the first k variants, summed. */
  function RowWidth(a: Assets, rolls: ClusterRolls, k: nat): int
    requires a.Valid() && rolls.Enough() && k <= 4
  {
    if k == 0 then 0 else RowWidth(a, rolls, k - 1) + a.Cactus(Variant(rolls, k - 1)).width
  }

  /**
   * The pass at which the cluster loop stops, looking from pass i with the row offset
   * pixels wide: the first pass whose bound does not allow it, or at which the row is
   * already wider than jumpLength.
   */
  function StopPass(a: Assets, jumpLength: int, rolls: ClusterRolls, i: nat, offset: int): (n: nat)
    requires a.Valid() && rolls.Enough() && i <= 4
    ensures i <= n <= 4
    decreases 4 - i
  {
    if !PassRuns(rolls, i) || offset > jumpLength then i
    else StopPass(a, jumpLength, rolls, i + 1, offset + a.Cactus(Variant(rolls, i)).width)
  }

  /** The cactus pass k lays: its variant, right after the first k cacti of the row. */
  function ClusterCactus(a: Assets, screenWidth: int, screenHeight: int, rolls: ClusterRolls, k: nat): Enemy
    requires a.Valid() && rolls.Enough() && k < 4
  {
    CactusAt(a, Variant(rolls, k), screenWidth as real + RowWidth(a, rolls, k) as real, screenHeight)
  }

  /**
   * What the cactus-cluster loop of addCactus pushes, in order: one to four cacti when
   * the first pass may run (its row is still empty, so only a negative jumpLength stops
   * it), each of variant 1..8, standing on the ground line, the first at the right edge
   * and each next one starting where the previous one ends.
   */
  function Cluster(a: Assets, screenWidth: int, screenHeight: int, jumpLength: int,
                   rolls: ClusterRolls): (cl: seq<Enemy>)
    requires a.Valid() && rolls.Enough()
    ensures |cl| <= 4 && (jumpLength >= 0 ==> |cl| >= 1)
    ensures |cl| > 0 ==> cl[0].x == screenWidth as real
    ensures forall k :: 0 <= k < |cl| ==>
              WellFormed(cl[k]) && cl[k].kind == Cactus && 1 <= cl[k].index <= 8 &&
              cl[k].y == (screenHeight - 4 - cl[k].height) as real
    ensures forall k :: 0 < k < |cl| ==> cl[k].x == cl[k - 1].x + cl[k - 1].width as real
  {
    seq(StopPass(a, jumpLength, rolls, 0, 0),
        k requires 0 <= k < StopPass(a, jumpLength, rolls, 0, 0) => ClusterCactus(a, screenWidth, screenHeight, rolls, k))
  }

  /** The cactus-cluster loop of addCactus. */
  method LayCluster(a: Assets, screenWidth: int, screenHeight: int, jumpLength: int,
                    rolls: ClusterRolls) returns (cl: seq<Enemy>)
    requires a.Valid() && rolls.Enough()
    ensures cl == Cluster(a, screenWidth, screenHeight, jumpLength, rolls)
  {
    cl := [];
    var offset := 0;
    var i := 0;
    while i < rolls.bounds[i] % 4 + 1
      invariant i <= 4 && i == |cl|
      invariant offset == RowWidth(a, rolls, i)
      invariant StopPass(a, jumpLength, rolls, i, offset) == StopPass(a, jumpLength, rolls, 0, 0)
      invariant forall k :: 0 <= k < i ==> cl[k] == ClusterCactus(a, screenWidth, screenHeight, rolls, k)
      decreases 4 - i
    {
      if offset > jumpLength {
        break;
      }
      var index := rolls.picks[i] % 8 + 1;
      var e := CactusAt(a, index, screenWidth as real + offset as real, screenHeight);
      assert e == ClusterCactus(a, screenWidth, screenHeight, rolls, i);
      cl := cl + [e];
      offset := offset + e.width;
      i := i + 1;
    }
    assert i == StopPass(a, jumpLength, rolls, 0, 0);
  }

  /** Every pass before the stopping one ran, with the row still no wider than jumpLength. */
  lemma {:induction false} PassesBeforeStopRan(a: Assets, jumpLength: int, rolls: ClusterRolls, i: nat, k: nat)
    requires a.Valid() && rolls.Enough() && i <= k < 4
    requires k < StopPass(a, jumpLength, rolls, i, RowWidth(a, rolls, i))
    ensures PassRuns(rolls, k) && RowWidth(a, rolls, k) <= jumpLength
    decreases k - i
  {
    if k > i {
      PassesBeforeStopRan(a, jumpLength, rolls, i + 1, k);
    }
  }

  /** No cactus of a cluster starts more than one jump length right of the screen edge. */
  lemma ClusterWithinJump(a: Assets, screenWidth: int, screenHeight: int, jumpLength: int, rolls: ClusterRolls)
    requires a.Valid() && rolls.Enough()
    ensures var cl := Cluster(a, screenWidth, screenHeight, jumpLength, rolls);
            forall k :: 0 <= k < |cl| ==> cl[k].x <= (screenWidth + jumpLength) as real
  {
    var cl := Cluster(a, screenWidth, screenHeight, jumpLength, rolls);
    forall k | 0 <= k < |cl|
      ensures cl[k].x <= (screenWidth + jumpLength) as real
    {
      PassesBeforeStopRan(a, jumpLength, rolls, 0, k);
    }
  }

  /** The rand() draws of addCactus: the first variant roll, then those of the cluster loop. */
  datatype CactusRolls = CactusRolls(first: nat, cluster: ClusterRolls)

  /**
   * What addCactus appends: on an empty list one cactus of variant 1..8 at the right
   * edge; otherwise nothing unless the gap is clear, and then either "cactus_9" alone
   * (when the variant roll picks it and it is no wider than a jump) or a cluster.
   */
  function CactusSpawn(a: Assets, screenWidth: int, screenHeight: int, jumpLength: int,
                       enemies: seq<Enemy>, rolls: CactusRolls): (added: seq<Enemy>)
    requires a.Valid() && rolls.cluster.Enough()
    ensures enemies != [] && !GapClear(enemies, screenWidth, jumpLength) ==> added == []
    ensures jumpLength >= 0 ==> (added == [] <==> enemies != [] && !GapClear(enemies, screenWidth, jumpLength))
    ensures |added| <= 4
    ensures added != [] ==> added[0].x == screenWidth as real
    ensures forall k :: 0 <= k < |added| ==>
              WellFormed(added[k]) && added[k].kind == Cactus &&
              added[k].y == (screenHeight - 4 - added[k].height) as real
    ensures forall k :: 0 <= k < |added| && added[k].index == 9 ==>
              |added| == 1 && enemies != [] && added[k].width <= jumpLength
  {
    if enemies == [] then
      [CactusAt(a, rolls.first % 8 + 1, screenWidth as real, screenHeight)]
    else if !GapClear(enemies, screenWidth, jumpLength) then
      []
    else if rolls.first % 9 + 1 == 9 && a.Cactus(9).width <= jumpLength then
      [CactusAt(a, 9, screenWidth as real, screenHeight)]
    else
      Cluster(a, screenWidth, screenHeight, jumpLength, rolls.cluster)
  }

  /**
   * What addPteranodon appends: one pteranodon at the right edge when the list is empty
   * or the gap is clear, nothing otherwise.
   */
  function PteranodonSpawn(a: Assets, screenWidth: int, screenHeight: int, jumpLength: int,
                           enemies: seq<Enemy>, heightRoll: nat, indexRoll: nat): (added: seq<Enemy>)
    requires a.Valid()
    ensures added == [] <==> enemies != [] && !GapClear(enemies, screenWidth, jumpLength)
    ensures added != [] ==> added == [NewPteranodon(a, screenWidth, screenHeight, heightRoll, indexRoll)]
  {
    if enemies == [] || GapClear(enemies, screenWidth, jumpLength) then
      [NewPteranodon(a, screenWidth, screenHeight, heightRoll, indexRoll)]
    else
      []
  }

  /**
   * Why the gate exists: whatever either spawner appends after a non-empty list starts
   * more than one jump length beyond the right end of the last obstacle.
   */
  lemma SpawnLeavesJumpRoom(a: Assets, screenWidth: int, screenHeight: int, jumpLength: int,
                            enemies: seq<Enemy>, rolls: CactusRolls, heightRoll: nat, indexRoll: nat)
    requires a.Valid() && rolls.cluster.Enough() && enemies != []
    ensures var cacti := CactusSpawn(a, screenWidth, screenHeight, jumpLength, enemies, rolls);
            var last := enemies[|enemies| - 1];
            cacti != [] ==> cacti[0].x > last.x + (last.width + jumpLength) as real
    ensures var ptera := PteranodonSpawn(a, screenWidth, screenHeight, jumpLength, enemies, heightRoll, indexRoll);
            var last := enemies[|enemies| - 1];
            ptera != [] ==> ptera[0].x > last.x + (last.width + jumpLength) as real
  {
  }

  // ---------------------------------------------------------------- collisions

  /**
   * The collision scan: walks the obstacles in order and stops at the first whose
   * rectangle overlaps the player's.
   */
  method FindOverlap(enemies: seq<Enemy>, player: Rect) returns (hit: bool, at: nat)
    ensures hit <==> exists i :: 0 <= i < |enemies| && Overlaps(EnemyRect(enemies[i]), player)
    ensures hit ==> at < |enemies| && Overlaps(EnemyRect(enemies[at]), player)
    ensures hit ==> forall j :: 0 <= j < at ==> !Overlaps(EnemyRect(enemies[j]), player)
  {
    hit, at := false, 0;
    while at < |enemies|
      invariant at <= |enemies|
      invariant forall j :: 0 <= j < at ==> !Overlaps(EnemyRect(enemies[j]), player)
    {
      if Overlaps(EnemyRect(enemies[at]), player) {
        hit := true;
        return;
      }
      at := at + 1;
    }
  }
}
