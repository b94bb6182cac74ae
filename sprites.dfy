/**
 * Sprite dimensions. The game loads its images once at start-up and afterwards only
 * asks for their width and height; this module stands for that read-only catalogue.
 */
module Sprites {

  datatype Size = Size(width: int, height: int)

  predicate Positive(s: Size) {
    s.width > 0 && s.height > 0
  }

  /**
   * The catalogue: "cactus_1".."cactus_9" at cacti[0..8], "pteranodon_1" and
   * "pteranodon_2" at pteranodons[0..1], "dino_1".."dino_8" at dinos[1..8] (slot 0 is
   * unused: "dino_0" is dropped from the catalogue), and the cloud and digit images.
   */
  datatype Assets = Assets(
    cacti: seq<Size>,
    pteranodons: seq<Size>,
    dinos: seq<Size>,
    cloud: Size,
    digit: Size)
  {
    predicate Valid() {
      |cacti| == 9 && |pteranodons| == 2 && |dinos| == 9 &&
      (forall i :: 0 <= i < |cacti| ==> Positive(cacti[i])) &&
      (forall i :: 0 <= i < |pteranodons| ==> Positive(pteranodons[i])) &&
      (forall i :: 0 <= i < |dinos| ==> Positive(dinos[i])) &&
      Positive(cloud) && Positive(digit)
    }

    /** The size of "cactus_<index>". */
    function Cactus(index: int): (s: Size)
      requires Valid() && 1 <= index <= 9
      ensures Positive(s)
    {
      cacti[index - 1]
    }

    /** The size of "pteranodon_<index>". */
    function Pteranodon(index: int): (s: Size)
      requires Valid() && 1 <= index <= 2
      ensures Positive(s)
    {
      pteranodons[index - 1]
    }

    /** The size of "dino_<index>". */
    function Dino(index: int): (s: Size)
      requires Valid() && 1 <= index <= 8
      ensures Positive(s)
    {
      dinos[index]
    }
  }
}
