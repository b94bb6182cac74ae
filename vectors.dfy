/**
 * The off-screen filter applied to the obstacle and cloud vectors: std::remove_if
 * followed by erase of the single position remove_if returned.
 */
module Vectors {

  /** The elements of s that drop rejects, in their original order. */
  function Without<T>(s: seq<T>, drop: T -> bool): seq<T>
    decreases |s|
  {
    if s == [] then []
    else Without(s[..|s| - 1], drop) + (if drop(s[|s| - 1]) then [] else [s[|s| - 1]])
  }

  /** Reference characterisation: Without keeps exactly the undropped elements, never more. */
  lemma {:induction false} WithoutMembers<T>(s: seq<T>, drop: T -> bool)
    ensures |Without(s, drop)| <= |s|
    ensures forall x :: x in Without(s, drop) <==> x in s && !drop(x)
  {
    if s != [] {
      var init := s[..|s| - 1];
      WithoutMembers(init, drop);
      assert s == init + [s[|s| - 1]];
    }
  }

  /** Nothing is dropped exactly when the filter keeps the whole sequence. */
  lemma {:induction false} WithoutKeepsAll<T>(s: seq<T>, drop: T -> bool)
    ensures Without(s, drop) == s <==> forall i :: 0 <= i < |s| ==> !drop(s[i])
    ensures |Without(s, drop)| == |s| <==> Without(s, drop) == s
  {
    if s != [] {
      var init := s[..|s| - 1];
      WithoutKeepsAll(init, drop);
      WithoutMembers(init, drop);
      assert s == init + [s[|s| - 1]];
      if Without(s, drop) == s {
        assert Without(s, drop)[..|s| - 1] == init;
        forall i | 0 <= i < |s| ensures !drop(s[i]) {
          if i == |s| - 1 {
            assert |Without(init, drop)| <= |init|;
          } else {
            assert Without(init, drop) == init;
          }
        }
      }
    }
  }

  /**
   * std::remove_if: the kept elements are moved, in order, to the front; k is the new
   * logical end. What lies at and after k is left as the elements that were there.
   */
  method RemoveIf<T>(s: seq<T>, drop: T -> bool) returns (r: seq<T>, k: nat)
    ensures |r| == |s| && k <= |s|
    ensures r[..k] == Without(s, drop)
    ensures forall x :: x in r ==> x in s
  {
    r, k := s, 0;
    var i := 0;
    while i < |s|
      invariant k <= i <= |s| && |r| == |s|
      invariant r[..k] == Without(s[..i], drop)
      invariant r[i..] == s[i..]
      invariant forall x :: x in r ==> x in s
    {
      assert s[..i + 1][..i] == s[..i];
      if !drop(s[i]) {
        r := r[k := s[i]];
        k := k + 1;
      }
      i := i + 1;
    }
    assert s[..|s|] == s;
  }

  /**
   * The filter as the game writes it: remove_if, then erase of the one position it
   * returned (erase(i) rather than erase(i, end)). The survivors come first, in order;
   * the vector loses at most one element, and whatever is left behind them is some
   * element of the old vector.
   */
  method RemoveIfEraseOne<T>(s: seq<T>, drop: T -> bool) returns (r: seq<T>)
    ensures |Without(s, drop)| <= |r|
    ensures r[..|Without(s, drop)|] == Without(s, drop)
    ensures |r| == if Without(s, drop) == s then |s| else |s| - 1
    ensures forall x :: x in r ==> x in s
  {
    var k;
    r, k := RemoveIf(s, drop);
    WithoutKeepsAll(s, drop);
    WithoutMembers(s, drop);
    if k < |r| {
      assert r[..k] == (r[..k] + r[k + 1..])[..k];
      r := r[..k] + r[k + 1..];
    }
  }

  /**
   * When two or more elements go in the same call, the single erase leaves the vector
   * one entry longer than the survivors: a leftover from the tail stays behind them.
   */
  lemma {:induction false} TwoDropsLeaveLeftover<T>(s: seq<T>, r: seq<T>, drop: T -> bool, i: nat, j: nat)
    requires i < j < |s| && drop(s[i]) && drop(s[j])
    requires |r| == if Without(s, drop) == s then |s| else |s| - 1
    ensures |r| == |s| - 1 && |Without(s, drop)| < |r|
  {
    DroppedShrink(s, drop, i, j);
    WithoutKeepsAll(s, drop);
  }

  /** Two dropped positions shorten the filtered sequence by at least two. */
  lemma {:induction false} DroppedShrink<T>(s: seq<T>, drop: T -> bool, i: nat, j: nat)
    requires i < j < |s| && drop(s[i]) && drop(s[j])
    ensures |Without(s, drop)| <= |s| - 2
    decreases |s|
  {
    var init := s[..|s| - 1];
    if j == |s| - 1 {
      OneDroppedShrinks(init, drop, i);
    } else {
      DroppedShrink(init, drop, i, j);
    }
  }

  /** One dropped position shortens the filtered sequence by at least one. */
  lemma {:induction false} OneDroppedShrinks<T>(s: seq<T>, drop: T -> bool, i: nat)
    requires i < |s| && drop(s[i])
    ensures |Without(s, drop)| <= |s| - 1
  {
    WithoutKeepsAll(s, drop);
    WithoutMembers(s, drop);
  }

  /** With at most one element dropped the filter is exact. */
  lemma SingleDropIsExact<T>(s: seq<T>, r: seq<T>, drop: T -> bool)
    requires |Without(s, drop)| >= |s| - 1
    requires |Without(s, drop)| <= |r|
    requires r[..|Without(s, drop)|] == Without(s, drop)
    requires |r| == if Without(s, drop) == s then |s| else |s| - 1
    ensures r == Without(s, drop)
  {
    WithoutKeepsAll(s, drop);
  }
}
