/**
 * Coordinate axes as the drivers build them (np.arange(n) * step + start) and the lookup the
 * scripts make on an axis: the first position holding a value.
 */
module Grids {
  import opened Wrappers

  predicate StrictlyIncreasing(xs: seq<real>)
  {
    forall i, j :: 0 <= i < j < |xs| ==> xs[i] < xs[j]
  }

  /** np.arange(n) * step + start: n points from start, step apart. */
  function Spaced(n: nat, start: real, step: real): (xs: seq<real>)
    ensures |xs| == n
  {
    seq(n, i => (i as real) * step + start)
  }

  /** Points step apart rise with their position, and the first one is the start. */
  lemma SpacedIncreasing(n: nat, start: real, step: real)
    requires step > 0.0
    ensures StrictlyIncreasing(Spaced(n, start, step))
    ensures n > 0 ==> Spaced(n, start, step)[0] == start
    ensures forall i :: 0 < i < n ==> Spaced(n, start, step)[i] - Spaced(n, start, step)[i - 1] == step
  {
    var xs := Spaced(n, start, step);
    forall i, j | 0 <= i < j < n ensures xs[i] < xs[j] {
      assert xs[j] - xs[i] == ((j - i) as real) * step;
    }
  }

  /** np.where(xs == x)[0][0]: the first position holding x. */
  function FirstIndex(xs: seq<real>, x: real): (i: nat)
    requires x in xs
    ensures i < |xs| && xs[i] == x
    ensures forall j :: 0 <= j < i ==> xs[j] != x
  {
    if xs[0] == x then 0 else 1 + FirstIndex(xs[1..], x)
  }

  /** On an axis whose values are distinct, looking a value up gives back its position. */
  lemma FirstIndexOfDistinct(xs: seq<real>, i: nat)
    requires StrictlyIncreasing(xs) && i < |xs|
    ensures FirstIndex(xs, xs[i]) == i
  {
    var k := FirstIndex(xs, xs[i]);
    assert forall j :: 0 <= j < |xs| && j != i ==> xs[j] != xs[i];
  }
}
