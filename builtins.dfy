/** The few Python built-ins the trainer and the plotter rely on, over unbounded integers. */
module Builtins {

  /** Python's `sum`: a left fold from 0, adding the elements in order. */
  function Sum(xs: seq<int>): (s: int)
    ensures xs == [] ==> s == 0
  {
    if xs == [] then 0 else Sum(xs[..|xs| - 1]) + xs[|xs| - 1]
  }

  /** Summing a concatenation is summing the parts. */
  lemma {:induction false} SumConcat(xs: seq<int>, ys: seq<int>)
    ensures Sum(xs + ys) == Sum(xs) + Sum(ys)
    decreases |ys|
  {
    if ys == [] {
      assert xs + ys == xs;
    } else {
      var init := ys[..|ys| - 1];
      assert (xs + ys)[..|xs + ys| - 1] == xs + init;
      assert (xs + ys)[|xs + ys| - 1] == ys[|ys| - 1];
      SumConcat(xs, init);
    }
  }

  /** Adding one more element adds its value. */
  lemma SumSnoc(xs: seq<int>, x: int)
    ensures Sum(xs + [x]) == Sum(xs) + x
  {
    assert (xs + [x])[..|xs|] == xs;
  }

  /** Python's `min` of two numbers. */
  function Min(a: int, b: int): (m: int)
    ensures m <= a && m <= b
    ensures m == a || m == b
  {
    if a <= b then a else b
  }

  /** The length of `range(n)`: a negative bound gives an empty range. */
  function RangeLength(n: int): nat
  {
    if n < 0 then 0 else n
  }

  /** The values `range(n)` yields: 0, 1, ..., n - 1, as many as RangeLength(n). */
  function Range(n: int): (r: seq<int>)
    ensures |r| == RangeLength(n)
    ensures forall k :: 0 <= k < |r| ==> r[k] == k
    decreases RangeLength(n)
  {
    if n <= 0 then [] else Range(n - 1) + [n - 1]
  }
}
