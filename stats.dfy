/** Arithmetic shared by the report and the dashboard: the `reduce` sum, the
    mean, its bounds, and `Math.round`. Numbers are exact integers and reals;
    IEEE rounding is not modelled. */
module Stats {

  /** `reduce((sum, x) => sum + x, acc)`: the accumulator is carried from
      left to right. */
  function Reduce(acc: int, xs: seq<int>): int
    decreases |xs|
  {
    if xs == [] then acc else Reduce(acc + xs[0], xs[1..])
  }

  /** The accumulator can be taken out of the fold. */
  lemma {:induction false} ReduceShift(acc: int, xs: seq<int>)
    ensures Reduce(acc, xs) == acc + Reduce(0, xs)
    decreases |xs|
  {
    if xs != [] {
      ReduceShift(acc + xs[0], xs[1..]);
      ReduceShift(xs[0], xs[1..]);
    }
  }

  /** The sum of `xs`, defined from the front; it is the value
      `xs.reduce((sum, x) => sum + x, 0)` accumulates. */
  function Sum(xs: seq<int>): (s: int)
    ensures s == Reduce(0, xs)
  {
    if xs == [] then 0
    else
      ReduceShift(xs[0], xs[1..]);
      xs[0] + Sum(xs[1..])
  }

  /** The smallest element of a non-empty sequence. */
  function MinOf(xs: seq<int>): (m: int)
    requires |xs| > 0
    ensures m in xs
    ensures forall i :: 0 <= i < |xs| ==> m <= xs[i]
  {
    if |xs| == 1 then xs[0]
    else
      var t := MinOf(xs[1..]);
      if xs[0] <= t then xs[0] else t
  }

  /** The largest element of a non-empty sequence. */
  function MaxOf(xs: seq<int>): (m: int)
    requires |xs| > 0
    ensures m in xs
    ensures forall i :: 0 <= i < |xs| ==> xs[i] <= m
  {
    if |xs| == 1 then xs[0]
    else
      var t := MaxOf(xs[1..]);
      if xs[0] >= t then xs[0] else t
  }

  /** A sum of `n` terms each between `lo` and `hi` lies between `n * lo` and
      `n * hi`. */
  lemma {:induction false} SumBetween(xs: seq<int>, lo: int, hi: int)
    requires forall i :: 0 <= i < |xs| ==> lo <= xs[i] <= hi
    ensures |xs| * lo <= Sum(xs) <= |xs| * hi
  {
    if xs != [] {
      SumBetween(xs[1..], lo, hi);
      assert |xs| * lo == lo + (|xs| - 1) * lo;
      assert |xs| * hi == hi + (|xs| - 1) * hi;
    }
  }

  /** The arithmetic mean `sum / count` of a non-empty sequence. */
  function Mean(xs: seq<int>): (m: real)
    requires |xs| > 0
    ensures m * |xs| as real == Sum(xs) as real
  {
    Sum(xs) as real / |xs| as real
  }

  /** Dividing by a positive count keeps an inequality: from
      `n * lo <= s <= n * hi` follows `lo <= s / n <= hi`. */
  lemma DivideBounds(s: int, n: int, lo: int, hi: int)
    requires n > 0 && n * lo <= s <= n * hi
    ensures lo as real <= s as real / n as real <= hi as real
  {
    var q := s as real / n as real;
    assert q * n as real == s as real;
    assert (n * lo) as real == n as real * lo as real;
    assert (n * hi) as real == n as real * hi as real;
  }

  /** Dividing by a positive count and multiplying back gives the dividend. */
  lemma DivideTimes(s: int, n: int)
    requires n > 0
    ensures (s as real / n as real) * n as real == s as real
  {
  }

  /** The mean lies between the smallest and the largest element. */
  lemma MeanBetween(xs: seq<int>)
    requires |xs| > 0
    ensures MinOf(xs) as real <= Mean(xs) <= MaxOf(xs) as real
  {
    SumBetween(xs, MinOf(xs), MaxOf(xs));
    DivideBounds(Sum(xs), |xs|, MinOf(xs), MaxOf(xs));
  }

  /** `Math.round`: the nearest integer, halves rounded up (towards +infinity). */
  function Round(x: real): (r: int)
    ensures x - 0.5 < r as real <= x + 0.5
  {
    (x + 0.5).Floor
  }

  /** Rounding a value that lies between two integers stays between them. */
  lemma RoundBetween(x: real, lo: int, hi: int)
    requires lo as real <= x <= hi as real
    ensures lo <= Round(x) <= hi
  {
  }

  /** The rounded mean lies between the smallest and the largest element. */
  lemma RoundedMeanBetween(xs: seq<int>)
    requires |xs| > 0
    ensures MinOf(xs) <= Round(Mean(xs)) <= MaxOf(xs)
  {
    MeanBetween(xs);
    RoundBetween(Mean(xs), MinOf(xs), MaxOf(xs));
  }
}
