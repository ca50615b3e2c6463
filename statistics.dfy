/**
 * Summary statistics over temperature values: `Math.min`, `Math.max` and the
 * `reduce` sum as folds, and `calculateStatistics`, which stores the overall
 * minimum, maximum and mean in the global `dataStats` that the radius formula
 * and the legend read.
 */
module Statistics {
  import opened Wrappers

  /** A double restricted to what the statistics can produce: a real or an infinity. */
  datatype Ext = NegInf | Finite(x: real) | PosInf

  /** The smallest value, folded from the left as `if (v < min) min = v` does. */
  function MinOf(s: seq<real>): (m: real)
    requires |s| > 0
    ensures m in s
    ensures forall i :: 0 <= i < |s| ==> m <= s[i]
  {
    if |s| == 1 then s[0]
    else
      var m := MinOf(s[..|s| - 1]);
      var last := s[|s| - 1];
      assert forall i :: 0 <= i < |s| - 1 ==> s[i] == s[..|s| - 1][i];
      if last < m then last else m
  }

  /** The largest value, folded from the left as `if (v > max) max = v` does. */
  function MaxOf(s: seq<real>): (m: real)
    requires |s| > 0
    ensures m in s
    ensures forall i :: 0 <= i < |s| ==> s[i] <= m
  {
    if |s| == 1 then s[0]
    else
      var m := MaxOf(s[..|s| - 1]);
      var last := s[|s| - 1];
      assert forall i :: 0 <= i < |s| - 1 ==> s[i] == s[..|s| - 1][i];
      if last > m then last else m
  }

  /** `s.reduce((a, b) => a + b)` for a non-empty `s`. */
  function Sum(s: seq<real>): real
  {
    if s == [] then 0.0 else Sum(s[..|s| - 1]) + s[|s| - 1]
  }

  /** `n` copies of `x` added up, that is `n * x` without a non-linear term. */
  function Times(n: nat, x: real): real
  {
    if n == 0 then 0.0 else Times(n - 1, x) + x
  }

  /** `Times` is multiplication. */
  lemma {:induction false} TimesIsProduct(n: nat, x: real)
    ensures Times(n, x) == n as real * x
  {
    if n > 0 {
      TimesIsProduct(n - 1, x);
      assert (n - 1) as real * x + x == n as real * x;
    }
  }

  /** Adding up copies keeps an inequality. */
  lemma {:induction false} TimesMonotone(n: nat, a: real, b: real)
    requires a <= b
    ensures Times(n, a) <= Times(n, b)
  {
    if n > 0 {
      TimesMonotone(n - 1, a, b);
    }
  }

  /** The sum lies between `|s|` copies of the minimum and `|s|` copies of the maximum. */
  lemma {:induction false} SumBounds(s: seq<real>)
    requires |s| > 0
    ensures Times(|s|, MinOf(s)) <= Sum(s) <= Times(|s|, MaxOf(s))
    decreases |s|
  {
    var init, last := s[..|s| - 1], s[|s| - 1];
    if |s| == 1 {
      assert init == [];
    } else {
      SumBounds(init);
      TimesMonotone(|init|, MinOf(s), MinOf(init));
      TimesMonotone(|init|, MaxOf(init), MaxOf(s));
    }
  }

  /** The arithmetic mean `sum / length`. */
  function Mean(s: seq<real>): real
    requires |s| > 0
  {
    Sum(s) / |s| as real
  }

  /** Dividing bounds on `n` copies of a value by `n`. */
  lemma DivideBounds(lo: real, total: real, hi: real, n: real)
    requires n > 0.0 && n * lo <= total <= n * hi
    ensures lo <= total / n <= hi
  {
    var q := total / n;
    assert n * q == total;
  }

  /** A total of `n` values bounded by `n` copies of `lo` and of `hi` has its average in between. */
  lemma AverageBounds(n: nat, lo: real, total: real, hi: real)
    requires n > 0 && Times(n, lo) <= total <= Times(n, hi)
    ensures lo <= total / n as real <= hi
  {
    TimesIsProduct(n, lo);
    TimesIsProduct(n, hi);
    DivideBounds(lo, total, hi, n as real);
  }

  /** The mean lies between the minimum and the maximum. */
  lemma MeanBetween(s: seq<real>)
    requires |s| > 0
    ensures MinOf(s) <= Mean(s) <= MaxOf(s)
  {
    SumBounds(s);
    AverageBounds(|s|, MinOf(s), Sum(s), MaxOf(s));
  }

  /** The mean of a constant sequence is that constant, and so are its extremes. */
  lemma {:induction false} ConstantStatistics(s: seq<real>, c: real)
    requires |s| > 0
    requires forall i :: 0 <= i < |s| ==> s[i] == c
    ensures MinOf(s) == c && MaxOf(s) == c && Mean(s) == c
  {
    MeanBetween(s);
  }

  /**
   * The global `dataStats` object. Each field is `None` while it is still
   * absent from the object, as in the initial `{}`.
   */
  class DataStats {
    var min: Option<Ext>
    var max: Option<Ext>
    var mean: Option<real>

    constructor ()
      ensures min == None && max == None && mean == None
    {
      min, max, mean := None, None, None;
    }

    /**
     * The assignments at the end of `calculateStatistics` over the collected
     * values. `Math.min()` and `Math.max()` of nothing are the infinities, and
     * `reduce` on an empty array throws before `mean` is written; `ok` is false then.
     */
    method CalculateStatistics(allValues: seq<real>) returns (ok: bool)
      modifies this
      ensures ok <==> |allValues| > 0
      ensures ok ==> min == Some(Finite(MinOf(allValues))) && max == Some(Finite(MaxOf(allValues)))
      ensures ok ==> mean == Some(Mean(allValues))
      ensures ok ==> min.value.x <= mean.value <= max.value.x
      ensures ok ==> forall i :: 0 <= i < |allValues| ==> min.value.x <= allValues[i] <= max.value.x
      ensures !ok ==> min == Some(PosInf) && max == Some(NegInf) && mean == old(mean)
    {
      if |allValues| == 0 {
        min := Some(PosInf);
        max := Some(NegInf);
        return false;
      }
      min := Some(Finite(MinOf(allValues)));
      max := Some(Finite(MaxOf(allValues)));
      var sum := Sum(allValues);
      mean := Some(sum / |allValues| as real);
      MeanBetween(allValues);
      return true;
    }
  }
}
