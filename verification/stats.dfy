/** Reductions over sequences of reals that the detector takes from numpy:
    `np.sum`, `np.mean`, `np.std` (population form, ddof = 0) and `np.max`.
    Arithmetic is exact; the square root inside `np.std` is never computed:
    a standard deviation is a non-negative number whose square is the variance. */
module Stats {

  /** Sum of the elements, left to right. */
  function Sum(s: seq<real>): real
  {
    if s == [] then 0.0 else s[0] + Sum(s[1..])
  }

  /** Arithmetic mean, as `np.mean`; numpy yields NaN on an empty array, so it is excluded. */
  function Mean(s: seq<real>): real
    requires |s| > 0
  {
    Sum(s) / (|s| as real)
  }

  function Square(x: real): real
  {
    x * x
  }

  /** `abs(x - m) ** 2` for every element x. */
  function SquaredDeviations(s: seq<real>, m: real): (d: seq<real>)
    ensures |d| == |s|
    ensures forall i :: 0 <= i < |s| ==> d[i] >= 0.0
  {
    var d := seq(|s|, i requires 0 <= i < |s| => Square(s[i] - m));
    assert forall i :: 0 <= i < |s| ==> d[i] >= 0.0 by {
      forall i | 0 <= i < |s| ensures d[i] >= 0.0 {
        if s[i] != m { SquarePositive(s[i] - m); }
      }
    }
    d
  }

  /** Population variance: the mean squared deviation from the mean (`np.var`, ddof = 0). */
  function Variance(s: seq<real>): real
    requires |s| > 0
  {
    Mean(SquaredDeviations(s, Mean(s)))
  }

  /** `sd` is what `np.std(s)` returns: the non-negative square root of the population variance. */
  predicate IsPopulationSd(s: seq<real>, sd: real)
  {
    |s| > 0 && 0.0 <= sd && Square(sd) == Variance(s)
  }

  /** All elements are the same number. */
  predicate Constant(s: seq<real>)
  {
    forall i, j :: 0 <= i < |s| && 0 <= j < |s| ==> s[i] == s[j]
  }

  /** Largest element, as `np.max`; numpy raises on an empty array, so callers check first. */
  function Max(s: seq<real>): (r: real)
    requires |s| > 0
    ensures r in s
    ensures forall i :: 0 <= i < |s| ==> s[i] <= r
  {
    if |s| == 1 then s[0]
    else
      var rest := Max(s[1..]);
      assert forall i :: 1 <= i < |s| ==> s[i] == s[1..][i - 1];
      if s[0] >= rest then s[0] else rest
  }

  /** The square of a non-zero number is positive. */
  lemma SquarePositive(x: real)
    requires x != 0.0
    ensures Square(x) > 0.0
  {
    if x < 0.0 {
      calc {
        Square(x);
        x * x;
        (-x) * (-x);
      >
        0.0;
      }
    } else {
      calc {
        Square(x);
        x * x;
      >
        0.0;
      }
    }
  }

  /** Only zero squares to zero. */
  lemma SquareZero(x: real)
    requires Square(x) == 0.0
    ensures x == 0.0
  {
    if x != 0.0 {
      SquarePositive(x);
    }
  }

  /** A number at least c away from zero squares to at least c squared. */
  lemma SquareAtLeast(x: real, c: real)
    requires 0.0 <= c
    requires x <= -c || c <= x
    ensures Square(c) <= Square(x)
  {
  }

  lemma {:induction false} SumAtLeast(s: seq<real>, c: real)
    requires forall i :: 0 <= i < |s| ==> c <= s[i]
    ensures (|s| as real) * c <= Sum(s)
  {
    if s != [] {
      SumAtLeast(s[1..], c);
      assert (|s| as real) * c == c + ((|s| - 1) as real) * c;
    }
  }

  lemma {:induction false} SumAtMost(s: seq<real>, c: real)
    requires forall i :: 0 <= i < |s| ==> s[i] <= c
    ensures Sum(s) <= (|s| as real) * c
  {
    if s != [] {
      SumAtMost(s[1..], c);
      assert (|s| as real) * c == c + ((|s| - 1) as real) * c;
    }
  }

  /** A sum of non-negative terms is zero only when every term is. */
  lemma {:induction false} SumZeroForcesZero(s: seq<real>)
    requires forall i :: 0 <= i < |s| ==> 0.0 <= s[i]
    requires Sum(s) == 0.0
    ensures forall i :: 0 <= i < |s| ==> s[i] == 0.0
  {
    if s != [] {
      SumAtLeast(s[1..], 0.0);
      SumZeroForcesZero(s[1..]);
      assert forall i :: 1 <= i < |s| ==> s[i] == s[1..][i - 1];
    }
  }

  lemma MeanAtLeast(s: seq<real>, c: real)
    requires |s| > 0
    requires forall i :: 0 <= i < |s| ==> c <= s[i]
    ensures c <= Mean(s)
  {
    SumAtLeast(s, c);
    var n := |s| as real;
    assert Mean(s) * n == Sum(s);
  }

  lemma MeanAtMost(s: seq<real>, c: real)
    requires |s| > 0
    requires forall i :: 0 <= i < |s| ==> s[i] <= c
    ensures Mean(s) <= c
  {
    SumAtMost(s, c);
    var n := |s| as real;
    assert Mean(s) * n == Sum(s);
  }

  /** A mean of non-negative terms is zero only when every term is. */
  lemma MeanZeroForcesZero(s: seq<real>)
    requires |s| > 0
    requires forall i :: 0 <= i < |s| ==> 0.0 <= s[i]
    requires Mean(s) == 0.0
    ensures forall i :: 0 <= i < |s| ==> s[i] == 0.0
  {
    var n := |s| as real;
    assert Sum(s) == Mean(s) * n;
    SumZeroForcesZero(s);
  }

  /** The variance vanishes exactly on constant data, and then the mean is that constant. */
  lemma ZeroVarianceIffConstant(s: seq<real>)
    requires |s| > 0
    ensures Variance(s) == 0.0 <==> Constant(s)
    ensures Constant(s) ==> Mean(s) == s[0]
  {
    var m := Mean(s);
    var d := SquaredDeviations(s, m);
    if Constant(s) {
      MeanAtLeast(s, s[0]);
      MeanAtMost(s, s[0]);
      assert forall i :: 0 <= i < |s| ==> d[i] == 0.0;
      MeanAtMost(d, 0.0);
      MeanAtLeast(d, 0.0);
    }
    if Variance(s) == 0.0 {
      MeanZeroForcesZero(d);
      forall i | 0 <= i < |s|
        ensures s[i] == m
      {
        calc {
          Square(s[i] - m);
          d[i];
          0.0;
        }
        SquareZero(s[i] - m);
      }
    }
  }

  /** The standard deviation is zero exactly when the variance is. */
  lemma ZeroSdIffZeroVariance(s: seq<real>, sd: real)
    requires IsPopulationSd(s, sd)
    ensures sd == 0.0 <==> Variance(s) == 0.0
  {
    if sd != 0.0 {
      calc {
        Variance(s);
        Square(sd);
      > { SquarePositive(sd); }
        0.0;
      }
    }
  }
}
