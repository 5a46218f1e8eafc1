/** Threshold estimation from the reconstruction errors of the clean training rows.
    The raw threshold is the largest error. The trimmed threshold, the one used for
    classification, first drops every error outside the open band
    (mean - 2 sd, mean + 2 sd), in two passes (lower bound, then upper bound), and takes
    the largest error left. `sd` is the population standard deviation of the errors,
    given as the non-negative number whose square is their variance. */
module Threshold {
  import opened Stats

  /** Bounds of the kept band: two standard deviations either side of the mean. */
  function Lower(mean: real, sd: real): real { mean - 2.0 * sd }

  function Upper(mean: real, sd: real): real { mean + 2.0 * sd }

  /** First trimming pass: `[x for x in s if x > lo]`. */
  function KeepAbove(s: seq<real>, lo: real): (r: seq<real>)
    ensures |r| <= |s|
    ensures forall x :: x in r <==> x in s && lo < x
  {
    if s == [] then []
    else
      assert s == [s[0]] + s[1..];
      (if lo < s[0] then [s[0]] else []) + KeepAbove(s[1..], lo)
  }

  /** Second trimming pass: `[x for x in s if x < hi]`. */
  function KeepBelow(s: seq<real>, hi: real): (r: seq<real>)
    ensures |r| <= |s|
    ensures forall x :: x in r <==> x in s && x < hi
  {
    if s == [] then []
    else
      assert s == [s[0]] + s[1..];
      (if s[0] < hi then [s[0]] else []) + KeepBelow(s[1..], hi)
  }

  /** Reference definition of the trimmed list: the elements strictly inside the open
      band (lo, hi), in their original order. */
  function InsideBand(s: seq<real>, lo: real, hi: real): (r: seq<real>)
    ensures |r| <= |s|
    ensures forall x :: x in r <==> x in s && lo < x < hi
  {
    if s == [] then []
    else
      assert s == [s[0]] + s[1..];
      (if lo < s[0] < hi then [s[0]] else []) + InsideBand(s[1..], lo, hi)
  }

  /** The elements the trimming removes: those on or beyond either bound. */
  function OutsideBand(s: seq<real>, lo: real, hi: real): (r: seq<real>)
    ensures |r| <= |s|
    ensures forall x :: x in r <==> x in s && (x <= lo || hi <= x)
  {
    if s == [] then []
    else
      assert s == [s[0]] + s[1..];
      (if lo < s[0] < hi then [] else [s[0]]) + OutsideBand(s[1..], lo, hi)
  }

  /** The two comprehension passes keep exactly the band, in order: both bounds are
      exclusive, so an error equal to either bound is dropped. */
  lemma {:induction false} TwoPassTrimIsBand(s: seq<real>, lo: real, hi: real)
    ensures KeepBelow(KeepAbove(s, lo), hi) == InsideBand(s, lo, hi)
  {
    if s != [] {
      TwoPassTrimIsBand(s[1..], lo, hi);
      var rest := KeepAbove(s[1..], lo);
      var above := KeepAbove(s, lo);
      if lo < s[0] {
        assert above == [s[0]] + rest;
        assert above[0] == s[0] && above[1..] == rest;
      } else {
        assert above == rest;
      }
    }
  }

  /** Trimming preserves order: the band of a concatenation is the concatenation of
      the bands. */
  lemma {:induction false} InsideBandAppend(a: seq<real>, b: seq<real>, lo: real, hi: real)
    ensures InsideBand(a + b, lo, hi) == InsideBand(a, lo, hi) + InsideBand(b, lo, hi)
  {
    if a == [] {
      assert a + b == b;
    } else {
      assert (a + b)[0] == a[0];
      assert (a + b)[1..] == a[1..] + b;
      InsideBandAppend(a[1..], b, lo, hi);
    }
  }

  /** Every error is either kept or removed, and none is both. */
  lemma {:induction false} BandPartition(s: seq<real>, lo: real, hi: real)
    ensures multiset(InsideBand(s, lo, hi)) + multiset(OutsideBand(s, lo, hi)) == multiset(s)
    ensures |InsideBand(s, lo, hi)| + |OutsideBand(s, lo, hi)| == |s|
  {
    if s != [] {
      BandPartition(s[1..], lo, hi);
      assert s == [s[0]] + s[1..];
    }
    assert |multiset(InsideBand(s, lo, hi)) + multiset(OutsideBand(s, lo, hi))|
        == |InsideBand(s, lo, hi)| + |OutsideBand(s, lo, hi)|;
  }

  /** `final_list` after the two comprehensions, with `mean = np.mean(errors)`. */
  function Trimmed(errors: seq<real>, sd: real): seq<real>
    requires |errors| > 0
  {
    var m := Mean(errors);
    KeepBelow(KeepAbove(errors, Lower(m, sd)), Upper(m, sd))
  }

  datatype Thresholds = Thresholds(
    raw: real,      // `threshold`: the largest training error
    trimmed: real,  // `sd_threshold`: the largest training error inside the band
    removed: nat    // how many training errors the trimming dropped
  )

  /** Why no threshold comes out: the clean training set is empty (the run cannot
      train or score on it), or the trimmed list is empty and `np.max(final_list)` raises. */
  datatype ThresholdError = NoErrors | EmptyBand

  datatype Result<T> = Ok(value: T) | Err(error: ThresholdError)

  /** Both thresholds and the removed count, computed from the clean training errors. */
  function EstimateThreshold(errors: seq<real>, sd: real): (r: Result<Thresholds>)
    requires |errors| > 0 ==> IsPopulationSd(errors, sd)
    ensures r == Err(NoErrors) <==> |errors| == 0
    ensures r.Ok? ==> r.value.removed < |errors|
  {
    if |errors| == 0 then Err(NoErrors)
    else
      var kept := Trimmed(errors, sd);
      if |kept| == 0 then Err(EmptyBand)
      else Ok(Thresholds(Max(errors), Max(kept), |errors| - |kept|))
  }

  /** What a successful estimate promises: the raw threshold is the largest training
      error; the trimmed threshold is an actual training error strictly inside the band
      and the largest such, hence no greater than the raw one; the removed count is the
      number of errors on or beyond either bound. */
  lemma EstimateThresholdBounds(errors: seq<real>, sd: real)
    requires |errors| > 0 ==> IsPopulationSd(errors, sd)
    requires EstimateThreshold(errors, sd).Ok?
    ensures
      var t := EstimateThreshold(errors, sd).value;
      var lo, hi := Lower(Mean(errors), sd), Upper(Mean(errors), sd);
      && t.raw in errors
      && (forall i :: 0 <= i < |errors| ==> errors[i] <= t.raw)
      && t.trimmed in errors
      && lo < t.trimmed < hi
      && (forall i :: 0 <= i < |errors| && lo < errors[i] < hi ==> errors[i] <= t.trimmed)
      && t.trimmed <= t.raw
      && t.removed == |OutsideBand(errors, lo, hi)|
  {
    var t := EstimateThreshold(errors, sd).value;
    var m := Mean(errors);
    var lo, hi := Lower(m, sd), Upper(m, sd);
    var kept := Trimmed(errors, sd);
    TwoPassTrimIsBand(errors, lo, hi);
    BandPartition(errors, lo, hi);
    assert t.trimmed == Max(kept) && t.trimmed in kept;
    forall i | 0 <= i < |errors| && lo < errors[i] < hi
      ensures errors[i] <= t.trimmed
    {
      assert errors[i] in errors;
      assert errors[i] in kept;
    }
  }

  /** Every squared deviation from m is at least c squared when no element lies
      strictly within c of m. */
  lemma SquaredDeviationsAtLeast(s: seq<real>, m: real, c: real)
    requires 0.0 <= c
    requires forall i :: 0 <= i < |s| ==> s[i] <= m - c || m + c <= s[i]
    ensures forall i :: 0 <= i < |s| ==> Square(c) <= SquaredDeviations(s, m)[i]
  {
  }

  /** When the band keeps nothing, every element is on or beyond a bound. */
  lemma EmptyBandMeansAllOutside(s: seq<real>, lo: real, hi: real)
    requires InsideBand(s, lo, hi) == []
    ensures forall i :: 0 <= i < |s| ==> s[i] <= lo || hi <= s[i]
  {
  }

  /** If no element lies strictly within c of the mean, the variance is at least c squared. */
  lemma BandGapBoundsVariance(s: seq<real>, c: real)
    requires |s| > 0 && 0.0 <= c
    requires InsideBand(s, Mean(s) - c, Mean(s) + c) == []
    ensures Square(c) <= Variance(s)
  {
    var m := Mean(s);
    EmptyBandMeansAllOutside(s, m - c, m + c);
    SquaredDeviationsAtLeast(s, m, c);
    MeanAtLeast(SquaredDeviations(s, m), Square(c));
  }

  /** When no element lies strictly between the bounds, the band keeps nothing. */
  lemma {:induction false} NothingInsideBand(s: seq<real>, lo: real, hi: real)
    requires forall i :: 0 <= i < |s| ==> s[i] <= lo || hi <= s[i]
    ensures InsideBand(s, lo, hi) == []
  {
    if s != [] {
      assert forall i :: 0 <= i < |s| - 1 ==> s[1..][i] == s[i + 1];
      NothingInsideBand(s[1..], lo, hi);
    }
  }

  /** A non-negative number whose square is at least the square of its double is 0. */
  lemma NoRoomForDouble(sd: real, v: real)
    requires 0.0 <= sd && Square(sd) == v
    requires Square(2.0 * sd) <= v
    ensures sd == 0.0
  {
    if sd > 0.0 {
      calc {
        v;
        Square(sd);
        sd * sd;
      <
        (2.0 * sd) * (2.0 * sd);
        Square(2.0 * sd);
      <=
        v;
      }
    }
  }

  /** Chebyshev's inequality with k = 2: when the standard deviation is positive, at
      most a quarter of the errors lie 2 sd or further from the mean, so the band is
      never empty. */
  lemma EmptyBandForcesZeroSd(s: seq<real>, sd: real)
    requires IsPopulationSd(s, sd)
    requires InsideBand(s, Lower(Mean(s), sd), Upper(Mean(s), sd)) == []
    ensures sd == 0.0
  {
    BandGapBoundsVariance(s, 2.0 * sd);
    NoRoomForDouble(sd, Variance(s));
  }

  /** On data whose standard deviation is zero every error equals the mean, so the
      open band around the mean contains nothing. */
  lemma ZeroSdEmptiesBand(s: seq<real>, sd: real)
    requires IsPopulationSd(s, sd)
    requires sd == 0.0
    ensures InsideBand(s, Lower(Mean(s), sd), Upper(Mean(s), sd)) == []
  {
    ZeroSdIffZeroVariance(s, sd);
    ZeroVarianceIffConstant(s);
    var m := Mean(s);
    assert Lower(m, sd) == m == Upper(m, sd);
    assert forall i :: 0 <= i < |s| ==> s[i] == s[0] == m;
    NothingInsideBand(s, m, m);
  }

  /** The trimmed list is empty exactly when every training error is the same. */
  lemma TrimmedEmptyIffConstant(errors: seq<real>, sd: real)
    requires IsPopulationSd(errors, sd)
    ensures Trimmed(errors, sd) == [] <==> Constant(errors)
  {
    var m := Mean(errors);
    TwoPassTrimIsBand(errors, Lower(m, sd), Upper(m, sd));
    ZeroSdIffZeroVariance(errors, sd);
    ZeroVarianceIffConstant(errors);
    if Trimmed(errors, sd) == [] {
      EmptyBandForcesZeroSd(errors, sd);
    }
    if Constant(errors) {
      ZeroSdEmptiesBand(errors, sd);
    }
  }

  /** Threshold estimation fails exactly when there are no training errors or all of
      them are equal (a single clean training row is enough to fail). */
  lemma EstimateFailsIffConstant(errors: seq<real>, sd: real)
    requires |errors| > 0 ==> IsPopulationSd(errors, sd)
    ensures EstimateThreshold(errors, sd).Err? <==> |errors| == 0 || Constant(errors)
  {
    if |errors| > 0 {
      TrimmedEmptyIffConstant(errors, sd);
    }
  }

  /** When every element lies strictly between the bounds, the band keeps everything. */
  lemma {:induction false} EverythingInsideBand(s: seq<real>, lo: real, hi: real)
    requires forall i :: 0 <= i < |s| ==> lo < s[i] < hi
    ensures InsideBand(s, lo, hi) == s
  {
    if s != [] {
      assert forall i :: 0 <= i < |s| - 1 ==> s[1..][i] == s[i + 1];
      EverythingInsideBand(s[1..], lo, hi);
      assert s == [s[0]] + s[1..];
    }
  }

  /** Five training errors with one far outlier: the outlier 5.0 lies just inside the
      upper bound (mean 1.114, population sd a little above 1.943, so mean + 2 sd is a
      little above 5.0), so nothing is removed and both thresholds are 5.0. */
  lemma OutlierJustInsideUpperBound(sd: real)
    requires IsPopulationSd([0.1, 0.2, 0.15, 0.12, 5.0], sd)
    ensures EstimateThreshold([0.1, 0.2, 0.15, 0.12, 5.0], sd) == Ok(Thresholds(5.0, 5.0, 0))
  {
    var e := [0.1, 0.2, 0.15, 0.12, 5.0];
    assert e[1..] == [0.2, 0.15, 0.12, 5.0];
    assert e[1..][1..] == [0.15, 0.12, 5.0];
    assert e[1..][1..][1..] == [0.12, 5.0];
    assert e[1..][1..][1..][1..] == [5.0];
    assert Sum(e) == 5.57;
    assert Mean(e) == 1.114;
    var d := SquaredDeviations(e, 1.114);
    assert d == [1.028196, 0.835396, 0.929296, 0.988036, 15.100996];
    assert d[1..] == [0.835396, 0.929296, 0.988036, 15.100996];
    assert d[1..][1..] == [0.929296, 0.988036, 15.100996];
    assert d[1..][1..][1..] == [0.988036, 15.100996];
    assert d[1..][1..][1..][1..] == [15.100996];
    assert Sum(d) == 18.88192;
    assert Variance(e) == 3.776384;
    if sd <= 1.943 {
      SquareAtLeast(1.943, sd);
    }
    var lo, hi := Lower(1.114, sd), Upper(1.114, sd);
    assert lo < 0.1 && 5.0 < hi;
    EverythingInsideBand(e, lo, hi);
    TwoPassTrimIsBand(e, lo, hi);
    assert Trimmed(e, sd) == e;
  }
}
