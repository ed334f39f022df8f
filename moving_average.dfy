/**
 * Sums, Python-style slices and simple moving averages over a series of
 * closing prices (oldest first). Prices are exact reals, not doubles.
 */
module MovingAverage {

  /** Python's `sum`: a left fold from 0, so the last element is added last. */
  function Sum(s: seq<real>): real
  {
    if |s| == 0 then 0.0 else Sum(s[..|s| - 1]) + s[|s| - 1]
  }

  /** Every price in the series is strictly positive. */
  predicate Positive(s: seq<real>)
  {
    forall i :: 0 <= i < |s| ==> s[i] > 0.0
  }

  /** `s` with every element multiplied by `c`. */
  function Scaled(s: seq<real>, c: real): (r: seq<real>)
    ensures |r| == |s|
  {
    if |s| == 0 then [] else Scaled(s[..|s| - 1], c) + [c * s[|s| - 1]]
  }

  /**
   * How Python normalises one bound of a slice `s[start:stop]` of a
   * sequence of length `len`: a negative bound counts from the end, and a
   * bound that still falls outside `0..len` is clipped to it.
   */
  function Clamp(len: nat, i: int): (k: nat)
    ensures k <= len
    ensures 0 <= i <= len ==> k == i
    ensures -(len as int) <= i < 0 ==> k == len + i
    ensures i < -(len as int) ==> k == 0
    ensures len < i ==> k == len
  {
    if i < 0 then (if len + i < 0 then 0 else len + i)
    else if i > len then len
    else i
  }

  /** Python's `s[start:stop]` (step 1): empty when the bounds cross. */
  function PySlice<T>(s: seq<T>, start: int, stop: int): (r: seq<T>)
    ensures |r| <= |s|
    ensures Clamp(|s|, start) < Clamp(|s|, stop) ==> r == s[Clamp(|s|, start)..Clamp(|s|, stop)]
    ensures Clamp(|s|, stop) <= Clamp(|s|, start) ==> r == []
  {
    var a := Clamp(|s|, start);
    var b := Clamp(|s|, stop);
    if a < b then s[a..b] else []
  }

  /**
   * Python's `values[-n:]`: the last `n` elements when there are that many,
   * otherwise the whole series. Note that `values[-0:]` is `values[0:]`,
   * the whole series, not the empty one.
   */
  function LastN(values: seq<real>, n: nat): (r: seq<real>)
    ensures 0 < n <= |values| ==> r == values[|values| - n..]
    ensures n == 0 || |values| < n ==> r == values
  {
    PySlice(values, -(n as int), |values|)
  }

  /**
   * `sma(values, n)`: the sum of `values[-n:]` divided by `n`. The script
   * divides by `n` whatever the slice's length, so a series shorter than
   * `n` yields the whole sum over `n`; `n == 0` divides by zero.
   */
  function Sma(values: seq<real>, n: nat): (r: real)
    requires n > 0
    ensures n <= |values| ==> r == Sum(values[|values| - n..]) / (n as real)
    ensures |values| < n ==> r == Sum(values) / (n as real)
  {
    Sum(LastN(values, n)) / (n as real)
  }

  /**
   * `sum(closes[-k - lag:-lag]) / k`: the `k`-period average as it stood
   * `lag` sessions ago, written with Python's negative slice bounds.
   */
  function ShiftedSma(closes: seq<real>, k: nat, lag: nat): (r: real)
    requires k > 0
    ensures lag >= 1 && k + lag <= |closes| ==> r == Sum(closes[|closes| - k - lag..|closes| - lag]) / (k as real)
    ensures lag == 0 ==> r == 0.0
  {
    Sum(PySlice(closes, -((k + lag) as int), -(lag as int))) / (k as real)
  }

  lemma {:induction false} SumAppend(a: seq<real>, b: seq<real>)
    ensures Sum(a + b) == Sum(a) + Sum(b)
  {
    if |b| == 0 {
      assert a + b == a;
    } else {
      var b' := b[..|b| - 1];
      assert (a + b)[..|a + b| - 1] == a + b';
      SumAppend(a, b');
    }
  }

  /** A sum of `|s|` prices each within `[lo, hi]` lies within `[|s| lo, |s| hi]`. */
  lemma {:induction false} SumBounds(s: seq<real>, lo: real, hi: real)
    requires forall i :: 0 <= i < |s| ==> lo <= s[i] <= hi
    ensures (|s| as real) * lo <= Sum(s) <= (|s| as real) * hi
  {
    if |s| > 0 {
      var init := s[..|s| - 1];
      SumBounds(init, lo, hi);
      assert (|s| as real) * lo == (|init| as real) * lo + lo;
      assert (|s| as real) * hi == (|init| as real) * hi + hi;
    }
  }

  /** A non-empty sum of positive prices is positive. */
  lemma {:induction false} SumPositive(s: seq<real>)
    requires Positive(s) && |s| > 0
    ensures Sum(s) > 0.0
  {
    if |s| > 1 {
      SumPositive(s[..|s| - 1]);
    }
  }

  /** Scaling every price by `c` scales the sum by `c`. */
  lemma {:induction false} SumScaled(s: seq<real>, c: real)
    ensures Sum(Scaled(s, c)) == c * Sum(s)
  {
    if |s| > 0 {
      var init := s[..|s| - 1];
      assert Scaled(s, c)[..|s| - 1] == Scaled(init, c);
      SumScaled(init, c);
    }
  }

  /** The mean of a non-empty run of prices each within `[lo, hi]` lies within `[lo, hi]`. */
  lemma MeanWithinRange(w: seq<real>, lo: real, hi: real)
    requires |w| > 0
    requires forall i :: 0 <= i < |w| ==> lo <= w[i] <= hi
    ensures lo <= Sum(w) / (|w| as real) <= hi
  {
    SumBounds(w, lo, hi);
    DivBounds(Sum(w), |w| as real, lo, hi);
  }

  /** The average of a full window of prices each within `[lo, hi]` lies within `[lo, hi]`. */
  lemma SmaWithinRange(values: seq<real>, n: nat, lo: real, hi: real)
    requires 0 < n <= |values|
    requires forall i :: |values| - n <= i < |values| ==> lo <= values[i] <= hi
    ensures lo <= Sma(values, n) <= hi
  {
    var w := values[|values| - n..];
    assert forall i :: 0 <= i < |w| ==> lo <= w[i] <= hi;
    MeanWithinRange(w, lo, hi);
  }

  lemma DivBounds(x: real, d: real, lo: real, hi: real)
    requires d > 0.0 && d * lo <= x <= d * hi
    ensures lo <= x / d <= hi
  {
    assert x / d * d == x;
  }

  /** With positive prices the average is positive, even over a short series. */
  lemma SmaPositive(values: seq<real>, n: nat)
    requires n > 0 && |values| > 0 && Positive(values)
    ensures Sma(values, n) > 0.0
  {
    var w := LastN(values, n);
    assert |w| > 0 && Positive(w) by {
      if n <= |values| {
        assert forall i :: 0 <= i < |w| ==> w[i] == values[|values| - n + i];
      }
    }
    SumPositive(w);
  }

  /**
   * With a lag of at least one session and enough history, the slice
   * `closes[-k - lag:-lag]` holds exactly `k` prices and the shifted average
   * is the `k`-period average of the series with its last `lag` closes dropped.
   */
  lemma ShiftedSmaIsLagged(closes: seq<real>, k: nat, lag: nat)
    requires k > 0 && lag >= 1 && k + lag <= |closes|
    ensures PySlice(closes, -((k + lag) as int), -(lag as int)) == closes[|closes| - k - lag..|closes| - lag]
    ensures |PySlice(closes, -((k + lag) as int), -(lag as int))| == k
    ensures ShiftedSma(closes, k, lag) == Sma(closes[..|closes| - lag], k)
  {
    var n := |closes|;
    assert Clamp(n, -((k + lag) as int)) == n - k - lag;
    assert Clamp(n, -(lag as int)) == n - lag;
    var earlier := closes[..n - lag];
    assert LastN(earlier, k) == earlier[n - lag - k..];
    assert earlier[n - lag - k..] == closes[n - k - lag..n - lag];
  }

  /**
   * With a lag of zero the slice `closes[-k:-0]` is `closes[len - k:0]`,
   * which is empty: the shifted average degenerates to zero.
   */
  lemma ZeroLagWindowIsEmpty(closes: seq<real>, k: nat)
    requires k > 0
    ensures PySlice(closes, -(k as int), -0) == []
    ensures ShiftedSma(closes, k, 0) == 0.0
  {
  }

  /**
   * Scaling the last `n` prices by `c`, the earlier ones held fixed,
   * scales the `n`-period average by `c`.
   */
  lemma {:induction false} SmaOfScaledTail(values: seq<real>, n: nat, c: real)
    requires 0 < n <= |values|
    ensures Sma(values[..|values| - n] + Scaled(values[|values| - n..], c), n) == c * Sma(values, n)
  {
    var head := values[..|values| - n];
    var tail := values[|values| - n..];
    var scaled := head + Scaled(tail, c);
    assert |scaled| == |values| && |head| == |values| - n;
    assert scaled[|scaled| - n..] == Scaled(tail, c);
    assert Sma(values, n) == Sum(tail) / (n as real);
    assert Sma(scaled, n) == Sum(Scaled(tail, c)) / (n as real);
    ScaledMean(tail, c, n as real);
  }

  /** Dividing a scaled sum is scaling the divided sum. */
  lemma ScaledMean(s: seq<real>, c: real, d: real)
    requires d > 0.0
    ensures Sum(Scaled(s, c)) / d == c * (Sum(s) / d)
  {
    SumScaled(s, c);
    ScaledQuotient(Sum(s), c, d);
  }

  lemma ScaledQuotient(x: real, c: real, d: real)
    requires d > 0.0
    ensures (c * x) / d == c * (x / d)
  {
  }

  /**
   * With positive prices, scaling the last `n` of them by `c > 1`, the
   * earlier ones held fixed, strictly raises the `n`-period average.
   */
  lemma SmaOfScaledTailGrows(values: seq<real>, n: nat, c: real)
    requires 0 < n <= |values| && Positive(values) && c > 1.0
    ensures Sma(values[..|values| - n] + Scaled(values[|values| - n..], c), n) > Sma(values, n)
  {
    SmaOfScaledTail(values, n, c);
    SmaPositive(values, n);
    var s := Sma(values, n);
    assert c * s - s == (c - 1.0) * s;
  }

  /** Series that agree on their last `m` prices agree on every shorter suffix. */
  lemma SuffixesAgree(a: seq<real>, b: seq<real>, m: nat, j: nat)
    requires j <= m <= |a| && m <= |b|
    requires a[|a| - m..] == b[|b| - m..]
    ensures a[|a| - j..] == b[|b| - j..]
  {
    var t := a[|a| - m..];
    assert a[|a| - j..] == t[m - j..];
    assert b[|b| - j..] == t[m - j..];
  }

  /**
   * Series that agree on their last `k + lag` prices agree on the `k` prices
   * that precede the last `lag`.
   */
  lemma LaggedWindowsAgree(a: seq<real>, b: seq<real>, k: nat, lag: nat)
    requires k + lag <= |a| && k + lag <= |b|
    requires a[|a| - k - lag..] == b[|b| - k - lag..]
    ensures a[|a| - k - lag..|a| - lag] == b[|b| - k - lag..|b| - lag]
  {
    var t := a[|a| - k - lag..];
    assert a[|a| - k - lag..|a| - lag] == t[..k];
    assert b[|b| - k - lag..|b| - lag] == t[..k];
  }

  /**
   * Two series that agree on their last `k + lag` prices have the same
   * latest price, the same `values[-k:]` and the same `closes[-k - lag:-lag]`,
   * hence the same current and shifted `k`-period averages.
   */
  lemma RecentWindowsAgree(a: seq<real>, b: seq<real>, k: nat, lag: nat)
    requires k > 0 && lag >= 1 && |a| >= k + lag && |b| >= k + lag
    requires a[|a| - k - lag..] == b[|b| - k - lag..]
    ensures a[|a| - 1] == b[|b| - 1]
    ensures LastN(a, k) == LastN(b, k)
    ensures PySlice(a, -((k + lag) as int), -(lag as int)) == PySlice(b, -((k + lag) as int), -(lag as int))
    ensures Sma(a, k) == Sma(b, k) && ShiftedSma(a, k, lag) == ShiftedSma(b, k, lag)
  {
    SuffixesAgree(a, b, k + lag, 1);
    assert a[|a| - 1] == a[|a| - 1..][0];
    assert b[|b| - 1] == b[|b| - 1..][0];
    SuffixesAgree(a, b, k + lag, k);
    LaggedWindowsAgree(a, b, k, lag);
    ShiftedSmaIsLagged(a, k, lag);
    ShiftedSmaIsLagged(b, k, lag);
  }
}
