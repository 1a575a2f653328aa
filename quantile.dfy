/**
 * The weighted quantile of code/scf_data_clean.py: sort the values, take the
 * cumulative sum of the weights in that order, normalise it into a step CDF
 * Pn whose last knot is 1, and invert the CDF with numpy's clamped
 * piecewise-linear interpolation.
 *
 * np.argsort is not stable, so every property is proved for QuantileBy with an
 * arbitrary sorting permutation; Quantile fixes one (a stable insertion
 * ArgSort, proved to be a sorting permutation).
 */
module WeightedQuantile {
  import opened Wrappers
  import opened Columns

  /** 0, 1, ..., n-1 */
  function Iota(n: nat): (r: seq<nat>)
    ensures |r| == n
    ensures forall i :: 0 <= i < n ==> r[i] == i
  {
    if n == 0 then [] else Iota(n - 1) + [n - 1]
  }

  predicate IndicesBelow(ind: seq<nat>, n: nat)
  {
    forall i :: 0 <= i < |ind| ==> ind[i] < n
  }

  /** values[ind[0]], values[ind[1]], ... are in non-decreasing order. */
  predicate SortedBy(values: seq<real>, ind: seq<nat>)
    requires IndicesBelow(ind, |values|)
  {
    forall i, j :: 0 <= i < j < |ind| ==> values[ind[i]] <= values[ind[j]]
  }

  /** ind is a permutation of the row numbers that sorts values: any result np.argsort may give. */
  predicate SortsValues(values: seq<real>, ind: seq<nat>)
  {
    && |ind| == |values|
    && IndicesBelow(ind, |values|)
    && multiset(ind) == multiset(Iota(|values|))
    && SortedBy(values, ind)
  }

  /** xs[ind]: numpy fancy indexing. */
  function Gather(xs: seq<real>, ind: seq<nat>): (r: seq<real>)
    requires IndicesBelow(ind, |xs|)
    ensures |r| == |ind|
  {
    seq(|ind|, i requires 0 <= i < |ind| => xs[ind[i]])
  }

  /** Insert row k after every row whose value is no larger: ties keep their original order. */
  function InsertIndex(values: seq<real>, s: seq<nat>, k: nat): (r: seq<nat>)
    requires k < |values| && IndicesBelow(s, |values|)
    ensures |r| == |s| + 1
    ensures IndicesBelow(r, |values|)
    ensures multiset(r) == multiset(s) + multiset{k}
  {
    if s == [] then [k]
    else if values[k] < values[s[0]] then [k] + s
    else
      assert s == [s[0]] + s[1..];
      [s[0]] + InsertIndex(values, s[1..], k)
  }

  /** Inserting into a sorted order keeps it sorted. */
  lemma {:induction false} InsertIndexSorted(values: seq<real>, s: seq<nat>, k: nat)
    requires k < |values| && IndicesBelow(s, |values|) && SortedBy(values, s)
    ensures SortedBy(values, InsertIndex(values, s, k))
  {
    if s != [] && values[s[0]] <= values[k] {
      InsertIndexSorted(values, s[1..], k);
      var t := InsertIndex(values, s[1..], k);
      forall j | 0 <= j < |t|
        ensures values[s[0]] <= values[t[j]]
      {
        assert t[j] in multiset(t);
        if t[j] != k {
          assert t[j] in multiset(s[1..]);
          var m :| 0 <= m < |s| - 1 && s[1..][m] == t[j];
          assert s[m + 1] == t[j];
        }
      }
    }
  }

  function ArgSortPrefix(values: seq<real>, k: nat): (r: seq<nat>)
    requires k <= |values|
    ensures |r| == k
    ensures IndicesBelow(r, |values|)
  {
    if k == 0 then [] else InsertIndex(values, ArgSortPrefix(values, k - 1), k - 1)
  }

  /** The first k rows, inserted one by one, are a permutation of 0..k-1. */
  lemma {:induction false} ArgSortPrefixPermutes(values: seq<real>, k: nat)
    requires k <= |values|
    ensures multiset(ArgSortPrefix(values, k)) == multiset(Iota(k))
  {
    if k > 0 {
      var last: nat := k - 1;
      var prev := ArgSortPrefix(values, last);
      ArgSortPrefixPermutes(values, last);
      assert ArgSortPrefix(values, k) == InsertIndex(values, prev, last);
      assert multiset(ArgSortPrefix(values, k)) == multiset(prev) + multiset{last};
      assert Iota(k) == Iota(last) + [last];
      assert multiset(Iota(k)) == multiset(Iota(last)) + multiset{last};
    }
  }

  /** The first k rows, inserted one by one, are in sorted order. */
  lemma {:induction false} ArgSortPrefixSorted(values: seq<real>, k: nat)
    requires k <= |values|
    ensures SortedBy(values, ArgSortPrefix(values, k))
  {
    if k > 0 {
      ArgSortPrefixSorted(values, k - 1);
      InsertIndexSorted(values, ArgSortPrefix(values, k - 1), k - 1);
    }
  }

  /** A stable argsort: the sorting permutation Quantile uses. */
  function ArgSort(values: seq<real>): (ind: seq<nat>)
    ensures SortsValues(values, ind)
  {
    ArgSortPrefixPermutes(values, |values|);
    ArgSortPrefixSorted(values, |values|);
    ArgSortPrefix(values, |values|)
  }

  /** Inserting a row whose value is at least every value already placed appends it. */
  lemma {:induction false} InsertLargestAppends(values: seq<real>, s: seq<nat>, k: nat)
    requires k < |values| && IndicesBelow(s, |values|)
    requires forall i :: 0 <= i < |s| ==> values[s[i]] <= values[k]
    ensures InsertIndex(values, s, k) == s + [k]
  {
    if s != [] {
      var rest := s[1..];
      assert values[s[0]] <= values[k];
      assert forall i :: 0 <= i < |rest| ==> values[rest[i]] <= values[k] by {
        forall i | 0 <= i < |rest| ensures values[rest[i]] <= values[k] {
          assert rest[i] == s[i + 1];
        }
      }
      InsertLargestAppends(values, rest, k);
      assert InsertIndex(values, s, k) == [s[0]] + InsertIndex(values, rest, k);
      assert s == [s[0]] + rest;
    }
  }

  /** Tie rule: ArgSort leaves an already sorted column in its original order. */
  lemma {:induction false} ArgSortOfSorted(values: seq<real>, k: nat)
    requires k <= |values| && NonDecreasing(values)
    ensures ArgSortPrefix(values, k) == Iota(k)
  {
    if k > 0 {
      ArgSortOfSorted(values, k - 1);
      InsertLargestAppends(values, Iota(k - 1), k - 1);
    }
  }

  predicate Positive(w: seq<real>)
  {
    forall i :: 0 <= i < |w| ==> w[i] > 0.0
  }

  /** Sn = np.cumsum(sorted_weights): a running total that ends at the total weight. */
  function CumSum(w: seq<real>): (sn: seq<real>)
    ensures |sn| == |w|
    ensures |w| > 0 ==> sn[0] == w[0] && sn[|w| - 1] == Sum(w)
  {
    assert |w| > 0 ==> w[..|w|] == w && w[..1][..0] == [] && Sum(w[..1]) == w[0];
    seq(|w|, k requires 0 <= k < |w| => Sum(w[..k + 1]))
  }

  /** Each running total adds the next weight to the one before. */
  lemma CumSumStep(w: seq<real>, k: nat)
    requires 0 < k < |w|
    ensures CumSum(w)[k] == CumSum(w)[k - 1] + w[k]
  {
    assert w[..k + 1][..k] == w[..k];
  }

  /** Pn = Sn / Sn[-1]. */
  function Normalise(sn: seq<real>): (pn: seq<real>)
    requires |sn| > 0 && sn[|sn| - 1] != 0.0
    ensures |pn| == |sn| && pn[|pn| - 1] == 1.0
  {
    DivideBySelf(sn[|sn| - 1]);
    seq(|sn|, k requires 0 <= k < |sn| => sn[k] / sn[|sn| - 1])
  }

  /** With positive weights the running totals rise strictly. */
  lemma CumSumIncreasing(w: seq<real>)
    requires Positive(w)
    ensures StrictlyIncreasing(CumSum(w))
  {
    var sn := CumSum(w);
    forall i, j | 0 <= i < j < |w| ensures sn[i] < sn[j] {
      assert w[..j + 1] == w[..i + 1] + w[i + 1..j + 1];
      SumAppend(w[..i + 1], w[i + 1..j + 1]);
      SumPositive(w[i + 1..j + 1]);
    }
  }

  /** Dividing by a positive last total keeps rising totals rising. */
  lemma NormaliseIncreasing(sn: seq<real>)
    requires |sn| > 0 && sn[|sn| - 1] > 0.0 && StrictlyIncreasing(sn)
    ensures StrictlyIncreasing(Normalise(sn))
  {
    var pn := Normalise(sn);
    forall i, j | 0 <= i < j < |sn| ensures pn[i] < pn[j] {
      DividePreservesOrder(sn[i], sn[j], sn[|sn| - 1]);
    }
  }

  /** With positive weights the CDF knots rise strictly, start above 0 and end at exactly 1. */
  lemma CdfShape(w: seq<real>)
    requires |w| > 0 && Positive(w)
    ensures CumSum(w)[|w| - 1] > 0.0
    ensures StrictlyIncreasing(Normalise(CumSum(w)))
    ensures Normalise(CumSum(w))[0] > 0.0
    ensures Normalise(CumSum(w))[|w| - 1] == 1.0
  {
    var sn := CumSum(w);
    SumPositive(w);
    CumSumIncreasing(w);
    NormaliseIncreasing(sn);
    DividePreservesOrder(0.0, sn[0], sn[|w| - 1]);
  }

  lemma DivideBySelf(x: real)
    requires x != 0.0
    ensures x / x == 1.0
  {
  }

  lemma DividePreservesOrder(a: real, b: real, c: real)
    requires a < b && c > 0.0
    ensures a / c < b / c
  {
    assert b / c - a / c == (b - a) / c;
  }

  lemma QuotientNonNegative(a: real, b: real)
    requires a >= 0.0 && b > 0.0
    ensures a / b >= 0.0
  {
    assert (a / b) * b == a;
  }

  lemma QuotientTimes(a: real, b: real)
    requires b != 0.0
    ensures (a / b) * b == a
  {
  }

  lemma MulDistributesSub(a: real, b: real, c: real)
    ensures a * (b - c) == a * b - a * c
  {
  }

  /** The interpolated value between knots (x0, y0) and (x1, y1), as np.interp computes it. */
  function Segment(x0: real, x1: real, y0: real, y1: real, x: real): real
    requires x0 < x1
  {
    (y1 - y0) / (x1 - x0) * (x - x0) + y0
  }

  lemma SegmentBetween(x0: real, x1: real, y0: real, y1: real, x: real)
    requires x0 < x1 && x0 <= x <= x1 && y0 <= y1
    ensures y0 <= Segment(x0, x1, y0, y1, x) <= y1
  {
    var slope, span, dx := (y1 - y0) / (x1 - x0), x1 - x0, x - x0;
    assert Segment(x0, x1, y0, y1, x) == slope * dx + y0;
    QuotientNonNegative(y1 - y0, span);
    QuotientTimes(y1 - y0, span);
    MulNonNegative(slope, dx);
    MulNonNegative(slope, span - dx);
    MulDistributesSub(slope, span, dx);
  }

  lemma SegmentMonotone(x0: real, x1: real, y0: real, y1: real, xa: real, xb: real)
    requires x0 < x1 && xa <= xb && y0 <= y1
    ensures Segment(x0, x1, y0, y1, xa) <= Segment(x0, x1, y0, y1, xb)
  {
    var slope := (y1 - y0) / (x1 - x0);
    QuotientNonNegative(y1 - y0, x1 - x0);
    MulNonNegative(slope, xb - xa);
    assert slope * (xb - x0) - slope * (xa - x0) == slope * (xb - xa);
  }

  /**
   * np.interp(x, xp, fp) for strictly increasing knots xp: fp[0] at or below
   * the first knot, fp[-1] at or above the last, linear in between.
   */
  function Interp(x: real, xp: seq<real>, fp: seq<real>): (v: real)
    requires |xp| == |fp| > 0 && StrictlyIncreasing(xp)
    ensures Constant(fp) ==> v == fp[0]
    decreases |xp|
  {
    if x <= xp[0] || |xp| == 1 then fp[0]
    else if x < xp[1] then Segment(xp[0], xp[1], fp[0], fp[1], x)
    else Interp(x, xp[1..], fp[1..])
  }

  lemma {:induction false} InterpBounds(x: real, xp: seq<real>, fp: seq<real>)
    requires |xp| == |fp| > 0 && StrictlyIncreasing(xp) && NonDecreasing(fp)
    ensures fp[0] <= Interp(x, xp, fp) <= fp[|fp| - 1]
    decreases |xp|
  {
    if x <= xp[0] || |xp| == 1 {
    } else if x < xp[1] {
      SegmentBetween(xp[0], xp[1], fp[0], fp[1], x);
    } else {
      InterpBounds(x, xp[1..], fp[1..]);
    }
  }

  lemma {:induction false} InterpAboveLast(x: real, xp: seq<real>, fp: seq<real>)
    requires |xp| == |fp| > 0 && StrictlyIncreasing(xp)
    requires x >= xp[|xp| - 1]
    ensures Interp(x, xp, fp) == fp[|fp| - 1]
    decreases |xp|
  {
    if |xp| > 1 {
      assert x > xp[0];
      assert x >= xp[1];
      InterpAboveLast(x, xp[1..], fp[1..]);
    }
  }

  lemma {:induction false} InterpAtKnot(xp: seq<real>, fp: seq<real>, k: nat)
    requires |xp| == |fp| > 0 && StrictlyIncreasing(xp) && k < |xp|
    ensures Interp(xp[k], xp, fp) == fp[k]
    decreases |xp|
  {
    if k > 0 {
      assert xp[k] > xp[0];
      assert xp[k] >= xp[1];
      InterpAtKnot(xp[1..], fp[1..], k - 1);
    }
  }

  lemma {:induction false} InterpMonotone(xa: real, xb: real, xp: seq<real>, fp: seq<real>)
    requires |xp| == |fp| > 0 && StrictlyIncreasing(xp) && NonDecreasing(fp)
    requires xa <= xb
    ensures Interp(xa, xp, fp) <= Interp(xb, xp, fp)
    decreases |xp|
  {
    if xa <= xp[0] || |xp| == 1 {
      InterpBounds(xb, xp, fp);
    } else if xa < xp[1] {
      SegmentBetween(xp[0], xp[1], fp[0], fp[1], xa);
      if xb < xp[1] {
        SegmentMonotone(xp[0], xp[1], fp[0], fp[1], xa, xb);
      } else {
        InterpBounds(xb, xp[1..], fp[1..]);
      }
    } else {
      InterpMonotone(xa, xb, xp[1..], fp[1..]);
    }
  }

  /** A row of the data set may enter a quantile: equal lengths and positive survey weights. */
  predicate WeightedColumn(values: seq<real>, weights: seq<real>)
  {
    |weights| == |values| && Positive(weights)
  }

  /** The CDF knots Pn for the rows taken in the order ind. */
  function Cdf(weights: seq<real>, ind: seq<nat>): (pn: seq<real>)
    requires |ind| > 0 && IndicesBelow(ind, |weights|) && Positive(weights)
    ensures |pn| == |ind| && StrictlyIncreasing(pn)
    ensures pn[0] > 0.0 && pn[|pn| - 1] == 1.0
  {
    var sw := Gather(weights, ind);
    CdfShape(sw);
    Normalise(CumSum(sw))
  }

  /** quantile(data, weights, p) when argsort returned ind. */
  function QuantileBy(values: seq<real>, weights: seq<real>, ind: seq<nat>, p: real): (q: real)
    requires |values| > 0 && WeightedColumn(values, weights) && SortsValues(values, ind)
    ensures Constant(values) ==> q == values[0]
  {
    Interp(p, Cdf(weights, ind), Gather(values, ind))
  }

  /** Every row turns up in the sorted column. */
  lemma SortedCoversRows(values: seq<real>, ind: seq<nat>, k: nat)
    requires SortsValues(values, ind) && k < |values|
    ensures exists i :: 0 <= i < |ind| && ind[i] == k
  {
    assert Iota(|values|)[k] == k;
    assert k in multiset(Iota(|values|));
    assert k in multiset(ind);
  }

  /** The sorted column starts at the smallest value and ends at the largest. */
  lemma SortedEnds(values: seq<real>, ind: seq<nat>)
    requires |values| > 0 && SortsValues(values, ind)
    ensures NonDecreasing(Gather(values, ind))
    ensures Gather(values, ind)[0] == SeqMin(values)
    ensures Gather(values, ind)[|ind| - 1] == SeqMax(values)
  {
    var ys := Gather(values, ind);
    var n := |values|;
    forall k | 0 <= k < n ensures ys[0] <= values[k] <= ys[n - 1] {
      SortedCoversRows(values, ind, k);
    }
    LeastIsSeqMin(values, ys[0]);
    GreatestIsSeqMax(values, ys[n - 1]);
  }

  /** With positive weights a quantile lies between the smallest and the largest value. */
  lemma QuantileWithinRange(values: seq<real>, weights: seq<real>, ind: seq<nat>, p: real)
    requires |values| > 0 && WeightedColumn(values, weights) && SortsValues(values, ind)
    ensures SeqMin(values) <= QuantileBy(values, weights, ind, p) <= SeqMax(values)
  {
    var fp := Gather(values, ind);
    SortedEnds(values, ind);
    QuantileBetweenEnds(values, weights, ind, p, fp);
  }

  /** A quantile lies between the first and the last sorted value. */
  lemma QuantileBetweenEnds(values: seq<real>, weights: seq<real>, ind: seq<nat>, p: real, fp: seq<real>)
    requires |values| > 0 && WeightedColumn(values, weights) && SortsValues(values, ind)
    requires fp == Gather(values, ind) && NonDecreasing(fp)
    ensures fp[0] <= QuantileBy(values, weights, ind, p) <= fp[|fp| - 1]
  {
    InterpBounds(p, Cdf(weights, ind), fp);
  }

  /** Probe 0 (and anything below the first knot) gives the smallest value. */
  lemma QuantileAtZero(values: seq<real>, weights: seq<real>, ind: seq<nat>, p: real)
    requires |values| > 0 && WeightedColumn(values, weights) && SortsValues(values, ind)
    requires p <= 0.0
    ensures QuantileBy(values, weights, ind, p) == SeqMin(values)
  {
    SortedEnds(values, ind);
  }

  /** Probe 1 (and anything above it) gives the largest value, since Pn ends at exactly 1. */
  lemma QuantileAtOne(values: seq<real>, weights: seq<real>, ind: seq<nat>, p: real)
    requires |values| > 0 && WeightedColumn(values, weights) && SortsValues(values, ind)
    requires p >= 1.0
    ensures QuantileBy(values, weights, ind, p) == SeqMax(values)
  {
    SortedEnds(values, ind);
    InterpAboveLast(p, Cdf(weights, ind), Gather(values, ind));
  }

  /** The quantile is non-decreasing in the probe. */
  lemma QuantileMonotone(values: seq<real>, weights: seq<real>, ind: seq<nat>, p: real, q: real)
    requires |values| > 0 && WeightedColumn(values, weights) && SortsValues(values, ind)
    requires p <= q
    ensures QuantileBy(values, weights, ind, p) <= QuantileBy(values, weights, ind, q)
  {
    SortedEnds(values, ind);
    InterpMonotone(p, q, Cdf(weights, ind), Gather(values, ind));
  }

  /** Probe j/num for j = 0..num: the num+1 cutpoints of num quantile bins. */
  function Probe(j: nat, num: nat): real
    requires num > 0
  {
    j as real / num as real
  }

  /** With n equal weights the CDF knots are 1/n, 2/n, ..., 1. */
  lemma EqualWeightsCdf(weights: seq<real>, ind: seq<nat>, j: nat)
    requires |ind| > 0 && IndicesBelow(ind, |weights|) && Positive(weights)
    requires forall i :: 0 <= i < |weights| ==> weights[i] == weights[0]
    requires j < |ind|
    ensures Cdf(weights, ind)[j] == Probe(j + 1, |ind|)
  {
    var sw := Gather(weights, ind);
    assert ind[0] < |weights|;
    var c := weights[0];
    assert forall i :: 0 <= i < |sw| ==> sw[i] == c;
    CdfAt(weights, ind, j);
    EqualWeightsRatio(sw, c, j);
  }

  /** Equal weights c: the j-th cumulative weight over the total is (j+1)/n. */
  lemma EqualWeightsRatio(sw: seq<real>, c: real, j: nat)
    requires c > 0.0 && j < |sw| && forall i :: 0 <= i < |sw| ==> sw[i] == c
    ensures CumSum(sw)[|sw| - 1] == |sw| as real * c > 0.0
    ensures CumSum(sw)[j] / CumSum(sw)[|sw| - 1] == Probe(j + 1, |sw|)
  {
    var n := |sw|;
    var a, b := (j + 1) as real, n as real;
    CumSumConstant(sw, c, j);
    CumSumConstant(sw, c, n - 1);
    assert CumSum(sw)[j] == a * c;
    assert CumSum(sw)[n - 1] == b * c;
    assert b * c > 0.0;
    RatioCancel(a, b, c);
    assert Probe(j + 1, n) == a / b;
  }

  /** A knot of Pn is its cumulative weight over the total weight. */
  lemma CdfAt(weights: seq<real>, ind: seq<nat>, j: nat)
    requires |ind| > 0 && IndicesBelow(ind, |weights|) && Positive(weights) && j < |ind|
    ensures CumSum(Gather(weights, ind))[|ind| - 1] > 0.0
    ensures Cdf(weights, ind)[j] == CumSum(Gather(weights, ind))[j] / CumSum(Gather(weights, ind))[|ind| - 1]
  {
    CdfShape(Gather(weights, ind));
  }

  lemma CumSumConstant(w: seq<real>, c: real, j: nat)
    requires j < |w| && forall i :: 0 <= i < |w| ==> w[i] == c
    ensures CumSum(w)[j] == (j + 1) as real * c
  {
    SumConstant(w[..j + 1], c);
  }

  lemma RatioCancel(a: real, b: real, c: real)
    requires b > 0.0 && c > 0.0
    ensures (a * c) / (b * c) == a / b
  {
    assert (a / b) * (b * c) == a * c;
  }

  /**
   * With n equal weights, probe k/n returns the k-th smallest value: the
   * CDF is inverted at its knots, so there is no averaging of neighbours.
   */
  lemma EqualWeightsKthSmallest(values: seq<real>, weights: seq<real>, ind: seq<nat>, k: nat)
    requires |values| > 0 && WeightedColumn(values, weights) && SortsValues(values, ind)
    requires forall i :: 0 <= i < |weights| ==> weights[i] == weights[0]
    requires 1 <= k <= |values|
    ensures QuantileBy(values, weights, ind, Probe(k, |values|)) == values[ind[k - 1]]
  {
    EqualWeightsCdf(weights, ind, k - 1);
    InterpAtKnot(Cdf(weights, ind), Gather(values, ind), k - 1);
  }

  /** quantile(data, weights, p); an empty column has no last cumulative weight and raises. */
  function Quantile(values: seq<real>, weights: seq<real>, p: real): (r: Result<real>)
    requires WeightedColumn(values, weights)
    ensures r.Success? <==> |values| > 0
    ensures r.Success? ==> SeqMin(values) <= r.value <= SeqMax(values)
  {
    if |values| == 0 then Failure(EmptyInput)
    else
      QuantileWithinRange(values, weights, ArgSort(values), p);
      Success(QuantileBy(values, weights, ArgSort(values), p))
  }

  /** A column already in order, with equal weights: probe k/n returns its k-th entry. */
  lemma SortedEqualWeights(values: seq<real>, weights: seq<real>, k: nat)
    requires |values| > 0 && WeightedColumn(values, weights) && NonDecreasing(values)
    requires forall i :: 0 <= i < |weights| ==> weights[i] == weights[0]
    requires 1 <= k <= |values|
    ensures Quantile(values, weights, Probe(k, |values|)) == Success(values[k - 1])
  {
    ArgSortOfSorted(values, |values|);
    EqualWeightsKthSmallest(values, weights, ArgSort(values), k);
  }

  /** Values [10, 20, 30, 40] with unit weights: probe 0.5 gives 20 (the second smallest), not 25. */
  lemma QuantileMedianExample(v: seq<real>, w: seq<real>)
    requires v == [10.0, 20.0, 30.0, 40.0] && w == [1.0, 1.0, 1.0, 1.0]
    ensures Quantile(v, w, 0.5) == Success(20.0)
  {
    assert NonDecreasing(v);
    SortedEqualWeights(v, w, 2);
    assert Probe(2, |v|) == 0.5;
  }

  /** Both [0, 1, 2] and [0, 2, 1] sort the column [1, 2, 2]. */
  lemma TiedOrdersSort(v: seq<real>)
    requires v == [1.0, 2.0, 2.0]
    ensures SortsValues(v, [0, 1, 2]) && SortsValues(v, [0, 2, 1])
  {
    IotaThree();
    TiedMultiset();
  }

  lemma IotaThree()
    ensures Iota(3) == [0, 1, 2]
  {
    assert Iota(1) == [0];
    assert Iota(2) == [0, 1];
  }

  lemma TiedMultiset()
    ensures multiset([0, 2, 1]) == multiset([0, 1, 2])
  {
  }

  /** The CDF knots of weights [1, 1, 2] in the two orders of the tied rows. */
  lemma TiedOrdersCdf(w: seq<real>)
    requires w == [1.0, 1.0, 2.0]
    ensures Cdf(w, [0, 1, 2]) == [0.25, 0.5, 1.0]
    ensures Cdf(w, [0, 2, 1]) == [0.25, 0.75, 1.0]
  {
    assert Gather(w, [0, 1, 2]) == [1.0, 1.0, 2.0];
    assert Gather(w, [0, 2, 1]) == [1.0, 2.0, 1.0];
    CumSumThree(1.0, 1.0, 2.0);
    CumSumThree(1.0, 2.0, 1.0);
  }

  /** np.cumsum of a three-entry column. */
  lemma CumSumThree(a: real, b: real, c: real)
    ensures CumSum([a, b, c]) == [a, a + b, a + b + c]
  {
    var s := [a, b, c];
    assert s[..1] == [a] && s[..2] == [a, b] && s[..3] == s;
    assert Sum([a]) == a by {
      assert [a][..0] == [];
    }
    assert Sum([a, b]) == a + b by {
      assert [a, b][..1] == [a];
    }
    assert Sum(s) == a + b + c by {
      assert s[..2] == [a, b];
    }
  }

  /** np.interp at 0.375 over the two knot lists of the tied orders. */
  lemma TiedOrdersInterp()
    ensures Interp(0.375, [0.25, 0.5, 1.0], [1.0, 2.0, 2.0]) == 1.5
    ensures Interp(0.375, [0.25, 0.75, 1.0], [1.0, 2.0, 2.0]) == 1.25
  {
    assert Segment(0.25, 0.5, 1.0, 2.0, 0.375) == 1.5;
    assert Segment(0.25, 0.75, 1.0, 2.0, 0.375) == 1.25;
  }

  /**
   * Tied values with different weights: both orders sort [1, 2, 2], yet
   * probe 0.375 lands between different knots, so the quantile depends on
   * which of the tied rows np.argsort puts first.
   */
  lemma QuantileTieOrder(v: seq<real>, w: seq<real>)
    requires v == [1.0, 2.0, 2.0] && w == [1.0, 1.0, 2.0]
    ensures SortsValues(v, [0, 1, 2]) && SortsValues(v, [0, 2, 1])
    ensures QuantileBy(v, w, [0, 1, 2], 0.375) == 1.5
    ensures QuantileBy(v, w, [0, 2, 1], 0.375) == 1.25
  {
    TiedOrdersSort(v);
    TiedOrdersCdf(w);
    TiedOrdersInterp();
    assert Gather(v, [0, 1, 2]) == [1.0, 2.0, 2.0];
    assert Gather(v, [0, 2, 1]) == [1.0, 2.0, 2.0];
  }

  /** The stable order keeps the tied rows as they come, so Quantile gives the first of the two values. */
  lemma QuantileTieStable(v: seq<real>, w: seq<real>)
    requires v == [1.0, 2.0, 2.0] && w == [1.0, 1.0, 2.0]
    ensures Quantile(v, w, 0.375) == Success(1.5)
  {
    QuantileTieOrder(v, w);
    assert NonDecreasing(v);
    ArgSortOfSorted(v, 3);
    IotaThree();
  }

  /**
   * np.array([quantile(x, w, j/num) for j in range(num+1)]): num+1
   * non-decreasing cutpoints from the smallest to the largest value.
   */
  function Cutpoints(values: seq<real>, weights: seq<real>, num: nat): (r: Result<seq<real>>)
    requires WeightedColumn(values, weights) && num > 0
    ensures r.Success? <==> |values| > 0
    ensures r.Success? ==> |r.value| == num + 1 && NonDecreasing(r.value)
    ensures r.Success? ==> r.value[0] == SeqMin(values) && r.value[num] == SeqMax(values)
  {
    if |values| == 0 then Failure(EmptyInput)
    else Success(CutsBy(values, weights, ArgSort(values), num))
  }

  /** The quantiles at probes 0, 1/num, ..., 1 for the rows taken in the order ind. */
  function CutsBy(values: seq<real>, weights: seq<real>, ind: seq<nat>, num: nat): (cuts: seq<real>)
    requires |values| > 0 && WeightedColumn(values, weights) && SortsValues(values, ind) && num > 0
    ensures |cuts| == num + 1 && NonDecreasing(cuts)
    ensures cuts[0] == SeqMin(values) && cuts[num] == SeqMax(values)
  {
    CutsNonDecreasing(values, weights, ind, num);
    QuantileAtZero(values, weights, ind, Probe(0, num));
    QuantileAtOne(values, weights, ind, Probe(num, num));
    seq(num + 1, j requires 0 <= j <= num => QuantileBy(values, weights, ind, Probe(j, num)))
  }

  /** Larger probes give larger cutpoints. */
  lemma CutsNonDecreasing(values: seq<real>, weights: seq<real>, ind: seq<nat>, num: nat)
    requires |values| > 0 && WeightedColumn(values, weights) && SortsValues(values, ind) && num > 0
    ensures NonDecreasing(seq(num + 1, j requires 0 <= j <= num => QuantileBy(values, weights, ind, Probe(j, num))))
  {
    var cuts := seq(num + 1, j requires 0 <= j <= num => QuantileBy(values, weights, ind, Probe(j, num)));
    forall i, j | 0 <= i < j <= num
      ensures cuts[i] <= cuts[j]
    {
      DividePreservesOrder(i as real, j as real, num as real);
      QuantileMonotone(values, weights, ind, Probe(i, num), Probe(j, num));
    }
  }
}
