/**
 * The lifetime-wealth projector of scf_lifetime_wealth.py as functions of
 * one household: growth rates from the band medians of income, the
 * year-by-year income projection, discounting, and the sum with net worth.
 * exp and log are opaque parameters; lemmas state what they assume of them.
 */
module LifetimeProjection {
  import opened Wrappers
  import opened Columns
  import opened WeightedQuantile
  import opened Binning
  import opened Household
  import opened QuantileBins

  /** A band has rows to select exactly when some row carries its age_cat. */
  lemma BandRowsNonEmpty(xs: seq<real>, ageCat: seq<Option<nat>>, k: nat)
    requires |ageCat| == |xs|
    ensures Select(xs, InBand(ageCat, k)) != [] <==> Some(k) in ageCat
  {
    var mask := InBand(ageCat, k);
    if Some(k) in ageCat {
      var i :| 0 <= i < |ageCat| && ageCat[i] == Some(k);
      SelectKeeps(xs, mask, i);
    }
    if Select(xs, mask) != [] {
      var sel := Select(xs, mask);
      assert sel[0] in sel;
      SelectedRow(xs, mask, sel[0]);
    }
  }

  /**
   * The weighted median of income over the rows of age band k. A band
   * without rows has none: the quantile of an empty column fails.
   */
  function BandMedian(income: seq<real>, wgt: seq<real>, ageCat: seq<Option<nat>>, k: nat): (r: Result<real>)
    requires WeightedColumn(income, wgt) && |ageCat| == |income|
    ensures r.Success? <==> Some(k) in ageCat
    ensures r.Success? ==> Select(income, InBand(ageCat, k)) != []
    ensures r.Success? ==> SeqMin(Select(income, InBand(ageCat, k))) <= r.value <= SeqMax(Select(income, InBand(ageCat, k)))
  {
    var mask := InBand(ageCat, k);
    SelectWeighted(income, wgt, mask);
    BandRowsNonEmpty(income, ageCat, k);
    Quantile(Select(income, mask), Select(wgt, mask), 0.5)
  }

  /** Every one of the age bands holds at least one household. */
  predicate AllBandsPresent(ageCat: seq<Option<nat>>)
  {
    forall k :: 0 <= k < NumAgeBands ==> Some(k) in ageCat
  }

  /** I_med: the groupby over age_cat, one weighted median of income per band. */
  function BandMedians(income: seq<real>, wgt: seq<real>, ageCat: seq<Option<nat>>): (r: Result<seq<real>>)
    requires WeightedColumn(income, wgt) && |ageCat| == |income|
    ensures r.Success? <==> AllBandsPresent(ageCat)
    ensures r.Success? ==> |r.value| == NumAgeBands
  {
    if exists k :: 0 <= k < NumAgeBands && Some(k) !in ageCat then Failure(EmptyInput)
    else Success(seq(NumAgeBands, k requires 0 <= k < NumAgeBands => BandMedian(income, wgt, ageCat, k).value))
  }

  /** Entry k of I_med is band k's median, so it lies between that band's smallest and largest income. */
  lemma BandMediansAt(income: seq<real>, wgt: seq<real>, ageCat: seq<Option<nat>>, k: nat)
    requires WeightedColumn(income, wgt) && |ageCat| == |income|
    requires BandMedians(income, wgt, ageCat).Success? && k < NumAgeBands
    ensures Success(BandMedians(income, wgt, ageCat).value[k]) == BandMedian(income, wgt, ageCat, k)
    ensures Select(income, InBand(ageCat, k)) != []
    ensures SeqMin(Select(income, InBand(ageCat, k))) <= BandMedians(income, wgt, ageCat).value[k]
                                                      <= SeqMax(Select(income, InBand(ageCat, k)))
  {
  }

  /**
   * grow: log(I_med[k+1] / I_med[k]) / 5 + g for every band but the last,
   * and g for the last. Every band counts as five years, and g is added to
   * every rate.
   */
  function GrowthRates(med: seq<real>, g: real, ln: real -> real): (rates: seq<real>)
    requires |med| == NumAgeBands && forall k :: 0 <= k < |med| ==> med[k] > 0.0
    ensures |rates| == NumAgeBands && rates[NumAgeBands - 1] == g
  {
    seq(NumAgeBands, k requires 0 <= k < NumAgeBands =>
      if k + 1 < NumAgeBands then ln(med[k + 1] / med[k]) / 5.0 + g else g)
  }

  /** The aggregate rate g shifts every band's rate by g, the first band's and the last's alike. */
  lemma GrowthRatesShift(med: seq<real>, g: real, ln: real -> real, k: nat)
    requires |med| == NumAgeBands && forall k :: 0 <= k < |med| ==> med[k] > 0.0
    requires k < NumAgeBands
    ensures GrowthRates(med, g, ln)[k] == GrowthRates(med, 0.0, ln)[k] + g
  {
  }

  /**
   * With an increasing log that vanishes at 1, a band whose successor has a
   * higher median grows faster than g, and one whose successor has a lower
   * median grows slower.
   */
  lemma GrowthRateSign(med: seq<real>, g: real, ln: real -> real, k: nat)
    requires |med| == NumAgeBands && forall k :: 0 <= k < |med| ==> med[k] > 0.0
    requires forall x, y :: 0.0 < x <= y ==> ln(x) <= ln(y)
    requires ln(1.0) == 0.0
    requires k + 1 < NumAgeBands
    ensures med[k + 1] >= med[k] ==> GrowthRates(med, g, ln)[k] >= g
    ensures med[k + 1] <= med[k] ==> GrowthRates(med, g, ln)[k] <= g
  {
    var ratio := med[k + 1] / med[k];
    assert med[k + 1] >= med[k] ==> ratio >= 1.0;
    assert med[k + 1] <= med[k] ==> ratio <= 1.0;
    assert ratio > 0.0;
  }

  /** The growth factor exp(grow[band]) of the band an age falls in. */
  function Factor(factors: seq<real>, age: int): (f: real)
    requires |factors| == NumAgeBands && age >= 1
    ensures f in factors
  {
    factors[FiveYearBand(age)]
  }

  /** The band Factor looks up is the label pd.cut gives the age: grow_dict mapped over age_cat. */
  lemma FactorOfAgeBand(factors: seq<real>, age: int)
    requires |factors| == NumAgeBands && age >= 1
    ensures AgeBand(age).Some? && Factor(factors, age) == factors[AgeBand(age).value]
  {
    FiveYearBandIsAgeBand(age);
  }

  /**
   * income{t}: year 0 is the current income; year t+1 is year t's times
   * the growth factor of the band of age+t, and zero once age+t+1 is past
   * end_date.
   */
  function Projected(inc0: real, age: int, endDate: int, factors: seq<real>, t: nat): (p: real)
    requires |factors| == NumAgeBands && age >= 1
    ensures t >= 1 && age + t > endDate ==> p == 0.0
  {
    if t == 0 then inc0
    else if age + t <= endDate then Projected(inc0, age, endDate, factors, t - 1) * Factor(factors, age + t - 1)
    else 0.0
  }

  /** Once the projection reaches zero it stays there. */
  lemma {:induction false} ProjectedStaysZero(inc0: real, age: int, endDate: int, factors: seq<real>, t: nat, s: nat)
    requires |factors| == NumAgeBands && age >= 1
    requires t <= s && Projected(inc0, age, endDate, factors, t) == 0.0
    ensures Projected(inc0, age, endDate, factors, s) == 0.0
  {
    if s > t {
      ProjectedStaysZero(inc0, age, endDate, factors, t, s - 1);
    }
  }

  /** The projection is linear in the starting income. */
  lemma {:induction false} ProjectedScale(c: real, inc0: real, age: int, endDate: int, factors: seq<real>, t: nat)
    requires |factors| == NumAgeBands && age >= 1
    ensures Projected(c * inc0, age, endDate, factors, t) == c * Projected(inc0, age, endDate, factors, t)
  {
    if t > 0 {
      ProjectedScale(c, inc0, age, endDate, factors, t - 1);
      var f := Factor(factors, age + t - 1);
      var p := Projected(inc0, age, endDate, factors, t - 1);
      assert (c * p) * f == c * (p * f);
    }
  }

  /**
   * percap_income{t} is the per-capita share of income{t}: both start that
   * way and are multiplied by the same mask and factor every year.
   */
  lemma PercapProjected(married: int, inc0: real, age: int, endDate: int, factors: seq<real>, t: nat)
    requires |factors| == NumAgeBands && age >= 1
    ensures Projected(PerCapita(married, inc0), age, endDate, factors, t)
      == PerCapita(married, Projected(inc0, age, endDate, factors, t))
  {
    ProjectedScale(1.0 - Indicator(married == 1) / 2.0, inc0, age, endDate, factors, t);
  }

  predicate PositiveFactors(factors: seq<real>)
  {
    forall k :: 0 <= k < |factors| ==> factors[k] > 0.0
  }

  /** A non-negative income projects to non-negative incomes. */
  lemma {:induction false} ProjectedNonNegative(inc0: real, age: int, endDate: int, factors: seq<real>, t: nat)
    requires |factors| == NumAgeBands && age >= 1 && PositiveFactors(factors) && inc0 >= 0.0
    ensures Projected(inc0, age, endDate, factors, t) >= 0.0
  {
    if t > 0 {
      ProjectedNonNegative(inc0, age, endDate, factors, t - 1);
      var p := Projected(inc0, age, endDate, factors, t - 1);
      var f := Factor(factors, age + t - 1);
      MulNonNegative(p, f);
    }
  }

  lemma MulMonotone(a: real, b: real, p: real)
    requires a <= b && p >= 0.0
    ensures a * p <= b * p
  {
  }

  /** The exponential the script calls is positive everywhere. */
  ghost predicate PositiveExp(exp: real -> real)
  {
    forall x :: exp(x) > 0.0
  }

  /** d_t: year 0 is not discounted; year t is multiplied by exp(-rf t). */
  function Discount(exp: real -> real, rf: real, t: nat): (d: real)
    ensures PositiveExp(exp) ==> d > 0.0
    ensures rf == 0.0 && exp(0.0) == 1.0 ==> d == 1.0
  {
    if t == 0 then 1.0 else exp(-rf * t as real)
  }

  /** With an increasing exp, a higher rate discounts every year at least as much. */
  lemma DiscountMonotone(exp: real -> real, rf1: real, rf2: real, t: nat)
    requires forall x, y :: x <= y ==> exp(x) <= exp(y)
    requires rf1 <= rf2
    ensures Discount(exp, rf2, t) <= Discount(exp, rf1, t)
  {
    if t > 0 {
      assert -rf2 * t as real <= -rf1 * t as real;
    }
  }

  /** percap_income{t}disc summed over years 0 .. n-1. */
  function DiscountedSum(pinc0: real, age: int, endDate: int, factors: seq<real>, exp: real -> real, rf: real, n: nat): (s: real)
    requires |factors| == NumAgeBands && age >= 1
    ensures pinc0 >= 0.0 && PositiveFactors(factors) && PositiveExp(exp) ==> s >= 0.0
  {
    if n == 0 then 0.0
    else
      var prev := DiscountedSum(pinc0, age, endDate, factors, exp, rf, n - 1);
      var d, p := Discount(exp, rf, n - 1), Projected(pinc0, age, endDate, factors, n - 1);
      assert pinc0 >= 0.0 && PositiveFactors(factors) && PositiveExp(exp) ==> d * p >= 0.0 by {
        if pinc0 >= 0.0 && PositiveFactors(factors) && PositiveExp(exp) {
          ProjectedNonNegative(pinc0, age, endDate, factors, n - 1);
          MulNonNegative(d, p);
        }
      }
      prev + d * p
  }

  /** The years the percap_LT_income sum runs over: range(end_date). */
  function Years(endDate: int): nat
  {
    if endDate > 0 then endDate else 0
  }

  /** percap_LT_income + percap_networth for one household. */
  function LifetimeWealthOf(pinc0: real, pnw: real, age: int, endDate: int, factors: seq<real>, exp: real -> real, rf: real): (w: real)
    requires |factors| == NumAgeBands && age >= 1
    ensures endDate <= 0 ==> w == pnw
    ensures endDate == 1 ==> w == pinc0 + pnw
  {
    assert DiscountedSum(pinc0, age, endDate, factors, exp, rf, 1) == pinc0;
    DiscountedSum(pinc0, age, endDate, factors, exp, rf, Years(endDate)) + pnw
  }

  /** Years whose projection is zero add nothing: the sum settles once age+m is past end_date. */
  lemma {:induction false} DiscountedSumSettles(pinc0: real, age: int, endDate: int, factors: seq<real>,
                                                exp: real -> real, rf: real, m: nat, n: nat)
    requires |factors| == NumAgeBands && age >= 1
    requires 1 <= m <= n && age + m > endDate
    ensures DiscountedSum(pinc0, age, endDate, factors, exp, rf, n) == DiscountedSum(pinc0, age, endDate, factors, exp, rf, m)
  {
    if n > m {
      DiscountedSumSettles(pinc0, age, endDate, factors, exp, rf, m, n - 1);
    }
  }

  /** A household at or past end_date has lifetime wealth percap_income + percap_networth. */
  lemma LifetimeWealthAgedOut(pinc0: real, pnw: real, age: int, endDate: int, factors: seq<real>, exp: real -> real, rf: real)
    requires |factors| == NumAgeBands && age >= 1 && age >= endDate >= 1
    ensures LifetimeWealthOf(pinc0, pnw, age, endDate, factors, exp, rf) == pinc0 + pnw
  {
    DiscountedSumSettles(pinc0, age, endDate, factors, exp, rf, 1, Years(endDate));
  }

  /**
   * One year before end_date two income terms count: the current income
   * and next year's, grown by the household's band and discounted once.
   */
  lemma LifetimeWealthLastYear(pinc0: real, pnw: real, age: int, factors: seq<real>, exp: real -> real, rf: real)
    requires |factors| == NumAgeBands && age >= 1
    ensures LifetimeWealthOf(pinc0, pnw, age, age + 1, factors, exp, rf)
      == pinc0 + exp(-rf) * (pinc0 * Factor(factors, age)) + pnw
  {
    var f := Factor(factors, age);
    DiscountedSumSettles(pinc0, age, age + 1, factors, exp, rf, 2, age + 1);
    assert Projected(pinc0, age, age + 1, factors, 1) == pinc0 * f;
    assert Discount(exp, rf, 1) == exp(-rf) by {
      assert -rf * (1 as real) == -rf;
    }
    assert DiscountedSum(pinc0, age, age + 1, factors, exp, rf, 1) == pinc0;
  }

  /** A discount that is no larger in every year gives a sum that is no larger, for non-negative income. */
  lemma {:induction false} DiscountedSumMonotone(pinc0: real, age: int, endDate: int, factors: seq<real>,
                                                 exp: real -> real, rf1: real, rf2: real, n: nat)
    requires |factors| == NumAgeBands && age >= 1 && PositiveFactors(factors) && pinc0 >= 0.0
    requires forall t: nat :: Discount(exp, rf2, t) <= Discount(exp, rf1, t)
    ensures DiscountedSum(pinc0, age, endDate, factors, exp, rf2, n) <= DiscountedSum(pinc0, age, endDate, factors, exp, rf1, n)
  {
    if n > 0 {
      DiscountedSumMonotone(pinc0, age, endDate, factors, exp, rf1, rf2, n - 1);
      ProjectedNonNegative(pinc0, age, endDate, factors, n - 1);
      StepMonotone(DiscountedSum(pinc0, age, endDate, factors, exp, rf2, n - 1),
                   DiscountedSum(pinc0, age, endDate, factors, exp, rf1, n - 1),
                   Discount(exp, rf2, n - 1), Discount(exp, rf1, n - 1),
                   Projected(pinc0, age, endDate, factors, n - 1));
    }
  }

  lemma StepMonotone(a2: real, a1: real, d2: real, d1: real, p: real)
    requires a2 <= a1 && d2 <= d1 && p >= 0.0
    ensures a2 + d2 * p <= a1 + d1 * p
  {
    MulMonotone(d2, d1, p);
    AddMonotone(a2, a1, d2 * p, d1 * p);
  }

  lemma AddMonotone(a2: real, a1: real, x2: real, x1: real)
    requires a2 <= a1 && x2 <= x1
    ensures a2 + x2 <= a1 + x1
  {
  }

  /**
   * With an increasing exp, non-negative income and positive growth
   * factors, a higher discount rate never raises lifetime wealth.
   */
  lemma LifetimeWealthMonotoneInRate(pinc0: real, pnw: real, age: int, endDate: int, factors: seq<real>,
                                     exp: real -> real, rf1: real, rf2: real)
    requires |factors| == NumAgeBands && age >= 1 && PositiveFactors(factors) && pinc0 >= 0.0
    requires forall x, y :: x <= y ==> exp(x) <= exp(y)
    requires rf1 <= rf2
    ensures LifetimeWealthOf(pinc0, pnw, age, endDate, factors, exp, rf2) <= LifetimeWealthOf(pinc0, pnw, age, endDate, factors, exp, rf1)
  {
    forall t: nat
      ensures Discount(exp, rf2, t) <= Discount(exp, rf1, t)
    {
      DiscountMonotone(exp, rf1, rf2, t);
    }
    DiscountedSumMonotone(pinc0, age, endDate, factors, exp, rf1, rf2, Years(endDate));
  }

  /** Every band's median is positive, so the log of each ratio is defined. */
  predicate PositiveMedians(meds: Result<seq<real>>)
  {
    meds.Success? ==> forall k :: 0 <= k < |meds.value| ==> meds.value[k] > 0.0
  }

  /** exp(grow): the yearly growth factor of each band. */
  function GrowthFactors(med: seq<real>, g: real, exp: real -> real, ln: real -> real): (f: seq<real>)
    requires |med| == NumAgeBands && forall k :: 0 <= k < |med| ==> med[k] > 0.0
    ensures |f| == NumAgeBands && f[NumAgeBands - 1] == exp(g)
    ensures forall k :: 0 <= k < NumAgeBands ==> f[k] == exp(GrowthRates(med, g, ln)[k])
  {
    var rates := GrowthRates(med, g, ln);
    seq(NumAgeBands, k requires 0 <= k < NumAgeBands => exp(rates[k]))
  }

  /** The number of income{t} columns: income0 always, then one per pass of range(end_date-1). */
  function PathLength(endDate: int): (n: nat)
    ensures n >= 1 && n >= Years(endDate)
  {
    if endDate > 1 then endDate else 1
  }

  /** The percap_income{t}disc entries of one row, summed over years 0 .. m-1, are the discounted sum. */
  lemma {:induction false} RowSumIsDiscountedSum(col: seq<real>, pinc0: real, age: int, endDate: int, factors: seq<real>,
                                                 exp: real -> real, rf: real)
    requires |factors| == NumAgeBands && age >= 1
    requires forall t :: 0 <= t < |col| ==> col[t] == Discount(exp, rf, t) * Projected(pinc0, age, endDate, factors, t)
    ensures Sum(col) == DiscountedSum(pinc0, age, endDate, factors, exp, rf, |col|)
  {
    if col != [] {
      RowSumIsDiscountedSum(col[..|col| - 1], pinc0, age, endDate, factors, exp, rf);
    }
  }

  /** Every household has a positive age, so age+t always falls in a band. */
  predicate Adults(rs: seq<Household>)
  {
    forall r :: 0 <= r < |rs| ==> rs[r].age >= 1
  }

  /**
   * percap_LT_income + percap_networth down the table. A household at or
   * past end_date keeps its current per-capita income plus net worth.
   */
  function LifetimeWealthColumn(rs: seq<Household>, pinc: seq<real>, pnw: seq<real>, endDate: int, factors: seq<real>,
                                exp: real -> real, rf: real): (lw: seq<real>)
    requires Adults(rs) && |pinc| == |rs| && |pnw| == |rs| && |factors| == NumAgeBands
    ensures |lw| == |rs|
    ensures forall r :: 0 <= r < |rs| && rs[r].age >= endDate >= 1 ==> lw[r] == pinc[r] + pnw[r]
  {
    var lw := seq(|rs|, r requires 0 <= r < |rs| => LifetimeWealthOf(pinc[r], pnw[r], rs[r].age, endDate, factors, exp, rf));
    assert forall r :: 0 <= r < |rs| && rs[r].age >= endDate >= 1 ==> lw[r] == pinc[r] + pnw[r] by {
      forall r | 0 <= r < |rs| && rs[r].age >= endDate >= 1
        ensures lw[r] == pinc[r] + pnw[r]
      {
        LifetimeWealthAgedOut(pinc[r], pnw[r], rs[r].age, endDate, factors, exp, rf);
      }
    }
    lw
  }

  /** Year t's column, for t < len, holds every row's projection from its year-0 value. */
  predicate ProjectedPath(cols: seq<seq<real>>, rs: seq<Household>, start: seq<real>, endDate: int, f: seq<real>, len: nat)
    requires Adults(rs) && |start| == |rs| && |f| == NumAgeBands
  {
    && |cols| == len
    && (forall t :: 0 <= t < len ==> |cols[t]| == |rs|)
    && (forall t, r :: 0 <= t < len && 0 <= r < |rs| ==> cols[t][r] == Projected(start[r], rs[r].age, endDate, f, t))
  }

  /** Year t's discounted column is year t's column times d_t. */
  predicate DiscountedPath(dp: seq<seq<real>>, pp: seq<seq<real>>, exp: real -> real, rf: real, len: nat)
    requires |pp| == len
  {
    |dp| == len && forall t :: 0 <= t < len ==> dp[t] == Scale(Discount(exp, rf, t), pp[t])
  }

  /**
   * income{t}, percap_income{t} and percap_income{t}disc for years
   * 0 .. len-1, one column per year: the projections of income and
   * percap_income, and the latter discounted.
   */
  predicate PathsFrom(ip: seq<seq<real>>, pp: seq<seq<real>>, dp: seq<seq<real>>, rs: seq<Household>,
                      inc: seq<real>, pinc: seq<real>, endDate: int, f: seq<real>, exp: real -> real, rf: real, len: nat)
    requires Adults(rs) && |inc| == |rs| && |pinc| == |rs| && |f| == NumAgeBands
  {
    && ProjectedPath(ip, rs, inc, endDate, f, len)
    && ProjectedPath(pp, rs, pinc, endDate, f, len)
    && DiscountedPath(dp, pp, exp, rf, len)
  }

  /**
   * The `for t in range(end_date-1)` loop: starting from income0,
   * percap_income0 and percap_income0disc (all as read), year t+1 is year
   * t times the growth factor of the band of age+t where age+t+1 is at most
   * end_date and zero elsewhere, and its discounted column is multiplied by
   * exp(-rf (t+1)).
   */
  method ProjectPaths(rs: seq<Household>, inc: seq<real>, pinc: seq<real>, endDate: int, f: seq<real>,
                      exp: real -> real, rf: real)
    returns (ip: seq<seq<real>>, pp: seq<seq<real>>, dp: seq<seq<real>>)
    requires Adults(rs) && |inc| == |rs| && |pinc| == |rs| && |f| == NumAgeBands
    ensures PathsFrom(ip, pp, dp, rs, inc, pinc, endDate, f, exp, rf, PathLength(endDate))
    ensures ip[0] == inc && pp[0] == pinc && dp[0] == pinc
  {
    var n := |rs|;
    ip, pp, dp := [inc], [pinc], [pinc];
    for t := 0 to PathLength(endDate) - 1
      invariant PathsFrom(ip, pp, dp, rs, inc, pinc, endDate, f, exp, rf, t + 1)
      invariant ip[0] == inc && pp[0] == pinc && dp[0] == pinc
    {
      var gr := seq(n, r requires 0 <= r < n => Factor(f, rs[r].age + t));
      var ni := seq(n, r requires 0 <= r < n => if rs[r].age + t + 1 <= endDate then ip[t][r] * gr[r] else 0.0);
      var np := seq(n, r requires 0 <= r < n => if rs[r].age + t + 1 <= endDate then pp[t][r] * gr[r] else 0.0);
      var nd := Scale(Discount(exp, rf, t + 1), np);
      forall r | 0 <= r < n
        ensures ni[r] == Projected(inc[r], rs[r].age, endDate, f, t + 1)
        ensures np[r] == Projected(pinc[r], rs[r].age, endDate, f, t + 1)
      {
        var age := rs[r].age;
        if age + t + 1 <= endDate {
          assert ip[t][r] == Projected(inc[r], age, endDate, f, t);
          assert pp[t][r] == Projected(pinc[r], age, endDate, f, t);
          assert gr[r] == Factor(f, age + t);
        } else {
          assert ni[r] == 0.0 && np[r] == 0.0;
        }
      }
      PathsExtend(ip, pp, dp, rs, inc, pinc, endDate, f, exp, rf, t + 1, ni, np, nd);
      ip, pp, dp := ip + [ni], pp + [np], dp + [nd];
    }
  }

  /** Appending year len's column, as the projection gives it, extends a path by a year. */
  lemma ProjectedPathExtend(cols: seq<seq<real>>, rs: seq<Household>, start: seq<real>, endDate: int, f: seq<real>,
                            len: nat, next: seq<real>)
    requires Adults(rs) && |start| == |rs| && |f| == NumAgeBands
    requires ProjectedPath(cols, rs, start, endDate, f, len)
    requires |next| == |rs| && forall r :: 0 <= r < |rs| ==> next[r] == Projected(start[r], rs[r].age, endDate, f, len)
    ensures ProjectedPath(cols + [next], rs, start, endDate, f, len + 1)
  {
  }

  /** Appending the three year-len columns extends all three paths by a year. */
  lemma PathsExtend(ip: seq<seq<real>>, pp: seq<seq<real>>, dp: seq<seq<real>>, rs: seq<Household>,
                    inc: seq<real>, pinc: seq<real>, endDate: int, f: seq<real>, exp: real -> real, rf: real, len: nat,
                    ni: seq<real>, np: seq<real>, nd: seq<real>)
    requires Adults(rs) && |inc| == |rs| && |pinc| == |rs| && |f| == NumAgeBands
    requires PathsFrom(ip, pp, dp, rs, inc, pinc, endDate, f, exp, rf, len)
    requires |ni| == |rs| && |np| == |rs|
    requires forall r :: 0 <= r < |rs| ==> ni[r] == Projected(inc[r], rs[r].age, endDate, f, len)
    requires forall r :: 0 <= r < |rs| ==> np[r] == Projected(pinc[r], rs[r].age, endDate, f, len)
    requires nd == Scale(Discount(exp, rf, len), np)
    ensures PathsFrom(ip + [ni], pp + [np], dp + [nd], rs, inc, pinc, endDate, f, exp, rf, len + 1)
  {
    ProjectedPathExtend(ip, rs, inc, endDate, f, len, ni);
    ProjectedPathExtend(pp, rs, pinc, endDate, f, len, np);
    var pp', dp' := pp + [np], dp + [nd];
    forall t | 0 <= t < len + 1
      ensures dp'[t] == Scale(Discount(exp, rf, t), pp'[t])
    {
      if t < len {
        assert dp'[t] == dp[t] && pp'[t] == pp[t];
      }
    }
  }

  /** One row's sum of the columns 0 .. m-1. */
  function RowSum(cols: seq<seq<real>>, r: nat, m: nat): real
    requires m <= |cols| && forall t :: 0 <= t < m ==> r < |cols[t]|
  {
    Sum(seq(m, t requires 0 <= t < m => cols[t][r]))
  }

  /** percap_LT_income of every row is its discounted sum over range(end_date). */
  lemma PathsSum(ip: seq<seq<real>>, pp: seq<seq<real>>, dp: seq<seq<real>>, rs: seq<Household>,
                 inc: seq<real>, pinc: seq<real>, endDate: int, f: seq<real>, exp: real -> real, rf: real, r: nat)
    requires Adults(rs) && |inc| == |rs| && |pinc| == |rs| && |f| == NumAgeBands && r < |rs|
    requires PathsFrom(ip, pp, dp, rs, inc, pinc, endDate, f, exp, rf, PathLength(endDate))
    ensures RowSum(dp, r, Years(endDate)) == DiscountedSum(pinc[r], rs[r].age, endDate, f, exp, rf, Years(endDate))
  {
    var m := Years(endDate);
    RowSumIsDiscountedSum(seq(m, t requires 0 <= t < m => dp[t][r]), pinc[r], rs[r].age, endDate, f, exp, rf);
  }
}
