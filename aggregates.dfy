/**
 * The tables the figure code builds from the finished survey table, apart
 * from the plotting: borrower and population percentiles, rows of group
 * averages padded to full length, population shares and aggregate debt by
 * age band, and the weight of each (quantile, debt bracket) cell with the
 * fraction of each quantile that falls in each bracket.
 */
module Aggregates {
  import opened Wrappers
  import opened Columns
  import opened WeightedQuantile
  import opened Binning
  import opened QuantileBins

  /*
   * Group sums. groupby(labels)[col].sum() adds the rows of each group; a
   * row is counted in a group's sum through a mask, rows outside it
   * contributing zero.
   */

  /** A column with the rows outside the group set to zero. */
  function Masked(xs: seq<real>, keep: seq<bool>): (ys: seq<real>)
    requires |keep| == |xs|
    ensures |ys| == |xs|
    ensures (forall r :: 0 <= r < |keep| ==> keep[r]) ==> ys == xs
  {
    seq(|xs|, r requires 0 <= r < |xs| => if keep[r] then xs[r] else 0.0)
  }

  /** No entry of the column is negative. */
  predicate NonNegative(xs: seq<real>)
  {
    forall r :: 0 <= r < |xs| ==> xs[r] >= 0.0
  }

  /** The sum of a column over one group of rows. */
  function GroupSum(xs: seq<real>, keep: seq<bool>): (s: real)
    requires |keep| == |xs|
    ensures NonNegative(xs) ==> s >= 0.0
  {
    var ys := Masked(xs, keep);
    assert NonNegative(xs) ==> Sum(ys) >= 0.0 by {
      if NonNegative(xs) {
        SumNonNegative(ys);
      }
    }
    Sum(ys)
  }

  /** Summing under the mask is summing the selected rows df[keep]. */
  lemma {:induction false} GroupSumIsSelectedSum(xs: seq<real>, keep: seq<bool>)
    requires |keep| == |xs|
    ensures GroupSum(xs, keep) == Sum(Select(xs, keep))
  {
    if xs != [] {
      var n := |xs| - 1;
      GroupSumIsSelectedSum(xs[..n], keep[..n]);
      assert Masked(xs, keep)[..n] == Masked(xs[..n], keep[..n]);
      var rest := Select(xs[..n], keep[..n]);
      if keep[n] {
        assert (rest + [xs[n]])[..|rest|] == rest;
      }
    }
  }

  /** The entries of a non-negative column are each at most its sum. */
  lemma {:induction false} EntryAtMostSum(s: seq<real>, k: nat)
    requires k < |s| && forall i :: 0 <= i < |s| ==> s[i] >= 0.0
    ensures s[k] <= Sum(s)
  {
    var n := |s| - 1;
    if k == n {
      SumNonNegative(s[..n]);
    } else {
      EntryAtMostSum(s[..n], k);
    }
  }

  /** A group holding a row with a positive value of a non-negative column has a positive sum. */
  lemma GroupSumPositive(xs: seq<real>, keep: seq<bool>, r: nat)
    requires |keep| == |xs| && r < |xs| && keep[r] && xs[r] > 0.0
    requires forall i :: 0 <= i < |xs| ==> xs[i] >= 0.0
    ensures GroupSum(xs, keep) > 0.0
  {
    EntryAtMostSum(Masked(xs, keep), r);
  }

  /** groupby over labels 0 .. n-1: entry k sums the rows labelled k. */
  function GroupSums(xs: seq<real>, lab: seq<Option<nat>>, n: nat): (gs: seq<real>)
    requires |lab| == |xs|
    ensures |gs| == n
    ensures forall k :: 0 <= k < n ==> gs[k] == GroupSum(xs, InBand(lab, k))
  {
    seq(n, k requires 0 <= k < n => GroupSum(xs, InBand(lab, k)))
  }

  /** The rows carrying one of the labels 0 .. n-1; a missing (NaN) label is in no group. */
  function Labelled(lab: seq<Option<nat>>, n: nat): (keep: seq<bool>)
    ensures |keep| == |lab|
    ensures forall r :: 0 <= r < |lab| ==> (keep[r] <==> lab[r].Some? && lab[r].value < n)
  {
    seq(|lab|, r requires 0 <= r < |lab| => lab[r].Some? && lab[r].value < n)
  }

  /** The groups partition the labelled rows: their sums add up to the sum over all of them. */
  lemma {:induction false} GroupSumsPartition(xs: seq<real>, lab: seq<Option<nat>>, n: nat)
    requires |lab| == |xs|
    ensures Sum(GroupSums(xs, lab, n)) == GroupSum(xs, Labelled(lab, n))
  {
    if n == 0 {
      SumConstant(Masked(xs, Labelled(lab, 0)), 0.0);
    } else {
      GroupSumsPartition(xs, lab, n - 1);
      assert GroupSums(xs, lab, n)[..n - 1] == GroupSums(xs, lab, n - 1);
      SumAdd(Masked(xs, Labelled(lab, n - 1)), Masked(xs, InBand(lab, n - 1)), Masked(xs, Labelled(lab, n)));
    }
  }

  /** Group sums of a non-negative column are non-negative. */
  lemma GroupSumsNonNegative(xs: seq<real>, lab: seq<Option<nat>>, n: nat)
    requires |lab| == |xs| && forall r :: 0 <= r < |xs| ==> xs[r] >= 0.0
    ensures forall k :: 0 <= k < n ==> GroupSums(xs, lab, n)[k] >= 0.0
  {
    forall k | 0 <= k < n
      ensures GroupSums(xs, lab, n)[k] >= 0.0
    {
      SumNonNegative(Masked(xs, InBand(lab, k)));
    }
  }

  /*
   * Slices of the table: slice_fun['Borrowers'] keeps the rows with
   * percap_all_loans > 0, slice_fun['All'] keeps every row.
   */

  function Borrowers(debt: seq<real>): (keep: seq<bool>)
    ensures |keep| == |debt|
    ensures forall r :: 0 <= r < |debt| ==> (keep[r] <==> debt[r] > 0.0)
  {
    seq(|debt|, r requires 0 <= r < |debt| => debt[r] > 0.0)
  }

  /** Column i of the two-column tables: 0 for borrowers, 1 for everyone. */
  function SliceMask(i: nat, debt: seq<real>): (keep: seq<bool>)
    ensures |keep| == |debt|
    ensures i == 0 ==> keep == Borrowers(debt)
    ensures i != 0 ==> forall r :: 0 <= r < |debt| ==> keep[r]
  {
    if i == 0 then Borrowers(debt) else seq(|debt|, r => true)
  }

  /** A selection is empty exactly when the mask keeps no row. */
  lemma SelectNonEmpty(xs: seq<real>, keep: seq<bool>)
    requires |keep| == |xs|
    ensures Select(xs, keep) != [] <==> exists r :: 0 <= r < |xs| && keep[r]
  {
    if Select(xs, keep) != [] {
      SelectedRow(xs, keep, Select(xs, keep)[0]);
    }
    if r :| 0 <= r < |xs| && keep[r] {
      SelectKeeps(xs, keep, r);
    }
  }

  /*
   * Percentiles of borrowers and of the whole population
   * (scf_figures.py, array_temp of the first figure).
   */

  /** The num+1 weighted quantiles of a column over the borrowers' rows only. */
  function BorrowerCutpoints(xs: seq<real>, w: seq<real>, debt: seq<real>, num: nat): (r: Result<seq<real>>)
    requires WeightedColumn(xs, w) && |debt| == |xs| && num > 0
    ensures r.Success? <==> exists i :: 0 <= i < |xs| && debt[i] > 0.0
    ensures r.Success? ==> |r.value| == num + 1 && NonDecreasing(r.value)
    ensures r.Success? ==> Select(xs, Borrowers(debt)) != []
    ensures r.Success? ==> r.value[0] == SeqMin(Select(xs, Borrowers(debt)))
    ensures r.Success? ==> r.value[num] == SeqMax(Select(xs, Borrowers(debt)))
  {
    var keep := Borrowers(debt);
    SelectWeighted(xs, w, keep);
    SelectNonEmpty(xs, keep);
    Cutpoints(Select(xs, keep), Select(w, keep), num)
  }

  /** Values and weights of rows without student debt play no part in the borrower percentiles. */
  lemma BorrowerCutpointsUseBorrowersOnly(xs: seq<real>, ys: seq<real>, wx: seq<real>, wy: seq<real>,
                                          debt: seq<real>, num: nat)
    requires WeightedColumn(xs, wx) && WeightedColumn(ys, wy) && |debt| == |xs| == |ys| && num > 0
    requires forall i :: 0 <= i < |xs| && debt[i] > 0.0 ==> xs[i] == ys[i] && wx[i] == wy[i]
    ensures BorrowerCutpoints(xs, wx, debt, num) == BorrowerCutpoints(ys, wy, debt, num)
  {
    SelectOnlyKept(xs, ys, Borrowers(debt));
    SelectOnlyKept(wx, wy, Borrowers(debt));
  }

  /**
   * array_temp: column 0 the borrowers' num+1 percentiles of a per-capita
   * column, column 1 everyone's. Without borrowers the first quantile
   * raises and the table is not finished.
   */
  method PercentileTable(xs: seq<real>, w: seq<real>, debt: seq<real>, num: nat)
    returns (err: Option<Error>, table: array2<real>)
    requires WeightedColumn(xs, w) && |debt| == |xs| && num > 0
    ensures fresh(table) && table.Length0 == num + 1 && table.Length1 == 2
    ensures err.None? <==> exists i :: 0 <= i < |xs| && debt[i] > 0.0
    ensures err.Some? ==> err.value == EmptyInput
    ensures err.None? ==> forall j :: 0 <= j <= num ==>
      table[j, 0] == BorrowerCutpoints(xs, w, debt, num).value[j] && table[j, 1] == Cutpoints(xs, w, num).value[j]
  {
    table := new real[num + 1, 2]((j, i) => 0.0);
    var b := BorrowerCutpoints(xs, w, debt, num);
    if b.Failure? {
      return Some(EmptyInput), table;
    }
    SetColumn(table, 0, b.value);
    var a := Cutpoints(xs, w, num);
    SetColumn(table, 1, a.value);
    return None, table;
  }

  /** array_temp[:, i] = col. */
  method SetColumn(table: array2<real>, i: nat, col: seq<real>)
    requires i < table.Length1 && |col| == table.Length0
    modifies table
    ensures forall j :: 0 <= j < table.Length0 ==> table[j, i] == col[j]
    ensures forall j, k :: 0 <= j < table.Length0 && 0 <= k < table.Length1 && k != i ==> table[j, k] == old(table[j, k])
  {
    forall j | 0 <= j < table.Length0 {
      table[j, i] := col[j];
    }
  }

  /** Both percentile columns run upwards, and the borrowers' stay within everyone's range. */
  lemma PercentileColumnsOrdered(xs: seq<real>, w: seq<real>, debt: seq<real>, num: nat)
    requires WeightedColumn(xs, w) && |debt| == |xs| && num > 0
    requires BorrowerCutpoints(xs, w, debt, num).Success?
    ensures Cutpoints(xs, w, num).Success?
    ensures Cutpoints(xs, w, num).value[0] <= BorrowerCutpoints(xs, w, debt, num).value[0]
    ensures BorrowerCutpoints(xs, w, debt, num).value[num] <= Cutpoints(xs, w, num).value[num]
  {
    var sel := Select(xs, Borrowers(debt));
    SeqMinIsLeast(sel);
    SeqMaxIsGreatest(sel);
    SeqMinIsLeast(xs);
    SeqMaxIsGreatest(xs);
  }

  /*
   * Back-fill of a short row of group averages (lifetime_wealth_SD and the
   * second figure of scf_figures.py).
   */

  /** The padded row: gb[0] repeated num - |gb| times, then gb itself. */
  function BackFilled(gb: seq<real>, num: nat): (row: seq<real>)
    requires |gb| <= num && (|gb| > 0 || num == 0)
    ensures |row| == num
    ensures row[num - |gb|..] == gb
    ensures forall i :: 0 <= i < num - |gb| ==> row[i] == gb[0]
  {
    if gb == [] then [] else seq(num - |gb|, i => gb[0]) + gb
  }

  /** A full row is left as it came. */
  lemma BackFilledFull(gb: seq<real>)
    requires |gb| > 0
    ensures BackFilled(gb, |gb|) == gb
  {
    assert BackFilled(gb, |gb|)[|gb| - |gb|..] == gb;
  }

  /** Padding keeps a rising row rising. */
  lemma BackFilledNonDecreasing(gb: seq<real>, num: nat)
    requires 0 < |gb| <= num && NonDecreasing(gb)
    ensures NonDecreasing(BackFilled(gb, num))
  {
    var row, k := BackFilled(gb, num), num - |gb|;
    forall i, j | 0 <= i < j < num
      ensures row[i] <= row[j]
    {
      assert row[k..][0] == gb[0];
      if j >= k {
        assert row[j] == row[k..][j - k] == gb[j - k];
      }
      if i >= k {
        assert row[i] == row[k..][i - k] == gb[i - k];
      }
    }
  }

  /**
   * The row of num columns labelled 1 .. num: with fewer averages than
   * columns, the last |gb| columns get gb and the columns up to label
   * num+1-|gb| (inclusive, as .loc slices are) get gb[0]; otherwise the
   * whole row gets gb. gb[0] of no averages, and more averages than
   * columns, raise.
   */
  method PadRow(gb: seq<real>, num: nat) returns (err: Option<Error>, row: array<real>)
    ensures fresh(row) && row.Length == num
    ensures err.None? <==> |gb| <= num && (|gb| > 0 || num == 0)
    ensures err.Some? ==> err.value == (if |gb| > num then LengthMismatch else EmptyGroups)
    ensures err.None? ==> row[..] == BackFilled(gb, num)
  {
    row := new real[num](i => 0.0);
    if |gb| < num {
      var k := num - |gb|;
      forall i | k <= i < num {
        row[i] := gb[i - k];
      }
      if gb == [] {
        return Some(EmptyGroups), row;
      }
      forall i | 0 <= i <= k {
        row[i] := gb[0];
      }
    } else {
      if |gb| > num {
        return Some(LengthMismatch), row;
      }
      forall i | 0 <= i < num {
        row[i] := gb[i];
      }
    }
    var filled := BackFilled(gb, num);
    assert forall i :: num - |gb| <= i < num ==> filled[i] == filled[num - |gb|..][i - (num - |gb|)];
    return None, row;
  }

  /*
   * Age shares and aggregate debt (scf_figures.py, the age figures).
   */

  /** 100 * gb / gb.sum(): each group's percentage of the total, NaN (None) when the total is zero. */
  function Shares(gb: seq<real>): (s: Option<seq<real>>)
    ensures s.Some? <==> Sum(gb) != 0.0
    ensures s.Some? ==> |s.value| == |gb|
  {
    if Sum(gb) == 0.0 then None
    else Some(seq(|gb|, k requires 0 <= k < |gb| => 100.0 * gb[k] / Sum(gb)))
  }

  /** The shares add up to 100. */
  lemma SharesSumTo100(gb: seq<real>)
    requires Sum(gb) != 0.0
    ensures Sum(Shares(gb).value) == 100.0
  {
    PercentagesSumTo100(gb, Shares(gb).value, Sum(gb));
  }

  lemma PercentagesSumTo100(gb: seq<real>, s: seq<real>, t: real)
    requires t == Sum(gb) && t != 0.0 && |s| == |gb|
    requires forall k :: 0 <= k < |gb| ==> s[k] == 100.0 * gb[k] / t
    ensures Sum(s) == 100.0
  {
    var c := 100.0 / t;
    PercentsAreScaled(gb, s, t, c);
    SumScale(gb, s, c);
    ScaleCancels(c, t);
  }

  /** Each share is its group scaled by c = 100 / t. */
  lemma PercentsAreScaled(gb: seq<real>, s: seq<real>, t: real, c: real)
    requires t != 0.0 && c == 100.0 / t && |s| == |gb|
    requires forall k :: 0 <= k < |gb| ==> s[k] == 100.0 * gb[k] / t
    ensures forall k :: 0 <= k < |gb| ==> s[k] == c * gb[k]
  {
    forall k | 0 <= k < |gb|
      ensures s[k] == c * gb[k]
    {
      PercentAsScale(s[k], gb[k], t);
    }
  }

  /** (100 / t) t = 100. */
  lemma ScaleCancels(c: real, t: real)
    requires t != 0.0 && c == 100.0 / t
    ensures c * t == 100.0
  {
  }

  /** 100 a / b is a scaled by 100 / b. */
  lemma PercentAsScale(x: real, a: real, b: real)
    requires b != 0.0 && x == 100.0 * a / b
    ensures x == (100.0 / b) * a
  {
  }

  /** Shares of non-negative groups lie between 0 and 100. */
  lemma SharesBounded(gb: seq<real>)
    requires Sum(gb) != 0.0 && forall k :: 0 <= k < |gb| ==> gb[k] >= 0.0
    ensures forall k :: 0 <= k < |gb| ==> 0.0 <= Shares(gb).value[k] <= 100.0
  {
    var t := Sum(gb);
    SumNonNegative(gb);
    forall k | 0 <= k < |gb|
      ensures 0.0 <= Shares(gb).value[k] <= 100.0
    {
      EntryAtMostSum(gb, k);
      PercentBounded(Shares(gb).value[k], gb[k], t);
    }
  }

  /** A non-negative part of a total is between 0 and 100 percent of it. */
  lemma PercentBounded(x: real, a: real, t: real)
    requires 0.0 <= a <= t && t != 0.0 && x == 100.0 * a / t
    ensures 0.0 <= x <= 100.0
  {
    RatioAtMostOne(a, t);
    PercentOfRatio(a, t);
  }

  /** A slice's survey weight in each age band: df.groupby(age_cat)['wgt'].sum(). */
  function BandWeights(w: seq<real>, ac: seq<Option<nat>>, keep: seq<bool>): (gb: seq<real>)
    requires |ac| == |w| && |keep| == |w|
    ensures |gb| == NumAgeBands
  {
    GroupSums(Masked(w, keep), ac, NumAgeBands)
  }

  /** One cell of the age table: band k's share of slice i, or NaN. */
  function ShareCell(w: seq<real>, ac: seq<Option<nat>>, debt: seq<real>, i: nat, k: nat): (cell: Option<real>)
    requires |ac| == |w| && |debt| == |w| && k < NumAgeBands
    ensures (forall r :: 0 <= r < |w| ==> w[r] >= 0.0) && cell.Some? ==> 0.0 <= cell.value <= 100.0
  {
    var gb := BandWeights(w, ac, SliceMask(i, debt));
    assert (forall r :: 0 <= r < |w| ==> w[r] >= 0.0) && Sum(gb) != 0.0 ==> 0.0 <= Shares(gb).value[k] <= 100.0 by {
      if (forall r :: 0 <= r < |w| ==> w[r] >= 0.0) && Sum(gb) != 0.0 {
        GroupSumsNonNegative(Masked(w, SliceMask(i, debt)), ac, NumAgeBands);
        SharesBounded(gb);
      }
    }
    var s := Shares(gb);
    if s.None? then None else Some(s.value[k])
  }

  /**
   * array_temp of the age figure: for the borrowers (column 0) and
   * everyone (column 1), each age band's percentage of the slice's
   * weight.
   */
  method AgeShareTable(w: seq<real>, ac: seq<Option<nat>>, debt: seq<real>) returns (table: array2<Option<real>>)
    requires |ac| == |w| && |debt| == |w|
    ensures fresh(table) && table.Length0 == NumAgeBands && table.Length1 == 2
    ensures forall k, i :: 0 <= k < NumAgeBands && 0 <= i < 2 ==> table[k, i] == ShareCell(w, ac, debt, i, k)
  {
    table := new Option<real>[NumAgeBands, 2]((k, i) => None);
    for i := 0 to 2
      invariant forall k, i' :: 0 <= k < NumAgeBands && 0 <= i' < i ==> table[k, i'] == ShareCell(w, ac, debt, i', k)
    {
      var shares := Shares(BandWeights(w, ac, SliceMask(i, debt)));
      forall k | 0 <= k < NumAgeBands {
        table[k, i] := if shares.None? then None else Some(shares.value[k]);
      }
    }
  }

  /**
   * With positive weights and some row of the slice in an age band, every
   * cell of the slice's column is a percentage, and the column adds up to
   * 100; the total it divides by is the weight of the slice's banded rows.
   */
  lemma AgeSharesArePercentages(w: seq<real>, ac: seq<Option<nat>>, debt: seq<real>, i: nat, r: nat)
    requires |ac| == |w| && |debt| == |w| && Positive(w)
    requires r < |w| && SliceMask(i, debt)[r] && ac[r].Some? && ac[r].value < NumAgeBands
    ensures Sum(BandWeights(w, ac, SliceMask(i, debt)))
      == GroupSum(Masked(w, SliceMask(i, debt)), Labelled(ac, NumAgeBands)) > 0.0
    ensures forall k :: 0 <= k < NumAgeBands ==> ShareCell(w, ac, debt, i, k).Some?
    ensures forall k :: 0 <= k < NumAgeBands ==> 0.0 <= ShareCell(w, ac, debt, i, k).value <= 100.0
    ensures Sum(Shares(BandWeights(w, ac, SliceMask(i, debt))).value) == 100.0
  {
    var keep := SliceMask(i, debt);
    var sw := Masked(w, keep);
    var gb := BandWeights(w, ac, keep);
    GroupSumsPartition(sw, ac, NumAgeBands);
    GroupSumPositive(sw, Labelled(ac, NumAgeBands), r);
    GroupSumsNonNegative(sw, ac, NumAgeBands);
    SharesBounded(gb);
    SharesSumTo100(gb);
  }

  /** debt_wgt = all_loans * wgt. */
  function DebtWeight(loans: seq<real>, w: seq<real>): (dw: seq<real>)
    requires |w| == |loans|
    ensures |dw| == |loans|
  {
    seq(|loans|, r requires 0 <= r < |loans| => loans[r] * w[r])
  }

  /** dt: the weighted student debt held in each age band. */
  function AggregateDebt(loans: seq<real>, w: seq<real>, ac: seq<Option<nat>>): (dt: seq<real>)
    requires |w| == |loans| && |ac| == |loans|
    ensures |dt| == NumAgeBands
  {
    GroupSums(DebtWeight(loans, w), ac, NumAgeBands)
  }

  /**
   * The bands split the aggregate: summed over the bands, the debt is the
   * weighted debt of every household with an age band, and every band's
   * debt is non-negative when balances and weights are.
   */
  lemma AggregateDebtPartition(loans: seq<real>, w: seq<real>, ac: seq<Option<nat>>)
    requires |w| == |loans| && |ac| == |loans|
    requires forall r :: 0 <= r < |loans| ==> loans[r] >= 0.0 && w[r] >= 0.0
    ensures Sum(AggregateDebt(loans, w, ac)) == GroupSum(DebtWeight(loans, w), Labelled(ac, NumAgeBands))
    ensures forall k :: 0 <= k < NumAgeBands ==> AggregateDebt(loans, w, ac)[k] >= 0.0
  {
    var dw := DebtWeight(loans, w);
    GroupSumsPartition(dw, ac, NumAgeBands);
    forall r | 0 <= r < |loans|
      ensures dw[r] >= 0.0
    {
      MulNonNegative(loans[r], w[r]);
    }
    GroupSumsNonNegative(dw, ac, NumAgeBands);
  }

  /** When every household has an age band, the bands add up to the whole table's weighted debt. */
  lemma AggregateDebtTotal(loans: seq<real>, w: seq<real>, ac: seq<Option<nat>>)
    requires |w| == |loans| && |ac| == |loans|
    requires forall r :: 0 <= r < |loans| ==> ac[r].Some? && ac[r].value < NumAgeBands
    ensures Sum(AggregateDebt(loans, w, ac)) == Sum(DebtWeight(loans, w))
  {
    var dw := DebtWeight(loans, w);
    GroupSumsPartition(dw, ac, NumAgeBands);
    assert Masked(dw, Labelled(ac, NumAgeBands)) == dw;
  }

  /*
   * The (quantile, debt bracket) cross-tab: scf_figures.py for per-capita
   * income quintiles, lifetime_wealth_debt_count for lifetime-wealth
   * quantiles.
   */

  /** A value of the pairs column: (quantile label, debt bracket), either of them NaN. */
  type Cell = (Option<nat>, Option<nat>)

  /**
   * The pairs column: the quantile label pd.cut gives xs at its own num+1
   * weighted quantiles, first bin closed, and the debt bracket of
   * percap_all_loans.
   */
  function PairLabels(xs: seq<real>, w: seq<real>, debt: seq<real>, num: nat): (r: Result<seq<Cell>>)
    requires WeightedColumn(xs, w) && |debt| == |xs| && num > 0
    ensures r.Success? <==> GlobalCats(xs, w, num, true).Success?
    ensures r.Success? ==> |r.value| == |xs|
    ensures r.Success? ==> forall i :: 0 <= i < |xs| ==> r.value[i].1 == DebtBracket(debt[i])
  {
    match GlobalCats(xs, w, num, true)
    case Failure(e) => Failure(e)
    case Success(q) => Success(seq(|xs|, i requires 0 <= i < |xs| => (q[i], DebtBracket(debt[i]))))
  }

  /** Every row gets one of the num quantile labels and, unless its debt is negative, a bracket. */
  lemma PairLabelsCover(xs: seq<real>, w: seq<real>, debt: seq<real>, num: nat)
    requires WeightedColumn(xs, w) && |debt| == |xs| && num > 0
    requires PairLabels(xs, w, debt, num).Success?
    ensures forall i :: 0 <= i < |xs| ==>
      PairLabels(xs, w, debt, num).value[i].0.Some? && PairLabels(xs, w, debt, num).value[i].0.value < num
    ensures forall i :: 0 <= i < |xs| && debt[i] >= 0.0 ==> PairLabels(xs, w, debt, num).value[i].1.Some?
  {
    GlobalCatsCoverRows(xs, w, num);
    forall i | 0 <= i < |xs| && debt[i] >= 0.0
      ensures DebtBracket(debt[i]).Some?
    {
      DebtBracketRanges(debt[i]);
    }
  }

  /** The rows whose pair is the given cell. */
  function CellRows(ps: seq<Cell>, key: Cell): (keep: seq<bool>)
    ensures |keep| == |ps|
    ensures forall r :: 0 <= r < |ps| ==> (keep[r] <==> ps[r] == key)
  {
    seq(|ps|, r requires 0 <= r < |ps| => ps[r] == key)
  }

  /** groupby(pairs)['wgt'].sum(): one entry per pair that occurs, holding the weight of its rows. */
  function CellWeights(ps: seq<Cell>, w: seq<real>): (m: map<Cell, real>)
    requires |w| == |ps|
    ensures forall key :: key in m <==> key in ps
  {
    map key | key in ps :: GroupSum(w, CellRows(ps, key))
  }

  /** A pair that no row has weighs nothing. */
  lemma AbsentCellWeighsNothing(ps: seq<Cell>, w: seq<real>, key: Cell)
    requires |w| == |ps| && key !in ps
    ensures GroupSum(w, CellRows(ps, key)) == 0.0
  {
    SumConstant(Masked(w, CellRows(ps, key)), 0.0);
  }

  /** A cell of the quantile-by-bracket grid: range(num) x range(4). */
  predicate Grid(key: Cell, num: nat)
  {
    key.0.Some? && key.0.value < num && key.1.Some? && key.1.value < NumDebtBrackets
  }

  /**
   * `for key in itertools.product(range(num), range(4))`: every cell of
   * the grid that is missing is added with weight 0; every entry already
   * there stays as it was.
   */
  method FillMissingKeys(counts: map<Cell, real>, num: nat) returns (filled: map<Cell, real>)
    ensures forall key :: Grid(key, num) ==> key in filled
    ensures forall key :: key in counts ==> key in filled && filled[key] == counts[key]
    ensures forall key :: key in filled && key !in counts ==> Grid(key, num) && filled[key] == 0.0
  {
    filled := counts;
    for i := 0 to num
      invariant forall key :: Grid(key, i) ==> key in filled
      invariant forall key :: key in counts ==> key in filled && filled[key] == counts[key]
      invariant forall key :: key in filled && key !in counts ==> Grid(key, num) && filled[key] == 0.0
    {
      for j := 0 to NumDebtBrackets
        invariant forall key :: Grid(key, i) ==> key in filled
        invariant forall k :: 0 <= k < j ==> (Some(i), Some(k)) in filled
        invariant forall key :: key in counts ==> key in filled && filled[key] == counts[key]
        invariant forall key :: key in filled && key !in counts ==> Grid(key, num) && filled[key] == 0.0
      {
        var key: Cell := (Some(i), Some(j));
        if key !in filled {
          filled := filled[key := 0.0];
        }
      }
      forall key | Grid(key, i + 1)
        ensures key in filled
      {
        if key.0.value == i {
          assert key == (Some(i), Some(key.1.value));
        }
      }
    }
  }

  /** After the fill, every grid cell holds the weight of the rows with that pair, 0 for none. */
  lemma FilledCellsAreWeights(ps: seq<Cell>, w: seq<real>, filled: map<Cell, real>, num: nat)
    requires |w| == |ps|
    requires forall key :: Grid(key, num) ==> key in filled
    requires forall key :: key in CellWeights(ps, w) ==> key in filled && filled[key] == CellWeights(ps, w)[key]
    requires forall key :: key in filled && key !in CellWeights(ps, w) ==> filled[key] == 0.0
    ensures forall key :: Grid(key, num) ==> filled[key] == GroupSum(w, CellRows(ps, key))
  {
    forall key | Grid(key, num)
      ensures filled[key] == GroupSum(w, CellRows(ps, key))
    {
      if key !in ps {
        AbsentCellWeighsNothing(ps, w, key);
      }
    }
  }

  /** Quantile i has all four bracket cells. */
  predicate RowPresent(counts: map<Cell, real>, i: nat)
  {
    forall j :: 0 <= j < NumDebtBrackets ==> (Some(i), Some(j)) in counts
  }

  /** Quantile i's bracket cells, in bracket order. */
  function BracketRow(counts: map<Cell, real>, i: nat): (row: seq<real>)
    requires RowPresent(counts, i)
    ensures |row| == NumDebtBrackets
    ensures forall j :: 0 <= j < NumDebtBrackets ==> row[j] == counts[(Some(i), Some(j))]
  {
    seq(NumDebtBrackets, j requires 0 <= j < NumDebtBrackets => counts[(Some(i), Some(j))])
  }

  /** norm: the weight of quantile i over the four brackets. */
  function Norm(counts: map<Cell, real>, i: nat): (norm: real)
    requires RowPresent(counts, i)
    ensures (forall j :: 0 <= j < NumDebtBrackets ==> counts[(Some(i), Some(j))] >= 0.0) ==>
      forall j :: 0 <= j < NumDebtBrackets ==> 0.0 <= counts[(Some(i), Some(j))] <= norm
  {
    var row := BracketRow(counts, i);
    assert (forall j :: 0 <= j < NumDebtBrackets ==> counts[(Some(i), Some(j))] >= 0.0) ==>
      forall j :: 0 <= j < NumDebtBrackets ==> row[j] <= Sum(row) by {
      if forall j :: 0 <= j < NumDebtBrackets ==> counts[(Some(i), Some(j))] >= 0.0 {
        forall j | 0 <= j < NumDebtBrackets
          ensures row[j] <= Sum(row)
        {
          EntryAtMostSum(row, j);
        }
      }
    }
    Sum(row)
  }

  /** count / norm for each bracket of quantile i; NaN (None) when the quantile weighs nothing. */
  function FractionRow(counts: map<Cell, real>, i: nat): (fr: Option<seq<real>>)
    requires RowPresent(counts, i)
    ensures fr.Some? <==> Norm(counts, i) != 0.0
    ensures fr.Some? ==> |fr.value| == NumDebtBrackets
  {
    var norm := Norm(counts, i);
    if norm == 0.0 then None
    else Some(seq(NumDebtBrackets, j requires 0 <= j < NumDebtBrackets => counts[(Some(i), Some(j))] / norm))
  }

  /** The four fractions of a quantile add up to 1. */
  lemma FractionsSumToOne(counts: map<Cell, real>, i: nat)
    requires RowPresent(counts, i) && Norm(counts, i) != 0.0
    ensures Sum(FractionRow(counts, i).value) == 1.0
  {
    var row, fr, norm := BracketRow(counts, i), FractionRow(counts, i).value, Norm(counts, i);
    forall j | 0 <= j < NumDebtBrackets
      ensures fr[j] == (1.0 / norm) * row[j]
    {
    }
    SumScale(row, fr, 1.0 / norm);
  }

  /** With non-negative weights each fraction lies in [0, 1]. */
  lemma FractionsBounded(counts: map<Cell, real>, i: nat)
    requires RowPresent(counts, i) && Norm(counts, i) != 0.0
    requires forall j :: 0 <= j < NumDebtBrackets ==> counts[(Some(i), Some(j))] >= 0.0
    ensures forall j :: 0 <= j < NumDebtBrackets ==> 0.0 <= FractionRow(counts, i).value[j] <= 1.0
  {
    var row := BracketRow(counts, i);
    SumNonNegative(row);
    forall j | 0 <= j < NumDebtBrackets
      ensures 0.0 <= FractionRow(counts, i).value[j] <= 1.0
    {
      EntryAtMostSum(row, j);
      RatioAtMostOne(row[j], Norm(counts, i));
    }
  }

  lemma PercentOfRatio(a: real, b: real)
    requires b != 0.0
    ensures 100.0 * a / b == 100.0 * (a / b)
  {
  }

  lemma RatioAtMostOne(a: real, b: real)
    requires 0.0 <= a <= b && b != 0.0
    ensures 0.0 <= a / b <= 1.0
  {
    assert (a / b) * b == a;
  }

  /**
   * The quantile's norm is the weight of its rows that have a debt
   * bracket: the four bracket cells split them.
   */
  lemma NormIsQuantileWeight(ps: seq<Cell>, w: seq<real>, counts: map<Cell, real>, i: nat)
    requires |w| == |ps| && RowPresent(counts, i)
    requires forall j :: 0 <= j < NumDebtBrackets ==> counts[(Some(i), Some(j))] == GroupSum(w, CellRows(ps, (Some(i), Some(j))))
    ensures Norm(counts, i) == GroupSum(w, seq(|ps|, r requires 0 <= r < |ps| =>
      ps[r].0 == Some(i) && ps[r].1.Some? && ps[r].1.value < NumDebtBrackets))
  {
    var lab := seq(|ps|, r requires 0 <= r < |ps| => if ps[r].0 == Some(i) then ps[r].1 else None);
    forall j | 0 <= j < NumDebtBrackets
      ensures CellRows(ps, (Some(i), Some(j))) == InBand(lab, j)
    {
    }
    assert BracketRow(counts, i) == GroupSums(w, lab, NumDebtBrackets);
    GroupSumsPartition(w, lab, NumDebtBrackets);
    assert Labelled(lab, NumDebtBrackets) == seq(|ps|, r requires 0 <= r < |ps| =>
      ps[r].0 == Some(i) && ps[r].1.Some? && ps[r].1.value < NumDebtBrackets);
  }

  /**
   * The fraction loop: for each quantile i < num, norm adds its four
   * cells, then each cell is divided by norm. Looking up a cell no row
   * produced raises a KeyError.
   */
  method BracketFractions(counts: map<Cell, real>, num: nat) returns (r: Result<seq<Option<seq<real>>>>)
    ensures r.Success? <==> forall i :: 0 <= i < num ==> RowPresent(counts, i)
    ensures r.Failure? ==> r.error == MissingKey
    ensures r.Success? ==> |r.value| == num
    ensures r.Success? ==> forall i :: 0 <= i < num ==> RowPresent(counts, i) && r.value[i] == FractionRow(counts, i)
  {
    var rows: seq<Option<seq<real>>> := [];
    for i := 0 to num
      invariant |rows| == i
      invariant forall i' :: 0 <= i' < i ==> RowPresent(counts, i') && rows[i'] == FractionRow(counts, i')
    {
      var norm := 0.0;
      for j := 0 to NumDebtBrackets
        invariant forall k :: 0 <= k < j ==> (Some(i), Some(k)) in counts
        invariant norm == Sum(seq(j, k requires 0 <= k < j => counts[(Some(i), Some(k))]))
      {
        if (Some(i), Some(j)) !in counts {
          assert !RowPresent(counts, i);
          return Failure(MissingKey);
        }
        var prefix := seq(j + 1, k requires 0 <= k < j + 1 => counts[(Some(i), Some(k))]);
        assert prefix[..j] == seq(j, k requires 0 <= k < j => counts[(Some(i), Some(k))]);
        norm := norm + counts[(Some(i), Some(j))];
      }
      assert seq(NumDebtBrackets, k requires 0 <= k < NumDebtBrackets => counts[(Some(i), Some(k))]) == BracketRow(counts, i);
      var fr := if norm == 0.0 then None
        else Some(seq(NumDebtBrackets, j requires 0 <= j < NumDebtBrackets => counts[(Some(i), Some(j))] / norm));
      rows := rows + [fr];
    }
    return Success(rows);
  }

  /** Once the grid is filled the fraction loop cannot miss a cell. */
  lemma FilledRowsPresent(filled: map<Cell, real>, num: nat)
    requires forall key :: Grid(key, num) ==> key in filled
    ensures forall i :: 0 <= i < num ==> RowPresent(filled, i)
  {
    forall i, j | 0 <= i < num && 0 <= j < NumDebtBrackets
      ensures (Some(i), Some(j)) in filled
    {
      assert Grid((Some(i), Some(j)), num);
    }
  }
}
