# Student debt in the Survey of Consumer Finances: a verified model of the statistical core

The scripts this project models read the 2019 Survey of Consumer Finances
(SCF) summary file and the loan detail for each household. They build one
shared table of households. Then they describe how student debt is
distributed across age groups and across the income, net-worth and
projected lifetime-wealth distributions. The model covers the deterministic
arithmetic under the figures:

- the weighted quantile `quantile`: sort, cumulative weights, a step CDF
  ending at 1, and clamped linear interpolation;
- quantile cutpoints and right-closed binning (`pd.cut`), over the whole
  table and within each age band;
- the per-household columns: loan classification by whom-code, deflation by
  1.1592, per-capita halving for married households, age bands, and the
  capped loan cancellations;
- the lifetime-wealth projector: per-band growth rates from weighted band
  medians, a year-by-year income recurrence, discounting, and the sum plus
  net worth; then the re-binning of its result;
- the non-plotting aggregation fragments of the figure scripts: the
  percentile tables, back-filled short rows, age shares, aggregate debt per
  band, and the quintile by debt-bracket cross-tab with its key fill and
  fractions.

Modules, one per file:

| module | file | what it holds |
|---|---|---|
| `Wrappers` | wrappers.dfy | `Option`, `Result`, and the error kinds |
| `Columns` | columns.dfy | sums, masks (`Select`), minimum and maximum, ordering predicates |
| `WeightedQuantile` | quantile.dfy | argsort, CDF, `np.interp`, `Quantile`, `Cutpoints` |
| `Binning` | binning.dfy | `pd.cut` with right-closed bins, age bands, debt brackets |
| `Household` | household.dfy | one survey record and the values derived from it |
| `QuantileBins` | quantile_bins.dfy | quantile categories, global and per age band |
| `CategoryKeys` | category_keys.dfy | the names of the category columns the loops write |
| `LifetimeProjection` | lifetime_wealth.dfy | growth rates, income projection, discounted sum |
| `SurveyData` | survey_data.dfy | class `Frame`: the shared table, changed in place |
| `Aggregates` | aggregates.dfy | figure fragments: tables, shares, cross-tab |

The table `data` that code/scf_data_clean.py grows column by column is the
class `SurveyData.Frame`. Its methods are the top-level loops, and each
method states the new columns in terms of functions on the records. The
pure parts (`quantile`, the per-record formulas, the projector's
recurrence) are functions. Lemmas about those functions carry the
properties. The loops that fill arrays or dictionaries in the figure
scripts are methods over `array`, `array2` and `map`.

Where the code and a prose description of it differ, the model follows the
code:

- `np.interp` clamps probes outside [0, 1] to the end values. Nothing
  raises, so the model has no out-of-range probe error
  (`WeightedQuantile.QuantileAtZero`, `WeightedQuantile.QuantileAtOne`).
- Equal weights make the CDF k/n at the k-th smallest value, so the
  values 10, 20, 30, 40 at probe 0.5 give 20, not the 25 of textbook
  linear-interpolation percentiles (`WeightedQuantile.QuantileMedianExample`).
- With `end_date = age + 1`, the sum of the discounted columns has two
  income terms, this year's and next year's, not one
  (`LifetimeProjection.LifetimeWealthLastYear`).
- `g` is added to every band's rate, not just the last one. Every band is
  divided by 5 years, the open-ended first and last bands included. The
  band a year's growth comes from is the one of `age + t`
  (`LifetimeProjection.GrowthRatesShift`, `LifetimeProjection.Factor`).
- `lifetime_wealth_qctiles` overwrites its `num` argument with the loop
  `for num in [10, 5]` (`SurveyData.Frame.LifetimeWealthQctiles`).
- The back-fill writes `gb[0]` into the labels up to and including
  `num + 1 - len(gb)`. That last label also receives `gb[0]` from the first
  assignment, so the overlap changes nothing (`Aggregates.BackFilled`).

## Model

| member | source | states |
|---|---|---|
| WeightedQuantile.ArgSort | code/scf_data_clean.py:120 | the index list is a permutation of the row numbers that orders the values non-decreasingly |
| WeightedQuantile.ArgSortPrefixPermutes | code/scf_data_clean.py:120 | the first k rows, inserted one at a time, give a permutation of 0 .. k-1 |
| WeightedQuantile.ArgSortPrefixSorted | code/scf_data_clean.py:120 | inserting rows one at a time keeps the index list sorted by value |
| WeightedQuantile.InsertIndexSorted | code/scf_data_clean.py:120 | inserting one row into a sorted index list keeps it sorted |
| WeightedQuantile.ArgSortOfSorted | code/scf_data_clean.py:120 | an already sorted column sorts to the identity order (the tie rule keeps the original order) |
| WeightedQuantile.InsertIndex | code/scf_data_clean.py:120 | inserting row k into an index list gives a list one longer, of row numbers only, holding the old rows and k |
| WeightedQuantile.CumSum | code/scf_data_clean.py:123 | Sn has one running total per sorted weight; the first is the first weight and the last is the total weight |
| WeightedQuantile.CumSumStep | code/scf_data_clean.py:123 | each running total is the one before it plus its own weight |
| WeightedQuantile.CumSumIncreasing | code/scf_data_clean.py:123 | with positive weights the running totals strictly increase |
| WeightedQuantile.Normalise | code/scf_data_clean.py:125 | Pn has one entry per running total and ends at exactly 1 |
| WeightedQuantile.NormaliseIncreasing | code/scf_data_clean.py:125 | dividing strictly increasing totals by a positive last total keeps them strictly increasing |
| WeightedQuantile.CdfShape | code/scf_data_clean.py:123-125 | with positive weights, Sn/Sn[-1] is strictly increasing, starts above 0 and ends at exactly 1 |
| WeightedQuantile.Cdf | code/scf_data_clean.py:121-125 | the CDF of the sorted weights has one knot per row, is strictly increasing, starts above 0 and ends at 1 |
| WeightedQuantile.SegmentBetween | code/scf_data_clean.py:126 | linear interpolation between two knots stays between their values |
| WeightedQuantile.SegmentMonotone | code/scf_data_clean.py:126 | linear interpolation on one segment is non-decreasing in the probe |
| WeightedQuantile.InterpBounds | code/scf_data_clean.py:126 | np.interp over non-decreasing fp returns a value between fp[0] and fp[-1], for every probe |
| WeightedQuantile.InterpAboveLast | code/scf_data_clean.py:126 | np.interp clamps probes at or beyond the last knot to fp[-1] |
| WeightedQuantile.InterpAtKnot | code/scf_data_clean.py:126 | np.interp at a knot returns that knot's value |
| WeightedQuantile.InterpMonotone | code/scf_data_clean.py:126 | np.interp over non-decreasing fp is non-decreasing in the probe |
| WeightedQuantile.Interp | code/scf_data_clean.py:126 | np.interp over a constant fp returns that constant for every probe |
| WeightedQuantile.QuantileBy | code/scf_data_clean.py:120-126 | a column whose values are all equal has that value as its quantile, whatever the weights, tie order and probe |
| WeightedQuantile.SortedCoversRows | code/scf_data_clean.py:120 | every row appears in the sorting permutation |
| WeightedQuantile.SortedEnds | code/scf_data_clean.py:120-121 | the sorted values are non-decreasing and run from the column minimum to the column maximum |
| WeightedQuantile.QuantileWithinRange | code/scf_data_clean.py:120-126 | for any sorting permutation and any probe, the quantile lies between the smallest and the largest value |
| WeightedQuantile.QuantileBetweenEnds | code/scf_data_clean.py:120-126 | the quantile lies between the first and the last value in sorted order |
| WeightedQuantile.QuantileAtZero | code/scf_data_clean.py:125-126 | probe 0 (and any probe below it) returns the minimum |
| WeightedQuantile.QuantileAtOne | code/scf_data_clean.py:125-126 | probe 1 (and any probe above it) returns the maximum, because Pn ends at exactly 1 |
| WeightedQuantile.QuantileMonotone | code/scf_data_clean.py:120-126 | the quantile is non-decreasing in the probe |
| WeightedQuantile.EqualWeightsCdf | code/scf_data_clean.py:123-125 | with n equal weights the CDF at the j-th sorted row is (j+1)/n |
| WeightedQuantile.EqualWeightsRatio | code/scf_data_clean.py:123-125 | with n equal weights the cumulative sum is j+1 times the weight, and the ratio to the total is (j+1)/n |
| WeightedQuantile.CdfAt | code/scf_data_clean.py:123-125 | each CDF entry is the cumulative sorted weight over the positive total weight |
| WeightedQuantile.EqualWeightsKthSmallest | code/scf_data_clean.py:123-126 | with n equal weights, probe k/n returns the k-th smallest value |
| WeightedQuantile.Quantile | code/scf_data_clean.py:115-126 | fails exactly on an empty column, where Sn[-1] does not exist; otherwise lies between the minimum and the maximum |
| WeightedQuantile.SortedEqualWeights | code/scf_data_clean.py:115-126 | on a sorted column with equal weights, probe k/n returns the k-th entry |
| WeightedQuantile.QuantileMedianExample | code/scf_data_clean.py:115-126 | values 10, 20, 30, 40 with unit weights give 20 at probe 0.5 |
| WeightedQuantile.TiedOrdersSort | code/scf_data_clean.py:120 | two different index lists both sort the column 1, 2, 2: argsort's answer is not unique on ties |
| WeightedQuantile.TiedOrdersCdf | code/scf_data_clean.py:121-125 | the two tie orders of weights 1, 1, 2 give different CDF knots |
| WeightedQuantile.QuantileTieOrder | code/scf_data_clean.py:120-126 | with tied values of different weights, the quantile at 0.375 is 1.5 under one sorting permutation and 1.25 under the other |
| WeightedQuantile.QuantileTieStable | code/scf_data_clean.py:115-126 | the model's stable tie rule returns 1.5 in that example |
| WeightedQuantile.CutsNonDecreasing | code/scf_data_clean.py:177 | the quantiles at probes j/num are non-decreasing in j |
| WeightedQuantile.CutsBy | code/scf_data_clean.py:177 | the num+1 cutpoints are non-decreasing and run from the column minimum to the column maximum |
| WeightedQuantile.Cutpoints | code/scf_data_clean.py:177 | fails exactly on an empty column; otherwise num+1 non-decreasing cutpoints from the minimum to the maximum |
| Binning.SearchSortedLeft | code/scf_data_clean.py:167 | the insertion point has every edge before it strictly below the value, and the edge at it at or above the value |
| Binning.BinOf | code/scf_data_clean.py:178 | a label, when a value gets one, is below the number of bins, one less than the number of edges |
| Binning.AcceptedEdges | code/scf_data_clean.py:178-187 | pd.cut accepts edges exactly when they never decrease and, unless there are only two, no edge repeats its neighbour |
| Binning.NoRepeatIsIncrease | code/scf_data_clean.py:178-187 | non-decreasing edges strictly increase exactly when no edge repeats its neighbour |
| Binning.Cut | code/scf_data_clean.py:178 | pd.cut fails exactly when the edges decrease (NotMonotonic) or repeat (DuplicateEdges); otherwise each row gets the label of its own value |
| Binning.SearchSortedBetween | code/scf_data_clean.py:178 | the insertion point is k+1 exactly when the value lies in (e[k], e[k+1]] |
| Binning.BinOfClosed | code/scf_data_clean.py:178-180 | a value gets label k exactly when it lies in (e[k], e[k+1]], or when it equals e[0], k = 0 and include_lowest is set |
| Binning.BinOfClosedMissing | code/scf_data_clean.py:178-180 | a value gets no label exactly when it lies below e[0] or above the last edge, or equals e[0] without include_lowest |
| Binning.BinOfOpenTop | code/scf_data_clean.py:164-167 | with a +inf top edge, the last bin takes every value above the last finite edge |
| Binning.AgeBand | code/scf_data_clean.py:163-167 | an age band, when there is one, is one of the nine labels |
| Binning.AgeEdgesIncrease | code/scf_data_clean.py:164 | the finite age boundaries strictly increase and number nine |
| Binning.AgeBandBoundaries | code/scf_data_clean.py:164-167 | an age gets band k exactly when it lies in (age_values[k], age_values[k+1]], the last band being everything above 60 |
| Binning.AgeBandDefined | code/scf_data_clean.py:167 | an age has a band exactly when it is at least 1 |
| Binning.AgeBandExamples | code/scf_data_clean.py:165-167 | ages 25, 26, 35, 60 and 61 fall in bands 0, 1, 2, 7 and 8 |
| Binning.FiveYearBand | code/scf_data_clean.py:163 | the arithmetic band of a positive age is one of the nine labels |
| Binning.FiveYearBandIsAgeBand | code/scf_data_clean.py:163-167 | the arithmetic five-year band equals the label pd.cut gives the age |
| Binning.DebtBracket | code/scf_data_clean.py:102-103 | a debt bracket, when there is one, is one of the four labels |
| Binning.DebtBracketRanges | code/scf_data_clean.py:102-103 | the brackets are [0, 1], (1, 15000], (15000, 40000] and above 40000, so debts of 0 and 1 are both "No debt"; negative debts get none |
| Household.CodeMatchesOneKind | code/scf_data_clean.py:139-141 | no whom-code matches two of self, spouse and parent, and a code matches one of them exactly when it is 1, 2, 3 or 4 |
| Household.LoanPart | code/scf_data_clean.py:139-141 | a loan counts in full towards its holder's kind and not at all towards the others |
| Household.KindTotal | code/scf_data_clean.py:142-144 | a kind that none of the six whom-codes matches has total 0 |
| Household.AllLoans | code/scf_data_clean.py:145 | with non-negative balances, each of self_loans, spouse_loans and parent_loans lies between 0 and all_loans |
| Household.StudentBalance | code/scf_data_clean.py:138-145 | non-negative balances give a non-negative student-loan balance |
| Household.KindPrefixStep | code/scf_data_clean.py:142-144 | adding one loan to the running kind total adds its part |
| Household.AllLoansIsStudentBalance | code/scf_data_clean.py:142-145 | all_loans equals the sum of the balances whose code is 1, 2, 3 or 4 |
| Household.KindTotalNonNegative | code/scf_data_clean.py:142-144 | non-negative balances give non-negative kind totals |
| Household.Deflated | code/scf_data_clean.py:152-155 | income, net worth, assets and wage income are divided by 1.1592; age, marital status, weight and loans are unchanged |
| Household.DeflateKeepsSign | code/scf_data_clean.py:152-155 | deflation keeps a value's sign |
| Household.PerCapita | code/scf_data_clean.py:157 | the per-capita value is half the value for married == 1 and the value itself otherwise |
| Household.PerCapitaMonotone | code/scf_data_clean.py:157 | the per-capita transform is monotone |
| Household.PerCapitaAdd | code/scf_data_clean.py:157 | the per-capita transform is additive |
| Household.Min | code/scf_data_clean.py:197-198 | np.minimum returns the smaller of its arguments |
| Household.SelfCancel | code/scf_data_clean.py:197 | self_cancel is at most the cap and at most self plus parent loans, and equals one of the two |
| Household.SpouseCancel | code/scf_data_clean.py:198 | spouse_cancel is at most the cap and at most the spouse loans, and equals one of the two |
| Household.PercapCancel | code/scf_data_clean.py:199 | percap_cancel is at most the per-capita share of twice the cap |
| Household.CancelBounds | code/scf_data_clean.py:196-199 | with a non-negative cap and balances, percap_cancel lies between 0 and percap_all_loans |
| Household.CancelMonotone | code/scf_data_clean.py:196-199 | a larger cap forgives at least as much |
| Household.CancelFull | code/scf_data_clean.py:196-199 | when self+parent and spouse loans are both within the cap, everything is forgiven |
| QuantileBins.InBand | code/scf_data_clean.py:183 | the mask keeps exactly the rows of the given age band |
| QuantileBins.SelectWeighted | code/scf_data_clean.py:183-184 | a band's rows with their weights are again a weighted column |
| QuantileBins.GlobalCats | code/scf_data_clean.py:177-180 | the whole-table categories have one entry per row, and an empty column is an EmptyInput error |
| QuantileBins.BandCutpoints | code/scf_data_clean.py:183-186 | a band's cutpoints exist exactly when the band has rows, and run non-decreasingly from that band's minimum to its maximum |
| QuantileBins.LabelBand | code/scf_data_clean.py:185-187 | rows of the band get the label of their value, rows outside it get none |
| QuantileBins.BandCats | code/scf_data_clean.py:182-187 | the band's categories have one entry per row, and rows outside the band get none |
| QuantileBins.BinWithinCutpoints | code/scf_data_clean.py:178-180 | with include_lowest, a value gets a label exactly when it lies in [c_0, c_num], and the label is below num |
| QuantileBins.GlobalCatsCoverRows | code/scf_data_clean.py:177-180 | when the global cut succeeds, every row gets a label below num |
| QuantileBins.GlobalCatsFails | code/scf_data_clean.py:177-178 | the global cut fails exactly when the column is empty or its cutpoints repeat |
| QuantileBins.BandCatsUseBandRowsOnly | code/scf_data_clean.py:182-187 | two columns that agree on a band's rows get the same band categories: other rows play no part |
| QuantileBins.BandCatsCoverBand | code/scf_data_clean.py:184-185 | with include_lowest, every row of the band gets a label below num |
| QuantileBins.BandMinimumUnassigned | code/scf_data_clean.py:186-187 | without include_lowest, a row at the band minimum is left without a label |
| QuantileBins.SelectedRow | code/scf_data_clean.py:183 | every value of a band's rows comes from a row of that band |
| QuantileBins.Categories | code/scf_data_clean.py:174-187 | the categories, global or per band, have one entry per row |
| CategoryKeys.CutSpec | code/scf_data_clean.py:174-187 | the cut a column name stands for has one entry per row |
| CategoryKeys.BandPair | code/scf_data_clean.py:178-187 | one step of the loop names the raw and the per-capita column of one count and band |
| CategoryKeys.BandKeysCover | code/scf_data_clean.py:182-187 | the band loop names exactly the columns of bands 0 .. n-1 |
| CategoryKeys.GroupKeys | code/scf_data_clean.py:176-187 | one count names the global columns and those of all nine bands, and nothing else |
| CategoryKeys.DistinctAppend | code/scf_data_clean.py:174-187 | two duplicate-free name lists with no common name join to a duplicate-free list |
| CategoryKeys.BandKeysDistinct | code/scf_data_clean.py:182-187 | the band loop never names a column twice |
| CategoryKeys.GroupKeysDistinct | code/scf_data_clean.py:176-187 | one count never names a column twice |
| CategoryKeys.NumKeysDistinct | code/scf_lifetime_wealth.py:52-61 | the lifetime-wealth loop never names a column twice |
| CategoryKeys.LoopKeysDistinct | code/scf_data_clean.py:174-187 | the quantile loops never name a column twice, so no column is overwritten |
| CategoryKeys.LoopKeys | code/scf_data_clean.py:174-187 | the quantile loops name exactly the columns of each listed variable and count |
| CategoryKeys.NumKeys | code/scf_lifetime_wealth.py:52-61 | the lifetime-wealth loop names exactly the columns of each listed count, globally and per band |
| CategoryKeys.CutList | code/scf_data_clean.py:174-187 | there is one cut per column name |
| CategoryKeys.CutListAt | code/scf_data_clean.py:174-187 | the i-th cut is the cut that the i-th column name stands for |
| LifetimeProjection.BandRowsNonEmpty | code/scf_lifetime_wealth.py:31 | a band's rows are non-empty exactly when some row carries that band |
| LifetimeProjection.BandMedian | code/scf_lifetime_wealth.py:31 | a band's median exists exactly when the band has rows, and lies within that band's incomes |
| LifetimeProjection.BandMedians | code/scf_lifetime_wealth.py:31 | the nine medians exist exactly when every band has rows |
| LifetimeProjection.BandMediansAt | code/scf_lifetime_wealth.py:31 | entry k is band k's weighted median and lies within that band's incomes |
| LifetimeProjection.GrowthRates | code/scf_lifetime_wealth.py:33 | there is one rate per band, and the last band's rate is g |
| LifetimeProjection.GrowthRatesShift | code/scf_lifetime_wealth.py:33 | g is added to every band's rate, not just the last |
| LifetimeProjection.GrowthRateSign | code/scf_lifetime_wealth.py:33 | a band whose successor has the higher median grows faster than g, and a lower median slower |
| LifetimeProjection.Factor | code/scf_lifetime_wealth.py:35-39 | the growth factor of a year is one of the nine band factors |
| LifetimeProjection.FactorOfAgeBand | code/scf_lifetime_wealth.py:39 | the factor of age+t is that of the band pd.cut gives age+t, and every positive age has a band |
| LifetimeProjection.ProjectedStaysZero | code/scf_lifetime_wealth.py:37-42 | once a projected income is zero, every later year is zero |
| LifetimeProjection.Projected | code/scf_lifetime_wealth.py:41-42 | income{t} is zero in every year t >= 1 with age + t past end_date |
| LifetimeProjection.ProjectedScale | code/scf_lifetime_wealth.py:41-42 | the projection is linear in the starting income |
| LifetimeProjection.PercapProjected | code/scf_lifetime_wealth.py:27-42 | percap_income{t} is the per-capita share of income{t} in every year |
| LifetimeProjection.ProjectedNonNegative | code/scf_lifetime_wealth.py:41-42 | positive growth factors keep a non-negative income non-negative |
| LifetimeProjection.MulMonotone | code/scf_lifetime_wealth.py:43 | multiplying by a non-negative factor keeps order |
| LifetimeProjection.DiscountMonotone | code/scf_lifetime_wealth.py:43 | a higher rate gives a smaller discount factor |
| LifetimeProjection.Discount | code/scf_lifetime_wealth.py:43 | with a positive exp the discount factor is positive; with rf = 0 and exp(0) = 1 it is 1 |
| LifetimeProjection.DiscountedSum | code/scf_lifetime_wealth.py:43-44 | a non-negative income with positive growth factors and a positive exp gives a non-negative discounted sum |
| LifetimeProjection.LifetimeWealthOf | code/scf_lifetime_wealth.py:37-45 | with end_date <= 0 the sum over range(end_date) is empty and lifetime wealth is percap_networth; with end_date = 1 it is percap_income plus percap_networth |
| LifetimeProjection.DiscountedSumSettles | code/scf_lifetime_wealth.py:37-44 | the discounted sum stops changing once the years pass end_date |
| LifetimeProjection.LifetimeWealthAgedOut | code/scf_lifetime_wealth.py:41-45 | a household at or past end_date has lifetime wealth percap_income plus percap_networth |
| LifetimeProjection.LifetimeWealthLastYear | code/scf_lifetime_wealth.py:37-45 | with end_date one past the age, lifetime wealth counts this year's and next year's income |
| LifetimeProjection.DiscountedSumMonotone | code/scf_lifetime_wealth.py:43-44 | smaller discount factors give a smaller discounted sum of non-negative incomes |
| LifetimeProjection.StepMonotone | code/scf_lifetime_wealth.py:43-44 | one more discounted term keeps the order of two partial sums |
| LifetimeProjection.LifetimeWealthMonotoneInRate | code/scf_lifetime_wealth.py:43-45 | lifetime wealth is non-increasing in rf when incomes are non-negative |
| LifetimeProjection.GrowthFactors | code/scf_lifetime_wealth.py:33-35 | each band's factor is exp of its rate, and the last band's is exp(g) |
| LifetimeProjection.PathLength | code/scf_lifetime_wealth.py:37 | the table holds year 0 and at least the end_date years the sum reads |
| LifetimeProjection.RowSumIsDiscountedSum | code/scf_lifetime_wealth.py:44 | summing a household's discounted columns gives its discounted income sum |
| LifetimeProjection.LifetimeWealthColumn | code/scf_lifetime_wealth.py:44-45 | one value per household; those at or past end_date get percap_income plus percap_networth |
| LifetimeProjection.ProjectPaths | code/scf_lifetime_wealth.py:37-43 | the loop writes year 0 as given and each later year's income{t}, percap_income{t} and percap_income{t}disc by the recurrence |
| LifetimeProjection.ProjectedPathExtend | code/scf_lifetime_wealth.py:41 | appending the next year's projection keeps the income columns in line with the recurrence |
| LifetimeProjection.PathsExtend | code/scf_lifetime_wealth.py:41-43 | one loop step keeps all three column families in line with the recurrence |
| LifetimeProjection.PathsSum | code/scf_lifetime_wealth.py:44 | a household's sum of discounted columns equals its discounted income sum |
| SurveyData.WeightsOf | code/scf_data_clean.py:177 | the wgt column has one positive weight per row |
| SurveyData.PercapColumn | code/scf_data_clean.py:156-157 | each percap_ column is half the raw column for married households and equal to it otherwise |
| SurveyData.IncomeMedians | code/scf_lifetime_wealth.py:31 | I_med exists exactly when every age band has rows, and then has one median per band |
| SurveyData.RawColumns | code/scf_data_clean.py:177-178 | the quantile loop reads exactly the listed variables, each as its column of the table |
| SurveyData.LifetimeWealthCuts | code/scf_lifetime_wealth.py:52-61 | there is one cut for each column name of the lifetime-wealth loop |
| SurveyData.TableLifetimeWealth | code/scf_lifetime_wealth.py:25-45 | fails with EmptyInput exactly when an age band has no rows; otherwise one value per row, and households at or past end_date get percap_income plus percap_networth |
| SurveyData.Frame.constructor | code/scf_data_clean.py:96 | the table starts as the joined records with no derived columns |
| SurveyData.Frame.AddLoanColumns | code/scf_data_clean.py:138-145 | self_loans, spouse_loans and parent_loans are the per-kind totals, and all_loans equals the sum of balances with code 1 to 4 |
| SurveyData.Frame.Deflate | code/scf_data_clean.py:152-155 | every record is replaced by its deflated form, and well-formed records stay well-formed |
| SurveyData.Frame.AddPerCapita | code/scf_data_clean.py:156-157 | the five percap_ columns are added as per-capita transforms of the raw columns, and the other entries are unchanged |
| SurveyData.Frame.AddAgeCat | code/scf_data_clean.py:163-167 | age_cat holds each row's band, and a row has a band exactly when its age is at least 1 |
| SurveyData.Frame.StoreCategories | code/scf_data_clean.py:178-187 | columns are written in order until the first refused cut; the error is that cut's; no other column changes |
| SurveyData.Frame.AddQuantileCategories | code/scf_data_clean.py:174-187 | every decile and quintile column of income and net worth, raw and per capita, global and per band, holds its cut of the table as it was on entry, or the loop stops at the first refused cut |
| SurveyData.Frame.CancelColumns | code/scf_data_clean.py:196-199 | with a non-negative cap and balances, each row's percap_cancel lies between 0 and its per-capita loans |
| SurveyData.Frame.AddCancellation | code/scf_data_clean.py:196-199 | each cap in cancel_list gets its three cancellation columns; no other cap's columns change |
| SurveyData.Frame.Prepare | code/scf_data_clean.py:138-167 | after the loan, deflation, per-capita and age-band steps in order: loan totals are those of the records as read (never deflated), rows are deflated, percap_ columns are taken of the deflated values and of the undeflated all_loans, and age_cat holds each row's band |
| SurveyData.Frame.Categorise | code/scf_data_clean.py:174-199 | the quantile loop stores its cuts in order until the first refused one; only when none is refused does the cancellation loop write its columns; the prepared columns are unchanged |
| SurveyData.Frame.Clean | code/scf_data_clean.py:138-199 | the script from the joined table on, in its order: the prepared columns as for Prepare, the quantile columns cut from those prepared columns, and the cancellation columns when no cut was refused |
| SurveyData.Frame.LifetimeWealth | code/scf_lifetime_wealth.py:25-45 | returns the table's lifetime wealth or the missing-band error, and leaves every projected, per-capita and discounted year column plus percap_LT_income in the table |
| SurveyData.Frame.AddLifetimeWealthCategories | code/scf_lifetime_wealth.py:51-61 | percap_LT_wealth is stored, and each listed count gets its global and per-band cuts, or the loop stops at the first refused cut |
| SurveyData.Frame.LifetimeWealthQctiles | code/scf_lifetime_wealth.py:50-62 | projection, then categories for every listed count whatever num is passed; a missing band leaves the categories untouched |
| Aggregates.GroupSumIsSelectedSum | code/scf_figures.py:97 | a group's sum is the sum over exactly the group's rows |
| Aggregates.Masked | code/scf_figures.py:97 | the masked column has one entry per row, and a mask keeping every row leaves the column as it is |
| Aggregates.GroupSum | code/scf_figures.py:97 | a non-negative column has a non-negative group sum |
| Aggregates.EntryAtMostSum | code/scf_figures.py:98 | in a non-negative column each entry is at most the total |
| Aggregates.GroupSumPositive | code/scf_figures.py:97 | a group with a positive-weight row has a positive sum |
| Aggregates.GroupSums | code/scf_figures.py:97 | there is one sum per band, each over exactly that band's rows |
| Aggregates.Labelled | code/scf_figures.py:97 | the mask keeps exactly the rows with one of the first n labels |
| Aggregates.GroupSumsPartition | code/scf_figures.py:97-98 | the band sums add up to the sum over all labelled rows |
| Aggregates.GroupSumsNonNegative | code/scf_figures.py:97 | non-negative columns give non-negative band sums |
| Aggregates.Borrowers | code/scf_data_clean.py:129 | the borrower slice keeps exactly the rows with positive percap_all_loans |
| Aggregates.SliceMask | code/scf_data_clean.py:128-130 | "Borrowers" keeps the borrower rows and "All" keeps every row |
| Aggregates.SelectNonEmpty | code/scf_figures.py:30 | a slice is non-empty exactly when the mask keeps some row |
| Aggregates.BorrowerCutpoints | code/scf_figures.py:30-31 | the borrower percentiles exist exactly when someone borrows, and run non-decreasingly from the borrowers' minimum to their maximum |
| Aggregates.BorrowerCutpointsUseBorrowersOnly | code/scf_figures.py:30-31 | two columns that agree on the borrowers give the same borrower percentiles |
| Aggregates.PercentileTable | code/scf_figures.py:29-32 | column 0 holds the borrower percentiles and column 1 those of every row, num+1 entries each; an empty borrower slice is an error |
| Aggregates.SetColumn | code/scf_figures.py:31-32 | one column of the table is replaced and every other cell is unchanged |
| Aggregates.PercentileColumnsOrdered | code/scf_figures.py:29-32 | the borrower percentiles start no lower and end no higher than those of every row |
| Aggregates.BackFilled | code/scf_figures.py:67-71 | the row has num entries; the last len(gb) equal gb in order and the earlier ones equal gb[0] |
| Aggregates.BackFilledFull | code/scf_figures.py:70-71 | a full gb is stored unchanged |
| Aggregates.BackFilledNonDecreasing | code/scf_figures.py:67-69 | a non-decreasing gb gives a non-decreasing row |
| Aggregates.PadRow | code/scf_lifetime_wealth.py:78-82 | fills a fresh row of num cells with the back-filled gb; an empty or overlong gb is an error |
| Aggregates.Shares | code/scf_figures.py:98 | the shares exist exactly when the total weight is non-zero, one per band |
| Aggregates.SharesSumTo100 | code/scf_figures.py:98 | the age shares add up to 100 |
| Aggregates.PercentagesSumTo100 | code/scf_figures.py:98 | percentages of a non-zero total add up to 100 |
| Aggregates.PercentsAreScaled | code/scf_figures.py:98 | each percentage is the common factor 100/total times its entry |
| Aggregates.SharesBounded | code/scf_figures.py:98 | each age share of non-negative weights lies in [0, 100] |
| Aggregates.ShareCell | code/scf_figures.py:98 | with non-negative weights, every share cell that exists lies in [0, 100] |
| Aggregates.PercentBounded | code/scf_figures.py:98 | a part of a total is between 0 and 100 percent of it |
| Aggregates.BandWeights | code/scf_figures.py:96-97 | one weight sum per age band |
| Aggregates.AgeShareTable | code/scf_figures.py:94-98 | a fresh 9 by 2 table whose cells are the borrower and all-household age shares |
| Aggregates.AgeSharesArePercentages | code/scf_figures.py:94-98 | when the slice has a row with an age band, the total is positive, every share exists and lies in [0, 100], and the shares add up to 100 |
| Aggregates.DebtWeight | code/scf_figures.py:123 | one debt_wgt entry per row |
| Aggregates.AggregateDebt | code/scf_figures.py:124 | one aggregate debt per age band |
| Aggregates.AggregateDebtPartition | code/scf_figures.py:123-124 | the band aggregates add up to the weighted debt of all rows with a band, and are non-negative |
| Aggregates.AggregateDebtTotal | code/scf_figures.py:123-124 | when every row has a band, the band aggregates add up to the total weighted debt |
| Aggregates.PairLabels | code/scf_figures.py:189-192 | the pairs exist exactly when the income quintile cut succeeds, one per row, each with the row's debt bracket |
| Aggregates.PairLabelsCover | code/scf_figures.py:189-192 | every row gets an income quintile, and every non-negative debt gets a bracket |
| Aggregates.CellRows | code/scf_figures.py:195 | the mask keeps exactly the rows of one cell |
| Aggregates.CellWeights | code/scf_figures.py:195 | the weight counts have a key for exactly the cells that occur |
| Aggregates.AbsentCellWeighsNothing | code/scf_figures.py:195 | a cell no row falls in weighs nothing |
| Aggregates.FillMissingKeys | code/scf_lifetime_wealth.py:114-116 | after the fill every cell of range(num) by range(4) is present; existing counts are unchanged and only grid cells are added, with 0 |
| Aggregates.FilledCellsAreWeights | code/scf_lifetime_wealth.py:113-116 | after the fill, every grid cell holds the total weight of its rows |
| Aggregates.BracketRow | code/scf_figures.py:200 | one count per debt bracket of a quintile |
| Aggregates.Norm | code/scf_figures.py:200 | with non-negative counts, each bracket count of a quintile lies between 0 and its norm |
| Aggregates.FractionRow | code/scf_figures.py:199-205 | a quintile's fractions exist exactly when its norm is non-zero, one per bracket |
| Aggregates.FractionsSumToOne | code/scf_figures.py:199-205 | a quintile's four bracket fractions add up to 1 |
| Aggregates.FractionsBounded | code/scf_figures.py:199-205 | with non-negative counts each fraction lies in [0, 1] |
| Aggregates.PercentOfRatio | code/scf_figures.py:98 | 100*a/b is 100 times the ratio |
| Aggregates.RatioAtMostOne | code/scf_figures.py:98 | a part over its non-negative whole lies in [0, 1] |
| Aggregates.NormIsQuantileWeight | code/scf_figures.py:200 | a quintile's norm is the total weight of its rows that have a debt bracket |
| Aggregates.BracketFractions | code/scf_lifetime_wealth.py:120-126 | fails with MissingKey exactly when some quintile lacks a bracket count; otherwise gives each quintile's fractions |
| Aggregates.FilledRowsPresent | code/scf_lifetime_wealth.py:114-121 | after the fill every quintile has all its bracket counts, so the fractions never fail |

## Left out

- Downloading, unzipping and reading the Stata files, creating folders and printing timings are I/O. The model starts from the joined table as a sequence of records.
- The join of the summary file with the loan detail is a pandas index operation. Its result is the constructor's argument.
- All plotting, figure files, `colorFader` and the LaTeX export are presentation only.
- The parameter sweep over `g` and `rf` and the main driver only call the modelled functions.
- The age-restricted block of the figure script never runs, because `num_age = 0`. It repeats the back-fill already modelled.
- `exp` and `log` are function parameters. The lemmas assume only monotonicity and `log(1) = 0` where they need them. No numeric values are computed.
- Values are exact reals, not IEEE doubles. The final `/1000` and `.round(1)` of the tables are not modelled.
- NaN is modelled as a missing label (`None`). Its propagation through arithmetic is not modelled.
- WeightedQuantile.ArgSort: it fixes a stable tie rule, while `np.argsort` is not stable. The proved properties (range, end points, monotonicity in the probe, the k-th smallest value under equal weights) hold for every sorting permutation. The value itself between tied knots does depend on the tie order when the tied rows carry different weights: values 1, 2, 2 with weights 1, 1, 2 at probe 0.375 give 1.5 in one order and 1.25 in the other. `Quantile` returns the value of the stable order, which is one of the values the scripts can produce (`WeightedQuantile.QuantileTieOrder`, `WeightedQuantile.QuantileTieStable`).
- WeightedQuantile.Quantile: survey weights are required positive, which the survey guarantees. Zero or negative weights are not modelled.
- Binning.Cut: `duplicates='drop'` with a fixed label list makes pandas raise. A repeated edge is therefore the error `DuplicateEdges` rather than a silent drop. The per-band cuts without `duplicates='drop'` raise in the same case.
- LifetimeProjection.GrowthRates: the band medians are required positive, since the code takes the log of their ratios without checking.
- LifetimeProjection.Projected: ages are required to be at least 1. A younger age has no band, and pandas would give a NaN growth rate.
- SurveyData.Frame.LifetimeWealth: an age band without rows ends the projection with `EmptyInput` after the year-0 columns. This is what the script does with the default `observed=False` groupby over the categorical `age_cat`: the median lambda is called on the empty band, and `quantile` raises at `Sn[-1]`. Under `observed=True` the script would not fail but give band 8 a NaN rate; that variant is not modelled.
- SurveyData.Frame.LifetimeWealthQctiles: the `num` argument is not a parameter, because the loop overwrites it. The list of counts is passed instead.
- The group averages `gb` that the back-fill pads (weighted `np.average` per category) are taken as input. Only the padding is modelled.
- SurveyData.Frame.AddLoanColumns: the 18 per-loan columns `self_loan{i}`, `spouse_loan{i}` and `parent_loan{i}` are not stored in the frame. Nothing else reads them; each is `Household.LoanPart` of its record, and only their per-kind sums are kept.
- Aggregates.PairLabels: the `pairs` column and `debt_wgt` are returned as values rather than stored in the table.
- Aggregates.PadRow: the initial contents of the padded row are arbitrary. Only the cells the padding writes are specified.
- Aggregates.PadRow: a short `gb` is never padded in the scripts as written. The groupby at scf_lifetime_wealth.py:77 and scf_figures.py:66 runs over a categorical column with the default `observed=False`, so `agg(f)` is also called on the empty categories, and `np.average` with weights summing to zero raises `ZeroDivisionError` there. The padding is modelled as the code states it; that raise is not modelled.
- The cross-tab in `lifetime_wealth_debt_count` weights its quantiles with the module-level `data['wgt']`. The model uses the weights of the frame it is given, which is the same table in the scripts.
