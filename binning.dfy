/**
 * pd.cut with right-closed bins, as the scripts call it: a value in
 * (e[k], e[k+1]] gets label k, include_lowest also puts e[0] itself into
 * bin 0, anything else gets no label (NaN). The fixed edge lists of the
 * scripts end in +inf (age_values, debt_list); `openTop` stands for that
 * last edge, so the final bin is (e[last], +inf).
 */
module Binning {
  import opened Wrappers
  import opened Columns

  /**
   * np.searchsorted(edges, x, side='left') for sorted edges: the number of
   * leading edges strictly below x.
   */
  function SearchSortedLeft(x: real, edges: seq<real>): (i: nat)
    ensures i <= |edges|
    ensures forall j :: 0 <= j < i ==> edges[j] < x
    ensures i < |edges| ==> x <= edges[i]
  {
    if edges == [] then 0
    else if edges[0] < x then 1 + SearchSortedLeft(x, edges[1..])
    else 0
  }

  /** Number of bin edges pandas sees: the finite ones, plus +inf when the list is open at the top. */
  function EdgeCount(edges: seq<real>, openTop: bool): nat
  {
    |edges| + if openTop then 1 else 0
  }

  /** The label pd.cut gives one value (right=True), None for NaN. */
  function BinOf(x: real, edges: seq<real>, includeLowest: bool, openTop: bool): (b: Option<nat>)
    ensures b.Some? ==> b.value + 1 < EdgeCount(edges, openTop)
  {
    var id := if includeLowest && |edges| > 0 && x == edges[0] then 1 else SearchSortedLeft(x, edges);
    if id == 0 || id == EdgeCount(edges, openTop) then None else Some(id - 1)
  }

  /**
   * The edges pd.cut accepts with labels=range(len(bins)-1): they must not
   * decrease, and (except for a two-edge list) must not repeat, because a
   * repeat either raises or, with duplicates='drop', leaves one label too many.
   */
  predicate AcceptedEdges(edges: seq<real>, openTop: bool)
    ensures AcceptedEdges(edges, openTop) <==>
      NonDecreasing(edges) && (EdgeCount(edges, openTop) == 2 || forall k :: 0 <= k < |edges| - 1 ==> edges[k] != edges[k + 1])
  {
    NoRepeatIsIncrease(edges);
    NonDecreasing(edges) && (StrictlyIncreasing(edges) || EdgeCount(edges, openTop) == 2)
  }

  /** Non-decreasing edges without a repeated neighbour strictly increase. */
  lemma NoRepeatIsIncrease(edges: seq<real>)
    ensures NonDecreasing(edges) ==>
      (StrictlyIncreasing(edges) <==> forall k :: 0 <= k < |edges| - 1 ==> edges[k] != edges[k + 1])
  {
    if NonDecreasing(edges) && forall k :: 0 <= k < |edges| - 1 ==> edges[k] != edges[k + 1] {
      forall i, j | 0 <= i < j < |edges|
        ensures edges[i] < edges[j]
      {
        assert edges[i] != edges[i + 1];
      }
    }
  }

  /** pd.cut(xs, bins=edges, labels=range(len(edges)-1), include_lowest=...). */
  function Cut(xs: seq<real>, edges: seq<real>, includeLowest: bool, openTop: bool): (r: Result<seq<Option<nat>>>)
    ensures r.Success? <==> AcceptedEdges(edges, openTop)
    ensures r.Failure? ==> r.error == (if NonDecreasing(edges) then DuplicateEdges else NotMonotonic)
    ensures r.Success? ==> |r.value| == |xs|
    ensures r.Success? ==> forall i :: 0 <= i < |xs| ==> r.value[i] == BinOf(xs[i], edges, includeLowest, openTop)
  {
    if !NonDecreasing(edges) then Failure(NotMonotonic)
    else if !AcceptedEdges(edges, openTop) then Failure(DuplicateEdges)
    else Success(seq(|xs|, i requires 0 <= i < |xs| => BinOf(xs[i], edges, includeLowest, openTop)))
  }

  /** Against sorted edges, searchsorted lands on k+1 exactly when x lies in (e[k], e[k+1]]. */
  lemma SearchSortedBetween(x: real, edges: seq<real>, k: nat)
    requires StrictlyIncreasing(edges) && k + 1 < |edges|
    ensures SearchSortedLeft(x, edges) == k + 1 <==> edges[k] < x <= edges[k + 1]
  {
    var i := SearchSortedLeft(x, edges);
    if edges[k] < x <= edges[k + 1] && i <= k {
      assert false;
    }
  }

  /**
   * Right-closed bins over strictly increasing finite edges: label k exactly
   * for values in (e[k], e[k+1]], plus e[0] itself for bin 0 under
   * include_lowest.
   */
  lemma BinOfClosed(x: real, edges: seq<real>, includeLowest: bool, k: nat)
    requires StrictlyIncreasing(edges) && |edges| >= 2
    ensures BinOf(x, edges, includeLowest, false) == Some(k) <==>
      k + 1 < |edges| && (edges[k] < x <= edges[k + 1] || (includeLowest && k == 0 && x == edges[0]))
  {
    var i := SearchSortedLeft(x, edges);
    if k + 1 < |edges| {
      SearchSortedBetween(x, edges, k);
    }
    if includeLowest && x == edges[0] {
    } else if i > 0 && i < |edges| {
      SearchSortedBetween(x, edges, i - 1);
    }
  }

  /** Values below e[0], above e[last], and e[0] itself without include_lowest get no label. */
  lemma BinOfClosedMissing(x: real, edges: seq<real>, includeLowest: bool)
    requires StrictlyIncreasing(edges) && |edges| >= 2
    ensures BinOf(x, edges, includeLowest, false).None? <==>
      x < edges[0] || x > edges[|edges| - 1] || (!includeLowest && x == edges[0])
  {
    var i := SearchSortedLeft(x, edges);
    if edges[0] < x <= edges[|edges| - 1] {
      assert 0 < i < |edges|;
    }
  }

  /** With a +inf top edge the last bin (e[last], +inf) catches everything above. */
  lemma BinOfOpenTop(x: real, edges: seq<real>, includeLowest: bool, k: nat)
    requires StrictlyIncreasing(edges) && |edges| >= 1
    ensures BinOf(x, edges, includeLowest, true) == Some(k) <==>
      || (k + 1 < |edges| && edges[k] < x <= edges[k + 1])
      || (k + 1 == |edges| && x > edges[k])
      || (includeLowest && k == 0 && x == edges[0])
  {
    var i := SearchSortedLeft(x, edges);
    if k + 1 < |edges| {
      SearchSortedBetween(x, edges, k);
    }
    if includeLowest && x == edges[0] {
    } else if 0 < i < |edges| {
      SearchSortedBetween(x, edges, i - 1);
    } else if i == |edges| {
      assert edges[i - 1] < x;
    }
  }

  /** age_values = [0, 25, 30, ..., 60, +inf] without its +inf. */
  const AgeEdges: seq<real> := [0.0, 25.0, 30.0, 35.0, 40.0, 45.0, 50.0, 55.0, 60.0]

  /** The nine age labels "-25", "26-30", ..., "56-60", "61+". */
  const NumAgeBands: nat := 9

  /** age_cat = pd.cut(age, bins=age_values): right-closed, no include_lowest. */
  function AgeBand(age: int): (b: Option<nat>)
    ensures b.Some? ==> b.value < NumAgeBands
  {
    BinOf(age as real, AgeEdges, false, true)
  }

  lemma AgeEdgesIncrease()
    ensures StrictlyIncreasing(AgeEdges) && |AgeEdges| == NumAgeBands
  {
  }

  /** An age in (age_values[k], age_values[k+1]] gets band k; the last band is everything above 60. */
  lemma AgeBandBoundaries(age: int, k: nat)
    ensures AgeBand(age) == Some(k) <==>
      || (k + 1 < NumAgeBands && AgeEdges[k] < age as real <= AgeEdges[k + 1])
      || (k + 1 == NumAgeBands && age > 60)
  {
    AgeEdgesIncrease();
    BinOfOpenTop(age as real, AgeEdges, false, k);
  }

  /** Every positive age has a band; age 0 and below has none. */
  lemma AgeBandDefined(age: int)
    ensures AgeBand(age).Some? <==> age >= 1
  {
    var i := SearchSortedLeft(age as real, AgeEdges);
    if age >= 1 {
      assert AgeEdges[0] < age as real;
    }
  }

  /** The boundaries fall in the band they close: 25 -> 0, 35 -> 2, 60 -> 7, 61 -> 8. */
  lemma AgeBandExamples()
    ensures AgeBand(25) == Some(0) && AgeBand(26) == Some(1)
    ensures AgeBand(35) == Some(2) && AgeBand(60) == Some(7) && AgeBand(61) == Some(8)
  {
    AgeBandBoundaries(25, 0);
    AgeBandBoundaries(26, 1);
    AgeBandBoundaries(35, 2);
    AgeBandBoundaries(60, 7);
    AgeBandBoundaries(61, 8);
  }

  /**
   * The band of a positive age written as arithmetic: five-year bands
   * from 26-30 to 56-60, with everything up to 25 in band 0 and everything
   * above 60 in band 8.
   */
  function FiveYearBand(age: int): (k: nat)
    requires age >= 1
    ensures k < NumAgeBands
  {
    if age <= 25 then 0 else if age > 60 then 8 else (age - 21) / 5
  }

  /** The arithmetic band is the label pd.cut gives the age. */
  lemma FiveYearBandIsAgeBand(age: int)
    requires age >= 1
    ensures AgeBand(age) == Some(FiveYearBand(age))
  {
    var k := FiveYearBand(age);
    assert k + 1 < NumAgeBands ==> AgeEdges[k] < age as real <= AgeEdges[k + 1];
    AgeBandBoundaries(age, k);
  }

  /** debt_list = [0, 1, 15000, 40000, +inf] without its +inf. */
  const DebtEdges: seq<real> := [0.0, 1.0, 15000.0, 40000.0]

  /** "No debt", "$1-$15,000", "$15,001-$40,000", "$40,001+". */
  const NumDebtBrackets: nat := 4

  /** pd.cut(percap_all_loans, bins=debt_list, include_lowest=True). */
  function DebtBracket(debt: real): (b: Option<nat>)
    ensures b.Some? ==> b.value < NumDebtBrackets
  {
    BinOf(debt, DebtEdges, true, true)
  }

  /** Brackets [0, 1], (1, 15000], (15000, 40000], (40000, +inf): debts 0 and 1 are both "No debt". */
  lemma DebtBracketRanges(debt: real)
    ensures debt < 0.0 ==> DebtBracket(debt) == None
    ensures 0.0 <= debt <= 1.0 ==> DebtBracket(debt) == Some(0)
    ensures 1.0 < debt <= 15000.0 ==> DebtBracket(debt) == Some(1)
    ensures 15000.0 < debt <= 40000.0 ==> DebtBracket(debt) == Some(2)
    ensures 40000.0 < debt ==> DebtBracket(debt) == Some(3)
  {
    assert StrictlyIncreasing(DebtEdges);
    if debt >= 0.0 {
      var k := if debt <= 1.0 then 0 else if debt <= 15000.0 then 1 else if debt <= 40000.0 then 2 else 3;
      BinOfOpenTop(debt, DebtEdges, true, k);
    }
  }
}
