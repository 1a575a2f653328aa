/**
 * The names of the categorical columns the quantile loops add, in the order
 * they add them, and the cut each of them holds.
 */
module CategoryKeys {
  import opened Wrappers
  import opened WeightedQuantile
  import opened Binning
  import opened QuantileBins

  /** The money variables: Debt is all_loans; LTWealth exists only per capita. */
  datatype Var = Debt | WageInc | Income | Asset | NetWorth | LTWealth

  /** The variables that get a percap_ column, in the order of the loop that adds them. */
  const PercapVars: seq<Var> := [Debt, WageInc, Income, Asset, NetWorth]

  /** The variables cut into deciles and quintiles. */
  const CategoryVars: seq<Var> := [Income, NetWorth]

  /** Deciles, then quintiles. */
  const QctileNums: seq<nat> := [10, 5]

  /** cancel_list: forgiveness caps of $10,000 and $50,000. */
  const CancelList: seq<real> := [10000.0, 50000.0]

  /**
   * A categorical column name: [percap_]var_cat{num} for the whole table
   * (band None) and [percap_]var_cat{num}{band} within one age band.
   */
  datatype CatKey = CatKey(v: Var, percap: bool, num: nat, band: Option<nat>)

  /**
   * Which cuts close their first bin: all of them except the per-capita
   * age-band cut of scf_data_clean.py; lifetime wealth closes it everywhere.
   */
  predicate IncludesLowest(key: CatKey)
  {
    key.band.None? || !key.percap || key.v == LTWealth
  }

  /**
   * What pd.cut yields for column xs under the given column name, or the
   * error pandas raises; w and ac are the wgt and age_cat columns.
   */
  function CutSpec(xs: seq<real>, w: seq<real>, ac: seq<Option<nat>>, key: CatKey): (r: Result<seq<Option<nat>>>)
    requires WeightedColumn(xs, w) && |ac| == |xs| && key.num > 0
    ensures r.Success? ==> |r.value| == |xs|
  {
    Categories(xs, w, ac, key.num, key.band, IncludesLowest(key))
  }

  /** The columns one category pass writes for one band (None: the whole table), raw before percap_. */
  function BandPair(v: Var, withRaw: bool, num: nat, band: Option<nat>): (keys: seq<CatKey>)
    ensures forall key :: key in keys <==> key.v == v && key.num == num && key.band == band && (key.percap || withRaw)
  {
    (if withRaw then [CatKey(v, false, num, band)] else []) + [CatKey(v, true, num, band)]
  }

  /** The columns of bands 0 .. n-1, in the order the band loop writes them. */
  function BandKeys(v: Var, withRaw: bool, num: nat, n: nat): seq<CatKey>
  {
    if n == 0 then [] else BandKeys(v, withRaw, num, n - 1) + BandPair(v, withRaw, num, Some(n - 1))
  }

  lemma {:induction false} BandKeysCover(v: Var, withRaw: bool, num: nat, n: nat)
    ensures forall key :: key in BandKeys(v, withRaw, num, n) <==>
      key.v == v && key.num == num && key.band.Some? && key.band.value < n && (key.percap || withRaw)
  {
    if n > 0 {
      BandKeysCover(v, withRaw, num, n - 1);
    }
  }

  /** The columns one pass of `for num in [10, 5]` writes for one variable, in order. */
  function GroupKeys(v: Var, withRaw: bool, num: nat): (keys: seq<CatKey>)
    ensures forall key :: key in keys <==> InGroup(key, v, withRaw, num)
  {
    BandKeysCover(v, withRaw, num, NumAgeBands);
    BandPair(v, withRaw, num, None) + BandKeys(v, withRaw, num, NumAgeBands)
  }

  /** The columns one pass of the category loop writes. */
  predicate InGroup(key: CatKey, v: Var, withRaw: bool, num: nat)
  {
    key.v == v && key.num == num && (key.percap || withRaw)
    && (key.band.None? || key.band.value < NumAgeBands)
  }

  /** No entry is listed twice: column names, variables, quantile counts. */
  predicate Distinct<T(==)>(s: seq<T>)
  {
    forall i, j :: 0 <= i < j < |s| ==> s[i] != s[j]
  }

  lemma DistinctAppend<T>(a: seq<T>, b: seq<T>)
    requires Distinct(a) && Distinct(b) && forall x :: x in a ==> x !in b
    ensures Distinct(a + b)
  {
    forall i, j | 0 <= i < j < |a + b|
      ensures (a + b)[i] != (a + b)[j]
    {
      if i < |a| && j >= |a| {
        assert (a + b)[i] in a && (a + b)[j] in b;
      }
    }
  }

  lemma {:induction false} BandKeysDistinct(v: Var, withRaw: bool, num: nat, n: nat)
    ensures Distinct(BandKeys(v, withRaw, num, n))
  {
    if n > 0 {
      BandKeysDistinct(v, withRaw, num, n - 1);
      BandKeysCover(v, withRaw, num, n - 1);
      DistinctAppend(BandKeys(v, withRaw, num, n - 1), BandPair(v, withRaw, num, Some(n - 1)));
    }
  }

  lemma GroupKeysDistinct(v: Var, withRaw: bool, num: nat)
    ensures Distinct(GroupKeys(v, withRaw, num))
  {
    BandKeysDistinct(v, withRaw, num, NumAgeBands);
    BandKeysCover(v, withRaw, num, NumAgeBands);
    DistinctAppend(BandPair(v, withRaw, num, None), BandKeys(v, withRaw, num, NumAgeBands));
  }

  lemma {:induction false} NumKeysDistinct(v: Var, nums: seq<nat>, withRaw: bool)
    requires Distinct(nums)
    ensures Distinct(NumKeys(v, nums, withRaw))
  {
    if nums != [] {
      NumKeysDistinct(v, nums[1..], withRaw);
      GroupKeysDistinct(v, withRaw, nums[0]);
      DistinctAppend(GroupKeys(v, withRaw, nums[0]), NumKeys(v, nums[1..], withRaw));
    }
  }

  /** Distinct variables and counts give distinct column names, so no column is written twice. */
  lemma {:induction false} LoopKeysDistinct(vars: seq<Var>, nums: seq<nat>, withRaw: bool)
    requires Distinct(vars) && Distinct(nums)
    ensures Distinct(LoopKeys(vars, nums, withRaw))
  {
    if vars != [] {
      LoopKeysDistinct(vars[1..], nums, withRaw);
      NumKeysDistinct(vars[0], nums, withRaw);
      DistinctAppend(NumKeys(vars[0], nums, withRaw), LoopKeys(vars[1..], nums, withRaw));
    }
  }

  /** The columns `for var in vars: for num in nums` writes, in the order it writes them. */
  function LoopKeys(vars: seq<Var>, nums: seq<nat>, withRaw: bool): (keys: seq<CatKey>)
    ensures forall key :: key in keys <==> key.v in vars && key.num in nums && InGroup(key, key.v, withRaw, key.num)
  {
    if vars == [] then [] else NumKeys(vars[0], nums, withRaw) + LoopKeys(vars[1..], nums, withRaw)
  }

  /** The columns `for num in nums` writes for one variable. */
  function NumKeys(v: Var, nums: seq<nat>, withRaw: bool): (keys: seq<CatKey>)
    ensures forall key :: key in keys <==> key.v == v && key.num in nums && InGroup(key, v, withRaw, key.num)
  {
    if nums == [] then [] else GroupKeys(v, withRaw, nums[0]) + NumKeys(v, nums[1..], withRaw)
  }

  /** The column a key cuts: the variable itself, or its percap_ column. */
  function KeyColumn(raws: map<Var, seq<real>>, pcs: map<Var, seq<real>>, key: CatKey): seq<real>
    requires key.v in (if key.percap then pcs else raws)
  {
    if key.percap then pcs[key.v] else raws[key.v]
  }

  /** Every listed cut has its column, weighted by wgt, and a positive quantile count. */
  predicate Cuttable(keys: seq<CatKey>, raws: map<Var, seq<real>>, pcs: map<Var, seq<real>>, w: seq<real>, ac: seq<Option<nat>>)
  {
    |ac| == |w| &&
    forall key :: key in keys ==>
      key.num > 0 && key.v in (if key.percap then pcs else raws) && WeightedColumn(KeyColumn(raws, pcs, key), w)
  }

  /** What pd.cut gives each listed column, in order. */
  function CutList(keys: seq<CatKey>, raws: map<Var, seq<real>>, pcs: map<Var, seq<real>>, w: seq<real>, ac: seq<Option<nat>>)
    : (cs: seq<Result<seq<Option<nat>>>>)
    requires Cuttable(keys, raws, pcs, w, ac)
    ensures |cs| == |keys|
  {
    if keys == [] then []
    else [CutSpec(KeyColumn(raws, pcs, keys[0]), w, ac, keys[0])] + CutList(keys[1..], raws, pcs, w, ac)
  }

  /** Entry i of the list is the cut of the column keys[i] names. */
  lemma {:induction false} CutListAt(keys: seq<CatKey>, raws: map<Var, seq<real>>, pcs: map<Var, seq<real>>,
                                     w: seq<real>, ac: seq<Option<nat>>, i: nat)
    requires Cuttable(keys, raws, pcs, w, ac) && i < |keys|
    ensures CutList(keys, raws, pcs, w, ac)[i] == CutSpec(KeyColumn(raws, pcs, keys[i]), w, ac, keys[i])
  {
    if i > 0 {
      var rest := keys[1..];
      assert forall key :: key in rest ==> key in keys;
      CutListAt(rest, raws, pcs, w, ac, i - 1);
      assert CutList(keys, raws, pcs, w, ac)[i] == CutList(rest, raws, pcs, w, ac)[i - 1];
      assert rest[i - 1] == keys[i];
    }
  }
}
