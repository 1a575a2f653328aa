/**
 * The shared survey table `data` that scf_data_clean.py builds column by
 * column, and the top-level loops that add those columns: loan totals,
 * deflation, per-capita values, the age band, the quantile categories and
 * the capped cancellations.
 */
module SurveyData {
  import opened Wrappers
  import opened Columns
  import opened WeightedQuantile
  import opened Binning
  import opened Household
  import opened QuantileBins
  import opened CategoryKeys
  import opened LifetimeProjection

  /** self_cancel{c}, spouse_cancel{c} and percap_cancel{c}: the columns one forgiveness cap adds. */
  datatype Cancellation = Cancellation(selfCancel: seq<real>, spouseCancel: seq<real>, percapCancel: seq<real>)

  /** A record's own money column for a variable other than all_loans. */
  function MoneyField(h: Household, v: Var): real
  {
    match v
    case WageInc => h.wageinc
    case Income => h.income
    case Asset => h.asset
    case _ => h.networth
  }

  /** Every record has its six loans and a positive survey weight. */
  predicate Table(rs: seq<Household>)
  {
    forall r :: 0 <= r < |rs| ==> WellFormed(rs[r]) && rs[r].wgt > 0.0
  }

  /** The wgt column of a table. */
  function WeightsOf(rs: seq<Household>): (w: seq<real>)
    requires Table(rs)
    ensures |w| == |rs| && Positive(w)
  {
    seq(|rs|, r requires 0 <= r < |rs| => rs[r].wgt)
  }

  /** The column of a variable other than all_loans. */
  function MoneyColumn(rs: seq<Household>, v: Var): (c: seq<real>)
    ensures |c| == |rs|
  {
    seq(|rs|, r requires 0 <= r < |rs| => MoneyField(rs[r], v))
  }

  /** The column of any stored variable: all_loans lives in its own column. */
  function RawColumn(rs: seq<Household>, loans: seq<real>, v: Var): (c: seq<real>)
    requires v != LTWealth && |loans| == |rs|
    ensures |c| == |rs|
  {
    if v == Debt then loans else MoneyColumn(rs, v)
  }

  /** percap_{var}: halved for married households. */
  function PercapColumn(rs: seq<Household>, loans: seq<real>, v: Var): (c: seq<real>)
    requires v != LTWealth && |loans| == |rs|
    ensures |c| == |rs|
    ensures forall r :: 0 <= r < |rs| && rs[r].married == 1 ==> 2.0 * c[r] == RawColumn(rs, loans, v)[r]
    ensures forall r :: 0 <= r < |rs| && rs[r].married != 1 ==> c[r] == RawColumn(rs, loans, v)[r]
  {
    var raw := RawColumn(rs, loans, v);
    seq(|rs|, r requires 0 <= r < |rs| => PerCapita(rs[r].married, raw[r]))
  }

  /** I_med: the weighted median of (deflated) income within each age band of age_cat. */
  function IncomeMedians(rs: seq<Household>, ac: seq<Option<nat>>): (r: Result<seq<real>>)
    requires Table(rs) && |ac| == |rs|
    ensures r.Success? <==> AllBandsPresent(ac)
    ensures r.Success? ==> |r.value| == NumAgeBands
  {
    BandMedians(MoneyColumn(rs, Income), WeightsOf(rs), ac)
  }

  /** What lifetime_wealth reads: positive ages, percap_income and percap_networth, age_cat, positive band medians. */
  predicate ProjectionInputs(rs: seq<Household>, pc: map<Var, seq<real>>, ac: seq<Option<nat>>)
  {
    && Table(rs) && |ac| == |rs| && Adults(rs)
    && Income in pc && NetWorth in pc && |pc[Income]| == |rs| && |pc[NetWorth]| == |rs|
    && PositiveMedians(IncomeMedians(rs, ac))
  }

  /**
   * The column lifetime_wealth returns for a table, or the error it stops
   * with when an age band has no rows. A household at or past end_date is
   * worth its current per-capita income plus per-capita net worth.
   */
  function TableLifetimeWealth(rs: seq<Household>, pc: map<Var, seq<real>>, ac: seq<Option<nat>>,
                               g: real, rf: real, endDate: int, exp: real -> real, ln: real -> real)
    : (r: Result<seq<real>>)
    requires ProjectionInputs(rs, pc, ac)
    ensures r.Success? <==> forall k :: 0 <= k < NumAgeBands ==> Some(k) in ac
    ensures r.Failure? ==> r.error == EmptyInput
    ensures r.Success? ==> |r.value| == |rs|
    ensures r.Success? ==> forall i :: 0 <= i < |rs| && rs[i].age >= endDate >= 1 ==>
      r.value[i] == pc[Income][i] + pc[NetWorth][i]
  {
    var meds :- IncomeMedians(rs, ac);
    Success(LifetimeWealthColumn(rs, pc[Income], pc[NetWorth], endDate, GrowthFactors(meds, g, exp, ln), exp, rf))
  }

  /**
   * The columns lifetime_wealth leaves in the table: income0,
   * percap_income0 and percap_income0disc as read; then, when every band
   * has a median, income{t}, percap_income{t} and percap_income{t}disc of
   * every year and percap_LT_income, the row sum of the discounted columns
   * 0 .. end_date-1. Without the medians percap_LT_income keeps its old value lt0.
   */
  predicate ProjectionWritten(ip: seq<seq<real>>, pp: seq<seq<real>>, dp: seq<seq<real>>, lt: seq<real>, lt0: seq<real>,
                              rs: seq<Household>, pc: map<Var, seq<real>>, ac: seq<Option<nat>>,
                              g: real, rf: real, endDate: int, exp: real -> real, ln: real -> real)
    requires ProjectionInputs(rs, pc, ac)
  {
    var inc, meds := MoneyColumn(rs, Income), IncomeMedians(rs, ac);
    && |ip| >= 1 && |pp| >= 1 && |dp| >= 1
    && ip[0] == inc && pp[0] == pc[Income] && dp[0] == pc[Income]
    && (meds.Failure? ==> |ip| == 1 && |pp| == 1 && |dp| == 1 && lt == lt0)
    && (meds.Success? ==>
         var f := GrowthFactors(meds.value, g, exp, ln);
         && PathsFrom(ip, pp, dp, rs, inc, pc[Income], endDate, f, exp, rf, PathLength(endDate))
         && |lt| == |rs|
         && forall r :: 0 <= r < |rs| ==> lt[r] == RowSum(dp, r, Years(endDate)))
  }

  /** The percap_LT_wealth categories, in the order the loop writes them, as pd.cut gives them. */
  function LifetimeWealthCuts(lw: seq<real>, nums: seq<nat>, rs: seq<Household>, pc: map<Var, seq<real>>,
                              ac: seq<Option<nat>>): (cs: seq<Result<seq<Option<nat>>>>)
    requires Table(rs) && |lw| == |rs| && |ac| == |rs| && forall num :: num in nums ==> num > 0
    ensures |cs| == |NumKeys(LTWealth, nums, false)|
  {
    CutList(NumKeys(LTWealth, nums, false), map[], pc[LTWealth := lw], WeightsOf(rs), ac)
  }

  /** The unscaled columns of the listed variables. */
  function RawColumns(rs: seq<Household>, loans: seq<real>, vars: seq<Var>): (m: map<Var, seq<real>>)
    requires |loans| == |rs| && LTWealth !in vars
    ensures forall v :: v in m <==> v in vars
    ensures forall v :: v in m ==> m[v] == RawColumn(rs, loans, v)
  {
    map v | v in vars :: RawColumn(rs, loans, v)
  }

  /**
   * A table the quantile loop may be run over, with its all_loans column,
   * percap_ columns and age_cat: the variables are real columns with
   * percap_ partners and every count is positive.
   */
  predicate LoopTable(vars: seq<Var>, nums: seq<nat>, rs: seq<Household>, loans: seq<real>,
                      pc: map<Var, seq<real>>, ac: seq<Option<nat>>)
  {
    && Table(rs) && |loans| == |rs| && |ac| == |rs| && (forall v :: v in pc ==> |pc[v]| == |rs|)
    && LTWealth !in vars && (forall v :: v in vars ==> v in pc) && (forall num :: num in nums ==> num > 0)
  }

  /** Every decile and quintile column the loop writes, as pd.cut gives it. */
  function LoopCuts(vars: seq<Var>, nums: seq<nat>, rs: seq<Household>, loans: seq<real>,
                    pc: map<Var, seq<real>>, ac: seq<Option<nat>>): (cs: seq<Result<seq<Option<nat>>>>)
    requires LoopTable(vars, nums, rs, loans, pc, ac)
  {
    CutList(LoopKeys(vars, nums, true), RawColumns(rs, loans, vars), pc, WeightsOf(rs), ac)
  }

  class Frame {
    /** The joined table as read; Deflate rewrites its four money columns. */
    var rows: seq<Household>
    var selfLoans: seq<real>
    var spouseLoans: seq<real>
    var parentLoans: seq<real>
    var allLoans: seq<real>
    /** percap_{var} for each variable in PercapVars, later percap_LT_wealth. */
    var percap: map<Var, seq<real>>
    var ageCat: seq<Option<nat>>
    var cats: map<CatKey, seq<Option<nat>>>
    /** self_cancel{c}, spouse_cancel{c}, percap_cancel{c}, keyed by the cap c. */
    var cancel: map<real, Cancellation>
    /** income{t}, percap_income{t} and percap_income{t}disc, one column per year t. */
    var incomePath: seq<seq<real>>
    var percapIncomePath: seq<seq<real>>
    var discPath: seq<seq<real>>
    var percapLTIncome: seq<real>

    constructor (table: seq<Household>)
      ensures rows == table
      ensures selfLoans == [] && spouseLoans == [] && parentLoans == [] && allLoans == []
      ensures percap == map[] && ageCat == [] && cats == map[]
      ensures cancel == map[]
      ensures incomePath == [] && percapIncomePath == [] && discPath == [] && percapLTIncome == []
    {
      rows := table;
      selfLoans, spouseLoans, parentLoans, allLoans := [], [], [], [];
      percap, ageCat, cats := map[], [], map[];
      cancel := map[];
      incomePath, percapIncomePath, discPath, percapLTIncome := [], [], [], [];
    }

    /** Every record has its six loans and a positive survey weight. */
    predicate Records()
      reads this`rows
    {
      Table(rows)
    }

    /** The wgt column. */
    function Weights(): (w: seq<real>)
      reads this`rows
      requires Records()
      ensures |w| == |rows| && Positive(w)
    {
      WeightsOf(rows)
    }

    /** One loan total per row, as the pure row function gives it. */
    function LoanColumn(kind: LoanKind): (c: seq<real>)
      reads this`rows
      requires Records()
      ensures |c| == |rows|
    {
      var rs := rows;
      seq(|rs|, r requires 0 <= r < |rs| => KindTotal(rs[r], kind))
    }

    /**
     * The loop over the six loans: each loan's balance is added to the
     * total of the kind its whom-code names, then all_loans sums the three.
     */
    method AddLoanColumns()
      requires Records()
      modifies this`selfLoans, this`spouseLoans, this`parentLoans, this`allLoans
      ensures selfLoans == LoanColumn(SelfLoan)
      ensures spouseLoans == LoanColumn(SpouseLoan)
      ensures parentLoans == LoanColumn(ParentLoan)
      ensures |allLoans| == |rows|
      ensures forall r :: 0 <= r < |rows| ==> allLoans[r] == AllLoans(rows[r]) == StudentBalance(rows[r])
    {
      var rs, n := rows, |rows|;
      var s := seq(n, r => 0.0);
      var p := s;
      var q := s;
      for i := 0 to NumLoans
        invariant |s| == n && |p| == n && |q| == n
        invariant forall r :: 0 <= r < n ==> s[r] == KindPrefix(rows[r], SelfLoan, i)
        invariant forall r :: 0 <= r < n ==> p[r] == KindPrefix(rows[r], SpouseLoan, i)
        invariant forall r :: 0 <= r < n ==> q[r] == KindPrefix(rows[r], ParentLoan, i)
      {
        s := seq(n, r requires 0 <= r < n => s[r] + LoanPart(rs[r], i, SelfLoan));
        p := seq(n, r requires 0 <= r < n => p[r] + LoanPart(rs[r], i, SpouseLoan));
        q := seq(n, r requires 0 <= r < n => q[r] + LoanPart(rs[r], i, ParentLoan));
        forall r | 0 <= r < n
          ensures s[r] == KindPrefix(rows[r], SelfLoan, i + 1)
          ensures p[r] == KindPrefix(rows[r], SpouseLoan, i + 1)
          ensures q[r] == KindPrefix(rows[r], ParentLoan, i + 1)
        {
          KindPrefixStep(rows[r], SelfLoan, i);
          KindPrefixStep(rows[r], SpouseLoan, i);
          KindPrefixStep(rows[r], ParentLoan, i);
        }
      }
      selfLoans, spouseLoans, parentLoans := s, p, q;
      allLoans := seq(n, r requires 0 <= r < n => s[r] + p[r] + q[r]);
      forall r | 0 <= r < n
        ensures allLoans[r] == StudentBalance(rows[r])
      {
        AllLoansIsStudentBalance(rows[r]);
      }
    }

    /** income, networth, asset and wageinc divided by asset_adj; loans and everything else stay. */
    method Deflate()
      modifies this`rows
      ensures |rows| == |old(rows)|
      ensures forall r :: 0 <= r < |rows| ==> rows[r] == Deflated(old(rows)[r])
      ensures old(Records()) ==> Records()
    {
      var rs := rows;
      rows := seq(|rs|, r requires 0 <= r < |rs| => Deflated(rs[r]));
    }

    /** The loop over all_loans, wageinc, income, asset and networth adding percap_ columns. */
    method AddPerCapita()
      requires |allLoans| == |rows|
      modifies this`percap
      ensures forall v :: v in PercapVars ==> v in percap && percap[v] == PercapColumn(rows, allLoans, v)
      ensures forall v :: v !in PercapVars ==> (v in percap <==> v in old(percap))
      ensures forall v :: v !in PercapVars && v in percap ==> percap[v] == old(percap)[v]
    {
      var rs, loans := rows, allLoans;
      for i := 0 to |PercapVars|
        invariant forall v :: v in PercapVars[..i] ==> v in percap && percap[v] == PercapColumn(rs, loans, v)
        invariant forall v :: v !in PercapVars ==> (v in percap <==> v in old(percap))
        invariant forall v :: v !in PercapVars && v in percap ==> percap[v] == old(percap)[v]
      {
        var v := PercapVars[i];
        percap := percap[v := PercapColumn(rs, loans, v)];
        assert PercapVars[..i + 1] == PercapVars[..i] + [v];
      }
      assert PercapVars[..|PercapVars|] == PercapVars;
    }

    /** age_cat = pd.cut(age, bins=age_values). */
    method AddAgeCat()
      modifies this`ageCat
      ensures |ageCat| == |rows|
      ensures forall r :: 0 <= r < |rows| ==> ageCat[r] == AgeBand(rows[r].age)
      ensures forall r :: 0 <= r < |rows| ==> (ageCat[r].Some? <==> rows[r].age >= 1)
    {
      var rs := rows;
      ageCat := seq(|rs|, r requires 0 <= r < |rs| => AgeBand(rs[r].age));
      forall r | 0 <= r < |rows|
        ensures ageCat[r].Some? <==> rows[r].age >= 1
      {
        AgeBandDefined(rows[r].age);
      }
    }

    /** The columns the categories are computed from are in place. */
    predicate CategoryInputs()
      reads this`rows, this`allLoans, this`percap, this`ageCat
    {
      Records() && |allLoans| == |rows| && |ageCat| == |rows|
      && forall v :: v in percap ==> |percap[v]| == |rows|
    }

    /**
     * The quantile loop's outcome, on values: from the categories cats0 it
     * started from to cats1, the columns cs are written under keys in order
     * until the first cut pandas refuses, whose error is err, and no other
     * column changes.
     */
    static ghost predicate Stored(keys: seq<CatKey>, cs: seq<Result<seq<Option<nat>>>>,
                                  cats0: map<CatKey, seq<Option<nat>>>, cats1: map<CatKey, seq<Option<nat>>>,
                                  err: Option<Error>)
    {
      && |cs| == |keys|
      && (err.None? <==> forall i :: 0 <= i < |keys| ==> cs[i].Success?)
      && (err.None? ==> forall i :: 0 <= i < |keys| ==> keys[i] in cats1 && cs[i] == Success(cats1[keys[i]]))
      && (err.Some? ==> exists i :: 0 <= i < |keys| && cs[i] == Failure(err.value)
                                 && forall j :: 0 <= j < i ==> keys[j] in cats1 && cs[j] == Success(cats1[keys[j]]))
      && (forall key :: key in cats0 && key !in keys ==> key in cats1 && cats1[key] == cats0[key])
      && (forall key :: key in cats1 ==> key in cats0 || key in keys)
    }

    /**
     * Writes keys[i] := cols[i] in order, and stops at the first cut pandas
     * refused; the columns written before it stay.
     */
    method StoreCategories(keys: seq<CatKey>, cols: seq<Result<seq<Option<nat>>>>) returns (err: Option<Error>)
      requires |cols| == |keys| && Distinct(keys)
      modifies this`cats
      ensures Stored(keys, cols, old(cats), cats, err)
    {
      for i := 0 to |keys|
        invariant forall j :: 0 <= j < i ==> keys[j] in cats && cols[j] == Success(cats[keys[j]])
        invariant forall j :: 0 <= j < i ==> cols[j].Success?
        invariant forall key :: key in old(cats) && key !in keys ==> key in cats && cats[key] == old(cats)[key]
        invariant forall key :: key in cats ==> key in old(cats) || key in keys
      {
        if cols[i].Failure? {
          return Some(cols[i].error);
        }
        cats := cats[keys[i] := cols[i].value];
        forall j | 0 <= j < i
          ensures keys[j] in cats && cols[j] == Success(cats[keys[j]])
        {
          assert keys[j] != keys[i];
        }
      }
      return None;
    }

    /** The variables and quantile counts the loop may be run over: real columns with percap_ partners. */
    predicate LoopInputs(vars: seq<Var>, nums: seq<nat>)
      reads this`rows, this`allLoans, this`percap, this`ageCat
    {
      LoopTable(vars, nums, rows, allLoans, percap, ageCat)
    }

    /**
     * `for var in vars: for num in nums`, then the whole table and each of
     * the nine age bands: the cut of the variable and of its percap_
     * column, each band's from that band's rows. The script runs it with
     * vars = CategoryVars and nums = QctileNums. The cuts read columns the
     * loops do not write, so each is the cut of the table as it was on
     * entry. The script stops at the first cut pandas refuses.
     */
    method AddQuantileCategories(vars: seq<Var>, nums: seq<nat>) returns (err: Option<Error>)
      requires LoopInputs(vars, nums) && Distinct(vars) && Distinct(nums)
      modifies this`cats
      ensures Stored(LoopKeys(vars, nums, true), LoopCuts(vars, nums, old(rows), old(allLoans), old(percap), old(ageCat)),
                     old(cats), cats, err)
      ensures unchanged(this`rows, this`selfLoans, this`spouseLoans, this`parentLoans, this`allLoans, this`percap, this`ageCat, this`cancel)
    {
      LoopKeysDistinct(vars, nums, true);
      err := StoreCategories(LoopKeys(vars, nums, true), LoopCuts(vars, nums, rows, allLoans, percap, ageCat));
    }

    /** The loan totals the cancellation columns are made from are in place. */
    predicate LoanTotals()
      reads this`rows, this`selfLoans, this`spouseLoans, this`parentLoans
    {
      |selfLoans| == |rows| && |spouseLoans| == |rows| && |parentLoans| == |rows|
    }

    /**
     * self_cancel{c}, spouse_cancel{c} and percap_cancel{c} of every row,
     * from the self_loans, spouse_loans and parent_loans columns s, p, q.
     * With a non-negative cap and balances no household gets more forgiven
     * than it owes, per capita, and nothing negative.
     */
    static function CancelColumns(c: real, rs: seq<Household>, s: seq<real>, p: seq<real>, q: seq<real>)
      : (cols: Cancellation)
      requires |s| == |rs| && |p| == |rs| && |q| == |rs|
      ensures |cols.selfCancel| == |rs| && |cols.spouseCancel| == |rs| && |cols.percapCancel| == |rs|
      ensures c >= 0.0 ==> forall r :: 0 <= r < |rs| && s[r] >= 0.0 && p[r] >= 0.0 && q[r] >= 0.0 ==>
        0.0 <= cols.percapCancel[r] <= PerCapita(rs[r].married, s[r] + p[r] + q[r])
    {
      var pc := seq(|rs|, r requires 0 <= r < |rs| => PercapCancel(c, rs[r].married, s[r], p[r], q[r]));
      assert c >= 0.0 ==> forall r :: 0 <= r < |rs| && s[r] >= 0.0 && p[r] >= 0.0 && q[r] >= 0.0 ==>
        0.0 <= pc[r] <= PerCapita(rs[r].married, s[r] + p[r] + q[r]) by {
        if c >= 0.0 {
          forall r | 0 <= r < |rs| && s[r] >= 0.0 && p[r] >= 0.0 && q[r] >= 0.0
            ensures 0.0 <= pc[r] <= PerCapita(rs[r].married, s[r] + p[r] + q[r])
          {
            CancelBounds(c, rs[r].married, s[r], p[r], q[r]);
          }
        }
      }
      Cancellation(seq(|rs|, r requires 0 <= r < |rs| => SelfCancel(c, s[r], q[r])),
                   seq(|rs|, r requires 0 <= r < |rs| => SpouseCancel(c, p[r])),
                   pc)
    }

    /**
     * The cancellation loop's outcome, on values: from the columns cancel0
     * to cancel1 every cap in cancel_list gets its three columns from the
     * loan totals s, p and q; other caps keep theirs.
     */
    static ghost predicate Cancelled(cancel0: map<real, Cancellation>, cancel1: map<real, Cancellation>,
                                     rs: seq<Household>, s: seq<real>, p: seq<real>, q: seq<real>)
      requires |s| == |rs| && |p| == |rs| && |q| == |rs|
    {
      && (forall c :: c in CancelList ==> c in cancel1 && cancel1[c] == CancelColumns(c, rs, s, p, q))
      && (forall c :: c !in CancelList ==> (c in cancel1 <==> c in cancel0))
      && (forall c :: c !in CancelList && c in cancel1 ==> cancel1[c] == cancel0[c])
    }

    /** `for cancel in cancel_list`: the three capped cancellation columns for each cap. */
    method AddCancellation()
      requires LoanTotals()
      modifies this`cancel
      ensures Cancelled(old(cancel), cancel, rows, selfLoans, spouseLoans, parentLoans)
      ensures unchanged(this`rows, this`selfLoans, this`spouseLoans, this`parentLoans, this`allLoans, this`percap, this`ageCat, this`cats)
    {
      for i := 0 to |CancelList|
        invariant forall c :: c in CancelList[..i] ==> c in cancel && cancel[c] == CancelColumns(c, rows, selfLoans, spouseLoans, parentLoans)
        invariant forall c :: c !in CancelList ==> (c in cancel <==> c in old(cancel))
        invariant forall c :: c !in CancelList && c in cancel ==> cancel[c] == old(cancel)[c]
      {
        var c := CancelList[i];
        cancel := cancel[c := CancelColumns(c, rows, selfLoans, spouseLoans, parentLoans)];
        assert CancelList[..i + 1] == CancelList[..i] + [c];
      }
      assert CancelList[..|CancelList|] == CancelList;
    }

    /**
     * The columns scf_data_clean.py has written by the time its quantile
     * loop starts, for the joined table raw: the loan totals of the records
     * as read, the records with income, networth, asset and wageinc
     * deflated, the percap_ columns of the deflated values (all_loans is
     * never deflated) and age_cat.
     */
    predicate Prepared(raw: seq<Household>)
      reads this`rows, this`selfLoans, this`spouseLoans, this`parentLoans, this`allLoans, this`percap, this`ageCat
    {
      && Table(raw) && |rows| == |raw| && (forall r :: 0 <= r < |rows| ==> rows[r] == Deflated(raw[r]))
      && LoanTotals() && |allLoans| == |rows|
      && (forall r :: 0 <= r < |rows| ==>
           && selfLoans[r] == KindTotal(raw[r], SelfLoan)
           && spouseLoans[r] == KindTotal(raw[r], SpouseLoan)
           && parentLoans[r] == KindTotal(raw[r], ParentLoan)
           && allLoans[r] == StudentBalance(raw[r]))
      && (forall v :: v in PercapVars ==> v in percap && percap[v] == PercapColumn(rows, allLoans, v))
      && (forall v :: v in percap ==> |percap[v]| == |rows|)
      && |ageCat| == |rows| && (forall r :: 0 <= r < |rows| ==> ageCat[r] == AgeBand(rows[r].age))
    }

    /**
     * The steps before the quantile loop, in the script's order: loan
     * totals, deflation, per-capita columns, age band.
     */
    method Prepare()
      requires Records() && forall v :: v in percap ==> |percap[v]| == |rows|
      modifies this`rows, this`selfLoans, this`spouseLoans, this`parentLoans, this`allLoans, this`percap, this`ageCat
      ensures Prepared(old(rows))
      ensures forall v :: v !in PercapVars ==> (v in percap <==> v in old(percap))
      ensures forall v :: v !in PercapVars && v in percap ==> percap[v] == old(percap)[v]
    {
      AddLoanColumns();
      Deflate();
      AddPerCapita();
      AddAgeCat();
    }

    /** The quantile loop, then the cancellation loop unless the first raised. */
    method Categorise(vars: seq<Var>, nums: seq<nat>) returns (err: Option<Error>)
      requires LoopInputs(vars, nums) && Distinct(vars) && Distinct(nums) && LoanTotals()
      modifies this`cats, this`cancel
      ensures unchanged(this`rows, this`selfLoans, this`spouseLoans, this`parentLoans, this`allLoans, this`percap, this`ageCat)
      ensures Stored(LoopKeys(vars, nums, true), LoopCuts(vars, nums, old(rows), old(allLoans), old(percap), old(ageCat)),
                     old(cats), cats, err)
      ensures err.Some? ==> cancel == old(cancel)
      ensures err.None? ==> Cancelled(old(cancel), cancel, rows, selfLoans, spouseLoans, parentLoans)
    {
      err := AddQuantileCategories(vars, nums);
      if err.Some? {
        return;
      }
      AddCancellation();
    }

    /**
     * scf_data_clean.py from the joined table on, in the script's order:
     * Prepare, then Categorise over the prepared columns. The script runs
     * it with vars = CategoryVars and nums = QctileNums.
     */
    method Clean(vars: seq<Var>, nums: seq<nat>) returns (err: Option<Error>)
      requires Records() && forall v :: v in percap ==> |percap[v]| == |rows|
      requires (forall v :: v in vars ==> v in PercapVars) && Distinct(vars)
      requires Distinct(nums) && forall num :: num in nums ==> num > 0
      modifies this`rows, this`selfLoans, this`spouseLoans, this`parentLoans, this`allLoans
      modifies this`percap, this`ageCat, this`cats, this`cancel
      ensures Prepared(old(rows))
      ensures forall v :: v !in PercapVars ==> (v in percap <==> v in old(percap))
      ensures forall v :: v !in PercapVars && v in percap ==> percap[v] == old(percap)[v]
      ensures LoopTable(vars, nums, rows, allLoans, percap, ageCat)
      ensures Stored(LoopKeys(vars, nums, true), LoopCuts(vars, nums, rows, allLoans, percap, ageCat), old(cats), cats, err)
      ensures LoanTotals() && (err.Some? ==> cancel == old(cancel))
      ensures err.None? ==> Cancelled(old(cancel), cancel, rows, selfLoans, spouseLoans, parentLoans)
    {
      ghost var cats0, cancel0 := cats, cancel;
      Prepare();
      assert cats == cats0 && cancel == cancel0;
      err := Categorise(vars, nums);
    }

    /** The columns lifetime_wealth reads are in place, every age is positive and every band median too. */
    predicate LifetimeInputs()
      reads this`rows, this`allLoans, this`percap, this`ageCat
    {
      CategoryInputs() && ProjectionInputs(rows, percap, ageCat)
    }

    /**
     * lifetime_wealth(df, g, rf, end_date): writes income0, percap_income0
     * and percap_income0disc, takes the band medians and their growth
     * factors exp(grow), projects income{t}, percap_income{t} and
     * percap_income{t}disc for t = 1 .. end_date-1, sums the discounted
     * columns 0 .. end_date-1 into percap_LT_income, and returns it plus
     * percap_networth. A band without rows stops it after the year-0 columns.
     */
    method LifetimeWealth(g: real, rf: real, endDate: int, exp: real -> real, ln: real -> real)
      returns (err: Option<Error>, lw: seq<real>)
      requires LifetimeInputs()
      modifies this`incomePath, this`percapIncomePath, this`discPath, this`percapLTIncome
      ensures var r := TableLifetimeWealth(old(rows), old(percap), old(ageCat), g, rf, endDate, exp, ln);
        && (err.None? <==> r.Success?)
        && (err.Some? ==> err.value == r.error && lw == [])
        && (r.Success? ==> lw == r.value)
      ensures ProjectionWritten(incomePath, percapIncomePath, discPath, percapLTIncome, old(percapLTIncome),
                                old(rows), old(percap), old(ageCat), g, rf, endDate, exp, ln)
    {
      var rs, n := rows, |rows|;
      var inc, pinc, pnw := MoneyColumn(rs, Income), percap[Income], percap[NetWorth];
      incomePath, percapIncomePath, discPath := [inc], [pinc], [pinc];
      var meds := IncomeMedians(rs, ageCat);
      if meds.Failure? {
        return Some(meds.error), [];
      }
      var f := GrowthFactors(meds.value, g, exp, ln);
      var ip, pp, dp := ProjectPaths(rs, inc, pinc, endDate, f, exp, rf);
      incomePath, percapIncomePath, discPath := ip, pp, dp;
      var m := Years(endDate);
      var lt := seq(n, r requires 0 <= r < n => RowSum(dp, r, m));
      percapLTIncome := lt;
      lw := seq(n, r requires 0 <= r < n => lt[r] + pnw[r]);
      forall r | 0 <= r < n
        ensures lw[r] == LifetimeWealthOf(pinc[r], pnw[r], rs[r].age, endDate, f, exp, rf)
      {
        PathsSum(ip, pp, dp, rs, inc, pinc, endDate, f, exp, rf, r);
      }
      return None, lw;
    }

    /**
     * The cut loop of lifetime_wealth_qctiles: stores lw as
     * percap_LT_wealth, then for each count in nums cuts it at its own
     * quantiles over the whole table and within each age band from that
     * band's rows, always closing the first bin.
     */
    method AddLifetimeWealthCategories(lw: seq<real>, nums: seq<nat>) returns (err: Option<Error>)
      requires CategoryInputs() && |lw| == |rows| && Distinct(nums) && forall num :: num in nums ==> num > 0
      modifies this`percap, this`cats
      ensures percap == old(percap)[LTWealth := lw]
      ensures Stored(NumKeys(LTWealth, nums, false), LifetimeWealthCuts(lw, nums, old(rows), old(percap), old(ageCat)),
                     old(cats), cats, err)
    {
      var cs := LifetimeWealthCuts(lw, nums, rows, percap, ageCat);
      percap := percap[LTWealth := lw];
      NumKeysDistinct(LTWealth, nums, false);
      err := StoreCategories(NumKeys(LTWealth, nums, false), cs);
    }

    /**
     * lifetime_wealth_qctiles: lifetime_wealth, then the categories of its
     * column. The script's list of counts is QctileNums = [10, 5]; the
     * count its caller passes is overwritten by that loop and plays no part.
     */
    method LifetimeWealthQctiles(g: real, rf: real, endDate: int, exp: real -> real, ln: real -> real, nums: seq<nat>)
      returns (err: Option<Error>)
      requires LifetimeInputs() && Distinct(nums) && forall num :: num in nums ==> num > 0
      modifies this`incomePath, this`percapIncomePath, this`discPath, this`percapLTIncome, this`percap, this`cats
      ensures ProjectionWritten(incomePath, percapIncomePath, discPath, percapLTIncome, old(percapLTIncome),
                                old(rows), old(percap), old(ageCat), g, rf, endDate, exp, ln)
      ensures var lw := TableLifetimeWealth(old(rows), old(percap), old(ageCat), g, rf, endDate, exp, ln);
        && (lw.Failure? ==> err == Some(lw.error) && percap == old(percap) && cats == old(cats))
        && (lw.Success? ==> percap == old(percap)[LTWealth := lw.value])
      ensures var lw := TableLifetimeWealth(old(rows), old(percap), old(ageCat), g, rf, endDate, exp, ln);
        lw.Success? ==>
          Stored(NumKeys(LTWealth, nums, false), LifetimeWealthCuts(lw.value, nums, old(rows), old(percap), old(ageCat)),
                 old(cats), cats, err)
    {
      var e, lw := LifetimeWealth(g, rf, endDate, exp, ln);
      if e.Some? {
        return e;
      }
      err := AddLifetimeWealthCategories(lw, nums);
    }
  }
}
