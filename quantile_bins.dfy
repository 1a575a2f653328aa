/**
 * Quantile categories: the column is cut at its own num+1 weighted
 * quantiles (deciles for num = 10, quintiles for num = 5), either over the
 * whole table or within one age band using only that band's rows.
 */
module QuantileBins {
  import opened Wrappers
  import opened Columns
  import opened WeightedQuantile
  import opened Binning

  /** The rows of one age band: data['age_cat'] == band. */
  function InBand(ageCat: seq<Option<nat>>, band: nat): (mask: seq<bool>)
    ensures |mask| == |ageCat|
    ensures forall r :: 0 <= r < |ageCat| ==> (mask[r] <==> ageCat[r] == Some(band))
  {
    seq(|ageCat|, r requires 0 <= r < |ageCat| => ageCat[r] == Some(band))
  }

  /** Selecting rows keeps weights positive. */
  lemma SelectWeighted(xs: seq<real>, wgt: seq<real>, mask: seq<bool>)
    requires WeightedColumn(xs, wgt) && |mask| == |xs|
    ensures WeightedColumn(Select(xs, mask), Select(wgt, mask))
  {
    SelectLength(xs, mask);
    SelectLength(wgt, mask);
  }

  /**
   * var_cat{num}: pd.cut of the column at its own cutpoints, labels
   * range(num). An empty column has no quantiles; cutpoints that repeat are
   * refused by pd.cut.
   */
  function GlobalCats(xs: seq<real>, wgt: seq<real>, num: nat, includeLowest: bool): (r: Result<seq<Option<nat>>>)
    requires WeightedColumn(xs, wgt) && num > 0
    ensures r.Success? ==> |r.value| == |xs|
    ensures xs == [] ==> r == Failure(EmptyInput)
  {
    var cps :- Cutpoints(xs, wgt, num);
    Cut(xs, cps, includeLowest, false)
  }

  /** The band's own cutpoints: quantiles of data_temp[var] weighted by data_temp['wgt']. */
  function BandCutpoints(xs: seq<real>, wgt: seq<real>, ageCat: seq<Option<nat>>, band: nat, num: nat)
    : (r: Result<seq<real>>)
    requires WeightedColumn(xs, wgt) && |ageCat| == |xs| && num > 0
    ensures r.Success? <==> Select(xs, InBand(ageCat, band)) != []
    ensures r.Success? ==> |r.value| == num + 1 && NonDecreasing(r.value)
    ensures r.Success? ==> r.value[0] == SeqMin(Select(xs, InBand(ageCat, band)))
    ensures r.Success? ==> r.value[num] == SeqMax(Select(xs, InBand(ageCat, band)))
  {
    var mask := InBand(ageCat, band);
    SelectWeighted(xs, wgt, mask);
    Cutpoints(Select(xs, mask), Select(wgt, mask), num)
  }

  /** Labels of the band's rows against its cutpoints; other rows stay NaN. */
  function LabelBand(xs: seq<real>, ageCat: seq<Option<nat>>, band: nat, cps: seq<real>, includeLowest: bool)
    : (r: seq<Option<nat>>)
    requires |ageCat| == |xs|
    ensures |r| == |xs|
    ensures forall i :: 0 <= i < |xs| ==>
      r[i] == if ageCat[i] == Some(band) then BinOf(xs[i], cps, includeLowest, false) else None
  {
    seq(|xs|, i requires 0 <= i < |xs| => if ageCat[i] == Some(band) then BinOf(xs[i], cps, includeLowest, false) else None)
  }

  /**
   * var_cat{num}{band}: the cutpoints come from the band's rows alone, and
   * rows of other bands get no label (the cut of the band's sub-frame is
   * aligned back onto the whole table).
   */
  function BandCats(xs: seq<real>, wgt: seq<real>, ageCat: seq<Option<nat>>, band: nat, num: nat, includeLowest: bool)
    : (r: Result<seq<Option<nat>>>)
    requires WeightedColumn(xs, wgt) && |ageCat| == |xs| && num > 0
    ensures r.Success? ==> |r.value| == |xs|
    ensures r.Success? ==> forall i :: 0 <= i < |xs| && ageCat[i] != Some(band) ==> r.value[i] == None
  {
    var cps :- BandCutpoints(xs, wgt, ageCat, band, num);
    if !AcceptedEdges(cps, false) then Failure(DuplicateEdges)
    else Success(LabelBand(xs, ageCat, band, cps, includeLowest))
  }

  /** Bins come back only for values between the first and last cutpoint, and below num. */
  lemma BinWithinCutpoints(x: real, cps: seq<real>, includeLowest: bool, num: nat)
    requires |cps| == num + 1 && num > 0 && AcceptedEdges(cps, false)
    ensures BinOf(x, cps, includeLowest, false).Some? <==>
      cps[0] <= x <= cps[num] && (includeLowest || x != cps[0])
    ensures BinOf(x, cps, includeLowest, false).Some? ==> BinOf(x, cps, includeLowest, false).value < num
  {
    if StrictlyIncreasing(cps) {
      BinOfClosedMissing(x, cps, includeLowest);
      if BinOf(x, cps, includeLowest, false).Some? {
        BinOfClosed(x, cps, includeLowest, BinOf(x, cps, includeLowest, false).value);
      }
    } else {
      assert num == 1 && cps[0] == cps[1];
      var i := SearchSortedLeft(x, cps);
    }
  }

  /**
   * With include_lowest every row of the table gets one of the num labels:
   * the cutpoints run from the column's minimum to its maximum.
   */
  lemma GlobalCatsCoverRows(xs: seq<real>, wgt: seq<real>, num: nat)
    requires WeightedColumn(xs, wgt) && num > 0
    requires GlobalCats(xs, wgt, num, true).Success?
    ensures forall i :: 0 <= i < |xs| ==>
      GlobalCats(xs, wgt, num, true).value[i].Some? && GlobalCats(xs, wgt, num, true).value[i].value < num
  {
    var cps := Cutpoints(xs, wgt, num).value;
    SeqMinIsLeast(xs);
    SeqMaxIsGreatest(xs);
    forall i | 0 <= i < |xs|
      ensures BinOf(xs[i], cps, true, false).Some? && BinOf(xs[i], cps, true, false).value < num
    {
      BinWithinCutpoints(xs[i], cps, true, num);
    }
  }

  /** The global cut fails exactly when the column is empty or its cutpoints repeat. */
  lemma GlobalCatsFails(xs: seq<real>, wgt: seq<real>, num: nat, includeLowest: bool)
    requires WeightedColumn(xs, wgt) && num > 0
    ensures GlobalCats(xs, wgt, num, includeLowest).Failure? <==>
      xs == [] || !AcceptedEdges(Cutpoints(xs, wgt, num).value, false)
  {
  }

  /**
   * Band cutpoints use only that band's rows: values and weights of the
   * other rows can be anything without changing the band's categories.
   */
  lemma BandCatsUseBandRowsOnly(xs: seq<real>, ys: seq<real>, wx: seq<real>, wy: seq<real>,
                                ageCat: seq<Option<nat>>, band: nat, num: nat, includeLowest: bool)
    requires WeightedColumn(xs, wx) && WeightedColumn(ys, wy) && |ageCat| == |xs| == |ys| && num > 0
    requires forall i :: 0 <= i < |xs| && ageCat[i] == Some(band) ==> xs[i] == ys[i] && wx[i] == wy[i]
    ensures BandCats(xs, wx, ageCat, band, num, includeLowest) == BandCats(ys, wy, ageCat, band, num, includeLowest)
  {
    var mask := InBand(ageCat, band);
    SelectOnlyKept(xs, ys, mask);
    SelectOnlyKept(wx, wy, mask);
    assert BandCutpoints(xs, wx, ageCat, band, num) == BandCutpoints(ys, wy, ageCat, band, num);
    var cx := BandCutpoints(xs, wx, ageCat, band, num);
    if cx.Success? {
      assert LabelBand(xs, ageCat, band, cx.value, includeLowest) == LabelBand(ys, ageCat, band, cx.value, includeLowest);
    }
  }

  /**
   * With include_lowest every row of the band gets a label below num; the
   * rows of a band form a column of their own.
   */
  lemma BandCatsCoverBand(xs: seq<real>, wgt: seq<real>, ageCat: seq<Option<nat>>, band: nat, num: nat, i: nat)
    requires WeightedColumn(xs, wgt) && |ageCat| == |xs| && num > 0
    requires BandCats(xs, wgt, ageCat, band, num, true).Success?
    requires i < |xs| && ageCat[i] == Some(band)
    ensures BandCats(xs, wgt, ageCat, band, num, true).value[i].Some?
    ensures BandCats(xs, wgt, ageCat, band, num, true).value[i].value < num
  {
    var mask := InBand(ageCat, band);
    var sel := Select(xs, mask);
    var cps := BandCutpoints(xs, wgt, ageCat, band, num).value;
    SelectKeeps(xs, mask, i);
    SeqMinIsLeast(sel);
    SeqMaxIsGreatest(sel);
    assert cps[0] <= xs[i] <= cps[num];
    BinWithinCutpoints(xs[i], cps, true, num);
  }

  /**
   * Without include_lowest (the per-capita band cut) the row holding the
   * band's smallest value sits on the first cutpoint and is left unassigned.
   */
  lemma BandMinimumUnassigned(xs: seq<real>, wgt: seq<real>, ageCat: seq<Option<nat>>, band: nat, num: nat, i: nat)
    requires WeightedColumn(xs, wgt) && |ageCat| == |xs| && num > 0
    requires BandCats(xs, wgt, ageCat, band, num, false).Success?
    requires i < |xs| && ageCat[i] == Some(band)
    requires forall j :: 0 <= j < |xs| && ageCat[j] == Some(band) ==> xs[i] <= xs[j]
    ensures BandCats(xs, wgt, ageCat, band, num, false).value[i] == None
  {
    var mask := InBand(ageCat, band);
    var sel := Select(xs, mask);
    SelectKeeps(xs, mask, i);
    forall k | 0 <= k < |sel|
      ensures xs[i] <= sel[k]
    {
      assert sel[k] in Select(xs, mask);
      SelectedRow(xs, mask, sel[k]);
    }
    LeastIsSeqMin(sel, xs[i]);
  }

  /** Every selected value comes from a kept row. */
  lemma {:induction false} SelectedRow(xs: seq<real>, mask: seq<bool>, v: real)
    requires |mask| == |xs| && v in Select(xs, mask)
    ensures exists j :: 0 <= j < |xs| && mask[j] && xs[j] == v
  {
    var n := |xs| - 1;
    if v in Select(xs[..n], mask[..n]) {
      SelectedRow(xs[..n], mask[..n], v);
      var j :| 0 <= j < n && mask[..n][j] && xs[..n][j] == v;
      assert mask[j] && xs[j] == v;
    } else {
      assert mask[n] && xs[n] == v;
    }
  }

  /**
   * The categorical column pd.cut gives xs at its own num+1 quantiles:
   * over the whole table when band is None, else within that age band.
   */
  function Categories(xs: seq<real>, wgt: seq<real>, ageCat: seq<Option<nat>>, num: nat, band: Option<nat>, includeLowest: bool)
    : (r: Result<seq<Option<nat>>>)
    requires WeightedColumn(xs, wgt) && |ageCat| == |xs| && num > 0
    ensures r.Success? ==> |r.value| == |xs|
  {
    match band
    case None => GlobalCats(xs, wgt, num, includeLowest)
    case Some(b) => BandCats(xs, wgt, ageCat, b, num, includeLowest)
  }
}
