/**
 * One record of the joined survey table and the values scf_data_clean.py
 * derives from it row by row: the loan split by whose education it paid
 * for, deflation to 2019 dollars, per-capita scaling, and capped
 * cancellation.
 */
module Household {
  import opened Columns

  /** Loans described per household (whom_list / bal_list have six entries each). */
  const NumLoans: nat := 6

  /** The 2022-to-2019 dollar factor the summary file's money columns are divided by. */
  const AssetAdj: real := 1.1592

  /**
   * The columns of the joined table the pipeline reads. `whom` holds the
   * six "for whose education" codes (x7978, x7883, ...), `bal` the six
   * balances still owed (x7824, x7847, ...).
   */
  datatype Household = Household(
    age: int,
    married: int,
    wgt: real,
    income: real,
    networth: real,
    asset: real,
    wageinc: real,
    whom: seq<int>,
    bal: seq<real>)

  predicate WellFormed(h: Household)
  {
    |h.whom| == NumLoans && |h.bal| == NumLoans
  }

  /** Self (code 1), spouse (code 2), and parent, which absorbs child (3) and grandchild (4). */
  datatype LoanKind = SelfLoan | SpouseLoan | ParentLoan

  /** A boolean column used as a number (True = 1, False = 0). */
  function Indicator(b: bool): real
  {
    if b then 1.0 else 0.0
  }

  /** The test each loan column applies to the whom-code: == 1, == 2, isin([3, 4]). */
  predicate Matches(kind: LoanKind, code: int)
  {
    match kind
    case SelfLoan => code == 1
    case SpouseLoan => code == 2
    case ParentLoan => code in {3, 4}
  }

  /** A whom-code matches at most one kind, and some kind exactly when it is 1, 2, 3 or 4. */
  lemma CodeMatchesOneKind(code: int)
    ensures !(Matches(SelfLoan, code) && Matches(SpouseLoan, code))
    ensures !(Matches(SelfLoan, code) && Matches(ParentLoan, code))
    ensures !(Matches(SpouseLoan, code) && Matches(ParentLoan, code))
    ensures (Matches(SelfLoan, code) || Matches(SpouseLoan, code) || Matches(ParentLoan, code))
      <==> code in {1, 2, 3, 4}
  {
  }

  /** self_loan{i+1}, spouse_loan{i+1}, parent_loan{i+1}: the balance times the code test. */
  function LoanPart(h: Household, i: nat, kind: LoanKind): (p: real)
    requires WellFormed(h) && i < NumLoans
    ensures Matches(kind, h.whom[i]) ==> p == h.bal[i]
    ensures !Matches(kind, h.whom[i]) ==> p == 0.0
  {
    h.bal[i] * Indicator(Matches(kind, h.whom[i]))
  }

  /** The first k loans of one kind, as the loop over the six loans accumulates them. */
  function KindPrefix(h: Household, kind: LoanKind, k: nat): real
    requires WellFormed(h) && k <= NumLoans
  {
    Sum(seq(k, i requires 0 <= i < k => LoanPart(h, i, kind)))
  }

  /** One more loan column added to the running row sum. */
  lemma KindPrefixStep(h: Household, kind: LoanKind, k: nat)
    requires WellFormed(h) && k < NumLoans
    ensures KindPrefix(h, kind, k + 1) == KindPrefix(h, kind, k) + LoanPart(h, k, kind)
  {
    var f := seq(k + 1, i requires 0 <= i < k + 1 => LoanPart(h, i, kind));
    assert f[..k] == seq(k, i requires 0 <= i < k => LoanPart(h, i, kind));
  }

  /** self_loans, spouse_loans, parent_loans: a row sum over the six loan columns. */
  function KindTotal(h: Household, kind: LoanKind): (t: real)
    requires WellFormed(h)
    ensures (forall i :: 0 <= i < NumLoans ==> !Matches(kind, h.whom[i])) ==> t == 0.0
  {
    var parts := seq(NumLoans, i requires 0 <= i < NumLoans => LoanPart(h, i, kind));
    assert (forall i :: 0 <= i < NumLoans ==> !Matches(kind, h.whom[i])) ==> Sum(parts) == 0.0 by {
      if forall i :: 0 <= i < NumLoans ==> !Matches(kind, h.whom[i]) {
        SumConstant(parts, 0.0);
      }
    }
    KindPrefix(h, kind, NumLoans)
  }

  /** all_loans = self_loans + spouse_loans + parent_loans. */
  function AllLoans(h: Household): (a: real)
    requires WellFormed(h)
    ensures (forall i :: 0 <= i < NumLoans ==> h.bal[i] >= 0.0) ==>
      && 0.0 <= KindTotal(h, SelfLoan) <= a
      && 0.0 <= KindTotal(h, SpouseLoan) <= a
      && 0.0 <= KindTotal(h, ParentLoan) <= a
  {
    assert (forall i :: 0 <= i < NumLoans ==> h.bal[i] >= 0.0) ==>
      KindTotal(h, SelfLoan) >= 0.0 && KindTotal(h, SpouseLoan) >= 0.0 && KindTotal(h, ParentLoan) >= 0.0 by {
      if forall i :: 0 <= i < NumLoans ==> h.bal[i] >= 0.0 {
        KindTotalNonNegative(h, SelfLoan);
        KindTotalNonNegative(h, SpouseLoan);
        KindTotalNonNegative(h, ParentLoan);
      }
    }
    KindTotal(h, SelfLoan) + KindTotal(h, SpouseLoan) + KindTotal(h, ParentLoan)
  }

  /** Independent reading of all_loans: every balance whose code is 1, 2, 3 or 4, once. */
  function StudentBalance(h: Household): (b: real)
    requires WellFormed(h)
    ensures (forall i :: 0 <= i < NumLoans ==> h.bal[i] >= 0.0) ==> b >= 0.0
  {
    var owed := seq(NumLoans, i requires 0 <= i < NumLoans => if h.whom[i] in {1, 2, 3, 4} then h.bal[i] else 0.0);
    assert (forall i :: 0 <= i < NumLoans ==> h.bal[i] >= 0.0) ==> Sum(owed) >= 0.0 by {
      if forall i :: 0 <= i < NumLoans ==> h.bal[i] >= 0.0 {
        SumNonNegative(owed);
      }
    }
    Sum(owed)
  }

  /** No loan is counted twice or dropped: all_loans is the sum of the balances with codes 1-4. */
  lemma AllLoansIsStudentBalance(h: Household)
    requires WellFormed(h)
    ensures AllLoans(h) == StudentBalance(h)
  {
    var s := seq(NumLoans, i requires 0 <= i < NumLoans => LoanPart(h, i, SelfLoan));
    var p := seq(NumLoans, i requires 0 <= i < NumLoans => LoanPart(h, i, SpouseLoan));
    var q := seq(NumLoans, i requires 0 <= i < NumLoans => LoanPart(h, i, ParentLoan));
    var sp := seq(NumLoans, i requires 0 <= i < NumLoans => s[i] + p[i]);
    var all := seq(NumLoans, i requires 0 <= i < NumLoans => if h.whom[i] in {1, 2, 3, 4} then h.bal[i] else 0.0);
    SumAdd(s, p, sp);
    forall i | 0 <= i < NumLoans
      ensures all[i] == sp[i] + q[i]
    {
      CodeMatchesOneKind(h.whom[i]);
    }
    SumAdd(sp, q, all);
  }

  /** With non-negative balances every loan total is non-negative. */
  lemma KindTotalNonNegative(h: Household, kind: LoanKind)
    requires WellFormed(h)
    requires forall i :: 0 <= i < NumLoans ==> h.bal[i] >= 0.0
    ensures KindTotal(h, kind) >= 0.0
  {
    SumNonNegative(seq(NumLoans, i requires 0 <= i < NumLoans => LoanPart(h, i, kind)));
  }

  /** income, networth, asset and wageinc divided by 1.1592; every other column, the loans included, as read. */
  function Deflated(h: Household): (d: Household)
    ensures d.income * AssetAdj == h.income && d.networth * AssetAdj == h.networth
    ensures d.asset * AssetAdj == h.asset && d.wageinc * AssetAdj == h.wageinc
    ensures d.age == h.age && d.married == h.married && d.wgt == h.wgt
    ensures d.whom == h.whom && d.bal == h.bal
  {
    h.(income := h.income / AssetAdj, networth := h.networth / AssetAdj,
       asset := h.asset / AssetAdj, wageinc := h.wageinc / AssetAdj)
  }

  /** Deflation keeps the sign of every money column. */
  lemma DeflateKeepsSign(x: real)
    ensures x >= 0.0 <==> x / AssetAdj >= 0.0
    ensures x > 0.0 <==> x / AssetAdj > 0.0
  {
  }

  /** percap_{var} = (1 - (married == 1) / 2) * var: half for a married household. */
  function PerCapita(married: int, x: real): (y: real)
    ensures married == 1 ==> 2.0 * y == x
    ensures married != 1 ==> y == x
  {
    (1.0 - Indicator(married == 1) / 2.0) * x
  }

  lemma PerCapitaMonotone(married: int, x: real, y: real)
    requires x <= y
    ensures PerCapita(married, x) <= PerCapita(married, y)
  {
  }

  lemma PerCapitaAdd(married: int, x: real, y: real)
    ensures PerCapita(married, x + y) == PerCapita(married, x) + PerCapita(married, y)
  {
  }

  function Min(a: real, b: real): (m: real)
    ensures m <= a && m <= b && (m == a || m == b)
  {
    if a <= b then a else b
  }

  /** self_cancel{c}: up to c of the borrower's own and parent loans together. */
  function SelfCancel(c: real, selfLoans: real, parentLoans: real): (sc: real)
    ensures sc <= c && sc <= selfLoans + parentLoans
    ensures sc == c || sc == selfLoans + parentLoans
  {
    Min(c, selfLoans + parentLoans)
  }

  /** spouse_cancel{c}: up to c of the spouse's loans. */
  function SpouseCancel(c: real, spouseLoans: real): (pc: real)
    ensures pc <= c && pc <= spouseLoans
    ensures pc == c || pc == spouseLoans
  {
    Min(c, spouseLoans)
  }

  /** percap_cancel{c}: the household's cancellation, per capita. */
  function PercapCancel(c: real, married: int, selfLoans: real, spouseLoans: real, parentLoans: real): (pc: real)
    ensures pc <= PerCapita(married, 2.0 * c)
  {
    PerCapitaMonotone(married, SelfCancel(c, selfLoans, parentLoans) + SpouseCancel(c, spouseLoans), 2.0 * c);
    PerCapita(married, SelfCancel(c, selfLoans, parentLoans) + SpouseCancel(c, spouseLoans))
  }

  /** No household has more forgiven than it owes, and nothing negative is forgiven. */
  lemma CancelBounds(c: real, married: int, selfLoans: real, spouseLoans: real, parentLoans: real)
    requires c >= 0.0 && selfLoans >= 0.0 && spouseLoans >= 0.0 && parentLoans >= 0.0
    ensures 0.0 <= PercapCancel(c, married, selfLoans, spouseLoans, parentLoans)
    ensures PercapCancel(c, married, selfLoans, spouseLoans, parentLoans)
      <= PerCapita(married, selfLoans + spouseLoans + parentLoans)
  {
    var sc := SelfCancel(c, selfLoans, parentLoans);
    var pc := SpouseCancel(c, spouseLoans);
    PerCapitaMonotone(married, 0.0, sc + pc);
    PerCapitaMonotone(married, sc + pc, selfLoans + spouseLoans + parentLoans);
  }

  /** A larger cap forgives at least as much. */
  lemma CancelMonotone(c1: real, c2: real, married: int, selfLoans: real, spouseLoans: real, parentLoans: real)
    requires c1 <= c2
    ensures PercapCancel(c1, married, selfLoans, spouseLoans, parentLoans)
      <= PercapCancel(c2, married, selfLoans, spouseLoans, parentLoans)
  {
    PerCapitaMonotone(married,
      SelfCancel(c1, selfLoans, parentLoans) + SpouseCancel(c1, spouseLoans),
      SelfCancel(c2, selfLoans, parentLoans) + SpouseCancel(c2, spouseLoans));
  }

  /** When both parts are under the cap, everything is forgiven: percap_cancel = percap_all_loans. */
  lemma CancelFull(c: real, married: int, selfLoans: real, spouseLoans: real, parentLoans: real)
    requires selfLoans + parentLoans <= c && spouseLoans <= c
    ensures PercapCancel(c, married, selfLoans, spouseLoans, parentLoans)
      == PerCapita(married, selfLoans + spouseLoans + parentLoans)
  {
    assert SelfCancel(c, selfLoans, parentLoans) + SpouseCancel(c, spouseLoans)
      == selfLoans + spouseLoans + parentLoans;
  }
}
