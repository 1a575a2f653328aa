/**
 * Column arithmetic shared by every stage: sums of real columns, row
 * selection by a boolean mask (pandas' df[mask]), minimum and maximum, and
 * the two orderings a sequence of cutpoints can have.
 */
module Columns {

  /** A product of two non-negative reals is non-negative (the nonlinear step Z3 needs spelt out). */
  lemma MulNonNegative(a: real, b: real)
    requires a >= 0.0 && b >= 0.0
    ensures a * b >= 0.0
  {
  }

  /** Sum of a column, left to right (pandas' .sum(), numpy's np.sum). */
  function Sum(s: seq<real>): real
  {
    if s == [] then 0.0 else Sum(s[..|s| - 1]) + s[|s| - 1]
  }

  lemma {:induction false} SumAppend(a: seq<real>, b: seq<real>)
    ensures Sum(a + b) == Sum(a) + Sum(b)
    decreases |b|
  {
    if b == [] {
      assert a + b == a;
    } else {
      var b' := b[..|b| - 1];
      assert (a + b)[..|a + b| - 1] == a + b';
      SumAppend(a, b');
    }
  }

  lemma {:induction false} SumNonNegative(s: seq<real>)
    requires forall i :: 0 <= i < |s| ==> s[i] >= 0.0
    ensures Sum(s) >= 0.0
  {
    if s != [] {
      SumNonNegative(s[..|s| - 1]);
    }
  }

  lemma {:induction false} SumPositive(s: seq<real>)
    requires |s| > 0
    requires forall i :: 0 <= i < |s| ==> s[i] > 0.0
    ensures Sum(s) > 0.0
  {
    SumNonNegative(s[..|s| - 1]);
  }

  /** Pointwise smaller columns have a smaller sum. */
  lemma {:induction false} SumMonotone(a: seq<real>, b: seq<real>)
    requires |a| == |b|
    requires forall i :: 0 <= i < |a| ==> a[i] <= b[i]
    ensures Sum(a) <= Sum(b)
  {
    if a != [] {
      SumMonotone(a[..|a| - 1], b[..|b| - 1]);
    }
  }

  /** A column multiplied by a scalar. */
  function Scale(c: real, xs: seq<real>): (ys: seq<real>)
    ensures |ys| == |xs|
  {
    seq(|xs|, i requires 0 <= i < |xs| => c * xs[i])
  }

  /** Scaling every entry scales the sum. */
  lemma {:induction false} SumScale(a: seq<real>, b: seq<real>, c: real)
    requires |a| == |b|
    requires forall i :: 0 <= i < |a| ==> b[i] == c * a[i]
    ensures Sum(b) == c * Sum(a)
  {
    if a != [] {
      SumScale(a[..|a| - 1], b[..|b| - 1], c);
    }
  }

  /** A column of n copies of c sums to n * c. */
  lemma {:induction false} SumConstant(s: seq<real>, c: real)
    requires forall i :: 0 <= i < |s| ==> s[i] == c
    ensures Sum(s) == |s| as real * c
  {
    if s != [] {
      SumConstant(s[..|s| - 1], c);
    }
  }

  /** Entrywise sum of two columns. */
  lemma {:induction false} SumAdd(a: seq<real>, b: seq<real>, c: seq<real>)
    requires |a| == |b| == |c|
    requires forall i :: 0 <= i < |a| ==> c[i] == a[i] + b[i]
    ensures Sum(c) == Sum(a) + Sum(b)
  {
    if a != [] {
      SumAdd(a[..|a| - 1], b[..|b| - 1], c[..|c| - 1]);
    }
  }

  /** Rows whose mask entry is true, in their original order (df[mask]). */
  function Select<T>(xs: seq<T>, keep: seq<bool>): (r: seq<T>)
    requires |keep| == |xs|
    ensures |r| <= |xs|
    ensures forall i :: 0 <= i < |r| ==> r[i] in xs
  {
    if xs == [] then []
    else
      var rest := Select(xs[..|xs| - 1], keep[..|keep| - 1]);
      if keep[|keep| - 1] then rest + [xs[|xs| - 1]] else rest
  }

  /** Selection only looks at the kept rows: rows outside the mask may hold anything. */
  lemma {:induction false} SelectOnlyKept<T>(xs: seq<T>, ys: seq<T>, keep: seq<bool>)
    requires |xs| == |ys| == |keep|
    requires forall i :: 0 <= i < |xs| && keep[i] ==> xs[i] == ys[i]
    ensures Select(xs, keep) == Select(ys, keep)
  {
    if xs != [] {
      SelectOnlyKept(xs[..|xs| - 1], ys[..|ys| - 1], keep[..|keep| - 1]);
    }
  }

  /** A kept row shows up in the selection. */
  lemma {:induction false} SelectKeeps<T>(xs: seq<T>, keep: seq<bool>, i: nat)
    requires |keep| == |xs| && i < |xs| && keep[i]
    ensures xs[i] in Select(xs, keep)
  {
    var n := |xs| - 1;
    if i < n {
      SelectKeeps(xs[..n], keep[..n], i);
    }
  }

  /** How many rows the mask keeps. */
  function CountTrue(keep: seq<bool>): nat
  {
    if keep == [] then 0 else CountTrue(keep[..|keep| - 1]) + (if keep[|keep| - 1] then 1 else 0)
  }

  lemma {:induction false} SelectLength<T>(xs: seq<T>, keep: seq<bool>)
    requires |keep| == |xs|
    ensures |Select(xs, keep)| == CountTrue(keep)
  {
    if xs != [] {
      SelectLength(xs[..|xs| - 1], keep[..|keep| - 1]);
    }
  }

  function SeqMin(s: seq<real>): real
    requires |s| > 0
  {
    if |s| == 1 then s[0]
    else
      var m := SeqMin(s[1..]);
      if s[0] <= m then s[0] else m
  }

  function SeqMax(s: seq<real>): real
    requires |s| > 0
  {
    if |s| == 1 then s[0]
    else
      var m := SeqMax(s[1..]);
      if s[0] >= m then s[0] else m
  }

  lemma {:induction false} SeqMinIsLeast(s: seq<real>)
    requires |s| > 0
    ensures SeqMin(s) in s
    ensures forall i :: 0 <= i < |s| ==> SeqMin(s) <= s[i]
  {
    if |s| > 1 {
      SeqMinIsLeast(s[1..]);
      assert forall i :: 1 <= i < |s| ==> s[i] == s[1..][i - 1];
    }
  }

  lemma {:induction false} SeqMaxIsGreatest(s: seq<real>)
    requires |s| > 0
    ensures SeqMax(s) in s
    ensures forall i :: 0 <= i < |s| ==> s[i] <= SeqMax(s)
  {
    if |s| > 1 {
      SeqMaxIsGreatest(s[1..]);
      assert forall i :: 1 <= i < |s| ==> s[i] == s[1..][i - 1];
    }
  }

  /** An element of s that is no larger than any other is SeqMin(s). */
  lemma LeastIsSeqMin(s: seq<real>, m: real)
    requires m in s && forall i :: 0 <= i < |s| ==> m <= s[i]
    ensures SeqMin(s) == m
  {
    SeqMinIsLeast(s);
  }

  /** An element of s that is no smaller than any other is SeqMax(s). */
  lemma GreatestIsSeqMax(s: seq<real>, m: real)
    requires m in s && forall i :: 0 <= i < |s| ==> s[i] <= m
    ensures SeqMax(s) == m
  {
    SeqMaxIsGreatest(s);
  }

  predicate NonDecreasing(xs: seq<real>)
  {
    forall i, j :: 0 <= i < j < |xs| ==> xs[i] <= xs[j]
  }

  predicate StrictlyIncreasing(xs: seq<real>)
  {
    forall i, j :: 0 <= i < j < |xs| ==> xs[i] < xs[j]
  }

  /** Every entry equals the first. */
  predicate Constant(xs: seq<real>)
  {
    forall j :: 0 <= j < |xs| ==> xs[j] == xs[0]
  }
}
