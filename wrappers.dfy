/** Option and Result, and the failures the analysis pipeline can stop with. */
module Wrappers {

  datatype Option<+T> = None | Some(value: T)

  /** Why a step of the pipeline raised instead of producing a column or a table. */
  datatype Error =
    | EmptyInput        // a weighted quantile of no rows: the cumulative sum has no last element
    | NotMonotonic      // pd.cut: bin edges must increase monotonically
    | DuplicateEdges    // pd.cut: bin edges collapsed, so the fixed label list no longer fits
    | EmptyGroups       // back-fill of a row from no group averages (gb[0] does not exist)
    | LengthMismatch    // more group averages than columns in the row being filled
    | MissingKey        // a cross-tab cell looked up that no row produced

  datatype Result<+T> = Success(value: T) | Failure(error: Error) {
    predicate IsFailure() { Failure? }

    function PropagateFailure<U>(): Result<U>
      requires Failure?
    {
      Failure(error)
    }

    function Extract(): T
      requires Success?
    {
      value
    }
  }
}
