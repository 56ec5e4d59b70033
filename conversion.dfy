/** The boundary to the conversion engine: what it reports for one cell, how
    SQLGetData and SQLFetch turn that report into a return code and an error
    number, and SQLFetch's walk over the bound columns of the current row. */
module Conversion {
  import opened OdbcCodes

  /** What copy_and_convert_field (and its bound-column variant) reports
      for one cell; CopyOther stands for any value outside the COPY_* set. */
  datatype CopyResult =
    | CopyOk
    | CopyUnsupportedType
    | CopyUnsupportedConversion
    | CopyResultTruncated
    | CopyGeneralError
    | CopyNoDataFound
    | CopyOther(code: int)

  /** How a call ends: its return code, and the error number it records
      (None: the statement's error number is left as it was). */
  datatype Outcome = Outcome(rc: RetCode, err: Option<ErrNo>)

  /** The engine could not handle the source type or the requested conversion. */
  predicate Restricted(c: CopyResult) {
    c == CopyUnsupportedType || c == CopyUnsupportedConversion
  }

  /** SQLGetData's switch on the conversion result. */
  function GetDataReturn(c: CopyResult): (o: Outcome)
    ensures o.rc == Success <==> c == CopyOk
    ensures o.rc == SuccessWithInfo <==> c == CopyResultTruncated
    ensures o.rc == NoDataFound <==> c == CopyNoDataFound
    ensures o.rc == Error <==> Restricted(c) || c == CopyGeneralError || c.CopyOther?
    ensures o.err == Some(RestrictedDataType) <==> Restricted(c)
    ensures o.err == Some(Truncated) <==> c == CopyResultTruncated
    ensures o.err == Some(InternalError) <==> c.CopyOther?
    ensures o.err.None? <==> c == CopyOk || c == CopyGeneralError || c == CopyNoDataFound
  {
    match c
    case CopyOk => Outcome(Success, None)
    case CopyUnsupportedType => Outcome(Error, Some(RestrictedDataType))
    case CopyUnsupportedConversion => Outcome(Error, Some(RestrictedDataType))
    case CopyResultTruncated => Outcome(SuccessWithInfo, Some(Truncated))
    case CopyGeneralError => Outcome(Error, None)
    case CopyNoDataFound => Outcome(NoDataFound, None)
    case CopyOther(_) => Outcome(Error, Some(InternalError))
  }

  /** SQLFetch's test of one bound column: None lets the loop go on to the
      next column, Some ends the whole fetch with that outcome. */
  function FetchColumnReturn(c: CopyResult): (o: Option<Outcome>)
    ensures o.None? <==> c == CopyOk
    ensures o.Some? ==> o.value.err.Some?
    ensures o == Some(Outcome(SuccessWithInfo, Some(Truncated))) <==> c == CopyResultTruncated
    ensures o.Some? && c != CopyResultTruncated ==> o.value.rc == Error
    ensures o.Some? && o.value.rc == Error ==>
              (o.value.err == Some(RestrictedDataType) <==> Restricted(c))
    ensures o.Some? && c != CopyResultTruncated && !Restricted(c) ==>
              o.value.err == Some(InternalError)
  {
    if Restricted(c) then Some(Outcome(Error, Some(RestrictedDataType)))
    else if c == CopyResultTruncated then Some(Outcome(SuccessWithInfo, Some(Truncated)))
    else if c != CopyOk then Some(Outcome(Error, Some(InternalError)))
    else None
  }

  /** The first column in [from, n) that has a binding and whose conversion
      does not report COPY_OK. */
  function FirstFailure(bound: seq<bool>, n: nat, convert: int -> CopyResult, from: nat): (r: Option<nat>)
    requires n <= |bound|
    decreases n - from
    ensures r.Some? ==> from <= r.value < n && bound[r.value] && convert(r.value) != CopyOk
    ensures r.Some? ==> forall k :: from <= k < r.value && bound[k] ==> convert(k) == CopyOk
    ensures r.None? ==> forall k :: from <= k < n && bound[k] ==> convert(k) == CopyOk
  {
    if from >= n then None
    else if bound[from] && convert(from) != CopyOk then Some(from)
    else FirstFailure(bound, n, convert, from + 1)
  }

  /** The outcome of SQLFetch's column loop over the first n columns: decided
      by the first bound column that does not convert cleanly. */
  function BoundColumnsOutcome(bound: seq<bool>, n: nat, convert: int -> CopyResult): (o: Outcome)
    requires n <= |bound|
    ensures o.rc == Success <==> forall k :: 0 <= k < n && bound[k] ==> convert(k) == CopyOk
    ensures o.rc == Success ==> o.err.None?
    ensures o.rc != Success ==> o.err.Some?
  {
    match FirstFailure(bound, n, convert, 0)
    case None => Outcome(Success, None)
    case Some(k) => FetchColumnReturn(convert(k)).value
  }

  /** SQLFetch's loop over the result columns: each bound column is converted
      in ascending order and the first one that is not COPY_OK ends the loop. */
  method ConvertBoundColumns(bound: seq<bool>, numCols: nat, convert: int -> CopyResult) returns (o: Outcome)
    requires numCols <= |bound|
    ensures o == BoundColumnsOutcome(bound, numCols, convert)
  {
    var lf := 0;
    while lf < numCols
      invariant lf <= numCols
      invariant FirstFailure(bound, numCols, convert, lf) == FirstFailure(bound, numCols, convert, 0)
    {
      if bound[lf] {
        var retval := convert(lf);
        if retval == CopyUnsupportedType {
          return Outcome(Error, Some(RestrictedDataType));
        } else if retval == CopyUnsupportedConversion {
          return Outcome(Error, Some(RestrictedDataType));
        } else if retval == CopyResultTruncated {
          return Outcome(SuccessWithInfo, Some(Truncated));
        } else if retval != CopyOk {
          return Outcome(Error, Some(InternalError));
        }
      }
      lf := lf + 1;
    }
    return Outcome(Success, None);
  }

  /** Only the columns up to and including the first failing bound column are
      looked at: whatever the later columns would convert to, the outcome is
      the same. In particular a truncation ends the loop. */
  lemma {:induction false} LaterColumnsIgnored(bound: seq<bool>, n: nat,
                                               convert: int -> CopyResult, convert': int -> CopyResult, k: nat)
    requires n <= |bound|
    requires FirstFailure(bound, n, convert, 0) == Some(k)
    requires forall i :: 0 <= i <= k ==> convert(i) == convert'(i)
    ensures BoundColumnsOutcome(bound, n, convert) == BoundColumnsOutcome(bound, n, convert')
  {
    FirstFailureAgrees(bound, n, convert, convert', k, 0);
  }

  lemma {:induction false} FirstFailureAgrees(bound: seq<bool>, n: nat,
                                              convert: int -> CopyResult, convert': int -> CopyResult, k: nat, from: nat)
    requires n <= |bound| && from <= k
    requires FirstFailure(bound, n, convert, from) == Some(k)
    requires forall i :: 0 <= i <= k ==> convert(i) == convert'(i)
    ensures FirstFailure(bound, n, convert', from) == Some(k)
    decreases k - from
  {
    if from < k {
      assert !(bound[from] && convert(from) != CopyOk);
      FirstFailureAgrees(bound, n, convert, convert', k, from + 1);
    }
  }

  /** GET_DATA and FETCH read COPY_GENERAL_ERROR differently: SQLGetData keeps
      the error number the engine set, SQLFetch reports an internal error. */
  lemma GeneralErrorReadsDifferently()
    ensures GetDataReturn(CopyGeneralError) == Outcome(Error, None)
    ensures FetchColumnReturn(CopyGeneralError) == Some(Outcome(Error, Some(InternalError)))
    ensures GetDataReturn(CopyNoDataFound).rc == NoDataFound
    ensures FetchColumnReturn(CopyNoDataFound) == Some(Outcome(Error, Some(InternalError)))
  {
  }

  /** Where both switches name the outcome, they agree. */
  lemma MappingsAgree(c: CopyResult)
    requires c != CopyOk && c != CopyGeneralError && c != CopyNoDataFound
    ensures FetchColumnReturn(c) == Some(GetDataReturn(c))
  {
  }
}
