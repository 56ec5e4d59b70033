/** The statement handle as the result functions see it, with one method per
    ODBC entry point. Each method updates the handle's fields in place and is
    proved to agree with the specification functions of FetchEngine,
    Metadata, RowCount and CursorNames. */
module Results {
  import opened OdbcCodes
  import opened Conversion
  import opened Metadata
  import opened RowCount
  import opened CursorNames
  import FetchEngine

  class Statement {
    var status: Status
    /** The statement has a result (stmt->result is not null). */
    var hasResult: bool
    /** The statement is a SELECT (statement_type == STMT_TYPE_SELECT). */
    var isSelect: bool
    /** The result was built by the driver rather than read from the backend. */
    var manualResult: bool
    /** Rows of the result the driver holds (QR_get_num_tuples). */
    var numTuples: int
    /** The backend has no more rows for a declared cursor (QR_end_tuples). */
    var endTuples: bool
    /** The result's column info; its length is QR_NumResultCols. */
    var fields: seq<Field>
    /** The result's command-completion tag (QR_get_command). */
    var commandTag: string
    var currTuple: int
    var maxRows: int
    /** The 0-based column SQLGetData read last, -1 for none. */
    var currentCol: int
    /** None: bindings were never allocated; entry k: column k has a buffer. */
    var bindings: Option<seq<bool>>
    /** The cursor name; empty when none was set. */
    var cursorName: string
    var errNo: ErrNo

    /** The size in bytes of the cursor name slot, terminator included. */
    const cursorNameSize: nat
    /** globals.use_declarefetch. */
    const declareFetch: bool
    /** globals.unknown_sizes. */
    const unknownSizes: UnknownSizes

    /** The fields the cursor operations read and write, as one value. */
    function View(): FetchEngine.Cursor
      reads this
    {
      FetchEngine.Cursor(status, hasResult, manualResult, declareFetch, numTuples, endTuples,
                         |fields|, currTuple, maxRows, currentCol, bindings, errNo)
    }

    /** The cursor name fits its slot with a terminator, and the bindings
        cover every column. */
    ghost predicate Valid()
      reads this
    {
      cursorNameSize >= 1 && |cursorName| < cursorNameSize && View().WellFormed()
    }

    /** A freshly allocated statement: no result, no cursor name, no error. */
    constructor (nameSize: nat, useDeclareFetch: bool, sizes: UnknownSizes)
      requires nameSize >= 1
      ensures Valid()
      ensures status == Allocated && !hasResult && bindings.None?
      ensures cursorName == [] && errNo == NoError && currTuple == -1 && currentCol == -1
      ensures cursorNameSize == nameSize && declareFetch == useDeclareFetch && unknownSizes == sizes
    {
      status := Allocated;
      hasResult := false;
      isSelect := false;
      manualResult := false;
      numTuples := 0;
      endTuples := false;
      fields := [];
      commandTag := [];
      currTuple := -1;
      maxRows := 0;
      currentCol := -1;
      bindings := None;
      cursorName := [];
      errNo := NoError;
      cursorNameSize := nameSize;
      declareFetch := useDeclareFetch;
      unknownSizes := sizes;
    }

    /** SQLRowCount. For a SELECT: the number of rows (0 under declare-fetch)
        once the statement is finished. Otherwise: the count read from the
        command tag, which is trimmed in place on the way. The error number is
        never set. */
    method RowCount() returns (rc: RetCode, count: Option<int>)
      requires Valid()
      modifies this`commandTag
      ensures Valid()
      ensures rc == Success <==> count.Some?
      ensures rc != Success ==> rc == Error
      ensures isSelect ==> (rc == Success <==> status == Finished && hasResult)
      ensures isSelect && rc == Success ==> count == Some(if declareFetch then 0 else numTuples)
      ensures !isSelect ==> (rc == Success <==> hasResult)
      ensures !isSelect && hasResult ==>
                count == Some(TagRowCount(old(commandTag))) && commandTag == TrimTrailing(old(commandTag))
      ensures !(!isSelect && hasResult) ==> commandTag == old(commandTag)
    {
      if isSelect {
        if status == Finished && hasResult {
          return Success, Some(if declareFetch then 0 else numTuples);
        }
      } else if hasResult {
        commandTag := TrimTrailing(commandTag);
        var ptr := LastIndexOf(commandTag, ' ');
        if ptr.Some? {
          count := Some(Atoi(commandTag[ptr.value + 1..]));
        } else {
          count := Some(-1);
        }
        return Success, count;
      }
      return Error, None;
    }

    /** SQLNumResultCols: clears the error, then reports the column count of
        a finished or prematurely ended result. */
    method NumResultCols() returns (rc: RetCode, count: Option<nat>)
      requires Valid()
      modifies this`errNo
      ensures Valid()
      ensures ResultUsable(hasResult, status) ==>
                rc == Success && count == Some(|fields|) && errNo == NoError
      ensures !ResultUsable(hasResult, status) ==>
                rc == Error && count.None? && errNo == SequenceError
    {
      errNo := NoError;
      if !hasResult || (status != Finished && status != Premature) {
        errNo := SequenceError;
        return Error, None;
      }
      return Success, Some(|fields|);
    }

    /** SQLDescribeCol for the 1-based column icol: clears the error, checks
        the result and the bookmark column, then describes the column. */
    method DescribeCol(icol: nat, cbColNameMax: int, cat: Catalog) returns (rc: RetCode, d: Option<ColumnDescription>)
      requires Valid()
      requires ResultUsable(hasResult, status) && icol >= 1 ==> icol <= |fields|
      modifies this`errNo
      ensures Valid()
      ensures var g := ColumnGuard(hasResult, status, icol);
        && (g.Some? ==> rc == Error && d.None? && errNo == g.value)
        && (g.None? ==>
              rc == Success && errNo == NoError &&
              d == Some(DescribeColumn(fields[icol - 1], icol - 1, cbColNameMax, cat, unknownSizes)))
    {
      errNo := NoError;
      if !hasResult || (status != Finished && status != Premature) {
        errNo := SequenceError;
        return Error, None;
      }
      if icol < 1 {
        errNo := NotImplemented;
        return Error, None;
      }
      var col := icol - 1;
      d := Some(DescribeColumn(fields[col], col, cbColNameMax, cat, unknownSizes));
      rc := Success;
    }

    /** SQLColAttributes for the 1-based column icol. Unlike SQLDescribeCol it
        leaves an earlier error number in place when it succeeds. */
    method ColAttributes(icol: nat, kind: int, cbDescMax: int, cat: Catalog) returns (rc: RetCode, v: Option<AttrValue>)
      requires Valid()
      requires ResultUsable(hasResult, status) && icol >= 1 ==> icol <= |fields|
      requires (ResultUsable(hasResult, status) && icol >= 1 &&
                (kind == SQL_COLUMN_NAME || kind == SQL_COLUMN_LABEL)) ==> fields[icol - 1].name.Some?
      modifies this`errNo
      ensures Valid()
      ensures var g := ColumnGuard(hasResult, status, icol);
        && (g.Some? ==> rc == Error && v.None? && errNo == g.value)
        && (g.None? ==>
              rc == Success && errNo == old(errNo) &&
              v == Some(ColumnAttribute(kind, fields[icol - 1], icol - 1, |fields|, cbDescMax, cat, unknownSizes)))
    {
      if !hasResult || (status != Finished && status != Premature) {
        errNo := SequenceError;
        return Error, None;
      }
      if icol < 1 {
        errNo := NotImplemented;
        return Error, None;
      }
      var col := icol - 1;
      v := Some(ColumnAttribute(kind, fields[col], col, |fields|, cbDescMax, cat, unknownSizes));
      rc := Success;
    }

    /** SQLGetData for the 1-based column icol. `convert` is what the
        conversion engine reports, given whether the call continues the
        previous one; `continued` is that flag, None when the engine is not
        called. */
    method GetData(icol: nat, convert: bool -> CopyResult) returns (rc: RetCode, continued: Option<bool>)
      requires Valid()
      requires status == Finished && icol != 0 ==> hasResult
      modifies this`currentCol, this`errNo
      ensures Valid()
      ensures FetchEngine.GetData(old(View()), icol, convert) == FetchEngine.GotData(rc, View(), continued)
    {
      if status == Executing {
        errNo := SequenceError;
        return Success, None;
      }
      if status != Finished {
        errNo := StatusError;
        return Success, None;
      }
      if icol == 0 {
        errNo := NotImplemented;
        return Error, None;
      }
      var col := icol - 1;
      if col >= |fields| {
        errNo := InvalidColumnNumber;
        return Error, None;
      }
      if manualResult || !declareFetch {
        if currTuple < 0 || currTuple >= numTuples {
          errNo := InvalidCursorState;
          return Error, None;
        }
      } else if currTuple == -1 || !hasResult || endTuples {
        errNo := InvalidCursorState;
        return Error, None;
      }
      var multiple := col == currentCol;
      var result := convert(multiple);
      currentCol := col;
      continued := Some(multiple);
      match result
      case CopyOk =>
        rc := Success;
      case CopyUnsupportedType =>
        errNo := RestrictedDataType;
        rc := Error;
      case CopyUnsupportedConversion =>
        errNo := RestrictedDataType;
        rc := Error;
      case CopyResultTruncated =>
        errNo := Truncated;
        rc := SuccessWithInfo;
      case CopyGeneralError =>
        rc := Error;
      case CopyNoDataFound =>
        rc := NoDataFound;
      case CopyOther(_) =>
        errNo := InternalError;
        rc := Error;
    }

    /** SQLFetch. `next` is what QR_next_tuple reports on a declared cursor;
        `convert` is what the conversion engine reports for each bound column
        of the new row. */
    method Fetch(next: int, convert: int -> CopyResult) returns (rc: RetCode)
      requires Valid()
      modifies this`currTuple, this`errNo
      ensures Valid()
      ensures FetchEngine.Fetch(old(View()), next, convert) == FetchEngine.Fetched(rc, View())
    {
      errNo := NoError;
      if !hasResult {
        errNo := SequenceError;
        return Error;
      }
      if status == Executing {
        errNo := SequenceError;
        return Error;
      }
      if status != Finished {
        errNo := StatusError;
        return Error;
      }
      if bindings.None? {
        errNo := SequenceError;
        return Error;
      }
      if manualResult || !declareFetch {
        if currTuple >= numTuples - 1 || (maxRows > 0 && currTuple == maxRows - 1) {
          currTuple := numTuples;
          return NoDataFound;
        }
        currTuple := currTuple + 1;
      } else {
        if next < 0 {
          return NoDataFound;
        } else if next > 0 {
          currTuple := currTuple + 1;
        } else {
          errNo := ExecError;
          return Error;
        }
      }
      var o := ConvertBoundColumns(bindings.value, |fields|, convert);
      if o.err.Some? {
        errNo := o.err.value;
      }
      rc := o.rc;
    }

    /** SQLExtendedFetch: refused under declare-fetch; otherwise the pointer
        is placed one before the target row and SQLFetch takes the step.
        rowCount and rowStatus are what is written to pcrow and rgfRowStatus,
        None when they are not written. */
    method ExtendedFetch(fetchType: int, irow: int, convert: int -> CopyResult)
      returns (rc: RetCode, rowCount: Option<int>, rowStatus: Option<FetchEngine.RowStatus>)
      requires Valid()
      requires !declareFetch ==> hasResult
      modifies this`currTuple, this`errNo
      ensures Valid()
      ensures FetchEngine.ExtendedFetch(old(View()), fetchType, irow, convert)
           == FetchEngine.ExtFetched(rc, View(), rowCount, rowStatus)
    {
      if declareFetch {
        return Error, None, None;
      }
      rowStatus := Some(FetchEngine.RowNoRow);
      rowCount := Some(0);
      var tuples := numTuples;
      if fetchType == FetchEngine.SQL_FETCH_NEXT {
      } else if fetchType == FetchEngine.SQL_FETCH_PRIOR {
        if currTuple <= 0 {
          return NoDataFound, rowCount, rowStatus;
        }
        currTuple := currTuple - 2;
      } else if fetchType == FetchEngine.SQL_FETCH_FIRST {
        currTuple := -1;
      } else if fetchType == FetchEngine.SQL_FETCH_LAST {
        currTuple := if tuples <= 0 then -1 else tuples - 2;
      } else if fetchType == FetchEngine.SQL_FETCH_ABSOLUTE {
        if irow == 0 {
          currTuple := -1;
          return NoDataFound, rowCount, rowStatus;
        } else if irow > 0 {
          currTuple := irow - 2;
        } else {
          currTuple := tuples + irow - 1;
        }
      } else {
        return Error, rowCount, rowStatus;
      }
      rc := Fetch(0, convert);
      if rc == Success {
        rowStatus := Some(FetchEngine.RowSuccess);
        rowCount := Some(1);
      }
    }

    /** SQLMoreResults: a statement never has a second result set. */
    method MoreResults() returns (rc: RetCode)
      ensures rc == NoDataFound
    {
      rc := NoDataFound;
    }

    /** SQLSetPos: positioning within a rowset is not supported. */
    method SetPos(irow: nat, option: nat, lock: nat) returns (rc: RetCode)
      ensures rc == Error
    {
      rc := Error;
    }

    /** SQLSetScrollOptions: scroll options cannot be changed. */
    method SetScrollOptions(concurrency: nat, keysetSize: int, rowsetSize: nat) returns (rc: RetCode)
      ensures rc == Error
    {
      rc := Error;
    }

    /** SQLSetCursorName: a name whose length is 0, negative or too long for
        the slot is refused; otherwise the name is stored. */
    method SetCursorName(text: string, cbCursor: int) returns (rc: RetCode)
      requires Valid()
      modifies this`cursorName, this`errNo
      ensures Valid()
      ensures NameAccepted(text, cbCursor, cursorNameSize) ==>
                rc == Success && cursorName == StoredName(text, cbCursor) && errNo == old(errNo)
      ensures !NameAccepted(text, cbCursor, cursorNameSize) ==>
                rc == Error && errNo == InvalidCursorName && cursorName == old(cursorName)
    {
      var len := NameLength(text, cbCursor);
      if len <= 0 || len > cursorNameSize - 1 {
        errNo := InvalidCursorName;
        return Error;
      }
      AcceptedNameFits(text, cbCursor, cursorNameSize);
      cursorName := StoredName(text, cbCursor);
      rc := Success;
    }

    /** SQLGetCursorName into a buffer of cbCursorMax bytes. */
    method GetCursorName(cbCursorMax: int) returns (r: NameReply)
      requires Valid()
      modifies this`errNo
      ensures Valid()
      ensures r == CursorNameReply(cursorName, cbCursorMax)
      ensures r.err.Some? ==> errNo == r.err.value
      ensures r.err.None? ==> errNo == old(errNo)
    {
      if cursorName == [] {
        errNo := NoCursorName;
        return NameReply(Error, Some(NoCursorName), None, None);
      }
      var copied := StrNCopyNull(cursorName, cbCursorMax);
      r := NameReply(Success, None, copied, if copied.Some? then Some(|copied.value|) else None);
    }
  }
}
