/** The cursor position state machine of SQLFetch, SQLExtendedFetch and
    SQLGetData, as functions of the statement fields they read and write. */
module FetchEngine {
  import opened OdbcCodes
  import opened Conversion

  /** The statement fields the cursor operations read and write.
      bindings None stands for a statement whose bindings were never
      allocated; otherwise entry k tells whether column k has a buffer. */
  datatype Cursor = Cursor(
    status: Status,
    hasResult: bool,
    manualResult: bool,
    declareFetch: bool,
    numTuples: int,
    endTuples: bool,
    numCols: nat,
    currTuple: int,
    maxRows: int,
    currentCol: int,
    bindings: Option<seq<bool>>,
    errNo: ErrNo)
  {
    /** Rows come one at a time from a declared cursor on the backend. */
    predicate Socket() {
      !manualResult && declareFetch
    }

    /** The bindings, when allocated, cover every result column. */
    predicate WellFormed() {
      bindings.Some? ==> numCols <= |bindings.value|
    }

    /** All four guards of SQLFetch pass. */
    predicate FetchReady() {
      hasResult && status == Finished && bindings.Some?
    }
  }

  /** The outcome of SQLFetch's single forward step. */
  datatype Step = Advanced(curr: int) | Halted(rc: RetCode, curr: int, err: ErrNo)

  /** SQLFetch's single forward step. On a materialised result it advances
      unless the pointer is on the last row or on row maxRows-1, and then pins
      the pointer at numTuples. On a declared cursor, `next` is what
      QR_next_tuple reports: below 0 no more rows, above 0 a row, 0 an error. */
  function ForwardStep(c: Cursor, next: int): (s: Step)
    ensures s.Advanced? ==> s.curr == c.currTuple + 1
    ensures s.Halted? ==> s.rc == NoDataFound || (s.rc == Error && s.err == ExecError)
    ensures s.Halted? && s.rc == NoDataFound ==> s.err == NoError
    ensures !c.Socket() ==>
              (s.Halted? <==> c.currTuple >= c.numTuples - 1 || (c.maxRows > 0 && c.currTuple == c.maxRows - 1))
    ensures !c.Socket() && s.Halted? ==> s.rc == NoDataFound && s.curr == c.numTuples
    ensures c.Socket() ==> (s.Advanced? <==> next > 0)
    ensures c.Socket() && s.Halted? ==> s.curr == c.currTuple && (s.rc == NoDataFound <==> next < 0)
  {
    if !c.Socket() then
      if c.currTuple >= c.numTuples - 1 || (c.maxRows > 0 && c.currTuple == c.maxRows - 1) then
        Halted(NoDataFound, c.numTuples, NoError)
      else
        Advanced(c.currTuple + 1)
    else if next < 0 then Halted(NoDataFound, c.currTuple, NoError)
    else if next > 0 then Advanced(c.currTuple + 1)
    else Halted(Error, c.currTuple, ExecError)
  }

  datatype Fetched = Fetched(rc: RetCode, after: Cursor)

  /** SQLFetch: clear the error, check the guards, take one step forward and
      convert the bound columns of the new row. `convert` is what the
      conversion engine reports for each column of that row. */
  function Fetch(c: Cursor, next: int, convert: int -> CopyResult): (r: Fetched)
    requires c.WellFormed()
    ensures r.after == c.(currTuple := r.after.currTuple, errNo := r.after.errNo)
    ensures !c.FetchReady() ==> r.rc == Error && r.after.currTuple == c.currTuple
    ensures r.rc == Success ==> r.after.errNo == NoError
    ensures r.rc == Success || r.rc == SuccessWithInfo ==> r.after.currTuple == c.currTuple + 1
  {
    var cleared := c.(errNo := NoError);
    if !c.hasResult then Fetched(Error, cleared.(errNo := SequenceError))
    else if c.status == Executing then Fetched(Error, cleared.(errNo := SequenceError))
    else if c.status != Finished then Fetched(Error, cleared.(errNo := StatusError))
    else if c.bindings.None? then Fetched(Error, cleared.(errNo := SequenceError))
    else
      match ForwardStep(c, next)
      case Halted(rc, curr, err) => Fetched(rc, cleared.(currTuple := curr, errNo := err))
      case Advanced(curr) =>
        var o := BoundColumnsOutcome(c.bindings.value, c.numCols, convert);
        Fetched(o.rc, cleared.(currTuple := curr, errNo := if o.err.Some? then o.err.value else NoError))
  }

  // The fetch directions of the ODBC headers.
  const SQL_FETCH_NEXT: int := 1
  const SQL_FETCH_FIRST: int := 2
  const SQL_FETCH_LAST: int := 3
  const SQL_FETCH_PRIOR: int := 4
  const SQL_FETCH_ABSOLUTE: int := 5

  /** Where SQLExtendedFetch leaves the pointer before its forward step:
      StepFrom(p) sets the pointer to p and fetches; Done(rc, p) sets it to p
      and returns rc without fetching. */
  datatype Positioned = StepFrom(curr: int) | Done(rc: RetCode, curr: int)

  /** The direction table of SQLExtendedFetch. Each target row is reached by
      placing the pointer one before it, since the step then adds one: for
      StepFrom(p) the row the direction asks for is p + 1. */
  function Preposition(fetchType: int, irow: int, curr: int, numTuples: int): (p: Positioned)
    // NEXT asks for the row after the current one.
    ensures fetchType == SQL_FETCH_NEXT ==> p.StepFrom? && p.curr + 1 == curr + 1
    // PRIOR asks for the row before the current one; at or before row 0 there is none.
    ensures fetchType == SQL_FETCH_PRIOR && curr <= 0 ==> p == Done(NoDataFound, curr)
    ensures fetchType == SQL_FETCH_PRIOR && curr > 0 ==> p.StepFrom? && p.curr + 1 == curr - 1
    // FIRST asks for row 0; LAST for row numTuples-1, or row 0 of an empty result.
    ensures fetchType == SQL_FETCH_FIRST ==> p.StepFrom? && p.curr + 1 == 0
    ensures fetchType == SQL_FETCH_LAST && numTuples > 0 ==> p.StepFrom? && p.curr + 1 == numTuples - 1
    ensures fetchType == SQL_FETCH_LAST && numTuples <= 0 ==> p.StepFrom? && p.curr + 1 == 0
    // ABSOLUTE(0) positions before the first row without fetching; ABSOLUTE(n)
    // asks for the n-th row, counted from 1 at the start or from -1 at the end.
    ensures fetchType == SQL_FETCH_ABSOLUTE && irow == 0 ==> p == Done(NoDataFound, -1)
    ensures fetchType == SQL_FETCH_ABSOLUTE && irow > 0 ==> p.StepFrom? && p.curr + 1 == irow - 1
    ensures fetchType == SQL_FETCH_ABSOLUTE && irow < 0 ==> p.StepFrom? && p.curr + 1 == numTuples + irow
    // Any other direction is refused and the pointer stays.
    ensures !(SQL_FETCH_NEXT <= fetchType <= SQL_FETCH_ABSOLUTE) ==> p == Done(Error, curr)
  {
    if fetchType == SQL_FETCH_NEXT then StepFrom(curr)
    else if fetchType == SQL_FETCH_PRIOR then
      if curr <= 0 then Done(NoDataFound, curr) else StepFrom(curr - 2)
    else if fetchType == SQL_FETCH_FIRST then StepFrom(-1)
    else if fetchType == SQL_FETCH_LAST then StepFrom(if numTuples <= 0 then -1 else numTuples - 2)
    else if fetchType == SQL_FETCH_ABSOLUTE then
      if irow == 0 then Done(NoDataFound, -1)
      else if irow > 0 then StepFrom(irow - 2)
      else StepFrom(numTuples + irow - 1)
    else Done(Error, curr)
  }

  /** The row status SQLExtendedFetch writes for its one row. */
  datatype RowStatus = RowSuccess | RowNoRow

  /** What SQLExtendedFetch returns and writes: rowCount and rowStatus are
      None when the call returns before initialising them. */
  datatype ExtFetched = ExtFetched(rc: RetCode, after: Cursor, rowCount: Option<int>, rowStatus: Option<RowStatus>)

  /** SQLExtendedFetch: refused under declare-fetch; otherwise the pointer is
      placed by the direction table and then SQLFetch runs, its guards
      included. One row is reported only when SQLFetch returns SQL_SUCCESS. */
  function ExtendedFetch(c: Cursor, fetchType: int, irow: int, convert: int -> CopyResult): (r: ExtFetched)
    requires c.WellFormed()
    requires !c.declareFetch ==> c.hasResult
    ensures r.after == c.(currTuple := r.after.currTuple, errNo := r.after.errNo)
    ensures c.declareFetch ==> r == ExtFetched(Error, c, None, None)
    ensures !c.declareFetch ==> r.rowCount.Some? && r.rowStatus.Some?
    ensures !c.declareFetch ==> (r.rowCount == Some(1) <==> r.rc == Success)
    ensures !c.declareFetch ==> (r.rowCount == Some(0) <==> r.rc != Success)
    ensures !c.declareFetch ==> (r.rowStatus == Some(RowSuccess) <==> r.rc == Success)
    ensures !c.declareFetch ==> (r.rowStatus == Some(RowNoRow) <==> r.rc != Success)
  {
    if c.declareFetch then ExtFetched(Error, c, None, None)
    else
      match Preposition(fetchType, irow, c.currTuple, c.numTuples)
      case Done(rc, curr) => ExtFetched(rc, c.(currTuple := curr), Some(0), Some(RowNoRow))
      case StepFrom(curr) =>
        var f := Fetch(c.(currTuple := curr), 0, convert);
        if f.rc == Success then ExtFetched(Success, f.after, Some(1), Some(RowSuccess))
        else ExtFetched(f.rc, f.after, Some(0), Some(RowNoRow))
  }

  /** SQLGetData's test that the statement is positioned on a row: by index
      on a materialised result, by the backend's state on a declared cursor. */
  predicate OnValidRow(c: Cursor) {
    if !c.Socket() then 0 <= c.currTuple < c.numTuples
    else !(c.currTuple == -1 || !c.hasResult || c.endTuples)
  }

  /** What SQLGetData returns: continued is the "same column again" flag
      handed to the conversion engine, None when the engine is not called. */
  datatype GotData = GotData(rc: RetCode, after: Cursor, continued: Option<bool>)

  /** SQLGetData for the 1-based column icol. `convert` is what the engine
      reports, given whether this call continues the previous one. */
  function GetData(c: Cursor, icol: nat, convert: bool -> CopyResult): (r: GotData)
    requires c.status == Finished && icol != 0 ==> c.hasResult
    ensures r.after == c.(currentCol := r.after.currentCol, errNo := r.after.errNo)
    ensures r.continued.Some? <==> c.status == Finished && 1 <= icol <= c.numCols && OnValidRow(c)
    ensures r.continued.Some? ==> r.continued.value == (icol - 1 == c.currentCol)
    ensures r.continued.Some? ==> r.after.currentCol == icol - 1
    ensures r.continued.None? ==> r.after.errNo != NoError
    ensures r.continued.None? ==> (r.rc == Success <==> c.status != Finished)
    ensures r.continued.None? ==> r.after.currentCol == c.currentCol
  {
    if c.status == Executing then GotData(Success, c.(errNo := SequenceError), None)
    else if c.status != Finished then GotData(Success, c.(errNo := StatusError), None)
    else if icol == 0 then GotData(Error, c.(errNo := NotImplemented), None)
    else if icol - 1 >= c.numCols then GotData(Error, c.(errNo := InvalidColumnNumber), None)
    else if !OnValidRow(c) then GotData(Error, c.(errNo := InvalidCursorState), None)
    else
      var multiple := icol - 1 == c.currentCol;
      var o := GetDataReturn(convert(multiple));
      GotData(o.rc, c.(currentCol := icol - 1, errNo := if o.err.Some? then o.err.value else c.errNo), Some(multiple))
  }
}
