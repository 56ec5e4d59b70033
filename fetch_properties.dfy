/** What the cursor position state machine promises: the guard order of
    SQLFetch and SQLGetData, the rows each SQLExtendedFetch direction lands
    on, the pointer range it keeps, the continuation flag of SQLGetData, and
    the places where the arithmetic does something unexpected. */
module FetchProperties {
  import opened OdbcCodes
  import opened Conversion
  import opened FetchEngine

  // ---------------------------------------------------------------- SQLFetch

  /** SQLFetch's guards, in order; none of them moves the row pointer. */
  lemma FetchGuardOrder(c: Cursor, next: int, convert: int -> CopyResult)
    requires c.WellFormed()
    ensures var r := Fetch(c, next, convert);
      && (!c.hasResult ==> r.rc == Error && r.after.errNo == SequenceError)
      && (c.hasResult && c.status == Executing ==> r.rc == Error && r.after.errNo == SequenceError)
      && (c.hasResult && c.status != Executing && c.status != Finished ==>
            r.rc == Error && r.after.errNo == StatusError)
      && (c.hasResult && c.status == Finished && c.bindings.None? ==>
            r.rc == Error && r.after.errNo == SequenceError)
      && (!c.FetchReady() ==> r.after.currTuple == c.currTuple)
  {
  }

  /** On a materialised result the step either pins the pointer at
      numTuples with no data (on the last row, or on row maxRows-1) or moves
      it forward by exactly one and reports the bound columns' outcome. */
  lemma MaterialisedFetchStep(c: Cursor, next: int, convert: int -> CopyResult)
    requires c.WellFormed() && c.FetchReady() && !c.Socket()
    ensures var r := Fetch(c, next, convert);
      && (c.currTuple >= c.numTuples - 1 || (c.maxRows > 0 && c.currTuple == c.maxRows - 1) ==>
            r.rc == NoDataFound && r.after.currTuple == c.numTuples && r.after.errNo == NoError)
      && (!(c.currTuple >= c.numTuples - 1 || (c.maxRows > 0 && c.currTuple == c.maxRows - 1)) ==>
            var o := BoundColumnsOutcome(c.bindings.value, c.numCols, convert);
            r.after.currTuple == c.currTuple + 1 && r.rc == o.rc &&
            r.after.errNo == (if o.err.Some? then o.err.value else NoError))
  {
  }

  /** On a declared cursor the backend's answer decides: no more rows leaves
      the pointer where it was, a row moves it by one, an error leaves it. */
  lemma DeclaredCursorFetchStep(c: Cursor, next: int, convert: int -> CopyResult)
    requires c.WellFormed() && c.FetchReady() && c.Socket()
    ensures var r := Fetch(c, next, convert);
      && (next < 0 ==> r.rc == NoDataFound && r.after.currTuple == c.currTuple && r.after.errNo == NoError)
      && (next == 0 ==> r.rc == Error && r.after.errNo == ExecError && r.after.currTuple == c.currTuple)
      && (next > 0 ==>
            var o := BoundColumnsOutcome(c.bindings.value, c.numCols, convert);
            r.after.currTuple == c.currTuple + 1 && r.rc == o.rc &&
            r.after.errNo == (if o.err.Some? then o.err.value else NoError))
  {
  }

  /** After a fetch on a materialised result that delivers a row, from a
      pointer at or after "before the first row", SQLGetData finds a row. */
  lemma DeliveredRowIsReadable(c: Cursor, convert: int -> CopyResult)
    requires c.WellFormed() && !c.Socket() && c.currTuple >= -1
    requires Fetch(c, 0, convert).rc == Success || Fetch(c, 0, convert).rc == SuccessWithInfo
    ensures OnValidRow(Fetch(c, 0, convert).after)
  {
  }

  /** On a materialised result a fetch keeps the pointer between "before the
      first row" (-1) and "after the last row" (numTuples). */
  lemma FetchKeepsPointerInRange(c: Cursor, convert: int -> CopyResult)
    requires c.WellFormed() && !c.Socket()
    requires -1 <= c.currTuple <= c.numTuples
    ensures -1 <= Fetch(c, 0, convert).after.currTuple <= c.numTuples
  {
  }

  /** The maxRows stop is an equality test: a pointer already past row
      maxRows-1 goes on advancing while rows remain. */
  lemma MaxRowsIsEqualityTest(c: Cursor, convert: int -> CopyResult)
    requires c.WellFormed() && c.FetchReady() && !c.Socket()
    requires c.maxRows > 0 && c.maxRows - 1 < c.currTuple < c.numTuples - 1
    ensures Fetch(c, 0, convert).after.currTuple == c.currTuple + 1
  {
  }

  /** Stopping at maxRows pins the pointer at numTuples, not at maxRows. */
  lemma MaxRowsStopPinsAtNumTuples(c: Cursor, convert: int -> CopyResult)
    requires c.WellFormed() && c.FetchReady() && !c.Socket()
    requires c.maxRows > 0 && c.currTuple == c.maxRows - 1
    ensures Fetch(c, 0, convert).rc == NoDataFound
    ensures Fetch(c, 0, convert).after.currTuple == c.numTuples
  {
  }

  // -------------------------------------------------------- SQLExtendedFetch

  /** Under declare-fetch every direction is refused and nothing is written,
      so LAST cannot run on a declared cursor. */
  lemma DeclareFetchRefusesEveryDirection(c: Cursor, fetchType: int, irow: int, convert: int -> CopyResult)
    requires c.WellFormed() && c.declareFetch
    ensures ExtendedFetch(c, fetchType, irow, convert) == ExtFetched(Error, c, None, None)
  {
  }

  /** NEXT is exactly one SQLFetch step from the current row; one row is
      reported iff that step returns SQL_SUCCESS. */
  lemma NextIsFetch(c: Cursor, irow: int, convert: int -> CopyResult)
    requires c.WellFormed() && !c.declareFetch && c.hasResult
    ensures var r := ExtendedFetch(c, SQL_FETCH_NEXT, irow, convert);
      var f := Fetch(c, 0, convert);
      && r.rc == f.rc && r.after == f.after
      && (r.rowCount == Some(1) <==> f.rc == Success)
  {
  }

  /** PRIOR from the first row or before it reports no data and changes nothing. */
  lemma PriorAtStart(c: Cursor, convert: int -> CopyResult)
    requires c.WellFormed() && !c.declareFetch && c.hasResult
    requires c.currTuple <= 0
    ensures ExtendedFetch(c, SQL_FETCH_PRIOR, 0, convert) == ExtFetched(NoDataFound, c, Some(0), Some(RowNoRow))
  {
  }

  /** PRIOR from row k (1 <= k <= numTuples) lands on row k-1. */
  lemma PriorStepsBack(c: Cursor, irow: int, convert: int -> CopyResult)
    requires c.WellFormed() && !c.declareFetch && c.FetchReady()
    requires c.maxRows == 0 && 1 <= c.currTuple <= c.numTuples
    ensures var r := ExtendedFetch(c, SQL_FETCH_PRIOR, irow, convert);
      r.after.currTuple == c.currTuple - 1 &&
      r.rc == BoundColumnsOutcome(c.bindings.value, c.numCols, convert).rc
  {
  }

  /** FIRST lands on row 0 of a non-empty result, whatever maxRows is. */
  lemma FirstLandsOnFirstRow(c: Cursor, irow: int, convert: int -> CopyResult)
    requires c.WellFormed() && !c.declareFetch && c.FetchReady()
    requires c.numTuples >= 1
    ensures var r := ExtendedFetch(c, SQL_FETCH_FIRST, irow, convert);
      r.after.currTuple == 0 &&
      r.rc == BoundColumnsOutcome(c.bindings.value, c.numCols, convert).rc
  {
  }

  /** LAST lands on the last row, unless maxRows is exactly numTuples-1. */
  lemma LastLandsOnLastRow(c: Cursor, irow: int, convert: int -> CopyResult)
    requires c.WellFormed() && !c.declareFetch && c.FetchReady()
    requires c.numTuples >= 1 && !(c.maxRows > 0 && c.maxRows == c.numTuples - 1)
    ensures var r := ExtendedFetch(c, SQL_FETCH_LAST, irow, convert);
      r.after.currTuple == c.numTuples - 1 &&
      r.rc == BoundColumnsOutcome(c.bindings.value, c.numCols, convert).rc
  {
  }

  /** With maxRows exactly numTuples-1, LAST reports no data: the step from
      numTuples-2 meets the maxRows equality test. */
  lemma LastMeetsMaxRows(c: Cursor, irow: int, convert: int -> CopyResult)
    requires c.WellFormed() && !c.declareFetch && c.FetchReady()
    requires c.maxRows > 0 && c.maxRows == c.numTuples - 1
    ensures var r := ExtendedFetch(c, SQL_FETCH_LAST, irow, convert);
      r.rc == NoDataFound && r.after.currTuple == c.numTuples
  {
  }

  /** LAST on an empty result reports no data, and the pointer ends pinned
      at numTuples rather than at -1. */
  lemma LastOnEmptyResult(c: Cursor, irow: int, convert: int -> CopyResult)
    requires c.WellFormed() && !c.declareFetch && c.FetchReady()
    requires c.numTuples <= 0
    ensures var r := ExtendedFetch(c, SQL_FETCH_LAST, irow, convert);
      r.rc == NoDataFound && r.after.currTuple == c.numTuples
  {
  }

  /** ABSOLUTE(0) positions before the first row and fetches nothing; the
      statement's status is not even looked at. */
  lemma AbsoluteZero(c: Cursor, convert: int -> CopyResult)
    requires c.WellFormed() && !c.declareFetch && c.hasResult
    ensures ExtendedFetch(c, SQL_FETCH_ABSOLUTE, 0, convert)
         == ExtFetched(NoDataFound, c.(currTuple := -1), Some(0), Some(RowNoRow))
  {
  }

  /** ABSOLUTE(n) for 1 <= n <= numTuples lands on row n-1. */
  lemma AbsoluteWithinResult(c: Cursor, n: int, convert: int -> CopyResult)
    requires c.WellFormed() && !c.declareFetch && c.FetchReady()
    requires c.maxRows == 0 && 1 <= n <= c.numTuples
    ensures var r := ExtendedFetch(c, SQL_FETCH_ABSOLUTE, n, convert);
      r.after.currTuple == n - 1 &&
      r.rc == BoundColumnsOutcome(c.bindings.value, c.numCols, convert).rc
  {
  }

  /** ABSOLUTE(n) past the end reports no data with the pointer at numTuples. */
  lemma AbsoluteBeyondEnd(c: Cursor, n: int, convert: int -> CopyResult)
    requires c.WellFormed() && !c.declareFetch && c.FetchReady()
    requires c.numTuples >= 0 && n > c.numTuples
    ensures var r := ExtendedFetch(c, SQL_FETCH_ABSOLUTE, n, convert);
      r.rc == NoDataFound && r.after.currTuple == c.numTuples && r.rowCount == Some(0)
  {
  }

  /** ABSOLUTE(-k) for 1 <= k <= numTuples counts from the end: row numTuples-k. */
  lemma AbsoluteFromEnd(c: Cursor, n: int, convert: int -> CopyResult)
    requires c.WellFormed() && !c.declareFetch && c.FetchReady()
    requires c.maxRows == 0 && -c.numTuples <= n <= -1
    ensures var r := ExtendedFetch(c, SQL_FETCH_ABSOLUTE, n, convert);
      r.after.currTuple == c.numTuples + n &&
      r.rc == BoundColumnsOutcome(c.bindings.value, c.numCols, convert).rc
  {
  }

  /** ABSOLUTE(n) with n < -numTuples "succeeds" at a negative index: one row
      is reported, yet SQLGetData then finds no row to read. */
  lemma NegativeAbsolutePastStart(c: Cursor, n: int, icol: nat,
                                  convert: int -> CopyResult, cell: bool -> CopyResult)
    requires c.WellFormed() && !c.declareFetch && c.FetchReady()
    requires c.numTuples >= 0 && n < -c.numTuples
    requires forall k :: 0 <= k < c.numCols && c.bindings.value[k] ==> convert(k) == CopyOk
    requires 1 <= icol <= c.numCols
    ensures var r := ExtendedFetch(c, SQL_FETCH_ABSOLUTE, n, convert);
      && r.rc == Success && r.rowCount == Some(1)
      && r.after.currTuple == c.numTuples + n < 0
      && GetData(r.after, icol, cell).rc == Error
      && GetData(r.after, icol, cell).after.errNo == InvalidCursorState
  {
  }

  /** A direction outside the table is refused with nothing changed;
      SQL_FETCH_RELATIVE (6) is one of them. */
  lemma UnknownDirection(c: Cursor, fetchType: int, irow: int, convert: int -> CopyResult)
    requires c.WellFormed() && !c.declareFetch && c.hasResult
    requires !(SQL_FETCH_NEXT <= fetchType <= SQL_FETCH_ABSOLUTE)
    ensures ExtendedFetch(c, fetchType, irow, convert) == ExtFetched(Error, c, Some(0), Some(RowNoRow))
  {
  }

  /** The pointer is placed before SQLFetch checks the status: a refused
      fetch keeps the new position. */
  lemma PositionedBeforeValidation(c: Cursor, n: int, convert: int -> CopyResult)
    requires c.WellFormed() && !c.declareFetch && c.hasResult
    requires c.status != Finished && n > 0
    ensures ExtendedFetch(c, SQL_FETCH_FIRST, 0, convert).rc == Error
    ensures ExtendedFetch(c, SQL_FETCH_FIRST, 0, convert).after.currTuple == -1
    ensures ExtendedFetch(c, SQL_FETCH_ABSOLUTE, n, convert).rc == Error
    ensures ExtendedFetch(c, SQL_FETCH_ABSOLUTE, n, convert).after.currTuple == n - 2
  {
  }

  /** Every direction keeps the pointer between -1 and numTuples, except
      ABSOLUTE with an offset reaching before the first row. */
  lemma ExtendedFetchKeepsPointerInRange(c: Cursor, fetchType: int, irow: int, convert: int -> CopyResult)
    requires c.WellFormed() && !c.declareFetch && c.FetchReady()
    requires 0 <= c.numTuples && -1 <= c.currTuple <= c.numTuples
    requires !(fetchType == SQL_FETCH_ABSOLUTE && irow < -c.numTuples)
    ensures -1 <= ExtendedFetch(c, fetchType, irow, convert).after.currTuple <= c.numTuples
  {
  }

  // ------------------------------------------------------------- SQLGetData

  /** SQLGetData's guards, in order. The two status guards record an error
      but return 0, which is SQL_SUCCESS; so column 0 is reported as
      unsupported only on a finished statement. */
  lemma GetDataGuardOrder(c: Cursor, icol: nat, convert: bool -> CopyResult)
    requires c.status == Finished && icol != 0 ==> c.hasResult
    ensures var r := GetData(c, icol, convert);
      && (c.status == Executing ==> r.rc.Value() == 0 && r.after.errNo == SequenceError)
      && (c.status != Executing && c.status != Finished ==> r.rc.Value() == 0 && r.after.errNo == StatusError)
      && (c.status == Finished && icol == 0 ==> r.rc == Error && r.after.errNo == NotImplemented)
      && (c.status == Finished && icol > c.numCols ==> r.rc == Error && r.after.errNo == InvalidColumnNumber)
      && (c.status == Finished && 1 <= icol <= c.numCols && !OnValidRow(c) ==>
            r.rc == Error && r.after.errNo == InvalidCursorState)
  {
  }

  /** Once past the guards, the return code and error number are the
      conversion switch's, and the engine is told whether the column is the
      one read last. */
  lemma GetDataReportsConversion(c: Cursor, icol: nat, convert: bool -> CopyResult)
    requires c.status == Finished && 1 <= icol <= c.numCols && c.hasResult && OnValidRow(c)
    ensures var r := GetData(c, icol, convert);
      var o := GetDataReturn(convert(icol - 1 == c.currentCol));
      && r.rc == o.rc
      && r.after.errNo == (if o.err.Some? then o.err.value else c.errNo)
      && r.after.currentCol == icol - 1
  {
  }

  /** A second call for the same column continues the first, whatever the
      first one returned. */
  lemma SameColumnContinues(c: Cursor, icol: nat, first: bool -> CopyResult, second: bool -> CopyResult)
    requires c.status == Finished && icol != 0 ==> c.hasResult
    requires GetData(c, icol, first).continued.Some?
    ensures GetData(GetData(c, icol, first).after, icol, second).continued == Some(true)
  {
  }

  /** A call for another column starts afresh. */
  lemma OtherColumnRestarts(c: Cursor, icol: nat, other: nat, first: bool -> CopyResult, second: bool -> CopyResult)
    requires c.status == Finished && icol != 0 ==> c.hasResult
    requires GetData(c, icol, first).continued.Some?
    requires other != icol && 1 <= other <= c.numCols
    ensures GetData(GetData(c, icol, first).after, other, second).continued == Some(false)
  {
  }

  /** SQLFetch does not reset the last-read column: reading a column, moving
      to the next row and reading the same column again tells the engine to
      continue the earlier value. */
  lemma ContinuationSurvivesFetch(c: Cursor, icol: nat, first: bool -> CopyResult,
                                  convert: int -> CopyResult, second: bool -> CopyResult)
    requires c.WellFormed() && !c.Socket()
    requires c.status == Finished && icol != 0 ==> c.hasResult
    requires GetData(c, icol, first).continued.Some?
    requires Fetch(GetData(c, icol, first).after, 0, convert).rc == Success
    ensures GetData(Fetch(GetData(c, icol, first).after, 0, convert).after, icol, second).continued == Some(true)
  {
    var g := GetData(c, icol, first);
    var f := Fetch(g.after, 0, convert);
    assert OnValidRow(c);
    DeliveredRowIsReadable(g.after, convert);
  }

  // -------------------------------------------------------------- scenarios

  /** A result of three rows, one bound column, every conversion clean. */
  function ThreeRows(maxRows: int): (c: Cursor)
    ensures c.WellFormed() && c.FetchReady() && !c.Socket() && c.numTuples == 3
  {
    Cursor(Finished, true, true, false, 3, false, 1, -1, maxRows, -1, Some([true]), NoError)
  }

  /** FIRST, NEXT, NEXT, NEXT over three rows: rows 0, 1, 2, then no data
      with the pointer pinned at 3. */
  lemma ThreeRowWalk()
    ensures var ok := (k: int) => CopyOk;
      var r1 := ExtendedFetch(ThreeRows(0), SQL_FETCH_FIRST, 0, ok);
      var r2 := ExtendedFetch(r1.after, SQL_FETCH_NEXT, 0, ok);
      var r3 := ExtendedFetch(r2.after, SQL_FETCH_NEXT, 0, ok);
      var r4 := ExtendedFetch(r3.after, SQL_FETCH_NEXT, 0, ok);
      && r1.rc == Success && r1.after.currTuple == 0
      && r2.rc == Success && r2.after.currTuple == 1
      && r3.rc == Success && r3.after.currTuple == 2
      && r4.rc == NoDataFound && r4.after.currTuple == 3
  {
  }

  /** With maxRows = 2 the third fetch reports no data although a third row
      exists, and pins the pointer at 3. */
  lemma MaxRowsWalk()
    ensures var ok := (k: int) => CopyOk;
      var r1 := Fetch(ThreeRows(2), 0, ok);
      var r2 := Fetch(r1.after, 0, ok);
      var r3 := Fetch(r2.after, 0, ok);
      && r1.rc == Success && r1.after.currTuple == 0
      && r2.rc == Success && r2.after.currTuple == 1
      && r3.rc == NoDataFound && r3.after.currTuple == 3
  {
  }
}
